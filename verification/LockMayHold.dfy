/** When exactly the lock can be held across a call: what a walker would have to compute to pass all
    safe code and no other, and how far the test's walker is from it. */
module LockMayHold {
  import opened Options
  import opened LockScope

  /** Whether the lock may be held at the end of the code, if it may be held at its start or not. */
  function MayHoldAfter(c: Code, held: bool): bool {
    match c
    case End => held
    case TakeThen(r) => MayHoldAfter(r, true)
    case GiveThen(r) => MayHoldAfter(r, false)
    case CallThen(_, r) => MayHoldAfter(r, held)
    case Nest(b, r) => MayHoldAfter(r, held || MayHoldAfter(b, held))
  }

  /** Whether the code may make a call with the lock held. A block starts, in whichever turn, and ends,
      after however many, with what its code before it or its own last turn left. */
  function MayCall(c: Code, held: bool): bool {
    match c
    case End => false
    case TakeThen(r) => MayCall(r, true)
    case GiveThen(r) => MayCall(r, false)
    case CallThen(_, r) => held || MayCall(r, held)
    case Nest(b, r) =>
      var around := held || MayHoldAfter(b, held);
      MayCall(b, around) || MayCall(r, around)
  }

  /** Nothing beyond it happens. */
  lemma {:induction false} MayCovers(c: Code, acts: seq<Act>, fell: bool, held: bool, may: bool)
    requires Executes(c, acts, fell) && (held ==> may)
    ensures CallsHeld(acts, held) ==> MayCall(c, may)
    ensures fell && HeldAfter(acts, held) ==> MayHoldAfter(c, may)
    decreases |acts|, c
  {
    match c
    case End =>
    case TakeThen(r) => if acts != [] { MayCovers(r, acts[1..], fell, true, true); }
    case GiveThen(r) => if acts != [] { MayCovers(r, acts[1..], fell, false, false); }
    case CallThen(_, r) => if acts != [] { MayCovers(r, acts[1..], fell, held, may); }
    case Nest(b, r) => MayCoversNest(c, acts, fell, held, may);
  }

  lemma {:induction false} MayCoversNest(c: Code, acts: seq<Act>, fell: bool, held: bool, may: bool)
    requires c.Nest? && Executes(c, acts, fell) && (held ==> may)
    ensures CallsHeld(acts, held) ==> MayCall(c, may)
    ensures fell && HeldAfter(acts, held) ==> MayHoldAfter(c, may)
    decreases |acts|, c, 0
  {
    var b, r := c.body, c.rest;
    var around := may || MayHoldAfter(b, may);
    if acts == [] && !fell {
    } else if Executes(r, acts, fell) {
      MayCovers(r, acts, fell, held, around);
    } else if !fell && Executes(b, acts, false) {
      MayCovers(b, acts, false, held, around);
    } else {
      var k :| 0 < k <= |acts| && Executes(b, acts[..k], true) && Executes(c, acts[k..], fell);
      MayCovers(b, acts[..k], true, held, may);
      MayCovers(b, acts[..k], true, held, around);
      MayCoversNest(c, acts[k..], fell, HeldAfter(acts[..k], held), around);
      ActsInPieces(acts[..k], acts[k..], held);
      assert acts == acts[..k] + acts[k..];
    }
  }

  /** A turn of a block that leaves the lock held, and then more. */
  lemma {:induction false} TurnFirst(c: Code, turn: seq<Act>, later: seq<Act>, fell: bool)
    requires c.Nest? && Executes(c.body, turn, true) && HeldAfter(turn, false) && Executes(c, later, fell)
    ensures Executes(c, turn + later, fell)
    ensures HeldAfter(turn + later, false) == HeldAfter(later, true)
    ensures CallsHeld(later, true) ==> CallsHeld(turn + later, false)
  {
    var acts := turn + later;
    assert acts[..|turn|] == turn && acts[|turn|..] == later;
    assert 0 < |turn| <= |acts| && Executes(c.body, acts[..|turn|], true) && Executes(c, acts[|turn|..], fell);
    ActsInPieces(turn, later, false);
  }

  /** A hold that may be there at the end is there after some execution. */
  lemma {:induction false} HoldHappens(c: Code, held: bool) returns (acts: seq<Act>)
    requires MayHoldAfter(c, held)
    ensures Executes(c, acts, true) && HeldAfter(acts, held)
    decreases c
  {
    match c
    case End =>
      acts := [];
    case TakeThen(r) =>
      var rest := HoldHappens(r, true);
      acts := [Takes] + rest;
      assert acts[1..] == rest;
    case GiveThen(r) =>
      var rest := HoldHappens(r, false);
      acts := [Gives] + rest;
      assert acts[1..] == rest;
    case CallThen(name, r) =>
      var rest := HoldHappens(r, held);
      acts := [Calls(name)] + rest;
      assert acts[1..] == rest;
    case Nest(b, r) =>
      acts := HoldHappens(r, held || MayHoldAfter(b, held));
      if !held && MayHoldAfter(b, held) {
        var turn := HoldHappens(b, held);
        TurnFirst(c, turn, acts, true);
        acts := turn + acts;
      }
  }

  /** A call that may be made under the lock is made in some execution. */
  lemma {:induction false} CallHappens(c: Code, held: bool) returns (acts: seq<Act>)
    requires MayCall(c, held)
    ensures Executes(c, acts, false) && CallsHeld(acts, held)
    decreases c
  {
    match c
    case TakeThen(r) =>
      var rest := CallHappens(r, true);
      acts := [Takes] + rest;
      assert acts[1..] == rest;
    case GiveThen(r) =>
      var rest := CallHappens(r, false);
      acts := [Gives] + rest;
      assert acts[1..] == rest;
    case CallThen(name, r) =>
      var rest := [];
      if !held { rest := CallHappens(r, held); }
      acts := [Calls(name)] + rest;
      assert acts[1..] == rest;
    case Nest(b, r) =>
      acts := CallHappensInNest(c, held);
  }

  lemma {:induction false} CallHappensInNest(c: Code, held: bool) returns (acts: seq<Act>)
    requires c.Nest? && MayCall(c, held)
    ensures Executes(c, acts, false) && CallsHeld(acts, held)
    decreases c, 0
  {
    var b, r := c.body, c.rest;
    var around := held || MayHoldAfter(b, held);
    if MayCall(b, around) {
      acts := CallHappens(b, around);
    } else {
      acts := CallHappens(r, around);
    }
    if around != held {
      var turn := HoldHappens(b, held);
      TurnFirst(c, turn, acts, false);
      acts := turn + acts;
    }
  }

  /** Code violates the discipline exactly when this computation says so. */
  lemma ViolatesExactly(c: Code)
    ensures Violates(c) <==> MayCall(c, false)
  {
    if Violates(c) {
      var acts, fell :| Executes(c, acts, fell) && CallsHeld(acts, false);
      MayCovers(c, acts, fell, false, false);
    }
    if MayCall(c, false) {
      var acts := CallHappens(c, false);
    }
  }

  /** Where an empty report misleads, the code takes the lock again where an outer hold has been released
      for a branch. */
  lemma EmptyReportMisleadsOnlyOnRetake(ks: seq<Kind>, c: Code)
    requires Balanced(ks, 0) && Flatten(c) == ks && Findings(START, ks) == [] && MayCall(c, false)
    ensures !NoRetake(START, ks)
  {
    ViolatesExactly(c);
    if NoRetake(START, ks) {
      CheckerIsSound(ks);
    }
  }
}
