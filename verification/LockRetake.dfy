/** When exactly the lock-scope test can be relied on: a take is harmless to its verdict if and only if
    its walker does not think the lock held, released for a branch or not. */
module LockRetake {
  import opened Options
  import opened LockScope

  /** Code with blocks still open: what stands in each of them so far, outermost first. */
  function Opened(fs: seq<Code>): seq<Kind>
    requires fs != []
  {
    if |fs| == 1 then Flatten(fs[0]) else Flatten(fs[0]) + [Open] + Opened(fs[1..])
  }

  /** Code that keeps to both rules, with nothing reported. */
  predicate Clean(w: Walker, ks: seq<Kind>) {
    NoRetake(w, ks) && NoDoubleGive(w, ks) && Findings(w, ks) == []
  }

  lemma {:induction false} CleanInPieces(w: Walker, a: seq<Kind>, b: seq<Kind>)
    ensures Clean(w, a + b) <==> Clean(w, a) && Clean(Walk(w, a), b)
    ensures Walk(w, a + b) == Walk(Walk(w, a), b)
  {
    WalkInPieces(w, a, b);
  }

  lemma {:induction false} OpenIsClean(w: Walker)
    ensures Clean(w, [Open]) && Walk(w, [Open]) == Step(w, Open)
  {
    assert [Open][1..] == [];
  }

  /** The walk of the first of several open blocks, and of the rest. */
  lemma {:induction false} WalkOpened(w: Walker, fs: seq<Code>)
    requires |fs| > 1
    ensures var inner := Step(Walk(w, Flatten(fs[0])), Open);
            && (Clean(w, Opened(fs)) <==> Clean(w, Flatten(fs[0])) && Clean(inner, Opened(fs[1..])))
            && Walk(w, Opened(fs)) == Walk(inner, Opened(fs[1..]))
  {
    var first := Flatten(fs[0]);
    CleanInPieces(w, first + [Open], Opened(fs[1..]));
    CleanInPieces(w, first, [Open]);
    OpenIsClean(Walk(w, first));
  }

  // ---- A completion that the test passes and that violates --------------------------------

  function Append(c: Code, d: Code): Code {
    match c
    case End => d
    case TakeThen(r) => TakeThen(Append(r, d))
    case GiveThen(r) => GiveThen(Append(r, d))
    case CallThen(name, r) => CallThen(name, Append(r, d))
    case Nest(b, r) => Nest(b, Append(r, d))
  }

  lemma {:induction false} FlattenAppend(c: Code, d: Code)
    ensures Flatten(Append(c, d)) == Flatten(c) + Flatten(d)
  {
    match c
    case End =>
    case TakeThen(r) => FlattenAppend(r, d);
    case GiveThen(r) => FlattenAppend(r, d);
    case CallThen(name, r) => FlattenAppend(r, d);
    case Nest(b, r) => FlattenAppend(r, d);
  }

  /** Straight through the first part, skipping its blocks, and then some execution of the second. */
  lemma {:induction false} StraightThen(c: Code, d: Code, acts: seq<Act>)
    requires Executes(d, acts, false)
    ensures Executes(Append(c, d), Straight(c) + acts, false)
  {
    match c
    case End => assert Straight(c) + acts == acts;
    case TakeThen(r) => StraightThen(r, d, acts); FirstActOff(Takes, Straight(r), acts);
    case GiveThen(r) => StraightThen(r, d, acts); FirstActOff(Gives, Straight(r), acts);
    case CallThen(name, r) => StraightThen(r, d, acts); FirstActOff(Calls(name), Straight(r), acts);
    case Nest(b, r) => StraightThen(r, d, acts);
  }

  lemma FirstActOff(act: Act, straight: seq<Act>, acts: seq<Act>)
    ensures var all := [act] + straight + acts; all != [] && all[0] == act && all[1..] == straight + acts
  {
  }

  /** The open blocks with a take and a give at their innermost end, all closed, and a call after the
      block that lies `out` blocks inside the first. */
  function Completed(fs: seq<Code>, out: int, name: string): Code
    requires fs != []
  {
    Append(fs[0],
           if |fs| == 1 then TakeThen(GiveThen(End))
           else Nest(Completed(fs[1..], out - 1, name), if out == 1 then CallThen(name, End) else End))
  }

  /** What the completion adds after the take. */
  function Ending(fs: seq<Code>, out: int, name: string): seq<Kind>
    requires fs != []
  {
    if |fs| == 1 then [Give]
    else Ending(fs[1..], out - 1, name) + [Close] + if out == 1 then [Call(name)] else []
  }

  lemma {:induction false} CompletedFlattens(fs: seq<Code>, out: int, name: string)
    requires fs != []
    ensures Flatten(Completed(fs, out, name)) == Opened(fs) + [Take] + Ending(fs, out, name)
    ensures Take !in Ending(fs, out, name)
  {
    if |fs| == 1 {
      FlattenAppend(fs[0], TakeThen(GiveThen(End)));
      assert Flatten(TakeThen(GiveThen(End))) == [Take] + [Give] by { assert Flatten(GiveThen(End)) == [Give]; }
    } else {
      CompletedFlattens(fs[1..], out - 1, name);
      var inside := Completed(fs[1..], out - 1, name);
      var after := if out == 1 then CallThen(name, End) else End;
      FlattenAppend(fs[0], Nest(inside, after));
      assert Flatten(after) == if out == 1 then [Call(name)] else [];
      NestedEnding(Flatten(fs[0]), Opened(fs[1..]), Ending(fs[1..], out - 1, name), Flatten(after));
    }
  }

  lemma NestedEnding(a: seq<Kind>, b: seq<Kind>, c: seq<Kind>, d: seq<Kind>)
    ensures a + ([Open] + (b + [Take] + c) + [Close] + d) == a + [Open] + b + [Take] + (c + [Close] + d)
  {
  }

  /** The walker has nothing to say about it, and ends it with the lock released. */
  lemma {:induction false} CompletedIsQuiet(w: Walker, fs: seq<Code>, out: int, name: string)
    requires fs != [] && Sane(w) && Clean(w, Opened(fs))
    requires var w' := Walk(w, Opened(fs)); w'.held && w'.released.Some?
    ensures var ks := Flatten(Completed(fs, out, name)); Findings(w, ks) == [] && !Walk(w, ks).held
    decreases |fs|
  {
    if |fs| == 1 {
      TakeAndGive(Walk(w, Flatten(fs[0])));
      FlattenAppend(fs[0], TakeThen(GiveThen(End)));
      WalkInPieces(w, Flatten(fs[0]), Flatten(TakeThen(GiveThen(End))));
    } else {
      var first := Walk(w, Flatten(fs[0]));
      WalkOpened(w, fs);
      SaneThroughout(w, fs[0]);
      CompletedIsQuiet(Step(first, Open), fs[1..], out - 1, name);
      var inside := Completed(fs[1..], out - 1, name);
      var after := if out == 1 then CallThen(name, End) else End;
      FlattenAppend(fs[0], Nest(inside, after));
      WalkInPieces(w, Flatten(fs[0]), Flatten(Nest(inside, after)));
      WalkNest(first, inside, after);
      FreeCallIsQuiet(Step(Walk(Step(first, Open), Flatten(inside)), Close), after, name);
    }
  }

  lemma {:induction false} TakeAndGive(w: Walker)
    requires w.held && w.released.Some?
    ensures var ks := Flatten(TakeThen(GiveThen(End))); Findings(w, ks) == [] && !Walk(w, ks).held
  {
    var ks := Flatten(TakeThen(GiveThen(End)));
    assert Flatten(GiveThen(End)) == [Give];
    assert ks == [Take, Give] && ks[1..] == [Give] && ks[1..][1..] == [];
  }

  lemma {:induction false} FreeCallIsQuiet(w: Walker, c: Code, name: string)
    requires !w.held && (c == End || c == CallThen(name, End))
    ensures Findings(w, Flatten(c)) == [] && !Walk(w, Flatten(c)).held
  {
    if c != End {
      assert Flatten(c) == [Call(name)] && [Call(name)][1..] == [];
    }
  }

  // ---- Why it violates --------------------------------------------------------------------

  lemma {:induction false} SaneInside(w: Walker, fs: seq<Code>)
    requires fs != [] && Sane(w)
    ensures var w' := Walk(w, Opened(fs)); Sane(w') && w'.depth == w.depth + |fs| - 1
    decreases |fs|
  {
    SaneThroughout(w, fs[0]);
    if |fs| > 1 {
      WalkOpened(w, fs);
      SaneInside(Step(Walk(w, Flatten(fs[0])), Open), fs[1..]);
    }
  }

  /** A hold that was not there at some depth has been taken at that depth or further in. */
  lemma {:induction false} TakenInside(w: Walker, fs: seq<Code>, depth: int)
    requires fs != [] && Sane(w) && depth <= w.depth && (w.held ==> w.takeDepth >= depth)
    ensures var w' := Walk(w, Opened(fs)); w'.held ==> w'.takeDepth >= depth
    decreases |fs|
  {
    SaneThroughout(w, fs[0]);
    if |fs| > 1 {
      WalkOpened(w, fs);
      TakenInside(Step(Walk(w, Flatten(fs[0])), Open), fs[1..], depth);
    }
  }

  /** A release made further out stays the one in force. */
  lemma {:induction false} ReleasedInside(w: Walker, fs: seq<Code>)
    requires fs != [] && Sane(w) && w.held && w.released.Some? && w.released.value < w.depth
    requires Clean(w, Opened(fs))
    ensures Walk(w, Opened(fs)).released == w.released
    decreases |fs|
  {
    if |fs| == 1 {
      ReleasedThroughout(w, fs[0]);
    } else {
      WalkOpened(w, fs);
      ReleasedThroughout(w, fs[0]);
      ReleasedInside(Step(w, Open), fs[1..]);
    }
  }

  /** So a release in force was made in a block that was entered with the lock taken to be held. */
  lemma {:induction false} ReleaseWasOfAHold(w: Walker, fs: seq<Code>)
    requires fs != [] && Sane(w) && Clean(Step(w, Open), Opened(fs))
    requires var w' := Walk(Step(w, Open), Opened(fs)); w'.held && w'.released == Some(w.depth + 1)
    ensures w.Believes()
  {
    var entered := Step(w, Open);
    SaneInside(entered, fs);
    if !w.held {
      TakenInside(entered, fs, w.depth + 1);
    } else if w.released.Some? {
      ReleasedInside(entered, fs);
    }
  }

  /** The completion makes its call with the lock held when the block of the release is skipped. */
  lemma {:induction false} CompletedViolates(w: Walker, fs: seq<Code>, out: int, name: string) returns (acts: seq<Act>)
    requires 1 <= out < |fs| && Sane(w) && Clean(w, Opened(fs))
    requires var w' := Walk(w, Opened(fs)); w'.held && w'.released == Some(w.depth + out)
    ensures Executes(Completed(fs, out, name), acts, false) && CallsHeld(acts, w.Believes())
    decreases |fs|
  {
    var first := Walk(w, Flatten(fs[0]));
    WalkOpened(w, fs);
    SaneThroughout(w, fs[0]);
    BeliefIsReal(w, fs[0]);
    var inside := Completed(fs[1..], out - 1, name);
    var rest: seq<Act>;
    if out == 1 {
      ReleaseWasOfAHold(first, fs[1..]);
      rest := [Calls(name)];
      assert rest[1..] == [];
      assert Executes(CallThen(name, End), rest, false);
      assert Executes(Nest(inside, CallThen(name, End)), rest, false);
      StraightThen(fs[0], Nest(inside, CallThen(name, End)), rest);
    } else {
      rest := CompletedViolates(Step(first, Open), fs[1..], out - 1, name);
      assert Executes(Nest(inside, End), rest, false);
      StraightThen(fs[0], Nest(inside, End), rest);
    }
    acts := Straight(fs[0]) + rest;
    ActsInPieces(Straight(fs[0]), rest, w.Believes());
  }

  // ---- Exactly when a take is harmless ----------------------------------------------------

  /** The code goes on after the open blocks with a take, then without a take inside a released hold,
      and the test reports nothing. */
  predicate Continues(fs: seq<Code>, c: Code)
    requires fs != []
  {
    var begun := Opened(fs) + [Take];
    && begun <= Flatten(c)
    && Findings(START, Flatten(c)) == []
    && NoRetake(Walk(START, begun), Flatten(c)[|begun|..])
  }

  lemma {:induction false} BalancedFrom(k: Kind, ks: seq<Kind>, depth: nat)
    ensures Balanced([k] + ks, depth) <==> match k
                                           case Open => Balanced(ks, depth + 1)
                                           case Close => depth > 0 && Balanced(ks, depth - 1)
                                           case _ => Balanced(ks, depth)
  {
    assert ([k] + ks)[1..] == ks;
  }

  lemma {:induction false} FlattenIsBalanced(c: Code, rest: seq<Kind>, depth: nat)
    ensures Balanced(Flatten(c) + rest, depth) <==> Balanced(rest, depth)
  {
    match c
    case End => assert Flatten(c) + rest == rest;
    case TakeThen(r) => FlattenIsBalanced(r, rest, depth); StepIsBalanced(Take, r, rest, depth);
    case GiveThen(r) => FlattenIsBalanced(r, rest, depth); StepIsBalanced(Give, r, rest, depth);
    case CallThen(name, r) => FlattenIsBalanced(r, rest, depth); StepIsBalanced(Call(name), r, rest, depth);
    case Nest(b, r) =>
      var after := [Close] + (Flatten(r) + rest);
      FlattenIsBalanced(b, after, depth + 1);
      FlattenIsBalanced(r, rest, depth);
      BalancedFrom(Close, Flatten(r) + rest, depth + 1);
      BalancedFrom(Open, Flatten(b) + after, depth);
      NestBefore(Flatten(b), Flatten(r), rest);
  }

  lemma {:induction false} StepIsBalanced(k: Kind, r: Code, rest: seq<Kind>, depth: nat)
    requires k != Open && k != Close
    ensures Balanced([k] + Flatten(r) + rest, depth) <==> Balanced(Flatten(r) + rest, depth)
  {
    BalancedFrom(k, Flatten(r) + rest, depth);
    assert [k] + Flatten(r) + rest == [k] + (Flatten(r) + rest);
  }

  lemma NestBefore(b: seq<Kind>, r: seq<Kind>, rest: seq<Kind>)
    ensures [Open] + b + [Close] + r + rest == [Open] + (b + ([Close] + (r + rest)))
  {
  }

  lemma {:induction false} NoTakeNoRetake(w: Walker, ks: seq<Kind>)
    requires Take !in ks
    ensures NoRetake(w, ks)
    decreases |ks|
  {
    if ks != [] {
      assert ks[0] in ks;
      NoTakeNoRetake(Step(w, ks[0]), ks[1..]);
    }
  }

  /** With the walker not thinking the lock held, every such continuation the test passes is safe. */
  lemma TakeOfAFreeLockIsHarmless(fs: seq<Code>, c: Code)
    requires fs != [] && Clean(START, Opened(fs)) && !Walk(START, Opened(fs)).held && Continues(fs, c)
    ensures !Violates(c)
  {
    var begun, ks := Opened(fs) + [Take], Flatten(c);
    WalkInPieces(START, Opened(fs), [Take]);
    WalkInPieces(START, begun, ks[|begun|..]);
    assert ks == begun + ks[|begun|..];
    assert [Take][1..] == [];
    FlattenIsBalanced(c, [], 0);
    assert ks + [] == ks;
    CheckerIsSound(ks);
  }

  lemma {:induction false} CompletedContinues(fs: seq<Code>, out: int, name: string)
    requires fs != [] && Clean(START, Opened(fs))
    requires var w := Walk(START, Opened(fs)); w.held && w.released.Some?
    ensures Continues(fs, Completed(fs, out, name))
  {
    var begun, ending := Opened(fs) + [Take], Ending(fs, out, name);
    CompletedFlattens(fs, out, name);
    CompletedIsQuiet(START, fs, out, name);
    NoTakeNoRetake(Walk(START, begun), ending);
    assert (begun + ending)[|begun|..] == ending;
  }

  /** With the lock thought held and released for a branch, some continuation passes the test and makes
      a call with the lock held. */
  lemma {:induction false} RetakeCanMislead(fs: seq<Code>, name: string) returns (c: Code)
    requires fs != [] && Clean(START, Opened(fs)) && Walk(START, Opened(fs)).held
    requires Findings(START, Opened(fs) + [Take]) == []
    ensures Continues(fs, c) && Violates(c)
  {
    var w := Walk(START, Opened(fs));
    WalkInPieces(START, Opened(fs), [Take]);
    assert Findings(w, [Take]) == [] && w.released.Some?;
    SaneInside(START, fs);
    TakenInside(START, fs, 0);
    var out := w.released.value;
    c := Completed(fs, out, name);
    CompletedContinues(fs, out, name);
    var acts := CompletedViolates(START, fs, out, name);
  }

  /** So, after code that keeps to both rules and has nothing reported, the test can be relied on beyond
      an unreported take if and only if its walker does not think the lock held there. */
  lemma TakeIsHarmlessExactly(fs: seq<Code>)
    requires fs != [] && Clean(START, Opened(fs)) && Findings(START, Opened(fs) + [Take]) == []
    ensures !Walk(START, Opened(fs)).held <==> forall c :: Continues(fs, c) ==> !Violates(c)
  {
    if Walk(START, Opened(fs)).held {
      var c := RetakeCanMislead(fs, "send");
    } else {
      forall c | Continues(fs, c) ensures !Violates(c) {
        TakeOfAFreeLockIsHarmless(fs, c);
      }
    }
  }
}
