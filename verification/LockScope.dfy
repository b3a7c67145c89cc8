/** The lock-scope test's second pass, a walk over the code's tokens, and what its verdict means for
    the executions of that code. */
module LockScope {
  import opened Options
  import LockScanner

  datatype Kind = Open | Close | Take | Give | Call(name: string)

  datatype Token = Token(pos: nat, kind: Kind)

  datatype What = StillHeld | NestedTake | GiveWithoutTake | Blocking(name: string)

  datatype Problem = Problem(line: nat, what: What)

  // The walker's variables; `released` is the depth of the block whose give released the lock.
  datatype Walker = Walker(depth: int, held: bool, takeDepth: int, released: Option<int>)
  {
    /** Whether the walker takes the lock to be held here. */
    predicate Believes() {
      held && released.None?
    }
  }

  const START := Walker(0, false, 0, None)

  /** What a token adds to the report. */
  function Finding(w: Walker, k: Kind): Option<What> {
    match k
    case Open => None
    case Close => if w.held && w.depth - 1 < w.takeDepth then Some(StillHeld) else None
    case Take => if w.Believes() then Some(NestedTake) else None
    case Give => if !w.held then Some(GiveWithoutTake) else None
    case Call(name) => if w.Believes() then Some(Blocking(name)) else None
  }

  function Step(w: Walker, k: Kind): Walker {
    match k
    case Open => w.(depth := w.depth + 1)
    case Close =>
      var d := w.depth - 1;
      w.(depth := d,
         released := if w.released.Some? && d < w.released.value then None else w.released,
         held := w.held && d >= w.takeDepth)
    case Take => w.(held := true, takeDepth := w.depth, released := None)
    case Give =>
      if !w.held then w
      else if w.depth > w.takeDepth then w.(released := Some(w.depth))
      else w.(held := false, released := None)
    case Call(_) => w
  }

  function Walk(w: Walker, ks: seq<Kind>): Walker
    decreases |ks|
  {
    if ks == [] then w else Walk(Step(w, ks[0]), ks[1..])
  }

  function Findings(w: Walker, ks: seq<Kind>): seq<What>
    decreases |ks|
  {
    if ks == [] then []
    else (if Finding(w, ks[0]).Some? then [Finding(w, ks[0]).value] else []) + Findings(Step(w, ks[0]), ks[1..])
  }

  function Kinds(tokens: seq<Token>): (ks: seq<Kind>)
    ensures |ks| == |tokens|
  {
    if tokens == [] then [] else [tokens[0].kind] + Kinds(tokens[1..])
  }

  function Whats(problems: seq<Problem>): seq<What> {
    if problems == [] then [] else [problems[0].what] + Whats(problems[1..])
  }

  predicate Within(code: string, tokens: seq<Token>) {
    forall t :: t in tokens ==> t.pos <= |code|
  }

  /** The report: what each token adds, at the token's line. */
  function Reported(code: string, w: Walker, tokens: seq<Token>): seq<Problem>
    requires Within(code, tokens)
    decreases |tokens|
  {
    if tokens == [] then []
    else ProblemAt(code, w, tokens[0]) + Reported(code, Step(w, tokens[0].kind), tokens[1..])
  }

  function ProblemAt(code: string, w: Walker, t: Token): seq<Problem>
    requires t.pos <= |code|
  {
    var what := Finding(w, t.kind);
    if what.Some? then [Problem(LockScanner.LineOf(code, t.pos), what.value)] else []
  }

  /** Which findings are reported does not depend on where the tokens stand. */
  lemma {:induction false} ReportedAreFindings(code: string, w: Walker, tokens: seq<Token>)
    requires Within(code, tokens)
    ensures Whats(Reported(code, w, tokens)) == Findings(w, Kinds(tokens))
    decreases |tokens|
  {
    if tokens != [] {
      ReportedAreFindings(code, Step(w, tokens[0].kind), tokens[1..]);
      assert Kinds(tokens)[1..] == Kinds(tokens[1..]);
      var later := Reported(code, Step(w, tokens[0].kind), tokens[1..]);
      assert [] + later == later;
      var now := ProblemAt(code, w, tokens[0]);
      assert now != [] ==> (now + later)[1..] == later;
    }
  }

  /** The walking loop over the tokens found in the blanked code. */
  method LockScopeViolations(code: string, tokens: seq<Token>) returns (problems: seq<Problem>)
    requires Within(code, tokens)
    ensures problems == Reported(code, START, tokens)
    ensures Whats(problems) == Findings(START, Kinds(tokens))
  {
    ReportedAreFindings(code, START, tokens);
    problems := [];
    var depth, held, takeDepth := 0, false, 0;
    var released: Option<int> := None;
    var i := 0;
    while i < |tokens|
      invariant 0 <= i <= |tokens|
      invariant problems + Reported(code, Walker(depth, held, takeDepth, released), tokens[i..])
                == Reported(code, START, tokens)
    {
      var m := tokens[i];
      ghost var w, was := Walker(depth, held, takeDepth, released), problems;
      ReportedNext(code, w, tokens[i..], problems);
      assert tokens[i..][0] == m && tokens[i..][1..] == tokens[i + 1..];
      var what: Option<What> := None;
      match m.kind {
        case Open =>
          depth := depth + 1;
        case Close =>
          depth := depth - 1;
          if released.Some? && depth < released.value {
            released := None;
          }
          if held && depth < takeDepth {
            what := Some(StillHeld);
            held := false;
          }
        case Take =>
          if held && released.None? {
            what := Some(NestedTake);
          }
          held, takeDepth, released := true, depth, None;
        case Give =>
          if !held {
            what := Some(GiveWithoutTake);
          } else if depth > takeDepth {
            released := Some(depth);
          } else {
            held, released := false, None;
          }
        case Call(name) =>
          if held && released.None? {
            what := Some(Blocking(name));
          }
      }
      assert Walker(depth, held, takeDepth, released) == Step(w, m.kind) && what == Finding(w, m.kind);
      if what.Some? {
        problems := problems + [Problem(LockScanner.LineOf(code, m.pos), what.value)];
      }
      assert problems == was + ProblemAt(code, w, m);
      i := i + 1;
    }
  }

  lemma ReportedNext(code: string, w: Walker, tokens: seq<Token>, before: seq<Problem>)
    requires Within(code, tokens) && tokens != []
    ensures before + Reported(code, w, tokens)
            == before + ProblemAt(code, w, tokens[0]) + Reported(code, Step(w, tokens[0].kind), tokens[1..])
  {
  }

  // ---- Code and its executions ------------------------------------------------------------

  /** Code as nested blocks: a run of takes, gives, blocking calls and braced blocks. */
  datatype Code =
    | End
    | TakeThen(rest: Code)
    | GiveThen(rest: Code)
    | CallThen(name: string, rest: Code)
    | Nest(body: Code, rest: Code)

  function Flatten(c: Code): seq<Kind> {
    match c
    case End => []
    case TakeThen(r) => [Take] + Flatten(r)
    case GiveThen(r) => [Give] + Flatten(r)
    case CallThen(name, r) => [Call(name)] + Flatten(r)
    case Nest(b, r) => [Open] + Flatten(b) + [Close] + Flatten(r)
  }

  predicate Balanced(ks: seq<Kind>, depth: nat) {
    if ks == [] then depth == 0
    else match ks[0]
      case Open => Balanced(ks[1..], depth + 1)
      case Close => depth > 0 && Balanced(ks[1..], depth - 1)
      case _ => Balanced(ks[1..], depth)
  }

  // What an execution does to the lock, and the calls it makes.
  datatype Act = Takes | Gives | Calls(name: string)

  /** The executions of code: a block's body runs zero or more times, and the function may return
      anywhere. `fell` says that control reached the end rather than returned. */
  ghost predicate Executes(c: Code, acts: seq<Act>, fell: bool)
    decreases |acts|, c
  {
    || (acts == [] && !fell)
    || match c
       case End => acts == [] && fell
       case TakeThen(r) => acts != [] && acts[0] == Takes && Executes(r, acts[1..], fell)
       case GiveThen(r) => acts != [] && acts[0] == Gives && Executes(r, acts[1..], fell)
       case CallThen(name, r) => acts != [] && acts[0] == Calls(name) && Executes(r, acts[1..], fell)
       case Nest(b, r) =>
         || Executes(r, acts, fell)
         || (!fell && Executes(b, acts, false))
         || exists k :: 0 < k <= |acts| && Executes(b, acts[..k], true) && Executes(c, acts[k..], fell)
  }

  function HeldBy(act: Act, held: bool): bool {
    match act
    case Takes => true
    case Gives => false
    case Calls(_) => held
  }

  function HeldAfter(acts: seq<Act>, held: bool): bool {
    if acts == [] then held
    else HeldAfter(acts[1..], HeldBy(acts[0], held))
  }

  /** A blocking call is made while the lock is held. */
  predicate CallsHeld(acts: seq<Act>, held: bool) {
    acts != []
    && ((acts[0].Calls? && held)
        || CallsHeld(acts[1..], HeldBy(acts[0], held)))
  }

  /** The given call is made while the lock is held. */
  predicate CallsNamed(acts: seq<Act>, held: bool, name: string) {
    acts != []
    && ((acts[0] == Calls(name) && held)
        || CallsNamed(acts[1..], HeldBy(acts[0], held), name))
  }

  lemma {:induction false} CallsSome(acts: seq<Act>, held: bool) returns (name: string)
    requires CallsHeld(acts, held)
    ensures CallsNamed(acts, held, name)
  {
    if acts[0].Calls? && held {
      name := acts[0].name;
    } else {
      name := CallsSome(acts[1..], HeldBy(acts[0], held));
    }
  }

  lemma {:induction false} NamedIsCalled(acts: seq<Act>, held: bool, name: string)
    requires CallsNamed(acts, held, name)
    ensures CallsHeld(acts, held)
  {
    if !(acts[0] == Calls(name) && held) { NamedIsCalled(acts[1..], HeldBy(acts[0], held), name); }
  }

  ghost predicate Violates(c: Code) {
    exists acts, fell :: Executes(c, acts, fell) && CallsHeld(acts, false)
  }

  // ---- What the author of the code must keep to -------------------------------------------

  /** No take where an outer hold has only been released for the present branch. */
  predicate NoRetake(w: Walker, ks: seq<Kind>)
    decreases |ks|
  {
    ks == [] || ((ks[0] == Take ==> !w.held) && NoRetake(Step(w, ks[0]), ks[1..]))
  }

  /** No give where the lock has already been released. */
  predicate NoDoubleGive(w: Walker, ks: seq<Kind>)
    decreases |ks|
  {
    ks == [] || ((ks[0] == Give ==> w.Believes()) && NoDoubleGive(Step(w, ks[0]), ks[1..]))
  }

  // ---- Walking in pieces ------------------------------------------------------------------

  lemma {:induction false} WalkInPieces(w: Walker, a: seq<Kind>, b: seq<Kind>)
    ensures Walk(w, a + b) == Walk(Walk(w, a), b)
    ensures Findings(w, a + b) == Findings(w, a) + Findings(Walk(w, a), b)
    ensures NoRetake(w, a + b) <==> NoRetake(w, a) && NoRetake(Walk(w, a), b)
    ensures NoDoubleGive(w, a + b) <==> NoDoubleGive(w, a) && NoDoubleGive(Walk(w, a), b)
    decreases |a|
  {
    if a == [] {
      assert a + b == b;
    } else {
      assert (a + b)[1..] == a[1..] + b;
      WalkInPieces(Step(w, a[0]), a[1..], b);
    }
  }

  /** The walk of a nested block and what follows it. */
  lemma {:induction false} WalkNest(w: Walker, b: Code, r: Code)
    ensures var inner := Walk(Step(w, Open), Flatten(b));
            var after := Step(inner, Close);
            var ks := Flatten(Nest(b, r));
            && Walk(w, ks) == Walk(after, Flatten(r))
            && Findings(w, ks) == Findings(Step(w, Open), Flatten(b))
                                  + (if Finding(inner, Close).Some? then [Finding(inner, Close).value] else [])
                                  + Findings(after, Flatten(r))
            && (NoRetake(w, ks) <==> NoRetake(Step(w, Open), Flatten(b)) && NoRetake(after, Flatten(r)))
            && (NoDoubleGive(w, ks) <==> NoDoubleGive(Step(w, Open), Flatten(b)) && NoDoubleGive(after, Flatten(r)))
  {
    var inside := Flatten(b);
    var rest := [Close] + Flatten(r);
    Regroup([Open], inside, [Close], Flatten(r));
    WalkStep(w, Open, inside + rest);
    WalkInPieces(Step(w, Open), inside, rest);
    var inner := Walk(Step(w, Open), inside);
    WalkStep(inner, Close, Flatten(r));
    Regroup([], Findings(Step(w, Open), inside),
            if Finding(inner, Close).Some? then [Finding(inner, Close).value] else [],
            Findings(Step(inner, Close), Flatten(r)));
  }

  lemma Regroup<T>(a: seq<T>, b: seq<T>, c: seq<T>, d: seq<T>)
    ensures a + b + c + d == a + (b + (c + d))
    ensures [] + (b + (c + d)) == b + c + d
  {
  }

  lemma {:induction false} WalkStep(w: Walker, k: Kind, rest: seq<Kind>)
    ensures Walk(w, [k] + rest) == Walk(Step(w, k), rest)
    ensures Findings(w, [k] + rest)
            == (if Finding(w, k).Some? then [Finding(w, k).value] else []) + Findings(Step(w, k), rest)
    ensures NoRetake(w, [k] + rest) <==> (k == Take ==> !w.held) && NoRetake(Step(w, k), rest)
    ensures NoDoubleGive(w, [k] + rest) <==> (k == Give ==> w.Believes()) && NoDoubleGive(Step(w, k), rest)
  {
    assert ([k] + rest)[1..] == rest;
  }

  lemma {:induction false} ActsInPieces(a: seq<Act>, b: seq<Act>, held: bool)
    ensures HeldAfter(a + b, held) == HeldAfter(b, HeldAfter(a, held))
    ensures CallsHeld(a + b, held) <==> CallsHeld(a, held) || CallsHeld(b, HeldAfter(a, held))
  {
    if a == [] {
      assert a + b == b;
    } else {
      assert (a + b)[1..] == a[1..] + b;
      ActsInPieces(a[1..], b, HeldBy(a[0], held));
    }
  }

  lemma {:induction false} NamedInPieces(a: seq<Act>, b: seq<Act>, held: bool, name: string)
    ensures CallsNamed(a + b, held, name) <==> CallsNamed(a, held, name) || CallsNamed(b, HeldAfter(a, held), name)
  {
    if a == [] {
      assert a + b == b;
    } else {
      assert (a + b)[1..] == a[1..] + b;
      NamedInPieces(a[1..], b, HeldBy(a[0], held), name);
    }
  }

  // ---- What the walker's belief is worth --------------------------------------------------

  predicate Sane(w: Walker) {
    && (w.held ==> w.takeDepth <= w.depth)
    && (w.released.Some? ==> w.held && w.takeDepth < w.released.value <= w.depth)
  }

  /** Inside a block entered with the lock held, the walker goes on taking it to be held by the outer
      take; at most, a give at this depth or above marks it released. */
  lemma {:induction false} HeldThroughout(w: Walker, c: Code)
    requires Sane(w) && w.held && w.takeDepth < w.depth && NoRetake(w, Flatten(c))
    ensures var w' := Walk(w, Flatten(c));
            && w'.(released := w.released) == w
            && (w'.released == w.released || w'.released == None || w'.released == Some(w.depth))
    decreases c
  {
    match c
    case End =>
    case TakeThen(r) => assert false;
    case GiveThen(r) => WalkInPieces(w, [Give], Flatten(r)); HeldThroughout(Step(w, Give), r);
    case CallThen(name, r) => WalkInPieces(w, [Call(name)], Flatten(r)); HeldThroughout(w, r);
    case Nest(b, r) =>
      WalkNest(w, b, r);
      HeldThroughout(Step(w, Open), b);
      HeldThroughout(Step(Walk(Step(w, Open), Flatten(b)), Close), r);
  }

  /** ... so nothing in that block takes the lock. */
  lemma {:induction false} NothingTakes(w: Walker, c: Code, acts: seq<Act>, fell: bool, held: bool)
    requires Sane(w) && w.held && w.takeDepth < w.depth && NoRetake(w, Flatten(c)) && Executes(c, acts, fell)
    ensures HeldAfter(acts, held) ==> held
    decreases |acts|, c
  {
    if acts != [] {
      match c
      case End =>
      case TakeThen(r) => assert false;
      case GiveThen(r) => WalkInPieces(w, [Give], Flatten(r)); NothingTakes(Step(w, Give), r, acts[1..], fell, false);
      case CallThen(name, r) => WalkInPieces(w, [Call(name)], Flatten(r)); NothingTakes(w, r, acts[1..], fell, held);
      case Nest(b, r) =>
        WalkNest(w, b, r);
        HeldThroughout(Step(w, Open), b);
        if Executes(r, acts, fell) {
          NothingTakes(Step(Walk(Step(w, Open), Flatten(b)), Close), r, acts, fell, held);
        } else if !fell && Executes(b, acts, false) {
          NothingTakes(Step(w, Open), b, acts, false, held);
        } else {
          var k :| 0 < k <= |acts| && Executes(b, acts[..k], true) && Executes(c, acts[k..], fell);
          NothingTakes(Step(w, Open), b, acts[..k], true, held);
          NothingTakes(w, c, acts[k..], fell, HeldAfter(acts[..k], held));
          ActsInPieces(acts[..k], acts[k..], held);
          assert acts == acts[..k] + acts[k..];
        }
    }
  }

  /** A hold left at the end of a block is one it was entered with, or one taken at the block's own depth. */
  lemma {:induction false} SaneThroughout(w: Walker, c: Code)
    requires Sane(w)
    ensures var w' := Walk(w, Flatten(c)); Sane(w') && w'.depth == w.depth
    ensures var w' := Walk(w, Flatten(c)); w'.held ==> w'.takeDepth == w.depth || (w.held && w'.takeDepth == w.takeDepth)
    decreases c
  {
    match c
    case End =>
    case TakeThen(r) => WalkInPieces(w, [Take], Flatten(r)); SaneThroughout(Step(w, Take), r);
    case GiveThen(r) => WalkInPieces(w, [Give], Flatten(r)); SaneThroughout(Step(w, Give), r);
    case CallThen(name, r) => WalkInPieces(w, [Call(name)], Flatten(r)); SaneThroughout(w, r);
    case Nest(b, r) =>
      WalkNest(w, b, r);
      SaneThroughout(Step(w, Open), b);
      SaneThroughout(Step(Walk(Step(w, Open), Flatten(b)), Close), r);
  }

  /** What a nested block does to the walker's belief: nothing, seen from outside. */
  lemma NestKeepsBelief(w: Walker, b: Code)
    requires Sane(w) && NoRetake(Step(w, Open), Flatten(b))
    requires Finding(Walk(Step(w, Open), Flatten(b)), Close) == None
    ensures var inner := Walk(Step(w, Open), Flatten(b));
            var after := Step(inner, Close);
            && Sane(after) && after.depth == w.depth
            && (!w.held ==> !inner.held && !after.held)
            && (w.Believes() ==> after.Believes())
            && (NoDoubleGive(Step(w, Open), Flatten(b)) ==> after.Believes() == w.Believes())
  {
    SaneThroughout(Step(w, Open), b);
    if w.held {
      HeldThroughout(Step(w, Open), b);
      if !w.Believes() && NoDoubleGive(Step(w, Open), Flatten(b)) {
        ReleasedThroughout(Step(w, Open), b);
      }
    }
  }

  /** With no give while released, a released lock stays released to the end of the block. */
  lemma {:induction false} ReleasedThroughout(w: Walker, c: Code)
    requires Sane(w) && w.held && w.released.Some? && w.released.value < w.depth
    requires NoRetake(w, Flatten(c)) && NoDoubleGive(w, Flatten(c))
    ensures Walk(w, Flatten(c)) == w
    decreases c
  {
    match c
    case End =>
    case TakeThen(r) => assert false;
    case GiveThen(r) => assert false;
    case CallThen(name, r) => WalkInPieces(w, [Call(name)], Flatten(r)); ReleasedThroughout(w, r);
    case Nest(b, r) =>
      WalkNest(w, b, r);
      ReleasedThroughout(Step(w, Open), b);
      ReleasedThroughout(w, r);
  }

  // ---- Soundness --------------------------------------------------------------------------

  /** As long as the lock is held only where the walker believes so, and no hold is left at the end of a
      block, each call made with the lock held is reported, and belief still covers the lock at the end. */
  lemma {:induction false} BeliefCovers(w: Walker, c: Code, acts: seq<Act>, fell: bool, held: bool, name: string)
    requires Sane(w) && NoRetake(w, Flatten(c)) && StillHeld !in Findings(w, Flatten(c))
    requires Executes(c, acts, fell) && (held ==> w.Believes())
    ensures CallsNamed(acts, held, name) ==> Blocking(name) in Findings(w, Flatten(c))
    ensures fell && HeldAfter(acts, held) ==> Walk(w, Flatten(c)).Believes()
    decreases |acts|, c
  {
    match c
    case End =>
    case TakeThen(r) =>
      WalkStep(w, Take, Flatten(r));
      if acts != [] { BeliefCovers(Step(w, Take), r, acts[1..], fell, true, name); }
    case GiveThen(r) =>
      WalkStep(w, Give, Flatten(r));
      if acts != [] { BeliefCovers(Step(w, Give), r, acts[1..], fell, false, name); }
    case CallThen(n, r) =>
      WalkStep(w, Call(n), Flatten(r));
      if acts != [] { BeliefCovers(w, r, acts[1..], fell, held, name); }
    case Nest(b, r) =>
      NestBeliefCovers(w, c, acts, fell, held, name);
  }

  lemma {:induction false} NestBeliefCovers(w: Walker, c: Code, acts: seq<Act>, fell: bool, held: bool, name: string)
    requires c.Nest?
    requires Sane(w) && NoRetake(w, Flatten(c)) && StillHeld !in Findings(w, Flatten(c))
    requires Executes(c, acts, fell) && (held ==> w.Believes())
    ensures CallsNamed(acts, held, name) ==> Blocking(name) in Findings(w, Flatten(c))
    ensures fell && HeldAfter(acts, held) ==> Walk(w, Flatten(c)).Believes()
    decreases |acts|, c, 0
  {
    var b, r := c.body, c.rest;
    WalkNest(w, b, r);
    var entered := Step(w, Open);
    var inner := Walk(entered, Flatten(b));
    NoHoldLeft(w, b, r);
    NestKeepsBelief(w, b);
    var after := Step(inner, Close);
    if acts == [] && !fell {
    } else if Executes(r, acts, fell) {
      BeliefCovers(after, r, acts, fell, held, name);
    } else if !fell && Executes(b, acts, false) {
      BeliefCovers(entered, b, acts, false, held, name);
    } else {
      var k :| 0 < k <= |acts| && Executes(b, acts[..k], true) && Executes(c, acts[k..], fell);
      BeliefCovers(entered, b, acts[..k], true, held, name);
      if w.held {
        NothingTakes(entered, b, acts[..k], true, held);
      }
      NestBeliefCovers(w, c, acts[k..], fell, HeldAfter(acts[..k], held), name);
      ActsInPieces(acts[..k], acts[k..], held);
      NamedInPieces(acts[..k], acts[k..], held, name);
      assert acts == acts[..k] + acts[k..];
    }
  }

  /** Of a block and what follows it. */
  lemma {:induction false} NoHoldLeft(w: Walker, b: Code, r: Code)
    requires StillHeld !in Findings(w, Flatten(Nest(b, r)))
    ensures var inner := Walk(Step(w, Open), Flatten(b));
            && StillHeld !in Findings(Step(w, Open), Flatten(b))
            && Finding(inner, Close) == None
            && StillHeld !in Findings(Step(inner, Close), Flatten(r))
  {
    WalkNest(w, b, r);
  }

  /** Code that starts with a token other than a brace. */
  function Then(k: Kind, r: Code): (c: Code)
    requires k != Open && k != Close
    ensures Flatten(c) == [k] + Flatten(r)
  {
    match k
    case Take => TakeThen(r)
    case Give => GiveThen(r)
    case Call(name) => CallThen(name, r)
  }

  lemma BlockThenRest(ks: seq<Kind>, j: nat, k: nat)
    requires j + 2 + k < |ks| && ks[0] == Open && ks[j + 1] == Close
    ensures var rest := ks[j + 2..];
            && rest == ks[1..][j + 1..]
            && rest[k] == ks[j + 2 + k]
            && rest[k + 1..] == ks[j + 2 + k + 1..]
            && ks[..j + 2 + k] == [Open] + ks[1..][..j] + [Close] + rest[..k]
  {
  }

  /** Every brace-balanced token sequence is that of some nested code. */
  lemma {:induction false} ParseBody(ks: seq<Kind>, depth: nat) returns (c: Code, i: nat)
    requires Balanced(ks, depth + 1)
    ensures i < |ks| && ks[i] == Close && Flatten(c) == ks[..i] && Balanced(ks[i + 1..], depth)
    decreases |ks|
  {
    if ks[0] == Close {
      c, i := End, 0;
    } else if ks[0] == Open {
      c, i := ParseNest(ks, depth);
    } else {
      c, i := ParseStep(ks, depth);
    }
  }

  lemma {:induction false} ParseNest(ks: seq<Kind>, depth: nat) returns (c: Code, i: nat)
    requires Balanced(ks, depth + 1) && ks[0] == Open
    ensures i < |ks| && ks[i] == Close && Flatten(c) == ks[..i] && Balanced(ks[i + 1..], depth)
    decreases |ks|, 0
  {
    var tail := ks[1..];
    var b, j := ParseBody(tail, depth + 1);
    assert tail[j] == ks[j + 1];
    var rest := tail[j + 1..];
    var r, k := ParseBody(rest, depth);
    c, i := Nest(b, r), j + 2 + k;
    BlockThenRest(ks, j, k);
  }

  lemma {:induction false} ParseStep(ks: seq<Kind>, depth: nat) returns (c: Code, i: nat)
    requires Balanced(ks, depth + 1) && ks[0] != Open && ks[0] != Close
    ensures i < |ks| && ks[i] == Close && Flatten(c) == ks[..i] && Balanced(ks[i + 1..], depth)
    decreases |ks|, 0
  {
    var tail := ks[1..];
    var r, k := ParseBody(tail, depth);
    c, i := Then(ks[0], r), k + 1;
    assert ks[..i] == [ks[0]] + tail[..k];
    assert tail[k + 1..] == ks[i + 1..];
  }

  lemma {:induction false} ParseAll(ks: seq<Kind>) returns (c: Code)
    requires Balanced(ks, 0)
    ensures Flatten(c) == ks
    decreases |ks|
  {
    if ks == [] {
      c := End;
    } else if ks[0] == Open {
      var b, j := ParseBody(ks[1..], 0);
      var rest := ks[1..][j + 1..];
      var r := ParseAll(rest);
      c := Nest(b, r);
      assert ks == [Open] + ks[1..][..j] + [Close] + rest;
    } else {
      var r := ParseAll(ks[1..]);
      c := Then(ks[0], r);
      assert ks == [ks[0]] + ks[1..];
    }
  }

  /** Every call that some execution makes with the lock held is reported by name, whatever else is, on
      code that leaves no hold at the end of a block and does not take the lock again where an outer
      hold has been released for a branch. */
  lemma EveryHeldCallIsReported(c: Code, acts: seq<Act>, fell: bool, name: string)
    requires NoRetake(START, Flatten(c)) && StillHeld !in Findings(START, Flatten(c))
    requires Executes(c, acts, fell) && CallsNamed(acts, false, name)
    ensures Blocking(name) in Findings(START, Flatten(c))
  {
    BeliefCovers(START, c, acts, fell, false, name);
  }

  /** Soundness of the test: when it reports nothing on brace-balanced code that does not take the lock
      again where an outer hold has been released for a branch, no execution makes a blocking call
      with the lock held. */
  lemma CheckerIsSound(ks: seq<Kind>)
    requires Balanced(ks, 0) && NoRetake(START, ks) && Findings(START, ks) == []
    ensures exists c :: Flatten(c) == ks
    ensures forall c :: Flatten(c) == ks ==> !Violates(c)
  {
    var parsed := ParseAll(ks);
    forall c | Flatten(c) == ks
      ensures !Violates(c)
    {
      if Violates(c) {
        var acts, fell :| Executes(c, acts, fell) && CallsHeld(acts, false);
        var name := CallsSome(acts, false);
        EveryHeldCallIsReported(c, acts, fell, name);
      }
    }
  }

  /** In terms of the loop's own report. */
  lemma EmptyReportMeansSafe(code: string, tokens: seq<Token>)
    requires Within(code, tokens) && Reported(code, START, tokens) == []
    requires Balanced(Kinds(tokens), 0) && NoRetake(START, Kinds(tokens))
    ensures forall c :: Flatten(c) == Kinds(tokens) ==> !Violates(c)
  {
    ReportedAreFindings(code, START, tokens);
    CheckerIsSound(Kinds(tokens));
  }

  /** The condition is needed: a branch that gives the outer hold up, takes the lock again and gives it
      up hides the call after it, which the test passes although skipping the branch makes it with
      the lock held. */
  lemma RetakeHidesCall(name: string)
    ensures exists c :: Findings(START, Flatten(c)) == [] && Balanced(Flatten(c), 0) && Violates(c)
  {
    RetakeFlattens(name);
    RetakeIsQuiet(name);
    RetakeViolates(name);
    var c := Retake(name);
    assert Findings(START, Flatten(c)) == [] && Balanced(Flatten(c), 0) && Violates(c);
  }

  function Branch(): Code {
    GiveThen(TakeThen(GiveThen(End)))
  }

  function Retake(name: string): Code {
    Nest(TakeThen(Nest(Branch(), CallThen(name, End))), End)
  }

  function RetakeTail(name: string): seq<Kind> {
    [Give, Take, Give, Close, Call(name), Close]
  }

  lemma {:induction false} RetakeFlattens(name: string)
    ensures Flatten(Retake(name)) == [Open] + ([Take] + ([Open] + RetakeTail(name)))
  {
    assert Flatten(GiveThen(End)) == [Give];
    assert Flatten(TakeThen(GiveThen(End))) == [Take, Give];
    assert Flatten(Branch()) == [Give, Take, Give];
    assert Flatten(CallThen(name, End)) == [Call(name)];
    assert Flatten(Nest(Branch(), CallThen(name, End))) == [Open, Give, Take, Give, Close, Call(name)];
  }

  lemma {:induction false} RetakeIsQuiet(name: string)
    ensures var ks := [Open] + ([Take] + ([Open] + RetakeTail(name)));
            Findings(START, ks) == [] && Balanced(ks, 0)
  {
    var tail := RetakeTail(name);
    RetakeTailIsQuiet(name);
    Quiet(START, Open, [Take] + ([Open] + tail));
    Quiet(Walker(1, false, 0, None), Take, [Open] + tail);
    Quiet(Walker(1, true, 1, None), Open, tail);
  }

  lemma {:induction false} RetakeTailIsQuiet(name: string)
    ensures Findings(Walker(2, true, 1, None), RetakeTail(name)) == [] && Balanced(RetakeTail(name), 2)
  {
    var k8 := [Close] + [];
    var k7 := [Call(name)] + k8;
    var k6 := [Close] + k7;
    var k5 := [Give] + k6;
    var k4 := [Take] + k5;
    assert RetakeTail(name) == [Give] + k4;
    Quiet(Walker(2, true, 1, None), Give, k4);
    Quiet(Walker(2, true, 1, Some(2)), Take, k5);
    Quiet(Walker(2, true, 2, None), Give, k6);
    Quiet(Walker(2, false, 2, None), Close, k7);
    Quiet(Walker(1, false, 2, None), Call(name), k8);
    Quiet(Walker(1, false, 2, None), Close, []);
    assert Balanced([], 0);
    assert Balanced(k8, 1);
    assert Balanced(k6, 2);
    assert Balanced(k4, 2);
  }

  lemma {:induction false} RetakeViolates(name: string)
    ensures Violates(Retake(name))
  {
    var acts := [Takes, Calls(name)];
    assert acts[1..] == [Calls(name)] && acts[1..][1..] == [];
    assert Executes(CallThen(name, End), acts[1..], false);
    assert Executes(Nest(Branch(), CallThen(name, End)), acts[1..], false);
    assert Executes(TakeThen(Nest(Branch(), CallThen(name, End))), acts, false);
    assert Executes(Retake(name), acts, false);
    assert CallsHeld(acts, false);
  }

  /** A token the walker has nothing to say about. */
  lemma Quiet(w: Walker, k: Kind, rest: seq<Kind>)
    requires Finding(w, k) == None
    ensures Findings(w, [k] + rest) == Findings(Step(w, k), rest)
    ensures k != Open && k != Close ==> forall d: nat :: Balanced([k] + rest, d) <==> Balanced(rest, d)
    ensures k == Open ==> forall d: nat :: Balanced([k] + rest, d) <==> Balanced(rest, d + 1)
    ensures k == Close ==> forall d: nat :: Balanced([k] + rest, d + 1) <==> Balanced(rest, d)
  {
    assert ([k] + rest)[1..] == rest;
  }

  // ---- Exactness --------------------------------------------------------------------------

  /** The execution that skips every block. */
  function Straight(c: Code): seq<Act> {
    match c
    case End => []
    case TakeThen(r) => [Takes] + Straight(r)
    case GiveThen(r) => [Gives] + Straight(r)
    case CallThen(name, r) => [Calls(name)] + Straight(r)
    case Nest(_, r) => Straight(r)
  }

  predicate OnlyCalls(found: seq<What>) {
    forall i :: 0 <= i < |found| ==> found[i].Blocking?
  }

  /** Some execution makes the given call with the lock held. */
  ghost predicate Makes(c: Code, held: bool, name: string) {
    exists acts :: Executes(c, acts, false) && CallsNamed(acts, held, name)
  }

  /** On code that keeps to both rules, the walker's belief is what the straight execution makes true,
      and each reported call has an execution that makes it. */
  lemma {:induction false} BeliefIsReal(w: Walker, c: Code)
    requires Sane(w) && NoRetake(w, Flatten(c)) && NoDoubleGive(w, Flatten(c)) && OnlyCalls(Findings(w, Flatten(c)))
    ensures Executes(c, Straight(c), true) && HeldAfter(Straight(c), w.Believes()) == Walk(w, Flatten(c)).Believes()
    ensures forall name :: Blocking(name) in Findings(w, Flatten(c)) ==> Makes(c, w.Believes(), name)
    decreases c
  {
    match c
    case End =>
    case TakeThen(r) =>
      WalkStep(w, Take, Flatten(r));
      OnlyCallsSplit(Said(w, Take), Findings(Step(w, Take), Flatten(r)));
      BeliefIsReal(Step(w, Take), r);
      Prepend(Takes, c, r, Step(w, Take), w.Believes());
    case GiveThen(r) =>
      WalkStep(w, Give, Flatten(r));
      OnlyCallsSplit(Said(w, Give), Findings(Step(w, Give), Flatten(r)));
      BeliefIsReal(Step(w, Give), r);
      Prepend(Gives, c, r, Step(w, Give), w.Believes());
    case CallThen(name, r) =>
      WalkStep(w, Call(name), Flatten(r));
      OnlyCallsSplit(Said(w, Call(name)), Findings(w, Flatten(r)));
      BeliefIsReal(w, r);
      Prepend(Calls(name), c, r, w, w.Believes());
      if w.Believes() {
        var acts := [Calls(name)];
        assert acts[1..] == [];
        assert Executes(c, acts, false) && CallsNamed(acts, true, name);
      }
    case Nest(b, r) =>
      BeliefIsRealInNest(w, b, r);
  }

  /** What the walker says of one token. */
  function Said(w: Walker, k: Kind): seq<What> {
    if Finding(w, k).Some? then [Finding(w, k).value] else []
  }

  lemma Prepend(act: Act, c: Code, r: Code, w: Walker, held: bool)
    requires (c == TakeThen(r) && act == Takes) || (c == GiveThen(r) && act == Gives) || (act.Calls? && c == CallThen(act.name, r))
    requires w.Believes() == HeldBy(act, held)
    requires Executes(r, Straight(r), true)
    ensures Executes(c, Straight(c), true)
    ensures HeldAfter(Straight(c), held) == HeldAfter(Straight(r), w.Believes())
    ensures forall name :: Makes(r, w.Believes(), name) ==> Makes(c, held, name)
  {
    assert Straight(c)[1..] == Straight(r);
    forall name | Makes(r, w.Believes(), name)
      ensures Makes(c, held, name)
    {
      var acts :| Executes(r, acts, false) && CallsNamed(acts, w.Believes(), name);
      var more := [act] + acts;
      assert more[1..] == acts;
      assert Executes(c, more, false) && CallsNamed(more, held, name);
    }
  }

  lemma {:induction false} BeliefIsRealInNest(w: Walker, b: Code, r: Code)
    requires var ks := Flatten(Nest(b, r));
             Sane(w) && NoRetake(w, ks) && NoDoubleGive(w, ks) && OnlyCalls(Findings(w, ks))
    ensures var c := Nest(b, r);
            && Executes(c, Straight(c), true)
            && HeldAfter(Straight(c), w.Believes()) == Walk(w, Flatten(c)).Believes()
            && forall name :: Blocking(name) in Findings(w, Flatten(c)) ==> Makes(c, w.Believes(), name)
    decreases Nest(b, r), 0
  {
    var c := Nest(b, r);
    WalkNest(w, b, r);
    var entered := Step(w, Open);
    var inner := Walk(entered, Flatten(b));
    var f1, closing, f2 := Findings(entered, Flatten(b)), Said(inner, Close), Findings(Step(inner, Close), Flatten(r));
    OnlyCallsSplit(f1 + closing, f2);
    OnlyCallsSplit(f1, closing);
    if Finding(inner, Close).Some? { SingleCall(Finding(inner, Close).value); }
    NestKeepsBelief(w, b);
    BeliefIsReal(entered, b);
    BeliefIsReal(Step(inner, Close), r);
    forall name | Blocking(name) in Findings(w, Flatten(c))
      ensures Makes(c, w.Believes(), name)
    {
      if Blocking(name) in f1 {
        var acts :| Executes(b, acts, false) && CallsNamed(acts, entered.Believes(), name);
        assert Executes(c, acts, false);
      } else {
        var acts :| Executes(r, acts, false) && CallsNamed(acts, Step(inner, Close).Believes(), name);
        assert Executes(c, acts, false);
      }
    }
  }

  lemma OnlyCallsSplit(a: seq<What>, b: seq<What>)
    requires OnlyCalls(a + b)
    ensures OnlyCalls(a) && OnlyCalls(b)
  {
    var all := a + b;
    assert forall i :: 0 <= i < |a| ==> all[i] == a[i];
    assert forall i :: 0 <= i < |b| ==> all[|a| + i] == b[i];
  }

  lemma SingleCall(x: What)
    requires OnlyCalls([x])
    ensures x.Blocking?
  {
    assert [x][0].Blocking?;
  }

  /** Exactness: on brace-balanced code that keeps to both rules and has no hold left at the end of a
      block, the test reports a call if and only if some execution makes it with the lock held. */
  lemma CheckerIsExact(ks: seq<Kind>)
    requires Balanced(ks, 0) && NoRetake(START, ks) && NoDoubleGive(START, ks)
    requires OnlyCalls(Findings(START, ks))
    ensures forall c, name :: Flatten(c) == ks ==> (Blocking(name) in Findings(START, ks) <==> Makes(c, false, name))
    ensures forall c :: Flatten(c) == ks ==> (Findings(START, ks) != [] <==> Violates(c))
  {
    forall c, name | Flatten(c) == ks
      ensures Blocking(name) in Findings(START, ks) <==> Makes(c, false, name)
    {
      BeliefIsReal(START, c);
      if Makes(c, false, name) {
        var acts :| Executes(c, acts, false) && CallsNamed(acts, false, name);
        EveryHeldCallIsReported(c, acts, false, name);
      }
    }
    forall c | Flatten(c) == ks
      ensures Findings(START, ks) != [] <==> Violates(c)
    {
      if Findings(START, ks) == [] {
        CheckerIsSound(ks);
      } else {
        var name := Findings(START, ks)[0].name;
        assert Blocking(name) in Findings(START, ks);
        assert Makes(c, false, name);
        var acts :| Executes(c, acts, false) && CallsNamed(acts, false, name);
        NamedIsCalled(acts, false, name);
      }
    }
  }
}
