/** What the lock-scope test reports, finding by finding and place by place, and what each finding means
    for the executions that reach its place. */
module LockReport {
  import opened Options
  import opened LockScope
  import LockScanner

  // ---- Which findings ---------------------------------------------------------------------

  /** A report of a whole walk is one of some token, as the walker stands before it. */
  lemma {:induction false} FoundSomewhere(w: Walker, ks: seq<Kind>, x: What) returns (i: nat)
    requires x in Findings(w, ks)
    ensures i < |ks| && Finding(Walk(w, ks[..i]), ks[i]) == Some(x)
    decreases |ks|
  {
    if Finding(w, ks[0]) == Some(x) {
      i := 0;
    } else {
      i := FoundSomewhere(Step(w, ks[0]), ks[1..], x);
      assert ks[..i + 1][1..] == ks[1..][..i];
      i := i + 1;
    }
  }

  lemma {:induction false} FoundAt(w: Walker, ks: seq<Kind>, i: nat)
    requires i < |ks| && Finding(Walk(w, ks[..i]), ks[i]).Some?
    ensures Finding(Walk(w, ks[..i]), ks[i]).value in Findings(w, ks)
    decreases |ks|
  {
    if i > 0 {
      assert ks[..i][1..] == ks[1..][..i - 1];
      FoundAt(Step(w, ks[0]), ks[1..], i - 1);
    }
  }

  /** A give is reported exactly where the lock is not held by the walk so far. */
  lemma UnmatchedGivesExactly(ks: seq<Kind>)
    ensures GiveWithoutTake in Findings(START, ks)
            <==> exists i :: 0 <= i < |ks| && ks[i] == Give && !Walk(START, ks[..i]).held
  {
    if GiveWithoutTake in Findings(START, ks) {
      var i := FoundSomewhere(START, ks, GiveWithoutTake);
      assert ks[i] == Give && !Walk(START, ks[..i]).held;
    }
    if i :| 0 <= i < |ks| && ks[i] == Give && !Walk(START, ks[..i]).held {
      FoundAt(START, ks, i);
    }
  }

  /** A take is reported exactly where the walk so far holds the lock and has not released it. */
  lemma NestedTakesExactly(ks: seq<Kind>)
    ensures NestedTake in Findings(START, ks)
            <==> exists i :: 0 <= i < |ks| && ks[i] == Take
                             && Walk(START, ks[..i]).held && Walk(START, ks[..i]).released == None
  {
    if NestedTake in Findings(START, ks) {
      var i := FoundSomewhere(START, ks, NestedTake);
      assert ks[i] == Take && Walk(START, ks[..i]).held && Walk(START, ks[..i]).released == None;
    }
    if i :| 0 <= i < |ks| && ks[i] == Take && Walk(START, ks[..i]).held && Walk(START, ks[..i]).released == None {
      FoundAt(START, ks, i);
    }
  }

  /** The end of a block is reported exactly when it closes the block of the take with the lock held. */
  lemma HoldsLeftExactly(ks: seq<Kind>)
    ensures StillHeld in Findings(START, ks)
            <==> exists i :: 0 <= i < |ks| && ks[i] == Close
                             && Walk(START, ks[..i]).held && Walk(START, ks[..i]).depth == Walk(START, ks[..i]).takeDepth
  {
    if StillHeld in Findings(START, ks) {
      var i := FoundSomewhere(START, ks, StillHeld);
      TakeIsNoDeeper(START, ks[..i]);
      assert ks[i] == Close && Walk(START, ks[..i]).held;
    }
    if i :| 0 <= i < |ks| && ks[i] == Close
            && Walk(START, ks[..i]).held && Walk(START, ks[..i]).depth == Walk(START, ks[..i]).takeDepth {
      FoundAt(START, ks, i);
    }
  }

  lemma {:induction false} TakeIsNoDeeper(w: Walker, ks: seq<Kind>)
    requires w.held ==> w.takeDepth <= w.depth
    ensures Walk(w, ks).held ==> Walk(w, ks).takeDepth <= Walk(w, ks).depth
    decreases |ks|
  {
    if ks != [] { TakeIsNoDeeper(Step(w, ks[0]), ks[1..]); }
  }

  /** A call is reported, by its own name, exactly where the walk so far holds the lock and has not
      released it. */
  lemma HeldCallsExactly(ks: seq<Kind>, name: string)
    ensures Blocking(name) in Findings(START, ks)
            <==> exists i :: 0 <= i < |ks| && ks[i] == Call(name)
                             && Walk(START, ks[..i]).held && Walk(START, ks[..i]).released == None
  {
    if Blocking(name) in Findings(START, ks) {
      var i := FoundSomewhere(START, ks, Blocking(name));
      assert ks[i] == Call(name) && Walk(START, ks[..i]).held && Walk(START, ks[..i]).released == None;
    }
    if i :| 0 <= i < |ks| && ks[i] == Call(name) && Walk(START, ks[..i]).held && Walk(START, ks[..i]).released == None {
      FoundAt(START, ks, i);
    }
  }

  /** Without a take the lock is not held. */
  lemma {:induction false} NoHoldWithoutTake(w: Walker, ks: seq<Kind>)
    requires !w.held && Take !in ks
    ensures !Walk(w, ks).held
    decreases |ks|
  {
    if ks != [] {
      assert ks[0] in ks;
      NoHoldWithoutTake(Step(w, ks[0]), ks[1..]);
    }
  }

  /** So a give that no take precedes is reported. */
  lemma GiveBeforeAnyTakeIsReported(ks: seq<Kind>, i: nat)
    requires i < |ks| && ks[i] == Give && Take !in ks[..i]
    ensures GiveWithoutTake in Findings(START, ks)
  {
    NoHoldWithoutTake(START, ks[..i]);
    UnmatchedGivesExactly(ks);
  }

  // ---- Where they are reported ------------------------------------------------------------

  /** Each problem stands at the line of the token it is about: one more than the line ends before it. */
  lemma ProblemsAreAtTheirLines(code: string, tokens: seq<Token>, p: Problem) returns (i: nat)
    requires Within(code, tokens) && p in Reported(code, START, tokens)
    ensures i < |tokens| && Finding(Walk(START, Kinds(tokens)[..i]), tokens[i].kind) == Some(p.what)
    ensures p.line == |LockScanner.LineEndsBefore(code, tokens[i].pos)| + 1
  {
    i := ReportedSomewhere(code, START, tokens, p);
    LockScanner.LineNumbersCount(code, tokens[i].pos);
  }

  lemma {:induction false} ReportedSomewhere(code: string, w: Walker, tokens: seq<Token>, p: Problem) returns (i: nat)
    requires Within(code, tokens) && p in Reported(code, w, tokens)
    ensures i < |tokens| && p.line == LockScanner.LineOf(code, tokens[i].pos)
    ensures Finding(Walk(w, Kinds(tokens)[..i]), tokens[i].kind) == Some(p.what)
    decreases |tokens|
  {
    if p in ProblemAt(code, w, tokens[0]) {
      i := 0;
    } else {
      i := ReportedSomewhere(code, Step(w, tokens[0].kind), tokens[1..], p);
      assert Kinds(tokens)[..i + 1][1..] == Kinds(tokens[1..])[..i];
      i := i + 1;
    }
  }

  /** And each token's finding is there. */
  lemma {:induction false} EachFindingIsReported(code: string, w: Walker, tokens: seq<Token>, i: nat)
    requires Within(code, tokens) && i < |tokens| && Finding(Walk(w, Kinds(tokens)[..i]), tokens[i].kind).Some?
    ensures Problem(LockScanner.LineOf(code, tokens[i].pos), Finding(Walk(w, Kinds(tokens)[..i]), tokens[i].kind).value)
            in Reported(code, w, tokens)
    decreases |tokens|
  {
    if i > 0 {
      assert Kinds(tokens)[..i][1..] == Kinds(tokens[1..])[..i - 1];
      EachFindingIsReported(code, Step(w, tokens[0].kind), tokens[1..], i - 1);
    }
  }

  // ---- What they mean ---------------------------------------------------------------------

  /** The tokens with a call put in front of the i-th, to see who comes by there. */
  function Watched(ks: seq<Kind>, i: nat, mark: string): seq<Kind>
    requires i <= |ks|
  {
    ks[..i] + [Call(mark)] + ks[i..]
  }

  lemma {:induction false} WatchingChangesNothing(ks: seq<Kind>, i: nat, mark: string)
    requires i <= |ks|
    ensures NoRetake(START, Watched(ks, i, mark)) <==> NoRetake(START, ks)
    ensures forall x :: x in Findings(START, Watched(ks, i, mark)) <==>
              x in Findings(START, ks) || (x == Blocking(mark) && Walk(START, ks[..i]).Believes())
  {
    var w := Walk(START, ks[..i]);
    assert ks == ks[..i] + ks[i..];
    assert Watched(ks, i, mark) == ks[..i] + ([Call(mark)] + ks[i..]);
    WalkInPieces(START, ks[..i], ks[i..]);
    WalkInPieces(START, ks[..i], [Call(mark)] + ks[i..]);
    WalkStep(w, Call(mark), ks[i..]);
  }

  lemma ReportedCallIsThere(ks: seq<Kind>, name: string)
    ensures Blocking(name) in Findings(START, ks) ==> Call(name) in ks
  {
    if Blocking(name) in Findings(START, ks) {
      var i := FoundSomewhere(START, ks, Blocking(name));
      assert ks[i] == Call(name);
    }
  }

  /** Wherever some execution comes by with the lock held, the walker believes it held there. */
  lemma HeldIsBelievedEverywhere(ks: seq<Kind>, i: nat, mark: string, c: Code, acts: seq<Act>, fell: bool)
    requires i <= |ks| && Call(mark) !in ks && Flatten(c) == Watched(ks, i, mark)
    requires NoRetake(START, ks) && StillHeld !in Findings(START, ks)
    requires Executes(c, acts, fell) && CallsNamed(acts, false, mark)
    ensures Walk(START, ks[..i]).Believes()
  {
    WatchingChangesNothing(ks, i, mark);
    EveryHeldCallIsReported(c, acts, fell, mark);
    ReportedCallIsThere(ks, mark);
  }

  /** So a give reported as without a take is one that no execution reaches with the lock held, on code
      that leaves no hold at the end of a block and does not take again under a released hold. */
  lemma ReportedGiveIsReachedFree(ks: seq<Kind>, i: nat, mark: string, c: Code, acts: seq<Act>, fell: bool)
    requires i < |ks| && ks[i] == Give && !Walk(START, ks[..i]).held
    requires Call(mark) !in ks && Flatten(c) == Watched(ks, i, mark)
    requires NoRetake(START, ks) && StillHeld !in Findings(START, ks)
    requires Executes(c, acts, fell)
    ensures GiveWithoutTake in Findings(START, ks) && !CallsNamed(acts, false, mark)
  {
    UnmatchedGivesExactly(ks);
    if CallsNamed(acts, false, mark) {
      HeldIsBelievedEverywhere(ks, i, mark, c, acts, fell);
    }
  }

  /** Without either condition it may be reached with the lock held. First, a branch that gives an outer
      hold up, takes the lock again and gives it up makes the walker forget the outer hold. */
  lemma {:induction false} RetakenHoldReachesGive(mark: string) returns (ks: seq<Kind>, c: Code)
    ensures |ks| > 7 && ks[7] == Give && Flatten(c) == Watched(ks, 7, mark)
    ensures GiveWithoutTake in Findings(START, ks) && StillHeld !in Findings(START, ks)
    ensures Makes(c, false, mark)
  {
    ks := RetakenKindsReport();
    c := RetakenHappens(mark);
    assert Watched(ks, 7, mark) == ks[..7] + [Call(mark)] + ks[7..];
  }

  function Retaken(mark: string): Code {
    Nest(TakeThen(Nest(Branch(), CallThen(mark, GiveThen(End)))), End)
  }

  lemma {:induction false} RetakenFlattens(mark: string)
    ensures Flatten(Retaken(mark)) == [Open, Take, Open, Give, Take, Give, Close, Call(mark), Give, Close]
  {
    var r := CallThen(mark, GiveThen(End));
    assert Flatten(GiveThen(End)) == [Give] && Flatten(TakeThen(GiveThen(End))) == [Take, Give];
    assert Flatten(Branch()) == [Give, Take, Give] && Flatten(r) == [Call(mark), Give];
    assert Flatten(Nest(Branch(), r)) == [Open, Give, Take, Give, Close, Call(mark), Give];
  }

  lemma {:induction false} RetakenHappens(mark: string) returns (c: Code)
    ensures Makes(c, false, mark)
    ensures Flatten(c) == [Open, Take, Open, Give, Take, Give, Close, Call(mark), Give, Close]
  {
    c := Retaken(mark);
    RetakenFlattens(mark);
    var r := CallThen(mark, GiveThen(End));
    var acts := [Takes, Calls(mark)];
    assert acts[1..] == [Calls(mark)] && acts[1..][1..] == [];
    assert Executes(r, acts[1..], false);
    assert Executes(Nest(Branch(), r), acts[1..], false);
    assert Executes(TakeThen(Nest(Branch(), r)), acts, false);
    assert Executes(Retaken(mark), acts, false) && CallsNamed(acts, false, mark);
  }

  lemma {:induction false} RetakenKindsReport() returns (ks: seq<Kind>)
    ensures ks == [Open, Take, Open, Give, Take, Give, Close, Give, Close]
    ensures GiveWithoutTake in Findings(START, ks) && StillHeld !in Findings(START, ks)
  {
    var ending := [Close] + ([Give] + ([Close] + []));
    var branch := [Give] + ([Take] + ([Give] + ending));
    ks := [Open] + ([Take] + ([Open] + branch));
    WalkStep(START, Open, [Take] + ([Open] + branch));
    WalkStep(Walker(1, false, 0, None), Take, [Open] + branch);
    WalkStep(Walker(1, true, 1, None), Open, branch);
    RetakenBranchReports(ending);
    RetakenEndingReports();
  }

  lemma {:induction false} RetakenBranchReports(ending: seq<Kind>)
    ensures Findings(Walker(2, true, 1, None), [Give] + ([Take] + ([Give] + ending)))
            == Findings(Walker(2, false, 2, None), ending)
  {
    WalkStep(Walker(2, true, 1, None), Give, [Take] + ([Give] + ending));
    WalkStep(Walker(2, true, 1, Some(2)), Take, [Give] + ending);
    WalkStep(Walker(2, true, 2, None), Give, ending);
  }

  lemma {:induction false} RetakenEndingReports()
    ensures Findings(Walker(2, false, 2, None), [Close] + ([Give] + ([Close] + []))) == [GiveWithoutTake]
  {
    WalkStep(Walker(2, false, 2, None), Close, [Give] + ([Close] + []));
    WalkStep(Walker(1, false, 2, None), Give, [Close] + []);
    WalkStep(Walker(1, false, 2, None), Close, []);
  }

  /** Second, the walker forgets a hold left at the end of a block once it has reported it. */
  lemma ForgottenHoldReachesGive(mark: string)
    ensures var ks, c := [Open, Take, Close, Give], Nest(TakeThen(End), CallThen(mark, GiveThen(End)));
            && Flatten(c) == Watched(ks, 3, mark)
            && GiveWithoutTake in Findings(START, ks) && StillHeld in Findings(START, ks)
            && Makes(c, false, mark)
  {
    var ks, c := [Open, Take, Close, Give], Nest(TakeThen(End), CallThen(mark, GiveThen(End)));
    var b, r := TakeThen(End), CallThen(mark, GiveThen(End));
    assert Flatten(b) == [Take] && Flatten(GiveThen(End)) == [Give] && Flatten(r) == [Call(mark), Give];
    var w1, w2, w3 := Step(START, Open), Step(Step(START, Open), Take), Step(Step(Step(START, Open), Take), Close);
    assert ks == [Open] + ([Take] + ([Close] + [Give]));
    WalkStep(START, Open, [Take] + ([Close] + [Give]));
    WalkStep(w1, Take, [Close] + [Give]);
    WalkStep(w2, Close, [Give]);
    WalkStep(w3, Give, []);
    assert [Give] + [] == [Give];
    ForgottenHoldHappens(mark);
  }

  lemma {:induction false} ForgottenHoldHappens(mark: string)
    ensures Makes(Nest(TakeThen(End), CallThen(mark, GiveThen(End))), false, mark)
  {
    var b, r := TakeThen(End), CallThen(mark, GiveThen(End));
    var turn, later := [Takes], [Calls(mark)];
    var acts := turn + later;
    assert turn[1..] == [] && later[1..] == [];
    assert Executes(b, turn, true);
    assert Executes(r, later, false);
    assert Executes(Nest(b, r), later, false);
    assert acts[..1] == turn && acts[1..] == later;
    assert Executes(b, acts[..1], true) && Executes(Nest(b, r), acts[1..], false);
    assert Executes(Nest(b, r), acts, false);
    assert CallsNamed(acts, false, mark);
  }
}
