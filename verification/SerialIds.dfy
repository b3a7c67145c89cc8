/** Request identifiers of the provisioning API: 32-bit serial-number arithmetic in the manner of
    sections 3.1 and 3.2 of RFC 1982, with the value zero reserved for "no completed request". */
module SerialIds {
  import Arithmetic

  const MODULUS := 0x1_0000_0000
  const HALF := 0x8000_0000
  // The identifiers in one full turn: every 32-bit value except zero.
  const PERIOD := 0xFFFF_FFFF

  type U32 = n: int | 0 <= n < MODULUS

  function Next(current: U32): U32 {
    var next := (current + 1) % MODULUS;
    if next == 0 then 1 else next
  }

  predicate IsNewer(candidate: U32, reference: U32) {
    var distance := (candidate - reference) % MODULUS;
    distance != 0 && distance < HALF
  }

  /** The identifier of the n-th submission since boot; 0 before the first one. */
  function NthId(n: nat): U32 {
    if n == 0 then 0 else Next(NthId(n - 1))
  }

  lemma {:induction false} NthIdClosedForm(n: nat)
    requires n >= 1
    ensures NthId(n) == (n - 1) % PERIOD + 1
  {
    if n > 1 {
      NthIdClosedForm(n - 1);
      NextInTurn((n - 2) % PERIOD);
      StepInTurn(n - 2);
    }
  }

  lemma {:induction false} NextInTurn(r: nat)
    requires r < PERIOD
    ensures Next(r + 1) == (if r + 1 < PERIOD then r + 1 else 0) + 1
  {
  }

  lemma {:induction false} StepInTurn(x: nat)
    ensures (x + 1) % PERIOD == if x % PERIOD + 1 < PERIOD then x % PERIOD + 1 else 0
  {
    AddModPeriod(x, 1);
  }

  /** Where a step of k leaves a counter that turns over after PERIOD values. */
  lemma {:induction false} AddModPeriod(a: nat, k: nat)
    ensures var sum := a % PERIOD + k % PERIOD;
            (a + k) % PERIOD == if sum < PERIOD then sum else sum - PERIOD
  {
    var q := a / PERIOD + k / PERIOD;
    var sum := a % PERIOD + k % PERIOD;
    assert a + k == q * PERIOD + sum;
    if sum < PERIOD {
      Arithmetic.DivModUnique(a + k, PERIOD, q, sum);
    } else {
      Arithmetic.DivModUnique(a + k, PERIOD, q + 1, sum - PERIOD);
    }
  }

  /** Exactly when the submission made k later reads as newer, for every k: the distance is k modulo
      a full turn, plus one if the turn skips zero on the way. */
  lemma {:induction false} NewerExactly(n: nat, k: nat)
    ensures n >= 1 ==>
              var r := k % PERIOD;
              var distance := if NthId(n) + r > PERIOD then r + 1 else r;
              IsNewer(NthId(n + k), NthId(n)) <==> r != 0 && distance < HALF
    ensures n == 0 && k >= 1 ==> (IsNewer(NthId(k), NthId(0)) <==> (k - 1) % PERIOD + 1 < HALF)
  {
    if n >= 1 {
      TurnForward(n, k);
      NthIdClosedForm(n);
      Distance(NthId(n + k), NthId(n));
    } else if k >= 1 {
      NthIdClosedForm(k);
      Distance(NthId(k), 0);
    }
  }

  lemma {:induction false} Distance(a: U32, b: U32)
    ensures (a - b) % MODULUS == if a >= b then a - b else a - b + MODULUS
  {
  }

  lemma {:induction false} WithinTurn(k: nat)
    requires k < PERIOD
    ensures k % PERIOD == k
  {
  }

  lemma {:induction false} TurnForward(n: nat, k: nat)
    requires n >= 1
    ensures var sum := NthId(n) + k % PERIOD;
            NthId(n + k) == if sum <= PERIOD then sum else sum - PERIOD
  {
    NthIdClosedForm(n);
    NthIdClosedForm(n + k);
    AddModPeriod(n - 1, k);
    assert n - 1 + k == n + k - 1;
  }

  /** The ordering promise: up to 2^31 - 2 submissions apart, the later one is newer and never the
      other way round, across the wrap too. */
  lemma {:induction false} LaterIsNewer(n: nat, k: nat)
    requires 1 <= k <= HALF - 2
    ensures IsNewer(NthId(n + k), NthId(n))
    ensures !IsNewer(NthId(n), NthId(n + k))
  {
    NewerExactly(n, k);
    WithinTurn(if n == 0 then k - 1 else k);
    Asymmetric(NthId(n + k), NthId(n));
  }

  lemma {:induction false} Asymmetric(a: U32, b: U32)
    ensures IsNewer(a, b) ==> !IsNewer(b, a)
    ensures !IsNewer(a, b) && !IsNewer(b, a) <==> a == b || a - b == HALF || b - a == HALF
  {
    Distance(a, b);
    Distance(b, a);
  }

  /** Identifiers repeat only after a full turn. */
  lemma {:induction false} SameIdExactly(m: nat, n: nat)
    requires -PERIOD < m - n < PERIOD
    ensures NthId(m) == NthId(n) <==> m == n
  {
    var lo, hi := if m <= n then m else n, if m <= n then n else m;
    if lo >= 1 {
      TurnForward(lo, hi - lo);
      WithinTurn(hi - lo);
      NthIdClosedForm(lo);
      NthIdClosedForm(hi);
    } else if hi >= 1 {
      NthIdClosedForm(hi);
      WithinTurn(hi - 1);
    }
  }

  /** Within the window, newer means later. */
  lemma {:induction false} NewerMeansLater(m: nat, n: nat)
    requires -(HALF - 2) <= m - n <= HALF - 2
    ensures IsNewer(NthId(m), NthId(n)) <==> m > n
  {
    if m > n {
      LaterIsNewer(n, m - n);
    } else if n > m {
      LaterIsNewer(m, n - m);
    }
  }

  /** The window is tight: one step further the later identifier reads as newer only if the turn did
      not skip zero on the way. */
  lemma {:induction false} WindowIsTight(n: nat)
    requires n >= 1
    ensures IsNewer(NthId(n + (HALF - 1)), NthId(n)) <==> NthId(n) <= HALF
  {
    WithinTurn(HALF - 1);
    NewerExactly(n, HALF - 1);
  }

  /** An identifier at which it reads as older: the turn skips zero between the two. */
  lemma {:induction false} OneStepTooFar()
    ensures NthId(HALF + 1) == HALF + 1 && NthId(HALF + 1 + (HALF - 1)) == 1
    ensures !IsNewer(NthId(HALF + 1 + (HALF - 1)), NthId(HALF + 1))
  {
    NthIdClosedForm(HALF + 1);
    NthIdClosedForm(HALF + 1 + (HALF - 1));
    WindowIsTight(HALF + 1);
  }
}
