/** Run identifiers: how the firmware prints them, and how the run and abort paths are parsed back. */
module RunIdentity {
  import opened Options

  // Length of the firmware's run_id buffers, terminator included.
  const RUN_ID_LEN := 33
  const COUNTER_RANGE := 0x1_0000_0000
  const PREFIX := "/api/v1/runs/"
  const ABORT_SUFFIX := "/abort"

  type U32 = n: int | 0 <= n < COUNTER_RANGE

  function HexDigit(v: nat): char
    requires v < 16
  {
    "0123456789abcdef"[v]
  }

  function DigitValue(c: char): nat {
    if '0' <= c <= '9' then c as int - '0' as int
    else if 'a' <= c <= 'f' then c as int - 'a' as int + 10
    else 0
  }

  /** The low `width` hexadecimal digits of v, zero padded, most significant first. */
  function Hex(v: nat, width: nat): (s: string)
    ensures |s| == width
    ensures forall i :: 0 <= i < width ==> '0' <= s[i] <= '9' || 'a' <= s[i] <= 'f'
  {
    if width == 0 then "" else Hex(v / 16, width - 1) + [HexDigit(v % 16)]
  }

  function FromHex(s: string): nat {
    if s == "" then 0 else FromHex(s[..|s| - 1]) * 16 + DigitValue(s[|s| - 1])
  }

  function Pow16(n: nat): nat {
    if n == 0 then 1 else 16 * Pow16(n - 1)
  }

  lemma {:induction false} HexRoundTrip(v: nat, width: nat)
    requires v < Pow16(width)
    ensures FromHex(Hex(v, width)) == v
  {
    if width > 0 {
      TopDigits(v, Pow16(width - 1));
      HexRoundTrip(v / 16, width - 1);
      DigitRoundTrip(v % 16);
      assert Hex(v, width)[..width - 1] == Hex(v / 16, width - 1);
    }
  }

  lemma TopDigits(v: nat, limit: nat)
    requires v < 16 * limit
    ensures v / 16 < limit && v == v / 16 * 16 + v % 16
  {
  }

  lemma DigitRoundTrip(v: nat)
    requires v < 16
    ensures DigitValue(HexDigit(v)) == v
  {
  }

  lemma Pow16Of8()
    ensures Pow16(8) == COUNTER_RANGE
  {
    assert Pow16(4) == 0x1_0000;
  }

  /** "%08x-%08x" of the boot nonce and the run counter. */
  function RunId(nonce: U32, counter: U32): string {
    Hex(nonce, 8) + "-" + Hex(counter, 8)
  }

  lemma {:induction false} RunIdParts(nonce: U32, counter: U32)
    ensures var id := RunId(nonce, counter);
            |id| == 17 && id[..8] == Hex(nonce, 8) && id[9..] == Hex(counter, 8) && '/' !in id
  {
  }

  /** The numbers an identifier is read back to. */
  lemma {:induction false} RunIdReadsBack(nonce: U32, counter: U32)
    ensures var id := RunId(nonce, counter);
            |id| == 17 && FromHex(id[..8]) == nonce && FromHex(id[9..]) == counter
  {
    RunIdParts(nonce, counter);
    Pow16Of8();
    HexRoundTrip(nonce, 8);
    HexRoundTrip(counter, 8);
  }

  /** The printed identifier fits its buffer and determines the nonce and the counter. */
  lemma {:induction false} RunIdFitsAndIdentifies(nonce: U32, counter: U32, nonce': U32, counter': U32)
    ensures |RunId(nonce, counter)| == 17 < RUN_ID_LEN
    ensures '/' !in RunId(nonce, counter)
    ensures RunId(nonce, counter) == RunId(nonce', counter') ==> nonce == nonce' && counter == counter'
  {
    RunIdParts(nonce, counter);
    RunIdReadsBack(nonce, counter);
    RunIdReadsBack(nonce', counter');
  }

  predicate MatchAt(hay: string, needle: string, i: nat) {
    i + |needle| <= |hay| && hay[i..i + |needle|] == needle
  }

  /** strstr, from position i on: the first position at which the needle occurs. */
  function Find(hay: string, needle: string, i: nat := 0): (at: Option<nat>)
    ensures at.Some? ==> i <= at.value && MatchAt(hay, needle, at.value) && forall j: nat :: i <= j < at.value ==> !MatchAt(hay, needle, j)
    ensures at.None? ==> forall j: nat :: i <= j ==> !MatchAt(hay, needle, j)
    decreases |hay| - i
  {
    if MatchAt(hay, needle, i) then Some(i)
    else if i >= |hay| then None
    else Find(hay, needle, i + 1)
  }

  /** path_run_id: what follows the prefix, up to the abort suffix on an abort path; nothing when the
      identifier would be empty or would not fit the buffer. */
  function PathRunId(uri: string, abortPath: bool, size: nat): Option<string>
    requires |uri| >= |PREFIX|
  {
    var start := uri[|PREFIX|..];
    var end := if abortPath then Find(start, ABORT_SUFFIX) else Some(|start|);
    if end.None? || end.value == 0 || end.value >= size then None else Some(start[..end.value])
  }

  /** What the abort path is parsed to: the part before the first "/abort", when there is one and the
      part is not empty and fits; and the get path, the whole rest under the same conditions. */
  lemma PathRunIdExactly(rest: string, size: nat)
    ensures PathRunId(PREFIX + rest, true, size).Some? <==>
              exists k: nat :: MatchAt(rest, ABORT_SUFFIX, k) && (forall j: nat :: j < k ==> !MatchAt(rest, ABORT_SUFFIX, j))
                               && 0 < k < size
    ensures PathRunId(PREFIX + rest, true, size).Some? ==>
              var id := PathRunId(PREFIX + rest, true, size).value; id + ABORT_SUFFIX <= rest && 0 < |id| < size
    ensures PathRunId(PREFIX + rest, false, size) == if 0 < |rest| < size then Some(rest) else None
  {
    var uri := PREFIX + rest;
    assert uri[|PREFIX|..] == rest && rest[..|rest|] == rest;
    var end := Find(rest, ABORT_SUFFIX);
    if end.Some? {
      assert rest[..end.value] + ABORT_SUFFIX == rest[..end.value + |ABORT_SUFFIX|];
    }
  }

  /** Both paths give back exactly the identifier they were built from, and only when it fits. */
  lemma PathRoundTrip(id: string, size: nat)
    requires '/' !in id
    ensures PathRunId(PREFIX + id, false, size) == if 1 <= |id| < size then Some(id) else None
    ensures PathRunId(PREFIX + id + ABORT_SUFFIX, true, size) == if 1 <= |id| < size then Some(id) else None
  {
    var get := PREFIX + id;
    assert get[|PREFIX|..] == id && id[..|id|] == id;
    var uri := PREFIX + id + ABORT_SUFFIX;
    var start := uri[|PREFIX|..];
    assert start == id + ABORT_SUFFIX;
    assert start[..|id|] == id;
    assert MatchAt(start, ABORT_SUFFIX, |id|) by {
      assert start[|id|..|id| + |ABORT_SUFFIX|] == ABORT_SUFFIX;
    }
    forall j: nat | j < |id|
      ensures !MatchAt(start, ABORT_SUFFIX, j)
    {
      assert start[j] == id[j] && id[j] in id;
    }
    assert Find(start, ABORT_SUFFIX) == Some(|id|);
  }

  /** A client that asks for, or aborts, an issued run reaches the handler with that run's identifier. */
  lemma IssuedIdRoundTrip(nonce: U32, counter: U32)
    ensures PathRunId(PREFIX + RunId(nonce, counter), false, RUN_ID_LEN) == Some(RunId(nonce, counter))
    ensures PathRunId(PREFIX + RunId(nonce, counter) + ABORT_SUFFIX, true, RUN_ID_LEN) == Some(RunId(nonce, counter))
  {
    RunIdFitsAndIdentifies(nonce, counter, nonce, counter);
    PathRoundTrip(RunId(nonce, counter), RUN_ID_LEN);
  }
}
