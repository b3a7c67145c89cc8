/** The name the board announces: the configured one, or else the device id, in lower case and cut to
    the buffer. A null string counts as empty. */
module Hostname {
  import opened CStrings

  function Lower(c: char): char {
    if 'A' <= c <= 'Z' then (c as int - 'A' as int + 'a' as int) as char else c
  }

  function Lowered(s: string): (r: string)
    ensures |r| == |s|
    ensures forall i :: 0 <= i < |s| ==> r[i] == Lower(s[i])
  {
    seq(|s|, i requires 0 <= i < |s| => Lower(s[i]))
  }

  /** Upper-case letters move down by 32 codes; everything else, lower-case letters included, stays. */
  lemma LowerExactly(c: char)
    ensures 65 <= c as int <= 90 ==> Lower(c) as int == c as int + 32
    ensures !(65 <= c as int <= 90) ==> Lower(c) == c
  {
  }

  /** db_mdns_hostname. */
  method MdnsHostname(configured: string, deviceId: string, out: array<char>) returns (ok: bool)
    requires NulFree(configured) && NulFree(deviceId)
    modifies out
    ensures var source := if configured != "" then configured else deviceId;
            && (ok <==> source != "" && |source| < out.Length)
            && (source == "" || out.Length == 0 ==> out[..] == old(out[..]))
            && (source != "" && out.Length > 0 ==>
                  TextIn(out[..]) == Lowered(source)[..if ok then |source| else out.Length - 1])
  {
    var source := if configured != "" then configured else deviceId;
    if source == "" || out.Length == 0 { return false; }
    var i := 0;
    while i < |source| && i + 1 < out.Length
      invariant 0 <= i <= |source| && i < out.Length
      invariant forall j :: 0 <= j < i ==> out[j] == Lower(source[j])
    {
      out[i] := if 'A' <= source[i] <= 'Z' then (source[i] as int - 'A' as int + 'a' as int) as char else source[i];
      i := i + 1;
    }
    out[i] := NUL;
    ok := i == |source|;
    LoweredIsNulFree(source);
    assert out[..][..i] == Lowered(source)[..i];
    TextEndsAtNul(out[..], i);
  }

  lemma LoweredIsNulFree(s: string)
    requires NulFree(s)
    ensures NulFree(Lowered(s))
  {
  }
}
