/** C strings: the characters of a buffer up to its first NUL. */
module CStrings {

  const NUL := '\0'

  predicate NulFree(text: string) {
    NUL !in text
  }

  /** The string a buffer holds. */
  function TextIn(buffer: seq<char>): string {
    if buffer == [] || buffer[0] == NUL then "" else [buffer[0]] + TextIn(buffer[1..])
  }

  lemma {:induction false} TextEndsAtNul(buffer: seq<char>, n: nat)
    requires n < |buffer| && buffer[n] == NUL && NulFree(buffer[..n])
    ensures TextIn(buffer) == buffer[..n]
  {
    if n > 0 {
      assert buffer[0] == buffer[..n][0];
      assert buffer[1..][..n - 1] == buffer[..n][1..];
      TextEndsAtNul(buffer[1..], n - 1);
      assert buffer[..n] == [buffer[0]] + buffer[1..][..n - 1];
    }
  }
}
