/** The lock-scope test's first pass: comments and the insides of literals become blanks, so that the
    second pass sees code only, at unchanged line numbers. */
module LockScanner {

  function Min(a: nat, b: nat): nat {
    if a < b then a else b
  }

  predicate Quote(c: char) {
    c == '"' || c == '\''
  }

  predicate LineComment(s: string) {
    |s| >= 2 && s[0] == '/' && s[1] == '/'
  }

  predicate BlockComment(s: string) {
    |s| >= 2 && s[0] == '/' && s[1] == '*'
  }

  predicate Occurs(s: string, what: string, i: nat) {
    i + |what| <= |s| && s[i..i + |what|] == what
  }

  /** Python's str.find from position i, but with the given value instead of -1 when nothing is found. */
  function FindOr(s: string, what: string, i: nat, missing: nat): (j: nat)
    ensures j == missing || (i <= j && Occurs(s, what, j))
    ensures forall k: nat :: i <= k < j ==> !Occurs(s, what, k)
    decreases |s| - i
  {
    if i + |what| > |s| then missing
    else if Occurs(s, what, i) then i
    else if i == |s| then missing
    else FindOr(s, what, i + 1, missing)
  }

  lemma OccursOne(s: string, c: char, i: nat)
    ensures Occurs(s, [c], i) <==> i < |s| && s[i] == c
  {
    if i < |s| { assert s[i..i + 1] == [s[i]]; }
  }

  lemma OccursTwo(s: string, c: char, d: char, i: nat)
    ensures Occurs(s, [c, d], i) <==> i + 1 < |s| && s[i] == c && s[i + 1] == d
  {
    if i + 1 < |s| { assert s[i..i + 2] == [s[i], s[i + 1]]; }
  }

  /** Everything but line ends becomes a space. */
  function Spaced(s: string): (r: string)
    ensures |r| == |s|
    ensures forall k :: 0 <= k < |s| ==> r[k] == if s[k] == '\n' then '\n' else ' '
  {
    seq(|s|, k requires 0 <= k < |s| => if s[k] == '\n' then '\n' else ' ')
  }

  /** Where a literal's scan stops: at its closing quote, or at or past the end of the text. A backslash
      takes the next character with it. */
  function CloseAt(s: string, quote: char, j: nat): (e: nat)
    ensures e >= j
    ensures e < |s| ==> s[e] == quote
    decreases |s| - j
  {
    if j >= |s| || s[j] == quote then j
    else CloseAt(s, quote, if s[j] == '\\' then j + 2 else j + 1)
  }

  /** The end of the comment, literal or single character at the start of the text. */
  function LexEnd(s: string): (e: nat)
    requires s != ""
    ensures 0 < e <= |s|
  {
    if LineComment(s) then
      var j := FindOr(s, "\n", 0, |s|);
      assert j > 0;
      j
    else if BlockComment(s) then
      var j := FindOr(s, "*/", 2, |s|);
      if j == |s| then |s| else j + 2
    else if Quote(s[0]) then Min(CloseAt(s, s[0], 1) + 1, |s|)
    else 1
  }

  /** What it is replaced by. A literal keeps its quotes: the closing one stands where the scan ended,
      which for a literal that is never closed is over the text's last character. */
  function LexOut(s: string): string
    requires s != ""
  {
    var e := LexEnd(s);
    if LineComment(s) || BlockComment(s) then Spaced(s[..e])
    else if Quote(s[0]) then [s[0]] + Spaced(if e > 1 then s[1..e - 1] else "") + [s[0]]
    else [s[0]]
  }

  function Blank(s: string): string
    decreases |s|
  {
    if s == "" then "" else LexOut(s) + Blank(s[LexEnd(s)..])
  }

  /** The loop over a literal's characters. */
  method LiteralEnd(src: string, i: nat) returns (j: nat)
    requires i < |src|
    ensures j == Min(CloseAt(src[i..], src[i], 1) + 1, |src| - i) + i
  {
    ghost var rest := src[i..];
    var c := src[i];
    j := i + 1;
    while j < |src| && src[j] != c
      invariant i + 1 <= j
      invariant CloseAt(rest, c, j - i) == CloseAt(rest, c, 1)
      decreases |src| - j
    {
      assert rest[j - i] == src[j];
      j := if src[j] == '\\' then j + 2 else j + 1;
    }
    j := Min(j + 1, |src|);
  }

  lemma Slice(s: string, i: nat, a: nat, b: nat)
    requires a <= b && i + b <= |s|
    ensures s[i..][a..b] == s[i + a..i + b] && (a == 0 ==> s[i..][..b] == s[i..i + b])
  {
  }

  method LexLineComment(src: string, i: nat) returns (j: nat, piece: string)
    requires i < |src| && LineComment(src[i..])
    ensures j == LexEnd(src[i..]) + i <= |src| && piece == LexOut(src[i..])
  {
    j := FindOr(src[i..], "\n", 0, |src| - i) + i;
    piece := Spaced(src[i..j]);
    Slice(src, i, 0, j - i);
  }

  method LexBlockComment(src: string, i: nat) returns (j: nat, piece: string)
    requires i < |src| && !LineComment(src[i..]) && BlockComment(src[i..])
    ensures j == LexEnd(src[i..]) + i <= |src| && piece == LexOut(src[i..])
  {
    j := FindOr(src[i..], "*/", 2, |src| - i) + i;
    j := if j == |src| then |src| else j + 2;
    piece := Spaced(src[i..j]);
    Slice(src, i, 0, j - i);
  }

  method LexLiteral(src: string, i: nat) returns (j: nat, piece: string)
    requires i < |src| && !LineComment(src[i..]) && !BlockComment(src[i..]) && Quote(src[i])
    ensures j == LexEnd(src[i..]) + i <= |src| && piece == LexOut(src[i..])
  {
    j := LiteralEnd(src, i);
    piece := [src[i]] + Spaced(if j > i + 1 then src[i + 1..j - 1] else "") + [src[i]];
    if j > i + 1 { Slice(src, i, 1, j - i - 1); }
  }

  /** One turn of the scanning loop. */
  method Lex(src: string, i: nat) returns (j: nat, piece: string)
    requires i < |src|
    ensures j == LexEnd(src[i..]) + i <= |src| && piece == LexOut(src[i..])
  {
    if LineComment(src[i..]) {
      j, piece := LexLineComment(src, i);
    } else if BlockComment(src[i..]) {
      j, piece := LexBlockComment(src, i);
    } else if Quote(src[i]) {
      j, piece := LexLiteral(src, i);
    } else {
      j, piece := i + 1, [src[i]];
    }
  }

  lemma {:induction false} BlankStep(src: string, i: nat, out: string)
    requires i < |src|
    ensures out + Blank(src[i..]) == out + LexOut(src[i..]) + Blank(src[i + LexEnd(src[i..])..])
  {
    var rest := src[i..];
    TailOfRest(src, i, LexEnd(rest));
    Regroup(out, LexOut(rest), Blank(rest[LexEnd(rest)..]));
  }

  lemma TailOfRest(s: string, i: nat, a: nat)
    requires i + a <= |s|
    ensures s[i..][a..] == s[i + a..]
  {
  }

  lemma Regroup(a: string, b: string, c: string)
    ensures a + (b + c) == a + b + c
  {
  }

  /** What is out and still to come, one turn further. */
  method Turn(src: string, i: nat, out: string) returns (j: nat, more: string)
    requires i < |src|
    ensures i < j <= |src| && out + Blank(src[i..]) == more + Blank(src[j..])
  {
    var piece;
    j, piece := Lex(src, i);
    more := out + piece;
    BlankStep(src, i, out);
  }

  /** The scanning loop. */
  method BlankCommentsAndLiterals(src: string) returns (out: string)
    ensures out == Blank(src)
  {
    out := "";
    var i := 0;
    WholeText(src);
    while i < |src|
      invariant 0 <= i <= |src|
      invariant out + Blank(src[i..]) == Blank(src)
    {
      i, out := Turn(src, i, out);
    }
    NothingLeft(src, out);
  }

  lemma {:induction false} WholeText(src: string)
    ensures "" + Blank(src[0..]) == Blank(src)
  {
    assert src[0..] == src;
  }

  lemma {:induction false} NothingLeft(src: string, out: string)
    ensures out + Blank(src[|src|..]) == out
  {
    assert src[|src|..] == "";
  }

  // ---- Lengths and line ends --------------------------------------------------------------

  /** The text starts with a literal that is never closed. */
  predicate Open(s: string)
    requires s != ""
  {
    !LineComment(s) && !BlockComment(s) && Quote(s[0]) && CloseAt(s, s[0], 1) >= |s|
  }

  /** The scan meets a literal that is never closed. */
  predicate Unterminated(s: string)
    decreases |s|
  {
    s != "" && (Open(s) || Unterminated(s[LexEnd(s)..]))
  }

  /** The scan meets a literal whose opening quote is the text's last character. */
  predicate OpensAtEnd(s: string)
    decreases |s|
  {
    s != "" && ((Open(s) && |s| == 1) || OpensAtEnd(s[LexEnd(s)..]))
  }

  /** The blanked text has the source's length, unless the last character opens a literal. */
  lemma {:induction false} LengthExactly(s: string)
    ensures |Blank(s)| == |s| + if OpensAtEnd(s) then 1 else 0
    ensures OpensAtEnd(s) ==> Unterminated(s)
    decreases |s|
  {
    if s != "" {
      LengthExactly(s[LexEnd(s)..]);
    }
  }

  predicate SameLineEnds(a: string, b: string) {
    |a| >= |b| && forall k :: 0 <= k < |b| ==> (a[k] == '\n' <==> b[k] == '\n')
  }

  /** Line ends stay where they are exactly unless a literal is never closed and the text's last
      character, over which its closing quote is put, is a line end. */
  lemma {:induction false} LineEndsExactly(s: string)
    ensures SameLineEnds(Blank(s), s) <==> !(Unterminated(s) && s[|s| - 1] == '\n')
    decreases |s|
  {
    if s != "" {
      if Open(s) {
        OpenLineEnds(s);
      } else {
        LineEndsExactly(s[LexEnd(s)..]);
        LineEndsOfRest(s);
        OpenInRest(s);
      }
    }
  }

  /** The first lexeme, if it is no open literal, keeps its line ends. */
  lemma {:induction false} LineEndsOfRest(s: string)
    requires s != "" && !Open(s)
    ensures SameLineEnds(Blank(s), s) <==> SameLineEnds(Blank(s[LexEnd(s)..]), s[LexEnd(s)..])
  {
    LengthExactly(s[LexEnd(s)..]);
    JoinLineEnds(s, Blank(s[LexEnd(s)..]));
  }

  lemma {:induction false} OpenInRest(s: string)
    requires s != "" && !Open(s)
    ensures Unterminated(s) == Unterminated(s[LexEnd(s)..])
    ensures Unterminated(s) ==> LexEnd(s) < |s| && s[LexEnd(s)..][|s| - LexEnd(s) - 1] == s[|s| - 1]
  {
  }

  /** The two texts of least length for which the promise fails: a lone quote gains a character, and a
      quote before a line end has its closing quote put over that line end. */
  lemma OpenLiteralMovesText()
    ensures Blank("\"") == "\"\"" && |Blank("\"")| == 2
    ensures Blank("\"\n") == "\"\"" && !SameLineEnds(Blank("\"\n"), "\"\n")
  {
    assert LexEnd("\"") == 1 && LexEnd("\"\n") == 2;
    assert "\""[1..] == "" && "\"\n"[2..] == "";
    assert Spaced("") == "";
  }

  lemma {:induction false} LexKeepsLineEnds(s: string)
    requires s != "" && !Open(s)
    ensures |LexOut(s)| == LexEnd(s) && SameLineEnds(LexOut(s), s[..LexEnd(s)])
  {
    var e := LexEnd(s);
    if !LineComment(s) && !BlockComment(s) && Quote(s[0]) {
      assert e > 1 && s[e - 1] == s[0];
      ClosedLineEnds(s[..e], LexOut(s));
    }
  }

  lemma ClosedLineEnds(s: string, out: string)
    requires |s| > 1 && Quote(s[0]) && s[|s| - 1] == s[0] && out == [s[0]] + Spaced(s[1..|s| - 1]) + [s[0]]
    ensures |out| == |s| && SameLineEnds(out, s)
  {
    assert forall k :: 0 < k < |s| - 1 ==> out[k] == Spaced(s[1..|s| - 1])[k - 1];
  }

  lemma {:induction false} OpenLineEnds(s: string)
    requires s != "" && Open(s)
    ensures Blank(s) == LexOut(s) && |LexOut(s)| >= |s|
    ensures SameLineEnds(LexOut(s), s) <==> s[|s| - 1] != '\n'
  {
    assert LexEnd(s) == |s|;
    assert s[LexEnd(s)..] == "" && LexOut(s) + "" == LexOut(s);
    QuotedLineEnds(s, LexOut(s));
  }

  lemma QuotedLineEnds(s: string, out: string)
    requires s != "" && Quote(s[0]) && out == [s[0]] + Spaced(if |s| > 1 then s[1..|s| - 1] else "") + [s[0]]
    ensures |out| >= |s| && (SameLineEnds(out, s) <==> s[|s| - 1] != '\n')
  {
    assert out[if |s| == 1 then 0 else |s| - 1] == s[0];
    assert forall k :: 0 < k < |s| - 1 ==> out[k] == Spaced(s[1..|s| - 1])[k - 1];
  }

  lemma JoinLineEnds(s: string, tail: string)
    requires s != "" && !Open(s) && |tail| >= |s| - LexEnd(s)
    ensures SameLineEnds(LexOut(s) + tail, s) <==> SameLineEnds(tail, s[LexEnd(s)..])
  {
    var e := LexEnd(s);
    LexKeepsLineEnds(s);
    SameLineEndsSplit(LexOut(s), tail, s[..e], s[e..]);
    assert s == s[..e] + s[e..];
  }

  lemma SameLineEndsSplit(a: string, a': string, b: string, b': string)
    requires |a| == |b| && SameLineEnds(a, b) && |a'| >= |b'|
    ensures SameLineEnds(a + a', b + b') <==> SameLineEnds(a', b')
  {
    assert forall k :: 0 <= k < |b'| ==> (a + a')[|a| + k] == a'[k] && (b + b')[|b| + k] == b'[k];
  }

  function NewlinesIn(s: string): nat {
    if s == "" then 0 else NewlinesIn(s[..|s| - 1]) + if s[|s| - 1] == '\n' then 1 else 0
  }

  /** The line number the test reports for a position. */
  function LineOf(code: string, pos: nat): nat
    requires pos <= |code|
  {
    NewlinesIn(code[..pos]) + 1
  }

  /** The line ends before a position. */
  function LineEndsBefore(s: string, pos: nat): set<nat>
    requires pos <= |s|
  {
    set k: nat | k < pos && s[k] == '\n'
  }

  /** Line numbers count from one. */
  lemma {:induction false} LineNumbersCount(s: string, pos: nat)
    requires pos <= |s|
    ensures LineOf(s, pos) == |LineEndsBefore(s, pos)| + 1
    decreases pos
  {
    if pos == 0 {
      assert LineEndsBefore(s, pos) == {};
    } else {
      LineNumbersCount(s, pos - 1);
      assert s[..pos][..pos - 1] == s[..pos - 1];
      OneMoreCharacter(s, pos - 1);
    }
  }

  lemma OneMoreCharacter(s: string, pos: nat)
    requires pos < |s|
    ensures |LineEndsBefore(s, pos + 1)| == |LineEndsBefore(s, pos)| + if s[pos] == '\n' then 1 else 0
  {
    if s[pos] == '\n' {
      assert LineEndsBefore(s, pos + 1) == LineEndsBefore(s, pos) + {pos};
    } else {
      assert LineEndsBefore(s, pos + 1) == LineEndsBefore(s, pos);
    }
  }

  lemma {:induction false} SameNewlines(a: string, b: string, pos: nat)
    requires SameLineEnds(a, b) && pos <= |b|
    ensures NewlinesIn(a[..pos]) == NewlinesIn(b[..pos])
  {
    if pos > 0 {
      SameNewlines(a, b, pos - 1);
      assert a[..pos][..pos - 1] == a[..pos - 1] && b[..pos][..pos - 1] == b[..pos - 1];
    }
  }

  /** So reported line numbers are the source's, when every literal is closed. */
  lemma LineNumbersAreExact(s: string, pos: nat)
    requires !Unterminated(s) && pos <= |s|
    ensures |Blank(s)| == |s| && LineOf(Blank(s), pos) == LineOf(s, pos) == |LineEndsBefore(s, pos)| + 1
  {
    LineNumbersCount(s, pos);
    LengthExactly(s);
    LineEndsExactly(s);
    SameNewlines(Blank(s), s, pos);
  }

  // ---- Blanking twice ---------------------------------------------------------------------

  predicate Plain(c: char) {
    c == ' ' || c == '\n'
  }

  lemma PlainStep(s: string)
    requires s != "" && Plain(s[0])
    ensures Blank(s) == [s[0]] + Blank(s[1..])
  {
  }

  lemma {:induction false} PlainPassesThrough(s: string, n: nat)
    requires n <= |s| && forall k :: 0 <= k < n ==> Plain(s[k])
    ensures Blank(s) == s[..n] + Blank(s[n..])
  {
    if n == 0 {
      assert s[0..] == s;
    } else {
      PlainPassesThrough(s, n - 1);
      var rest := s[n - 1..];
      PlainStep(rest);
      assert rest[1..] == s[n..];
      Glue(Blank(s), Blank(rest), Blank(s[n..]), s, n);
    }
  }

  lemma Glue(x: string, y: string, z: string, s: string, n: nat)
    requires 0 < n <= |s| && x == s[..n - 1] + y && y == [s[n - 1]] + z
    ensures x == s[..n] + z
  {
  }

  lemma {:induction false} PlainLiteralCloses(s: string, quote: char, j: nat, e: nat)
    requires j <= e < |s| && s[e] == quote && Quote(quote)
    requires forall k :: j <= k < e ==> Plain(s[k])
    ensures CloseAt(s, quote, j) == e
    decreases e - j
  {
    if j < e {
      PlainLiteralCloses(s, quote, j + 1, e);
    }
  }

  /** A blanked literal, whatever follows it, is blanked to itself. */
  lemma LiteralPassesThrough(quote: char, inside: string, b: string)
    requires Quote(quote) && forall k :: 0 <= k < |inside| ==> Plain(inside[k])
    ensures Blank([quote] + inside + [quote] + b) == [quote] + inside + [quote] + Blank(b)
  {
    var s := [quote] + inside + [quote] + b;
    var e := |inside| + 1;
    PlainLiteralCloses(s, quote, 1, e);
    assert s[1..e] == inside && Spaced(inside) == inside;
    assert s[e + 1..] == b;
  }

  /** What the first character of a blanked text can be. */
  lemma FirstOfBlank(s: string)
    requires s != ""
    ensures Blank(s) != "" && (Blank(s)[0] == s[0] || Plain(Blank(s)[0]))
  {
  }

  /** Blanking twice is blanking once, for every text. */
  lemma {:induction false} BlankIsIdempotent(s: string)
    ensures Blank(Blank(s)) == Blank(s)
    decreases |s|
  {
    if s != "" {
      var e := LexEnd(s);
      var rest := s[e..];
      BlankIsIdempotent(rest);
      if LineComment(s) || BlockComment(s) {
        var b := LexOut(s) + Blank(rest);
        PlainPassesThrough(b, e);
        assert b[..e] == LexOut(s) && b[e..] == Blank(rest);
      } else if Quote(s[0]) {
        var inside := Spaced(if e > 1 then s[1..e - 1] else "");
        LiteralPassesThrough(s[0], inside, Blank(rest));
      } else {
        if rest != "" {
          FirstOfBlank(rest);
          assert rest[0] == s[1];
        }
        var b := [s[0]] + Blank(rest);
        assert Blank(s) == b && b[1..] == Blank(rest);
        assert !LineComment(b) && !BlockComment(b);
      }
    }
  }
}
