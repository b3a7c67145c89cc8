/** The blanked text, position by position: a plain character-by-character account of C's comments and
    literals, and that the lock-scope test's scanner agrees with it. */
module LexicalState {
  import opened LockScanner

  // How a position is to be read.
  datatype Mode =
    | InCode
    | InLine
    | OpeningStar
    | InBlock
    | ClosingSlash
    | InLiteral(quote: char)
    | Escaped(quote: char)

  predicate Pair(s: string, i: nat, a: char, b: char) {
    i + 1 < |s| && s[i] == a && s[i + 1] == b
  }

  predicate BeginsComment(s: string, i: nat) {
    Pair(s, i, '/', '/') || Pair(s, i, '/', '*')
  }

  /** How the position after i is to be read, if i is read in the given mode. */
  function Next(m: Mode, s: string, i: nat): Mode
    requires i < |s|
  {
    match m
    case InCode =>
      if Pair(s, i, '/', '/') then InLine
      else if Pair(s, i, '/', '*') then OpeningStar
      else if s[i] == '"' || s[i] == '\'' then InLiteral(s[i])
      else InCode
    case InLine => if i + 1 < |s| && s[i + 1] == '\n' then InCode else InLine
    case OpeningStar => InBlock
    case InBlock => if Pair(s, i, '*', '/') then ClosingSlash else InBlock
    case ClosingSlash => InCode
    case InLiteral(q) => if s[i] == q then InCode else if s[i] == '\\' then Escaped(q) else InLiteral(q)
    case Escaped(q) => InLiteral(q)
  }

  function ModeAt(m: Mode, s: string, i: nat): Mode
    requires i <= |s|
  {
    if i == 0 then m else Next(ModeAt(m, s, i - 1), s, i - 1)
  }

  /** Code is kept, and so are the quotes around a literal. */
  predicate Kept(m: Mode, s: string, i: nat)
    requires i < |s|
  {
    (m == InCode && !BeginsComment(s, i)) || (m.InLiteral? && s[i] == m.quote)
  }

  lemma {:induction false} ModesShift(m: Mode, s: string, e: nat, k: nat)
    requires e + k <= |s|
    ensures ModeAt(m, s, e + k) == ModeAt(ModeAt(m, s, e), s[e..], k)
  {
    if k > 0 {
      ModesShift(m, s, e, k - 1);
    }
  }

  // ---- One lexeme -------------------------------------------------------------------------

  lemma {:induction false} LineModes(s: string, k: nat)
    requires s != "" && LineComment(s) && 1 <= k <= LexEnd(s)
    ensures ModeAt(InCode, s, k) == if k == LexEnd(s) < |s| then InCode else InLine
  {
    if k > 1 {
      LineModes(s, k - 1);
      NoLineEndInLineComment(s, k - 1);
    }
    if k < |s| { NoLineEndInLineComment(s, k); }
  }

  lemma {:induction false} NoLineEndInLineComment(s: string, k: nat)
    requires s != "" && LineComment(s) && k <= LexEnd(s) && k < |s|
    ensures s[k] == '\n' <==> k == LexEnd(s)
  {
    OccursOne(s, '\n', k);
    assert "\n" == ['\n'];
  }

  lemma {:induction false} BlockModes(s: string, k: nat)
    requires s != "" && BlockComment(s) && 1 <= k <= LexEnd(s)
    ensures var j := FindOr(s, "*/", 2, |s|);
            ModeAt(InCode, s, k) == if k == 1 then OpeningStar
                                    else if k <= j then InBlock
                                    else if k == j + 1 then ClosingSlash else InCode
  {
    if k > 1 {
      BlockModes(s, k - 1);
      if k > 2 { StarSlash(s, k - 1); }
    }
  }

  lemma {:induction false} StarSlash(s: string, k: nat)
    requires 2 <= k < |s|
    ensures var j := FindOr(s, "*/", 2, |s|); k <= j ==> (Pair(s, k, '*', '/') <==> k == j)
  {
    OccursTwo(s, '*', '/', k);
    assert "*/" == ['*', '/'];
  }

  /** Along a literal: between its quotes no position is read as its closing quote. */
  lemma {:induction false} LiteralModes(m: Mode, s: string, q: char, j: nat)
    requires j <= |s| && ModeAt(m, s, j) == InLiteral(q)
    ensures forall k :: j <= k < CloseAt(s, q, j) && k < |s| ==>
              ModeAt(m, s, k) == Escaped(q) || (ModeAt(m, s, k) == InLiteral(q) && s[k] != q)
    ensures CloseAt(s, q, j) < |s| ==>
              ModeAt(m, s, CloseAt(s, q, j)) == InLiteral(q) && ModeAt(m, s, CloseAt(s, q, j) + 1) == InCode
    ensures CloseAt(s, q, j) >= |s| ==> ModeAt(m, s, |s|) == InLiteral(q) || ModeAt(m, s, |s|) == Escaped(q)
    decreases |s| - j
  {
    if j < |s| && s[j] != q {
      if s[j] == '\\' {
        assert ModeAt(m, s, j + 1) == Escaped(q);
        if j + 1 < |s| {
          assert ModeAt(m, s, j + 2) == InLiteral(q);
          LiteralModes(m, s, q, j + 2);
        }
      } else {
        assert ModeAt(m, s, j + 1) == InLiteral(q);
        LiteralModes(m, s, q, j + 1);
      }
    }
  }

  // ---- What the blanked text shows --------------------------------------------------------

  /** A position's character if it is kept; otherwise a space, or its line end. */
  function Shown(s: string, i: nat): char
    requires i < |s|
  {
    if Kept(ModeAt(InCode, s, i), s, i) || s[i] == '\n' then s[i] else ' '
  }

  lemma {:induction false} CommentShows(s: string, k: nat)
    requires s != "" && (LineComment(s) || BlockComment(s)) && k < LexEnd(s)
    ensures |LexOut(s)| == LexEnd(s) && LexOut(s)[k] == Shown(s, k)
    ensures LexEnd(s) < |s| ==> ModeAt(InCode, s, LexEnd(s)) == InCode
  {
    if LineComment(s) {
      if k > 0 { LineModes(s, k); }
      LineModes(s, LexEnd(s));
    } else {
      if k > 0 { BlockModes(s, k); }
      BlockModes(s, LexEnd(s));
    }
  }

  lemma {:induction false} LiteralShows(s: string, k: nat)
    requires s != "" && !LineComment(s) && !BlockComment(s) && Quote(s[0])
    requires k < LexEnd(s) && (k < |s| - 1 || !Open(s))
    ensures k < |LexOut(s)| && LexOut(s)[k] == Shown(s, k)
  {
    assert ModeAt(InCode, s, 1) == InLiteral(s[0]);
    LiteralModes(InCode, s, s[0], 1);
    var e := LexEnd(s);
    if 0 < k < e - 1 {
      InsideOf(s[0], s[1..e - 1], k);
    }
  }

  lemma InsideOf(q: char, inside: string, k: nat)
    requires 0 < k <= |inside|
    ensures ([q] + Spaced(inside) + [q])[k] == if inside[k - 1] == '\n' then '\n' else ' '
  {
  }

  lemma {:induction false} LiteralEnds(s: string)
    requires s != "" && !LineComment(s) && !BlockComment(s) && Quote(s[0])
    ensures !Open(s) ==> ModeAt(InCode, s, LexEnd(s)) == InCode
    ensures Open(s) ==> LexEnd(s) == |s| && ModeAt(InCode, s, |s|) in {InLiteral(s[0]), Escaped(s[0])}
  {
    assert ModeAt(InCode, s, 1) == InLiteral(s[0]);
    LiteralModes(InCode, s, s[0], 1);
  }

  /** One lexeme of the scan, and the mode it leaves. */
  lemma {:induction false} LexShows(s: string, k: nat)
    requires s != "" && k < LexEnd(s) && (k < |s| - 1 || !Open(s))
    ensures k < |LexOut(s)| && LexOut(s)[k] == Shown(s, k)
    ensures LexEnd(s) < |s| ==> ModeAt(InCode, s, LexEnd(s)) == InCode
  {
    if LineComment(s) || BlockComment(s) {
      CommentShows(s, k);
    } else if Quote(s[0]) {
      LiteralShows(s, k);
      LiteralEnds(s);
    } else {
      assert ModeAt(InCode, s, 0) == InCode;
    }
  }

  /** What follows the first lexeme is read as if it stood alone. */
  lemma {:induction false} ModeInRest(s: string, i: nat)
    requires s != "" && LexEnd(s) < |s| && LexEnd(s) <= i <= |s|
    ensures ModeAt(InCode, s, i) == ModeAt(InCode, s[LexEnd(s)..], i - LexEnd(s)) && !Open(s)
  {
    LexShows(s, 0);
    ModesShift(InCode, s, LexEnd(s), i - LexEnd(s));
  }

  lemma {:induction false} ShownShifts(s: string, e: nat, i: nat)
    requires e <= i < |s| && ModeAt(InCode, s, e) == InCode
    ensures Shown(s, i) == Shown(s[e..], i - e)
  {
    ModesShift(InCode, s, e, i - e);
  }

  /** Every position of the blanked text, but for the last when a literal is left open: code and quotes
      are kept, comments and the insides of literals are spaces, and line ends stay. */
  lemma {:induction false} BlankShows(s: string, i: nat)
    requires i < |s| && (i < |s| - 1 || !Unterminated(s))
    ensures i < |Blank(s)| && Blank(s)[i] == Shown(s, i)
    decreases |s|
  {
    var e := LexEnd(s);
    if i < e {
      LexShows(s, i);
    } else {
      LexShows(s, 0);
      ModeInRest(s, i);
      LexKeepsLineEnds(s);
      BlankShows(s[e..], i - e);
      ShownShifts(s, e, i);
      InSecond(LexOut(s), Blank(s[e..]), i);
    }
  }

  /** At the last position of a text with an open literal stands that literal's quote. */
  lemma {:induction false} LastShowsQuote(s: string)
    requires Unterminated(s)
    ensures var m := ModeAt(InCode, s, |s|); (m.InLiteral? || m.Escaped?) && Quote(m.quote)
    ensures |Blank(s)| >= |s| && Blank(s)[|s| - 1] == ModeAt(InCode, s, |s|).quote
    decreases |s|
  {
    if Open(s) {
      OpenLast(s);
    } else {
      RestUnterminated(s);
      LastShowsQuote(s[LexEnd(s)..]);
      ModeInRest(s, |s|);
      LexKeepsLineEnds(s);
      InSecond(LexOut(s), Blank(s[LexEnd(s)..]), |s| - 1);
    }
  }

  lemma {:induction false} RestUnterminated(s: string)
    requires Unterminated(s) && !Open(s)
    ensures LexEnd(s) < |s| && Unterminated(s[LexEnd(s)..])
  {
  }

  lemma {:induction false} OpenLast(s: string)
    requires s != "" && Open(s)
    ensures LexEnd(s) == |s| && ModeAt(InCode, s, |s|) in {InLiteral(s[0]), Escaped(s[0])}
    ensures |Blank(s)| >= |s| && Blank(s)[|s| - 1] == s[0]
  {
    LiteralEnds(s);
    assert s[LexEnd(s)..] == "" && Blank(s) == LexOut(s) + "";
  }

  lemma InSecond(a: string, b: string, i: nat)
    requires |a| <= i < |a| + |b|
    ensures (a + b)[i] == b[i - |a|]
  {
  }

  /** A literal is left open exactly when the text ends inside one. */
  lemma {:induction false} UnterminatedExactly(s: string)
    ensures Unterminated(s) <==> ModeAt(InCode, s, |s|).InLiteral? || ModeAt(InCode, s, |s|).Escaped?
    decreases |s|
  {
    if s == "" {
    } else if LexEnd(s) < |s| {
      UnterminatedExactly(s[LexEnd(s)..]);
      ModeInRest(s, |s|);
    } else if Open(s) {
      LiteralEnds(s);
    } else {
      assert s[LexEnd(s)..] == "";
      EndsOutsideLiteral(s);
    }
  }

  /** Its opening quote is the last character exactly when a quote is read as code there. */
  lemma {:induction false} OpensAtEndExactly(s: string)
    ensures OpensAtEnd(s) <==> s != "" && ModeAt(InCode, s, |s| - 1) == InCode && Quote(s[|s| - 1])
    decreases |s|
  {
    if s == "" {
    } else if LexEnd(s) < |s| {
      OpensAtEndExactly(s[LexEnd(s)..]);
      ModeInRest(s, |s| - 1);
    } else {
      LastOfLexeme(s);
    }
  }

  lemma {:induction false} LastOfLexeme(s: string)
    requires s != "" && LexEnd(s) == |s|
    ensures OpensAtEnd(s) <==> ModeAt(InCode, s, |s| - 1) == InCode && Quote(s[|s| - 1])
  {
    assert s[LexEnd(s)..] == "";
    if |s| > 1 {
      if LineComment(s) {
        LineModes(s, |s| - 1);
      } else if BlockComment(s) {
        BlockModes(s, |s| - 1);
        BlockModes(s, |s|);
      } else if Quote(s[0]) {
        assert ModeAt(InCode, s, 1) == InLiteral(s[0]);
        LiteralModes(InCode, s, s[0], 1);
      }
    }
  }

  lemma {:induction false} EndsOutsideLiteral(s: string)
    requires s != "" && !Open(s) && LexEnd(s) == |s|
    ensures !ModeAt(InCode, s, |s|).InLiteral? && !ModeAt(InCode, s, |s|).Escaped?
  {
    if LineComment(s) {
      LineModes(s, |s|);
    } else if BlockComment(s) {
      BlockModes(s, |s|);
    } else if Quote(s[0]) {
      LiteralEnds(s);
    } else {
      assert ModeAt(InCode, s, 0) == InCode;
    }
  }
}
