/** The forms of a line of a `.SRCINFO` file: margins and comments, quoted values, arrays. */
module SrcInfoLines {
  import opened Options
  import opened Text
  import opened SrcInfo

  /** Spaces and tabs. */
  predicate Blanks(s: string) {
    forall i | 0 <= i < |s| :: s[i] == ' ' || s[i] == '\t'
  }

  /** Blanks around a line and a comment after it do not matter. */
  lemma MarginsDoNotMatter(line: string, a: string, b: string, comment: string)
    requires Lacks(line, '#') && Blanks(a) && Blanks(b)
    ensures Tokenise(a + line + b + ("#" + comment)) == Tokenise(line)
    ensures Tokenise(a + line + b) == Tokenise(line)
  {
    PaddedLacks(a, line, b);
    CommentIsCut(a + line + b, comment);
    CommentIsCut(line, "");
    TrimPadded(a, line, b);
    SameContent(a + line + b + ("#" + comment), line);
    SameContent(a + line + b, line);
  }

  lemma PaddedLacks(a: string, line: string, b: string)
    requires Lacks(line, '#') && Blanks(a) && Blanks(b)
    ensures Lacks(a + line + b, '#')
  {
  }

  lemma CommentIsCut(line: string, comment: string)
    requires Lacks(line, '#')
    ensures CutComment(line) == line && CutComment(line + ("#" + comment)) == line
  {
    IndexOfSpec(line, '#');
    Assoc(line, "#", comment);
    FirstInConcat(line, '#', comment);
  }

  lemma TrimPadded(a: string, line: string, b: string)
    requires AllOf(a, IsSpace) && AllOf(b, IsSpace)
    ensures Trim(a + line + b) == Trim(line)
  {
    var x, y := TrimSplits(line, IsSpace);
    TrimIs(a + x, Trim(line), y + b, IsSpace);
    assert a + line + b == a + x + Trim(line) + (y + b);
  }

  lemma SameContent(x: string, y: string)
    requires Content(x) == Content(y)
    ensures Tokenise(x) == Tokenise(y)
  {
  }

  /** What is left of "key = value" when nothing has to be trimmed off the value. */
  lemma ContentOf(k: string, v: string)
    requires IsTrimmedBy(k, IsSpace) && Lacks(k, '#')
    requires v != "" && IsTrimmedBy(v, IsSpace) && Lacks(v, '#')
    ensures Content(k + " = " + v) == Left(k) + "=" + (" " + v)
  {
    CanonicalParts(k, v);
    var t := Left(k) + "=" + (" " + v);
    assert t[0] == if k == "" then '=' else k[0];
    assert t[|t| - 1] == v[|v| - 1];
    ContentIs(k + " = " + v, if k == "" then " " else "", t, "");
  }

  // -------- quoted values --------

  predicate Quotes(s: string) {
    forall i | 0 <= i < |s| :: s[i] == '"' || s[i] == '\''
  }

  /** Neither end of the value is a quote. */
  predicate Unquoted(v: string) {
    v != "" ==> v[0] != '"' && v[0] != '\'' && v[|v| - 1] != '"' && v[|v| - 1] != '\''
  }

  /** A quoted value comes back as it is, spaces at its ends included, without the quotes around it. */
  lemma QuotedTokenises(k: string, q: string, v: string, r: string)
    requires IsTrimmedBy(k, IsSpace) && Lacks(k, '=') && Lacks(k, '#')
    requires Quotes(q) && Quotes(r) && q != "" && r != "" && Unquoted(v) && Lacks(v, '#')
    ensures Tokenise(k + " = " + (q + v + r)) == Entry(k, [v])
  {
    QuotedChars(q, v, r);
    ScalarTokenises(k, q + v + r);
    TrimIs(q, v, r, IsQuote);
  }

  lemma ScalarTokenises(k: string, v: string)
    requires IsTrimmedBy(k, IsSpace) && Lacks(k, '=') && Lacks(k, '#')
    requires v != "" && IsTrimmedBy(v, IsSpace) && Lacks(v, '#') && v[|v| - 1] != ')'
    ensures Tokenise(k + " = " + v) == Entry(k, [TrimBy(v, IsQuote)])
  {
    ContentOf(k, v);
    NoArrayEnd(Left(k), v);
    SplitsAtFirst(k + " = " + v, Left(k), " " + v);
    TrimsToKey(k);
    TrimFront(v);
  }

  lemma QuotedChars(q: string, v: string, r: string)
    requires Quotes(q) && Quotes(r) && q != "" && r != "" && Lacks(v, '#')
    ensures var raw := q + v + r;
            raw != "" && IsTrimmedBy(raw, IsSpace) && Lacks(raw, '#') && raw[|raw| - 1] != ')'
  {
    var raw := q + v + r;
    assert raw[0] == q[0] && raw[|raw| - 1] == r[|r| - 1];
  }

  lemma NoArrayEnd(l: string, v: string)
    requires v != "" && v[|v| - 1] != ')'
    ensures ArrayAt(l + "=" + (" " + v)).None?
  {
    var t := l + "=" + (" " + v);
    assert t[|t| - 1] == v[|v| - 1];
  }

  lemma TrimFront(v: string)
    requires IsTrimmedBy(v, IsSpace)
    ensures Trim(" " + v) == v
  {
    TrimIs(" ", v, "", IsSpace);
    assert " " + v + "" == " " + v;
  }

  // -------- arrays --------

  /** An array comes back as its words, in order, however they are spaced. */
  lemma ArrayTokenises(k: string, ws: seq<string>, gaps: seq<string>)
    requires IsTrimmedBy(k, IsSpace) && Lacks(k, '=') && Lacks(k, '#')
    requires AreSpaced(ws, gaps) && forall i | 0 <= i < |ws| :: Lacks(ws[i], '#')
    ensures Tokenise(k + " = " + ("(" + Spaced(ws, gaps) + ")")) == Entry(k, ws)
  {
    var inner := Spaced(ws, gaps);
    SpacedLacks(ws, gaps, '#');
    ContentOf(k, "(" + inner + ")");
    ArrayParts(Left(k), inner);
    TokeniseArray(k + " = " + ("(" + inner + ")"), Left(k), inner);
    TrimsToKey(k);
    WordsOfSpaced(ws, gaps);
  }

  lemma TokeniseArray(raw: string, l: string, inner: string)
    requires Content(raw) == l + "=" + (" " + ("(" + inner + ")")) && Lacks(l, '=')
    ensures Tokenise(raw) == Entry(Trim(l), Words(inner))
  {
    ArrayParts(l, inner);
  }

  lemma ArrayParts(l: string, inner: string)
    requires Lacks(l, '=')
    ensures var t := l + "=" + (" " + ("(" + inner + ")"));
            && t != "" && ArrayAt(t) == Some(|l|) && t[..|l|] == l
            && |l| + 3 <= |t| - 1 && t[|l| + 3..|t| - 1] == inner
  {
    var t := l + "=" + (" " + ("(" + inner + ")"));
    assert t[..|t| - 1] == l + "= " + ("(" + inner);
    ArrayStart(l, "(" + inner);
  }

  lemma ArrayStart(l: string, inner: string)
    requires Lacks(l, '=') && inner != "" && inner[0] == '('
    ensures Find(l + "= " + inner, "= (") == Some(|l|)
  {
    FindFromSpec(l + "= " + inner, "= (", 0);
    OpeningAt(l, inner, |l|);
    var r := Find(l + "= " + inner, "= (");
    if r.Some? {
      OpeningAt(l, inner, r.value);
    }
  }

  lemma {:induction false} SpacedLacks(ws: seq<string>, gaps: seq<string>, c: char)
    requires |gaps| == |ws| + 1 && !IsSpace(c)
    requires forall i | 0 <= i < |gaps| :: AllOf(gaps[i], IsSpace)
    requires forall i | 0 <= i < |ws| :: Lacks(ws[i], c)
    ensures Lacks(Spaced(ws, gaps), c)
  {
    if ws != [] {
      SpacedLacks(ws[1..], gaps[1..], c);
    }
  }
}
