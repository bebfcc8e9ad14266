/**
 The follow loop on bytes. Each chunk is decoded on its own, so a cut inside a UTF-8 sequence turns
 one character into several replacement characters. This module says exactly when that shows.
 */
module FollowerBytes {
  import opened Options
  import opened Text
  import opened Utf8
  import opened Follower

  // -------- texts with characters blown up --------

  function Rep(n: nat): string {
    seq(n, _ => REPLACEMENT)
  }

  /** A character, or `k + 1` replacement characters in its place. */
  function Piece(c: char, k: nat): string {
    if k == 0 then [c] else Rep(k + 1)
  }

  function Grow(t: string, ks: seq<nat>): string
    requires |ks| == |t|
  {
    if t == "" then "" else Piece(t[0], ks[0]) + Grow(t[1..], ks[1..])
  }

  predicate IsHigh(c: char) {
    c >= '\U{0080}'
  }

  /** Only characters beyond ASCII are blown up. */
  predicate CanGrow(t: string, ks: seq<nat>) {
    |ks| == |t| && forall i | 0 <= i < |ks| && ks[i] > 0 :: IsHigh(t[i])
  }

  predicate AllZero(ks: seq<nat>) {
    forall i | 0 <= i < |ks| :: ks[i] == 0
  }

  function Zeros(n: nat): (ks: seq<nat>)
    ensures |ks| == n && AllZero(ks)
  {
    seq(n, _ => 0)
  }

  lemma {:induction false} GrowConcat(t: string, ks: seq<nat>, u: string, js: seq<nat>)
    requires |ks| == |t| && |js| == |u|
    ensures Grow(t + u, ks + js) == Grow(t, ks) + Grow(u, js)
  {
    if t == "" {
      assert t + u == u && ks + js == js;
    } else {
      assert (t + u)[1..] == t[1..] + u && (ks + js)[1..] == ks[1..] + js;
      GrowConcat(t[1..], ks[1..], u, js);
      Assoc(Piece(t[0], ks[0]), Grow(t[1..], ks[1..]), Grow(u, js));
    }
  }

  lemma {:induction false} GrowLength(t: string, ks: seq<nat>)
    requires |ks| == |t|
    ensures |Grow(t, ks)| >= |t|
    ensures AllZero(ks) <==> |Grow(t, ks)| == |t|
    ensures AllZero(ks) <==> Grow(t, ks) == t
  {
    if t != "" {
      GrowLength(t[1..], ks[1..]);
      assert t == [t[0]] + t[1..];
      assert ks == [ks[0]] + ks[1..];
      assert AllZero(ks) <==> ks[0] == 0 && AllZero(ks[1..]);
    }
  }

  // -------- what cutting does to a text --------

  lemma {:induction false} LoneContinuationsDecode(b: seq<Byte>, k: nat)
    requires k <= |b| && forall i | 0 <= i < k :: IsContinuation(b[i])
    ensures DecodeLossy(b) == Rep(k) + DecodeLossy(b[k..])
  {
    if k == 0 {
      assert b[0..] == b && Rep(0) + DecodeLossy(b) == DecodeLossy(b);
    } else {
      LoneContinuationsDecode(b[1..], k - 1);
      assert b[1..][k - 1..] == b[k..];
      assert [REPLACEMENT] + Rep(k - 1) == Rep(k);
      Assoc([REPLACEMENT], Rep(k - 1), DecodeLossy(b[k..]));
    }
  }

  lemma WideIsHigh(bytes: seq<Byte>)
    requires bytes != [] && Width(bytes[0]) > 1
    ensures IsHigh(CharOf(bytes))
  {
  }

  /** Bytes that continue an open sequence are lone continuations on their own. */
  lemma OpenParts(a: seq<Byte>, b: seq<Byte>) returns (k: nat, rest: string)
    requires IsOpen(a) && b != [] && Fits(a[0], |a|, b[0])
    ensures k > 0 && DecodeLossy(a) == [REPLACEMENT] && DecodeLossy(b) == Rep(k) + rest
    ensures DecodeLossy(a + b) == [CharOf(a + b)] + rest && IsHigh(CharOf(a + b))
  {
    var c := a + b;
    assert forall i | 0 <= i < |a| :: c[i] == a[i];
    assert forall i | 0 <= i < |b| :: c[|a| + i] == b[i];
    k := Taken(c) - |a|;
    rest := DecodeLossy(b[k..]);
    assert c[Taken(c)..] == b[k..];
    LoneContinuationsDecode(b, k);
    assert a[|a|..] == [];
    WideIsHigh(c);
  }

  /** Decoding behind an open sequence on its own blows up the character it would have become. */
  lemma GrowOpen(a: seq<Byte>, b: seq<Byte>, ks: seq<nat>) returns (js: seq<nat>)
    requires IsOpen(a) && b != [] && Fits(a[0], |a|, b[0])
    requires CanGrow(DecodeLossy(a), ks)
    ensures CanGrow(DecodeLossy(a + b), js) && Grow(DecodeLossy(a + b), js) == Grow(DecodeLossy(a), ks) + DecodeLossy(b)
  {
    var k, rest := OpenParts(a, b);
    js := [ks[0] + k] + Zeros(|rest|);
    GrowHead(CharOf(a + b), ks[0] + k, rest);
    GrowOne(ks);
    assert Rep(ks[0] + 1) + Rep(k) == Rep(ks[0] + k + 1);
    Assoc(Rep(ks[0] + 1), Rep(k), rest);
  }

  lemma GrowOne(ks: seq<nat>)
    requires |ks| == 1
    ensures Grow([REPLACEMENT], ks) == Rep(ks[0] + 1)
  {
    assert [REPLACEMENT][1..] == "" && ks[1..] == [];
    assert Piece(REPLACEMENT, ks[0]) + "" == Rep(ks[0] + 1);
  }

  lemma GrowHead(c: char, k: nat, rest: string)
    ensures Grow([c] + rest, [k] + Zeros(|rest|)) == Piece(c, k) + rest
    ensures IsHigh(c) || k == 0 ==> CanGrow([c] + rest, [k] + Zeros(|rest|))
  {
    assert ([c] + rest)[1..] == rest && ([k] + Zeros(|rest|))[1..] == Zeros(|rest|);
    GrowLength(rest, Zeros(|rest|));
  }

  lemma {:induction false} GrowAcross(a: seq<Byte>, b: seq<Byte>, ks: seq<nat>) returns (js: seq<nat>)
    requires CanGrow(DecodeLossy(a), ks)
    ensures CanGrow(DecodeLossy(a + b), js) && Grow(DecodeLossy(a + b), js) == Grow(DecodeLossy(a), ks) + DecodeLossy(b)
    decreases |a|
  {
    if a == [] {
      assert a + b == b;
      js := Zeros(|DecodeLossy(b)|);
      GrowLength(DecodeLossy(b), js);
      assert "" + DecodeLossy(b) == DecodeLossy(b);
    } else if IsOpen(a) && b != [] && Fits(a[0], |a|, b[0]) {
      js := GrowOpen(a, b, ks);
    } else {
      FrontIsFixed(a, b);
      var rest := a[Taken(a)..];
      GrowTail(CharOf(a), DecodeLossy(rest), ks);
      var more := GrowAcross(rest, b, ks[1..]);
      js := [ks[0]] + more;
      GrowTail(CharOf(a), DecodeLossy(rest + b), js);
      assert js[1..] == more;
      Assoc(Piece(CharOf(a), ks[0]), Grow(DecodeLossy(rest), ks[1..]), DecodeLossy(b));
    }
  }

  lemma GrowTail(c: char, t: string, ks: seq<nat>)
    requires |ks| == |t| + 1
    ensures Grow([c] + t, ks) == Piece(c, ks[0]) + Grow(t, ks[1..])
    ensures CanGrow([c] + t, ks) <==> CanGrow(t, ks[1..]) && (ks[0] > 0 ==> IsHigh(c))
  {
    assert ([c] + t)[1..] == t;
    assert forall i | 0 <= i < |t| :: ([c] + t)[i + 1] == t[i] && ks[i + 1] == ks[1..][i];
  }

  /** The buffered text is the decoded text with some characters blown up; none exactly when all cuts are clean. */
  lemma {:induction false} BufferedIsGrown(chunks: seq<seq<Byte>>) returns (ks: seq<nat>)
    ensures CanGrow(DecodeLossy(Concat(chunks)), ks)
    ensures Concat(Decoded(chunks)) == Grow(DecodeLossy(Concat(chunks)), ks)
    ensures AllZero(ks) <==> CleanCuts(chunks)
  {
    if chunks == [] {
      ks := [];
    } else {
      var front, last := chunks[..|chunks| - 1], chunks[|chunks| - 1];
      assert chunks == front + [last];
      MoreText(front, last);
      var js := BufferedIsGrown(front);
      ks := GrowAcross(Concat(front), last, js);
    }
    BytesDoNotMatterIff(chunks);
    GrowLength(DecodeLossy(Concat(chunks)), ks);
  }

  // -------- one line --------

  predicate IsAscii(s: string) {
    forall i | 0 <= i < |s| :: !IsHigh(s[i])
  }

  /** An ASCII text is at the front of a grown text exactly when it is at the front of the original. */
  lemma {:induction false} AsciiFront(t: string, ks: seq<nat>, p: string)
    requires CanGrow(t, ks) && IsAscii(p)
    ensures StartsWith(Grow(t, ks), p) <==> StartsWith(t, p)
    ensures StartsWith(t, p) ==> Grow(t, ks)[|p|..] == Grow(t[|p|..], ks[|p|..]) && AllZero(ks[..|p|])
  {
    var g := Grow(t, ks);
    if p == "" {
      assert g[..0] == "" && t[..0] == "" && g[0..] == g && t[0..] == t && ks[0..] == ks;
    } else if t != "" {
      assert g[0] == if ks[0] == 0 then t[0] else REPLACEMENT;
      if t[0] == p[0] {
        assert ks[0] == 0;
        AsciiFront(t[1..], ks[1..], p[1..]);
        assert g[1..] == Grow(t[1..], ks[1..]);
        FrontStep(g, p);
        FrontStep(t, p);
        if StartsWith(t, p) {
          assert t[1..][|p| - 1..] == t[|p|..] && ks[1..][|p| - 1..] == ks[|p|..] && g[1..][|p| - 1..] == g[|p|..];
          assert forall i | 1 <= i < |p| :: ks[i] == ks[1..][..|p| - 1][i - 1];
        }
      } else {
        assert g[0] != p[0];
        FrontStep(g, p);
        FrontStep(t, p);
      }
    }
  }

  lemma FrontStep(s: string, p: string)
    requires s != "" && p != ""
    ensures StartsWith(s, p) <==> s[0] == p[0] && StartsWith(s[1..], p[1..])
  {
    if |p| <= |s| {
      assert s[..|p|] == [s[0]] + s[1..][..|p| - 1];
      assert p == [p[0]] + p[1..];
    }
  }

  /** Dropping an ASCII marker leaves a grown text of what it leaves of the original. */
  lemma {:induction false} DropGrown(t: string, ks: seq<nat>, p: string) returns (js: seq<nat>)
    requires CanGrow(t, ks) && IsAscii(p) && p != ""
    ensures CanGrow(DropAll(t, p), js) && DropAll(Grow(t, ks), p) == Grow(DropAll(t, p), js)
    ensures AllZero(js) <==> AllZero(ks)
    decreases |t|
  {
    AsciiFront(t, ks, p);
    if StartsWith(t, p) {
      assert ks == ks[..|p|] + ks[|p|..];
      js := DropGrown(t[|p|..], ks[|p|..], p);
      assert AllZero(ks) <==> AllZero(ks[..|p|]) && AllZero(ks[|p|..]);
    } else {
      js := ks;
    }
  }

  /** A line that was blown up is printed longer than the original would be. */
  lemma ShownGrown(line: string, ks: seq<nat>)
    requires CanGrow(line, ks) && !AllZero(ks)
    ensures |Shown(Grow(line, ks))| > |Shown(line)|
  {
    var data := DropGrown(line, ks, DATA);
    var done := DropGrown(DropAll(line, DATA), data, DONE);
    GrowLength(Shown(line), done);
  }

  lemma DoneIsPrefix(line: string)
    ensures IsDone(line) <==> StartsWith(line, DONE)
  {
    if |line| + 1 == |DONE| {
      assert (line + "\n")[..|DONE|][|line|] == '\n';
    } else if |line| >= |DONE| {
      assert (line + "\n")[..|DONE|] == line[..|DONE|];
    }
  }

  lemma DoneGrown(line: string, ks: seq<nat>)
    requires CanGrow(line, ks)
    ensures IsDone(Grow(line, ks)) <==> IsDone(line)
  {
    DoneIsPrefix(line);
    DoneIsPrefix(Grow(line, ks));
    AsciiFront(line, ks, DONE);
  }

  lemma BlankIsAllSpace(line: string)
    ensures IsBlank(line) <==> AllOf(line, IsSpace)
  {
    var s := line + "\n";
    var a, b := TrimSplits(s, IsSpace);
    assert forall i | 0 <= i < |line| :: s[i] == line[i];
    if AllOf(line, IsSpace) {
      TrimIs(s, "", "", IsSpace);
      assert s + "" + "" == s;
    }
    if IsBlank(line) {
      assert s == a + b;
    }
  }

  lemma {:induction false} GrownIsNotBlank(line: string, ks: seq<nat>)
    requires |ks| == |line| && !AllZero(ks)
    ensures !AllOf(Grow(line, ks), IsSpace)
  {
    var g, piece, rest := Grow(line, ks), Piece(line[0], ks[0]), Grow(line[1..], ks[1..]);
    if ks[0] > 0 {
      assert g[0] == REPLACEMENT;
    } else {
      assert ks == [0] + ks[1..];
      GrownIsNotBlank(line[1..], ks[1..]);
      var i :| 0 <= i < |rest| && !IsSpace(rest[i]);
      assert g[|piece| + i] == rest[i];
    }
  }

  lemma DoneIsNotBlank(line: string)
    requires IsDone(line)
    ensures !IsBlank(line)
  {
    DoneIsPrefix(line);
    BlankIsAllSpace(line);
    assert line[0] == line[..|DONE|][0] == 'e';
  }

  // -------- all lines --------

  /** What is printed for complete lines, from the first one on. */
  function PrintedFor(lines: seq<string>): Output {
    if lines == [] then Output([], false)
    else if IsBlank(lines[0]) then PrintedFor(lines[1..])
    else if IsDone(lines[0]) then Output([DONE_LINE], true)
    else
      var more := PrintedFor(lines[1..]);
      Output([Shown(lines[0])] + more.lines, more.done)
  }

  lemma NotBlankHead(line: string, rest: seq<string>)
    ensures NotBlank([line] + rest) == (if IsBlank(line) then [] else [line]) + NotBlank(rest)
  {
    NotBlankConcat([line], rest);
    assert NotBlank([line]) == if IsBlank(line) then [] else [line];
  }

  /** What `Expected` makes of the lines that are not blank. */
  function OfKept(kept: seq<string>): Output {
    var n := FirstDone(kept);
    Output(ShownAll(kept[..n]) + (if n < |kept| then [DONE_LINE] else []), n < |kept|)
  }

  lemma OfKeptStep(line: string, kept: seq<string>)
    ensures IsDone(line) ==> OfKept([line] + kept) == Output([DONE_LINE], true)
    ensures !IsDone(line) ==> OfKept([line] + kept) == Output([Shown(line)] + OfKept(kept).lines, OfKept(kept).done)
  {
    assert ([line] + kept)[1..] == kept;
    if IsDone(line) {
      assert ShownAll([]) + [DONE_LINE] == [DONE_LINE];
    } else {
      var n := FirstDone(kept);
      assert ([line] + kept)[..n + 1] == [line] + kept[..n];
      ShownHead(line, kept[..n]);
      Assoc([Shown(line)], ShownAll(kept[..n]), if n < |kept| then [DONE_LINE] else []);
    }
  }

  lemma ShownHead(line: string, rest: seq<string>)
    ensures ShownAll([line] + rest) == [Shown(line)] + ShownAll(rest)
  {
  }

  /** That is what a text has to give. */
  lemma {:induction false} PrintedForIs(lines: seq<string>)
    ensures PrintedFor(lines) == OfKept(NotBlank(lines))
  {
    if lines != [] {
      var line, rest := lines[0], lines[1..];
      PrintedForIs(rest);
      NotBlankHead(line, rest);
      assert lines == [line] + rest;
      if IsBlank(line) {
        assert [] + NotBlank(rest) == NotBlank(rest);
      } else {
        OfKeptStep(line, NotBlank(rest));
      }
    }
  }

  /** Line by line, `gs` are the lines `ls` with characters blown up. */
  predicate AreGrown(gs: seq<string>, ls: seq<string>, kss: seq<seq<nat>>) {
    && |gs| == |ls| == |kss|
    && (ls == [] || (CanGrow(ls[0], kss[0]) && gs[0] == Grow(ls[0], kss[0]) && AreGrown(gs[1..], ls[1..], kss[1..])))
  }

  predicate NoneDoneIn(lines: seq<string>) {
    lines == [] || (!IsDone(lines[0]) && NoneDoneIn(lines[1..]))
  }

  /** A line in front of what is printed for the lines after it. */
  function InFront(line: string, more: seq<string>): seq<string> {
    if IsBlank(line) then more else [Shown(line)] + more
  }

  /** A blown-up line in front is never lost, and shows unless it is the original. */
  lemma InFrontGrown(l: string, ks: seq<nat>, a: seq<string>, b: seq<string>)
    requires CanGrow(l, ks) && |a| >= |b|
    ensures |InFront(Grow(l, ks), a)| >= |InFront(l, b)|
    ensures InFront(Grow(l, ks), a) == InFront(l, b) ==> AllZero(ks) && a == b
  {
    var g := Grow(l, ks);
    GrowLength(l, ks);
    if AllZero(ks) {
      assert ([Shown(l)] + a)[1..] == a && ([Shown(l)] + b)[1..] == b;
    } else {
      BlankIsAllSpace(g);
      GrownIsNotBlank(l, ks);
      ShownGrown(l, ks);
      assert ([Shown(g)] + a)[0] == Shown(g) && ([Shown(l)] + b)[0] == Shown(l);
    }
  }

  lemma PrintedInFront(lines: seq<string>)
    requires lines != [] && !IsDone(lines[0])
    ensures PrintedFor(lines) == Output(InFront(lines[0], PrintedFor(lines[1..]).lines), PrintedFor(lines[1..]).done)
  {
  }

  /** Without a done event, blown-up lines print the same only if none is blown up; nothing printed gets lost. */
  lemma {:induction false} SameOnlyIfEqual(gs: seq<string>, ls: seq<string>, kss: seq<seq<nat>>)
    requires AreGrown(gs, ls, kss) && NoneDoneIn(ls)
    ensures NoneDoneIn(gs) && PrintedFor(gs).done == PrintedFor(ls).done
    ensures |PrintedFor(gs).lines| >= |PrintedFor(ls).lines|
    ensures PrintedFor(gs).lines == PrintedFor(ls).lines <==> gs == ls
  {
    if ls != [] {
      SameOnlyIfEqual(gs[1..], ls[1..], kss[1..]);
      DoneGrown(ls[0], kss[0]);
      PrintedInFront(gs);
      PrintedInFront(ls);
      InFrontGrown(ls[0], kss[0], PrintedFor(gs[1..]).lines, PrintedFor(ls[1..]).lines);
      GrowLength(ls[0], kss[0]);
      HeadAndTail(gs, ls);
    }
  }

  lemma HeadAndTail<T>(s: seq<T>, t: seq<T>)
    requires s != [] && t != []
    ensures s == t <==> s[0] == t[0] && s[1..] == t[1..]
  {
    assert s == [s[0]] + s[1..] && t == [t[0]] + t[1..];
  }

  lemma CutAt<T>(s: seq<T>, i: nat)
    requires i < |s|
    ensures s[..i + 1] == s[..i] + [s[i]] && s == s[..i + 1] + s[i + 1..]
  {
  }

  /** A grown text around one of its line feeds. */
  lemma GrownAround(t: string, ks: seq<nat>, i: nat)
    requires CanGrow(t, ks) && i < |t| && t[i] == '\n'
    ensures CanGrow(t[..i], ks[..i]) && CanGrow(t[i + 1..], ks[i + 1..])
    ensures Grow(t, ks) == Grow(t[..i], ks[..i]) + "\n" + Grow(t[i + 1..], ks[i + 1..])
  {
    CutAt(t, i);
    CutAt(ks, i);
    GrowConcat(t[..i + 1], ks[..i + 1], t[i + 1..], ks[i + 1..]);
    GrowConcat(t[..i], ks[..i], "\n", [0]);
    assert Grow("\n", [0]) == "\n";
  }

  lemma GrownCons(g: string, gs: seq<string>, l: string, ls: seq<string>, ks: seq<nat>, kss: seq<seq<nat>>)
    requires AreGrown(gs, ls, kss) && CanGrow(l, ks) && g == Grow(l, ks)
    ensures AreGrown([g] + gs, [l] + ls, [ks] + kss)
  {
    assert ([g] + gs)[1..] == gs && ([l] + ls)[1..] == ls && ([ks] + kss)[1..] == kss;
  }

  /** Complete lines of a grown text are grown lines. */
  lemma {:induction false} LinesAreGrown(t: string, ks: seq<nat>) returns (kss: seq<seq<nat>>)
    requires CanGrow(t, ks)
    ensures AreGrown(CompleteLines(Grow(t, ks)), CompleteLines(t), kss)
    decreases |t|
  {
    IndexOfSpec(t, '\n');
    if IndexOf(t, '\n').None? {
      GrownLacks(t, ks);
      IndexOfSpec(Grow(t, ks), '\n');
      kss := [];
    } else {
      var i := IndexOf(t, '\n').value;
      GrownAround(t, ks, i);
      GrownLacks(t[..i], ks[..i]);
      var more := LinesAreGrown(t[i + 1..], ks[i + 1..]);
      CompleteLinesStep(Grow(t[..i], ks[..i]), Grow(t[i + 1..], ks[i + 1..]));
      kss := [ks[..i]] + more;
      GrownCons(Grow(t[..i], ks[..i]), CompleteLines(Grow(t[i + 1..], ks[i + 1..])),
                t[..i], CompleteLines(t[i + 1..]), ks[..i], more);
    }
  }

  lemma {:induction false} GrownLacks(t: string, ks: seq<nat>)
    requires CanGrow(t, ks) && Lacks(t, '\n')
    ensures Lacks(Grow(t, ks), '\n')
  {
    if t != "" {
      GrownLacks(t[1..], ks[1..]);
    }
  }

  /** Complete texts with the same lines are the same. */
  lemma {:induction false} LinesDecide(t: string, u: string)
    requires Complete(t) && Complete(u) && CompleteLines(t) == CompleteLines(u)
    ensures t == u
    decreases |t|
  {
    if t == "" || u == "" {
      NoLinesMeansEmpty(t);
      NoLinesMeansEmpty(u);
    } else {
      var l, x := FirstLine(t);
      var m, y := FirstLine(u);
      CompleteLinesStep(l, x);
      CompleteLinesStep(m, y);
      assert CompleteLines(t)[1..] == CompleteLines(x) && CompleteLines(u)[1..] == CompleteLines(y);
      LinesDecide(x, y);
    }
  }

  lemma NoLinesMeansEmpty(t: string)
    requires Complete(t)
    ensures CompleteLines(t) == [] <==> t == ""
  {
    if t != "" {
      var l, x := FirstLine(t);
      CompleteLinesStep(l, x);
    }
  }

  // -------- the bytes that are printed --------

  const FEED: Byte := 0x0A

  function FeedAt(bytes: seq<Byte>): (r: Option<nat>)
    ensures r.Some? ==> r.value < |bytes|
  {
    if bytes == [] then None
    else if bytes[0] == FEED then Some(0)
    else
      match FeedAt(bytes[1..])
      case None => None
      case Some(i) => Some(i + 1)
  }

  lemma {:induction false} FeedAtSpec(bytes: seq<Byte>)
    ensures var r := FeedAt(bytes);
            && (r.Some? ==> bytes[r.value] == FEED && FEED !in bytes[..r.value])
            && (r.None? ==> FEED !in bytes)
  {
    if bytes != [] && bytes[0] != FEED {
      FeedAtSpec(bytes[1..]);
      if FeedAt(bytes).Some? {
        var i := FeedAt(bytes[1..]).value;
        assert bytes[..i + 1] == [bytes[0]] + bytes[1..][..i];
      }
      assert bytes == [bytes[0]] + bytes[1..];
    }
  }

  /** No line is complete, or the first one is the done event. */
  predicate EndsHere(bytes: seq<Byte>) {
    FeedAt(bytes).None? || IsDone(DecodeLossy(bytes[..FeedAt(bytes).value]))
  }

  /** What follows the first complete line. */
  function After(bytes: seq<Byte>): (r: seq<Byte>)
    ensures FeedAt(bytes).Some? ==> |r| + FeedAt(bytes).value + 1 == |bytes|
  {
    if FeedAt(bytes).None? then bytes else bytes[FeedAt(bytes).value + 1..]
  }

  /** How many bytes the complete lines before the first done event have. */
  function HeadLength(bytes: seq<Byte>): (h: nat)
    ensures h <= |bytes|
    decreases |bytes|
  {
    if EndsHere(bytes) then 0 else |bytes| - |After(bytes)| + HeadLength(After(bytes))
  }

  /** A line feed ends every sequence. */
  lemma {:induction false} PendingAfterFeed(x: seq<Byte>)
    ensures Pending(x + [FEED]) == []
    decreases |x|
  {
    var a := x + [FEED];
    if x != [] {
      assert a[|x|] == FEED;
      assert Taken(a) <= |x|;
      assert a[Taken(a)..] == x[Taken(a)..] + [FEED];
      PendingAfterFeed(x[Taken(a)..]);
    }
  }

  lemma FeedDecodes(x: seq<Byte>, y: seq<Byte>)
    ensures DecodeLossy(x + [FEED]) == DecodeLossy(x) + "\n"
    ensures DecodeLossy(x + [FEED] + y) == DecodeLossy(x + [FEED]) + DecodeLossy(y)
  {
    DecodesApartIff(x, [FEED]);
    assert DecodeLossy([FEED]) == "\n" by { assert [FEED][1..] == []; }
    PendingAfterFeed(x);
    DecodesApartIff(x + [FEED], y);
  }

  lemma {:induction false} NoFeedNoNewline(bytes: seq<Byte>)
    requires FEED !in bytes
    ensures Lacks(DecodeLossy(bytes), '\n')
    decreases |bytes|
  {
    if bytes != [] {
      assert bytes[0] in bytes;
      assert CharOf(bytes) != '\n';
      var n := Taken(bytes);
      assert forall b | b in bytes[n..] :: b in bytes;
      NoFeedNoNewline(bytes[n..]);
    }
  }

  /** No complete line, or the first one is the done event. */
  predicate Stops(text: string) {
    var lines := CompleteLines(text);
    lines == [] || IsDone(lines[0])
  }

  predicate NoLineDone(text: string) {
    NoneDoneIn(CompleteLines(text))
  }

  lemma EmptyHead(bytes: seq<Byte>)
    requires Stops(DecodeLossy(bytes))
    ensures IsHead(bytes, 0)
  {
    assert bytes[..0] == [] && bytes[0..] == bytes;
    assert "" + DecodeLossy(bytes) == DecodeLossy(bytes);
  }

  lemma EndStops(bytes: seq<Byte>)
    requires EndsHere(bytes)
    ensures IsHead(bytes, 0)
  {
    FeedAtSpec(bytes);
    if FeedAt(bytes).None? {
      NoFeedNoNewline(bytes);
      IndexOfSpec(DecodeLossy(bytes), '\n');
    } else {
      var i := FeedAt(bytes).value;
      CutAt(bytes, i);
      FirstByteLine(bytes[..i], bytes[i + 1..]);
    }
    EmptyHead(bytes);
  }

  /** What holds where the printing ends, and with one more line in front, holds of the head. */
  lemma {:induction false} HeadInduction(p: (seq<Byte>, nat) -> bool, bytes: seq<Byte>)
    requires forall x: seq<Byte> | EndsHere(x) :: p(x, 0)
    requires forall x: seq<Byte>, k: nat | !EndsHere(x) && p(After(x), k) :: p(x, |x| - |After(x)| + k)
    ensures p(bytes, HeadLength(bytes))
    decreases |bytes|
  {
    if !EndsHere(bytes) {
      HeadInduction(p, After(bytes));
    }
  }

  /** The head ends at a line feed, holds no done event, and what follows prints no more than the event. */
  lemma HeadFacts(bytes: seq<Byte>)
    ensures IsHead(bytes, HeadLength(bytes))
  {
    forall x: seq<Byte> | EndsHere(x)
      ensures IsHead(x, 0)
    {
      EndStops(x);
    }
    forall x: seq<Byte>, k: nat | !EndsHere(x) && IsHead(After(x), k)
      ensures IsHead(x, |x| - |After(x)| + k)
    {
      var i, h := FeedAt(x).value, |x| - |After(x)| + k;
      BytesGoOn(x, i, k, h);
      TextGoesOn(x, i, After(x), k, h);
    }
    HeadInduction(IsHead, bytes);
  }

  lemma FirstByteLine(x: seq<Byte>, y: seq<Byte>)
    requires FEED !in x
    ensures DecodeLossy(x + [FEED] + y) == DecodeLossy(x) + "\n" + DecodeLossy(y)
    ensures CompleteLines(DecodeLossy(x + [FEED] + y)) == [DecodeLossy(x)] + CompleteLines(DecodeLossy(y))
  {
    FeedDecodes(x, y);
    NoFeedNoNewline(x);
    CompleteLinesStep(DecodeLossy(x), DecodeLossy(y));
  }

  predicate EndsAtFeed(bytes: seq<Byte>, h: nat) {
    h <= |bytes| && (h == 0 || bytes[h - 1] == FEED)
  }

  /** The text in front of the cut is complete lines without a done event, and cutting there cuts the text. */
  predicate CutsText(bytes: seq<Byte>, h: nat) {
    && h <= |bytes|
    && Complete(DecodeLossy(bytes[..h])) && NoLineDone(DecodeLossy(bytes[..h]))
    && DecodeLossy(bytes) == DecodeLossy(bytes[..h]) + DecodeLossy(bytes[h..])
  }

  predicate StopsAfter(bytes: seq<Byte>, h: nat) {
    h <= |bytes| && Stops(DecodeLossy(bytes[h..]))
  }

  /** What `HeadFacts` says of a cut after `h` bytes. */
  predicate IsHead(bytes: seq<Byte>, h: nat) {
    EndsAtFeed(bytes, h) && CutsText(bytes, h) && StopsAfter(bytes, h)
  }

  lemma LineInFront(line: string, a: string)
    requires Lacks(line, '\n') && !IsDone(line) && Complete(a) && NoLineDone(a)
    ensures Complete(line + "\n" + a) && NoLineDone(line + "\n" + a)
  {
    CompleteLinesStep(line, a);
    var all := line + "\n" + a;
    assert all[|all| - 1] == if a == "" then '\n' else a[|a| - 1];
    assert ([line] + CompleteLines(a))[1..] == CompleteLines(a);
  }

  lemma SliceBehind<T>(s: seq<T>, i: nat, k: nat)
    requires i < |s| && k <= |s| - (i + 1)
    ensures s[..i + 1 + k] == s[..i] + [s[i]] + s[i + 1..][..k]
    ensures s[i + 1 + k..] == s[i + 1..][k..]
  {
  }

  lemma BytesGoOn(bytes: seq<Byte>, i: nat, k: nat, h: nat)
    requires FeedAt(bytes) == Some(i) && k <= |After(bytes)| && h == i + 1 + k
    ensures h <= |bytes| && bytes[h..] == After(bytes)[k..]
    ensures EndsAtFeed(After(bytes), k) ==> EndsAtFeed(bytes, h)
    ensures StopsAfter(After(bytes), k) ==> StopsAfter(bytes, h)
  {
    SliceBehind(bytes, i, k);
    FeedAtSpec(bytes);
    assert bytes[i + k] == if k > 0 then After(bytes)[k - 1] else bytes[i];
  }

  lemma TextGoesOn(bytes: seq<Byte>, i: nat, rest: seq<Byte>, k: nat, h: nat)
    requires FeedAt(bytes) == Some(i) && rest == bytes[i + 1..] && k <= |rest| && h == i + 1 + k
    requires !IsDone(DecodeLossy(bytes[..i])) && CutsText(rest, k)
    ensures CutsText(bytes, h)
  {
    FeedAtSpec(bytes);
    SliceBehind(bytes, i, k);
    CutInTwo(bytes, h);
    CutInTwo(rest, k);
    LineBehind(bytes[..i], rest[..k], rest[k..]);
  }

  lemma CutInTwo<T>(s: seq<T>, k: nat)
    requires k <= |s|
    ensures s == s[..k] + s[k..]
  {
  }

  lemma LineBehind(x: seq<Byte>, a: seq<Byte>, b: seq<Byte>)
    requires FEED !in x && !IsDone(DecodeLossy(x))
    requires Complete(DecodeLossy(a)) && NoLineDone(DecodeLossy(a)) && DecodeLossy(a + b) == DecodeLossy(a) + DecodeLossy(b)
    ensures var head := x + [FEED] + a;
            && Complete(DecodeLossy(head)) && NoLineDone(DecodeLossy(head))
            && DecodeLossy(head + b) == DecodeLossy(head) + DecodeLossy(b)
  {
    NoFeedNoNewline(x);
    FirstByteLine(x, a);
    FirstByteLine(x, a + b);
    Assoc(x + [FEED], a, b);
    LineGoesOn(DecodeLossy(x), DecodeLossy(a), DecodeLossy(b));
  }

  lemma LineGoesOn(line: string, a: string, b: string)
    requires Lacks(line, '\n') && !IsDone(line) && Complete(a) && NoLineDone(a)
    ensures Complete(line + "\n" + a) && NoLineDone(line + "\n" + a)
    ensures line + "\n" + (a + b) == line + "\n" + a + b
  {
    LineInFront(line, a);
    Assoc(line + "\n", a, b);
  }

  // -------- cutting the chunks there --------

  /** No cut before byte `h` splits a sequence. */
  predicate CleanBefore(chunks: seq<seq<Byte>>, h: nat) {
    chunks == []
    || var front := chunks[..|chunks| - 1];
       CleanBefore(front, h) && (|Concat(front)| < h ==> !Splits(Concat(front), chunks[|chunks| - 1]))
  }

  lemma MoreBefore(front: seq<seq<Byte>>, last: seq<Byte>, h: nat)
    ensures CleanBefore(front + [last], h) <==> CleanBefore(front, h) && (|Concat(front)| < h ==> !Splits(Concat(front), last))
  {
    assert (front + [last])[..|front|] == front;
  }

  /** Without bytes behind `h`, every cut counts. */
  lemma {:induction false} AllBefore(chunks: seq<seq<Byte>>, h: nat)
    requires |Concat(chunks)| < h
    ensures CleanBefore(chunks, h) <==> CleanCuts(chunks)
  {
    if chunks != [] {
      AllBefore(chunks[..|chunks| - 1], h);
    }
  }

  /** `a` and `b` are the chunks cut in two after `h` bytes. */
  ghost predicate IsSplit(chunks: seq<seq<Byte>>, h: nat, a: seq<seq<Byte>>, b: seq<seq<Byte>>)
    requires h <= |Concat(chunks)|
  {
    && Concat(a) == Concat(chunks)[..h] && Concat(b) == Concat(chunks)[h..]
    && Concat(Decoded(chunks)) == Concat(Decoded(a)) + Concat(Decoded(b))
    && (CleanCuts(a) <==> CleanBefore(chunks, h))
  }

  /** Chunks cut in two after a line feed decode to the two halves. */
  lemma {:induction false} SplitChunks(chunks: seq<seq<Byte>>, h: nat) returns (a: seq<seq<Byte>>, b: seq<seq<Byte>>)
    requires h <= |Concat(chunks)| && (h == 0 || Concat(chunks)[h - 1] == FEED)
    ensures IsSplit(chunks, h, a, b)
  {
    if chunks == [] {
      a, b := [], [];
    } else {
      var front, last := chunks[..|chunks| - 1], chunks[|chunks| - 1];
      assert chunks == front + [last];
      MoreBytes(front, last);
      var n := |Concat(front)|;
      if h > 0 {
        ElementOfConcat(Concat(front), last, h - 1);
      }
      if h <= n {
        a, b := SplitChunks(front, h);
        SplitEarlier(front, last, h, a, b);
        b := b + [last];
      } else {
        a, b := SplitLast(front, last, h - n);
      }
    }
  }

  lemma ElementOfConcat<T>(s: seq<T>, t: seq<T>, j: nat)
    requires j < |s + t|
    ensures (s + t)[j] == if j < |s| then s[j] else t[j - |s|]
  {
  }

  lemma SplitEarlier(front: seq<seq<Byte>>, last: seq<Byte>, h: nat, a: seq<seq<Byte>>, b: seq<seq<Byte>>)
    requires h <= |Concat(front)| && IsSplit(front, h, a, b)
    ensures h <= |Concat(front + [last])| && IsSplit(front + [last], h, a, b + [last])
  {
    MoreBytes(front, last);
    MoreBytes(b, last);
    SlicesBefore(Concat(front), last, h);
    MoreText(front, last);
    MoreText(b, last);
    Assoc(Concat(Decoded(a)), Concat(Decoded(b)), DecodeLossy(last));
    MoreBefore(front, last, h);
  }

  lemma SlicesBefore<T>(s: seq<T>, t: seq<T>, h: nat)
    requires h <= |s|
    ensures (s + t)[..h] == s[..h] && (s + t)[h..] == s[h..] + t
  {
  }

  /** A chunk that goes on after a line feed decodes to its two parts. */
  lemma SplitLast(front: seq<seq<Byte>>, last: seq<Byte>, k: nat) returns (a: seq<seq<Byte>>, b: seq<seq<Byte>>)
    requires 0 < k <= |last| && last[k - 1] == FEED
    ensures |Concat(front)| + k <= |Concat(front + [last])|
    ensures IsSplit(front + [last], |Concat(front)| + k, a, b)
  {
    a, b := front + [last[..k]], [last[k..]];
    SplitLastBytes(front, last, k);
    SplitLastText(front, last, k);
    SplitLastCuts(front, last, k);
  }

  lemma SplitLastBytes(front: seq<seq<Byte>>, last: seq<Byte>, k: nat)
    requires k <= |last|
    ensures var all, h := Concat(front + [last]), |Concat(front)| + k;
            h <= |all| && Concat(front + [last[..k]]) == all[..h] && Concat([last[k..]]) == all[h..]
  {
    MoreBytes(front, last);
    MoreBytes(front, last[..k]);
    SingleChunk(last[k..]);
    SlicesAround(Concat(front), last, k);
  }

  lemma SplitLastText(front: seq<seq<Byte>>, last: seq<Byte>, k: nat)
    requires 0 < k <= |last| && last[k - 1] == FEED
    ensures Concat(Decoded(front + [last])) == Concat(Decoded(front + [last[..k]])) + Concat(Decoded([last[k..]]))
  {
    MoreText(front, last);
    MoreText(front, last[..k]);
    SingleChunk(last[k..]);
    ChunkDecodes(last, k);
    Assoc(Concat(Decoded(front)), DecodeLossy(last[..k]), DecodeLossy(last[k..]));
  }

  lemma SplitLastCuts(front: seq<seq<Byte>>, last: seq<Byte>, k: nat)
    requires 0 < k <= |last|
    ensures CleanCuts(front + [last[..k]]) <==> CleanBefore(front + [last], |Concat(front)| + k)
  {
    MoreCuts(front, last[..k]);
    MoreBefore(front, last, |Concat(front)| + k);
    SameSplit(Concat(front), last, k);
    AllBefore(front, |Concat(front)| + k);
  }

  lemma SameSplit(a: seq<Byte>, last: seq<Byte>, k: nat)
    requires 0 < k <= |last|
    ensures Splits(a, last) <==> Splits(a, last[..k])
  {
    assert last[..k][0] == last[0];
  }

  lemma SingleChunk(y: seq<Byte>)
    ensures Concat([y]) == y && Concat(Decoded([y])) == DecodeLossy(y)
  {
    MoreBytes([], y);
    MoreText([], y);
    assert [] + [y] == [y];
  }

  lemma ChunkDecodes(last: seq<Byte>, k: nat)
    requires 0 < k <= |last| && last[k - 1] == FEED
    ensures DecodeLossy(last) == DecodeLossy(last[..k]) + DecodeLossy(last[k..])
  {
    CutAt(last, k - 1);
    FeedDecodes(last[..k - 1], last[k..]);
  }

  lemma SlicesAround<T>(s: seq<T>, t: seq<T>, k: nat)
    requires k <= |t|
    ensures (s + t)[..|s| + k] == s + t[..k] && (s + t)[|s| + k..] == t[k..]
  {
  }

  // -------- the printed lines --------

  lemma {:induction false} PrintedForAppend(a: seq<string>, c: seq<string>)
    requires NoneDoneIn(a) && (c == [] || IsDone(c[0]))
    ensures PrintedFor(a + c) == Output(PrintedFor(a).lines + (if c == [] then [] else [DONE_LINE]), c != [])
  {
    if a == [] {
      assert a + c == c;
      if c != [] {
        DoneIsNotBlank(c[0]);
      }
    } else {
      assert (a + c)[1..] == a[1..] + c;
      PrintedForAppend(a[1..], c);
    }
  }

  lemma CompleteGrown(t: string, ks: seq<nat>)
    requires CanGrow(t, ks) && Complete(t)
    ensures Complete(Grow(t, ks))
  {
    if t != "" {
      var n := |t| - 1;
      GrownAround(t, ks, n);
      assert t[n + 1..] == "" && ks[n + 1..] == [];
      assert Grow(t[..n], ks[..n]) + "\n" + "" == Grow(t[..n], ks[..n]) + "\n";
    }
  }

  /** What one text prints, cut after complete lines without a done event. */
  lemma ExpectedInParts(t: string, u: string)
    requires Complete(t) && NoLineDone(t) && Stops(u)
    ensures var c := CompleteLines(u);
            Expected(t + u) == Output(PrintedFor(CompleteLines(t)).lines + (if c == [] then [] else [DONE_LINE]), c != [])
  {
    CompleteLinesConcat(t, u);
    PrintedForIs(CompleteLines(t + u));
    PrintedForAppend(CompleteLines(t), CompleteLines(u));
  }

  lemma GrownParts(t: string, ks: seq<nat>, u: string, js: seq<nat>)
    requires CanGrow(t, ks) && CanGrow(u, js) && Complete(t) && NoLineDone(t) && Stops(u)
    ensures var g, v := Grow(t, ks), Grow(u, js);
            && Complete(g) && NoLineDone(g) && Stops(v)
            && (CompleteLines(v) == [] <==> CompleteLines(u) == [])
            && (PrintedFor(CompleteLines(g)).lines == PrintedFor(CompleteLines(t)).lines <==> AllZero(ks))
  {
    var g, v := Grow(t, ks), Grow(u, js);
    CompleteGrown(t, ks);
    var kss := LinesAreGrown(t, ks);
    var jss := LinesAreGrown(u, js);
    if CompleteLines(u) != [] {
      DoneGrown(CompleteLines(u)[0], jss[0]);
    }
    SameOnlyIfEqual(CompleteLines(g), CompleteLines(t), kss);
    GrowLength(t, ks);
    if CompleteLines(g) == CompleteLines(t) {
      LinesDecide(g, t);
    }
  }

  lemma PartsSameIff(t: string, ks: seq<nat>, u: string, js: seq<nat>)
    requires CanGrow(t, ks) && CanGrow(u, js) && Complete(t) && NoLineDone(t) && Stops(u)
    ensures Expected(Grow(t, ks) + Grow(u, js)) == Expected(t + u) <==> AllZero(ks)
  {
    GrownParts(t, ks, u, js);
    ExpectedInParts(t, u);
    ExpectedInParts(Grow(t, ks), Grow(u, js));
    SameTail(PrintedFor(CompleteLines(Grow(t, ks))).lines, PrintedFor(CompleteLines(t)).lines,
             if CompleteLines(u) == [] then [] else [DONE_LINE]);
  }

  lemma SameTail<T>(a: seq<T>, b: seq<T>, tail: seq<T>)
    ensures a + tail == b + tail <==> a == b
  {
    if a + tail == b + tail {
      assert |a| == |b|;
      assert a == (a + tail)[..|a|] && b == (b + tail)[..|b|];
    }
  }

  /**
   The printed lines are those of the bytes together exactly when no cut splits a sequence before
   the end of the last complete line that comes before the done event.
   */
  lemma PrintedSameIff(chunks: seq<seq<Byte>>)
    ensures Expected(Concat(Decoded(chunks))) == Expected(DecodeLossy(Concat(chunks)))
            <==> CleanBefore(chunks, HeadLength(Concat(chunks)))
  {
    var bytes := Concat(chunks);
    var h := HeadLength(bytes);
    HeadFacts(bytes);
    var a, b := SplitChunks(chunks, h);
    var ks := BufferedIsGrown(a);
    var js := BufferedIsGrown(b);
    PartsSameIff(DecodeLossy(bytes[..h]), ks, DecodeLossy(bytes[h..]), js);
  }

  /** The whole command on the chunks of a response. */
  method FollowBytes(chunks: seq<seq<Byte>>) returns (out: Output)
    ensures out == Expected(Concat(Decoded(chunks)))
    ensures out == Expected(DecodeLossy(Concat(chunks))) <==> CleanBefore(chunks, HeadLength(Concat(chunks)))
  {
    out := Follow(Decoded(chunks));
    PrintedSameIff(chunks);
  }

  /** A euro sign cut after its first byte is printed as three replacement characters. */
  lemma CutEuroSign()
    ensures var whole, cut := [[0xE2, 0x82, 0xAC, 0x0A]], [[0xE2], [0x82, 0xAC, 0x0A]];
            && Concat(whole) == Concat(cut)
            && Concat(Decoded(whole)) == "\U{20AC}\n"
            && Concat(Decoded(cut)) == "\U{FFFD}\U{FFFD}\U{FFFD}\n"
  {
  }
}
