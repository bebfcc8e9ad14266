/** The parts of Rust's `str` that the parsers, the S3 client and the log follower use. */
module Text {
  import opened Options

  // -------- searching --------

  predicate OccursAt(s: string, part: string, i: nat) {
    i + |part| <= |s| && s[i..i + |part|] == part
  }

  /** The first place at or after `from` where `part` occurs. */
  function FindFrom(s: string, part: string, from: nat): (r: Option<nat>)
    ensures r.Some? ==> r.value + |part| <= |s|
    decreases |s| - from
  {
    if from + |part| > |s| then None
    else if OccursAt(s, part, from) then Some(from)
    else FindFrom(s, part, from + 1)
  }

  /** `str::find`. */
  function Find(s: string, part: string): Option<nat> {
    FindFrom(s, part, 0)
  }

  /** What is found is an occurrence and the first one; nothing is found when there is none. */
  lemma {:induction false} FindFromSpec(s: string, part: string, from: nat)
    ensures var r := FindFrom(s, part, from);
            && (r.Some? ==> from <= r.value && OccursAt(s, part, r.value) && forall i | from <= i < r.value :: !OccursAt(s, part, i))
            && (r.None? ==> forall i: nat | from <= i :: !OccursAt(s, part, i))
    decreases |s| - from
  {
    if from + |part| <= |s| && !OccursAt(s, part, from) {
      FindFromSpec(s, part, from + 1);
    }
  }

  /** The first place of a character. */
  function IndexOf(s: string, c: char): (r: Option<nat>)
    ensures r.Some? ==> r.value < |s|
  {
    if s == "" then None
    else if s[0] == c then Some(0)
    else
      match IndexOf(s[1..], c)
      case None => None
      case Some(i) => Some(i + 1)
  }

  /** No character of `s` is `c`. */
  predicate Lacks(s: string, c: char) {
    forall i | 0 <= i < |s| :: s[i] != c
  }

  lemma {:induction false} IndexOfSpec(s: string, c: char)
    ensures var r := IndexOf(s, c);
            && (r.None? <==> Lacks(s, c))
            && (r.Some? ==> s[r.value] == c && forall i | 0 <= i < r.value :: s[i] != c)
  {
    if s != "" && s[0] != c {
      IndexOfSpec(s[1..], c);
      forall i | 0 <= i < |s| && (IndexOf(s, c).Some? ==> i < IndexOf(s, c).value)
        ensures s[i] != c
      {
        if i > 0 {
          assert s[i] == s[1..][i - 1];
        }
      }
    }
  }

  /** There is only one first place. */
  lemma FirstIs(s: string, c: char, i: nat)
    requires i < |s| && s[i] == c && forall j | 0 <= j < i :: s[j] != c
    ensures IndexOf(s, c) == Some(i)
  {
    IndexOfSpec(s, c);
  }

  lemma Assoc<T>(a: seq<T>, b: seq<T>, c: seq<T>)
    ensures a + b + c == a + (b + c)
  {
  }

  /** The first `c` of a text in which none comes before it, and what is around it. */
  lemma FirstInConcat(l: string, c: char, r: string)
    requires Lacks(l, c)
    ensures IndexOf(l + [c] + r, c) == Some(|l|)
    ensures (l + [c] + r)[..|l|] == l && (l + [c] + r)[|l| + 1..] == r
  {
    FirstIs(l + [c] + r, c, |l|);
  }

  // -------- trimming --------

  /** The Unicode property White_Space, which `str::trim` and `split_whitespace` go by. */
  predicate IsSpace(c: char) {
    || '\U{0009}' <= c <= '\U{000D}'
    || c == ' ' || c == '\U{0085}' || c == '\U{00A0}' || c == '\U{1680}'
    || '\U{2000}' <= c <= '\U{200A}'
    || c == '\U{2028}' || c == '\U{2029}' || c == '\U{202F}' || c == '\U{205F}' || c == '\U{3000}'
  }

  function TrimStartBy(s: string, drop: char -> bool): (r: string)
    ensures |r| <= |s|
    ensures r != "" ==> !drop(r[0])
  {
    if s != "" && drop(s[0]) then TrimStartBy(s[1..], drop) else s
  }

  function TrimEndBy(s: string, drop: char -> bool): (r: string)
    ensures |r| <= |s|
    ensures r != "" ==> !drop(r[|r| - 1])
  {
    if s != "" && drop(s[|s| - 1]) then TrimEndBy(s[..|s| - 1], drop) else s
  }

  function TrimBy(s: string, drop: char -> bool): string {
    TrimEndBy(TrimStartBy(s, drop), drop)
  }

  function Trim(s: string): string {
    TrimBy(s, IsSpace)
  }

  predicate AllOf(s: string, p: char -> bool) {
    forall i | 0 <= i < |s| :: p(s[i])
  }

  /** Nothing to trim at either end. */
  predicate IsTrimmedBy(s: string, drop: char -> bool) {
    s == "" || (!drop(s[0]) && !drop(s[|s| - 1]))
  }

  lemma {:induction false} TrimStartSkips(a: string, t: string, drop: char -> bool)
    requires AllOf(a, drop) && (t == "" || !drop(t[0]))
    ensures TrimStartBy(a + t, drop) == t
  {
    if a == "" {
      assert a + t == t;
    } else {
      assert (a + t)[1..] == a[1..] + t;
      TrimStartSkips(a[1..], t, drop);
    }
  }

  lemma {:induction false} TrimEndSkips(t: string, b: string, drop: char -> bool)
    requires AllOf(b, drop) && (t == "" || !drop(t[|t| - 1]))
    ensures TrimEndBy(t + b, drop) == t
  {
    if b == "" {
      assert t + b == t;
    } else {
      assert (t + b)[..|t + b| - 1] == t + b[..|b| - 1];
      TrimEndSkips(t, b[..|b| - 1], drop);
    }
  }

  /** Trimming gives `t` when only `t` is left after dropping the ends. */
  lemma TrimIs(a: string, t: string, b: string, drop: char -> bool)
    requires AllOf(a, drop) && AllOf(b, drop) && IsTrimmedBy(t, drop)
    ensures TrimBy(a + t + b, drop) == t
  {
    if t == "" {
      assert a + t + b == (a + b) + "";
      TrimStartSkips(a + b, "", drop);
    } else {
      assert a + t + b == a + (t + b);
      TrimStartSkips(a, t + b, drop);
      TrimEndSkips(t, b, drop);
    }
  }

  lemma {:induction false} TrimStartSplits(s: string, drop: char -> bool) returns (a: string)
    ensures s == a + TrimStartBy(s, drop) && AllOf(a, drop)
  {
    if s != "" && drop(s[0]) {
      var rest := TrimStartSplits(s[1..], drop);
      a := [s[0]] + rest;
      Assoc([s[0]], rest, TrimStartBy(s, drop));
      assert s == [s[0]] + s[1..];
    } else {
      a := "";
    }
  }

  lemma {:induction false} TrimEndSplits(s: string, drop: char -> bool) returns (b: string)
    ensures s == TrimEndBy(s, drop) + b && AllOf(b, drop)
  {
    if s != "" && drop(s[|s| - 1]) {
      var rest := TrimEndSplits(s[..|s| - 1], drop);
      b := rest + [s[|s| - 1]];
      assert s == s[..|s| - 1] + [s[|s| - 1]];
    } else {
      b := "";
    }
  }

  /** What trimming takes away is only what may be dropped. */
  lemma TrimSplits(s: string, drop: char -> bool) returns (a: string, b: string)
    ensures s == a + TrimBy(s, drop) + b && AllOf(a, drop) && AllOf(b, drop)
    ensures IsTrimmedBy(TrimBy(s, drop), drop)
  {
    a := TrimStartSplits(s, drop);
    var rest := TrimStartBy(s, drop);
    b := TrimEndSplits(rest, drop);
    var t := TrimBy(s, drop);
    assert t != "" ==> t[0] == rest[0];
  }

  // -------- lines --------

  function WithoutCr(line: string): string {
    if line != "" && line[|line| - 1] == '\r' then line[..|line| - 1] else line
  }

  /** `str::lines`: a line ends at "\n" or "\r\n"; the last one needs no end. */
  function Lines(s: string): seq<string> {
    match IndexOf(s, '\n')
    case None => if s == "" then [] else [s]
    case Some(i) => [WithoutCr(s[..i])] + Lines(s[i + 1..])
  }

  /** The text is empty or its last line is complete. */
  predicate Complete(s: string) {
    s == "" || s[|s| - 1] == '\n'
  }

  lemma LinesStep(line: string, rest: string)
    requires Lacks(line, '\n')
    ensures Lines(line + "\n" + rest) == [WithoutCr(line)] + Lines(rest)
  {
    FirstInConcat(line, '\n', rest);
  }

  /** A line feed ends a line, and with it a carriage return right before it; the last line may go without. */
  lemma LastLine(a: string, line: string)
    requires Complete(a) && Lacks(line, '\n')
    ensures Lines(a + line) == Lines(a) + if line == "" then [] else [line]
    ensures Lines(a + (line + "\r\n")) == Lines(a) + [line]
    ensures (line == "" || line[|line| - 1] != '\r') ==> Lines(a + (line + "\n")) == Lines(a) + [line]
  {
    LinesOfConcat(a, line);
    LinesOfConcat(a, line + "\r\n");
    LinesOfConcat(a, line + "\n");
    IndexOfSpec(line, '\n');
    LinesStep(line, "");
    LinesStep(line + "\r", "");
    assert line + "\r" + "\n" + "" == line + "\r\n";
    assert line + "\n" + "" == line + "\n";
  }

  /** Complete text is empty or starts with a complete line. */
  lemma FirstLine(a: string) returns (line: string, rest: string)
    requires Complete(a) && a != ""
    ensures a == line + "\n" + rest && Lacks(line, '\n') && Complete(rest) && |rest| < |a|
  {
    IndexOfSpec(a, '\n');
    assert a[|a| - 1] == '\n';
    var i := IndexOf(a, '\n').value;
    line, rest := a[..i], a[i + 1..];
    assert rest != "" ==> rest[|rest| - 1] == a[|a| - 1];
  }

  /** Text after complete lines adds its own lines. */
  lemma {:induction false} LinesOfConcat(a: string, b: string)
    requires Complete(a)
    ensures Lines(a + b) == Lines(a) + Lines(b)
    decreases |a|
  {
    if a == "" {
      assert a + b == b;
    } else {
      var line, rest := FirstLine(a);
      LinesStep(line, rest);
      LinesStep(line, rest + b);
      Assoc(line + "\n", rest, b);
      LinesOfConcat(rest, b);
      Assoc([WithoutCr(line)], Lines(rest), Lines(b));
    }
  }

  // -------- words --------

  /** `str::split_whitespace`: the maximal stretches without white space. */
  function Words(s: string): seq<string> {
    WordsOf(TrimStartBy(s, IsSpace))
  }

  function WordLength(s: string): (n: nat)
    ensures n <= |s| && (s != "" && !IsSpace(s[0]) ==> n > 0)
  {
    if s == "" || IsSpace(s[0]) then 0 else WordLength(s[1..]) + 1
  }

  function WordsOf(s: string): seq<string>
    requires s == "" || !IsSpace(s[0])
    decreases |s|
  {
    if s == "" then []
    else
      var n := WordLength(s);
      [s[..n]] + WordsOf(TrimStartBy(s[n..], IsSpace))
  }

  lemma {:induction false} WordsAreShort(s: string)
    requires s == "" || !IsSpace(s[0])
    ensures forall w | w in WordsOf(s) :: |w| <= |s|
    decreases |s|
  {
    if s != "" {
      WordsAreShort(TrimStartBy(s[WordLength(s)..], IsSpace));
    }
  }

  predicate IsWord(w: string) {
    w != "" && forall i | 0 <= i < |w| :: !IsSpace(w[i])
  }

  /** Words with white space around and between them. */
  predicate AreSpaced(ws: seq<string>, gaps: seq<string>) {
    && |gaps| == |ws| + 1
    && (forall i | 0 <= i < |ws| :: IsWord(ws[i]))
    && (forall i | 0 <= i < |gaps| :: AllOf(gaps[i], IsSpace))
    && (forall i | 0 < i < |ws| :: gaps[i] != "")
  }

  function Spaced(ws: seq<string>, gaps: seq<string>): string
    requires |gaps| == |ws| + 1
  {
    if ws == [] then gaps[0] else gaps[0] + (ws[0] + Spaced(ws[1..], gaps[1..]))
  }

  lemma {:induction false} WordLengthIs(w: string, rest: string)
    requires forall i | 0 <= i < |w| :: !IsSpace(w[i])
    requires rest == "" || IsSpace(rest[0])
    ensures WordLength(w + rest) == |w|
  {
    if w == "" {
      assert w + rest == rest;
    } else {
      assert (w + rest)[1..] == w[1..] + rest;
      WordLengthIs(w[1..], rest);
    }
  }

  /** What is split at white space are the words that were put between it, in order. */
  lemma {:induction false} WordsOfSpaced(ws: seq<string>, gaps: seq<string>)
    requires AreSpaced(ws, gaps)
    ensures Words(Spaced(ws, gaps)) == ws
  {
    if ws == [] {
      TrimStartSkips(gaps[0], "", IsSpace);
      assert gaps[0] + "" == gaps[0];
    } else {
      var w, rest := ws[0], Spaced(ws[1..], gaps[1..]);
      WordsOfSpaced(ws[1..], gaps[1..]);
      SpaceAfterWord(ws[1..], gaps[1..]);
      TrimStartSkips(gaps[0], w + rest, IsSpace);
      WordLengthIs(w, rest);
      assert (w + rest)[..|w|] == w && (w + rest)[|w|..] == rest;
      assert ws == [w] + ws[1..];
    }
  }

  lemma SpaceAfterWord(ws: seq<string>, gaps: seq<string>)
    requires |gaps| == |ws| + 1 && AllOf(gaps[0], IsSpace) && (ws != [] ==> gaps[0] != "")
    ensures Spaced(ws, gaps) == "" || IsSpace(Spaced(ws, gaps)[0])
  {
  }

  // -------- splitting --------

  /** `str::split_once`. */
  function SplitOnce(s: string, sep: string): Option<(string, string)>
    requires sep != ""
  {
    match Find(s, sep)
    case None => None
    case Some(i) => Some((s[..i], s[i + |sep|..]))
  }

  // -------- chunks --------

  function Concat<T>(chunks: seq<seq<T>>): seq<T> {
    if chunks == [] then [] else Concat(chunks[..|chunks| - 1]) + chunks[|chunks| - 1]
  }

  lemma {:induction false} ConcatSplit<T>(chunks: seq<seq<T>>, n: nat)
    requires n <= |chunks|
    ensures Concat(chunks) == Concat(chunks[..n]) + Concat(chunks[n..])
    decreases |chunks| - n
  {
    var last := |chunks| - 1;
    if n == |chunks| {
      assert chunks[..n] == chunks;
    } else {
      assert chunks[..last][..n] == chunks[..n] && chunks[n..][..|chunks[n..]| - 1] == chunks[..last][n..];
      ConcatSplit(chunks[..last], n);
      Assoc(Concat(chunks[..n]), Concat(chunks[..last][n..]), chunks[last]);
    }
  }
}
