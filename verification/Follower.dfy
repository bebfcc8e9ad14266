/** The follow loop of `paur-cli logs` in paur-cli/src/cmd.rs. */
module Follower {
  import opened Options
  import opened Text
  import opened Utf8

  const DATA := "data: "
  const DONE := "event: done"
  const DONE_LINE := "-- build done --"

  // -------- one line --------

  predicate StartsWith(s: string, p: string) {
    |p| <= |s| && s[..|p|] == p
  }

  /** `trim_start_matches` with a text: drops it as often as it occurs at the front. */
  function DropAll(s: string, p: string): (r: string)
    requires p != ""
    ensures |r| <= |s|
    ensures |r| < |s| <==> StartsWith(s, p)
    ensures !StartsWith(s, p) ==> r == s
  {
    if StartsWith(s, p) then DropAll(s[|p|..], p) else s
  }

  /** What is printed for a line. */
  function Shown(line: string): string {
    DropAll(DropAll(line, DATA), DONE)
  }

  /**
   A log line sent as an event's data is printed as it is exactly when it does not itself start
   with one of the two markers.
   */
  lemma PrintedIntactIff(s: string)
    ensures Shown("data: " + s) == s <==> !StartsWith(s, "data: ") && !StartsWith(s, "event: done")
  {
    assert (DATA + s)[|DATA|..] == s;
    assert StartsWith(DATA + s, DATA);
    assert DropAll(DATA + s, DATA) == DropAll(s, DATA);
  }

  // -------- a text --------

  /** What the loop prints for the complete lines of a text, and whether it saw the end. */
  datatype Output = Output(lines: seq<string>, done: bool)

  /** The lines of a text that are complete; what follows the last line feed is not among them. */
  function CompleteLines(text: string): seq<string> {
    match IndexOf(text, '\n')
    case None => []
    case Some(i) => [text[..i]] + CompleteLines(text[i + 1..])
  }

  predicate IsBlank(line: string) {
    Trim(line + "\n") == ""
  }

  predicate IsDone(line: string) {
    StartsWith(line + "\n", DONE)
  }

  function NotBlank(lines: seq<string>): seq<string> {
    if lines == [] then []
    else NotBlank(lines[..|lines| - 1]) + if IsBlank(lines[|lines| - 1]) then [] else [lines[|lines| - 1]]
  }

  /** The place of the first done event, or the number of lines. */
  function FirstDone(lines: seq<string>): (n: nat)
    ensures n <= |lines|
  {
    if lines == [] || IsDone(lines[0]) then 0 else FirstDone(lines[1..]) + 1
  }

  function ShownAll(lines: seq<string>): seq<string> {
    seq(|lines|, i requires 0 <= i < |lines| => Shown(lines[i]))
  }

  /**
   What a text has to give: of its complete lines that are not blank, those before the first done
   event, each without its markers, and one fixed line for the event.
   */
  function Expected(text: string): Output {
    var kept := NotBlank(CompleteLines(text));
    var n := FirstDone(kept);
    Output(ShownAll(kept[..n]) + (if n < |kept| then ["-- build done --"] else []), n < |kept|)
  }

  predicate NoneDone(lines: seq<string>) {
    forall i | 0 <= i < |lines| :: !IsDone(lines[i])
  }

  lemma {:induction false} FirstDoneIs(a: seq<string>, b: seq<string>)
    requires NoneDone(a) && (b == [] || IsDone(b[0]))
    ensures FirstDone(a + b) == |a|
  {
    if a == [] {
      assert a + b == b;
    } else {
      assert (a + b)[1..] == a[1..] + b;
      FirstDoneIs(a[1..], b);
    }
  }

  lemma {:induction false} NotBlankConcat(a: seq<string>, b: seq<string>)
    ensures NotBlank(a + b) == NotBlank(a) + NotBlank(b)
  {
    if b == [] {
      assert a + b == a;
    } else {
      assert (a + b)[..|a + b| - 1] == a + b[..|b| - 1];
      NotBlankConcat(a, b[..|b| - 1]);
    }
  }

  lemma NotBlankStep(lines: seq<string>, line: string)
    ensures NotBlank(lines + [line]) == if IsBlank(line) then NotBlank(lines) else NotBlank(lines) + [line]
  {
    assert (lines + [line])[..|lines|] == lines;
  }

  lemma CompleteLinesStep(line: string, rest: string)
    requires Lacks(line, '\n')
    ensures CompleteLines(line + "\n" + rest) == [line] + CompleteLines(rest)
  {
    FirstInConcat(line, '\n', rest);
  }

  lemma {:induction false} CompleteLinesConcat(a: string, b: string)
    requires Complete(a)
    ensures CompleteLines(a + b) == CompleteLines(a) + CompleteLines(b)
    decreases |a|
  {
    if a == "" {
      assert a + b == b;
    } else {
      var line, rest := FirstLine(a);
      CompleteLinesStep(line, rest);
      CompleteLinesStep(line, rest + b);
      Assoc(line + "\n", rest, b);
      CompleteLinesConcat(rest, b);
      Assoc([line], CompleteLines(rest), CompleteLines(b));
    }
  }

  /** One more complete line. */
  lemma OneMoreLine(text: string, line: string)
    requires Complete(text) && Lacks(line, '\n')
    ensures CompleteLines(text + (line + "\n")) == CompleteLines(text) + [line]
    ensures Complete(text + (line + "\n"))
  {
    CompleteLinesConcat(text, line + "\n");
    SingleLine(line);
  }

  lemma SingleLine(line: string)
    requires Lacks(line, '\n')
    ensures CompleteLines(line + "\n") == [line]
  {
    FirstIs(line + "\n", '\n', |line|);
    assert (line + "\n")[..|line|] == line && (line + "\n")[|line| + 1..] == "";
  }

  // -------- the loop --------

  /** Between two lines: `text` is what was taken off the buffer, all of it printed. */
  ghost predicate Printed(text: string, lines: seq<string>) {
    && Complete(text)
    && NoneDone(NotBlank(CompleteLines(text)))
    && lines == ShownAll(NotBlank(CompleteLines(text)))
  }

  lemma LineTaken(text: string, lines: seq<string>, line: string)
    requires Printed(text, lines) && Lacks(line, '\n')
    ensures IsBlank(line) ==> Printed(text + (line + "\n"), lines)
    ensures !IsBlank(line) && !IsDone(line) ==> Printed(text + (line + "\n"), lines + [Shown(line)])
  {
    OneMoreLine(text, line);
    NotBlankStep(CompleteLines(text), line);
    OneMoreShown(NotBlank(CompleteLines(text)), line);
  }

  lemma OneMoreShown(kept: seq<string>, line: string)
    ensures ShownAll(kept + [line]) == ShownAll(kept) + [Shown(line)]
    ensures NoneDone(kept + [line]) <==> NoneDone(kept) && !IsDone(line)
  {
    assert forall i | 0 <= i < |kept| :: (kept + [line])[i] == kept[i];
    assert (kept + [line])[|kept|] == line;
  }

  lemma DoneSeen(text: string, lines: seq<string>, line: string, later: string)
    requires Printed(text, lines) && Lacks(line, '\n') && !IsBlank(line) && IsDone(line)
    ensures Expected(text + (line + "\n") + later) == Output(lines + [DONE_LINE], true)
  {
    var before, after := CompleteLines(text), CompleteLines(later);
    OneMoreLine(text, line);
    CompleteLinesConcat(text + (line + "\n"), later);
    NotBlankStep(before, line);
    NotBlankConcat(before + [line], after);
    var kept := NotBlank(before);
    Assoc(kept, [line], NotBlank(after));
    ExpectedWithDone(text + (line + "\n") + later, kept, [line] + NotBlank(after));
  }

  lemma ExpectedWithDone(text: string, kept: seq<string>, tail: seq<string>)
    requires NotBlank(CompleteLines(text)) == kept + tail && NoneDone(kept)
    requires tail != [] && IsDone(tail[0])
    ensures Expected(text) == Output(ShownAll(kept) + [DONE_LINE], true)
  {
    FirstDoneIs(kept, tail);
    assert (kept + tail)[..|kept|] == kept;
  }

  lemma NothingComplete(text: string, lines: seq<string>, rest: string)
    requires Printed(text, lines) && Lacks(rest, '\n')
    ensures Expected(text + rest) == Output(lines, false)
  {
    CompleteLinesConcat(text, rest);
    IndexOfSpec(rest, '\n');
    var kept := NotBlank(CompleteLines(text));
    assert CompleteLines(text) + [] == CompleteLines(text);
    FirstDoneIs(kept, []);
    assert kept + [] == kept && kept[..|kept|] == kept;
  }

  /**
   Reads the chunks one by one and prints every line as soon as it is complete. What is printed
   depends only on the concatenation of the chunks, not on where they are cut.
   */
  method Follow(chunks: seq<string>) returns (out: Output)
    ensures out == Expected(Concat(chunks))
  {
    var buf, lines: seq<string> := "", [];
    ghost var text := "";
    for c := 0 to |chunks|
      invariant Printed(text, lines) && Lacks(buf, '\n')
      invariant text + buf == Concat(chunks[..c])
    {
      assert chunks[..c + 1][..c] == chunks[..c];
      Assoc(text, buf, chunks[c]);
      buf := buf + chunks[c];
      var idx := IndexOf(buf, '\n');
      while idx.Some?
        invariant idx == IndexOf(buf, '\n')
        invariant Printed(text, lines)
        invariant text + buf == Concat(chunks[..c + 1])
        decreases |buf|
      {
        IndexOfSpec(buf, '\n');
        var line, rest := buf[..idx.value], buf[idx.value + 1..];
        assert buf == line + "\n" + rest;
        Assoc(text, line + "\n", rest);
        LineTaken(text, lines, line);
        if IsBlank(line) {
        } else if IsDone(line) {
          ghost var later := Concat(chunks[c + 1..]);
          ConcatSplit(chunks, c + 1);
          DoneSeen(text, lines, line, rest + later);
          Assoc(text + (line + "\n"), rest, later);
          return Output(lines + [DONE_LINE], true);
        } else {
          lines := lines + [Shown(line)];
        }
        text := text + (line + "\n");
        buf := rest;
        idx := IndexOf(buf, '\n');
      }
      IndexOfSpec(buf, '\n');
    }
    assert chunks[..|chunks|] == chunks;
    NothingComplete(text, lines, buf);
    return Output(lines, false);
  }
}
