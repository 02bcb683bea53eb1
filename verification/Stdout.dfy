/** Printed text on its way out: Python's `_StdoutProxy` cuts arbitrary writes into line frames, and
    Node appends the frames to `stdout` and joins them with the returned text. */
module Stdout {
  import opened JsText

  // ---- line framing ----

  /** The complete lines of a text, each with its newline. */
  function CompleteLines(s: string): seq<string>
    decreases |s|
  {
    var k := FirstNewline(s);
    if k == |s| then [] else [s[..k + 1]] + CompleteLines(s[k + 1..])
  }

  /** What follows the last newline. */
  function Remainder(s: string): string
    decreases |s|
  {
    var k := FirstNewline(s);
    if k == |s| then s else Remainder(s[k + 1..])
  }

  lemma NewlineFound(s: string)
    requires '\n' in s
    ensures var k := FirstNewline(s); k < |s| && s[..k + 1] == s[..k] + "\n"
  {
    hide FirstNewline;
    assert s[..|s|] == s;
  }

  lemma SplitOff(s: string)
    requires '\n' in s
    ensures var k := FirstNewline(s);
      && k < |s|
      && CompleteLines(s) == [s[..k] + "\n"] + CompleteLines(s[k + 1..])
      && Remainder(s) == Remainder(s[k + 1..])
  {
    hide FirstNewline;
    NewlineFound(s);
  }

  lemma NothingToSplit(s: string)
    requires '\n' !in s
    ensures CompleteLines(s) == [] && Remainder(s) == s
  {
  }

  function Concat(texts: seq<string>): string {
    if texts == [] then "" else texts[0] + Concat(texts[1..])
  }

  /** Exactly one newline, at the end. */
  predicate IsLine(frame: string) {
    frame != "" && frame[|frame| - 1] == '\n' && '\n' !in frame[..|frame| - 1]
  }

  class StdoutProxy {
    var buffer: string
    var frames: seq<string> // texts of the stdout frames emitted so far

    constructor ()
      ensures buffer == "" && frames == []
    {
      buffer, frames := "", [];
    }

    method Write(text: string) returns (written: nat)
      modifies this
      ensures written == |text|
      ensures (frames, buffer) == WriteStep(old(frames), old(buffer), text)
    {
      if text == "" {
        WriteNothing(frames, buffer);
        return 0;
      }
      buffer := buffer + text;
      ghost var all := buffer;
      hide CompleteLines, Remainder, FirstNewline;
      while '\n' in buffer
        invariant old(frames) + CompleteLines(all) == frames + CompleteLines(buffer)
        invariant Remainder(all) == Remainder(buffer)
        decreases |buffer|
      {
        SplitOff(buffer);
        var k := FirstNewline(buffer);
        var line, rest := buffer[..k] + "\n", buffer[k + 1..];
        assert frames + ([line] + CompleteLines(rest)) == frames + [line] + CompleteLines(rest);
        frames, buffer := frames + [line], rest;
      }
      NothingToSplit(buffer);
      assert frames + CompleteLines(buffer) == frames;
      written := |text|;
    }

    method Flush()
      modifies this
      ensures (frames, buffer) == FlushStep(old(frames), old(buffer))
    {
      if buffer != "" {
        frames := frames + [buffer];
        buffer := "";
      }
    }
  }

  // ---- runs ----

  datatype Op = Write(text: string) | Flush

  function WriteStep(frames: seq<string>, buffer: string, text: string): (seq<string>, string) {
    if text == "" then (frames, buffer)
    else (frames + CompleteLines(buffer + text), Remainder(buffer + text))
  }

  function FlushStep(frames: seq<string>, buffer: string): (seq<string>, string) {
    (if buffer == "" then frames else frames + [buffer], "")
  }

  function Run(ops: seq<Op>): (seq<string>, string) {
    if ops == [] then ([], "") else
    var (frames, buffer) := Run(ops[..|ops| - 1]);
    match ops[|ops| - 1]
    case Write(text) => WriteStep(frames, buffer, text)
    case Flush => FlushStep(frames, buffer)
  }

  /** Everything written, in order. */
  function Written(ops: seq<Op>): string {
    if ops == [] then "" else
    Written(ops[..|ops| - 1]) + (if ops[|ops| - 1].Write? then ops[|ops| - 1].text else "")
  }

  lemma WriteNothing(frames: seq<string>, buffer: string)
    ensures WriteStep(frames, buffer, "") == (frames, buffer)
  {
  }

  lemma {:induction false} ConcatAppend(a: seq<string>, b: seq<string>)
    ensures Concat(a + b) == Concat(a) + Concat(b)
  {
    if a == [] {
      assert a + b == b;
    } else {
      ConcatAppend(a[1..], b);
      Associative(a[0], Concat(a[1..]), Concat(b));
      assert (a + b)[1..] == a[1..] + b;
    }
  }

  lemma {:induction false} LinesAreLines(s: string)
    ensures forall i :: 0 <= i < |CompleteLines(s)| ==> IsLine(CompleteLines(s)[i])
    ensures '\n' !in Remainder(s)
    decreases |s|
  {
    var k := FirstNewline(s);
    if k < |s| {
      LinesAreLines(s[k + 1..]);
      assert s[..k + 1][..k] == s[..k];
    } else {
      assert s[..k] == s;
    }
  }

  lemma ConcatCons(text: string, texts: seq<string>)
    ensures Concat([text] + texts) == text + Concat(texts)
  {
    assert ([text] + texts)[1..] == texts;
  }

  lemma Associative(a: string, b: string, c: string)
    ensures (a + b) + c == a + (b + c)
  {
  }

  lemma {:induction false} LinesAndRemainder(s: string)
    ensures Concat(CompleteLines(s)) + Remainder(s) == s
    decreases |s|
  {
    if '\n' in s {
      hide *;
      var k := FirstNewline(s);
      var line, rest := s[..k] + "\n", s[k + 1..];
      SplitOff(s);
      NewlineFound(s);
      LinesAndRemainder(rest);
      ConcatCons(line, CompleteLines(rest));
      Associative(line, Concat(CompleteLines(rest)), Remainder(rest));
      assert s == line + rest;
    } else {
      NothingToSplit(s);
    }
  }

  lemma WriteKeepsText(frames: seq<string>, buffer: string, text: string)
    ensures var (after, rest) := WriteStep(frames, buffer, text);
      Concat(after) + rest == Concat(frames) + (buffer + text)
  {
    hide CompleteLines, Remainder, Concat;
    if text == "" {
      assert buffer + text == buffer;
    } else {
      LinesAndRemainder(buffer + text);
      ConcatAppend(frames, CompleteLines(buffer + text));
      Associative(Concat(frames), Concat(CompleteLines(buffer + text)), Remainder(buffer + text));
    }
  }

  lemma FlushKeepsText(frames: seq<string>, buffer: string)
    ensures var (after, rest) := FlushStep(frames, buffer);
      Concat(after) + rest == Concat(frames) + buffer
  {
    ConcatAppend(frames, [buffer]);
    assert Concat([buffer]) == buffer;
  }

  /** Nothing is lost, duplicated or reordered: the frames followed by the buffer are the text
      written. */
  lemma {:induction false} FramesAreTheText(ops: seq<Op>)
    ensures Concat(Run(ops).0) + Run(ops).1 == Written(ops)
  {
    if ops != [] {
      hide WriteStep, FlushStep, Concat;
      FramesAreTheText(ops[..|ops| - 1]);
      var (frames, buffer) := Run(ops[..|ops| - 1]);
      match ops[|ops| - 1]
      case Write(text) =>
        WriteKeepsText(frames, buffer, text);
        Associative(Concat(frames), buffer, text);
      case Flush =>
        FlushKeepsText(frames, buffer);
        assert Written(ops) == Written(ops[..|ops| - 1]);
    }
  }

  /** Frames are whole lines, or newline-free tails pushed out by a flush; the buffer never holds a
      newline. */
  lemma {:induction false} FramesAreLinesOrTails(ops: seq<Op>)
    ensures '\n' !in Run(ops).1
    ensures forall i :: 0 <= i < |Run(ops).0| ==>
      IsLine(Run(ops).0[i]) || (Run(ops).0[i] != "" && '\n' !in Run(ops).0[i])
  {
    if ops != [] {
      FramesAreLinesOrTails(ops[..|ops| - 1]);
      var (frames, buffer) := Run(ops[..|ops| - 1]);
      if ops[|ops| - 1].Write? {
        LinesAreLines(buffer + ops[|ops| - 1].text);
      }
    }
  }

  /** A write emits whole lines only. */
  lemma WriteEmitsLines(frames: seq<string>, buffer: string, text: string)
    ensures var (after, _) := WriteStep(frames, buffer, text);
      && |frames| <= |after| && after[..|frames|] == frames
      && forall i :: |frames| <= i < |after| ==> IsLine(after[i])
  {
    LinesAreLines(buffer + text);
  }

  // ---- Node's side ----

  /** `appendStdout` over the frames received. */
  function AppendAll(stdout: string, frames: seq<string>): string
    decreases |frames|
  {
    if frames == [] then stdout
    else AppendAll(if frames[0] == "" then stdout else stdout + frames[0], frames[1..])
  }

  lemma {:induction false} AppendAllIsConcat(stdout: string, frames: seq<string>)
    ensures AppendAll(stdout, frames) == stdout + Concat(frames)
    decreases |frames|
  {
    if frames != [] {
      AppendAllIsConcat(if frames[0] == "" then stdout else stdout + frames[0], frames[1..]);
    }
  }

  /** The output of a `complete` frame, given the standard output received before it. */
  function FinalOutput(stdout: string, returned: string): string {
    if stdout != "" then Trim(stdout + returned) else returned
  }

  /** After the flush that ends a run, Node reports the printed text and the returned text joined
      and trimmed, or the returned text untouched when nothing was printed. */
  lemma OutputIsPrintedThenReturned(ops: seq<Op>, returned: string)
    ensures Run(ops + [Flush]).1 == ""
    ensures AppendAll("", Run(ops + [Flush]).0) == Written(ops)
    ensures FinalOutput(AppendAll("", Run(ops + [Flush]).0), returned)
         == if Written(ops) == "" then returned else Trim(Written(ops) + returned)
  {
    FramesAreTheText(ops + [Flush]);
    assert (ops + [Flush])[..|ops|] == ops;
    assert Written(ops + [Flush]) == Written(ops);
    AppendAllIsConcat("", Run(ops + [Flush]).0);
  }
}
