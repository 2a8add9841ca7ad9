/** `ProgressPrinter` (Managers/ProgressPrinter.swift): a one-line progress
    display that is redrawn in place.

    The text to show arrives already formatted (`String(format:)` is not part
    of this model). What the printer writes is kept as a trace of terminal
    operations, and `Line` gives the meaning of such a trace: the characters
    of the current terminal line and the cursor position. */
module Progress {

  /** A write to the terminal: `moveToHead` prints a carriage return,
      `printText` prints its text without a newline. */
  datatype TermOp = MoveToHead | PrintText(text: string)

  /** `getTerminalWidth()`, a constant 100 in the source. */
  const TerminalWidth: nat := 100

  function Spaces(n: nat): (s: string)
    ensures |s| == n && forall i :: 0 <= i < n ==> s[i] == ' '
  {
    seq(n, i => ' ')
  }

  /** `eraseLine()`: to the line head, then as many spaces as the terminal
      is wide. */
  function EraseLine(): seq<TermOp> {
    [MoveToHead, PrintText(Spaces(TerminalWidth))]
  }

  // ---------------------------------------------------------------------------
  // Truncation to the terminal width

  /** `formatProgress` as written: a text longer than the width is cut with
      the inclusive range `...index`, whose index is `width` characters past
      the start, so one character more than the width is kept. */
  function FormatProgressAsWritten(text: string): (r: string)
    ensures |text| <= TerminalWidth ==> r == text
    ensures |text| > TerminalWidth ==> |r| == TerminalWidth + 1 && r == text[..|r|]
  {
    if |text| > TerminalWidth then text[..TerminalWidth + 1] else text
  }

  /** `formatProgress` as intended: the longest prefix of the text that fits
      the terminal width. */
  function FormatProgress(text: string): (r: string)
    ensures |r| <= TerminalWidth && |r| <= |text| && r == text[..|r|]
    ensures |text| <= TerminalWidth ==> r == text
    ensures |text| > TerminalWidth ==> |r| == TerminalWidth
  {
    if |text| > TerminalWidth then text[..TerminalWidth] else text
  }

  // ---------------------------------------------------------------------------
  // What a trace of writes shows

  /** The terminal line: its characters and the cursor column. */
  datatype Line = Line(chars: string, cursor: nat)

  const EmptyLine := Line("", 0)

  /** One write: a carriage return moves the cursor to column 0; text
      overwrites the line from the cursor on and leaves the cursor after it. */
  function Apply(t: Line, op: TermOp): (r: Line)
    requires t.cursor <= |t.chars|
    ensures r.cursor <= |r.chars|
  {
    match op
    case MoveToHead => Line(t.chars, 0)
    case PrintText(s) =>
      var rest := if t.cursor + |s| < |t.chars| then t.chars[t.cursor + |s|..] else "";
      Line(t.chars[..t.cursor] + s + rest, t.cursor + |s|)
  }

  function ApplyAll(t: Line, ops: seq<TermOp>): (r: Line)
    requires t.cursor <= |t.chars|
    ensures r.cursor <= |r.chars|
  {
    if ops == [] then t else Apply(ApplyAll(t, ops[..|ops| - 1]), ops[|ops| - 1])
  }

  /** The line shows a progress text of `length` characters: nothing past
      it but blanks, nothing wider than the terminal, the cursor right after
      the text. */
  predicate Shows(t: Line, length: nat) {
    |t.chars| <= TerminalWidth && t.cursor == length && length <= |t.chars| &&
    forall i :: length <= i < |t.chars| ==> t.chars[i] == ' '
  }

  /** The line is blank and the cursor at its head. */
  predicate Blank(t: Line) {
    t.cursor == 0 && forall i :: 0 <= i < |t.chars| ==> t.chars[i] == ' '
  }

  /** The writes of a started `update`: the erase only when the new text is
      shorter than the last one, then to the head and the new text. */
  function RedrawOps(lastLength: nat, text: string): seq<TermOp> {
    (if |text| < lastLength then EraseLine() else []) + [MoveToHead, PrintText(text)]
  }

  /** The writes of `end()` on a started printer. */
  function EndOps(): seq<TermOp> {
    EraseLine() + [MoveToHead]
  }

  // ---------------------------------------------------------------------------
  // The printer

  class ProgressPrinter {
    var started: bool
    var ended: bool
    var lastProgressLength: nat
    /** Everything written to the terminal so far. */
    var output: seq<TermOp>

    /** A printer that has not started has written nothing, and the recorded
        length is that of a text that fits the terminal. */
    predicate Valid()
      reads this
    {
      lastProgressLength <= TerminalWidth && (!started ==> lastProgressLength == 0 && output == [])
    }

    /** The terminal line after everything written so far. */
    function Screen(): Line
      reads this
    {
      ApplyAll(EmptyLine, output)
    }

    constructor ()
      ensures Valid() && !started && !ended && output == []
    {
      started := false;
      ended := false;
      lastProgressLength := 0;
      output := [];
    }

    /** `start`: prints the text, truncated, and records its length. */
    method Start(text: string)
      requires Valid()
      modifies this
      ensures Valid()
      ensures started && ended == old(ended)
      ensures lastProgressLength == |FormatProgress(text)|
      ensures output == old(output) + [PrintText(FormatProgress(text))]
    {
      started := true;
      var progressText := FormatProgress(text);
      output := output + [PrintText(progressText)];
      lastProgressLength := |progressText|;
    }

    /** `update`: nothing once ended; the first update starts the printer;
        later ones redraw the line, erasing it first only when the new text
        is shorter than the last one. While the line showed the last text,
        it shows exactly the new one afterwards. */
    method Update(text: string)
      requires Valid()
      modifies this
      ensures Valid()
      ensures old(ended) ==> unchanged(this)
      ensures !old(ended) && !old(started) ==>
        started && !ended && lastProgressLength == |FormatProgress(text)| &&
        output == [PrintText(FormatProgress(text))]
      ensures !old(ended) && old(started) ==>
        started && !ended && lastProgressLength == |FormatProgress(text)| &&
        output == old(output) + RedrawOps(old(lastProgressLength), FormatProgress(text))
      ensures !old(ended) && old(Shows(Screen(), lastProgressLength)) ==>
        Shows(Screen(), lastProgressLength) && Screen().chars[..lastProgressLength] == FormatProgress(text)
    {
      if ended {
        return;
      }
      ghost var before := output;
      if started {
        var progressText := FormatProgress(text);
        if |progressText| < lastProgressLength {
          output := output + EraseLine();
        }
        output := output + [MoveToHead];
        output := output + [PrintText(progressText)];
        assert output == before + RedrawOps(old(lastProgressLength), progressText);
        ApplyAllAppend(EmptyLine, before, RedrawOps(old(lastProgressLength), progressText));
        if Shows(ApplyAll(EmptyLine, before), old(lastProgressLength)) {
          RedrawShows(ApplyAll(EmptyLine, before), old(lastProgressLength), progressText);
        }
        lastProgressLength := |progressText|;
      } else {
        Start(text);
        StartShows(FormatProgress(text));
      }
    }

    /** `end`: marks the printer ended and, if it started, erases the line
        and returns to its head, which leaves the line blank. */
    method End()
      requires Valid()
      modifies this
      ensures Valid()
      ensures ended && started == old(started) && lastProgressLength == old(lastProgressLength)
      ensures output == old(output) + (if old(started) then EndOps() else [])
      ensures old(Shows(Screen(), lastProgressLength)) ==> Blank(Screen())
    {
      ended := true;
      if started {
        ghost var before := output;
        output := output + EraseLine();
        output := output + [MoveToHead];
        assert output == before + EndOps();
        ApplyAllAppend(EmptyLine, before, EndOps());
        if Shows(ApplyAll(EmptyLine, before), lastProgressLength) {
          EndBlanks(ApplyAll(EmptyLine, before), lastProgressLength);
        }
      }
    }
  }

  // ---------------------------------------------------------------------------
  // Redrawing keeps the line clean

  lemma {:induction false} ApplyAllAppend(t: Line, a: seq<TermOp>, b: seq<TermOp>)
    requires t.cursor <= |t.chars|
    ensures ApplyAll(t, a + b) == ApplyAll(ApplyAll(t, a), b)
    decreases |b|
  {
    if b != [] {
      assert (a + b)[..|a + b| - 1] == a + b[..|b| - 1];
      ApplyAllAppend(t, a, b[..|b| - 1]);
    } else {
      assert a + b == a;
    }
  }

  /** Erasing a line no wider than the terminal blanks all of it. */
  lemma EraseBlanks(t: Line)
    requires t.cursor <= |t.chars| <= TerminalWidth
    ensures ApplyAll(t, EraseLine()) == Line(Spaces(TerminalWidth), TerminalWidth)
  {
    var ops := EraseLine();
    assert ops[..1] == [MoveToHead];
    assert ops[..1][..0] == [];
    assert ApplyAll(t, ops[..1]) == Line(t.chars, 0);
  }

  /** Text printed at the head of a line overwrites the line's beginning. */
  lemma PrintAtHead(chars: string, text: string)
    ensures Apply(Line(chars, 0), PrintText(text)) ==
      Line(text + (if |text| < |chars| then chars[|text|..] else ""), |text|)
  {
    assert chars[..0] == "";
  }

  /** A fresh printer's first text is shown alone. */
  lemma StartShows(text: string)
    requires |text| <= TerminalWidth
    ensures Shows(ApplyAll(EmptyLine, [PrintText(text)]), |text|)
    ensures ApplyAll(EmptyLine, [PrintText(text)]).chars == text
  {
    assert [PrintText(text)][..0] == [];
    PrintAtHead("", text);
  }

  /** A redraw of a line that showed a text leaves it showing exactly the new
      text: when the new text is shorter, the erase clears what the old one
      left behind. */
  lemma RedrawShows(t: Line, lastLength: nat, text: string)
    requires Shows(t, lastLength) && |text| <= TerminalWidth
    ensures Shows(ApplyAll(t, RedrawOps(lastLength, text)), |text|)
    ensures ApplyAll(t, RedrawOps(lastLength, text)).chars[..|text|] == text
  {
    var erase := if |text| < lastLength then EraseLine() else [];
    ApplyAllAppend(t, erase, [MoveToHead, PrintText(text)]);
    var u := ApplyAll(t, erase);
    if |text| < lastLength {
      EraseBlanks(t);
    }
    assert forall i :: |text| <= i < |u.chars| ==> u.chars[i] == ' ';
    ApplyAllAppend(u, [MoveToHead], [PrintText(text)]);
    assert [MoveToHead][..0] == [] && [PrintText(text)][..0] == [];
    PrintAtHead(u.chars, text);
  }

  /** Ending a printer whose line shows a text leaves the line blank. */
  lemma EndBlanks(t: Line, lastLength: nat)
    requires Shows(t, lastLength)
    ensures Blank(ApplyAll(t, EndOps()))
  {
    ApplyAllAppend(t, EraseLine(), [MoveToHead]);
    EraseBlanks(t);
    assert [MoveToHead][..0] == [];
  }

  /** With the truncation as written, a text longer than the terminal is
      shown with one character too many, and ending the printer leaves that
      character on the line: the erase covers only the terminal width. */
  lemma AsWrittenEndLeavesCharacter(text: string)
    requires |text| > TerminalWidth
    ensures var t := ApplyAll(EmptyLine, [PrintText(FormatProgressAsWritten(text))] + EndOps());
      |t.chars| > TerminalWidth && t.chars[TerminalWidth] == text[TerminalWidth]
  {
    var q := FormatProgressAsWritten(text);
    ApplyAllAppend(EmptyLine, [PrintText(q)], EndOps());
    assert [PrintText(q)][..0] == [];
    PrintAtHead("", q);
    var t := ApplyAll(EmptyLine, [PrintText(q)]);
    assert t.chars == q;
    ApplyAllAppend(t, EraseLine(), [MoveToHead]);
    var ops := EraseLine();
    assert ops[..1] == [MoveToHead] && ops[..1][..0] == [];
    assert ApplyAll(t, ops[..1]) == Line(q, 0);
    PrintAtHead(q, Spaces(TerminalWidth));
    assert [MoveToHead][..0] == [];
  }
}
