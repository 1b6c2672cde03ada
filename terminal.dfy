/**
 * The interpreter's line editor: an input history of the lines entered so
 * far, and `Terminal::handleInput`, which applies one input byte to the
 * buffer being edited, the cursor, the escape-sequence counter and the
 * history.
 *
 * The delegate's two callbacks are not called here: the line that `Enter`
 * hands to `onInput` is returned as `submitted`, and the outcome of
 * `complete` is a parameter (`None` when it returns false, `Some(b)` when it
 * returns true having left `b` in the buffer).
 */
module Terminal {
  import opened Wrappers

  // ---- the input history ----

  /** The lines of an `InputHistory` (the last one is the line being edited) and the recall index. */
  datatype History = History(lines: seq<string>, index: nat)

  /** What every operation of the history keeps: some line, and an index into the lines. */
  predicate HistoryOk(h: History) {
    |h.lines| > 0 && h.index < |h.lines|
  }

  /** A new history: the one empty line, recalled from index 0. */
  function EmptyHistory(): (h: History)
    ensures HistoryOk(h) && h.lines == [""] && h.index == 0
  {
    History([""], 0)
  }

  /** `setCurrent(line)`: the last line becomes `line`. */
  function SetCurrentOf(h: History, line: string): (r: History)
    requires HistoryOk(h)
    ensures HistoryOk(r) && |r.lines| == |h.lines| && r.index == h.index
    ensures r.lines[|r.lines| - 1] == line
    ensures forall i :: 0 <= i < |h.lines| - 1 ==> r.lines[i] == h.lines[i]
  {
    History(h.lines[..|h.lines| - 1] + [line], h.index)
  }

  /** `push(line)`: the last line becomes `line`, an empty line follows, and recall starts from it. */
  function PushOf(h: History, line: string): (r: History)
    requires HistoryOk(h)
    ensures HistoryOk(r) && |r.lines| == |h.lines| + 1 && r.index == |r.lines| - 1
    ensures r.lines[|h.lines| - 1] == line && r.lines[|h.lines|] == ""
    ensures forall i :: 0 <= i < |h.lines| - 1 ==> r.lines[i] == h.lines[i]
  {
    History(h.lines[..|h.lines| - 1] + [line, ""], |h.lines|)
  }

  /** `getLast()`: recall one line further back, staying at the first. */
  function LastOf(h: History): (r: History)
    requires HistoryOk(h)
    ensures HistoryOk(r) && r.lines == h.lines
    ensures r.index == if h.index > 0 then h.index - 1 else 0
  {
    if h.index > 0 then History(h.lines, h.index - 1) else h
  }

  /** `getPrev()`: recall one line further forward, staying at the last. */
  function PrevOf(h: History): (r: History)
    requires HistoryOk(h)
    ensures HistoryOk(r) && r.lines == h.lines
    ensures r.index == if h.index < |h.lines| - 1 then h.index + 1 else h.index
  {
    if h.index < |h.lines| - 1 then History(h.lines, h.index + 1) else h
  }

  /** The line the recall index points at, which `getLast` and `getPrev` return. */
  function Recalled(h: History): string
    requires HistoryOk(h)
  {
    h.lines[h.index]
  }

  /** Going back and then forward again returns to the same line, unless recall was already at the first line. */
  lemma LastThenPrev(h: History)
    requires HistoryOk(h) && h.index > 0
    ensures PrevOf(LastOf(h)) == h
  {
  }

  /** Right after a push, going back recalls the line just pushed. */
  lemma PushThenLast(h: History, line: string)
    requires HistoryOk(h)
    ensures Recalled(LastOf(PushOf(h, line))) == line
  {
  }

  /** `InputHistory`: the lines entered so far and the recall index. */
  class InputHistory {
    var lines: seq<string>
    var index: nat

    ghost function Snapshot(): History
      reads this
    {
      History(lines, index)
    }

    ghost predicate Valid()
      reads this
    {
      HistoryOk(Snapshot())
    }

    constructor()
      ensures Snapshot() == EmptyHistory() && Valid()
    {
      lines := [""];
      index := 0;
    }

    method SetCurrent(line: string)
      requires Valid()
      modifies this
      ensures Snapshot() == SetCurrentOf(old(Snapshot()), line) && Valid()
    {
      lines := lines[..|lines| - 1] + [line];
    }

    method Push(line: string)
      requires Valid()
      modifies this
      ensures Snapshot() == PushOf(old(Snapshot()), line) && Valid()
    {
      lines := lines[..|lines| - 1] + [line];
      index := |lines|;
      lines := lines + [""];
    }

    method GetLast() returns (r: string)
      requires Valid()
      modifies this
      ensures Snapshot() == LastOf(old(Snapshot())) && Valid()
      ensures r == Recalled(Snapshot())
    {
      if index > 0 {
        index := index - 1;
      }
      r := lines[index];
    }

    method GetPrev() returns (r: string)
      requires Valid()
      modifies this
      ensures Snapshot() == PrevOf(old(Snapshot())) && Valid()
      ensures r == Recalled(Snapshot())
    {
      if index < |lines| - 1 {
        index := index + 1;
      }
      r := lines[index];
    }
  }

  // ---- the line editor ----

  /** The byte values `handleInput` reacts to (the `Codes` enum). */
  const LeftArrow: int := 68
  const RightArrow: int := 67
  const UpArrow: int := 65
  const DownArrow: int := 66
  const Enter: int := 10
  const Escape: int := 27
  const Backspace: int := 127
  const Tab: int := 9

  /** A byte that is inserted as text: the printable ASCII range. */
  predicate Printable(input: int) {
    32 <= input < 127
  }

  /** The editor's state: the buffer, the cursor within it, the escape counter and the history. */
  datatype Editor = Editor(buffer: string, position: int, escape: int, history: History)

  /** What every step keeps: the cursor within the buffer, the counter at 0, 1 or 2, and a valid history. */
  predicate EditorOk(e: Editor) {
    0 <= e.position <= |e.buffer| && 0 <= e.escape <= 2 && HistoryOk(e.history)
  }

  /** The state a `Terminal` starts in. */
  function InitialEditor(): (e: Editor)
    ensures EditorOk(e) && e.buffer == [] && e.position == 0 && e.escape == 0
  {
    Editor([], 0, 0, EmptyHistory())
  }

  /** The new state after one byte, and the line handed to `onInput`, if any. */
  datatype Stepped = Stepped(editor: Editor, submitted: Option<string>)

  /**
   * `handleInput(input)`. An escape byte arms the counter at 2; with the
   * counter at 2 a byte is dropped, and with it at 1 the byte is the final
   * byte of an arrow-key sequence. With the counter at 0 a printable byte is
   * inserted, Backspace deletes, Enter submits and Tab completes.
   */
  function Step(e: Editor, input: int, completion: Option<string>): (r: Stepped)
    requires EditorOk(e)
    ensures EditorOk(r.editor)
    ensures r.submitted.Some? <==> (input != Escape && e.escape == 0 && input == Enter)
    ensures r.submitted.Some? ==> r.submitted.value == e.buffer && r.editor.buffer == [] && r.editor.position == 0
    ensures r.editor.escape == if input == Escape then 2 else if e.escape > 0 then e.escape - 1 else 0
  {
    if input == Escape then Stepped(e.(escape := 2), None)
    else if e.escape == 0 then
      if Printable(input) then
        var b := e.buffer[..e.position] + [input as char] + e.buffer[e.position..];
        Stepped(Editor(b, e.position + 1, 0, SetCurrentOf(e.history, b)), None)
      else if input == Backspace && e.position > 0 then
        Stepped(e.(buffer := e.buffer[..e.position - 1] + e.buffer[e.position..], position := e.position - 1), None)
      else if input == Enter then
        Stepped(Editor([], 0, 0, PushOf(e.history, e.buffer)), Some(e.buffer))
      else if input == Tab && completion.Some? then
        var b := completion.value;
        Stepped(Editor(b, |b|, 0, SetCurrentOf(e.history, b)), None)
      else Stepped(e, None)
    else if e.escape == 2 then Stepped(e.(escape := 1), None)
    else
      var e0 := e.(escape := 0);
      if input == LeftArrow then
        Stepped(e0.(position := if e.position > 0 then e.position - 1 else 0), None)
      else if input == RightArrow then
        Stepped(e0.(position := if e.position < |e.buffer| then e.position + 1 else e.position), None)
      else if input == UpArrow then
        var h := LastOf(e.history);
        Stepped(e0.(buffer := Recalled(h), position := |Recalled(h)|, history := h), None)
      else if input == DownArrow then
        var h := PrevOf(e.history);
        Stepped(e0.(buffer := Recalled(h), position := |Recalled(h)|, history := h), None)
      else Stepped(e0, None)
  }

  /** One byte after another, with `complete` returning false throughout. */
  function Run(e: Editor, inputs: seq<int>): (r: Editor)
    requires EditorOk(e)
    ensures EditorOk(r)
    decreases |inputs|
  {
    if |inputs| == 0 then e
    else Run(Step(e, inputs[0], None).editor, inputs[1..])
  }

  // ---- what one byte does ----

  /** A printable byte is inserted at the cursor, the cursor moves past it, and the history's current line follows the buffer. */
  lemma PrintableInserts(e: Editor, input: int, completion: Option<string>)
    requires EditorOk(e) && e.escape == 0 && Printable(input)
    ensures var r := Step(e, input, completion).editor;
      |r.buffer| == |e.buffer| + 1 && r.position == e.position + 1 &&
      r.buffer[e.position] == input as char &&
      r.buffer[..e.position] == e.buffer[..e.position] && r.buffer[e.position + 1..] == e.buffer[e.position..] &&
      r.history == SetCurrentOf(e.history, r.buffer)
  {
    var r := Step(e, input, completion).editor;
    assert r.buffer[..e.position] == e.buffer[..e.position];
    assert r.buffer[e.position + 1..] == e.buffer[e.position..];
  }

  /**
   * Backspace deletes the byte before the cursor, and does nothing at the
   * start of the buffer; unlike insertion it leaves the history's current
   * line as it was.
   */
  lemma BackspaceDeletes(e: Editor, completion: Option<string>)
    requires EditorOk(e) && e.escape == 0
    ensures var r := Step(e, Backspace, completion).editor;
      r.history == e.history &&
      (e.position == 0 ==> r == e) &&
      (e.position > 0 ==>
        r.position == e.position - 1 && |r.buffer| == |e.buffer| - 1 &&
        r.buffer == e.buffer[..e.position - 1] + e.buffer[e.position..])
  {
  }

  /** Backspace undoes the insertion of a printable byte, in the buffer and at the cursor. */
  lemma BackspaceUndoesInsert(e: Editor, input: int, completion: Option<string>)
    requires EditorOk(e) && e.escape == 0 && Printable(input)
    ensures var r := Step(Step(e, input, completion).editor, Backspace, completion).editor;
      r.buffer == e.buffer && r.position == e.position
  {
    var m := Step(e, input, completion).editor;
    PrintableInserts(e, input, completion);
    var r := Step(m, Backspace, completion).editor;
    assert r.buffer == m.buffer[..e.position] + m.buffer[e.position + 1..];
    assert e.buffer == e.buffer[..e.position] + e.buffer[e.position..];
  }

  /** Enter hands the buffer on, pushes it to the history and starts an empty line. */
  lemma EnterSubmits(e: Editor, completion: Option<string>)
    requires EditorOk(e) && e.escape == 0
    ensures Step(e, Enter, completion) == Stepped(Editor([], 0, 0, PushOf(e.history, e.buffer)), Some(e.buffer))
  {
  }

  /** Tab, when `complete` returns true, keeps the completed buffer, mirrors it to the history and puts the cursor at the end; otherwise nothing changes. */
  lemma TabCompletes(e: Editor, completion: Option<string>)
    requires EditorOk(e) && e.escape == 0
    ensures var r := Step(e, Tab, completion).editor;
      (completion.None? ==> r == e) &&
      (completion.Some? ==>
        r.buffer == completion.value && r.position == |r.buffer| && r.history == SetCurrentOf(e.history, r.buffer))
  {
  }

  /** The escape byte only arms the counter, whatever the state. */
  lemma EscapeArms(e: Editor, completion: Option<string>)
    requires EditorOk(e)
    ensures Step(e, Escape, completion) == Stepped(e.(escape := 2), None)
  {
  }

  /** The byte after an escape is dropped, whatever it is (other than another escape). */
  lemma SecondByteDropped(e: Editor, input: int, completion: Option<string>)
    requires EditorOk(e) && e.escape == 2 && input != Escape
    ensures Step(e, input, completion) == Stepped(e.(escape := 1), None)
  {
  }

  /** A final byte that names no arrow is ignored: nothing but the counter changes. */
  lemma UnknownFinalByteIgnored(e: Editor, input: int, completion: Option<string>)
    requires EditorOk(e) && e.escape == 1
    requires input !in {Escape, LeftArrow, RightArrow, UpArrow, DownArrow}
    ensures Step(e, input, completion) == Stepped(e.(escape := 0), None)
  {
  }

  /** With no escape pending, a byte that is not printable and none of ESC, Backspace, Enter or Tab changes nothing. */
  lemma OtherByteIgnored(e: Editor, input: int, completion: Option<string>)
    requires EditorOk(e) && e.escape == 0 && !Printable(input)
    requires input !in {Escape, Backspace, Enter, Tab}
    ensures Step(e, input, completion) == Stepped(e, None)
  {
  }

  // ---- arrow keys: escape, any byte, final byte ----

  /** `ESC x D` moves the cursor one place left, stopping at the start, and changes nothing else. */
  lemma LeftArrowSequence(e: Editor, x: int)
    requires EditorOk(e) && e.escape == 0 && x != Escape
    ensures Run(e, [Escape, x, LeftArrow]) == e.(position := if e.position > 0 then e.position - 1 else 0)
  {
    RunThree(e, Escape, x, LeftArrow);
  }

  /** `ESC x C` moves the cursor one place right, stopping at the end, and changes nothing else. */
  lemma RightArrowSequence(e: Editor, x: int)
    requires EditorOk(e) && e.escape == 0 && x != Escape
    ensures Run(e, [Escape, x, RightArrow]) == e.(position := if e.position < |e.buffer| then e.position + 1 else e.position)
  {
    RunThree(e, Escape, x, RightArrow);
  }

  /** `ESC x A` replaces the buffer by the line one further back in the history, with the cursor at its end. */
  lemma UpArrowSequence(e: Editor, x: int)
    requires EditorOk(e) && e.escape == 0 && x != Escape
    ensures var h := LastOf(e.history);
      Run(e, [Escape, x, UpArrow]) == Editor(Recalled(h), |Recalled(h)|, 0, h)
  {
    RunThree(e, Escape, x, UpArrow);
  }

  /** `ESC x B` replaces the buffer by the line one further forward in the history, with the cursor at its end. */
  lemma DownArrowSequence(e: Editor, x: int)
    requires EditorOk(e) && e.escape == 0 && x != Escape
    ensures var h := PrevOf(e.history);
      Run(e, [Escape, x, DownArrow]) == Editor(Recalled(h), |Recalled(h)|, 0, h)
  {
    RunThree(e, Escape, x, DownArrow);
  }

  /** Three bytes run one after the other. */
  lemma RunThree(e: Editor, a: int, b: int, c: int)
    requires EditorOk(e)
    ensures Run(e, [a, b, c]) == Step(Step(Step(e, a, None).editor, b, None).editor, c, None).editor
  {
    var e1 := Step(e, a, None).editor;
    var e2 := Step(e1, b, None).editor;
    assert [a, b, c][1..] == [b, c];
    assert [b, c][1..] == [c];
    assert Run(e2, [c]) == Run(Step(e2, c, None).editor, []);
  }

  /** Right after Enter, the up arrow brings the submitted line back, with the cursor at its end. */
  lemma UpRecallsSubmittedLine(e: Editor, x: int)
    requires EditorOk(e) && e.escape == 0 && x != Escape
    ensures var r := Run(Step(e, Enter, None).editor, [Escape, x, UpArrow]);
      r.buffer == e.buffer && r.position == |e.buffer|
  {
    var m := Step(e, Enter, None).editor;
    UpArrowSequence(m, x);
    PushThenLast(e.history, e.buffer);
  }

  /**
   * Backspace does not mirror the buffer to the history: after typing
   * `a`, `b` and deleting the `b`, going back and forward again restores
   * `ab`, not `a`.
   */
  lemma HistoryKeepsDeletedByte()
    ensures var e := Run(InitialEditor(), ['a' as int, 'b' as int, Backspace]);
      e.buffer == "a" && Run(e, [Escape, 0, UpArrow, Escape, 0, DownArrow]).buffer == "ab"
  {
    TypeTwoDeleteOne();
    RecallAfterDelete(Editor("a", 1, 0, History(["ab"], 0)));
  }

  /** Typing `a`, `b` and deleting the `b` leaves `a` in the buffer and `ab` as the current history line. */
  lemma TypeTwoDeleteOne()
    ensures Run(InitialEditor(), ['a' as int, 'b' as int, Backspace]) == Editor("a", 1, 0, History(["ab"], 0))
  {
    var e0 := InitialEditor();
    var e1 := Step(e0, 'a' as int, None).editor;
    assert e1.buffer == "a";
    var e2 := Step(e1, 'b' as int, None).editor;
    assert e2.buffer == "ab" && e2.history == History(["ab"], 0);
    var e3 := Step(e2, Backspace, None).editor;
    assert e3 == Editor("a", 1, 0, History(["ab"], 0));
    RunThree(e0, 'a' as int, 'b' as int, Backspace);
  }

  /** With `ab` as the current history line, up and then down recalls `ab`. */
  lemma RecallAfterDelete(e3: Editor)
    requires e3 == Editor("a", 1, 0, History(["ab"], 0))
    ensures EditorOk(e3) && Run(e3, [Escape, 0, UpArrow, Escape, 0, DownArrow]).buffer == "ab"
  {
    UpArrowSequence(e3, 0);
    var e4 := Run(e3, [Escape, 0, UpArrow]);
    assert e4.history == History(["ab"], 0) && e4.buffer == "ab";
    DownArrowSequence(e4, 0);
    RunConcat(e3, [Escape, 0, UpArrow], [Escape, 0, DownArrow]);
    assert [Escape, 0, UpArrow] + [Escape, 0, DownArrow] == [Escape, 0, UpArrow, Escape, 0, DownArrow];
  }

  /** Running two sequences of bytes is running the first and then the second. */
  lemma {:induction false} RunConcat(e: Editor, xs: seq<int>, ys: seq<int>)
    requires EditorOk(e)
    ensures Run(e, xs + ys) == Run(Run(e, xs), ys)
    decreases |xs|
  {
    if |xs| == 0 {
      assert xs + ys == ys;
    } else {
      assert (xs + ys)[1..] == xs[1..] + ys;
      RunConcat(Step(e, xs[0], None).editor, xs[1..], ys);
    }
  }

  /** `Terminal`: the editor's state, with the history as an object of its own that the terminal updates. */
  class Terminal {
    var inputBuffer: string
    var position: int
    var escape: int
    const history: InputHistory

    ghost function Snapshot(): Editor
      reads this, history
    {
      Editor(inputBuffer, position, escape, history.Snapshot())
    }

    ghost predicate Valid()
      reads this, history
    {
      EditorOk(Snapshot())
    }

    constructor()
      ensures Snapshot() == InitialEditor() && Valid() && fresh(history)
    {
      inputBuffer := [];
      position := 0;
      escape := 0;
      history := new InputHistory();
    }

    /** `handleInput(input)`, returning the line handed to `onInput`, if any. */
    method HandleInput(input: int, completion: Option<string>) returns (submitted: Option<string>)
      requires Valid()
      modifies this, history
      ensures Valid()
      ensures Snapshot() == Step(old(Snapshot()), input, completion).editor
      ensures submitted == Step(old(Snapshot()), input, completion).submitted
    {
      submitted := None;
      if input == Escape {
        escape := 2;
        return;
      }
      if escape == 0 {
        submitted := HandlePlain(input, completion);
        return;
      }
      if escape == 2 {
        escape := 1;
        return;
      }
      HandleArrow(input);
    }

    /** The branch of `handleInput` outside an escape sequence: insert, delete, submit or complete. */
    method HandlePlain(input: int, completion: Option<string>) returns (submitted: Option<string>)
      requires Valid() && escape == 0 && input != Escape
      modifies this, history
      ensures Valid()
      ensures Snapshot() == Step(old(Snapshot()), input, completion).editor
      ensures submitted == Step(old(Snapshot()), input, completion).submitted
    {
      submitted := None;
      if Printable(input) {
        inputBuffer := inputBuffer[..position] + [input as char] + inputBuffer[position..];
        position := position + 1;
        history.SetCurrent(inputBuffer);
      }
      if input == Backspace && position > 0 {
        position := position - 1;
        inputBuffer := inputBuffer[..position] + inputBuffer[position + 1..];
      }
      if input == Enter {
        history.Push(inputBuffer);
        submitted := Some(inputBuffer);
        inputBuffer := [];
        position := 0;
      }
      if input == Tab && completion.Some? {
        inputBuffer := completion.value;
        history.SetCurrent(inputBuffer);
        position := |inputBuffer|;
      }
    }

    /** The last byte of an arrow-key sequence: move the cursor or recall a history line. */
    method HandleArrow(input: int)
      requires Valid() && escape == 1 && input != Escape
      modifies this, history
      ensures Valid()
      ensures Snapshot() == Step(old(Snapshot()), input, None).editor
    {
      escape := 0;
      if input == LeftArrow {
        if position > 0 {
          position := position - 1;
        }
      } else if input == RightArrow {
        if position < |inputBuffer| {
          position := position + 1;
        }
      } else if input == UpArrow {
        inputBuffer := history.GetLast();
        position := |inputBuffer|;
      } else if input == DownArrow {
        inputBuffer := history.GetPrev();
        position := |inputBuffer|;
      }
    }
  }
}
