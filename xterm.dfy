/** The line editor of `XtermComponent` (components/xterm-component.tsx):
    the writes it makes to the xterm.js terminal, its command buffer and the
    commands it hands to `onCommand`, plus a small model of how those writes
    appear on the terminal's screen. */
module Xterm {
  import opened JsString

  /** A call on the terminal: `term.write(data)` or `term.writeln(data)`. */
  datatype TermOp = Write(data: string) | WriteLn(data: string)

  /** The parts of xterm.js's `onKey` event the handler reads. */
  datatype KeyEvent = KeyEvent(key: string, keyCode: int, altKey: bool, ctrlKey: bool, metaKey: bool)

  const EnterKeyCode := 13
  const BackspaceKeyCode := 8
  const Prompt := "> "
  const Backspace: char := 8 as char
  /** Backspace, space, backspace: step back over the last glyph and blank it. */
  const Erase: string := [Backspace, ' ', Backspace]

  /** No Alt, Ctrl or Meta modifier is held. */
  predicate Printable(ev: KeyEvent) {
    !ev.altKey && !ev.ctrlKey && !ev.metaKey
  }

  /** The editor's observable state: the command buffer, every call made on
      the terminal so far, and every `onCommand` call so far. */
  datatype Editor = Editor(buffer: string, output: seq<TermOp>, commands: seq<string>)

  /** One `writeln` per line of the initial text, in order. */
  function WriteLines(lines: seq<string>): seq<TermOp> {
    if lines == [] then []
    else WriteLines(lines[..|lines| - 1]) + [WriteLn(lines[|lines| - 1])]
  }

  lemma {:induction false} WriteLinesSpec(lines: seq<string>)
    ensures |WriteLines(lines)| == |lines|
    ensures forall i :: 0 <= i < |lines| ==> WriteLines(lines)[i] == WriteLn(lines[i])
  {
    if lines != [] {
      WriteLinesSpec(lines[..|lines| - 1]);
    }
  }

  /** The state right after the effect has set the terminal up: the initial
      lines, an empty line, then the prompt. */
  function Boot(initialText: seq<string>): Editor {
    Editor("", WriteLines(initialText) + [WriteLn(""), Write(Prompt)], [])
  }

  /** The `onKey` handler. `hasHandler` says whether `onCommand` was given. */
  function HandleKey(ed: Editor, ev: KeyEvent, hasHandler: bool): Editor {
    if ev.keyCode == EnterKeyCode then
      Editor("", ed.output + [WriteLn(""), Write(Prompt)],
             if Trim(ed.buffer) != [] && hasHandler then ed.commands + [ed.buffer] else ed.commands)
    else if ev.keyCode == BackspaceKeyCode then
      if |ed.buffer| > 0 then
        ed.(buffer := ed.buffer[..|ed.buffer| - 1], output := ed.output + [Write(Erase)])
      else ed
    else if Printable(ev) then
      ed.(buffer := ed.buffer + ev.key, output := ed.output + [Write(ev.key)])
    else ed
  }

  /** Enter always ends the line, shows a fresh prompt and empties the buffer;
      it hands the buffer to `onCommand` exactly when the buffer is not blank
      and a handler was given. */
  lemma EnterSubmitsIffNotBlank(ed: Editor, ev: KeyEvent, hasHandler: bool)
    requires ev.keyCode == EnterKeyCode
    ensures HandleKey(ed, ev, hasHandler).buffer == ""
    ensures HandleKey(ed, ev, hasHandler).output == ed.output + [WriteLn(""), Write(Prompt)]
    ensures HandleKey(ed, ev, hasHandler).commands == ed.commands + [ed.buffer]
            <==> !AllSpace(ed.buffer) && hasHandler
    ensures !(!AllSpace(ed.buffer) && hasHandler) ==> HandleKey(ed, ev, hasHandler).commands == ed.commands
  {
    TrimEmptyIffBlank(ed.buffer);
    var r := HandleKey(ed, ev, hasHandler);
    if r.commands == ed.commands + [ed.buffer] {
      assert |r.commands| != |ed.commands|;
    }
  }

  /** Backspace on an empty buffer changes nothing, not even the screen. */
  lemma BackspaceOnEmptyIsNoOp(ed: Editor, ev: KeyEvent, hasHandler: bool)
    requires ev.keyCode == BackspaceKeyCode && ed.buffer == ""
    ensures HandleKey(ed, ev, hasHandler) == ed
  {
  }

  /** Typing one character and then Backspace leaves the buffer and the
      commands as they were; only the two writes are added. */
  lemma BackspaceUndoesTyping(ed: Editor, typed: KeyEvent, back: KeyEvent, hasHandler: bool)
    requires typed.keyCode != EnterKeyCode && typed.keyCode != BackspaceKeyCode
    requires Printable(typed) && |typed.key| == 1
    requires back.keyCode == BackspaceKeyCode
    ensures HandleKey(HandleKey(ed, typed, hasHandler), back, hasHandler)
         == ed.(output := ed.output + [Write(typed.key), Write(Erase)])
  {
    assert (ed.buffer + typed.key)[..|ed.buffer|] == ed.buffer;
  }

  /** A key held with Alt, Ctrl or Meta (other than Enter and Backspace) is ignored. */
  lemma ModifiedKeysIgnored(ed: Editor, ev: KeyEvent, hasHandler: bool)
    requires ev.keyCode != EnterKeyCode && ev.keyCode != BackspaceKeyCode && !Printable(ev)
    ensures HandleKey(ed, ev, hasHandler) == ed
  {
  }

  /** Keys only ever add to the calls made on the terminal and to `onCommand`. */
  lemma HistoryOnlyGrows(ed: Editor, ev: KeyEvent, hasHandler: bool)
    ensures ed.output <= HandleKey(ed, ev, hasHandler).output
    ensures ed.commands <= HandleKey(ed, ev, hasHandler).commands
    ensures |HandleKey(ed, ev, hasHandler).commands| <= |ed.commands| + 1
  {
  }

  /** The handler applied to a run of key events, in order. */
  function Feed(ed: Editor, evs: seq<KeyEvent>, hasHandler: bool): Editor
    decreases |evs|
  {
    if evs == [] then ed else Feed(HandleKey(ed, evs[0], hasHandler), evs[1..], hasHandler)
  }

  /** An ordinary keystroke: neither Enter nor Backspace, and unmodified. */
  predicate TypingKey(ev: KeyEvent) {
    ev.keyCode != EnterKeyCode && ev.keyCode != BackspaceKeyCode && Printable(ev)
  }

  /** The text a run of keystrokes spells. */
  function Typed(evs: seq<KeyEvent>): string {
    if evs == [] then "" else evs[0].key + Typed(evs[1..])
  }

  /** Ordinary keystrokes accumulate in the buffer and call nothing. */
  lemma {:induction false} TypingAccumulates(ed: Editor, evs: seq<KeyEvent>, hasHandler: bool)
    requires forall i :: 0 <= i < |evs| ==> TypingKey(evs[i])
    decreases |evs|
    ensures Feed(ed, evs, hasHandler).buffer == ed.buffer + Typed(evs)
    ensures Feed(ed, evs, hasHandler).commands == ed.commands
  {
    if evs != [] {
      var next := HandleKey(ed, evs[0], hasHandler);
      assert TypingKey(evs[0]);
      TypingAccumulates(next, evs[1..], hasHandler);
      assert ed.buffer + evs[0].key + Typed(evs[1..]) == ed.buffer + Typed(evs);
    }
  }

  /** Typing a non-blank line at an empty prompt and pressing Enter hands
      exactly that line to `onCommand`. */
  lemma TypedLineIsSubmitted(ed: Editor, evs: seq<KeyEvent>, enter: KeyEvent)
    requires ed.buffer == ""
    requires forall i :: 0 <= i < |evs| ==> TypingKey(evs[i])
    requires enter.keyCode == EnterKeyCode && !AllSpace(Typed(evs))
    ensures HandleKey(Feed(ed, evs, true), enter, true).commands == ed.commands + [Typed(evs)]
    ensures HandleKey(Feed(ed, evs, true), enter, true).buffer == ""
  {
    TypingAccumulates(ed, evs, true);
    assert Feed(ed, evs, true).buffer == Typed(evs);
    EnterSubmitsIffNotBlank(Feed(ed, evs, true), enter, true);
  }

  // ---------------------------------------------------------------------
  // The screen. A character other than backspace is drawn as one glyph at
  // the cursor (overwriting what is there) and moves the cursor right;
  // backspace moves the cursor left, stopping at the first column; a
  // `writeln` ends the current row.

  datatype Screen = Screen(rows: seq<string>, line: string, col: nat)

  const EmptyScreen := Screen([], "", 0)

  function PutChar(s: Screen, c: char): (r: Screen)
    requires s.col <= |s.line|
    ensures r.col <= |r.line| && r.rows == s.rows
  {
    if c == Backspace then s.(col := if s.col > 0 then s.col - 1 else 0)
    else if s.col < |s.line| then s.(line := s.line[s.col := c], col := s.col + 1)
    else s.(line := s.line + [c], col := s.col + 1)
  }

  function PutString(s: Screen, str: string): (r: Screen)
    requires s.col <= |s.line|
    ensures r.col <= |r.line| && r.rows == s.rows
    decreases |str|
  {
    if str == [] then s else PutString(PutChar(s, str[0]), str[1..])
  }

  function Apply(s: Screen, op: TermOp): (r: Screen)
    requires s.col <= |s.line|
    ensures r.col <= |r.line|
  {
    match op
    case Write(data) => PutString(s, data)
    case WriteLn(data) =>
      var t := PutString(s, data);
      Screen(t.rows + [t.line], "", 0)
  }

  function RenderFrom(s: Screen, ops: seq<TermOp>): (r: Screen)
    requires s.col <= |s.line|
    ensures r.col <= |r.line|
    decreases |ops|
  {
    if ops == [] then s else RenderFrom(Apply(s, ops[0]), ops[1..])
  }

  /** What the terminal shows after the given calls. */
  function Render(ops: seq<TermOp>): Screen {
    RenderFrom(EmptyScreen, ops)
  }

  lemma {:induction false} RenderAppend(s: Screen, a: seq<TermOp>, b: seq<TermOp>)
    requires s.col <= |s.line|
    decreases |a|
    ensures RenderFrom(s, a + b) == RenderFrom(RenderFrom(s, a), b)
  {
    if a == [] {
      assert a + b == b;
    } else {
      assert (a + b)[0] == a[0] && (a + b)[1..] == a[1..] + b;
      RenderAppend(Apply(s, a[0]), a[1..], b);
    }
  }

  /** The cursor's row reads the prompt and then `text`, with only blanks
      (left by erased glyphs) after the cursor. */
  predicate Shows(s: Screen, text: string) {
    s.col <= |s.line|
    && s.line[..s.col] == Prompt + text
    && forall i :: s.col <= i < |s.line| ==> s.line[i] == ' '
  }

  lemma PutGlyph(s: Screen, text: string, c: char)
    requires Shows(s, text) && c != Backspace
    ensures Shows(PutChar(s, c), text + [c])
  {
    var r := PutChar(s, c);
    assert r.line[..r.col] == s.line[..s.col] + [c];
  }

  lemma {:induction false} PutGlyphs(s: Screen, text: string, str: string)
    requires Shows(s, text) && Backspace !in str
    decreases |str|
    ensures Shows(PutString(s, str), text + str)
  {
    if str != [] {
      PutGlyph(s, text, str[0]);
      assert Backspace !in str[1..];
      PutGlyphs(PutChar(s, str[0]), text + [str[0]], str[1..]);
      assert text + [str[0]] + str[1..] == text + str;
    }
  }

  /** Writing `Erase` takes the last glyph of the row back off. */
  lemma EraseLastGlyph(s: Screen, text: string)
    requires Shows(s, text) && text != []
    ensures Shows(PutString(s, Erase), text[..|text| - 1])
  {
    var s1 := PutChar(s, Backspace);
    var s2 := PutChar(s1, ' ');
    var s3 := PutChar(s2, Backspace);
    assert PutString(s, Erase) == s3 by {
      assert Erase[0] == Backspace && Erase[1..] == [' ', Backspace];
      assert PutString(s, Erase) == PutString(s1, [' ', Backspace]);
      assert [' ', Backspace][1..] == [Backspace];
      assert PutString(s1, [' ', Backspace]) == PutString(s2, [Backspace]);
      assert [Backspace][1..] == [];
      assert PutString(s2, [Backspace]) == PutString(s3, []);
    }
    assert s3.line[..s3.col] == s.line[..s.col - 1];
    assert (Prompt + text)[..s.col - 1] == Prompt + text[..|text| - 1];
  }

  /** The prompt written on an empty row reads as itself. */
  lemma PromptOnFreshRow(rows: seq<string>)
    ensures PutString(Screen(rows, "", 0), Prompt) == Screen(rows, Prompt, |Prompt|)
  {
    var t := Screen(rows, "", 0);
    var t1 := Screen(rows, ">", 1);
    var u := Screen(rows, Prompt, |Prompt|);
    assert PutChar(t, '>') == t1;
    assert Prompt[0] == '>' && Prompt[1..] == " ";
    assert PutString(t, Prompt) == PutString(t1, " ");
    assert PutChar(t1, ' ') == u;
    assert PutString(t1, " ") == PutString(u, "");
  }

  /** An empty line and the prompt end the current row, whatever it holds,
      and leave the cursor after a fresh prompt. */
  lemma NewPrompt(s: Screen)
    requires s.col <= |s.line|
    ensures RenderFrom(s, [WriteLn(""), Write(Prompt)]) == Screen(s.rows + [s.line], Prompt, |Prompt|)
    ensures Shows(RenderFrom(s, [WriteLn(""), Write(Prompt)]), "")
  {
    var t := Screen(s.rows + [s.line], "", 0);
    var u := Screen(s.rows + [s.line], Prompt, |Prompt|);
    assert Apply(s, WriteLn("")) == t;
    PromptOnFreshRow(s.rows + [s.line]);
    assert Apply(t, Write(Prompt)) == u;
    var ops := [WriteLn(""), Write(Prompt)];
    assert ops[1..] == [Write(Prompt)] && ops[1..][1..] == [];
    assert RenderFrom(s, ops) == RenderFrom(t, [Write(Prompt)]);
    assert RenderFrom(t, [Write(Prompt)]) == RenderFrom(u, []);
  }

  /** Once set up, the terminal's current row is the prompt, whatever the
      initial text was. */
  lemma BootShowsPrompt(initialText: seq<string>)
    ensures Shows(Render(Boot(initialText).output), "")
  {
    RenderAppend(EmptyScreen, WriteLines(initialText), [WriteLn(""), Write(Prompt)]);
    NewPrompt(RenderFrom(EmptyScreen, WriteLines(initialText)));
  }

  /** Each key keeps the terminal's current row equal to the prompt followed
      by the buffer, provided a key that is typed into the buffer carries no
      backspace character. Enter, Backspace and ignored keys are unrestricted. */
  lemma KeyKeepsEcho(ed: Editor, ev: KeyEvent, hasHandler: bool)
    requires Shows(Render(ed.output), ed.buffer) && (TypingKey(ev) ==> Backspace !in ev.key)
    ensures Shows(Render(HandleKey(ed, ev, hasHandler).output), HandleKey(ed, ev, hasHandler).buffer)
  {
    var s := Render(ed.output);
    if ev.keyCode == EnterKeyCode {
      RenderAppend(EmptyScreen, ed.output, [WriteLn(""), Write(Prompt)]);
      NewPrompt(s);
    } else if ev.keyCode == BackspaceKeyCode {
      if |ed.buffer| > 0 {
        RenderAppend(EmptyScreen, ed.output, [Write(Erase)]);
        EraseLastGlyph(s, ed.buffer);
      }
    } else if Printable(ev) {
      RenderAppend(EmptyScreen, ed.output, [Write(ev.key)]);
      PutGlyphs(s, ed.buffer, ev.key);
    }
  }

  /** On Enter the row that scrolls up reads the prompt and the submitted text. */
  lemma EnterKeepsLineOnScreen(ed: Editor, ev: KeyEvent, hasHandler: bool)
    requires Shows(Render(ed.output), ed.buffer) && ev.keyCode == EnterKeyCode
    ensures var rows := Render(HandleKey(ed, ev, hasHandler).output).rows;
            |rows| > 0 && StartsWith(rows[|rows| - 1], Prompt + ed.buffer)
  {
    RenderAppend(EmptyScreen, ed.output, [WriteLn(""), Write(Prompt)]);
    NewPrompt(Render(ed.output));
  }

  /** In every session, after any keys whose typed text has no backspace
      character, the current row reads the prompt followed by exactly the
      command buffer. */
  lemma {:induction false} FeedKeepsEcho(ed: Editor, evs: seq<KeyEvent>, hasHandler: bool)
    requires Shows(Render(ed.output), ed.buffer)
    requires forall i :: 0 <= i < |evs| ==> (TypingKey(evs[i]) ==> Backspace !in evs[i].key)
    decreases |evs|
    ensures Shows(Render(Feed(ed, evs, hasHandler).output), Feed(ed, evs, hasHandler).buffer)
  {
    if evs != [] {
      KeyKeepsEcho(ed, evs[0], hasHandler);
      FeedKeepsEcho(HandleKey(ed, evs[0], hasHandler), evs[1..], hasHandler);
    }
  }

  lemma SessionEchoesBuffer(initialText: seq<string>, evs: seq<KeyEvent>, hasHandler: bool)
    requires forall i :: 0 <= i < |evs| ==> (TypingKey(evs[i]) ==> Backspace !in evs[i].key)
    ensures Shows(Render(Feed(Boot(initialText), evs, hasHandler).output),
                  Feed(Boot(initialText), evs, hasHandler).buffer)
  {
    BootShowsPrompt(initialText);
    FeedKeepsEcho(Boot(initialText), evs, hasHandler);
  }

  /** The mounted component: its command buffer ref, and the record of the
      calls it has made on the terminal and on `onCommand`. */
  class XtermComponent {
    const hasHandler: bool
    var buffer: string
    var output: seq<TermOp>
    var commands: seq<string>

    function State(): Editor
      reads this
    {
      Editor(buffer, output, commands)
    }

    /** The mount effect: write each initial line, an empty line, the prompt. */
    constructor (initialText: seq<string>, hasHandler: bool)
      ensures State() == Boot(initialText) && this.hasHandler == hasHandler
    {
      var written: seq<TermOp> := [];
      for k := 0 to |initialText|
        invariant written == WriteLines(initialText[..k])
      {
        assert initialText[..k + 1][..k] == initialText[..k];
        written := written + [WriteLn(initialText[k])];
      }
      assert initialText[..|initialText|] == initialText;
      written := written + [WriteLn("")];
      written := written + [Write(Prompt)];
      this.hasHandler := hasHandler;
      buffer := "";
      output := written;
      commands := [];
    }

    /** The `onKey` handler. */
    method OnKey(ev: KeyEvent)
      modifies this
      ensures State() == HandleKey(old(State()), ev, hasHandler)
    {
      var printable := !ev.altKey && !ev.ctrlKey && !ev.metaKey;
      if ev.keyCode == EnterKeyCode {
        output := output + [WriteLn("")];
        if Trim(buffer) != [] && hasHandler {
          commands := commands + [buffer];
        }
        buffer := "";
        output := output + [Write(Prompt)];
      } else if ev.keyCode == BackspaceKeyCode {
        if |buffer| > 0 {
          buffer := buffer[..|buffer| - 1];
          output := output + [Write(Erase)];
        }
      } else if printable {
        buffer := buffer + ev.key;
        output := output + [Write(ev.key)];
      }
    }
  }
}
