/** The command console of `ShacksCathedralsApp`
    (components/shacks-cathedrals-app.tsx): the terminal history, the X-Ray
    flag, the selected journal id and the input field, and the interpreter
    `handleTerminalSubmit` that updates them. React state updates are applied
    in program order. */
module App {
  import opened Optional
  import opened JsString
  import Journal
  import Terminal

  // The fixed lines, with the text exactly as the source writes them.

  const BootLines: seq<string> := [
    "FLOAT.ShacksCathedrals v0.3.4 initialized",
    "Type 'help' for available commands"
  ]

  const HelpLines: seq<string> := [
    "Available commands:",
    "  xray - Toggle X-Ray mode",
    "  view [number] - View journal entry (1-5)",
    "  clear - Clear terminal",
    "  about - About this project"
  ]

  const AboutLines: seq<string> := [
    "Shacks Not Cathedrals - " + "A Journey from Journal to Philosophy",
    "Version 0.3.4 - FLOAT Memory Engine Active",
    "© 2025 Evan Schultz"
  ]

  const ViewErrorLine: string := "Error: Journal entry not found. " + "Valid range is 1-5."

  const ActivatingLine: string := "Activating X-Ray mode..."
  const RevealingLine: string := "Revealing hidden connections..."
  const DeactivatingLine: string := "Deactivating X-Ray mode..."

  /** The lines `toggleXRayMode` writes, chosen by the flag before the toggle. */
  function XRayLines(wasOn: bool): seq<string> {
    if !wasOn then [ActivatingLine, RevealingLine] else [DeactivatingLine]
  }

  function EchoLine(input: string): string {
    "> " + input
  }

  function NavigatingLine(num: nat): string {
    "Navigating to journal entry " + DecimalString(num) + "..."
  }

  function NotRecognizedLine(input: string): string {
    "Command not recognized: " + input
  }

  /** The range `view` accepts. */
  predicate InViewRange(num: int) {
    1 <= num <= 5
  }

  /** The interpreter's branches, in the order they are tried. */
  datatype Command = Help | XRay | Clear | About | View(num: Option<int>) | Unrecognized

  /** `input.toLowerCase().trim()`. */
  function Normalize(input: string): string {
    Trim(Lower(input))
  }

  /** A command starting with `view ` splits into `view` and the fields of the rest. */
  lemma ViewSplit(cmd: string)
    requires StartsWith(cmd, "view ")
    ensures SplitSpace(cmd) == ["view"] + SplitSpace(cmd[5..])
  {
    assert cmd == "view" + " " + cmd[5..];
    SplitAfterWord("view", cmd[5..]);
  }

  /** First-match-wins dispatch on the normalized command; `view …` passes
      `cmd.split(" ")[1]` to `parseInt`. */
  function Classify(cmd: string): Command {
    if cmd == "help" || cmd == "/help" then Help
    else if cmd == "xray" then XRay
    else if cmd == "clear" then Clear
    else if cmd == "about" then About
    else if StartsWith(cmd, "view ") then ViewSplit(cmd); View(ParseInt(SplitSpace(cmd)[1]))
    else Unrecognized
  }

  /** The branch a submitted line takes. */
  function ParseCommand(input: string): Command {
    Classify(Normalize(input))
  }

  /** The application state the console reads and writes. */
  datatype Console = Console(log: seq<string>, xrayMode: bool, selectedJournalId: int, input: string)

  const InitialConsole: Console := Console(BootLines, false, 1, "")

  /** The lines a command appends after its echo (for every command but `clear`). */
  function Responses(command: Command, input: string, xrayMode: bool): seq<string> {
    match command
    case Help => HelpLines
    case XRay => XRayLines(xrayMode)
    case Clear => []
    case About => AboutLines
    case View(num) =>
      if num.Some? && InViewRange(num.value) then [NavigatingLine(num.value)] else [ViewErrorLine]
    case Unrecognized => [NotRecognizedLine(input)]
  }

  /** The state after `handleTerminalSubmit(input)`. */
  function Submit(c: Console, input: string): Console {
    var command := ParseCommand(input);
    var log := if command == Clear then [] else c.log + [EchoLine(input)] + Responses(command, input, c.xrayMode);
    var xrayMode := if command == XRay then !c.xrayMode else c.xrayMode;
    var id := if command.View? && command.num.Some? && InViewRange(command.num.value)
              then command.num.value else c.selectedJournalId;
    Console(log, xrayMode, id, "")
  }

  /** Every command but `clear` keeps the old log, adds the echo of the raw
      input, then the command's responses; every submit empties the input. */
  lemma SubmitAppends(c: Console, input: string)
    ensures ParseCommand(input) != Clear ==>
      Submit(c, input).log == c.log + [EchoLine(input)] + Responses(ParseCommand(input), input, c.xrayMode)
    ensures Submit(c, input).input == ""
  {
  }

  // Properties of the interpreter.

  /** Help and `/help` append exactly the five help lines after the echo. */
  lemma SubmitHelp(c: Console, input: string)
    requires Normalize(input) == "help" || Normalize(input) == "/help"
    ensures Submit(c, input) == c.(log := c.log + [EchoLine(input)] + HelpLines, input := "")
    ensures |HelpLines| == 5
  {
  }

  /** `xray` flips the flag and reports the direction of the change. */
  lemma SubmitXRay(c: Console, input: string)
    requires Normalize(input) == "xray"
    ensures Submit(c, input).xrayMode == !c.xrayMode
    ensures !c.xrayMode ==> Submit(c, input).log == c.log + [EchoLine(input), ActivatingLine, RevealingLine]
    ensures c.xrayMode ==> Submit(c, input).log == c.log + [EchoLine(input), DeactivatingLine]
    ensures Submit(c, input).selectedJournalId == c.selectedJournalId
  {
  }

  /** Two `xray` commands restore the flag, and the two report different lines. */
  lemma XRayTwiceRestores(c: Console, first: string, second: string)
    requires Normalize(first) == "xray" && Normalize(second) == "xray"
    ensures Submit(Submit(c, first), second).xrayMode == c.xrayMode
    ensures Submit(Submit(c, first), second).selectedJournalId == c.selectedJournalId
    ensures XRayLines(c.xrayMode) != XRayLines(!c.xrayMode)
  {
    SubmitXRay(c, first);
    SubmitXRay(Submit(c, first), second);
  }

  /** `clear` empties the log, its own echo included. */
  lemma SubmitClear(c: Console, input: string)
    requires Normalize(input) == "clear"
    ensures Submit(c, input) == c.(log := [], input := "")
  {
  }

  /** About appends the three fixed lines after the echo. */
  lemma SubmitAbout(c: Console, input: string)
    requires Normalize(input) == "about"
    ensures Submit(c, input) == c.(log := c.log + [EchoLine(input)] + AboutLines, input := "")
  {
  }

  /** A normalized command `view ARG`, where ARG holds no space, parses ARG. */
  lemma ClassifyView(arg: string)
    requires ' ' !in arg
    ensures Classify("view " + arg) == View(ParseInt(arg))
  {
    var cmd := "view " + arg;
    assert cmd[0] == 'v' && |cmd| >= 5;
    assert cmd[..5] == "view ";
    ViewSplit(cmd);
    assert cmd[5..] == arg;
    SplitNoSpace(arg);
  }

  /** Decimal renderings hold no space. */
  lemma DecimalHasNoSpace(n: nat)
    ensures ' ' !in DecimalString(n)
  {
    var d := DecimalString(n);
    forall i | 0 <= i < |d| ensures d[i] != ' ' {
      assert IsDigit(d[i], 10);
    }
  }

  /** A digit-free tail, such as the `.5` of `view 2.5` or the `x` of
      `view 5x`, is ignored by `parseInt`; only `0x` switches to base 16. */
  predicate IgnoredTail(n: nat, tail: string) {
    tail == [] || (!IsDigit(tail[0], 10) && (n == 0 ==> tail[0] != 'x' && tail[0] != 'X'))
  }

  /** `view N…` with N in 1..5 and an ignored tail selects entry N and appends
      one confirmation line. */
  lemma ViewInRange(c: Console, input: string, n: nat, tail: string)
    requires Normalize(input) == "view " + DecimalString(n) + tail && InViewRange(n)
    requires ' ' !in tail && IgnoredTail(n, tail)
    ensures Submit(c, input) == c.(log := c.log + [EchoLine(input), NavigatingLine(n)],
                                   selectedJournalId := n, input := "")
  {
    ParsedView(n, tail);
  }

  /** `view N…` with N outside 1..5 and an ignored tail keeps the selection
      and appends one error line. */
  lemma ViewOutOfRange(c: Console, input: string, n: nat, tail: string)
    requires Normalize(input) == "view " + DecimalString(n) + tail && !InViewRange(n)
    requires ' ' !in tail && IgnoredTail(n, tail)
    ensures Submit(c, input) == c.(log := c.log + [EchoLine(input), ViewErrorLine], input := "")
  {
    ParsedView(n, tail);
  }

  lemma ParsedView(n: nat, tail: string)
    requires ' ' !in tail && IgnoredTail(n, tail)
    ensures Classify("view " + DecimalString(n) + tail) == View(Some(n))
  {
    DecimalHasNoSpace(n);
    var arg := DecimalString(n) + tail;
    assert "view " + DecimalString(n) + tail == "view " + arg;
    ClassifyView(arg);
    ParseDecimal(n, tail);
  }

  /** `view -N` parses to a negative number (or zero), which is out of range. */
  lemma ViewNegative(c: Console, input: string, n: nat)
    requires Normalize(input) == "view -" + DecimalString(n)
    ensures Submit(c, input) == c.(log := c.log + [EchoLine(input), ViewErrorLine], input := "")
  {
    var arg := "-" + DecimalString(n);
    assert "view -" + DecimalString(n) == "view " + arg;
    assert ' ' !in arg by {
      DecimalHasNoSpace(n);
      assert forall i :: 1 <= i < |arg| ==> arg[i] == DecimalString(n)[i - 1];
    }
    ClassifyView(arg);
    ParseNegative(n);
  }

  /** `view  REST`, with two spaces after `view`: `split(" ")[1]` is the empty
      token, which `parseInt` reads as NaN, so the selection is kept and one
      error line is appended. */
  lemma ViewEmptyToken(c: Console, input: string, rest: string)
    requires Normalize(input) == "view  " + rest
    ensures ParseCommand(input) == View(None)
    ensures Submit(c, input) == c.(log := c.log + [EchoLine(input), ViewErrorLine], input := "")
  {
    var cmd := "view  " + rest;
    assert cmd[..5] == "view ";
    ViewSplit(cmd);
    var tail := cmd[5..];
    assert tail == " " + rest;
    assert tail[0] == ' ' && tail[1..] == rest;
    assert SplitSpace(tail) == [""] + SplitSpace(rest);
    assert SplitSpace(cmd)[1] == "";
    assert ParseInt("") == None;
  }

  /** A normalized command never ends in white space, so it is never the bare
      `view ` and every `view ` command has a non-empty argument text. */
  lemma NormalizeNeverBareView(input: string)
    ensures Normalize(input) == [] || !IsJsSpace(Normalize(input)[|Normalize(input)| - 1])
    ensures Normalize(input) != "view "
  {
    TrimSpec(Lower(input));
  }

  /** `view ARG` whose ARG starts with no sign, digit or white space fails to
      parse: the selection is kept and one error line is appended. */
  lemma ViewNotANumber(c: Console, input: string, arg: string)
    requires Normalize(input) == "view " + arg && ' ' !in arg
    requires arg != [] && !IsJsSpace(arg[0]) && arg[0] != '-' && arg[0] != '+' && !IsDigit(arg[0], 10)
    ensures Submit(c, input) == c.(log := c.log + [EchoLine(input), ViewErrorLine], input := "")
  {
    ClassifyView(arg);
    ParseNoDigit(arg);
  }

  /** Every submit but `clear` keeps every earlier line, then the raw echo. */
  lemma SubmitKeepsHistory(c: Console, input: string)
    requires ParseCommand(input) != Clear
    ensures |Submit(c, input).log| > |c.log|
    ensures Submit(c, input).log[..|c.log|] == c.log
    ensures Submit(c, input).log[|c.log|] == "> " + input
  {
    SubmitAppends(c, input);
    var r := Submit(c, input).log;
    assert r[..|c.log|] == c.log;
  }

  /** How many lines each branch adds after the echo; `clear` leaves none at all. */
  lemma SubmitLineCount(c: Console, input: string)
    ensures ParseCommand(input) == Clear ==> Submit(c, input).log == []
    ensures ParseCommand(input) != Clear ==>
      |Submit(c, input).log| == |c.log| + 1 + match ParseCommand(input)
        case Help => 5
        case XRay => if c.xrayMode then 1 else 2
        case About => 3
        case _ => 1
  {
    SubmitAppends(c, input);
  }

  /** An unrecognized command is reported with the raw input, casing and spacing kept. */
  lemma SubmitUnrecognized(c: Console, input: string)
    requires ParseCommand(input) == Unrecognized
    ensures Submit(c, input) == c.(log := c.log + ["> " + input, "Command not recognized: " + input], input := "")
  {
  }

  /** There is no `philosophy` branch: it is reported as not recognized. */
  lemma PhilosophyIsUnrecognized(c: Console, input: string)
    requires Normalize(input) == "philosophy"
    ensures ParseCommand(input) == Unrecognized
    ensures Submit(c, input) == c.(log := c.log + [EchoLine(input), NotRecognizedLine(input)], input := "")
  {
    assert !StartsWith("philosophy", "view ") by {
      assert "philosophy"[0] != "view "[0];
    }
  }

  /** The selection stays in 1..5 and only a `view` command changes it. */
  lemma SubmitKeepsSelectionValid(c: Console, input: string)
    requires InViewRange(c.selectedJournalId)
    ensures InViewRange(Submit(c, input).selectedJournalId)
    ensures Submit(c, input).selectedJournalId != c.selectedJournalId ==> ParseCommand(input).View?
    ensures Submit(c, input).input == ""
  {
  }

  /** Command words are matched whatever their case: inputs that agree once
      lower-cased take the same branch and change flag and selection alike. */
  lemma SubmitCaseInsensitive(c: Console, a: string, b: string)
    requires Lower(a) == Lower(b)
    ensures ParseCommand(a) == ParseCommand(b)
    ensures Submit(c, a).xrayMode == Submit(c, b).xrayMode
    ensures Submit(c, a).selectedJournalId == Submit(c, b).selectedJournalId
    ensures |Submit(c, a).log| == |Submit(c, b).log|
  {
    SubmitLineCount(c, a);
    SubmitLineCount(c, b);
  }

  /** A line whose first character is not `>` is not styled as an echo. */
  lemma PlainLine(line: string)
    requires line != [] && line[0] != '>'
    ensures !Terminal.IsEcho(line)
  {
    assert line[..1][0] == line[0];
  }

  /** None of the lines is styled as an echo. */
  predicate AllPlain(lines: seq<string>) {
    forall i :: 0 <= i < |lines| ==> !Terminal.IsEcho(lines[i])
  }

  lemma FixedLinesArePlain()
    ensures AllPlain(HelpLines) && AllPlain(AboutLines) && AllPlain([ViewErrorLine])
    ensures AllPlain(XRayLines(false)) && AllPlain(XRayLines(true))
  {
    assert HelpLines[0][0] == 'A' && HelpLines[1][0] == ' ' && HelpLines[2][0] == ' ';
    assert HelpLines[3][0] == ' ' && HelpLines[4][0] == ' ';
    PlainLine(HelpLines[0]); PlainLine(HelpLines[1]); PlainLine(HelpLines[2]);
    PlainLine(HelpLines[3]); PlainLine(HelpLines[4]);
    assert AboutLines[0][0] == 'S' && AboutLines[1][0] == 'V' && AboutLines[2][0] == '©';
    PlainLine(AboutLines[0]); PlainLine(AboutLines[1]); PlainLine(AboutLines[2]);
    assert ViewErrorLine[0] == 'E';
    PlainLine(ViewErrorLine);
    assert ActivatingLine[0] == 'A' && RevealingLine[0] == 'R' && DeactivatingLine[0] == 'D';
    PlainLine(ActivatingLine); PlainLine(RevealingLine); PlainLine(DeactivatingLine);
  }

  /** No response line starts with `>`. */
  lemma ResponsesArePlain(command: Command, input: string, xrayMode: bool)
    ensures AllPlain(Responses(command, input, xrayMode))
  {
    FixedLinesArePlain();
    match command
    case View(num) =>
      if num.Some? && InViewRange(num.value) {
        assert NavigatingLine(num.value)[0] == 'N';
        PlainLine(NavigatingLine(num.value));
      }
    case Unrecognized =>
      assert NotRecognizedLine(input)[0] == 'C';
      PlainLine(NotRecognizedLine(input));
    case _ =>
  }

  /** Only the echo of a submit is styled as an echo: no response line starts with `>`. */
  lemma SubmitEchoStyling(c: Console, input: string)
    requires ParseCommand(input) != Clear
    ensures Terminal.IsEcho(Submit(c, input).log[|c.log|])
    ensures forall i :: |c.log| < i < |Submit(c, input).log| ==> !Terminal.IsEcho(Submit(c, input).log[i])
  {
    SubmitAppends(c, input);
    var responses := Responses(ParseCommand(input), input, c.xrayMode);
    ResponsesArePlain(ParseCommand(input), input, c.xrayMode);
    var r := Submit(c, input).log;
    assert r[|c.log|] == EchoLine(input);
    assert EchoLine(input)[..1] == ">";
    forall i | |c.log| < i < |r| ensures !Terminal.IsEcho(r[i]) {
      assert r[i] == responses[i - |c.log| - 1];
    }
  }

  /** The boot lines are not styled as echoes. */
  lemma BootLinesPlain()
    ensures forall i :: 0 <= i < |BootLines| ==> !Terminal.IsEcho(BootLines[i])
  {
    assert BootLines[0][0] == 'F' && BootLines[1][0] == 'T';
    PlainLine(BootLines[0]);
    PlainLine(BootLines[1]);
  }

  /** The navigation offers exactly the journal's ids and titles, in order. */
  lemma NavigationMatchesJournal()
    ensures |NavigationEntries| == |Journal.JournalEntries|
    ensures forall k :: 0 <= k < |NavigationEntries| ==>
      NavigationEntries[k].id == Journal.JournalEntries[k].id
      && NavigationEntries[k].title == Journal.JournalEntries[k].title
    ensures forall k :: 0 <= k < |NavigationEntries| ==> InViewRange(NavigationEntries[k].id)
  {
  }

  /** Every id the console can select names its own journal entry. */
  lemma SelectionShowsThatEntry(id: int)
    requires InViewRange(id)
    ensures Journal.GetJournalData(id).id == id
  {
  }

  /** `parseInt` honours a hex prefix, so `view 0xN` with N in 1..5 also selects entry N. */
  lemma ViewHexPrefix(c: Console, input: string, n: nat)
    requires Normalize(input) == "view 0x" + DecimalString(n) && InViewRange(n)
    ensures Submit(c, input).selectedJournalId == n
    ensures Submit(c, input).log == c.log + [EchoLine(input), NavigatingLine(n)]
  {
    var arg := "0x" + DecimalString(n);
    assert "view 0x" + DecimalString(n) == "view " + arg;
    assert ' ' !in arg by {
      DecimalHasNoSpace(n);
      assert forall i :: 2 <= i < |arg| ==> arg[i] == DecimalString(n)[i - 2];
    }
    ClassifyView(arg);
    ParseHex(DecimalString(n));
    assert DecimalString(n)[..0] == [];
  }

  /** The entries the journal navigation buttons offer. */
  datatype NavEntry = NavEntry(id: int, title: string)

  const NavigationEntries: seq<NavEntry> := [
    NavEntry(1, "Early Pattern Drawing"),
    NavEntry(2, "CAN'T SIT STILL"),
    NavEntry(3, "Adaptation & Growth"),
    NavEntry(4, "Dots & Patterns"),
    NavEntry(5, "Frame & Imperfections")
  ]

  class ShacksCathedralsApp {
    var terminalHistory: seq<string>
    var xrayMode: bool
    var selectedJournalId: int
    var terminalInput: string

    /** The selected id is always one `view` and the navigation accept. */
    predicate Valid()
      reads this
    {
      InViewRange(selectedJournalId)
    }

    function State(): (c: Console)
      reads this
    {
      Console(terminalHistory, xrayMode, selectedJournalId, terminalInput)
    }

    constructor ()
      ensures Valid() && State() == InitialConsole
    {
      terminalHistory := BootLines;
      xrayMode := false;
      selectedJournalId := 1;
      terminalInput := "";
    }

    /** `addToTerminal(text)`: append one line. */
    method AddToTerminal(text: string)
      modifies this
      ensures terminalHistory == old(terminalHistory) + [text]
      ensures xrayMode == old(xrayMode) && selectedJournalId == old(selectedJournalId)
      ensures terminalInput == old(terminalInput)
    {
      terminalHistory := terminalHistory + [text];
    }

    /** `toggleXRayMode`, from the header button or the `xray` command. */
    method ToggleXRayMode()
      modifies this
      ensures terminalHistory == old(terminalHistory) + XRayLines(old(xrayMode))
      ensures xrayMode == !old(xrayMode)
      ensures selectedJournalId == old(selectedJournalId) && terminalInput == old(terminalInput)
    {
      if !xrayMode {
        AddToTerminal(ActivatingLine);
        AddToTerminal(RevealingLine);
      } else {
        AddToTerminal(DeactivatingLine);
      }
      xrayMode := !xrayMode;
    }

    /** `setTerminalInput`, as the input field's `onChange` calls it. */
    method SetInput(value: string)
      modifies this
      ensures terminalInput == value
      ensures terminalHistory == old(terminalHistory) && xrayMode == old(xrayMode)
      ensures selectedJournalId == old(selectedJournalId)
    {
      terminalInput := value;
    }

    /** A click on the `k`-th navigation button: `setSelectedJournalId(entry.id)`. */
    method SelectJournal(k: nat)
      requires Valid() && k < |NavigationEntries|
      modifies this
      ensures Valid() && selectedJournalId == NavigationEntries[k].id
      ensures terminalHistory == old(terminalHistory) && xrayMode == old(xrayMode)
      ensures terminalInput == old(terminalInput)
    {
      selectedJournalId := NavigationEntries[k].id;
    }

    /** `handleTerminalSubmit(input)`. */
    method HandleTerminalSubmit(input: string)
      requires Valid()
      modifies this
      ensures Valid() && State() == Submit(old(State()), input)
    {
      ghost var before := State();
      SubmitAppends(before, input);
      AddToTerminal(EchoLine(input));
      ghost var echoed := terminalHistory;
      var cmd := Normalize(input);
      if cmd == "help" || cmd == "/help" {
        assert Classify(cmd) == Help;
        AddToTerminal(HelpLines[0]);
        AddToTerminal(HelpLines[1]);
        AddToTerminal(HelpLines[2]);
        AddToTerminal(HelpLines[3]);
        AddToTerminal(HelpLines[4]);
        assert terminalHistory == echoed + HelpLines;
      } else if cmd == "xray" {
        assert Classify(cmd) == XRay;
        ToggleXRayMode();
      } else if cmd == "clear" {
        assert Classify(cmd) == Clear;
        terminalHistory := [];
      } else if cmd == "about" {
        assert Classify(cmd) == About;
        AddToTerminal(AboutLines[0]);
        AddToTerminal(AboutLines[1]);
        AddToTerminal(AboutLines[2]);
        assert terminalHistory == echoed + AboutLines;
      } else if StartsWith(cmd, "view ") {
        ViewSplit(cmd);
        var num := ParseInt(SplitSpace(cmd)[1]);
        assert Classify(cmd) == View(num);
        if num.Some? && num.value >= 1 && num.value <= 5 {
          selectedJournalId := num.value;
          AddToTerminal(NavigatingLine(num.value));
        } else {
          AddToTerminal(ViewErrorLine);
        }
      } else {
        assert Classify(cmd) == Unrecognized;
        AddToTerminal(NotRecognizedLine(input));
      }
      terminalInput := "";
    }

    /** The terminal's form submit wired to this console: blank input is
        dropped by the widget's guard, anything else reaches the interpreter. */
    method SubmitForm()
      requires Valid()
      modifies this
      ensures Valid()
      ensures AllSpace(old(terminalInput)) ==> State() == old(State())
      ensures !AllSpace(old(terminalInput)) ==> State() == Submit(old(State()), old(terminalInput))
    {
      match Terminal.HandleSubmit(terminalInput)
      case None =>
      case Some(line) => HandleTerminalSubmit(line);
    }
  }
}
