/** The logic of the `Terminal` widget (components/terminal.tsx): the form's
    blank-input guard, the styling chosen for each history line, and the
    blinking cursor. */
module Terminal {
  import opened Optional
  import opened JsString

  /** `handleSubmit`: `if (!input.trim()) return; onSubmit(input)`. The result
      is what reaches `onSubmit`, if anything. */
  function HandleSubmit(input: string): (forwarded: Option<string>)
    ensures forwarded.None? <==> AllSpace(input)
    ensures forwarded.Some? ==> forwarded.value == input
  {
    TrimEmptyIffBlank(input);
    if Trim(input) == [] then None else Some(input)
  }

  /** A history line as the widget receives it. */
  datatype HistoryItem = HistoryItem(text: string, isClickable: bool)

  /** The classes and marker the widget attaches to one history line. */
  datatype LineStyle = LineStyle(echo: bool, clickable: bool, arrow: bool)

  /** Lines whose text starts with `>` are styled as command echoes. */
  predicate IsEcho(text: string) {
    StartsWith(text, ">")
  }

  function StyleOf(item: HistoryItem): (style: LineStyle)
    ensures style.echo <==> (item.text != [] && item.text[0] == '>')
    ensures style.clickable == style.arrow == item.isClickable
  {
    LineStyle(IsEcho(item.text), item.isClickable, item.isClickable)
  }

  /** The blinking cursor. `ticks` counts the interval's callbacks. */
  class CursorBlink {
    var cursorVisible: bool
    ghost var ticks: nat

    ghost predicate Valid()
      reads this
    {
      cursorVisible == (ticks % 2 == 0)
    }

    constructor ()
      ensures Valid() && cursorVisible && ticks == 0
    {
      cursorVisible := true;
      ticks := 0;
    }

    /** One interval callback: `setCursorVisible(prev => !prev)`. */
    method Tick()
      requires Valid()
      modifies this
      ensures Valid() && ticks == old(ticks) + 1
      ensures cursorVisible == !old(cursorVisible)
    {
      cursorVisible := !cursorVisible;
      ticks := ticks + 1;
    }
  }

  /** Two ticks show the cursor as it was. */
  method BlinkTwice(c: CursorBlink)
    requires c.Valid()
    modifies c
    ensures c.Valid() && c.cursorVisible == old(c.cursorVisible)
  {
    c.Tick();
    c.Tick();
  }
}
