/**
 * `ectt-oauth/src/tui/reading.rs`: the OAuth client's read-only view of one
 * email, scrolled with Up and Down and left with Esc.
 */
module EcttReading {
  import opened Ui

  /** `scroll` is a `u16`. */
  const U16Max: nat := 65535
  type U16 = n: nat | n <= U16Max

  /** Down panics once `scroll` would pass the `u16` range. */
  predicate Handles(scroll: U16, event: Event)
  {
    event.Key? && event.key.code.Down? ==> scroll < U16Max
  }

  /**
   * `handle_reading` on the scroll offset: the new offset, and whether the
   * screen goes back to Main. Down scrolls one line further, Up one line
   * back but never above the top, Esc leaves without scrolling; every other
   * key and every other event changes nothing.
   */
  function ReadingStep(scroll: U16, event: Event): (r: (U16, bool))
    requires Handles(scroll, event)
    ensures r.1 <==> event.Key? && event.key.code.Esc?
    ensures event.Key? && event.key.code.Down? ==> r.0 == scroll + 1
    ensures event.Key? && event.key.code.Up? ==> r.0 == if scroll > 0 then scroll - 1 else 0
    ensures !(event.Key? && (event.key.code.Down? || event.key.code.Up?)) ==> r.0 == scroll
  {
    if event.NonKey? then (scroll, false)
    else
      match event.key.code
      case Esc => (scroll, true)
      case Down => (scroll + 1, false)
      case Up => (if scroll > 0 then scroll - 1 else 0, false)
      case _ => (scroll, false)
  }

  /** Down then Up puts the view back where it was. */
  lemma DownThenUp(scroll: U16, down: KeyEvent, up: KeyEvent)
    requires scroll < U16Max && down.code.Down? && up.code.Up?
    ensures ReadingStep(ReadingStep(scroll, Key(down)).0, Key(up)).0 == scroll
  {
  }

  class ReadingWidget {
    var from: string
    var cc: seq<string>
    var bcc: seq<string>
    var body: string
    var scroll: U16

    /** `ReadingWidget::default`: a sample email, scrolled to the top. */
    constructor ()
      ensures scroll == 0
      ensures from == "alice@example.com" && cc == ["bob@example.com"] && bcc == ["carol@example.com"]
      ensures body == "This is the email body.\nIt can be very long and should wrap and scroll."
    {
      from := "alice@example.com";
      cc := ["bob@example.com"];
      bcc := ["carol@example.com"];
      body := "This is the email body.\nIt can be very long and should wrap and scroll.";
      scroll := 0;
    }

    /** `handle_reading` on the widget: returns whether the screen goes back to Main. */
    method Handle(event: Event) returns (toMain: bool)
      requires Handles(scroll, event)
      modifies this
      ensures (scroll, toMain) == ReadingStep(old(scroll), event)
      ensures from == old(from) && cc == old(cc) && bcc == old(bcc) && body == old(body)
    {
      toMain := false;
      if event.NonKey? {
        return;
      }
      match event.key.code
      case Esc =>
        toMain := true;
      case Down =>
        scroll := scroll + 1;
      case Up =>
        if scroll > 0 {
          scroll := scroll - 1;
        }
      case _ =>
    }
  }
}
