/**
 * `src/tui/reading.rs`: the read-only view of one email. Its four focusable
 * text areas (From, Cc, Bcc, body; the subject is shown but never focused)
 * take navigation keys, while every editing key is swallowed.
 */
module Reading {
  import opened Wrappers
  import opened Text
  import opened Ui
  import ImapWorker

  /** The number of focusable parts: From, Cc, Bcc and the body. */
  const Parts: nat := 4

  /** The body, the only part that is not a one-line widget. */
  const BodyPart: nat := 3

  /** How the Cc and Bcc lists are shown on one line. */
  function ShowList(addrs: seq<string>): (r: string)
    ensures addrs == [] ==> r == ""
    ensures addrs != [] ==> |r| == TotalLength(addrs) + 2 * (|addrs| - 1)
  {
    if addrs == [] then Join(addrs, ", ")
    else JoinLength(addrs, ", "); Join(addrs, ", ")
  }

  /** Keys the view swallows: typing, Backspace and Delete. */
  predicate IsEditingKey(code: KeyCode)
  {
    code.Char? || code.Backspace? || code.Delete?
  }

  class ReadingWidget {
    /** 0: From, 1: Cc, 2: Bcc, 3: body. */
    var focused: nat
    /** The lines of the From, Cc, Bcc and body text areas, in focus order. */
    var parts: seq<seq<string>>
    const subject: seq<string>
    /** Whether each part is drawn in the focused style. */
    const highlighted: array<bool>

    predicate Valid()
      reads this, highlighted
    {
      highlighted.Length == Parts && |parts| == Parts && focused < Parts
    }

    /**
     * `ReadingWidget::new`: one line per field, Cc and Bcc joined with ", ",
     * focus on From, which alone starts in the focused style.
     */
    constructor (from: string, cc: seq<string>, bcc: seq<string>, subject: string, body: string)
      ensures Valid() && fresh(highlighted)
      ensures focused == 0
      ensures parts == [[from], [ShowList(cc)], [ShowList(bcc)], [body]] && this.subject == [subject]
      ensures highlighted[..] == [true, false, false, false]
    {
      focused := 0;
      parts := [[from], [ShowList(cc)], [ShowList(bcc)], [body]];
      this.subject := [subject];
      highlighted := new bool[Parts](i => i == 0);
    }

    /** `From<ParsedEmail>`: keeps From, Cc, Bcc, subject and body and drops the UID and the date. */
    static method From(email: ImapWorker.Email) returns (w: ReadingWidget)
      ensures fresh(w) && fresh(w.highlighted) && w.Valid() && w.focused == 0
      ensures w.parts == [[email.from], [ShowList(email.cc)], [ShowList(email.bcc)], [email.body]]
      ensures w.subject == [email.subject]
    {
      w := new ReadingWidget(email.from, email.cc, email.bcc, email.subject, email.body);
    }

    /** `update_focused`: exactly the part at `focused` is in the focused style. */
    method UpdateFocused()
      requires Valid()
      modifies highlighted
      ensures forall i :: 0 <= i < Parts ==> highlighted[i] == (i == focused)
    {
      for idx := 0 to Parts
        invariant forall i :: 0 <= i < idx ==> highlighted[i] == (i == focused)
      {
        highlighted[idx] := idx == focused;
      }
    }

    /**
     * `handle_event`: Esc goes back to the inbox; Tab and BackTab move the
     * focus round the four parts; editing keys change nothing; any other key
     * goes to the focused part, where the one-line From, Cc and Bcc widgets
     * drop Enter and the body passes it to its text area. Events other than
     * keys are ignored.
     */
    method HandleEvent(event: Event, input: TextInput) returns (action: Action)
      requires Valid()
      modifies this, highlighted
      ensures Valid()
      ensures action == (if event.Key? && event.key.code.Esc? then GoTo(InboxPage) else Tick)
      ensures event.Key? && event.key.code.Tab? ==> focused == NextFocus(old(focused), Parts)
      ensures event.Key? && event.key.code.BackTab? ==> focused == PrevFocus(old(focused), Parts)
      ensures event.Key? && (event.key.code.Tab? || event.key.code.BackTab?) ==>
        parts == old(parts) && forall i :: 0 <= i < Parts ==> highlighted[i] == (i == focused)
      ensures !event.Key? || event.key.code.Esc? || IsEditingKey(event.key.code) ==>
        focused == old(focused) && parts == old(parts) && highlighted[..] == old(highlighted[..])
      ensures event.Key? && !(event.key.code.Esc? || event.key.code.Tab? || event.key.code.BackTab? || IsEditingKey(event.key.code)) ==>
        && focused == old(focused)
        && parts == old(parts)[focused := PartInput(focused, BodyPart, old(parts)[focused], event.key, input)]
        && highlighted[..] == old(highlighted[..])
    {
      if event.NonKey? {
        return Tick;
      }
      var key := event.key;
      match key.code
      case Esc =>
        action := GoTo(InboxPage);
      case Tab =>
        focused := NextFocus(focused, Parts);
        UpdateFocused();
        action := Tick;
      case BackTab =>
        focused := PrevFocus(focused, Parts);
        UpdateFocused();
        action := Tick;
      case Char(_) =>
        action := Tick;
      case Backspace =>
        action := Tick;
      case Delete =>
        action := Tick;
      case _ =>
        parts := parts[focused := PartInput(focused, BodyPart, parts[focused], key, input)];
        action := Tick;
    }
  }
}
