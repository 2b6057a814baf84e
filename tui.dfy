/**
 * `src/tui/mod.rs`: the front end's inbox state and the in-flight flag that
 * keeps at most one `ReadInbox` request outstanding at the IMAP worker. The
 * table's selected row is moved by the inbox widget (ratatui's `TableState`),
 * so each key step carries the selection it leaves behind.
 */
module Tui {
  import opened Wrappers
  import opened ImapCommon
  import opened ImapWorker

  /** A `send` to the IMAP worker fails only once the worker is gone; the unsent command comes back. */
  datatype SendError = SendError(command: Command)

  /** `try_recv` on the worker's response channel. */
  datatype TryRecv = Received(response: Response) | Empty | Disconnected

  datatype TuiError = Worker(error: WorkerError) | ChannelDisconnected

  /** What one poll of the response channel tells the loop. */
  datatype PollOutcome = KeepRunning | Exit(error: TuiError)

  /** How `run` ends: with the error of a poll, or with `Ok` after a failed send (the release-build branch). */
  datatype RunExit = Failed(error: TuiError) | Closed

  /** The rows of the first page and of every further page. */
  const PageSize: U32 := 5

  // ---------------------------------------------------------------------------
  // The last-row guard of `load_more`

  /**
   * The guard as written, `selected == inbox.len() - 1` on `usize`: `None`
   * stands for the subtraction underflowing, which panics in a debug build.
   */
  function LoadMoreGuardAsWritten(selected: nat, len: nat): (r: Option<bool>)
    ensures r.None? <==> len == 0
  {
    if len == 0 then None else Some(selected == len - 1)
  }

  /** The guard as intended: the selected row is the last row of a non-empty inbox. */
  predicate AtLastRow(selected: nat, len: nat)
  {
    selected + 1 == len
  }

  /** An empty mailbox answer followed by Down reaches the underflow; the intended guard just says no. */
  lemma EmptyInboxGuardUnderflows(selected: nat)
    ensures LoadMoreGuardAsWritten(selected, 0).None?
    ensures !AtLastRow(selected, 0)
  {
  }

  /** On every non-empty inbox the two guards agree. */
  lemma AtLastRowAgrees(selected: nat, len: nat)
    requires len > 0
    ensures LoadMoreGuardAsWritten(selected, len) == Some(AtLastRow(selected, len))
  {
  }

  // ---------------------------------------------------------------------------
  // The state as a value, and one step of `run`

  /** The fields of `ScreenState` the model keeps, plus every command sent so far. */
  datatype View = View(inbox: seq<Email>, selected: Option<nat>, inflight: bool, sent: seq<Command>)

  /** `ScreenState::new` over `InboxState::new`: no emails, row 0 selected, nothing in flight or sent. */
  const Initial: View := View([], Some(0), false, [])

  /**
   * `load`: sends `ReadInbox { count: 5, offset: 0 }`; only a send that went
   * through sets the in-flight flag.
   */
  function LoadSpec(v: View, open: bool): (r: (View, Result<Unit, SendError>))
    ensures r.1.Err? <==> !open
    ensures r.1.Err? ==> r.0 == v && r.1.error.command == ReadInbox(PageSize, 0)
    ensures r.1.Ok? ==> r.0 == v.(inflight := true, sent := v.sent + [ReadInbox(PageSize, 0)])
  {
    var command := ReadInbox(PageSize, 0);
    if open then (v.(inflight := true, sent := v.sent + [command]), Ok(Unit))
    else (v, Err(SendError(command)))
  }

  /** Whether `load_more` wants another page: nothing in flight and the last row selected. */
  predicate WantsMore(v: View)
  {
    !v.inflight && v.selected.Some? && AtLastRow(v.selected.value, |v.inbox|)
  }

  /**
   * `load_more`: while a request is in flight it does nothing; otherwise, at
   * the last row, it asks for `count` more emails from offset
   * `inbox.len() as u32` and sets the flag if the send went through.
   */
  function LoadMoreSpec(v: View, count: U32, open: bool): (r: (View, Result<Unit, SendError>))
    ensures v.inflight ==> r == (v, Ok(Unit))
    ensures r.0.inbox == v.inbox && r.0.selected == v.selected
    ensures r.0.sent != v.sent <==> WantsMore(v) && open
    ensures r.0.sent != v.sent ==>
      r.0.sent == v.sent + [ReadInbox(count, |v.inbox| % U32Limit)] && r.0.inflight
    ensures r.1.Err? <==> WantsMore(v) && !open
    ensures r.1.Err? ==> r.0 == v && r.1.error.command == ReadInbox(count, |v.inbox| % U32Limit)
    ensures !WantsMore(v) ==> r.0 == v
  {
    if !WantsMore(v) then (v, Ok(Unit))
    else
      var command := ReadInbox(count, |v.inbox| % U32Limit);
      if open then (v.(inflight := true, sent := v.sent + [command]), Ok(Unit))
      else (v, Err(SendError(command)))
  }

  /**
   * The top of `run`'s loop: an `Inbox` response appends its emails after the
   * ones already there and clears the flag; an `Error` response or a
   * disconnected channel ends `run`; an empty channel changes nothing.
   */
  function PollSpec(v: View, recv: TryRecv): (r: (View, PollOutcome))
    ensures recv.Received? && recv.response.Inbox? ==>
      r.1 == KeepRunning && r.0 == v.(inbox := v.inbox + recv.response.emails, inflight := false)
    ensures recv.Received? && recv.response.Error? ==> r == (v, Exit(Worker(recv.response.error)))
    ensures recv.Empty? ==> r == (v, KeepRunning)
    ensures recv.Disconnected? ==> r == (v, Exit(ChannelDisconnected))
    ensures r.0.inbox[..|v.inbox|] == v.inbox && r.0.sent == v.sent && r.0.selected == v.selected
  {
    match recv
    case Received(Inbox(emails)) => (v.(inbox := v.inbox + emails, inflight := false), KeepRunning)
    case Received(Error(e)) => (v, Exit(Worker(e)))
    case Empty => (v, KeepRunning)
    case Disconnected => (v, Exit(ChannelDisconnected))
  }

  /** What happens to the screen after Enter on the inbox. */
  datatype EnterOutcome = OpenReading(email: Email) | Ignored | ToInboxWidget

  // ---------------------------------------------------------------------------
  // At most one request outstanding

  /**
   * Sent commands exceed the `Inbox` responses taken so far by at most one,
   * and by one only while the flag is set.
   */
  predicate OneOutstanding(v: View, answered: nat)
  {
    |v.sent| <= answered + (if v.inflight then 1 else 0)
  }

  /** Something the main loop can do to the inbox state. */
  datatype Step =
    | Polled(recv: TryRecv)
      /** Down: `load_more(5)`, then the inbox widget moves the selection. */
    | DownKey(open: bool, selectedAfter: Option<nat>)
      /** Any other event; on the inbox screen the widget may move the selection. */
    | OtherKey(selectedAfter: Option<nat>)

  /** The state after the loop has taken `steps`, counting `Inbox` responses, stopping at the first exit. */
  datatype Trace = Trace(view: View, answered: nat, exit: Option<RunExit>)

  function Replay(v: View, answered: nat, steps: seq<Step>): (r: Trace)
    ensures answered <= r.answered <= answered + |steps|
    ensures |v.sent| <= |r.view.sent| <= |v.sent| + |steps|
    decreases |steps|
  {
    if steps == [] then Trace(v, answered, None)
    else
      match steps[0]
      case Polled(recv) =>
        var (v', outcome) := PollSpec(v, recv);
        var answered' := if recv.Received? && recv.response.Inbox? then answered + 1 else answered;
        if outcome.Exit? then Trace(v', answered', Some(Failed(outcome.error)))
        else Replay(v', answered', steps[1..])
      case DownKey(open, selectedAfter) =>
        var (v', sent) := LoadMoreSpec(v, PageSize, open);
        if sent.Err? then Trace(v', answered, Some(Closed))
        else Replay(v'.(selected := selectedAfter), answered, steps[1..])
      case OtherKey(selectedAfter) =>
        Replay(v.(selected := selectedAfter), answered, steps[1..])
  }

  /** `load` at start-up leaves exactly one request outstanding. */
  lemma LoadStartsOneOutstanding()
    ensures LoadSpec(Initial, true).0.sent == [ReadInbox(PageSize, 0)]
    ensures OneOutstanding(LoadSpec(Initial, true).0, 0)
  {
  }

  /** Whatever the responses, keys and selections, the loop never has two requests outstanding. */
  lemma {:induction false} ReplayKeepsOneOutstanding(v: View, answered: nat, steps: seq<Step>)
    requires OneOutstanding(v, answered)
    ensures OneOutstanding(Replay(v, answered, steps).view, Replay(v, answered, steps).answered)
    decreases |steps|
  {
    if steps != [] {
      match steps[0]
      case Polled(recv) =>
        var (v', outcome) := PollSpec(v, recv);
        var answered' := if recv.Received? && recv.response.Inbox? then answered + 1 else answered;
        assert OneOutstanding(v', answered');
        if !outcome.Exit? {
          ReplayKeepsOneOutstanding(v', answered', steps[1..]);
        }
      case DownKey(open, selectedAfter) =>
        var (v', sent) := LoadMoreSpec(v, PageSize, open);
        if sent.Ok? {
          assert OneOutstanding(v'.(selected := selectedAfter), answered);
          ReplayKeepsOneOutstanding(v'.(selected := selectedAfter), answered, steps[1..]);
        }
      case OtherKey(selectedAfter) =>
        ReplayKeepsOneOutstanding(v.(selected := selectedAfter), answered, steps[1..]);
    }
  }

  /** The inbox only grows: every email shown stays, at the same row. */
  lemma {:induction false} ReplayKeepsInbox(v: View, answered: nat, steps: seq<Step>)
    ensures |v.inbox| <= |Replay(v, answered, steps).view.inbox|
    ensures Replay(v, answered, steps).view.inbox[..|v.inbox|] == v.inbox
    decreases |steps|
  {
    if steps != [] {
      match steps[0]
      case Polled(recv) =>
        var (v', outcome) := PollSpec(v, recv);
        var answered' := if recv.Received? && recv.response.Inbox? then answered + 1 else answered;
        if !outcome.Exit? {
          ReplayKeepsInbox(v', answered', steps[1..]);
          var w := Replay(v', answered', steps[1..]).view.inbox;
          assert w[..|v.inbox|] == w[..|v'.inbox|][..|v.inbox|];
        }
      case DownKey(open, selectedAfter) =>
        var (v', sent) := LoadMoreSpec(v, PageSize, open);
        if sent.Ok? {
          ReplayKeepsInbox(v'.(selected := selectedAfter), answered, steps[1..]);
        }
      case OtherKey(selectedAfter) =>
        ReplayKeepsInbox(v.(selected := selectedAfter), answered, steps[1..]);
    }
  }

  // ---------------------------------------------------------------------------
  // The state in place

  class ScreenState {
    var inbox: seq<Email>
    /** The inbox table's selected row. */
    var selected: Option<nat>
    var requestInflight: bool
    /** Every command that went through to the IMAP worker, in order. */
    var sentToImap: seq<Command>

    function Current(): View
      reads this
    {
      View(inbox, selected, requestInflight, sentToImap)
    }

    /** `ScreenState::new`. */
    constructor ()
      ensures Current() == Initial
    {
      inbox, selected, requestInflight, sentToImap := [], Some(0), false, [];
    }

    method Load(open: bool) returns (r: Result<Unit, SendError>)
      modifies this
      ensures (Current(), r) == LoadSpec(old(Current()), open)
    {
      var command := ReadInbox(PageSize, 0);
      if !open {
        return Err(SendError(command));
      }
      sentToImap := sentToImap + [command];
      requestInflight := true;
      r := Ok(Unit);
    }

    method LoadMore(count: U32, open: bool) returns (r: Result<Unit, SendError>)
      modifies this
      ensures (Current(), r) == LoadMoreSpec(old(Current()), count, open)
    {
      r := Ok(Unit);
      if !requestInflight {
        if selected.Some? {
          if selected.value + 1 == |inbox| {
            var command := ReadInbox(count, |inbox| % U32Limit);
            if !open {
              return Err(SendError(command));
            }
            sentToImap := sentToImap + [command];
            requestInflight := true;
          }
        }
      }
    }

    method Poll(recv: TryRecv) returns (outcome: PollOutcome)
      modifies this
      ensures (Current(), outcome) == PollSpec(old(Current()), recv)
    {
      outcome := KeepRunning;
      match recv
      case Received(Inbox(emails)) =>
        inbox := inbox + emails;
        requestInflight := false;
      case Received(Error(e)) =>
        outcome := Exit(Worker(e));
      case Empty =>
      case Disconnected =>
        outcome := Exit(ChannelDisconnected);
    }

    /**
     * Enter on the inbox: a selected row inside the inbox opens that email;
     * a selected row past the end is ignored; with no selection the key goes
     * on to the inbox widget.
     */
    method Enter() returns (outcome: EnterOutcome)
      ensures outcome.OpenReading? <==> selected.Some? && selected.value < |inbox|
      ensures outcome.OpenReading? ==> outcome.email == inbox[selected.value]
      ensures outcome.Ignored? <==> selected.Some? && selected.value >= |inbox|
      ensures outcome.ToInboxWidget? <==> selected.None?
    {
      if selected.Some? {
        if selected.value < |inbox| {
          return OpenReading(inbox[selected.value]);
        }
        return Ignored;
      }
      outcome := ToInboxWidget;
    }

    /**
     * `run`'s loop over the inbox state, after `load`: it polls, handles
     * Down with `load_more(5)` and lets other keys move the selection, until
     * a poll or a failed send ends it. `answered` counts `Inbox` responses.
     */
    method Run(steps: seq<Step>) returns (answered: nat, exit: Option<RunExit>)
      modifies this
      ensures Trace(Current(), answered, exit) == Replay(old(Current()), 0, steps)
    {
      answered, exit := 0, None;
      var i := 0;
      while i < |steps|
        decreases |steps| - i
        invariant 0 <= i <= |steps|
        invariant Replay(old(Current()), 0, steps) == Replay(Current(), answered, steps[i..])
      {
        assert steps[i..][1..] == steps[i + 1..];
        match steps[i] {
          case Polled(recv) =>
            var outcome := Poll(recv);
            if recv.Received? && recv.response.Inbox? {
              answered := answered + 1;
            }
            if outcome.Exit? {
              return answered, Some(Failed(outcome.error));
            }
          case DownKey(open, selectedAfter) =>
            var sent := LoadMore(PageSize, open);
            if sent.Err? {
              return answered, Some(Closed);
            }
            selected := selectedAfter;
          case OtherKey(selectedAfter) =>
            selected := selectedAfter;
        }
        i := i + 1;
      }
    }
  }

  /** From start-up, a whole session of the loop keeps at most one request outstanding. */
  lemma SessionKeepsOneOutstanding(steps: seq<Step>)
    ensures var start := LoadSpec(Initial, true).0;
      OneOutstanding(Replay(start, 0, steps).view, Replay(start, 0, steps).answered)
  {
    LoadStartsOneOutstanding();
    ReplayKeepsOneOutstanding(LoadSpec(Initial, true).0, 0, steps);
  }
}
