/**
 * `src/imap/mod.rs`: the IMAP worker thread of the current client. It
 * connects, logs in once (no refresh: a rejected login is reported and ends
 * the thread, whatever its comment says), then answers every `ReadInbox`
 * command with exactly one response, an `Inbox` or an `Error`, until the
 * front end drops either end of the channel.
 */
module ImapWorker {
  import opened Wrappers
  import opened Credentials
  import opened Channels
  import opened ImapCommon
  import ImapState

  /** The `ParsedEmail` this version sends: the shared record plus the message's UID. */
  datatype Email = Email(uid: U32, date: DateTime, from: string, cc: seq<string>, bcc: seq<string>, subject: string, body: string)

  datatype Command = ReadInbox(count: U32, offset: U32)

  datatype WorkerError = ConnectionFailed | LoginFailed | ReadFailed(reason: string)

  datatype Response = Inbox(emails: seq<Email>) | Error(error: WorkerError)

  /**
   * The `read_inbox` this worker calls returns a `Result`; it is not the
   * infallible one of `src/imap/state.rs`, so it is a parameter here.
   */
  type InboxReader = (U32, U32) -> Result<seq<Email>, string>

  /** The one response a command gets: its emails, or the read error. */
  function ResponseFor(readInbox: InboxReader, command: Command): (r: Response)
    ensures r.Inbox? <==> readInbox(command.count, command.offset).Ok?
    ensures r.Inbox? ==> r.emails == readInbox(command.count, command.offset).value
    ensures r.Error? ==> r.error == ReadFailed(readInbox(command.count, command.offset).error)
  {
    match readInbox(command.count, command.offset)
    case Ok(emails) => Inbox(emails)
    case Err(reason) => Error(ReadFailed(reason))
  }

  /**
   * `imap_thread`: `Err` only when the connection fails, before any channel
   * activity. A rejected login sends one error and returns `Ok` without
   * receiving anything. Logged in, every received command gets exactly one
   * response, a failed read included, and the loop ends when a receive or a
   * send fails. `logins` counts login attempts.
   */
  method ImapThread(config: ImapConfig, reachable: Option<ImapServer>, readInbox: InboxReader, peer: Peer<Command>)
    returns (result: Result<Unit, WorkerError>, logins: nat, received: nat, sent: seq<Response>)
    ensures result.Err? <==> reachable.None?
    ensures reachable.None? ==> result == Err(ConnectionFailed) && logins == 0 && received == 0 && sent == []
    ensures reachable.Some? ==> logins == 1
    ensures reachable.Some? && !Accepts(reachable.value, config.login, config.auth) ==>
      received == 0 && sent == [Error(LoginFailed)]
    ensures reachable.Some? && Accepts(reachable.value, config.login, config.auth) ==>
      && received == Attempted(peer)
      && |sent| == Attempted(peer)
      && forall i :: 0 <= i < |sent| ==> sent[i] == ResponseFor(readInbox, peer.commands[i])
  {
    logins, received, sent := 0, 0, [];
    var state := ImapState.UnauthenticatedState.New(config, reachable);
    if state.Err? {
      return Err(ConnectionFailed), logins, received, sent;
    }
    logins := 1;
    var session := state.value.Authenticate();
    if session.Err? {
      sent := [Error(LoginFailed)];
      return Ok(Unit), logins, received, sent;
    }

    while received < |peer.commands|
      invariant received <= |peer.commands| && received <= peer.capacity
      invariant |sent| == received
      invariant forall i :: 0 <= i < |sent| ==> sent[i] == ResponseFor(readInbox, peer.commands[i])
    {
      var message := peer.commands[received];
      received := received + 1;
      var emails := readInbox(message.count, message.offset);
      if emails.Err? {
        sent := sent + [Error(ReadFailed(emails.error))];
        if |sent| > peer.capacity {
          break;
        }
        continue;
      }
      sent := sent + [Inbox(emails.value)];
      if |sent| > peer.capacity {
        break;
      }
    }
    result := Ok(Unit);
  }
}
