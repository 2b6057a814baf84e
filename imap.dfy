/**
 * `src/imap.rs`: the single-file IMAP snapshot. Its `UnauthenticatedState`
 * (login, refresh) is the same code as `src/imap/state.rs` and is modelled
 * there; this module holds what differs: `read_inbox` over `mailparse`
 * headers, its own XOAUTH2 formatter, and `imap_thread`, which retries an
 * OAuth login once after one refresh and then serves one `Inbox` response
 * per `ReadInbox` command.
 */
module Imap {
  import opened Wrappers
  import opened Credentials
  import opened Text
  import opened Channels
  import opened ImapCommon
  import ImapOAuth
  import ImapState

  // ---------------------------------------------------------------------------
  // read_inbox over mailparse

  /** One header line of a parsed mail: its name and its decoded value. */
  datatype Header = Header(key: string, value: string)

  /**
   * What `read_inbox` reads from a `mailparse::parse_mail` result: the
   * headers, in order, and what `get_body` gives, `None` where it fails to
   * decode the body (a transfer or charset encoding it cannot undo).
   */
  datatype ParsedMail = ParsedMail(headers: seq<Header>, body: Option<string>)

  /**
   * The libraries `read_inbox` calls: `parse_mail` (`None` for an error),
   * `dateparse` (`None` for an error) and `DateTime::from_timestamp`
   * (`None` out of range).
   */
  datatype MailLibs = MailLibs(
    parseMail: seq<bv8> -> Option<ParsedMail>,
    dateparse: string -> Option<int>,
    fromTimestamp: int -> Option<DateTime>)

  /** `get_all_values(key)`: the values of every header named `key`, ignoring ASCII case, in order. */
  function GetAllValues(headers: seq<Header>, key: string): (r: seq<string>)
    ensures |r| <= |headers|
    ensures forall i :: 0 <= i < |r| ==>
      exists j :: 0 <= j < |headers| && EqIgnoreAsciiCase(headers[j].key, key) && headers[j].value == r[i]
    ensures r == [] <==> forall j :: 0 <= j < |headers| ==> !EqIgnoreAsciiCase(headers[j].key, key)
    decreases |headers|
  {
    if headers == [] then []
    else
      var rest := GetAllValues(headers[1..], key);
      if EqIgnoreAsciiCase(headers[0].key, key) then [headers[0].value] + rest else rest
  }

  /** `get_first_value(key)`: the value of the first header named `key`, ignoring ASCII case. */
  function GetFirstValue(headers: seq<Header>, key: string): Option<string>
    decreases |headers|
  {
    if headers == [] then None
    else if EqIgnoreAsciiCase(headers[0].key, key) then Some(headers[0].value)
    else GetFirstValue(headers[1..], key)
  }

  /** The first value is the head of all values, and there is none exactly when there are no values. */
  lemma {:induction false} FirstOfAllValues(headers: seq<Header>, key: string)
    ensures GetFirstValue(headers, key).None? <==> GetAllValues(headers, key) == []
    ensures GetFirstValue(headers, key).Some? ==>
      GetFirstValue(headers, key).value == GetAllValues(headers, key)[0]
    decreases |headers|
  {
    if headers != [] {
      FirstOfAllValues(headers[1..], key);
    }
  }

  /**
   * The date: the INTERNALDATE if present; otherwise the first Received
   * header run through `dateparse` (0 when that fails) and
   * `from_timestamp`; the Unix epoch when there is no Received header or the
   * timestamp is out of range.
   */
  function ResolveDate(internal: Option<DateTime>, headers: seq<Header>, libs: MailLibs): (d: DateTime)
    ensures internal.Some? ==> d == internal.value
    ensures internal.None? && GetFirstValue(headers, "Received").None? ==> d == UnixEpoch
    ensures internal.None? && GetFirstValue(headers, "Received").Some? ==>
      var ts := libs.dateparse(GetFirstValue(headers, "Received").value).GetOr(0);
      d == libs.fromTimestamp(ts).GetOr(UnixEpoch)
  {
    match internal
    case Some(date) => date
    case None =>
      match GetFirstValue(headers, "Received")
      case None => UnixEpoch
      case Some(received) => libs.fromTimestamp(libs.dateparse(received).GetOr(0)).GetOr(UnixEpoch)
  }

  /** The email pushed for a message that parsed and whose body decodes: From defaults to "", Subject to "No subject". */
  function ToEmail(f: Fetched, mail: ParsedMail, libs: MailLibs): (e: ParsedEmail)
    requires mail.body.Some?
    ensures e.from == GetFirstValue(mail.headers, "From").GetOr("")
    ensures e.cc == GetAllValues(mail.headers, "Cc") && e.bcc == GetAllValues(mail.headers, "Bcc")
    ensures e.subject == GetFirstValue(mail.headers, "Subject").GetOr("No subject")
    ensures e.body == mail.body.value
  {
    ParsedEmail(
      ResolveDate(f.internalDate, mail.headers, libs),
      GetFirstValue(mail.headers, "From").GetOr(""),
      GetAllValues(mail.headers, "Cc"),
      GetAllValues(mail.headers, "Bcc"),
      GetFirstValue(mail.headers, "Subject").GetOr("No subject"),
      mail.body.value)
  }

  /**
   * Whether `get_body().unwrap()` passes on a fetched message: it is reached
   * only for a message with a body that `parse_mail` accepts, and panics when
   * that body does not decode.
   */
  predicate BodyDecodes(f: Fetched, libs: MailLibs)
  {
    f.body.Some? && libs.parseMail(f.body.value).Some? ==> libs.parseMail(f.body.value).value.body.Some?
  }

  /** Whether `read_inbox` gets through the window of (`count`, `offset`) without panicking. */
  predicate WindowDecodes(session: Session, count: U32, offset: U32, libs: MailLibs)
    requires offset + count < U32Limit
  {
    var w := UidWindow(MaxUid(session.server.uids), count, offset);
    var messages := session.server.fetch(w.bot, w.top);
    forall i :: 0 <= i < |messages| ==> BodyDecodes(messages[i], libs)
  }

  /**
   * The email kept for one fetched message: none when it has no body or
   * `parse_mail` fails. A body that does not decode never gets here:
   * `read_inbox` panics on it first, so the `None` given for it is never used.
   */
  function Keep(f: Fetched, libs: MailLibs): (r: Option<ParsedEmail>)
    ensures r.Some? <==>
      f.body.Some? && libs.parseMail(f.body.value).Some? && libs.parseMail(f.body.value).value.body.Some?
    ensures r.Some? ==> r.value == ToEmail(f, libs.parseMail(f.body.value).value, libs)
  {
    if f.body.None? then None
    else
      match libs.parseMail(f.body.value)
      case None => None
      case Some(mail) => if mail.body.None? then None else Some(ToEmail(f, mail, libs))
  }

  /** `Keep` with the libraries fixed, as `read_inbox` applies it to each fetched message. */
  function Keeper(libs: MailLibs): Fetched -> Option<ParsedEmail>
  {
    f => Keep(f, libs)
  }

  /**
   * `AuthenticatedState::read_inbox`: fetch the window and push, in fetch
   * order, an email for every message with a body that `parse_mail` accepts.
   * `None` stands for the panic of `get_body().unwrap()` on a body that does
   * not decode: the thread ends there without an answer.
   */
  method ReadInbox(session: Session, count: U32, offset: U32, libs: MailLibs)
    returns (r: Option<seq<ParsedEmail>>)
    requires offset + count < U32Limit
    ensures r.None? <==> !WindowDecodes(session, count, offset, libs)
    ensures r.Some? ==> r.value == InboxFor(session, count, offset, Keeper(libs))
  {
    var window := UidWindow(MaxUid(session.server.uids), count, offset);
    var messages := session.server.fetch(window.bot, window.top);
    var parsedEmails := [];
    for i := 0 to |messages|
      invariant parsedEmails == ParseBatch(messages[..i], Keeper(libs))
      invariant forall j :: 0 <= j < i ==> BodyDecodes(messages[j], libs)
    {
      assert messages[..i + 1][..i] == messages[..i];
      var message := messages[i];
      if message.body.None? {
        continue;
      }
      var parsed := libs.parseMail(message.body.value);
      if parsed.None? {
        continue;
      }
      if parsed.value.body.None? {
        assert !BodyDecodes(messages[i], libs);
        return None;
      }
      parsedEmails := parsedEmails + [ToEmail(message, parsed.value, libs)];
    }
    assert messages[..|messages|] == messages;
    return Some(parsedEmails);
  }

  // ---------------------------------------------------------------------------
  // The XOAUTH2 formatter of this snapshot

  datatype OAuthConfigWithUser = OAuthConfigWithUser(user: string, config: OAuthConfig)

  /** `process`: the same response as `src/imap/oauth.rs` gives, whatever the challenge. */
  function Process(a: OAuthConfigWithUser, challenge: seq<bv8>): (r: string)
    ensures forall other: seq<bv8> ::
      r == ImapOAuth.Process(ImapOAuth.OAuthConfigWithUser(a.user, a.config), other)
  {
    "user=" + a.user + [ImapOAuth.Soh] + "auth=Bearer " + a.config.accessToken
      + [ImapOAuth.Soh, ImapOAuth.Soh]
  }

  // ---------------------------------------------------------------------------
  // imap_thread

  datatype ReadMessage = ReadInbox(count: U32, offset: U32)

  /** Why the thread gave up before serving commands. */
  datatype ImapError = LoginFailed | RefreshFailed(reason: string)

  datatype Response = Inbox(emails: seq<ParsedEmail>) | Error(error: ImapError)

  /** How `imap_thread` returned. */
  datatype ThreadExit = AuthGaveUp | Served(loopExit: LoopExit)

  /** The credentials the thread's second login uses, after one refresh with `grant`. */
  function RetryAuth(config: ImapConfig, grant: Grant): (r: Auth)
    ensures config.auth.Password? || grant.GrantFailed? ==> r == config.auth
    ensures config.auth.OAuth? && grant.Granted? ==> r == OAuth(config.auth.oauth.(accessToken := grant.accessToken))
  {
    Refreshed(config.auth, grant)
  }

  /** Whether the thread logs in at all: first try, or for OAuth a successful refresh and an accepted retry. */
  predicate LogsIn(config: ImapConfig, server: ImapServer, grant: Grant)
    ensures config.auth.Password? || grant.GrantFailed? ==>
      (LogsIn(config, server, grant) <==> Accepts(server, config.login, config.auth))
    ensures Accepts(server, config.login, config.auth) ==> LogsIn(config, server, grant)
  {
    || Accepts(server, config.login, config.auth)
    || (config.auth.OAuth? && grant.Granted? && Accepts(server, config.login, RetryAuth(config, grant)))
  }

  /**
   * The login of `imap_thread`: authenticate; with a password a rejection is
   * final; with OAuth a rejection leads to one refresh (a failed refresh is
   * final) and one more attempt with the refreshed credentials. `authCalls`
   * lists the credentials of each attempt and `refreshes` counts refreshes.
   */
  method LogIn(config: ImapConfig, server: ImapServer, grant: Grant)
    returns (authCalls: seq<Auth>, refreshes: nat, r: Result<Session, ImapError>)
    ensures 1 <= |authCalls| <= 2 && authCalls[0] == config.auth && refreshes <= 1
    ensures |authCalls| == 2 ==> authCalls[1] == RetryAuth(config, grant)
    ensures r.Ok? <==> LogsIn(config, server, grant)
    ensures r.Ok? ==> r.value == Session(server)
    ensures config.auth.Password? && !Accepts(server, config.login, config.auth) ==>
      authCalls == [config.auth] && refreshes == 0 && r == Err(LoginFailed)
    ensures config.auth.OAuth? && !Accepts(server, config.login, config.auth) ==> refreshes == 1
    ensures config.auth.OAuth? && !Accepts(server, config.login, config.auth) && grant.GrantFailed? ==>
      authCalls == [config.auth] && r == Err(RefreshFailed(grant.reason))
    ensures config.auth.OAuth? && !Accepts(server, config.login, config.auth) && grant.Granted? ==>
      |authCalls| == 2
    ensures r.Err? && grant.Granted? ==> r == Err(LoginFailed)
  {
    var client := new ImapState.UnauthenticatedState(config, server);
    authCalls, refreshes := [config.auth], 0;
    var first := client.Authenticate();
    if first.Ok? {
      return authCalls, refreshes, Ok(first.value);
    }
    if client.config.auth.Password? {
      return authCalls, refreshes, Err(LoginFailed);
    }
    refreshes := 1;
    var refreshed := client.RefreshOAuthToken(grant);
    if refreshed.Err? {
      return authCalls, refreshes, Err(RefreshFailed(refreshed.error));
    }
    authCalls := authCalls + [client.config.auth];
    var second := client.Authenticate();
    if second.Err? {
      return authCalls, refreshes, Err(LoginFailed);
    }
    return authCalls, refreshes, Ok(second.value);
  }

  /**
   * `imap_thread`: log in; if that fails with a password, report one error
   * and stop; with OAuth, refresh once (a failed refresh is reported and
   * ends the thread) and log in once more (a second failure is reported and
   * ends it). Once logged in, receive commands one at a time and send one
   * `Inbox` response for each, in order, until a receive or a send fails.
   * `authCalls` lists the credentials of each login attempt, `refreshes`
   * counts refresh attempts, `received` counts commands received and `sent`
   * lists every response handed to the channel, in order.
   */
  method ImapThread(config: ImapConfig, server: ImapServer, grant: Grant, libs: MailLibs, peer: Peer<ReadMessage>)
    returns (authCalls: seq<Auth>, refreshes: nat, received: nat, sent: seq<Response>, exit: ThreadExit)
    requires forall i :: 0 <= i < |peer.commands| ==> peer.commands[i].offset + peer.commands[i].count < U32Limit
    requires forall i :: 0 <= i < Attempted(peer) && i < |peer.commands| ==>
      WindowDecodes(Session(server), peer.commands[i].count, peer.commands[i].offset, libs)
    ensures 1 <= |authCalls| <= 2 && authCalls[0] == config.auth && refreshes <= 1
    ensures |authCalls| == 2 ==> authCalls[1] == RetryAuth(config, grant)
    // a password login that fails: one error, no refresh, thread over
    ensures config.auth.Password? && !Accepts(server, config.login, config.auth) ==>
      authCalls == [config.auth] && refreshes == 0 && received == 0
      && sent == [Error(LoginFailed)] && exit == AuthGaveUp
    // an OAuth login that fails: exactly one refresh
    ensures config.auth.OAuth? && !Accepts(server, config.login, config.auth) ==> refreshes == 1
    ensures config.auth.OAuth? && !Accepts(server, config.login, config.auth) && grant.GrantFailed? ==>
      authCalls == [config.auth] && received == 0
      && sent == [Error(RefreshFailed(grant.reason))] && exit == AuthGaveUp
    ensures config.auth.OAuth? && !Accepts(server, config.login, config.auth) && grant.Granted? ==>
      |authCalls| == 2
    ensures !LogsIn(config, server, grant) && grant.Granted? ==>
      received == 0 && sent == [Error(LoginFailed)] && exit == AuthGaveUp
    // logged in: one Inbox response per command, in command order
    ensures LogsIn(config, server, grant) ==>
      && exit == Served(ExitOf(peer))
      && received == Attempted(peer)
      && |sent| == Attempted(peer)
      && forall i :: 0 <= i < |sent| ==>
           sent[i] == Inbox(InboxFor(Session(server), peer.commands[i].count, peer.commands[i].offset, Keeper(libs)))
  {
    var login: Result<Session, ImapError>;
    authCalls, refreshes, login := LogIn(config, server, grant);
    received := 0;
    if login.Err? {
      sent := [Error(login.error)];
      return authCalls, refreshes, received, sent, AuthGaveUp;
    }
    var session := login.value;
    var loopExit: LoopExit;
    received, sent, loopExit := Serve(session, libs, peer);
    exit := Served(loopExit);
  }

  /**
   * The serving loop of `imap_thread`: receive a command, read the inbox
   * window it names and send one `Inbox` response, until a receive fails
   * (no commands left) or a send fails (the receiver is gone).
   */
  method Serve(session: Session, libs: MailLibs, peer: Peer<ReadMessage>)
    returns (received: nat, sent: seq<Response>, loopExit: LoopExit)
    requires forall i :: 0 <= i < |peer.commands| ==> peer.commands[i].offset + peer.commands[i].count < U32Limit
    requires forall i :: 0 <= i < Attempted(peer) && i < |peer.commands| ==>
      WindowDecodes(session, peer.commands[i].count, peer.commands[i].offset, libs)
    ensures loopExit == ExitOf(peer) && received == Attempted(peer) && |sent| == Attempted(peer)
    ensures forall i :: 0 <= i < |sent| ==>
      sent[i] == Inbox(InboxFor(session, peer.commands[i].count, peer.commands[i].offset, Keeper(libs)))
  {
    received, sent, loopExit := 0, [], SenderDropped;
    while received < |peer.commands|
      invariant received <= |peer.commands| && received <= peer.capacity
      invariant |sent| == received
      invariant forall i :: 0 <= i < |sent| ==>
        sent[i] == Inbox(InboxFor(session, peer.commands[i].count, peer.commands[i].offset, Keeper(libs)))
    {
      var message := peer.commands[received];
      received := received + 1;
      var emails := ReadInbox(session, message.count, message.offset, libs);
      sent := sent + [Inbox(emails.value)];
      if |sent| > peer.capacity {
        loopExit := ReceiverDropped;
        break;
      }
    }
  }
}
