/**
 * `src/imap/state.rs`: the Unauthenticated/Authenticated IMAP states, the
 * in-place access-token refresh, and `read_inbox` over messages parsed with
 * `mail_parser`. The parser is a parameter; its result is the abstract
 * record `MailMessage`.
 */
module ImapState {
  import opened Wrappers
  import opened Credentials
  import opened Text
  import opened ImapCommon

  /** A `mail_parser` address: an optional display name and an optional address. */
  datatype Addr = Addr(name: Option<string>, address: Option<string>)

  /**
   * What `read_inbox` reads from a parsed message. Address headers are given
   * as their flattened list (`into_list`), whose first element is what
   * `first()` returns.
   */
  datatype MailMessage = MailMessage(
    from: Option<seq<Addr>>,
    cc: Option<seq<Addr>>,
    bcc: Option<seq<Addr>>,
    subject: Option<string>,
    date: Option<DateTime>,
    textBodies: seq<Option<string>>)

  /** `MessageParser::parse`: `None` when the bytes do not parse. */
  type Parser = seq<bv8> -> Option<MailMessage>

  // ---------------------------------------------------------------------------
  // Field extraction

  /** One address as displayed: "name (address)", just one of them, or `unknown` when it has neither. */
  function FormatAddr(a: Addr, unknown: string): (r: string)
    ensures a.name.None? && a.address.None? ==> r == unknown
    ensures a.name.None? && a.address.Some? ==> r == a.address.value
    ensures a.name.Some? && a.address.None? ==> r == a.name.value
    ensures a.name.Some? && a.address.Some? ==>
      r == a.name.value + " (" + a.address.value + ")"
  {
    match (a.name, a.address)
    case (None, None) => unknown
    case (None, Some(address)) => address
    case (Some(name), None) => name
    case (Some(name), Some(address)) => name + " (" + address + ")"
  }

  /**
   * `get_from`: "No sender" without a From header or with an empty one;
   * otherwise the first sender, displayed with "Unknown sender" as fallback.
   */
  function GetFrom(m: MailMessage): (r: string)
    ensures m.from.None? || m.from.value == [] ==> r == "No sender"
    ensures m.from.Some? && m.from.value != [] ==> r == FormatAddr(m.from.value[0], "Unknown sender")
  {
    match m.from
    case None => "No sender"
    case Some(list) => if list == [] then "No sender" else FormatAddr(list[0], "Unknown sender")
  }

  /** Every address of a list, displayed in order, with `unknown` for an address that has neither part. */
  function FormatAll(list: seq<Addr>, unknown: string): (r: seq<string>)
    ensures |r| == |list|
    ensures forall i :: 0 <= i < |list| ==> r[i] == FormatAddr(list[i], unknown)
  {
    seq(|list|, i requires 0 <= i < |list| => FormatAddr(list[i], unknown))
  }

  /** `get_cc`: no Cc header gives no entries; otherwise one entry per address, in order. */
  function GetCc(m: MailMessage): (r: seq<string>)
    ensures m.cc.None? ==> r == []
    ensures m.cc.Some? ==> |r| == |m.cc.value|
    ensures m.cc.Some? ==> forall i :: 0 <= i < |r| ==> r[i] == FormatAddr(m.cc.value[i], "Unknown CC")
  {
    match m.cc
    case None => []
    case Some(list) => FormatAll(list, "Unknown CC")
  }

  /** `get_bcc`: as `get_cc`, with "Unknown BCC" as the fallback. */
  function GetBcc(m: MailMessage): (r: seq<string>)
    ensures m.bcc.None? ==> r == []
    ensures m.bcc.Some? ==> |r| == |m.bcc.value|
    ensures m.bcc.Some? ==> forall i :: 0 <= i < |r| ==> r[i] == FormatAddr(m.bcc.value[i], "Unknown BCC")
  {
    match m.bcc
    case None => []
    case Some(list) => FormatAll(list, "Unknown BCC")
  }

  /** The text of each text part, a missing part contributing nothing. */
  function TextParts(parts: seq<Option<string>>): (r: seq<string>)
    ensures |r| == |parts|
    ensures forall i :: 0 <= i < |parts| ==> r[i] == parts[i].GetOr("")
  {
    seq(|parts|, i requires 0 <= i < |parts| => parts[i].GetOr(""))
  }

  /** The body: the text parts `0..text_body_count()` concatenated in index order. */
  function Body(m: MailMessage): string
  {
    Join(TextParts(m.textBodies), "")
  }

  /** The body holds every text part once: its length is the sum of theirs. */
  lemma BodyLength(m: MailMessage)
    ensures |Body(m)| == TotalLength(TextParts(m.textBodies))
  {
    if m.textBodies != [] {
      JoinLength(TextParts(m.textBodies), "");
    }
  }

  /** The date: the INTERNALDATE if the server gave one, else the message's Date header, else the Unix epoch. */
  function ResolveDate(internal: Option<DateTime>, header: Option<DateTime>): (d: DateTime)
    ensures internal.Some? ==> d == internal.value
    ensures internal.None? && header.Some? ==> d == header.value
    ensures internal.None? && header.None? ==> d == UnixEpoch
  {
    match internal
    case Some(date) => date
    case None => header.GetOr(UnixEpoch)
  }

  /** The email `read_inbox` pushes for a fetched message that parsed as `m`. */
  function ToEmail(f: Fetched, m: MailMessage): (e: ParsedEmail)
    ensures e.date == ResolveDate(f.internalDate, m.date)
    ensures e.from == GetFrom(m) && e.cc == GetCc(m) && e.bcc == GetBcc(m)
    ensures m.subject.Some? ==> e.subject == m.subject.value
    ensures m.subject.None? ==> e.subject == "No subject"
    ensures e.body == Body(m)
  {
    ParsedEmail(
      ResolveDate(f.internalDate, m.date),
      GetFrom(m),
      GetCc(m),
      GetBcc(m),
      m.subject.GetOr("No subject"),
      Body(m))
  }

  /** The email kept for one fetched message: none when it has no body or the body does not parse. */
  function Keep(f: Fetched, parse: Parser): (r: Option<ParsedEmail>)
    ensures r.Some? <==> f.body.Some? && parse(f.body.value).Some?
    ensures r.Some? ==> r.value == ToEmail(f, parse(f.body.value).value)
  {
    if f.body.None? then None
    else
      match parse(f.body.value)
      case None => None
      case Some(m) => Some(ToEmail(f, m))
  }

  /** `Keep` with the parser fixed, as `read_inbox` applies it to each fetched message. */
  function Keeper(parse: Parser): Fetched -> Option<ParsedEmail>
  {
    f => Keep(f, parse)
  }

  /**
   * `AuthenticatedState::read_inbox`: fetch the window and push, in fetch
   * order, an email for every message that has a body that parses.
   */
  method ReadInbox(session: Session, count: U32, offset: U32, parse: Parser)
    returns (parsedEmails: seq<ParsedEmail>)
    requires offset + count < U32Limit
    ensures parsedEmails == InboxFor(session, count, offset, Keeper(parse))
  {
    var maxUid := MaxUid(session.server.uids);
    var window := UidWindow(maxUid, count, offset);
    var messages := session.server.fetch(window.bot, window.top);
    parsedEmails := [];
    var i := 0;
    while i < |messages|
      invariant 0 <= i <= |messages|
      invariant parsedEmails == ParseBatch(messages[..i], Keeper(parse))
    {
      var message := messages[i];
      assert messages[..i + 1][..i] == messages[..i];
      if message.body.None? {
        i := i + 1;
        continue;
      }
      var parsed := parse(message.body.value);
      if parsed.None? {
        i := i + 1;
        continue;
      }
      parsedEmails := parsedEmails + [ToEmail(message, parsed.value)];
      i := i + 1;
    }
    assert messages[..i] == messages;
  }

  // ---------------------------------------------------------------------------
  // The unauthenticated state

  /** `UnauthenticatedState`: the configuration and a connected, not yet logged-in client. */
  class UnauthenticatedState {
    var config: ImapConfig
    const server: ImapServer

    constructor (config: ImapConfig, server: ImapServer)
      ensures this.config == config && this.server == server
    {
      this.config := config;
      this.server := server;
    }

    /**
     * `UnauthenticatedState::new`: connect to the configured host and port;
     * `reachable` is the server found there, `None` when the connection fails.
     */
    static method New(config: ImapConfig, reachable: Option<ImapServer>)
      returns (r: Result<UnauthenticatedState, ConnectError>)
      ensures r.Err? <==> reachable.None?
      ensures r.Ok? ==> fresh(r.value) && r.value.config == config && r.value.server == reachable.value
    {
      if reachable.None? {
        return Err(ConnectFailed);
      }
      var state := new UnauthenticatedState(config, reachable.value);
      return Ok(state);
    }

    /**
     * `authenticate`: LOGIN with a password, AUTHENTICATE XOAUTH2 with OAuth
     * credentials; a session exactly when the server accepts them. On
     * failure the state, configuration included, is handed back untouched.
     */
    method Authenticate() returns (r: Result<Session, LoginError>)
      ensures r.Ok? <==> Accepts(server, config.login, config.auth)
      ensures r.Ok? ==> r.value.server == server
    {
      match config.auth
      case Password(raw) =>
        if server.acceptsLogin(config.login, raw) {
          return Ok(Session(server));
        }
        return Err(LoginRejected);
      case OAuth(oauthConfig) =>
        var authenticator := ImapOAuth.OAuthConfigWithUser(config.login, oauthConfig);
        if server.acceptsXoauth2(ImapOAuth.Process(authenticator, [])) {
          return Ok(Session(server));
        }
        return Err(LoginRejected);
    }

    /**
     * `refresh_oauth_token`: a successful no-op for a password; otherwise one
     * refresh-token grant, whose new access token replaces the old one in
     * place. A failed grant changes nothing.
     */
    method RefreshOAuthToken(grant: Grant) returns (r: Result<Unit, string>)
      modifies this
      ensures config == old(config).(auth := Refreshed(old(config).auth, grant))
      ensures r.Ok? <==> RefreshSucceeds(old(config).auth, grant)
      ensures r.Err? ==> grant.GrantFailed? && r.error == grant.reason
    {
      if config.auth.Password? {
        return Ok(Unit);
      }
      match grant
      case Granted(accessToken) =>
        config := config.(auth := OAuth(config.auth.oauth.(accessToken := accessToken)));
        return Ok(Unit);
      case GrantFailed(reason) =>
        return Err(reason);
    }
  }
}
