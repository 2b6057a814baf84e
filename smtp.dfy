/**
 * `src/smtp/mod.rs`: turning the composer's partial message into a mail,
 * the SMTP client whose `send` retries once after refreshing the OAuth
 * access token when the server answers 535 (section 6 of RFC 4954: the
 * credentials are invalid), and the worker loop that answers each
 * `SendMail` command. Address parsing, the relay builder and the transport
 * are library calls, given here as the fields of `SmtpEnv`.
 */
module Smtp {
  import opened Wrappers
  import opened Credentials
  import opened Channels

  // ---------------------------------------------------------------------------
  // Messages

  /** A parsed `lettre::Address`: the local part and the domain. */
  datatype Address = Address(user: string, domain: string)

  /** Why a text is not an address (`lettre::address::AddressError`). */
  datatype AddressError = AddressError(reason: string)

  /** `str::parse::<Address>`. */
  type AddressParser = string -> Result<Address, AddressError>

  /** A `lettre` mailbox: an optional display name and an address. */
  datatype Mailbox = Mailbox(name: Option<string>, email: Address)

  /** What the composer hands to the SMTP worker. */
  datatype PartialMessage = PartialMessage(
    to: Option<Address>,
    cc: seq<Address>,
    bcc: seq<Address>,
    subject: Option<string>,
    body: Option<string>)

  datatype ContentType = TextPlain

  /** A built `lettre::Message`, as far as this client sets its headers. */
  datatype Message = Message(
    from: Mailbox,
    subject: string,
    contentType: ContentType,
    to: seq<Mailbox>,
    cc: seq<Mailbox>,
    bcc: seq<Mailbox>,
    body: string)

  /** `lettre`'s builder refuses a message without any recipient (its envelope needs one). */
  datatype BuildError = MissingTo

  /** Each address as a mailbox without a display name (`Address::into`). */
  function Mailboxes(addrs: seq<Address>): (r: seq<Mailbox>)
    ensures |r| == |addrs|
    ensures forall i :: 0 <= i < |addrs| ==> r[i] == Mailbox(None, addrs[i])
  {
    seq(|addrs|, i requires 0 <= i < |addrs| => Mailbox(None, addrs[i]))
  }

  /**
   * `PartialMessage::to_message`: From is the login address without a
   * display name, Subject and body default to "", the content type is plain
   * text, To is set only when present, and Cc and Bcc keep their order. The
   * final `body` call is the only one that can fail, which it does when the
   * message has no recipient at all.
   */
  function ToMessage(p: PartialMessage, from: Address): (r: Result<Message, BuildError>)
    ensures r.Err? <==> p.to.None? && p.cc == [] && p.bcc == []
    ensures r.Ok? ==> r.value.from == Mailbox(None, from) && r.value.contentType == TextPlain
  {
    var to := if p.to.Some? then [Mailbox(None, p.to.value)] else [];
    var draft := Message(Mailbox(None, from), p.subject.GetOr(""), TextPlain, to, Mailboxes(p.cc), Mailboxes(p.bcc), p.body.GetOr(""));
    if draft.to == [] && draft.cc == [] && draft.bcc == [] then Err(MissingTo) else Ok(draft)
  }

  /** The partial message a built message carries, read back from its headers. */
  function Recover(m: Message): PartialMessage
  {
    PartialMessage(
      if m.to == [] then None else Some(m.to[0].email),
      seq(|m.cc|, i requires 0 <= i < |m.cc| => m.cc[i].email),
      seq(|m.bcc|, i requires 0 <= i < |m.bcc| => m.bcc[i].email),
      Some(m.subject),
      Some(m.body))
  }

  /**
   * Nothing of the partial message is lost or reordered: reading the built
   * message back gives it again, with the absent subject and body as "".
   */
  lemma ToMessageRecovers(p: PartialMessage, from: Address)
    requires ToMessage(p, from).Ok?
    ensures Recover(ToMessage(p, from).value) == p.(subject := Some(p.subject.GetOr("")), body := Some(p.body.GetOr("")))
  {
    var m := ToMessage(p, from).value;
    assert Recover(m).cc == p.cc;
    assert Recover(m).bcc == p.bcc;
  }

  // ---------------------------------------------------------------------------
  // Transports

  /** SASL mechanisms `lettre` offers. */
  datatype Mechanism = Plain | Login | Xoauth2

  /** An SMTP relay transport: the host, the mechanisms it may use and the (user, secret) credentials. */
  datatype Transport = Transport(host: string, mechanisms: seq<Mechanism>, user: string, secret: string)

  /** A reply code's three digits (section 4.2.1 of RFC 5321). */
  datatype Code = Code(severity: nat, category: nat, detail: nat)

  /** 535: permanent negative completion, category 3, detail 5 (authentication credentials invalid). */
  const AuthenticationFailed: Code := Code(5, 3, 5)

  /** A failed `transport.send`, with the server's reply code when there was one. */
  datatype TransportError = TransportError(status: Option<Code>)

  /**
   * The libraries the client calls: `Address` parsing, whether
   * `SmtpTransport::relay` accepts a host, and what `transport.send` does with
   * a message on a transport.
   */
  datatype SmtpEnv = SmtpEnv(
    parseAddress: AddressParser,
    relayOk: string -> bool,
    deliver: (Transport, Message) -> Result<Unit, TransportError>)

  datatype Error =
    | InvalidLogin(address: AddressError)
    | Build(build: BuildError)
    | SendFailed(cause: TransportError)
    | TokenRefresh(reason: string)
    | Relay

  /** The transport `refresh_oauth_access_token` builds: XOAUTH2 with the login and the current access token. */
  function XoauthTransport(config: SmtpConfig): (t: Transport)
    requires config.auth.OAuth?
    ensures t.mechanisms == [Xoauth2] && t.secret == config.auth.oauth.accessToken
  {
    Transport(config.host, [Xoauth2], config.login, config.auth.oauth.accessToken)
  }

  /**
   * The transport `Client::new` builds AS WRITTEN: a password goes with
   * XOAUTH2 and OAuth credentials with PLAIN, the reverse of what each needs.
   */
  function InitialTransportAsWritten(config: SmtpConfig): (t: Transport)
    ensures t.host == config.host && t.user == config.login
    ensures config.auth.Password? ==> t.mechanisms == [Xoauth2] && t.secret == config.auth.raw
    ensures config.auth.OAuth? ==> t.mechanisms == [Plain] && t.secret == config.auth.oauth.accessToken
  {
    match config.auth
    case Password(raw) => Transport(config.host, [Xoauth2], config.login, raw)
    case OAuth(c) => Transport(config.host, [Plain], config.login, c.accessToken)
  }

  /**
   * As written, a password is offered as an XOAUTH2 bearer token, and the
   * same OAuth access token is offered with PLAIN before a refresh and with
   * XOAUTH2 after one.
   */
  lemma InitialMechanismSwapped(config: SmtpConfig)
    ensures config.auth.Password? ==>
      InitialTransportAsWritten(config).mechanisms == [Xoauth2]
      && InitialTransportAsWritten(config).secret == config.auth.raw
    ensures config.auth.OAuth? ==>
      InitialTransportAsWritten(config).secret == XoauthTransport(config).secret
      && InitialTransportAsWritten(config).mechanisms != XoauthTransport(config).mechanisms
  {
  }

  /**
   * The transport `Client::new` evidently means to build: PLAIN with the
   * password, XOAUTH2 with the access token, the latter being exactly what a
   * refresh rebuilds.
   */
  function InitialTransport(config: SmtpConfig): (t: Transport)
    ensures t.host == config.host && t.user == config.login
    ensures config.auth.Password? ==> t.mechanisms == [Plain] && t.secret == config.auth.raw
    ensures config.auth.OAuth? ==> t == XoauthTransport(config)
  {
    match config.auth
    case Password(raw) => Transport(config.host, [Plain], config.login, raw)
    case OAuth(_) => XoauthTransport(config)
  }

  // ---------------------------------------------------------------------------
  // The client, specified on values

  /** The client's state and the outcome of a call. */
  datatype Outcome = Outcome(result: Result<Unit, Error>, config: SmtpConfig, transport: Transport)

  /**
   * `refresh_oauth_access_token` on values: nothing to do for a password; a
   * failed grant changes nothing; a granted token is stored first, and the
   * transport is replaced by an XOAUTH2 one only if the relay builds, so a
   * relay failure keeps the new token with the old transport.
   */
  function RefreshOutcome(config: SmtpConfig, transport: Transport, env: SmtpEnv, grant: Grant): (o: Outcome)
    ensures o.result.Ok? <==> RefreshSucceeds(config.auth, grant) && (config.auth.OAuth? ==> env.relayOk(config.host))
    ensures o.config == config.(auth := Refreshed(config.auth, grant))
    ensures o.transport == transport || (o.result.Ok? && o.config.auth.OAuth? && o.transport == XoauthTransport(o.config))
    ensures config.auth.OAuth? && o.result.Ok? ==> o.transport == InitialTransport(o.config)
    ensures grant.GrantFailed? ==> o.transport == transport
  {
    match config.auth
    case Password(_) => Outcome(Ok(Unit), config, transport)
    case OAuth(c) =>
      match grant
      case GrantFailed(reason) => Outcome(Err(TokenRefresh(reason)), config, transport)
      case Granted(token) =>
        var config' := config.(auth := OAuth(c.(accessToken := token)));
        if env.relayOk(config.host) then Outcome(Ok(Unit), config', XoauthTransport(config'))
        else Outcome(Err(Relay), config', transport)
  }

  /**
   * A refresh keeps the corrected transport's mechanism, XOAUTH2, whatever
   * the grant and the relay do; as written, a successful refresh switches an
   * OAuth client from PLAIN to XOAUTH2.
   */
  lemma RefreshSwitchesMechanism(config: SmtpConfig, env: SmtpEnv, grant: Grant)
    requires config.auth.OAuth?
    ensures RefreshOutcome(config, InitialTransport(config), env, grant).transport.mechanisms == [Xoauth2]
    ensures RefreshOutcome(config, InitialTransportAsWritten(config), env, grant).result.Ok? ==>
      RefreshOutcome(config, InitialTransportAsWritten(config), env, grant).transport.mechanisms
        != InitialTransportAsWritten(config).mechanisms
  {
  }

  /** What one `send` call did: its outcome and the transports it handed the message to, in order. */
  datatype SendRecord = SendRecord(outcome: Outcome, deliveries: seq<Transport>)

  /**
   * `Client::send` on values: an unparsable login or a message that does not
   * build fails before any delivery; otherwise one delivery, and a second one
   * only after a 535 reply with OAuth credentials and a successful refresh.
   */
  function SendSpec(config: SmtpConfig, transport: Transport, env: SmtpEnv, message: PartialMessage, grant: Grant): (s: SendRecord)
    ensures |s.deliveries| <= 2
    ensures env.parseAddress(config.login).Err? ==>
      s == SendRecord(Outcome(Err(InvalidLogin(env.parseAddress(config.login).error)), config, transport), [])
    ensures |s.deliveries| >= 1 ==> s.deliveries[0] == transport
    ensures |s.deliveries| == 2 ==>
      && config.auth.OAuth?
      && grant.Granted?
      && env.parseAddress(config.login).Ok?
      && ToMessage(message, env.parseAddress(config.login).value).Ok?
      && var m := ToMessage(message, env.parseAddress(config.login).value).value;
         && env.deliver(transport, m).Err?
         && env.deliver(transport, m).error.status == Some(AuthenticationFailed)
         && s.outcome.config.auth.OAuth?
         && s.deliveries[1] == XoauthTransport(s.outcome.config)
    ensures |s.deliveries| < 2 ==> s.outcome.transport == transport
    ensures |s.deliveries| == 2 ==> s.outcome.transport == s.deliveries[1]
    ensures config.auth.Password? ==> s.outcome.config == config
  {
    match env.parseAddress(config.login)
    case Err(e) => SendRecord(Outcome(Err(InvalidLogin(e)), config, transport), [])
    case Ok(from) =>
      match ToMessage(message, from)
      case Err(e) => SendRecord(Outcome(Err(Build(e)), config, transport), [])
      case Ok(m) =>
        match env.deliver(transport, m)
        case Ok(_) => SendRecord(Outcome(Ok(Unit), config, transport), [transport])
        case Err(first) =>
          if first.status != Some(AuthenticationFailed) || config.auth.Password? then
            SendRecord(Outcome(Err(SendFailed(first)), config, transport), [transport])
          else
            var refresh := RefreshOutcome(config, transport, env, grant);
            if refresh.result.Err? then
              SendRecord(refresh, [transport])
            else
              match env.deliver(refresh.transport, m)
              case Ok(_) => SendRecord(Outcome(Ok(Unit), refresh.config, refresh.transport), [transport, refresh.transport])
              case Err(second) =>
                SendRecord(Outcome(Err(SendFailed(second)), refresh.config, refresh.transport), [transport, refresh.transport])
  }

  /** A first delivery that succeeds ends the call: no refresh, no second delivery, nothing changed. */
  lemma FirstDeliverySucceeds(config: SmtpConfig, transport: Transport, env: SmtpEnv, message: PartialMessage, grant: Grant, from: Address)
    requires env.parseAddress(config.login) == Ok(from)
    requires ToMessage(message, from).Ok?
    requires env.deliver(transport, ToMessage(message, from).value).Ok?
    ensures SendSpec(config, transport, env, message, grant) == SendRecord(Outcome(Ok(Unit), config, transport), [transport])
  {
  }

  /** With a password, or any reply but 535, the first delivery's error is the call's error. */
  lemma NoRetryWithoutAuthFailure(config: SmtpConfig, transport: Transport, env: SmtpEnv, message: PartialMessage, grant: Grant, from: Address)
    requires env.parseAddress(config.login) == Ok(from)
    requires ToMessage(message, from).Ok?
    requires env.deliver(transport, ToMessage(message, from).value).Err?
    requires config.auth.Password? || env.deliver(transport, ToMessage(message, from).value).error.status != Some(AuthenticationFailed)
    ensures SendSpec(config, transport, env, message, grant)
      == SendRecord(Outcome(Err(SendFailed(env.deliver(transport, ToMessage(message, from).value).error)), config, transport), [transport])
  {
  }

  /** A refresh that fails after a 535 reply is the call's error, and the message is not sent again. */
  lemma FailedRefreshStops(config: SmtpConfig, transport: Transport, env: SmtpEnv, message: PartialMessage, grant: Grant, from: Address)
    requires env.parseAddress(config.login) == Ok(from)
    requires ToMessage(message, from).Ok?
    requires env.deliver(transport, ToMessage(message, from).value).Err?
    requires env.deliver(transport, ToMessage(message, from).value).error.status == Some(AuthenticationFailed)
    requires config.auth.OAuth?
    requires RefreshOutcome(config, transport, env, grant).result.Err?
    ensures SendSpec(config, transport, env, message, grant).deliveries == [transport]
    ensures SendSpec(config, transport, env, message, grant).outcome == RefreshOutcome(config, transport, env, grant)
  {
  }

  /**
   * A 535 reply with OAuth credentials and a refresh that succeeds is followed
   * by exactly one more delivery, on the refreshed transport; its result is
   * the call's result, and the client keeps the refreshed token and transport.
   */
  lemma RetryAfterRefresh(config: SmtpConfig, transport: Transport, env: SmtpEnv, message: PartialMessage, grant: Grant, from: Address)
    requires env.parseAddress(config.login) == Ok(from)
    requires ToMessage(message, from).Ok?
    requires env.deliver(transport, ToMessage(message, from).value).Err?
    requires env.deliver(transport, ToMessage(message, from).value).error.status == Some(AuthenticationFailed)
    requires config.auth.OAuth?
    requires RefreshOutcome(config, transport, env, grant).result.Ok?
    ensures var refreshed := RefreshOutcome(config, transport, env, grant);
      var m := ToMessage(message, from).value;
      var s := SendSpec(config, transport, env, message, grant);
      && s.deliveries == [transport, refreshed.transport]
      && s.outcome.config == refreshed.config
      && s.outcome.transport == refreshed.transport
      && s.outcome.config.auth.oauth.accessToken == grant.accessToken
      && (s.outcome.result.Ok? <==> env.deliver(refreshed.transport, m).Ok?)
      && (s.outcome.result.Err? ==> s.outcome.result.error == SendFailed(env.deliver(refreshed.transport, m).error))
  {
  }

  /**
   * As written, a password is only ever offered as an XOAUTH2 token: a send
   * on the transport `Client::new` builds delivers through that transport
   * alone, since a password is never refreshed.
   */
  lemma PasswordOfferedAsXoauth2(config: SmtpConfig, env: SmtpEnv, message: PartialMessage, grant: Grant)
    requires config.auth.Password?
    ensures var s := SendSpec(config, InitialTransportAsWritten(config), env, message, grant);
      forall d | d in s.deliveries :: d.mechanisms == [Xoauth2] && d.secret == config.auth.raw
    ensures SendSpec(config, InitialTransportAsWritten(config), env, message, grant).outcome.transport
      == InitialTransportAsWritten(config)
  {
  }

  // ---------------------------------------------------------------------------
  // The client

  /** `Client`: the SMTP configuration and the transport built from it. */
  class Client {
    var config: SmtpConfig
    var transport: Transport
    const env: SmtpEnv

    constructor (config: SmtpConfig, transport: Transport, env: SmtpEnv)
      ensures this.config == config && this.transport == transport && this.env == env
    {
      this.config := config;
      this.transport := transport;
      this.env := env;
    }

    /**
     * `Client::new`: fails only when the relay does not build for the host;
     * the configured port is not used. The transport is the one the code
     * builds, with the mechanisms swapped (`InitialMechanismSwapped`).
     */
    static method New(config: SmtpConfig, env: SmtpEnv) returns (r: Result<Client, Error>)
      ensures r.Err? <==> !env.relayOk(config.host)
      ensures r.Err? ==> r.error == Relay
      ensures r.Ok? ==> fresh(r.value) && r.value.config == config && r.value.env == env
      ensures r.Ok? ==> r.value.transport == InitialTransportAsWritten(config)
    {
      if !env.relayOk(config.host) {
        return Err(Relay);
      }
      var client := new Client(config, InitialTransportAsWritten(config), env);
      return Ok(client);
    }

    /** `refresh_oauth_access_token`: the token is stored before the relay is rebuilt. */
    method RefreshOAuthAccessToken(grant: Grant) returns (r: Result<Unit, Error>)
      modifies this
      ensures Outcome(r, config, transport) == RefreshOutcome(old(config), old(transport), env, grant)
    {
      if config.auth.Password? {
        return Ok(Unit);
      }
      if grant.GrantFailed? {
        return Err(TokenRefresh(grant.reason));
      }
      config := config.(auth := OAuth(config.auth.oauth.(accessToken := grant.accessToken)));
      if !env.relayOk(config.host) {
        return Err(Relay);
      }
      transport := XoauthTransport(config);
      return Ok(Unit);
    }

    /** `send`: at most two deliveries, the second only after a 535 reply, OAuth credentials and a refresh. */
    method Send(message: PartialMessage, grant: Grant) returns (r: Result<Unit, Error>, deliveries: seq<Transport>)
      modifies this
      ensures SendRecord(Outcome(r, config, transport), deliveries) == SendSpec(old(config), old(transport), env, message, grant)
    {
      deliveries := [];
      var from := env.parseAddress(config.login);
      if from.Err? {
        return Err(InvalidLogin(from.error)), deliveries;
      }
      var built := ToMessage(message, from.value);
      if built.Err? {
        return Err(Build(built.error)), deliveries;
      }
      var m := built.value;
      deliveries := [transport];
      var first := env.deliver(transport, m);
      if first.Ok? {
        return Ok(Unit), deliveries;
      }
      if first.error.status != Some(AuthenticationFailed) {
        return Err(SendFailed(first.error)), deliveries;
      }
      if config.auth.Password? {
        return Err(SendFailed(first.error)), deliveries;
      }
      var refreshed := RefreshOAuthAccessToken(grant);
      if refreshed.Err? {
        return refreshed, deliveries;
      }
      deliveries := deliveries + [transport];
      var second := env.deliver(transport, m);
      if second.Err? {
        return Err(SendFailed(second.error)), deliveries;
      }
      return Ok(Unit), deliveries;
    }
  }

  // ---------------------------------------------------------------------------
  // The worker loop

  datatype Command = SendMail(message: PartialMessage)

  datatype Response = SendMailSuccess | Error(error: Error)

  function ResponseOf(r: Result<Unit, Error>): (resp: Response)
    ensures resp.SendMailSuccess? <==> r.Ok?
    ensures resp.Error? ==> resp.error == r.error
  {
    if r.Ok? then SendMailSuccess else Error(r.error)
  }

  /**
   * The responses to a run of commands on a client in state (`config`,
   * `transport`), one per command, each send seeing the state the previous
   * ones left; `grants(k)` is the outcome of a refresh during the k-th send.
   */
  function Responses(config: SmtpConfig, transport: Transport, env: SmtpEnv, grants: nat -> Grant, commands: seq<Command>, k: nat): (r: seq<Response>)
    ensures |r| == |commands|
    decreases |commands|
  {
    if commands == [] then []
    else
      var s := SendSpec(config, transport, env, commands[0].message, grants(k));
      [ResponseOf(s.outcome.result)] + Responses(s.outcome.config, s.outcome.transport, env, grants, commands[1..], k + 1)
  }

  /** One step of `Responses`: the first command's response, then the rest from the state it leaves. */
  lemma ResponsesStep(config: SmtpConfig, transport: Transport, env: SmtpEnv, grants: nat -> Grant, commands: seq<Command>, k: nat, after: Outcome)
    requires commands != []
    requires SendSpec(config, transport, env, commands[0].message, grants(k)).outcome == after
    ensures Responses(config, transport, env, grants, commands, k)
      == [ResponseOf(after.result)] + Responses(after.config, after.transport, env, grants, commands[1..], k + 1)
  {
  }

  /**
   * `run`: `Err` before any receive when the client cannot be built;
   * otherwise one response per received command, in order, until a receive
   * or a send fails, and then `Ok`.
   */
  method Run(config: SmtpConfig, env: SmtpEnv, grants: nat -> Grant, peer: Peer<Command>)
    returns (result: Result<Unit, Error>, received: nat, sent: seq<Response>)
    ensures !env.relayOk(config.host) ==> result == Err(Relay) && received == 0 && sent == []
    ensures env.relayOk(config.host) ==>
      && result == Ok(Unit)
      && received == Attempted(peer)
      && sent == Responses(config, InitialTransportAsWritten(config), env, grants, peer.commands, 0)[..Attempted(peer)]
  {
    received, sent := 0, [];
    var client := Client.New(config, env);
    if client.Err? {
      return Err(client.error), received, sent;
    }
    var c := client.value;
    ghost var all := Responses(config, InitialTransportAsWritten(config), env, grants, peer.commands, 0);
    while received < |peer.commands|
      invariant received <= |peer.commands| && received <= peer.capacity
      invariant c.env == env
      invariant |sent| == received && sent == all[..received]
      invariant Responses(c.config, c.transport, env, grants, peer.commands[received..], received) == all[received..]
    {
      ghost var rest := peer.commands[received..];
      ghost var config0, transport0 := c.config, c.transport;
      var r, _ := c.Send(peer.commands[received].message, grants(received));
      ResponsesStep(config0, transport0, env, grants, rest, received, Outcome(r, c.config, c.transport));
      assert rest[1..] == peer.commands[received + 1..];
      assert all[received..][1..] == all[received + 1..];
      sent := sent + [ResponseOf(r)];
      received := received + 1;
      if |sent| > peer.capacity {
        break;
      }
    }
    result := Ok(Unit);
  }
}
