/**
 * What the two IMAP snapshots (`src/imap.rs` and `src/imap/state.rs`) share:
 * the server as the client sees it, the fetched-message record, the parsed
 * email record they both build, logging in with either kind of credentials,
 * and the most-recent-first UID window of `read_inbox`.
 */
module ImapCommon {
  import opened Wrappers
  import opened Credentials
  import ImapOAuth

  const U32Limit: nat := 0x1_0000_0000

  /** Rust's `u32`. */
  type U32 = x: nat | x < U32Limit

  /** A UTC instant, in seconds from the Unix epoch. */
  datatype DateTime = DateTime(unixSeconds: int)

  /** `DateTime::<Utc>::UNIX_EPOCH`. */
  const UnixEpoch: DateTime := DateTime(0)

  /** One item of a `UID FETCH` reply: its UID, its INTERNALDATE and its RFC822 bytes, the last two optional. */
  datatype Fetched = Fetched(uid: U32, internalDate: Option<DateTime>, body: Option<seq<bv8>>)

  /**
   * The IMAP server, as far as the client can observe it: whether it accepts a
   * LOGIN or an AUTHENTICATE XOAUTH2 initial response, the UIDs that
   * `UID SEARCH ALL` reports, and what `UID FETCH bot:top` returns.
   */
  datatype ImapServer = ImapServer(
    acceptsLogin: (string, string) -> bool,
    acceptsXoauth2: string -> bool,
    uids: seq<U32>,
    fetch: (U32, U32) -> seq<Fetched>)

  /** A logged-in session (`AuthenticatedState`) on a server. */
  datatype Session = Session(server: ImapServer)

  /** The record both snapshots of `read_inbox` build for each kept message. */
  datatype ParsedEmail = ParsedEmail(
    date: DateTime,
    from: string,
    cc: seq<string>,
    bcc: seq<string>,
    subject: string,
    body: string)

  /** Why logging in failed. */
  datatype LoginError = LoginRejected

  /** Why connecting to the configured host failed. */
  datatype ConnectError = ConnectFailed

  /**
   * Whether the server lets `login` in with `auth`: a password goes through
   * LOGIN, OAuth credentials through AUTHENTICATE XOAUTH2 with the response
   * `OAuthConfigWithUser::process` builds from the login and the current
   * access token.
   */
  predicate Accepts(server: ImapServer, login: string, auth: Auth)
  {
    match auth
    case Password(raw) => server.acceptsLogin(login, raw)
    case OAuth(c) => server.acceptsXoauth2(ImapOAuth.Process(ImapOAuth.OAuthConfigWithUser(login, c), []))
  }

  // ---------------------------------------------------------------------------
  // The UID window (RFC 3501, section 9: a `seq-range` "bot:top")

  /** `uids.iter().max().copied().unwrap_or(1)`: the largest UID, or 1 when the mailbox is empty. */
  function MaxUid(uids: seq<U32>): (m: U32)
    ensures uids == [] ==> m == 1
    ensures uids != [] ==> m in uids && forall i :: 0 <= i < |uids| ==> uids[i] <= m
    decreases |uids|
  {
    if uids == [] then 1
    else if |uids| == 1 then uids[0]
    else
      var rest := MaxUid(uids[1..]);
      if uids[0] >= rest then uids[0] else rest
  }

  /** `u32::saturating_sub`. */
  function SaturatingSub(a: U32, b: U32): (r: U32)
  {
    if a >= b then a - b else 0
  }

  /** `n.max(1)`. */
  function AtLeastOne(n: U32): U32
  {
    if n >= 1 then n else 1
  }

  datatype UidRange = UidRange(bot: U32, top: U32)

  /**
   * The window `bot:top` that `read_inbox(count, offset)` fetches: `offset`
   * messages below the newest UID and `count` further down, both ends clamped
   * to 1. The caller must keep `offset + count` inside `u32` (the addition
   * panics otherwise).
   */
  function UidWindow(maxUid: U32, count: U32, offset: U32): (w: UidRange)
    requires offset + count < U32Limit
    ensures 1 <= w.bot <= w.top
    ensures w.top <= AtLeastOne(maxUid)
    ensures offset < maxUid ==> w.top == maxUid - offset
    ensures offset + count < maxUid ==> w.top - w.bot == count
    ensures maxUid <= offset + count ==> w.bot == 1
    ensures maxUid <= offset ==> w == UidRange(1, 1)
  {
    UidRange(AtLeastOne(SaturatingSub(maxUid, offset + count)), AtLeastOne(SaturatingSub(maxUid, offset)))
  }

  /**
   * Paging on: asking for the next page with the offset moved past every UID
   * of this window starts the next window right below this one, so no UID is
   * skipped between pages until the window reaches UID 1.
   */
  lemma NextWindowAdjacent(maxUid: U32, count: U32, offset: U32, nextCount: U32)
    requires offset + count + 1 + nextCount < U32Limit
    requires UidWindow(maxUid, count, offset).bot > 1
    ensures UidWindow(maxUid, nextCount, offset + count + 1).top == UidWindow(maxUid, count, offset).bot - 1
  {
  }

  /**
   * The inbox asks for the next page at `offset = inbox.len()`, and a window
   * holds `count + 1` UIDs. When fewer messages than that came back (a UID
   * missing from the mailbox, or a message the batch loop dropped), the
   * offset moves by `shown <= count`, and the next window's newest UID is
   * still inside this window, so that message is fetched a second time.
   */
  lemma ShortPageOverlaps(maxUid: U32, count: U32, offset: U32, shown: U32, nextCount: U32)
    requires offset + count < maxUid
    requires shown <= count && offset + shown + nextCount < U32Limit
    ensures UidWindow(maxUid, count, offset).bot <= UidWindow(maxUid, nextCount, offset + shown).top
    ensures UidWindow(maxUid, nextCount, offset + shown).top <= UidWindow(maxUid, count, offset).top
  {
  }

  // ---------------------------------------------------------------------------
  // The batch loop of `read_inbox`, whatever each snapshot keeps of a message

  /** The emails kept from a batch, in fetch order; `keep` says what one message yields, if anything. */
  function ParseBatch(messages: seq<Fetched>, keep: Fetched -> Option<ParsedEmail>): (r: seq<ParsedEmail>)
    ensures |r| <= |messages|
    decreases |messages|
  {
    if messages == [] then []
    else
      var before := ParseBatch(messages[..|messages| - 1], keep);
      match keep(messages[|messages| - 1])
      case None => before
      case Some(e) => before + [e]
  }

  /** Batches compose: the emails kept from `a + b` are those kept from `a`, then those kept from `b`. */
  lemma {:induction false} ParseBatchAppend(a: seq<Fetched>, b: seq<Fetched>, keep: Fetched -> Option<ParsedEmail>)
    ensures ParseBatch(a + b, keep) == ParseBatch(a, keep) + ParseBatch(b, keep)
    decreases |b|
  {
    if b != [] {
      assert (a + b)[..|a + b| - 1] == a + b[..|b| - 1];
      ParseBatchAppend(a, b[..|b| - 1], keep);
    } else {
      assert a + b == a;
    }
  }

  /**
   * Nothing is sorted and nothing dropped beyond the skip rule: when every
   * message yields an email, the i-th email comes from the i-th fetched
   * message.
   */
  lemma {:induction false} ParseBatchKeepsOrder(messages: seq<Fetched>, keep: Fetched -> Option<ParsedEmail>)
    requires forall i :: 0 <= i < |messages| ==> keep(messages[i]).Some?
    ensures |ParseBatch(messages, keep)| == |messages|
    ensures forall i :: 0 <= i < |messages| ==> ParseBatch(messages, keep)[i] == keep(messages[i]).value
    decreases |messages|
  {
    if messages != [] {
      ParseBatchKeepsOrder(messages[..|messages| - 1], keep);
    }
  }

  /** A message that yields nothing (no body, or a body that does not parse) adds nothing and aborts nothing. */
  lemma SkippedMessage(before: seq<Fetched>, m: Fetched, after: seq<Fetched>, keep: Fetched -> Option<ParsedEmail>)
    requires keep(m).None?
    ensures ParseBatch(before + [m] + after, keep) == ParseBatch(before, keep) + ParseBatch(after, keep)
  {
    ParseBatchAppend(before + [m], after, keep);
    ParseBatchAppend(before, [m], keep);
    assert ParseBatch([m], keep) == [] by {
      assert [m][..0] == [];
    }
  }

  /** What `read_inbox(count, offset)` returns on `session`: the window fetched, then the batch loop. */
  function InboxFor(session: Session, count: U32, offset: U32, keep: Fetched -> Option<ParsedEmail>): seq<ParsedEmail>
    requires offset + count < U32Limit
  {
    var w := UidWindow(MaxUid(session.server.uids), count, offset);
    ParseBatch(session.server.fetch(w.bot, w.top), keep)
  }
}
