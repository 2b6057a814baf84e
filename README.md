# ectt, modelled in Dafny

ectt is a terminal email client written in Rust. It has two front ends:

- the main client (`src/`);
- an OAuth client (`ectt-oauth/`).

The main client runs three threads that talk over channels:

- The ratatui front end holds the inbox state. It keeps at most one `ReadInbox` request outstanding.
- The IMAP worker logs in with a password or an OAuth access token, then answers each `ReadInbox { count, offset }` with a window of the newest messages.
- The SMTP worker turns a composed partial message into a mail. It sends the mail, and after a 535 reply it retries once with a refreshed OAuth token.

This project models that core:

- both snapshots of the IMAP code: `src/imap.rs`, and `src/imap/` with its `state.rs`, `mod.rs` and `oauth.rs`;
- the SMTP client and worker;
- the front end's inbox loop;
- the compose and reading widgets of both front ends;
- the OAuth client's line-based body editor;
- key-combination and help-line text;
- popup geometry;
- the configuration-file lookup.

The project proves what each promises.

## How it is laid out

- `Wrappers`, `Text` (`wrappers.dfy`, `text.dfy`): Rust's `Option`/`Result`, `str::split`, `lines`, `trim`, `join`.
- `Credentials` (`credentials.dfy`): the `Auth`/`OAuthConfig` shape and one token refresh.
- `ImapCommon`, `ImapState`, `Imap`, `ImapOAuth`, `ImapWorker`, `EcttImap` (`imap_*.dfy`, `imap.dfy`, `ectt_imap.dfy`): `src/imap/state.rs`, `src/imap.rs`, `src/imap/oauth.rs`, `src/imap/mod.rs`, `ectt-oauth/src/imap.rs`.
- `Channels` (`channels.dfy`): how a worker sees its two channels.
- `Smtp` (`smtp.dfy`): `src/smtp/mod.rs`.
- `Ui`, `Tui`, `Compose`, `Reading` (`ui.dfy`, `tui.dfy`, `compose.dfy`, `reading.dfy`): `src/tui/mod.rs`, `src/tui/compose.rs`, `src/tui/reading.rs`.
- `EcttEditor`, `EcttCompose`, `EcttReading`, `EcttApp` (`ectt_*.dfy`): `ectt-oauth/src/tui/compose.rs`, `ectt-oauth/src/tui/reading.rs`.
- `Combo`, `Help` (`combo.dfy`, `help.dfy`): `ectt-oauth/src/tui/combo.rs`, `ectt-oauth/src/tui/help.rs`.
- `Popup`, `Loading` (`popup.dfy`, `loading.dfy`): `src/tui/popup.rs`, `src/tui/loading.rs`.
- `Config` (`config.dfy`): `src/config.rs`.

`src/imap.rs` and `src/imap/state.rs` define the same `UnauthenticatedState::{authenticate, refresh_oauth_token}` (src/imap.rs:40-100 and src/imap/state.rs:29-89 are the same code). Both are modelled once, by `ImapState.UnauthenticatedState`, which `Imap.ImapThread` also uses.

The pure parts are functions with lemmas. The parts the source updates in place are classes whose methods are proved against a specification function on a value of their state. These are:

- `Tui.ScreenState`;
- `Compose.ComposeWidget` and `Reading.ReadingWidget`;
- `EcttCompose.ComposeFields` and `EcttReading.ReadingWidget`;
- `Smtp.Client`;
- `ImapState.UnauthenticatedState`.

Loops become methods with invariants:

- `read_inbox`;
- the worker loops;
- the front end's `run`;
- `KeyCombo`'s `fmt`.

Anything outside the program's own logic is a parameter. This covers:

- the IMAP server, the SMTP transport and the OAuth token endpoint;
- the mail parsers and `lettre`'s address parser;
- crossterm's key text;
- the text-area library;
- the filesystem.

A channel is modelled by the commands the peer sends before dropping its sender, and by how many responses it takes before dropping its receiver.

## Model

| member | source | states |
|---|---|---|
| `Credentials.Refreshed` | src/imap/state.rs:64-89 | a password is left alone; a failed grant changes nothing; a granted token replaces only the access token, the refresh token and every other field kept |
| `ImapCommon.MaxUid` | src/imap/state.rs:101 | the largest UID of the search, and 1 for an empty mailbox |
| `ImapCommon.UidWindow` | src/imap/state.rs:101-104 | `1 <= bot <= top <= max(maxUid, 1)`; the window starts `offset` below the newest UID and spans `count` while it fits; it collapses to 1:1 past the oldest; the caller keeps `offset + count` in `u32` |
| `ImapCommon.NextWindowAdjacent` | src/imap.rs:115-116 | when the next offset is `offset + count + 1` (a full page of `count + 1` emails shown), the next window ends right below this one, so no UID is skipped |
| `ImapCommon.ShortPageOverlaps` | src/imap.rs:115-116 | the front end asks for the next page at `offset = inbox.len()` (src/tui/mod.rs:89); when fewer than `count + 1` emails came back, the next window's newest UID is still inside this window, so that email is fetched again |
| `ImapCommon.ParseBatch` | src/imap/state.rs:118-158 | the kept emails are never more than the fetched messages |
| `ImapCommon.ParseBatchAppend` | src/imap/state.rs:118-158 | the batch loop over `a + b` keeps `a`'s emails then `b`'s |
| `ImapCommon.ParseBatchKeepsOrder` | src/imap.rs:128-166 | when every message yields an email, the i-th email comes from the i-th message: nothing is sorted or dropped |
| `ImapCommon.SkippedMessage` | src/imap/state.rs:118-131 | a message without a body, or one that does not parse, is skipped without aborting the batch |
| `ImapState.FormatAddr` | src/imap/state.rs:173-178 | "name (address)", the name alone, the address alone, or the fallback when there is neither |
| `ImapState.GetFrom` | src/imap/state.rs:162-179 | "No sender" without a From header or with an empty one; otherwise the first sender, "Unknown sender" as fallback |
| `ImapState.GetCc` | src/imap/state.rs:181-198 | no Cc header gives no entries; otherwise exactly one entry per address, in order, "Unknown CC" as fallback |
| `ImapState.GetBcc` | src/imap/state.rs:200-217 | as `GetCc`, with "Unknown BCC" |
| `ImapState.FormatAll` | src/imap/state.rs:206-216 | one displayed entry per address, in order |
| `ImapState.TextParts` | src/imap/state.rs:153-156 | each text part's text, a missing part giving "" |
| `ImapState.BodyLength` | src/imap/state.rs:153-156 | the body is every text part once, in index order: its length is the sum of theirs |
| `ImapState.ResolveDate` | src/imap/state.rs:132-145 | INTERNALDATE if given, else the Date header, else the Unix epoch |
| `ImapState.ToEmail` | src/imap/state.rs:147-157 | the date by `ResolveDate`; sender, Cc and Bcc by their getters; Subject, or "No subject" without one; the body is the text parts joined |
| `ImapState.Keep` | src/imap/state.rs:118-131 | an email exactly when the message has a body and the parser accepts it, and then it is `ToEmail`'s |
| `ImapState.ReadInbox` | src/imap/state.rs:97-159 | the loop pushes exactly the emails `ParseBatch` keeps from the UID window's messages, in fetch order |
| `ImapState.UnauthenticatedState.New` | src/imap/state.rs:23-27 | fails exactly when the connection fails; otherwise it holds the configuration unchanged |
| `ImapState.UnauthenticatedState.Authenticate` | src/imap/state.rs:29-62 | a session exactly when the server accepts the credentials; on failure the state and its configuration are unchanged |
| `ImapState.UnauthenticatedState.RefreshOAuthToken` | src/imap/state.rs:64-89 | the configuration becomes `Refreshed`; `Ok` for a password or a granted token; the error is the grant's |
| `Imap.GetAllValues` | src/imap.rs:161-162 | every value is the value of a header whose name matches the key, ignoring ASCII case; none exactly when no header matches; never more values than headers |
| `Imap.FirstOfAllValues` | src/imap.rs:147 | `get_first_value` is the head of `get_all_values`, and is absent exactly when there are no values |
| `Imap.ResolveDate` | src/imap.rs:141-156 | INTERNALDATE if given; else the first Received header through `dateparse` (0 on failure) and `from_timestamp`; else the Unix epoch |
| `Imap.ToEmail` | src/imap.rs:158-166 | for a mail whose body decodes: From defaults to "", Subject to "No subject"; Cc and Bcc are every such header; the body is the decoded body |
| `Imap.Keep` | src/imap.rs:128-166 | an email exactly when the message has a body, `parse_mail` accepts it and its body decodes; that email is `ToEmail`'s |
| `Imap.ReadInbox` | src/imap.rs:109-171 | `None`, standing for the `get_body().unwrap()` panic, exactly when some message of the window parses but its body does not decode; otherwise the loop pushes exactly the emails `ParseBatch` keeps, in fetch order |
| `Imap.Process` | src/imap.rs:253-259 | the same XOAUTH2 response as `src/imap/oauth.rs` for every challenge |
| `Imap.ImapThread` | src/imap.rs:174-244 | one or two login attempts and at most one refresh; a password rejection sends one error and stops; an OAuth rejection refreshes once, and a failed refresh or a second rejection sends one error and stops; once logged in, one `Inbox` per command in order until a receive or a send fails |
| `Imap.LogIn` | src/imap.rs:181-221 | a session exactly when the first login, or for OAuth a granted refresh and the retry, is accepted; a password is tried once and never refreshed; OAuth refreshes once and retries with exactly the refreshed credentials; a failed refresh is the error |
| `Imap.RetryAuth` | src/imap.rs:195-205 | the second login's credentials: unchanged for a password or a failed refresh; for a granted refresh, the old OAuth credentials with only the access token replaced |
| `Imap.LogsIn` | src/imap.rs:181-221 | an accepted first login always logs in; with a password or a failed refresh, logging in is exactly the first login being accepted |
| `Imap.Serve` | src/imap.rs:223-243 | one `Inbox` per received command, in command order, each the window that command names; it stops when the commands run out or after the first send that fails |
| `ImapOAuth.New` | src/imap/oauth.rs:9-11 | the user and the configuration are stored unchanged |
| `ImapOAuth.Process` | src/imap/oauth.rs:16-22 | exactly `user=<user>^Aauth=Bearer <token>^A^A`, of length `20 + \|user\| + \|token\|`, whatever the challenge |
| `ImapOAuth.ProcessParses` | src/imap/oauth.rs:17-21 | when neither user nor token holds ^A, splitting at ^A gives back exactly the user and the token |
| `EcttImap.Process` | ectt-oauth/src/imap.rs:8-14 | for every challenge, the same response as `src/imap/oauth.rs` for the same user and token; it ends with ^A^A and holds the token right after "auth=Bearer " |
| `ImapWorker.ResponseFor` | src/imap/mod.rs:57-71 | `Inbox` with the emails exactly when the read succeeds, otherwise `Error` with the read's error |
| `ImapWorker.ImapThread` | src/imap/mod.rs:31-84 | `Err` exactly when the connection fails, before any channel activity; one login and no refresh; a rejection sends one error and returns `Ok` without receiving; otherwise one response per received command, in order, until a receive or a send fails |
| `Smtp.Mailboxes` | src/smtp/mod.rs:45-55 | each address as a mailbox without a display name, in order |
| `Smtp.ToMessage` | src/smtp/mod.rs:39-58 | fails exactly when there is no recipient (no To, no Cc, no Bcc), which is what makes the final `body` call fail; otherwise From is the login without a display name and the content type is text/plain |
| `Smtp.ToMessageRecovers` | src/smtp/mod.rs:39-58 | reading the built message back gives the partial message, with absent subject and body as "" |
| `Smtp.XoauthTransport` | src/smtp/mod.rs:187-193 | XOAUTH2 only, with the login and the current access token |
| `Smtp.InitialMechanismSwapped` | src/smtp/mod.rs:119-131 | as written, a password is offered only as an XOAUTH2 token, and an OAuth token with PLAIN before a refresh and XOAUTH2 after |
| `Smtp.InitialTransportAsWritten` | src/smtp/mod.rs:119-131 | as written: XOAUTH2 with the password, PLAIN with the OAuth access token, on the configured host and login |
| `Smtp.PasswordOfferedAsXoauth2` | src/smtp/mod.rs:141-167 | as written, every delivery a send makes for a password configuration offers the password as an XOAUTH2 token, and the client keeps that transport |
| `Smtp.RefreshSwitchesMechanism` | src/smtp/mod.rs:169-198 | a refresh leaves the corrected transport on XOAUTH2, while a successful refresh switches the as-written OAuth transport from PLAIN to XOAUTH2 |
| `Smtp.InitialTransport` | src/smtp/mod.rs:118-138 | PLAIN with the password; for OAuth exactly the transport a refresh rebuilds |
| `Smtp.RefreshOutcome` | src/smtp/mod.rs:169-198 | a no-op for a password; a failed grant changes nothing; a granted token is stored, and the transport is rebuilt only if the relay builds, so a relay failure keeps the new token with the old transport |
| `Smtp.SendSpec` | src/smtp/mod.rs:141-167 | an unparsable login fails before any delivery; at most two deliveries, the second only after a 535 reply with OAuth credentials and a successful refresh; after a second delivery the client keeps the transport it went through |
| `Smtp.RetryAfterRefresh` | src/smtp/mod.rs:157-166 | after a 535 reply with OAuth credentials and a successful refresh, exactly one more delivery, on the refreshed transport; the call returns `Ok` when it succeeds and `SendFailed` with its error otherwise, and the client keeps the refreshed token and transport |
| `Smtp.FirstDeliverySucceeds` | src/smtp/mod.rs:144-146 | a first delivery that succeeds ends the call with no refresh and nothing changed |
| `Smtp.NoRetryWithoutAuthFailure` | src/smtp/mod.rs:148-159 | with a password, or any reply but 535, the first delivery's error is returned |
| `Smtp.FailedRefreshStops` | src/smtp/mod.rs:161 | a failed refresh is the call's error, and there is no second delivery |
| `Smtp.Client.New` | src/smtp/mod.rs:118-138 | fails exactly when the relay does not build; otherwise the client holds the configuration and the transport the code builds, mechanisms swapped (`InitialTransportAsWritten`) |
| `Smtp.Client.RefreshOAuthAccessToken` | src/smtp/mod.rs:169-198 | the new state and result are `RefreshOutcome`'s |
| `Smtp.Client.Send` | src/smtp/mod.rs:141-167 | the new state, result and deliveries are `SendSpec`'s |
| `Smtp.ResponseOf` | src/smtp/mod.rs:80-98 | `SendMailSuccess` for `Ok`, `Error` with the error otherwise |
| `Smtp.Responses` | src/smtp/mod.rs:75-105 | exactly one response per command |
| `Smtp.ResponsesStep` | src/smtp/mod.rs:75-105 | the responses are the first command's, then the rest's from the state it leaves |
| `Smtp.Run` | src/smtp/mod.rs:70-109 | `Err` before any receive when the client does not build; otherwise the responses to the received commands, in order, from the as-written initial transport, until a receive or send fails, then `Ok` |
| `Ui.NextFocus` | src/tui/compose.rs:134-138 | Tab: the next part, wrapping from the last to the first, always in range |
| `Ui.PrevFocus` | src/tui/compose.rs:139-143 | BackTab: the previous part, wrapping from the first to the last, always in range |
| `Ui.FocusInverse` | src/tui/compose.rs:134-143 | Tab and BackTab undo each other |
| `Text.SplitJoin` | src/tui/compose.rs:72 | pieces without the separator, joined by it, split back into the same pieces |
| `Text.JoinSplit` | src/tui/compose.rs:72 | joining the pieces of a split gives the text back |
| `Text.LinesOfJoin` | ectt-oauth/src/tui/compose.rs:121-130 | `lines()` of lines joined by "\n" gives them back, except that a trailing empty line is lost |
| `Text.Lines` | ectt-oauth/src/tui/compose.rs:122 | `str::lines`: no lines for an empty text; a text without '\n' is one line, unchanged |
| `Compose.ParseAll` | src/tui/compose.rs:72-75 | `Ok` exactly when every trimmed piece parses, with the addresses in order; otherwise the error of the first piece that fails, every piece before it parsing |
| `Compose.ParseAddresses` | src/tui/compose.rs:68-76 | "" gives `Ok([])`; otherwise one address per comma-separated trimmed piece, in order, `Ok` exactly when every piece parses, otherwise the error of the first piece that fails |
| `Compose.TrailingCommaFails` | src/tui/compose.rs:68-76 | a trailing comma leaves an empty piece, so the whole list fails |
| `Compose.ParseJoined` | src/tui/compose.rs:68-76 | addresses written out with commas parse back to the same list |
| `Compose.ParseOptionalList` | src/tui/compose.rs:88-104 | an absent line is the empty list; a present one is `parse_addresses` of it |
| `Compose.PartialMessageOf` | src/tui/compose.rs:79-117 | To must parse when its line is present, with no special case for an empty line; Cc and Bcc are address lists; subject and body are first lines only; the error is To's when To fails, else Cc's when Cc fails, else Bcc's |
| `Ui.PartInput` | src/tui/line.rs:39-47 | a one-line part (any part but the body) drops Enter; the body takes every key, and the one-line parts every other key, through the text area |
| `Compose.ComposeWidget.constructor` | src/tui/compose.rs:33-45 | five parts each holding one empty line, focus on To, no part styled as focused until the first Tab or BackTab |
| `Compose.ComposeWidget.GetPartialMessage` | src/tui/compose.rs:79-117 | the widget's current parts read as `PartialMessageOf` reads them: on success, subject and body are the first lines of their parts |
| `Compose.ComposeWidget.UpdateFocused` | src/tui/compose.rs:158-173 | exactly the part at `focused` is styled as focused |
| `Compose.ComposeWidget.HandleEvent` | src/tui/compose.rs:119-156 | Esc gives `GoTo(Inbox)`; Tab and BackTab cycle the five parts; any other key changes only the focused part; everything but Esc gives `Tick` |
| `Reading.ShowList` | src/tui/reading.rs:44-45 | no addresses give ""; otherwise the addresses and two characters for each ", " between them |
| `Reading.ReadingWidget.constructor` | src/tui/reading.rs:30-52 | one line per field, Cc and Bcc joined by ", ", focus on From, which alone is styled as focused |
| `Reading.ReadingWidget.From` | src/tui/reading.rs:54-58 | copies From, Cc, Bcc, subject and body and drops the UID and the date |
| `Reading.ReadingWidget.UpdateFocused` | src/tui/reading.rs:122-133 | exactly the part at `focused` among From, Cc, Bcc and body is styled as focused; the subject never is |
| `Reading.ReadingWidget.HandleEvent` | src/tui/reading.rs:76-120 | Esc gives `GoTo(Inbox)`; Tab and BackTab cycle four parts; Char, Backspace and Delete change nothing; other keys go to the focused part through `PartInput`, so Enter changes From, Cc and Bcc not at all and reaches only the body's text area; all but Esc give `Tick` |
| `Tui.LoadMoreGuardAsWritten` | src/tui/mod.rs:86 | `inbox.len() - 1` underflows exactly on an empty inbox |
| `Tui.EmptyInboxGuardUnderflows` | src/tui/mod.rs:86 | on an empty inbox the written guard underflows, and the intended one says no |
| `Tui.AtLastRowAgrees` | src/tui/mod.rs:86 | on a non-empty inbox the written guard and the intended one agree |
| `Tui.LoadSpec` | src/tui/mod.rs:74-81 | sends exactly `ReadInbox { count: 5, offset: 0 }` and sets the flag only if the send went through |
| `Tui.LoadMoreSpec` | src/tui/mod.rs:83-96 | never sends while a request is in flight; sends exactly when the last row is selected and the channel is open, with the given count and `offset = inbox.len() as u32`; the inbox and selection never change |
| `Tui.PollSpec` | src/tui/mod.rs:112-131 | an `Inbox` response appends its emails after the old ones and clears the flag; an `Error` or a disconnect ends the loop with that error; an empty channel changes nothing |
| `Tui.Replay` | src/tui/mod.rs:111-199 | the loop over a run of steps: each step answers at most one request and sends at most one |
| `Tui.LoadStartsOneOutstanding` | src/tui/mod.rs:107-109 | after start-up `load`, one request is outstanding |
| `Tui.ReplayKeepsOneOutstanding` | src/tui/mod.rs:111-197 | whatever the responses, keys and selections, sent commands never exceed answered ones by more than one, and by one only while the flag is set |
| `Tui.ReplayKeepsInbox` | src/tui/mod.rs:113-115 | the inbox only grows: every email shown stays at its row |
| `Tui.ScreenState.constructor` | src/tui/mod.rs:63-70 | no emails, row 0 selected, nothing in flight |
| `Tui.ScreenState.Load` | src/tui/mod.rs:74-81 | the new state and result are `LoadSpec`'s |
| `Tui.ScreenState.LoadMore` | src/tui/mod.rs:83-96 | the new state and result are `LoadMoreSpec`'s |
| `Tui.ScreenState.Poll` | src/tui/mod.rs:112-131 | the new state and outcome are `PollSpec`'s |
| `Tui.ScreenState.Enter` | src/tui/mod.rs:168-183 | a selected row inside the inbox opens that email; a row past the end is ignored; no selection passes the key to the inbox widget |
| `Tui.ScreenState.Run` | src/tui/mod.rs:111-199 | the loop's final state, response count and exit are `Replay`'s over the steps |
| `Tui.SessionKeepsOneOutstanding` | src/tui/mod.rs:107-199 | from start-up, a whole session never has two requests outstanding |
| `EcttEditor.EditLines` | ectt-oauth/src/tui/compose.rs:121-125 | the body's `lines()`, or one empty line for an empty body; never empty |
| `EcttEditor.Padded` | ectt-oauth/src/tui/compose.rs:126-128 | the lines, extended with empty lines up to the cursor line |
| `EcttEditor.InsertInLine` | ectt-oauth/src/tui/compose.rs:129-130 | the joined text gets exactly the character inserted at the cursor's offset |
| `EcttEditor.BreakLine` | ectt-oauth/src/tui/compose.rs:150-153 | the line keeps its prefix, the suffix becomes the next line, and the joined text gets a '\n' at the cursor's offset |
| `EcttEditor.DeleteInLine` | ectt-oauth/src/tui/compose.rs:182-183 | the joined text loses exactly the character before the cursor's offset |
| `EcttEditor.MergeLine` | ectt-oauth/src/tui/compose.rs:185-190 | the line is appended to the previous one; the joined text loses exactly that '\n'; breaking at the old length gives the lines back |
| `EcttEditor.DeleteUndoesInsert` | ectt-oauth/src/tui/compose.rs:129-183 | deleting right after an insert gives the lines back |
| `EcttEditor.MergeUndoesBreak` | ectt-oauth/src/tui/compose.rs:150-190 | merging right after a break gives the lines back |
| `EcttCompose.Popped` | ectt-oauth/src/tui/compose.rs:165-173 | `pop` drops the last character, and an empty field stays empty |
| `EcttCompose.EnterLines` | ectt-oauth/src/tui/compose.rs:139-147 | the body's lines, plus an empty line when the cursor is below them |
| `EcttCompose.TypeChar` | ectt-oauth/src/tui/compose.rs:113-135 | To, Cc and Bcc get the character appended; in the body it is inserted at the cursor's offset and the cursor moves one column right; nothing else changes |
| `EcttCompose.PressEnter` | ectt-oauth/src/tui/compose.rs:136-162 | only in the body: the text gets a '\n' at the cursor's offset and the cursor moves to the start of the next line |
| `EcttCompose.Clamp` | ectt-oauth/src/tui/compose.rs:193-202 | the cursor lands on an existing line, at most at its end |
| `EcttCompose.BackspaceLines` | ectt-oauth/src/tui/compose.rs:181-191 | deletes the character before the cursor, or at a line start joins the line to the previous one, with the cursor at the old end of that line |
| `EcttCompose.PressBackspace` | ectt-oauth/src/tui/compose.rs:163-207 | pops To, Cc or Bcc; in the body the text loses exactly the character before the cursor's offset, and the cursor is clamped into the text |
| `EcttCompose.BackspaceBody` | ectt-oauth/src/tui/compose.rs:175-203 | the in-place `remove`, merge and clamp on the vector of lines give exactly `BackspaceLines`' lines and `Clamp`'s cursor |
| `EcttCompose.MoveLeft` | ectt-oauth/src/tui/compose.rs:208-224 | one column back, or from a line start to the end of the line above; only the cursor changes, only in the body |
| `EcttCompose.MoveRight` | ectt-oauth/src/tui/compose.rs:225-236 | one column on, or from a line end to the start of the next line of the text |
| `EcttCompose.MoveUp` | ectt-oauth/src/tui/compose.rs:237-251 | the line above, the column clamped to it; nothing on the first line |
| `EcttCompose.MoveDown` | ectt-oauth/src/tui/compose.rs:252-261 | the line below, the column clamped to it; nothing on the last line |
| `EcttCompose.ComposeStep` | ectt-oauth/src/tui/compose.rs:97-265 | Ctrl+S and Esc go back to Main and change no field, and Ctrl+S inserts no 's'; Tab and BackTab cycle four fields; the arrows change nothing but the cursor |
| `EcttCompose.SettledRoundTrip` | ectt-oauth/src/tui/compose.rs:121-130 | lines without breaks whose last is not empty survive `join` and `lines()` |
| `EcttCompose.TypeThenBackspace` | ectt-oauth/src/tui/compose.rs:118-184 | Backspace right after typing in the body gives the text and the cursor back |
| `EcttCompose.EnterThenBackspace` | ectt-oauth/src/tui/compose.rs:136-204 | Backspace right after Enter joins the line back, unless Enter was at the very end of the text |
| `EcttCompose.EnterAtEndThenBackspace` | ectt-oauth/src/tui/compose.rs:136-204 | Enter at the end of the text then Backspace gives the text back, but the cursor lands at the start of the last line, because `lines()` drops the empty line Enter made |
| `EcttCompose.DownThenUp` | ectt-oauth/src/tui/compose.rs:237-261 | Down then Up returns to the same place when the column fits both lines |
| `EcttCompose.LeftThenRight` | ectt-oauth/src/tui/compose.rs:208-236 | Left then Right returns to the same place inside a line |
| `EcttCompose.TabThenBackTab` | ectt-oauth/src/tui/compose.rs:106-111 | Tab and BackTab undo each other |
| `EcttCompose.ComposeFields.constructor` | ectt-oauth/src/tui/compose.rs:20-30 | every field empty, cursor at (0, 0), focus on To |
| `EcttCompose.ComposeFields.OnChar` | ectt-oauth/src/tui/compose.rs:113-135 | the new fields are `TypeChar`'s |
| `EcttCompose.ComposeFields.OnEnter` | ectt-oauth/src/tui/compose.rs:136-162 | the new fields are `PressEnter`'s |
| `EcttCompose.ComposeFields.OnBackspace` | ectt-oauth/src/tui/compose.rs:163-207 | the new fields are `PressBackspace`'s |
| `EcttCompose.ComposeFields.MoveCursor` | ectt-oauth/src/tui/compose.rs:208-261 | the new fields are those of the matching `Move` function |
| `EcttCompose.ComposeFields.Handle` | ectt-oauth/src/tui/compose.rs:97-265 | the new fields and the return to Main are `ComposeStep`'s |
| `EcttReading.ReadingStep` | ectt-oauth/src/tui/reading.rs:85-98 | Esc leaves without scrolling; Down scrolls one further; Up one back but never above 0; anything else changes nothing |
| `EcttReading.DownThenUp` | ectt-oauth/src/tui/reading.rs:89-94 | Down then Up restores the scroll |
| `EcttReading.ReadingWidget.constructor` | ectt-oauth/src/tui/reading.rs:25-36 | the sample email, scrolled to the top |
| `EcttReading.ReadingWidget.Handle` | ectt-oauth/src/tui/reading.rs:85-98 | the new scroll and the return to Main are `ReadingStep`'s; the email is unchanged |
| `EcttApp.ScreenState.HandleCompose` | ectt-oauth/src/tui/compose.rs:97-112 | the form becomes `ComposeStep`'s; the screen becomes Main exactly when it says so |
| `EcttApp.ScreenState.HandleReading` | ectt-oauth/src/tui/reading.rs:85-98 | the scroll becomes `ReadingStep`'s; the screen becomes Main exactly on Esc |
| `Combo.New` | ectt-oauth/src/tui/combo.rs:11-16 | no codes and no modifiers |
| `Combo.WithCode` | ectt-oauth/src/tui/combo.rs:18-21 | the code is appended after the earlier ones, which are kept; the modifiers are untouched |
| `Combo.WithModifier` | ectt-oauth/src/tui/combo.rs:23-26 | the modifiers become the union; the codes are untouched |
| `Combo.WithModifierIdempotent` | ectt-oauth/src/tui/combo.rs:23-26 | adding the same modifiers twice is adding them once |
| `Combo.WithModifierCommutes` | ectt-oauth/src/tui/combo.rs:23-26 | the order modifiers are added in does not matter |
| `Combo.Displayed` | ectt-oauth/src/tui/combo.rs:30-45 | bracketed; without codes, exactly the modifiers between brackets |
| `Combo.DisplayedLength` | ectt-oauth/src/tui/combo.rs:33-43 | with n codes: brackets, modifiers, the codes' text and exactly n - 1 '+' separators |
| `Combo.DisplayedWithCode` | ectt-oauth/src/tui/combo.rs:33-43 | another code adds '+' and its text before the ']' |
| `Combo.Fmt` | ectt-oauth/src/tui/combo.rs:30-45 | the `first`-flag loop writes exactly `Displayed` |
| `Help.New` | ectt-oauth/src/tui/help.rs:16-18 | the actions are stored unchanged |
| `Help.Entry` | ectt-oauth/src/tui/help.rs:29-34 | the key codes' text joined by '/', then a space and the action |
| `Help.HelpText` | ectt-oauth/src/tui/help.rs:26-35 | no actions give ""; one action gives its entry |
| `Help.HelpTextAppend` | ectt-oauth/src/tui/help.rs:26-35 | another action adds " \| " and its entry at the end: entries in action order |
| `Help.HelpTextLength` | ectt-oauth/src/tui/help.rs:26-35 | the entries plus three characters per separator |
| `Help.HelpTextStartsWithFirst` | ectt-oauth/src/tui/help.rs:26-35 | the text starts with the first action's entry |
| `Popup.New` | src/tui/popup.rs:17-22 | the message and the flag are stored unchanged |
| `Popup.AsU16` | src/tui/popup.rs:31-33 | `as u16` keeps a fitting value and is otherwise congruent modulo 65536 |
| `Popup.Width` | src/tui/popup.rs:30-34 | message plus 2, and at least 24 when dismissable, while it fits in `u16` |
| `Popup.LongMessageWraps` | src/tui/popup.rs:33 | a 65534-character message wraps the width to 0 |
| `Popup.Height` | src/tui/popup.rs:40 | the lines plus the two borders: 4 when dismissable, else 3 |
| `Popup.Lines` | src/tui/popup.rs:44-48 | the message, then "Press Enter to dismiss" exactly when dismissable |
| `Popup.CenteredXAsWritten` | src/tui/popup.rs:37 | underflows exactly when `area.width / 2 < width / 2` |
| `Popup.CenteredX` | src/tui/popup.rs:37 | the written offset where it does not underflow, else 0; a box no wider than the area fits, with margins differing by at most one |
| `Popup.AreaAsWritten` | src/tui/popup.rs:36-41 | no rectangle exactly when the centring underflows |
| `Popup.AreaAgrees` | src/tui/popup.rs:36-41 | where the code does not underflow it draws the corrected rectangle |
| `Popup.AreaInside` | src/tui/popup.rs:36-41 | on an area as wide as the box and a row taller, the box lies inside it |
| `Popup.NarrowTerminalUnderflows` | src/tui/popup.rs:30-37 | a dismissable popup on a 20-column terminal underflows |
| `Loading.LoadingAreaAsWritten` | src/tui/loading.rs:16-21 | width 22, height 3, a third down; underflows exactly under 22 columns |
| `Loading.LoadingArea` | src/tui/loading.rs:16-21 | width 22, height 3, a third down; inside any area of 22 by 4 cells |
| `Loading.LoadingAreaAgrees` | src/tui/loading.rs:16-21 | from 22 columns the written rectangle is the corrected one |
| `Loading.LoadingUnderflows` | src/tui/loading.rs:17 | a 21-column terminal underflows |
| `Config.GetConfigPath` | src/config.rs:10-39 | an explicit path is returned unchecked; then `config_dir/config.json` if it exists; then `cwd/config.json`, with a `current_dir` failure passed on; `NotFound` only when both are missing; a found path ends in "config.json" and exists |
| `Config.MoreFilesStillFound` | src/config.rs:14-29 | with more files on disk the lookup still finds one, and the same one when it was in the configuration directory |
| `Config.NotFoundMeansBothMissing` | src/config.rs:31-38 | `NotFound` means no explicit path, no first candidate, a known working directory and no second candidate |

## Left out

- Input and output are left out: the terminal, drawing and styling (`render`), `tracing` logs, and `Config::load`'s file read and JSON decoding. So are the HTTP token exchange, the IMAP and SMTP network protocols and the clock. Their outcomes are parameters.
- Strings are sequences of characters. Rust's byte offsets (`insert`, slicing, `len`) are read as character offsets, which is exact for ASCII text only.
- Channels are modelled by the commands a peer sends and the responses it takes. Threads, timing and the 200 ms event poll are not modelled.
- Debug and release builds differ. Where the source can panic on integer overflow or on slicing past the end, the model either requires the input that avoids the panic or exhibits the panic as a finding; release-build wrap-around is not modelled. The `unwrap`s and `expect`s on library and server results are assumed to pass; the lines below name each one and the members that rely on it.
- `ImapState.ResolveDate`, `ImapState.ToEmail`, `ImapState.ReadInbox`: assume that re-parsing the Date header's RFC 3339 text succeeds (the `expect` at src/imap/state.rs:136-137). The header date is used as it is.
- `Smtp.RefreshOutcome`, `Smtp.Client.RefreshOAuthAccessToken`: assume that the HTTP client for the token exchange builds (the `expect` at src/smtp/mod.rs:174-178). Only the grant's outcome is a parameter.
- `Credentials.Refreshed`, `ImapState.UnauthenticatedState.RefreshOAuthToken`, `Imap.LogIn`, `Imap.ImapThread`: assume the same for the IMAP refresh's HTTP client (the `expect`s at src/imap/state.rs:71-75 and src/imap.rs:83-87).
- `Imap.ReadInbox`, `ImapState.ReadInbox`: require `offset + count` to fit in `u32`. The `select`, `uid_search` and `uid_fetch` calls are `unwrap`ped; the server is assumed to answer them.
- `Imap.ImapThread`: `connect().unwrap()` is assumed to succeed; the connected server is a parameter.
- `Imap.Serve`, `Imap.ImapThread`: require that no window they read holds a message that `parse_mail` accepts but whose body does not decode. `Imap.ReadInbox` gives `None` for such a window, standing for the `get_body().unwrap()` panic. The thread ending there, and the front end then finding the channel closed, is not modelled.
- `src/imap/mod.rs` calls a `read_inbox` returning `Result`, while `src/imap/state.rs` returns a plain list of emails without UIDs. `ImapWorker` takes the reader as a parameter, and its emails carry the UID.
- The comment at `src/imap/mod.rs:43` says that `authenticate` already tries a refresh. It does not: the model follows the code, with one login and no refresh.
- `Smtp.Client.New`: the configured SMTP port is not passed to the relay, so it is not used. `src/smtp/config.rs` is configuration decoding and is left out. Only its `Auth`/`OAuthConfig` shape is kept, in `Credentials`. Its test at line 96 expects port 993 for a configuration that says 465; that is not reproduced.
- The inbox table widget (`src/tui/inbox.rs`) moves the selection itself. `Tui` takes the selection after each key as part of the step; its paging rules are not modelled.
- `Tui.ScreenState.Run`: models the loop's inbox state only. Switching between the Compose and Reading screens is modelled by the widgets' own methods, not inside `Run`. The debug-build panic on a failed `load_more` send is not modelled; the release-build `Ok` return is.
- `state.load().unwrap()` at start-up panics when the IMAP worker is already gone. `Tui.LoadStartsOneOutstanding` assumes the send goes through.
- `Compose.ComposeWidget.HandleEvent`, `Reading.ReadingWidget.HandleEvent`: the text-area library's editing is a parameter (`TextInput`); its own rules are not modelled.
- `EcttCompose.ComposeStep`, `EcttCompose.ComposeFields.Handle`: require that a character or Enter in the body falls inside its line (`Handles`). Beyond that, `String::insert` and slicing panic.
- `EcttReading.ReadingStep`, `EcttReading.ReadingWidget.Handle`: require `scroll < 65535` on Down. That is the `u16` overflow that panics in a debug build; the release wrap to 0 is not modelled.
- The file defining the OAuth client's `ScreenState` and `Screen` is not part of this model. `EcttApp` reads their shape off the handlers.
- `Combo.Fmt`: the formatter's write errors are not modelled. The text crossterm gives a key code or a modifier set is a parameter.
- `Popup`, `Loading`: `area.x` and `area.y` are ignored by the source (the box is placed from column and row 0), and the model does the same. The paragraph's wrapping is not modelled.

## Findings

| source | as written | input that shows it | evidently intended | confidence | as-written member | corrected member |
|---|---|---|---|---|---|---|
| src/tui/mod.rs:86 | `selected == self.inbox_state.inbox.len() - 1` on `usize` | an `Inbox` response with no emails (an empty mailbox) while row 0 is selected, then Down: `0 - 1` underflows | ask for more only when the selected row is the last row of a non-empty inbox | not executed | `Tui.LoadMoreGuardAsWritten`, `Tui.EmptyInboxGuardUnderflows` | `Tui.AtLastRow` via `Tui.LoadMoreSpec`, `Tui.AtLastRowAgrees` |
| src/tui/popup.rs:37 | `area.width / 2 - (message_with_padding / 2)` on `u16` | a dismissable popup (width 24) on a 20-column terminal: `10 - 12` underflows | centre the box, or put it at column 0 when it is wider than the area | not executed | `Popup.AreaAsWritten`, `Popup.NarrowTerminalUnderflows` | `Popup.Area`, `Popup.CenteredX`, `Popup.AreaInside` |
| src/tui/loading.rs:17 | `area.width / 2 - 11` on `u16` | a 21-column terminal: `10 - 11` underflows | the same centring as the popup | not executed | `Loading.LoadingAreaAsWritten`, `Loading.LoadingUnderflows` | `Loading.LoadingArea`, `Loading.LoadingAreaAgrees` |
| src/smtp/mod.rs:119-131 | a password goes with `Mechanism::Xoauth2`, an OAuth access token with `Mechanism::Plain` | any password configuration: the password is offered only as an XOAUTH2 bearer token | PLAIN for a password, XOAUTH2 for an access token, as the refresh at src/smtp/mod.rs:187-193 builds | not executed | `Smtp.InitialTransportAsWritten` via `Smtp.Client.New`, `Smtp.InitialMechanismSwapped`, `Smtp.PasswordOfferedAsXoauth2` | `Smtp.InitialTransport`, `Smtp.RefreshSwitchesMechanism` |

The SMTP client (`Smtp.Client`, `Smtp.Run`) is modelled as the code is written, with the swapped mechanisms. The corrected transport is stated on its own and set against it by `Smtp.RefreshSwitchesMechanism`.
