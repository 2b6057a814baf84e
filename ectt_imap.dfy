/** The XOAUTH2 authenticator of `ectt-oauth/src/imap.rs`, a second copy of the same formatter. */
module EcttImap {
  import opened Credentials
  import ImapOAuth

  datatype OAuth2ImapAuthenticator = OAuth2ImapAuthenticator(user: string, accessToken: string)

  /**
   * `process`: ignores the challenge and gives the same response as
   * `src/imap/oauth.rs` for the same user and access token.
   */
  function Process(a: OAuth2ImapAuthenticator, challenge: seq<bv8>): (r: string)
    ensures forall config: OAuthConfig, other: seq<bv8> | config.accessToken == a.accessToken ::
      r == ImapOAuth.Process(ImapOAuth.OAuthConfigWithUser(a.user, config), other)
    ensures |r| == 20 + |a.user| + |a.accessToken|
    ensures r[|r| - 2..] == [ImapOAuth.Soh, ImapOAuth.Soh]
    ensures r[|a.user| + 6..|a.user| + 18] == "auth=Bearer "
    ensures r[|a.user| + 18..|r| - 2] == a.accessToken
  {
    "user=" + a.user + [ImapOAuth.Soh] + "auth=Bearer " + a.accessToken + [ImapOAuth.Soh, ImapOAuth.Soh]
  }
}
