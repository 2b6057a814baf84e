/** The XOAUTH2 authenticator of `src/imap/oauth.rs`. */
module ImapOAuth {
  import opened Wrappers
  import opened Credentials
  import opened Text

  /** The ^A (0x01) separator of the XOAUTH2 SASL initial response. */
  const Soh: char := '\U{1}'

  /** The user logging in and the OAuth configuration whose access token it presents. */
  datatype OAuthConfigWithUser = OAuthConfigWithUser(user: string, config: OAuthConfig)

  /** `OAuthConfigWithUser::new`: keeps the user and the config as given. */
  function New(user: string, config: OAuthConfig): (r: OAuthConfigWithUser)
    ensures r.user == user && r.config == config
  {
    OAuthConfigWithUser(user, config)
  }

  /**
   * `process`: the XOAUTH2 initial client response
   * `user=<user>^Aauth=Bearer <access token>^A^A`, whatever the server's challenge.
   */
  function Process(a: OAuthConfigWithUser, challenge: seq<bv8>): (r: string)
    ensures |r| == 20 + |a.user| + |a.config.accessToken|
    ensures r[..5] == "user=" && r[5..5 + |a.user|] == a.user
    ensures r[5 + |a.user|..18 + |a.user|] == [Soh] + "auth=Bearer "
    ensures r[18 + |a.user|..|r| - 2] == a.config.accessToken
    ensures r[|r| - 2..] == [Soh, Soh]
  {
    "user=" + a.user + [Soh] + "auth=Bearer " + a.config.accessToken + [Soh, Soh]
  }

  /**
   * A server-side reading of an XOAUTH2 response: split at ^A into
   * `user=<u>`, `auth=Bearer <t>` and two empty pieces.
   */
  function ParseXoauth2(r: string): Option<(string, string)>
  {
    var pieces := Split(r, Soh);
    if |pieces| == 4 && pieces[2] == [] && pieces[3] == []
       && |pieces[0]| >= 5 && pieces[0][..5] == "user="
       && |pieces[1]| >= 12 && pieces[1][..12] == "auth=Bearer "
    then Some((pieces[0][5..], pieces[1][12..]))
    else None
  }

  /** When neither the user nor the token holds ^A, the response splits back into exactly the user and the token. */
  lemma ProcessParses(a: OAuthConfigWithUser, challenge: seq<bv8>)
    requires Soh !in a.user && Soh !in a.config.accessToken
    ensures Split(Process(a, challenge), Soh)
         == ["user=" + a.user, "auth=Bearer " + a.config.accessToken, [], []]
    ensures ParseXoauth2(Process(a, challenge)) == Some((a.user, a.config.accessToken))
  {
    var u, t := "user=" + a.user, "auth=Bearer " + a.config.accessToken;
    assert Soh !in u && Soh !in t;
    assert Process(a, challenge) == u + [Soh] + (t + [Soh] + ([] + [Soh] + []));
    SplitCons([], [], Soh);
    SplitWithoutSeparator([], Soh);
    SplitCons(t, [] + [Soh] + [], Soh);
    SplitCons(u, t + [Soh] + ([] + [Soh] + []), Soh);
    assert u[5..] == a.user && t[12..] == a.config.accessToken;
  }
}
