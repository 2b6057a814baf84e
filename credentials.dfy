/**
 * The credential shape both backends share (`Auth`, `OAuthConfig`) and what a
 * single access-token refresh does to it. The refresh-token grant itself
 * (section 6 of RFC 6749, sent to `token_url` with redirects disabled) is an
 * HTTP exchange; its outcome is a parameter.
 */
module Credentials {

  datatype OAuthConfig = OAuthConfig(
    clientId: string,
    clientSecret: string,
    accessToken: string,
    refreshToken: string,
    authUrl: string,
    tokenUrl: string)

  /** Exactly one kind of secret is live per backend. */
  datatype Auth = Password(raw: string) | OAuth(oauth: OAuthConfig)

  /** The IMAP backend's configuration. */
  datatype ImapConfig = ImapConfig(host: string, port: nat, login: string, auth: Auth)

  /** The SMTP backend's configuration. */
  datatype SmtpConfig = SmtpConfig(host: string, port: nat, login: string, auth: Auth)

  /** Outcome of one refresh-token grant: a new access token, or the error the token endpoint gave. */
  datatype Grant = Granted(accessToken: string) | GrantFailed(reason: string)

  /**
   * The credentials after one refresh call: a password is left alone (the
   * exchange is never made); OAuth credentials take the granted access token
   * and keep every other field, refresh token included; a failed grant
   * changes nothing.
   */
  function Refreshed(auth: Auth, grant: Grant): (r: Auth)
    ensures auth.Password? ==> r == auth
    ensures grant.GrantFailed? ==> r == auth
    ensures auth.OAuth? ==> (
      && r.OAuth?
      && r.oauth.clientId == auth.oauth.clientId
      && r.oauth.clientSecret == auth.oauth.clientSecret
      && r.oauth.refreshToken == auth.oauth.refreshToken
      && r.oauth.authUrl == auth.oauth.authUrl
      && r.oauth.tokenUrl == auth.oauth.tokenUrl)
    ensures auth.OAuth? && grant.Granted? ==> r.oauth.accessToken == grant.accessToken
  {
    match auth
    case Password(_) => auth
    case OAuth(c) =>
      if grant.Granted? then OAuth(c.(accessToken := grant.accessToken)) else auth
  }

  /** Whether the refresh call returns `Ok(())`: always for a password, otherwise iff the grant succeeded. */
  predicate RefreshSucceeds(auth: Auth, grant: Grant)
  {
    auth.Password? || grant.Granted?
  }
}
