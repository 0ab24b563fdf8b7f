/** The names of the exec-argument flags, and that the switch on the key knows exactly these. */
module FlagNames {
  import opened Common
  import opened ExecArgs

  /** How each flag is written. */
  function Text(flag: Flag): string {
    match flag
    case IssuerURL => "--oidc-issuer-url"
    case ClientID => "--oidc-client-id"
    case ClientSecret => "--oidc-client-secret"
    case ExtraScope => "--oidc-extra-scope"
    case GrantType => "--grant-type"
    case UseAccessToken => "--oidc-use-access-token"
    case SkipOpenBrowser => "--skip-open-browser"
    case ListenAddress => "--listen-address"
    case BrowserCommand => "--browser-command"
    case AuthenticationTimeout => "--authentication-timeout-sec"
    case LocalServerCert => "--local-server-cert"
    case LocalServerKey => "--local-server-key"
    case OpenURLAfter => "--open-url-after-authentication"
    case ForceRefresh => "--force-refresh"
    case TokenCacheDir => "--token-cache-dir"
    case TokenCacheStorage => "--token-cache-storage"
    case Username => "--username"
    case ExtraParam => "--oidc-extra-param"
    case RequestHeader => "--oidc-request-header"
    case CertificateAuthority => "--certificate-authority"
    case CertificateAuthorityData => "--certificate-authority-data"
    case InsecureSkipTLSVerify => "--insecure-skip-tls-verify"
    case RenegotiationOnce => "--tls-renegotiation-once"
    case RenegotiationFreely => "--tls-renegotiation-freely"
    case RedirectURL => "--oidc-redirect-url"
    case PkceMethodFlag => "--oidc-pkce-method"
    case UsePkce => "--oidc-use-pkce"
    case RedirectURLHostname => "--oidc-redirect-url-hostname"
    case Ignored => "--v"
  }

  /** A name that the switch knows as this flag. */
  predicate Names(key: string, flag: Flag) { Lookup(key) == flag && LongKey(key) }

  lemma NameIssuerURL(key: string)
    requires key == "--oidc-issuer-url"
    ensures Names(key, IssuerURL)
  {
  }

  lemma NameClientID(key: string)
    requires key == "--oidc-client-id"
    ensures Names(key, ClientID)
  {
  }

  lemma NameClientSecret(key: string)
    requires key == "--oidc-client-secret"
    ensures Names(key, ClientSecret)
  {
  }

  lemma NameExtraScope(key: string)
    requires key == "--oidc-extra-scope"
    ensures Names(key, ExtraScope)
  {
  }

  lemma NameGrantType(key: string)
    requires key == "--grant-type"
    ensures Names(key, GrantType)
  {
  }

  lemma NameUseAccessToken(key: string)
    requires key == "--oidc-use-access-token"
    ensures Names(key, UseAccessToken)
  {
  }

  lemma NameSkipOpenBrowser(key: string)
    requires key == "--skip-open-browser"
    ensures Names(key, SkipOpenBrowser)
  {
  }

  lemma NameListenAddress(key: string)
    requires key == "--listen-address"
    ensures Names(key, ListenAddress)
  {
  }

  lemma NameBrowserCommand(key: string)
    requires key == "--browser-command"
    ensures Names(key, BrowserCommand)
  {
  }

  lemma NameAuthenticationTimeout(key: string)
    requires key == "--authentication-timeout-sec"
    ensures Names(key, AuthenticationTimeout)
  {
  }

  lemma NameLocalServerCert(key: string)
    requires key == "--local-server-cert"
    ensures Names(key, LocalServerCert)
  {
  }

  lemma NameLocalServerKey(key: string)
    requires key == "--local-server-key"
    ensures Names(key, LocalServerKey)
  {
  }

  lemma NameOpenURLAfter(key: string)
    requires key == "--open-url-after-authentication"
    ensures Names(key, OpenURLAfter)
  {
  }

  lemma NameForceRefresh(key: string)
    requires key == "--force-refresh"
    ensures Names(key, ForceRefresh)
  {
  }

  lemma NameTokenCacheDir(key: string)
    requires key == "--token-cache-dir"
    ensures Names(key, TokenCacheDir)
  {
  }

  lemma NameTokenCacheStorage(key: string)
    requires key == "--token-cache-storage"
    ensures Names(key, TokenCacheStorage)
  {
  }

  lemma NameUsername(key: string)
    requires key == "--username"
    ensures Names(key, Username)
  {
  }

  lemma NameExtraParam(key: string)
    requires key == "--oidc-extra-param"
    ensures Names(key, ExtraParam)
  {
  }

  lemma NameRequestHeader(key: string)
    requires key == "--oidc-request-header"
    ensures Names(key, RequestHeader)
  {
  }

  lemma NameCertificateAuthority(key: string)
    requires key == "--certificate-authority"
    ensures Names(key, CertificateAuthority)
  {
  }

  lemma NameCertificateAuthorityData(key: string)
    requires key == "--certificate-authority-data"
    ensures Names(key, CertificateAuthorityData)
  {
  }

  lemma NameInsecureSkipTLSVerify(key: string)
    requires key == "--insecure-skip-tls-verify"
    ensures Names(key, InsecureSkipTLSVerify)
  {
  }

  lemma NameRenegotiationOnce(key: string)
    requires key == "--tls-renegotiation-once"
    ensures Names(key, RenegotiationOnce)
  {
  }

  lemma NameRenegotiationFreely(key: string)
    requires key == "--tls-renegotiation-freely"
    ensures Names(key, RenegotiationFreely)
  {
  }

  lemma NameRedirectURL(key: string)
    requires key == "--oidc-redirect-url"
    ensures Names(key, RedirectURL)
  {
  }

  lemma NamePkceMethodFlag(key: string)
    requires key == "--oidc-pkce-method"
    ensures Names(key, PkceMethodFlag)
  {
  }

  lemma NameUsePkce(key: string)
    requires key == "--oidc-use-pkce"
    ensures Names(key, UsePkce)
  {
  }

  lemma NameRedirectURLHostname(key: string)
    requires key == "--oidc-redirect-url-hostname"
    ensures Names(key, RedirectURLHostname)
  {
  }

  /** Every flag is known by its text. */
  lemma LookupText(flag: Flag)
    requires flag != Ignored
    ensures Lookup(Text(flag)) == flag && LongKey(Text(flag))
  {
    var key := Text(flag);
    assert Names(key, flag) by {
      hide Names;
      match flag
      case IssuerURL => NameIssuerURL(key);
      case ClientID => NameClientID(key);
      case ClientSecret => NameClientSecret(key);
      case ExtraScope => NameExtraScope(key);
      case GrantType => NameGrantType(key);
      case UseAccessToken => NameUseAccessToken(key);
      case SkipOpenBrowser => NameSkipOpenBrowser(key);
      case ListenAddress => NameListenAddress(key);
      case BrowserCommand => NameBrowserCommand(key);
      case AuthenticationTimeout => NameAuthenticationTimeout(key);
      case LocalServerCert => NameLocalServerCert(key);
      case LocalServerKey => NameLocalServerKey(key);
      case OpenURLAfter => NameOpenURLAfter(key);
      case ForceRefresh => NameForceRefresh(key);
      case TokenCacheDir => NameTokenCacheDir(key);
      case TokenCacheStorage => NameTokenCacheStorage(key);
      case Username => NameUsername(key);
      case ExtraParam => NameExtraParam(key);
      case RequestHeader => NameRequestHeader(key);
      case CertificateAuthority => NameCertificateAuthority(key);
      case CertificateAuthorityData => NameCertificateAuthorityData(key);
      case InsecureSkipTLSVerify => NameInsecureSkipTLSVerify(key);
      case RenegotiationOnce => NameRenegotiationOnce(key);
      case RenegotiationFreely => NameRenegotiationFreely(key);
      case RedirectURL => NameRedirectURL(key);
      case PkceMethodFlag => NamePkceMethodFlag(key);
      case UsePkce => NameUsePkce(key);
      case RedirectURLHostname => NameRedirectURLHostname(key);
    }
    hide Lookup, Text, LongKey;
  }

  /** The other spelling of the parameter flag. */
  lemma LookupOtherParam(key: string)
    requires key == "--oidc-auth-request-extra-params"
    ensures Lookup(key) == ExtraParam && LongKey(key)
  {
  }

  lemma NotLookedUp(key: string)
    requires key != "--oidc-auth-request-extra-params" && forall flag: Flag | flag != Ignored :: Text(flag) != key
    ensures Lookup(key) == Ignored
  {
    hide Lookup, Text;
    if Lookup(key) != Ignored {
      TextOfLookup(key);
    }
  }

  lemma ShortText(key: string)
    requires Lookup(key) != Ignored && |key| < 18
    ensures Text(Lookup(key)) == key
  {
  }

  lemma MiddleText(key: string)
    requires Lookup(key) != Ignored && 18 <= |key| < 22
    ensures Text(Lookup(key)) == key
  {
  }

  lemma LongText(key: string)
    requires Lookup(key) != Ignored && 22 <= |key| < 27
    ensures Text(Lookup(key)) == key
  {
  }

  lemma LongestText(key: string)
    requires Lookup(key) != Ignored && 27 <= |key| && key != "--oidc-auth-request-extra-params"
    ensures Text(Lookup(key)) == key
  {
  }

  /** And a key that is looked up is some flag's text, or the other spelling of the parameter flag. */
  lemma TextOfLookup(key: string)
    requires Lookup(key) != Ignored && key != "--oidc-auth-request-extra-params"
    ensures Text(Lookup(key)) == key
  {
    hide Lookup, Text;
    if |key| < 18 { ShortText(key); }
    else if |key| < 22 { MiddleText(key); }
    else if |key| < 27 { LongText(key); }
    else { LongestText(key); }
  }

  // ------------------------------------------------------------------ Boolean names

  lemma ShortThird(key: string)
    requires Lookup(key) != Ignored && |key| < 19
    ensures key[2] != '-'
  {
  }

  lemma MiddleThird(key: string)
    requires Lookup(key) != Ignored && 19 <= |key| < 24
    ensures key[2] != '-'
  {
  }

  lemma LongThird(key: string)
    requires Lookup(key) != Ignored && |key| >= 24
    ensures key[2] != '-'
  {
  }

  /** No name has three dashes, so a flag's text is boolean exactly if the flag is. */
  lemma BooleanText(flag: Flag)
    requires flag != Ignored
    ensures IsBoolFlag(Text(flag)) <==> IsSwitch(flag)
  {
    LookupText(flag);
    var dashed := "-" + Text(flag);
    assert dashed[2] == Text(flag)[1] == '-';
    hide Lookup, Text;
    if Lookup(dashed) != Ignored {
      if |dashed| < 19 { ShortThird(dashed); }
      else if |dashed| < 24 { MiddleThird(dashed); }
      else { LongThird(dashed); }
    }
  }
}
