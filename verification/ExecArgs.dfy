/**
 * The exec-argument parser parseExecArgs of main.go: a scan that turns an argument list into
 * settings, and a switch that applies each setting to the configuration.
 */
module ExecArgs {
  import opened Common

  datatype Renegotiation = Never | OnceAsClient | FreelyAsClient

  datatype PkceMethod = PkceAuto | PkceNo | PkceS256

  datatype Config = Config(
    issuerURL: string, clientID: string, clientSecret: string, extraScopes: seq<string>, grantType: string,
    useAccessToken: bool, username: string, extraParams: map<string, string>, requestHeaders: map<string, string>,
    skipOpenBrowser: bool, listenAddress: seq<string>, browserCommand: string, authenticationTimeoutSec: int,
    localServerCertFile: string, localServerKeyFile: string, openURLAfterAuthentication: string,
    redirectURLHostname: string, forceRefresh: bool, tokenCacheDir: string, tokenCacheStorage: string,
    redirectURL: string, pkceMethod: PkceMethod, caCertFilename: seq<string>, caCertData: seq<string>,
    skipTLSVerify: bool, renegotiation: Renegotiation)

  const EMPTY := Config("", "", "", [], "", false, "", map[], map[], false, [], "", 0, "", "", "", "", false, "", "",
                        "", PkceAuto, [], [], false, Never)

  /** Integer parsing, as fmt.Sscanf does it; None is an error. */
  type Atoi = string -> Option<int>

  // ------------------------------------------------------------------ Strings

  predicate HasPrefix(s: string, p: string) { |p| <= |s| && s[..|p|] == p }

  predicate Has(s: string, c: char) { exists i | 0 <= i < |s| :: s[i] == c }

  /** The position of the first occurrence, or the length. */
  function Index(s: string, c: char): (n: nat)
    ensures n <= |s| && (n < |s| ==> s[n] == c) && forall i | 0 <= i < n :: s[i] != c
  {
    if s == "" || s[0] == c then 0 else 1 + Index(s[1..], c)
  }

  /** The bytes of a character, and of a string, in UTF-8, which is what Go's len counts. */
  function CharBytes(c: char): nat {
    if c < '\U{80}' then 1 else if c < '\U{800}' then 2 else if c < '\U{10000}' then 3 else 4
  }

  function ByteLength(s: string): (n: nat)
    ensures n >= |s|
  {
    if s == "" then 0 else CharBytes(s[0]) + ByteLength(s[1..])
  }

  function Lower(c: char): char { if 'A' <= c <= 'Z' then c - 'A' + 'a' else c }

  function ToLower(s: string): (r: string)
    ensures |r| == |s| && forall i | 0 <= i < |s| :: r[i] == Lower(s[i])
  {
    if s == "" then "" else [Lower(s[0])] + ToLower(s[1..])
  }

  predicate IsBoolean(s: string) { ToLower(s) == "true" || ToLower(s) == "false" }

  predicate IsSpace(c: char) {
    c in {' ', '\t', '\n', '\r', '\U{B}', '\U{C}', '\U{85}', '\U{A0}', '\U{1680}', '\U{2028}', '\U{2029}', '\U{202F}',
          '\U{205F}', '\U{3000}'}
    || '\U{2000}' <= c <= '\U{200A}'
  }

  function TrimLeft(s: string): string {
    if s != "" && IsSpace(s[0]) then TrimLeft(s[1..]) else s
  }

  function TrimRight(s: string): string {
    if s != "" && IsSpace(s[|s| - 1]) then TrimRight(s[..|s| - 1]) else s
  }

  function TrimSpace(s: string): string { TrimRight(TrimLeft(s)) }

  function SplitComma(s: string): seq<string>
    decreases |s|
  {
    var n := Index(s, ',');
    if n == |s| then [s] else [s[..n]] + SplitComma(s[n + 1..])
  }

  function NonEmptyTrimmed(parts: seq<string>): seq<string> {
    if parts == [] then [] else
      var t := TrimSpace(parts[0]);
      (if t != "" then [t] else []) + NonEmptyTrimmed(parts[1..])
  }

  /** The scopes one flag value stands for. */
  function Scopes(value: string): seq<string> {
    if value == "" then [] else NonEmptyTrimmed(SplitComma(value))
  }

  // ------------------------------------------------------------------ Scanning arguments into settings

  datatype Setting = Setting(key: string, value: string)

  predicate IsFlag(arg: string) { arg != "" && arg[0] == '-' }

  /** Single-dash long flags are read as double-dash ones. */
  function Normalize(arg: string): string {
    if |arg| > 1 && arg[0] == '-' && arg[1] != '-' && ByteLength(arg) > 2 then "-" + arg else arg
  }

  /** What one flag argument says by itself: a whole setting, or a key still without a value. */
  datatype Reading = Whole(setting: Setting) | BoolKey(key: string) | Key(key: string)

  function Read(arg: string): Reading {
    var a := Normalize(arg);
    var n := Index(a, '=');
    if n < |a| then Whole(Setting(a[..n], a[n + 1..]))
    else if IsBoolFlag(a) then BoolKey(a)
    else Key(a)
  }

  function Settings(args: seq<string>): seq<Setting>
    decreases |args|
  {
    if args == [] then []
    else if !IsFlag(args[0]) then Settings(args[1..])
    else
      match Read(args[0])
      case Whole(setting) => [setting] + Settings(args[1..])
      case BoolKey(key) =>
        if |args| > 1 && IsBoolean(args[1]) then [Setting(key, ToLower(args[1]))] + Settings(args[2..])
        else [Setting(key, "")] + Settings(args[1..])
      case Key(key) =>
        if |args| > 1 then [Setting(key, args[1])] + Settings(args[2..]) else [Setting(key, "")]
  }

  // ------------------------------------------------------------------ Applying settings

  datatype Flag =
    | IssuerURL | ClientID | ClientSecret | ExtraScope | GrantType | UseAccessToken | SkipOpenBrowser | ListenAddress
    | BrowserCommand | AuthenticationTimeout | LocalServerCert | LocalServerKey | OpenURLAfter | ForceRefresh
    | TokenCacheDir | TokenCacheStorage | Username | ExtraParam | RequestHeader | CertificateAuthority
    | CertificateAuthorityData | InsecureSkipTLSVerify | RenegotiationOnce | RenegotiationFreely | RedirectURL
    | PkceMethodFlag | UsePkce | RedirectURLHostname | Ignored

  /** The switch on the key, sorted by length. */
  function Lookup(key: string): Flag {
    match |key|
    case 10 => if key == "--username" then Username else Ignored
    case 12 => if key == "--grant-type" then GrantType else Ignored
    case 15 =>
      if key == "--force-refresh" then ForceRefresh
      else if key == "--oidc-use-pkce" then UsePkce
      else Ignored
    case 16 =>
      if key == "--oidc-client-id" then ClientID
      else if key == "--listen-address" then ListenAddress
      else Ignored
    case 17 =>
      if key == "--oidc-issuer-url" then IssuerURL
      else if key == "--browser-command" then BrowserCommand
      else if key == "--token-cache-dir" then TokenCacheDir
      else Ignored
    case 18 =>
      if key == "--oidc-extra-scope" then ExtraScope
      else if key == "--local-server-key" then LocalServerKey
      else if key == "--oidc-extra-param" then ExtraParam
      else if key == "--oidc-pkce-method" then PkceMethodFlag
      else Ignored
    case 19 =>
      if key == "--skip-open-browser" then SkipOpenBrowser
      else if key == "--local-server-cert" then LocalServerCert
      else if key == "--oidc-redirect-url" then RedirectURL
      else Ignored
    case 20 => if key == "--oidc-client-secret" then ClientSecret else Ignored
    case 21 =>
      if key == "--token-cache-storage" then TokenCacheStorage
      else if key == "--oidc-request-header" then RequestHeader
      else Ignored
    case 23 =>
      if key == "--oidc-use-access-token" then UseAccessToken
      else if key == "--certificate-authority" then CertificateAuthority
      else Ignored
    case 24 => if key == "--tls-renegotiation-once" then RenegotiationOnce else Ignored
    case 26 =>
      if key == "--insecure-skip-tls-verify" then InsecureSkipTLSVerify
      else if key == "--tls-renegotiation-freely" then RenegotiationFreely
      else Ignored
    case 28 =>
      if key == "--authentication-timeout-sec" then AuthenticationTimeout
      else if key == "--certificate-authority-data" then CertificateAuthorityData
      else if key == "--oidc-redirect-url-hostname" then RedirectURLHostname
      else Ignored
    case 31 => if key == "--open-url-after-authentication" then OpenURLAfter else Ignored
    case 32 => if key == "--oidc-auth-request-extra-params" then ExtraParam else Ignored
    case _ => Ignored
  }

  /** The boolean flags, which take no value of their own. */
  predicate IsSwitch(flag: Flag) {
    flag in {SkipOpenBrowser, ForceRefresh, UseAccessToken, UsePkce, InsecureSkipTLSVerify, RenegotiationOnce,
             RenegotiationFreely}
  }

  /** The table of boolean names holds each of them with two dashes and with one. */
  predicate IsBoolFlag(key: string) { IsSwitch(Lookup(key)) || IsSwitch(Lookup("-" + key)) }

  /** A key=value pair is split at its first equals sign. */
  function PutPair(m: map<string, string>, value: string): map<string, string> {
    var n := Index(value, '=');
    if value == "" then m
    else if n < |value| then m[value[..n] := value[n + 1..]]
    else m[value := ""]
  }

  function ParsePkce(s: string): PkceMethod {
    if s == "S256" then PkceS256 else if s == "" then PkceAuto else PkceNo
  }

  function ApplyFlag(c: Config, flag: Flag, v: string, atoi: Atoi): Config {
    match flag
    case IssuerURL => c.(issuerURL := v)
    case ClientID => c.(clientID := v)
    case ClientSecret => c.(clientSecret := v)
    case ExtraScope => c.(extraScopes := c.extraScopes + Scopes(v))
    case GrantType => c.(grantType := v)
    case UseAccessToken => c.(useAccessToken := v != "false")
    case SkipOpenBrowser => c.(skipOpenBrowser := v != "false")
    case ListenAddress => if v != "" then c.(listenAddress := c.listenAddress + [v]) else c
    case BrowserCommand => c.(browserCommand := v)
    case AuthenticationTimeout =>
      if v != "" && atoi(v).Some? then c.(authenticationTimeoutSec := atoi(v).value) else c
    case LocalServerCert => c.(localServerCertFile := v)
    case LocalServerKey => c.(localServerKeyFile := v)
    case OpenURLAfter => c.(openURLAfterAuthentication := v)
    case ForceRefresh => c.(forceRefresh := v != "false")
    case TokenCacheDir => c.(tokenCacheDir := v)
    case TokenCacheStorage => c.(tokenCacheStorage := v)
    case Username => c.(username := v)
    case ExtraParam => c.(extraParams := PutPair(c.extraParams, v))
    case RequestHeader => c.(requestHeaders := PutPair(c.requestHeaders, v))
    case CertificateAuthority => if v != "" then c.(caCertFilename := c.caCertFilename + [v]) else c
    case CertificateAuthorityData => if v != "" then c.(caCertData := c.caCertData + [v]) else c
    case InsecureSkipTLSVerify => c.(skipTLSVerify := v != "false")
    case RenegotiationOnce => if v != "false" then c.(renegotiation := OnceAsClient) else c
    case RenegotiationFreely => if v != "false" then c.(renegotiation := FreelyAsClient) else c
    case RedirectURL => c.(redirectURL := v)
    case PkceMethodFlag => c.(pkceMethod := ParsePkce(v))
    case UsePkce => if v != "false" then c.(pkceMethod := PkceS256) else c
    case RedirectURLHostname => c.(redirectURLHostname := v)
    case Ignored => c
  }

  function ApplyAll(c: Config, settings: seq<Setting>, atoi: Atoi): Config
    decreases |settings|
  {
    if settings == [] then c
    else ApplyAll(ApplyFlag(c, Lookup(settings[0].key), settings[0].value, atoi), settings[1..], atoi)
  }

  function Parse(args: seq<string>, atoi: Atoi): Config { ApplyAll(EMPTY, Settings(args), atoi) }

  /** The scan from position i on, in terms of the scan from the position the loop goes to. */
  lemma ScanFrom(args: seq<string>, i: nat)
    requires i < |args|
    ensures !IsFlag(args[i]) ==> Settings(args[i..]) == Settings(args[i + 1..])
    ensures IsFlag(args[i]) ==>
              Settings(args[i..]) ==
              match Read(args[i])
              case Whole(setting) => [setting] + Settings(args[i + 1..])
              case BoolKey(key) =>
                if i + 1 < |args| && IsBoolean(args[i + 1]) then
                  [Setting(key, ToLower(args[i + 1]))] + Settings(args[i + 2..])
                else [Setting(key, "")] + Settings(args[i + 1..])
              case Key(key) =>
                if i + 1 < |args| then [Setting(key, args[i + 1])] + Settings(args[i + 2..])
                else [Setting(key, "")] + Settings(args[i + 1..])
  {
    hide Read, IsFlag, IsBoolean;
    var left := args[i..];
    assert left[0] == args[i] && left[1..] == args[i + 1..];
    if i + 1 < |args| { assert left[1] == args[i + 1] && left[2..] == args[i + 2..]; }
  }

  lemma ApplyFirst(c: Config, setting: Setting, rest: seq<Setting>, atoi: Atoi)
    ensures ApplyAll(c, [setting] + rest, atoi)
            == ApplyAll(ApplyFlag(c, Lookup(setting.key), setting.value, atoi), rest, atoi)
  {
    hide Lookup, ApplyFlag;
    assert ([setting] + rest)[1..] == rest;
  }

  lemma NothingLeft(c: Config, atoi: Atoi)
    ensures ApplyAll(c, Settings([]), atoi) == c
  {
  }

  /** The index loop over the arguments. */
  method ParseExecArgs(args: seq<string>, atoi: Atoi) returns (cfg: Config)
    ensures cfg == Parse(args, atoi)
  {
    hide Lookup, ApplyFlag, IsBoolFlag, IsFlag, Settings, ApplyAll, ToLower, Normalize, Index;
    cfg := EMPTY;
    var i := 0;
    assert args[0..] == args;
    while i < |args|
      invariant i <= |args|
      invariant ApplyAll(cfg, Settings(args[i..]), atoi) == Parse(args, atoi)
    {
      ScanFrom(args, i);
      if !IsFlag(args[i]) {
        i := i + 1;
        continue;
      }
      ghost var left := Settings(args[i..]);
      var arg := Normalize(args[i]);
      var key, val := arg, "";
      var eqIdx := Index(arg, '=');
      if eqIdx < |arg| {
        key, val := arg[..eqIdx], arg[eqIdx + 1..];
        assert left == [Setting(key, val)] + Settings(args[i + 1..]);
      } else if IsBoolFlag(key) {
        if i + 1 < |args| {
          var next := ToLower(args[i + 1]);
          if next == "true" || next == "false" {
            val := next;
            i := i + 1;
          }
        }
        assert left == [Setting(key, val)] + Settings(args[i + 1..]);
      } else {
        if i + 1 < |args| {
          val := args[i + 1];
          i := i + 1;
        }
        assert left == [Setting(key, val)] + Settings(args[i + 1..]);
      }
      i := i + 1;
      ApplyFirst(cfg, Setting(key, val), Settings(args[i..]), atoi);
      cfg := ApplyFlag(cfg, Lookup(key), val, atoi);
    }
    assert args[i..] == [];
    NothingLeft(cfg, atoi);
  }

  // ------------------------------------------------------------------ Equivalent spellings

  /** The list ends in a flag that would take the next argument, whatever it is, as its value. */
  predicate Dangling(args: seq<string>)
    decreases |args|
  {
    if args == [] then false
    else if !IsFlag(args[0]) then Dangling(args[1..])
    else
      match Read(args[0])
      case Whole(_) => Dangling(args[1..])
      case BoolKey(_) => if |args| > 1 && IsBoolean(args[1]) then Dangling(args[2..]) else Dangling(args[1..])
      case Key(_) => |args| == 1 || Dangling(args[2..])
  }

  lemma FlagIsNotBoolean(arg: string)
    requires IsFlag(arg)
    ensures !IsBoolean(arg)
  {
    assert ToLower(arg)[0] == '-';
  }

  /** After a list that leaves nothing open, a flag starts a scan of its own. */
  lemma {:induction false} ScanAppends(pre: seq<string>, rest: seq<string>)
    requires !Dangling(pre) && rest != [] && IsFlag(rest[0])
    ensures Settings(pre + rest) == Settings(pre) + Settings(rest)
    decreases |pre|
  {
    hide Read, IsFlag, ToLower;
    if pre == [] {
      assert pre + rest == rest;
    } else {
      assert (pre + rest)[0] == pre[0] && (pre + rest)[1..] == pre[1..] + rest;
      if |pre| > 1 {
        assert (pre + rest)[1] == pre[1] && (pre + rest)[2..] == pre[2..] + rest;
        if !Dangling(pre[2..]) { ScanAppends(pre[2..], rest); }
      } else {
        assert (pre + rest)[1] == rest[0];
        FlagIsNotBoolean(rest[0]);
      }
      if !Dangling(pre[1..]) { ScanAppends(pre[1..], rest); }
    }
  }

  /** An open flag swallows the next argument. */
  lemma {:induction false} ScanSwallows(pre: seq<string>, next: string, rest: seq<string>)
    requires Dangling(pre)
    ensures var n := |Settings(pre)|;
            && n > 0 && |Settings(pre + [next] + rest)| >= n
            && Settings(pre + [next] + rest)[n - 1].value == next
    decreases |pre|
  {
    hide Read, IsFlag, ToLower;
    var all := pre + [next] + rest;
    assert all[0] == pre[0] && all[1..] == pre[1..] + [next] + rest;
    if |pre| > 1 {
      assert all[1] == pre[1] && all[2..] == pre[2..] + [next] + rest;
      if Dangling(pre[2..]) { ScanSwallows(pre[2..], next, rest); }
    } else {
      assert all[1] == next;
    }
    if Dangling(pre[1..]) { ScanSwallows(pre[1..], next, rest); }
  }

  lemma {:induction false} IndexSkips(a: string, b: string, c: char)
    requires forall i | 0 <= i < |a| :: a[i] != c
    ensures Index(a + b, c) == |a| + Index(b, c)
    decreases |a|
  {
    if a == "" {
      assert a + b == b;
    } else {
      assert (a + b)[1..] == a[1..] + b;
      IndexSkips(a[1..], b, c);
    }
  }

  /** A double-dash flag name, without a value attached. */
  predicate LongKey(key: string) { |key| >= 2 && key[0] == '-' && key[1] == '-' && !Has(key, '=') }

  lemma ReadWhole(key: string, value: string)
    requires LongKey(key)
    ensures IsFlag(key + "=" + value) && Read(key + "=" + value) == Whole(Setting(key, value))
  {
    var arg := key + "=" + value;
    assert arg == key + ("=" + value);
    IndexSkips(key, "=" + value, '=');
    assert arg[0] == '-' && arg[1] == '-';
    assert arg[..|key|] == key && arg[|key| + 1..] == value;
  }

  lemma ReadKey(key: string)
    requires LongKey(key)
    ensures IsFlag(key) && Read(key) == if IsBoolFlag(key) then BoolKey(key) else Key(key)
  {
    IndexSkips(key, "", '=');
    assert key + "" == key;
  }

  /** Two different flag arguments in one place give the same settings only if neither is swallowed. */
  lemma SameSettingsIff(pre: seq<string>, a: string, afterA: seq<string>, b: string, afterB: seq<string>)
    requires IsFlag(a) && IsFlag(b) && a != b
    ensures Settings(pre + [a] + afterA) == Settings(pre + [b] + afterB)
            <==> !Dangling(pre) && Settings([a] + afterA) == Settings([b] + afterB)
  {
    hide Settings, Dangling, IsFlag;
    if Dangling(pre) {
      ScanSwallows(pre, a, afterA);
      ScanSwallows(pre, b, afterB);
    } else {
      var one, two := [a] + afterA, [b] + afterB;
      assert pre + [a] + afterA == pre + one && pre + [b] + afterB == pre + two;
      ScanAppends(pre, one);
      ScanAppends(pre, two);
      CancelPrefix(Settings(pre), Settings(one), Settings(two));
    }
  }

  lemma CancelPrefix<T>(s: seq<T>, t: seq<T>, u: seq<T>)
    ensures s + t == s + u <==> t == u
  {
    assert (s + t)[|s|..] == t && (s + u)[|s|..] == u;
  }

  /**
   * Writing a non-boolean "--flag=value" as "--flag" "value" gives the same settings exactly when
   * no earlier flag takes the argument as its own value.
   */
  lemma SplitSpellingIff(pre: seq<string>, key: string, value: string, post: seq<string>)
    requires LongKey(key) && !IsBoolFlag(key)
    ensures Settings(pre + [key + "=" + value] + post) == Settings(pre + [key, value] + post) <==> !Dangling(pre)
  {
    SplitAlone(key, value, post);
    LongerThan(key, value);
    hide *;
    SplitInPlace(pre, key + "=" + value, key, value, post);
  }

  lemma LongerThan(key: string, value: string)
    ensures key + "=" + value != key
  {
    assert |key + "=" + value| > |key|;
  }

  lemma SplitInPlace(pre: seq<string>, arg: string, key: string, value: string, post: seq<string>)
    requires IsFlag(arg) && IsFlag(key) && arg != key && Settings([arg] + post) == Settings([key, value] + post)
    ensures Settings(pre + [arg] + post) == Settings(pre + [key, value] + post) <==> !Dangling(pre)
  {
    hide *;
    SameSettingsIff(pre, arg, post, key, [value] + post);
    assert [key] + ([value] + post) == [key, value] + post;
    assert pre + [key] + ([value] + post) == pre + [key, value] + post;
  }

  lemma SplitAlone(key: string, value: string, post: seq<string>)
    requires LongKey(key) && !IsBoolFlag(key)
    ensures Settings([key + "=" + value] + post) == Settings([key, value] + post)
    ensures IsFlag(key + "=" + value) && IsFlag(key)
  {
    ReadWhole(key, value);
    ReadKey(key);
    hide Read, IsFlag, IsBoolFlag, LongKey;
    var one, two := [key + "=" + value] + post, [key, value] + post;
    assert one[0] == key + "=" + value && one[1..] == post && two[0] == key && two[1] == value && two[2..] == post;
  }

  /**
   * Writing "--flag" (with or without a value attached) as "-flag" gives the same settings exactly
   * when what follows the dash has two bytes or more and no earlier flag takes the argument.
   */
  lemma DashSpellingIff(pre: seq<string>, text: string, post: seq<string>)
    requires text == "" || text[0] != '-'
    ensures Settings(pre + ["--" + text] + post) == Settings(pre + ["-" + text] + post)
            <==> ByteLength(text) >= 2 && !Dangling(pre)
  {
    var long, short := "--" + text, "-" + text;
    assert IsFlag(long) && IsFlag(short) && long != short;
    DashedForms(text);
    hide Settings, Dangling, Normalize, IsFlag;
    SameSettingsIff(pre, long, post, short, post);
    if ByteLength(text) >= 2 {
      SameReading(long, short, post);
    } else {
      ShortKeysDiffer(text, post);
    }
  }

  lemma DashedForms(text: string)
    requires text == "" || text[0] != '-'
    ensures Normalize("--" + text) == "--" + text
    ensures Normalize("-" + text) == if ByteLength(text) >= 2 then "--" + text else "-" + text
  {
    var short := "-" + text;
    assert short[1..] == text;
    assert ByteLength(short) == 1 + ByteLength(text);
    assert "-" + short == "--" + text;
    if text != "" { assert short[1] == text[0]; }
  }

  lemma SameReading(a: string, b: string, post: seq<string>)
    requires IsFlag(a) && IsFlag(b) && Normalize(a) == Normalize(b)
    ensures Settings([a] + post) == Settings([b] + post)
  {
    hide Normalize, IsFlag, IsBoolFlag, Index;
    var one, two := [a] + post, [b] + post;
    assert one[0] == a && two[0] == b && one[1..] == post == two[1..];
    if post != [] { assert one[2..] == post[1..] == two[2..] && one[1] == post[0] == two[1]; }
  }

  lemma ShortKeysDiffer(text: string, post: seq<string>)
    requires ByteLength(text) < 2 && (text == "" || text[0] != '-')
    ensures var one, two := Settings(["--" + text] + post), Settings(["-" + text] + post);
            one != [] && two != [] && one[0] != two[0]
  {
    var long, short := "--" + text, "-" + text;
    KeyLength(long, post);
    KeyLength(short, post);
    DashedForms(text);
    assert Index(long, '=') == (if text == "=" then 2 else |long|);
    assert Index(short, '=') == (if text == "=" then 1 else |short|);
  }

  lemma KeyLength(arg: string, post: seq<string>)
    requires IsFlag(arg)
    ensures Settings([arg] + post) != [] && |Settings([arg] + post)[0].key| == Index(Normalize(arg), '=')
  {
    assert ([arg] + post)[0] == arg;
  }

  /** So neither rewriting changes the parsed configuration at a place where a flag is read. */
  lemma SplitIrrelevant(pre: seq<string>, key: string, value: string, post: seq<string>, atoi: Atoi)
    requires !Dangling(pre) && LongKey(key) && !IsBoolFlag(key)
    ensures Parse(pre + [key + "=" + value] + post, atoi) == Parse(pre + [key, value] + post, atoi)
  {
    hide Settings, ApplyAll, Dangling, LongKey, IsBoolFlag;
    SplitSpellingIff(pre, key, value, post);
  }

  lemma DashIrrelevant(pre: seq<string>, text: string, post: seq<string>, atoi: Atoi)
    requires !Dangling(pre) && ByteLength(text) >= 2 && text[0] != '-'
    ensures Parse(pre + ["--" + text] + post, atoi) == Parse(pre + ["-" + text] + post, atoi)
  {
    hide Settings, ApplyAll, Dangling;
    DashSpellingIff(pre, text, post);
  }
}
