/**
 * What every exec-argument flag does to the parsed configuration, flag by flag: the field it sets,
 * which values it ignores, and the bare form of the boolean flags.
 */
module FlagMeanings {
  import opened Common
  import opened ExecArgs
  import opened FlagNames

  // ------------------------------------------------------------------ One flag at the end of a list

  lemma {:induction false} ApplyInTurn(c: Config, a: seq<Setting>, b: seq<Setting>, atoi: Atoi)
    ensures ApplyAll(c, a + b, atoi) == ApplyAll(ApplyAll(c, a, atoi), b, atoi)
    decreases |a|
  {
    hide Lookup, ApplyFlag;
    if a == [] {
      assert a + b == b;
    } else {
      assert (a + b)[0] == a[0] && (a + b)[1..] == a[1..] + b;
      ApplyInTurn(ApplyFlag(c, Lookup(a[0].key), a[0].value, atoi), a[1..], b, atoi);
    }
  }

  /** Where a flag is read, what follows is read on its own, after what came before. */
  lemma ParseAppends(pre: seq<string>, rest: seq<string>, atoi: Atoi)
    requires !Dangling(pre) && rest != [] && IsFlag(rest[0])
    ensures Parse(pre + rest, atoi) == ApplyAll(Parse(pre, atoi), Settings(rest), atoi)
  {
    hide Settings, ApplyAll, Dangling, IsFlag;
    ScanAppends(pre, rest);
    ApplyInTurn(EMPTY, Settings(pre), Settings(rest), atoi);
  }

  lemma ApplyOne(c: Config, setting: Setting, atoi: Atoi)
    ensures ApplyAll(c, [setting], atoi) == ApplyFlag(c, Lookup(setting.key), setting.value, atoi)
  {
    hide Lookup, ApplyFlag;
    assert ApplyAll(c, [setting], atoi) == ApplyAll(ApplyFlag(c, Lookup(setting.key), setting.value, atoi), [], atoi);
  }

  lemma OneItem(key: string, value: string)
    requires LongKey(key)
    ensures Settings([key + "=" + value]) == [Setting(key, value)] && IsFlag(key + "=" + value)
  {
    ReadWhole(key, value);
    hide Read, IsFlag, LongKey;
    assert [key + "=" + value][1..] == [];
  }

  lemma FlagApplied(pre: seq<string>, key: string, value: string, atoi: Atoi)
    requires !Dangling(pre) && LongKey(key)
    ensures Parse(pre + [key + "=" + value], atoi) == ApplyFlag(Parse(pre, atoi), Lookup(key), value, atoi)
  {
    OneItem(key, value);
    hide Parse, ApplyAll, Settings, Dangling, LongKey, Lookup, ApplyFlag, IsFlag;
    ParseAppends(pre, [key + "=" + value], atoi);
    ApplyOne(Parse(pre, atoi), Setting(key, value), atoi);
  }

  // ------------------------------------------------------------------ What each flag means

  /** Flags that take their value as it is. */
  lemma TextFlags(pre: seq<string>, value: string, atoi: Atoi, flag: Flag)
    requires !Dangling(pre)
    ensures var c, d := Parse(pre, atoi), Parse(pre + [Text(flag) + "=" + value], atoi);
            && (flag == IssuerURL ==> d == c.(issuerURL := value))
            && (flag == ClientID ==> d == c.(clientID := value))
            && (flag == ClientSecret ==> d == c.(clientSecret := value))
            && (flag == GrantType ==> d == c.(grantType := value))
            && (flag == BrowserCommand ==> d == c.(browserCommand := value))
            && (flag == LocalServerCert ==> d == c.(localServerCertFile := value))
            && (flag == LocalServerKey ==> d == c.(localServerKeyFile := value))
            && (flag == OpenURLAfter ==> d == c.(openURLAfterAuthentication := value))
            && (flag == TokenCacheDir ==> d == c.(tokenCacheDir := value))
            && (flag == TokenCacheStorage ==> d == c.(tokenCacheStorage := value))
            && (flag == Username ==> d == c.(username := value))
            && (flag == RedirectURL ==> d == c.(redirectURL := value))
            && (flag == RedirectURLHostname ==> d == c.(redirectURLHostname := value))
  {
    hide Parse, Dangling, Text, Lookup, LongKey;
    if flag != Ignored {
      LookupText(flag);
      FlagApplied(pre, Text(flag), value, atoi);
    }
  }

  /** Boolean flags are on unless their value is "false"; the three that choose a mode leave it then. */
  lemma BooleanFlags(pre: seq<string>, value: string, atoi: Atoi, flag: Flag)
    requires !Dangling(pre)
    ensures var c, d := Parse(pre, atoi), Parse(pre + [Text(flag) + "=" + value], atoi);
            var on := value != "false";
            && (flag == UseAccessToken ==> d == c.(useAccessToken := on))
            && (flag == SkipOpenBrowser ==> d == c.(skipOpenBrowser := on))
            && (flag == ForceRefresh ==> d == c.(forceRefresh := on))
            && (flag == InsecureSkipTLSVerify ==> d == c.(skipTLSVerify := on))
            && (flag == RenegotiationOnce ==> d == if on then c.(renegotiation := OnceAsClient) else c)
            && (flag == RenegotiationFreely ==> d == if on then c.(renegotiation := FreelyAsClient) else c)
            && (flag == UsePkce ==> d == if on then c.(pkceMethod := PkceS256) else c)
  {
    hide Parse, Dangling, Text, Lookup, LongKey;
    if flag != Ignored {
      LookupText(flag);
      FlagApplied(pre, Text(flag), value, atoi);
    }
  }

  /** Flags that add to a list or a map, and the ones that parse their value; an empty value adds nothing. */
  lemma OtherFlags(pre: seq<string>, value: string, atoi: Atoi, flag: Flag)
    requires !Dangling(pre)
    ensures var c, d := Parse(pre, atoi), Parse(pre + [Text(flag) + "=" + value], atoi);
            && (flag == ListenAddress ==>
                d == if value == "" then c else c.(listenAddress := c.listenAddress + [value]))
            && (flag == CertificateAuthority ==>
                  d == if value == "" then c else c.(caCertFilename := c.caCertFilename + [value]))
            && (flag == CertificateAuthorityData ==>
                  d == if value == "" then c else c.(caCertData := c.caCertData + [value]))
            && (flag == ExtraScope ==> d == c.(extraScopes := c.extraScopes + Scopes(value)))
            && (flag == ExtraParam ==> d == c.(extraParams := PutPair(c.extraParams, value)))
            && (flag == RequestHeader ==> d == c.(requestHeaders := PutPair(c.requestHeaders, value)))
            && (flag == AuthenticationTimeout ==>
                  d == if value == "" || atoi(value).None? then c
                       else c.(authenticationTimeoutSec := atoi(value).value))
            && (flag == PkceMethodFlag ==>
                  d == c.(pkceMethod := if value == "S256" then PkceS256 else if value == "" then PkceAuto else PkceNo))
  {
    hide Parse, Dangling, Text, Lookup, LongKey, Scopes, PutPair;
    if flag != Ignored {
      LookupText(flag);
      FlagApplied(pre, Text(flag), value, atoi);
    }
  }

  lemma OtherParamFlag(pre: seq<string>, value: string, atoi: Atoi)
    requires !Dangling(pre)
    ensures var c := Parse(pre, atoi);
            Parse(pre + ["--oidc-auth-request-extra-params" + "=" + value], atoi)
            == c.(extraParams := PutPair(c.extraParams, value))
  {
    hide Parse, Dangling, Lookup, LongKey, PutPair;
    LookupOtherParam("--oidc-auth-request-extra-params");
    FlagApplied(pre, "--oidc-auth-request-extra-params", value, atoi);
  }

  /** Any other flag is skipped, with its value. */
  lemma UnknownFlag(pre: seq<string>, key: string, value: string, atoi: Atoi)
    requires !Dangling(pre) && LongKey(key) && key != "--oidc-auth-request-extra-params"
    requires forall flag: Flag | flag != Ignored :: Text(flag) != key
    ensures Parse(pre + [key + "=" + value], atoi) == Parse(pre, atoi)
  {
    hide Parse, Dangling, Lookup, LongKey, Text;
    NotLookedUp(key);
    FlagApplied(pre, key, value, atoi);
  }

  // ------------------------------------------------------------------ Boolean flags without a value

  lemma BareSettings(key: string, rest: seq<string>)
    requires LongKey(key) && IsBoolFlag(key) && (rest == [] || !IsBoolean(rest[0]))
    ensures Settings([key] + rest) == [Setting(key, "")] + Settings(rest) && IsFlag(key)
  {
    ReadKey(key);
    hide Read, IsBoolFlag, LongKey, IsBoolean, IsFlag;
    assert ([key] + rest)[1..] == rest;
  }

  lemma WordSettings(key: string, word: string, rest: seq<string>)
    requires LongKey(key) && IsBoolFlag(key) && IsBoolean(word)
    ensures Settings([key, word] + rest) == [Setting(key, ToLower(word))] + Settings(rest) && IsFlag(key)
  {
    ReadKey(key);
    hide Read, IsBoolFlag, LongKey, IsBoolean, IsFlag, ToLower;
    var all := [key, word] + rest;
    assert all[0] == key && all[1] == word && all[2..] == rest;
  }

  /** What turning a boolean flag on does. */
  ghost predicate TurnedOn(c: Config, d: Config, flag: Flag) {
    && (flag == UseAccessToken ==> d == c.(useAccessToken := true))
    && (flag == SkipOpenBrowser ==> d == c.(skipOpenBrowser := true))
    && (flag == ForceRefresh ==> d == c.(forceRefresh := true))
    && (flag == InsecureSkipTLSVerify ==> d == c.(skipTLSVerify := true))
    && (flag == RenegotiationOnce ==> d == c.(renegotiation := OnceAsClient))
    && (flag == RenegotiationFreely ==> d == c.(renegotiation := FreelyAsClient))
    && (flag == UsePkce ==> d == c.(pkceMethod := PkceS256))
  }

  lemma TurnsOn(c: Config, flag: Flag, value: string, atoi: Atoi)
    requires value != "false"
    ensures TurnedOn(c, ApplyFlag(c, flag, value, atoi), flag)
  {
  }

  /** The seven flags that need no value; every other flag takes the next argument. */
  lemma SwitchesAre(flag: Flag)
    requires flag != Ignored
    ensures IsBoolFlag(Text(flag)) <==>
            || flag == UseAccessToken || flag == SkipOpenBrowser || flag == ForceRefresh
            || flag == InsecureSkipTLSVerify
            || flag == RenegotiationOnce || flag == RenegotiationFreely || flag == UsePkce
  {
    BooleanText(flag);
    hide IsBoolFlag, Text;
  }

  /**
   * A bare boolean flag turns its setting on and leaves the next argument alone, unless that is one of
   * the words true and false.
   */
  lemma BareFlag(pre: seq<string>, flag: Flag, rest: seq<string>, atoi: Atoi)
    requires !Dangling(pre) && flag != Ignored && IsBoolFlag(Text(flag)) && (rest == [] || !IsBoolean(rest[0]))
    ensures exists d :: TurnedOn(Parse(pre, atoi), d, flag)
                        && Parse(pre + ([Text(flag)] + rest), atoi) == ApplyAll(d, Settings(rest), atoi)
  {
    LookupText(flag);
    BareSettings(Text(flag), rest);
    hide Lookup, Text, Settings, ApplyAll, Dangling, IsFlag, LongKey, IsBoolFlag, Parse, ApplyFlag, IsBoolean, TurnedOn;
    var c := Parse(pre, atoi);
    ParseAppends(pre, [Text(flag)] + rest, atoi);
    ApplyFirst(c, Setting(Text(flag), ""), Settings(rest), atoi);
    TurnsOn(c, flag, "", atoi);
    assert TurnedOn(c, ApplyFlag(c, flag, "", atoi), flag);
  }

  /** Such a word is taken as the value, in any case. */
  lemma FlagWithWord(pre: seq<string>, flag: Flag, word: string, rest: seq<string>, atoi: Atoi)
    requires !Dangling(pre) && flag != Ignored && IsBoolFlag(Text(flag)) && IsBoolean(word)
    ensures Parse(pre + ([Text(flag), word] + rest), atoi)
            == ApplyAll(ApplyFlag(Parse(pre, atoi), flag, ToLower(word), atoi), Settings(rest), atoi)
  {
    LookupText(flag);
    WordSettings(Text(flag), word, rest);
    hide Lookup, Text, Settings, ApplyAll, Dangling, IsFlag, LongKey, IsBoolFlag, Parse, ApplyFlag, IsBoolean, ToLower;
    ParseAppends(pre, [Text(flag), word] + rest, atoi);
    ApplyFirst(Parse(pre, atoi), Setting(Text(flag), ToLower(word)), Settings(rest), atoi);
  }

  /** A word is boolean exactly if its letters, whatever their case, spell true or false. */
  lemma BooleanWords(word: string)
    ensures IsBoolean(word) <==>
            || (|word| == 4 && word[0] in "tT" && word[1] in "rR" && word[2] in "uU" && word[3] in "eE")
            || (|word| == 5 && word[0] in "fF" && word[1] in "aA" && word[2] in "lL" && word[3] in "sS"
                && word[4] in "eE")
  {
    var lower := ToLower(word);
    hide ToLower;
    if |word| == 4 {
      assert lower == "true" <==> lower[0] == 't' && lower[1] == 'r' && lower[2] == 'u' && lower[3] == 'e';
    }
    if |word| == 5 {
      assert lower == "false" <==>
             lower[0] == 'f' && lower[1] == 'a' && lower[2] == 'l' && lower[3] == 's' && lower[4] == 'e';
    }
  }

  /** After an open flag they can: the user name then depends on how the next flag is spelt. */
  lemma SwallowedDiffers(key: string, value: string, atoi: Atoi)
    requires !IsFlag(value)
    ensures Parse(["--username", key + "=" + value], atoi) == EMPTY.(username := key + "=" + value)
    ensures Parse(["--username", key, value], atoi) == EMPTY.(username := key)
  {
    LookupText(Username);
    BooleanText(Username);
    SkipPlain(value);
    hide Lookup, LongKey, IsBoolFlag, IsFlag, Settings, ApplyAll;
    Swallowed("--username", key + "=" + value, [], atoi);
    Swallowed("--username", key, [value], atoi);
    assert ["--username", key + "=" + value] + [] == ["--username", key + "=" + value];
    assert ["--username", key] + [value] == ["--username", key, value];
  }

  lemma SkipPlain(arg: string)
    requires !IsFlag(arg)
    ensures Settings([arg]) == Settings([]) == []
  {
  }

  lemma Swallowed(name: string, arg: string, rest: seq<string>, atoi: Atoi)
    requires Lookup(name) == Username && LongKey(name) && !IsBoolFlag(name) && Settings(rest) == []
    ensures Parse([name, arg] + rest, atoi) == EMPTY.(username := arg)
  {
    ReadKey(name);
    hide Lookup, LongKey, IsBoolFlag, IsFlag, Read;
    var all := [name, arg] + rest;
    assert all[0] == name && all[1] == arg && all[2..] == rest;
    assert Settings(all) == [Setting(name, arg)] + [];
    ApplyFirst(EMPTY, Setting(name, arg), [], atoi);
  }

  // ------------------------------------------------------------------ What the values become

  /** A pair is split at its first equals sign; a value without one is a key alone, and an empty one is ignored. */
  lemma PairExact(m: map<string, string>, k: string, v: string)
    requires !Has(k, '=')
    ensures PutPair(m, k + "=" + v) == m[k := v]
    ensures PutPair(m, k) == if k == "" then m else m[k := ""]
  {
    IndexSkips(k, "=" + v, '=');
    IndexSkips(k, "", '=');
    assert k + "" == k && k + ("=" + v) == k + "=" + v;
    assert (k + "=" + v)[..|k|] == k && (k + "=" + v)[|k| + 1..] == v;
  }

  /** The ASCII white space. */
  lemma SpacesAre(c: char)
    requires c < '\U{80}'
    ensures IsSpace(c) <==> c in " \t\n\r\U{B}\U{C}"
  {
    var spaces := " \t\n\r\U{B}\U{C}";
    assert spaces[0] == ' ' && spaces[1] == '\t' && spaces[2] == '\n' && spaces[3] == '\r';
    assert spaces[4] == '\U{B}' && spaces[5] == '\U{C}';
  }

  /** Trimming takes white space off both ends and nothing else. */
  lemma TrimExact(s: string) returns (a: nat, b: nat)
    ensures a <= b <= |s| && TrimSpace(s) == s[a..b]
    ensures forall i | 0 <= i < a :: IsSpace(s[i])
    ensures forall i | b <= i < |s| :: IsSpace(s[i])
    ensures a < b ==> !IsSpace(s[a]) && !IsSpace(s[b - 1])
  {
    hide IsSpace;
    a := TrimLeftExact(s);
    b := TrimRightExact(s[a..]);
    b := a + b;
    assert s[a..][..b - a] == s[a..b];
    assert forall i | b <= i < |s| :: s[i] == s[a..][i - a];
  }

  lemma {:induction false} TrimLeftExact(s: string) returns (a: nat)
    ensures a <= |s| && TrimLeft(s) == s[a..]
    ensures (forall i | 0 <= i < a :: IsSpace(s[i])) && (a < |s| ==> !IsSpace(s[a]))
    decreases |s|
  {
    hide IsSpace;
    a := 0;
    if s != "" && IsSpace(s[0]) {
      var rest := TrimLeftExact(s[1..]);
      a := rest + 1;
      assert s[1..][rest..] == s[a..];
      forall i | 0 <= i < a ensures IsSpace(s[i]) { if i > 0 { assert s[i] == s[1..][i - 1]; } }
    }
  }

  lemma {:induction false} TrimRightExact(s: string) returns (b: nat)
    ensures b <= |s| && TrimRight(s) == s[..b]
    ensures (forall i | b <= i < |s| :: IsSpace(s[i])) && (b > 0 ==> !IsSpace(s[b - 1]))
    decreases |s|
  {
    hide IsSpace;
    b := |s|;
    if s != "" && IsSpace(s[|s| - 1]) {
      b := TrimRightExact(s[..|s| - 1]);
      assert s[..|s| - 1][..b] == s[..b];
      forall i | b <= i < |s| ensures IsSpace(s[i]) { if i < |s| - 1 { assert s[i] == s[..|s| - 1][i]; } }
    }
  }

  function JoinComma(parts: seq<string>): string {
    if parts == [] then "" else if |parts| == 1 then parts[0] else parts[0] + "," + JoinComma(parts[1..])
  }

  /** Splitting at commas gives comma-free parts that join to the whole. */
  lemma {:induction false} SplitExact(s: string)
    ensures SplitComma(s) != [] && JoinComma(SplitComma(s)) == s && forall p <- SplitComma(s) :: !Has(p, ',')
    decreases |s|
  {
    var n := Index(s, ',');
    if n < |s| {
      SplitExact(s[n + 1..]);
      assert SplitComma(s)[1..] == SplitComma(s[n + 1..]);
      assert s == s[..n] + "," + s[n + 1..];
    }
  }

  /** Every part that is not blank is kept, trimmed, in order. */
  lemma {:induction false} PartsKept(a: seq<string>, part: string, b: seq<string>)
    ensures NonEmptyTrimmed(a + [part] + b) ==
            NonEmptyTrimmed(a) + (if TrimSpace(part) == "" then [] else [TrimSpace(part)]) + NonEmptyTrimmed(b)
    decreases |a|
  {
    hide TrimSpace;
    if a == [] {
      assert (a + [part] + b)[1..] == b;
    } else {
      assert (a + [part] + b)[0] == a[0] && (a + [part] + b)[1..] == a[1..] + [part] + b;
      PartsKept(a[1..], part, b);
    }
  }
}
