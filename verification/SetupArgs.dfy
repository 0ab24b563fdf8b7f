/**
 * The exec-argument printer at the top of runSetupInstall in main.go, and exactly when the parser
 * undoes it.
 */
module SetupArgs {
  import opened ExecArgs
  import opened FlagNames

  datatype Flags = Flags(
    issuerURL: string, clientID: string, clientSecret: string, extraScopes: seq<string>,
    extraParams: map<string, string>, requestHeaders: map<string, string>, username: string, grantType: string,
    useAccessToken: bool)

  function Item(key: string, value: string): string { key + "=" + value }

  function Repeat(name: string, values: seq<string>): seq<string> {
    if values == [] then [] else [Item(name, values[0])] + Repeat(name, values[1..])
  }

  /** The pairs of a map in the order a range over it visits its keys. */
  function Pairs(m: map<string, string>, order: seq<string>): seq<string>
    requires forall k <- order :: k in m
  {
    if order == [] then [] else [order[0] + "=" + m[order[0]]] + Pairs(m, order[1..])
  }

  function Optional(present: bool, name: string, value: string): seq<string> {
    if present then [Item(name, value)] else []
  }

  function Trailing(useAccessToken: bool): seq<string> {
    if useAccessToken then ["--oidc-use-access-token"] else []
  }

  ghost predicate Orders(order: seq<string>, m: map<string, string>) {
    && (forall k :: k in order <==> k in m)
    && (forall i, j | 0 <= i < j < |order| :: order[i] != order[j])
  }

  function Print(f: Flags, params: seq<string>, headers: seq<string>): seq<string>
    requires forall k <- params :: k in f.extraParams
    requires forall k <- headers :: k in f.requestHeaders
  {
    ["get-token"]
    + [Item("--oidc-issuer-url", f.issuerURL)]
    + [Item("--oidc-client-id", f.clientID)]
    + Optional(f.clientSecret != "", "--oidc-client-secret", f.clientSecret)
    + Repeat("--oidc-extra-scope", f.extraScopes)
    + Repeat("--oidc-extra-param", Pairs(f.extraParams, params))
    + Repeat("--oidc-request-header", Pairs(f.requestHeaders, headers))
    + Optional(f.username != "", "--username", f.username)
    + Optional(f.grantType != "" && f.grantType != "auto", "--grant-type", f.grantType)
    + Trailing(f.useAccessToken)
  }

  method AppendPairs(args: seq<string>, name: string, m: map<string, string>, order: seq<string>)
    returns (out: seq<string>)
    requires forall k <- order :: k in m
    ensures out == args + Repeat(name, Pairs(m, order))
  {
    out := args;
    assert order[0..] == order;
    for i := 0 to |order|
      invariant out + Repeat(name, Pairs(m, order[i..])) == args + Repeat(name, Pairs(m, order))
    {
      var k := order[i];
      assert order[i..][1..] == order[i + 1..];
      ghost var before := out;
      out := out + [Item(name, k + "=" + m[k])];
      assert before + ([Item(name, k + "=" + m[k])] + Repeat(name, Pairs(m, order[i + 1..])))
             == out + Repeat(name, Pairs(m, order[i + 1..]));
    }
    assert out + [] == out;
  }

  method AppendScopes(args: seq<string>, scopes: seq<string>) returns (out: seq<string>)
    ensures out == args + Repeat("--oidc-extra-scope", scopes)
  {
    out := args;
    assert scopes[0..] == scopes;
    for i := 0 to |scopes|
      invariant out + Repeat("--oidc-extra-scope", scopes[i..]) == args + Repeat("--oidc-extra-scope", scopes)
    {
      assert scopes[i..][1..] == scopes[i + 1..];
      ghost var before := out;
      out := out + [Item("--oidc-extra-scope", scopes[i])];
      assert before + ([Item("--oidc-extra-scope", scopes[i])] + Repeat("--oidc-extra-scope", scopes[i + 1..]))
             == out + Repeat("--oidc-extra-scope", scopes[i + 1..]);
    }
    assert out + [] == out;
  }

  method AppendOptional(args: seq<string>, present: bool, key: string, value: string) returns (out: seq<string>)
    ensures out == args + Optional(present, key, value)
  {
    out := args;
    if present {
      out := out + [key + "=" + value];
    }
  }

  method BuildExecArgs(f: Flags, params: seq<string>, headers: seq<string>) returns (args: seq<string>)
    requires Orders(params, f.extraParams) && Orders(headers, f.requestHeaders)
    ensures args == Print(f, params, headers)
  {
    hide Repeat, Pairs, Item, Optional;
    args := ["get-token"];
    args := args + [Item("--oidc-issuer-url", f.issuerURL)];
    args := args + [Item("--oidc-client-id", f.clientID)];
    args := AppendOptional(args, f.clientSecret != "", "--oidc-client-secret", f.clientSecret);
    args := AppendScopes(args, f.extraScopes);
    args := AppendPairs(args, "--oidc-extra-param", f.extraParams, params);
    args := AppendPairs(args, "--oidc-request-header", f.requestHeaders, headers);
    args := AppendOptional(args, f.username != "", "--username", f.username);
    args := AppendOptional(args, f.grantType != "" && f.grantType != "auto", "--grant-type", f.grantType);
    if f.useAccessToken {
      args := args + ["--oidc-use-access-token"];
    } else {
      assert args + [] == args;
    }
  }

  // ------------------------------------------------------------------ Scanning printed arguments

  function ItemSettings(name: string, values: seq<string>): seq<Setting> {
    if values == [] then [] else [Setting(name, values[0])] + ItemSettings(name, values[1..])
  }

  lemma {:induction false} ScanRepeat(name: string, values: seq<string>, rest: seq<string>)
    requires LongKey(name)
    ensures Settings(Repeat(name, values) + rest) == ItemSettings(name, values) + Settings(rest)
    decreases |values|
  {
    hide Read, IsFlag, LongKey;
    if values == [] {
      assert Repeat(name, values) + rest == rest;
    } else {
      ReadWhole(name, values[0]);
      var all := Repeat(name, values) + rest;
      assert all[0] == Item(name, values[0]) && all[1..] == Repeat(name, values[1..]) + rest;
      ScanRepeat(name, values[1..], rest);
    }
  }

  /** Applying the settings of one repeated flag, one after the other. */
  function ApplyRepeat(c: Config, flag: Flag, values: seq<string>, atoi: Atoi): Config
    decreases |values|
  {
    if values == [] then c else ApplyRepeat(ApplyFlag(c, flag, values[0], atoi), flag, values[1..], atoi)
  }

  lemma {:induction false} ApplyItems(c: Config, name: string, values: seq<string>, rest: seq<Setting>, atoi: Atoi)
    ensures ApplyAll(c, ItemSettings(name, values) + rest, atoi)
            == ApplyAll(ApplyRepeat(c, Lookup(name), values, atoi), rest, atoi)
    decreases |values|
  {
    hide Lookup, ApplyFlag;
    var all := ItemSettings(name, values) + rest;
    if values == [] {
      assert all == rest;
    } else {
      assert all[0] == Setting(name, values[0]) && all[1..] == ItemSettings(name, values[1..]) + rest;
      ApplyItems(ApplyFlag(c, Lookup(name), values[0], atoi), name, values[1..], rest, atoi);
    }
  }

  /** A block of one flag's items is scanned and applied as a block. */
  lemma Block(c: Config, name: string, values: seq<string>, rest: seq<string>, atoi: Atoi)
    requires LongKey(name)
    ensures ApplyAll(c, Settings(Repeat(name, values) + rest), atoi)
            == ApplyAll(ApplyRepeat(c, Lookup(name), values, atoi), Settings(rest), atoi)
  {
    hide Lookup, ApplyFlag, LongKey;
    ScanRepeat(name, values, rest);
    ApplyItems(c, name, values, Settings(rest), atoi);
  }

  lemma OptionalIsRepeat(present: bool, name: string, value: string)
    ensures Optional(present, name, value) == Repeat(name, Single(present, value))
  {
  }

  lemma FirstKeys()
    ensures Lookup("--oidc-issuer-url") == IssuerURL && LongKey("--oidc-issuer-url")
    ensures Lookup("--oidc-client-id") == ClientID && LongKey("--oidc-client-id")
    ensures Lookup("--oidc-client-secret") == ClientSecret && LongKey("--oidc-client-secret")
  {
    hide Lookup, LongKey;
    NameIssuerURL("--oidc-issuer-url");
    NameClientID("--oidc-client-id");
    NameClientSecret("--oidc-client-secret");
  }

  lemma MiddleKeys()
    ensures Lookup("--oidc-extra-scope") == ExtraScope && LongKey("--oidc-extra-scope")
    ensures Lookup("--oidc-extra-param") == ExtraParam && LongKey("--oidc-extra-param")
    ensures Lookup("--oidc-request-header") == RequestHeader && LongKey("--oidc-request-header")
  {
    hide Lookup, LongKey;
    NameExtraScope("--oidc-extra-scope");
    NameExtraParam("--oidc-extra-param");
    NameRequestHeader("--oidc-request-header");
  }

  lemma LastKeys()
    ensures Lookup("--username") == Username && LongKey("--username")
    ensures Lookup("--grant-type") == GrantType && LongKey("--grant-type")
    ensures Lookup("--oidc-use-access-token") == UseAccessToken && LongKey("--oidc-use-access-token")
  {
    hide Lookup, LongKey;
    NameUsername("--username");
    NameGrantType("--grant-type");
    NameUseAccessToken("--oidc-use-access-token");
  }

  lemma BareBool(arg: string)
    requires LongKey(arg) && IsBoolFlag(arg)
    ensures Settings([arg]) == [Setting(arg, "")]
  {
    ReadKey(arg);
    hide Read, IsBoolFlag;
  }

  lemma BareBoolApplied(c: Config, arg: string, atoi: Atoi)
    requires LongKey(arg) && IsBoolFlag(arg) && Lookup(arg) == UseAccessToken
    ensures ApplyAll(c, Settings([arg]), atoi) == c.(useAccessToken := true)
  {
    BareBool(arg);
    hide Lookup, IsBoolFlag, Settings, LongKey;
    assert ApplyAll(c, [Setting(arg, "")], atoi) == ApplyAll(ApplyFlag(c, Lookup(arg), "", atoi), [], atoi);
  }

  /** The bare boolean flag that may end the list. */
  lemma LastFlag(c: Config, present: bool, atoi: Atoi)
    ensures ApplyAll(c, Settings(Trailing(present)), atoi) == if present then c.(useAccessToken := true) else c
  {
    if present {
      LastKeys();
      assert IsBoolFlag("--oidc-use-access-token");
      hide Lookup, IsBoolFlag, LongKey, Settings, ApplyAll;
      BareBoolApplied(c, "--oidc-use-access-token", atoi);
    }
  }

  // ------------------------------------------------------------------ What the values become

  /** The scopes that a list of printed scope flags reads back as. */
  function AllScopes(values: seq<string>): seq<string> {
    if values == [] then [] else Scopes(values[0]) + AllScopes(values[1..])
  }

  function PutAll(m: map<string, string>, pairs: seq<string>): map<string, string>
    decreases |pairs|
  {
    if pairs == [] then m else PutAll(PutPair(m, pairs[0]), pairs[1..])
  }

  lemma {:induction false} RepeatScopes(c: Config, values: seq<string>, atoi: Atoi)
    ensures ApplyRepeat(c, ExtraScope, values, atoi) == c.(extraScopes := c.extraScopes + AllScopes(values))
    decreases |values|
  {
    hide Scopes;
    if values == [] {
      assert c.extraScopes + [] == c.extraScopes;
    } else {
      RepeatScopes(ApplyFlag(c, ExtraScope, values[0], atoi), values[1..], atoi);
      assert c.extraScopes + Scopes(values[0]) + AllScopes(values[1..])
             == c.extraScopes + (Scopes(values[0]) + AllScopes(values[1..]));
    }
  }

  lemma {:induction false} RepeatPairs(c: Config, flag: Flag, pairs: seq<string>, atoi: Atoi)
    requires flag == ExtraParam || flag == RequestHeader
    ensures ApplyRepeat(c, flag, pairs, atoi) ==
            if flag == ExtraParam then c.(extraParams := PutAll(c.extraParams, pairs))
            else c.(requestHeaders := PutAll(c.requestHeaders, pairs))
    decreases |pairs|
  {
    hide PutPair;
    if pairs != [] {
      RepeatPairs(ApplyFlag(c, flag, pairs[0], atoi), flag, pairs[1..], atoi);
    }
  }

  predicate CleanScope(s: string) { s != "" && !Has(s, ',') && TrimSpace(s) == s }

  /** Whatever is read back is clean. */
  lemma {:induction false} TrimmedIsClean(s: string)
    requires !Has(s, ',') && TrimSpace(s) != ""
    ensures CleanScope(TrimSpace(s))
  {
    var l := TrimLeft(s);
    TrimLeftFacts(s);
    TrimRightFacts(l);
  }

  lemma {:induction false} TrimLeftFacts(s: string)
    ensures !Has(s, ',') ==> !Has(TrimLeft(s), ',')
    ensures TrimLeft(s) == "" || !IsSpace(TrimLeft(s)[0])
    decreases |s|
  {
    if s != "" && IsSpace(s[0]) {
      assert forall i | 0 <= i < |s| - 1 :: s[1..][i] == s[i + 1];
      TrimLeftFacts(s[1..]);
    }
  }

  /** Trimming on the right keeps a prefix that ends in no space. */
  lemma {:induction false} TrimRightFacts(s: string)
    ensures !Has(s, ',') ==> !Has(TrimRight(s), ',')
    ensures TrimRight(s) == "" || (s != "" && TrimRight(s)[0] == s[0] && !IsSpace(TrimRight(s)[|TrimRight(s)| - 1]))
    decreases |s|
  {
    if s != "" && IsSpace(s[|s| - 1]) {
      assert forall i | 0 <= i < |s| - 1 :: s[..|s| - 1][i] == s[i];
      TrimRightFacts(s[..|s| - 1]);
    }
  }

  ghost predicate AllClean(values: seq<string>) { forall v <- values :: CleanScope(v) }

  lemma {:induction false} SplitPartsPlain(s: string)
    ensures forall p <- SplitComma(s) :: !Has(p, ',')
    decreases |s|
  {
    var n := Index(s, ',');
    if n < |s| { SplitPartsPlain(s[n + 1..]); }
  }

  lemma {:induction false} KeptPartsClean(parts: seq<string>)
    requires forall p <- parts :: !Has(p, ',')
    ensures AllClean(NonEmptyTrimmed(parts))
    decreases |parts|
  {
    hide TrimSpace, CleanScope;
    if parts != [] {
      if TrimSpace(parts[0]) != "" { TrimmedIsClean(parts[0]); }
      KeptPartsClean(parts[1..]);
    }
  }

  lemma ScopesClean(value: string)
    ensures AllClean(Scopes(value))
    ensures CleanScope(value) ==> Scopes(value) == [value]
  {
    SplitPartsPlain(value);
    KeptPartsClean(SplitComma(value));
    if CleanScope(value) {
      assert SplitComma(value) == [value];
      assert NonEmptyTrimmed([value]) == [value] + NonEmptyTrimmed([]);
    }
  }

  /** A scope list reads back as itself exactly when every scope is clean. */
  lemma {:induction false} ScopesRoundTripIff(values: seq<string>)
    ensures AllClean(AllScopes(values)) && (AllScopes(values) == values <==> AllClean(values))
    decreases |values|
  {
    hide Scopes, CleanScope;
    if values != [] {
      ScopesRoundTripIff(values[1..]);
      ScopesClean(values[0]);
      if AllClean(values) {
        assert AllClean(values[1..]);
        assert AllScopes(values) == [values[0]] + values[1..];
      }
    }
  }

  ghost predicate PlainKeys(m: map<string, string>) { forall k <- m :: !Has(k, '=') }

  lemma PutPrinted(m: map<string, string>, k: string, v: string)
    ensures PlainKeys(m) ==> PlainKeys(PutPair(m, k + "=" + v))
    ensures !Has(k, '=') ==> PutPair(m, k + "=" + v) == m[k := v]
  {
    var pair := k + "=" + v;
    assert pair[|k|] == '=';
    var n := Index(pair, '=');
    assert !Has(pair[..n], '=');
    if !Has(k, '=') {
      assert pair == k + ("=" + v);
      IndexSkips(k, "=" + v, '=');
      assert pair[..|k|] == k && pair[|k| + 1..] == v;
    }
  }

  /** Whatever is read back has plain keys, and plain keys are read back with their values. */
  lemma {:induction false} PairsReadBack(acc: map<string, string>, m: map<string, string>, order: seq<string>)
    requires PlainKeys(acc) && forall k <- order :: k in m
    ensures PlainKeys(PutAll(acc, Pairs(m, order)))
    ensures PlainKeys(m) ==> PutAll(acc, Pairs(m, order)) == acc + (map k | k in order :: m[k])
    decreases |order|
  {
    hide PutPair, Has;
    var picked := map k | k in order :: m[k];
    if order == [] {
      assert acc + picked == acc;
    } else {
      var k := order[0];
      PutPrinted(acc, k, m[k]);
      PairsReadBack(PutPair(acc, k + "=" + m[k]), m, order[1..]);
      if PlainKeys(m) {
        assert acc[k := m[k]] + (map j | j in order[1..] :: m[j]) == acc + picked;
      }
    }
  }

  /** A map reads back as itself, in every iteration order, exactly when its keys have no equals sign. */
  lemma PairsRoundTripIff(m: map<string, string>, order: seq<string>)
    requires Orders(order, m)
    ensures PutAll(map[], Pairs(m, order)) == m <==> PlainKeys(m)
  {
    PairsReadBack(map[], m, order);
    assert map[] + (map k | k in order :: m[k]) == m;
  }

  // ------------------------------------------------------------------ The round trip

  lemma Reassociate(a: seq<string>, b: seq<string>, c: seq<string>, d: seq<string>, e: seq<string>,
                    f: seq<string>, g: seq<string>, h: seq<string>, i: seq<string>, j: seq<string>)
    ensures a + b + c + d + e + f + g + h + i + j == a + (b + (c + (d + (e + (f + (g + (h + (i + j))))))))
  {
    assert a + b + c + d + e == a + (b + (c + (d + e)));
    assert f + g + h + i + j == f + (g + (h + (i + j)));
    assert a + b + c + d + e + f + g + h + i + j == (a + b + c + d + e) + (f + g + h + i + j);
  }

  /** The configuration a printed argument list reads back as. */
  function ReadBack(f: Flags, params: seq<string>, headers: seq<string>): Config
    requires forall k <- params :: k in f.extraParams
    requires forall k <- headers :: k in f.requestHeaders
  {
    EMPTY.(issuerURL := f.issuerURL, clientID := f.clientID, clientSecret := f.clientSecret,
           extraScopes := AllScopes(f.extraScopes),
           extraParams := PutAll(map[], Pairs(f.extraParams, params)),
           requestHeaders := PutAll(map[], Pairs(f.requestHeaders, headers)),
           username := f.username,
           grantType := if f.grantType == "auto" then "" else f.grantType,
           useAccessToken := f.useAccessToken)
  }

  function Single(present: bool, value: string): seq<string> { if present then [value] else [] }

  lemma SingleApplied(c: Config, flag: Flag, present: bool, value: string, atoi: Atoi)
    ensures ApplyRepeat(c, flag, Single(present, value), atoi) == if present then ApplyFlag(c, flag, value, atoi) else c
  {
    hide ApplyFlag;
    if present {
      assert ApplyRepeat(c, flag, [value], atoi) == ApplyRepeat(ApplyFlag(c, flag, value, atoi), flag, [], atoi);
    }
  }

  /** The printed arguments in three parts, each in front of the rest. */
  function FirstPart(f: Flags, rest: seq<string>): seq<string> {
    Repeat("--oidc-issuer-url", Single(true, f.issuerURL))
    + (Repeat("--oidc-client-id", Single(true, f.clientID))
    + (Repeat("--oidc-client-secret", Single(f.clientSecret != "", f.clientSecret)) + rest))
  }

  function MiddlePart(scopes: seq<string>, params: seq<string>, headers: seq<string>, rest: seq<string>): seq<string> {
    Repeat("--oidc-extra-scope", scopes)
    + (Repeat("--oidc-extra-param", params) + (Repeat("--oidc-request-header", headers) + rest))
  }

  function LastPart(f: Flags): seq<string> {
    Repeat("--username", Single(f.username != "", f.username))
    + (Repeat("--grant-type", Single(f.grantType != "" && f.grantType != "auto", f.grantType))
    + Trailing(f.useAccessToken))
  }

  /** What each part makes of a configuration. */
  function WithFirst(f: Flags): Config {
    EMPTY.(issuerURL := f.issuerURL, clientID := f.clientID, clientSecret := f.clientSecret)
  }

  function WithMiddle(c: Config, scopes: seq<string>, params: seq<string>, headers: seq<string>): Config {
    c.(extraScopes := AllScopes(scopes), extraParams := PutAll(map[], params), requestHeaders := PutAll(map[], headers))
  }

  function WithLast(c: Config, f: Flags): Config {
    c.(username := f.username, grantType := if f.grantType == "auto" then "" else f.grantType,
       useAccessToken := f.useAccessToken)
  }

  lemma PrintAsBlocks(f: Flags, params: seq<string>, headers: seq<string>)
    requires forall k <- params :: k in f.extraParams
    requires forall k <- headers :: k in f.requestHeaders
    ensures Print(f, params, headers) ==
            ["get-token"] + FirstPart(f, MiddlePart(f.extraScopes, Pairs(f.extraParams, params),
                                                    Pairs(f.requestHeaders, headers), LastPart(f)))
  {
    OptionalIsRepeat(true, "--oidc-issuer-url", f.issuerURL);
    OptionalIsRepeat(true, "--oidc-client-id", f.clientID);
    OptionalIsRepeat(f.clientSecret != "", "--oidc-client-secret", f.clientSecret);
    OptionalIsRepeat(f.username != "", "--username", f.username);
    OptionalIsRepeat(f.grantType != "" && f.grantType != "auto", "--grant-type", f.grantType);
    hide Repeat, Pairs, Item;
    Reassociate(["get-token"],
                Repeat("--oidc-issuer-url", Single(true, f.issuerURL)),
                Repeat("--oidc-client-id", Single(true, f.clientID)),
                Repeat("--oidc-client-secret", Single(f.clientSecret != "", f.clientSecret)),
                Repeat("--oidc-extra-scope", f.extraScopes),
                Repeat("--oidc-extra-param", Pairs(f.extraParams, params)),
                Repeat("--oidc-request-header", Pairs(f.requestHeaders, headers)),
                Repeat("--username", Single(f.username != "", f.username)),
                Repeat("--grant-type", Single(f.grantType != "" && f.grantType != "auto", f.grantType)),
                Trailing(f.useAccessToken));
  }

  lemma SkipCommand(rest: seq<string>)
    ensures Settings(["get-token"] + rest) == Settings(rest)
  {
    assert (["get-token"] + rest)[0] == "get-token" && (["get-token"] + rest)[1..] == rest;
  }

  /** For every configuration and every iteration order, what the printed arguments read back as. */
  lemma ParsePrinted(f: Flags, params: seq<string>, headers: seq<string>, atoi: Atoi)
    requires forall k <- params :: k in f.extraParams
    requires forall k <- headers :: k in f.requestHeaders
    ensures Parse(Print(f, params, headers), atoi) == ReadBack(f, params, headers)
  {
    var ps, hs := Pairs(f.extraParams, params), Pairs(f.requestHeaders, headers);
    PrintAsBlocks(f, params, headers);
    hide Print, FirstPart, MiddlePart, LastPart, Settings, ApplyAll, Pairs, AllScopes, PutAll;
    FirstApplied(f, MiddlePart(f.extraScopes, ps, hs, LastPart(f)), atoi);
    MiddleApplied(WithFirst(f), f.extraScopes, ps, hs, LastPart(f), atoi);
    LastApplied(WithMiddle(WithFirst(f), f.extraScopes, ps, hs), f, atoi);
  }

  lemma FirstApplied(f: Flags, rest: seq<string>, atoi: Atoi)
    ensures ApplyAll(EMPTY, Settings(["get-token"] + FirstPart(f, rest)), atoi)
            == ApplyAll(WithFirst(f), Settings(rest), atoi)
  {
    FirstKeys();
    hide Settings, ApplyAll, Repeat, Single, Lookup, LongKey, WithFirst;
    FirstBlocks("--oidc-issuer-url", "--oidc-client-id", "--oidc-client-secret", f, rest, atoi);
  }

  lemma MiddleApplied(c: Config, scopes: seq<string>, params: seq<string>, headers: seq<string>, rest: seq<string>,
                      atoi: Atoi)
    requires c.extraScopes == [] && c.extraParams == map[] && c.requestHeaders == map[]
    ensures ApplyAll(c, Settings(MiddlePart(scopes, params, headers, rest)), atoi)
            == ApplyAll(WithMiddle(c, scopes, params, headers), Settings(rest), atoi)
  {
    MiddleKeys();
    hide Settings, ApplyAll, Repeat, Single, Lookup, LongKey, WithMiddle;
    MiddleBlocks(c, "--oidc-extra-scope", "--oidc-extra-param", "--oidc-request-header", scopes, params, headers,
                 rest, atoi);
  }

  lemma LastApplied(c: Config, f: Flags, atoi: Atoi)
    requires c.username == "" && c.grantType == "" && !c.useAccessToken
    ensures ApplyAll(c, Settings(LastPart(f)), atoi) == WithLast(c, f)
  {
    LastKeys();
    hide Settings, ApplyAll, Repeat, Single, Lookup, LongKey, WithLast, Trailing;
    LastBlocks(c, "--username", "--grant-type", f, atoi);
  }

  lemma FirstBlocks(issuer: string, client: string, secret: string, f: Flags, rest: seq<string>, atoi: Atoi)
    requires Lookup(issuer) == IssuerURL && LongKey(issuer) && Lookup(client) == ClientID && LongKey(client)
    requires Lookup(secret) == ClientSecret && LongKey(secret)
    ensures ApplyAll(EMPTY, Settings(["get-token"] + (Repeat(issuer, Single(true, f.issuerURL))
                            + (Repeat(client, Single(true, f.clientID))
                            + (Repeat(secret, Single(f.clientSecret != "", f.clientSecret)) + rest)))), atoi)
            == ApplyAll(WithFirst(f), Settings(rest), atoi)
  {
    hide Repeat, Settings, Lookup, LongKey, Single, ApplyAll;
    var r3 := Repeat(secret, Single(f.clientSecret != "", f.clientSecret)) + rest;
    var r2 := Repeat(client, Single(true, f.clientID)) + r3;
    SkipCommand(Repeat(issuer, Single(true, f.issuerURL)) + r2);
    Block(EMPTY, issuer, Single(true, f.issuerURL), r2, atoi);
    SingleApplied(EMPTY, IssuerURL, true, f.issuerURL, atoi);
    var c1 := EMPTY.(issuerURL := f.issuerURL);
    Block(c1, client, Single(true, f.clientID), r3, atoi);
    SingleApplied(c1, ClientID, true, f.clientID, atoi);
    var c2 := c1.(clientID := f.clientID);
    Block(c2, secret, Single(f.clientSecret != "", f.clientSecret), rest, atoi);
    SingleApplied(c2, ClientSecret, f.clientSecret != "", f.clientSecret, atoi);
  }

  lemma MiddleBlocks(c: Config, scope: string, param: string, header: string, scopes: seq<string>, params: seq<string>,
                     headers: seq<string>, rest: seq<string>, atoi: Atoi)
    requires Lookup(scope) == ExtraScope && LongKey(scope) && Lookup(param) == ExtraParam && LongKey(param)
    requires Lookup(header) == RequestHeader && LongKey(header)
    requires c.extraScopes == [] && c.extraParams == map[] && c.requestHeaders == map[]
    ensures ApplyAll(c, Settings(Repeat(scope, scopes) + (Repeat(param, params) + (Repeat(header, headers) + rest))),
                     atoi)
            == ApplyAll(WithMiddle(c, scopes, params, headers), Settings(rest), atoi)
  {
    hide Repeat, Settings, Lookup, LongKey, ApplyAll, AllScopes, PutAll;
    var r3 := Repeat(header, headers) + rest;
    var r2 := Repeat(param, params) + r3;
    Block(c, scope, scopes, r2, atoi);
    RepeatScopes(c, scopes, atoi);
    assert [] + AllScopes(scopes) == AllScopes(scopes);
    var c1 := c.(extraScopes := AllScopes(scopes));
    Block(c1, param, params, r3, atoi);
    RepeatPairs(c1, ExtraParam, params, atoi);
    var c2 := c1.(extraParams := PutAll(map[], params));
    Block(c2, header, headers, rest, atoi);
    RepeatPairs(c2, RequestHeader, headers, atoi);
  }

  lemma LastBlocks(c: Config, user: string, grant: string, f: Flags, atoi: Atoi)
    requires Lookup(user) == Username && LongKey(user) && Lookup(grant) == GrantType && LongKey(grant)
    requires c.username == "" && c.grantType == "" && !c.useAccessToken
    ensures var hasGrant := f.grantType != "" && f.grantType != "auto";
            ApplyAll(c, Settings(Repeat(user, Single(f.username != "", f.username))
                        + (Repeat(grant, Single(hasGrant, f.grantType)) + Trailing(f.useAccessToken))), atoi)
            == WithLast(c, f)
  {
    hide Repeat, Settings, Lookup, LongKey, Single, ApplyAll, Trailing;
    var hasGrant := f.grantType != "" && f.grantType != "auto";
    var r2 := Repeat(grant, Single(hasGrant, f.grantType)) + Trailing(f.useAccessToken);
    Block(c, user, Single(f.username != "", f.username), r2, atoi);
    SingleApplied(c, Username, f.username != "", f.username, atoi);
    var c1 := c.(username := f.username);
    Block(c1, grant, Single(hasGrant, f.grantType), Trailing(f.useAccessToken), atoi);
    SingleApplied(c1, GrantType, hasGrant, f.grantType, atoi);
    var c2 := c1.(grantType := if hasGrant then f.grantType else "");
    LastFlag(c2, f.useAccessToken, atoi);
  }

  /** The same configuration with both ways of asking for the automatic grant written as none. */
  function Plain(f: Flags): Config {
    EMPTY.(issuerURL := f.issuerURL, clientID := f.clientID, clientSecret := f.clientSecret,
           extraScopes := f.extraScopes,
           extraParams := f.extraParams, requestHeaders := f.requestHeaders, username := f.username,
           grantType := if f.grantType == "auto" then "" else f.grantType, useAccessToken := f.useAccessToken)
  }

  /**
   * The parser undoes the printer, in every iteration order of the maps, exactly when the scopes
   * are comma-free, trimmed and not empty and no parameter or header key holds an equals sign.
   */
  lemma RoundTripIff(f: Flags, params: seq<string>, headers: seq<string>, atoi: Atoi)
    requires Orders(params, f.extraParams) && Orders(headers, f.requestHeaders)
    ensures Parse(Print(f, params, headers), atoi) == Plain(f)
            <==> AllClean(f.extraScopes) && PlainKeys(f.extraParams) && PlainKeys(f.requestHeaders)
  {
    hide Parse, Print, AllScopes, PutAll, Pairs, AllClean, PlainKeys;
    ParsePrinted(f, params, headers, atoi);
    ScopesRoundTripIff(f.extraScopes);
    PairsRoundTripIff(f.extraParams, params);
    PairsRoundTripIff(f.requestHeaders, headers);
  }

  lemma {:induction false} RepeatLength(name: string, values: seq<string>)
    ensures |Repeat(name, values)| == |values|
    ensures forall i | 0 <= i < |values| :: Repeat(name, values)[i] == Item(name, values[i])
    decreases |values|
  {
    hide Item;
    if values != [] { RepeatLength(name, values[1..]); }
  }

  lemma {:induction false} PairsLength(m: map<string, string>, order: seq<string>)
    requires forall k <- order :: k in m
    ensures |Pairs(m, order)| == |order|
    decreases |order|
  {
    if order != [] { PairsLength(m, order[1..]); }
  }

  /**
   * The printed list: the command, the two flags that are always there, and exactly one argument for
   * each scope, parameter and header and each option that is set.
   */
  lemma PrintExact(f: Flags, params: seq<string>, headers: seq<string>)
    requires forall k <- params :: k in f.extraParams
    requires forall k <- headers :: k in f.requestHeaders
    ensures var args := Print(f, params, headers);
            && |args| == 3 + (if f.clientSecret != "" then 1 else 0) + |f.extraScopes| + |params| + |headers|
                         + (if f.username != "" then 1 else 0) + (if f.grantType in {"", "auto"} then 0 else 1)
                         + (if f.useAccessToken then 1 else 0)
            && args[0] == "get-token" && args[1] == "--oidc-issuer-url" + "=" + f.issuerURL
            && args[2] == "--oidc-client-id" + "=" + f.clientID
  {
    RepeatLength("--oidc-extra-scope", f.extraScopes);
    RepeatLength("--oidc-extra-param", Pairs(f.extraParams, params));
    RepeatLength("--oidc-request-header", Pairs(f.requestHeaders, headers));
    PairsLength(f.extraParams, params);
    PairsLength(f.requestHeaders, headers);
    hide Repeat, Pairs;
  }
}
