/** Cache keys, validCacheKey in pkg/daemon/persist.go, and the tokens persisted under one. */
module CacheKeys {

  datatype Record = Record(idToken: string, refreshToken: string)

  predicate IsHex(c: char) { '0' <= c <= '9' || 'a' <= c <= 'f' || 'A' <= c <= 'F' }

  predicate ValidCacheKey(s: string) {
    1 <= |s| <= 128 && forall i | 0 <= i < |s| :: IsHex(s[i])
  }

  /** A key is one to 128 hexadecimal digits of either case. */
  lemma ValidKeysAre(s: string)
    ensures ValidCacheKey(s) <==> 0 < |s| < 129 && forall c <- s :: c in "0123456789abcdefABCDEF"
  {
    forall c ensures IsHex(c) <==> c in "0123456789abcdefABCDEF" { HexDigits(c); }
  }

  lemma HexDigits(c: char)
    ensures IsHex(c) <==> c in "0123456789abcdefABCDEF"
  {
    var digits := "0123456789abcdefABCDEF";
    assert '0' <= c <= '9' ==> digits[c as int - '0' as int] == c;
    assert 'a' <= c <= 'f' ==> digits[10 + c as int - 'a' as int] == c;
    assert 'A' <= c <= 'F' ==> digits[16 + c as int - 'A' as int] == c;
  }
}
