/** The log sanitizer of pkg/daemon/log.go, which replaces JWT-like runs by a fixed mark. */
module Sanitizer {

  const REDACTED: string := "[REDACTED]"

  /** base64url characters and the dot. */
  predicate IsTokenChar(c: char) {
    'A' <= c <= 'Z' || 'a' <= c <= 'z' || '0' <= c <= '9' || c == '-' || c == '_' || c == '.'
  }

  /** The length of the longest prefix made of token characters. */
  function RunLength(s: string): (n: nat)
    ensures n <= |s|
  {
    if s == "" || !IsTokenChar(s[0]) then 0 else 1 + RunLength(s[1..])
  }

  /** The string starts with "eyJ". */
  predicate HasPrefix(s: string) { |s| >= 3 && s[0] == 'e' && s[1] == 'y' && s[2] == 'J' }

  /** Scanning from the left: a run that looks like a token is redacted, a short one is skipped. */
  function Sanitized(s: string): string
    decreases |s|
  {
    if s == "" then ""
    else if HasPrefix(s) then
      var n := 3 + RunLength(s[3..]);
      (if n > 10 then REDACTED else s[..n]) + Sanitized(s[n..])
    else s[..1] + Sanitized(s[1..])
  }

  /** A position where a token-like run starts. */
  predicate TokenAt(s: string, i: nat) {
    i <= |s| && HasPrefix(s[i..]) && 3 + RunLength(s[i + 3..]) > 10
  }

  ghost predicate Clean(s: string) {
    forall i: nat :: !TokenAt(s, i)
  }

  // ------------------------------------------------------------------ The loop

  /** strings.Index: the first occurrence of the prefix at or after an offset. */
  method IndexFrom(s: string, offset: nat) returns (idx: int)
    requires offset <= |s|
    ensures idx == -1 || offset <= idx <= |s| - 3
    ensures idx >= 0 ==> HasPrefix(s[idx..]) && forall j | offset <= j < idx :: !HasPrefix(s[j..])
    ensures idx == -1 ==> forall j | offset <= j <= |s| :: !HasPrefix(s[j..])
  {
    idx := offset;
    while idx + 3 <= |s|
      invariant offset <= idx <= |s|
      invariant forall j | offset <= j < idx :: !HasPrefix(s[j..])
    {
      if s[idx] == 'e' && s[idx + 1] == 'y' && s[idx + 2] == 'J' {
        return;
      }
      idx := idx + 1;
    }
    idx := -1;
  }

  /** The end of the run of token characters that continues at an offset. */
  method RunEnd(s: string, start: nat) returns (end: nat)
    requires start <= |s|
    ensures end == start + RunLength(s[start..]) <= |s|
  {
    end := start;
    while end < |s| && IsTokenChar(s[end])
      invariant start <= end <= |s|
      invariant RunLength(s[start..]) == end - start + RunLength(s[end..])
    {
      assert s[end..][1..] == s[end + 1..];
      end := end + 1;
    }
  }

  method Sanitize(s: string) returns (result: string)
    ensures result == Sanitized(s)
  {
    hide Sanitized, RunLength;
    result := s;
    var offset: nat := 0;
    assert s[..0] + Sanitized(s[0..]) == Sanitized(s) by { assert s[0..] == s; }
    while offset < |result|
      invariant offset <= |result|
      invariant Sanitized(s) == result[..offset] + Sanitized(result[offset..])
      decreases |result| - offset
    {
      var idx := IndexFrom(result, offset);
      if idx < 0 {
        NothingFound(result, offset);
        return;
      }
      var end := RunEnd(result, idx + 3);
      Progress(result, offset, idx, end);
      if end - idx > 10 {
        Spliced(result[..idx] + REDACTED, result[end..]);
        result := result[..idx] + REDACTED + result[end..];
        offset := idx + |REDACTED|;
      } else {
        assert result[..end] == result[..idx] + result[idx..end];
        offset := end;
      }
    }
    NothingFound(result, offset);
  }

  /** One turn of the scan keeps the sum of what is done and what is left to do. */
  lemma Progress(s: string, offset: nat, idx: nat, end: nat)
    requires offset <= idx && idx + 3 <= |s| && HasPrefix(s[idx..])
    requires forall j | offset <= j < idx :: !HasPrefix(s[j..])
    requires end == idx + 3 + RunLength(s[idx + 3..])
    ensures s[..offset] + Sanitized(s[offset..])
            == s[..idx] + (if end - idx > 10 then REDACTED else s[idx..end]) + Sanitized(s[end..])
  {
    SkipTo(s, offset, idx);
    RunAt(s, idx);
    hide Sanitized, RunLength, HasPrefix;
    Splice(s[..offset], s[offset..idx], if end - idx > 10 then REDACTED else s[idx..end], Sanitized(s[end..]));
    assert s[..offset] + s[offset..idx] == s[..idx];
  }

  lemma Splice(a: string, b: string, c: string, d: string)
    ensures a + (b + (c + d)) == a + b + c + d
  {
  }

  lemma Spliced(a: string, b: string)
    ensures (a + b)[..|a|] == a && (a + b)[|a|..] == b
  {
  }

  lemma NothingFound(s: string, offset: nat)
    requires offset <= |s| && forall j | offset <= j <= |s| :: !HasPrefix(s[j..])
    ensures s == s[..offset] + Sanitized(s[offset..])
  {
    forall j | 0 <= j <= |s| - offset ensures !HasPrefix(s[offset..][j..]) {
      assert s[offset..][j..] == s[offset + j..];
    }
    NoPrefixKept(s[offset..]);
  }

  lemma RunAt(s: string, idx: nat)
    requires idx + 3 <= |s| && HasPrefix(s[idx..])
    ensures var end := idx + 3 + RunLength(s[idx + 3..]);
            Sanitized(s[idx..]) == (if end - idx > 10 then REDACTED else s[idx..end]) + Sanitized(s[end..])
  {
    var t, end := s[idx..], idx + 3 + RunLength(s[idx + 3..]);
    assert t[3..] == s[idx + 3..] && t[end - idx..] == s[end..] && t[..end - idx] == s[idx..end];
  }

  lemma {:induction false} NoPrefixKept(s: string)
    requires forall j | 0 <= j <= |s| :: !HasPrefix(s[j..])
    ensures Sanitized(s) == s
    decreases |s|
  {
    if s != "" {
      assert s[0..] == s;
      forall j | 0 <= j <= |s| - 1 ensures !HasPrefix(s[1..][j..]) { assert s[1..][j..] == s[j + 1..]; }
      NoPrefixKept(s[1..]);
    }
  }

  lemma CopyOne(s: string)
    requires s != "" && !HasPrefix(s)
    ensures Sanitized(s) == s[..1] + Sanitized(s[1..])
  {
    hide RunLength;
  }

  /** Text before the next prefix is copied unchanged. */
  lemma {:induction false} SkipTo(s: string, lo: nat, hi: nat)
    requires lo <= hi <= |s| && forall j | lo <= j < hi :: !HasPrefix(s[j..])
    ensures Sanitized(s[lo..]) == s[lo..hi] + Sanitized(s[hi..])
    decreases hi - lo
  {
    if lo < hi {
      CopyOne(s[lo..]);
      hide Sanitized, HasPrefix;
      SkipTo(s, lo + 1, hi);
      assert s[lo..][1..] == s[lo + 1..];
      assert s[lo..hi] == s[lo..][..1] + s[lo + 1..hi];
    } else {
      assert s[lo..hi] == "";
    }
  }

  // ------------------------------------------------------------------ What the result is

  lemma {:induction false} NeverLonger(s: string)
    ensures |Sanitized(s)| <= |s|
    decreases |s|
  {
    if s != "" {
      NeverLonger(if HasPrefix(s) then s[3 + RunLength(s[3..])..] else s[1..]);
    }
  }

  /** A run stops at the first character that is no token character, whatever follows it. */
  lemma {:induction false} RunStops(a: string, b: string)
    requires b == "" || !IsTokenChar(b[0])
    ensures RunLength(a + b) == RunLength(a)
    decreases |a|
  {
    if a == "" {
      assert a + b == b;
    } else {
      assert (a + b)[1..] == a[1..] + b;
      RunStops(a[1..], b);
    }
  }

  lemma {:induction false} AfterRun(s: string)
    ensures RunLength(s) == |s| || !IsTokenChar(s[RunLength(s)])
    ensures forall i | 0 <= i < RunLength(s) :: IsTokenChar(s[i])
    decreases |s|
  {
    if s != "" && IsTokenChar(s[0]) {
      AfterRun(s[1..]);
      forall i | 0 <= i < RunLength(s) ensures IsTokenChar(s[i]) {
        if i > 0 { assert s[i] == s[1..][i - 1]; }
      }
    }
  }

  /** One piece of a segmented message. */
  datatype Segment = Keep(text: string) | Redact(text: string)

  function Joined(segments: seq<Segment>): string {
    if segments == [] then "" else segments[0].text + Joined(segments[1..])
  }

  function Rendered(segments: seq<Segment>): string {
    if segments == [] then ""
    else (if segments[0].Keep? then segments[0].text else "[REDACTED]") + Rendered(segments[1..])
  }

  /** A redacted piece is exactly one whole token-like run; a kept piece starts none. */
  ghost predicate Proper(segments: seq<Segment>) {
    forall i | 0 <= i < |segments| :: ProperAt(segments, i)
  }

  ghost predicate ProperAt(segments: seq<Segment>, i: nat)
    requires i < |segments|
  {
    var s := Joined(segments[i..]);
    match segments[i]
    case Redact(text) => TokenAt(s, 0) && |text| == 3 + RunLength(s[3..])
    case Keep(text) => text != "" && forall j | 0 <= j < |text| :: !TokenAt(s, j)
  }

  /** How the scan cuts a message. */
  function Cut(s: string): seq<Segment>
    decreases |s|
  {
    if s == "" then []
    else if HasPrefix(s) then
      var n := 3 + RunLength(s[3..]);
      [if n > 10 then Redact(s[..n]) else Keep(s[..n])] + Cut(s[n..])
    else [Keep(s[..1])] + Cut(s[1..])
  }

  lemma {:induction false} RunSuffix(s: string, k: nat)
    requires k <= RunLength(s)
    ensures RunLength(s[k..]) == RunLength(s) - k
    decreases k
  {
    if k > 0 {
      RunSuffix(s[1..], k - 1);
      assert s[1..][k - 1..] == s[k..];
    }
  }

  /** No token-like run starts inside a short run. */
  lemma ShortRunStartsNone(s: string, j: nat)
    requires HasPrefix(s) && 3 + RunLength(s[3..]) <= 10 && j < 3 + RunLength(s[3..])
    ensures !TokenAt(s, j)
  {
    var n := 3 + RunLength(s[3..]);
    AfterRun(s[3..]);
    if HasPrefix(s[j..]) {
      assert s[j..][0] == s[j] && s[j..][1] == s[j + 1] && s[j..][2] == s[j + 2];
      if n < |s| { assert s[3..][n - 3] == s[n] && !IsTokenChar(s[n]); }
      assert j + 3 <= n;
      RunSuffix(s[3..], j);
      assert s[3..][j..] == s[j + 3..];
    }
  }

  /**
   * The result is the message with exactly its token-like runs, each of them whole, replaced by
   * the mark; everything else is there, in order.
   */
  lemma {:induction false} CutsExactly(s: string)
    ensures Joined(Cut(s)) == s && Rendered(Cut(s)) == Sanitized(s) && Proper(Cut(s))
    decreases |s|
  {
    if s != "" {
      var n := if HasPrefix(s) then 3 + RunLength(s[3..]) else 1;
      var cut := Cut(s);
      CutsExactly(s[n..]);
      assert cut[1..] == Cut(s[n..]) && s == s[..n] + s[n..];
      assert cut[0..] == cut && s[0..] == s;
      forall i | 0 <= i < |cut| ensures ProperAt(cut, i) {
        if i > 0 {
          assert cut[1..][i - 1..] == cut[i..] && cut[1..][i - 1] == cut[i];
          assert ProperAt(Cut(s[n..]), i - 1);
        } else if cut[0].Keep? && HasPrefix(s) {
          forall j | 0 <= j < n ensures !TokenAt(s, j) { ShortRunStartsNone(s, j); }
        }
      }
    }
  }

  /** The first character survives, unless a redaction mark takes its place. */
  lemma FirstChar(s: string)
    ensures Sanitized(s) == "" <==> s == ""
    ensures s != "" ==> Sanitized(s)[0] == s[0] || Sanitized(s)[0] == '['
  {
  }

  lemma ShiftToken(p: string, r: string, i: nat)
    requires i >= |p|
    ensures TokenAt(p + r, i) <==> TokenAt(r, i - |p|)
  {
    if i <= |p + r| {
      assert (p + r)[i..] == r[i - |p|..];
      if i + 3 <= |p + r| { assert (p + r)[i + 3..] == r[i - |p| + 3..]; }
    }
  }

  lemma AfterMark(r: string, i: nat)
    requires i < 10
    ensures !TokenAt(REDACTED + r, i)
  {
    assert (REDACTED + r)[i..][0] == REDACTED[i];
  }

  lemma AfterShortRun(p: string, r: string, i: nat)
    requires |p| <= 10 && i < |p| && (r == "" || !IsTokenChar(r[0]))
    ensures !TokenAt(p + r, i)
  {
    var t := p + r;
    if HasPrefix(t[i..]) {
      assert t[i..][0] == t[i] && t[i..][1] == t[i + 1] && t[i..][2] == t[i + 2];
      if r != "" { assert t[|p|] == r[0]; }
      assert i + 3 <= |p|;
      assert t[i + 3..] == p[i + 3..] + r;
      RunStops(p[i + 3..], r);
    }
  }

  /** A plain character followed by sanitized text forms the prefix only if it did before. */
  lemma AfterPlainChar(s: string)
    requires s != ""
    ensures HasPrefix(s[..1] + Sanitized(s[1..])) ==> HasPrefix(s)
  {
    FirstChar(s[1..]);
    if |s| > 1 && s[1] == 'y' {
      assert Sanitized(s[1..]) == s[1..][..1] + Sanitized(s[1..][1..]);
      FirstChar(s[1..][1..]);
    }
  }

  /** No position of the result starts a token-like run. */
  lemma {:induction false} ResultIsClean(s: string)
    ensures Clean(Sanitized(s))
    decreases |s|
  {
    if s == "" {
    } else {
      var n := if HasPrefix(s) then 3 + RunLength(s[3..]) else 1;
      var p, r := if n > 10 then REDACTED else s[..n], Sanitized(s[n..]);
      ResultIsClean(s[n..]);
      assert Sanitized(s) == p + r;
      if HasPrefix(s) {
        AfterRun(s[3..]);
        FirstChar(s[n..]);
        assert s[n..] != "" ==> s[n..][0] == s[3..][n - 3];
      }
      forall i: nat ensures !TokenAt(p + r, i) {
        if i >= |p| {
          ShiftToken(p, r, i);
        } else if n > 10 {
          AfterMark(r, i);
        } else if HasPrefix(s) {
          AfterShortRun(p, r, i);
        } else {
          AfterPlainChar(s);
          assert (p + r)[0..] == p + r;
        }
      }
    }
  }

  /** Sanitizing again changes nothing. */
  lemma {:induction false} Idempotent(s: string)
    ensures Sanitized(Sanitized(s)) == Sanitized(s)
  {
    ResultIsClean(s);
    CleanIsKept(Sanitized(s));
  }

  lemma {:induction false} CleanIsKept(s: string)
    requires Clean(s)
    ensures Sanitized(s) == s
    decreases |s|
  {
    if s != "" {
      assert !TokenAt(s, 0) && s[0..] == s;
      var n := if HasPrefix(s) then 3 + RunLength(s[3..]) else 1;
      assert s == s[..n] + s[n..];
      forall i: nat ensures !TokenAt(s[n..], i) { ShiftToken(s[..n], s[n..], i + n); }
      CleanIsKept(s[n..]);
    }
  }

  /** Runs are made of the 64 base64url characters and the dot, and a token starts with eyJ. */
  lemma TokenCharsAre(c: char, s: string)
    ensures IsTokenChar(c) <==>
            || c in "ABCDEFGHIJKLMNOPQRSTUVWXYZ" || c in "abcdefghijklmnopqrstuvwxyz" || c in "0123456789" || c in "-_."
    ensures HasPrefix(s) <==> |s| >= 3 && s[..3] == "eyJ"
  {
    CapitalsAre(c);
    LettersAre(c);
    DigitsAre(c);
    assert "-_."[0] == '-' && "-_."[1] == '_' && "-_."[2] == '.';
  }

  lemma CapitalsAre(c: char)
    ensures c in "ABCDEFGHIJKLMNOPQRSTUVWXYZ" <==> 'A' <= c <= 'Z'
  {
    if 'A' <= c <= 'Z' { assert "ABCDEFGHIJKLMNOPQRSTUVWXYZ"[c as int - 65] == c; }
  }

  lemma LettersAre(c: char)
    ensures c in "abcdefghijklmnopqrstuvwxyz" <==> 'a' <= c <= 'z'
  {
    if 'a' <= c <= 'z' { assert "abcdefghijklmnopqrstuvwxyz"[c as int - 97] == c; }
  }

  lemma DigitsAre(c: char)
    ensures c in "0123456789" <==> '0' <= c <= '9'
  {
    if '0' <= c <= '9' { assert "0123456789"[c as int - 48] == c; }
  }
}
