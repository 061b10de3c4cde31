/** Character classes and string operations the tracking service relies on:
    Python's `str.strip()`, the pattern `^[a-zA-Z0-9]+$` as `re.match` applies it,
    and the ASCII case folding behind the `iexact` lookups. */
module Text {

  datatype Option<T> = None | Some(value: T)

  /** Python's `str.isspace()`: the characters `str.strip()` removes. */
  predicate IsSpace(c: char) {
    || ('\t' <= c <= '\r')
    || ('\U{1C}' <= c <= '\U{1F}')
    || c == ' ' || c == '\U{85}' || c == '\U{A0}' || c == '\U{1680}'
    || ('\U{2000}' <= c <= '\U{200A}')
    || c == '\U{2028}' || c == '\U{2029}' || c == '\U{202F}' || c == '\U{205F}' || c == '\U{3000}'
  }

  predicate IsAsciiAlnum(c: char) {
    ('a' <= c <= 'z') || ('A' <= c <= 'Z') || ('0' <= c <= '9')
  }

  predicate AllAlnum(s: string) {
    forall i :: 0 <= i < |s| ==> IsAsciiAlnum(s[i])
  }

  /** Drops leading whitespace. */
  function TrimStart(s: string): (r: string)
    ensures |r| <= |s| && r == s[|s| - |r|..]
    ensures forall k :: 0 <= k < |s| - |r| ==> IsSpace(s[k])
    ensures r != [] ==> !IsSpace(r[0])
  {
    if s != [] && IsSpace(s[0]) then TrimStart(s[1..]) else s
  }

  /** Drops trailing whitespace. */
  function TrimEnd(s: string): (r: string)
    ensures |r| <= |s| && r == s[..|r|]
    ensures forall k :: |r| <= k < |s| ==> IsSpace(s[k])
    ensures r != [] ==> !IsSpace(r[|r| - 1])
  {
    if s != [] && IsSpace(s[|s| - 1]) then TrimEnd(s[..|s| - 1]) else s
  }

  /** Python's `str.strip()` with no argument. */
  function Strip(s: string): (r: string)
    ensures |r| <= |s|
    ensures r != [] ==> !IsSpace(r[0]) && !IsSpace(r[|r| - 1])
  {
    var t := TrimStart(s);
    assert TrimEnd(t) != [] ==> TrimEnd(t)[0] == t[0];
    TrimEnd(t)
  }

  /** Where the stripped text starts and ends within `s`. */
  function StripStart(s: string): nat {
    |s| - |TrimStart(s)|
  }

  function StripEnd(s: string): nat {
    StripStart(s) + |Strip(s)|
  }

  /** The result is the infix of `s` between those two positions ... */
  lemma StripIsInfix(s: string)
    ensures StripStart(s) <= StripEnd(s) <= |s| && Strip(s) == s[StripStart(s)..StripEnd(s)]
  {
    TrimEndInfix(TrimStart(s), s, StripStart(s));
  }

  /** ... and only whitespace lies before it ... */
  lemma StripDropsLeadingSpace(s: string)
    ensures forall k :: 0 <= k < StripStart(s) ==> IsSpace(s[k])
  {
  }

  /** ... or after it. */
  lemma StripDropsTrailingSpace(s: string)
    ensures StripEnd(s) <= |s|
    ensures forall k :: StripEnd(s) <= k < |s| ==> IsSpace(s[k])
  {
    TrimEndInfix(TrimStart(s), s, StripStart(s));
  }

  /** The trailing-whitespace half, for `t` a suffix of `s` starting at `i`. */
  lemma TrimEndInfix(t: string, s: string, i: nat)
    requires i <= |s| && t == s[i..]
    ensures var j := i + |TrimEnd(t)|;
            && j <= |s| && TrimEnd(t) == s[i..j]
            && (forall k :: j <= k < |s| ==> IsSpace(s[k]))
  {
    var r := TrimEnd(t);
    var j := i + |r|;
    assert r == t[..|r|];
    assert forall k :: j <= k < |s| ==> s[k] == t[k - i];
  }

  /** A string without whitespace at either end is left as it is. */
  lemma StripKeepsTrimmed(s: string)
    requires s != [] ==> !IsSpace(s[0]) && !IsSpace(s[|s| - 1])
    ensures Strip(s) == s
  {
  }

  /** Stripping twice is stripping once. */
  lemma StripIdempotent(s: string)
    ensures Strip(Strip(s)) == Strip(s)
  {
    var t := Strip(s);
    if t != [] {
      assert TrimStart(t) == t;
      assert TrimEnd(t) == t;
    }
  }

  /** Letters and digits are never whitespace, so such a string strips to itself. */
  lemma StripAlnum(s: string)
    requires AllAlnum(s)
    ensures Strip(s) == s
  {
    if s != [] {
      assert IsAsciiAlnum(s[0]) && IsAsciiAlnum(s[|s| - 1]);
    }
    StripKeepsTrimmed(s);
  }

  /** Leading whitespace does not change the result. */
  lemma StripSkipsLeadingSpace(c: char, s: string)
    requires IsSpace(c)
    ensures Strip([c] + s) == Strip(s)
  {
    assert ([c] + s)[1..] == s;
  }

  /** Whether `re.match(r'^[a-zA-Z0-9]+$', s)` succeeds. Python's `$` matches at the very
      end and also just before a newline that ends the string. */
  predicate AlnumPatternMatches(s: string) {
    || (s != [] && AllAlnum(s))
    || (|s| >= 2 && s[|s| - 1] == '\n' && AllAlnum(s[..|s| - 1]))
  }

  /** On a stripped string the newline loophole of `$` is closed: the pattern holds
      exactly for non-empty strings of ASCII letters and digits. */
  lemma PatternOnStripped(s: string)
    ensures AlnumPatternMatches(Strip(s)) <==> Strip(s) != [] && AllAlnum(Strip(s))
  {
    var t := Strip(s);
    if |t| >= 2 && t[|t| - 1] == '\n' {
      assert IsSpace(t[|t| - 1]);
    }
  }

  /** The loophole is real on unstripped text: a trailing newline is accepted. */
  lemma PatternAcceptsTrailingNewline()
    ensures AlnumPatternMatches("BL1\n") && !AllAlnum("BL1\n")
  {
    assert "BL1\n"[..3] == "BL1";
    assert !IsAsciiAlnum("BL1\n"[3]);
  }

  /** "BL!2024" has nothing to strip ... */
  lemma PunctuationExampleStrips()
    ensures Strip("BL!2024") == "BL!2024"
  {
    var q := "BL!2024";
    assert q[0] == 'B' && q[|q| - 1] == '4';
    StripKeepsTrimmed(q);
  }

  /** ... but is not all letters and digits. */
  lemma PunctuationExampleNotAlnum()
    ensures !AllAlnum("BL!2024")
  {
    var q := "BL!2024";
    assert q[2] == '!';
  }

  function AsciiLower(c: char): (r: char)
    ensures 'A' <= c <= 'Z' ==> 'a' <= r <= 'z' && r as int == c as int + 32
    ensures !('A' <= c <= 'Z') ==> r == c
  {
    if 'A' <= c <= 'Z' then (c as int + 32) as char else c
  }

  function Fold(s: string): (r: string)
    ensures |r| == |s|
    ensures forall i :: 0 <= i < |s| ==> r[i] == AsciiLower(s[i])
  {
    seq(|s|, i requires 0 <= i < |s| => AsciiLower(s[i]))
  }

  /** Case-insensitive equality under ASCII folding (Django's `iexact` on ASCII data). */
  predicate IEquals(a: string, b: string) {
    Fold(a) == Fold(b)
  }

  /** Folding is the identity up to upper-case letters: two strings are `iexact`-equal
      iff they have the same length and agree position by position after lower-casing. */
  lemma IEqualsPointwise(a: string, b: string)
    ensures IEquals(a, b) <==> |a| == |b| && forall i :: 0 <= i < |a| ==> AsciiLower(a[i]) == AsciiLower(b[i])
  {
    if |a| == |b| && forall i :: 0 <= i < |a| ==> AsciiLower(a[i]) == AsciiLower(b[i]) {
      assert forall i :: 0 <= i < |a| ==> Fold(a)[i] == Fold(b)[i];
    }
  }

  /** Same letters, possibly in another case: `iexact`-equal. */
  lemma IEqualsByLetters(a: string, b: string)
    requires |a| == |b|
    requires forall i :: 0 <= i < |a| ==> AsciiLower(a[i]) == AsciiLower(b[i])
    ensures IEquals(a, b)
  {
    IEqualsPointwise(a, b);
  }

  /** Decimal rendering of a natural number, as `str()` and `format` render it. */
  function NatToString(n: nat): (r: string)
    ensures |r| >= 1
    ensures forall i :: 0 <= i < |r| ==> '0' <= r[i] <= '9'
    ensures |r| > 1 ==> r[0] != '0'
    decreases n
  {
    if n < 10 then [DigitChar(n)] else NatToString(n / 10) + [DigitChar(n % 10)]
  }

  function DigitChar(d: nat): (c: char)
    requires d < 10
    ensures '0' <= c <= '9' && c as int - '0' as int == d
  {
    ('0' as int + d) as char
  }

  /** The value of a string of decimal digits. */
  function DecimalValue(s: string): nat
    requires forall i :: 0 <= i < |s| ==> '0' <= s[i] <= '9'
  {
    if s == [] then 0 else DecimalValue(s[..|s| - 1]) * 10 + (s[|s| - 1] as int - '0' as int)
  }

  /** Reading back the rendered number gives the number. */
  lemma {:induction false} NatToStringRoundTrip(n: nat)
    ensures DecimalValue(NatToString(n)) == n
    decreases n
  {
    var r := NatToString(n);
    if n >= 10 {
      NatToStringRoundTrip(n / 10);
      assert r[..|r| - 1] == NatToString(n / 10);
    }
  }
}
