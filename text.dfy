/** String helpers shared by the scripts: ASCII case folding, substring and
    prefix tests, whitespace trimming, decimal rendering of counts and the
    pluralised count labels ("1 post", "2 posts"). */
module Text {

  /** Whitespace removed by `String.prototype.trim`, restricted to ASCII:
      space, tab, line feed, vertical tab, form feed, carriage return. */
  predicate IsSpace(c: char) {
    c == ' ' || '\t' <= c <= '\r'
  }

  predicate IsDigit(c: char) {
    '0' <= c <= '9'
  }

  /** `toLowerCase` on one character, ASCII letters only. */
  function LowerChar(c: char): (r: char)
    ensures 'A' <= c <= 'Z' ==> r as int == c as int + 32
    ensures !('A' <= c <= 'Z') ==> r == c
    ensures !('A' <= r <= 'Z')
  {
    if 'A' <= c <= 'Z' then (c as int + 32) as char else c
  }

  /** `toLowerCase` on a string, character by character. */
  function Lower(s: string): (r: string)
    ensures |r| == |s|
    ensures forall i :: 0 <= i < |s| ==> r[i] == LowerChar(s[i])
  {
    seq(|s|, i requires 0 <= i < |s| => LowerChar(s[i]))
  }

  lemma LowerIdempotent(s: string)
    ensures Lower(Lower(s)) == Lower(s)
  {
  }

  /** `s.startsWith(p)`. */
  predicate StartsWith(s: string, p: string) {
    |p| <= |s| && s[..|p|] == p
  }

  /** `s.includes(sub)`, by scanning the start positions left to right. */
  predicate Contains(s: string, sub: string)
    decreases |s|
  {
    StartsWith(s, sub) || (s != [] && Contains(s[1..], sub))
  }

  /** `sub` occurs in `s` starting at position `i`. */
  predicate OccursAt(s: string, sub: string, i: int) {
    0 <= i <= |s| - |sub| && s[i..i + |sub|] == sub
  }

  /** `Contains` holds exactly when `sub` occurs at some position of `s`. */
  lemma {:induction false} ContainsIffOccurs(s: string, sub: string)
    ensures Contains(s, sub) <==> exists i :: OccursAt(s, sub, i)
    decreases |s|
  {
    if StartsWith(s, sub) {
      assert OccursAt(s, sub, 0);
    }
    if s != [] {
      ContainsIffOccurs(s[1..], sub);
      if Contains(s[1..], sub) {
        var i :| OccursAt(s[1..], sub, i);
        assert OccursAt(s, sub, i + 1);
      }
      if exists i :: OccursAt(s, sub, i) {
        var i :| OccursAt(s, sub, i);
        if i > 0 {
          assert OccursAt(s[1..], sub, i - 1);
        }
      }
    }
  }

  /** The empty string (a missing title or paragraph) contains no non-empty query. */
  lemma EmptyContainsOnlyEmpty(sub: string)
    ensures Contains("", sub) <==> sub == ""
  {
  }

  /** Leading whitespace removed. */
  function TrimStart(s: string): (r: string)
    ensures |r| <= |s| && r == s[|s| - |r|..]
    ensures forall i :: 0 <= i < |s| - |r| ==> IsSpace(s[i])
    ensures r == [] || !IsSpace(r[0])
  {
    if s != [] && IsSpace(s[0]) then TrimStart(s[1..]) else s
  }

  /** Trailing whitespace removed. */
  function TrimEnd(s: string): (r: string)
    ensures |r| <= |s| && r == s[..|r|]
    ensures forall i :: |r| <= i < |s| ==> IsSpace(s[i])
    ensures r == [] || !IsSpace(r[|r| - 1])
  {
    if s != [] && IsSpace(s[|s| - 1]) then TrimEnd(s[..|s| - 1]) else s
  }

  /** Every character of `t` is whitespace. */
  predicate AllSpace(t: string) {
    forall k :: 0 <= k < |t| ==> IsSpace(t[k])
  }

  /** `s` is `r` with whitespace-only padding `a` before and `b` after. */
  predicate PaddedBy(s: string, a: string, r: string, b: string) {
    s == a + r + b && AllSpace(a) && AllSpace(b)
  }

  /** `String.prototype.trim`: whitespace removed from both ends. */
  function Trim(s: string): (r: string)
    ensures |r| <= |s|
    ensures r == [] || (!IsSpace(r[0]) && !IsSpace(r[|r| - 1]))
  {
    TrimEnd(TrimStart(s))
  }

  lemma TrimStartPadding(s: string)
    ensures var t := TrimStart(s); s == s[..|s| - |t|] + t && AllSpace(s[..|s| - |t|])
  {
    var t := TrimStart(s);
    var a := s[..|s| - |t|];
    assert s == a + t;
    forall k | 0 <= k < |a| ensures IsSpace(a[k]) { assert a[k] == s[k]; }
  }

  lemma TrimEndPadding(t: string)
    ensures var r := TrimEnd(t); t == r + t[|r|..] && AllSpace(t[|r|..])
  {
    var r := TrimEnd(t);
    var b := t[|r|..];
    assert t == r + b;
    forall k | 0 <= k < |b| ensures IsSpace(b[k]) { assert b[k] == t[|r| + k]; }
  }

  lemma PaddingJoin(s: string, a: string, t: string, r: string, b: string)
    requires s == a + t && t == r + b && AllSpace(a) && AllSpace(b)
    ensures PaddedBy(s, a, r, b)
  {
    assert a + r + b == a + (r + b);
  }

  /** What trimming removes is whitespace only, from the two ends: the
      trimmed string is a middle slice `s == a + Trim(s) + b` of the
      original, with whitespace-only `a` and `b`. */
  lemma TrimRemovesOnlyPadding(s: string) returns (a: string, b: string)
    ensures PaddedBy(s, a, Trim(s), b)
  {
    var t := TrimStart(s);
    var r := TrimEnd(t);
    TrimStartPadding(s);
    TrimEndPadding(t);
    a, b := s[..|s| - |t|], t[|r|..];
    PaddingJoin(s, a, t, r, b);
  }

  /** Trimming twice is trimming once. */
  lemma TrimIdempotent(s: string)
    ensures Trim(Trim(s)) == Trim(s)
  {
    var r := Trim(s);
    if r != [] {
      assert TrimStart(r) == r;
      assert TrimEnd(r) == r;
    }
  }

  function DigitChar(d: nat): (c: char)
    requires d < 10
    ensures IsDigit(c) && c as int - '0' as int == d
  {
    ('0' as int + d) as char
  }

  /** `n.toString()` for a non-negative integer. */
  function Decimal(n: nat): (r: string)
    ensures r != []
    ensures forall i :: 0 <= i < |r| ==> IsDigit(r[i])
    ensures |r| > 1 ==> r[0] != '0'
  {
    if n < 10 then [DigitChar(n)] else Decimal(n / 10) + [DigitChar(n % 10)]
  }

  /** The number a string of decimal digits denotes. */
  function DigitsValue(s: string): nat
    requires forall i :: 0 <= i < |s| ==> IsDigit(s[i])
  {
    if s == [] then 0
    else
      assert IsDigit(s[|s| - 1]);
      DigitsValue(s[..|s| - 1]) * 10 + (s[|s| - 1] as int - '0' as int)
  }

  /** Reading back the digits of `Decimal(n)` gives `n`. */
  lemma {:induction false} DecimalRoundTrip(n: nat)
    ensures DigitsValue(Decimal(n)) == n
  {
    if n >= 10 {
      DecimalRoundTrip(n / 10);
      var r := Decimal(n);
      assert r[..|r| - 1] == Decimal(n / 10);
    }
  }

  /** Distinct counts render differently. */
  lemma DecimalInjective(m: nat, n: nat)
    requires Decimal(m) == Decimal(n)
    ensures m == n
  {
    DecimalRoundTrip(m);
    DecimalRoundTrip(n);
  }

  /** Digits without a superfluous leading zero: what `toString` writes. */
  predicate CanonicalDigits(s: string) {
    && s != []
    && (forall i :: 0 <= i < |s| ==> IsDigit(s[i]))
    && (|s| > 1 ==> s[0] != '0')
  }

  /** A digit string that starts with a non-zero digit denotes at least 1. */
  lemma {:induction false} NonZeroLeadDigitPositive(s: string)
    requires s != [] && (forall i :: 0 <= i < |s| ==> IsDigit(s[i])) && s[0] != '0'
    ensures DigitsValue(s) >= 1
  {
    if |s| > 1 {
      NonZeroLeadDigitPositive(s[..|s| - 1]);
    }
  }

  /** `Decimal(n)` is the only canonical digit string denoting `n`. */
  lemma {:induction false} CanonicalDigitsUnique(s: string, n: nat)
    requires CanonicalDigits(s) && DigitsValue(s) == n
    ensures s == Decimal(n)
  {
    var last := s[|s| - 1];
    var d := last as int - '0' as int;
    if |s| == 1 {
      assert DigitsValue(s) == DigitsValue([]) * 10 + d;
      assert DigitChar(n) as int == last as int;
    } else {
      var init := s[..|s| - 1];
      assert init[0] == s[0];
      NonZeroLeadDigitPositive(init);
      assert n == DigitsValue(init) * 10 + d && 0 <= d < 10;
      assert n / 10 == DigitsValue(init) && n % 10 == d;
      CanonicalDigitsUnique(init, n / 10);
      assert DigitChar(n % 10) as int == last as int;
      assert s == init + [last];
    }
  }

  /** The longest prefix of `s` made of digits. */
  function LeadingDigits(s: string): (r: string)
    ensures |r| <= |s| && r == s[..|r|]
    ensures forall i :: 0 <= i < |r| ==> IsDigit(r[i])
    ensures |r| < |s| ==> !IsDigit(s[|r|])
  {
    if s != [] && IsDigit(s[0]) then [s[0]] + LeadingDigits(s[1..]) else []
  }

  lemma {:induction false} LeadingDigitsOfDigitsThen(d: string, rest: string)
    requires forall i :: 0 <= i < |d| ==> IsDigit(d[i])
    requires rest != [] && !IsDigit(rest[0])
    ensures LeadingDigits(d + rest) == d
  {
    if d != [] {
      assert (d + rest)[1..] == d[1..] + rest;
      LeadingDigitsOfDigitsThen(d[1..], rest);
    }
  }

  /** JavaScript's `length`: UTF-16 code units, so a character above
      U+FFFF (written as a surrogate pair) counts twice. */
  function Utf16Length(s: string): (r: nat)
    ensures |s| <= r <= 2 * |s|
    ensures r == |s| <==> forall i :: 0 <= i < |s| ==> s[i] as int <= 0xFFFF
  {
    if s == [] then 0
    else
      var init := s[..|s| - 1];
      assert forall i :: 0 <= i < |init| ==> init[i] == s[i];
      Utf16Length(init) + if s[|s| - 1] as int > 0xFFFF then 2 else 1
  }

  /** The `${n} noun${n !== 1 ? 's' : ''}` label used for post, note and
      result counts. */
  function CountLabel(n: nat, noun: string): string {
    Decimal(n) + " " + noun + (if n != 1 then "s" else "")
  }

  /** The number at the head of a count label is the count itself. */
  lemma CountLabelLeadingNumber(n: nat, noun: string)
    ensures DigitsValue(LeadingDigits(CountLabel(n, noun))) == n
  {
    var rest := " " + noun + (if n != 1 then "s" else "");
    assert CountLabel(n, noun) == Decimal(n) + rest;
    LeadingDigitsOfDigitsThen(Decimal(n), rest);
    DecimalRoundTrip(n);
  }

  /** For a singular noun that does not already end in 's', the label ends
      in 's' exactly when the count is not one. */
  lemma CountLabelPlural(n: nat, noun: string)
    requires noun != [] && noun[|noun| - 1] != 's'
    ensures var l := CountLabel(n, noun); l[|l| - 1] == 's' <==> n != 1
  {
  }
}
