/** The per-exception throttle key: `'emailException'`, the exception's class,
    message and code run together, with every character outside A-Z, a-z and
    0-9 removed. */
module Fingerprints {
  import opened Exceptions

  const Prefix: string := "emailException"

  predicate IsAlnum(c: char) {
    ('A' <= c <= 'Z') || ('a' <= c <= 'z') || ('0' <= c <= '9')
  }

  predicate AllAlnum(s: string) {
    forall i :: 0 <= i < |s| ==> IsAlnum(s[i])
  }

  /** `preg_replace('/[^A-Za-z0-9]/', '', s)`. A non-ASCII character is never in
      the class, so removing it whole gives the same result as removing each of
      its UTF-8 bytes. */
  function StripNonAlnum(s: string): (r: string)
    ensures |r| <= |s|
    ensures AllAlnum(r)
  {
    if s == [] then []
    else if IsAlnum(s[0]) then [s[0]] + StripNonAlnum(s[1..])
    else StripNonAlnum(s[1..])
  }

  /** `r` is `s` with some characters deleted and the rest kept in order. */
  predicate IsSubsequence(r: string, s: string)
    decreases |s|
  {
    if r == [] then true
    else if s == [] then false
    else if r[0] == s[0] then IsSubsequence(r[1..], s[1..])
    else IsSubsequence(r, s[1..])
  }

  /** The filter only deletes: what is left keeps its original order. */
  lemma {:induction false} StripIsSubsequence(s: string)
    ensures IsSubsequence(StripNonAlnum(s), s)
  {
    if s != [] {
      StripIsSubsequence(s[1..]);
      var r := StripNonAlnum(s);
      if !IsAlnum(s[0]) && r != [] {
        assert IsAlnum(r[0]);
      }
    }
  }

  /** Every letter and digit survives, as often as it occurs; nothing else does. */
  lemma {:induction false} StripCounts(s: string, c: char)
    ensures multiset(StripNonAlnum(s))[c] == if IsAlnum(c) then multiset(s)[c] else 0
  {
    if s != [] {
      StripCounts(s[1..], c);
      assert s == [s[0]] + s[1..];
      assert multiset(s) == multiset([s[0]]) + multiset(s[1..]);
    } else {
      assert multiset(StripNonAlnum(s)) == multiset{};
    }
  }

  /** Filtering a concatenation filters each part. */
  lemma {:induction false} StripConcat(a: string, b: string)
    ensures StripNonAlnum(a + b) == StripNonAlnum(a) + StripNonAlnum(b)
  {
    if a != [] {
      assert (a + b)[0] == a[0];
      assert (a + b)[1..] == a[1..] + b;
      StripConcat(a[1..], b);
    } else {
      assert a + b == b;
    }
  }

  /** A string of letters and digits passes through unchanged. */
  lemma {:induction false} StripKeepsAlnum(s: string)
    requires AllAlnum(s)
    ensures StripNonAlnum(s) == s
  {
    if s != [] {
      StripKeepsAlnum(s[1..]);
    }
  }

  /** Filtering twice is filtering once. */
  lemma StripIdempotent(s: string)
    ensures StripNonAlnum(StripNonAlnum(s)) == StripNonAlnum(s)
  {
  }

  function DigitChar(d: nat): (c: char)
    requires d < 10
    ensures '0' <= c <= '9'
  {
    "0123456789"[d]
  }

  function DigitValue(c: char): nat {
    if '0' <= c <= '9' then (c as int - '0' as int) else 0
  }

  /** The decimal digits of `n`, most significant first. */
  function Digits(n: nat): (r: string)
    ensures |r| >= 1
    ensures forall i :: 0 <= i < |r| ==> '0' <= r[i] <= '9'
  {
    if n < 10 then [DigitChar(n)] else Digits(n / 10) + [DigitChar(n % 10)]
  }

  /** Reads a string of decimal digits back as a number. */
  function ParseDigits(s: string): nat {
    if s == [] then 0 else ParseDigits(s[..|s| - 1]) * 10 + DigitValue(s[|s| - 1])
  }

  lemma {:induction false} DigitsRoundTrip(n: nat)
    ensures ParseDigits(Digits(n)) == n
  {
    var r := Digits(n);
    if n >= 10 {
      DigitsRoundTrip(n / 10);
      assert r[..|r| - 1] == Digits(n / 10);
    }
  }

  /** PHP's conversion of an integer exception code to a string. */
  function DecimalText(n: int): string {
    if n < 0 then "-" + Digits(-n) else Digits(n)
  }

  function Abs(n: int): nat {
    if n < 0 then -n else n
  }

  /** The minus sign of a negative code is filtered out. */
  lemma StripDecimalText(n: int)
    ensures StripNonAlnum(DecimalText(n)) == Digits(Abs(n))
  {
    StripKeepsAlnum(Digits(Abs(n)));
    if n < 0 {
      StripConcat("-", Digits(-n));
    }
  }

  /** PHP's conversion of the code to a string when it is concatenated. */
  function CodeText(c: Code): string {
    match c
    case IntCode(n) => DecimalText(n)
    case StringCode(s) => s
  }

  /** What of the code survives the filter: the digits of an integer code's
      magnitude, or the letters and digits of a string code. */
  function CodeKey(c: Code): string {
    match c
    case IntCode(n) => Digits(Abs(n))
    case StringCode(s) => StripNonAlnum(s)
  }

  lemma StripCodeText(c: Code)
    ensures StripNonAlnum(CodeText(c)) == CodeKey(c)
  {
    if c.IntCode? {
      StripDecimalText(c.n);
    }
  }

  /** The text the key is filtered from: the prefix, the class name, the
      message and the code run together. */
  function ThrottleKeySource(e: Exception): string {
    Prefix + e.className + e.message + CodeText(e.code)
  }

  /** The key the per-exception throttle stores in the cache. */
  function Fingerprint(e: Exception): (r: string)
    ensures AllAlnum(r)
    ensures |r| <= |ThrottleKeySource(e)|
  {
    StripNonAlnum(ThrottleKeySource(e))
  }

  lemma PrefixIsAlnum()
    ensures StripNonAlnum(Prefix) == Prefix
  {
    assert AllAlnum(Prefix) by {
      forall i | 0 <= i < |Prefix| ensures IsAlnum(Prefix[i]) {
        assert Prefix[i] in "emailException";
      }
    }
    StripKeepsAlnum(Prefix);
  }

  /** The key is the prefix followed by the filtered class name, the filtered
      message and what of the code survives the filter. */
  lemma FingerprintParts(e: Exception)
    ensures Fingerprint(e)
         == Prefix + StripNonAlnum(e.className) + StripNonAlnum(e.message) + CodeKey(e.code)
  {
    var c, m, d := e.className, e.message, CodeText(e.code);
    var sc, sm, sd := StripNonAlnum(c), StripNonAlnum(m), StripNonAlnum(d);
    assert Fingerprint(e) == Prefix + (sc + (sm + sd)) by {
      assert ThrottleKeySource(e) == Prefix + (c + (m + d));
      StripConcat(Prefix, c + (m + d));
      StripConcat(c, m + d);
      StripConcat(m, d);
      PrefixIsAlnum();
    }
    assert sd == CodeKey(e.code) by {
      StripCodeText(e.code);
    }
  }

  /** Every key starts with the prefix, so it is never empty. */
  lemma FingerprintHasPrefix(e: Exception)
    ensures |Fingerprint(e)| >= |Prefix| > 0
    ensures Fingerprint(e)[..|Prefix|] == Prefix
  {
    FingerprintParts(e);
  }

  /** Exceptions whose class, message and code agree have the same key. */
  lemma SameTripleSameFingerprint(e1: Exception, e2: Exception)
    requires e1.className == e2.className && e1.message == e2.message && e1.code == e2.code
    ensures Fingerprint(e1) == Fingerprint(e2)
  {
  }

  /** The key as the prefix, the filtered class name and message run
      together, and the filtered code. */
  lemma FingerprintSplit(e: Exception)
    ensures Fingerprint(e) == Prefix + StripNonAlnum(e.className + e.message) + CodeKey(e.code)
  {
    FingerprintParts(e);
    StripConcat(e.className, e.message);
    var sc, sm := StripNonAlnum(e.className), StripNonAlnum(e.message);
    assert Prefix + sc + sm == Prefix + (sc + sm);
  }

  /** The key does not see punctuation, the boundary between class name and
      message, the sign of an integer code, or whether the code was an integer
      or a string of digits: exceptions that agree on what is left share one
      key. */
  lemma FingerprintCollides(e1: Exception, e2: Exception)
    requires StripNonAlnum(e1.className + e1.message) == StripNonAlnum(e2.className + e2.message)
    requires CodeKey(e1.code) == CodeKey(e2.code)
    ensures Fingerprint(e1) == Fingerprint(e2)
  {
    FingerprintSplit(e1);
    FingerprintSplit(e2);
  }

  /** Conversely, for the same filtered class name and message, equal keys
      mean the codes leave the same letters and digits; for two integer codes,
      that their absolute values are equal. */
  lemma FingerprintSeparates(e1: Exception, e2: Exception)
    requires StripNonAlnum(e1.className + e1.message) == StripNonAlnum(e2.className + e2.message)
    requires Fingerprint(e1) == Fingerprint(e2)
    ensures CodeKey(e1.code) == CodeKey(e2.code)
    ensures e1.code.IntCode? && e2.code.IntCode? ==> Abs(e1.code.n) == Abs(e2.code.n)
  {
    FingerprintSplit(e1);
    FingerprintSplit(e2);
    var head := Prefix + StripNonAlnum(e1.className + e1.message);
    var d1, d2 := CodeKey(e1.code), CodeKey(e2.code);
    assert d1 == Fingerprint(e1)[|head|..];
    assert d2 == Fingerprint(e2)[|head|..];
    if e1.code.IntCode? && e2.code.IntCode? {
      DigitsRoundTrip(Abs(e1.code.n));
      DigitsRoundTrip(Abs(e2.code.n));
    }
  }
}
