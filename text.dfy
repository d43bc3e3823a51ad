/**
  String helpers the key builders, the feed decoder and the trending sort key rely on:
  prefixes (strings.HasPrefix / strings.TrimPrefix), the order in which the store sorts
  string sort keys, and decimal formatting and parsing as Go's fmt and strconv do it.
*/
module Text {
  import opened Wrappers

  predicate HasPrefix(s: string, p: string) {
    |p| <= |s| && s[..|p|] == p
  }

  /** strings.TrimPrefix: drops `p` from the front of `s` when it is there. */
  function TrimPrefix(s: string, p: string): (r: string)
    ensures HasPrefix(s, p) ==> p + r == s
    ensures !HasPrefix(s, p) ==> r == s
  {
    if HasPrefix(s, p) then s[|p|..] else s
  }

  lemma PrefixOfConcat(p: string, s: string)
    ensures HasPrefix(p + s, p)
  {
    assert (p + s)[..|p|] == p;
  }

  // ---------------------------------------------------------------------------
  // Sort-key order. The store compares string sort keys by their UTF-8 bytes,
  // which orders strings exactly as comparing their code points one by one.
  // ---------------------------------------------------------------------------

  /** Strict lexicographic order: a proper prefix comes first. */
  predicate Less(a: string, b: string)
    decreases |a|
  {
    if |a| == 0 then |b| > 0
    else if |b| == 0 then false
    else if a[0] != b[0] then a[0] < b[0]
    else Less(a[1..], b[1..])
  }

  lemma {:induction false} LessIrreflexive(a: string)
    ensures !Less(a, a)
    decreases |a|
  {
    if |a| > 0 {
      LessIrreflexive(a[1..]);
    }
  }

  lemma {:induction false} LessTransitive(a: string, b: string, c: string)
    requires Less(a, b) && Less(b, c)
    ensures Less(a, c)
    decreases |a|
  {
    if |a| > 0 && a[0] == b[0] && b[0] == c[0] {
      LessTransitive(a[1..], b[1..], c[1..]);
    }
  }

  lemma {:induction false} LessTotal(a: string, b: string)
    ensures a == b || Less(a, b) || Less(b, a)
    decreases |a|
  {
    if |a| > 0 && |b| > 0 && a[0] == b[0] {
      LessTotal(a[1..], b[1..]);
      if a[1..] == b[1..] {
        assert a == [a[0]] + a[1..] && b == [b[0]] + b[1..];
      }
    }
  }

  lemma {:induction false} LessAsymmetric(a: string, b: string)
    requires Less(a, b)
    ensures !Less(b, a)
    decreases |a|
  {
    if |a| > 0 && a[0] == b[0] {
      LessAsymmetric(a[1..], b[1..]);
    }
  }

  /** Two keys of equal length that compare Less keep that order whatever follows them. */
  lemma {:induction false} LessExtend(p1: string, p2: string, s1: string, s2: string)
    requires |p1| == |p2| && Less(p1, p2)
    ensures Less(p1 + s1, p2 + s2)
    decreases |p1|
  {
    if p1[0] == p2[0] {
      assert (p1 + s1)[1..] == p1[1..] + s1;
      assert (p2 + s2)[1..] == p2[1..] + s2;
      LessExtend(p1[1..], p2[1..], s1, s2);
    }
  }

  /** A common prefix does not change the order. */
  lemma {:induction false} LessCommonPrefix(p: string, s1: string, s2: string)
    requires Less(s1, s2)
    ensures Less(p + s1, p + s2)
    decreases |p|
  {
    if |p| > 0 {
      assert (p + s1)[1..] == p[1..] + s1;
      assert (p + s2)[1..] == p[1..] + s2;
      LessCommonPrefix(p[1..], s1, s2);
    } else {
      assert p + s1 == s1 && p + s2 == s2;
    }
  }

  // ---------------------------------------------------------------------------
  // Decimal numbers: fmt's %d, strconv.FormatUint, strconv.ParseUint / ParseInt
  // with base 10 and bit size 64.
  // ---------------------------------------------------------------------------

  const TwoTo63: int := 0x8000_0000_0000_0000
  const TwoTo64: int := 0x1_0000_0000_0000_0000

  predicate IsDigit(c: char) {
    '0' <= c <= '9'
  }

  predicate AllDigits(s: string) {
    forall i :: 0 <= i < |s| ==> IsDigit(s[i])
  }

  function DigitChar(d: nat): (c: char)
    requires d < 10
    ensures IsDigit(c)
  {
    (('0' as int) + d) as char
  }

  function DigitValue(c: char): (d: nat)
    requires IsDigit(c)
    ensures d < 10 && DigitChar(d) == c
  {
    (c as int) - ('0' as int)
  }

  /** The shortest decimal rendering of `n`, as %d and strconv.FormatUint write it. */
  function NatToDecimal(n: nat): (s: string)
    ensures |s| >= 1 && AllDigits(s)
    decreases n
  {
    if n < 10 then [DigitChar(n)] else NatToDecimal(n / 10) + [DigitChar(n % 10)]
  }

  /** %d of a signed integer. */
  function IntToDecimal(n: int): string {
    if n < 0 then "-" + NatToDecimal(-n) else NatToDecimal(n)
  }

  /** The value of a string of decimal digits (most significant first). */
  function DigitsValue(s: string): nat
    requires AllDigits(s)
    decreases |s|
  {
    if s == [] then 0 else DigitsValue(s[..|s| - 1]) * 10 + DigitValue(s[|s| - 1])
  }

  /** strconv.ParseUint(s, 10, 64): one or more digits, value below 2^64. */
  function ParseUint(s: string): Option<nat> {
    if |s| > 0 && AllDigits(s) && DigitsValue(s) < TwoTo64 then Some(DigitsValue(s)) else None
  }

  /** The longest run of digits at the front of `s`. */
  function LeadingDigits(s: string): (p: string)
    ensures |p| <= |s| && p == s[..|p|] && AllDigits(p)
    ensures |p| < |s| ==> !IsDigit(s[|p|])
    ensures AllDigits(s) ==> p == s
    decreases |s|
  {
    if s == [] || !IsDigit(s[0]) then "" else [s[0]] + LeadingDigits(s[1..])
  }

  /**
    strconv.ParseUint reads `s` from left to right and stops at the first problem: a
    character that is not a digit is a syntax error, a digit that takes the value past
    2^64-1 is a range error. The value only grows digit by digit, so the range error is
    met first exactly when the leading digits alone already exceed 2^64-1.
  */
  predicate OverflowsFirst(s: string) {
    DigitsValue(LeadingDigits(s)) >= TwoTo64
  }

  /**
    The value `v, _ := strconv.ParseUint(s, 10, 64)` leaves in `v` when the error is ignored:
    0 on a syntax error, the largest uint64 on a range error.
  */
  function ParseUintIgnoringError(s: string): (v: nat)
    ensures v < TwoTo64
    ensures ParseUint(s).Some? ==> v == ParseUint(s).value
    ensures OverflowsFirst(s) ==> v == TwoTo64 - 1
    ensures ParseUint(s).None? && !OverflowsFirst(s) ==> v == 0
  {
    if OverflowsFirst(s) then TwoTo64 - 1
    else if |s| > 0 && AllDigits(s) then DigitsValue(s)
    else 0
  }

  /** A digit prefix is worth at most the whole digit string. */
  lemma {:induction false} DigitsValuePrefix(s: string, k: nat)
    requires AllDigits(s) && k <= |s|
    ensures DigitsValue(s[..k]) <= DigitsValue(s)
    decreases |s|
  {
    if k < |s| {
      assert s[..|s| - 1][..k] == s[..k];
      DigitsValuePrefix(s[..|s| - 1], k);
    } else {
      assert s[..k] == s;
    }
  }

  /** Digits that already overflow make ParseUint answer 2^64-1, whatever junk follows them. */
  lemma OverflowBeforeJunk(d: string, rest: string)
    requires AllDigits(d) && DigitsValue(d) >= TwoTo64
    ensures ParseUintIgnoringError(d + rest) == TwoTo64 - 1
  {
    var p := LeadingDigits(d + rest);
    assert p[..|d|] == d;
    DigitsValuePrefix(p, |d|);
  }

  /** A character that is not a digit, met before any overflow, makes ParseUint answer 0. */
  lemma JunkBeforeOverflow(d: string, c: char, rest: string)
    requires AllDigits(d) && DigitsValue(d) < TwoTo64 && !IsDigit(c)
    ensures ParseUintIgnoringError(d + [c] + rest) == 0
  {
    var s := d + [c] + rest;
    var p := LeadingDigits(s);
    assert forall i :: 0 <= i < |d| ==> s[i] == d[i];
    assert s[|d|] == c;
    assert |p| == |d|;
    assert p == d;
    assert !AllDigits(s) by { assert s[|d|] == c; }
  }

  /** strconv.ParseInt(s, 10, 64): an optional '+' or '-', then digits; the value must fit in int64. */
  function ParseInt(s: string): Option<int> {
    if |s| > 0 && (s[0] == '+' || s[0] == '-') then
      var m := s[1..];
      if |m| > 0 && AllDigits(m) then
        var v: int := DigitsValue(m);
        if s[0] == '-' then (if v <= TwoTo63 then Some(-v) else None)
        else (if v < TwoTo63 then Some(v) else None)
      else None
    else if |s| > 0 && AllDigits(s) && DigitsValue(s) < TwoTo63 then Some(DigitsValue(s))
    else None
  }

  /** What ParseInt hands to ParseUint: the text after one optional leading '+' or '-'. */
  function Magnitude(s: string): (m: string)
    ensures |s| > 0 && (s[0] == '+' || s[0] == '-') ==> [s[0]] + m == s
    ensures !(|s| > 0 && (s[0] == '+' || s[0] == '-')) ==> m == s
  {
    if |s| > 0 && (s[0] == '+' || s[0] == '-') then s[1..] else s
  }

  /**
    The value `v, _ := strconv.Atoi(s)` leaves in `v` on a 64-bit platform. Atoi hands
    texts of 19 or more characters to ParseInt, which strips the sign, calls ParseUint
    and clamps its value (the largest uint64 on a range error) to int64; a syntax error
    gives 0. Shorter texts take a fast path that cannot overflow and gives the same values.
  */
  function AtoiIgnoringError(s: string): (v: int)
    ensures -TwoTo63 <= v < TwoTo63
    ensures ParseInt(s).Some? ==> v == ParseInt(s).value
    ensures ParseInt(s).None? ==> v == 0 || v == -TwoTo63 || v == TwoTo63 - 1
    ensures OverflowsFirst(Magnitude(s)) ==> v == if |s| > 0 && s[0] == '-' then -TwoTo63 else TwoTo63 - 1
    ensures ParseUint(Magnitude(s)).None? && !OverflowsFirst(Magnitude(s)) ==> v == 0
  {
    var m := Magnitude(s);
    if |m| > 0 && (AllDigits(m) || OverflowsFirst(m)) then
      var u: int := ParseUintIgnoringError(m);
      if |s| > 0 && s[0] == '-' then (if u <= TwoTo63 then -u else -TwoTo63)
      else (if u < TwoTo63 then u else TwoTo63 - 1)
    else 0
  }

  lemma {:induction false} DigitsValueOfDecimal(n: nat)
    ensures DigitsValue(NatToDecimal(n)) == n
    decreases n
  {
    var s := NatToDecimal(n);
    if n >= 10 {
      DigitsValueOfDecimal(n / 10);
      assert s[..|s| - 1] == NatToDecimal(n / 10);
    }
  }

  /** Formatting then parsing an unsigned 64-bit value gives it back. */
  lemma ParseUintOfDecimal(n: nat)
    requires n < TwoTo64
    ensures ParseUint(NatToDecimal(n)) == Some(n)
  {
    DigitsValueOfDecimal(n);
  }

  /** Formatting then parsing a signed 64-bit value gives it back. */
  lemma ParseIntOfDecimal(n: int)
    requires -TwoTo63 <= n < TwoTo63
    ensures ParseInt(IntToDecimal(n)) == Some(n)
  {
    if n < 0 {
      DigitsValueOfDecimal(-n);
      assert IntToDecimal(n)[1..] == NatToDecimal(-n);
    } else {
      DigitsValueOfDecimal(n);
    }
  }

  // ---------------------------------------------------------------------------
  // Zero padding (the 0 flag of fmt verbs) and fixed-width digit strings.
  // ---------------------------------------------------------------------------

  function Pow10(w: nat): (p: nat)
    ensures p >= 1
  {
    if w == 0 then 1 else 10 * Pow10(w - 1)
  }

  function Zeros(k: nat): (s: string)
    ensures |s| == k && forall i :: 0 <= i < k ==> s[i] == '0'
  {
    if k == 0 then "" else Zeros(k - 1) + "0"
  }

  /** Left-pads `s` with '0' to width `w`; a longer `s` is left as it is. */
  function ZeroPad(s: string, w: nat): (r: string)
    ensures |r| == if |s| < w then w else |s|
  {
    if |s| < w then Zeros(w - |s|) + s else s
  }

  /** The last `w` decimal digits of `n`, most significant first. */
  function FixedDigits(n: nat, w: nat): (s: string)
    ensures |s| == w && AllDigits(s)
  {
    if w == 0 then "" else FixedDigits(n / 10, w - 1) + [DigitChar(n % 10)]
  }

  lemma {:induction false} FixedDigitsOfZero(w: nat)
    ensures FixedDigits(0, w) == Zeros(w)
  {
    if w > 0 {
      FixedDigitsOfZero(w - 1);
    }
  }

  lemma {:induction false} DecimalLength(n: nat, w: nat)
    requires n < Pow10(w)
    ensures |NatToDecimal(n)| <= if w == 0 then 1 else w
  {
    if n >= 10 {
      DecimalLength(n / 10, w - 1);
    }
  }

  /** Zero-padding the decimal rendering of a number below 10^w to width w gives its w-digit form. */
  lemma {:induction false} ZeroPadIsFixedDigits(n: nat, w: nat)
    requires w >= 1 && n < Pow10(w)
    ensures ZeroPad(NatToDecimal(n), w) == FixedDigits(n, w)
  {
    if n < 10 {
      FixedDigitsOfZero(w - 1);
      assert n / 10 == 0 && n % 10 == n;
    } else {
      ZeroPadIsFixedDigits(n / 10, w - 1);
      DecimalLength(n / 10, w - 1);
      var d := NatToDecimal(n / 10);
      assert NatToDecimal(n) == d + [DigitChar(n % 10)];
      assert ZeroPad(NatToDecimal(n), w) == Zeros(w - 1 - |d|) + d + [DigitChar(n % 10)];
    }
  }

  /** Equal-width digit strings sort as the numbers they denote. */
  lemma {:induction false} FixedDigitsOrder(a: nat, b: nat, w: nat)
    requires a < b < Pow10(w)
    ensures Less(FixedDigits(a, w), FixedDigits(b, w))
  {
    var pa, pb := FixedDigits(a / 10, w - 1), FixedDigits(b / 10, w - 1);
    var ca, cb := DigitChar(a % 10), DigitChar(b % 10);
    if a / 10 == b / 10 {
      assert a % 10 < b % 10;
      assert Less([ca], [cb]);
      LessCommonPrefix(pa, [ca], [cb]);
    } else {
      FixedDigitsOrder(a / 10, b / 10, w - 1);
      LessExtend(pa, pb, [ca], [cb]);
    }
  }
}
