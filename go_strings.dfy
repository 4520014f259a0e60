/**
 * The pieces of Go's `strings` and `strconv` packages that the scheme
 * interpreter relies on: prefix tests, whitespace trimming and decimal
 * integer parsing. Go strings are modelled as sequences of characters.
 */
module GoStrings {
  import opened Wrappers

  /** `strings.HasPrefix`. */
  predicate HasPrefix(s: string, prefix: string)
  {
    |prefix| <= |s| && s[..|prefix|] == prefix
  }

  /** Two prefixes of the same text: the shorter one is a prefix of the longer one. */
  lemma PrefixesNest(s: string, p: string, q: string)
    requires HasPrefix(s, p) && HasPrefix(s, q) && |p| <= |q|
    ensures HasPrefix(q, p)
  {
    assert q[..|p|] == s[..|q|][..|p|] == s[..|p|];
  }

  /** `unicode.IsSpace`: the characters with the Unicode White_Space property. */
  predicate IsSpace(c: char)
  {
    || c == ' '
    || ('\t' <= c <= '\r')
    || c == '\U{85}' || c == '\U{A0}' || c == '\U{1680}'
    || ('\U{2000}' <= c <= '\U{200A}')
    || c == '\U{2028}' || c == '\U{2029}' || c == '\U{202F}' || c == '\U{205F}'
    || c == '\U{3000}'
  }

  /** Text made of white space only. */
  predicate AllSpace(s: string)
  {
    forall k :: 0 <= k < |s| ==> IsSpace(s[k])
  }

  /** Text that neither starts nor ends with white space. */
  predicate Trimmed(s: string)
  {
    s == [] || (!IsSpace(s[0]) && !IsSpace(s[|s| - 1]))
  }

  /** Index of the first character at or after `from` that is not white space, or `|s|`. */
  function SkipSpace(s: string, from: nat): (i: nat)
    requires from <= |s|
    ensures from <= i <= |s|
    decreases |s| - from
  {
    if from == |s| || !IsSpace(s[from]) then from else SkipSpace(s, from + 1)
  }

  /** Index just past the last character before `hi` and at or after `lo` that is not white space, or `lo`. */
  function SkipSpaceBack(s: string, lo: nat, hi: nat): (j: nat)
    requires lo <= hi <= |s|
    ensures lo <= j <= hi
    decreases hi
  {
    if hi == lo || !IsSpace(s[hi - 1]) then hi else SkipSpaceBack(s, lo, hi - 1)
  }

  /** `SkipSpace` passes over white space only and stops at the first other character. */
  lemma {:induction false} SkipSpaceSkips(s: string, from: nat)
    requires from <= |s|
    ensures forall k :: from <= k < SkipSpace(s, from) ==> IsSpace(s[k])
    ensures SkipSpace(s, from) < |s| ==> !IsSpace(s[SkipSpace(s, from)])
    decreases |s| - from
  {
    if from < |s| && IsSpace(s[from]) {
      SkipSpaceSkips(s, from + 1);
    }
  }

  /** `SkipSpaceBack` passes over white space only and stops after the last other character. */
  lemma {:induction false} SkipSpaceBackSkips(s: string, lo: nat, hi: nat)
    requires lo <= hi <= |s|
    ensures forall k :: SkipSpaceBack(s, lo, hi) <= k < hi ==> IsSpace(s[k])
    ensures lo < SkipSpaceBack(s, lo, hi) ==> !IsSpace(s[SkipSpaceBack(s, lo, hi) - 1])
    decreases hi
  {
    if lo < hi && IsSpace(s[hi - 1]) {
      SkipSpaceBackSkips(s, lo, hi - 1);
    }
  }

  /** Where `TrimSpace(s)` starts in `s`. */
  function TrimStart(s: string): (i: nat)
    ensures i <= |s|
  {
    SkipSpace(s, 0)
  }

  /** Where `TrimSpace(s)` ends in `s`. */
  function TrimEnd(s: string): (j: nat)
    ensures TrimStart(s) <= j <= |s|
  {
    SkipSpaceBack(s, SkipSpace(s, 0), |s|)
  }

  /**
   * `strings.TrimSpace`: leading white space is cut first, then trailing
   * white space from what is left; `TrimSpaceRemovesSpace` states what
   * that leaves.
   */
  function TrimSpace(s: string): (r: string)
    ensures |r| <= |s|
  {
    s[TrimStart(s)..TrimEnd(s)]
  }

  /**
   * `TrimSpace(s)` is the slice of `s` between the first and the last
   * character that is not white space: everything removed is white space
   * and the result neither starts nor ends with white space.
   */
  lemma TrimSpaceRemovesSpace(s: string)
    ensures TrimSpace(s) == s[TrimStart(s)..TrimEnd(s)]
    ensures forall k :: 0 <= k < TrimStart(s) ==> IsSpace(s[k])
    ensures forall k :: TrimEnd(s) <= k < |s| ==> IsSpace(s[k])
    ensures Trimmed(TrimSpace(s))
  {
    var i, j := TrimStart(s), TrimEnd(s);
    SkipSpaceSkips(s, 0);
    SkipSpaceBackSkips(s, i, |s|);
    var r := TrimSpace(s);
    if i < j {
      assert r[0] == s[i] && r[|r| - 1] == s[j - 1];
    }
  }

  lemma {:induction false} SkipSpaceIs(s: string, from: nat, i: nat)
    requires from <= i <= |s|
    requires forall k :: from <= k < i ==> IsSpace(s[k])
    requires i < |s| ==> !IsSpace(s[i])
    ensures SkipSpace(s, from) == i
    decreases i - from
  {
    if from < i {
      SkipSpaceIs(s, from + 1, i);
    }
  }

  lemma {:induction false} SkipSpaceBackIs(s: string, lo: nat, hi: nat, j: nat)
    requires lo <= j <= hi <= |s|
    requires forall k :: j <= k < hi ==> IsSpace(s[k])
    requires lo < j ==> !IsSpace(s[j - 1])
    ensures SkipSpaceBack(s, lo, hi) == j
    decreases hi - j
  {
    if j < hi {
      SkipSpaceBackIs(s, lo, hi - 1, j);
    }
  }

  /** White space around trimmed text is exactly what `TrimSpace` removes. */
  lemma TrimSpaceAround(pre: string, s: string, post: string)
    requires AllSpace(pre) && AllSpace(post) && s != [] && Trimmed(s)
    ensures TrimSpace(pre + s + post) == s
  {
    var x := pre + s + post;
    var i, j := |pre|, |pre| + |s|;
    assert forall k :: 0 <= k < i ==> x[k] == pre[k];
    assert forall k :: j <= k < |x| ==> x[k] == post[k - j];
    assert x[i] == s[0] && x[j - 1] == s[|s| - 1];
    SkipSpaceIs(x, 0, i);
    SkipSpaceBackIs(x, i, |x|, j);
    assert x[i..j] == s;
  }

  // ---------------------------------------------------------------------
  // strconv.Atoi on a 64-bit platform
  // ---------------------------------------------------------------------

  const MinInt64: int := -0x8000_0000_0000_0000
  const MaxInt64: int := 0x7FFF_FFFF_FFFF_FFFF

  predicate IsDigit(c: char)
  {
    '0' <= c <= '9'
  }

  predicate AllDigits(s: string)
  {
    forall k :: 0 <= k < |s| ==> IsDigit(s[k])
  }

  function DigitValue(c: char): nat
    requires IsDigit(c)
  {
    c as int - '0' as int
  }

  /** The number a string of decimal digits denotes, most significant first. */
  function DecimalValue(s: string): nat
    requires AllDigits(s)
  {
    if s == [] then 0 else 10 * DecimalValue(s[..|s| - 1]) + DigitValue(s[|s| - 1])
  }

  /** The text after an optional leading `+` or `-`. */
  function Unsigned(s: string): string
  {
    if |s| > 0 && (s[0] == '+' || s[0] == '-') then s[1..] else s
  }

  /**
   * `strconv.Atoi`: an optional `+` or `-`, then at least one decimal digit,
   * with a value inside the 64-bit `int` range. Anything else (the empty
   * text, a lone sign, white space, an underscore, an out-of-range value)
   * is an error, modelled as `None`.
   */
  function Atoi(s: string): (r: Option<int>)
    ensures r.Some? ==> MinInt64 <= r.value <= MaxInt64
    ensures r.Some? ==> s != [] && (IsDigit(s[0]) || s[0] == '+' || s[0] == '-')
    ensures r.Some? ==> Unsigned(s) != [] && AllDigits(Unsigned(s))
    ensures r.Some? ==> (if r.value < 0 then -r.value else r.value) == DecimalValue(Unsigned(s))
    ensures (Unsigned(s) != [] && AllDigits(Unsigned(s))
             && DecimalValue(Unsigned(s)) <= MaxInt64 + (if s[0] == '-' then 1 else 0)) ==> r.Some?
  {
    var signed := |s| > 0 && (s[0] == '+' || s[0] == '-');
    var digits := Unsigned(s);
    if digits == [] || !AllDigits(digits) then None
    else
      var magnitude: int := DecimalValue(digits);
      var v := if signed && s[0] == '-' then -magnitude else magnitude;
      if MinInt64 <= v <= MaxInt64 then Some(v) else None
  }

  /** Decimal digits of `n`, without sign or leading zeros. */
  function Decimal(n: nat): (r: string)
    ensures r != [] && AllDigits(r)
  {
    var last := ['0' + (n % 10) as char];
    if n < 10 then last else Decimal(n / 10) + last
  }

  /** The text `%d` prints for `n`. */
  function FormatInt(n: int): string
  {
    if n < 0 then "-" + Decimal(-n) else Decimal(n)
  }

  lemma {:induction false} DecimalValueOfDecimal(n: nat)
    ensures DecimalValue(Decimal(n)) == n
  {
    var d := Decimal(n);
    if n >= 10 {
      DecimalValueOfDecimal(n / 10);
      assert d[..|d| - 1] == Decimal(n / 10);
    }
  }

  /** Atoi reads back a non-negative 64-bit integer written in decimal. */
  lemma AtoiDecimal(n: nat)
    requires n <= MaxInt64
    ensures Atoi(Decimal(n)) == Some(n)
  {
    var d := Decimal(n);
    assert IsDigit(d[0]);
    DecimalValueOfDecimal(n);
  }

  /** Atoi reads back a negative 64-bit integer written in decimal after a minus sign. */
  lemma AtoiMinusDecimal(n: nat)
    requires 0 < n <= -MinInt64
    ensures Atoi("-" + Decimal(n)) == Some(-(n as int))
  {
    var s := "-" + Decimal(n);
    assert s[0] == '-' && s[1..] == Decimal(n);
    DecimalValueOfDecimal(n);
  }

  /** Atoi reads back every 64-bit integer written in decimal. */
  lemma AtoiFormatInt(n: int)
    requires MinInt64 <= n <= MaxInt64
    ensures Atoi(FormatInt(n)) == Some(n)
  {
    if n < 0 {
      AtoiMinusDecimal(-n);
    } else {
      AtoiDecimal(n);
    }
  }

  /** A leading zero adds nothing to the value of a digit string. */
  lemma {:induction false} LeadingZero(d: string)
    requires AllDigits(d) && |d| > 1 && d[0] == '0'
    ensures DecimalValue(d) == DecimalValue(d[1..])
    decreases |d|
  {
    var init := d[..|d| - 1];
    assert d[1..][..|d| - 2] == init[1..];
    if |init| > 1 {
      LeadingZero(init);
    } else {
      assert init[..0] == [];
    }
  }

  /** Digits without their leading zeros, keeping at least one digit. */
  function StripZeros(d: string): (r: string)
    requires d != [] && AllDigits(d)
    ensures r != [] && AllDigits(r) && (|r| == 1 || r[0] != '0')
    ensures DecimalValue(r) == DecimalValue(d)
  {
    if |d| > 1 && d[0] == '0' then LeadingZero(d); StripZeros(d[1..]) else d
  }

  /** A digit string that does not start with `0` denotes a positive number. */
  lemma {:induction false} LeadingDigitPositive(d: string)
    requires d != [] && AllDigits(d) && d[0] != '0'
    ensures DecimalValue(d) >= 1
    decreases |d|
  {
    if |d| > 1 {
      LeadingDigitPositive(d[..|d| - 1]);
    } else {
      assert d[..0] == [];
    }
  }

  /** Decimal prints back a digit string that has no leading zeros. */
  lemma {:induction false} DecimalOfValue(d: string)
    requires d != [] && AllDigits(d) && (|d| == 1 || d[0] != '0')
    ensures Decimal(DecimalValue(d)) == d
    decreases |d|
  {
    var init, c := d[..|d| - 1], d[|d| - 1];
    var n := DecimalValue(d);
    assert ('0' as int + DigitValue(c)) as char == c;
    if |d| == 1 {
      assert init == [];
      assert d == [c];
    } else {
      DecimalOfValue(init);
      LeadingDigitPositive(init);
      assert n / 10 == DecimalValue(init) && n % 10 == DigitValue(c);
      assert d == init + [c];
    }
  }

  /**
   * The converse of AtoiFormatInt: a text Atoi accepts is the decimal text
   * of its value, up to a leading sign and leading zeros.
   */
  lemma AtoiCanonical(s: string, v: int)
    requires Atoi(s) == Some(v)
    ensures StripZeros(Unsigned(s)) == Decimal(if v < 0 then -v else v)
    ensures v < 0 ==> s[0] == '-'
    ensures v > 0 ==> s[0] != '-'
  {
    DecimalOfValue(StripZeros(Unsigned(s)));
  }

  /** Atoi rejects any text with white space in it: the caller has to trim first. */
  lemma AtoiRejectsSpace(s: string, k: nat)
    requires k < |s| && IsSpace(s[k])
    ensures Atoi(s) == None
  {
    if |s| > 0 && (s[0] == '+' || s[0] == '-') {
      assert k > 0 && s[1..][k - 1] == s[k];
    }
  }
}
