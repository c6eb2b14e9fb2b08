/**
  The string operations the rules rely on: Python's int() on a str,
  str.lower() on ASCII keys, str.startswith and str.removeprefix.
 */
module Text {
  import opened Outcomes

  /** An ASCII decimal digit. */
  predicate IsDigit(c: char) {
    '0' <= c <= '9'
  }

  predicate AllDigits(s: string) {
    forall i | 0 <= i < |s| :: IsDigit(s[i])
  }

  function DigitValue(c: char): nat
    requires IsDigit(c)
  {
    c as int - '0' as int
  }

  function DigitChar(d: nat): (c: char)
    requires d < 10
    ensures IsDigit(c) && DigitValue(c) == d
  {
    ('0' as int + d) as char
  }

  /** The value of a decimal numeral, most significant digit first. */
  function DigitsValue(s: string): nat
    requires AllDigits(s)
    decreases |s|
  {
    if |s| == 0 then 0 else 10 * DigitsValue(s[..|s| - 1]) + DigitValue(s[|s| - 1])
  }

  /** The shortest decimal numeral of n, as str(n) writes it. */
  function NatToString(n: nat): (s: string)
    ensures |s| > 0 && AllDigits(s)
    ensures DigitsValue(s) == n
    decreases n
  {
    if n < 10 then [DigitChar(n)]
    else
      var prefix := NatToString(n / 10);
      var s := prefix + [DigitChar(n % 10)];
      assert s[..|s| - 1] == prefix;
      s
  }

  function Pow10(k: nat): (p: nat)
    ensures p > 0
  {
    if k == 0 then 1 else 10 * Pow10(k - 1)
  }

  /** A number below 10^k is written in at most k digits. */
  lemma {:induction false} NatToStringLength(n: nat, k: nat)
    requires k > 0 && n < Pow10(k)
    ensures |NatToString(n)| <= k
    decreases k
  {
    if n >= 10 {
      assert k > 1;
      assert n / 10 < Pow10(k - 1) by {
        assert n < 10 * Pow10(k - 1);
      }
      NatToStringLength(n / 10, k - 1);
    }
  }

  /** str(n) for a possibly negative integer. */
  function IntToString(n: int): string {
    if n < 0 then "-" + NatToString(-n) else NatToString(n)
  }

  /**
    The ASCII characters int() skips around a numeral: tab, line feed, vertical
    tab, form feed, carriage return and space. (str.strip() also strips the
    separators 0x1C to 0x1F, but int() rejects them.)
   */
  predicate IsSpace(c: char) {
    (0x09 <= c as int <= 0x0D) || c == ' '
  }

  function TrimStart(s: string): (r: string)
    ensures |r| <= |s| && r == s[|s| - |r|..]
    ensures |r| > 0 ==> !IsSpace(r[0])
    ensures forall i | 0 <= i < |s| - |r| :: IsSpace(s[i])
    decreases |s|
  {
    if |s| > 0 && IsSpace(s[0]) then
      var r := TrimStart(s[1..]);
      assert s[|s| - |r|..] == s[1..][|s| - 1 - |r|..];
      assert forall i | 1 <= i < |s| - |r| :: s[i] == s[1..][i - 1];
      r
    else s
  }

  function TrimEnd(s: string): (r: string)
    ensures |r| <= |s| && r == s[..|r|]
    ensures |r| > 0 ==> !IsSpace(r[|r| - 1])
    ensures forall i | |r| <= i < |s| :: IsSpace(s[i])
    decreases |s|
  {
    if |s| > 0 && IsSpace(s[|s| - 1]) then TrimEnd(s[..|s| - 1]) else s
  }

  /** The text with surrounding white space removed. */
  function Strip(s: string): string {
    TrimEnd(TrimStart(s))
  }

  /** Position i of b holds an underscore with a digit on each side. */
  predicate SeparatorAt(b: string, i: int)
    requires 0 <= i < |b|
  {
    b[i] == '_' && 0 < i < |b| - 1 && IsDigit(b[i - 1]) && IsDigit(b[i + 1])
  }

  /** The digits int() accepts after the sign: one or more digits, single underscores allowed between two digits. */
  predicate IsNumeral(b: string) {
    |b| > 0 && forall i | 0 <= i < |b| :: IsDigit(b[i]) || SeparatorAt(b, i)
  }

  function WithoutUnderscores(b: string): (r: string)
    ensures (forall i | 0 <= i < |b| :: IsDigit(b[i]) || b[i] == '_') ==> AllDigits(r)
    ensures AllDigits(b) ==> r == b
    decreases |b|
  {
    if |b| == 0 then ""
    else (if b[0] == '_' then "" else [b[0]]) + WithoutUnderscores(b[1..])
  }

  /** The value of a numeral int() accepts. */
  function NumeralValue(b: string): nat
    requires IsNumeral(b)
  {
    assert forall i | 0 <= i < |b| :: IsDigit(b[i]) || b[i] == '_' by {
      forall i | 0 <= i < |b| ensures IsDigit(b[i]) || b[i] == '_' {
        if !IsDigit(b[i]) { assert SeparatorAt(b, i); }
      }
    }
    DigitsValue(WithoutUnderscores(b))
  }

  /** The decimal digits of b in order, every other character dropped. */
  function OnlyDigits(b: string): (r: string)
    ensures AllDigits(r)
    decreases |b|
  {
    if |b| == 0 then ""
    else (if IsDigit(b[0]) then [b[0]] else "") + OnlyDigits(b[1..])
  }

  /** Dropping the underscores of a numeral leaves exactly its digits. */
  lemma {:induction false} OnlyDigitsOfNumeral(b: string)
    requires forall i | 0 <= i < |b| :: IsDigit(b[i]) || b[i] == '_'
    ensures OnlyDigits(b) == WithoutUnderscores(b)
    decreases |b|
  {
    if |b| > 0 {
      OnlyDigitsOfNumeral(b[1..]);
    }
  }

  /** The digits of t read as a decimal number, negated when t starts with a minus sign. */
  function SignedDigitsValue(t: string): int
    requires |t| > 0
  {
    var magnitude: int := DigitsValue(OnlyDigits(t));
    if t[0] == '-' then -magnitude else magnitude
  }

  /**
    The most digits int() converts from decimal text: CPython's default
    sys.get_int_max_str_digits(). Longer numerals raise ValueError.
   */
  const MaxStrDigits: nat := 4300

  /** The numeral's digit count is within the limit; leading zeros count, a sign and underscores do not. */
  predicate WithinDigitLimit(t: string) {
    |OnlyDigits(t)| <= MaxStrDigits
  }

  /** An optional sign followed by a numeral: the text int() accepts once the white space around it is gone. */
  predicate IsIntLiteral(t: string) {
    IsNumeral(t) || (|t| > 0 && (t[0] == '+' || t[0] == '-') && IsNumeral(t[1..]))
  }

  /**
    Python's int(s) on a str: surrounding white space, an optional sign, then a
    numeral of at most MaxStrDigits digits. None where int() raises
    ValueError, in particular on "".
   */
  function ParseInt(s: string): (r: Option<int>)
    ensures r.Some? <==> IsIntLiteral(Strip(s)) && WithinDigitLimit(Strip(s))
    ensures Strip(s) == "" ==> r == None
    ensures |s| > 0 && AllDigits(s) ==> r == (if |s| <= MaxStrDigits then Some(DigitsValue(s)) else None)
    ensures r.Some? && r.value < 0 ==> Strip(s)[0] == '-'
    ensures r.Some? ==> r.value == SignedDigitsValue(Strip(s))
  {
    var t := Strip(s);
    OnlyDigitsOfDigits(s);
    if WithinDigitLimit(t) then ReadLiteral(t) else None
  }

  /** The integer an already stripped text spells, None unless it is a literal. */
  function ReadLiteral(t: string): (r: Option<int>)
    ensures r.Some? <==> IsIntLiteral(t)
    ensures r.Some? && r.value < 0 ==> t[0] == '-'
    ensures r.Some? ==> r.value == SignedDigitsValue(t)
  {
    if |t| > 0 && (t[0] == '+' || t[0] == '-') then
      var body := t[1..];
      if IsNumeral(body) then
        NumeralDigits(body);
        assert OnlyDigits(t) == OnlyDigits(body);
        var n: int := NumeralValue(body);
        Some(if t[0] == '-' then -n else n)
      else None
    else if IsNumeral(t) then
      NumeralDigits(t);
      Some(NumeralValue(t))
    else None
  }

  /** The value of a numeral is the value of its digits, underscores aside. */
  lemma NumeralDigits(b: string)
    requires IsNumeral(b)
    ensures NumeralValue(b) == DigitsValue(OnlyDigits(b))
  {
    forall i | 0 <= i < |b| ensures IsDigit(b[i]) || b[i] == '_' {
      if !IsDigit(b[i]) { assert SeparatorAt(b, i); }
    }
    OnlyDigitsOfNumeral(b);
  }

  /** int(str(n)) == n: the integer text the prober writes reads back as the same integer, within the digit limit. */
  lemma {:induction false} ParseIntToString(n: int)
    ensures ParseInt(IntToString(n)) == (if |NatToString(if n < 0 then -n else n)| <= MaxStrDigits then Some(n) else None)
  {
    var s := IntToString(n);
    if n < 0 {
      var digits := NatToString(-n);
      assert s == ['-'] + digits;
      ParseIntSigned('-', digits);
      if |digits| <= MaxStrDigits {
        assert ParseInt(s) == Some(n);
      } else {
        assert ParseInt(s) == None;
      }
    } else {
      var digits := NatToString(n);
      assert s == digits;
      assert |digits| > 0 && AllDigits(digits) && DigitsValue(digits) == n;
    }
  }

  /** A sign followed by a run of digits reads as the run's value, negated after a minus sign. */
  lemma {:induction false} ParseIntSigned(sign: char, digits: string)
    requires sign == '+' || sign == '-'
    requires |digits| > 0 && AllDigits(digits)
    ensures ParseInt([sign] + digits)
         == (if |digits| <= MaxStrDigits then Some(if sign == '-' then -(DigitsValue(digits) as int) else DigitsValue(digits)) else None)
  {
    SignedLiteral(sign, digits);
    SignedLiteralValue(sign, digits);
    ParseIntOfLiteral([sign] + digits);
  }

  /** The digit count and signed value of a sign followed by a run of digits. */
  lemma SignedLiteralValue(sign: char, digits: string)
    requires sign == '+' || sign == '-'
    requires OnlyDigits([sign] + digits) == digits
    ensures WithinDigitLimit([sign] + digits) == (|digits| <= MaxStrDigits)
    ensures SignedDigitsValue([sign] + digits) == (if sign == '-' then -(DigitsValue(digits) as int) else DigitsValue(digits))
  {
    assert ([sign] + digits)[0] == sign;
  }

  /** A sign followed by a run of digits is a stripped integer literal whose digits are the run. */
  lemma SignedLiteral(sign: char, digits: string)
    requires sign == '+' || sign == '-'
    requires |digits| > 0 && AllDigits(digits)
    ensures Strip([sign] + digits) == [sign] + digits
    ensures IsIntLiteral([sign] + digits)
    ensures OnlyDigits([sign] + digits) == digits
  {
    var s := [sign] + digits;
    assert s[|s| - 1] == digits[|digits| - 1];
    StripOfUnpadded(s);
    assert s[1..] == digits;
    assert IsNumeral(digits);
    OnlyDigitsOfDigits(digits);
    assert OnlyDigits(s) == OnlyDigits(digits);
  }

  /** A stripped integer literal reads as its signed digit value, or not at all past the digit limit. */
  lemma ParseIntOfLiteral(t: string)
    requires Strip(t) == t && IsIntLiteral(t)
    ensures ParseInt(t) == (if WithinDigitLimit(t) then Some(SignedDigitsValue(t)) else None)
  {
  }

  /** A plus sign before the numeral is accepted and changes nothing: int("+" + str(n)) == n. */
  lemma {:induction false} ParseIntPlusSign(n: nat)
    ensures ParseInt("+" + NatToString(n)) == (if |NatToString(n)| <= MaxStrDigits then Some(n) else None)
  {
    var digits := NatToString(n);
    assert "+" + digits == ['+'] + digits;
    ParseIntSigned('+', digits);
  }

  lemma {:induction false} OnlyDigitsAppend(x: string, y: string)
    ensures OnlyDigits(x + y) == OnlyDigits(x) + OnlyDigits(y)
    decreases |x|
  {
    if |x| == 0 {
      assert x + y == y;
    } else {
      assert (x + y)[1..] == x[1..] + y;
      OnlyDigitsAppend(x[1..], y);
    }
  }

  lemma {:induction false} OnlyDigitsOfDigits(x: string)
    ensures AllDigits(x) ==> OnlyDigits(x) == x
    decreases |x|
  {
    if |x| > 0 && AllDigits(x) {
      OnlyDigitsOfDigits(x[1..]);
    }
  }

  lemma SeparatedIsNumeral(a: string, b: string)
    requires |a| > 0 && |b| > 0 && AllDigits(a) && AllDigits(b)
    ensures Strip(a + "_" + b) == a + "_" + b
    ensures IsNumeral(a + "_" + b)
  {
    var s := a + "_" + b;
    assert s[0] == a[0] && s[|s| - 1] == b[|b| - 1];
    StripOfUnpadded(s);
    forall i | 0 <= i < |s| ensures IsDigit(s[i]) || SeparatorAt(s, i) {
      if i < |a| {
        assert s[i] == a[i];
      } else if i == |a| {
        assert s[i - 1] == a[|a| - 1] && s[i + 1] == b[0];
      } else {
        assert s[i] == b[i - |a| - 1];
      }
    }
  }

  lemma SeparatedDigits(a: string, b: string)
    requires AllDigits(a) && AllDigits(b)
    ensures OnlyDigits(a + "_" + b) == a + b
  {
    var underscore := "_";
    assert OnlyDigits(underscore) == "" by {
      assert !IsDigit(underscore[0]) && underscore[1..] == "";
    }
    OnlyDigitsAppend(a, underscore);
    OnlyDigitsAppend(a + underscore, b);
    OnlyDigitsOfDigits(a);
    OnlyDigitsOfDigits(b);
    assert OnlyDigits(a + underscore) == a;
  }

  /** One underscore between two runs of digits is accepted and ignored: int(a + "_" + b) is the value of a + b. */
  lemma ParseIntSeparated(a: string, b: string)
    requires |a| > 0 && |b| > 0 && AllDigits(a) && AllDigits(b)
    ensures AllDigits(a + b)
    ensures ParseInt(a + "_" + b) == (if |a| + |b| <= MaxStrDigits then Some(DigitsValue(a + b)) else None)
  {
    SeparatedIsNumeral(a, b);
    SeparatedDigits(a, b);
    assert (a + "_" + b)[0] == a[0];
  }

  /** Text that neither starts nor ends with white space is its own Strip. */
  lemma StripOfUnpadded(s: string)
    requires |s| > 0 && !IsSpace(s[0]) && !IsSpace(s[|s| - 1])
    ensures Strip(s) == s
  {
    assert TrimStart(s) == s;
  }

  predicate AllSpace(s: string) {
    forall i | 0 <= i < |s| :: IsSpace(s[i])
  }

  lemma {:induction false} TrimStartSkipsSpace(pre: string, s: string)
    requires AllSpace(pre)
    ensures TrimStart(pre + s) == TrimStart(s)
    decreases |pre|
  {
    if |pre| > 0 {
      assert (pre + s)[1..] == pre[1..] + s;
      TrimStartSkipsSpace(pre[1..], s);
    } else {
      assert pre + s == s;
    }
  }

  lemma {:induction false} TrimEndSkipsSpace(s: string, post: string)
    requires AllSpace(post)
    ensures TrimEnd(s + post) == TrimEnd(s)
    decreases |post|
  {
    if |post| > 0 {
      assert (s + post)[..|s + post| - 1] == s + post[..|post| - 1];
      TrimEndSkipsSpace(s, post[..|post| - 1]);
    } else {
      assert s + post == s;
    }
  }

  lemma {:induction false} StripAroundDigits(pre: string, digits: string, post: string)
    requires AllSpace(pre) && AllSpace(post)
    requires |digits| > 0 && AllDigits(digits)
    ensures Strip(pre + digits + post) == digits
  {
    var rest := digits + post;
    calc {
      Strip(pre + digits + post);
      { assert pre + digits + post == pre + rest; }
      TrimEnd(TrimStart(pre + rest));
      { TrimStartSkipsSpace(pre, rest); }
      TrimEnd(TrimStart(rest));
      { assert !IsSpace(rest[0]); }
      TrimEnd(rest);
      { TrimEndSkipsSpace(digits, post); }
      TrimEnd(digits);
      { assert !IsSpace(digits[|digits| - 1]); }
      digits;
    }
  }

  /** int() only looks at the text left once the white space around it is gone. */
  lemma ParseIntReadsStripped(s: string, t: string)
    requires Strip(s) == Strip(t)
    ensures ParseInt(s) == ParseInt(t)
  {
  }

  /** int() skips any white space around the numeral. */
  lemma {:induction false} ParseIntSkipsSurroundingSpace(pre: string, n: nat, post: string)
    requires AllSpace(pre) && AllSpace(post)
    ensures ParseInt(pre + NatToString(n) + post) == (if |NatToString(n)| <= MaxStrDigits then Some(n) else None)
  {
    var digits := NatToString(n);
    StripAroundDigits(pre, digits, post);
    StripOfUnpadded(digits);
    ParseIntReadsStripped(pre + digits + post, digits);
    ParseIntToString(n);
  }

  /** A file, group, record or unit separator (0x1C to 0x1F) before the numeral makes int() raise, though str.strip() would remove it. */
  lemma {:induction false} ParseIntRejectsSeparator(n: nat, c: char)
    requires 0x1C <= c as int <= 0x1F
    ensures ParseInt([c] + NatToString(n)) == None
  {
    var digits := NatToString(n);
    var s := [c] + digits;
    assert s[|s| - 1] == digits[|digits| - 1];
    StripOfUnpadded(s);
    assert !SeparatorAt(s, 0);
    assert !IsNumeral(s);
    assert !IsIntLiteral(s);
  }

  /** ASCII lower-casing of one character. */
  function LowerChar(c: char): char {
    if 'A' <= c <= 'Z' then (c as int - 'A' as int + 'a' as int) as char else c
  }

  /** str.lower() on ASCII text. */
  function Lower(s: string): (r: string)
    ensures |r| == |s|
    ensures forall i | 0 <= i < |s| :: r[i] == LowerChar(s[i])
  {
    seq(|s|, i requires 0 <= i < |s| => LowerChar(s[i]))
  }

  /** ASCII upper-casing of one character. */
  function UpperChar(c: char): char {
    if 'a' <= c <= 'z' then (c as int - 'a' as int + 'A' as int) as char else c
  }

  /** A lower-case word is what Lower gives for exactly the keys that spell it in any mix of letter case. */
  lemma {:induction false} LowerMatchesAnyCase(key: string, word: string)
    requires forall i | 0 <= i < |word| :: !('A' <= word[i] <= 'Z')
    ensures Lower(key) == word <==>
      |key| == |word| && forall i | 0 <= i < |word| :: key[i] == word[i] || key[i] == UpperChar(word[i])
  {
    if |key| == |word| && forall i | 0 <= i < |word| :: key[i] == word[i] || key[i] == UpperChar(word[i]) {
      forall i | 0 <= i < |word|
        ensures Lower(key)[i] == word[i]
      {
      }
    }
    if Lower(key) == word {
      forall i | 0 <= i < |word|
        ensures key[i] == word[i] || key[i] == UpperChar(word[i])
      {
        assert LowerChar(key[i]) == word[i];
      }
    }
  }

  /** Python's str `<`: code point by code point, the first difference decides, and a proper prefix is smaller. */
  predicate StrLess(a: string, b: string) {
    StrLessFrom(a, b, 0)
  }

  /** StrLess on the parts of a and b from position k on. */
  predicate StrLessFrom(a: string, b: string, k: nat)
    decreases |b| - k
  {
    if k >= |b| then false
    else if k >= |a| then true
    else if a[k] != b[k] then a[k] < b[k]
    else StrLessFrom(a, b, k + 1)
  }

  /** Two texts that agree before position k and differ there are ordered by their characters at k. */
  lemma StrLessAtFirstDifference(a: string, b: string, k: nat)
    requires k < |a| && k < |b| && a[..k] == b[..k] && a[k] < b[k]
    ensures StrLess(a, b)
  {
    StrLessFromAgreement(a, b, 0, k);
  }

  lemma {:induction false} StrLessFromAgreement(a: string, b: string, j: nat, k: nat)
    requires j <= k < |a| && k < |b| && a[j..k] == b[j..k] && a[k] < b[k]
    ensures StrLessFrom(a, b, j)
    decreases k - j
  {
    if j < k {
      assert a[j] == a[j..k][0] == b[j..k][0] == b[j];
      assert a[j + 1..k] == a[j..k][1..];
      assert b[j + 1..k] == b[j..k][1..];
      StrLessFromAgreement(a, b, j + 1, k);
    }
  }

  /** str.startswith(prefix). */
  function StartsWith(s: string, prefix: string): (b: bool)
    ensures b <==> |prefix| <= |s| && forall i | 0 <= i < |prefix| :: s[i] == prefix[i]
  {
    |prefix| <= |s| && s[..|prefix|] == prefix
  }

  /** str.removeprefix(prefix): the rest of s when it starts with prefix, s itself otherwise. */
  function RemovePrefix(s: string, prefix: string): (r: string)
    ensures StartsWith(s, prefix) ==> prefix + r == s
    ensures !StartsWith(s, prefix) ==> r == s
  {
    if StartsWith(s, prefix) then s[|prefix|..] else s
  }
}
