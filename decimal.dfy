/** Decimal text of integers: strconv.Itoa / FormatInt(x, 10) and
    strconv.Atoi on a 64-bit platform. */
module Decimal {
  import opened Types

  predicate IsDigit(c: char) {
    '0' <= c <= '9'
  }

  predicate AllDigits(s: string) {
    forall j :: 0 <= j < |s| ==> IsDigit(s[j])
  }

  function DigitChar(d: nat): (c: char)
    requires d < 10
    ensures IsDigit(c) && DigitValue(c) == d
  {
    (48 + d) as char
  }

  function DigitValue(c: char): nat
    requires IsDigit(c)
  {
    (c as int) - 48
  }

  /** Shortest decimal digits of n (no leading zeros). */
  function NatText(n: nat): (s: string)
    ensures 1 <= |s| && AllDigits(s)
    decreases n
  {
    if n < 10 then [DigitChar(n)] else NatText(n / 10) + [DigitChar(n % 10)]
  }

  /** Value of a non-empty digit string, most significant digit first. */
  function DigitsValue(s: string): nat
    requires AllDigits(s)
  {
    if s == [] then 0 else DigitsValue(s[..|s| - 1]) * 10 + DigitValue(s[|s| - 1])
  }

  /** strconv.Itoa: an optional minus sign followed by the digits. */
  function Itoa(x: int): (s: string)
    ensures forall j :: 0 <= j < |s| ==> IsDigit(s[j]) || s[j] == '-'
  {
    if x < 0 then "-" + NatText(-x) else NatText(x)
  }

  /** 2^64 - 1, the largest value strconv.ParseUint accepts. */
  const MaxUint64: nat := 0xffff_ffff_ffff_ffff

  /** The text after an optional leading '+' or '-'. */
  function Magnitude(s: string): (m: string)
    ensures |m| == |s| || (|s| > 0 && m == s[1..])
  {
    if |s| > 0 && (s[0] == '-' || s[0] == '+') then s[1..] else s
  }

  /** How strconv.ParseUint's base-10 loop ends. */
  datatype Scan = Digits(value: nat) | NotDigit | TooLarge

  /** strconv.ParseUint's loop from index i, where n is the value of the
      digits before it: each digit is added in, and the scan stops with a
      range error as soon as the value exceeds 2^64 - 1, or with a syntax
      error at the first non-digit. */
  function ScanFrom(s: string, i: nat, n: nat): Scan
    requires i <= |s|
    decreases |s| - i
  {
    if i == |s| then Digits(n)
    else if !IsDigit(s[i]) then NotDigit
    else
      var next := n * 10 + DigitValue(s[i]);
      if next > MaxUint64 then TooLarge else ScanFrom(s, i + 1, next)
  }

  /** strconv.Atoi: an optional '+' or '-', then at least one decimal digit
      (leading zeros allowed), scanned as strconv.ParseUint does; the value,
      with its sign, must then fit in 64 bits. */
  function Atoi(s: string): (r: Result<int>)
    ensures r.Success? ==> IsInt64(r.value)
    ensures r.Failure? ==> r.error == InvalidSyntax || r.error == ValueOutOfRange
  {
    var digits := Magnitude(s);
    if |digits| == 0 then Failure(InvalidSyntax)
    else
      match ScanFrom(digits, 0, 0)
      case NotDigit => Failure(InvalidSyntax)
      case TooLarge => Failure(ValueOutOfRange)
      case Digits(n) =>
        var v: int := if s[0] == '-' then -(n as int) else n;
        if IsInt64(v) then Success(v) else Failure(ValueOutOfRange)
  }

  /** Length of the run of digits at the start of s. */
  function DigitRun(s: string): (p: nat)
    ensures p <= |s| && AllDigits(s[..p]) && (p < |s| ==> !IsDigit(s[p]))
  {
    if s == [] || !IsDigit(s[0]) then 0
    else
      var q := DigitRun(s[1..]);
      assert s[..1 + q] == [s[0]] + s[1..][..q];
      1 + q
  }

  /** A prefix of a digit string is worth no more than the whole. */
  lemma {:induction false} PrefixValueBound(t: string, j: nat)
    requires AllDigits(t) && j <= |t|
    ensures DigitsValue(t[..j]) <= DigitsValue(t)
    decreases |t| - j
  {
    if j == |t| {
      assert t[..j] == t;
    } else {
      PrefixValueBound(t, j + 1);
      assert t[..j + 1][..j] == t[..j];
    }
  }

  /** The scan, started inside the leading run of digits, ends with a range
      error exactly when the whole run exceeds 2^64 - 1; otherwise with a
      syntax error when a non-digit follows the run, and with the run's
      value when the run is the whole text. */
  lemma {:induction false} ScanFromRun(s: string, i: nat)
    requires i <= DigitRun(s) && DigitsValue(s[..i]) <= MaxUint64
    ensures var n := DigitsValue(s[..DigitRun(s)]);
      ScanFrom(s, i, DigitsValue(s[..i])) ==
        if n > MaxUint64 then TooLarge
        else if DigitRun(s) < |s| then NotDigit
        else Digits(n)
    decreases |s| - i
  {
    var p := DigitRun(s);
    if i < p {
      assert s[..i + 1][..i] == s[..i];
      PrefixValueBound(s[..p], i + 1);
      assert s[..p][..i + 1] == s[..i + 1];
      if DigitsValue(s[..i + 1]) <= MaxUint64 {
        ScanFromRun(s, i + 1);
      }
    }
  }

  /** Atoi without the scan: the value of the leading run of digits decides.
      A run above 2^64 - 1 is a range error even when a non-digit follows it
      (ParseUint meets the overflow first); otherwise a non-digit, or no
      digit at all, is a syntax error; a well-formed numeral is a range
      error exactly when its signed value is outside the 64-bit range. */
  lemma AtoiLeadingRun(s: string)
    ensures var digits := Magnitude(s);
      var p := DigitRun(digits);
      var n := DigitsValue(digits[..p]);
      var v: int := if |s| > 0 && s[0] == '-' then -(n as int) else n;
      Atoi(s) ==
        if |digits| == 0 then Failure(InvalidSyntax)
        else if n > MaxUint64 then Failure(ValueOutOfRange)
        else if p < |digits| then Failure(InvalidSyntax)
        else if IsInt64(v) then Success(v)
        else Failure(ValueOutOfRange)
  {
    var digits := Magnitude(s);
    assert digits[..0] == [];
    ScanFromRun(digits, 0);
  }

  lemma {:induction false} DigitsValueOfNatText(n: nat)
    ensures DigitsValue(NatText(n)) == n
    decreases n
  {
    if n >= 10 {
      var s := NatText(n);
      assert s[..|s| - 1] == NatText(n / 10);
      DigitsValueOfNatText(n / 10);
    }
  }

  /** Parsing the text Itoa produces gives the number back, for every value
      in the 64-bit range. */
  lemma AtoiItoa(x: int)
    requires IsInt64(x)
    ensures Atoi(Itoa(x)) == Success(x)
  {
    var s := Itoa(x);
    var t := if x < 0 then NatText(-x) else NatText(x);
    if x < 0 {
      assert s[1..] == t;
      DigitsValueOfNatText(-x);
    } else {
      assert IsDigit(s[0]);
      DigitsValueOfNatText(x);
    }
    assert Magnitude(s) == t;
    assert DigitRun(t) == |t| && t[..|t|] == t;
    AtoiLeadingRun(s);
  }

  /** Twenty nines exceed 2^64 - 1 at the last nine, before the scan
      reaches the letter after them. */
  lemma TwentyNinesScan()
    ensures ScanFrom("99999999999999999999x", 0, 0) == TooLarge
  {
    var s := seq(20, _ => '9') + ['x'];
    assert s == "99999999999999999999x";
    assert ScanFrom(s, 19, 9999999999999999999) == TooLarge;
    assert ScanFrom(s, 18, 999999999999999999) == TooLarge;
    assert ScanFrom(s, 17, 99999999999999999) == TooLarge;
    assert ScanFrom(s, 16, 9999999999999999) == TooLarge;
    assert ScanFrom(s, 15, 999999999999999) == TooLarge;
    assert ScanFrom(s, 14, 99999999999999) == TooLarge;
    assert ScanFrom(s, 13, 9999999999999) == TooLarge;
    assert ScanFrom(s, 12, 999999999999) == TooLarge;
    assert ScanFrom(s, 11, 99999999999) == TooLarge;
    assert ScanFrom(s, 10, 9999999999) == TooLarge;
    assert ScanFrom(s, 9, 999999999) == TooLarge;
    assert ScanFrom(s, 8, 99999999) == TooLarge;
    assert ScanFrom(s, 7, 9999999) == TooLarge;
    assert ScanFrom(s, 6, 999999) == TooLarge;
    assert ScanFrom(s, 5, 99999) == TooLarge;
    assert ScanFrom(s, 4, 9999) == TooLarge;
    assert ScanFrom(s, 3, 999) == TooLarge;
    assert ScanFrom(s, 2, 99) == TooLarge;
    assert ScanFrom(s, 1, 9) == TooLarge;
    assert ScanFrom(s, 0, 0) == TooLarge;
  }

  /** What Go reports for two malformed numerals: "99999999999999999999x"
      is a range error, "1x" a syntax error. */
  lemma AtoiErrorKinds()
    ensures Atoi("99999999999999999999x") == Failure(ValueOutOfRange)
    ensures Atoi("1x") == Failure(InvalidSyntax)
  {
    TwentyNinesScan();
  }

  /** Itoa is injective on the 64-bit range. */
  lemma ItoaInjective(x: int, y: int)
    requires IsInt64(x) && IsInt64(y) && Itoa(x) == Itoa(y)
    ensures x == y
  {
    AtoiItoa(x);
    AtoiItoa(y);
  }

  /** Different naturals have different decimal texts. */
  lemma NatTextInjective(m: nat, n: nat)
    requires NatText(m) == NatText(n)
    ensures m == n
  {
    DigitsValueOfNatText(m);
    DigitsValueOfNatText(n);
  }
}
