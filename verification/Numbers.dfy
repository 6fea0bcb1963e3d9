/** Go's 64-bit integers and their decimal form. */
module Numbers {
  import opened Text

  const MIN_INT64: int := -0x8000_0000_0000_0000
  const MAX_INT64: int := 0x7fff_ffff_ffff_ffff

  type int64 = n: int | MIN_INT64 <= n <= MAX_INT64

  /** The value of a 64-bit operation whose exact result is `n`: overflow wraps around. */
  function Wrap64(n: int): (w: int64)
    ensures MIN_INT64 <= n <= MAX_INT64 ==> w == n
    ensures (w - n) % 0x1_0000_0000_0000_0000 == 0
  {
    (n - MIN_INT64) % 0x1_0000_0000_0000_0000 + MIN_INT64
  }

  /** strconv.FormatInt in base 10. */
  function FormatInt(n: int): string {
    if n < 0 then "-" + Decimal(-n) else Decimal(n)
  }

  /** strconv.ParseInt in base 10 and 64 bits, and strconv.Atoi on a 64-bit machine: an optional sign,
      at least one digit, nothing else, in range. */
  function ParseInt(s: string): (r: Option<int64>) {
    var signed := s != "" && (s[0] == '+' || s[0] == '-');
    var digits := if signed then s[1..] else s;
    if digits == "" || DigitPrefix(digits) < |digits| then None
    else
      var magnitude: int := DigitsValue(digits);
      var n := if signed && s[0] == '-' then -magnitude else magnitude;
      if MIN_INT64 <= n <= MAX_INT64 then Some(n) else None
  }

  predicate IsSign(s: string) {
    s == "" || s == "+" || s == "-"
  }

  predicate AreDigits(s: string) {
    s != "" && forall i :: 0 <= i < |s| ==> IsDigit(s[i])
  }

  /** A sign, if there is one, and digits: read as the number they stand for, if that has 64 bits. */
  lemma ParseDigits(sign: string, digits: string)
    requires IsSign(sign) && AreDigits(digits)
    ensures var n := if sign == "-" then -(DigitsValue(digits) as int) else DigitsValue(digits);
      ParseInt(sign + digits) == if MIN_INT64 <= n <= MAX_INT64 then Some(n) else None
  {
    var s := sign + digits;
    if sign != "" {
      assert s[0] == sign[0] && s[1..] == digits;
      hide IsDigit;
    } else {
      assert s == digits && IsDigit(s[0]);
    }
    hide DigitPrefix, DigitsValue;
  }

  /** Nothing else is read. */
  lemma ParsedIsDigits(s: string)
    requires ParseInt(s).Some?
    ensures exists sign, digits :: s == sign + digits && IsSign(sign) && AreDigits(digits)
  {
    hide DigitsValue;
    var signed := s[0] == '+' || s[0] == '-';
    var sign, digits := if signed then s[..1] else "", if signed then s[1..] else s;
    assert s == sign + digits && IsSign(sign) && AreDigits(digits);
  }

  /** What FormatInt prints, ParseInt reads back, on all of int64. */
  lemma ParseFormat(n: int64)
    ensures ParseInt(FormatInt(n)) == Some(n)
  {
    var magnitude: int := if n < 0 then -(n as int) else n;
    var digits := Decimal(magnitude);
    DecimalValue(magnitude);
    hide Decimal, DigitsValue;
    assert n < 0 ==> FormatInt(n)[1..] == digits;
    assert IsDigit(digits[0]);
  }
}
