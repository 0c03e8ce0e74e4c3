/** Go's machine integers and their decimal text: the conversions `int32(x)` and `int64`
    subtraction, `strconv.Itoa`, `strconv.ParseInt(s, 10, 64)`, `strconv.Atoi` and
    `fmt.Sprintf("%04d", n)`. */
module GoNumbers {
  import opened Wrappers

  const MIN_INT64: int := -0x8000_0000_0000_0000
  const MAX_INT64: int := 0x7FFF_FFFF_FFFF_FFFF

  type int64 = x: int | MIN_INT64 <= x <= MAX_INT64

  /** The conversion `int32(x)`: keep the low 32 bits, read them as two's complement. */
  function WrapInt32(x: int): (r: int)
    ensures -0x8000_0000 <= r < 0x8000_0000
    ensures exists k: int :: x == r + k * 0x1_0000_0000
  {
    var low := x % 0x1_0000_0000;
    var q := x / 0x1_0000_0000;
    if low < 0x8000_0000 then
      assert x == low + q * 0x1_0000_0000;
      low
    else
      assert x == (low - 0x1_0000_0000) + (q + 1) * 0x1_0000_0000;
      low - 0x1_0000_0000
  }

  function Int32OrNil(n: Option<int64>): Option<int64> {
    if n.Some? then Some(WrapInt32(n.value)) else None
  }

  /** The result of an `int64` operation whose exact value is `x`. */
  function WrapInt64(x: int): (r: int64)
    ensures exists k: int :: x == r + k * 0x1_0000_0000_0000_0000
  {
    var low := x % 0x1_0000_0000_0000_0000;
    var q := x / 0x1_0000_0000_0000_0000;
    if low < 0x8000_0000_0000_0000 then
      assert x == low + q * 0x1_0000_0000_0000_0000;
      low
    else
      assert x == (low - 0x1_0000_0000_0000_0000) + (q + 1) * 0x1_0000_0000_0000_0000;
      low - 0x1_0000_0000_0000_0000
  }

  /** Narrowing keeps a number exactly when it fits. */
  lemma WrapInt32Keeps(x: int)
    ensures WrapInt32(x) == x <==> -0x8000_0000 <= x < 0x8000_0000
  {
  }

  /** A wrapped difference of two `int64` values is zero exactly when they are equal, and has
      the sign of the true difference when both are non-negative. */
  lemma WrappedDifference(a: int64, b: int64)
    ensures WrapInt64(a - b) == 0 <==> a == b
    ensures a >= 0 && b >= 0 ==> WrapInt64(a - b) == a - b
  {
  }

  // ---------------------------------------------------------------- decimal text

  function DigitChar(d: nat): (c: char)
    requires d < 10
    ensures '0' <= c <= '9'
    ensures c as int - '0' as int == d
  {
    ('0' as int + d) as char
  }

  predicate IsDigit(c: char) {
    '0' <= c <= '9'
  }

  predicate AllDigits(s: string) {
    forall i :: 0 <= i < |s| ==> IsDigit(s[i])
  }

  /** The number a string of digits denotes; the empty string denotes 0. */
  function DigitsValue(s: string): (v: nat)
    requires AllDigits(s)
  {
    if s == "" then 0
    else DigitsValue(s[..|s| - 1]) * 10 + (s[|s| - 1] as int - '0' as int)
  }

  /** The shortest decimal text of a natural number. */
  function Decimal(n: nat): (s: string)
    ensures AllDigits(s)
    ensures |s| > 0
  {
    if n < 10 then [DigitChar(n)] else Decimal(n / 10) + [DigitChar(n % 10)]
  }

  /** `strconv.Itoa` */
  function Itoa(n: int): (s: string) {
    if n < 0 then "-" + Decimal(-n) else Decimal(n)
  }

  datatype Parsed = Parsed(value: int64, ok: bool)

  /** `strconv.ParseInt(s, 10, 64)`: a syntax error yields 0, a range error the nearest bound. */
  function ParseInt64(s: string): Parsed {
    var negative := |s| > 0 && s[0] == '-';
    var digits := if |s| > 0 && (s[0] == '-' || s[0] == '+') then s[1..] else s;
    if |digits| == 0 || !AllDigits(digits) then Parsed(0, false)
    else
      var magnitude: int := DigitsValue(digits);
      var value: int := if negative then -magnitude else magnitude;
      if value < MIN_INT64 then Parsed(MIN_INT64, false)
      else if value > MAX_INT64 then Parsed(MAX_INT64, false)
      else Parsed(value, true)
  }

  /** `v, _ := strconv.Atoi(s)`: the error is dropped. */
  function Atoi(s: string): int64 {
    ParseInt64(s).value
  }

  function Zeros(k: nat): (s: string)
    ensures |s| == k && AllDigits(s)
    ensures forall i :: 0 <= i < k ==> s[i] == '0'
  {
    seq(k, i => '0')
  }

  function PadTo(width: nat, s: string): string {
    if |s| < width then Zeros(width - |s|) + s else s
  }

  /** `fmt.Sprintf("%04d", n)`: the sign counts towards the width. */
  function Sprintf04d(n: int): string {
    if n < 0 then "-" + PadTo(3, Decimal(-n)) else PadTo(4, Decimal(n))
  }

  lemma {:induction false} DecimalValue(n: nat)
    ensures DigitsValue(Decimal(n)) == n
  {
    if n >= 10 {
      DecimalValue(n / 10);
      assert Decimal(n)[..|Decimal(n)| - 1] == Decimal(n / 10);
    }
  }

  lemma ParseDigits(s: string, negative: bool)
    requires AllDigits(s) && |s| > 0
    requires DigitsValue(s) <= MAX_INT64
    ensures ParseInt64(if negative then "-" + s else s)
         == Parsed(if negative then 0 - DigitsValue(s) else DigitsValue(s), true)
  {
    assert IsDigit(s[0]);
    assert ("-" + s)[1..] == s;
  }

  /** What a number is written as, it is read back as. */
  lemma ParseItoa(n: int64)
    ensures ParseInt64(Itoa(n)) == Parsed(n, true)
  {
    var m: int := n;
    DecimalValue(if m < 0 then -m else m);
    if m == MIN_INT64 {
      assert Itoa(n)[1..] == Decimal(-m);
    } else {
      ParseDigits(Decimal(if m < 0 then -m else m), m < 0);
    }
  }

  /** The text of a number is never the marker "null". */
  lemma ItoaIsNotNull(n: int64)
    ensures Itoa(n) != "null"
  {
    ParseItoa(n);
    assert !ParseInt64("null").ok by {
      assert !IsDigit("null"[0]);
    }
  }

  lemma {:induction false} LeadingZeros(k: nat, s: string)
    requires AllDigits(s)
    ensures DigitsValue(Zeros(k) + s) == DigitsValue(s)
  {
    var t := Zeros(k) + s;
    if |s| > 0 {
      LeadingZeros(k, s[..|s| - 1]);
      assert t[..|t| - 1] == Zeros(k) + s[..|s| - 1];
    } else if k > 0 {
      LeadingZeros(k - 1, s);
      assert t[..|t| - 1] == Zeros(k - 1) + s;
    }
  }

  /** A zero-padded node number still denotes the number, however many digits it has. */
  lemma Sprintf04dValue(n: nat)
    ensures AllDigits(Sprintf04d(n)) && |Sprintf04d(n)| >= 4
    ensures DigitsValue(Sprintf04d(n)) == n
  {
    DecimalValue(n);
    var d := Decimal(n);
    if |d| < 4 {
      LeadingZeros(4 - |d|, d);
    }
  }

  lemma Sprintf04dInjective(m: nat, n: nat)
    ensures Sprintf04d(m) == Sprintf04d(n) <==> m == n
  {
    Sprintf04dValue(m);
    Sprintf04dValue(n);
  }
}
