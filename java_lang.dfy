/** Java's fixed-width integers, String.hashCode, Long.toString and
    Long.parseLong, written out over unbounded integers. */
module JavaLang {
  import opened Wrappers

  const TWO_32: int := 0x1_0000_0000
  const TWO_64: int := 0x1_0000_0000_0000_0000

  /** A Java `long`. */
  type Long = x: int | -0x8000_0000_0000_0000 <= x < 0x8000_0000_0000_0000

  /** A Java `int`. */
  type Int32 = x: int | -0x8000_0000 <= x < 0x8000_0000

  /** The `long` a Java `long` expression yields: the value modulo 2^64. */
  function WrapLong(x: int): (r: Long)
    ensures (x - r) % TWO_64 == 0
    ensures -0x8000_0000_0000_0000 <= x < 0x8000_0000_0000_0000 ==> r == x
  {
    var m := (x + 0x8000_0000_0000_0000) % TWO_64;
    m - 0x8000_0000_0000_0000
  }

  /** The `int` a Java `int` expression or an `(int)` cast yields: the value
      modulo 2^32. */
  function ToInt32(x: int): (r: Int32)
    ensures (x - r) % TWO_32 == 0
    ensures -0x8000_0000 <= x < 0x8000_0000 ==> r == x
  {
    var m := (x + 0x8000_0000) % TWO_32;
    m - 0x8000_0000
  }

  /** Values congruent modulo 2^32 have the same `int` image. */
  lemma ToInt32Congruent(x: int, y: int)
    requires (x - y) % TWO_32 == 0
    ensures ToInt32(x) == ToInt32(y)
  {
    var k := (x - y) / TWO_32;
    assert x + 0x8000_0000 == (y + 0x8000_0000) + k * TWO_32;
  }

  /** String.hashCode: h = 31 * h + c over the characters, in `int` arithmetic. */
  function StringHash(s: string): Int32 {
    if s == [] then 0
    else ToInt32(31 * StringHash(s[..|s| - 1]) + s[|s| - 1] as int)
  }

  predicate IsDigit(c: char) {
    '0' <= c <= '9'
  }

  function DigitChar(d: nat): (c: char)
    requires d < 10
    ensures IsDigit(c) && c as int - '0' as int == d
  {
    ('0' as int + d) as char
  }

  /** The decimal digits of `n`, without leading zeros. */
  function Digits(n: nat): (s: string)
    ensures s != []
    ensures forall i :: 0 <= i < |s| ==> IsDigit(s[i])
  {
    if n < 10 then [DigitChar(n)] else Digits(n / 10) + [DigitChar(n % 10)]
  }

  /** The value of a string of decimal digits. */
  function DigitsValue(s: string): nat
    requires forall i :: 0 <= i < |s| ==> IsDigit(s[i])
  {
    if s == [] then 0
    else
      assert IsDigit(s[|s| - 1]);
      DigitsValue(s[..|s| - 1]) * 10 + (s[|s| - 1] as int - '0' as int)
  }

  lemma {:induction false} DigitsValueOfDigits(n: nat)
    ensures DigitsValue(Digits(n)) == n
  {
    if n >= 10 {
      var s := Digits(n);
      assert s[..|s| - 1] == Digits(n / 10);
      DigitsValueOfDigits(n / 10);
    }
  }

  /** Long.toString: an optional minus sign followed by the digits. */
  function LongToString(x: Long): string {
    if x < 0 then "-" + Digits(-(x as int)) else Digits(x)
  }

  /** Long.parseLong for ASCII digits: an optional sign and at least one digit,
      whose value fits a `long`; None where Java throws NumberFormatException. */
  function ParseLong(s: string): (r: Option<Long>)
    ensures r.Some? ==> s != []
  {
    if s == [] then None
    else
      var negative := s[0] == '-';
      var body := if s[0] == '-' || s[0] == '+' then s[1..] else s;
      if body == [] || exists i :: 0 <= i < |body| && !IsDigit(body[i]) then None
      else
        var magnitude: int := DigitsValue(body);
        var v := if negative then -magnitude else magnitude;
        if -0x8000_0000_0000_0000 <= v < 0x8000_0000_0000_0000 then Some(v) else None
  }

  /** What Long.toString writes, Long.parseLong reads back. */
  lemma ParseLongOfLongToString(x: Long)
    ensures ParseLong(LongToString(x)) == Some(x)
  {
    var s := LongToString(x);
    if x < 0 {
      DigitsValueOfDigits(-(x as int));
      assert s[1..] == Digits(-(x as int));
    } else {
      DigitsValueOfDigits(x);
      assert IsDigit(Digits(x)[0]);
    }
  }

  /** `ms / 1000` on a `long`: Java's division truncates toward zero, so the
      remainder takes the sign of the dividend. */
  function MillisToSeconds(ms: Long): (sec: Long)
    ensures ms >= 0 ==> 0 <= ms - sec * 1000 < 1000
    ensures ms < 0 ==> -1000 < ms - sec * 1000 <= 0
  {
    if ms >= 0 then ms / 1000 else -((-(ms as int)) / 1000)
  }
}
