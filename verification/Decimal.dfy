/** The decimal printer of the five-UART demo, which has no printf on UARTs 1 to 4. */
module Decimal {
  import opened Bytes

  predicate IsDigit(c: char) {
    '0' <= c <= '9'
  }

  function DigitOf(d: nat): char
    requires d < 10
  {
    '0' + d as char
  }

  function ValueOf(c: char): nat
    requires IsDigit(c)
  {
    c as int - '0' as int
  }

  /** The digits of v without leading zeros; nothing for zero. */
  function Digits(v: nat): (s: string) {
    if v == 0 then "" else Digits(v / 10) + [DigitOf(v % 10)]
  }

  function Numeral(v: nat): string {
    if v == 0 then "0" else Digits(v)
  }

  predicate IsNumeral(s: string) {
    s != "" && forall i | 0 <= i < |s| :: IsDigit(s[i])
  }

  function Parse(s: string): nat
    requires forall i | 0 <= i < |s| :: IsDigit(s[i])
  {
    if s == "" then 0 else 10 * Parse(s[..|s| - 1]) + ValueOf(s[|s| - 1])
  }

  function Pow10(n: nat): nat {
    if n == 0 then 1 else 10 * Pow10(n - 1)
  }

  lemma {:induction false} DigitsParse(v: nat)
    ensures forall i | 0 <= i < |Digits(v)| :: IsDigit(Digits(v)[i])
    ensures Parse(Digits(v)) == v
    ensures v > 0 ==> Digits(v) != "" && Digits(v)[0] != '0'
  {
    if v > 0 {
      DigitsParse(v / 10);
      assert Digits(v)[..|Digits(v)| - 1] == Digits(v / 10);
    }
  }

  lemma {:induction false} DigitsLength(v: nat, n: nat)
    requires v < Pow10(n)
    ensures |Digits(v)| <= n
  {
    if v > 0 {
      DigitsLength(v / 10, n - 1);
    }
  }

  lemma DigitsAre(d: nat)
    requires d < 10
    ensures DigitOf(d) == "0123456789"[d] && ValueOf("0123456789"[d]) == d
  {
  }

  lemma FortyTwo()
    ensures Numeral(42) == "42" && Parse("42") == 42
  {
    assert Digits(4) == Digits(0) + ['4'] && Digits(42) == Digits(4) + ['2'];
    DigitsParse(42);
  }

  /** Parsing back the numeral gives the number, and no other numeral without leading zeros does. */
  lemma NumeralIsTheOne(v: nat, s: string)
    requires IsNumeral(s) && (s[0] == '0' ==> |s| == 1)
    ensures IsNumeral(Numeral(v)) && (Numeral(v)[0] == '0' ==> |Numeral(v)| == 1)
    ensures Parse(Numeral(v)) == v
    ensures Parse(s) == v ==> s == Numeral(v)
  {
    DigitsParse(v);
    if v == 0 {
      assert Numeral(v)[..0] == "";
    }
    if Parse(s) == v {
      NumeralUnique(s);
    }
  }

  lemma {:induction false} NumeralUnique(s: string)
    requires IsNumeral(s) && (s[0] == '0' ==> |s| == 1)
    ensures s == Numeral(Parse(s))
    decreases |s|
  {
    var n := |s| - 1;
    var init := s[..n];
    assert s == init + [s[n]];
    if n > 0 {
      LeadingDigitPositive(init);
      NumeralUnique(init);
      assert Parse(s) / 10 == Parse(init) && Parse(s) % 10 == ValueOf(s[n]);
    } else {
      assert Parse(init) == 0;
      OneDigit(s[0]);
    }
  }

  lemma OneDigit(c: char)
    requires IsDigit(c)
    ensures [c] == Numeral(ValueOf(c))
  {
    var v := ValueOf(c);
    assert c == DigitOf(v);
    if v > 0 {
      assert v / 10 == 0 && v % 10 == v;
      assert Digits(v) == Digits(0) + [DigitOf(v)];
    }
  }

  lemma {:induction false} LeadingDigitPositive(s: string)
    requires IsNumeral(s) && s[0] != '0'
    ensures Parse(s) > 0
    decreases |s|
  {
    if |s| > 1 {
      LeadingDigitPositive(s[..|s| - 1]);
    }
  }

  // ---- the code -------------------------------------------------------------------------

  /** One APBUART: what has been written to its data register. */
  class Uart {
    var sent: string

    constructor ()
      ensures sent == ""
    {
      sent := "";
    }

    /** uart_putc, once the transmitter is empty. */
    method PutC(c: char)
      modifies this
      ensures sent == old(sent) + [c]
    {
      sent := sent + [c];
    }
  }

  /** uart_puts from buf[i]: up to the terminating NUL, which has to be there. */
  method PutS(uart: Uart, buf: array<char>, i: nat, ghost end: nat)
    requires i <= end < buf.Length && buf[end] == '\0'
    requires forall k | i <= k < end :: buf[k] != '\0'
    modifies uart
    ensures uart.sent == old(uart.sent) + old(buf[i..end])
  {
    var s := i;
    while buf[s] != '\0'
      invariant i <= s <= end
      invariant uart.sent == old(uart.sent) + buf[i..s]
      decreases end - s
    {
      uart.PutC(buf[s]);
      s := s + 1;
    }
  }

  /**
   * uart_put_uint: for every 32-bit value it ends, stays inside its 12 bytes, is never cut short
   * by the bound on i, and sends exactly the numeral of the value.
   */
  method PutUint(uart: Uart, value: uint32)
    modifies uart
    ensures uart.sent == old(uart.sent) + Numeral(value)
  {
    var buf := new char[12];
    var i := 11;
    buf[i] := '\0';
    var v: int := value;
    if v == 0 {
      i := i - 1;
      buf[i] := '0';
      assert buf[i..11] == "0";
    } else {
      FitsTenDigits(value);
      while v > 0 && i > 0
        invariant 0 <= v && |Digits(v)| < i <= 11 && buf[11] == '\0'
        invariant Digits(value) == Digits(v) + buf[i..11]
        invariant forall k | i <= k < 11 :: IsDigit(buf[k])
        invariant uart.sent == old(uart.sent)
        decreases v
      {
        i := i - 1;
        ghost var was := buf[i + 1..11];
        buf[i] := DigitOf(v % 10);
        assert buf[i..11] == [DigitOf(v % 10)] + was;
        v := v / 10;
      }
      assert v == 0 && "" + buf[i..11] == buf[i..11];
    }
    assert buf[i..11] == Numeral(value);
    PutS(uart, buf, i, 11);
  }

  lemma FitsTenDigits(value: uint32)
    ensures |Digits(value)| <= 10
  {
    assert Pow10(5) == 100000;
    assert Pow10(10) == 10000000000;
    DigitsLength(value, 10);
  }
}
