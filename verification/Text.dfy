/** Byte strings as text: ASCII literals, lower-case hexadecimal and decimal numerals, with the
    injectivity that makes them usable as keys and as MAC input. */
module Text {
  import opened Bytes

  function Ascii(s: string): (b: seq<Byte>)
    ensures |b| == |s|
  {
    seq(|s|, i requires 0 <= i < |s| => s[i] as int % 256)
  }

  function HexDigit(n: nat): (d: Byte)
    requires n < 16
    ensures d == "0123456789abcdef"[n] as int
  {
    if n < 10 then 48 + n else 87 + n
  }

  function Hex(s: seq<Byte>): (t: seq<Byte>)
    ensures |t| == 2 * |s|
  {
    if s == [] then [] else [HexDigit(s[0] / 16), HexDigit(s[0] % 16)] + Hex(s[1..])
  }

  lemma {:induction false} HexInjective(a: seq<Byte>, b: seq<Byte>)
    requires Hex(a) == Hex(b)
    ensures a == b
  {
    assert |a| == |b|;
    if a != [] {
      var x, y := Hex(a), Hex(b);
      assert x[0] == HexDigit(a[0] / 16) && x[1] == HexDigit(a[0] % 16);
      assert y[0] == HexDigit(b[0] / 16) && y[1] == HexDigit(b[0] % 16);
      assert a[0] == b[0];
      assert Hex(a[1..]) == x[2..] && Hex(b[1..]) == y[2..];
      HexInjective(a[1..], b[1..]);
    }
  }

  /** The decimal numeral of n, without leading zeros. */
  function Decimal(n: nat): (t: seq<Byte>)
    ensures t != []
  {
    if n < 10 then [48 + n] else Decimal(n / 10) + [48 + n % 10]
  }

  function Value(t: seq<Byte>): int {
    if t == [] then 0 else 10 * Value(t[..|t| - 1]) + (t[|t| - 1] as int) - 48
  }

  lemma {:induction false} DecimalValue(n: nat)
    ensures Value(Decimal(n)) == n
  {
    var t := Decimal(n);
    if n >= 10 {
      assert t[..|t| - 1] == Decimal(n / 10);
      DecimalValue(n / 10);
    }
  }

  lemma DecimalInjective(a: nat, b: nat)
    requires Decimal(a) == Decimal(b)
    ensures a == b
  {
    DecimalValue(a);
    DecimalValue(b);
  }
}
