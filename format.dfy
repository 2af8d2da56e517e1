/** Integer-to-text formatting as Python's f-strings do it for non-negative
    integers (`{n}` and `{n:02d}`), with the decoding functions that prove the
    encodings lose nothing, and the separator lemmas used to take generated
    paths apart again. */
module Format {

  predicate IsDigit(c: char) {
    '0' <= c <= '9'
  }

  function DigitChar(d: nat): (c: char)
    requires d < 10
    ensures IsDigit(c)
    ensures c as int - '0' as int == d
  {
    ('0' as int + d) as char
  }

  /** The value of a decimal digit; any other character reads as 0. */
  function DigitValue(c: char): (d: nat)
    ensures d < 10
  {
    if IsDigit(c) then c as int - '0' as int else 0
  }

  /** `str(n)` / `f"{n}"`: shortest decimal numeral, no leading zero. */
  function Decimal(n: nat): (s: string)
    ensures |s| >= 1
    ensures forall i :: 0 <= i < |s| ==> IsDigit(s[i])
    ensures n >= 10 ==> |s| >= 2 && s[0] != '0'
    ensures n < 10 ==> |s| == 1
    ensures n < 100 ==> |s| <= 2
  {
    if n < 10 then [DigitChar(n)] else Decimal(n / 10) + [DigitChar(n % 10)]
  }

  /** `f"{n:02d}"`: the numeral left-padded with zeros to at least two characters. */
  function ZeroPad2(n: nat): (s: string)
    ensures forall i :: 0 <= i < |s| ==> IsDigit(s[i])
    ensures |s| == if n < 100 then 2 else |Decimal(n)|
    ensures n >= 10 ==> s == Decimal(n)
  {
    if n < 10 then "0" + Decimal(n) else Decimal(n)
  }

  /** Reads a string of digits back as a number (`int(s)`). */
  function ParseDecimal(s: string): nat
  {
    if s == [] then 0 else ParseDecimal(s[..|s| - 1]) * 10 + DigitValue(s[|s| - 1])
  }

  lemma {:induction false} DecimalRoundTrip(n: nat)
    ensures ParseDecimal(Decimal(n)) == n
  {
    var s := Decimal(n);
    if n < 10 {
      assert s[..|s| - 1] == [];
    } else {
      assert s[..|s| - 1] == Decimal(n / 10);
      DecimalRoundTrip(n / 10);
    }
  }

  lemma ZeroPad2RoundTrip(n: nat)
    ensures ParseDecimal(ZeroPad2(n)) == n
  {
    DecimalRoundTrip(n);
    if n < 10 {
      var s := ZeroPad2(n);
      assert s[..|s| - 1] == "0";
      assert ParseDecimal("0") == 0 by {
        assert "0"[..0] == [];
      }
    }
  }

  /** Distinct numbers get distinct two-digit-padded numerals. */
  lemma ZeroPad2Injective(a: nat, b: nat)
    requires ZeroPad2(a) == ZeroPad2(b)
    ensures a == b
  {
    ZeroPad2RoundTrip(a);
    ZeroPad2RoundTrip(b);
  }

  /** A separator that occurs in neither right-hand part splits a string in
      exactly one way at its last occurrence. */
  lemma SplitAtLast(x: string, a: string, y: string, b: string, c: char)
    requires c !in a && c !in b
    requires x + [c] + a == y + [c] + b
    ensures x == y && a == b
  {
    var s := x + [c] + a;
    if |a| != |b| {
      SeparatorAt(if |a| < |b| then x else y, c, if |a| < |b| then a else b);
      assert false;
    }
    assert |x| == |y|;
    assert x == s[..|x|];
    assert y == (y + [c] + b)[..|y|];
    assert a == s[|x| + 1..];
    assert b == (y + [c] + b)[|y| + 1..];
  }

  lemma SeparatorAt(x: string, c: char, a: string)
    ensures (x + [c] + a)[|x|] == c
  {
  }
}
