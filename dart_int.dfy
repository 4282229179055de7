/** Dart's decimal integer text: `int.tryParse` (and `int.parse`, which throws where
    `tryParse` gives null) and `int.toString`, on the 64-bit integers of the Dart VM. */
module DartInt {
  import opened Text

  const Int64Min: int := -0x8000_0000_0000_0000
  const Int64Max: int := 0x7FFF_FFFF_FFFF_FFFF

  predicate IsDigit(c: char)
  {
    '0' <= c <= '9'
  }

  predicate AllDigits(s: string)
  {
    forall i :: 0 <= i < |s| ==> IsDigit(s[i])
  }

  function DigitValue(c: char): (d: nat)
    requires IsDigit(c)
    ensures d < 10
  {
    (c as int) - ('0' as int)
  }

  function DigitChar(d: nat): (c: char)
    requires d < 10
    ensures IsDigit(c) && DigitValue(c) == d
  {
    ('0' as int + d) as char
  }

  /** The value of a run of decimal digits, most significant first. */
  function DigitsValue(ds: string): nat
    requires AllDigits(ds)
  {
    if ds == [] then 0
    else DigitsValue(ds[..|ds| - 1]) * 10 + DigitValue(ds[|ds| - 1])
  }

  /** `int.tryParse(s)` without a radix: surrounding whitespace is ignored, one optional
      sign is accepted, then at least one decimal digit must follow and nothing else; a
      value outside the 64-bit range gives null, as on the Dart VM. */
  function TryParse(s: string): (r: Option<int>)
    ensures r.Some? ==> Int64Min <= r.value <= Int64Max
    ensures (forall k :: 0 <= k < |s| ==> IsSpace(s[k])) ==> r == None
  {
    BlankStripsToEmpty(s);
    ParseTrimmed(Strip(s))
  }

  /** Text made only of whitespace strips to nothing. */
  lemma BlankStripsToEmpty(s: string)
    ensures (forall k :: 0 <= k < |s| ==> IsSpace(s[k])) ==> Strip(s) == []
  {
    if forall k :: 0 <= k < |s| ==> IsSpace(s[k]) {
      StripKeepsMiddle(s);
      var a := |s| - |TrimStart(s)|;
      if Strip(s) != [] {
        assert Strip(s)[0] == s[a];
      }
    }
  }

  /** `int.tryParse` on text already free of surrounding whitespace. */
  function ParseTrimmed(t: string): Option<int>
  {
    var negative := |t| > 0 && t[0] == '-';
    var ds := if |t| > 0 && (t[0] == '-' || t[0] == '+') then t[1..] else t;
    if ds == [] || !AllDigits(ds) then None
    else
      var magnitude: int := DigitsValue(ds);
      var v := if negative then -magnitude else magnitude;
      if Int64Min <= v <= Int64Max then Some(v) else None
  }

  /** The decimal digits of a natural number, without leading zeros. */
  function NatToDecimal(n: nat): (ds: string)
    ensures |ds| >= 1 && AllDigits(ds)
  {
    if n < 10 then [DigitChar(n)]
    else NatToDecimal(n / 10) + [DigitChar(n % 10)]
  }

  /** `n.toString()`. */
  function IntToDecimal(n: int): (s: string)
  {
    if n < 0 then "-" + NatToDecimal(-n) else NatToDecimal(n)
  }

  /** Reading back printed digits gives the number. */
  lemma {:induction false} DigitsValueOfDecimal(n: nat)
    ensures DigitsValue(NatToDecimal(n)) == n
  {
    if n >= 10 {
      var ds := NatToDecimal(n);
      DigitsValueOfDecimal(n / 10);
      assert ds[..|ds| - 1] == NatToDecimal(n / 10);
    }
  }

  /** Every 64-bit integer survives printing and parsing: `int.tryParse(n.toString()) == n`. */
  lemma ParsePrinted(n: int)
    requires Int64Min <= n <= Int64Max
    ensures TryParse(IntToDecimal(n)) == Some(n)
  {
    var s := IntToDecimal(n);
    assert !IsSpace(s[0]) && !IsSpace(s[|s| - 1]);
    StripUntrimmed(s);
    ParseTrimmedPrinted(n);
  }

  /** Unsigned digits within range are read as their value. */
  lemma ParseDigits(ds: string)
    requires ds != [] && AllDigits(ds) && DigitsValue(ds) <= Int64Max
    ensures TryParse(ds) == Some(DigitsValue(ds))
  {
    assert IsDigit(ds[0]) && IsDigit(ds[|ds| - 1]);
    StripUntrimmed(ds);
    assert ds[0] != '-' && ds[0] != '+';
  }

  lemma ParseTrimmedPrinted(n: int)
    requires Int64Min <= n <= Int64Max
    ensures ParseTrimmed(IntToDecimal(n)) == Some(n)
  {
    var s := IntToDecimal(n);
    if n < 0 {
      var ds := NatToDecimal(-n);
      DigitsValueOfDecimal(-n);
      assert s[1..] == ds;
    } else {
      DigitsValueOfDecimal(n);
      assert s[0] != '-' && s[0] != '+';
    }
  }
}
