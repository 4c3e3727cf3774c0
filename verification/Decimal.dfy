/** Decimal text of 64-bit counters, as stored in every document: printing
    without leading zeros, and parsing that accepts digits only and rejects
    overflow. */
module Decimal {
  import opened Support
  import opened Sequences

  function Digit(d: nat): char
    requires d < 10
  {
    '0' + d as char
  }

  predicate IsDigit(c: char) {
    '0' <= c <= '9'
  }

  function DigitValue(c: char): nat {
    if IsDigit(c) then (c - '0') as nat else 0
  }

  function Print(n: nat): (text: string)
    ensures text != [] && forall i :: 0 <= i < |text| ==> IsDigit(text[i])
  {
    if n < 10 then [Digit(n)] else Print(n / 10) + [Digit(n % 10)]
  }

  function ValueOf(text: string): nat {
    if text == [] then 0 else 10 * ValueOf(text[..|text| - 1]) + DigitValue(Last(text))
  }

  /** All digits, and a value that fits 64 bits. */
  function Parse(text: string): Option<U64> {
    if text != [] && (forall i :: 0 <= i < |text| ==> IsDigit(text[i])) && ValueOf(text) < TWO_TO_THE_64 then
      Some(ValueOf(text))
    else
      None
  }

  lemma {:induction false} PrintedValue(n: nat)
    ensures ValueOf(Print(n)) == n
  {
    if n >= 10 {
      PrintedValue(n / 10);
      assert Print(n)[..|Print(n)| - 1] == Print(n / 10);
    } else {
      assert Print(n)[..0] == [];
    }
  }

  /** Parsing undoes printing for every 64-bit counter. */
  lemma {:induction false} ParsePrint(n: U64)
    ensures Parse(Print(n)) == Some(n)
  {
    PrintedValue(n);
  }

  /** The number without its last `k` digits. */
  function Shifted(n: nat, k: nat): nat {
    if k == 0 then n else Shifted(n / 10, k - 1)
  }

  /** Digits are written most significant first, and without a leading zero. */
  lemma {:induction false} PrintedDigit(n: nat, k: nat)
    requires k < |Print(n)|
    ensures Print(n)[|Print(n)| - 1 - k] == Digit(Shifted(n, k) % 10)
    ensures n > 0 ==> Print(n)[0] != '0'
  {
    if n >= 10 {
      PrintedDigit(n / 10, if k == 0 then 0 else k - 1);
      assert Print(n)[..|Print(n)| - 1] == Print(n / 10);
    }
  }

  lemma {:induction false} PrintIsInjective(m: nat, n: nat)
    requires Print(m) == Print(n)
    ensures m == n
  {
    PrintedValue(m);
    PrintedValue(n);
  }

  lemma {:induction false} ValueGrows(text: string, n: nat)
    requires n <= |text|
    ensures ValueOf(text[..n]) <= ValueOf(text)
    decreases |text| - n
  {
    if n == |text| {
      assert text[..n] == text;
    } else {
      ValueGrows(text, n + 1);
      assert text[..n + 1][..n] == text[..n];
    }
  }

  /** The digit loop, which stops at the first character that is not a digit or
      the first overflow. */
  method ParseDigits(text: string) returns (value: Option<U64>)
    ensures value == Parse(text)
  {
    if text == [] {
      return None;
    }
    var result: nat := 0;
    for i := 0 to |text|
      invariant forall k :: 0 <= k < i ==> IsDigit(text[k])
      invariant result == ValueOf(text[..i]) && result < TWO_TO_THE_64
    {
      if !IsDigit(text[i]) {
        return None;
      }
      assert text[..i + 1][..i] == text[..i];
      result := 10 * result + DigitValue(text[i]);
      if result >= TWO_TO_THE_64 {
        ValueGrows(text, i + 1);
        return None;
      }
    }
    assert text[..|text|] == text;
    value := Some(result);
  }

  function Power10(n: nat): nat {
    if n == 0 then 1 else 10 * Power10(n - 1)
  }

  lemma {:induction false} PrintedLength(n: nat, digits: nat)
    requires digits >= 1 && n < Power10(digits)
    ensures |Print(n)| <= digits
  {
    if n >= 10 {
      assert n / 10 < Power10(digits - 1);
      PrintedLength(n / 10, digits - 1);
    }
  }

  /** A 64-bit counter prints in at most twenty digits. */
  lemma {:induction false} CounterLength(n: U64)
    ensures 1 <= |Print(n)| <= 20
  {
    assert Power10(5) == 100000;
    assert Power10(10) == 10000000000;
    assert Power10(15) == 1000000000000000;
    assert Power10(20) == 100000000000000000000;
    PrintedLength(n, 20);
  }
}
