/** Decimal numerals: what a printed integer has to be, and how it is read back. */
module Decimal {
  import opened Wrappers

  function DigitChar(d: nat): char
    requires d < 10
  {
    '0' + d as char
  }

  /** The canonical numeral of n, most significant digit first. */
  function Digits(n: nat): string
  {
    if n < 10 then [DigitChar(n)] else Digits(n / 10) + [DigitChar(n % 10)]
  }

  function Print(n: int): string
  {
    if n < 0 then "-" + Digits(-n) else Digits(n)
  }

  predicate IsDigit(c: char)
  {
    '0' <= c <= '9'
  }

  /** Reads digits in a base of at least ten; None when there is a character other than a decimal digit. */
  function Read(s: string, base: nat): Option<nat>
  {
    if s == "" then Some(0)
    else
      var high, c := Read(s[..|s|-1], base), s[|s|-1];
      if high.None? || !IsDigit(c) then None else Some(high.value * base + (c - '0') as nat)
  }

  function ReadNat(s: string): Option<nat>
  {
    if s == "" then None else Read(s, 10)
  }

  function ReadInt(s: string): Option<int>
  {
    if s != "" && s[0] == '-' then
      var r := ReadNat(s[1..]);
      if r.None? then None else Some(0 - r.value)
    else
      var r := ReadNat(s);
      if r.None? then None else Some(r.value)
  }

  /** Only digits, and a leading zero only for zero itself. */
  predicate Canonical(s: string)
  {
    && s != "" && (forall k :: 0 <= k < |s| ==> IsDigit(s[k]))
    && (s[0] == '0' ==> s == "0")
  }

  lemma DigitValue(d: nat)
    requires d < 10
    ensures IsDigit(DigitChar(d)) && (DigitChar(d) - '0') as nat == d
    ensures DigitChar(d) == '0' <==> d == 0
  {
  }

  lemma {:induction false} DigitsRead(n: nat)
    ensures ReadNat(Digits(n)) == Some(n) && Canonical(Digits(n))
    ensures Digits(n) == "0" ==> n == 0
  {
    if n < 10 {
      DigitValue(n);
      assert Digits(n)[..0] == "";
      assert Read(Digits(n), 10) == Some(n);
    } else {
      DigitValue(n % 10);
      DigitsRead(n / 10);
      assert Digits(n)[..|Digits(n)|-1] == Digits(n / 10);
      assert |Digits(n)| > 1;
    }
  }

  /** Printing and reading are inverse on every integer. */
  lemma PrintRead(n: int)
    ensures ReadInt(Print(n)) == Some(n)
  {
    DigitsRead(if n < 0 then -n else n);
    if n < 0 { assert Print(n)[1..] == Digits(-n); }
  }

  lemma PrintInjective(m: int, n: int)
    requires Print(m) == Print(n)
    ensures m == n
  {
    PrintRead(m);
    PrintRead(n);
  }

  function Pow10(k: nat): nat
  {
    if k == 0 then 1 else 10 * Pow10(k - 1)
  }

  /** A numeral has at most k digits exactly when the number is below 10^k. */
  lemma {:induction false} DigitCount(n: nat, k: nat)
    requires k > 0
    ensures |Digits(n)| <= k <==> n < Pow10(k)
    decreases k
  {
    if k == 1 {
      assert Pow10(1) == 10 * Pow10(0);
      if n >= 10 { assert |Digits(n / 10)| >= 1; }
    } else if n >= 10 {
      DigitCount(n / 10, k - 1);
    } else {
      Pow10Grows(k);
    }
  }

  lemma {:induction false} Pow10Grows(k: nat)
    requires k > 0
    ensures Pow10(k) >= 10
  {
    if k > 1 { Pow10Grows(k - 1); }
  }

  /** A character that is no digit anywhere in the text makes it unreadable. */
  lemma {:induction false} NonDigitUnreadable(s: string, k: nat, base: nat)
    requires k < |s| && !IsDigit(s[k])
    ensures Read(s, base) == None
  {
    if k < |s| - 1 { NonDigitUnreadable(s[..|s|-1], k, base); }
  }

  lemma {:induction false} DigitsInLargerBase(n: nat, base: nat)
    requires base > 10
    ensures Read(Digits(n), base).Some? && Read(Digits(n), base).value >= n
    ensures Read(Digits(n), base).value == n <==> n < 10
  {
    DigitValue(n % 10);
    if n < 10 {
      assert Digits(n)[..0] == "";
    } else {
      var q := n / 10;
      DigitsInLargerBase(q, base);
      assert Digits(n)[..|Digits(n)|-1] == Digits(q);
      LargerBase(n, Read(Digits(q), base).value, base);
    }
  }

  lemma LargerBase(n: nat, v: nat, base: nat)
    requires base > 10 && n >= 10 && v >= n / 10
    ensures v * base + n % 10 > n
  {
    assert v * base == v * (base - 11) + v * 11;
    assert v * (base - 11) >= 0;
    assert n == n / 10 * 10 + n % 10;
  }
}
