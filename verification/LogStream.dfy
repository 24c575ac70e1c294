/** Number printing of the log stream: digits are written backwards through a moving position and then
    reversed in place, inside a buffer of fixed size. */
module LogStream {
  import opened Wrappers
  import opened Decimal

  const MAX_NUMERIC_SIZE := 32

  /** The longest text convert writes: 20 characters (a sign and 19 digits, or 20 digits) and a NUL. */
  const LONGEST := 21

  /** The table the source indexes from its middle with a digit of either sign. */
  const DIGITS := "9876543210123456789"

  function SignedDigit(d: int): char
    requires -9 <= d <= 9
  {
    DIGITS[9 + d]
  }

  /** Division and remainder as C++ defines them: truncated towards zero. */
  function TruncDiv(i: int, d: nat): int
    requires d > 0
  {
    if i >= 0 then i / d else -((-i) / d)
  }

  function TruncMod(i: int, d: nat): int
    requires d > 0
  {
    i - TruncDiv(i, d) * d
  }

  function Abs(i: int): nat
  {
    if i < 0 then -i else i
  }

  /** Digits from the least significant one. */
  function ReversedDigits(n: nat): string
  {
    [DigitChar(n % 10)] + if n < 10 then "" else ReversedDigits(n / 10)
  }

  function Reversed(s: string): string
  {
    if s == "" then "" else Reversed(s[1..]) + [s[0]]
  }

  lemma {:induction false} ReversedAt(s: string, k: nat)
    requires k < |s|
    ensures |Reversed(s)| == |s| && Reversed(s)[k] == s[|s| - 1 - k]
  {
    if |s| > 1 { ReversedAt(s[1..], if k < |s| - 1 then k else 0); }
  }

  lemma {:induction false} ReversedTwice(n: nat)
    ensures Reversed(ReversedDigits(n)) == Digits(n) && |ReversedDigits(n)| == |Digits(n)|
  {
    if n >= 10 {
      ReversedTwice(n / 10);
      assert ReversedDigits(n)[1..] == ReversedDigits(n / 10);
    } else {
      assert ReversedDigits(n)[1..] == "";
    }
  }

  lemma ReversedSign(s: string)
    ensures Reversed(s + "-") == "-" + Reversed(s)
  {
    if s == "" {
      assert ("" + "-")[1..] == "";
    } else {
      assert (s + "-")[1..] == s[1..] + "-";
      ReversedSign(s[1..]);
    }
  }

  predicate Is64Bit(value: int)
  {
    -0x8000_0000_0000_0000 <= value < 0x1_0000_0000_0000_0000
  }

  lemma LongestText(value: int)
    requires Is64Bit(value)
    ensures |Print(value)| < LONGEST && |Digits(Abs(value))| < LONGEST
  {
    PowersOfTen();
    DigitCount(Abs(value), if value < 0 then 19 else 20);
  }

  lemma PowersOfTen()
    ensures Pow10(19) == 10_000_000_000_000_000_000 && Pow10(20) == 100_000_000_000_000_000_000
  {
    assert Pow10(5) == 100_000;
    assert Pow10(10) == 10_000_000_000;
    assert Pow10(15) == 1_000_000_000_000_000;
  }

  lemma DigitLookup(i: int)
    ensures -9 <= TruncMod(i, 10) <= 9
    ensures SignedDigit(TruncMod(i, 10)) == DigitChar(Abs(i) % 10)
    ensures Abs(TruncDiv(i, 10)) == Abs(i) / 10
  {
    var m := TruncMod(i, 10);
    assert if i >= 0 then m == i % 10 else m == -((-i) % 10);
  }

  /** One digit and what is left, as the loop sees it from position j of the text. */
  lemma NextDigit(i: int, text: string, j: nat)
    requires j <= |text| && text[j..] == ReversedDigits(Abs(i))
    ensures -9 <= TruncMod(i, 10) <= 9
    ensures j < |text| && text[j] == SignedDigit(TruncMod(i, 10))
    ensures text[j + 1..] == if TruncDiv(i, 10) == 0 then "" else ReversedDigits(Abs(TruncDiv(i, 10)))
  {
    DigitLookup(i);
    assert text[j..][0] == text[j];
    assert text[j..][1..] == text[j + 1..];
  }

  /** The do-while loop: one digit a round, starting at position start. */
  method WriteDigits(buffer: array<char>, start: nat, value: int) returns (p: nat)
    requires Is64Bit(value) && start + LONGEST <= buffer.Length
    modifies buffer
    ensures p == start + |ReversedDigits(Abs(value))| < buffer.Length
    ensures buffer[start..p] == ReversedDigits(Abs(value))
    ensures forall k :: 0 <= k < start || p <= k < buffer.Length ==> buffer[k] == old(buffer[k])
  {
    hide ReversedDigits, Digits, TruncDiv, TruncMod, SignedDigit, Print, Is64Bit;
    ghost var text := ReversedDigits(Abs(value));
    ReversedTwice(Abs(value));
    LongestText(value);
    var i := value;
    p := start;
    var more := true;
    while more
      invariant start <= p <= start + |text| < buffer.Length
      invariant text[p - start..] == if more then ReversedDigits(Abs(i)) else ""
      invariant buffer[start..p] == text[..p - start]
      invariant forall k :: 0 <= k < start || p <= k < buffer.Length ==> buffer[k] == old(buffer[k])
      decreases more, Abs(i)
    {
      NextDigit(i, text, p - start);
      DigitLookup(i);
      var lsd := TruncMod(i, 10);
      i := TruncDiv(i, 10);
      buffer[p] := SignedDigit(lsd);
      assert buffer[start..p + 1] == buffer[start..p] + [text[p - start]];
      p := p + 1;
      more := i != 0;
    }
  }

  lemma IsReversed(a: string, s: string)
    requires |a| == |s| && forall k :: 0 <= k < |s| ==> a[k] == s[|s| - 1 - k]
    ensures a == Reversed(s)
  {
    forall k | 0 <= k < |s| ensures |Reversed(s)| == |s| && a[k] == Reversed(s)[k] {
      ReversedAt(s, k);
    }
    if s != "" { ReversedAt(s, 0); }
  }

  /** std::reverse on buffer[start..end]. */
  method ReverseRange(buffer: array<char>, start: nat, end: nat)
    requires start <= end <= buffer.Length
    modifies buffer
    ensures buffer[start..end] == Reversed(old(buffer[start..end]))
    ensures forall k :: 0 <= k < start || end <= k < buffer.Length ==> buffer[k] == old(buffer[k])
  {
    ghost var written := buffer[start..end];
    forall k | start <= k < end { buffer[k] := buffer[start + end - 1 - k]; }
    IsReversed(buffer[start..end], written);
  }

  /** Writes the numeral of value, and a NUL behind it, at position start; touches nothing else. */
  method Convert(buffer: array<char>, start: nat, value: int) returns (len: nat)
    requires Is64Bit(value) && start + LONGEST <= buffer.Length
    modifies buffer
    ensures start + len < buffer.Length && len < LONGEST
    ensures buffer[start..start + len] == Print(value) && buffer[start + len] == '\0'
    ensures forall k :: 0 <= k < start || start + len < k < buffer.Length ==> buffer[k] == old(buffer[k])
  {
    hide ReversedDigits, Digits, Reversed;
    ghost var text := ReversedDigits(Abs(value));
    ReversedTwice(Abs(value));
    LongestText(value);
    ReversedSign(text);
    var p := WriteDigits(buffer, start, value);
    if value < 0 {
      buffer[p] := '-';
      assert buffer[start..p + 1] == buffer[start..p] + "-";
      p := p + 1;
    }
    buffer[p] := '\0';
    assert buffer[start..p] == if value < 0 then text + "-" else text;
    ReverseRange(buffer, start, p);
    len := p - start;
  }

  /** FixedBuffer: SIZE bytes and a cursor. */
  class FixedBuffer {
    const data: array<char>
    var cur: nat

    predicate Valid()
      reads this
    {
      cur <= data.Length
    }

    function Length(): nat
      reads this
    {
      cur
    }

    function Text(): string
      reads this, data
      requires Valid()
    {
      data[..cur]
    }

    function Avail(): int
      reads this
    {
      data.Length - cur
    }

    constructor (size: nat)
      ensures Valid() && fresh(data) && Text() == "" && Avail() == size
    {
      data := new char[size];
      cur := 0;
    }

    /** formatInteger: the whole numeral or, when fewer than 32 bytes are left, nothing. */
    method FormatInteger(value: int)
      requires Valid() && Is64Bit(value)
      modifies this, data
      ensures Valid()
      ensures Text() == old(Text()) + if old(Avail()) >= 32 then Print(value) else ""
    {
      if Avail() >= MAX_NUMERIC_SIZE {
        var len := Convert(data, cur, value);
        cur := cur + len;
        assert data[..cur] == old(data[..cur]) + Print(value);
      }
    }

    /** operator<<(const void*): "0x" and then, in the source, the decimal digits of the address. */
    method FormatPointer(p: nat)
      requires Valid() && Is64Bit(p)
      modifies this, data
      ensures Valid()
      ensures Text() == old(Text()) + if old(Avail()) > 32 then "0x" + Digits(p) else ""
    {
      hide Digits;
      if Avail() > MAX_NUMERIC_SIZE {
        data[cur] := '0';
        data[cur + 1] := 'x';
        var len := Convert(data, cur + 2, p);
        cur := cur + len + 2;
        assert data[..cur] == old(data[..cur]) + "0x" + Digits(p);
      }
    }
  }

  /** Every integer up to 64 bits is printed in canonical form and read back unchanged. */
  lemma PrintedIntegerReadsBack(value: int)
    requires Is64Bit(value)
    ensures ReadInt(Print(value)) == Some(value) && |Print(value)| < LONGEST
    ensures Canonical(if value < 0 then Print(value)[1..] else Print(value))
  {
    PrintRead(value);
    LongestText(value);
    DigitsRead(Abs(value));
    if value < 0 { assert Print(value)[1..] == Digits(-value); }
  }

  /** The digits behind "0x" are decimal: read as the hexadecimal number the prefix announces they give the
      pointer back only below ten. */
  lemma PointerReadsBackExactlyWhen(p: nat)
    ensures Read(Digits(p), 16) == Some(p) <==> p < 10
  {
    DigitsInLargerBase(p, 16);
  }
}
