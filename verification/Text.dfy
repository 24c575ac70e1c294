/** Scans over byte strings used by the HTTP code: the library searches it calls and the trimming it does.
    One char stands for one byte. */
module Text {
  /** std::find: the first position of c, or |s| when c does not occur. */
  function IndexOf(s: string, c: char): (i: nat)
    ensures i <= |s|
    ensures i < |s| ==> s[i] == c
    ensures forall k :: 0 <= k < i ==> s[k] != c
  {
    if s == [] || s[0] == c then 0 else 1 + IndexOf(s[1..], c)
  }

  lemma Assoc(a: string, b: string, c: string)
    ensures a + b + c == a + (b + c)
  {
  }

  predicate CrlfAt(s: string, k: int)
  {
    0 <= k < |s| - 1 && s[k] == '\r' && s[k+1] == '\n'
  }

  predicate CrlfFree(s: string)
  {
    forall k :: 0 <= k < |s| ==> !CrlfAt(s, k)
  }

  /** std::search for "\r\n": the first position of a CRLF, or |s| when there is none. */
  function FindCrlf(s: string): (i: nat)
    ensures i <= |s|
    ensures i < |s| ==> CrlfAt(s, i)
    ensures forall k :: 0 <= k < i ==> !CrlfAt(s, k)
  {
    if s == [] then 0
    else if CrlfAt(s, 0) then 0
    else
      var i := FindCrlf(s[1..]);
      assert forall k :: 1 <= k <= i ==> CrlfAt(s, k) == CrlfAt(s[1..], k - 1);
      1 + i
  }

  /** More bytes behind a CRLF that is already there do not move it. */
  lemma FindCrlfStable(s: string, t: string)
    requires FindCrlf(s) < |s|
    ensures FindCrlf(s + t) == FindCrlf(s)
  {
    var i := FindCrlf(s);
    assert CrlfAt(s + t, i);
    assert forall k :: 0 <= k < i ==> CrlfAt(s + t, k) == CrlfAt(s, k);
  }

  /** A CRLF-free line is found whole, whatever follows its own CRLF. */
  lemma FindCrlfAfterLine(line: string, rest: string)
    requires CrlfFree(line)
    ensures FindCrlf(line + "\r\n" + rest) == |line|
  {
    var s := line + "\r\n" + rest;
    assert CrlfAt(s, |line|);
    forall k | 0 <= k < |line| ensures !CrlfAt(s, k) {
      assert !CrlfAt(line, k);
    }
  }

  /** isspace in the C locale. */
  predicate IsSpace(c: char)
  {
    c == ' ' || '\t' <= c <= '\r'
  }

  /** Blank, tab, newline, vertical tab, form feed and carriage return. */
  lemma SpaceIs(c: char)
    ensures IsSpace(c) <==> c in {' ', '\t', '\n', 11 as char, 12 as char, '\r'}
  {
  }

  function TrimLeft(s: string): string
  {
    if s != [] && IsSpace(s[0]) then TrimLeft(s[1..]) else s
  }

  function TrimRight(s: string): string
  {
    if s != [] && IsSpace(s[|s|-1]) then TrimRight(s[..|s|-1]) else s
  }

  function Trim(s: string): string
  {
    TrimRight(TrimLeft(s))
  }

  predicate AllSpace(s: string)
  {
    forall k :: 0 <= k < |s| ==> IsSpace(s[k])
  }

  /** s[a..b] is s without its surrounding white space: only white space is cut off, and none is left at either end. */
  predicate StripsTo(s: string, a: int, b: int)
  {
    0 <= a <= b <= |s| && AllSpace(s[..a]) && AllSpace(s[b..])
    && (a < b ==> !IsSpace(s[a]) && !IsSpace(s[b-1]))
  }

  /** Every text has such a span. */
  lemma {:induction false} StripExists(s: string) returns (a: nat, b: nat)
    ensures StripsTo(s, a, b)
    decreases |s|
  {
    if s == "" {
      a, b := 0, 0;
    } else if IsSpace(s[0]) {
      a, b := StripExists(s[1..]);
      assert s[..a+1] == [s[0]] + s[1..][..a] && s[b+1..] == s[1..][b..];
      a, b := a + 1, b + 1;
    } else if IsSpace(s[|s|-1]) {
      a, b := StripExists(s[..|s|-1]);
      assert s[..a] == s[..|s|-1][..a] && s[b..] == s[..|s|-1][b..] + [s[|s|-1]];
    } else {
      a, b := 0, |s|;
    }
  }

  lemma {:induction false} TrimLeftIs(s: string, a: nat)
    requires a <= |s| && AllSpace(s[..a]) && (a < |s| ==> !IsSpace(s[a]))
    ensures TrimLeft(s) == s[a..]
  {
    if a > 0 {
      assert IsSpace(s[..a][0]);
      assert s[1..][..a-1] == s[..a][1..];
      TrimLeftIs(s[1..], a - 1);
    }
  }

  lemma {:induction false} TrimRightIs(s: string, b: nat)
    requires b <= |s| && AllSpace(s[b..]) && (b > 0 ==> !IsSpace(s[b-1]))
    ensures TrimRight(s) == s[..b]
  {
    if b < |s| {
      assert IsSpace(s[b..][|s|-1-b]);
      assert s[..|s|-1][b..] == s[b..][..|s|-1-b];
      TrimRightIs(s[..|s|-1], b);
      assert s[..|s|-1][..b] == s[..b];
    }
  }

  /** Trim computes exactly the stripped span, wherever it lies. */
  lemma TrimStrips(s: string, a: int, b: int)
    requires StripsTo(s, a, b)
    ensures Trim(s) == s[a..b]
  {
    if a < b {
      TrimLeftIs(s, a);
      assert s[a..][b-a..] == s[b..];
      TrimRightIs(s[a..], b - a);
    } else {
      assert forall k :: 0 <= k < |s| ==> s[k] == (if k < a then s[..a][k] else s[b..][k-b]);
      TrimLeftIs(s, |s|);
    }
  }
}
