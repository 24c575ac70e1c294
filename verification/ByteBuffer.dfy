/** net/Buffer: a byte vector in three regions - prependable, readable, writable - told apart by two indexes.
    Contents() is the readable region; every operation is proved to act on it as on a plain sequence. */
module ByteBuffer {
  const CHEAP_PREPEND := 8
  const INITIAL_SIZE := 1024
  const EXTRA_SIZE := 65536

  // ---- integers in network byte order, width bytes, two's complement ----

  function Pow256(width: nat): nat
  {
    if width == 0 then 1 else 256 * Pow256(width - 1)
  }

  /** Big-endian bytes of a value below 256^width. */
  function Encode(value: nat, width: nat): (s: string)
    ensures |s| == width
  {
    if width == 0 then "" else Encode(value / 256, width - 1) + [(value % 256) as char]
  }

  function Decode(s: string): nat
  {
    if s == "" then 0 else Decode(s[..|s|-1]) * 256 + (s[|s|-1] as int) % 256
  }

  lemma {:induction false} EncodeDecode(value: nat, width: nat)
    requires value < Pow256(width)
    ensures Decode(Encode(value, width)) == value
  {
    if width > 0 {
      EncodeDecode(value / 256, width - 1);
      var s := Encode(value, width);
      assert s[..|s|-1] == Encode(value / 256, width - 1);
    }
  }

  predicate Fits(x: int, width: nat)
  {
    0 - Pow256(width) <= 2 * x < Pow256(width)
  }

  /** The cast to unsigned and back. */
  function ToUnsigned(x: int, width: nat): int
  {
    if x < 0 then x + Pow256(width) else x
  }

  function ToSigned(u: int, width: nat): int
  {
    if 2 * u >= Pow256(width) then u - Pow256(width) else u
  }

  function IntBytes(x: int, width: nat): string
    requires Fits(x, width)
  {
    Encode(ToUnsigned(x, width), width)
  }

  function IntOf(s: string): int
  {
    ToSigned(Decode(s), |s|)
  }

  /** Every signed integer survives the trip through its network bytes. */
  lemma IntRoundTrip(x: int, width: nat)
    requires width > 0 && Fits(x, width)
    ensures |IntBytes(x, width)| == width && IntOf(IntBytes(x, width)) == x
  {
    EncodeDecode(ToUnsigned(x, width), width);
  }

  lemma {:induction false} PowerPositive(width: nat)
    ensures Pow256(width) > 0
  {
    if width > 0 { PowerPositive(width - 1); }
  }

  lemma DivTwice(v: nat, p: nat)
    requires p > 0
    ensures 256 * p > 0 && v / 256 / p == v / (256 * p)
  {
    var q, r := v / (256 * p), v % (256 * p);
    assert v == q * (256 * p) + r == 256 * (q * p) + r;
    assert v / 256 == q * p + r / 256;
    Quotient(v / 256, p, q, r / 256);
  }

  lemma LessTimes(a: int, b: int, p: nat)
    requires a < b
    ensures a * p + p <= b * p
  {
    assert (b - a - 1) * p >= 0;
    assert (b - a - 1) * p == b * p - a * p - p;
  }

  /** A quotient is determined by its remainder. */
  lemma Quotient(x: int, p: nat, q: int, r: int)
    requires p > 0 && 0 <= r < p && x == q * p + r
    ensures x / p == q && x % p == r
  {
    var d := x / p;
    assert x == d * p + x % p;
    if d < q { LessTimes(d, q, p); }
    if d > q { LessTimes(q, d, p); }
  }

  /** The most significant byte comes first. */
  lemma {:induction false} EncodedByte(value: nat, width: nat, k: nat)
    requires k < width
    ensures Pow256(width - 1 - k) > 0
    ensures Encode(value, width)[k] as int == value / Pow256(width - 1 - k) % 256
  {
    PowerPositive(width - 1 - k);
    if k < width - 1 {
      EncodedByte(value / 256, width - 1, k);
      DivTwice(value, Pow256(width - 2 - k));
    }
  }

  lemma ModuloIs(x: int, p: nat)
    requires p > 0 && 0 - p <= x < p
    ensures x % p == if x < 0 then x + p else x
  {
    if x < 0 {
      assert x == -1 * p + (x + p);
      Quotient(x, p, -1, x + p);
    } else {
      Quotient(x, p, 0, x);
    }
  }

  /** The bytes of an integer are those of its remainder, most significant first. */
  lemma NetworkByte(x: int, width: nat, k: nat)
    requires k < width && Fits(x, width)
    ensures Pow256(width) > 0 && Pow256(width - 1 - k) > 0
    ensures IntBytes(x, width)[k] as int == x % Pow256(width) / Pow256(width - 1 - k) % 256
  {
    PowerPositive(width);
    ModuloIs(x, Pow256(width));
    EncodedByte(ToUnsigned(x, width), width, k);
  }

  // ---- the socket behind readFd ----

  /** A descriptor with the bytes still to be read from it. The kernel may hand over fewer bytes than asked for,
      and may fail at any time; zero bytes mean that nothing is left. */
  class Source {
    var incoming: string

    constructor (s: string)
      ensures incoming == s
    {
      incoming := s;
    }

    /** readv over two areas: n < 0 is an error, otherwise n bytes of at most room + EXTRA_SIZE, and none only when
        nothing is left. */
    method Readv(room: nat, fails: bool) returns (n: int, bytes: string)
      modifies this
      ensures if fails then n == -1 else 0 <= n <= room + 65536
      ensures n < 0 ==> bytes == "" && incoming == old(incoming)
      ensures n >= 0 ==> n == |bytes| && old(incoming) == bytes + incoming
      ensures n == 0 ==> old(incoming) == ""
    {
      if fails { return -1, ""; }
      var most := if |incoming| <= room + EXTRA_SIZE then |incoming| else room + EXTRA_SIZE;
      var short: nat := *;
      n := if 0 < short <= most then short else most;
      bytes, incoming := incoming[..n], incoming[n..];
    }
  }

  class Buffer {
    var data: array<char>
    var readerIndex: nat
    var writerIndex: nat

    ghost predicate Valid()
      reads this
    {
      readerIndex <= writerIndex <= data.Length && data.Length >= CHEAP_PREPEND
    }

    ghost function Contents(): string
      reads this, data
      requires Valid()
    {
      data[readerIndex..writerIndex]
    }

    constructor ()
      ensures Valid() && fresh(data) && Contents() == ""
      ensures ReadableBytes() == 0 && WritableBytes() == 1024 && PrependableBytes() == 8
    {
      data := new char[CHEAP_PREPEND + INITIAL_SIZE];
      readerIndex := CHEAP_PREPEND;
      writerIndex := CHEAP_PREPEND;
    }

    function ReadableBytes(): nat
      reads this
      requires Valid()
    {
      writerIndex - readerIndex
    }

    function WritableBytes(): nat
      reads this
      requires Valid()
    {
      data.Length - writerIndex
    }

    function PrependableBytes(): nat
      reads this
    {
      readerIndex
    }

    /** toString */
    function ToString(): string
      reads this, data
      requires Valid()
      ensures ToString() == Contents()
    {
      data[readerIndex..writerIndex]
    }

    method RetrieveAll()
      requires Valid()
      modifies this`readerIndex, this`writerIndex
      ensures Valid() && Contents() == "" && PrependableBytes() == 8
    {
      readerIndex := CHEAP_PREPEND;
      writerIndex := CHEAP_PREPEND;
    }

    method Retrieve(len: nat)
      requires Valid() && len <= ReadableBytes()
      modifies this`readerIndex, this`writerIndex
      ensures Valid() && Contents() == old(Contents())[len..]
      ensures PrependableBytes() == if len < old(ReadableBytes()) then old(PrependableBytes()) + len else 8
    {
      if len < ReadableBytes() {
        readerIndex := readerIndex + len;
      } else {
        RetrieveAll();
      }
    }

    method RetrieveAsString(len: nat) returns (s: string)
      requires Valid() && len <= ReadableBytes()
      modifies this`readerIndex, this`writerIndex
      ensures Valid() && s == old(Contents())[..len] && Contents() == old(Contents())[len..]
    {
      s := data[readerIndex..readerIndex + len];
      Retrieve(len);
    }

    /** resize: a larger vector with the old bytes in front. */
    method Resize(size: nat)
      requires Valid() && data.Length <= size
      modifies this`data
      ensures Valid() && fresh(data) && data.Length == size && Contents() == old(Contents())
    {
      var bigger := new char[size];
      forall k | 0 <= k < data.Length { bigger[k] := data[k]; }
      data := bigger;
    }

    /** The forward copy of makeSpace, in place; source and target may overlap because bytes only move down. */
    method MoveDown(to: nat)
      requires Valid() && to <= readerIndex
      modifies data
      ensures data[to..to + ReadableBytes()] == old(Contents())
    {
      var k := 0;
      var n := ReadableBytes();
      ghost var moved := Contents();
      while k < n
        invariant 0 <= k <= n
        invariant forall j :: 0 <= j < k ==> data[to + j] == moved[j]
        invariant forall j :: k <= j < n ==> data[readerIndex + j] == moved[j]
      {
        data[to + k] := data[readerIndex + k];
        k := k + 1;
      }
    }

    /** makeSpace, called with too little room behind the readable bytes. Its assertion CHEAP_PREPEND < readerIndex
        follows from that. */
    method MakeSpace(len: nat)
      requires Valid() && WritableBytes() < len
      modifies this, data
      ensures Valid() && WritableBytes() >= len && Contents() == old(Contents())
      ensures data == old(data) || fresh(data)
      ensures if old(WritableBytes() + PrependableBytes()) < len + 8
              then WritableBytes() == len && PrependableBytes() == old(PrependableBytes())
              else data == old(data) && PrependableBytes() == 8
    {
      if WritableBytes() + PrependableBytes() < len + CHEAP_PREPEND {
        Resize(writerIndex + len);
      } else {
        assert CHEAP_PREPEND < readerIndex;
        var readable := ReadableBytes();
        MoveDown(CHEAP_PREPEND);
        readerIndex := CHEAP_PREPEND;
        writerIndex := readerIndex + readable;
      }
    }

    method EnsureWritableBytes(len: nat)
      requires Valid()
      modifies this, data
      ensures Valid() && WritableBytes() >= len && Contents() == old(Contents())
      ensures data == old(data) || fresh(data)
      ensures old(WritableBytes()) >= len ==>
                data == old(data) && readerIndex == old(readerIndex) && writerIndex == old(writerIndex)
    {
      if WritableBytes() < len {
        MakeSpace(len);
      }
    }

    method Append(s: string)
      requires Valid()
      modifies this, data
      ensures Valid() && Contents() == old(Contents()) + s
      ensures data == old(data) || fresh(data)
    {
      EnsureWritableBytes(|s|);
      Fill(s);
    }

    /** Copies s to the start of the writable region and makes it readable (std::copy and hasWritten). */
    method Fill(s: string)
      requires Valid() && |s| <= WritableBytes()
      modifies this`writerIndex, data
      ensures Valid() && Contents() == old(Contents()) + s && writerIndex == old(writerIndex) + |s|
    {
      forall k | 0 <= k < |s| { data[writerIndex + k] := s[k]; }
      writerIndex := writerIndex + |s|;
      assert data[readerIndex..writerIndex - |s|] == old(Contents());
    }

    method Prepend(s: string)
      requires Valid() && |s| <= PrependableBytes()
      modifies this`readerIndex, data
      ensures Valid() && Contents() == s + old(Contents())
    {
      readerIndex := readerIndex - |s|;
      forall k | 0 <= k < |s| { data[readerIndex + k] := s[k]; }
      assert data[readerIndex + |s|..writerIndex] == old(Contents());
    }

    // ---- integers: appendInt8/16/32, prependInt8/16/32, peekInt8/16/32, readInt8/16/32 ----

    method AppendInt(x: int, width: nat)
      requires Valid() && Fits(x, width)
      modifies this, data
      ensures Valid() && Contents() == old(Contents()) + IntBytes(x, width)
      ensures data == old(data) || fresh(data)
    {
      Append(IntBytes(x, width));
    }

    method PrependInt(x: int, width: nat)
      requires Valid() && Fits(x, width) && width <= PrependableBytes()
      modifies this`readerIndex, data
      ensures Valid() && Contents() == IntBytes(x, width) + old(Contents())
    {
      Prepend(IntBytes(x, width));
    }

    function PeekInt(width: nat): int
      reads this, data
      requires Valid() && width <= ReadableBytes()
    {
      IntOf(data[readerIndex..readerIndex + width])
    }

    /** Whatever stands in front of the buffer as the bytes of x is read back as x, and is gone. */
    method ReadInt(width: nat) returns (x: int)
      requires Valid() && 0 < width <= ReadableBytes()
      modifies this`readerIndex, this`writerIndex
      ensures Valid() && Contents() == old(Contents())[width..]
      ensures forall y :: Fits(y, width) && IntBytes(y, width) <= old(Contents()) ==> x == y
    {
      x := PeekInt(width);
      ghost var front := data[readerIndex..readerIndex + width];
      forall y | Fits(y, width) && IntBytes(y, width) <= Contents() ensures x == y {
        assert front == Contents()[..width] == IntBytes(y, width);
        IntRoundTrip(y, width);
      }
      Retrieve(width);
    }

    // ---- readFd ----

    /** The bytes of one readv: what does not fit behind the contents came through the extra area and is appended. */
    method TakeIn(bytes: string)
      requires Valid()
      modifies this, data
      ensures Valid() && Contents() == old(Contents()) + bytes
      ensures data == old(data) || fresh(data)
    {
      var writable := WritableBytes();
      if |bytes| <= writable {
        Fill(bytes);
      } else {
        ghost var contents := Contents();
        Fill(bytes[..writable]);
        assert writerIndex == data.Length;
        Append(bytes[writable..]);
        assert contents + bytes == contents + bytes[..writable] + bytes[writable..];
      }
    }

    /** Moves bytes from the source to the buffer and loses none, however short the reads are; fails tells whether the
        first readv fails. The result is negative exactly on that failure and zero exactly at the end of the stream.
        Otherwise it counts the bytes gained, minus one if a later readv failed (errored is what *savedErrno tells). */
    method ReadFd(source: Source, fails: bool) returns (n: int, errored: bool)
      requires Valid()
      modifies this, data, source
      ensures Valid() && (data == old(data) || fresh(data))
      ensures old(Contents()) + old(source.incoming) == Contents() + source.incoming
      ensures ReadableBytes() == old(ReadableBytes()) + n + (if errored then 1 else 0)
      ensures n < 0 <==> fails
      ensures n == 0 <==> !fails && old(source.incoming) == ""
      ensures n < 0 ==> errored
      ensures n == 0 ==> !errored
      ensures n <= 0 ==> source.incoming == old(source.incoming) && Contents() == old(Contents())
      decreases |source.incoming|
    {
      var writable := WritableBytes();
      var bytes;
      n, bytes := source.Readv(writable, fails);
      errored := n < 0;
      if n >= 0 {
        TakeIn(bytes);
        if n == writable + EXTRA_SIZE {
          var failsAgain: bool := *;
          var more;
          more, errored := ReadFd(source, failsAgain);
          n := n + more;
        }
      }
    }
  }
}
