/**
 The framing laws: when cutting a stream into chunks is harmless, and when decoding
 undoes encoding.
 */
module Framing {
  import opened MessageStream

  function Flatten(chunks: seq<seq<Byte>>): (r: seq<Byte>) {
    if chunks == [] then [] else chunks[0] + Flatten(chunks[1..])
  }

  /** The decoder can do no more until another chunk comes. */
  predicate Waiting(d: Decoder) {
    d.buffer == [] || (!d.readingLength && d.length > |d.buffer|)
  }

  lemma {:induction false} DrainWaits(d: Decoder)
    ensures Waiting(Drain(d).0)
    decreases |d.buffer|, !d.readingLength
  {
    if d.buffer != [] {
      if d.readingLength {
        DrainWaits(ReadByte(d));
      } else if FrameReady(d) {
        DrainWaits(TakeFrame(d));
      }
    }
  }

  // ---------- cutting a stream into chunks ----------

  /**
   No length prefix of the buffered bytes comes out as a negative number -n that is
   followed by more than n bytes.
   */
  predicate CutSafe(d: Decoder)
    decreases |d.buffer|, !d.readingLength
  {
    if d.buffer == [] then true
    else if d.readingLength then CutSafe(ReadByte(d))
    else FrameReady(d) ==> (d.length >= 0 || |d.buffer| <= -d.length) && CutSafe(TakeFrame(d))
  }

  /** Decoding a buffer and then, with what is left, a tail is decoding both at once. */
  lemma {:induction false} DrainSplit(d: Decoder, tail: seq<Byte>)
    requires CutSafe(Append(d, tail))
    ensures var (d', first) := Drain(d);
      var (d'', rest) := Drain(Append(d', tail));
      Drain(Append(d, tail)) == (d'', first + rest) && CutSafe(Append(d', tail))
    decreases |d.buffer|, !d.readingLength
  {
    if d.buffer != [] {
      if d.readingLength {
        assert ReadByte(Append(d, tail)) == Append(ReadByte(d), tail);
        DrainSplit(ReadByte(d), tail);
      } else if FrameReady(d) {
        assert Frame(Append(d, tail)) == Frame(d);
        assert TakeFrame(Append(d, tail)) == Append(TakeFrame(d), tail);
        DrainSplit(TakeFrame(d), tail);
        var (d', first) := Drain(TakeFrame(d));
        var (_, rest) := Drain(Append(d', tail));
        assert [Frame(d)] + (first + rest) == [Frame(d)] + first + rest;
      }
    }
    if Waiting(d) {
      var rest := Drain(Append(d, tail)).1;
      assert [] + rest == rest;
    }
  }

  /** However a safe stream is cut, the frames and the final state are those of the uncut stream. */
  lemma {:induction false} ChunkingIrrelevant(d: Decoder, chunks: seq<seq<Byte>>)
    requires Waiting(d) && CutSafe(Append(d, Flatten(chunks)))
    ensures FeedAll(d, chunks) == Feed(d, Flatten(chunks))
    decreases chunks
  {
    if chunks == [] {
      assert Append(d, []) == d;
    } else {
      var first, later := Append(d, chunks[0]), Flatten(chunks[1..]);
      assert Append(d, Flatten(chunks)) == Append(first, later);
      DrainSplit(first, later);
      DrainWaits(first);
      ChunkingIrrelevant(Drain(first).0, chunks[1..]);
    }
  }

  function Prefix(d: Decoder, n: nat): (r: Decoder)
    requires n <= |d.buffer|
  {
    d.(buffer := d.buffer[..n])
  }

  /** The frames of a buffer that arrives in two pieces. */
  function CutFrames(d: Decoder, n: nat): (r: seq<seq<Byte>>)
    requires n <= |d.buffer|
  {
    var (d', first) := Drain(Prefix(d, n));
    first + Drain(Append(d', d.buffer[n..])).1
  }

  /** An unsafe stream has a cut that changes its frames. */
  lemma {:induction false} UnsafeCut(d: Decoder) returns (n: nat)
    requires !CutSafe(d)
    ensures 0 < n <= |d.buffer|
    ensures !d.readingLength ==> d.length <= n
    ensures CutFrames(d, n) != Drain(d).1
    decreases |d.buffer|, !d.readingLength
  {
    if d.readingLength {
      var m := UnsafeCut(ReadByte(d));
      n := m + 1;
      CutAfterByte(d, m);
    } else if d.length < 0 && |d.buffer| > -d.length {
      n := 1;
      assert Frame(Prefix(d, 1)) == [];
      assert CutFrames(d, 1)[0] == [];
      assert Drain(d).1[0] == Frame(d) && |Frame(d)| > 0;
    } else {
      var m := UnsafeCut(TakeFrame(d));
      n := SliceAt(d.length, |d.buffer|) + m;
      CutAfterFrame(d, m);
      assert CutFrames(d, n)[1..] == CutFrames(TakeFrame(d), m);
      assert Drain(d).1[1..] == Drain(TakeFrame(d)).1;
    }
  }

  lemma CutAfterByte(d: Decoder, m: nat)
    requires d.readingLength && m < |d.buffer|
    ensures CutFrames(d, m + 1) == CutFrames(ReadByte(d), m)
  {
    assert ReadByte(Prefix(d, m + 1)) == Prefix(ReadByte(d), m);
    assert ReadByte(d).buffer[m..] == d.buffer[m + 1..];
  }

  lemma CutAfterFrame(d: Decoder, m: nat)
    requires FrameReady(d) && 0 < m <= |TakeFrame(d).buffer|
    requires d.length >= 0 || |d.buffer| <= -d.length
    ensures CutFrames(d, SliceAt(d.length, |d.buffer|) + m) == [Frame(d)] + CutFrames(TakeFrame(d), m)
  {
    var n := SliceAt(d.length, |d.buffer|) + m;
    assert Frame(Prefix(d, n)) == Frame(d);
    assert TakeFrame(Prefix(d, n)) == Prefix(TakeFrame(d), m);
    assert TakeFrame(d).buffer[m..] == d.buffer[n..];
    var (d', first) := Drain(Prefix(TakeFrame(d), m));
    assert Drain(Prefix(d, n)) == (d', [Frame(d)] + first);
    var rest := Drain(Append(d', d.buffer[n..])).1;
    assert [Frame(d)] + first + rest == [Frame(d)] + (first + rest);
  }

  /** The two chunks of an unsafe stream that give other frames. */
  lemma UnsafeChunks(d: Decoder, bytes: seq<Byte>) returns (chunks: seq<seq<Byte>>)
    requires Waiting(d) && !CutSafe(Append(d, bytes))
    ensures Flatten(chunks) == bytes && FeedAll(d, chunks).1 != Feed(d, bytes).1
  {
    var whole := Append(d, bytes);
    var n := UnsafeCut(whole);
    var k := n - |d.buffer|;
    var a, b := bytes[..k], bytes[k..];
    assert Prefix(whole, n) == Append(d, a) && whole.buffer[n..] == b;
    TwoChunks(d, a, b);
    assert a + b == bytes;
    chunks := [a, b];
  }

  /** Chunk boundaries are invisible in a stream iff the stream is safe. */
  lemma ChunksInvisibleIffSafe(d: Decoder, bytes: seq<Byte>)
    requires Waiting(d)
    ensures CutSafe(Append(d, bytes)) <==>
            forall chunks :: Flatten(chunks) == bytes ==> FeedAll(d, chunks) == Feed(d, bytes)
  {
    if CutSafe(Append(d, bytes)) {
      forall chunks | Flatten(chunks) == bytes
        ensures FeedAll(d, chunks) == Feed(d, bytes)
      {
        ChunkingIrrelevant(d, chunks);
      }
    } else {
      var chunks := UnsafeChunks(d, bytes);
      assert Flatten(chunks) == bytes && FeedAll(d, chunks) != Feed(d, bytes);
    }
  }

  lemma TwoChunks(d: Decoder, a: seq<Byte>, b: seq<Byte>)
    ensures Flatten([a, b]) == a + b
    ensures FeedAll(d, [a, b]).1 == Feed(d, a).1 + Feed(Feed(d, a).0, b).1
  {
    assert [a, b][1..] == [b] && [b][1..] == [];
    assert Flatten([b]) == b + [] == b;
    var d' := Feed(d, a).0;
    assert FeedAll(d', [b]).1 == Feed(d', b).1 + [];
  }

  /** What comes out of a buffer, and whether it is safe to cut. */
  function Outlook(d: Decoder): (r: ((Decoder, seq<seq<Byte>>), bool)) {
    (Drain(d), CutSafe(d))
  }

  /** Reading one byte of a prefix changes neither. */
  lemma OneByte(d: Decoder)
    requires d.readingLength && d.buffer != []
    ensures Outlook(d) == Outlook(ReadByte(d))
  {
  }

  /** The base-128 digits of 2^32 - 1, which the 32-bit shifts make -1. */
  const MINUS_ONE: seq<Byte> := [255, 255, 255, 255, 15]

  lemma FullByte(sum: int, index: nat, bytes: seq<Byte>, p: nat)
    requires bytes != [] && bytes[0] == 255
    requires Pow2(7 * index) == p && 127 * p < 0x8000_0000
    ensures ReadByte(Decoder(sum, index, true, bytes)) == Decoder(sum + 127 * p, index + 1, true, bytes[1..])
  {
    ShiftExact(127, 7 * index);
  }

  lemma TwoFullDigits(sum: int, index: nat, bytes: seq<Byte>, p: nat)
    requires |bytes| >= 2 && bytes[0] == 255 && bytes[1] == 255
    requires Pow2(7 * index) == p && 0x3F80 * p < 0x8000_0000
    ensures Outlook(Decoder(sum, index, true, bytes)) ==
            Outlook(Decoder(sum + 0x3FFF * p, index + 2, true, bytes[2..]))
  {
    Pow2Seven(7 * index);
    FullByte(sum, index, bytes, p);
    OneByte(Decoder(sum, index, true, bytes));
    FullByte(sum + 127 * p, index + 1, bytes[1..], 128 * p);
    OneByte(Decoder(sum + 127 * p, index + 1, true, bytes[1..]));
    assert bytes[1..][1..] == bytes[2..];
  }

  lemma LastOfMinusOne(bytes: seq<Byte>)
    requires bytes != [] && bytes[0] == 15
    ensures Outlook(Decoder(0xFFF_FFFF, 4, true, bytes)) == Outlook(Decoder(-1, 0, false, bytes[1..]))
  {
    var d := Decoder(0xFFF_FFFF, 4, true, bytes);
    ShiftInto32();
    assert ReadByte(d) == Decoder(-1, 0, false, bytes[1..]);
    OneByte(d);
  }

  lemma ShiftInto32()
    ensures ShiftLeft(15, 7 * 4) == -0x1000_0000
  {
    PowersOf128();
    assert 15 * Pow2(7 * 4) == 0xF000_0000;
  }

  lemma PowersOf128()
    ensures Pow2(7 * 0) == 1 && Pow2(7 * 1) == 0x80 && Pow2(7 * 2) == 0x4000
    ensures Pow2(7 * 3) == 0x20_0000 && Pow2(7 * 4) == 0x1000_0000
  {
    Pow2Seven(0);
    Pow2Seven(7);
    Pow2Seven(14);
    Pow2Seven(21);
  }

  lemma ReadMinusOne(bytes: seq<Byte>)
    requires |bytes| >= 5 && bytes[4] == 15 && forall i :: 0 <= i < 4 ==> bytes[i] == 255
    ensures Outlook(Decoder(0, 0, true, bytes)) == Outlook(Decoder(-1, 0, false, bytes[5..]))
  {
    PowersOf128();
    TwoFullDigits(0, 0, bytes, 1);
    TwoFullDigits(0x3FFF, 2, bytes[2..], 0x4000);
    assert bytes[2..][2..] == bytes[4..];
    LastOfMinusOne(bytes[4..]);
    assert bytes[4..][1..] == bytes[5..];
  }

  /** Unsafe streams exist: a prefix of -1 with two bytes behind it is one, and no shorter tail makes it so. */
  lemma MinusOneUnsafe(m: seq<Byte>)
    ensures CutSafe(Append(FRESH, MINUS_ONE + m)) <==> |m| <= 1
  {
    var all, d := MINUS_ONE + m, Decoder(-1, 0, false, m);
    ReadMinusOne(all);
    assert all[5..] == m && Append(FRESH, all) == Decoder(0, 0, true, all);
    if |m| == 1 {
      assert TakeFrame(d).buffer == m;
      assert CutSafe(ReadByte(TakeFrame(d)));
      assert CutSafe(TakeFrame(d));
    }
  }

  /** With bytes behind it such a prefix makes all of them but the last a frame. */
  lemma MinusOneFrame(m: seq<Byte>)
    requires m != []
    ensures var frames := Drain(Append(FRESH, MINUS_ONE + m)).1;
      frames != [] && frames[0] == m[..|m| - 1]
  {
    var all := MINUS_ONE + m;
    ReadMinusOne(all);
    assert all[5..] == m && Append(FRESH, all) == Decoder(0, 0, true, all);
  }

  // ---------- any prefix ----------

  /** Bytes with the top bit, and one without. */
  predicate IsPrefix(bytes: seq<Byte>) {
    && bytes != [] && bytes[|bytes| - 1] < 128
    && forall i :: 0 <= i < |bytes| - 1 ==> bytes[i] >= 128
  }

  /** What the digits add up to: each is shifted by at most 31 places, and its sign bit counts as one. */
  function PrefixValue(bytes: seq<Byte>, index: nat): (value: int) {
    if bytes == [] then 0
    else
      var shifted := bytes[0] % 128 * Pow2(7 * index % 32);
      (shifted + 0x8000_0000) % 0x1_0000_0000 - 0x8000_0000 + PrefixValue(bytes[1..], index + 1)
  }

  lemma ReadAny(sum: int, index: nat, bytes: seq<Byte>, rest: seq<Byte>)
    requires bytes != []
    ensures ReadByte(Decoder(sum, index, true, bytes + rest)) ==
            Decoder(sum + PrefixValue(bytes[..1], index), if bytes[0] >= 128 then index + 1 else 0,
                    bytes[0] >= 128, bytes[1..] + rest)
  {
    assert (bytes + rest)[1..] == bytes[1..] + rest;
    assert PrefixValue(bytes[..1][1..], index + 1) == 0;
  }

  lemma PrefixValueCons(bytes: seq<Byte>, index: nat)
    requires bytes != []
    ensures PrefixValue(bytes, index) == PrefixValue(bytes[..1], index) + PrefixValue(bytes[1..], index + 1)
  {
    assert PrefixValue(bytes[..1][1..], index + 1) == 0;
  }

  /** Every prefix, also one longer than need be, is read as that sum, whatever follows. */
  lemma {:induction false} ReadPrefix(sum: int, index: nat, bytes: seq<Byte>, rest: seq<Byte>)
    requires IsPrefix(bytes)
    ensures Outlook(Decoder(sum, index, true, bytes + rest)) ==
            Outlook(Decoder(sum + PrefixValue(bytes, index), 0, false, rest))
    decreases |bytes|
  {
    var first := PrefixValue(bytes[..1], index);
    OneByte(Decoder(sum, index, true, bytes + rest));
    ReadAny(sum, index, bytes, rest);
    PrefixValueCons(bytes, index);
    if |bytes| > 1 {
      ReadPrefix(sum + first, index + 1, bytes[1..], rest);
    } else {
      assert bytes[1..] + rest == rest;
    }
  }

  /** The number that seven bits a byte, low bits first, stand for. */
  function PlainValue(bytes: seq<Byte>): (value: nat) {
    if bytes == [] then 0 else bytes[0] % 128 + 128 * PlainValue(bytes[1..])
  }

  lemma OneMoreDigit(byte: Byte, tail: seq<Byte>)
    requires byte >= 128 && IsPrefix(tail)
    ensures IsPrefix([byte] + tail) && PlainValue([byte] + tail) == byte % 128 + 128 * PlainValue(tail)
    ensures ([byte] + tail)[|tail|] == tail[|tail| - 1]
  {
    assert ([byte] + tail)[1..] == tail;
  }

  /** The encoder's bytes are the standard form of the length: base 128, no longer than need be. */
  lemma {:induction false} VarintFormat(n: nat)
    requires n < 0x8000_0000
    ensures IsPrefix(Varint(n)) && PlainValue(Varint(n)) == n
    ensures |Varint(n)| > 1 ==> Varint(n)[|Varint(n)| - 1] > 0
    decreases n
  {
    if n > 127 {
      VarintHead(n);
      VarintFormat(n / 128);
      OneMoreDigit(128 + n % 128, Varint(n / 128));
    } else {
      assert Varint(n) == [n] && [n][1..] == [];
    }
  }

  // ---------- prefixes below 2^31 ----------

  /** Every length prefix, read as a plain number, stays below 2^31. */
  predicate PrefixesBelow(d: Decoder)
    decreases |d.buffer|, !d.readingLength
  {
    if d.buffer == [] then true
    else if d.readingLength then
      && d.length + d.buffer[0] % 128 * Pow2(7 * d.lengthIndex) < 0x8000_0000
      && PrefixesBelow(ReadByte(d))
    else FrameReady(d) ==> PrefixesBelow(TakeFrame(d))
  }

  lemma {:induction false} Pow2Grows(m: nat, n: nat)
    requires m <= n
    ensures Pow2(m) <= Pow2(n)
    decreases n
  {
    if m < n {
      Pow2Grows(m, n - 1);
    }
  }

  /** A shift that stays below 2^31 is a multiplication. */
  lemma ShiftExact(x: nat, n: nat)
    requires x * Pow2(n) < 0x8000_0000
    ensures ShiftLeft(x, n) == x * Pow2(n)
  {
    if x == 0 {
      Zero(Pow2(n % 32));
      Zero(Pow2(n));
    } else {
      SmallDistance(x, n);
    }
  }

  lemma Zero(p: nat)
    ensures 0 * p == 0
  {
  }

  /** Only a shift by less than 32 keeps a positive number below 2^31. */
  lemma SmallDistance(x: nat, n: nat)
    requires x > 0 && x * Pow2(n) < 0x8000_0000
    ensures n < 32 && n % 32 == n
  {
    Larger(x, Pow2(n));
    if n >= 31 {
      Pow2Grows(31, n);
      Pow2Of31();
    }
  }

  lemma Pow2Of31()
    ensures Pow2(31) == 0x8000_0000
  {
    assert Pow2(3) == 8;
    Pow2Seven(3);
    Pow2Seven(10);
    Pow2Seven(17);
    Pow2Seven(24);
  }

  lemma Larger(x: nat, y: nat)
    requires x > 0
    ensures x * y >= y
  {
  }

  /** Prefixes below 2^31 make a stream safe to cut. */
  lemma {:induction false} BelowIsSafe(d: Decoder)
    requires d.length >= 0 && PrefixesBelow(d)
    ensures CutSafe(d)
    decreases |d.buffer|, !d.readingLength
  {
    if d.buffer != [] {
      if d.readingLength {
        var digit, p := d.buffer[0] % 128, Pow2(7 * d.lengthIndex);
        assert digit * p >= 0;
        ShiftExact(digit, 7 * d.lengthIndex);
        BelowIsSafe(ReadByte(d));
      } else if FrameReady(d) {
        BelowIsSafe(TakeFrame(d));
      }
    }
  }

  // ---------- decoding undoes encoding ----------

  lemma Pow2Seven(n: nat)
    ensures Pow2(n + 7) == 128 * Pow2(n)
  {
    assert Pow2(n + 7) == 2 * Pow2(n + 6) == 4 * Pow2(n + 5) == 8 * Pow2(n + 4);
    assert Pow2(n + 4) == 2 * Pow2(n + 3) == 4 * Pow2(n + 2) == 8 * Pow2(n + 1);
  }

  lemma DigitSplit(n: nat, p: nat)
    requires p > 0
    ensures n % 128 * p + n / 128 * (128 * p) == n * p
    ensures n % 128 * p <= n * p && n / 128 * (128 * p) <= n * p && n <= n * p
  {
    assert n == n % 128 + n / 128 * 128;
    assert (n % 128 + n / 128 * 128) * p == n % 128 * p + n / 128 * 128 * p;
    assert n / 128 * 128 * p == n / 128 * (128 * p);
    Larger(p, n);
    assert n % 128 * p >= 0 && n / 128 * (128 * p) >= 0;
  }

  lemma VarintHead(n: nat)
    requires 127 < n < 0x8000_0000
    ensures Varint(n) == [128 + n % 128] + Varint(n / 128)
    ensures (128 + n % 128) % 128 == n % 128
  {
  }

  /** Reading a byte adds the value its digit has at this place. */
  lemma ReadFirst(sum: int, index: nat, byte: Byte, rest: seq<Byte>, value: nat)
    requires byte % 128 * Pow2(7 * index) == value < 0x8000_0000
    ensures ReadByte(Decoder(sum, index, true, [byte] + rest)) ==
            Decoder(sum + value, if byte >= 128 then index + 1 else 0, byte >= 128, rest)
  {
    ShiftExact(byte % 128, 7 * index);
    assert ([byte] + rest)[1..] == rest;
  }

  lemma LastDigit(sum: int, index: nat, n: nat, rest: seq<Byte>, value: nat)
    requires n <= 127 && n * Pow2(7 * index) == value < 0x8000_0000
    ensures ReadByte(Decoder(sum, index, true, Varint(n) + rest)) == Decoder(sum + value, 0, false, rest)
  {
    assert Varint(n) == [n] && n % 128 == n;
    ReadFirst(sum, index, n, rest, value);
  }

  lemma FirstDigit(sum: int, index: nat, n: nat, rest: seq<Byte>, value: nat)
    requires 127 < n < 0x8000_0000 && n % 128 * Pow2(7 * index) == value < 0x8000_0000
    ensures ReadByte(Decoder(sum, index, true, Varint(n) + rest)) ==
            Decoder(sum + value, index + 1, true, Varint(n / 128) + rest)
  {
    VarintHead(n);
    assert Varint(n) + rest == [128 + n % 128] + (Varint(n / 128) + rest);
    ReadFirst(sum, index, 128 + n % 128, Varint(n / 128) + rest, value);
  }

  /** The first digit and the rest add up to the number. */
  lemma DigitStep(index: nat, n: nat, value: nat) returns (low: nat, high: nat)
    requires n * Pow2(7 * index) == value < 0x8000_0000
    ensures n < 0x8000_0000 && low + high == value
    ensures n % 128 * Pow2(7 * index) == low && n / 128 * Pow2(7 * (index + 1)) == high
  {
    DigitSplit(n, Pow2(7 * index));
    Pow2Seven(7 * index);
    assert Pow2(7 * (index + 1)) == 128 * Pow2(7 * index);
    low, high := n % 128 * Pow2(7 * index), n / 128 * Pow2(7 * (index + 1));
  }

  /** The first byte of several is read. */
  lemma MoreDigits(sum: int, index: nat, n: nat, rest: seq<Byte>, value: nat) returns (low: nat, high: nat)
    requires n > 127 && n * Pow2(7 * index) == value < 0x8000_0000
    ensures low + high == value && n / 128 * Pow2(7 * (index + 1)) == high
    ensures Outlook(Decoder(sum, index, true, Varint(n) + rest)) ==
            Outlook(Decoder(sum + low, index + 1, true, Varint(n / 128) + rest))
  {
    low, high := DigitStep(index, n, value);
    FirstDigit(sum, index, n, rest, low);
    OneByte(Decoder(sum, index, true, Varint(n) + rest));
  }

  /** The only byte is read. */
  lemma OneDigit(sum: int, index: nat, n: nat, rest: seq<Byte>, value: nat)
    requires n <= 127 && n * Pow2(7 * index) == value < 0x8000_0000
    ensures Outlook(Decoder(sum, index, true, Varint(n) + rest)) == Outlook(Decoder(sum + value, 0, false, rest))
  {
    LastDigit(sum, index, n, rest, value);
    OneByte(Decoder(sum, index, true, Varint(n) + rest));
  }

  lemma {:induction false} ReadValue(sum: int, index: nat, n: nat, rest: seq<Byte>, value: nat)
    requires n * Pow2(7 * index) == value < 0x8000_0000
    ensures Outlook(Decoder(sum, index, true, Varint(n) + rest)) == Outlook(Decoder(sum + value, 0, false, rest))
    decreases n
  {
    if n > 127 {
      var low, high := MoreDigits(sum, index, n, rest, value);
      ReadValue(sum + low, index + 1, n / 128, rest, high);
      assert sum + value == sum + low + high;
    } else {
      OneDigit(sum, index, n, rest, value);
    }
  }

  /** Reading a varint adds the number it stands for, and is safe to cut if the rest is. */
  lemma ReadVarint(sum: int, index: nat, n: nat, rest: seq<Byte>)
    requires n * Pow2(7 * index) < 0x8000_0000
    ensures var before := Decoder(sum, index, true, Varint(n) + rest);
      var after := Decoder(sum + n * Pow2(7 * index), 0, false, rest);
      Drain(before) == Drain(after) && (CutSafe(before) <==> CutSafe(after))
  {
    ReadValue(sum, index, n, rest, n * Pow2(7 * index));
  }

  /** All but a final empty message are delivered at once. */
  function Delivered(messages: seq<seq<Byte>>): (r: seq<seq<Byte>>) {
    if messages != [] && messages[|messages| - 1] == [] then messages[..|messages| - 1] else messages
  }

  /** After a final empty message the decoder knows its length and waits for one more byte. */
  function Final(messages: seq<seq<Byte>>): (r: Decoder) {
    if messages != [] && messages[|messages| - 1] == [] then Decoder(0, 0, false, []) else FRESH
  }

  lemma {:induction false} DrainEncoded(messages: seq<seq<Byte>>)
    requires forall m <- messages :: |m| < 0x8000_0000
    ensures Drain(Append(FRESH, EncodeAll(messages))) == (Final(messages), Delivered(messages))
    ensures CutSafe(Append(FRESH, EncodeAll(messages)))
    decreases messages
  {
    if messages != [] {
      var m, later := messages[0], EncodeAll(messages[1..]);
      DrainMessage(m, later);
      assert EncodeAll(messages) == Encode(m) + later;
      if m + later != [] {
        DrainEncoded(messages[1..]);
        assert messages == [m] + messages[1..];
        assert Delivered(messages) == [m] + Delivered(messages[1..]);
      } else {
        assert messages[1..] == [];
      }
    }
  }

  /** The first message of a stream is read back whole, if another byte follows its length. */
  lemma DrainMessage(m: seq<Byte>, later: seq<Byte>)
    requires |m| < 0x8000_0000
    ensures var whole := Append(FRESH, Encode(m) + later);
      if m + later == [] then Drain(whole) == (Decoder(0, 0, false, []), []) && CutSafe(whole)
      else
        var (rest, frames) := Drain(Append(FRESH, later));
        Drain(whole) == (rest, [m] + frames) && (CutSafe(Append(FRESH, later)) ==> CutSafe(whole))
  {
    var whole, d := Append(FRESH, Encode(m) + later), Decoder(|m|, 0, false, m + later);
    assert Drain(whole) == Drain(d) && (CutSafe(whole) <==> CutSafe(d)) by {
      assert Pow2(7 * 0) == 1;
      assert whole.buffer == Varint(|m|) + (m + later);
      ReadVarint(0, 0, |m|, m + later);
    }
    if m + later != [] {
      assert Frame(d) == m;
      assert TakeFrame(d) == Append(FRESH, later);
    }
  }

  /**
   However the encoded stream is cut, the decoder pushes exactly the messages, in order,
   except that a final empty one stays pending.
   */
  lemma RoundTrip(messages: seq<seq<Byte>>, chunks: seq<seq<Byte>>)
    requires forall m <- messages :: |m| < 0x8000_0000
    requires Flatten(chunks) == EncodeAll(messages)
    ensures FeedAll(FRESH, chunks) == (Final(messages), Delivered(messages))
  {
    DrainEncoded(messages);
    ChunkingIrrelevant(FRESH, chunks);
  }

  /** A frame is cut out of what is left after its prefix. */
  lemma {:induction false} FirstFrameBound(d: Decoder)
    ensures var frames := Drain(d).1;
      frames != [] ==> |frames[0]| <= |d.buffer| && (d.readingLength ==> |frames[0]| < |d.buffer|)
    decreases |d.buffer|, !d.readingLength
  {
    if d.buffer != [] && d.readingLength {
      FirstFrameBound(ReadByte(d));
    }
  }

  lemma LowDigit(n: nat)
    ensures var high := ToInt32(n) / 128;
      && high < 0x100_0000
      && (high >= 0 ==> n % 128 + high * 128 == ToInt32(n) <= n)
  {
    assert ToInt32(n) % 128 == n % 128;
  }

  /** A message of 2^31 bytes or more is never decoded: its length does not survive 32-bit shifts. */
  lemma TooLong(m: seq<Byte>)
    requires |m| >= 0x8000_0000
    ensures Feed(FRESH, Encode(m)).1 != [m]
  {
    var n := |m|;
    var high := ToInt32(n) / 128;
    LowDigit(n);
    var start, second := Append(FRESH, Encode(m)), Decoder(n % 128, 1, true, Varint(high) + m);
    assert ReadByte(start) == second by {
      assert Pow2(0) == 1 && ShiftLeft(n % 128, 0) == n % 128;
      assert Varint(n) == [128 + n % 128] + Varint(high);
      assert start.buffer[1..] == Varint(high) + m;
    }
    if high >= 0 {
      WrongLength(m, n % 128, high);
    } else {
      StrayLength(m, n % 128, high);
    }
  }

  lemma WrongLength(m: seq<Byte>, low: nat, high: nat)
    requires low < 128 && high < 0x100_0000 && |m| >= 0x8000_0000
    ensures Drain(Decoder(low, 1, true, Varint(high) + m)).1 != [m]
  {
    assert Pow2(7 * 1) == 128;
    ReadVarint(low, 1, high, m);
    var d := Decoder(low + high * 128, 0, false, m);
    assert |Frame(d)| < |m|;
    assert Drain(d).1[0] == Frame(d);
  }

  lemma StrayLength(m: seq<Byte>, low: nat, high: int)
    requires low < 128 && high < 0 && |m| >= 0x8000_0000
    ensures Drain(Decoder(low, 1, true, Varint(high) + m)).1 != [m]
  {
    var d := Decoder(low, 1, true, [high % 256] + m);
    assert Varint(high) == [high % 256];
    var d' := ReadByte(d);
    assert d'.buffer == m;
    FirstFrameBound(d');
    if !d'.readingLength {
      assert Pow2(7) == 128 && Pow2(7 % 32) == 128;
      assert d'.length < |m|;
      assert |Frame(d')| < |m|;
    }
  }

  /** One message comes back, leaving nothing behind, iff it is not empty and shorter than 2^31 bytes. */
  lemma RoundTripIff(m: seq<Byte>)
    ensures Feed(FRESH, Encode(m)) == (FRESH, [m]) <==> 0 < |m| < 0x8000_0000
  {
    if |m| >= 0x8000_0000 {
      TooLong(m);
    } else {
      assert EncodeAll([m]) == Encode(m);
      DrainEncoded([m]);
    }
  }
}
