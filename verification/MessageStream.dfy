/**
 Length-delimited framing: every message is preceded by its length as a base-128
 varint, seven bits a byte, low bits first, the top bit set on all bytes but the last.
 Numbers are JavaScript's: shifts work on 32-bit signed integers, and a slice whose
 bound is negative counts from the end.
 */
module MessageStream {
  import opened Collections

  type Byte = b: int | 0 <= b < 256

  // ---------- JavaScript arithmetic ----------

  /** A number as a signed 32-bit integer. */
  function ToInt32(x: int): (r: int)
    ensures -0x8000_0000 <= r < 0x8000_0000
    ensures -0x8000_0000 <= x < 0x8000_0000 ==> r == x
  {
    (x + 0x8000_0000) % 0x1_0000_0000 - 0x8000_0000
  }

  function Pow2(n: nat): (r: nat)
    ensures r > 0
  {
    if n == 0 then 1 else 2 * Pow2(n - 1)
  }

  /** The << operator: only the low five bits of the distance count. */
  function ShiftLeft(x: int, n: nat): (r: int) {
    ToInt32(x * Pow2(n % 32))
  }

  /** Where a slice bound that may be negative falls in a buffer of n bytes. */
  function SliceAt(bound: int, n: nat): (r: nat)
    requires bound <= n
    ensures r <= n
  {
    if bound >= 0 then bound else Max(0, n + bound)
  }

  // ---------- the decoder ----------

  datatype Decoder = Decoder(length: int, lengthIndex: nat, readingLength: bool, buffer: seq<Byte>)

  const FRESH := Decoder(0, 0, true, [])

  /** One byte of a length prefix is consumed. */
  function ReadByte(d: Decoder): (r: Decoder)
    requires |d.buffer| > 0
  {
    var byte := d.buffer[0];
    var more := byte >= 128;
    Decoder(d.length + ShiftLeft(byte % 128, 7 * d.lengthIndex),
            if more then d.lengthIndex + 1 else 0,
            more,
            d.buffer[1..])
  }

  /** A frame is complete. */
  predicate FrameReady(d: Decoder) {
    |d.buffer| > 0 && !d.readingLength && d.length <= |d.buffer|
  }

  function Frame(d: Decoder): (r: seq<Byte>)
    requires FrameReady(d)
  {
    d.buffer[..SliceAt(d.length, |d.buffer|)]
  }

  function TakeFrame(d: Decoder): (r: Decoder)
    requires FrameReady(d)
  {
    Decoder(0, d.lengthIndex, true, d.buffer[SliceAt(d.length, |d.buffer|)..])
  }

  /** Decodes what the buffer allows: the state left and the frames pushed, in order. */
  function Drain(d: Decoder): (r: (Decoder, seq<seq<Byte>>))
    decreases |d.buffer|, !d.readingLength
  {
    if d.buffer == [] then (d, [])
    else if d.readingLength then Drain(ReadByte(d))
    else if FrameReady(d) then
      var (rest, frames) := Drain(TakeFrame(d));
      (rest, [Frame(d)] + frames)
    else (d, [])
  }

  function Append(d: Decoder, chunk: seq<Byte>): (r: Decoder) {
    d.(buffer := d.buffer + chunk)
  }

  /** What one chunk does. */
  function Feed(d: Decoder, chunk: seq<Byte>): (r: (Decoder, seq<seq<Byte>>)) {
    Drain(Append(d, chunk))
  }

  /** What a sequence of chunks does. */
  function FeedAll(d: Decoder, chunks: seq<seq<Byte>>): (r: (Decoder, seq<seq<Byte>>))
    decreases chunks
  {
    if chunks == [] then (d, [])
    else
      var (d', first) := Feed(d, chunks[0]);
      var (d'', rest) := FeedAll(d', chunks[1..]);
      (d'', first + rest)
  }

  class DelimitedStream {
    var length: int
    var lengthIndex: nat
    var readingLength: bool
    var buffer: seq<Byte>
    var pushed: seq<seq<Byte>>  // what the reader of the stream was given

    ghost function State(): (r: Decoder)
      reads this
    {
      Decoder(length, lengthIndex, readingLength, buffer)
    }

    constructor ()
      ensures State() == FRESH && pushed == []
    {
      length, lengthIndex, readingLength, buffer, pushed := 0, 0, true, [], [];
    }

    method Transform(chunk: seq<Byte>)
      modifies this
      ensures State() == Feed(old(State()), chunk).0
      ensures pushed == old(pushed) + Feed(old(State()), chunk).1
    {
      buffer := buffer + chunk;
      ghost var (rest, frames) := Drain(State());
      while |buffer| > 0
        invariant Drain(State()).0 == rest
        invariant pushed + Drain(State()).1 == old(pushed) + frames
        decreases |buffer|, !readingLength
      {
        if readingLength {
          var byte := buffer[0];
          length := length + ShiftLeft(byte % 128, 7 * lengthIndex);
          if byte >= 128 {
            lengthIndex := lengthIndex + 1;
            readingLength := true;
          } else {
            lengthIndex := 0;
            readingLength := false;
          }
          buffer := buffer[1..];
        } else {
          if length <= |buffer| {
            var at := SliceAt(length, |buffer|);
            ghost var later := Drain(TakeFrame(State())).1;
            assert pushed + ([buffer[..at]] + later) == pushed + [buffer[..at]] + later;
            pushed := pushed + [buffer[..at]];
            buffer := buffer[at..];
            length := 0;
            readingLength := true;
          } else {
            break;
          }
        }
      }
    }
  }

  // ---------- the encoder ----------

  /** The bytes of a length: one more as long as more than seven bits are left. */
  function Varint(length: int): (r: seq<Byte>)
    ensures |r| > 0
    decreases length
  {
    if length > 127 then [128 + length % 128] + Varint(ToInt32(length) / 128)
    else [length % 256]
  }

  function Encode(message: seq<Byte>): (r: seq<Byte>) {
    Varint(|message|) + message
  }

  function EncodeAll(messages: seq<seq<Byte>>): (r: seq<Byte>) {
    if messages == [] then [] else Encode(messages[0]) + EncodeAll(messages[1..])
  }

  class DelimitingStream {
    var pushed: seq<seq<Byte>>

    constructor ()
      ensures pushed == []
    {
      pushed := [];
    }

    method Transform(chunk: seq<Byte>)
      modifies this
      ensures pushed == old(pushed) + [Varint(|chunk|), chunk]
    {
      var length: int := |chunk|;
      var lengthBytes: seq<Byte> := [];
      while length > 127
        invariant lengthBytes + Varint(length) == Varint(|chunk|)
        decreases length
      {
        assert lengthBytes + Varint(length) ==
               lengthBytes + [128 + length % 128] + Varint(ToInt32(length) / 128);
        lengthBytes := lengthBytes + [128 + length % 128];
        length := ToInt32(length) / 128;
      }
      lengthBytes := lengthBytes + [length % 256];
      pushed := pushed + [lengthBytes];
      pushed := pushed + [chunk];
    }
  }
}
