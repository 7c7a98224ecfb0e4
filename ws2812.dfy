/**
 * The WS2812 SPI frame encoding shared by the NeoPixel buffers: every colour bit becomes the
 * 3-bit symbol 1, b, 0 (most significant bit first), so a channel byte becomes 24 bits, or
 * three SPI bytes; a pixel is nine bytes in green, red, blue order, and a frame ends with 30
 * zero bytes of reset delay.
 */
module Ws2812 {
  import opened DrawingColors

  const BytesPerComponent := 3
  const BytesPerPixel := 9
  const ResetDelayInBytes := 30

  /** The symbol of bit j of v: binary 1, bit j, 0. */
  function Symbol(v: bv32, j: bv32): bv32
    requires j < 8
  {
    4 | (((v >> j) & 1) << 1)
  }

  /** The 24-bit code of a byte: its eight symbols, bit 7's symbol in the top three bits. */
  function Code(v: bv32): bv32 {
    (Symbol(v, 7) << 21) | (Symbol(v, 6) << 18) | (Symbol(v, 5) << 15) | (Symbol(v, 4) << 12)
      | (Symbol(v, 3) << 9) | (Symbol(v, 2) << 6) | (Symbol(v, 1) << 3) | Symbol(v, 0)
  }

  /** The middle bit of the symbol at position j of a code. */
  function Middle(code: bv32, j: bv32): bv32
    requires j < 8
  {
    (code >> (3 * j + 1)) & 1
  }

  /** The byte a code carries: the middle bits of its eight symbols. */
  function DecodeCode(code: bv32): bv32 {
    (Middle(code, 7) << 7) | (Middle(code, 6) << 6) | (Middle(code, 5) << 5) | (Middle(code, 4) << 4)
      | (Middle(code, 3) << 3) | (Middle(code, 2) << 2) | (Middle(code, 1) << 1) | Middle(code, 0)
  }

  /** Every 3-bit group of a code is 1, the bit, 0, and the code fits in 24 bits. */
  lemma CodeSymbols(v: bv32, j: bv32)
    requires j < 8
    ensures (Code(v) >> (3 * j)) & 7 == 4 | (((v >> j) & 1) << 1)
    ensures Code(v) < 0x100_0000
  {
  }

  /** Reading the middle bits of the symbols gives the byte back. */
  lemma CodeRoundTrip(v: bv32)
    requires v < 256
    ensures DecodeCode(Code(v)) == v
  {
  }

  /** The code of the bits of v from bit 7 down to bit j. */
  function Top(v: bv32, j: bv32): bv32
    requires j <= 8
  {
    Code(v) >> (3 * j)
  }

  /** One step of the expansion loop: shift in the symbol of bit j. */
  function Shift(data: bv32, i: bv32, j: bv32): bv32
    requires j < 8
  {
    (data << 3) | 0x4 | (((i >> j) << 1) & 2)
  }

  lemma ExpandStep(i: bv32, j: bv32)
    requires i < 256 && j < 8
    ensures Shift(Top(i, j + 1), i, j) == Top(i, j)
  {
  }

  lemma ExpandEnds(i: bv32)
    requires i < 256
    ensures Top(i, 8) == 0 && Top(i, 0) == Code(i)
  {
  }

  /** The inner loop of the lookup builder: bits 7 down to 0 of i shifted in as symbols. */
  method Expand(i: bv32) returns (data: bv32)
    requires i < 256
    ensures data == Code(i)
  {
    data := 0;
    var j: bv32 := 8;
    ExpandEnds(i);
    while j > 0
      invariant j <= 8
      invariant data == Top(i, j)
    {
      j := j - 1;
      ExpandStep(i, j);
      data := Shift(data, i, j);
    }
  }

  /** The three SPI bytes of a code, high byte first, as the unchecked byte casts take them. */
  function CodeBytes(code: bv32): (s: seq<bv8>)
    ensures |s| == 3
  {
    [((code >> 16) & 0xFF) as bv8, ((code >> 8) & 0xFF) as bv8, (code & 0xFF) as bv8]
  }

  /** The three SPI bytes of a channel. */
  function EncodeChannel(x: bv8): (s: seq<bv8>)
    ensures |s| == 3
  {
    CodeBytes(Code(x as bv32))
  }

  /** The channel three SPI bytes carry. */
  function DecodeChannel(s: seq<bv8>): bv8
    requires |s| == 3
  {
    var code := ((s[0] as bv32) << 16) | ((s[1] as bv32) << 8) | (s[2] as bv32);
    (DecodeCode(code) & 0xFF) as bv8
  }

  lemma BytesRoundTrip(v: bv32)
    requires v < 256
    ensures var s := CodeBytes(Code(v));
      DecodeCode(((s[0] as bv32) << 16) | ((s[1] as bv32) << 8) | (s[2] as bv32)) == v
  {
    CodeSymbols(v, 0);
    CodeRoundTrip(v);
  }

  /** Decoding the SPI bytes of a channel gives the channel back, so the encoding is injective. */
  lemma ChannelRoundTrip(x: bv8)
    ensures DecodeChannel(EncodeChannel(x)) == x
  {
    BytesRoundTrip(x as bv32);
  }

  /** The table holds the three code bytes of x at 3x, 3x + 1 and 3x + 2. */
  predicate HoldsCode(lookup: seq<bv8>, x: bv8)
    requires |lookup| == 256 * 3
  {
    Entry(lookup, x as int) == EncodeChannel(x)
  }

  /** The three table bytes at 3n. */
  function Entry(lookup: seq<bv8>, n: int): seq<bv8>
    requires |lookup| == 256 * 3 && 0 <= n < 256
  {
    lookup[n * 3..n * 3 + 3]
  }

  /** The lookup table the static constructors build: the code bytes of every byte value. */
  ghost predicate IsLookup(lookup: array<bv8>)
    reads lookup
  {
    lookup.Length == 256 * 3 && forall x: bv8 :: HoldsCode(lookup[..], x)
  }

  /** Writing the code bytes of byte i after the entries of the smaller bytes extends the table by one entry. */
  lemma LookupStep(before: seq<bv8>, after: seq<bv8>, i: int, x: bv8)
    requires |before| == 256 * 3 && 0 <= i < 256 && x as int == i
    requires forall y: bv8 :: y as int < i ==> HoldsCode(before, y)
    requires after == before[i * 3 := EncodeChannel(x)[0]][i * 3 + 1 := EncodeChannel(x)[1]][i * 3 + 2 := EncodeChannel(x)[2]]
    ensures forall y: bv8 :: y as int < i + 1 ==> HoldsCode(after, y)
  {
    EntryWritten(before, after, i, EncodeChannel(x));
    forall y: bv8 | y as int < i + 1
      ensures HoldsCode(after, y)
    {
      if y as int < i {
        assert HoldsCode(before, y);
        EntryBelow(before, after, i, y as int);
      } else {
        SameByte(x, y);
      }
    }
  }

  /** Writing the three bytes of e at 3i makes e entry i and keeps everything below. */
  lemma EntryWritten(before: seq<bv8>, after: seq<bv8>, i: int, e: seq<bv8>)
    requires |before| == 256 * 3 && 0 <= i < 256 && |e| == 3
    requires after == before[i * 3 := e[0]][i * 3 + 1 := e[1]][i * 3 + 2 := e[2]]
    ensures |after| == 256 * 3 && after[..i * 3] == before[..i * 3] && Entry(after, i) == e
  {
  }

  /** An entry below 3i lies in the part of the table that stayed. */
  lemma EntryBelow(before: seq<bv8>, after: seq<bv8>, i: int, n: int)
    requires |before| == |after| == 256 * 3 && 0 <= n < i < 256
    requires after[..i * 3] == before[..i * 3]
    ensures Entry(after, n) == Entry(before, n)
  {
    assert Entry(after, n) == after[..i * 3][n * 3..n * 3 + 3];
    assert Entry(before, n) == before[..i * 3][n * 3..n * 3 + 3];
  }

  lemma SameByte(x: bv8, y: bv8)
    requires x as int == y as int
    ensures x == y
  {
  }

  /** The three bytes the outer loop stores for byte x: its code, high byte first, by unchecked casts. */
  method CodeOf(x: bv8) returns (b0: bv8, b1: bv8, b2: bv8)
    ensures [b0, b1, b2] == EncodeChannel(x)
  {
    var data := Expand(x as bv32);
    b0 := ((data >> 16) & 0xFF) as bv8;
    b1 := ((data >> 8) & 0xFF) as bv8;
    b2 := (data & 0xFF) as bv8;
  }

  /** A 32-bit value below 256 keeps its value when narrowed to a byte. */
  lemma NarrowKeeps(i: bv32)
    requires i < 256
    ensures (i as bv8) as int == i as int
  {
  }

  /** One pass of the outer loop: the code of byte i written at 3i, 3i + 1 and 3i + 2. */
  method StoreCode(lookup: array<bv8>, i: bv32)
    requires lookup.Length == 256 * 3 && i < 256
    requires forall x: bv8 :: x as int < i as int ==> HoldsCode(lookup[..], x)
    modifies lookup
    ensures forall x: bv8 :: x as int < i as int + 1 ==> HoldsCode(lookup[..], x)
  {
    var x := i as bv8;
    NarrowKeeps(i);
    var b0, b1, b2 := CodeOf(x);
    ghost var before := lookup[..];
    var k := i as int * 3;
    lookup[k + 0] := b0;
    lookup[k + 1] := b1;
    lookup[k + 2] := b2;
    assert lookup[..] == before[k := b0][k + 1 := b1][k + 2 := b2];
    LookupStep(before, lookup[..], i as int, x);
  }

  /** The static constructor's table: for every byte i, the three bytes of its code at 3i. */
  method BuildLookup() returns (lookup: array<bv8>)
    ensures fresh(lookup) && IsLookup(lookup)
  {
    lookup := new bv8[256 * 3];
    var i: bv32 := 0;
    while i < 256
      invariant i <= 256
      invariant forall x: bv8 :: x as int < i as int ==> HoldsCode(lookup[..], x)
    {
      StoreCode(lookup, i);
      assert (i + 1) as int == i as int + 1;
      i := i + 1;
    }
  }

  /** The nine bytes of a pixel: the green, red and blue codes. */
  function PixelBytes(c: Color): (s: seq<bv8>)
    ensures |s| == 9
  {
    EncodeChannel(G(c)) + EncodeChannel(R(c)) + EncodeChannel(B(c))
  }

  /** The red, green and blue channels nine pixel bytes carry. */
  function DecodePixel(s: seq<bv8>): (bv8, bv8, bv8)
    requires |s| == 9
  {
    (DecodeChannel(s[3..6]), DecodeChannel(s[0..3]), DecodeChannel(s[6..9]))
  }

  /** Decoding a pixel's bytes gives its red, green and blue channels. */
  lemma PixelRoundTrip(c: Color)
    ensures DecodePixel(PixelBytes(c)) == (R(c), G(c), B(c))
  {
    var s := PixelBytes(c);
    assert s[0..3] == EncodeChannel(G(c));
    assert s[3..6] == EncodeChannel(R(c));
    assert s[6..9] == EncodeChannel(B(c));
    ChannelRoundTrip(R(c));
    ChannelRoundTrip(G(c));
    ChannelRoundTrip(B(c));
  }

  /** A byte string with the bytes from offset on replaced by t. */
  function Splice(s: seq<bv8>, offset: int, t: seq<bv8>): (r: seq<bv8>)
    requires 0 <= offset && offset + |t| <= |s|
    ensures |r| == |s|
  {
    s[..offset] + t + s[offset + |t|..]
  }

  /** A splice holds t at the offset and leaves every other byte as it was. */
  lemma SpliceEffect(s: seq<bv8>, offset: int, t: seq<bv8>)
    requires 0 <= offset && offset + |t| <= |s|
    ensures Splice(s, offset, t)[offset..offset + |t|] == t
    ensures forall k :: 0 <= k < |s| && !(offset <= k < offset + |t|) ==> Splice(s, offset, t)[k] == s[k]
  {
    var r := Splice(s, offset, t);
    assert r[offset..offset + |t|] == t;
  }

  /** Three code bytes of a channel, copied from the table to the offset. */
  method WriteChannel(data: array<bv8>, lookup: array<bv8>, offset: int, x: bv8)
    requires IsLookup(lookup) && data != lookup
    requires 0 <= offset && offset + BytesPerComponent <= data.Length
    modifies data
    ensures data[..] == Splice(old(data[..]), offset, EncodeChannel(x))
  {
    assert HoldsCode(lookup[..], x);
    data[offset + 0] := lookup[x as int * BytesPerComponent + 0];
    data[offset + 1] := lookup[x as int * BytesPerComponent + 1];
    data[offset + 2] := lookup[x as int * BytesPerComponent + 2];
  }

  /** Three adjacent splices are one splice of the joined bytes. */
  lemma SpliceThree(s: seq<bv8>, offset: int, a: seq<bv8>, b: seq<bv8>, c: seq<bv8>)
    requires 0 <= offset && offset + |a| + |b| + |c| <= |s|
    ensures Splice(Splice(Splice(s, offset, a), offset + |a|, b), offset + |a| + |b|, c) == Splice(s, offset, a + b + c)
  {
  }

  /** SetPixel: nine bytes at offset 9 * index, the green, red and blue codes from the table. */
  method WritePixel(data: array<bv8>, lookup: array<bv8>, index: int, color: Color)
    requires IsLookup(lookup) && data != lookup
    requires 0 <= index && index * BytesPerPixel + BytesPerPixel <= data.Length
    modifies data
    ensures data[..] == Splice(old(data[..]), index * BytesPerPixel, PixelBytes(color))
  {
    var offset := index * BytesPerPixel;
    ghost var before := data[..];
    WriteChannel(data, lookup, offset, G(color));
    WriteChannel(data, lookup, offset + 3, R(color));
    WriteChannel(data, lookup, offset + 6, B(color));
    SpliceThree(before, offset, EncodeChannel(G(color)), EncodeChannel(R(color)), EncodeChannel(B(color)));
  }

  /** The bytes of slot i: the nine bytes of pixel i. */
  function Slot(d: seq<bv8>, i: int): seq<bv8>
    requires 0 <= i && i * BytesPerPixel + BytesPerPixel <= |d|
  {
    d[i * BytesPerPixel..i * BytesPerPixel + BytesPerPixel]
  }

  /** n zero bytes, as a new byte array holds. */
  function Zeros(n: nat): (z: seq<bv8>)
    ensures |z| == n && forall k :: 0 <= k < n ==> z[k] == 0
  {
    seq(n, _ => 0)
  }

  /** The frame length of n pixels: nine bytes each and the reset delay. */
  function FrameLength(n: int): int {
    n * BytesPerPixel + ResetDelayInBytes
  }

  /**
   * The bytes after SetPixel(i, colors[i]) is called, in index order, for every i below n
   * whose flag is set.
   */
  function Refreshed(d: seq<bv8>, colors: seq<Color>, flags: seq<bool>, n: nat): (r: seq<bv8>)
    requires n <= |colors| && n <= |flags| && n * BytesPerPixel <= |d|
    ensures |r| == |d|
  {
    if n == 0 then d
    else
      var before := Refreshed(d, colors, flags, n - 1);
      if flags[n - 1] then Splice(before, (n - 1) * BytesPerPixel, PixelBytes(colors[n - 1])) else before
  }

  /** Writing slot j's bytes leaves the slots below it and the bytes after it as they were. */
  lemma SpliceSlots(d: seq<bv8>, j: nat, t: seq<bv8>)
    requires |t| == BytesPerPixel && (j + 1) * BytesPerPixel <= |d|
    ensures Slot(Splice(d, j * BytesPerPixel, t), j) == t
    ensures forall i :: 0 <= i < j ==> Slot(Splice(d, j * BytesPerPixel, t), i) == Slot(d, i)
    ensures forall k :: (j + 1) * BytesPerPixel <= k < |d| ==> Splice(d, j * BytesPerPixel, t)[k] == d[k]
  {
    var r := Splice(d, j * BytesPerPixel, t);
    SpliceEffect(d, j * BytesPerPixel, t);
    forall i | 0 <= i < j
      ensures Slot(r, i) == Slot(d, i)
    {
      assert forall k :: i * BytesPerPixel <= k < i * BytesPerPixel + BytesPerPixel ==> r[k] == d[k];
    }
  }

  /**
   * After the refresh every flagged slot below n holds its colour's bytes, every other slot
   * keeps its bytes, and so does everything from slot n on.
   */
  lemma {:induction false} RefreshedSlots(d: seq<bv8>, colors: seq<Color>, flags: seq<bool>, n: nat)
    requires n <= |colors| && n <= |flags| && n * BytesPerPixel <= |d|
    ensures forall i :: 0 <= i < n ==>
      Slot(Refreshed(d, colors, flags, n), i) == if flags[i] then PixelBytes(colors[i]) else Slot(d, i)
    ensures forall k :: n * BytesPerPixel <= k < |d| ==> Refreshed(d, colors, flags, n)[k] == d[k]
  {
    if n > 0 {
      RefreshedSlots(d, colors, flags, n - 1);
      var before := Refreshed(d, colors, flags, n - 1);
      var o := (n - 1) * BytesPerPixel;
      var r := Refreshed(d, colors, flags, n);
      if flags[n - 1] {
        SpliceSlots(before, n - 1, PixelBytes(colors[n - 1]));
      } else {
        RefreshedSkips(d, before, r, o);
      }
      forall i | 0 <= i < n
        ensures Slot(r, i) == if flags[i] then PixelBytes(colors[i]) else Slot(d, i)
      {
        if i < n - 1 {
          assert Slot(r, i) == Slot(before, i);
          assert Slot(before, i) == if flags[i] then PixelBytes(colors[i]) else Slot(d, i);
        } else if flags[i] {
          assert Slot(r, n - 1) == PixelBytes(colors[n - 1]);
        } else {
          assert Slot(r, n - 1) == Slot(d, n - 1);
        }
      }
    }
  }

  /** An unflagged slot is left as the bytes from its offset on already were: as in the start. */
  lemma RefreshedSkips(d: seq<bv8>, before: seq<bv8>, r: seq<bv8>, o: nat)
    requires r == before && |before| == |d| && o + BytesPerPixel <= |d|
    requires forall k :: o <= k < |d| ==> before[k] == d[k]
    ensures before[o..o + BytesPerPixel] == d[o..o + BytesPerPixel]
    ensures forall k :: o + BytesPerPixel <= k < |d| ==> r[k] == d[k]
  {
  }

  /** n copies of one colour. */
  function Repeat(c: Color, n: nat): (r: seq<Color>)
    ensures |r| == n && forall i :: 0 <= i < n ==> r[i] == c
  {
    seq(n, _ => c)
  }

  /** The flags of a refresh that writes every slot. */
  function AllSet(n: nat): (f: seq<bool>)
    ensures |f| == n && forall i :: 0 <= i < n ==> f[i]
  {
    seq(n, _ => true)
  }

  /** The frame of a row of pixels: every slot holds its colour's bytes, then 30 zero bytes. */
  function Frame(colors: seq<Color>): (f: seq<bv8>)
    ensures |f| == FrameLength(|colors|)
  {
    Refreshed(Zeros(FrameLength(|colors|)), colors, AllSet(|colors|), |colors|)
  }

  /** Every slot of a frame decodes to its pixel's channels, and the reset bytes are zero. */
  lemma FrameDecodes(colors: seq<Color>)
    ensures forall i :: 0 <= i < |colors| ==> Slot(Frame(colors), i) == PixelBytes(colors[i])
    ensures forall i :: 0 <= i < |colors| ==> DecodePixel(Slot(Frame(colors), i)) == (R(colors[i]), G(colors[i]), B(colors[i]))
    ensures forall k :: |colors| * BytesPerPixel <= k < FrameLength(|colors|) ==> Frame(colors)[k] == 0
  {
    RefreshedSlots(Zeros(FrameLength(|colors|)), colors, AllSet(|colors|), |colors|);
    forall i | 0 <= i < |colors|
      ensures DecodePixel(Slot(Frame(colors), i)) == (R(colors[i]), G(colors[i]), B(colors[i]))
    {
      PixelRoundTrip(colors[i]);
    }
  }

  /**
   * A buffer that has the frame's length, zero reset bytes and, in every slot, its colour's
   * bytes is the frame of those colours.
   */
  lemma FrameUnique(d: seq<bv8>, colors: seq<Color>)
    requires |d| == FrameLength(|colors|)
    requires forall i :: 0 <= i < |colors| ==> Slot(d, i) == PixelBytes(colors[i])
    requires forall k :: |colors| * BytesPerPixel <= k < |d| ==> d[k] == 0
    ensures d == Frame(colors)
  {
    FrameDecodes(colors);
    SlotsDetermine(d, Frame(colors), |colors|);
  }

  /** Two buffers of one length that agree on slots 0 to n - 1 and on every later byte are equal. */
  lemma SlotsDetermine(d: seq<bv8>, e: seq<bv8>, n: nat)
    requires |d| == |e| && n * BytesPerPixel <= |d|
    requires forall i :: 0 <= i < n ==> Slot(d, i) == Slot(e, i)
    requires forall k :: n * BytesPerPixel <= k < |d| ==> d[k] == e[k]
    ensures d == e
  {
    forall k | 0 <= k < n * BytesPerPixel
      ensures d[k] == e[k]
    {
      var i := k / BytesPerPixel;
      var j := k % BytesPerPixel;
      assert k == i * BytesPerPixel + j && 0 <= j < BytesPerPixel && 0 <= i < n;
      SlotByte(d, i, j);
      SlotByte(e, i, j);
    }
  }

  /** Byte j of slot i is byte 9i + j of the buffer. */
  lemma SlotByte(d: seq<bv8>, i: nat, j: nat)
    requires i * BytesPerPixel + BytesPerPixel <= |d| && j < BytesPerPixel
    ensures Slot(d, i)[j] == d[i * BytesPerPixel + j]
  {
  }

  /**
   * d is before after the first i slots were refreshed: each of them holds its colour's bytes
   * if its flag is set and its old bytes otherwise, and every byte from slot i on is as it was.
   */
  predicate RefreshedUpTo(d: seq<bv8>, before: seq<bv8>, colors: seq<Color>, flags: seq<bool>, i: nat) {
    && |d| == |before| && i <= |colors| && i <= |flags| && i * BytesPerPixel <= |d|
    && (forall k :: 0 <= k < i ==> Slot(d, k) == if flags[k] then PixelBytes(colors[k]) else Slot(before, k))
    && (forall b :: i * BytesPerPixel <= b < |d| ==> d[b] == before[b])
  }

  /** Writing a flagged slot i extends the refreshed prefix by one slot. */
  lemma RefreshWrite(d: seq<bv8>, before: seq<bv8>, colors: seq<Color>, flags: seq<bool>, i: nat)
    requires RefreshedUpTo(d, before, colors, flags, i) && i < |colors| && i < |flags| && flags[i]
    requires (i + 1) * BytesPerPixel <= |d|
    ensures RefreshedUpTo(Splice(d, i * BytesPerPixel, PixelBytes(colors[i])), before, colors, flags, i + 1)
  {
    var o := i * BytesPerPixel;
    var r := Splice(d, o, PixelBytes(colors[i]));
    SpliceEffect(d, o, PixelBytes(colors[i]));
    assert r[..o] == d[..o];
    forall k | 0 <= k < i
      ensures Slot(r, k) == Slot(d, k)
    {
      assert Slot(r, k) == r[..o][k * BytesPerPixel..k * BytesPerPixel + BytesPerPixel];
      assert Slot(d, k) == d[..o][k * BytesPerPixel..k * BytesPerPixel + BytesPerPixel];
    }
  }

  /** Passing over an unflagged slot i extends the refreshed prefix by one slot. */
  lemma RefreshSkip(d: seq<bv8>, before: seq<bv8>, colors: seq<Color>, flags: seq<bool>, i: nat)
    requires RefreshedUpTo(d, before, colors, flags, i) && i < |colors| && i < |flags| && !flags[i]
    requires (i + 1) * BytesPerPixel <= |d|
    ensures RefreshedUpTo(d, before, colors, flags, i + 1)
  {
    var o := i * BytesPerPixel;
    assert d[o..o + BytesPerPixel] == before[o..o + BytesPerPixel];
  }
}
