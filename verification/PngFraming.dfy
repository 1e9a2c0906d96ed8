/** The PNG writer of the sprite generator, and a reader that undoes it. */
module Png {
  import opened Prelude

  const TWO32: nat := 0x1_0000_0000
  const SIGNATURE: seq<Byte> := [0x89, 0x50, 0x4E, 0x47, 0x0D, 0x0A, 0x1A, 0x0A]
  const IHDR: seq<Byte> := [0x49, 0x48, 0x44, 0x52]
  const IDAT: seq<Byte> := [0x49, 0x44, 0x41, 0x54]
  const IEND: seq<Byte> := [0x49, 0x45, 0x4E, 0x44]

  /** The zlib library: checksum and compression, with inflation as the inverse. */
  datatype Zlib = Zlib(crc32: seq<Byte> -> nat, compress: seq<Byte> -> seq<Byte>,
                       inflate: seq<Byte> -> Option<seq<Byte>>)
  {
    ghost predicate Sound() {
      forall d :: inflate(compress(d)) == Some(d)
    }
  }

  function Bytes32(n: nat): (b: seq<Byte>)
    requires n < TWO32
    ensures |b| == 4
  {
    [n / 0x100_0000, n / 0x1_0000 % 0x100, n / 0x100 % 0x100, n % 0x100]
  }

  function Number32(b: seq<Byte>): (n: nat)
    requires |b| == 4
    ensures n < TWO32
  {
    var top: int, high: int, low: int, bottom: int := b[0], b[1], b[2], b[3];
    top * 0x100_0000 + high * 0x1_0000 + low * 0x100 + bottom
  }

  lemma {:induction false} NumberOfBytes(n: nat)
    requires n < TWO32
    ensures Number32(Bytes32(n)) == n
  {
    var a, b, c := n / 0x100, n / 0x1_0000, n / 0x100_0000;
    assert n == a * 0x100 + n % 0x100;
    assert a == b * 0x100 + a % 0x100;
    assert b == c * 0x100 + b % 0x100;
    assert n / 0x100 / 0x100 == b && b / 0x100 == c;
  }

  // ------------------------------------------------------------ writing

  function Chunk(z: Zlib, tag: seq<Byte>, d: seq<Byte>): seq<Byte>
    requires |d| < TWO32
  {
    Bytes32(|d|) + tag + d + Bytes32(z.crc32(tag + d) % TWO32)
  }

  /** Python's clamped slice. */
  function Slice(d: seq<Byte>, lo: nat, hi: nat): seq<Byte>
    requires lo <= hi
  {
    d[Min(lo, |d|)..Min(hi, |d|)]
  }

  /** Where row `y` starts in the pixel buffer. */
  function Start(w: nat, y: nat): nat {
    y * w * 4
  }

  /** The scanlines from row `y` on, each behind filter byte zero. */
  function Scanlines(w: nat, h: nat, y: nat, data: seq<Byte>): seq<Byte>
    requires y <= h
    decreases h - y
  {
    if y == h then []
    else [0] + Slice(data, Start(w, y), Start(w, y) + w * 4) + Scanlines(w, h, y + 1, data)
  }

  function Header(w: nat, h: nat): (b: seq<Byte>)
    requires w < TWO32 && h < TWO32
    ensures |b| == 13
  {
    Bytes32(w) + Bytes32(h) + [8, 6, 0, 0, 0]
  }

  /** The encoder; it fails when a length does not fit its four-byte field. */
  function EncodePng(z: Zlib, w: nat, h: nat, data: seq<Byte>): Option<seq<Byte>> {
    var packed := z.compress(Scanlines(w, h, 0, data));
    if w >= TWO32 || h >= TWO32 || |packed| >= TWO32 then None
    else Some(SIGNATURE + Chunk(z, IHDR, Header(w, h)) + Chunk(z, IDAT, packed) + Chunk(z, IEND, []))
  }

  // ------------------------------------------------------------ what is written, byte for byte

  /** A big-endian number: the first byte weighs most. */
  lemma {:induction false} BytesAreBigEndian(n: nat)
    requires n < TWO32
    ensures var b := Bytes32(n);
            && n == b[0] as int * 0x100_0000 + b[1] as int * 0x1_0000 + b[2] as int * 0x100 + b[3] as int
  {
    NumberOfBytes(n);
  }

  /** The file opens with the signature and the header of an eight-bit RGBA image, and ends with an empty end chunk. */
  lemma {:induction false} OpensAndEnds(z: Zlib, w: nat, h: nat, data: seq<Byte>)
    requires EncodePng(z, w, h, data).Some?
    ensures var b := EncodePng(z, w, h, data).value;
            && w < TWO32 && h < TWO32 && |b| >= 45
            && b[..8] == [0x89, 0x50, 0x4E, 0x47, 0x0D, 0x0A, 0x1A, 0x0A]
            && b[8..16] == [0, 0, 0, 13, 0x49, 0x48, 0x44, 0x52]
            && b[16..20] == Bytes32(w) && b[20..24] == Bytes32(h) && b[24..29] == [8, 6, 0, 0, 0]
            && b[29..33] == Bytes32(z.crc32(b[12..29]) % TWO32)
            && b[|b| - 12..|b| - 4] == [0, 0, 0, 0, 0x49, 0x45, 0x4E, 0x44]
            && b[|b| - 4..] == Bytes32(z.crc32([0x49, 0x45, 0x4E, 0x44]) % TWO32)
  {
    hide Scanlines, Bytes32, Chunk, Header;
    var packed := z.compress(Scanlines(w, h, 0, data));
    var first, middle, last := Chunk(z, IHDR, Header(w, h)), Chunk(z, IDAT, packed), Chunk(z, IEND, []);
    var b := EncodePng(z, w, h, data).value;
    assert b == SIGNATURE + first + middle + last;
    HeaderChunk(z, w, h);
    EndChunk(z);
    assert |first| == 25 && |last| == 12;
    assert b[8..33] == first && b[|b| - 12..] == last;
    assert b[8..16] == first[..8] && b[16..20] == first[8..12] && b[20..24] == first[12..16];
    assert b[24..29] == first[16..21] && b[29..33] == first[21..] && b[12..29] == first[4..21];
    assert b[|b| - 12..|b| - 4] == last[..8] && b[|b| - 4..] == last[8..];
  }

  lemma {:induction false} HeaderChunk(z: Zlib, w: nat, h: nat)
    requires w < TWO32 && h < TWO32
    ensures var c := Chunk(z, IHDR, Header(w, h));
            && |c| == 25 && c[..8] == [0, 0, 0, 13, 0x49, 0x48, 0x44, 0x52]
            && c[8..12] == Bytes32(w) && c[12..16] == Bytes32(h) && c[16..21] == [8, 6, 0, 0, 0]
            && c[21..] == Bytes32(z.crc32(c[4..21]) % TWO32)
  {
    var length := Bytes32(13);
    assert length == [0, 0, 0, 13];
    hide Bytes32;
    var c, d := Chunk(z, IHDR, Header(w, h)), Header(w, h);
    assert c[..4] == length && c[4..8] == IHDR && c[8..21] == d && c[4..21] == IHDR + d;
    assert c[..8] == c[..4] + c[4..8];
    assert d[..4] == Bytes32(w) && d[4..8] == Bytes32(h) && d[8..] == [8, 6, 0, 0, 0];
    assert c[8..12] == d[..4] && c[12..16] == d[4..8] && c[16..21] == d[8..];
  }

  lemma {:induction false} EndChunk(z: Zlib)
    ensures var c := Chunk(z, IEND, []);
            && |c| == 12 && c[..8] == [0, 0, 0, 0, 0x49, 0x45, 0x4E, 0x44]
            && c[8..] == Bytes32(z.crc32([0x49, 0x45, 0x4E, 0x44]) % TWO32)
  {
    assert Bytes32(0) == [0, 0, 0, 0];
    hide Bytes32;
    var c := Chunk(z, IEND, []);
    assert IEND + [] == IEND && c[..4] == Bytes32(0) && c[4..8] == IEND && c[..8] == c[..4] + c[4..8];
  }

  /** The first scanline is a zero byte and the first row of pixels, from the row asked for. */
  lemma {:induction false} FirstScanline(w: nat, h: nat, y: nat, data: seq<Byte>)
    requires y < h && Start(w, y) + w * 4 <= |data|
    ensures [0] + data[y * w * 4..y * w * 4 + w * 4] + Scanlines(w, h, y + 1, data) == Scanlines(w, h, y, data)
  {
  }

  // ------------------------------------------------------------ reading

  datatype Read = Read(tag: seq<Byte>, body: seq<Byte>, rest: seq<Byte>)

  /** One chunk off the front, if it is complete and its checksum holds. */
  function ReadChunk(z: Zlib, b: seq<Byte>): (r: Option<Read>)
    ensures r.Some? ==> |r.value.rest| < |b|
  {
    if |b| < 12 then None
    else
      var n := Number32(b[..4]);
      if |b| < 12 + n then None
      else
        var tag, body, sum := b[4..8], b[8..8 + n], b[8 + n..12 + n];
        if Number32(sum) != z.crc32(tag + body) % TWO32 then None
        else Some(Read(tag, body, b[12 + n..]))
  }

  /** The joined image data of the chunks up to an empty IEND that ends the file. */
  function ReadImageData(z: Zlib, b: seq<Byte>): Option<seq<Byte>>
    decreases |b|
  {
    match ReadChunk(z, b)
    case None => None
    case Some(Read(tag, body, rest)) =>
      if tag == IEND then (if body == [] && rest == [] then Some([]) else None)
      else if tag != IDAT then None
      else match ReadImageData(z, rest)
        case None => None
        case Some(more) => Some(body + more)
  }

  /** The pixels of `h` unfiltered scanlines. */
  function Pixels(w: nat, h: nat, raw: seq<Byte>): Option<seq<Byte>>
    decreases h
  {
    if h == 0 then (if raw == [] then Some([]) else None)
    else if |raw| < 1 + 4 * w || raw[0] != 0 then None
    else match Pixels(w, h - 1, raw[1 + 4 * w..])
      case None => None
      case Some(more) => Some(raw[1..1 + 4 * w] + more)
  }

  datatype Image = Image(w: nat, h: nat, data: seq<Byte>)

  /** A decoder of eight-bit RGBA images without filters or interlacing. */
  function DecodePng(z: Zlib, b: seq<Byte>): Option<Image> {
    if !(SIGNATURE <= b) then None
    else match ReadChunk(z, b[8..])
      case None => None
      case Some(Read(tag, body, rest)) =>
        if tag != IHDR || |body| != 13 || body[8..] != [8, 6, 0, 0, 0] then None
        else
          var w, h := Number32(body[..4]), Number32(body[4..8]);
          match ReadImageData(z, rest)
          case None => None
          case Some(packed) =>
            match z.inflate(packed)
            case None => None
            case Some(raw) =>
              match Pixels(w, h, raw)
              case None => None
              case Some(data) => Some(Image(w, h, data))
  }

  // ------------------------------------------------------------ the round trip

  lemma {:induction false} ReadsItsChunk(z: Zlib, tag: seq<Byte>, d: seq<Byte>, rest: seq<Byte>)
    requires |tag| == 4 && |d| < TWO32
    ensures ReadChunk(z, Chunk(z, tag, d) + rest) == Some(Read(tag, d, rest))
  {
    var sum := z.crc32(tag + d) % TWO32;
    NumberOfBytes(|d|);
    NumberOfBytes(sum);
    var b := Chunk(z, tag, d) + rest;
    FiveParts(Bytes32(|d|), tag, d, Bytes32(sum), rest);
  }

  lemma FiveParts(n: seq<Byte>, tag: seq<Byte>, d: seq<Byte>, sum: seq<Byte>, rest: seq<Byte>)
    requires |n| == |tag| == |sum| == 4
    ensures var b := n + tag + d + sum + rest;
            && |b| == 12 + |d| + |rest|
            && b[..4] == n && b[4..8] == tag && b[8..8 + |d|] == d
            && b[8 + |d|..12 + |d|] == sum && b[12 + |d|..] == rest
  {
  }

  lemma {:induction false} ReadsItsImageData(z: Zlib, packed: seq<Byte>)
    requires |packed| < TWO32
    ensures ReadImageData(z, Chunk(z, IDAT, packed) + Chunk(z, IEND, [])) == Some(packed)
  {
    hide Chunk, ReadChunk;
    ReadsItsChunk(z, IDAT, packed, Chunk(z, IEND, []));
    ReadsItsChunk(z, IEND, [], []);
    assert Chunk(z, IEND, []) + [] == Chunk(z, IEND, []);
    assert ReadImageData(z, Chunk(z, IEND, [])) == Some([]);
    assert packed + [] == packed;
  }

  lemma {:induction false} NextStart(w: nat, y: nat)
    ensures Start(w, y + 1) == Start(w, y) + w * 4
    ensures w == 0 ==> Start(w, y) == 0
  {
    assert (y + 1) * w == y * w + w;
  }

  lemma FirstStart(w: nat)
    ensures Start(w, 0) == 0
  {
  }

  lemma {:induction false} StartsGrow(w: nat, y: nat, h: nat)
    requires y <= h
    ensures Start(w, y) <= Start(w, h)
  {
    assert y * w <= h * w;
  }

  lemma RowFirst(row: seq<Byte>, rest: seq<Byte>)
    ensures var raw := [0] + row + rest;
            raw[0] == 0 && raw[1..1 + |row|] == row && raw[1 + |row|..] == rest
  {
  }

  lemma NeighbouringSlices(data: seq<Byte>, lo: nat, mid: nat, hi: nat)
    requires lo <= mid <= hi <= |data|
    ensures data[lo..mid] + data[mid..hi] == data[lo..hi]
  {
  }

  lemma {:induction false} OneRow(w: nat, h: nat, row: seq<Byte>, rest: seq<Byte>)
    requires |row| == 4 * w
    ensures Pixels(w, h + 1, [0] + row + rest) ==
            match Pixels(w, h, rest) case None => None case Some(more) => Some(row + more)
  {
    RowFirst(row, rest);
  }

  /** With all its rows present, the scanlines give back the pixels. */
  lemma {:induction false} PixelsOfScanlines(w: nat, h: nat, y: nat, data: seq<Byte>)
    requires y <= h && Start(w, h) <= |data|
    ensures Start(w, y) <= Start(w, h)
    ensures Pixels(w, h - y, Scanlines(w, h, y, data)) == Some(data[Start(w, y)..Start(w, h)])
    decreases h - y
  {
    hide Start;
    StartsGrow(w, y, h);
    if y == h {
      assert data[Start(w, y)..Start(w, h)] == [];
    } else {
      hide Pixels;
      NextStart(w, y);
      StartsGrow(w, y + 1, h);
      PixelsOfScanlines(w, h, y + 1, data);
      OneRow(w, h - y - 1, Slice(data, Start(w, y), Start(w, y + 1)), Scanlines(w, h, y + 1, data));
      NeighbouringSlices(data, Start(w, y), Start(w, y + 1), Start(w, h));
    }
  }

  /** Row `y` and those below it take at least one byte each, and no more than a full row. */
  lemma {:induction false} ScanlinesLength(w: nat, h: nat, y: nat, data: seq<Byte>)
    requires y <= h
    ensures |Scanlines(w, h, y, data)| <= h - y + Start(w, h) - Start(w, y)
    ensures |data| < Start(w, h) && y < h ==> |Scanlines(w, h, y, data)| < h - y + Start(w, h) - Start(w, y)
    decreases h - y
  {
    hide Start;
    if y < h {
      NextStart(w, y);
      ScanlinesLength(w, h, y + 1, data);
    }
  }

  lemma {:induction false} PixelsNeedLength(w: nat, h: nat, raw: seq<Byte>)
    ensures Pixels(w, h, raw).Some? ==> |raw| == h + Start(w, h)
    decreases h
  {
    hide Start;
    if h == 0 {
      FirstStart(w);
    } else if |raw| >= 1 + 4 * w {
      NextStart(w, h - 1);
      PixelsNeedLength(w, h - 1, raw[1 + 4 * w..]);
    }
  }

  /** What reading the scanlines of a buffer gives: its first `4 * w * h` bytes, if it has them. */
  function Kept(w: nat, h: nat, data: seq<Byte>): Option<seq<Byte>> {
    if Start(w, h) <= |data| then Some(data[..Start(w, h)]) else None
  }

  lemma {:induction false} PixelsKept(w: nat, h: nat, data: seq<Byte>)
    ensures Pixels(w, h, Scanlines(w, h, 0, data)) == Kept(w, h, data)
  {
    hide Pixels, Scanlines;
    assert Start(w, 0) == 0;
    if Start(w, h) <= |data| {
      PixelsOfScanlines(w, h, 0, data);
    } else {
      ScanlinesLength(w, h, 0, data);
      PixelsNeedLength(w, h, Scanlines(w, h, 0, data));
    }
  }

  /**
   * Decoding undoes encoding: the reader gives back the size and the first
   * `4 * w * h` bytes, and nothing at all when there were fewer.
   */
  lemma {:induction false} RoundTrip(z: Zlib, w: nat, h: nat, data: seq<Byte>)
    requires z.Sound() && EncodePng(z, w, h, data).Some?
    ensures DecodePng(z, EncodePng(z, w, h, data).value) ==
            match Kept(w, h, data) case None => None case Some(pixels) => Some(Image(w, h, pixels))
  {
    hide Chunk, ReadChunk, ReadImageData, Scanlines, Pixels, Header, Kept;
    var packed := z.compress(Scanlines(w, h, 0, data));
    var image := Chunk(z, IDAT, packed) + Chunk(z, IEND, []);
    var body := Chunk(z, IHDR, Header(w, h)) + image;
    AfterSignature(Chunk(z, IHDR, Header(w, h)), Chunk(z, IDAT, packed), Chunk(z, IEND, []));
    assert EncodePng(z, w, h, data).value == SIGNATURE + body;
    HeaderParts(w, h);
    ReadsItsChunk(z, IHDR, Header(w, h), image);
    ReadsItsImageData(z, packed);
    PixelsKept(w, h, data);
  }

  lemma AfterSignature(a: seq<Byte>, b: seq<Byte>, c: seq<Byte>)
    ensures SIGNATURE + a + b + c == SIGNATURE + (a + (b + c))
    ensures (SIGNATURE + (a + (b + c)))[8..] == a + (b + c)
    ensures SIGNATURE <= SIGNATURE + (a + (b + c))
  {
  }

  lemma HeaderParts(w: nat, h: nat)
    requires w < TWO32 && h < TWO32
    ensures var b := Header(w, h);
            Number32(b[..4]) == w && Number32(b[4..8]) == h && b[8..] == [8, 6, 0, 0, 0]
  {
    NumberOfBytes(w);
    NumberOfBytes(h);
    var b := Header(w, h);
    assert b[..4] == Bytes32(w) && b[4..8] == Bytes32(h);
  }

  /** The image comes back unchanged exactly when the buffer has the size the header declares. */
  lemma {:induction false} UnchangedIffSized(z: Zlib, w: nat, h: nat, data: seq<Byte>)
    requires z.Sound() && EncodePng(z, w, h, data).Some?
    ensures DecodePng(z, EncodePng(z, w, h, data).value) == Some(Image(w, h, data)) <==> |data| == Start(w, h)
  {
    hide DecodePng, EncodePng, Start;
    RoundTrip(z, w, h, data);
    if |data| == Start(w, h) {
      assert data[..Start(w, h)] == data;
    }
  }
}
