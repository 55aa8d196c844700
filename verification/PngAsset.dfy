/** The chunk walk of decodePng and the verdict of inspectAsset, scripts/check-listing-asset.ts. */
module PngAsset {
  import opened Wrappers
  import opened Slices
  import opened PngFilter

  // ---------------------------------------------------------------- chunks

  const MAGIC: seq<Byte> := [0x89, 0x50, 0x4e, 0x47, 0x0d, 0x0a, 0x1a, 0x0a]
  const IHDR: seq<Byte> := [0x49, 0x48, 0x44, 0x52]
  const IDAT: seq<Byte> := [0x49, 0x44, 0x41, 0x54]
  const IEND: seq<Byte> := [0x49, 0x45, 0x4e, 0x44]

  datatype DecodeError =
    | NotPng
    | OutOfRange
    | UnsupportedFormat(bitDepth: Option<Byte>, colourType: Option<Byte>)
    | Interlaced
    | InflateFailed
    | UnknownFilter(row: nat)

  /** What the walk has seen so far. A missing byte of a short header is `undefined`. */
  datatype Seen = Seen(
    width: nat, height: nat,
    bitDepth: Option<Byte>, colourType: Option<Byte>, interlace: Option<Byte>,
    idat: seq<seq<Byte>>)

  const NOTHING := Seen(0, 0, Some(0), Some(0), Some(0), [])

  function U32(b: seq<Byte>): (n: nat)
    requires |b| == 4
    ensures n < 0x1_0000_0000
  {
    (((b[0] as int) * 256 + b[1]) * 256 + b[2]) * 256 + b[3]
  }

  function U32Bytes(n: nat): (b: seq<Byte>)
    requires n < 0x1_0000_0000
    ensures |b| == 4 && U32(b) == n
  {
    var high := n / 256;
    var higher := high / 256;
    [higher / 256, higher % 256, high % 256, n % 256]
  }

  /** Buffer.toString("ascii") drops the high bit of every byte. */
  function Ascii(b: seq<Byte>): seq<Byte> {
    seq(|b|, i requires 0 <= i < |b| => b[i] % 128)
  }

  function ByteAt(b: seq<Byte>, i: nat): Option<Byte> {
    if i < |b| then Some(b[i]) else None
  }

  /** The effect of one chunk that is not IEND; a header too short for its two sizes throws. */
  function Absorb(seen: Seen, kind: seq<Byte>, body: seq<Byte>): Option<Seen> {
    if kind == IHDR then
      if |body| < 8 then None
      else Some(seen.(width := U32(body[..4]), height := U32(body[4..8]),
                      bitDepth := ByteAt(body, 8), colourType := ByteAt(body, 9), interlace := ByteAt(body, 12)))
    else if kind == IDAT then Some(seen.(idat := seen.idat + [body]))
    else Some(seen)
  }

  /** The walk from an offset to IEND or to the end of the data; None when a read runs off the end. */
  function Walk(data: seq<Byte>, offset: nat, seen: Seen): Option<Seen>
    decreases if offset <= |data| then |data| - offset else 0
  {
    if offset >= |data| then Some(seen)
    else if offset + 4 > |data| then None
    else
      var length := U32(data[offset..offset + 4]);
      var kind := Ascii(Subarray(data, offset + 4, offset + 8));
      if kind == IEND then Some(seen)
      else
        match Absorb(seen, kind, Subarray(data, offset + 8, offset + 8 + length))
        case None => None
        case Some(next) => Walk(data, offset + 12 + length, next)
  }

  /** A chunk as a writer lays it out; the walk never looks at the check sum. */
  datatype Chunk = Chunk(kind: seq<Byte>, body: seq<Byte>, crc: seq<Byte>)

  predicate WellFormed(c: Chunk) {
    |c.kind| == 4 && |c.crc| == 4 && |c.body| < 0x1_0000_0000
  }

  function Serialize(c: Chunk): (s: seq<Byte>)
    requires WellFormed(c)
    ensures |s| == 12 + |c.body|
  {
    U32Bytes(|c.body|) + c.kind + c.body + c.crc
  }

  function SerializeAll(cs: seq<Chunk>): seq<Byte>
    requires forall c <- cs :: WellFormed(c)
  {
    if cs == [] then [] else Serialize(cs[0]) + SerializeAll(cs[1..])
  }

  /** What a list of chunks amounts to, with no bytes or offsets in sight. */
  function Summary(cs: seq<Chunk>, seen: Seen): Option<Seen> {
    if cs == [] then Some(seen)
    else
      match Absorb(seen, Ascii(cs[0].kind), cs[0].body)
      case None => None
      case Some(next) => Summary(cs[1..], next)
  }

  lemma SerializedParts(data: seq<Byte>, at: nat, c: Chunk)
    requires WellFormed(c) && at + 12 + |c.body| <= |data| && data[at..at + 12 + |c.body|] == Serialize(c)
    ensures U32(data[at..at + 4]) == |c.body|
    ensures Subarray(data, at + 4, at + 8) == c.kind
    ensures Subarray(data, at + 8, at + 8 + |c.body|) == c.body
  {
    var s := Serialize(c);
    SliceWithin(data, at, s, 0, 4);
    SliceWithin(data, at, s, 4, 8);
    SliceWithin(data, at, s, 8, 8 + |c.body|);
    assert s[0..4] == U32Bytes(|c.body|) && s[4..8] == c.kind && s[8..8 + |c.body|] == c.body;
  }

  lemma WalkOverChunk(data: seq<Byte>, at: nat, c: Chunk, seen: Seen)
    requires WellFormed(c) && Ascii(c.kind) != IEND
    requires at + 12 + |c.body| <= |data| && data[at..at + 12 + |c.body|] == Serialize(c)
    ensures Walk(data, at, seen)
            == match Absorb(seen, Ascii(c.kind), c.body)
               case None => None
               case Some(next) => Walk(data, at + 12 + |c.body|, next)
  {
    hide Absorb, U32, U32Bytes, Ascii, Serialize;
    SerializedParts(data, at, c);
  }

  /** Walking over serialised chunks is folding over the chunks, whatever bytes surround them. */
  lemma {:induction false} WalkFolds(before: seq<Byte>, cs: seq<Chunk>, after: seq<Byte>, seen: Seen)
    requires forall c <- cs :: WellFormed(c) && Ascii(c.kind) != IEND
    ensures Walk(before + SerializeAll(cs) + after, |before|, seen)
            == match Summary(cs, seen)
               case None => None
               case Some(last) => Walk(before + SerializeAll(cs) + after, |before| + |SerializeAll(cs)|, last)
    decreases |cs|
  {
    hide Absorb, U32, U32Bytes, Ascii, Serialize, Walk;
    if cs != [] {
      var c, rest := cs[0], SerializeAll(cs[1..]);
      assert c in cs;
      var data := before + SerializeAll(cs) + after;
      assert data == before + Serialize(c) + (rest + after);
      assert data == (before + Serialize(c)) + rest + after;
      WindowAfter(before, Serialize(c), rest + after);
      WalkOverChunk(data, |before|, c, seen);
      var next := Absorb(seen, Ascii(c.kind), c.body);
      if next.Some? {
        WalkFolds(before + Serialize(c), cs[1..], after, next.value);
      }
    }
  }

  /** A file of chunks up to IEND, with anything at all after it, is read as its chunks. */
  lemma WalkReadsFile(cs: seq<Chunk>, end: Chunk, tail: seq<Byte>)
    requires forall c <- cs :: WellFormed(c) && Ascii(c.kind) != IEND
    requires WellFormed(end) && Ascii(end.kind) == IEND
    ensures Walk(MAGIC + SerializeAll(cs) + (Serialize(end) + tail), |MAGIC|, NOTHING) == Summary(cs, NOTHING)
  {
    hide Absorb, Ascii, Summary, Serialize, SerializeAll, Walk;
    var before := MAGIC + SerializeAll(cs);
    var data := before + (Serialize(end) + tail);
    WalkFolds(MAGIC, cs, Serialize(end) + tail, NOTHING);
    assert data == before + Serialize(end) + tail;
    WindowAfter(before, Serialize(end), tail);
    if Summary(cs, NOTHING).Some? { WalkStops(data, |before|, end, Summary(cs, NOTHING).value); }
  }

  lemma WalkStops(data: seq<Byte>, at: nat, c: Chunk, seen: Seen)
    requires WellFormed(c) && Ascii(c.kind) == IEND
    requires at + 12 + |c.body| <= |data| && data[at..at + 12 + |c.body|] == Serialize(c)
    ensures Walk(data, at, seen) == Some(seen)
  {
    hide Absorb, U32, U32Bytes, Ascii, Serialize;
    SerializedParts(data, at, c);
  }

  // ---------------------------------------------------------------- decoding a file

  datatype Png = Png(width: nat, height: nat, pixels: seq<Byte>)

  type Inflate = seq<Byte> -> Option<seq<Byte>>

  /** What decodePng returns or throws, for any inflate. */
  function Decoded(data: seq<Byte>, inflate: Inflate): (r: Result<Png, DecodeError>)
    ensures r.Ok? ==> |r.value.pixels| == Start(r.value.height, r.value.width * 4)
  {
    if Subarray(data, 0, 8) != MAGIC then Err(NotPng)
    else
      match Walk(data, 8, NOTHING)
      case None => Err(OutOfRange)
      case Some(seen) =>
        if seen.bitDepth != Some(8) || seen.colourType != Some(6) then
          Err(UnsupportedFormat(seen.bitDepth, seen.colourType))
        else if seen.interlace != Some(0) then Err(Interlaced)
        else
          match inflate(Flatten(seen.idat))
          case None => Err(InflateFailed)
          case Some(raw) =>
            match FirstBadRow(raw, seen.width * 4, seen.height)
            case Some(y) => Err(UnknownFilter(y))
            case None =>
              FlattenedSize(ReconRows(raw, seen.width * 4, seen.height), seen.width * 4);
              Ok(Png(seen.width, seen.height, Flatten(ReconRows(raw, seen.width * 4, seen.height))))
  }

  lemma FlattenedSize(rows: seq<seq<Byte>>, unit: nat)
    requires Uniform(rows, unit)
    ensures |Flatten(rows)| == Start(|rows|, unit)
  {
    FlattenRow(rows, unit, 0);
  }

  /** The first row whose filter byte is missing or unknown. */
  function FirstBadRow(raw: seq<Byte>, stride: nat, n: nat): (r: Option<nat>)
    ensures r.None? ==> Decodes(raw, stride, n)
    ensures r.Some? ==> r.value < n && Decodes(raw, stride, r.value) && !RowDecodes(raw, stride, r.value)
  {
    if n == 0 then None
    else
      match FirstBadRow(raw, stride, n - 1)
      case Some(y) => Some(y)
      case None => if RowDecodes(raw, stride, n - 1) then None else Some(n - 1)
  }

  lemma {:induction false} FirstBadRowIsFirst(raw: seq<Byte>, stride: nat, n: nat, y: nat)
    requires y < n && Decodes(raw, stride, y) && !RowDecodes(raw, stride, y)
    ensures FirstBadRow(raw, stride, n) == Some(y)
  {
    if y < n - 1 {
      FirstBadRowIsFirst(raw, stride, n - 1, y);
    }
  }

  /** The chunk loop: from the magic to IEND or to the end of the data. */
  method WalkChunks(data: seq<Byte>) returns (r: Option<Seen>)
    ensures r == Walk(data, 8, NOTHING)
  {
    hide Absorb, Subarray, U32, Ascii;
    var seen, offset := NOTHING, 8;
    while offset < |data|
      invariant Walk(data, 8, NOTHING) == Walk(data, offset, seen)
    {
      if offset + 4 > |data| {
        return None;
      }
      var length := U32(data[offset..offset + 4]);
      var kind := Ascii(Subarray(data, offset + 4, offset + 8));
      if kind == IEND {
        break;
      }
      var next := Absorb(seen, kind, Subarray(data, offset + 8, offset + 8 + length));
      if next.None? {
        return None;
      }
      seen := next.value;
      offset := offset + 12 + length;
    }
    return Some(seen);
  }

  /** decodePng: walk the chunks, refuse what is not 8-bit RGBA, inflate, undo the filters in place. */
  method DecodePng(data: seq<Byte>, inflate: Inflate) returns (r: Result<Png, DecodeError>)
    ensures r == Decoded(data, inflate)
  {
    hide Walk, ReconRows, Flatten, RowDecodes;
    if Subarray(data, 0, 8) != MAGIC {
      return Err(NotPng);
    }
    var walked := WalkChunks(data);
    if walked.None? {
      return Err(OutOfRange);
    }
    var seen := walked.value;
    if seen.bitDepth != Some(8) || seen.colourType != Some(6) {
      return Err(UnsupportedFormat(seen.bitDepth, seen.colourType));
    }
    if seen.interlace != Some(0) {
      return Err(Interlaced);
    }
    var raw := inflate(Flatten(seen.idat));
    if raw.None? {
      return Err(InflateFailed);
    }
    var stride := seen.width * 4;
    var pixels, badRow := Unfilter(raw.value, stride, seen.height);
    match badRow {
      case Some(y) =>
        FirstBadRowIsFirst(raw.value, stride, seen.height, y);
        return Err(UnknownFilter(y));
      case None =>
        return Ok(Png(seen.width, seen.height, pixels[..]));
    }
  }

  /** End to end: any file whose chunks carry an 8-bit RGBA header and, split over IDAT chunks in any
      way, a stream that inflates to some filtering of the image, decodes to exactly that image. */
  lemma DecodeInvertsEncode(
      rows: seq<seq<Byte>>, width: nat, filters: seq<Filter>, inflate: Inflate,
      cs: seq<Chunk>, end: Chunk, tail: seq<Byte>)
    requires Uniform(rows, width * 4) && |filters| == |rows|
    requires forall c <- cs :: WellFormed(c) && Ascii(c.kind) != IEND
    requires WellFormed(end) && Ascii(end.kind) == IEND
    requires Summary(cs, NOTHING).Some?
    requires var seen := Summary(cs, NOTHING).value;
             && seen == Seen(width, |rows|, Some(8), Some(6), Some(0), seen.idat)
             && inflate(Flatten(seen.idat)) == Some(FilterImage(rows, width * 4, filters))
    ensures Decoded(MAGIC + SerializeAll(cs) + (Serialize(end) + tail), inflate)
            == Ok(Png(width, |rows|, Flatten(rows)))
  {
    hide Walk, ReconRows, FilterImage, Flatten, Summary, RowDecodes;
    var data := MAGIC + SerializeAll(cs) + (Serialize(end) + tail);
    assert data[0..8] == MAGIC;
    WalkReadsFile(cs, end, tail);
    UnfilterInvertsFilter(rows, width * 4, filters);
  }

  /** A header chunk for an 8-bit RGBA image without interlacing (RFC 2083 section 4.1.1). */
  function Header(width: nat, height: nat, crc: seq<Byte>): (c: Chunk)
    requires width < 0x1_0000_0000 && height < 0x1_0000_0000 && |crc| == 4
    ensures WellFormed(c) && c.kind == IHDR && |c.body| == 13
  {
    Chunk(IHDR, U32Bytes(width) + U32Bytes(height) + [8, 6, 0, 0, 0], crc)
  }

  function DataChunks(bodies: seq<seq<Byte>>, crc: seq<Byte>): (cs: seq<Chunk>)
    requires |crc| == 4 && forall b <- bodies :: |b| < 0x1_0000_0000
    ensures forall c <- cs :: WellFormed(c) && c.kind == IDAT
  {
    if bodies == [] then [] else [Chunk(IDAT, bodies[0], crc)] + DataChunks(bodies[1..], crc)
  }

  lemma HeaderReads(width: nat, height: nat, crc: seq<Byte>, seen: Seen)
    requires width < 0x1_0000_0000 && height < 0x1_0000_0000 && |crc| == 4
    ensures Absorb(seen, IHDR, Header(width, height, crc).body)
            == Some(Seen(width, height, Some(8), Some(6), Some(0), seen.idat))
  {
    hide U32, U32Bytes;
    var body := Header(width, height, crc).body;
    assert body[..4] == U32Bytes(width) && body[4..8] == U32Bytes(height);
  }

  lemma {:induction false} DataSummary(bodies: seq<seq<Byte>>, crc: seq<Byte>, seen: Seen)
    requires |crc| == 4 && forall b <- bodies :: |b| < 0x1_0000_0000
    ensures Summary(DataChunks(bodies, crc), seen) == Some(seen.(idat := seen.idat + bodies))
    decreases |bodies|
  {
    hide Ascii, Absorb;
    if bodies == [] {
      assert seen.idat + bodies == seen.idat;
    } else {
      var next := seen.(idat := seen.idat + [bodies[0]]);
      DataSummary(bodies[1..], crc, next);
      assert next.idat + bodies[1..] == seen.idat + bodies;
      assert DataChunks(bodies, crc)[1..] == DataChunks(bodies[1..], crc);
      KindsAreAscii();
      DataAdds(seen, bodies[0]);
    }
  }

  lemma DataAdds(seen: Seen, body: seq<Byte>)
    ensures Absorb(seen, IDAT, body) == Some(seen.(idat := seen.idat + [body]))
  {
    hide U32;
  }

  lemma KindsAreAscii()
    ensures Ascii(IHDR) == IHDR && Ascii(IDAT) == IDAT && Ascii(IEND) == IEND
    ensures IHDR != IEND && IDAT != IEND
  {
    assert IHDR[1] != IEND[1] && IDAT[1] != IEND[1];
  }

  /** The chunks of a file up to its end: one header, then the data. */
  function FileChunks(width: nat, height: nat, bodies: seq<seq<Byte>>, crc: seq<Byte>): (cs: seq<Chunk>)
    requires width < 0x1_0000_0000 && height < 0x1_0000_0000 && |crc| == 4
    requires forall b <- bodies :: |b| < 0x1_0000_0000
    ensures forall c <- cs :: WellFormed(c) && (c.kind == IHDR || c.kind == IDAT)
  {
    [Header(width, height, crc)] + DataChunks(bodies, crc)
  }

  lemma FileSummary(width: nat, height: nat, bodies: seq<seq<Byte>>, crc: seq<Byte>)
    requires width < 0x1_0000_0000 && height < 0x1_0000_0000 && |crc| == 4
    requires forall b <- bodies :: |b| < 0x1_0000_0000
    ensures Summary(FileChunks(width, height, bodies, crc), NOTHING)
            == Some(Seen(width, height, Some(8), Some(6), Some(0), bodies))
  {
    hide Absorb, Ascii, Header, DataChunks, WellFormed;
    var cs := FileChunks(width, height, bodies, crc);
    KindsAreAscii();
    HeaderReads(width, height, crc, NOTHING);
    DataSummary(bodies, crc, Seen(width, height, Some(8), Some(6), Some(0), []));
    assert cs[0] == Header(width, height, crc) && cs[1..] == DataChunks(bodies, crc);
    assert [] + bodies == bodies;
  }

  /** A whole file written from an image: its header, its filtered and deflated rows cut into IDAT chunks
      anywhere, IEND. It decodes to the image's own width, height and bytes. */
  lemma WrittenFileDecodes(
      rows: seq<seq<Byte>>, width: nat, filters: seq<Filter>, inflate: Inflate,
      bodies: seq<seq<Byte>>, crc: seq<Byte>, tail: seq<Byte>)
    requires Uniform(rows, width * 4) && |filters| == |rows| && width < 0x1_0000_0000 && |rows| < 0x1_0000_0000
    requires |crc| == 4 && forall b <- bodies :: |b| < 0x1_0000_0000
    requires inflate(Flatten(bodies)) == Some(FilterImage(rows, width * 4, filters))
    ensures Decoded(MAGIC + SerializeAll(FileChunks(width, |rows|, bodies, crc))
                    + (Serialize(Chunk(IEND, [], crc)) + tail), inflate)
            == Ok(Png(width, |rows|, Flatten(rows)))
  {
    hide *;
    var cs, end := FileChunks(width, |rows|, bodies, crc), Chunk(IEND, [], crc);
    FileSummary(width, |rows|, bodies, crc);
    KindsAreAscii();
    assert WellFormed(end) by { EndIsWellFormed(crc); }
    DecodeInvertsEncode(rows, width, filters, inflate, cs, end, tail);
  }

  lemma EndIsWellFormed(crc: seq<Byte>)
    requires |crc| == 4
    ensures WellFormed(Chunk(IEND, [], crc))
  {
  }

  // ---------------------------------------------------------------- the verdict

  /** A read outside the buffer is `undefined`, and undefined is neither below 255 nor equal to 0. */
  function AlphaAt(png: Png, x: int, y: int): Option<Byte> {
    var i := (y * png.width + x) * 4 + 3;
    if 0 <= i < |png.pixels| then Some(png.pixels[i]) else None
  }

  predicate Complete(png: Png) {
    |png.pixels| == Start(png.height, png.width * 4)
  }

  predicate Inside(png: Png, x: int, y: int) {
    0 <= x < png.width && 0 <= y < png.height
  }

  predicate Visible(png: Png, x: int, y: int) {
    Inside(png, x, y) && AlphaAt(png, x, y) != Some(0)
  }

  lemma AlphaInside(png: Png, x: int, y: int)
    requires Complete(png) && Inside(png, x, y)
    ensures AlphaAt(png, x, y).Some?
  {
    StartIsProduct(y, png.width * 4);
    StartsInOrder(y, png.height, png.width * 4);
    assert y * (png.width * 4) == y * png.width * 4;
    assert y * png.width >= 0;
  }

  /** The alpha that is looked at is the fourth byte of the pixel in that row and column. */
  lemma AlphaOfPixel(rows: seq<seq<Byte>>, width: nat, x: nat, y: nat)
    requires Uniform(rows, width * 4) && x < width && y < |rows|
    ensures AlphaAt(Png(width, |rows|, Flatten(rows)), x, y) == Some(rows[y][4 * x + 3])
  {
    hide Flatten, Start, Uniform;
    var unit, pixels := width * 4, Flatten(rows);
    assert |rows[y]| == unit by { RowLength(rows, unit, y); }
    FlattenRow(rows, unit, y);
    StartIsProduct(y, unit);
    var at := Start(y, unit);
    PixelIndex(width, x, y);
    assert pixels[at..at + unit][4 * x + 3] == pixels[at + 4 * x + 3];
  }

  lemma RowLength(rows: seq<seq<Byte>>, unit: nat, y: nat)
    requires Uniform(rows, unit) && y < |rows|
    ensures |rows[y]| == unit
  {
  }

  lemma PixelIndex(width: nat, x: nat, y: nat)
    ensures (y * width + x) * 4 + 3 == y * (width * 4) + 4 * x + 3
  {
    assert y * (width * 4) == y * width * 4;
  }

  datatype Box = Box(minX: int, minY: int, maxX: int, maxY: int) {
    function Width(): int { maxX - minX + 1 }
    function Height(): int { maxY - minY + 1 }

    predicate Contains(x: int, y: int) { minX <= x <= maxX && minY <= y <= maxY }
  }

  /** Every side of the box touches something visible. */
  ghost predicate Touches(png: Png, b: Box) {
    && (exists y :: Visible(png, b.minX, y)) && (exists y :: Visible(png, b.maxX, y))
    && (exists x :: Visible(png, x, b.minY)) && (exists x :: Visible(png, x, b.maxY))
  }

  /** The smallest rectangle around everything with any opacity at all, if there is anything. */
  ghost predicate IsMark(png: Png, mark: Option<Box>) {
    match mark
    case None => forall x, y :: !Visible(png, x, y)
    case Some(b) => Touches(png, b) && forall x, y | Visible(png, x, y) :: b.Contains(x, y)
  }

  lemma MarkIsUnique(png: Png, m: Option<Box>, n: Option<Box>)
    requires IsMark(png, m) && IsMark(png, n)
    ensures m == n
  {
    hide Visible;
    if m.Some? && n.Some? {
      MarkWithin(png, m.value, n.value);
      MarkWithin(png, n.value, m.value);
    }
  }

  lemma MarkWithin(png: Png, a: Box, b: Box)
    requires IsMark(png, Some(a)) && IsMark(png, Some(b))
    ensures b.minX <= a.minX && a.maxX <= b.maxX && b.minY <= a.minY && a.maxY <= b.maxY
  {
    hide Visible;
    var y0 :| Visible(png, a.minX, y0);
    var y1 :| Visible(png, a.maxX, y1);
    var x0 :| Visible(png, x0, a.minY);
    var x1 :| Visible(png, x1, a.maxY);
  }

  /** The box loop of inspectAsset. */
  method MarkOf(png: Png) returns (mark: Option<Box>)
    ensures IsMark(png, mark)
  {
    hide AlphaAt;
    var b := Box(png.width, png.height, -1, -1);
    var y := 0;
    while y < png.height
      invariant 0 <= y <= png.height
      invariant if b.maxX < 0 then b == Box(png.width, png.height, -1, -1) else Touches(png, b)
      invariant forall u, v | Visible(png, u, v) && v < y :: b.Contains(u, v)
    {
      var x := 0;
      while x < png.width
        invariant 0 <= x <= png.width
        invariant if b.maxX < 0 then b == Box(png.width, png.height, -1, -1) else Touches(png, b)
        invariant forall u, v | Visible(png, u, v) && (v < y || (v == y && u < x)) :: b.Contains(u, v)
      {
        if AlphaAt(png, x, y) != Some(0) {
          assert Visible(png, x, y);
          b := Box(if x < b.minX then x else b.minX, if y < b.minY then y else b.minY,
                   if x > b.maxX then x else b.maxX, if y > b.maxY then y else b.maxY);
        }
        x := x + 1;
      }
      y := y + 1;
    }
    mark := if b.maxX >= 0 then Some(b) else None;
  }

  datatype Corner = TopLeft | TopRight | BottomLeft | BottomRight

  datatype Problem =
    | NotSquare(width: nat, height: nat)
    | TransparentCorner(corner: Corner, alpha: Byte)
    | TransparentPadding(markWidth: int, markHeight: int)
    | FullyTransparent

  function CornerAlpha(png: Png, corner: Corner): Option<Byte> {
    match corner
    case TopLeft => AlphaAt(png, 0, 0)
    case TopRight => AlphaAt(png, png.width - 1, 0)
    case BottomLeft => AlphaAt(png, 0, png.height - 1)
    case BottomRight => AlphaAt(png, png.width - 1, png.height - 1)
  }

  const CORNERS := [TopLeft, TopRight, BottomLeft, BottomRight]

  function CornerProblem(png: Png, corner: Corner): seq<Problem> {
    var alpha := CornerAlpha(png, corner);
    if alpha.Some? && alpha.value < 255 then [TransparentCorner(corner, alpha.value)] else []
  }

  function CornerProblems(png: Png, n: nat): seq<Problem>
    requires n <= |CORNERS|
  {
    if n == 0 then [] else CornerProblems(png, n - 1) + CornerProblem(png, CORNERS[n - 1])
  }

  /** The width to height ratio of the mark is below 0.98 or above 1.02, in whole numbers. */
  predicate Lopsided(b: Box) {
    100 * b.Width() < 98 * b.Height() || 100 * b.Width() > 102 * b.Height()
  }

  /** Every problem of an image, in the order they are pushed. */
  function Problems(png: Png, mark: Option<Box>): seq<Problem> {
    (if png.width != png.height then [NotSquare(png.width, png.height)] else [])
      + CornerProblems(png, 4)
      + match mark
        case None => [FullyTransparent]
        case Some(b) => if Lopsided(b) then [TransparentPadding(b.Width(), b.Height())] else []
  }

  datatype Verdict = Verdict(ok: bool, width: nat, height: nat, problems: seq<Problem>)

  /** All a marketplace avatar has to be. */
  predicate Publishable(png: Png) {
    png.width == png.height && OpaqueCorners(png)
  }

  predicate OpaqueCorners(png: Png) {
    && AlphaAt(png, 0, 0) == Some(255) && AlphaAt(png, png.width - 1, 0) == Some(255)
    && AlphaAt(png, 0, png.height - 1) == Some(255) && AlphaAt(png, png.width - 1, png.height - 1) == Some(255)
  }

  lemma FourCorners(png: Png)
    ensures OpaqueCorners(png) <==> forall corner <- CORNERS :: CornerAlpha(png, corner) == Some(255)
  {
    hide AlphaAt;
    assert CORNERS[0] in CORNERS && CORNERS[1] in CORNERS && CORNERS[2] in CORNERS && CORNERS[3] in CORNERS;
  }

  method InspectAsset(data: seq<Byte>, inflate: Inflate) returns (r: Result<Verdict, DecodeError>)
    ensures match Decoded(data, inflate)
            case Err(e) => r == Err(e)
            case Ok(png) =>
              && r.Ok? && r.value.width == png.width && r.value.height == png.height
              && (exists mark :: IsMark(png, mark) && r.value.problems == Problems(png, mark))
              && (r.value.ok <==> Publishable(png))
  {
    hide Decoded, AlphaAt, Publishable;
    var decoded := DecodePng(data, inflate);
    if decoded.Err? {
      return Err(decoded.error);
    }
    var png := decoded.value;
    var problems: seq<Problem> := [];
    if png.width != png.height {
      problems := problems + [NotSquare(png.width, png.height)];
    }
    ghost var square := problems;
    for i := 0 to |CORNERS|
      invariant problems == square + CornerProblems(png, i)
    {
      var alpha := CornerAlpha(png, CORNERS[i]);
      if alpha.Some? && alpha.value < 255 {
        problems := problems + [TransparentCorner(CORNERS[i], alpha.value)];
      }
    }
    var mark := MarkOf(png);
    if mark.Some? {
      if Lopsided(mark.value) {
        problems := problems + [TransparentPadding(mark.value.Width(), mark.value.Height())];
      }
    } else {
      problems := problems + [FullyTransparent];
    }
    assert problems == Problems(png, mark);
    VerdictCollapse(png, mark);
    return Ok(Verdict(|problems| == 0, png.width, png.height, problems));
  }

  lemma CornersVisible(png: Png)
    requires Complete(png)
    ensures png.width > 0 && png.height > 0 ==> forall corner <- CORNERS :: CornerAlpha(png, corner).Some?
    ensures png.width == 0 || png.height == 0 ==> forall corner <- CORNERS :: CornerAlpha(png, corner).None?
  {
    if png.width > 0 && png.height > 0 {
      AlphaInside(png, 0, 0);
      AlphaInside(png, png.width - 1, 0);
      AlphaInside(png, 0, png.height - 1);
      AlphaInside(png, png.width - 1, png.height - 1);
    } else {
      StartIsProduct(png.height, png.width * 4);
      assert png.pixels == [];
    }
  }

  lemma CornersDecide(png: Png)
    requires Complete(png)
    ensures (CornerProblems(png, 4) == [] && png.width > 0 && png.height > 0)
            <==> OpaqueCorners(png)
  {
    hide CornerAlpha, CornerProblems, OpaqueCorners;
    FourCorners(png);
    CornersVisible(png);
    CornerProblemsEmpty(png);
    assert CORNERS[0] in CORNERS;
  }

  /** The verdict is exactly "square, with four opaque corners" (an empty image is refused), so the
      padding test never refuses anything on its own. */
  lemma VerdictCollapse(png: Png, mark: Option<Box>)
    requires Complete(png) && IsMark(png, mark)
    ensures Problems(png, mark) == [] <==> Publishable(png)
    ensures forall p <- Problems(png, mark) :: p.TransparentPadding? ==>
              exists q <- Problems(png, mark) :: !q.TransparentPadding?
  {
    hide AlphaAt, OpaqueCorners, CornerProblems;
    CornersDecide(png);
    var early := CornerProblems(png, 4);
    if png.width == png.height && early == [] {
      if png.width == 0 {
        assert mark.None?;
      } else {
        OpaqueCornersFillTheMark(png, mark);
      }
    } else if png.width != png.height {
      assert Problems(png, mark)[0] == NotSquare(png.width, png.height);
      assert NotSquare(png.width, png.height) in Problems(png, mark);
    } else {
      CornerProblemsOnly(png, 4);
      var q := early[0];
      assert q in early && !q.TransparentPadding?;
      assert Problems(png, mark)[0] == q;
      assert q in Problems(png, mark);
    }
  }

  lemma CornerProblemsEmpty(png: Png)
    ensures CornerProblems(png, 4) == [] <==>
            forall corner <- CORNERS :: CornerAlpha(png, corner).Some? ==> CornerAlpha(png, corner).value == 255
  {
    hide CornerAlpha;
    assert CornerProblems(png, 4) == CornerProblem(png, TopLeft) + CornerProblem(png, TopRight)
           + CornerProblem(png, BottomLeft) + CornerProblem(png, BottomRight) by {
      assert CornerProblems(png, 1) == CornerProblem(png, TopLeft);
      assert CornerProblems(png, 2) == CornerProblems(png, 1) + CornerProblem(png, TopRight);
      assert CornerProblems(png, 3) == CornerProblems(png, 2) + CornerProblem(png, BottomLeft);
    }
    forall corner <- CORNERS
      ensures CornerProblem(png, corner) == [] <==>
              (CornerAlpha(png, corner).Some? ==> CornerAlpha(png, corner).value == 255)
    {
    }
  }

  lemma {:induction false} CornerProblemsOnly(png: Png, n: nat)
    requires n <= |CORNERS|
    ensures forall p <- CornerProblems(png, n) :: p.TransparentCorner?
  {
    if n > 0 { CornerProblemsOnly(png, n - 1); }
  }

  lemma OpaqueCornersFillTheMark(png: Png, mark: Option<Box>)
    requires IsMark(png, mark) && png.width > 0 && png.height > 0
    requires OpaqueCorners(png)
    ensures mark == Some(Box(0, 0, png.width - 1, png.height - 1))
  {
    hide AlphaAt;
    assert Visible(png, 0, 0) && Visible(png, png.width - 1, png.height - 1);
    if mark.Some? {
      var y0 :| Visible(png, mark.value.minX, y0);
      var y1 :| Visible(png, mark.value.maxX, y1);
      var x0 :| Visible(png, x0, mark.value.minY);
      var x1 :| Visible(png, x1, mark.value.maxY);
    }
  }
}
