/** Every outcome of decodePng and inspectAsset, from the bytes of the file. */
module PngOutcomes {
  import opened Wrappers
  import opened Slices
  import opened PngFilter
  import opened PngAsset

  // ---------------------------------------------------------------- what the walk reads

  /** Sizes are big-endian (RFC 2083 section 2.1). */
  function BigEndian(a: int, b: int, c: int, d: int): int {
    0x100_0000 * a + 0x1_0000 * b + 0x100 * c + d
  }

  lemma U32IsBigEndian(b: seq<Byte>)
    requires |b| == 4
    ensures U32(b) == BigEndian(b[0], b[1], b[2], b[3])
  {
  }

  /** What one chunk does: a header gives the sizes and, as far as it reaches, the format; data is kept in
      order; every other chunk is passed over. */
  lemma AbsorbOutcome(seen: Seen, kind: seq<Byte>, body: seq<Byte>)
    ensures kind != IHDR && kind != IDAT ==> Absorb(seen, kind, body) == Some(seen)
    ensures kind == IDAT ==> Absorb(seen, kind, body) == Some(seen.(idat := seen.idat + [body]))
    ensures kind == IHDR && |body| < 8 ==> Absorb(seen, kind, body) == None
    ensures kind == IHDR && |body| >= 8 ==>
              && Absorb(seen, kind, body).Some?
              && var n := Absorb(seen, kind, body).value;
                 && n.width == BigEndian(body[0], body[1], body[2], body[3])
                 && n.height == BigEndian(body[4], body[5], body[6], body[7])
                 && n.bitDepth == (if |body| > 8 then Some(body[8]) else None)
                 && n.colourType == (if |body| > 9 then Some(body[9]) else None)
                 && n.interlace == (if |body| > 12 then Some(body[12]) else None)
                 && n.idat == seen.idat
  {
    hide U32;
    KindsDiffer();
    if kind == IHDR && |body| >= 8 {
      U32IsBigEndian(body[..4]);
      U32IsBigEndian(body[4..8]);
    }
  }

  /** A chunk's kind is compared without the high bits of its bytes. */
  lemma AsciiDropsHighBits(b: seq<Byte>, i: nat)
    requires i < |b|
    ensures |Ascii(b)| == |b| && Ascii(b)[i] == if b[i] < 128 then b[i] else b[i] - 128
  {
  }

  lemma KindsDiffer()
    ensures IHDR != IDAT
  {
    assert IHDR[1] != IDAT[1];
  }

  /** Where a file ends early: at the end of the data the walk is over, within a chunk's length it fails, and a
      chunk that is cut off later counts with what is there of it. With complete chunks and IEND this is every
      file. */
  lemma WalkAtTheEnd(before: seq<Byte>, rest: seq<Byte>, seen: Seen)
    requires |rest| < 4
    ensures Walk(before + rest, |before|, seen) == if rest == [] then Some(seen) else None
  {
    hide Absorb, U32, Ascii;
  }

  lemma WalkOverCutChunk(before: seq<Byte>, length: nat, kind: seq<Byte>, body: seq<Byte>, seen: Seen)
    requires length < 0x1_0000_0000 && |kind| <= 4 && (|kind| < 4 ==> body == []) && |body| < length + 4
    ensures Walk(before + (U32Bytes(length) + kind + body), |before|, seen)
            == if Ascii(kind) == IEND then Some(seen)
               else Absorb(seen, Ascii(kind), if |body| <= length then body else body[..length])
  {
    hide Absorb, U32, U32Bytes, Ascii, Subarray;
    CutParts(before, length, kind, body);
    WalkFromParts(before + (U32Bytes(length) + kind + body), |before|, length, kind,
                  if |body| <= length then body else body[..length], seen);
  }

  lemma WalkFromParts(data: seq<Byte>, at: nat, length: nat, kind: seq<Byte>, body: seq<Byte>, seen: Seen)
    requires at + 4 <= |data| <= at + 12 + length && U32(data[at..at + 4]) == length
    requires Subarray(data, at + 4, at + 8) == kind && Subarray(data, at + 8, at + 8 + length) == body
    ensures Walk(data, at, seen) == if Ascii(kind) == IEND then Some(seen) else Absorb(seen, Ascii(kind), body)
  {
    hide Absorb, U32, Ascii, Subarray;
    if Absorb(seen, Ascii(kind), body).Some? {
      WalkIsOver(data, at + 12 + length, Absorb(seen, Ascii(kind), body).value);
    }
  }

  lemma WalkIsOver(data: seq<Byte>, at: nat, seen: Seen)
    requires |data| <= at
    ensures Walk(data, at, seen) == Some(seen)
  {
  }

  lemma CutParts(before: seq<Byte>, length: nat, kind: seq<Byte>, body: seq<Byte>)
    requires length < 0x1_0000_0000 && |kind| <= 4 && (|kind| < 4 ==> body == [])
    ensures var data, at := before + (U32Bytes(length) + kind + body), |before|;
            && U32(data[at..at + 4]) == length && Subarray(data, at + 4, at + 8) == kind
            && Subarray(data, at + 8, at + 8 + length) == if |body| <= length then body else body[..length]
  {
    hide U32, U32Bytes, Subarray;
    var data, size := before + (U32Bytes(length) + kind + body), U32Bytes(length);
    assert data == before + size + (kind + body);
    WindowAfter(before, size, kind + body);
    CutKind(before + size, kind, body);
    if |kind| < 4 {
      NoBodyLeft(data, |before| + 8, length);
    } else {
      assert data == (before + size + kind) + body;
      CutBody(before + size + kind, body, length);
    }
  }

  lemma CutKind(before: seq<Byte>, kind: seq<Byte>, body: seq<Byte>)
    requires |kind| <= 4 && (|kind| < 4 ==> body == [])
    ensures Subarray(before + (kind + body), |before|, |before| + 4) == kind
  {
    assert (before + (kind + body))[|before|..] == kind + body;
    WindowAfter(before, kind, body);
    assert before + kind + body == before + (kind + body);
  }

  lemma CutBody(before: seq<Byte>, body: seq<Byte>, length: nat)
    ensures Subarray(before + body, |before|, |before| + length) == if |body| <= length then body else body[..length]
  {
    assert (before + body)[|before|..] == body;
    if |body| > length { assert (before + body)[|before|..|before| + length] == body[..length]; }
  }

  lemma NoBodyLeft(data: seq<Byte>, from: nat, length: nat)
    requires |data| <= from
    ensures Subarray(data, from, from + length) == []
  {
  }

  // ---------------------------------------------------------------- when a file decodes

  predicate HasMagic(data: seq<Byte>) {
    |data| >= 8 && data[..8] == [0x89, 0x50, 0x4e, 0x47, 0x0d, 0x0a, 0x1a, 0x0a]
  }

  /** 8-bit RGBA, not interlaced. */
  predicate Readable(seen: Seen) {
    seen.bitDepth == Some(8) && seen.colourType == Some(6) && seen.interlace == Some(0)
  }

  /** Row y of the stream: its filter byte is there, and is one of the five. */
  predicate RowReads(raw: seq<Byte>, width: nat, y: nat) {
    var at := y * (width * 4 + 1);
    width == 0 || (at < |raw| && raw[at] <= 4)
  }

  lemma RowReadsMeans(raw: seq<Byte>, width: nat, y: nat)
    ensures RowReads(raw, width, y) <==> RowDecodes(raw, width * 4, y)
  {
    StartIsProduct(y, width * 4 + 1);
  }

  /** decodePng in full: it succeeds exactly on a PNG whose chunks can be read, of a format it reads, that
      inflates, and whose rows all have a known filter; the image then has the header's size. */
  lemma DecodesIff(data: seq<Byte>, inflate: Inflate)
    ensures Decoded(data, inflate).Ok? <==>
            && HasMagic(data)
            && var walked := Walk(data, 8, NOTHING);
               && walked.Some? && Readable(walked.value)
               && var raw := inflate(Flatten(walked.value.idat));
                  raw.Some? && forall y: nat | y < walked.value.height :: RowReads(raw.value, walked.value.width, y)
    ensures Decoded(data, inflate).Ok? ==>
              var png, seen := Decoded(data, inflate).value, Walk(data, 8, NOTHING).value;
              png.width == seen.width && png.height == seen.height && |png.pixels| == png.width * png.height * 4
  {
    hide Walk, Flatten, ReconRows, RowDecodes, RowReads, Start;
    MagicMeans(data);
    var walked := Walk(data, 8, NOTHING);
    if walked.Some? && inflate(Flatten(walked.value.idat)).Some? {
      var raw, seen := inflate(Flatten(walked.value.idat)).value, walked.value;
      forall y: nat
        ensures RowReads(raw, seen.width, y) <==> RowDecodes(raw, seen.width * 4, y)
      {
        RowReadsMeans(raw, seen.width, y);
      }
      BadRowMeans(raw, seen.width * 4, seen.height);
    }
    if Decoded(data, inflate).Ok? {
      var png := Decoded(data, inflate).value;
      StartIsProduct(png.height, png.width * 4);
      assert png.height * (png.width * 4) == png.width * png.height * 4;
    }
  }

  lemma MagicMeans(data: seq<Byte>)
    ensures Subarray(data, 0, 8) == MAGIC <==> HasMagic(data)
  {
  }

  lemma BadRowMeans(raw: seq<Byte>, stride: nat, n: nat)
    ensures FirstBadRow(raw, stride, n).None? <==> forall y: nat | y < n :: RowDecodes(raw, stride, y)
  {
    hide RowDecodes;
  }

  /** And what it refuses a file for: the first of these, in this order. */
  lemma RefusedFor(data: seq<Byte>, inflate: Inflate)
    ensures var r, walked := Decoded(data, inflate), Walk(data, 8, NOTHING);
            if !HasMagic(data) then r == Err(NotPng)
            else if walked.None? then r == Err(OutOfRange)
            else
              var seen := walked.value;
              if seen.bitDepth != Some(8) || seen.colourType != Some(6) then
                r == Err(UnsupportedFormat(seen.bitDepth, seen.colourType))
              else if seen.interlace != Some(0) then r == Err(Interlaced)
              else if inflate(Flatten(seen.idat)).None? then r == Err(InflateFailed)
              else
                var raw := inflate(Flatten(seen.idat)).value;
                r.Err? ==>
                  && r.error.UnknownFilter? && r.error.row < seen.height && !RowReads(raw, seen.width, r.error.row)
                  && forall y: nat | y < r.error.row :: RowReads(raw, seen.width, y)
  {
    hide Walk, Flatten, ReconRows, RowDecodes, RowReads, Start;
    MagicMeans(data);
    var walked := Walk(data, 8, NOTHING);
    if walked.Some? && inflate(Flatten(walked.value.idat)).Some? {
      var raw, seen := inflate(Flatten(walked.value.idat)).value, walked.value;
      forall y: nat
        ensures RowReads(raw, seen.width, y) <==> RowDecodes(raw, seen.width * 4, y)
      {
        RowReadsMeans(raw, seen.width, y);
      }
    }
  }

  // ---------------------------------------------------------------- the visible mark

  /** A pixel of an image is visible unless its fourth byte is zero. */
  lemma VisibleMeans(rows: seq<seq<Byte>>, width: nat, x: nat, y: nat)
    requires Uniform(rows, width * 4) && x < width && y < |rows|
    ensures 4 * x + 3 < |rows[y]|
    ensures Visible(Png(width, |rows|, Flatten(rows)), x, y) <==> rows[y][4 * x + 3] != 0
  {
    hide Flatten, AlphaAt;
    AlphaOfPixel(rows, width, x, y);
    PngAsset.RowLength(rows, width * 4, y);
  }

  /** The mark: every visible pixel lies within its four sides, and on each side there is one. */
  lemma MarkMeans(png: Png, left: int, top: int, right: int, bottom: int)
    ensures IsMark(png, Some(Box(left, top, right, bottom))) <==>
            && (forall x, y | Visible(png, x, y) :: left <= x && x <= right && top <= y && y <= bottom)
            && (exists y :: Visible(png, left, y)) && (exists y :: Visible(png, right, y))
            && (exists x :: Visible(png, x, top)) && (exists x :: Visible(png, x, bottom))
    ensures IsMark(png, None) <==> forall x: nat, y: nat | x < png.width && y < png.height :: !Visible(png, x, y)
  {
    hide AlphaAt;
  }

  // ---------------------------------------------------------------- what an image is told off for

  function CornerX(png: Png, c: Corner): int {
    if c == TopRight || c == BottomRight then png.width - 1 else 0
  }

  function CornerY(png: Png, c: Corner): int {
    if c == BottomLeft || c == BottomRight then png.height - 1 else 0
  }

  lemma CornerAt(png: Png, c: Corner)
    ensures CornerAlpha(png, c) == AlphaAt(png, CornerX(png, c), CornerY(png, c))
  {
    hide AlphaAt;
  }

  lemma {:induction false} CornersTold(png: Png, n: nat, p: Problem)
    requires n <= |CORNERS|
    ensures p in CornerProblems(png, n) <==>
            && p.TransparentCorner? && p.corner in CORNERS[..n] && CornerAlpha(png, p.corner) == Some(p.alpha) && p.alpha < 255
  {
    hide CornerAlpha;
    if n > 0 {
      CornersTold(png, n - 1, p);
      assert CORNERS[..n] == CORNERS[..n - 1] + [CORNERS[n - 1]];
    }
  }

  lemma AllCorners(c: Corner)
    ensures c in CORNERS[..4]
  {
    assert CORNERS[..4][0] == TopLeft && CORNERS[..4][1] == TopRight && CORNERS[..4][2] == BottomLeft && CORNERS[..4][3] == BottomRight;
  }

  /** The width of the mark is not within two hundredths of its height. */
  predicate OffSquare(width: int, height: int)
    requires height > 0
  {
    (width as real) / (height as real) < 0.98 || (width as real) / (height as real) > 1.02
  }

  lemma OffSquareMeans(b: Box)
    requires b.Height() > 0
    ensures OffSquare(b.Width(), b.Height()) <==> Lopsided(b)
  {
    var w, h := b.Width() as real, b.Height() as real;
    QuotientBelow(w, h, 0.98);
    QuotientBelow(w, h, 1.02);
    assert w / h > 1.02 <==> w > 1.02 * h;
  }

  lemma QuotientBelow(w: real, h: real, c: real)
    requires h > 0.0
    ensures w / h < c <==> w < c * h
    ensures w / h == c <==> w == c * h
  {
    var q := w / h;
    assert q * h == w;
    if q < c { Positive(c - q, h); }
    if c < q { Positive(q - c, h); }
  }

  lemma Positive(a: real, b: real)
    requires a > 0.0 && b > 0.0
    ensures a * b > 0.0
  {
  }

  /** Exactly these problems are reported: an image that is not square, every corner that is not opaque with
      its alpha, a mark that is not square, and an image without one. */
  lemma ProblemsExact(png: Png, mark: Option<Box>, p: Problem)
    requires mark.Some? ==> mark.value.Height() > 0
    ensures p in Problems(png, mark) <==>
            match p
            case NotSquare(width, height) => width == png.width && height == png.height && width != height
            case TransparentCorner(c, alpha) => AlphaAt(png, CornerX(png, c), CornerY(png, c)) == Some(alpha) && alpha < 255
            case TransparentPadding(width, height) =>
              mark.Some? && width == mark.value.Width() && height == mark.value.Height() && OffSquare(width, height)
            case FullyTransparent => mark.None?
  {
    hide AlphaAt, CornerAlpha, CornerProblems, OffSquare, Lopsided;
    CornersTold(png, 4, p);
    if p.TransparentCorner? {
      AllCorners(p.corner);
      CornerAt(png, p.corner);
    }
    if mark.Some? { OffSquareMeans(mark.value); }
  }

  /** Its rank in the report. */
  function Rank(p: Problem): nat {
    match p
    case NotSquare(_, _) => 0
    case TransparentCorner(TopLeft, _) => 1
    case TransparentCorner(TopRight, _) => 2
    case TransparentCorner(BottomLeft, _) => 3
    case TransparentCorner(BottomRight, _) => 4
    case _ => 5
  }

  ghost predicate Ranked(ps: seq<Problem>) {
    forall i, j | 0 <= i < j < |ps| :: Rank(ps[i]) < Rank(ps[j])
  }

  /** They come in this order, each once. */
  lemma ProblemsRanked(png: Png, mark: Option<Box>)
    ensures Ranked(Problems(png, mark))
  {
    hide AlphaAt, CornerAlpha, CornerProblems, Rank, Lopsided;
    CornersRanked(png, 4);
    var corners, all := CornerProblems(png, 4), Problems(png, mark);
    forall p <- corners
      ensures 1 <= Rank(p) <= 4
    {
      CornersTold(png, 4, p);
      RankOf(p);
    }
    RanksApart(all);
  }

  lemma RankOf(p: Problem)
    ensures p.NotSquare? ==> Rank(p) == 0
    ensures p.TransparentCorner? ==> 1 <= Rank(p) <= 4
    ensures p.TransparentPadding? || p.FullyTransparent? ==> Rank(p) == 5
  {
  }

  lemma RanksApart(ps: seq<Problem>)
    ensures forall p <- ps :: (p.NotSquare? ==> Rank(p) == 0) && (p.TransparentPadding? || p.FullyTransparent? ==> Rank(p) == 5)
  {
  }

  lemma {:induction false} CornersRanked(png: Png, n: nat)
    requires n <= |CORNERS|
    ensures Ranked(CornerProblems(png, n)) && forall p <- CornerProblems(png, n) :: Rank(p) <= n
  {
    hide CornerAlpha;
    if n > 0 { CornersRanked(png, n - 1); }
  }
}
