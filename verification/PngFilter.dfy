/** The PNG scanline filters: the reference encoder of RFC 2083 section 6 and the in-place decoder of
    scripts/check-listing-asset.ts, four bytes to a pixel. */
module PngFilter {
  import opened Wrappers
  import opened Slices

  type Byte = x: int | 0 <= x < 256

  type Filter = x: int | 0 <= x <= 4

  function Abs(x: int): nat { if x < 0 then -x else x }

  /** Buffer.subarray: both ends are clipped to the buffer. */
  function Subarray(s: seq<Byte>, from: nat, to: nat): seq<Byte>
    requires from <= to
  {
    if |s| <= from then [] else if |s| <= to then s[from..] else s[from..to]
  }

  /** The Paeth choice, in the decoder's branch order: a nearest of a, b, c to a + b - c, ties going
      first to a and then to b (RFC 2083 section 6.6). */
  function Paeth(a: Byte, b: Byte, c: Byte): (v: Byte)
    ensures v == a || v == b || v == c
    ensures var p := a + b - c; Abs(p - v) <= Abs(p - a) && Abs(p - v) <= Abs(p - b) && Abs(p - v) <= Abs(p - c)
    ensures var p := a + b - c; v == a || Abs(p - v) < Abs(p - a)
    ensures var p := a + b - c; v == a || v == b || Abs(p - v) < Abs(p - b)
  {
    var p := a + b - c;
    var pa, pb, pc := Abs(p - a), Abs(p - b), Abs(p - c);
    if pa <= pb && pa <= pc then a else if pb <= pc then b else c
  }

  /** What a filter adds to the raw byte: nothing, left, above, their average, or the Paeth choice. */
  function Predict(filter: Filter, a: Byte, b: Byte, c: Byte): (v: Byte)
    ensures filter == 3 ==> 2 * v <= a + b <= 2 * v + 1
  {
    match filter
    case 0 => 0
    case 1 => a
    case 2 => b
    case 3 => (a + b) / 2
    case _ => Paeth(a, b, c)
  }

  /** The byte one pixel to the left of position x, zero in the first pixel. */
  function Left(row: seq<Byte>, x: nat): Byte
    requires x - 4 < |row|
  {
    if x >= 4 then row[x - 4] else 0
  }

  /** Where block y starts when blocks of `unit` bytes follow each other: y * unit, kept linear. */
  function Start(y: nat, unit: nat): nat {
    if y == 0 then 0 else Start(y - 1, unit) + unit
  }

  lemma {:induction false} StartIsProduct(y: nat, unit: nat)
    ensures Start(y, unit) == y * unit
  {
    if y > 0 {
      StartIsProduct(y - 1, unit);
      assert y * unit == (y - 1) * unit + unit;
    }
  }

  lemma {:induction false} StartsInOrder(y: nat, n: nat, unit: nat)
    requires y < n
    ensures Start(y, unit) + unit <= Start(n, unit)
  {
    if y + 1 < n {
      StartsInOrder(y, n - 1, unit);
    }
  }

  // ---------------------------------------------------------------- rows in one buffer

  predicate Uniform(rows: seq<seq<Byte>>, unit: nat) {
    forall y | 0 <= y < |rows| :: |rows[y]| == unit
  }

  function Flatten(rows: seq<seq<Byte>>): seq<Byte> {
    if rows == [] then [] else Flatten(rows[..|rows| - 1]) + rows[|rows| - 1]
  }

  lemma {:induction false} FlattenRow(rows: seq<seq<Byte>>, unit: nat, y: nat)
    requires Uniform(rows, unit) && y <= |rows|
    ensures |Flatten(rows)| == Start(|rows|, unit)
    ensures y < |rows| ==> Start(y, unit) + unit <= |Flatten(rows)|
    ensures y < |rows| ==> Flatten(rows)[Start(y, unit)..Start(y, unit) + unit] == rows[y]
    decreases |rows|
  {
    if rows != [] {
      var last := |rows| - 1;
      FlattenRow(rows[..last], unit, if y < last then y else last);
      var before := Flatten(rows[..last]);
      if y < last {
        StartsInOrder(y, last, unit);
        SliceLeft(before, rows[last], Start(y, unit), Start(y, unit) + unit);
      } else if y == last {
        SliceRight(before, rows[last]);
      }
    }
  }

  predicate LineStarts(flat: seq<Byte>, line: seq<Byte>, at: nat) {
    at + |line| <= |flat| && flat[at..at + |line|] == line
  }

  lemma LineStartsEarlier(flat: seq<Byte>, k: nat, line: seq<Byte>, at: nat)
    requires LineStarts(flat, line, at) && at + |line| <= k <= |flat|
    ensures LineStarts(flat[..k], line, at)
  {
    SliceOfSlice(flat, k, at, at + |line|);
  }

  lemma LineEnds(flat: seq<Byte>, line: seq<Byte>, at: nat)
    requires LineStarts(flat, line, at) && at + |line| == |flat|
    ensures flat == flat[..at] + line
  {
  }

  lemma {:induction false} FlattenInverse(flat: seq<Byte>, rows: seq<seq<Byte>>, unit: nat)
    requires Uniform(rows, unit) && |flat| == Start(|rows|, unit)
    requires forall y: nat | y < |rows| :: LineStarts(flat, rows[y], Start(y, unit))
    ensures Flatten(rows) == flat
    decreases |rows|
  {
    if rows != [] {
      var last := |rows| - 1;
      var at := Start(last, unit);
      var init := flat[..at];
      forall y: nat | y < last
        ensures LineStarts(init, rows[..last][y], Start(y, unit))
      {
        StartsInOrder(y, last, unit);
        LineStartsEarlier(flat, at, rows[y], Start(y, unit));
      }
      FlattenInverse(init, rows[..last], unit);
      assert LineStarts(flat, rows[last], at);
      LineEnds(flat, rows[last], at);
    }
  }

  // ---------------------------------------------------------------- reference encoder

  function FilterRow(filter: Filter, row: seq<Byte>, prior: seq<Byte>): (line: seq<Byte>)
    requires |prior| == |row|
    ensures |line| == |row|
  {
    seq(|row|, x requires 0 <= x < |row| =>
      (row[x] - Predict(filter, Left(row, x), prior[x], Left(prior, x))) % 256)
  }

  function Zeros(n: nat): (z: seq<Byte>)
    ensures |z| == n
  {
    seq(n, _ => 0)
  }

  /** The row above row y; the row above the first one is all zeros. */
  function Above(rows: seq<seq<Byte>>, stride: nat, y: nat): (row: seq<Byte>)
    requires Uniform(rows, stride) && y <= |rows|
    ensures |row| == stride
  {
    if y == 0 then Zeros(stride) else rows[y - 1]
  }

  /** One encoded row: its filter byte, then its filtered line. */
  function EncodeRow(rows: seq<seq<Byte>>, stride: nat, filters: seq<Filter>, y: nat): (line: seq<Byte>)
    requires Uniform(rows, stride) && |filters| == |rows| && y < |rows|
    ensures |line| == stride + 1
  {
    [filters[y]] + FilterRow(filters[y], rows[y], Above(rows, stride, y))
  }

  function EncodeRows(rows: seq<seq<Byte>>, stride: nat, filters: seq<Filter>): (lines: seq<seq<Byte>>)
    requires Uniform(rows, stride) && |filters| == |rows|
    ensures |lines| == |rows| && Uniform(lines, stride + 1)
  {
    seq(|rows|, y requires 0 <= y < |rows| => EncodeRow(rows, stride, filters, y))
  }

  /** The raw stream of an image, one filter chosen for each row. */
  function FilterImage(rows: seq<seq<Byte>>, stride: nat, filters: seq<Filter>): seq<Byte>
    requires Uniform(rows, stride) && |filters| == |rows|
  {
    Flatten(EncodeRows(rows, stride, filters))
  }

  // ---------------------------------------------------------------- decoder, as a specification

  /** One output byte. A byte missing from the raw stream is `undefined` in the source, which every
      filter turns into zero. */
  function ReconByte(filter: Filter, line: seq<Byte>, x: nat, a: Byte, b: Byte, c: Byte): Byte {
    if x < |line| then (line[x] + Predict(filter, a, b, c)) % 256 else 0
  }

  /** The first n bytes of a row: each depends on bytes of the same row that were written before it. */
  function ReconRow(filter: Filter, line: seq<Byte>, prior: seq<Byte>, n: nat): (row: seq<Byte>)
    requires n <= |prior|
    ensures |row| == n
  {
    if n == 0 then []
    else
      var row := ReconRow(filter, line, prior, n - 1);
      row + [ReconByte(filter, line, n - 1, Left(row, n - 1), prior[n - 1], Left(prior, n - 1))]
  }

  function FilterByteAt(raw: seq<Byte>, stride: nat, y: nat): Option<Byte> {
    var i := Start(y, stride + 1);
    if i < |raw| then Some(raw[i]) else None
  }

  function LineAt(raw: seq<Byte>, stride: nat, y: nat): seq<Byte> {
    var i := Start(y, stride + 1) + 1;
    Subarray(raw, i, i + stride)
  }

  /** A row's filter byte is only looked at while decoding a byte of the row, so a row of no bytes
      accepts anything. */
  predicate RowDecodes(raw: seq<Byte>, stride: nat, y: nat) {
    stride == 0 || var f := FilterByteAt(raw, stride, y); f.Some? && f.value <= 4
  }

  function RowFilter(raw: seq<Byte>, stride: nat, y: nat): Filter
    requires RowDecodes(raw, stride, y)
  {
    if stride == 0 then 0 else FilterByteAt(raw, stride, y).value
  }

  predicate Decodes(raw: seq<Byte>, stride: nat, n: nat) {
    forall y: nat | y < n :: RowDecodes(raw, stride, y)
  }

  /** The first n rows of the decoded image. */
  function ReconRows(raw: seq<Byte>, stride: nat, n: nat): (rows: seq<seq<Byte>>)
    requires Decodes(raw, stride, n)
    ensures |rows| == n && Uniform(rows, stride)
  {
    if n == 0 then []
    else
      var rows := ReconRows(raw, stride, n - 1);
      rows + [ReconRow(RowFilter(raw, stride, n - 1), LineAt(raw, stride, n - 1), Above(rows, stride, n - 1), stride)]
  }

  // ---------------------------------------------------------------- the two are inverse

  lemma {:induction false} ReconRowInvertsFilterRow(filter: Filter, row: seq<Byte>, prior: seq<Byte>, n: nat)
    requires |prior| == |row| && n <= |row|
    ensures ReconRow(filter, FilterRow(filter, row, prior), prior, n) == row[..n]
  {
    hide Predict;
    if n > 0 {
      ReconRowInvertsFilterRow(filter, row, prior, n - 1);
      var got := ReconRow(filter, FilterRow(filter, row, prior), prior, n - 1);
      assert Left(got, n - 1) == Left(row, n - 1);
      assert row[..n] == row[..n - 1] + [row[n - 1]];
    }
  }

  lemma {:induction false} FilterRowInvertsReconRow(filter: Filter, line: seq<Byte>, prior: seq<Byte>)
    requires |prior| == |line|
    ensures FilterRow(filter, ReconRow(filter, line, prior, |line|), prior) == line
  {
    var row := ReconRow(filter, line, prior, |line|);
    forall x | 0 <= x < |line|
      ensures FilterRow(filter, row, prior)[x] == line[x]
    {
      hide Predict;
      ReconRowAt(filter, line, prior, x, |line|);
    }
  }

  lemma {:induction false} ReconRowAt(filter: Filter, line: seq<Byte>, prior: seq<Byte>, x: nat, n: nat)
    requires x < n <= |prior|
    ensures var row := ReconRow(filter, line, prior, n);
            row[x] == ReconByte(filter, line, x, Left(row, x), prior[x], Left(prior, x))
  {
    hide ReconByte;
    if x < n - 1 {
      ReconRowAt(filter, line, prior, x, n - 1);
    }
  }

  /** Where the decoder looks for row y it finds what the encoder wrote for row y. */
  lemma EncodedRow(rows: seq<seq<Byte>>, stride: nat, filters: seq<Filter>, y: nat)
    requires Uniform(rows, stride) && |filters| == |rows| && y < |rows|
    ensures var raw := FilterImage(rows, stride, filters);
            && FilterByteAt(raw, stride, y) == Some(filters[y])
            && LineAt(raw, stride, y) == FilterRow(filters[y], rows[y], Above(rows, stride, y))
  {
    hide Flatten, FilterRow;
    var raw, at := FilterImage(rows, stride, filters), Start(y, stride + 1);
    FlattenRow(EncodeRows(rows, stride, filters), stride + 1, y);
    var line := EncodeRow(rows, stride, filters, y);
    assert raw[at..at + stride + 1] == line;
    SplitLine(raw, at, line);
  }

  lemma SplitLine(raw: seq<Byte>, at: nat, line: seq<Byte>)
    requires |line| > 0 && at + |line| <= |raw| && raw[at..at + |line|] == line
    ensures raw[at] == line[0] && raw[at + 1..at + |line|] == line[1..]
  {
  }

  /** Decoding the reference filtering of any image under any choice of filters returns the image. */
  lemma {:induction false} UnfilterInvertsFilter(rows: seq<seq<Byte>>, stride: nat, filters: seq<Filter>)
    requires Uniform(rows, stride) && |filters| == |rows|
    ensures var raw := FilterImage(rows, stride, filters);
            Decodes(raw, stride, |rows|) && ReconRows(raw, stride, |rows|) == rows
  {
    UnfilterInvertsFilterTo(rows, stride, filters, |rows|);
    assert rows[..|rows|] == rows;
  }

  lemma {:induction false} UnfilterInvertsFilterTo(rows: seq<seq<Byte>>, stride: nat, filters: seq<Filter>, n: nat)
    requires Uniform(rows, stride) && |filters| == |rows| && n <= |rows|
    ensures var raw := FilterImage(rows, stride, filters);
            Decodes(raw, stride, n) && ReconRows(raw, stride, n) == rows[..n]
  {
    hide ReconRow;
    if n > 0 {
      var y := n - 1;
      UnfilterInvertsFilterTo(rows, stride, filters, y);
      EncodedRow(rows, stride, filters, y);
      ReconRowInvertsFilterRow(if stride == 0 then 0 else filters[y], rows[y], Above(rows, stride, y), stride);
      assert rows[y][..stride] == rows[y];
    }
  }

  /** Re-filtering the decoded image with the stream's own filter bytes gives the stream back, so for
      fixed filter bytes decoding is a bijection. */
  lemma {:induction false} FilterInvertsUnfilter(raw: seq<Byte>, stride: nat, filters: seq<Filter>)
    requires |raw| == Start(|filters|, stride + 1)
    requires forall y: nat | y < |filters| :: FilterByteAt(raw, stride, y) == Some(filters[y])
    ensures Decodes(raw, stride, |filters|)
    ensures FilterImage(ReconRows(raw, stride, |filters|), stride, filters) == raw
  {
    var rows := ReconRows(raw, stride, |filters|);
    var lines := EncodeRows(rows, stride, filters);
    forall y: nat | y < |filters|
      ensures LineStarts(raw, lines[y], Start(y, stride + 1))
    {
      ReencodedRow(raw, stride, filters, y);
    }
    FlattenInverse(raw, lines, stride + 1);
  }

  lemma ReencodedRow(raw: seq<Byte>, stride: nat, filters: seq<Filter>, y: nat)
    requires |raw| == Start(|filters|, stride + 1) && y < |filters| && Decodes(raw, stride, |filters|)
    requires FilterByteAt(raw, stride, y) == Some(filters[y])
    ensures LineStarts(raw, EncodeRow(ReconRows(raw, stride, |filters|), stride, filters, y), Start(y, stride + 1))
  {
    hide ReconRow, ReconRows, FilterRow;
    var rows := ReconRows(raw, stride, |filters|);
    StartsInOrder(y, |filters|, stride + 1);
    ReconRowsRow(raw, stride, |filters|, y);
    var line, prior := LineAt(raw, stride, y), Above(rows, stride, y);
    assert FilterRow(filters[y], rows[y], prior) == line by {
      if stride > 0 { FilterRowInvertsReconRow(filters[y], line, prior); }
    }
    RawRow(raw, filters[y], Start(y, stride + 1), stride);
  }

  lemma RawRow(raw: seq<Byte>, first: Byte, at: nat, stride: nat)
    requires at + stride + 1 <= |raw| && raw[at] == first
    ensures LineStarts(raw, [first] + raw[at + 1..at + 1 + stride], at)
  {
  }

  /** The decoded rows do not change when further rows are decoded. */
  lemma {:induction false} ReconRowsRow(raw: seq<Byte>, stride: nat, n: nat, y: nat)
    requires y < n && Decodes(raw, stride, n)
    ensures var rows := ReconRows(raw, stride, n);
            rows[y] == ReconRow(RowFilter(raw, stride, y), LineAt(raw, stride, y), Above(rows, stride, y), stride)
  {
    if y < n - 1 {
      ReconRowsRow(raw, stride, n - 1, y);
    }
  }

  // ---------------------------------------------------------------- decoder, in place

  /** Undo the filter of row y, reading bytes written earlier in the same buffer. */
  method UnfilterRow(raw: seq<Byte>, stride: nat, y: nat, pixels: array<Byte>, ghost rows: seq<seq<Byte>>)
    returns (ok: bool)
    requires Uniform(rows, stride) && |rows| == y
    requires Start(y, stride) + stride <= pixels.Length && pixels[..Start(y, stride)] == Flatten(rows)
    modifies pixels
    ensures ok == RowDecodes(raw, stride, y)
    ensures pixels[..Start(y, stride)] == old(pixels[..Start(y, stride)])
    ensures ok ==> pixels[Start(y, stride)..Start(y, stride) + stride]
                   == ReconRow(RowFilter(raw, stride, y), LineAt(raw, stride, y), Above(rows, stride, y), stride)
  {
    hide ReconByte, Flatten;
    var base := Start(y, stride);
    var filter := FilterByteAt(raw, stride, y);
    var line := LineAt(raw, stride, y);
    ghost var prior := Above(rows, stride, y);
    var x := 0;
    while x < stride
      invariant 0 <= x <= stride
      invariant pixels[..base] == Flatten(rows)
      invariant x > 0 ==> RowDecodes(raw, stride, y)
      invariant x > 0 ==> pixels[base..base + x] == ReconRow(filter.value, line, prior, x)
    {
      if filter == None || filter.value > 4 {
        return false;
      }
      Neighbours(pixels[..], rows, stride, y, x);
      var a: Byte := if x >= 4 then pixels[base + x - 4] else 0;
      var b: Byte := if y > 0 then pixels[base - stride + x] else 0;
      var c: Byte := if y > 0 && x >= 4 then pixels[base - stride + x - 4] else 0;
      ghost var was := pixels[..];
      pixels[base + x] := ReconByte(filter.value, line, x, a, b, c);
      Written(was, pixels[..], base, x);
      x := x + 1;
    }
    return true;
  }

  lemma FlattenNone(cells: seq<Byte>)
    requires cells == []
    ensures cells == Flatten([])
  {
  }

  lemma RowAppended(cells: seq<Byte>, rows: seq<seq<Byte>>, row: seq<Byte>, base: nat)
    requires base + |row| <= |cells| && cells[..base] == Flatten(rows)
    requires cells[base..base + |row|] == row
    ensures cells[..base + |row|] == Flatten(rows + [row])
  {
    assert (rows + [row])[..|rows|] == rows;
    assert cells[..base + |row|] == cells[..base] + row;
  }

  /** Undo the filters of every row in one zeroed buffer, stopping at a row with no such filter. */
  method Unfilter(raw: seq<Byte>, stride: nat, height: nat)
    returns (pixels: array<Byte>, badRow: Option<nat>)
    ensures fresh(pixels) && pixels.Length == Start(height, stride)
    ensures match badRow
            case None => Decodes(raw, stride, height) && pixels[..] == Flatten(ReconRows(raw, stride, height))
            case Some(y) => y < height && Decodes(raw, stride, y) && !RowDecodes(raw, stride, y)
  {
    hide ReconRow, Flatten;
    pixels := new Byte[Start(height, stride)](_ => 0);
    var y := 0;
    FlattenNone(pixels[..0]);
    while y < height
      invariant 0 <= y <= height
      invariant Start(y, stride) <= pixels.Length
      invariant Decodes(raw, stride, y) && pixels[..Start(y, stride)] == Flatten(ReconRows(raw, stride, y))
    {
      StartsInOrder(y, height, stride);
      ghost var base, rows := Start(y, stride), ReconRows(raw, stride, y);
      var ok := UnfilterRow(raw, stride, y, pixels, rows);
      if !ok {
        return pixels, Some(y);
      }
      RowAppended(pixels[..], rows, pixels[base..base + stride], base);
      y := y + 1;
    }
    badRow := None;
    assert pixels[..] == pixels[..Start(height, stride)];
  }

  /** What the decoder reads beside position x of row y is what the specification means. */
  lemma Neighbours(cells: seq<Byte>, rows: seq<seq<Byte>>, stride: nat, y: nat, x: nat)
    requires Uniform(rows, stride) && |rows| == y && x < stride
    requires Start(y, stride) + stride <= |cells| && cells[..Start(y, stride)] == Flatten(rows)
    ensures var base, prior := Start(y, stride), Above(rows, stride, y);
            && (x >= 4 ==> cells[base + x - 4] == Left(cells[base..base + x], x))
            && (y > 0 ==> stride <= base && cells[base - stride + x] == prior[x])
            && (y > 0 && x >= 4 ==> cells[base - stride + x - 4] == Left(prior, x))
  {
    hide Flatten;
    if y > 0 {
      var from := Start(y - 1, stride);
      FlattenRow(rows, stride, y - 1);
      SliceOfSlice(cells, from + stride, from, from + stride);
      var row := rows[y - 1];
      assert cells[from..from + stride][x] == row[x];
      assert x >= 4 ==> cells[from..from + stride][x - 4] == row[x - 4];
    }
  }

  lemma Written(was: seq<Byte>, cells: seq<Byte>, base: nat, x: nat)
    requires base + x < |was| == |cells| && cells == was[base + x := cells[base + x]]
    ensures cells[..base] == was[..base]
    ensures cells[base..base + x + 1] == was[base..base + x] + [cells[base + x]]
  {
  }
}
