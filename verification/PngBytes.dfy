/** What every byte of a decoded image is, from the bytes of its stream, in the terms of RFC 2083 section 6. */
module PngBytes {
  import opened Wrappers
  import opened PngFilter
  import opened PngAsset

  /** RFC 2083 sections 6.2 to 6.6: what a filter restores from a raw byte and the restored bytes to the left,
      above, and above to the left, zero where there are none. */
  predicate Restores(filter: int, raw: Byte, left: Byte, above: Byte, corner: Byte, value: Byte) {
    || (filter == 0 && value == raw)
    || (filter == 1 && value == (raw + left) % 256)
    || (filter == 2 && value == (raw + above) % 256)
    || (filter == 3 && value == (raw + (left + above) / 2) % 256)
    || (filter == 4 && value == (raw + Paeth(left, above, corner)) % 256)
  }

  lemma ReconByteRestores(filter: Filter, line: seq<Byte>, x: nat, a: Byte, b: Byte, c: Byte)
    ensures x < |line| ==> Restores(filter, line[x], a, b, c, ReconByte(filter, line, x, a, b, c))
    ensures x >= |line| ==> ReconByte(filter, line, x, a, b, c) == 0
  {
    hide Paeth;
  }

  /** Byte x of a decoded row, from its line and the row above. */
  lemma DecodedRowByte(filter: Filter, line: seq<Byte>, prior: seq<Byte>, x: nat)
    requires x < |prior|
    ensures var row := ReconRow(filter, line, prior, |prior|);
            if x < |line| then
              Restores(filter, line[x], if x >= 4 then row[x - 4] else 0, prior[x], if x >= 4 then prior[x - 4] else 0, row[x])
            else row[x] == 0
  {
    hide ReconByte, Restores, ReconRow;
    var row := ReconRow(filter, line, prior, |prior|);
    ReconRowAt(filter, line, prior, x, |prior|);
    ReconByteRestores(filter, line, x, Left(row, x), prior[x], Left(prior, x));
  }

  /** Byte x of decoded row y, from the raw stream: row y's filter byte stands before its line, and a byte that
      the stream does not reach is zero. */
  lemma DecodedByte(raw: seq<Byte>, stride: nat, n: nat, y: nat, x: nat)
    requires Decodes(raw, stride, n) && y < n && x < stride
    ensures var rows, at := ReconRows(raw, stride, n), y * (stride + 1);
            && at < |raw|
            && if at + 1 + x < |raw| then
                 Restores(raw[at], raw[at + 1 + x],
                          if x >= 4 then rows[y][x - 4] else 0,
                          if y > 0 then rows[y - 1][x] else 0,
                          if y > 0 && x >= 4 then rows[y - 1][x - 4] else 0,
                          rows[y][x])
               else rows[y][x] == 0
  {
    hide ReconRow, ReconRows, Restores, Start;
    StartIsProduct(y, stride + 1);
    ReconRowsRow(raw, stride, n, y);
    var rows := ReconRows(raw, stride, n);
    var prior, line := Above(rows, stride, y), LineAt(raw, stride, y);
    assert RowDecodes(raw, stride, y);
    DecodedRowByte(RowFilter(raw, stride, y), line, prior, x);
    LineByte(raw, stride, y, x);
  }

  lemma LineByte(raw: seq<Byte>, stride: nat, y: nat, x: nat)
    requires x < stride
    ensures var at := Start(y, stride + 1) + 1 + x;
            && (x < |LineAt(raw, stride, y)| <==> at < |raw|)
            && (at < |raw| ==> LineAt(raw, stride, y)[x] == raw[at])
  {
  }

  /** Byte x of row y of an image in one buffer, against its raw stream. */
  predicate ByteRestored(raw: seq<Byte>, pixels: seq<Byte>, stride: nat, y: nat, x: nat) {
    var at, here := y * (stride + 1), y * stride + x;
    && here < |pixels| && at < |raw|
    && if at + 1 + x < |raw| then
         Restores(raw[at], raw[at + 1 + x],
                  if x >= 4 then Cell(pixels, here - 4) else 0,
                  if y > 0 then Cell(pixels, here - stride) else 0,
                  if y > 0 && x >= 4 then Cell(pixels, here - stride - 4) else 0,
                  pixels[here])
       else pixels[here] == 0
  }

  function Cell(pixels: seq<Byte>, i: int): Byte {
    if 0 <= i < |pixels| then pixels[i] else 0
  }

  lemma FlatByte(rows: seq<seq<Byte>>, stride: nat, y: nat, x: nat)
    requires Uniform(rows, stride) && y < |rows| && x < stride
    ensures y * stride + x < |Flatten(rows)| && Flatten(rows)[y * stride + x] == rows[y][x]
  {
    hide Flatten, Start;
    FlattenRow(rows, stride, y);
    StartIsProduct(y, stride);
    var at := Start(y, stride);
    assert Flatten(rows)[at..at + stride][x] == Flatten(rows)[at + x];
  }

  lemma RowLength(rows: seq<seq<Byte>>, stride: nat, y: nat)
    requires Uniform(rows, stride) && y < |rows|
    ensures |rows[y]| == stride
  {
  }

  lemma FlatBytesRestored(raw: seq<Byte>, stride: nat, n: nat, y: nat, x: nat)
    requires Decodes(raw, stride, n) && y < n && x < stride
    ensures ByteRestored(raw, Flatten(ReconRows(raw, stride, n)), stride, y, x)
  {
    hide Restores, Flatten, ReconRows, Decodes, Uniform;
    var rows := ReconRows(raw, stride, n);
    RowLength(rows, stride, y);
    DecodedByte(raw, stride, n, y, x);
    FlatByte(rows, stride, y, x);
    if x >= 4 { FlatByte(rows, stride, y, x - 4); }
    if y > 0 {
      RowLength(rows, stride, y - 1);
      FlatByte(rows, stride, y - 1, x);
      if x >= 4 { FlatByte(rows, stride, y - 1, x - 4); }
      assert (y - 1) * stride == y * stride - stride;
    }
  }

  /** What decodePng returns, byte by byte: each byte of the image is what its row's filter restores from the
      inflated stream and from the image's own bytes to the left and above. */
  lemma DecodedImageByte(data: seq<Byte>, inflate: Inflate, png: Png, y: nat, x: nat) returns (raw: seq<Byte>)
    requires Decoded(data, inflate) == Ok(png) && y < png.height && x < png.width * 4
    ensures Walk(data, 8, NOTHING).Some? && inflate(Flatten(Walk(data, 8, NOTHING).value.idat)) == Some(raw)
    ensures ByteRestored(raw, png.pixels, png.width * 4, y, x)
  {
    hide Walk, Flatten, ReconRows, RowDecodes, FirstBadRow, ByteRestored, Subarray;
    raw := inflate(Flatten(Walk(data, 8, NOTHING).value.idat)).value;
    FlatBytesRestored(raw, png.width * 4, png.height, y, x);
  }
}
