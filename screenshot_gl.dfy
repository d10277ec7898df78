/**
 * The OpenGL build's screenshot path: R_ReadTiledPixels renders the screen
 * in window-sized tiles and copies each tile's rows (padded to four bytes by
 * glReadPixels) into the RGB image; TakeScreenshot optionally blends several
 * jittered passes through an unsigned-short accumulator, and for TGA output
 * writes the 18-byte header and turns RGB into BGR.
 *
 * What glReadPixels returns for a tile is foreign: a `Readback` gives the
 * bytes read for the tile at (xo, yo), and one `Readback` per pass stands
 * for the differently jittered renders of a blended screenshot.
 */
module ScreenshotGl {
  import opened BufferObjects

  /** Bytes of the TGA header written in front of the pixels. */
  const TGA_HEADER_SIZE: nat := 18

  /** The most passes R_ScreenShot_f lets a blended screenshot take. */
  const MAX_BLENDS: int := 256

  /** One more than the largest unsigned short, the accumulator's element type. */
  const SHORT_LIMIT: int := 0x1_0000

  // ---------------------------------------------------------------- tiles

  /** The size of the tile starting at `origin`: the window size, clipped to what is left of the image. */
  function TileExtent(sys: int, origin: int, total: int): (n: int)
    ensures n <= sys && n <= total - origin
    ensures n == sys || n == total - origin
  {
    if origin + sys > total then total - origin else sys
  }

  /**
   * The 32-bit words a row of w RGB pixels fills once padded: every four
   * pixels take three words, and the last one to three pixels one word each.
   */
  function PaddedWords(w: nat): (q: nat)
    ensures 3 * w <= 4 * q < 3 * w + 4
  {
    if w < 4 then w else PaddedWords(w - 4) + 3
  }

  /** A row of w RGB pixels padded to a multiple of four bytes. */
  function RowPitch(w: nat): (row: nat)
    ensures row % 4 == 0
    ensures 3 * w <= row < 3 * w + 4
  {
    4 * PaddedWords(w)
  }

  /** RowPitch is `(w * 3 + 3) & ~3`, the padded length glReadPixels fills. */
  lemma RowPitchMasksLowBits(w: nat)
    ensures RowPitch(w) == (w * 3 + 3) - (w * 3 + 3) % 4
  {
    var q := PaddedWords(w);
    assert w * 3 + 3 == 4 * q + (w * 3 + 3 - 4 * q);
  }

  /** The padded row is the least multiple of four that holds the row. */
  lemma RowPitchIsLeast(w: nat, m: nat)
    requires m % 4 == 0 && 3 * w <= m
    ensures RowPitch(w) <= m
  {
  }

  /**
   * The geometry of an R_ReadTiledPixels call: the image is `width` x
   * `height` RGB pixels stored from byte `base` of the buffer (18 for TGA),
   * and the window is `sysW` x `sysH`.
   */
  datatype Shot = Shot(base: nat, width: nat, height: nat, sysW: nat, sysH: nat)

  /**
   * a * b, by repeated addition, so that the solver sees products of
   * unknowns only through the lemmas below.
   */
  function Mul(a: nat, b: nat): nat
  {
    if a == 0 then 0 else Mul(a - 1, b) + b
  }

  lemma {:induction false} MulMonoLeft(a: nat, b: nat, c: nat)
    requires a <= b
    ensures Mul(a, c) <= Mul(b, c)
    decreases b
  {
    if a < b {
      MulMonoLeft(a, b - 1, c);
    }
  }

  lemma {:induction false} MulMonoRight(a: nat, b: nat, c: nat)
    requires b <= c
    ensures Mul(a, b) <= Mul(a, c)
  {
    if a > 0 {
      MulMonoRight(a - 1, b, c);
    }
  }

  /** Mul is multiplication. */
  lemma {:induction false} MulIsProduct(a: nat, b: nat)
    ensures Mul(a, b) == a * b
  {
    if a > 0 {
      MulIsProduct(a - 1, b);
    }
  }

  /** Bytes of the RGB image: width * height * 3. */
  function ImageBytes(shot: Shot): nat
  {
    3 * Mul(shot.height, shot.width)
  }

  predicate ShotFits(shot: Shot, len: nat)
  {
    shot.sysW >= 1 && shot.sysH >= 1 && shot.base + ImageBytes(shot) <= len
  }

  /** Bytes of the readback buffer R_ReadTiledPixels allocates: `(sysWidth + 3) * sysHeight * 3`. */
  function TempSize(shot: Shot): nat
  {
    Mul(shot.sysH, 3 * (shot.sysW + 3))
  }

  /** What glReadPixels leaves in the readback buffer for the tile at (xo, yo). */
  type Readback = (nat, nat) -> seq<byte>

  ghost predicate ReadbackSized(shot: Shot, rb: Readback)
  {
    forall x: nat, y: nat :: |rb(x, y)| == TempSize(shot)
  }

  /** One tile: its origin (xo, yo), its clipped size w x h and its padded row length. */
  datatype Tile = Tile(xo: nat, yo: nat, w: nat, h: nat, row: nat)


  function TileAt(shot: Shot, xo: nat, yo: nat): (g: Tile)
    requires xo < shot.width && yo < shot.height && shot.sysW >= 1 && shot.sysH >= 1
    ensures g.xo == xo && g.yo == yo
    ensures 1 <= g.w <= shot.sysW && xo + g.w <= shot.width
    ensures 1 <= g.h <= shot.sysH && yo + g.h <= shot.height
    ensures g.row == RowPitch(g.w)
  {
    var w := TileExtent(shot.sysW, xo, shot.width);
    var h := TileExtent(shot.sysH, yo, shot.height);
    Tile(xo, yo, w, h, RowPitch(w))
  }

  /** a * (b + c) by parts, for the row arithmetic below. */
  lemma {:induction false} MulAddLeft(a: nat, b: nat, c: nat)
    ensures Mul(a + b, c) == Mul(a, c) + Mul(b, c)
    decreases a
  {
    if a > 0 {
      MulAddLeft(a - 1, b, c);
    }
  }

  lemma {:induction false} MulThree(a: nat, b: nat)
    ensures Mul(a, 3 * b) == 3 * Mul(a, b)
  {
    if a > 0 {
      MulThree(a - 1, b);
    }
  }

  /**
   * The rows of one tile as the memcpy loop walks them: where the next row
   * goes in the image (`dst`) and where it is read in the readback buffer
   * (`src`), how far apart consecutive rows are in each, the bytes of a row
   * and the number of rows still to copy.
   */
  datatype Rows = Rows(dst: nat, src: nat, stride: nat, pitch: nat, len: nat, count: nat)

  function NextRow(r: Rows): (n: Rows)
    requires r.count > 0
    ensures n.count == r.count - 1
  {
    r.(dst := r.dst + r.stride, src := r.src + r.pitch, count := r.count - 1)
  }

  /** The rows left after y rows have been copied. */
  function Advance(r: Rows, y: nat): (n: Rows)
    requires y <= r.count
    ensures n.count == r.count - y
  {
    if y == 0 then r else NextRow(Advance(r, y - 1))
  }

  /** Every remaining row lies inside an image of sLen bytes and a readback of tLen bytes. */
  predicate RowsFit(r: Rows, sLen: nat, tLen: nat)
    decreases r.count
  {
    r.count == 0 || (r.dst + r.len <= sLen && r.src + r.len <= tLen && RowsFit(NextRow(r), sLen, tLen))
  }

  /** The image after the remaining rows have been copied from `temp`, padding dropped. */
  function CopyRows(s: seq<byte>, temp: seq<byte>, r: Rows): (t: seq<byte>)
    requires RowsFit(r, |s|, |temp|)
    ensures |t| == |s|
    decreases r.count
  {
    if r.count == 0 then s
    else CopyRows(WriteRow(s, r.dst, temp[r.src..r.src + r.len]), temp, NextRow(r))
  }

  /** memcpy of one row: the bytes of d written over s from `at` on, one at a time. */
  function WriteRow(s: seq<byte>, at: nat, d: seq<byte>): (r: seq<byte>)
    requires at + |d| <= |s|
    ensures |r| == |s|
    decreases |d|
  {
    if |d| == 0 then s else WriteRow(s[at := d[0]], at + 1, d[1..])
  }

  /** Writing a row byte by byte is splicing it in whole. */
  lemma {:induction false} WriteRowIsSplice(s: seq<byte>, at: nat, d: seq<byte>)
    requires at + |d| <= |s|
    ensures WriteRow(s, at, d) == Splice(s, at, d)
    decreases |d|
  {
    if |d| > 0 {
      var s1 := s[at := d[0]];
      WriteRowIsSplice(s1, at + 1, d[1..]);
      var l, r := Splice(s1, at + 1, d[1..]), Splice(s, at, d);
      forall k | 0 <= k < |s|
        ensures l[k] == r[k]
      {
        if at < k < at + |d| {
          assert l[k] == l[at + 1..at + |d|][k - at - 1];
          assert r[k] == r[at..at + |d|][k - at];
        } else if k == at {
          SpliceKeepsOthers(s1, at + 1, d[1..], k);
          assert r[k] == r[at..at + |d|][0];
        } else {
          SpliceKeepsOthers(s1, at + 1, d[1..], k);
          SpliceKeepsOthers(s, at, d, k);
        }
      }
    }
  }

  /** The rows of tile g: the image is width * 3 bytes a row, the readback g.row bytes a row. */
  function TileRows(shot: Shot, g: Tile): Rows
  {
    Rows(shot.base + 3 * (Mul(g.yo, shot.width) + g.xo), 0, 3 * shot.width, g.row, 3 * g.w, g.h)
  }

  /** After y rows the walk stands y strides on from where it started. */
  lemma {:induction false} AdvanceOffsets(r: Rows, y: nat)
    requires y <= r.count
    ensures Advance(r, y) == r.(dst := r.dst + Mul(y, r.stride), src := r.src + Mul(y, r.pitch), count := r.count - y)
  {
    if y > 0 {
      AdvanceOffsets(r, y - 1);
    }
  }

  /**
   * Row y of tile g is copied to `((yo + y) * width + xo) * 3` bytes past the
   * base from `y * row` bytes into the readback, the offsets R_ReadTiledPixels
   * computes for its memcpy.
   */
  lemma TileRowOffsets(shot: Shot, g: Tile, y: nat)
    requires y <= g.h
    ensures Advance(TileRows(shot, g), y).dst == shot.base + ((g.yo + y) * shot.width + g.xo) * 3
    ensures Advance(TileRows(shot, g), y).src == y * g.row
  {
    AdvanceOffsets(TileRows(shot, g), y);
    MulThree(y, shot.width);
    MulAddLeft(g.yo, y, shot.width);
    MulIsProduct(g.yo + y, shot.width);
    MulIsProduct(y, g.row);
  }

  /** The rows fit when the last one does. */
  lemma {:induction false} RowsFitWhenLastFits(r: Rows, sLen: nat, tLen: nat)
    requires r.count > 0 ==> r.dst + Mul(r.count - 1, r.stride) + r.len <= sLen
    requires r.count > 0 ==> r.src + Mul(r.count - 1, r.pitch) + r.len <= tLen
    ensures RowsFit(r, sLen, tLen)
    decreases r.count
  {
    if r.count > 0 {
      if r.count > 1 {
        assert Mul(r.count - 1, r.stride) == Mul(r.count - 2, r.stride) + r.stride;
        assert Mul(r.count - 1, r.pitch) == Mul(r.count - 2, r.pitch) + r.pitch;
      }
      RowsFitWhenLastFits(NextRow(r), sLen, tLen);
    }
  }

  /** The last row of a tile inside the image ends inside width * height * 3 bytes from base. */
  lemma LastRowInImage(shot: Shot, g: Tile)
    requires 1 <= g.h && g.xo + g.w <= shot.width && g.yo + g.h <= shot.height
    ensures TileRows(shot, g).dst + Mul(g.h - 1, 3 * shot.width) + 3 * g.w <= shot.base + ImageBytes(shot)
  {
    var last := g.h - 1;
    MulThree(last, shot.width);
    MulAddLeft(g.yo, last, shot.width);
    assert Mul(g.yo + g.h, shot.width) == Mul(g.yo + last, shot.width) + shot.width;
    MulMonoLeft(g.yo + g.h, shot.height, shot.width);
  }

  /** The last padded row of a tile no bigger than the window ends inside the readback buffer. */
  lemma LastRowInReadback(shot: Shot, g: Tile)
    requires 1 <= g.h <= shot.sysH && 3 * g.w <= g.row <= 3 * (shot.sysW + 3)
    ensures Mul(g.h - 1, g.row) + 3 * g.w <= TempSize(shot)
  {
    assert Mul(g.h, g.row) == Mul(g.h - 1, g.row) + g.row;
    MulMonoLeft(g.h, shot.sysH, g.row);
    MulMonoRight(shot.sysH, g.row, 3 * (shot.sysW + 3));
  }

  /** Every tile's rows lie inside the image and inside the readback buffer. */
  lemma TileAtFits(shot: Shot, len: nat, xo: nat, yo: nat)
    requires ShotFits(shot, len) && xo < shot.width && yo < shot.height
    ensures RowsFit(TileRows(shot, TileAt(shot, xo, yo)), len, TempSize(shot))
    ensures TileRows(shot, TileAt(shot, xo, yo)).dst >= shot.base
  {
    var g := TileAt(shot, xo, yo);
    LastRowInImage(shot, g);
    LastRowInReadback(shot, g);
    RowsFitWhenLastFits(TileRows(shot, g), len, TempSize(shot));
  }

  /**
   * The image once R_ReadTiledPixels has read every tile from (xo, yo) down
   * column xo, and then every later column.
   */
  function ColumnFrom(s: seq<byte>, shot: Shot, rb: Readback, xo: nat, yo: nat): (r: seq<byte>)
    requires ShotFits(shot, |s|) && ReadbackSized(shot, rb) && xo < shot.width
    ensures |r| == |s|
    decreases shot.width - xo, shot.height - yo
  {
    if yo >= shot.height then TilesFrom(s, shot, rb, xo + shot.sysW)
    else
      TileAtFits(shot, |s|, xo, yo);
      RowsFrom(s, shot, rb, xo, yo, TileRows(shot, TileAt(shot, xo, yo)))
  }

  /** The image once every tile column from xo on has been read. */
  function TilesFrom(s: seq<byte>, shot: Shot, rb: Readback, xo: nat): (r: seq<byte>)
    requires ShotFits(shot, |s|) && ReadbackSized(shot, rb)
    ensures |r| == |s|
    decreases shot.width - xo, shot.height + 1
  {
    if xo >= shot.width then s else ColumnFrom(s, shot, rb, xo, 0)
  }

  /**
   * The image once the rows r left of the tile at (xo, yo) have been copied
   * from its readback, and every tile after it has been read.
   */
  function RowsFrom(s: seq<byte>, shot: Shot, rb: Readback, xo: nat, yo: nat, r: Rows): (t: seq<byte>)
    requires ShotFits(shot, |s|) && ReadbackSized(shot, rb) && xo < shot.width && yo < shot.height
    requires RowsFit(r, |s|, |rb(xo, yo)|)
    ensures |t| == |s|
    decreases shot.width - xo, shot.height - yo, r.count
  {
    if r.count == 0 then ColumnFrom(s, shot, rb, xo, yo + shot.sysH)
    else RowsFrom(WriteRow(s, r.dst, rb(xo, yo)[r.src..r.src + r.len]), shot, rb, xo, yo, NextRow(r))
  }

  /** Copying the rows of a tile and then reading the tiles after it. */
  lemma {:induction false} RowsFromIsCopyRows(s: seq<byte>, shot: Shot, rb: Readback, xo: nat, yo: nat, r: Rows)
    requires ShotFits(shot, |s|) && ReadbackSized(shot, rb) && xo < shot.width && yo < shot.height
    requires RowsFit(r, |s|, |rb(xo, yo)|)
    ensures RowsFrom(s, shot, rb, xo, yo, r) == ColumnFrom(CopyRows(s, rb(xo, yo), r), shot, rb, xo, yo + shot.sysH)
    decreases r.count
  {
    if r.count > 0 {
      RowsFromIsCopyRows(WriteRow(s, r.dst, rb(xo, yo)[r.src..r.src + r.len]), shot, rb, xo, yo, NextRow(r));
    }
  }

  /** Copying a tile's rows with memcpy, one padded readback row at a time. */
  method CopyTile(buffer: array<byte>, shot: Shot, temp: seq<byte>, g: Tile)
    requires RowsFit(TileRows(shot, g), buffer.Length, |temp|)
    modifies buffer
    ensures buffer[..] == CopyRows(old(buffer[..]), temp, TileRows(shot, g))
  {
    ghost var final := CopyRows(buffer[..], temp, TileRows(shot, g));
    var r := TileRows(shot, g);
    var y := 0;
    while y < g.h
      invariant 0 <= y <= g.h && r == Advance(TileRows(shot, g), y)
      invariant RowsFit(r, buffer.Length, |temp|)
      invariant CopyRows(buffer[..], temp, r) == final
    {
      WriteRowIsSplice(buffer[..], r.dst, temp[r.src..r.src + r.len]);
      CopyBytes(buffer, r.dst, temp[r.src..r.src + r.len]);
      r := NextRow(r);
      y := y + 1;
    }
  }


  /** R_ReadTiledPixels: reads the image column by column of window-sized tiles. */
  method ReadTiledPixels(buffer: array<byte>, shot: Shot, rb: Readback)
    requires ShotFits(shot, buffer.Length) && ReadbackSized(shot, rb)
    modifies buffer
    ensures buffer[..] == TilesFrom(old(buffer[..]), shot, rb, 0)
  {
    ghost var final := TilesFrom(buffer[..], shot, rb, 0);
    var xo: nat := 0;
    while xo < shot.width
      invariant TilesFrom(buffer[..], shot, rb, xo) == final
      decreases shot.width - xo
    {
      ReadColumn(buffer, shot, rb, xo);
      xo := xo + shot.sysW;
    }
    TilesDone(buffer[..], shot, rb, xo);
  }

  lemma TilesDone(s: seq<byte>, shot: Shot, rb: Readback, xo: nat)
    requires ShotFits(shot, |s|) && ReadbackSized(shot, rb) && xo >= shot.width
    ensures TilesFrom(s, shot, rb, xo) == s
  {
  }

  /**
   * The inner loop of R_ReadTiledPixels: the tiles of column xo, top to
   * bottom, leave exactly the later columns to read.
   */
  method ReadColumn(buffer: array<byte>, shot: Shot, rb: Readback, xo: nat)
    requires ShotFits(shot, buffer.Length) && ReadbackSized(shot, rb) && xo < shot.width
    modifies buffer
    ensures TilesFrom(buffer[..], shot, rb, xo + shot.sysW) == TilesFrom(old(buffer[..]), shot, rb, xo)
  {
    ColumnStart(buffer[..], shot, rb, xo);
    ghost var rest := ColumnFrom(buffer[..], shot, rb, xo, 0);
    var yo: nat := 0;
    while yo < shot.height
      invariant ColumnFrom(buffer[..], shot, rb, xo, yo) == rest
      decreases shot.height - yo
    {
      ReadTile(buffer, shot, rb, xo, yo);
      yo := yo + shot.sysH;
    }
    ColumnDone(buffer[..], shot, rb, xo, yo);
  }

  lemma ColumnStart(s: seq<byte>, shot: Shot, rb: Readback, xo: nat)
    requires ShotFits(shot, |s|) && ReadbackSized(shot, rb) && xo < shot.width
    ensures TilesFrom(s, shot, rb, xo) == ColumnFrom(s, shot, rb, xo, 0)
  {
  }

  lemma ColumnDone(s: seq<byte>, shot: Shot, rb: Readback, xo: nat, yo: nat)
    requires ShotFits(shot, |s|) && ReadbackSized(shot, rb) && xo < shot.width && yo >= shot.height
    ensures ColumnFrom(s, shot, rb, xo, yo) == TilesFrom(s, shot, rb, xo + shot.sysW)
  {
  }

  /**
   * One tile of R_ReadTiledPixels: its clipped size, its readback and the
   * copy of its rows, after which the tiles below it are left to read.
   */
  method ReadTile(buffer: array<byte>, shot: Shot, rb: Readback, xo: nat, yo: nat)
    requires ShotFits(shot, buffer.Length) && ReadbackSized(shot, rb) && xo < shot.width && yo < shot.height
    modifies buffer
    ensures ColumnFrom(buffer[..], shot, rb, xo, yo + shot.sysH) == ColumnFrom(old(buffer[..]), shot, rb, xo, yo)
  {
    TileAtFits(shot, buffer.Length, xo, yo);
    var g := TileAt(shot, xo, yo);
    ColumnStep(buffer[..], shot, rb, xo, yo);
    CopyTile(buffer, shot, rb(xo, yo), g);
  }

  /** One tile of the column, then the tiles below it. */
  lemma ColumnStep(s: seq<byte>, shot: Shot, rb: Readback, xo: nat, yo: nat)
    requires ShotFits(shot, |s|) && ReadbackSized(shot, rb) && xo < shot.width && yo < shot.height
    ensures && RowsFit(TileRows(shot, TileAt(shot, xo, yo)), |s|, |rb(xo, yo)|)
            && ColumnFrom(s, shot, rb, xo, yo)
               == ColumnFrom(CopyRows(s, rb(xo, yo), TileRows(shot, TileAt(shot, xo, yo))), shot, rb, xo, yo + shot.sysH)
  {
    TileAtFits(shot, |s|, xo, yo);
    RowsFromIsCopyRows(s, shot, rb, xo, yo, TileRows(shot, TileAt(shot, xo, yo)));
  }

  /** A splice at or after `b` leaves the first b bytes alone. */
  lemma SplicePrefix(s: seq<byte>, at: int, d: seq<byte>, b: nat)
    requires 0 <= b <= at && at + |d| <= |s|
    ensures Splice(s, at, d)[..b] == s[..b]
  {
    forall i | 0 <= i < b
      ensures Splice(s, at, d)[i] == s[i]
    {
      SpliceKeepsOthers(s, at, d, i);
    }
  }

  /** Copying rows that all start at or after b leaves the first b bytes alone. */
  lemma {:induction false} CopyRowsKeepPrefix(s: seq<byte>, temp: seq<byte>, r: Rows, b: nat)
    requires RowsFit(r, |s|, |temp|) && b <= r.dst && b <= |s|
    ensures CopyRows(s, temp, r)[..b] == s[..b]
    decreases r.count
  {
    if r.count > 0 {
      var t := WriteRow(s, r.dst, temp[r.src..r.src + r.len]);
      WriteRowIsSplice(s, r.dst, temp[r.src..r.src + r.len]);
      SplicePrefix(s, r.dst, temp[r.src..r.src + r.len], b);
      CopyRowsKeepPrefix(t, temp, NextRow(r), b);
    }
  }

  /** One tile's rows land at or after the image's base. */
  lemma TileKeepsPrefix(s: seq<byte>, shot: Shot, rb: Readback, xo: nat, yo: nat)
    requires ShotFits(shot, |s|) && ReadbackSized(shot, rb) && xo < shot.width && yo < shot.height
    ensures && RowsFit(TileRows(shot, TileAt(shot, xo, yo)), |s|, |rb(xo, yo)|)
            && CopyRows(s, rb(xo, yo), TileRows(shot, TileAt(shot, xo, yo)))[..shot.base] == s[..shot.base]
  {
    TileAtFits(shot, |s|, xo, yo);
    CopyRowsKeepPrefix(s, rb(xo, yo), TileRows(shot, TileAt(shot, xo, yo)), shot.base);
  }

  lemma {:induction false} ColumnFromKeepsPrefix(s: seq<byte>, shot: Shot, rb: Readback, xo: nat, yo: nat)
    requires ShotFits(shot, |s|) && ReadbackSized(shot, rb) && xo < shot.width
    ensures ColumnFrom(s, shot, rb, xo, yo)[..shot.base] == s[..shot.base]
    decreases shot.width - xo, shot.height - yo
  {
    if yo < shot.height {
      ColumnStep(s, shot, rb, xo, yo);
      TileKeepsPrefix(s, shot, rb, xo, yo);
      ColumnFromKeepsPrefix(CopyRows(s, rb(xo, yo), TileRows(shot, TileAt(shot, xo, yo))), shot, rb, xo, yo + shot.sysH);
    } else {
      TilesFromKeepsPrefix(s, shot, rb, xo + shot.sysW);
    }
  }

  /** R_ReadTiledPixels never writes in front of the image, so a TGA header survives it. */
  lemma {:induction false} TilesFromKeepsPrefix(s: seq<byte>, shot: Shot, rb: Readback, xo: nat)
    requires ShotFits(shot, |s|) && ReadbackSized(shot, rb)
    ensures TilesFrom(s, shot, rb, xo)[..shot.base] == s[..shot.base]
    decreases shot.width - xo, shot.height + 1
  {
    if xo < shot.width {
      ColumnFromKeepsPrefix(s, shot, rb, xo, 0);
    }
  }

  /**
   * A screenshot no bigger than the window is a single tile: one readback,
   * copied whole.
   */
  lemma SingleTile(s: seq<byte>, shot: Shot, rb: Readback)
    requires ShotFits(shot, |s|) && ReadbackSized(shot, rb)
    requires 1 <= shot.width <= shot.sysW && 1 <= shot.height <= shot.sysH
    ensures TileAt(shot, 0, 0) == Tile(0, 0, shot.width, shot.height, RowPitch(shot.width))
    ensures && RowsFit(TileRows(shot, TileAt(shot, 0, 0)), |s|, |rb(0, 0)|)
            && TilesFrom(s, shot, rb, 0) == CopyRows(s, rb(0, 0), TileRows(shot, TileAt(shot, 0, 0)))
  {
    ColumnStep(s, shot, rb, 0, 0);
    var t := CopyRows(s, rb(0, 0), TileRows(shot, TileAt(shot, 0, 0)));
    assert TilesFrom(t, shot, rb, shot.sysW) == t;
    assert ColumnFrom(t, shot, rb, 0, shot.sysH) == t;
  }

  // ---------------------------------------------------------------- pixels

  /** The origin of the tile that holds coordinate x: the last multiple of `sys` not above x. */
  function Origin(x: nat, sys: nat): (o: nat)
    requires sys >= 1
    ensures o <= x < o + sys
  {
    if x < sys then 0 else Origin(x - sys, sys) + sys
  }

  /** Origin is x rounded down to a multiple of sys, `x - x % sys`. */
  lemma {:induction false} OriginIsModOffset(x: nat, sys: nat)
    requires sys >= 1
    ensures Origin(x, sys) == x - x % sys
    decreases x
  {
    if x >= sys {
      OriginIsModOffset(x - sys, sys);
      ModStep(x, sys);
    } else {
      ModBelow(x, sys);
    }
  }

  lemma {:induction false} ModBelow(x: nat, sys: nat)
    requires x < sys
    ensures x % sys == x
  {
    var q, r := x / sys, x % sys;
    assert x == sys * q + r && 0 <= r < sys;
    if q >= 1 {
      MulAtLeast(sys, q);
      assert false;
    }
  }

  lemma {:induction false} ModStep(x: nat, sys: nat)
    requires 1 <= sys <= x
    ensures (x - sys) % sys == x % sys
  {
    var q, r := (x - sys) / sys, (x - sys) % sys;
    assert x - sys == sys * q + r && 0 <= r < sys;
    assert x == sys * (q + 1) + r;
    var q', r' := x / sys, x % sys;
    assert x == sys * q' + r' && 0 <= r' < sys;
    var d := q' - (q + 1);
    assert sys * d == r - r' by {
      assert sys * d == sys * q' - sys * (q + 1);
    }
    if d >= 1 {
      MulAtLeast(sys, d);
      assert false;
    } else if d <= -1 {
      MulAtLeast(sys, -d);
      assert false;
    }
  }

  /** Every coordinate from an aligned origin to the next one belongs to the tile at that origin. */
  lemma {:induction false} OriginOfAligned(xo: nat, x: nat, sys: nat)
    requires sys >= 1 && Origin(xo, sys) == xo && xo <= x < xo + sys
    ensures Origin(x, sys) == xo
    decreases xo
  {
    if xo >= sys {
      OriginOfAligned(xo - sys, x - sys, sys);
    }
  }

  /** The byte of channel c of pixel (x, y): `(y * width + x) * 3 + c` past the image's base. */
  function Pixel(shot: Shot, x: nat, y: nat, c: nat): nat
  {
    shot.base + 3 * (Mul(y, shot.width) + x) + c
  }

  /** A pixel's bytes lie inside the image. */
  lemma {:induction false} PixelInImage(shot: Shot, x: nat, y: nat, c: nat)
    requires x < shot.width && y < shot.height && c < 3
    ensures shot.base <= Pixel(shot, x, y, c) < shot.base + ImageBytes(shot)
  {
    MulMonoLeft(y + 1, shot.height, shot.width);
  }

  /** Whether pixel (x, y) lies in tile g. */
  predicate InTile(g: Tile, x: nat, y: nat)
  {
    g.xo <= x < g.xo + g.w && g.yo <= y < g.yo + g.h
  }

  /** Byte j of the k-th remaining row is copied from byte j of that row's readback. */
  lemma {:induction false} RowsWrite(s: seq<byte>, temp: seq<byte>, r: Rows, k: nat, j: nat)
    requires RowsFit(r, |s|, |temp|) && r.len <= r.stride && k < r.count && j < r.len
    ensures r.dst + Mul(k, r.stride) + j < |s| && r.src + Mul(k, r.pitch) + j < |temp|
    ensures CopyRows(s, temp, r)[r.dst + Mul(k, r.stride) + j] == temp[r.src + Mul(k, r.pitch) + j]
    decreases k
  {
    if k == 0 {
      FirstRowWrite(s, temp, r, j);
    } else {
      var t := WriteRow(s, r.dst, temp[r.src..r.src + r.len]);
      assert Mul(k, r.stride) == Mul(k - 1, r.stride) + r.stride;
      assert Mul(k, r.pitch) == Mul(k - 1, r.pitch) + r.pitch;
      RowsWrite(t, temp, NextRow(r), k - 1, j);
    }
  }

  /** The first row's bytes are copied, and the later rows, which start past it, leave them. */
  lemma {:induction false} FirstRowWrite(s: seq<byte>, temp: seq<byte>, r: Rows, j: nat)
    requires RowsFit(r, |s|, |temp|) && r.len <= r.stride && 0 < r.count && j < r.len
    ensures r.dst + j < |s| && r.src + j < |temp|
    ensures CopyRows(s, temp, r)[r.dst + j] == temp[r.src + j]
  {
    var d := temp[r.src..r.src + r.len];
    var t := WriteRow(s, r.dst, d);
    WriteRowAt(s, r.dst, d, j);
    RowsKeepBelow(t, temp, NextRow(r), r.dst + j);
  }

  /** Byte j of a written row holds byte j of the row. */
  lemma {:induction false} WriteRowAt(s: seq<byte>, at: nat, d: seq<byte>, j: nat)
    requires at + |d| <= |s| && j < |d|
    ensures WriteRow(s, at, d)[at + j] == d[j]
  {
    WriteRowIsSplice(s, at, d);
    assert Splice(s, at, d)[at + j] == Splice(s, at, d)[at..at + |d|][j];
  }
  /**
   * A byte in the gap after a row (j at or past the row's length) or past
   * the last row keeps its value.
   */
  lemma {:induction false} RowsKeep(s: seq<byte>, temp: seq<byte>, r: Rows, k: nat, j: nat)
    requires RowsFit(r, |s|, |temp|) && r.len <= r.stride && j < r.stride
    requires k >= r.count || j >= r.len
    requires r.dst + Mul(k, r.stride) + j < |s|
    ensures CopyRows(s, temp, r)[r.dst + Mul(k, r.stride) + j] == s[r.dst + Mul(k, r.stride) + j]
    decreases r.count
  {
    if r.count > 0 {
      var q := r.dst + Mul(k, r.stride) + j;
      var d := temp[r.src..r.src + r.len];
      var t := WriteRow(s, r.dst, d);
      WriteRowIsSplice(s, r.dst, d);
      SpliceKeepsOthers(s, r.dst, d, q);
      if k == 0 {
        CopyRowsKeepPrefix(t, temp, NextRow(r), q + 1);
        assert CopyRows(t, temp, NextRow(r))[q] == CopyRows(t, temp, NextRow(r))[..q + 1][q];
      } else {
        RowsKeep(t, temp, NextRow(r), k - 1, j);
      }
    }
  }

  /** Copying rows that start after byte q leaves byte q alone. */
  lemma {:induction false} RowsKeepBelow(s: seq<byte>, temp: seq<byte>, r: Rows, q: nat)
    requires RowsFit(r, |s|, |temp|) && q < r.dst && q < |s|
    ensures CopyRows(s, temp, r)[q] == s[q]
  {
    CopyRowsKeepPrefix(s, temp, r, q + 1);
    assert CopyRows(s, temp, r)[q] == CopyRows(s, temp, r)[..q + 1][q];
  }

  /** Copying rows that all end by byte b leaves every byte from b on alone. */
  lemma {:induction false} RowsKeepAbove(s: seq<byte>, temp: seq<byte>, r: Rows, b: nat, q: nat)
    requires RowsFit(r, |s|, |temp|) && RowsFit(r, b, |temp|) && b <= q < |s|
    ensures CopyRows(s, temp, r)[q] == s[q]
    decreases r.count
  {
    if r.count > 0 {
      var d := temp[r.src..r.src + r.len];
      WriteRowIsSplice(s, r.dst, d);
      SpliceKeepsOthers(s, r.dst, d, q);
      RowsKeepAbove(WriteRow(s, r.dst, d), temp, NextRow(r), b, q);
    }
  }

  /** Row y of the image, at or below the tile's top row, seen from the tile's first row. */
  lemma {:induction false} PixelFromTileRow(shot: Shot, g: Tile, x: nat, y: nat, c: nat)
    requires g.yo <= y
    ensures Pixel(shot, x, y, c) + 3 * g.xo == TileRows(shot, g).dst + Mul(y - g.yo, 3 * shot.width) + 3 * x + c
  {
    MulThree(y - g.yo, shot.width);
    MulAddLeft(g.yo, y - g.yo, shot.width);
  }

  /** A pixel inside a tile has its bytes inside the tile's readback. */
  lemma {:induction false} TileReadbackBound(shot: Shot, g: Tile, x: nat, y: nat, c: nat)
    requires 1 <= g.h <= shot.sysH && 3 * g.w <= g.row <= 3 * (shot.sysW + 3)
    requires InTile(g, x, y) && c < 3
    ensures Mul(y - g.yo, g.row) + 3 * (x - g.xo) + c < TempSize(shot)
  {
    MulMonoLeft(y - g.yo, g.h - 1, g.row);
    LastRowInReadback(shot, g);
  }

  /**
   * Copying tile g: a pixel inside the tile takes its bytes from the tile's
   * readback, row y - yo at `(y - yo) * row` and column x - xo at
   * `(x - xo) * 3`; every other pixel keeps its bytes.
   */
  lemma {:induction false} TilePixel(s: seq<byte>, shot: Shot, temp: seq<byte>, g: Tile, x: nat, y: nat, c: nat)
    requires RowsFit(TileRows(shot, g), |s|, |temp|) && g.xo + g.w <= shot.width
    requires x < shot.width && y < shot.height && c < 3 && shot.base + ImageBytes(shot) <= |s|
    ensures Pixel(shot, x, y, c) < |s|
    ensures InTile(g, x, y) ==> Mul(y - g.yo, g.row) + 3 * (x - g.xo) + c < |temp|
    ensures CopyRows(s, temp, TileRows(shot, g))[Pixel(shot, x, y, c)]
            == if InTile(g, x, y) then temp[Mul(y - g.yo, g.row) + 3 * (x - g.xo) + c] else s[Pixel(shot, x, y, c)]
  {
    PixelInImage(shot, x, y, c);
    if y < g.yo || (y == g.yo && x < g.xo) {
      TilePixelAbove(s, shot, temp, g, x, y, c);
    } else if x < g.xo {
      TilePixelLeft(s, shot, temp, g, x, y, c);
    } else if InTile(g, x, y) {
      TilePixelInside(s, shot, temp, g, x, y, c);
    } else {
      TilePixelRightOrBelow(s, shot, temp, g, x, y, c);
    }
  }

  /** A pixel left of the tile, on a row below its first, sits in the gap after the row above. */
  lemma {:induction false} TilePixelLeft(s: seq<byte>, shot: Shot, temp: seq<byte>, g: Tile, x: nat, y: nat, c: nat)
    requires RowsFit(TileRows(shot, g), |s|, |temp|) && g.xo + g.w <= shot.width && Pixel(shot, x, y, c) < |s|
    requires c < 3 && g.yo < y && x < g.xo
    ensures CopyRows(s, temp, TileRows(shot, g))[Pixel(shot, x, y, c)] == s[Pixel(shot, x, y, c)]
  {
    var r := TileRows(shot, g);
    var k := y - g.yo;
    PixelFromTileRow(shot, g, x, y, c);
    assert Mul(k, r.stride) == Mul(k - 1, r.stride) + r.stride;
    RowsKeep(s, temp, r, k - 1, 3 * (shot.width + x - g.xo) + c);
  }

  /** A pixel inside the tile is copied from its row and column of the readback. */
  lemma {:induction false} TilePixelInside(s: seq<byte>, shot: Shot, temp: seq<byte>, g: Tile, x: nat, y: nat, c: nat)
    requires RowsFit(TileRows(shot, g), |s|, |temp|) && g.xo + g.w <= shot.width && Pixel(shot, x, y, c) < |s|
    requires c < 3 && InTile(g, x, y)
    ensures Mul(y - g.yo, g.row) + 3 * (x - g.xo) + c < |temp|
    ensures CopyRows(s, temp, TileRows(shot, g))[Pixel(shot, x, y, c)] == temp[Mul(y - g.yo, g.row) + 3 * (x - g.xo) + c]
  {
    PixelFromTileRow(shot, g, x, y, c);
    RowsWrite(s, temp, TileRows(shot, g), y - g.yo, 3 * (x - g.xo) + c);
  }

  /** A pixel right of the tile lies in a row's gap, and one below it past the last row. */
  lemma {:induction false} TilePixelRightOrBelow(s: seq<byte>, shot: Shot, temp: seq<byte>, g: Tile, x: nat, y: nat, c: nat)
    requires RowsFit(TileRows(shot, g), |s|, |temp|) && g.xo + g.w <= shot.width && Pixel(shot, x, y, c) < |s|
    requires x < shot.width && c < 3 && g.yo <= y && g.xo <= x && !InTile(g, x, y)
    ensures CopyRows(s, temp, TileRows(shot, g))[Pixel(shot, x, y, c)] == s[Pixel(shot, x, y, c)]
  {
    PixelFromTileRow(shot, g, x, y, c);
    RowsKeep(s, temp, TileRows(shot, g), y - g.yo, 3 * (x - g.xo) + c);
  }

  /** A pixel before the tile's first byte keeps its bytes. */
  lemma {:induction false} TilePixelAbove(s: seq<byte>, shot: Shot, temp: seq<byte>, g: Tile, x: nat, y: nat, c: nat)
    requires RowsFit(TileRows(shot, g), |s|, |temp|) && Pixel(shot, x, y, c) < |s|
    requires x < shot.width && c < 3 && (y < g.yo || (y == g.yo && x < g.xo))
    ensures CopyRows(s, temp, TileRows(shot, g))[Pixel(shot, x, y, c)] == s[Pixel(shot, x, y, c)]
  {
    if y < g.yo {
      MulMonoLeft(y + 1, g.yo, shot.width);
    }
    RowsKeepBelow(s, temp, TileRows(shot, g), Pixel(shot, x, y, c));
  }

  /** The tile holding pixel (x, y). */
  function TileOf(shot: Shot, x: nat, y: nat): (g: Tile)
    requires shot.sysW >= 1 && shot.sysH >= 1 && x < shot.width && y < shot.height
    ensures InTile(g, x, y) && g.row == RowPitch(g.w)
    ensures g.xo == Origin(x, shot.sysW) && g.yo == Origin(y, shot.sysH)
  {
    TileAt(shot, Origin(x, shot.sysW), Origin(y, shot.sysH))
  }

  /** Where channel c of pixel (x, y) goes: `(y * width + x) * 3 + c` bytes past the base. */
  function ImageOffset(shot: Shot, x: nat, y: nat, c: nat): (o: nat)
    requires x < shot.width && y < shot.height && c < 3
    ensures o == Pixel(shot, x, y, c) && shot.base <= o < shot.base + ImageBytes(shot)
  {
    MulIsProduct(y, shot.width);
    PixelInImage(shot, x, y, c);
    shot.base + 3 * (y * shot.width + x) + c
  }

  /**
   * Where channel c of pixel (x, y) is read in its tile's readback: row
   * y - yo of `row` padded bytes, column x - xo of three bytes.
   */
  function ReadbackOffset(shot: Shot, x: nat, y: nat, c: nat): (o: nat)
    requires shot.sysW >= 1 && shot.sysH >= 1 && x < shot.width && y < shot.height && c < 3
    ensures var g := TileOf(shot, x, y);
      o == Mul(y - g.yo, g.row) + 3 * (x - g.xo) + c && o < TempSize(shot)
  {
    var g := TileOf(shot, x, y);
    MulIsProduct(y - g.yo, g.row);
    TileReadbackBound(shot, g, x, y, c);
    (y - g.yo) * g.row + 3 * (x - g.xo) + c
  }

  /**
   * The byte R_ReadTiledPixels leaves for channel c of pixel (x, y): the
   * one the readback of the tile holding the pixel has at that pixel's row
   * and column.
   */
  ghost function TiledPixel(shot: Shot, rb: Readback, x: nat, y: nat, c: nat): byte
    requires shot.sysW >= 1 && shot.sysH >= 1 && ReadbackSized(shot, rb)
    requires x < shot.width && y < shot.height && c < 3
  {
    var g := TileOf(shot, x, y);
    rb(g.xo, g.yo)[ReadbackOffset(shot, x, y, c)]
  }

  /**
   * The column from (xo, yo) down, and the columns after it: a pixel of a
   * later column, or of this column at or below yo, takes its tile's bytes;
   * any other keeps its own.
   */
  lemma {:induction false} ColumnFromPixel(s: seq<byte>, shot: Shot, rb: Readback, xo: nat, yo: nat, x: nat, y: nat, c: nat)
    requires ShotFits(shot, |s|) && ReadbackSized(shot, rb) && xo < shot.width
    requires Origin(xo, shot.sysW) == xo && Origin(yo, shot.sysH) == yo
    requires x < shot.width && y < shot.height && c < 3
    ensures Pixel(shot, x, y, c) < |s|
    ensures ColumnFrom(s, shot, rb, xo, yo)[Pixel(shot, x, y, c)]
            == if xo + shot.sysW <= x || (xo <= x && yo <= y) then TiledPixel(shot, rb, x, y, c) else s[Pixel(shot, x, y, c)]
    decreases shot.width - xo, shot.height - yo
  {
    PixelInImage(shot, x, y, c);
    if yo >= shot.height {
      TilesFromPixel(s, shot, rb, xo + shot.sysW, x, y, c);
    } else {
      ColumnStep(s, shot, rb, xo, yo);
      var t := CopyRows(s, rb(xo, yo), TileRows(shot, TileAt(shot, xo, yo)));
      ColumnFromPixel(t, shot, rb, xo, yo + shot.sysH, x, y, c);
      TileStepPixel(s, shot, rb, xo, yo, x, y, c);
    }
  }

  /** The tile at an aligned (xo, yo) gives a pixel of its window-sized square the bytes TiledPixel names. */
  lemma {:induction false} TileStepPixel(s: seq<byte>, shot: Shot, rb: Readback, xo: nat, yo: nat, x: nat, y: nat, c: nat)
    requires ShotFits(shot, |s|) && ReadbackSized(shot, rb) && xo < shot.width && yo < shot.height
    requires Origin(xo, shot.sysW) == xo && Origin(yo, shot.sysH) == yo
    requires x < shot.width && y < shot.height && c < 3
    ensures Pixel(shot, x, y, c) < |s|
    ensures && RowsFit(TileRows(shot, TileAt(shot, xo, yo)), |s|, |rb(xo, yo)|)
            && CopyRows(s, rb(xo, yo), TileRows(shot, TileAt(shot, xo, yo)))[Pixel(shot, x, y, c)]
               == if xo <= x < xo + shot.sysW && yo <= y < yo + shot.sysH then TiledPixel(shot, rb, x, y, c)
                  else s[Pixel(shot, x, y, c)]
  {
    var g := TileAt(shot, xo, yo);
    TileAtFits(shot, |s|, xo, yo);
    TilePixel(s, shot, rb(xo, yo), g, x, y, c);
    if xo <= x < xo + shot.sysW && yo <= y < yo + shot.sysH {
      OriginOfAligned(xo, x, shot.sysW);
      OriginOfAligned(yo, y, shot.sysH);
    }
  }

  /** The columns from xo on: a pixel at or right of xo takes its tile's bytes, any other keeps its own. */
  lemma {:induction false} TilesFromPixel(s: seq<byte>, shot: Shot, rb: Readback, xo: nat, x: nat, y: nat, c: nat)
    requires ShotFits(shot, |s|) && ReadbackSized(shot, rb) && Origin(xo, shot.sysW) == xo
    requires x < shot.width && y < shot.height && c < 3
    ensures Pixel(shot, x, y, c) < |s|
    ensures TilesFrom(s, shot, rb, xo)[Pixel(shot, x, y, c)]
            == if xo <= x then TiledPixel(shot, rb, x, y, c) else s[Pixel(shot, x, y, c)]
    decreases shot.width - xo, shot.height + 1
  {
    PixelInImage(shot, x, y, c);
    if xo < shot.width {
      ColumnFromPixel(s, shot, rb, xo, 0, x, y, c);
    }
  }

  /**
   * R_ReadTiledPixels fills every pixel of the image from the readback of
   * the tile holding it (the one at `(x - x % sysW, y - y % sysH)`, see
   * OriginIsModOffset): channel c of pixel (x, y) is byte
   * `(y - yo) * row + (x - xo) * 3 + c` of that readback, where row is the
   * tile's padded row length.
   */
  lemma {:induction false} ReadTiledPixelsFillsPixel(s: seq<byte>, shot: Shot, rb: Readback, x: nat, y: nat, c: nat)
    requires ShotFits(shot, |s|) && ReadbackSized(shot, rb)
    requires x < shot.width && y < shot.height && c < 3
    ensures var g := TileOf(shot, x, y);
      TilesFrom(s, shot, rb, 0)[ImageOffset(shot, x, y, c)] == rb(g.xo, g.yo)[ReadbackOffset(shot, x, y, c)]
  {
    TilesFromPixel(s, shot, rb, 0, x, y, c);
  }

  /** One tile's rows leave every byte outside the image alone. */
  lemma {:induction false} TileKeepsOutside(s: seq<byte>, shot: Shot, rb: Readback, xo: nat, yo: nat, q: nat)
    requires ShotFits(shot, |s|) && ReadbackSized(shot, rb) && xo < shot.width && yo < shot.height
    requires q < |s| && (q < shot.base || shot.base + ImageBytes(shot) <= q)
    ensures && RowsFit(TileRows(shot, TileAt(shot, xo, yo)), |s|, |rb(xo, yo)|)
            && CopyRows(s, rb(xo, yo), TileRows(shot, TileAt(shot, xo, yo)))[q] == s[q]
  {
    var r := TileRows(shot, TileAt(shot, xo, yo));
    TileAtFits(shot, |s|, xo, yo);
    if q < shot.base {
      RowsKeepBelow(s, rb(xo, yo), r, q);
    } else {
      TileAtFits(shot, shot.base + ImageBytes(shot), xo, yo);
      RowsKeepAbove(s, rb(xo, yo), r, shot.base + ImageBytes(shot), q);
    }
  }

  lemma {:induction false} ColumnFromKeepsOutside(s: seq<byte>, shot: Shot, rb: Readback, xo: nat, yo: nat, q: nat)
    requires ShotFits(shot, |s|) && ReadbackSized(shot, rb) && xo < shot.width
    requires q < |s| && (q < shot.base || shot.base + ImageBytes(shot) <= q)
    ensures ColumnFrom(s, shot, rb, xo, yo)[q] == s[q]
    decreases shot.width - xo, shot.height - yo
  {
    if yo < shot.height {
      ColumnStep(s, shot, rb, xo, yo);
      TileKeepsOutside(s, shot, rb, xo, yo, q);
      ColumnFromKeepsOutside(CopyRows(s, rb(xo, yo), TileRows(shot, TileAt(shot, xo, yo))), shot, rb, xo, yo + shot.sysH, q);
    } else {
      TilesFromKeepsOutside(s, shot, rb, xo + shot.sysW, q);
    }
  }

  /**
   * R_ReadTiledPixels writes only the image: every byte in front of it (a
   * TGA header) and every byte after it keeps its value.
   */
  lemma {:induction false} TilesFromKeepsOutside(s: seq<byte>, shot: Shot, rb: Readback, xo: nat, q: nat)
    requires ShotFits(shot, |s|) && ReadbackSized(shot, rb)
    requires q < |s| && (q < shot.base || shot.base + ImageBytes(shot) <= q)
    ensures TilesFrom(s, shot, rb, xo)[q] == s[q]
    decreases shot.width - xo, shot.height + 1
  {
    if xo < shot.width {
      ColumnFromKeepsOutside(s, shot, rb, xo, 0, q);
    }
  }

  // ---------------------------------------------------------------- blending

  /** An element of TakeScreenshot's accumulator, an unsigned short. */
  newtype ushort = x: int | 0 <= x < 0x1_0000

  /** `shortBuffer[j] += b`: the sum truncated back to an unsigned short. */
  function AddByte(a: ushort, b: byte): ushort
  {
    ((a as int + b as int) % SHORT_LIMIT) as ushort
  }

  /** `buffer[i] = shortBuffer[i] / blends`: the quotient truncated to an unsigned char. */
  function Quotient(a: ushort, blends: nat): byte
    requires blends >= 1
  {
    ((a as int / blends) % 256) as byte
  }

  predicate SameSize(images: seq<seq<byte>>, n: nat)
  {
    forall i :: 0 <= i < |images| ==> |images[i]| == n
  }

  /** One pass of the accumulation loop over the whole image. */
  function AddPixels(acc: seq<ushort>, p: seq<byte>): (r: seq<ushort>)
    requires |acc| == |p|
    ensures |r| == |acc|
  {
    seq(|acc|, j requires 0 <= j < |acc| => AddByte(acc[j], p[j]))
  }

  /** The accumulator after adding the pass images in order to the memset-zero buffer. */
  function Accumulate(images: seq<seq<byte>>, n: nat): (acc: seq<ushort>)
    requires SameSize(images, n)
    ensures |acc| == n
    decreases |images|
  {
    if |images| == 0 then seq(n, _ => 0)
    else AddPixels(Accumulate(images[..|images| - 1], n), images[|images| - 1])
  }

  /** The exact sum of byte j over the pass images. */
  function Sum(images: seq<seq<byte>>, j: nat): (t: nat)
    requires forall i :: 0 <= i < |images| ==> j < |images[i]|
    ensures t <= 255 * |images|
    decreases |images|
  {
    if |images| == 0 then 0 else Sum(images[..|images| - 1], j) + images[|images| - 1][j] as nat
  }

  /** The divide-back loop over the whole image. */
  function Quotients(acc: seq<ushort>, blends: nat): (p: seq<byte>)
    requires blends >= 1
    ensures |p| == |acc|
  {
    seq(|acc|, j requires 0 <= j < |acc| => Quotient(acc[j], blends))
  }

  /** The blended image: the accumulator divided by the number of passes. */
  function Average(images: seq<seq<byte>>, n: nat): (p: seq<byte>)
    requires SameSize(images, n) && |images| >= 1
    ensures |p| == n
  {
    Quotients(Accumulate(images, n), |images|)
  }

  /** With at most MAX_BLENDS passes the accumulator never wraps: it holds the exact sum. */
  lemma {:induction false} AccumulateIsSum(images: seq<seq<byte>>, n: nat, j: nat)
    requires SameSize(images, n) && j < n && |images| <= MAX_BLENDS
    ensures Accumulate(images, n)[j] as int == Sum(images, j)
    decreases |images|
  {
    if |images| > 0 {
      var prefix := images[..|images| - 1];
      AccumulateIsSum(prefix, n, j);
      assert Sum(prefix, j) <= 255 * 255;
    }
  }

  /** Dividing a sum of n bytes by n leaves a byte, so the store into an unsigned char keeps it whole. */
  lemma QuotientOfSum(a: ushort, n: nat)
    requires 1 <= n && a as int <= 255 * n
    ensures Quotient(a, n) as int == a as int / n
  {
    var q := a as int / n;
    assert n * q <= a as int;
    assert q <= 255;
  }

  /**
   * With 1 to MAX_BLENDS passes every blended byte is the mean of that byte
   * over the passes, rounded down: nothing wraps in the accumulator and
   * nothing is cut off when the quotient is stored back as a byte.
   */
  lemma AverageIsMean(images: seq<seq<byte>>, n: nat, j: nat)
    requires SameSize(images, n) && j < n && 1 <= |images| <= MAX_BLENDS
    ensures Average(images, n)[j] as int == Sum(images, j) / |images|
  {
    var acc := Accumulate(images, n);
    AccumulateIsSum(images, n, j);
    QuotientOfSum(acc[j], |images|);
  }

  /** Images that agree on a byte sum to the image count times it. */
  lemma {:induction false} SumOfEqual(images: seq<seq<byte>>, j: nat, v: byte)
    requires forall i :: 0 <= i < |images| ==> j < |images[i]| && images[i][j] == v
    ensures Sum(images, j) == |images| * v as nat
    decreases |images|
  {
    if |images| > 0 {
      SumOfEqual(images[..|images| - 1], j, v);
    }
  }

  lemma DivOfMultiple(k: nat, v: nat)
    requires k >= 1
    ensures (k * v) / k == v
  {
    var q, r := (k * v) / k, (k * v) % k;
    assert k * v == k * q + r && 0 <= r < k;
    var d := v - q;
    assert k * d == r by {
      assert k * d == k * v - k * q;
    }
    if d >= 1 {
      MulAtLeast(k, d);
      assert false;
    } else if d <= -1 {
      MulAtLeast(k, -d);
      assert false;
    }
  }

  lemma MulAtLeast(k: nat, d: int)
    requires d >= 1
    ensures k * d >= k && k * -d <= -(k as int)
  {
    assert k * d == k * (d - 1) + k;
  }

  /** Blending passes that all read the same byte gives that byte back. */
  lemma AverageOfEqual(images: seq<seq<byte>>, n: nat, j: nat, v: byte)
    requires SameSize(images, n) && j < n && 1 <= |images| <= MAX_BLENDS
    requires forall i :: 0 <= i < |images| ==> images[i][j] == v
    ensures Average(images, n)[j] == v
  {
    SumOfEqual(images, j, v);
    AverageIsMean(images, n, j);
    DivOfMultiple(|images|, v as nat);
  }

  /** The average of a single image is that image. */
  lemma AverageOfOne(p: seq<byte>)
    ensures SameSize([p], |p|) && Average([p], |p|) == p
  {
    assert [p][..0] == [];
    forall j | 0 <= j < |p|
      ensures Average([p], |p|)[j] == p[j]
    {
      AccumulateIsSum([p], |p|, j);
    }
  }

  /** The pixel bytes of the image, the part R_ReadTiledPixels fills. */
  function Pixels(s: seq<byte>, shot: Shot): (p: seq<byte>)
    requires ShotFits(shot, |s|)
    ensures |p| == ImageBytes(shot)
  {
    s[shot.base..shot.base + ImageBytes(shot)]
  }

  ghost predicate AllSized(shot: Shot, passes: seq<Readback>)
  {
    forall k :: 0 <= k < |passes| ==> ReadbackSized(shot, passes[k])
  }

  /** The buffer after one R_ReadTiledPixels per pass, in order. */
  function AfterPasses(s: seq<byte>, shot: Shot, passes: seq<Readback>): (t: seq<byte>)
    requires ShotFits(shot, |s|) && AllSized(shot, passes)
    ensures |t| == |s|
    decreases |passes|
  {
    if |passes| == 0 then s
    else TilesFrom(AfterPasses(s, shot, passes[..|passes| - 1]), shot, passes[|passes| - 1], 0)
  }

  /** The image each pass leaves in the buffer, in order. */
  function PassImages(s: seq<byte>, shot: Shot, passes: seq<Readback>): (images: seq<seq<byte>>)
    requires ShotFits(shot, |s|) && AllSized(shot, passes)
    ensures |images| == |passes| && SameSize(images, ImageBytes(shot))
    decreases |passes|
  {
    if |passes| == 0 then []
    else PassImages(s, shot, passes[..|passes| - 1]) + [Pixels(AfterPasses(s, shot, passes), shot)]
  }

  /** The buffer after a blended screenshot's passes and the divide-back. */
  function Blended(s: seq<byte>, shot: Shot, passes: seq<Readback>): (t: seq<byte>)
    requires ShotFits(shot, |s|) && AllSized(shot, passes) && |passes| >= 1
    ensures |t| == |s|
  {
    Splice(AfterPasses(s, shot, passes), shot.base, Average(PassImages(s, shot, passes), ImageBytes(shot)))
  }

  /** A blend of one pass is the plain read TakeScreenshot does for `blends <= 1`. */
  lemma OnePassBlendIsPlainRead(s: seq<byte>, shot: Shot, rb: Readback)
    requires ShotFits(shot, |s|) && ReadbackSized(shot, rb)
    ensures AllSized(shot, [rb]) && Blended(s, shot, [rb]) == TilesFrom(s, shot, rb, 0)
  {
    var t := TilesFrom(s, shot, rb, 0);
    assert [rb][..0] == [];
    assert AfterPasses(s, shot, [rb]) == t;
    assert PassImages(s, shot, [rb]) == [Pixels(t, shot)];
    AverageOfOne(Pixels(t, shot));
    assert Splice(t, shot.base, Pixels(t, shot)) == t;
  }

  /** The accumulation loop of one pass. */
  method AddPass(acc: array<ushort>, buffer: array<byte>, base: nat)
    requires base + acc.Length <= buffer.Length
    modifies acc
    ensures acc[..] == AddPixels(old(acc[..]), buffer[base..base + acc.Length])
  {
    ghost var a := acc[..];
    for j := 0 to acc.Length
      invariant forall k :: 0 <= k < j ==> acc[k] == AddByte(a[k], buffer[base + k])
      invariant forall k :: j <= k < acc.Length ==> acc[k] == a[k]
    {
      acc[j] := AddByte(acc[j], buffer[base + j]);
    }
  }

  /** The divide-back loop. */
  method DivideInto(buffer: array<byte>, base: nat, acc: array<ushort>, blends: nat)
    requires base + acc.Length <= buffer.Length && blends >= 1
    modifies buffer
    ensures buffer[..] == Splice(old(buffer[..]), base, Quotients(acc[..], blends))
  {
    ghost var s := buffer[..];
    for i := 0 to acc.Length
      invariant forall k :: 0 <= k < i ==> buffer[base + k] == Quotient(acc[k], blends)
      invariant forall k :: 0 <= k < buffer.Length && !(base <= k < base + i) ==> buffer[k] == s[k]
    {
      buffer[base + i] := Quotient(acc[i], blends);
    }
    ghost var t := Splice(s, base, Quotients(acc[..], blends));
    forall k | 0 <= k < buffer.Length
      ensures buffer[k] == t[k]
    {
      if base <= k < base + acc.Length {
        assert buffer[base + (k - base)] == Quotient(acc[k - base], blends);
      }
    }
  }

  /**
   * The blended branch of TakeScreenshot: one R_ReadTiledPixels per pass,
   * each added into the zeroed accumulator, then the accumulator divided
   * back into the image.
   */
  method BlendPasses(buffer: array<byte>, shot: Shot, passes: seq<Readback>)
    requires ShotFits(shot, buffer.Length) && AllSized(shot, passes) && |passes| >= 1
    modifies buffer
    ensures buffer[..] == Blended(old(buffer[..]), shot, passes)
  {
    ghost var s := buffer[..];
    var acc := new ushort[ImageBytes(shot)](_ => 0);
    assert passes[..0] == [];
    var i := 0;
    while i < |passes|
      invariant 0 <= i <= |passes|
      invariant AllSized(shot, passes[..i])
      invariant buffer[..] == AfterPasses(s, shot, passes[..i])
      invariant acc[..] == Accumulate(PassImages(s, shot, passes[..i]), ImageBytes(shot))
    {
      ghost var images := PassImages(s, shot, passes[..i]);
      assert passes[..i + 1][..i] == passes[..i];
      ReadTiledPixels(buffer, shot, passes[i]);
      assert (images + [buffer[shot.base..shot.base + ImageBytes(shot)]])[..i] == images;
      AddPass(acc, buffer, shot.base);
      i := i + 1;
    }
    assert passes[..i] == passes;
    DivideInto(buffer, shot.base, acc, |passes|);
  }

  /** Reading passes never writes in front of the image. */
  lemma {:induction false} AfterPassesKeepsPrefix(s: seq<byte>, shot: Shot, passes: seq<Readback>)
    requires ShotFits(shot, |s|) && AllSized(shot, passes)
    ensures AfterPasses(s, shot, passes)[..shot.base] == s[..shot.base]
    decreases |passes|
  {
    if |passes| > 0 {
      var prefix := passes[..|passes| - 1];
      AfterPassesKeepsPrefix(s, shot, prefix);
      TilesFromKeepsPrefix(AfterPasses(s, shot, prefix), shot, passes[|passes| - 1], 0);
    }
  }

  // ---------------------------------------------------------------- TGA

  /**
   * The header fields TakeScreenshot fills in: image type 2 (uncompressed
   * true colour), width and height low byte first, 24 bits per pixel.  Each
   * byte store keeps the low eight bits of `width & 255` or `width >> 8`.
   */
  function WithTgaHeader(s: seq<byte>, width: nat, height: nat): (t: seq<byte>)
    requires |s| >= TGA_HEADER_SIZE
    ensures |t| == |s|
  {
    s[2 := 2][12 := (width % 256) as byte][13 := (width / 256 % 256) as byte]
     [14 := (height % 256) as byte][15 := (height / 256 % 256) as byte][16 := 24]
  }

  /** A 16-bit little-endian header field, as a TGA reader decodes it. */
  function HeaderField(t: seq<byte>, at: nat): nat
    requires at + 1 < |t|
  {
    t[at] as nat + 256 * t[at + 1] as nat
  }

  /**
   * The header a reader decodes: type 2, 24 bits per pixel, and the width and
   * height modulo 2^16 (exactly, below 65536); every other byte untouched.
   */
  lemma TgaHeaderFields(s: seq<byte>, width: nat, height: nat)
    requires |s| >= TGA_HEADER_SIZE
    ensures var t := WithTgaHeader(s, width, height);
      && t[2] == 2 && t[16] == 24
      && HeaderField(t, 12) == width % 0x1_0000
      && HeaderField(t, 14) == height % 0x1_0000
      && forall k :: 0 <= k < |s| && k != 2 && !(12 <= k <= 16) ==> t[k] == s[k]
  {
  }

  /** The header fills only the header. */
  lemma TgaHeaderKeepsPixels(s: seq<byte>, width: nat, height: nat)
    requires |s| >= TGA_HEADER_SIZE
    ensures WithTgaHeader(s, width, height)[TGA_HEADER_SIZE..] == s[TGA_HEADER_SIZE..]
  {
  }

  /** The header stores of TakeScreenshot. */
  method FillTgaHeader(buffer: array<byte>, width: nat, height: nat)
    requires buffer.Length >= TGA_HEADER_SIZE
    modifies buffer
    ensures buffer[..] == WithTgaHeader(old(buffer[..]), width, height)
  {
    buffer[2] := 2;
    buffer[12] := (width % 256) as byte;
    buffer[13] := (width / 256 % 256) as byte;
    buffer[14] := (height % 256) as byte;
    buffer[15] := (height / 256 % 256) as byte;
    buffer[16] := 24;
  }

  /** Bytes 0 and 2 of each of the `count` triples from `from` exchanged: RGB to BGR. */
  function SwapRedBlue(s: seq<byte>, from: nat, count: nat): (t: seq<byte>)
    requires from + 3 * count <= |s|
    ensures |t| == |s|
  {
    seq(|s|, i requires 0 <= i < |s| =>
      if from <= i < from + 3 * count then
        (if (i - from) % 3 == 0 then s[i + 2] else if (i - from) % 3 == 2 then s[i - 2] else s[i])
      else s[i])
  }

  /** Swapping twice gives the pixels back: BGR to RGB undoes RGB to BGR. */
  lemma SwapRedBlueInvolutive(s: seq<byte>, from: nat, count: nat)
    requires from + 3 * count <= |s|
    ensures SwapRedBlue(SwapRedBlue(s, from, count), from, count) == s
  {
    var t := SwapRedBlue(s, from, count);
    var u := SwapRedBlue(t, from, count);
    forall i | 0 <= i < |s|
      ensures u[i] == s[i]
    {
      if from <= i < from + 3 * count {
        if (i - from) % 3 == 0 {
          assert (i + 2 - from) % 3 == 2;
        } else if (i - from) % 3 == 2 {
          assert (i - 2 - from) % 3 == 0;
        }
      }
    }
  }

  /** The swap loop of TakeScreenshot, three bytes a step. */
  method SwapInPlace(buffer: array<byte>, from: nat, count: nat)
    requires from + 3 * count <= buffer.Length
    modifies buffer
    ensures buffer[..] == SwapRedBlue(old(buffer[..]), from, count)
  {
    ghost var s := buffer[..];
    ghost var t := SwapRedBlue(s, from, count);
    var c := from + 3 * count;
    var i := from;
    while i < c
      invariant from <= i <= c && (i - from) % 3 == 0
      invariant forall k :: 0 <= k < buffer.Length ==> buffer[k] == if from <= k < i then t[k] else s[k]
      decreases c - i
    {
      assert (i + 2 - from) % 3 == 2;
      var temp := buffer[i];
      buffer[i] := buffer[i + 2];
      buffer[i + 2] := temp;
      i := i + 3;
    }
    assert buffer[..] == t;
  }

  // ---------------------------------------------------------------- TakeScreenshot

  /** The two output formats; `exten` in the source. */
  datatype ScreenshotFormat = PNG | TGA

  /** The number of reads TakeScreenshot makes: one, or `blends` when that is more. */
  function PassCount(blends: int): (n: nat)
    ensures n >= 1 && (blends > 1 ==> n == blends)
  {
    if blends <= 1 then 1 else blends
  }

  /** The buffer layout: the pixels start after the 18-byte header for TGA, at byte 0 for PNG. */
  function ShotOf(width: nat, height: nat, exten: ScreenshotFormat, sysW: nat, sysH: nat): Shot
  {
    Shot(if exten == TGA then TGA_HEADER_SIZE else 0, width, height, sysW, sysH)
  }

  /** The buffer once the image is read: one read, or the blend of `blends` jittered reads. */
  function ScreenshotImage(s: seq<byte>, shot: Shot, blends: int, passes: seq<Readback>): (t: seq<byte>)
    requires ShotFits(shot, |s|) && AllSized(shot, passes) && |passes| == PassCount(blends)
    ensures |t| == |s|
  {
    if blends <= 1 then TilesFrom(s, shot, passes[0], 0) else Blended(s, shot, passes)
  }

  /**
   * The bytes TakeScreenshot hands on: for PNG the RGB image, read into a
   * buffer whose prior contents are `uninit`; for TGA the zeroed buffer with
   * the image read after the header, the header filled and RGB turned to BGR.
   */
  function ScreenshotFile(width: nat, height: nat, blends: int, exten: ScreenshotFormat, sysW: nat, sysH: nat,
                          passes: seq<Readback>, uninit: seq<byte>): (file: seq<byte>)
    requires sysW >= 1 && sysH >= 1
    requires |passes| == PassCount(blends) && AllSized(ShotOf(width, height, exten, sysW, sysH), passes)
    requires exten == PNG ==> |uninit| == ImageBytes(ShotOf(width, height, exten, sysW, sysH))
    ensures |file| == ShotOf(width, height, exten, sysW, sysH).base + ImageBytes(ShotOf(width, height, exten, sysW, sysH))
  {
    var shot := ShotOf(width, height, exten, sysW, sysH);
    if exten == PNG then ScreenshotImage(uninit, shot, blends, passes)
    else
      var image := ScreenshotImage(seq(TGA_HEADER_SIZE + ImageBytes(shot), _ => 0), shot, blends, passes);
      SwapRedBlue(WithTgaHeader(image, width, height), TGA_HEADER_SIZE, Mul(height, width))
  }

  /** The read of TakeScreenshot: one R_ReadTiledPixels, or the blended passes. */
  method ReadImage(buffer: array<byte>, shot: Shot, blends: int, passes: seq<Readback>)
    requires ShotFits(shot, buffer.Length) && AllSized(shot, passes) && |passes| == PassCount(blends)
    modifies buffer
    ensures buffer[..] == ScreenshotImage(old(buffer[..]), shot, blends, passes)
  {
    if blends <= 1 {
      ReadTiledPixels(buffer, shot, passes[0]);
    } else {
      BlendPasses(buffer, shot, passes);
    }
  }

  /** The TGA encoding of TakeScreenshot: the header stores, then RGB to BGR over the pixels. */
  method EncodeTga(buffer: array<byte>, width: nat, height: nat)
    requires TGA_HEADER_SIZE + 3 * Mul(height, width) <= buffer.Length
    modifies buffer
    ensures buffer[..] == SwapRedBlue(WithTgaHeader(old(buffer[..]), width, height), TGA_HEADER_SIZE, Mul(height, width))
  {
    FillTgaHeader(buffer, width, height);
    SwapInPlace(buffer, TGA_HEADER_SIZE, Mul(height, width));
  }

  /** TakeScreenshot: read or blend the image, then encode it for its file. */
  method TakeScreenshot(width: nat, height: nat, blends: int, exten: ScreenshotFormat, sysW: nat, sysH: nat,
                        passes: seq<Readback>, uninit: seq<byte>) returns (file: seq<byte>)
    requires sysW >= 1 && sysH >= 1
    requires |passes| == PassCount(blends) && AllSized(ShotOf(width, height, exten, sysW, sysH), passes)
    requires exten == PNG ==> |uninit| == ImageBytes(ShotOf(width, height, exten, sysW, sysH))
    ensures file == ScreenshotFile(width, height, blends, exten, sysW, sysH, passes, uninit)
  {
    var shot := ShotOf(width, height, exten, sysW, sysH);
    if exten == PNG {
      var buffer := new byte[ImageBytes(shot)](i requires 0 <= i < |uninit| => uninit[i]);
      assert buffer[..] == uninit;
      ReadImage(buffer, shot, blends, passes);
      file := buffer[..];
    } else {
      var buffer := new byte[TGA_HEADER_SIZE + ImageBytes(shot)](_ => 0);
      assert buffer[..] == seq(TGA_HEADER_SIZE + ImageBytes(shot), _ => 0);
      ReadImage(buffer, shot, blends, passes);
      EncodeTga(buffer, width, height);
      file := buffer[..];
    }
  }

  /**
   * A TGA screenshot decodes to what was read: type 2, 24 bits per pixel,
   * the width and height (modulo 2^16), zero in the other header bytes, and
   * pixels that turn back into the read RGB image when swapped again.
   */
  lemma TgaFileLayout(width: nat, height: nat, blends: int, sysW: nat, sysH: nat, passes: seq<Readback>, uninit: seq<byte>)
    requires sysW >= 1 && sysH >= 1
    requires |passes| == PassCount(blends) && AllSized(ShotOf(width, height, TGA, sysW, sysH), passes)
    ensures var file := ScreenshotFile(width, height, blends, TGA, sysW, sysH, passes, uninit);
      && |file| == TGA_HEADER_SIZE + 3 * (width * height)
      && file[2] == 2 && file[16] == 24
      && HeaderField(file, 12) == width % 0x1_0000 && HeaderField(file, 14) == height % 0x1_0000
      && (forall k :: 0 <= k < TGA_HEADER_SIZE && k != 2 && !(12 <= k <= 16) ==> file[k] == 0)
      && SwapRedBlue(file, TGA_HEADER_SIZE, width * height)[TGA_HEADER_SIZE..]
         == ScreenshotImage(seq(|file|, _ => 0), ShotOf(width, height, TGA, sysW, sysH), blends, passes)[TGA_HEADER_SIZE..]
  {
    var shot := ShotOf(width, height, TGA, sysW, sysH);
    MulIsProduct(height, width);
    var zero: seq<byte> := seq(TGA_HEADER_SIZE + ImageBytes(shot), _ => 0);
    var image := ScreenshotImage(zero, shot, blends, passes);
    ImageKeepsHeader(zero, shot, blends, passes);
    assert forall k :: 0 <= k < TGA_HEADER_SIZE ==> image[k] == image[..TGA_HEADER_SIZE][k] == 0;
    TgaEncoding(image, width, height);
  }

  /** The TGA encoding of an image whose header bytes are zero. */
  lemma TgaEncoding(image: seq<byte>, width: nat, height: nat)
    requires |image| == TGA_HEADER_SIZE + 3 * (width * height)
    requires forall k :: 0 <= k < TGA_HEADER_SIZE ==> image[k] == 0
    ensures Mul(height, width) == width * height
    ensures var file := SwapRedBlue(WithTgaHeader(image, width, height), TGA_HEADER_SIZE, width * height);
      && |file| == |image|
      && file[2] == 2 && file[16] == 24
      && HeaderField(file, 12) == width % 0x1_0000 && HeaderField(file, 14) == height % 0x1_0000
      && (forall k :: 0 <= k < TGA_HEADER_SIZE && k != 2 && !(12 <= k <= 16) ==> file[k] == 0)
      && SwapRedBlue(file, TGA_HEADER_SIZE, width * height)[TGA_HEADER_SIZE..] == image[TGA_HEADER_SIZE..]
  {
    MulIsProduct(height, width);
    var h := WithTgaHeader(image, width, height);
    TgaHeaderFields(image, width, height);
    TgaHeaderKeepsPixels(image, width, height);
    var file := SwapRedBlue(h, TGA_HEADER_SIZE, width * height);
    assert forall k :: 0 <= k < TGA_HEADER_SIZE ==> file[k] == h[k];
    SwapRedBlueInvolutive(h, TGA_HEADER_SIZE, width * height);
  }

  /** Reading or blending the image leaves the bytes before it as they were. */
  lemma ImageKeepsHeader(s: seq<byte>, shot: Shot, blends: int, passes: seq<Readback>)
    requires ShotFits(shot, |s|) && AllSized(shot, passes) && |passes| == PassCount(blends)
    ensures ScreenshotImage(s, shot, blends, passes)[..shot.base] == s[..shot.base]
  {
    if blends <= 1 {
      TilesFromKeepsPrefix(s, shot, passes[0], 0);
    } else {
      AfterPassesKeepsPrefix(s, shot, passes);
      var a := AfterPasses(s, shot, passes);
      var d := Average(PassImages(s, shot, passes), ImageBytes(shot));
      assert Splice(a, shot.base, d)[..shot.base] == a[..shot.base];
    }
  }
}
