/**
 * Indexed surfaces and the per-cell rules of the tile blitters of
 * n64_video.c.
 *
 * A surface is a flat, row-major buffer of 8-bit palette indices: cell k lies
 * on row k / stride and column k % stride. Every blitter rewrites the cells of
 * one rectangular box and no other cell. What it writes into a box cell
 * depends only on the cell's row and column inside the box and on the value
 * the cell held before; that dependency is a `Rule`, and `Overlay` is the
 * surface a blitter leaves behind. `Partial` is the same surface with only
 * some rows of the box rewritten, which is what the blitters' row loops
 * speak about; the row methods at the end are their inner loops.
 */
module Surfaces {

  /** A rectangle of cells: left column, top row, width and height. */
  datatype Box = Box(x: nat, y: nat, w: nat, h: nat)

  /**
   * The compositing rules. Tile pixels are row-major with `tw` pixels per row
   * and `key` is the transparent colour index (TRANSPARENT_COLOR).
   */
  datatype Rule =
      /** memcpy of a SOLID tile: every pixel, the key included */
    | Opaque(pixels: seq<bv8>, tw: nat)
      /** keyed copy, reading the tile from column tx and row ty on */
    | Keyed(pixels: seq<bv8>, tw: nat, tx: nat, ty: nat, key: bv8)
      /** keyed copy that paints tile colour 0xF in `color` */
    | Recolor(pixels: seq<bv8>, tw: nat, key: bv8, color: bv8)
      /** every non-key tile pixel becomes colour 0xF */
    | ForceWhite(pixels: seq<bv8>, tw: nat, key: bv8)
      /** every non-key tile pixel sets bit 3 of the cell */
    | Intensify(pixels: seq<bv8>, tw: nat, key: bv8)
      /** bit 3 set on a triangle, the whole tile or the other triangle */
    | Highlight(kind: bv8)
      /** keyed copy of tile row th - 1 - i into box row i */
    | KeyedFlipped(pixels: seq<bv8>, tw: nat, th: nat, key: bv8)
      /** one glyph of a 1-bit font: fg where the bit is set, bg elsewhere */
    | Glyph(font: seq<bv8>, fw: nat, fh: nat, ch: nat, fg: bv8, bg: bv8)

  /** px[idx], or `missing` when idx is outside px (never the case under the
   *  blitters' preconditions, which ask for whole tiles and fonts). */
  function Fetch(px: seq<bv8>, idx: int, missing: bv8): bv8
  {
    if 0 <= idx < |px| then px[idx] else missing
  }

  /** Bit n of a font byte, counting from the most significant bit. */
  predicate GlyphBit(bits: bv8, n: nat)
    requires n < 8
  {
    (bits >> (7 - n)) & 1 == 1
  }

  /** The value `rule` leaves in box cell (i, j) that held v. */
  function Apply(rule: Rule, i: nat, j: nat, v: bv8): bv8
  {
    match rule
    case Opaque(px, tw) => Fetch(px, i * tw + j, v)
    case Keyed(px, tw, tx, ty, key) =>
      var t := Fetch(px, (ty + i) * tw + tx + j, key);
      if t != key then t else v
    case Recolor(px, tw, key, color) =>
      var t := Fetch(px, i * tw + j, key);
      if t == key then v else if t == 0xF then color else t
    case ForceWhite(px, tw, key) =>
      if Fetch(px, i * tw + j, key) != key then 0xF else v
    case Intensify(px, tw, key) =>
      if Fetch(px, i * tw + j, key) != key then v | 8 else v
    case Highlight(kind) =>
      if (kind == 0 && i + j >= 7) || kind == 1 || (kind == 2 && i >= j) then v | 8 else v
    case KeyedFlipped(px, tw, th, key) =>
      var t := if i < th then Fetch(px, (th - 1 - i) * tw + j, key) else key;
      if t != key then t else v
    case Glyph(font, fw, fh, ch, fg, bg) =>
      var count := i * fw + j;
      if GlyphBit(Fetch(font, ch * fh + count / 8, 0), count % 8) then fg else bg
  }

  /** Applying a rule to the cell it already rewrote changes nothing more. */
  lemma ApplyIdempotent(rule: Rule, i: nat, j: nat, v: bv8)
    ensures Apply(rule, i, j, Apply(rule, i, j, v)) == Apply(rule, i, j, v)
  {
  }

  /** Buffer index of box cell (i, j). */
  function Idx(stride: nat, b: Box, i: int, j: int): int
  {
    (b.y + i) * stride + b.x + j
  }

  /** Cell k lies inside box b. */
  predicate InBox(stride: nat, b: Box, k: int)
    requires stride > 0
  {
    b.y <= k / stride < b.y + b.h && b.x <= k % stride < b.x + b.w
  }

  /** The box lies within the columns of a row and within a buffer of n cells. */
  predicate Fits(n: nat, stride: nat, b: Box)
  {
    stride > 0 && b.x + b.w <= stride && (b.y + b.h) * stride <= n
  }

  /** The surface s with box rows lo .. hi - 1 rewritten by rule. */
  function Partial(s: seq<bv8>, stride: nat, b: Box, rule: Rule, lo: int, hi: int): (r: seq<bv8>)
    requires stride > 0
    ensures |r| == |s|
  {
    seq(|s|, k requires 0 <= k < |s| =>
      if InBox(stride, b, k) && lo <= k / stride - b.y < hi
      then Apply(rule, k / stride - b.y, k % stride - b.x, s[k])
      else s[k])
  }

  /** The surface s after a blitter has applied rule to every cell of box b. */
  function Overlay(s: seq<bv8>, stride: nat, b: Box, rule: Rule): (r: seq<bv8>)
    requires stride > 0
    ensures |r| == |s|
    ensures forall k :: 0 <= k < |s| && !InBox(stride, b, k) ==> r[k] == s[k]
  {
    Partial(s, stride, b, rule, 0, b.h)
  }

  /** With no row rewritten the surface is unchanged. */
  lemma PartialNone(s: seq<bv8>, stride: nat, b: Box, rule: Rule, lo: int)
    requires stride > 0
    ensures Partial(s, stride, b, rule, lo, lo) == s
  {
  }

  lemma MulNonneg(a: int, b: int)
    requires a >= 0 && b >= 0
    ensures a * b >= 0
  {
  }

  /** Row r, column c of a buffer with w cells per row is cell r * w + c. */
  lemma CellIndex(r: int, c: int, w: int)
    requires w > 0 && 0 <= c < w
    ensures (r * w + c) / w == r && (r * w + c) % w == c
  {
    var q, m := (r * w + c) / w, (r * w + c) % w;
    var d := r - q;
    assert d * w == m - c;
    if d >= 1 {
      MulNonneg(d - 1, w);
    } else if d <= -1 {
      MulNonneg(-d - 1, w);
    }
  }

  /** A cell of an h-row, w-column grid has an index below h * w. */
  lemma IndexBound(r: int, c: int, w: int, h: int)
    requires 0 <= r < h && 0 <= c < w
    ensures 0 <= r * w + c < h * w
  {
    MulNonneg(r, w);
    MulNonneg(h - r - 1, w);
  }

  /** A position 0..w on row r < h of an h-row, w-column grid lies at or
   *  before the grid's end. */
  lemma RowEnd(r: int, c: int, w: int, h: int)
    requires 0 <= r < h && 0 <= c <= w
    ensures 0 <= r * w + c <= h * w
  {
    MulNonneg(r, w);
    MulNonneg(h - r - 1, w);
  }

  /** A box that ends by row h, on a buffer of h rows, fits that buffer. */
  lemma FitsGrid(stride: nat, height: nat, b: Box)
    requires stride > 0 && b.x + b.w <= stride && b.y + b.h <= height
    ensures Fits(stride * height, stride, b)
  {
    MulNonneg(height - b.y - b.h, stride);
  }

  /** Box cell (i, j) is the buffer cell Idx(stride, b, i, j), and that cell
   *  is in the box with exactly those coordinates. */
  lemma IdxInBox(n: nat, stride: nat, b: Box, i: int, j: int)
    requires Fits(n, stride, b) && 0 <= i < b.h && 0 <= j < b.w
    ensures 0 <= Idx(stride, b, i, j) < n
    ensures Idx(stride, b, i, j) / stride == b.y + i && Idx(stride, b, i, j) % stride == b.x + j
    ensures InBox(stride, b, Idx(stride, b, i, j))
  {
    CellIndex(b.y + i, b.x + j, stride);
    IndexBound(b.y + i, b.x + j, stride, b.y + b.h);
  }

  /** Moving down one box row moves a row-start index on by the stride, and
   *  a tile-row start on by the tile width. */
  lemma NextRow(stride: nat, b: Box, i: int, w: int)
    ensures Idx(stride, b, i + 1, 0) == Idx(stride, b, i, 0) + stride
    ensures (i + 1) * w == i * w + w
  {
  }

  /** The cells of box row i are the run of b.w cells starting at Idx(i, 0). */
  lemma RowRun(n: nat, stride: nat, b: Box, i: int, k: int)
    requires Fits(n, stride, b) && 0 <= i < b.h && 0 <= k < n
    ensures (InBox(stride, b, k) && k / stride - b.y == i)
        <==> (Idx(stride, b, i, 0) <= k < Idx(stride, b, i, 0) + b.w)
    ensures Idx(stride, b, i, 0) <= k < Idx(stride, b, i, 0) + b.w ==>
      k % stride - b.x == k - Idx(stride, b, i, 0)
  {
    var start := Idx(stride, b, i, 0);
    if start <= k < start + b.w {
      IdxInBox(n, stride, b, i, k - start);
    }
  }

  /**
   * Rewriting all of box row i, next to the rows already done (below them
   * for a top-down blitter, above them for a bottom-up one), takes Partial
   * one row further. `cur` is the surface before the row, `nxt` after it.
   */
  lemma RowStep(s: seq<bv8>, cur: seq<bv8>, nxt: seq<bv8>, stride: nat, b: Box, rule: Rule,
                lo: int, hi: int, i: int)
    requires Fits(|s|, stride, b) && 0 <= i < b.h && lo <= hi && (i == hi || i + 1 == lo)
    requires cur == Partial(s, stride, b, rule, lo, hi) && |nxt| == |s|
    requires forall k :: 0 <= k < |s| ==>
      nxt[k] == if Idx(stride, b, i, 0) <= k < Idx(stride, b, i, 0) + b.w
                then Apply(rule, i, k - Idx(stride, b, i, 0), cur[k]) else cur[k]
    ensures nxt == Partial(s, stride, b, rule, if i == hi then lo else i, if i == hi then i + 1 else hi)
  {
    var goal := Partial(s, stride, b, rule, if i == hi then lo else i, if i == hi then i + 1 else hi);
    forall k | 0 <= k < |s| ensures nxt[k] == goal[k] {
      RowRun(|s|, stride, b, i, k);
    }
  }

  /** Cell (row, col) of an overlaid surface: rewritten by rule inside the
   *  box, untouched outside it. */
  lemma OverlayCell(s: seq<bv8>, stride: nat, b: Box, rule: Rule, row: int, col: int)
    requires stride > 0 && 0 <= col < stride && 0 <= row * stride + col < |s|
    ensures (row * stride + col) / stride == row && (row * stride + col) % stride == col
    ensures var k := row * stride + col;
      Overlay(s, stride, b, rule)[k] ==
        if b.y <= row < b.y + b.h && b.x <= col < b.x + b.w
        then Apply(rule, row - b.y, col - b.x, s[k]) else s[k]
  {
    CellIndex(row, col, stride);
  }

  /** Overlaying a box twice with the same rule is overlaying it once. */
  lemma OverlayTwice(s: seq<bv8>, stride: nat, b: Box, rule: Rule)
    requires stride > 0
    ensures Overlay(Overlay(s, stride, b, rule), stride, b, rule) == Overlay(s, stride, b, rule)
  {
    var once := Overlay(s, stride, b, rule);
    var twice := Overlay(once, stride, b, rule);
    forall k | 0 <= k < |s| ensures twice[k] == once[k] {
      if InBox(stride, b, k) {
        ApplyIdempotent(rule, k / stride - b.y, k % stride - b.x, s[k]);
      }
    }
  }

  /** memcpy(dst + off, src, |src|). */
  method CopyInto(dst: array<bv8>, off: nat, src: seq<bv8>)
    requires off + |src| <= dst.Length
    modifies dst
    ensures forall k :: 0 <= k < dst.Length ==>
      dst[k] == if off <= k < off + |src| then src[k - off] else old(dst[k])
  {
    forall k | off <= k < off + |src| {
      dst[k] := src[k - off];
    }
  }

  /**
   * The memcpy loop of the SOLID tile blitters: row i of the row-major
   * pixels (box.w per row) is copied to box row i, one memcpy per row, the
   * destination pointer stepping by the stride.
   */
  method CopyRows(dst: array<bv8>, stride: nat, b: Box, px: seq<bv8>)
    requires Fits(dst.Length, stride, b) && b.w > 0 && |px| == b.w * b.h
    modifies dst
    ensures dst[..] == Overlay(old(dst[..]), stride, b, Opaque(px, b.w))
  {
    ghost var s0 := dst[..];
    ghost var rule := Opaque(px, b.w);
    var pixel := b.x + b.y * stride;
    var tilePixel := 0;
    for i := 0 to b.h
      invariant pixel == Idx(stride, b, i, 0) && tilePixel == i * b.w
      invariant dst[..] == Partial(s0, stride, b, rule, 0, i)
    {
      RowEnd(b.y + i, b.x + b.w, stride, b.y + b.h);
      RowEnd(i, b.w, b.w, b.h);
      ghost var cur := dst[..];
      CopyInto(dst, pixel, px[tilePixel .. tilePixel + b.w]);
      forall k | 0 <= k < |s0| && pixel <= k < pixel + b.w
        ensures dst[k] == Apply(rule, i, k - pixel, cur[k])
      {
        IndexBound(i, k - pixel, b.w, b.h);
      }
      RowStep(s0, cur, dst[..], stride, b, rule, 0, i, i);
      NextRow(stride, b, i, b.w);
      pixel := pixel + stride;
      tilePixel := tilePixel + b.w;
    }
  }

  /** memset(dst, value, n). */
  method FillPrefix(dst: array<bv8>, n: nat, value: bv8)
    requires n <= dst.Length
    modifies dst
    ensures forall k :: 0 <= k < dst.Length ==> dst[k] == if k < n then value else old(dst[k])
  {
    forall k | 0 <= k < n {
      dst[k] := value;
    }
  }

  // The inner loops of the keyed blitters, one box row each: `w` cells of
  // dst from `start` on, reading tile pixels of src from `from` on.

  /** A keyed row copy: every tile pixel other than the key is copied. */
  method KeyedRow(dst: array<bv8>, start: nat, src: seq<bv8>, from: nat, w: nat, key: bv8)
    requires start + w <= dst.Length && from + w <= |src|
    modifies dst
    ensures forall k :: 0 <= k < dst.Length ==>
      dst[k] == if start <= k < start + w && src[from + (k - start)] != key
                then src[from + (k - start)] else old(dst[k])
  {
    for j := 0 to w
      invariant forall k :: 0 <= k < dst.Length ==>
        dst[k] == if start <= k < start + j && src[from + (k - start)] != key
                  then src[from + (k - start)] else old(dst[k])
    {
      if src[from + j] != key {
        dst[start + j] := src[from + j];
      }
    }
  }

  /** A keyed row copy that paints tile colour 0xF in `color`. */
  method RecolorRow(dst: array<bv8>, start: nat, src: seq<bv8>, from: nat, w: nat, key: bv8, color: bv8)
    requires start + w <= dst.Length && from + w <= |src|
    modifies dst
    ensures forall k :: 0 <= k < dst.Length ==>
      dst[k] == if start <= k < start + w && src[from + (k - start)] != key
                then (if src[from + (k - start)] == 0xF then color else src[from + (k - start)])
                else old(dst[k])
  {
    for j := 0 to w
      invariant forall k :: 0 <= k < dst.Length ==>
        dst[k] == if start <= k < start + j && src[from + (k - start)] != key
                  then (if src[from + (k - start)] == 0xF then color else src[from + (k - start)])
                  else old(dst[k])
    {
      if src[from + j] != key {
        dst[start + j] := if src[from + j] == 0xF then color else src[from + j];
      }
    }
  }

  /** Colour 0xF under every tile pixel other than the key. */
  method WhiteRow(dst: array<bv8>, start: nat, src: seq<bv8>, from: nat, w: nat, key: bv8)
    requires start + w <= dst.Length && from + w <= |src|
    modifies dst
    ensures forall k :: 0 <= k < dst.Length ==>
      dst[k] == if start <= k < start + w && src[from + (k - start)] != key then 0xF else old(dst[k])
  {
    for j := 0 to w
      invariant forall k :: 0 <= k < dst.Length ==>
        dst[k] == if start <= k < start + j && src[from + (k - start)] != key then 0xF else old(dst[k])
    {
      if src[from + j] != key {
        dst[start + j] := 0xF;
      }
    }
  }

  /** Bit 3 set under every tile pixel other than the key. */
  method IntensifyRow(dst: array<bv8>, start: nat, src: seq<bv8>, from: nat, w: nat, key: bv8)
    requires start + w <= dst.Length && from + w <= |src|
    modifies dst
    ensures forall k :: 0 <= k < dst.Length ==>
      dst[k] == if start <= k < start + w && src[from + (k - start)] != key then old(dst[k]) | 8 else old(dst[k])
  {
    for j := 0 to w
      invariant forall k :: 0 <= k < dst.Length ==>
        dst[k] == if start <= k < start + j && src[from + (k - start)] != key then old(dst[k]) | 8 else old(dst[k])
    {
      if src[from + j] != key {
        dst[start + j] := dst[start + j] | 8;
      }
    }
  }

  /** Row i of a highlight: bit 3 set on cell j when (kind 0 and i + j >= 7),
   *  kind 1, or (kind 2 and i >= j). */
  method HighlightRow(dst: array<bv8>, start: nat, i: nat, w: nat, kind: bv8)
    requires start + w <= dst.Length
    modifies dst
    ensures forall k :: 0 <= k < dst.Length ==>
      dst[k] == if start <= k < start + w &&
                   ((kind == 0 && i + (k - start) >= 7) || kind == 1 || (kind == 2 && i >= k - start))
                then old(dst[k]) | 8 else old(dst[k])
  {
    for j := 0 to w
      invariant forall k :: 0 <= k < dst.Length ==>
        dst[k] == if start <= k < start + j &&
                     ((kind == 0 && i + (k - start) >= 7) || kind == 1 || (kind == 2 && i >= k - start))
                  then old(dst[k]) | 8 else old(dst[k])
    {
      if (kind == 0 && i + j >= 7) || kind == 1 || (kind == 2 && i >= j) {
        dst[start + j] := dst[start + j] | 8;
      }
    }
  }
}
