/**
 * The indexed-surface video core of n64_video.c: the game and text surfaces
 * with their palettes, the game/text mode flag, the tile blitters that write
 * palette indices into the game surface (and glyphs into the text surface),
 * and the band schedule with which video_update hands a 200-row surface to
 * the rasteriser through its 2048-byte texture memory, stretched to 240
 * display rows, alternating between two display lists.
 */
module Video {
  import opened Surfaces
  import opened Wrappers
  import P = Palette

  /** The type tag of a tile: SOLID, TRANSPARENT or anything else. */
  datatype TileKind = Solid | Transparent | Other

  /** A tile of the atlas: its tag and its row-major palette indices. */
  datatype Tile = Tile(kind: TileKind, pixels: seq<bv8>)

  /**
   * The constants of headers that are not part of this model: SCREEN_WIDTH,
   * SCREEN_HEIGHT, TILE_WIDTH, TILE_HEIGHT, TRANSPARENT_COLOR,
   * B800_FONT_WIDTH, B800_FONT_HEIGHT and the int10_font_16 table.
   */
  datatype Config = Config(
    screenWidth: nat, screenHeight: nat,
    tileWidth: nat, tileHeight: nat,
    transparentColor: bv8,
    fontWidth: nat, fontHeight: nat, font: seq<bv8>)
  {
    /** Non-empty screen and tiles; glyph rows of at most 8 pixels, and a font
     *  table holding all 256 characters. */
    predicate Valid()
    {
      && screenWidth > 0 && screenHeight > 0
      && tileWidth > 0 && tileHeight > 0
      && fontWidth <= 8 && |font| >= 256 * fontHeight
    }
  }

  /**
   * A display-list entry, abstracted from the rasteriser command words.
   * LoadPalette: reload the palette buffer of a slot into texture memory.
   * CopyMode: pipe sync and copy mode with an RGB16 palette lookup.
   * DrawBand: load `rows` rows of the surface from byte `srcOffset` and draw
   * them at display row `destY` through palette slot `palSlot`, the first
   * row twice (once at destY, then all rows from destY + 1).
   */
  datatype DlEntry =
    | LoadPalette(slot: nat)
    | CopyMode
    | DrawBand(srcOffset: nat, rows: nat, destY: nat, palSlot: nat)

  const GamePalette: nat := 0
  const TextPalette: nat := 1
  const NumDisplayLists: nat := 2
  /** Bytes one texture load may move. */
  const TmemBytes: nat := 2048
  /** Surface rows per band. */
  const BandRows: nat := 5
  /** Display rows filled per frame. */
  const DisplayHeight: nat := 240
  /** Surface rows the 240 display rows show. */
  const SourceRows: nat := 200

  // ---------------------------------------------------------------------
  // What each blitter leaves in a surface buffer s.

  function TileBox(cfg: Config, x: nat, y: nat): Box
  {
    Box(x, y, cfg.tileWidth, cfg.tileHeight)
  }

  /** The tile has all its pixels and its footprint lies on the screen. */
  predicate TilePlaced(cfg: Config, tile: Tile, x: nat, y: nat)
  {
    && |tile.pixels| == cfg.tileWidth * cfg.tileHeight
    && x + cfg.tileWidth <= cfg.screenWidth
    && y + cfg.tileHeight <= cfg.screenHeight
  }

  /** video_draw_tile: SOLID tiles are copied whole, others keyed. */
  function DrawnTile(cfg: Config, s: seq<bv8>, tile: Tile, x: nat, y: nat): seq<bv8>
    requires cfg.Valid()
  {
    Overlay(s, cfg.screenWidth, TileBox(cfg, x, y),
      if tile.kind == Solid then Opaque(tile.pixels, cfg.tileWidth)
      else Keyed(tile.pixels, cfg.tileWidth, 0, 0, cfg.transparentColor))
  }

  /** video_draw_font_tile: keyed copy with colour 0xF painted in fontColor. */
  function DrawnFontTile(cfg: Config, s: seq<bv8>, tile: Tile, x: nat, y: nat, fontColor: bv8): seq<bv8>
    requires cfg.Valid()
  {
    Overlay(s, cfg.screenWidth, TileBox(cfg, x, y),
      Recolor(tile.pixels, cfg.tileWidth, cfg.transparentColor, fontColor))
  }

  /** video_draw_tile_solid_white: SOLID tiles copied whole, others forced to 0xF. */
  function DrawnSolidWhite(cfg: Config, s: seq<bv8>, tile: Tile, x: nat, y: nat): seq<bv8>
    requires cfg.Valid()
  {
    Overlay(s, cfg.screenWidth, TileBox(cfg, x, y),
      if tile.kind == Solid then Opaque(tile.pixels, cfg.tileWidth)
      else ForceWhite(tile.pixels, cfg.tileWidth, cfg.transparentColor))
  }

  /** video_draw_tile_mode3: only TRANSPARENT tiles draw, setting bit 3. */
  function DrawnMode3(cfg: Config, s: seq<bv8>, tile: Tile, x: nat, y: nat): seq<bv8>
    requires cfg.Valid()
  {
    if tile.kind == Transparent
    then Overlay(s, cfg.screenWidth, TileBox(cfg, x, y),
           Intensify(tile.pixels, cfg.tileWidth, cfg.transparentColor))
    else s
  }

  /** video_draw_highlight_effect. */
  function DrawnHighlight(cfg: Config, s: seq<bv8>, x: nat, y: nat, kind: bv8): seq<bv8>
    requires cfg.Valid()
  {
    Overlay(s, cfg.screenWidth, TileBox(cfg, x, y), Highlight(kind))
  }

  /** video_draw_tile_flipped. */
  function DrawnFlipped(cfg: Config, s: seq<bv8>, tile: Tile, x: nat, y: nat): seq<bv8>
    requires cfg.Valid()
  {
    Overlay(s, cfg.screenWidth, TileBox(cfg, x, y),
      KeyedFlipped(tile.pixels, cfg.tileWidth, cfg.tileHeight, cfg.transparentColor))
  }

  /** The clipped part of a tile: the box drawn and the tile column and row
   *  it starts from. */
  datatype Clip = Clip(box: Box, tx: nat, ty: nat)

  /**
   * The geometry of video_draw_tile_with_clip_rect: None when the tile lies
   * wholly left of, above, right of or below the clip rectangle (the early
   * return); otherwise the tile's box cut to the rectangle, side by side.
   */
  function ClipTile(cfg: Config, x: nat, y: nat, cx: nat, cy: nat, cw: nat, ch: nat): Option<Clip>
  {
    var tw, th := cfg.tileWidth, cfg.tileHeight;
    if x + tw < cx || y + th < cy || x > cx + cw || y > cy + ch then None
    else
      var tx: nat := if x < cx then cx - x else 0;
      var w0: nat := tw - tx;
      var x1: nat := if x < cx then cx else x;
      var w: nat := if x1 + w0 > cx + cw then w0 - ((x1 + w0) - (cx + cw)) else w0;
      var ty: nat := if y < cy then cy - y else 0;
      var h0: nat := th - ty;
      var y1: nat := if y < cy then cy else y;
      var h: nat := if y1 + h0 > cy + ch then h0 - ((y1 + h0) - (cy + ch)) else h0;
      Some(Clip(Box(x1, y1, w, h), tx, ty))
  }

  /** The clipped box lies on the screen. */
  predicate ClipPlaced(cfg: Config, tile: Tile, x: nat, y: nat, cx: nat, cy: nat, cw: nat, ch: nat)
  {
    && |tile.pixels| == cfg.tileWidth * cfg.tileHeight
    && match ClipTile(cfg, x, y, cx, cy, cw, ch)
       case None => true
       case Some(c) => c.box.x + c.box.w <= cfg.screenWidth && c.box.y + c.box.h <= cfg.screenHeight
  }

  /** video_draw_tile_with_clip_rect. */
  function DrawnClipped(cfg: Config, s: seq<bv8>, tile: Tile, x: nat, y: nat,
                        cx: nat, cy: nat, cw: nat, ch: nat): seq<bv8>
    requires cfg.Valid()
  {
    match ClipTile(cfg, x, y, cx, cy, cw, ch)
    case None => s
    case Some(c) =>
      Overlay(s, cfg.screenWidth, c.box, Keyed(tile.pixels, cfg.tileWidth, c.tx, c.ty, cfg.transparentColor))
  }

  /** The glyph box of text cell (x, y) on a text surface. */
  function GlyphBox(cfg: Config, x: nat, y: nat): Box
  {
    Box(x * cfg.fontWidth, y * cfg.fontHeight, cfg.fontWidth, cfg.fontHeight)
  }

  /** The int value cast to uint8, as C converts to an unsigned type. */
  function ToByte(v: int): bv8
  {
    (v % 256) as bv8
  }

  /** video_draw_text on a text surface of `stride` cells per row. */
  function DrawnText(cfg: Config, s: seq<bv8>, stride: nat, character: bv8, fg: int, bg: int, x: nat, y: nat): seq<bv8>
    requires stride > 0
  {
    Overlay(s, stride, GlyphBox(cfg, x, y),
      Glyph(cfg.font, cfg.fontWidth, cfg.fontHeight, character as nat, ToByte(fg), ToByte(bg)))
  }

  /** Glyph bit number `count` of a character: bit 7 - count % 8 of its
   *  glyph byte count / 8. */
  function GlyphBitAt(cfg: Config, character: bv8, count: nat): bool
    requires cfg.Valid() && count < cfg.fontWidth * cfg.fontHeight
  {
    GlyphByteIndex(cfg, character, count);
    GlyphBit(cfg.font[character as nat * cfg.fontHeight + count / 8], count % 8)
  }

  /** Pixel (i, j) of a character's glyph: glyph bit i * FONT_WIDTH + j. */
  function GlyphPixel(cfg: Config, character: bv8, i: nat, j: nat): bool
    requires cfg.Valid() && i < cfg.fontHeight && j < cfg.fontWidth
  {
    IndexBound(i, j, cfg.fontWidth, cfg.fontHeight);
    GlyphBitAt(cfg, character, i * cfg.fontWidth + j)
  }

  lemma GlyphByteIndex(cfg: Config, character: bv8, count: nat)
    requires cfg.Valid() && count < cfg.fontWidth * cfg.fontHeight
    ensures character as nat * cfg.fontHeight + count / 8 < |cfg.font|
  {
    GlyphRowBound(character as nat, count, cfg.fontWidth, cfg.fontHeight);
  }

  lemma GlyphRowBound(ch: nat, count: nat, fw: nat, fh: nat)
    requires ch < 256 && fw <= 8 && count < fw * fh
    ensures ch * fh + count / 8 < 256 * fh
  {
    MulNonneg(8 - fw, fh);
    assert fw * fh <= 8 * fh;
    assert count / 8 < fh;
    MulNonneg(255 - ch, fh);
    assert ch * fh + fh <= 256 * fh;
  }

  // ---------------------------------------------------------------------
  // Cell-by-cell meaning of the blitters.

  /** Pixel (i, j) of a tile. */
  function TileAt(cfg: Config, tile: Tile, i: nat, j: nat): bv8
    requires |tile.pixels| == cfg.tileWidth * cfg.tileHeight
    requires i < cfg.tileHeight && j < cfg.tileWidth
  {
    IndexBound(i, j, cfg.tileWidth, cfg.tileHeight);
    tile.pixels[i * cfg.tileWidth + j]
  }

  /** Reading tile pixel (i, j) through Fetch reads TileAt. */
  lemma TileFetch(cfg: Config, tile: Tile, i: nat, j: nat, d: bv8)
    requires |tile.pixels| == cfg.tileWidth * cfg.tileHeight
    requires i < cfg.tileHeight && j < cfg.tileWidth
    ensures Fetch(tile.pixels, i * cfg.tileWidth + j, d) == TileAt(cfg, tile, i, j)
  {
    IndexBound(i, j, cfg.tileWidth, cfg.tileHeight);
  }

  /** video_draw_tile: a cell of the footprint takes tile pixel
   *  (row - y, col - x), unless the tile is not SOLID and that pixel is
   *  TRANSPARENT_COLOR; every other cell keeps its value. */
  lemma DrawTileCell(cfg: Config, s: seq<bv8>, tile: Tile, x: nat, y: nat, row: nat, col: nat)
    requires cfg.Valid() && |s| == cfg.screenWidth * cfg.screenHeight
    requires |tile.pixels| == cfg.tileWidth * cfg.tileHeight
    requires row < cfg.screenHeight && col < cfg.screenWidth
    ensures var k := row * cfg.screenWidth + col;
      0 <= k < |s| &&
      DrawnTile(cfg, s, tile, x, y)[k] ==
        if y <= row < y + cfg.tileHeight && x <= col < x + cfg.tileWidth then
          var t := TileAt(cfg, tile, row - y, col - x);
          if tile.kind == Solid || t != cfg.transparentColor then t else s[k]
        else s[k]
  {
    var k := row * cfg.screenWidth + col;
    IndexBound(row, col, cfg.screenWidth, cfg.screenHeight);
    var rule := if tile.kind == Solid then Opaque(tile.pixels, cfg.tileWidth)
                else Keyed(tile.pixels, cfg.tileWidth, 0, 0, cfg.transparentColor);
    OverlayCell(s, cfg.screenWidth, TileBox(cfg, x, y), rule, row, col);
    if y <= row < y + cfg.tileHeight && x <= col < x + cfg.tileWidth {
      TileFetch(cfg, tile, row - y, col - x, cfg.transparentColor);
      TileFetch(cfg, tile, row - y, col - x, s[k]);
    }
  }

  /** Drawing the same tile twice at the same place is drawing it once. */
  lemma DrawTileTwice(cfg: Config, s: seq<bv8>, tile: Tile, x: nat, y: nat)
    requires cfg.Valid()
    ensures DrawnTile(cfg, DrawnTile(cfg, s, tile, x, y), tile, x, y) == DrawnTile(cfg, s, tile, x, y)
  {
    OverlayTwice(s, cfg.screenWidth, TileBox(cfg, x, y),
      if tile.kind == Solid then Opaque(tile.pixels, cfg.tileWidth)
      else Keyed(tile.pixels, cfg.tileWidth, 0, 0, cfg.transparentColor));
  }

  /** video_draw_font_tile: non-transparent tile pixels are written, colour
   *  0xF as fontColor; transparent ones and all other cells stay. */
  lemma FontTileCell(cfg: Config, s: seq<bv8>, tile: Tile, x: nat, y: nat, fontColor: bv8, row: nat, col: nat)
    requires cfg.Valid() && |s| == cfg.screenWidth * cfg.screenHeight
    requires |tile.pixels| == cfg.tileWidth * cfg.tileHeight
    requires row < cfg.screenHeight && col < cfg.screenWidth
    ensures var k := row * cfg.screenWidth + col;
      0 <= k < |s| &&
      DrawnFontTile(cfg, s, tile, x, y, fontColor)[k] ==
        if y <= row < y + cfg.tileHeight && x <= col < x + cfg.tileWidth then
          var t := TileAt(cfg, tile, row - y, col - x);
          if t == cfg.transparentColor then s[k] else if t == 0xF then fontColor else t
        else s[k]
  {
    IndexBound(row, col, cfg.screenWidth, cfg.screenHeight);
    OverlayCell(s, cfg.screenWidth, TileBox(cfg, x, y),
      Recolor(tile.pixels, cfg.tileWidth, cfg.transparentColor, fontColor), row, col);
    if y <= row < y + cfg.tileHeight && x <= col < x + cfg.tileWidth {
      TileFetch(cfg, tile, row - y, col - x, cfg.transparentColor);
    }
  }

  /** video_draw_tile_solid_white: a SOLID tile is copied whole; any other
   *  tile writes 0xF at each non-transparent pixel and nothing else. */
  lemma SolidWhiteCell(cfg: Config, s: seq<bv8>, tile: Tile, x: nat, y: nat, row: nat, col: nat)
    requires cfg.Valid() && |s| == cfg.screenWidth * cfg.screenHeight
    requires |tile.pixels| == cfg.tileWidth * cfg.tileHeight
    requires row < cfg.screenHeight && col < cfg.screenWidth
    ensures var k := row * cfg.screenWidth + col;
      0 <= k < |s| &&
      DrawnSolidWhite(cfg, s, tile, x, y)[k] ==
        if y <= row < y + cfg.tileHeight && x <= col < x + cfg.tileWidth then
          var t := TileAt(cfg, tile, row - y, col - x);
          if tile.kind == Solid then t else if t != cfg.transparentColor then 0xF else s[k]
        else s[k]
  {
    IndexBound(row, col, cfg.screenWidth, cfg.screenHeight);
    OverlayCell(s, cfg.screenWidth, TileBox(cfg, x, y),
      if tile.kind == Solid then Opaque(tile.pixels, cfg.tileWidth)
      else ForceWhite(tile.pixels, cfg.tileWidth, cfg.transparentColor), row, col);
    if y <= row < y + cfg.tileHeight && x <= col < x + cfg.tileWidth {
      TileFetch(cfg, tile, row - y, col - x, cfg.transparentColor);
      TileFetch(cfg, tile, row - y, col - x, s[row * cfg.screenWidth + col]);
    }
  }

  /** video_draw_tile_mode3: only a TRANSPARENT tile changes anything, and
   *  it only sets bit 3 of the cells under its non-transparent pixels. */
  lemma Mode3Cell(cfg: Config, s: seq<bv8>, tile: Tile, x: nat, y: nat, row: nat, col: nat)
    requires cfg.Valid() && |s| == cfg.screenWidth * cfg.screenHeight
    requires |tile.pixels| == cfg.tileWidth * cfg.tileHeight
    requires row < cfg.screenHeight && col < cfg.screenWidth
    ensures var k := row * cfg.screenWidth + col;
      0 <= k < |s| &&
      DrawnMode3(cfg, s, tile, x, y)[k] ==
        if tile.kind == Transparent && y <= row < y + cfg.tileHeight && x <= col < x + cfg.tileWidth
           && TileAt(cfg, tile, row - y, col - x) != cfg.transparentColor
        then s[k] | 8 else s[k]
  {
    IndexBound(row, col, cfg.screenWidth, cfg.screenHeight);
    OverlayCell(s, cfg.screenWidth, TileBox(cfg, x, y),
      Intensify(tile.pixels, cfg.tileWidth, cfg.transparentColor), row, col);
    if y <= row < y + cfg.tileHeight && x <= col < x + cfg.tileWidth {
      TileFetch(cfg, tile, row - y, col - x, cfg.transparentColor);
    }
  }

  /** Setting bit 3 twice is setting it once. */
  lemma Mode3Twice(cfg: Config, s: seq<bv8>, tile: Tile, x: nat, y: nat)
    requires cfg.Valid()
    ensures DrawnMode3(cfg, DrawnMode3(cfg, s, tile, x, y), tile, x, y) == DrawnMode3(cfg, s, tile, x, y)
  {
    if tile.kind == Transparent {
      OverlayTwice(s, cfg.screenWidth, TileBox(cfg, x, y),
        Intensify(tile.pixels, cfg.tileWidth, cfg.transparentColor));
    }
  }

  /** video_draw_highlight_effect sets bit 3 of footprint cell (i, j) exactly
   *  when (type 0 and i + j >= 7) or type 1 or (type 2 and i >= j). */
  lemma HighlightCell(cfg: Config, s: seq<bv8>, x: nat, y: nat, kind: bv8, row: nat, col: nat)
    requires cfg.Valid() && |s| == cfg.screenWidth * cfg.screenHeight
    requires row < cfg.screenHeight && col < cfg.screenWidth
    ensures var k := row * cfg.screenWidth + col;
      0 <= k < |s| &&
      DrawnHighlight(cfg, s, x, y, kind)[k] ==
        if y <= row < y + cfg.tileHeight && x <= col < x + cfg.tileWidth &&
           ((kind == 0 && (row - y) + (col - x) >= 7) || kind == 1 || (kind == 2 && row - y >= col - x))
        then s[k] | 8 else s[k]
  {
    IndexBound(row, col, cfg.screenWidth, cfg.screenHeight);
    OverlayCell(s, cfg.screenWidth, TileBox(cfg, x, y), Highlight(kind), row, col);
  }

  /** A highlight type other than 0, 1 and 2 changes nothing. */
  lemma HighlightOtherKind(cfg: Config, s: seq<bv8>, x: nat, y: nat, kind: bv8)
    requires cfg.Valid() && kind != 0 && kind != 1 && kind != 2
    ensures DrawnHighlight(cfg, s, x, y, kind) == s
  {
    var r := DrawnHighlight(cfg, s, x, y, kind);
    forall k | 0 <= k < |s| ensures r[k] == s[k] {
    }
  }

  /** Highlighting twice is highlighting once. */
  lemma HighlightTwice(cfg: Config, s: seq<bv8>, x: nat, y: nat, kind: bv8)
    requires cfg.Valid()
    ensures DrawnHighlight(cfg, DrawnHighlight(cfg, s, x, y, kind), x, y, kind) == DrawnHighlight(cfg, s, x, y, kind)
  {
    OverlayTwice(s, cfg.screenWidth, TileBox(cfg, x, y), Highlight(kind));
  }

  /** video_draw_tile_flipped: tile row i lands on row y + TILE_HEIGHT - 1 - i,
   *  same columns, transparent pixels skipped; nothing else changes. */
  lemma FlippedCell(cfg: Config, s: seq<bv8>, tile: Tile, x: nat, y: nat, row: nat, col: nat)
    requires cfg.Valid() && |s| == cfg.screenWidth * cfg.screenHeight
    requires |tile.pixels| == cfg.tileWidth * cfg.tileHeight
    requires row < cfg.screenHeight && col < cfg.screenWidth
    ensures var k := row * cfg.screenWidth + col;
      0 <= k < |s| &&
      DrawnFlipped(cfg, s, tile, x, y)[k] ==
        if y <= row < y + cfg.tileHeight && x <= col < x + cfg.tileWidth then
          var t := TileAt(cfg, tile, y + cfg.tileHeight - 1 - row, col - x);
          if t != cfg.transparentColor then t else s[k]
        else s[k]
  {
    IndexBound(row, col, cfg.screenWidth, cfg.screenHeight);
    OverlayCell(s, cfg.screenWidth, TileBox(cfg, x, y),
      KeyedFlipped(tile.pixels, cfg.tileWidth, cfg.tileHeight, cfg.transparentColor), row, col);
    if y <= row < y + cfg.tileHeight && x <= col < x + cfg.tileWidth {
      IndexBound(y + cfg.tileHeight - 1 - row, col - x, cfg.tileWidth, cfg.tileHeight);
    }
  }

  /**
   * The clip geometry is exact: when it returns early the tile and the clip
   * rectangle share no cell, and otherwise the drawn box holds exactly the
   * cells that lie both in the tile's footprint and in the clip rectangle,
   * read from the tile at their offset from (x, y).
   */
  lemma ClipIsIntersection(cfg: Config, x: nat, y: nat, cx: nat, cy: nat, cw: nat, ch: nat, row: int, col: int)
    ensures ClipTile(cfg, x, y, cx, cy, cw, ch).None? ==>
      !(x <= col < x + cfg.tileWidth && cx <= col < cx + cw &&
        y <= row < y + cfg.tileHeight && cy <= row < cy + ch)
    ensures ClipTile(cfg, x, y, cx, cy, cw, ch).Some? ==>
      var c := ClipTile(cfg, x, y, cx, cy, cw, ch).value;
      && c.tx == c.box.x - x && c.ty == c.box.y - y
      && (c.box.x <= col < c.box.x + c.box.w <==> x <= col < x + cfg.tileWidth && cx <= col < cx + cw)
      && (c.box.y <= row < c.box.y + c.box.h <==> y <= row < y + cfg.tileHeight && cy <= row < cy + ch)
  {
  }

  /** video_draw_tile_with_clip_rect writes cell (row, col) only when it is in
   *  both the tile's footprint and the clip rectangle, and then from tile
   *  pixel (row - y, col - x) unless that pixel is transparent. */
  lemma ClippedCell(cfg: Config, s: seq<bv8>, tile: Tile, x: nat, y: nat,
                    cx: nat, cy: nat, cw: nat, ch: nat, row: nat, col: nat)
    requires cfg.Valid() && |s| == cfg.screenWidth * cfg.screenHeight
    requires |tile.pixels| == cfg.tileWidth * cfg.tileHeight
    requires row < cfg.screenHeight && col < cfg.screenWidth
    ensures var k := row * cfg.screenWidth + col;
      0 <= k < |s| &&
      DrawnClipped(cfg, s, tile, x, y, cx, cy, cw, ch)[k] ==
        if y <= row < y + cfg.tileHeight && x <= col < x + cfg.tileWidth &&
           cy <= row < cy + ch && cx <= col < cx + cw then
          var t := TileAt(cfg, tile, row - y, col - x);
          if t != cfg.transparentColor then t else s[k]
        else s[k]
  {
    IndexBound(row, col, cfg.screenWidth, cfg.screenHeight);
    ClipIsIntersection(cfg, x, y, cx, cy, cw, ch, row, col);
    match ClipTile(cfg, x, y, cx, cy, cw, ch)
    case None =>
    case Some(c) =>
      OverlayCell(s, cfg.screenWidth, c.box,
        Keyed(tile.pixels, cfg.tileWidth, c.tx, c.ty, cfg.transparentColor), row, col);
      if c.box.y <= row < c.box.y + c.box.h && c.box.x <= col < c.box.x + c.box.w {
        assert c.ty + (row - c.box.y) == row - y && c.tx + (col - c.box.x) == col - x;
        TileFetch(cfg, tile, row - y, col - x, cfg.transparentColor);
      }
  }

  /** A tile that lies wholly outside the clip rectangle draws nothing. */
  lemma ClippedOutside(cfg: Config, s: seq<bv8>, tile: Tile, x: nat, y: nat, cx: nat, cy: nat, cw: nat, ch: nat)
    requires cfg.Valid()
    requires x + cfg.tileWidth <= cx || y + cfg.tileHeight <= cy || x >= cx + cw || y >= cy + ch
    ensures DrawnClipped(cfg, s, tile, x, y, cx, cy, cw, ch) == s
  {
    match ClipTile(cfg, x, y, cx, cy, cw, ch)
    case None =>
    case Some(c) =>
      var r := DrawnClipped(cfg, s, tile, x, y, cx, cy, cw, ch);
      ClipIsIntersection(cfg, x, y, cx, cy, cw, ch, c.box.y, c.box.x);
      assert c.box.w == 0 || c.box.h == 0;
      forall k | 0 <= k < |s| ensures r[k] == s[k] {
      }
  }

  /** A clip rectangle equal to the tile's footprint draws what
   *  video_draw_tile draws for a tile that is not SOLID. */
  lemma ClippedToFootprint(cfg: Config, s: seq<bv8>, tile: Tile, x: nat, y: nat)
    requires cfg.Valid() && tile.kind != Solid
    ensures DrawnClipped(cfg, s, tile, x, y, x, y, cfg.tileWidth, cfg.tileHeight)
         == DrawnTile(cfg, s, tile, x, y)
  {
    assert ClipTile(cfg, x, y, x, y, cfg.tileWidth, cfg.tileHeight)
        == Some(Clip(TileBox(cfg, x, y), 0, 0));
  }

  /** video_draw_text: every cell of the glyph box at column x * FONT_WIDTH,
   *  row y * FONT_HEIGHT is written, fg where the glyph bit is set and bg
   *  where it is clear; no other cell changes. */
  lemma TextCell(cfg: Config, s: seq<bv8>, stride: nat, height: nat, character: bv8, fg: int, bg: int,
                 x: nat, y: nat, row: nat, col: nat)
    requires cfg.Valid() && stride > 0 && |s| == stride * height
    requires row < height && col < stride
    ensures var k := row * stride + col;
      var b := GlyphBox(cfg, x, y);
      0 <= k < |s| &&
      DrawnText(cfg, s, stride, character, fg, bg, x, y)[k] ==
        if b.y <= row < b.y + cfg.fontHeight && b.x <= col < b.x + cfg.fontWidth then
          if GlyphPixel(cfg, character, row - b.y, col - b.x) then ToByte(fg) else ToByte(bg)
        else s[k]
  {
    var b := GlyphBox(cfg, x, y);
    var k := row * stride + col;
    IndexBound(row, col, stride, height);
    OverlayCell(s, stride, b,
      Glyph(cfg.font, cfg.fontWidth, cfg.fontHeight, character as nat, ToByte(fg), ToByte(bg)), row, col);
    if b.y <= row < b.y + cfg.fontHeight && b.x <= col < b.x + cfg.fontWidth {
      GlyphApply(cfg, character, ToByte(fg), ToByte(bg), row - b.y, col - b.x, s[k]);
    }
  }

  /** The glyph rule writes fg on the glyph's set bits and bg on the others. */
  lemma GlyphApply(cfg: Config, character: bv8, fg: bv8, bg: bv8, i: nat, j: nat, v: bv8)
    requires cfg.Valid() && i < cfg.fontHeight && j < cfg.fontWidth
    ensures Apply(Glyph(cfg.font, cfg.fontWidth, cfg.fontHeight, character as nat, fg, bg), i, j, v)
         == if GlyphPixel(cfg, character, i, j) then fg else bg
  {
    var count := i * cfg.fontWidth + j;
    IndexBound(i, j, cfg.fontWidth, cfg.fontHeight);
    GlyphByteIndex(cfg, character, count);
  }

  // ---------------------------------------------------------------------
  // The band schedule of video_update.

  /** The bands drawn from display row y on, reading the surface from byte
   *  `offset` on: a band every 6 display rows until row 240. */
  function BandsFrom(w: nat, slot: nat, y: nat, offset: nat): seq<DlEntry>
    decreases DisplayHeight - y
  {
    if y >= DisplayHeight then []
    else [DrawBand(offset, BandRows, y, slot)] + BandsFrom(w, slot, y + BandRows + 1, offset + w * BandRows)
  }

  /** The bands of one frame of a surface w bytes wide. */
  function Bands(w: nat, slot: nat): seq<DlEntry>
  {
    BandsFrom(w, slot, 0, 0)
  }

  lemma {:induction false} BandsFromShape(w: nat, slot: nat, m: nat)
    requires m <= 40
    decreases 40 - m
    ensures var bs := BandsFrom(w, slot, 6 * m, m * (w * BandRows));
      && |bs| == 40 - m
      && forall n :: 0 <= n < 40 - m ==>
           bs[n] == DrawBand((m + n) * (w * BandRows), BandRows, 6 * (m + n), slot)
  {
    if m < 40 {
      BandsFromShape(w, slot, m + 1);
      assert m * (w * BandRows) + w * BandRows == (m + 1) * (w * BandRows);
      var bs := BandsFrom(w, slot, 6 * m, m * (w * BandRows));
      var rest := BandsFrom(w, slot, 6 * (m + 1), (m + 1) * (w * BandRows));
      assert bs == [DrawBand(m * (w * BandRows), BandRows, 6 * m, slot)] + rest;
      forall n | 0 <= n < 40 - m
        ensures bs[n] == DrawBand((m + n) * (w * BandRows), BandRows, 6 * (m + n), slot)
      {
        if n > 0 {
          assert bs[n] == rest[n - 1];
          assert (m + 1) + (n - 1) == m + n;
        }
      }
    }
  }

  /**
   * A frame is 40 bands of 5 rows: band n reads surface rows 5n .. 5n + 4
   * (bytes n * w * 5 on) and covers display rows 6n .. 6n + 5, all through
   * one palette slot; so 200 surface rows fill exactly 240 display rows.
   */
  lemma BandsShape(w: nat, slot: nat)
    ensures |Bands(w, slot)| == 40
    ensures forall n :: 0 <= n < 40 ==>
      Bands(w, slot)[n] == DrawBand(n * (w * BandRows), BandRows, 6 * n, slot)
    ensures 40 * BandRows == SourceRows && 40 * (BandRows + 1) == DisplayHeight
  {
    BandsFromShape(w, slot, 0);
  }

  /** Display row d lies in the rows a band draws: its first row at destY
   *  and its `rows` rows again from destY + 1 on. */
  predicate Covers(e: DlEntry, d: nat)
  {
    e.DrawBand? && e.destY <= d <= e.destY + e.rows
  }

  /** The row of a band's texture that its rectangles put on display row d. */
  function TextureRow(e: DlEntry, d: nat): nat
    requires Covers(e, d)
  {
    if d == e.destY then 0 else d - e.destY - 1
  }

  /** The band fits the texture memory and reads only bytes of a surface of
   *  `size` bytes, `w` bytes per row. */
  predicate BandWithin(e: DlEntry, w: nat, size: nat)
  {
    e.DrawBand? && w * e.rows <= TmemBytes && e.srcOffset + w * e.rows <= size
  }

  /** The surface row the stretched frame shows on display row d: each band's
   *  first row twice, then its other rows once each. */
  function ShownRow(d: nat): (r: nat)
    ensures d < DisplayHeight ==> r < SourceRows
  {
    BandRows * (d / 6) + (if d % 6 == 0 then 0 else d % 6 - 1)
  }

  /** Every display row 0..239 is drawn by exactly one band: band d / 6. */
  lemma BandsCoverDisplay(w: nat, slot: nat)
    ensures forall d, n :: 0 <= d < DisplayHeight && 0 <= n < |Bands(w, slot)| ==>
      (Covers(Bands(w, slot)[n], d) <==> n == d / 6)
  {
    BandsShape(w, slot);
  }

  /** The band that draws display row d puts there the surface row that
   *  starts at byte w * ShownRow(d). */
  lemma BandsShowRows(w: nat, slot: nat)
    ensures forall d, n :: 0 <= d < DisplayHeight && 0 <= n < |Bands(w, slot)| && Covers(Bands(w, slot)[n], d) ==>
      Bands(w, slot)[n].srcOffset + w * TextureRow(Bands(w, slot)[n], d) == w * ShownRow(d)
  {
    BandsShape(w, slot);
    var bs := Bands(w, slot);
    forall d, n | 0 <= d < DisplayHeight && 0 <= n < 40 && Covers(bs[n], d)
      ensures bs[n].srcOffset + w * TextureRow(bs[n], d) == w * ShownRow(d)
    {
      BandsCoverDisplay(w, slot);
      assert ShownRow(d) == BandRows * n + TextureRow(bs[n], d);
      RowOffset(w, n, TextureRow(bs[n], d));
    }
  }

  /** Each of the 200 surface rows appears on some display row. */
  lemma AllRowsShown()
    ensures forall r :: 0 <= r < SourceRows ==>
      6 * (r / 5) + r % 5 + 1 < DisplayHeight && ShownRow(6 * (r / 5) + r % 5 + 1) == r
  {
  }

  /** Every band fits the texture memory and lies inside a surface of at
   *  least 200 rows of w bytes. */
  lemma BandsWithinSurface(w: nat, slot: nat, h: nat)
    requires w * BandRows <= TmemBytes && h >= SourceRows
    ensures forall n :: 0 <= n < |Bands(w, slot)| ==> BandWithin(Bands(w, slot)[n], w, w * h)
  {
    BandsShape(w, slot);
    var bs := Bands(w, slot);
    forall n | 0 <= n < 40
      ensures BandWithin(bs[n], w, w * h)
    {
      BandEnd(w, n, h);
    }
  }

  /** Byte offset of texture row t of band n. */
  lemma RowOffset(w: nat, n: nat, t: nat)
    ensures n * (w * BandRows) + w * t == w * (BandRows * n + t)
  {
  }

  /** Band n < 40 ends by byte w * h of a surface of h >= 200 rows. */
  lemma BandEnd(w: nat, n: nat, h: nat)
    requires n < 40 && h >= SourceRows
    ensures n * (w * BandRows) + w * BandRows <= w * h
  {
    assert n * (w * BandRows) + w * BandRows == (n + 1) * (w * BandRows);
    MulNonneg(39 - n, w * BandRows);
    MulNonneg(h - SourceRows, w);
  }

  /** The band loop of video_update: display row and source pointer step by
   *  6 rows and 5 * w bytes until row 240. */
  method BuildBands(w: nat, slot: nat) returns (bands: seq<DlEntry>)
    requires w * BandRows <= TmemBytes
    ensures bands == Bands(w, slot)
  {
    var xPerLoop := w;
    var yPerLoop := BandRows;
    var chunkSize := xPerLoop * yPerLoop;
    var currentY := 0;
    var ptr := 0;
    bands := [];
    while currentY < DisplayHeight
      invariant bands + BandsFrom(w, slot, currentY, ptr) == Bands(w, slot)
      decreases DisplayHeight - currentY
    {
      bands := bands + [DrawBand(ptr, yPerLoop, currentY, slot)];
      currentY := currentY + yPerLoop + 1;
      ptr := ptr + chunkSize;
    }
  }

  /** The palette slot video_update draws through. */
  function PaletteSlot(gameMode: bool): (slot: nat)
    ensures slot == GamePalette <==> gameMode
    ensures slot == TextPalette <==> !gameMode
  {
    if gameMode then GamePalette else TextPalette
  }

  /**
   * The (palette index, colour) pairs fade_in_from_black sets, one per step:
   * indices 0..15 in order, colours 0..7 then 16..23.
   */
  method FadeInSteps() returns (steps: seq<(nat, nat)>)
    ensures |steps| == 16
    ensures forall i :: 0 <= i < 16 ==> steps[i] == (i, if i < 8 then i else i + 8)
  {
    steps := [];
    var j := 0;
    for i := 0 to 16
      invariant |steps| == i
      invariant j == if i <= 8 then 0 else 8
      invariant forall k :: 0 <= k < i ==> steps[k] == (k, if k < 8 then k else k + 8)
    {
      if i == 8 {
        j := 8;
      }
      steps := steps + [(i, i + j)];
    }
  }

  // ---------------------------------------------------------------------
  // The surfaces and the video state.

  /** SDL_Surface as the video code uses it: a w x h byte buffer with a pitch
   *  of w and its own palette. */
  class Surface {
    const w: nat
    const h: nat
    const pitch: nat
    const pixels: array<bv8>
    const palette: P.Palette

    ghost predicate Valid()
    {
      pixels.Length == w * h && pitch == w && palette.Valid()
    }

    /** init_surface followed by set_palette_on_surface, whose colours are
     *  the parameter `colors`. */
    constructor (width: nat, height: nat, colors: seq<bv16>)
      requires |colors| == P.PaletteSize
      ensures Valid() && w == width && h == height
      ensures fresh(pixels) && fresh(palette) && fresh(palette.colors)
      ensures palette.colors[..] == colors && palette.refcount == 0
    {
      w, h, pitch := width, height, width;
      pixels := new bv8[width * height];
      palette := new P.Palette(colors);
    }

    /** video_fill_surface_with_black: memset of the w * h cells to 0. */
    method FillWithBlack()
      requires Valid()
      modifies pixels
      ensures forall k :: 0 <= k < pixels.Length ==> pixels[k] == 0
    {
      FillPrefix(pixels, w * h, 0);
    }
  }

  /** The module-level state of n64_video.c. */
  class Video {
    const cfg: Config
    const game: Surface
    const text: Surface
    var isGameMode: bool
    /** dls: the display lists; dl is lists[current]. */
    var lists: seq<seq<DlEntry>>
    var current: nat
    /** _palette1 and _palette2: the palette copies texture loads read. */
    var paletteBuffers: seq<seq<bv16>>

    ghost predicate Valid()
      reads this
    {
      && cfg.Valid()
      && game.Valid() && text.Valid()
      && game.w == cfg.screenWidth && game.h == cfg.screenHeight
      && text.w == 2 * cfg.screenWidth && text.h == 2 * cfg.screenHeight
      && game.pixels != text.pixels
      && game.palette != text.palette && game.palette.colors != text.palette.colors
      && |lists| == NumDisplayLists && current < NumDisplayLists
      && |paletteBuffers| == 2
    }

    /**
     * video_init without the hardware set-up: a game surface of the screen
     * size and a black text surface twice as wide and high, each with its
     * palette (the colours are parameters) copied to its buffer and queued
     * for loading into its slot, and game mode on.
     */
    constructor (cfg: Config, gameColors: seq<bv16>, textColors: seq<bv16>)
      requires cfg.Valid() && |gameColors| == P.PaletteSize && |textColors| == P.PaletteSize
      ensures Valid() && this.cfg == cfg && isGameMode
      ensures current == 0 && lists == [[LoadPalette(GamePalette), LoadPalette(TextPalette)], []]
      ensures paletteBuffers == [gameColors, textColors]
      ensures game.palette.colors[..] == gameColors && text.palette.colors[..] == textColors
      ensures game.palette.refcount == GamePalette && text.palette.refcount == TextPalette
      ensures forall k :: 0 <= k < text.pixels.Length ==> text.pixels[k] == 0
      ensures fresh(game.pixels) && fresh(text.pixels) && fresh(game.palette) && fresh(text.palette)
    {
      this.cfg := cfg;
      game := new Surface(cfg.screenWidth, cfg.screenHeight, gameColors);
      text := new Surface(2 * cfg.screenWidth, 2 * cfg.screenHeight, textColors);
      isGameMode := true;
      current := 0;
      lists := [[LoadPalette(GamePalette), LoadPalette(TextPalette)], []];
      paletteBuffers := [gameColors, textColors];
      new;
      game.palette.refcount := GamePalette;
      text.FillWithBlack();
      text.palette.refcount := TextPalette;
    }

    /** set_text_mode. */
    method SetTextMode()
      modifies this`isGameMode
      ensures !isGameMode
    {
      if !isGameMode {
        return;
      }
      isGameMode := false;
    }

    /** set_game_mode. */
    method SetGameMode()
      modifies this`isGameMode
      ensures isGameMode
    {
      if isGameMode {
        return;
      }
      isGameMode := true;
    }

    /** The surface video_update shows. */
    function Shown(): Surface
      reads this
    {
      if isGameMode then game else text
    }

    /**
     * video_update: appends copy mode and the bands of the shown surface,
     * through the mode's palette slot, to the current display list, submits
     * that list, and moves on to the other list, emptied. The source asserts
     * that a band fits the texture memory; here that is required.
     */
    method Update() returns (submitted: seq<DlEntry>)
      requires Valid()
      requires Shown().w * BandRows <= TmemBytes
      modifies this`lists, this`current
      ensures Valid()
      ensures submitted == old(lists[current]) + [CopyMode] + Bands(Shown().w, PaletteSlot(isGameMode))
      ensures current == (old(current) + 1) % NumDisplayLists
      ensures lists == old(lists)[old(current) := submitted][current := []]
    {
      var src := if isGameMode then game else text;
      var palSlot := if isGameMode then GamePalette else TextPalette;
      var dl := lists[current] + [CopyMode];
      var bands := BuildBands(src.w, palSlot);
      submitted := dl + bands;
      lists := lists[current := submitted];
      current := (current + 1) % NumDisplayLists;
      lists := lists[current := []];
    }

    /**
     * video_update_palette: sets one game palette entry, copies the game
     * palette to its buffer and queues a reload of the game slot.
     */
    method UpdatePalette(index: int, color: P.Color)
      requires Valid() && 0 <= index < P.PaletteSize
      modifies game.palette, game.palette.colors, this`paletteBuffers, this`lists
      ensures Valid()
      ensures forall k :: 0 <= k < P.PaletteSize ==>
        game.palette.colors[k] == if k == index then P.Pack5551(color) else old(game.palette.colors[k])
      ensures game.palette.version == old(game.palette.version) + 1
      ensures game.palette.ncolors == old(game.palette.ncolors) && game.palette.refcount == old(game.palette.refcount)
      ensures paletteBuffers == old(paletteBuffers)[GamePalette := game.palette.colors[..]]
      ensures lists == old(lists)[current := old(lists[current]) + [LoadPalette(GamePalette)]]
    {
      var _ := P.SetPaletteColors(game.palette, [color], index, 1);
      paletteBuffers := paletteBuffers[GamePalette := game.palette.colors[..]];
      lists := lists[current := lists[current] + [LoadPalette(GamePalette)]];
    }

    /** video_draw_fullscreen_image: memcpy of SCREEN_WIDTH * SCREEN_HEIGHT
     *  bytes into the game surface. */
    method DrawFullscreenImage(image: seq<bv8>)
      requires Valid() && |image| >= cfg.screenWidth * cfg.screenHeight
      modifies game.pixels
      ensures game.pixels[..] == image[..cfg.screenWidth * cfg.screenHeight]
    {
      CopyInto(game.pixels, 0, image[..cfg.screenWidth * cfg.screenHeight]);
    }

    /** video_draw_tile. */
    method DrawTile(tile: Tile, x: nat, y: nat)
      requires Valid() && TilePlaced(cfg, tile, x, y)
      modifies game.pixels
      ensures game.pixels[..] == DrawnTile(cfg, old(game.pixels[..]), tile, x, y)
    {
      var sw, tw, th := cfg.screenWidth, cfg.tileWidth, cfg.tileHeight;
      var box := TileBox(cfg, x, y);
      FitsGrid(sw, cfg.screenHeight, box);
      if tile.kind == Solid {
        CopyRows(game.pixels, sw, box, tile.pixels);
      } else {
        ghost var s0 := game.pixels[..];
        ghost var rule := Keyed(tile.pixels, tw, 0, 0, cfg.transparentColor);
        PartialNone(s0, sw, box, rule, 0);
        var pixel := x + y * sw;
        var tilePixel := 0;
        for i := 0 to th
          invariant pixel == Idx(sw, box, i, 0) && tilePixel == i * tw
          invariant game.pixels[..] == Partial(s0, sw, box, rule, 0, i)
        {
          RowEnd(y + i, x + tw, sw, cfg.screenHeight);
          RowEnd(i, tw, tw, th);
          ghost var cur := game.pixels[..];
          KeyedRow(game.pixels, pixel, tile.pixels, tilePixel, tw, cfg.transparentColor);
          forall k | 0 <= k < |s0| && pixel <= k < pixel + tw
            ensures game.pixels[k] == Apply(rule, i, k - pixel, cur[k])
          {
            IndexBound(i, k - pixel, tw, th);
          }
          RowStep(s0, cur, game.pixels[..], sw, box, rule, 0, i, i);
          NextRow(sw, box, i, tw);
          pixel := pixel + sw;
          tilePixel := tilePixel + tw;
        }
      }
    }

    /** video_draw_font_tile. */
    method DrawFontTile(tile: Tile, x: nat, y: nat, fontColor: bv8)
      requires Valid() && TilePlaced(cfg, tile, x, y)
      modifies game.pixels
      ensures game.pixels[..] == DrawnFontTile(cfg, old(game.pixels[..]), tile, x, y, fontColor)
    {
      var sw, tw, th := cfg.screenWidth, cfg.tileWidth, cfg.tileHeight;
      var box := TileBox(cfg, x, y);
      FitsGrid(sw, cfg.screenHeight, box);
      ghost var s0 := game.pixels[..];
      ghost var rule := Recolor(tile.pixels, tw, cfg.transparentColor, fontColor);
      PartialNone(s0, sw, box, rule, 0);
      var pixel := x + y * sw;
      var tilePixel := 0;
      for i := 0 to th
        invariant pixel == Idx(sw, box, i, 0) && tilePixel == i * tw
        invariant game.pixels[..] == Partial(s0, sw, box, rule, 0, i)
      {
        RowEnd(y + i, x + tw, sw, cfg.screenHeight);
        RowEnd(i, tw, tw, th);
        ghost var cur := game.pixels[..];
        RecolorRow(game.pixels, pixel, tile.pixels, tilePixel, tw, cfg.transparentColor, fontColor);
        forall k | 0 <= k < |s0| && pixel <= k < pixel + tw
          ensures game.pixels[k] == Apply(rule, i, k - pixel, cur[k])
        {
          IndexBound(i, k - pixel, tw, th);
        }
        RowStep(s0, cur, game.pixels[..], sw, box, rule, 0, i, i);
        NextRow(sw, box, i, tw);
        pixel := pixel + sw;
        tilePixel := tilePixel + tw;
      }
    }

    /** video_draw_tile_solid_white. */
    method DrawTileSolidWhite(tile: Tile, x: nat, y: nat)
      requires Valid() && TilePlaced(cfg, tile, x, y)
      modifies game.pixels
      ensures game.pixels[..] == DrawnSolidWhite(cfg, old(game.pixels[..]), tile, x, y)
    {
      var sw, tw, th := cfg.screenWidth, cfg.tileWidth, cfg.tileHeight;
      var box := TileBox(cfg, x, y);
      FitsGrid(sw, cfg.screenHeight, box);
      if tile.kind == Solid {
        CopyRows(game.pixels, sw, box, tile.pixels);
      } else {
        ghost var s0 := game.pixels[..];
        ghost var rule := ForceWhite(tile.pixels, tw, cfg.transparentColor);
        PartialNone(s0, sw, box, rule, 0);
        var pixel := x + y * sw;
        var tilePixel := 0;
        for i := 0 to th
          invariant pixel == Idx(sw, box, i, 0) && tilePixel == i * tw
          invariant game.pixels[..] == Partial(s0, sw, box, rule, 0, i)
        {
          RowEnd(y + i, x + tw, sw, cfg.screenHeight);
          RowEnd(i, tw, tw, th);
          ghost var cur := game.pixels[..];
          WhiteRow(game.pixels, pixel, tile.pixels, tilePixel, tw, cfg.transparentColor);
          forall k | 0 <= k < |s0| && pixel <= k < pixel + tw
            ensures game.pixels[k] == Apply(rule, i, k - pixel, cur[k])
          {
            IndexBound(i, k - pixel, tw, th);
          }
          RowStep(s0, cur, game.pixels[..], sw, box, rule, 0, i, i);
          NextRow(sw, box, i, tw);
          pixel := pixel + sw;
          tilePixel := tilePixel + tw;
        }
      }
    }

    /** video_draw_tile_mode3. */
    method DrawTileMode3(tile: Tile, x: nat, y: nat)
      requires Valid() && TilePlaced(cfg, tile, x, y)
      modifies game.pixels
      ensures game.pixels[..] == DrawnMode3(cfg, old(game.pixels[..]), tile, x, y)
    {
      var sw, tw, th := cfg.screenWidth, cfg.tileWidth, cfg.tileHeight;
      var box := TileBox(cfg, x, y);
      FitsGrid(sw, cfg.screenHeight, box);
      if tile.kind == Transparent {
        ghost var s0 := game.pixels[..];
        ghost var rule := Intensify(tile.pixels, tw, cfg.transparentColor);
        PartialNone(s0, sw, box, rule, 0);
        var pixel := x + y * sw;
        var tilePixel := 0;
        for i := 0 to th
          invariant pixel == Idx(sw, box, i, 0) && tilePixel == i * tw
          invariant game.pixels[..] == Partial(s0, sw, box, rule, 0, i)
        {
          RowEnd(y + i, x + tw, sw, cfg.screenHeight);
          RowEnd(i, tw, tw, th);
          ghost var cur := game.pixels[..];
          IntensifyRow(game.pixels, pixel, tile.pixels, tilePixel, tw, cfg.transparentColor);
          forall k | 0 <= k < |s0| && pixel <= k < pixel + tw
            ensures game.pixels[k] == Apply(rule, i, k - pixel, cur[k])
          {
            IndexBound(i, k - pixel, tw, th);
          }
          RowStep(s0, cur, game.pixels[..], sw, box, rule, 0, i, i);
          NextRow(sw, box, i, tw);
          pixel := pixel + sw;
          tilePixel := tilePixel + tw;
        }
      }
    }

    /** video_draw_highlight_effect. */
    method DrawHighlightEffect(x: nat, y: nat, kind: bv8)
      requires Valid() && x + cfg.tileWidth <= cfg.screenWidth && y + cfg.tileHeight <= cfg.screenHeight
      modifies game.pixels
      ensures game.pixels[..] == DrawnHighlight(cfg, old(game.pixels[..]), x, y, kind)
    {
      var sw, tw, th := cfg.screenWidth, cfg.tileWidth, cfg.tileHeight;
      var box := TileBox(cfg, x, y);
      FitsGrid(sw, cfg.screenHeight, box);
      ghost var s0 := game.pixels[..];
      ghost var rule := Highlight(kind);
      PartialNone(s0, sw, box, rule, 0);
      var pixel := x + y * sw;
      for i := 0 to th
        invariant pixel == Idx(sw, box, i, 0)
        invariant game.pixels[..] == Partial(s0, sw, box, rule, 0, i)
      {
        RowEnd(y + i, x + tw, sw, cfg.screenHeight);
        ghost var cur := game.pixels[..];
        HighlightRow(game.pixels, pixel, i, tw, kind);
        RowStep(s0, cur, game.pixels[..], sw, box, rule, 0, i, i);
        NextRow(sw, box, i, tw);
        pixel := pixel + sw;
      }
    }

    /** video_draw_tile_flipped. */
    method DrawTileFlipped(tile: Tile, x: nat, y: nat)
      requires Valid() && TilePlaced(cfg, tile, x, y)
      modifies game.pixels
      ensures game.pixels[..] == DrawnFlipped(cfg, old(game.pixels[..]), tile, x, y)
    {
      var box := TileBox(cfg, x, y);
      FitsGrid(cfg.screenWidth, cfg.screenHeight, box);
      FlippedBlit(game.pixels, cfg.screenWidth, box, tile.pixels, cfg.transparentColor);
    }

    /** video_draw_tile_with_clip_rect. */
    method DrawTileWithClipRect(tile: Tile, x0: nat, y0: nat, clipX: nat, clipY: nat, clipW: nat, clipH: nat)
      requires Valid() && ClipPlaced(cfg, tile, x0, y0, clipX, clipY, clipW, clipH)
      modifies game.pixels
      ensures game.pixels[..] == DrawnClipped(cfg, old(game.pixels[..]), tile, x0, y0, clipX, clipY, clipW, clipH)
    {
      var sw, tw, th := cfg.screenWidth, cfg.tileWidth, cfg.tileHeight;
      var tx: nat, ty: nat := 0, 0;
      var w: nat, h: nat := tw, th;
      var x, y := x0, y0;
      if x + w < clipX || y + h < clipY || x > clipX + clipW || y > clipY + clipH {
        return;
      }
      if x < clipX {
        tx := clipX - x;
        w := tw - tx;
        x := clipX;
      }
      if x + w > clipX + clipW {
        w := w - ((x + w) - (clipX + clipW));
      }
      if y < clipY {
        ty := clipY - y;
        h := th - ty;
        y := clipY;
      }
      if y + h > clipY + clipH {
        h := h - ((y + h) - (clipY + clipH));
      }
      var box := Box(x, y, w, h);
      assert ClipTile(cfg, x0, y0, clipX, clipY, clipW, clipH) == Some(Clip(box, tx, ty));
      FitsGrid(sw, cfg.screenHeight, box);
      ClippedBlit(game.pixels, sw, box, tile.pixels, tw, th, tx, ty, cfg.transparentColor);
    }

    /** video_draw_text: one glyph into text cell (x, y) of the text surface. */
    method DrawText(character: bv8, fg: int, bg: int, x: nat, y: nat)
      requires Valid()
      requires x * cfg.fontWidth + cfg.fontWidth <= text.w && y * cfg.fontHeight + cfg.fontHeight <= text.h
      modifies text.pixels
      ensures text.pixels[..] == DrawnText(cfg, old(text.pixels[..]), text.w, character, fg, bg, x, y)
    {
      var box := GlyphBox(cfg, x, y);
      FitsGrid(text.w, text.h, box);
      GlyphBlit(text.pixels, text.w, box, cfg, character, ToByte(fg), ToByte(bg));
    }

    /** video_fill_screen_with_black. */
    method FillScreenWithBlack()
      requires Valid()
      modifies game.pixels
      ensures forall k :: 0 <= k < game.pixels.Length ==> game.pixels[k] == 0
    {
      game.FillWithBlack();
    }
  }

  /** The loops of video_draw_tile_flipped: the destination starts on the
   *  box's last row and moves up one row per tile row. */
  method FlippedBlit(dst: array<bv8>, sw: nat, box: Box, px: seq<bv8>, key: bv8)
    requires Fits(dst.Length, sw, box) && box.w > 0 && |px| == box.w * box.h
    modifies dst
    ensures dst[..] == Overlay(old(dst[..]), sw, box, KeyedFlipped(px, box.w, box.h, key))
  {
    var tw, th := box.w, box.h;
    ghost var s0 := dst[..];
    ghost var rule := KeyedFlipped(px, tw, th, key);
    PartialNone(s0, sw, box, rule, th);
    var pixel: int := box.x + (box.y + th - 1) * sw;
    var tilePixel := 0;
    for i := 0 to th
      invariant pixel == Idx(sw, box, th - 1 - i, 0) && tilePixel == i * tw
      invariant dst[..] == Partial(s0, sw, box, rule, th - i, th)
    {
      FlippedRow(dst, s0, sw, box, px, key, i, pixel, tilePixel);
      NextRow(sw, box, th - 1 - i - 1, tw);
      pixel := pixel - sw;
      tilePixel := tilePixel + tw;
    }
  }

  /** One pass of the loop of FlippedBlit: tile row i into box row h - 1 - i. */
  method FlippedRow(dst: array<bv8>, ghost s0: seq<bv8>, sw: nat, box: Box, px: seq<bv8>, key: bv8,
                    i: nat, pixel: int, tilePixel: int)
    requires Fits(|s0|, sw, box) && dst.Length == |s0| && |px| == box.w * box.h && i < box.h
    requires pixel == Idx(sw, box, box.h - 1 - i, 0) && tilePixel == i * box.w
    requires dst[..] == Partial(s0, sw, box, KeyedFlipped(px, box.w, box.h, key), box.h - i, box.h)
    modifies dst
    ensures dst[..] == Partial(s0, sw, box, KeyedFlipped(px, box.w, box.h, key), box.h - i - 1, box.h)
  {
    var tw, th := box.w, box.h;
    ghost var rule := KeyedFlipped(px, tw, th, key);
    ghost var r := th - 1 - i;
    RowEnd(box.y + r, box.x + tw, sw, box.y + th);
    RowEnd(i, tw, tw, th);
    ghost var cur := dst[..];
    KeyedRow(dst, pixel, px, tilePixel, tw, key);
    forall k | 0 <= k < |s0| && pixel <= k < pixel + tw
      ensures dst[k] == Apply(rule, r, k - pixel, cur[k])
    {
      IndexBound(i, k - pixel, tw, th);
    }
    RowStep(s0, cur, dst[..], sw, box, rule, th - i, th, r);
  }

  /** The loops of video_draw_tile_with_clip_rect once the clip is known:
   *  box row i takes tile row ty + i from column tx on. */
  method ClippedBlit(dst: array<bv8>, sw: nat, box: Box, px: seq<bv8>, tw: nat, th: nat, tx: nat, ty: nat, key: bv8)
    requires Fits(dst.Length, sw, box) && |px| == tw * th
    requires tx + box.w <= tw && ty + box.h <= th
    modifies dst
    ensures dst[..] == Overlay(old(dst[..]), sw, box, Keyed(px, tw, tx, ty, key))
  {
    ghost var s0 := dst[..];
    ghost var rule := Keyed(px, tw, tx, ty, key);
    PartialNone(s0, sw, box, rule, 0);
    var pixel := box.x + box.y * sw;
    var tilePixel := tx + ty * tw;
    for i := 0 to box.h
      invariant pixel == Idx(sw, box, i, 0) && tilePixel == (ty + i) * tw + tx
      invariant dst[..] == Partial(s0, sw, box, rule, 0, i)
    {
      RowEnd(box.y + i, box.x + box.w, sw, box.y + box.h);
      RowEnd(ty + i, tx + box.w, tw, th);
      ghost var cur := dst[..];
      KeyedRow(dst, pixel, px, tilePixel, box.w, key);
      forall k | 0 <= k < |s0| && pixel <= k < pixel + box.w
        ensures dst[k] == Apply(rule, i, k - pixel, cur[k])
      {
        IndexBound(ty + i, tx + (k - pixel), tw, th);
      }
      RowStep(s0, cur, dst[..], sw, box, rule, 0, i, i);
      NextRow(sw, box, i, tw);
      NextRow(tw, Box(0, ty, 0, 0), i, tw);
      pixel := pixel + sw;
      tilePixel := tilePixel + tw;
    }
  }

  /** The loops of video_draw_text: glyph row i into box row i, the bit
   *  counter running on across rows. */
  method GlyphBlit(dst: array<bv8>, stride: nat, box: Box, cfg: Config, character: bv8, fg: bv8, bg: bv8)
    requires cfg.Valid() && Fits(dst.Length, stride, box)
    requires box.w == cfg.fontWidth && box.h == cfg.fontHeight
    modifies dst
    ensures dst[..] == Overlay(old(dst[..]), stride, box,
      Glyph(cfg.font, cfg.fontWidth, cfg.fontHeight, character as nat, fg, bg))
  {
    var fw, fh := cfg.fontWidth, cfg.fontHeight;
    ghost var s0 := dst[..];
    ghost var rule := Glyph(cfg.font, fw, fh, character as nat, fg, bg);
    PartialNone(s0, stride, box, rule, 0);
    var pixel := box.x + box.y * stride;
    var count := 0;
    for i := 0 to fh
      invariant pixel == Idx(stride, box, i, 0) && count == i * fw
      invariant dst[..] == Partial(s0, stride, box, rule, 0, i)
    {
      count := GlyphBandRow(dst, s0, stride, box, cfg, character, fg, bg, i, pixel, count);
      NextRow(stride, box, i, fw);
      pixel := pixel + stride;
    }
  }

  /** One pass of the loop of GlyphBlit: glyph row i into box row i. */
  method GlyphBandRow(dst: array<bv8>, ghost s0: seq<bv8>, stride: nat, box: Box, cfg: Config,
                      character: bv8, fg: bv8, bg: bv8, i: nat, pixel: int, count: nat)
    returns (next: nat)
    requires cfg.Valid() && Fits(|s0|, stride, box) && dst.Length == |s0|
    requires box.w == cfg.fontWidth && box.h == cfg.fontHeight && i < box.h
    requires pixel == Idx(stride, box, i, 0) && count == i * cfg.fontWidth
    requires dst[..] == Partial(s0, stride, box, Glyph(cfg.font, cfg.fontWidth, cfg.fontHeight, character as nat, fg, bg), 0, i)
    modifies dst
    ensures next == count + cfg.fontWidth
    ensures dst[..] == Partial(s0, stride, box, Glyph(cfg.font, cfg.fontWidth, cfg.fontHeight, character as nat, fg, bg), 0, i + 1)
  {
    var fw, fh := cfg.fontWidth, cfg.fontHeight;
    ghost var rule := Glyph(cfg.font, fw, fh, character as nat, fg, bg);
    RowEnd(box.y + i, box.x + fw, stride, box.y + fh);
    RowEnd(i, fw, fw, fh);
    ghost var cur := dst[..];
    next := GlyphRow(dst, pixel, cfg, character, i, count, fg, bg);
    GlyphRowStep(s0, cur, dst[..], stride, box, cfg, character, fg, bg, i);
  }

  /** A glyph row written as GlyphRow writes it is box row i of the glyph overlay. */
  lemma GlyphRowStep(s0: seq<bv8>, cur: seq<bv8>, nxt: seq<bv8>, stride: nat, box: Box, cfg: Config,
                     character: bv8, fg: bv8, bg: bv8, i: nat)
    requires cfg.Valid() && Fits(|s0|, stride, box) && |nxt| == |s0|
    requires box.w == cfg.fontWidth && box.h == cfg.fontHeight && i < box.h
    requires cur == Partial(s0, stride, box, Glyph(cfg.font, cfg.fontWidth, cfg.fontHeight, character as nat, fg, bg), 0, i)
    requires forall k :: 0 <= k < |nxt| ==>
      nxt[k] == if Idx(stride, box, i, 0) <= k < Idx(stride, box, i, 0) + cfg.fontWidth
                then (if GlyphPixel(cfg, character, i, k - Idx(stride, box, i, 0)) then fg else bg)
                else cur[k]
    ensures nxt == Partial(s0, stride, box, Glyph(cfg.font, cfg.fontWidth, cfg.fontHeight, character as nat, fg, bg), 0, i + 1)
  {
    var rule := Glyph(cfg.font, cfg.fontWidth, cfg.fontHeight, character as nat, fg, bg);
    var pixel := Idx(stride, box, i, 0);
    forall k | 0 <= k < |s0| && pixel <= k < pixel + cfg.fontWidth
      ensures nxt[k] == Apply(rule, i, k - pixel, cur[k])
    {
      GlyphApply(cfg, character, fg, bg, i, k - pixel, cur[k]);
    }
    RowStep(s0, cur, nxt, stride, box, rule, 0, i, i);
  }

  /** The inner loop of video_draw_text: one glyph row, FONT_WIDTH cells from
   *  `start` on, fg on set glyph bits and bg on clear ones; the running bit
   *  counter moves on by FONT_WIDTH. */
  method GlyphRow(dst: array<bv8>, start: nat, cfg: Config, character: bv8, i: nat, count: nat, fg: bv8, bg: bv8)
    returns (next: nat)
    requires cfg.Valid() && start + cfg.fontWidth <= dst.Length
    requires i < cfg.fontHeight && count == i * cfg.fontWidth
    modifies dst
    ensures next == count + cfg.fontWidth
    ensures forall k :: 0 <= k < dst.Length ==>
      dst[k] == if start <= k < start + cfg.fontWidth
                then (if GlyphPixel(cfg, character, i, k - start) then fg else bg)
                else old(dst[k])
  {
    next := count;
    for j := 0 to cfg.fontWidth
      invariant next == count + j
      invariant forall k :: 0 <= k < dst.Length ==>
        dst[k] == if start <= k < start + j
                  then (if GlyphPixel(cfg, character, i, k - start) then fg else bg)
                  else old(dst[k])
    {
      IndexBound(i, j, cfg.fontWidth, cfg.fontHeight);
      dst[start + j] := if GlyphBitAt(cfg, character, next) then fg else bg;
      next := next + 1;
    }
  }
}
