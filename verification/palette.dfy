/**
 * SDL_Palette and SDL_SetPaletteColors of n64/SDL/SDL_pixels.h: a 16-entry
 * palette of RGBA 5551 colours with a version counter.
 */
module Palette {

  /** SDL_Color: 8-bit red, green, blue and alpha. */
  datatype Color = Color(r: bv8, g: bv8, b: bv8, a: bv8)

  /** Number of entries of SDL_Palette.colors. */
  const PaletteSize: nat := 16

  /** The top five bits of a channel, as a 16-bit value. */
  function Top5(x: bv8): bv16
  {
    (x >> 3) as bv16
  }

  /**
   * RGBA 5551 packing: the top five bits of red, green and blue in bits
   * 15..11, 10..6 and 5..1, and bit 0 (alpha) always set. Alpha of the input
   * is not used.
   */
  function Pack5551(c: Color): (p: bv16)
    ensures p & 1 == 1
    ensures (p >> 11) & 0x1F == Top5(c.r)
    ensures (p >> 6) & 0x1F == Top5(c.g)
    ensures (p >> 1) & 0x1F == Top5(c.b)
  {
    (Top5(c.r) << 11) | (Top5(c.g) << 6) | (Top5(c.b) << 1) | 0x01
  }

  /** Two colours pack alike exactly when the top five bits of each of their
   *  red, green and blue channels agree; alpha plays no part. */
  lemma PackSameIff(c: Color, d: Color)
    ensures Pack5551(c) == Pack5551(d)
        <==> (Top5(c.r) == Top5(d.r) && Top5(c.g) == Top5(d.g) && Top5(c.b) == Top5(d.b))
  {
    if Top5(c.r) == Top5(d.r) && Top5(c.g) == Top5(d.g) && Top5(c.b) == Top5(d.b) {
      PackFromTop(c, d);
    }
  }

  lemma PackFromTop(c: Color, d: Color)
    requires Top5(c.r) == Top5(d.r) && Top5(c.g) == Top5(d.g) && Top5(c.b) == Top5(d.b)
    ensures Pack5551(c) == Pack5551(d)
  {
    var r, g, b := Top5(c.r), Top5(c.g), Top5(c.b);
    calc {
      Pack5551(c);
      (r << 11) | (g << 6) | (b << 1) | 0x01;
      Pack5551(d);
    }
  }

  /** SDL_Palette. `refcount` is the slot number the video code stores in it. */
  class Palette {
    var ncolors: int
    const colors: array<bv16>
    var version: bv32
    var refcount: int

    ghost predicate Valid()
    {
      colors.Length == PaletteSize
    }

    /** A palette holding `initial`. The source allocates its palettes with
     *  malloc and never sets ncolors or version; PaletteSize entries, version
     *  0 and refcount 0 are this model's own starting values. */
    constructor (initial: seq<bv16>)
      requires |initial| == PaletteSize
      ensures Valid() && fresh(colors)
      ensures colors[..] == initial && version == 0
      ensures ncolors == PaletteSize && refcount == 0
    {
      ncolors := PaletteSize;
      colors := new bv16[PaletteSize](i requires 0 <= i < PaletteSize => initial[i]);
      version := 0;
      refcount := 0;
    }
  }

  /**
   * SDL_SetPaletteColors: a null palette gives -1 and changes nothing;
   * otherwise entries firstcolor .. firstcolor + ncolors - 1 get the packed
   * colors[0 .. ncolors - 1], the version goes up by one (wrapping at 2^32,
   * even when nothing is written) and the result is 0. The source checks no
   * range, so the written entries must lie within the 16-entry array.
   */
  method SetPaletteColors(palette: Palette?, colors: seq<Color>, firstcolor: int, ncolors: int)
    returns (ret: int)
    requires palette != null ==> palette.Valid()
    requires palette != null && ncolors > 0 ==>
      0 <= firstcolor && firstcolor + ncolors <= PaletteSize && ncolors <= |colors|
    modifies if palette == null then {} else {palette, palette.colors}
    ensures palette == null ==> ret == -1
    ensures palette != null ==>
      && ret == 0
      && palette.version == old(palette.version) + 1
      && palette.ncolors == old(palette.ncolors)
      && palette.refcount == old(palette.refcount)
      && (forall i :: 0 <= i < PaletteSize ==>
            palette.colors[i] == if firstcolor <= i < firstcolor + ncolors
                                 then Pack5551(colors[i - firstcolor])
                                 else old(palette.colors[i]))
  {
    if palette == null {
      return -1;
    }
    var i := firstcolor;
    while i < firstcolor + ncolors
      modifies palette.colors
      invariant ncolors > 0 ==> firstcolor <= i <= firstcolor + ncolors
      invariant ncolors <= 0 ==> i == firstcolor
      invariant forall k :: 0 <= k < PaletteSize ==>
        palette.colors[k] == if firstcolor <= k < i then Pack5551(colors[k - firstcolor])
                             else old(palette.colors[k])
    {
      palette.colors[i] := Pack5551(colors[i - firstcolor]);
      i := i + 1;
    }
    palette.version := palette.version + 1;
    return 0;
  }
}
