/**
 * Glyph bitmaps (`Glyph` and `Font::glyph` in tiler_derive/src/glyph.rs): a glyph is a
 * flat RGBA8 buffer of FONT_WIDTH x FONT_HEIGHT pixels, filled with the background and
 * then painted, pixel by pixel, where the font outline covers the cell.
 */
module Glyphs {
  import opened Results
  import opened Colors

  const FONT_HEIGHT: nat := 40
  const FONT_WIDTH: nat := FONT_HEIGHT / 2

  /** The number of pixels in a glyph cell. */
  const CELL_PIXELS: nat := FONT_WIDTH * FONT_HEIGHT

  /** The four bytes of a pixel, in the order `set_pixel` and `blank` write them. */
  function Channels(c: Color): seq<Byte> {
    [c.r, c.g, c.b, c.a]
  }

  /** `n` pixels of colour `c`. */
  function Filled(c: Color, n: nat): (d: seq<Byte>)
    ensures |d| == 4 * n
    ensures forall i :: 0 <= i < |d| ==> d[i] == Channels(c)[i % 4]
  {
    if n == 0 then [] else Filled(c, n - 1) + Channels(c)
  }

  /** `data` with the bytes of pixel `k` replaced by `c`. */
  function WritePixel(data: seq<Byte>, k: nat, c: Color): (d: seq<Byte>)
    requires 4 * k + 3 < |data|
    ensures |d| == |data|
    ensures d[4 * k..4 * k + 4] == Channels(c)
    ensures forall i :: 0 <= i < |data| && !(4 * k <= i < 4 * k + 4) ==> d[i] == data[i]
  {
    data[4 * k := c.r][4 * k + 1 := c.g][4 * k + 2 := c.b][4 * k + 3 := c.a]
  }

  /** The pixel offset of column `x` of row `y` (`pixel_start`), for a buffer `width`
      pixels wide. */
  function PixelOffset(width: nat, x: nat, y: nat): nat {
    y * width + x
  }

  /** Inside the `width` x `height` grid, every pixel lies in the buffer, and distinct
      positions have distinct offsets. */
  lemma PixelOffsetInGrid(width: nat, height: nat, x: nat, y: nat)
    requires x < width && y < height
    ensures PixelOffset(width, x, y) < width * height
    ensures 4 * PixelOffset(width, x, y) + 3 < 4 * (width * height)
  {
    assert y * width <= (height - 1) * width by {
      MulMonotone(y, height - 1, width);
    }
  }

  lemma PixelOffsetInjective(width: nat, x1: nat, y1: nat, x2: nat, y2: nat)
    requires x1 < width && x2 < width
    requires PixelOffset(width, x1, y1) == PixelOffset(width, x2, y2)
    ensures x1 == x2 && y1 == y2
  {
    if y1 < y2 {
      MulMonotone(y1 + 1, y2, width);
    } else if y2 < y1 {
      MulMonotone(y2 + 1, y1, width);
    }
  }

  lemma MulMonotone(a: nat, b: nat, w: nat)
    requires a <= b
    ensures a * w <= b * w
  {
  }

  /** A glyph bitmap: `width` x `height` pixels, four bytes each, row after row. */
  class Glyph {
    var width: nat
    var height: nat
    var data: seq<Byte>

    /** `is_valid`: the buffer holds exactly `width * height` pixels. */
    predicate IsValid()
      reads this
    {
      width * height * 4 == |data|
    }

    function PixelStart(x: nat, y: nat): nat
      reads this
    {
      PixelOffset(width, x, y)
    }

    /** `Glyph::blank`: a cell-sized glyph, every pixel `color`. */
    constructor Blank(color: Color)
      ensures width == FONT_WIDTH && height == FONT_HEIGHT
      ensures data == Filled(color, CELL_PIXELS)
      ensures IsValid()
    {
      var d: seq<Byte> := [];
      for i := 0 to CELL_PIXELS
        invariant d == Filled(color, i)
      {
        d := d + [color.r];
        d := d + [color.g];
        d := d + [color.b];
        d := d + [color.a];
      }
      width := FONT_WIDTH;
      height := FONT_HEIGHT;
      data := d;
    }

    /** `set_pixel`: overwrite the four bytes of pixel (x, y). Only the buffer bound is
        checked (by the indexing), not `x < width`. */
    method SetPixel(x: nat, y: nat, color: Color)
      requires 4 * PixelStart(x, y) + 3 < |data|
      modifies this
      ensures width == old(width) && height == old(height)
      ensures data == WritePixel(old(data), old(PixelStart(x, y)), color)
    {
      var idx := PixelStart(x, y);
      data := data[idx * 4 := color.r];
      data := data[idx * 4 + 1 := color.g];
      data := data[idx * 4 + 2 := color.b];
      data := data[idx * 4 + 3 := color.a];
    }
  }

  /** One sample of the outline's coverage callback: a position relative to the pixel
      bounding box and a coverage value. */
  datatype Sample = Sample(x: nat, y: nat, v: real)

  /** The cell pixel a sample lands on, when it lands inside the cell. */
  function Target(s: Sample, minX: int, minY: int): (k: Option<nat>)
    ensures k.Some? ==> k.value < CELL_PIXELS
    ensures k.Some? <==> 0 <= s.x + minX < FONT_WIDTH && 0 <= s.y + minY < FONT_HEIGHT
  {
    var x := s.x + minX;
    var y := s.y + minY;
    if 0 <= x < FONT_WIDTH && 0 <= y < FONT_HEIGHT then
      PixelOffsetInGrid(FONT_WIDTH, FONT_HEIGHT, x, y);
      Some(PixelOffset(FONT_WIDTH, x, y))
    else None
  }

  /** The buffer after the samples `ss`, in order, have painted over `data`; samples
      that fall outside the cell are dropped. */
  function Paint(data: seq<Byte>, ss: seq<Sample>, minX: int, minY: int, fg: Color, bg: Color,
                 blend: (Color, Color, real) -> Color): (d: seq<Byte>)
    requires |data| == 4 * CELL_PIXELS
    ensures |d| == |data|
  {
    if ss == [] then data
    else
      var d := Paint(data, ss[..|ss| - 1], minX, minY, fg, bg, blend);
      var s := ss[|ss| - 1];
      match Target(s, minX, minY)
      case Some(k) => WritePixel(d, k, blend(fg, bg, s.v))
      case None => d
  }

  /** Painting one more sample. */
  lemma PaintStep(data: seq<Byte>, ss: seq<Sample>, i: nat, minX: int, minY: int, fg: Color, bg: Color,
                  blend: (Color, Color, real) -> Color)
    requires |data| == 4 * CELL_PIXELS && i < |ss|
    ensures Paint(data, ss[..i + 1], minX, minY, fg, bg, blend)
            == match Target(ss[i], minX, minY)
               case Some(k) => WritePixel(Paint(data, ss[..i], minX, minY, fg, bg, blend), k, blend(fg, bg, ss[i].v))
               case None => Paint(data, ss[..i], minX, minY, fg, bg, blend)
  {
    assert ss[..i + 1][..i] == ss[..i];
  }

  /** A pixel no sample lands on keeps its bytes. */
  lemma {:induction false} PaintKeepsUntouched(data: seq<Byte>, ss: seq<Sample>, minX: int, minY: int,
                                               fg: Color, bg: Color, blend: (Color, Color, real) -> Color, k: nat)
    requires |data| == 4 * CELL_PIXELS && k < CELL_PIXELS
    requires forall j :: 0 <= j < |ss| ==> Target(ss[j], minX, minY) != Some(k)
    ensures Paint(data, ss, minX, minY, fg, bg, blend)[4 * k..4 * k + 4] == data[4 * k..4 * k + 4]
  {
    if ss != [] {
      var prefix := ss[..|ss| - 1];
      PaintKeepsUntouched(data, prefix, minX, minY, fg, bg, blend, k);
      var d := Paint(data, prefix, minX, minY, fg, bg, blend);
      var s := ss[|ss| - 1];
      match Target(s, minX, minY)
      case Some(k') =>
        assert k' != k;
        assert WritePixel(d, k', blend(fg, bg, s.v))[4 * k..4 * k + 4] == d[4 * k..4 * k + 4];
      case None =>
    }
  }

  /** A pixel holds the blend of the last sample that lands on it. */
  lemma {:induction false} PaintLastSampleWins(data: seq<Byte>, ss: seq<Sample>, minX: int, minY: int,
                                               fg: Color, bg: Color, blend: (Color, Color, real) -> Color,
                                               j: nat, k: nat)
    requires |data| == 4 * CELL_PIXELS
    requires j < |ss| && Target(ss[j], minX, minY) == Some(k)
    requires forall i :: j < i < |ss| ==> Target(ss[i], minX, minY) != Some(k)
    ensures Paint(data, ss, minX, minY, fg, bg, blend)[4 * k..4 * k + 4] == Channels(blend(fg, bg, ss[j].v))
  {
    var prefix := ss[..|ss| - 1];
    var d := Paint(data, prefix, minX, minY, fg, bg, blend);
    var s := ss[|ss| - 1];
    if j == |ss| - 1 {
      assert Target(s, minX, minY) == Some(k);
    } else {
      PaintLastSampleWins(data, prefix, minX, minY, fg, bg, blend, j, k);
      match Target(s, minX, minY)
      case Some(k') =>
        assert k' != k;
        assert WritePixel(d, k', blend(fg, bg, s.v))[4 * k..4 * k + 4] == d[4 * k..4 * k + 4];
      case None =>
    }
  }

  /** The glyph `Font::glyph` produces for an outline whose pixel bounding box starts at
      `bbox` (none for an empty outline) and whose coverage callback yields `samples`. */
  function GlyphData(bbox: Option<(int, int)>, samples: seq<Sample>, fg: Color, bg: Color,
                     blend: (Color, Color, real) -> Color): (d: seq<Byte>)
    ensures |d| == 4 * CELL_PIXELS
  {
    match bbox
    case None => Filled(bg, CELL_PIXELS)
    case Some((minX, minY)) => Paint(Filled(bg, CELL_PIXELS), samples, minX, minY, fg, bg, blend)
  }

  /** The `draw` callback of `Font::glyph`, run over every sample: a sample inside the
      cell overwrites its pixel with `blend(fg, bg, coverage)`; any other sample is
      clipped. */
  method PaintSamples(output: Glyph, samples: seq<Sample>, minX: int, minY: int, fg: Color, bg: Color,
                      blend: (Color, Color, real) -> Color)
    requires output.width == FONT_WIDTH && |output.data| == 4 * CELL_PIXELS
    modifies output
    ensures output.width == old(output.width) && output.height == old(output.height)
    ensures output.data == Paint(old(output.data), samples, minX, minY, fg, bg, blend)
  {
    ghost var initial := output.data;
    for i := 0 to |samples|
      invariant output.width == old(output.width) && output.height == old(output.height)
      invariant output.data == Paint(initial, samples[..i], minX, minY, fg, bg, blend)
    {
      PaintStep(initial, samples, i, minX, minY, fg, bg, blend);
      var s := samples[i];
      var x := s.x + minX;
      var y := s.y + minY;
      if x >= 0 && x < FONT_WIDTH && y >= 0 && y < FONT_HEIGHT {
        ghost var k := Target(s, minX, minY).value;
        assert k == output.PixelStart(x, y);
        output.SetPixel(x, y, blend(fg, bg, s.v));
      }
    }
    assert samples[..|samples|] == samples;
  }

  /** `Font::glyph`: start from a blank background cell and, when the outline has a
      bounding box, paint each sample that lands inside the cell with
      `blend(fg, bg, coverage)`. The final `is_valid` assertion always holds. Font
      loading and rasterisation are the parameters `bbox` and `samples`; the colour
      blend (`Color::interp`) is the parameter `blend`. */
  method RenderGlyph(bbox: Option<(int, int)>, samples: seq<Sample>, fg: Color, bg: Color,
                     blend: (Color, Color, real) -> Color) returns (output: Glyph)
    ensures fresh(output)
    ensures output.width == FONT_WIDTH && output.height == FONT_HEIGHT
    ensures output.data == GlyphData(bbox, samples, fg, bg, blend)
    ensures output.IsValid()
  {
    output := new Glyph.Blank(bg);
    if bbox.Some? {
      var (minX, minY) := bbox.value;
      PaintSamples(output, samples, minX, minY, fg, bg, blend);
    }
    assert output.IsValid();
  }

  /** Every pixel of a filled buffer is the fill colour. */
  lemma FilledPixel(c: Color, n: nat, k: nat)
    requires k < n
    ensures Filled(c, n)[4 * k..4 * k + 4] == Channels(c)
  {
    var d := Filled(c, n);
    assert (4 * k) % 4 == 0 && (4 * k + 1) % 4 == 1 && (4 * k + 2) % 4 == 2 && (4 * k + 3) % 4 == 3;
    assert d[4 * k..4 * k + 4] == [d[4 * k], d[4 * k + 1], d[4 * k + 2], d[4 * k + 3]];
  }

  /** In a rendered glyph, a pixel that no sample lands on shows the background. */
  lemma UncoveredPixelIsBackground(bbox: Option<(int, int)>, samples: seq<Sample>, fg: Color, bg: Color,
                                   blend: (Color, Color, real) -> Color, k: nat)
    requires k < CELL_PIXELS
    requires bbox.Some? ==> forall j :: 0 <= j < |samples| ==> Target(samples[j], bbox.value.0, bbox.value.1) != Some(k)
    ensures GlyphData(bbox, samples, fg, bg, blend)[4 * k..4 * k + 4] == Channels(bg)
  {
    FilledPixel(bg, CELL_PIXELS, k);
    if bbox.Some? {
      PaintKeepsUntouched(Filled(bg, CELL_PIXELS), samples, bbox.value.0, bbox.value.1, fg, bg, blend, k);
    }
  }

  /** In a rendered glyph, a pixel shows the blend of the last sample that lands on it. */
  lemma CoveredPixelIsBlend(minX: int, minY: int, samples: seq<Sample>, fg: Color, bg: Color,
                            blend: (Color, Color, real) -> Color, j: nat, k: nat)
    requires j < |samples| && Target(samples[j], minX, minY) == Some(k)
    requires forall i :: j < i < |samples| ==> Target(samples[i], minX, minY) != Some(k)
    ensures GlyphData(Some((minX, minY)), samples, fg, bg, blend)[4 * k..4 * k + 4]
            == Channels(blend(fg, bg, samples[j].v))
  {
    PaintLastSampleWins(Filled(bg, CELL_PIXELS), samples, minX, minY, fg, bg, blend, j, k);
  }
}
