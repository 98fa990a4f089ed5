/**
 * The caption renderer `create_meme`: the font size rule, the placement of
 * the top and bottom captions, and the outline-then-fill stamping of
 * `draw_outlined_text`. Pillow's rasterising is reduced to the sequence of
 * `draw.text` calls made on the image; the text measurement and whether the
 * scalable font loads are inputs.
 */
module Meme {

  /** The font `create_meme` ends up with: arial.ttf at a point size, or Pillow's built-in default. */
  datatype Font = TrueType(size: nat) | BuiltIn

  datatype Colour = White | Black

  /** A drawing position: `x` is a true quotient of Python's `/`, `y` an integer. */
  datatype Point = Point(x: real, y: int)

  /** The width and height Pillow measures for one caption in the chosen font. */
  datatype Extent = Extent(width: int, height: int)

  /** One call `draw.text(at, text, font=font, fill=fill)`. */
  datatype DrawCommand = Draw(at: Point, text: string, font: Font, fill: Colour)

  /** Distance of the top caption from the top edge, and of the bottom caption from the bottom edge. */
  const TopPadding: int := 10
  const BottomPadding: int := 10

  /** The offsets of the outline stamps, in both directions. */
  const OutlineOffsets: seq<int> := [-2, 0, 2]

  /** The colours create_meme passes for every caption. */
  const CaptionFill: Colour := White
  const CaptionOutline: Colour := Black

  /**
   * The requested font size: a tenth of the image height for arial.ttf, a
   * twentieth on the fallback path, truncated (`int(height / 10)`).
   */
  function FontSize(scalable: bool, height: nat): (size: nat)
    ensures scalable ==> 10 * size <= height < 10 * (size + 1)
    ensures !scalable ==> 20 * size <= height < 20 * (size + 1)
  {
    if scalable then height / 10 else height / 20
  }

  /** The fallback size is half the scalable size, rounded down. */
  lemma FallbackFontSizeIsHalf(height: nat)
    ensures FontSize(false, height) == FontSize(true, height) / 2
  {
    var big, small := FontSize(true, height), FontSize(false, height);
    var half := big / 2;
    assert 20 * half <= height < 20 * (half + 1);
  }

  /**
   * The font chosen once per image: arial.ttf at `FontSize(true, height)` when
   * it loads, otherwise the built-in font (which takes no size).
   */
  function ResolveFont(arialLoads: bool, height: nat): (font: Font)
    ensures font.TrueType? <==> arialLoads
    ensures font.TrueType? ==> 10 * font.size <= height < 10 * font.size + 10
  {
    if arialLoads then TrueType(FontSize(true, height)) else BuiltIn
  }

  /**
   * The left edge that centres text of width `textWidth` on an image of width
   * `width`. Nothing is clipped: wider text starts left of the image.
   */
  function CenterX(width: nat, textWidth: int): (x: real)
    ensures 2.0 * x + textWidth as real == width as real
    ensures x < 0.0 <==> textWidth > width
  {
    (width - textWidth) as real / 2.0
  }

  /** Where the top caption is drawn: centred, `TopPadding` below the top edge. */
  function TopOrigin(width: nat, extent: Extent): (p: Point)
    ensures p.y == TopPadding
    ensures 2.0 * p.x + extent.width as real == width as real
  {
    Point(CenterX(width, extent.width), TopPadding)
  }

  /** Where the bottom caption is drawn: centred, its box ending `BottomPadding` above the bottom edge. */
  function BottomOrigin(width: nat, height: nat, extent: Extent): (p: Point)
    ensures p.y + extent.height + BottomPadding == height
    ensures 2.0 * p.x + extent.width as real == width as real
  {
    Point(CenterX(width, extent.width), height - extent.height - BottomPadding)
  }

  /** The outline stamp of `text` displaced by (dx, dy) from `origin`. */
  function Stamp(origin: Point, dx: int, dy: int, text: string, font: Font, colour: Colour): DrawCommand
  {
    Draw(Point(origin.x + dx as real, origin.y + dy), text, font, colour)
  }

  /** The stamps of the inner loop for one `dx`, one per `dy` in order. */
  function Column(origin: Point, dx: int, dys: seq<int>, text: string, font: Font, colour: Colour): seq<DrawCommand>
  {
    if dys == [] then []
    else Column(origin, dx, dys[..|dys| - 1], text, font, colour) + [Stamp(origin, dx, dys[|dys| - 1], text, font, colour)]
  }

  /** The stamps of both loops: `dx` outer, `dy` inner. */
  function Grid(origin: Point, dxs: seq<int>, dys: seq<int>, text: string, font: Font, colour: Colour): seq<DrawCommand>
  {
    if dxs == [] then []
    else Grid(origin, dxs[..|dxs| - 1], dys, text, font, colour) + Column(origin, dxs[|dxs| - 1], dys, text, font, colour)
  }

  lemma {:induction false} ColumnAt(origin: Point, dx: int, dys: seq<int>, text: string, font: Font, colour: Colour)
    ensures |Column(origin, dx, dys, text, font, colour)| == |dys|
    ensures forall j :: 0 <= j < |dys| ==>
      Column(origin, dx, dys, text, font, colour)[j] == Stamp(origin, dx, dys[j], text, font, colour)
  {
    if dys != [] {
      ColumnAt(origin, dx, dys[..|dys| - 1], text, font, colour);
    }
  }

  /** With three offsets per column, the stamp for (dxs[i], dys[j]) comes at position 3 * i + j. */
  lemma {:induction false} GridAt(origin: Point, dxs: seq<int>, dys: seq<int>, text: string, font: Font, colour: Colour)
    requires |dys| == 3
    ensures |Grid(origin, dxs, dys, text, font, colour)| == 3 * |dxs|
    ensures forall i, j :: 0 <= i < |dxs| && 0 <= j < 3 ==>
      Grid(origin, dxs, dys, text, font, colour)[3 * i + j] == Stamp(origin, dxs[i], dys[j], text, font, colour)
  {
    if dxs != [] {
      var m := |dxs|;
      var init := dxs[..m - 1];
      GridAt(origin, init, dys, text, font, colour);
      ColumnAt(origin, dxs[m - 1], dys, text, font, colour);
      forall i, j | 0 <= i < m && 0 <= j < 3
        ensures Grid(origin, dxs, dys, text, font, colour)[3 * i + j] == Stamp(origin, dxs[i], dys[j], text, font, colour)
      {
        if i < m - 1 {
          assert init[i] == dxs[i];
        }
      }
    }
  }

  /**
   * What draw_outlined_text draws: the nine outline stamps, then the text once
   * more in the fill colour at the position itself.
   */
  function OutlinedText(position: Point, text: string, font: Font, fill: Colour, outline: Colour): seq<DrawCommand>
  {
    Grid(position, OutlineOffsets, OutlineOffsets, text, font, outline) + [Draw(position, text, font, fill)]
  }

  /**
   * The k-th of the ten draw commands for one caption, by position alone:
   * outline stamps at offsets (dx, dy) = (OutlineOffsets[k / 3], OutlineOffsets[k % 3])
   * for k < 9, the fill at the position for k == 9.
   */
  function Stroke(position: Point, text: string, font: Font, fill: Colour, outline: Colour, k: nat): DrawCommand
    requires k < 10
  {
    if k < 9 then Stamp(position, OutlineOffsets[k / 3], OutlineOffsets[k % 3], text, font, outline)
    else Draw(position, text, font, fill)
  }

  /** draw_outlined_text issues exactly the ten commands of `Stroke`, in that order. */
  lemma OutlinedTextAt(position: Point, text: string, font: Font, fill: Colour, outline: Colour)
    ensures |OutlinedText(position, text, font, fill, outline)| == 10
    ensures forall k :: 0 <= k < 10 ==>
      OutlinedText(position, text, font, fill, outline)[k] == Stroke(position, text, font, fill, outline, k)
  {
    GridAt(position, OutlineOffsets, OutlineOffsets, text, font, outline);
    var cmds := OutlinedText(position, text, font, fill, outline);
    forall k | 0 <= k < 10
      ensures cmds[k] == Stroke(position, text, font, fill, outline, k)
    {
      if k < 9 {
        assert k == 3 * (k / 3) + k % 3;
      }
    }
  }

  /** The outline surrounds the fill: the outline stamps are at most 2 away in each direction, and the last command is the fill at the position. */
  lemma OutlineThenFill(position: Point, text: string, font: Font, fill: Colour, outline: Colour)
    ensures var cmds := OutlinedText(position, text, font, fill, outline);
      && |cmds| == 10
      && (forall k :: 0 <= k < 9 ==>
            && cmds[k].fill == outline && cmds[k].text == text
            && -2.0 <= cmds[k].at.x - position.x <= 2.0
            && -2 <= cmds[k].at.y - position.y <= 2)
      && cmds[9] == Draw(position, text, font, fill)
  {
    OutlinedTextAt(position, text, font, fill, outline);
  }

  /**
   * Everything create_meme draws, in order: the top caption's ten commands if
   * it is non-empty, then the bottom caption's if it is non-empty.
   */
  function Captions(width: nat, height: nat, font: Font, top: string, topExtent: Extent, bottom: string, bottomExtent: Extent): (cmds: seq<DrawCommand>)
    ensures |cmds| == 10 * ((if top != [] then 1 else 0) + (if bottom != [] then 1 else 0))
    ensures top == [] && bottom == [] ==> cmds == []
  {
    OutlinedTextAt(TopOrigin(width, topExtent), top, font, CaptionFill, CaptionOutline);
    OutlinedTextAt(BottomOrigin(width, height, bottomExtent), bottom, font, CaptionFill, CaptionOutline);
    (if top != [] then OutlinedText(TopOrigin(width, topExtent), top, font, CaptionFill, CaptionOutline) else [])
    + (if bottom != [] then OutlinedText(BottomOrigin(width, height, bottomExtent), bottom, font, CaptionFill, CaptionOutline) else [])
  }

  /**
   * Every command of `Captions`, by position: the top caption's strokes come
   * first and all of them, then the bottom caption's; an empty caption has none.
   */
  lemma CaptionsAt(width: nat, height: nat, font: Font, top: string, topExtent: Extent, bottom: string, bottomExtent: Extent, k: nat)
    requires k < |Captions(width, height, font, top, topExtent, bottom, bottomExtent)|
    ensures var cmds := Captions(width, height, font, top, topExtent, bottom, bottomExtent);
      var topCount := if top != [] then 10 else 0;
      && (k < topCount ==> cmds[k] == Stroke(TopOrigin(width, topExtent), top, font, CaptionFill, CaptionOutline, k))
      && (k >= topCount ==>
            bottom != [] && cmds[k] == Stroke(BottomOrigin(width, height, bottomExtent), bottom, font, CaptionFill, CaptionOutline, k - topCount))
  {
    OutlinedTextAt(TopOrigin(width, topExtent), top, font, CaptionFill, CaptionOutline);
    OutlinedTextAt(BottomOrigin(width, height, bottomExtent), bottom, font, CaptionFill, CaptionOutline);
  }

  /**
   * The image being captioned together with its drawing context: dimensions
   * that never change, and the draw commands stamped on it so far.
   */
  class Canvas {
    const width: nat
    const height: nat
    var drawn: seq<DrawCommand>

    /** An opened image of the given size with nothing drawn on it yet. */
    constructor (width: nat, height: nat)
      ensures this.width == width && this.height == height && drawn == []
    {
      this.width := width;
      this.height := height;
      drawn := [];
    }

    /** draw.text: stamps `text` at `at` over whatever is there. */
    method DrawText(at: Point, text: string, font: Font, fill: Colour)
      modifies this
      ensures drawn == old(drawn) + [Draw(at, text, font, fill)]
    {
      drawn := drawn + [Draw(at, text, font, fill)];
    }
  }

  /** One more pass of the inner loop adds one stamp. */
  lemma ColumnExtend(origin: Point, dx: int, dys: seq<int>, j: nat, text: string, font: Font, colour: Colour)
    requires j < |dys|
    ensures Column(origin, dx, dys[..j + 1], text, font, colour)
         == Column(origin, dx, dys[..j], text, font, colour) + [Stamp(origin, dx, dys[j], text, font, colour)]
  {
    assert dys[..j + 1][..j] == dys[..j];
  }

  /** One more pass of the outer loop adds one column. */
  lemma GridExtend(origin: Point, dxs: seq<int>, dys: seq<int>, i: nat, text: string, font: Font, colour: Colour)
    requires i < |dxs|
    ensures Grid(origin, dxs[..i + 1], dys, text, font, colour)
         == Grid(origin, dxs[..i], dys, text, font, colour) + Column(origin, dxs[i], dys, text, font, colour)
  {
    assert dxs[..i + 1][..i] == dxs[..i];
  }

  lemma AppendAssoc(a: seq<DrawCommand>, b: seq<DrawCommand>, c: seq<DrawCommand>)
    ensures a + b + c == a + (b + c)
  {
  }

  /** draw_outlined_text: the outline stamps, `dx` outer and `dy` inner, then the fill. */
  method DrawOutlinedText(canvas: Canvas, position: Point, text: string, font: Font, fill: Colour, outline: Colour)
    modifies canvas
    ensures canvas.drawn == old(canvas.drawn) + OutlinedText(position, text, font, fill, outline)
  {
    ghost var before := canvas.drawn;
    var offsets := OutlineOffsets;
    var i := 0;
    while i < |offsets|
      invariant 0 <= i <= |offsets|
      invariant canvas.drawn == before + Grid(position, offsets[..i], offsets, text, font, outline)
    {
      var dx := offsets[i];
      ghost var outer := before + Grid(position, offsets[..i], offsets, text, font, outline);
      var j := 0;
      while j < |offsets|
        invariant 0 <= j <= |offsets|
        invariant canvas.drawn == outer + Column(position, dx, offsets[..j], text, font, outline)
      {
        var dy := offsets[j];
        canvas.DrawText(Point(position.x + dx as real, position.y + dy), text, font, outline);
        ColumnExtend(position, dx, offsets, j, text, font, outline);
        AppendAssoc(outer, Column(position, dx, offsets[..j], text, font, outline), [Stamp(position, dx, dy, text, font, outline)]);
        j := j + 1;
      }
      assert offsets[..j] == offsets;
      GridExtend(position, offsets, offsets, i, text, font, outline);
      AppendAssoc(before, Grid(position, offsets[..i], offsets, text, font, outline), Column(position, dx, offsets, text, font, outline));
      i := i + 1;
    }
    assert offsets[..i] == offsets;
    canvas.DrawText(position, text, font, fill);
    AppendAssoc(before, Grid(position, offsets, offsets, text, font, outline), [Draw(position, text, font, fill)]);
  }

  /**
   * create_meme on an opened image: choose the font, then draw the top caption
   * and the bottom caption, each only when it is non-empty.
   */
  method CreateMeme(canvas: Canvas, arialLoads: bool, top: string, topExtent: Extent, bottom: string, bottomExtent: Extent)
    modifies canvas
    ensures canvas.drawn == old(canvas.drawn)
      + Captions(canvas.width, canvas.height, ResolveFont(arialLoads, canvas.height), top, topExtent, bottom, bottomExtent)
    ensures top == [] && bottom == [] ==> canvas.drawn == old(canvas.drawn)
  {
    var width, height := canvas.width, canvas.height;
    var font := ResolveFont(arialLoads, height);
    if top != [] {
      DrawOutlinedText(canvas, TopOrigin(width, topExtent), top, font, CaptionFill, CaptionOutline);
    }
    if bottom != [] {
      DrawOutlinedText(canvas, BottomOrigin(width, height, bottomExtent), bottom, font, CaptionFill, CaptionOutline);
    }
  }
}
