/** `add_decorative_border` of app.py (lines 155-194): a canvas 40 pixels
    larger on every side, filled with the back colour, a border of outline
    rectangles drawn on it in place, and the symbol pasted in the middle.
    Pixels are not modelled: the canvas records the drawing operations in
    the order they are applied. */
module Border {
  import opened Text
  import opened HexColor
  import opened Style

  /** `border_size`. */
  const BorderSize: nat := 40

  /** An outline colour: a solid colour, or step `step` of `steps` of the
      gradient from `from` to `to` (the interpolated colour itself is
      computed in floating point and is not modelled). */
  datatype Paint = Solid(color: Rgb) | Blend(from: Rgb, to: Rgb, step: int, steps: nat)

  /** `draw.rectangle([left, top, right, bottom], outline=paint, width=lineWidth)`. */
  datatype Rect = Rect(left: int, top: int, right: int, bottom: int, outline: Paint, lineWidth: nat)

  datatype DrawOp =
    | Outline(rect: Rect)
    | Paste(x: int, y: int, width: nat, height: nat)

  /** The image `Image.new('RGB', (width, height), color=background)`
      together with everything drawn on it so far. */
  class Canvas {
    const width: nat
    const height: nat
    const background: Rgb
    var ops: seq<DrawOp>

    constructor (width: nat, height: nat, background: Rgb)
      ensures this.width == width && this.height == height && this.background == background
      ensures ops == []
    {
      this.width := width;
      this.height := height;
      this.background := background;
      ops := [];
    }

    /** `draw.rectangle(...)` on this canvas. */
    method Rectangle(r: Rect)
      modifies this
      ensures ops == old(ops) + [Outline(r)]
    {
      ops := ops + [Outline(r)];
    }

    /** `base_img.paste(qr_img, (x, y))` for an image of the given size. */
    method PasteImage(imageWidth: nat, imageHeight: nat, x: int, y: int)
      modifies this
      ensures ops == old(ops) + [Paste(x, y, imageWidth, imageHeight)]
    {
      ops := ops + [Paste(x, y, imageWidth, imageHeight)];
    }
  }

  // ---------------------------------------------------------------------
  // The border each kind draws, as a function of the canvas size

  /** The rectangle at `inset` from every side, as the gradient and pattern
      loops draw it: `[i, i, new_width - i, new_height - i]`. */
  function Frame(inset: int, width: int, height: int, paint: Paint, lineWidth: nat): Rect {
    Rect(inset, inset, width - inset, height - inset, paint, lineWidth)
  }

  function PatternPaint(inset: int, front: Rgb, back: Rgb): Paint {
    Solid(if inset % 6 == 0 then front else back)
  }

  /** The rectangle the gradient loop draws at `inset`: width 1, at step
      `inset` of the blend from front to back. */
  function GradientOp(inset: int, width: int, height: int, front: Rgb, back: Rgb): DrawOp {
    Outline(Frame(inset, width, height, Blend(front, back, inset, BorderSize), 1))
  }

  /** The rectangle the pattern loop draws at `inset`: width 2, front or
      back colour. */
  function PatternOp(inset: int, width: int, height: int, front: Rgb, back: Rgb): DrawOp {
    Outline(Frame(inset, width, height, PatternPaint(inset, front, back), 2))
  }

  /** The gradient rectangles for the given insets, in order. */
  function GradientFrames(insets: seq<int>, width: int, height: int, front: Rgb, back: Rgb): (r: seq<DrawOp>)
    ensures |r| == |insets|
  {
    if insets == [] then []
    else
      GradientFrames(insets[..|insets| - 1], width, height, front, back) +
      [GradientOp(insets[|insets| - 1], width, height, front, back)]
  }

  /** The pattern rectangles for the given insets, in order. */
  function PatternFrames(insets: seq<int>, width: int, height: int, front: Rgb, back: Rgb): (r: seq<DrawOp>)
    ensures |r| == |insets|
  {
    if insets == [] then []
    else
      PatternFrames(insets[..|insets| - 1], width, height, front, back) +
      [PatternOp(insets[|insets| - 1], width, height, front, back)]
  }

  /** The k-th gradient rectangle is the one at the k-th inset. */
  lemma {:induction false} GradientFramesAt(insets: seq<int>, width: int, height: int, front: Rgb, back: Rgb)
    ensures forall k :: 0 <= k < |insets| ==>
              GradientFrames(insets, width, height, front, back)[k] == GradientOp(insets[k], width, height, front, back)
    decreases |insets|
  {
    if insets != [] {
      var init := insets[..|insets| - 1];
      GradientFramesAt(init, width, height, front, back);
      forall k | 0 <= k < |init| ensures init[k] == insets[k] { }
    }
  }

  /** The k-th pattern rectangle is the one at the k-th inset. */
  lemma {:induction false} PatternFramesAt(insets: seq<int>, width: int, height: int, front: Rgb, back: Rgb)
    ensures forall k :: 0 <= k < |insets| ==>
              PatternFrames(insets, width, height, front, back)[k] == PatternOp(insets[k], width, height, front, back)
    decreases |insets|
  {
    if insets != [] {
      var init := insets[..|insets| - 1];
      PatternFramesAt(init, width, height, front, back);
      forall k | 0 <= k < |init| ensures init[k] == insets[k] { }
    }
  }

  /** One more turn of the gradient loop, drawing at the k-th inset,
      appends the next gradient rectangle. */
  lemma GradientStep(before: seq<DrawOp>, ops: seq<DrawOp>, insets: seq<int>, k: nat, width: int, height: int, front: Rgb, back: Rgb)
    requires k < |insets|
    requires ops == before + GradientFrames(insets[..k], width, height, front, back)
    ensures var i := insets[k];
            ops + [Outline(Rect(i, i, width - i, height - i, Blend(front, back, i, BorderSize), 1))] ==
            before + GradientFrames(insets[..k + 1], width, height, front, back)
  {
    assert insets[..k + 1][..k] == insets[..k];
    AppendOne(before, GradientFrames(insets[..k], width, height, front, back), GradientOp(insets[k], width, height, front, back));
  }

  /** One more turn of the pattern loop, drawing at the k-th inset in the
      colour the loop picks, appends the next pattern rectangle. */
  lemma PatternStep(before: seq<DrawOp>, ops: seq<DrawOp>, insets: seq<int>, k: nat, width: int, height: int, front: Rgb, back: Rgb)
    requires k < |insets|
    requires ops == before + PatternFrames(insets[..k], width, height, front, back)
    ensures var i := insets[k];
            ops + [Outline(Rect(i, i, width - i, height - i, Solid(if i % 6 == 0 then front else back), 2))] ==
            before + PatternFrames(insets[..k + 1], width, height, front, back)
  {
    assert insets[..k + 1][..k] == insets[..k];
    AppendOne(before, PatternFrames(insets[..k], width, height, front, back), PatternOp(insets[k], width, height, front, back));
  }

  lemma AppendOne(a: seq<DrawOp>, b: seq<DrawOp>, x: DrawOp)
    ensures a + b + [x] == a + (b + [x])
  {
  }

  /** The three rectangles of the basic border (lines 186-188). */
  function SolidFrames(width: int, height: int, front: Rgb, back: Rgb): seq<DrawOp> {
    [Outline(Rect(0, 0, width - 1, height - 1, Solid(front), 5)),
     Outline(Rect(5, 5, width - 6, height - 6, Solid(back), 3)),
     Outline(Rect(8, 8, width - 9, height - 9, Solid(front), 1))]
  }

  function BorderOps(kind: BorderKind, width: int, height: int, front: Rgb, back: Rgb): seq<DrawOp> {
    match kind
    case GradientBorder => GradientFrames(Range(0, BorderSize, 1), width, height, front, back)
    case PatternBorder => PatternFrames(Range(0, BorderSize, 3), width, height, front, back)
    case SolidBorder => SolidFrames(width, height, front, back)
  }

  // ---------------------------------------------------------------------
  // The drawing itself

  /** The gradient border of lines 169-176: one rectangle per inset of
      `range(0, border_size)`. */
  method DrawGradientBorder(canvas: Canvas, front: Rgb, back: Rgb)
    modifies canvas
    ensures canvas.ops == old(canvas.ops) + GradientFrames(Range(0, BorderSize, 1), canvas.width, canvas.height, front, back)
  {
    DrawGradientFrames(canvas, Range(0, BorderSize, 1), front, back);
  }

  /** The loop of lines 169-176 over the given insets. */
  method DrawGradientFrames(canvas: Canvas, insets: seq<int>, front: Rgb, back: Rgb)
    modifies canvas
    ensures canvas.ops == old(canvas.ops) + GradientFrames(insets, canvas.width, canvas.height, front, back)
  {
    var k := 0;
    while k < |insets|
      invariant 0 <= k <= |insets|
      invariant canvas.ops == old(canvas.ops) + GradientFrames(insets[..k], canvas.width, canvas.height, front, back)
    {
      var i := insets[k];
      GradientStep(old(canvas.ops), canvas.ops, insets, k, canvas.width, canvas.height, front, back);
      canvas.Rectangle(Rect(i, i, canvas.width - i, canvas.height - i, Blend(front, back, i, BorderSize), 1));
      k := k + 1;
    }
    assert insets[..k] == insets;
  }

  /** The pattern border of lines 180-182: one rectangle per inset of
      `range(0, border_size, 3)`. */
  method DrawPatternBorder(canvas: Canvas, front: Rgb, back: Rgb)
    modifies canvas
    ensures canvas.ops == old(canvas.ops) + PatternFrames(Range(0, BorderSize, 3), canvas.width, canvas.height, front, back)
  {
    DrawPatternFrames(canvas, Range(0, BorderSize, 3), front, back);
  }

  /** The loop of lines 180-182 over the given insets. */
  method DrawPatternFrames(canvas: Canvas, insets: seq<int>, front: Rgb, back: Rgb)
    modifies canvas
    ensures canvas.ops == old(canvas.ops) + PatternFrames(insets, canvas.width, canvas.height, front, back)
  {
    var k := 0;
    while k < |insets|
      invariant 0 <= k <= |insets|
      invariant canvas.ops == old(canvas.ops) + PatternFrames(insets[..k], canvas.width, canvas.height, front, back)
    {
      var i := insets[k];
      var color := if i % 6 == 0 then front else back;
      PatternStep(old(canvas.ops), canvas.ops, insets, k, canvas.width, canvas.height, front, back);
      canvas.Rectangle(Rect(i, i, canvas.width - i, canvas.height - i, Solid(color), 2));
      k := k + 1;
    }
    assert insets[..k] == insets;
  }

  /** The three rectangles of lines 186-188. */
  method DrawSolidBorder(canvas: Canvas, front: Rgb, back: Rgb)
    modifies canvas
    ensures canvas.ops == old(canvas.ops) + SolidFrames(canvas.width, canvas.height, front, back)
  {
    canvas.Rectangle(Rect(0, 0, canvas.width - 1, canvas.height - 1, Solid(front), 5));
    canvas.Rectangle(Rect(5, 5, canvas.width - 6, canvas.height - 6, Solid(back), 3));
    canvas.Rectangle(Rect(8, 8, canvas.width - 9, canvas.height - 9, Solid(front), 1));
  }

  /** `add_decorative_border(qr_img, style, front_color, back_color)` for a
      symbol image of `qrWidth` by `qrHeight` pixels. */
  method AddDecorativeBorder(qrWidth: nat, qrHeight: nat, style: string, front: Rgb, back: Rgb)
    returns (canvas: Canvas)
    ensures fresh(canvas)
    ensures canvas.width == qrWidth + 2 * BorderSize && canvas.height == qrHeight + 2 * BorderSize
    ensures canvas.background == back
    ensures canvas.ops ==
              BorderOps(BorderKindFor(style), canvas.width, canvas.height, front, back) +
              [Paste(BorderSize, BorderSize, qrWidth, qrHeight)]
  {
    var borderSize := BorderSize;
    var newWidth := qrWidth + borderSize * 2;
    var newHeight := qrHeight + borderSize * 2;
    canvas := new Canvas(newWidth, newHeight, back);
    ghost var border := BorderOps(BorderKindFor(style), newWidth, newHeight, front, back);
    if style in ["gradient", "gradient_vertical", "gradient_radial"] {
      DrawGradientBorder(canvas, front, back);
      assert canvas.ops == border;
    } else if style in ["rounded", "circles"] {
      DrawPatternBorder(canvas, front, back);
      assert canvas.ops == border;
    } else {
      DrawSolidBorder(canvas, front, back);
      assert canvas.ops == border;
    }
    var x, y := (newWidth - qrWidth) / 2, (newHeight - qrHeight) / 2;
    assert x == BorderSize && y == BorderSize;
    canvas.PasteImage(qrWidth, qrHeight, x, y);
  }

  // ---------------------------------------------------------------------
  // Properties of the border

  /** The gradient border: forty width-1 rectangles at insets 0 to 39, the
      k-th at step k of 40 of the blend from front to back. */
  lemma GradientBorderShape(width: int, height: int, front: Rgb, back: Rgb)
    ensures var r := BorderOps(GradientBorder, width, height, front, back);
            |r| == 40 &&
            forall k :: 0 <= k < 40 ==>
              r[k] == Outline(Rect(k, k, width - k, height - k, Blend(front, back, k, 40), 1))
  {
    RangeAt(0, BorderSize, 1);
    GradientFramesAt(Range(0, BorderSize, 1), width, height, front, back);
  }

  /** The patterned border of rounded and circles: fourteen width-2
      rectangles at insets 0, 3, ..., 39, in the front colour exactly when
      the inset is divisible by 6, that is at every other rectangle. */
  lemma PatternBorderShape(width: int, height: int, front: Rgb, back: Rgb)
    ensures var r := BorderOps(PatternBorder, width, height, front, back);
            |r| == 14 &&
            forall k :: 0 <= k < 14 ==>
              r[k] == Outline(Rect(3 * k, 3 * k, width - 3 * k, height - 3 * k,
                                   Solid(if k % 2 == 0 then front else back), 2))
  {
    RangeAt(0, BorderSize, 3);
    var insets := Range(0, BorderSize, 3);
    PatternFramesAt(insets, width, height, front, back);
    assert |insets| == 14;
    forall k | 0 <= k < 14
      ensures (3 * k) % 6 == 0 <==> k % 2 == 0
    {
    }
  }

  /** The outermost rectangle of the gradient and pattern borders reaches
      x = width and y = height, one pixel beyond the last column and row of
      the canvas, while that of the basic border stops at width - 1 and
      height - 1: the two loops' right and bottom edges are offset by one
      from their left and top edges. */
  lemma OuterEdges(width: int, height: int, front: Rgb, back: Rgb)
    ensures var r := BorderOps(GradientBorder, width, height, front, back);
            r != [] && r[0].Outline? && r[0].rect.right == width && r[0].rect.bottom == height
    ensures var r := BorderOps(PatternBorder, width, height, front, back);
            r != [] && r[0].Outline? && r[0].rect.right == width && r[0].rect.bottom == height
    ensures var r := BorderOps(SolidBorder, width, height, front, back);
            r != [] && r[0].Outline? && r[0].rect.right == width - 1 && r[0].rect.bottom == height - 1
  {
    RangeAt(0, BorderSize, 1);
    RangeAt(0, BorderSize, 3);
    GradientFramesAt(Range(0, BorderSize, 1), width, height, front, back);
    PatternFramesAt(Range(0, BorderSize, 3), width, height, front, back);
  }

  /** Every rectangle of every border lies in the 40-pixel band around the
      pasted symbol: its left and top edges are left of and above the
      symbol's first column and row, and its right and bottom edges beyond
      its last. */
  lemma BorderAroundSymbol(kind: BorderKind, qrWidth: nat, qrHeight: nat, front: Rgb, back: Rgb)
    ensures var r := BorderOps(kind, qrWidth + 2 * BorderSize, qrHeight + 2 * BorderSize, front, back);
            forall k :: 0 <= k < |r| ==> Around(r[k], qrWidth, qrHeight)
  {
    match kind
    case GradientBorder =>
      InsetsInBand(0, BorderSize, 1);
      FramesAround(Range(0, BorderSize, 1), qrWidth, qrHeight, front, back);
    case PatternBorder =>
      InsetsInBand(0, BorderSize, 3);
      FramesAround(Range(0, BorderSize, 3), qrWidth, qrHeight, front, back);
    case SolidBorder =>
  }

  /** Frames at insets inside the border band stay around the symbol. */
  lemma FramesAround(insets: seq<int>, qrWidth: nat, qrHeight: nat, front: Rgb, back: Rgb)
    requires forall k :: 0 <= k < |insets| ==> 0 <= insets[k] < BorderSize
    ensures var width, height := qrWidth + 2 * BorderSize, qrHeight + 2 * BorderSize;
            (forall k :: 0 <= k < |insets| ==> Around(GradientFrames(insets, width, height, front, back)[k], qrWidth, qrHeight)) &&
            (forall k :: 0 <= k < |insets| ==> Around(PatternFrames(insets, width, height, front, back)[k], qrWidth, qrHeight))
  {
    var width, height := qrWidth + 2 * BorderSize, qrHeight + 2 * BorderSize;
    GradientFramesAt(insets, width, height, front, back);
    PatternFramesAt(insets, width, height, front, back);
  }

  /** The rectangle is drawn in the band around a symbol of `qrWidth` by
      `qrHeight` pixels pasted at (BorderSize, BorderSize). */
  predicate Around(op: DrawOp, qrWidth: nat, qrHeight: nat) {
    op.Outline? &&
    0 <= op.rect.left < BorderSize && 0 <= op.rect.top < BorderSize &&
    op.rect.right >= BorderSize + qrWidth && op.rect.bottom >= BorderSize + qrHeight
  }

  /** Every element of `range(start, stop, step)` lies in [start, stop). */
  lemma InsetsInBand(start: int, stop: int, step: nat)
    requires step > 0
    ensures forall k :: 0 <= k < |Range(start, stop, step)| ==> start <= Range(start, stop, step)[k] < stop
  {
    RangeAt(start, stop, step);
    forall k | 0 <= k < |Range(start, stop, step)|
      ensures start <= Range(start, stop, step)[k] < stop
    {
      var n := |Range(start, stop, step)|;
      MulMonotone(k, n - 1, step);
    }
  }

  lemma MulMonotone(a: nat, b: nat, c: nat)
    requires a <= b
    ensures a * c <= b * c
  {
    assert b * c == a * c + (b - a) * c;
  }
}
