/** Geometry of `_resize` and `_rotate`, in exact real arithmetic: the bounded,
    never-enlarging resize, and the fixed rotation table for EXIF orientations
    6, 8 and 3, with angles as quarter turns. */
module Geometry {
  import opened Results

  datatype Size = Size(width: real, height: real)

  function Min(a: real, b: real): real { if a <= b then a else b }

  function Max(a: real, b: real): real { if a <= b then b else a }

  /** A configured bound in (0, 1] is a fraction of the natural size; any other
      value is an absolute number of pixels. */
  function EffectiveBound(bound: real, natural: real): real
  {
    if bound <= 1.0 && bound > 0.0 then natural * bound else bound
  }

  /** The smaller of the two axis ratios, clamped to at most 1. */
  function ResizeScale(natural: Size, maxWidth: real, maxHeight: real): real
    requires natural.width > 0.0 && natural.height > 0.0
  {
    var scale := Min(EffectiveBound(maxWidth, natural.width) / natural.width,
                     EffectiveBound(maxHeight, natural.height) / natural.height);
    Min(1.0, scale)
  }

  /** The canvas size `_resize` sets: the natural size times the scale. */
  function Resized(natural: Size, maxWidth: real, maxHeight: real): Size
    requires natural.width > 0.0 && natural.height > 0.0
  {
    var scale := ResizeScale(natural, maxWidth, maxHeight);
    Size(natural.width * scale, natural.height * scale)
  }

  /** Never enlarged, and the aspect ratio is kept. */
  lemma ResizeNeverEnlarges(natural: Size, maxWidth: real, maxHeight: real)
    requires natural.width > 0.0 && natural.height > 0.0
    ensures ResizeScale(natural, maxWidth, maxHeight) <= 1.0
    ensures Resized(natural, maxWidth, maxHeight).width <= natural.width
    ensures Resized(natural, maxWidth, maxHeight).height <= natural.height
    ensures Resized(natural, maxWidth, maxHeight).width * natural.height
            == Resized(natural, maxWidth, maxHeight).height * natural.width
  {
    var s := ResizeScale(natural, maxWidth, maxHeight);
    assert Resized(natural, maxWidth, maxHeight) == Size(natural.width * s, natural.height * s);
    MulMonotone(natural.width, s, 1.0);
    MulMonotone(natural.height, s, 1.0);
  }

  /** x * a <= x * b when a <= b and x is positive. */
  lemma MulMonotone(x: real, a: real, b: real)
    requires x > 0.0 && a <= b
    ensures x * a <= x * b
  {
    assert x * b - x * a == x * (b - a);
  }

  /** With positive bounds the result fits inside them on both axes. */
  lemma ResizeFitsBounds(natural: Size, maxWidth: real, maxHeight: real)
    requires natural.width > 0.0 && natural.height > 0.0
    requires maxWidth > 0.0 && maxHeight > 0.0
    ensures Resized(natural, maxWidth, maxHeight).width <= EffectiveBound(maxWidth, natural.width)
    ensures Resized(natural, maxWidth, maxHeight).height <= EffectiveBound(maxHeight, natural.height)
    ensures maxWidth > 1.0 ==> Resized(natural, maxWidth, maxHeight).width <= maxWidth
    ensures maxHeight > 1.0 ==> Resized(natural, maxWidth, maxHeight).height <= maxHeight
  {
    var s := ResizeScale(natural, maxWidth, maxHeight);
    var bw, bh := EffectiveBound(maxWidth, natural.width), EffectiveBound(maxHeight, natural.height);
    assert s <= bw / natural.width && s <= bh / natural.height;
    ScaledFits(natural.width, s, bw);
    ScaledFits(natural.height, s, bh);
  }

  /** A length x scaled by s, where s is at most the ratio b / x, is at most b. */
  lemma ScaledFits(x: real, s: real, b: real)
    requires x > 0.0 && s <= b / x
    ensures x * s <= b
  {
    MulMonotone(x, s, b / x);
    assert x * (b / x) == b;
  }

  /** The scale is the largest one that neither enlarges nor exceeds a bound:
      any scale t with those two properties is at most it. */
  lemma ResizeScaleIsLargestFit(natural: Size, maxWidth: real, maxHeight: real, t: real)
    requires natural.width > 0.0 && natural.height > 0.0
    requires t <= 1.0
    requires natural.width * t <= EffectiveBound(maxWidth, natural.width)
    requires natural.height * t <= EffectiveBound(maxHeight, natural.height)
    ensures t <= ResizeScale(natural, maxWidth, maxHeight)
  {
    var bw, bh := EffectiveBound(maxWidth, natural.width), EffectiveBound(maxHeight, natural.height);
    DivBound(natural.width, t, bw);
    DivBound(natural.height, t, bh);
  }

  /** x * t <= b gives t <= b / x for positive x. */
  lemma DivBound(x: real, t: real, b: real)
    requires x > 0.0 && x * t <= b
    ensures t <= b / x
  {
    assert b / x * x == b;
    if t > b / x {
      MulMonotone(x, b / x, t);
    }
  }

  /** An image already inside its bounds keeps its natural size. */
  lemma ResizeKeepsFittingImage(natural: Size, maxWidth: real, maxHeight: real)
    requires natural.width > 0.0 && natural.height > 0.0
    requires EffectiveBound(maxWidth, natural.width) >= natural.width
    requires EffectiveBound(maxHeight, natural.height) >= natural.height
    ensures Resized(natural, maxWidth, maxHeight) == natural
  {
    ResizeScaleIsLargestFit(natural, maxWidth, maxHeight, 1.0);
  }

  /** With absolute bounds, resizing the resized size again changes nothing. */
  lemma ResizeIsIdempotent(natural: Size, maxWidth: real, maxHeight: real)
    requires natural.width > 0.0 && natural.height > 0.0
    requires maxWidth > 1.0 && maxHeight > 1.0
    ensures var once := Resized(natural, maxWidth, maxHeight);
            once.width > 0.0 && once.height > 0.0 && Resized(once, maxWidth, maxHeight) == once
  {
    var once := Resized(natural, maxWidth, maxHeight);
    var s := ResizeScale(natural, maxWidth, maxHeight);
    assert s > 0.0;
    ResizeFitsBounds(natural, maxWidth, maxHeight);
    assert once.width > 0.0 && once.height > 0.0 by {
      assert once.width == natural.width * s;
      assert once.height == natural.height * s;
    }
    ResizeKeepsFittingImage(once, maxWidth, maxHeight);
  }

  /** Fractional bounds: half of 1000 x 800 is 500 x 400, at scale 0.5. */
  lemma ResizeByFraction()
    ensures ResizeScale(Size(1000.0, 800.0), 0.5, 0.5) == 0.5
    ensures Resized(Size(1000.0, 800.0), 0.5, 0.5) == Size(500.0, 400.0)
  {
  }

  /** Rotations of the 2D context: 0, +pi/2, -pi/2 and pi radians. */
  datatype Angle = NoTurn | QuarterClockwise | QuarterCounterClockwise | HalfTurn

  /** Number of clockwise quarter turns, modulo 4. */
  function Quarters(a: Angle): nat
  {
    match a
    case NoTurn => 0
    case QuarterClockwise => 1
    case HalfTurn => 2
    case QuarterCounterClockwise => 3
  }

  function FromQuarters(q: nat): Angle
  {
    var r := q % 4;
    if r == 0 then NoTurn else if r == 1 then QuarterClockwise else if r == 2 then HalfTurn else QuarterCounterClockwise
  }

  /** ctx.rotate(b) applied after the context already holds rotation a. */
  function Compose(a: Angle, b: Angle): Angle
  {
    FromQuarters(Quarters(a) + Quarters(b))
  }

  /** Where the context's rotation sends the point (x, y): canvas coordinates
      grow rightward and downward, so +pi/2 maps (x, y) to (-y, x). */
  function Turn(angle: Angle, x: real, y: real): (real, real)
  {
    match angle
    case NoTurn => (x, y)
    case QuarterClockwise => (-y, x)
    case QuarterCounterClockwise => (y, -x)
    case HalfTurn => (-x, -y)
  }

  /** Drawing a w x h image at (x, y) under the rotation `angle` covers exactly
      the canvas rectangle [0, canvas.width] x [0, canvas.height]: a quarter turn
      maps the rectangle onto the one spanned by its turned opposite corners. */
  predicate DrawingCovers(angle: Angle, x: real, y: real, w: real, h: real, canvas: Size)
  {
    var (x0, y0) := Turn(angle, x, y);
    var (x1, y1) := Turn(angle, x + w, y + h);
    Min(x0, x1) == 0.0 && Min(y0, y1) == 0.0 && Max(x0, x1) == canvas.width && Max(y0, y1) == canvas.height
  }

  /** One line of the rotation table: whether the canvas swaps its sides, the
      rotation, and where the image is drawn. */
  datatype RotationPlan = RotationPlan(swapCanvas: bool, angle: Angle, x: real, y: real)

  /** The switch in `_rotate`, around the base size (w, h). Every other
      orientation, the mirrored ones included, does nothing. */
  function PlanRotation(orientation: int, base: Size): (plan: Option<RotationPlan>)
    ensures plan.Some? <==> orientation == 6 || orientation == 8 || orientation == 3
    ensures plan.Some? ==> (plan.value.swapCanvas <==> orientation != 3)
    ensures plan.Some? ==> plan.value.angle != NoTurn
  {
    if orientation == 6 then Some(RotationPlan(true, QuarterClockwise, 0.0, -base.height))
    else if orientation == 8 then Some(RotationPlan(true, QuarterCounterClockwise, -base.width, 0.0))
    else if orientation == 3 then Some(RotationPlan(false, HalfTurn, -base.width, -base.height))
    else None
  }

  /** The table is right: orientations 6 and 8 swap the canvas to h x w and 3
      keeps w x h, and in each case the turned image lands exactly on that
      canvas; no other orientation rotates. */
  lemma PlanRotationFillsCanvas(orientation: int, base: Size)
    requires base.width >= 0.0 && base.height >= 0.0
    ensures PlanRotation(orientation, base).Some? <==> orientation == 6 || orientation == 8 || orientation == 3
    ensures PlanRotation(orientation, base).Some? ==>
              var p := PlanRotation(orientation, base).value;
              && (p.swapCanvas <==> orientation != 3)
              && DrawingCovers(p.angle, p.x, p.y, base.width, base.height,
                               if p.swapCanvas then Size(base.height, base.width) else base)
  {
  }

  /** A concrete case: orientation 6 around 4000 x 3000 turns by +pi/2, draws at
      (0, -3000) and leaves a 3000 x 4000 canvas. */
  lemma PlanRotationExample()
    ensures PlanRotation(6, Size(4000.0, 3000.0)) == Some(RotationPlan(true, QuarterClockwise, 0.0, -3000.0))
  {
  }
}
