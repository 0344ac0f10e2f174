/** The DImage object: the metadata it captures from the source file, its
    canvas (size, the `hasResetWH` attribute and the 2D context's rotation), the
    draw commands it hands to the browser's rasterizer, and the output bytes
    it assembles. */
module Session {
  import opened Results
  import opened Bytes
  import opened Exif
  import opened JpegScan
  import opened Geometry
  import opened HeaderSplice

  const JPEG: string := "image/jpeg"

  /** Size of a newly created HTML canvas element: the size the canvas has
      when `resize` or `rotate` first creates it. */
  const DEFAULT_CANVAS: Size := Size(300.0, 150.0)

  /** One `drawImage(img, x, y, width, height)` call, under the context's rotation. */
  datatype Draw = Draw(angle: Angle, x: real, y: real, width: real, height: real)

  /** The `_metas` that `init` stores: JPEG files only, parsed from their first
      262,144 bytes. An exception raised inside `_parse` leaves none. */
  function CapturedMetas(fileType: string, file: seq<Byte>): (m: Option<Metas>)
    ensures m.Some? ==> fileType == JPEG && ParseResult(MetadataPrefix(file)) == Ok(m)
    ensures fileType == JPEG && ParseResult(MetadataPrefix(file)).Ok? && ParseResult(MetadataPrefix(file)).value.Some? ==> m.Some?
  {
    if fileType != JPEG then None
    else
      match ParseResult(MetadataPrefix(file))
      case Ok(Some(m)) => Some(m)
      case _ => None
  }

  /** `me._metas && me._metas.orientation ? me._metas.orientation : 1`: any
      falsy value (no metadata, no APP1, the reader's `false`, or 0) becomes 1. */
  function EffectiveOrientation(metas: Option<Metas>): (o: nat)
    ensures o != 0
    ensures o == 1 || (metas.Some? && metas.value.orientation == Some(Orientation(o)))
    ensures (metas.None? || metas.value.orientation.None? || metas.value.orientation == Some(NotExif)) ==> o == 1
    ensures (metas.Some? && metas.value.orientation.Some? && metas.value.orientation.value.Orientation? &&
             metas.value.orientation.value.value != 0) ==> o == metas.value.orientation.value.value
  {
    match metas
    case Some(Metas(Some(Orientation(v)), _)) => if v != 0 then v else 1
    case _ => 1
  }

  /** What `_rotate` changes on a canvas: its size, the rotation its 2D
      context applies, and the draw calls issued on it so far, oldest first. */
  datatype Surface = Surface(size: Size, turn: Angle, draws: seq<Draw>)

  /** `_rotate`'s table applied to a canvas, turning around `base`: 6 and 8 set
      the canvas to the swapped base (which resets the context) and turn by
      +pi/2 or -pi/2; 3 keeps the canvas and adds a half turn to the context;
      the image is then drawn at the table's offset with the base size. Any
      other orientation leaves the canvas as it was. */
  function Oriented(orientation: int, base: Size, s: Surface): (r: Surface)
    ensures PlanRotation(orientation, base).None? <==> r == s
    ensures PlanRotation(orientation, base).Some? ==>
              && |r.draws| == |s.draws| + 1
              && r.draws[..|s.draws|] == s.draws
              && r.draws[|s.draws|].angle == r.turn
              && (r.size == s.size || r.size == Size(base.height, base.width))
  {
    match PlanRotation(orientation, base)
    case None => s
    case Some(p) =>
      var turn := if p.swapCanvas then p.angle else Compose(s.turn, p.angle);
      Surface(if p.swapCanvas then Size(base.height, base.width) else s.size, turn,
              s.draws + [Draw(turn, p.x, p.y, base.width, base.height)])
  }

  /** The three-way guard of `getAsBlob`: JPEG output, `preserveHeaders` set,
      and a header captured from the source. */
  predicate PreservesHeader(fileType: string, preserveHeaders: bool, metas: Option<Metas>)
  {
    fileType == JPEG && preserveHeaders && metas.Some? && metas.value.imageHead.Some?
  }

  class DImage {
    const fileType: string
    const naturalSize: Size
    /** `opts.width` and `opts.height`. */
    const maxWidth: real
    const maxHeight: real
    const preserveHeaders: bool
    const metas: Option<Metas>
    /** Whether `_canvas` exists: `resize` and `rotate` create it on first use. */
    var hasCanvas: bool
    var canvas: Size
    /** The canvas attribute `_resize` sets: the canvas then holds the resized size. */
    var hasResetWH: bool
    /** The rotation the canvas's 2D context currently applies. */
    var turn: Angle
    /** The draw calls issued so far, oldest first. */
    var draws: seq<Draw>

    /** A loaded image has a positive natural size. */
    ghost predicate Valid()
    {
      naturalSize.width > 0.0 && naturalSize.height > 0.0
    }

    /** `new DImage(file, opts)` once the image has loaded and `init` has read its metadata. */
    constructor (fileType: string, file: seq<Byte>, naturalSize: Size, maxWidth: real, maxHeight: real, preserveHeaders: bool)
      requires naturalSize.width > 0.0 && naturalSize.height > 0.0
      ensures Valid()
      ensures this.fileType == fileType && this.naturalSize == naturalSize
      ensures this.maxWidth == maxWidth && this.maxHeight == maxHeight && this.preserveHeaders == preserveHeaders
      ensures metas == CapturedMetas(fileType, file)
      ensures !hasCanvas
      ensures canvas == DEFAULT_CANVAS && !hasResetWH && turn == NoTurn && draws == []
    {
      var captured: Option<Metas> := None;
      if fileType == JPEG {
        var parsed := Parse(MetadataPrefix(file));
        if parsed.Ok? && parsed.value.Some? {
          captured := parsed.value;
        }
      }
      this.fileType := fileType;
      this.naturalSize := naturalSize;
      this.maxWidth := maxWidth;
      this.maxHeight := maxHeight;
      this.preserveHeaders := preserveHeaders;
      metas := captured;
      hasCanvas := false;
      canvas := DEFAULT_CANVAS;
      hasResetWH := false;
      turn := NoTurn;
      draws := [];
    }

    /** `resize`/`_resize`: create the canvas if there is none yet, set it to
      the bounded size (which resets the context's rotation), mark it, and
      draw the image into it. */
    method Resize()
      requires Valid()
      modifies this
      ensures hasCanvas
      ensures canvas == Resized(naturalSize, maxWidth, maxHeight)
      ensures hasResetWH && turn == NoTurn
      ensures draws == old(draws) + [Draw(NoTurn, 0.0, 0.0, canvas.width, canvas.height)]
    {
      var width, height := maxWidth, maxHeight;
      if width <= 1.0 && width > 0.0 {
        width := naturalSize.width * width;
      }
      if height <= 1.0 && height > 0.0 {
        height := naturalSize.height * height;
      }
      assert width == EffectiveBound(maxWidth, naturalSize.width);
      assert height == EffectiveBound(maxHeight, naturalSize.height);
      var scale := Min(width / naturalSize.width, height / naturalSize.height);
      scale := Min(1.0, scale);
      assert scale == ResizeScale(naturalSize, maxWidth, maxHeight);
      var w, h := naturalSize.width * scale, naturalSize.height * scale;
      hasCanvas := true;
      canvas := Size(w, h);
      turn := NoTurn;
      hasResetWH := true;
      draws := draws + [Draw(NoTurn, 0.0, 0.0, w, h)];
    }

    /** The size `_rotate` turns around: the canvas once `_resize` has run,
      otherwise the image's natural size. */
    function BaseSize(): Size
      reads this
    {
      if hasResetWH then canvas else naturalSize
    }

    /** `_rotate`: orientations 6 and 8 set the canvas to the swapped base size
      (resetting the context) and turn by +pi/2 or -pi/2; 3 leaves the canvas
      as it is and adds a half turn to the context; the image is drawn at the
      table's offset with the base size. Any other orientation does nothing. */
    method ApplyOrientation(orientation: int)
      modifies this
      ensures Surface(canvas, turn, draws) == Oriented(orientation, old(BaseSize()), old(Surface(canvas, turn, draws)))
      ensures hasResetWH == old(hasResetWH) && hasCanvas == old(hasCanvas)
    {
      var width, height := canvas.width, canvas.height;
      if !hasResetWH {
        width, height := naturalSize.width, naturalSize.height;
      }
      ghost var base := Size(width, height);
      assert base == BaseSize();
      ghost var before := Surface(canvas, turn, draws);
      if orientation == 6 {
        assert PlanRotation(orientation, base) == Some(RotationPlan(true, QuarterClockwise, 0.0, -height));
        canvas := Size(height, width);
        turn := QuarterClockwise;
        draws := draws + [Draw(turn, 0.0, -height, width, height)];
        assert Surface(canvas, turn, draws) == Oriented(orientation, base, before);
      } else if orientation == 8 {
        assert PlanRotation(orientation, base) == Some(RotationPlan(true, QuarterCounterClockwise, -width, 0.0));
        canvas := Size(height, width);
        turn := QuarterCounterClockwise;
        draws := draws + [Draw(turn, -width, 0.0, width, height)];
        assert Surface(canvas, turn, draws) == Oriented(orientation, base, before);
      } else if orientation == 3 {
        assert PlanRotation(orientation, base) == Some(RotationPlan(false, HalfTurn, -width, -height));
        turn := Compose(turn, HalfTurn);
        draws := draws + [Draw(turn, -width, -height, width, height)];
        assert Surface(canvas, turn, draws) == Oriented(orientation, base, before);
      } else {
        assert PlanRotation(orientation, base) == None;
        assert Surface(canvas, turn, draws) == Oriented(orientation, base, before);
      }
    }

    /** `rotate`: create the canvas if there is none yet, then rotate by the
      captured orientation unless it is 1. */
    method Rotate()
      modifies this
      ensures Surface(canvas, turn, draws) == Oriented(EffectiveOrientation(metas), old(BaseSize()), old(Surface(canvas, turn, draws)))
      ensures hasCanvas && hasResetWH == old(hasResetWH)
    {
      hasCanvas := true;
      var orientation := EffectiveOrientation(metas);
      if orientation != 1 {
        ApplyOrientation(orientation);
      }
    }

    /** `getAsBlob`, given the bytes the rasterizer encoded from the canvas:
      with no canvas yet, `canvas.toDataURL` raises and nothing comes out;
      under the guard the captured header is spliced in (and nothing comes
      out if splicing raises); otherwise the encoded bytes are the blob. */
    method GetAsBlob(encoded: seq<Byte>) returns (blob: Option<seq<Byte>>)
      ensures !hasCanvas ==> blob == None
      ensures hasCanvas && PreservesHeader(fileType, preserveHeaders, metas) ==> blob == Spliced(encoded, metas.value.imageHead.value)
      ensures hasCanvas && !PreservesHeader(fileType, preserveHeaders, metas) ==> blob == Some(encoded)
    {
      if !hasCanvas {
        return None;
      }
      if fileType == JPEG && preserveHeaders && metas.Some? && metas.value.imageHead.Some? {
        var buffer := UpdateImageHead(encoded, metas.value.imageHead.value);
        if buffer.None? {
          return None;
        }
        return Some(buffer.value[..]);
      }
      return Some(encoded);
    }
  }

  /** After a resize, rotating by any captured orientation draws the turned
      image exactly over the canvas. */
  lemma RotateAfterResizeFillsCanvas(natural: Size, maxWidth: real, maxHeight: real, metas: Option<Metas>)
    requires natural.width > 0.0 && natural.height > 0.0
    requires maxWidth > 0.0 && maxHeight > 0.0
    ensures var base := Resized(natural, maxWidth, maxHeight);
            PlanRotation(EffectiveOrientation(metas), base).Some? ==>
              var p := PlanRotation(EffectiveOrientation(metas), base).value;
              DrawingCovers(if p.swapCanvas then p.angle else Compose(NoTurn, p.angle), p.x, p.y, base.width, base.height,
                            if p.swapCanvas then Size(base.height, base.width) else base)
  {
    var base := Resized(natural, maxWidth, maxHeight);
    var s := ResizeScale(natural, maxWidth, maxHeight);
    assert s > 0.0;
    assert base.width > 0.0 && base.height > 0.0 by {
      assert base.width == natural.width * s && base.height == natural.height * s;
    }
    PlanRotationFillsCanvas(EffectiveOrientation(metas), base);
  }

  /** `resize()` then `rotate()` on one image, as `autoCompress` calls them:
      the canvas ends at the resized size, with its sides swapped for
      orientations 6 and 8, and the last draw covers that canvas exactly,
      whatever orientation was captured. */
  method ResizeThenRotate(img: DImage)
    requires img.Valid() && img.maxWidth > 0.0 && img.maxHeight > 0.0
    modifies img
    ensures var base := Resized(img.naturalSize, img.maxWidth, img.maxHeight);
            var o := EffectiveOrientation(img.metas);
            img.canvas == (if o == 6 || o == 8 then Size(base.height, base.width) else base)
    ensures |img.draws| > 0
    ensures var d := img.draws[|img.draws| - 1];
            DrawingCovers(d.angle, d.x, d.y, d.width, d.height, img.canvas)
  {
    img.Resize();
    img.Rotate();
    RotateAfterResizeFillsCanvas(img.naturalSize, img.maxWidth, img.maxHeight, img.metas);
  }

  /** The header in the blob is the source file's own: under the guard, a
      successful splice puts SOI and then bytes [2, 2 + |head|) of the source
      file at the front of the output, where |head| < 262,144. */
  lemma BlobCarriesSourceHeader(fileType: string, file: seq<Byte>, preserveHeaders: bool, encoded: seq<Byte>)
    ensures var metas := CapturedMetas(fileType, file);
            PreservesHeader(fileType, preserveHeaders, metas) && Spliced(encoded, metas.value.imageHead.value).Some? ==>
              var head := metas.value.imageHead.value;
              var out := Spliced(encoded, head).value;
              && |head| < MAX_METADATA_SIZE
              && |out| >= 2 + |head|
              && out[..2] == [0xFF, 0xD8]
              && out[2..2 + |head|] == file[2..2 + |head|]
  {
    CappedHeaderIsFileSlice(file);
  }

  /** The worked example: a 4000 x 3000 JPEG whose EXIF orientation is 6,
      bounded to 1280 x 1280, is resized to 1280 x 960 and then rotated onto a
      960 x 1280 canvas, drawn at (0, -960) under a quarter turn clockwise. */
  method ResizeThenRotateExample()
  {
    var file := ExifJpeg(6, false);
    ParsesExifJpeg(6, false);
    var img := new DImage(JPEG, file, Size(4000.0, 3000.0), 1280.0, 1280.0, true);
    assert img.metas == Some(Metas(Some(Orientation(6)), Some(file[2..38])));
    img.Resize();
    assert img.canvas == Size(1280.0, 960.0);
    img.Rotate();
    assert img.canvas == Size(960.0, 1280.0);
    assert img.draws == [Draw(NoTurn, 0.0, 0.0, 1280.0, 960.0), Draw(QuarterClockwise, 0.0, -960.0, 1280.0, 960.0)];
  }

  /** Before `resize` or `rotate` has created the canvas, `getAsBlob` gives
      nothing, for a JPEG with a captured header as for any other file. */
  method BlobBeforeCanvasExample()
  {
    var file := ExifJpeg(6, false);
    ParsesExifJpeg(6, false);
    var img := new DImage(JPEG, file, Size(4000.0, 3000.0), 1280.0, 1280.0, true);
    var blob := img.GetAsBlob([0xFF, 0xD8, 0xFF, 0xD9]);
    assert blob == None;
    img.Rotate();
    assert img.hasCanvas;
  }

  /** Without a resize first, orientation 3 leaves a fresh canvas at 300 x 150
      while the 4000 x 3000 image is drawn around its own size. */
  method HalfTurnWithoutResizeExample()
  {
    assert Compose(NoTurn, HalfTurn) == HalfTurn;
    var file := ExifJpeg(3, true);
    ParsesExifJpeg(3, true);
    var img := new DImage(JPEG, file, Size(4000.0, 3000.0), 1280.0, 1280.0, true);
    assert img.metas == Some(Metas(Some(Orientation(3)), Some(file[2..38])));
    assert EffectiveOrientation(img.metas) == 3;
    img.Rotate();
    assert img.canvas == DEFAULT_CANVAS;
    assert img.draws == [Draw(HalfTurn, -4000.0, -3000.0, 4000.0, 3000.0)];
  }
}
