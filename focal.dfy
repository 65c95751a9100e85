/**
 * `FocalImage`: a reference image drawn to fill its frame, shifted
 * vertically so that the row at height fraction `focalY` stays in view.
 * Sizes are points, modelled as exact reals.
 */
module Focal {
  import opened Wrappers

  datatype Size = Size(width: real, height: real)

  /** A frame's sides are never negative. */
  predicate ValidFrame(frame: Size)
  {
    frame.width >= 0.0 && frame.height >= 0.0
  }

  /** An image that can be drawn has positive sides. */
  predicate ValidImage(image: Size)
  {
    image.width > 0.0 && image.height > 0.0
  }

  /** `max(scaleX, scaleY)`: the factor that makes the image fill the frame. */
  function Scale(frame: Size, image: Size): real
    requires ValidImage(image)
  {
    var scaleX, scaleY := frame.width / image.width, frame.height / image.height;
    if scaleX >= scaleY then scaleX else scaleY
  }

  /** `scaledH`: the image's height once scaled. */
  function ScaledHeight(frame: Size, image: Size): real
    requires ValidImage(image)
  {
    image.height * Scale(frame, image)
  }

  /** `overflow`: how much taller than the frame the scaled image is. */
  function Overflow(frame: Size, image: Size): real
    requires ValidImage(image)
  {
    ScaledHeight(frame, image) - frame.height
  }

  /** `desiredOffset`: the shift that puts row `focalY` at the frame's vertical centre. */
  function DesiredOffset(frame: Size, image: Size, focalY: real): real
    requires ValidImage(image)
  {
    frame.height / 2.0 - focalY * ScaledHeight(frame, image)
  }

  /**
   * The vertical offset applied: none unless the image overflows by more
   * than a point, else the desired offset clamped to `[-overflow, 0]`.
   */
  function VerticalOffset(frame: Size, image: Size, focalY: real): (r: Option<real>)
    requires ValidImage(image)
    ensures r.Some? <==> Overflow(frame, image) > 1.0
  {
    var overflow := Overflow(frame, image);
    if overflow > 1.0 then
      var desired := DesiredOffset(frame, image, focalY);
      var atLeast := if desired > -overflow then desired else -overflow;
      Some(if atLeast < 0.0 then atLeast else 0.0)
    else None
  }

  /** Scaled by the larger ratio, the image covers the frame in both directions and meets it exactly in one. */
  lemma ScaleCovers(frame: Size, image: Size)
    requires ValidFrame(frame) && ValidImage(image)
    ensures var s := Scale(frame, image);
      && image.width * s >= frame.width && image.height * s >= frame.height
      && (image.width * s == frame.width || image.height * s == frame.height)
  {
    var scaleX, scaleY := frame.width / image.width, frame.height / image.height;
    var s := Scale(frame, image);
    assert image.width * scaleX == frame.width;
    assert image.height * scaleY == frame.height;
    assert image.width * s >= image.width * scaleX by {
      assert image.width * (s - scaleX) >= 0.0;
    }
    assert image.height * s >= image.height * scaleY by {
      assert image.height * (s - scaleY) >= 0.0;
    }
  }

  /**
   * An applied offset lies in `[-overflow, 0]`; so, with the image's top edge
   * at the offset, the image still reaches from above the frame's top to
   * below its bottom.
   */
  lemma OffsetInRange(frame: Size, image: Size, focalY: real)
    requires ValidImage(image) && VerticalOffset(frame, image, focalY).Some?
    ensures var o := VerticalOffset(frame, image, focalY).value;
      && -Overflow(frame, image) <= o <= 0.0
      && o + ScaledHeight(frame, image) >= frame.height
  {
  }

  /** When the desired offset is already in range it is applied unchanged, and row `focalY` lands on the frame's centre. */
  lemma OffsetCentresFocalRow(frame: Size, image: Size, focalY: real)
    requires ValidImage(image) && Overflow(frame, image) > 1.0
    requires -Overflow(frame, image) <= DesiredOffset(frame, image, focalY) <= 0.0
    ensures VerticalOffset(frame, image, focalY) == Some(DesiredOffset(frame, image, focalY))
    ensures VerticalOffset(frame, image, focalY).value + focalY * ScaledHeight(frame, image) == frame.height / 2.0
  {
  }

  /** A focal point at the top keeps the image top-aligned, one at the bottom bottom-aligns it. */
  lemma OffsetAtExtremes(frame: Size, image: Size)
    requires ValidFrame(frame) && ValidImage(image) && Overflow(frame, image) > 1.0
    ensures VerticalOffset(frame, image, 0.0) == Some(0.0)
    ensures VerticalOffset(frame, image, 1.0) == Some(-Overflow(frame, image))
  {
  }

  /** A lower focal point never moves the image down. */
  lemma OffsetMonotone(frame: Size, image: Size, lower: real, higher: real)
    requires ValidFrame(frame) && ValidImage(image) && Overflow(frame, image) > 1.0
    requires lower <= higher
    ensures VerticalOffset(frame, image, higher).value <= VerticalOffset(frame, image, lower).value
  {
    var h := ScaledHeight(frame, image);
    assert h > 0.0;
    assert (higher - lower) * h >= 0.0;
    assert DesiredOffset(frame, image, higher) <= DesiredOffset(frame, image, lower);
  }

  // ---- Where the image is drawn ------------------------------------------------------

  /**
   * The image's top edge, in frame coordinates, as the view is written: the
   * filled image is laid out in `.frame(width:height:)`, whose default
   * alignment centres it, so its top starts at `-overflow / 2`, and only then
   * is `.offset(y:)` added.
   */
  function DrawnTop(frame: Size, image: Size, focalY: real): real
    requires ValidImage(image)
  {
    var centred := -Overflow(frame, image) / 2.0;
    match VerticalOffset(frame, image, focalY)
    case Some(o) => centred + o
    case None => centred
  }

  /**
   * As written, the two placements are applied on top of each other: the
   * focal row lands half an overflow above the centre, and a focal point at
   * the bottom leaves a band of half an overflow blank under the image.
   */
  lemma DrawnTopMisplaces(frame: Size, image: Size, focalY: real)
    requires ValidFrame(frame) && ValidImage(image) && Overflow(frame, image) > 1.0
    requires -Overflow(frame, image) <= DesiredOffset(frame, image, focalY) <= 0.0
    ensures DrawnTop(frame, image, focalY) + focalY * ScaledHeight(frame, image)
      == frame.height / 2.0 - Overflow(frame, image) / 2.0
    ensures DrawnTop(frame, image, 1.0) + ScaledHeight(frame, image) == frame.height - Overflow(frame, image) / 2.0
  {
    OffsetCentresFocalRow(frame, image, focalY);
    assert DesiredOffset(frame, image, 1.0) <= -Overflow(frame, image);
  }

  /** A 100x200 image in a 100x100 frame: with focalY 1 only the top half of the frame is covered. */
  lemma DrawnTopExample()
    ensures var frame, image := Size(100.0, 100.0), Size(100.0, 200.0);
      && Overflow(frame, image) == 100.0
      && DrawnTop(frame, image, 1.0) == -150.0
      && DrawnTop(frame, image, 1.0) + ScaledHeight(frame, image) == 50.0
  {
    var frame, image := Size(100.0, 100.0), Size(100.0, 200.0);
    assert Scale(frame, image) == 1.0;
  }

  /**
   * The placement the offset is computed for: the image's top edge at the
   * offset, as with `.frame(width:height:alignment: .top)`.
   */
  function IntendedTop(frame: Size, image: Size, focalY: real): (top: real)
    requires ValidImage(image)
    ensures Overflow(frame, image) <= 1.0 ==> top == 0.0
  {
    match VerticalOffset(frame, image, focalY)
    case Some(o) => o
    case None => 0.0
  }

  /**
   * Placed as intended, the image always spans the frame from top to bottom,
   * and an in-range focal row sits exactly on the frame's centre.
   */
  lemma IntendedTopCovers(frame: Size, image: Size, focalY: real)
    requires ValidFrame(frame) && ValidImage(image)
    ensures IntendedTop(frame, image, focalY) <= 0.0
    ensures IntendedTop(frame, image, focalY) + ScaledHeight(frame, image) >= frame.height
    ensures Overflow(frame, image) > 1.0 && -Overflow(frame, image) <= DesiredOffset(frame, image, focalY) <= 0.0 ==>
      IntendedTop(frame, image, focalY) + focalY * ScaledHeight(frame, image) == frame.height / 2.0
  {
    ScaleCovers(frame, image);
    if VerticalOffset(frame, image, focalY).Some? {
      OffsetInRange(frame, image, focalY);
      if -Overflow(frame, image) <= DesiredOffset(frame, image, focalY) <= 0.0 {
        OffsetCentresFocalRow(frame, image, focalY);
      }
    }
  }
}
