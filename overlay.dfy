/** Where the live face boxes are drawn over the camera preview.

    The local detector reports boxes in pixels of the preview stream; the
    preview control is `previewWidth` units wide and shows the stream
    mirrored, so each box is scaled by `a = previewWidth / streamWidth` and
    reflected horizontally. The platform's `double` arithmetic is idealised
    as `real`.
 */
module Overlay {

  /** A box from the local detector, in stream pixels (unsigned, as in the
      platform's bitmap bounds). */
  datatype FaceBox = FaceBox(x: nat, y: nat, width: nat, height: nat)

  /** A rectangle on the overlay canvas, in display units. */
  datatype Rect = Rect(left: real, top: real, width: real, height: real)

  /** The ratio between the displayed preview and the stream. */
  function Scale(previewWidth: real, streamWidth: nat): (a: real)
    requires streamWidth > 0
    ensures a * streamWidth as real == previewWidth
  {
    previewWidth / streamWidth as real
  }

  /** The rectangle drawn for one face: scaled by `a`, mirrored inside a
      preview `previewWidth` wide. */
  function Place(face: FaceBox, a: real, previewWidth: real): Rect
  {
    var width := face.width as real * a;
    Rect(previewWidth - face.x as real * a - width, face.y as real * a, width, face.height as real * a)
  }

  /** A box in stream units, with real coordinates. */
  datatype Bounds = Bounds(x: real, y: real, width: real, height: real)

  function AsBounds(face: FaceBox): Bounds
  {
    Bounds(face.x as real, face.y as real, face.width as real, face.height as real)
  }

  /** The box that a rectangle on the canvas was drawn for, in stream units:
      the inverse of `Place` for a positive scale. */
  function Source(r: Rect, a: real, previewWidth: real): Bounds
    requires a > 0.0
  {
    Bounds((previewWidth - r.left - r.width) / a, r.top / a, r.width / a, r.height / a)
  }

  /** Every size and the top edge are the stream's scaled by `a`, and the right
      edge of the rectangle is the mirror image of the box's left edge. */
  lemma PlaceScalesAndMirrors(face: FaceBox, a: real, previewWidth: real)
    ensures var r := Place(face, a, previewWidth);
      && r.width == face.width as real * a && r.height == face.height as real * a
      && r.top == face.y as real * a
      && r.left + r.width == previewWidth - face.x as real * a
  {
  }

  /** Mapping a box to the canvas and back gives the box again. */
  lemma SourceOfPlace(face: FaceBox, a: real, previewWidth: real)
    requires a > 0.0
    ensures Source(Place(face, a, previewWidth), a, previewWidth) == AsBounds(face)
  {
  }

  /** A box lying inside the stream frame is drawn inside the preview. */
  lemma PlaceInsidePreview(face: FaceBox, previewWidth: real, streamWidth: nat)
    requires streamWidth > 0 && previewWidth >= 0.0
    requires face.x + face.width <= streamWidth
    ensures var r := Place(face, Scale(previewWidth, streamWidth), previewWidth);
      0.0 <= r.left && r.left + r.width <= previewWidth && 0.0 <= r.top && 0.0 <= r.width
  {
  }

  /** Mirroring reverses the left-to-right order: a box wholly left of another
      in the stream is drawn wholly right of it on the canvas. */
  lemma PlaceReversesOrder(left: FaceBox, right: FaceBox, a: real, previewWidth: real)
    requires a >= 0.0 && left.x + left.width <= right.x
    ensures var l := Place(left, a, previewWidth);
      var r := Place(right, a, previewWidth);
      r.left + r.width <= l.left
  {
  }

  /** The worked case: box (10, 20, 30, 40) in a 400-wide stream, shown 800 wide. */
  lemma WorkedExample()
    ensures Scale(800.0, 400) == 2.0
    ensures Place(FaceBox(10, 20, 30, 40), Scale(800.0, 400), 800.0) == Rect(720.0, 40.0, 60.0, 80.0)
  {
  }
}
