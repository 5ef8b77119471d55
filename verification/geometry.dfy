/**
 Coordinate scaling between the on-screen (rendered) size of an image and its
 intrinsic (native) size, as used when cropping detected objects out of the
 uploaded picture in NumberDetector.tsx.

 All quantities are real numbers: the browser's floating-point rounding is not
 modelled.
 */
module Geometry {

  /** An axis-aligned rectangle given by its top-left corner and its extent,
      the `[x, y, width, height]` layout of a detector bounding box. */
  datatype Box = Box(x: real, y: real, width: real, height: real)

  /** The mounted <img> element: its laid-out size (`width`, `height`) and the
      intrinsic pixel size of the picture (`naturalWidth`, `naturalHeight`). */
  datatype ImageView = ImageView(width: real, height: real, naturalWidth: real, naturalHeight: real)

  /** The image has been laid out, so the scale factors are defined. */
  predicate LaidOut(v: ImageView) {
    v.width > 0.0 && v.height > 0.0
  }

  /** The picture has a non-empty intrinsic size, so scaling can be undone. */
  predicate Decoded(v: ImageView) {
    v.naturalWidth > 0.0 && v.naturalHeight > 0.0
  }

  /** Horizontal factor from rendered to native coordinates. */
  function ScaleX(v: ImageView): real
    requires LaidOut(v)
  {
    v.naturalWidth / v.width
  }

  /** Vertical factor from rendered to native coordinates. */
  function ScaleY(v: ImageView): real
    requires LaidOut(v)
  {
    v.naturalHeight / v.height
  }

  /** The native-resolution rectangle that is cut out for a box given in
      rendered coordinates. No clamping to the image and no rejection of
      empty or negative extents takes place. Each coordinate is the input
      coordinate times native/rendered size along its axis. */
  function NativeCrop(v: ImageView, b: Box): (r: Box)
    requires LaidOut(v)
    ensures r.x * v.width == b.x * v.naturalWidth
    ensures r.y * v.height == b.y * v.naturalHeight
    ensures r.width * v.width == b.width * v.naturalWidth
    ensures r.height * v.height == b.height * v.naturalHeight
  {
    var sx, sy := ScaleX(v), ScaleY(v);
    Box(b.x * sx, b.y * sy, b.width * sx, b.height * sy)
  }

  /** The inverse mapping, from native back to rendered coordinates. */
  function RenderedBox(v: ImageView, c: Box): (r: Box)
    requires Decoded(v)
    ensures r.x * v.naturalWidth == c.x * v.width
    ensures r.y * v.naturalHeight == c.y * v.height
    ensures r.width * v.naturalWidth == c.width * v.width
    ensures r.height * v.naturalHeight == c.height * v.height
  {
    var sx, sy := v.width / v.naturalWidth, v.height / v.naturalHeight;
    Box(c.x * sx, c.y * sy, c.width * sx, c.height * sy)
  }

  /** When the image is shown at its intrinsic size the crop is the box itself. */
  lemma IdentityScale(v: ImageView, b: Box)
    requires LaidOut(v)
    requires v.naturalWidth == v.width && v.naturalHeight == v.height
    ensures NativeCrop(v, b) == b
  {
  }

  /** Mapping a box to native coordinates and back gives the box again. */
  lemma NativeCropRoundTrip(v: ImageView, b: Box)
    requires LaidOut(v) && Decoded(v)
    ensures RenderedBox(v, NativeCrop(v, b)) == b
  {
  }

  /** Mapping a native rectangle to rendered coordinates and cropping it again
      gives the rectangle back. */
  lemma RenderedBoxRoundTrip(v: ImageView, c: Box)
    requires LaidOut(v) && Decoded(v)
    ensures NativeCrop(v, RenderedBox(v, c)) == c
  {
  }

  /** Scaling keeps the sign of every extent: a degenerate box (empty or
      negative width or height) yields a degenerate crop and vice versa. */
  lemma CropKeepsDegeneracy(v: ImageView, b: Box)
    requires LaidOut(v) && Decoded(v)
    ensures NativeCrop(v, b).width <= 0.0 <==> b.width <= 0.0
    ensures NativeCrop(v, b).height <= 0.0 <==> b.height <= 0.0
  {
  }
}
