/** Images as the build script sees them: only their pixel dimensions matter.
    Decoding, encoding and resampling belong to library code. */
module Images {

  /** A decoded bitmap. `pixels` is an opaque tag standing for its content, so
      that two bitmaps of the same width can still be told apart. */
  datatype Image = Image(width: int, height: int, pixels: nat)

  /** A target dimension, as `image.Pt(w, h)`. */
  datatype Point = Point(x: int, y: int)

  /** `Some(img)` or the `nil` the source returns when nothing matches. */
  datatype Option<T> = None | Some(value: T)

  /** The widths of a variant set, in order (`Bounds().Dx()` of each). */
  function Widths(images: seq<Image>): (w: seq<int>)
    ensures |w| == |images|
    ensures forall i :: 0 <= i < |images| ==> w[i] == images[i].width
  {
    seq(|images|, i requires 0 <= i < |images| => images[i].width)
  }

  /** Some image of `images` is `size` pixels wide. */
  predicate HasWidth(size: int, images: seq<Image>)
  {
    exists i :: 0 <= i < |images| && images[i].width == size
  }

  lemma HasWidthIffInWidths(size: int, images: seq<Image>)
    ensures HasWidth(size, images) <==> size in Widths(images)
  {
    if size in Widths(images) {
      var i :| 0 <= i < |images| && Widths(images)[i] == size;
      assert images[i].width == size;
    }
  }
}
