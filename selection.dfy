/** Picking variants out of a scaled variant set by their width
    (`getImage` and `getImages` in main.go). */
module Selection {
  import opened Seqs
  import opened Images

  /** `img` is the earliest element of `images` that is `size` pixels wide. */
  predicate IsFirstOfWidth(size: int, images: seq<Image>, img: Image)
  {
    exists i :: 0 <= i < |images| && images[i] == img && img.width == size &&
      forall j :: 0 <= j < i ==> images[j].width != size
  }

  /** What `getImage(size, images)` returns: the first image of that width,
      or `None` (nil) exactly when no image has that width. */
  function Find(size: int, images: seq<Image>): (r: Option<Image>)
    ensures r.None? <==> !HasWidth(size, images)
    ensures r.Some? ==> r.value.width == size && IsFirstOfWidth(size, images, r.value)
  {
    if images == [] then None
    else if images[0].width == size then
      assert IsFirstOfWidth(size, images, images[0]) by {
        assert images[0] == images[0];
      }
      Some(images[0])
    else
      var r := Find(size, images[1..]);
      if r.Some? then
        assert IsFirstOfWidth(size, images, r.value) by {
          var i :| 0 <= i < |images[1..]| && images[1..][i] == r.value && r.value.width == size &&
            forall j :: 0 <= j < i ==> images[1..][j].width != size;
          assert images[i + 1] == r.value;
          assert forall j :: 0 <= j < i + 1 ==> images[j].width != size by {
            forall j | 0 <= j < i + 1 ensures images[j].width != size {
              if j > 0 { assert images[j] == images[1..][j - 1]; }
            }
          }
        }
        r
      else
        assert !HasWidth(size, images) by {
          forall i | 0 <= i < |images| ensures images[i].width != size {
            if i > 0 { assert images[i] == images[1..][i - 1]; }
          }
        }
        r
  }

  /** Skipping a prefix with no image of width `size` does not change `Find`. */
  lemma {:induction false} FindSkipsPrefix(size: int, images: seq<Image>, i: nat)
    requires i <= |images|
    requires forall j :: 0 <= j < i ==> images[j].width != size
    ensures Find(size, images) == Find(size, images[i..])
    decreases i
  {
    if i > 0 {
      assert images[1..][i - 1..] == images[i..];
      FindSkipsPrefix(size, images[1..], i - 1);
    }
  }

  /** The linear search of `getImage`, with its early return. */
  method GetImage(size: int, images: seq<Image>) returns (r: Option<Image>)
    ensures r == Find(size, images)
  {
    for i := 0 to |images|
      invariant forall j :: 0 <= j < i ==> images[j].width != size
    {
      if images[i].width == size {
        FindSkipsPrefix(size, images, i);
        return Some(images[i]);
      }
    }
    FindSkipsPrefix(size, images, |images|);
    return None;
  }

  /** The requested sizes that `images` can satisfy, in request order. */
  function PresentSizes(sizes: seq<int>, images: seq<Image>): (p: seq<int>)
    ensures |p| <= |sizes|
  {
    if sizes == [] then []
    else
      var last := sizes[|sizes| - 1];
      var front := PresentSizes(sizes[..|sizes| - 1], images);
      if HasWidth(last, images) then front + [last] else front
  }

  /** What `getImages(sizes, images)` returns: for each requested size in
      order, the variant `getImage` finds for it, skipping sizes it does not. */
  function Select(sizes: seq<int>, images: seq<Image>): (r: seq<Image>)
    ensures |r| <= |sizes|
    ensures forall k :: 0 <= k < |r| ==> r[k] in images && r[k].width in sizes
  {
    if sizes == [] then []
    else
      var last := sizes[|sizes| - 1];
      var front := Select(sizes[..|sizes| - 1], images);
      assert forall k :: 0 <= k < |front| ==> front[k].width in sizes by {
        forall k | 0 <= k < |front| ensures front[k].width in sizes {
          var w := front[k].width;
          var m :| 0 <= m < |sizes| - 1 && sizes[..|sizes| - 1][m] == w;
          assert sizes[m] == w;
        }
      }
      match Find(last, images)
      case None => front
      case Some(img) =>
        assert img in images by { var i :| 0 <= i < |images| && images[i] == img; }
        front + [img]
  }

  /** The loop of `getImages`: append what `getImage` finds, drop nil. */
  method GetImages(sizes: seq<int>, images: seq<Image>) returns (list: seq<Image>)
    ensures list == Select(sizes, images)
  {
    list := [];
    for i := 0 to |sizes|
      invariant list == Select(sizes[..i], images)
    {
      var img := GetImage(sizes[i], images);
      assert sizes[..i + 1][..i] == sizes[..i];
      if img.Some? {
        list := list + [img.value];
      }
    }
    assert sizes[..|sizes|] == sizes;
  }

  /** The widths delivered are exactly the requested sizes that are present. */
  lemma {:induction false} SelectWidths(sizes: seq<int>, images: seq<Image>)
    ensures Widths(Select(sizes, images)) == PresentSizes(sizes, images)
    decreases |sizes|
  {
    if sizes != [] {
      SelectWidths(sizes[..|sizes| - 1], images);
    }
  }

  /** A size is delivered exactly when it was requested and some variant has
      it: absent sizes are omitted, nothing else is. */
  lemma {:induction false} PresentSizesMembership(sizes: seq<int>, images: seq<Image>, s: int)
    ensures s in PresentSizes(sizes, images) <==> s in sizes && HasWidth(s, images)
    decreases |sizes|
  {
    if sizes != [] {
      var front := sizes[..|sizes| - 1];
      PresentSizesMembership(front, images, s);
      assert sizes == front + [sizes[|sizes| - 1]];
    }
  }

  /** The delivered sizes keep the relative order of the request. */
  lemma {:induction false} PresentSizesOrdered(sizes: seq<int>, images: seq<Image>)
    ensures IsSubsequence(PresentSizes(sizes, images), sizes)
    decreases |sizes|
  {
    if sizes == [] {
      EmptySubsequence(sizes);
    } else {
      var front := sizes[..|sizes| - 1];
      var last := sizes[|sizes| - 1];
      var kept := PresentSizes(front, images);
      var keep := HasWidth(last, images);
      PresentSizesOrdered(front, images);
      assert front + [last] == sizes;
      SubsequenceSnoc(kept, front, last, keep, PresentSizes(sizes, images), sizes);
    }
  }

  /** When every requested size is present, the widths are the request itself,
      element for element. */
  lemma {:induction false} PresentSizesAllPresent(sizes: seq<int>, images: seq<Image>)
    requires forall k :: 0 <= k < |sizes| ==> HasWidth(sizes[k], images)
    ensures PresentSizes(sizes, images) == sizes
    decreases |sizes|
  {
    if sizes != [] {
      var front := sizes[..|sizes| - 1];
      assert forall k :: 0 <= k < |front| ==> HasWidth(front[k], images) by {
        forall k | 0 <= k < |front| ensures HasWidth(front[k], images) {
          assert front[k] == sizes[k];
        }
      }
      PresentSizesAllPresent(front, images);
      var last := sizes[|sizes| - 1];
      assert HasWidth(last, images);
      calc {
        PresentSizes(sizes, images);
        PresentSizes(front, images) + [last];
        front + [last];
        sizes;
      }
    }
  }

  /** The request is satisfied in full, in order, when all sizes are present. */
  lemma SelectComplete(sizes: seq<int>, images: seq<Image>)
    requires forall k :: 0 <= k < |sizes| ==> sizes[k] in Widths(images)
    ensures Widths(Select(sizes, images)) == sizes
  {
    forall k | 0 <= k < |sizes| ensures HasWidth(sizes[k], images) {
      HasWidthIffInWidths(sizes[k], images);
    }
    PresentSizesAllPresent(sizes, images);
    SelectWidths(sizes, images);
  }

  /** Never a wrong image: every delivered variant is the one `getImage`
      returns for its own width. */
  lemma {:induction false} SelectElementsAreFound(sizes: seq<int>, images: seq<Image>)
    ensures forall k :: 0 <= k < |Select(sizes, images)| ==>
      Find(Select(sizes, images)[k].width, images) == Some(Select(sizes, images)[k])
    decreases |sizes|
  {
    if sizes != [] {
      SelectElementsAreFound(sizes[..|sizes| - 1], images);
    }
  }
}
