/** The fixed size tables of main.go and the icon artifacts built from a
    scaled variant set (`createIcons`, `writeIcns`, `writeIco`, `writePng`,
    `writeResources` and the marker variants of `newProcessDocFileTask`).
    Encoding and writing the files is not modelled: an artifact is its output
    path and the variants selected for it. */
module Artifacts {
  import opened Images
  import opened Selection

  /** The scaling targets of `createIcons`. */
  const CreateIconSizes: seq<int> := [1024, 512, 256, 128, 64, 48, 32, 16]
  /** The widths `writeIcns` asks for (no 48). */
  const IcnsSizes: seq<int> := [1024, 512, 256, 128, 64, 32, 16]
  /** The widths `writeIco` asks for. */
  const IcoSizes: seq<int> := [256, 48, 32, 16]
  /** The width `writePng` asks for. */
  const PngSize: int := 256
  /** The base size of the `<name>_file` resources. */
  const FileResourceBase: int := 16
  /** The scaling targets of the `<name>_marker` variants. */
  const MarkerSizes: seq<int> := [128, 64]
  /** The base size of the `<name>_marker` resources. */
  const MarkerResourceBase: int := 64

  const ResourceDir: string := "com.trollworks.gcs/resources/images/"

  /** `image.Pt(n, n)` for each size. */
  function SquareTargets(sizes: seq<int>): (t: seq<Point>)
    ensures |t| == |sizes|
    ensures forall i :: 0 <= i < |sizes| ==> t[i] == Point(sizes[i], sizes[i])
  {
    seq(|sizes|, i requires 0 <= i < |sizes| => Point(sizes[i], sizes[i]))
  }

  /** Stand-in for the library's `icon.ScaleTo`: one image per target, in
      target order, with exactly the target's dimensions and the source's
      content. Nothing below depends on more than its dimensions. */
  function ScaleTo(src: Image, targets: seq<Point>): (r: seq<Image>)
    ensures |r| == |targets|
    ensures forall i :: 0 <= i < |targets| ==> r[i].width == targets[i].x && r[i].height == targets[i].y
  {
    seq(|targets|, i requires 0 <= i < |targets| => Image(targets[i].x, targets[i].y, src.pixels))
  }

  /** `createIcons`: the variant set has exactly the eight target widths, in
      order. */
  function CreateIcons(src: Image): (r: seq<Image>)
    ensures Widths(r) == CreateIconSizes
  {
    ScaleTo(src, SquareTargets(CreateIconSizes))
  }

  /** The marker variants of a document-type glyph: widths 128 and 64. */
  function MarkerIcons(glyph: Image): (r: seq<Image>)
    ensures Widths(r) == MarkerSizes
  {
    ScaleTo(glyph, SquareTargets(MarkerSizes))
  }

  /** A multi-image container file and the frames encoded into it. */
  datatype Bundle = Bundle(path: string, frames: seq<Image>)

  /** A single-image file and the image encoded into it; `None` is the nil
      image the source would hand to the encoder. */
  datatype Raster = Raster(path: string, image: Option<Image>)

  /** `writeIcns`: whatever variant set it gets, the frames are the widths of
      `IcnsSizes` that are present, in request order, and nothing else; a
      missing width is left out rather than failing. */
  function IcnsBundle(name: string, imgs: seq<Image>): (b: Bundle)
    ensures b.path == "artifacts/icns/" + name + ".icns"
    ensures Widths(b.frames) == PresentSizes(IcnsSizes, imgs)
  {
    SelectWidths(IcnsSizes, imgs);
    Bundle("artifacts/icns/" + name + ".icns", Select(IcnsSizes, imgs))
  }

  /** `writeIco`: the frames are the widths of `IcoSizes` that are present,
      in request order, and nothing else. */
  function IcoBundle(name: string, imgs: seq<Image>): (b: Bundle)
    ensures b.path == "artifacts/ico/" + name + ".ico"
    ensures Widths(b.frames) == PresentSizes(IcoSizes, imgs)
  {
    SelectWidths(IcoSizes, imgs);
    Bundle("artifacts/ico/" + name + ".ico", Select(IcoSizes, imgs))
  }

  /** `writePng`: the image is nil exactly when no variant is 256 wide, and
      otherwise a 256-wide variant. */
  function PngRaster(name: string, imgs: seq<Image>): (r: Raster)
    ensures r.path == "artifacts/png/" + name + ".png"
    ensures r.image.None? <==> !HasWidth(PngSize, imgs)
    ensures r.image.Some? ==> r.image.value in imgs && r.image.value.width == PngSize
  {
    Raster("artifacts/png/" + name + ".png", Find(PngSize, imgs))
  }

  /** `writeResources`: a base-size image and an `@2x` image of twice the
      size, each nil exactly when no variant has that width. */
  function Resources(name: string, imgs: seq<Image>, baseSize: int): (r: seq<Raster>)
    ensures |r| == 2
    ensures r[0].path == ResourceDir + name + ".png" && r[1].path == ResourceDir + name + "@2x.png"
    ensures r[0].image.None? <==> !HasWidth(baseSize, imgs)
    ensures r[0].image.Some? ==> r[0].image.value in imgs && r[0].image.value.width == baseSize
    ensures r[1].image.None? <==> !HasWidth(baseSize * 2, imgs)
    ensures r[1].image.Some? ==> r[1].image.value in imgs && r[1].image.value.width == baseSize * 2
  {
    [Raster(ResourceDir + name + ".png", Find(baseSize, imgs)),
     Raster(ResourceDir + name + "@2x.png", Find(baseSize * 2, imgs))]
  }

  /** The ICNS bundle of a full variant set has all seven widths, in order. */
  lemma IcnsComplete(name: string, imgs: seq<Image>)
    requires Widths(imgs) == CreateIconSizes
    ensures Widths(IcnsBundle(name, imgs).frames) == IcnsSizes
  {
    SelectComplete(IcnsSizes, imgs);
  }

  /** The ICO bundle of a full variant set has all four widths, in order. */
  lemma IcoComplete(name: string, imgs: seq<Image>)
    requires Widths(imgs) == CreateIconSizes
    ensures Widths(IcoBundle(name, imgs).frames) == IcoSizes
  {
    SelectComplete(IcoSizes, imgs);
  }

  /** The PNG of a full variant set is never nil and is 256 pixels wide. */
  lemma PngPresent(name: string, imgs: seq<Image>)
    requires Widths(imgs) == CreateIconSizes
    ensures PngRaster(name, imgs).image.Some?
    ensures PngRaster(name, imgs).image.value.width == PngSize
  {
    HasWidthIffInWidths(PngSize, imgs);
  }

  /** The `_file` resources of a full variant set: 16 and 32 are both found. */
  lemma FileResourcesPresent(name: string, imgs: seq<Image>)
    requires Widths(imgs) == CreateIconSizes
    ensures forall k :: 0 <= k < 2 ==> Resources(name, imgs, FileResourceBase)[k].image.Some?
    ensures Resources(name, imgs, FileResourceBase)[0].image.value.width == 16
    ensures Resources(name, imgs, FileResourceBase)[1].image.value.width == 32
  {
    HasWidthIffInWidths(16, imgs);
    HasWidthIffInWidths(32, imgs);
  }

  /** The `_marker` resources of the marker variants: base 64 and @2x 128
      are both found. */
  lemma MarkerResourcesPresent(name: string, imgs: seq<Image>)
    requires Widths(imgs) == MarkerSizes
    ensures forall k :: 0 <= k < 2 ==> Resources(name, imgs, MarkerResourceBase)[k].image.Some?
    ensures Resources(name, imgs, MarkerResourceBase)[0].image.value.width == 64
    ensures Resources(name, imgs, MarkerResourceBase)[1].image.value.width == 128
  {
    HasWidthIffInWidths(64, imgs);
    HasWidthIffInWidths(128, imgs);
  }

  /** Every icon artifact a document-type task builds is complete: the
      `<name>_doc` bundles and PNG from `createIcons` of the stacked image,
      the `<name>_file` resources from the same variants and the
      `<name>_marker` resources from the marker variants of the glyph. */
  lemma DocTaskArtifactsComplete(name: string, stacked: Image, glyph: Image)
    ensures Widths(IcnsBundle(name + "_doc", CreateIcons(stacked)).frames) == IcnsSizes
    ensures Widths(IcoBundle(name + "_doc", CreateIcons(stacked)).frames) == IcoSizes
    ensures PngRaster(name + "_doc", CreateIcons(stacked)).image.Some?
    ensures forall k :: 0 <= k < 2 ==> Resources(name + "_file", CreateIcons(stacked), FileResourceBase)[k].image.Some?
    ensures forall k :: 0 <= k < 2 ==> Resources(name + "_marker", MarkerIcons(glyph), MarkerResourceBase)[k].image.Some?
  {
    var imgs := CreateIcons(stacked);
    IcnsComplete(name + "_doc", imgs);
    IcoComplete(name + "_doc", imgs);
    PngPresent(name + "_doc", imgs);
    FileResourcesPresent(name + "_file", imgs);
    MarkerResourcesPresent(name + "_marker", MarkerIcons(glyph));
  }

  /** The application task's `app` bundles and PNG from `createIcons` are
      complete. */
  lemma AppTaskArtifactsComplete(src: Image)
    ensures Widths(IcnsBundle("app", CreateIcons(src)).frames) == IcnsSizes
    ensures Widths(IcoBundle("app", CreateIcons(src)).frames) == IcoSizes
    ensures PngRaster("app", CreateIcons(src)).image.Some?
  {
    var imgs := CreateIcons(src);
    IcnsComplete("app", imgs);
    IcoComplete("app", imgs);
    PngPresent("app", imgs);
  }
}
