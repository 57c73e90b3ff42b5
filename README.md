# gcs_icons: selection and formatting core

A model of the pure logic inside the icon build script `main.go` of the GCS
icon generator. The script reads master PNG images, scales each one to a
fixed list of widths, packs chosen widths into ICNS, ICO and PNG files, and
writes one file-association descriptor per document type and platform. The
model covers the parts that decide *what* gets written:

- **Variant selection** (`selection.dfy`, module `Selection`). `getImage`
  is the method `GetImage`, a linear search with an early return. It is
  proved equal to `Find`: the first image of the requested width, or
  `None` (the source's `nil`) exactly when no image has that width.
  `getImages` is the method `GetImages`, the append loop. It is proved
  equal to `Select`. Lemmas show that `Select` delivers exactly the present
  requested widths, keeps the request order, drops absent sizes and
  nothing else, and returns only the image `getImage` would return.
- **Document-type catalog** (`catalog.dfy`). `getDescription` is
  `Description`: its `switch` against a table of the nine codes, and the
  code itself as the fallback.
- **Association descriptor** (`association.dfy`). This is the output path
  and the four-line `key=value` text of `writeAssociationFile`. Its partner
  is a small properties reader (`Lines`, `SplitProperty`,
  `ParseProperties`). The round-trip lemma shows the text reads back as
  exactly the four properties, in order. Another lemma shows that distinct
  (name, platform) pairs get distinct paths.
- **Type discovery** (`discovery.dfy`). The loop in `main` that keeps the
  `.png` directory entries and strips the extension is the method
  `DiscoverTypes`, proved equal to `TypeCodes`. Lemmas give membership in
  both directions, directory order, and distinctness.
- **Size tables and artifacts** (`artifacts.dfy`). These are the
  `createIcons` targets, the ICNS, ICO and PNG selections, and the
  `writeResources` base/@2x pairs. Lemmas show which requested sizes are
  always found in a set with exactly the scaling widths, and in the marker
  set {128, 64}.
- **Descriptor writes of a run** (`tasks.dfy`). Each discovered type code
  gives three writes, for linux/png, macos/icns and windows/ico. Writes
  for distinct codes go to distinct files. Each descriptor's icon path is
  a file the same task writes. The two-glyph run (`eqp`, `skl`) is worked
  out as a lemma.

`seqs.dfy` defines order-preserving subsequences. `images.dfy` defines the
image record. An `Image` carries its width and height, plus an opaque
`pixels` tag standing for its content, so that "the first image of that
width" means something. `icon.ScaleTo` is library code and is not visible.
It is modelled by `Artifacts.ScaleTo`, whose contract is only the one the
script relies on: one image per target, in target order, with exactly the
target's dimensions. `fs.TrimExtension` (also a library) is modelled after
`filepath.Ext`: the extension runs from the last `.` after the last `/`.
Strings are `seq<char>`. The source compares bytes, and every literal here
is ASCII.

`getImage` returns the first image of the requested width and does not need
widths to be distinct, so `Find` is stated for variant sets that may hold
duplicates.

## Model

| member | source | states |
|---|---|---|
| Selection.Find | main.go:195-202 | returns None exactly when no image has the width; otherwise an image of exactly that width that is the earliest such element of the list |
| Selection.GetImage | main.go:195-202 | the loop with early return computes `Find`: the first image of the requested width, or None |
| Selection.Select | main.go:185-193 | the result is no longer than the request, and every delivered image is an element of the variant set whose width was requested |
| Selection.GetImages | main.go:185-193 | the append loop computes `Select` |
| Selection.SelectWidths | main.go:187-191 | the widths delivered are exactly the requested sizes that are present, in request order |
| Selection.PresentSizesMembership | main.go:187-191 | a size is delivered if and only if it was requested and some variant has it, so absent sizes are omitted and present ones are not |
| Selection.PresentSizesOrdered | main.go:186-191 | the delivered sizes are an order-preserving subsequence of the request |
| Selection.PresentSizesAllPresent | main.go:187-191 | when every requested size is present, the delivered sizes equal the request element for element |
| Selection.SelectComplete | main.go:185-193 | when every requested width is among the variant widths, the delivered widths equal the request |
| Selection.SelectElementsAreFound | main.go:188 | every delivered image is exactly what `getImage` returns for its width, so it is never a wrong-width or later duplicate |
| Catalog.Description | main.go:104-126 | a known code maps to its catalog string and any other input to itself |
| Catalog.CatalogCodes | main.go:105-123 | the catalog knows exactly adm, adq, eqm, eqp, gcs, gct, not, skl and spl |
| Catalog.DescriptionIsCodeIffUnknown | main.go:124-125 | the description equals the code if and only if the code is not in the catalog |
| Catalog.DescriptionSingleLine | main.go:104-126 | a description has no newline when the code has none |
| Association.DescriptorPath | main.go:93 | the path is `artifacts/file_associations/`, then the platform directory and `/`, then the name, then `_ext.properties` |
| Association.DescriptorContent | main.go:95-99 | the template is the rendering of the four properties extension, mime-type, icon and description, one newline-terminated `key=value` line each, in that order |
| Association.AssociationFile | main.go:92-102 | the descriptor is written at `DescriptorPath(name, platform)`, and when name and file type contain no newline its text reads back as exactly its four properties |
| Association.DescriptorContentRoundTrip | main.go:95-99 | when name and file type contain no newline, reading the text back gives exactly four pairs: `extension`/name, `mime-type`/`application/gcs.<name>`, `icon`/`artifacts/<fileType>/<name>_doc.<fileType>`, `description`/the catalog description |
| Association.DescriptorContentEndsWithNewline | main.go:95-99 | the text is non-empty and newline-terminated |
| Association.DescriptorPathInjective | main.go:93 | equal descriptor paths mean equal name and platform, when platform names have no `/` |
| Discovery.HasSuffix | main.go:32 | `strings.HasSuffix`: true exactly when the name is some text followed by the suffix |
| Discovery.TrimExtension | main.go:33 | the trimmed name followed by its extension (`filepath.Ext`: from the last `.` after the last `/`) is the original name |
| Discovery.TypeCodes | main.go:30-35 | there are never more type codes than directory entries |
| Discovery.DiscoverTypes | main.go:30-35 | the discovery loop computes `TypeCodes` |
| Discovery.TrimPngExtension | main.go:32-33 | for a name ending in `.png`, trimming the extension removes exactly those four characters |
| Discovery.TypeCodesMembership | main.go:31-34 | a code is discovered if and only if `<code>.png` is a directory entry |
| Discovery.TypeCodesOrdered | main.go:30-35 | the codes with `.png` put back are an order-preserving subsequence of the entries, so directory order is kept |
| Discovery.TypeCodesDistinct | main.go:30-35 | distinct entries give distinct codes |
| Discovery.TwoGlyphDiscovery | main.go:30-35 | the entries `eqp.png`, `skl.png` give the codes `eqp`, `skl` in that order |
| Artifacts.ScaleTo | main.go:130-139 | stand-in for `icon.ScaleTo`: one image per target, in target order, each with exactly the target's width and height |
| Artifacts.CreateIcons | main.go:129-140 | the variant set has exactly the widths 1024, 512, 256, 128, 64, 48, 32, 16, in that order |
| Artifacts.MarkerIcons | main.go:85-88 | the marker variant set has exactly the widths 128 and 64 |
| Artifacts.IcnsBundle | main.go:142-147 | written to `artifacts/icns/<name>.icns`; for any variant set the frames are exactly the widths of 1024, 512, 256, 128, 64, 32, 16 that are present, in that order, a missing width left out |
| Artifacts.IcoBundle | main.go:149-154 | written to `artifacts/ico/<name>.ico`; for any variant set the frames are exactly the widths of 256, 48, 32, 16 that are present, in that order |
| Artifacts.PngRaster | main.go:156-161 | written to `artifacts/png/<name>.png`; the image is nil exactly when no variant is 256 wide, otherwise a 256-wide variant |
| Artifacts.Resources | main.go:163-173 | two files, `<name>.png` and `<name>@2x.png`; each image is nil exactly when no variant has the base width, resp. twice the base width, otherwise a variant of that width |
| Artifacts.IcnsComplete | main.go:145 | with the eight scaling widths, the ICNS frames have all seven widths 1024, 512, 256, 128, 64, 32, 16 in order |
| Artifacts.IcoComplete | main.go:152 | with the eight scaling widths, the ICO frames have all four widths 256, 48, 32, 16 in order |
| Artifacts.PngPresent | main.go:159 | with the eight scaling widths, the PNG image is non-nil and 256 wide |
| Artifacts.FileResourcesPresent | main.go:163-173 | with the eight scaling widths and base 16, both the base (16) and @2x (32) images are found |
| Artifacts.MarkerResourcesPresent | main.go:163-173 | with the marker widths {128, 64} and base 64, both the base (64) and @2x (128) images are found |
| Artifacts.DocTaskArtifactsComplete | main.go:76-88 | the `<name>_doc` ICNS, ICO and PNG, the `<name>_file` resources and the `<name>_marker` resources a document-type task builds are all complete |
| Artifacts.AppTaskArtifactsComplete | main.go:59-63 | the `app` ICNS, ICO and PNG of the application task are complete |
| Tasks.DocJobs | main.go:81-83 | a document-type task writes three descriptors: linux/png, macos/icns, windows/ico |
| Tasks.RunJobs | main.go:48-50 | a run has exactly three descriptor writes per submitted type code, each for one of those codes; the application task adds none |
| Tasks.RunDescriptors | main.go:48-50 | one descriptor per write, each at the path of its code and platform |
| Tasks.RunJobsAt | main.go:48-50 | a run has exactly three descriptor writes per type code, and write `i` belongs to code `i / 3` and platform `i % 3` |
| Tasks.RunJobsDistinct | main.go:48-50 | distinct type codes give pairwise distinct (code, platform) writes |
| Tasks.RunDescriptorPathsDistinct | main.go:93 | distinct type codes give pairwise distinct descriptor paths, so tasks never write the same file |
| Tasks.DocIconsAreWritten | main.go:97 | the icon path of each descriptor is the path of the `<name>_doc` artifact that the same task writes in that format |
| Tasks.RunDescriptorContents | main.go:81-83 | when no code contains a newline, every descriptor of a run reads back as the four properties of its code and file type |
| Tasks.TwoTypeRun | main.go:48-50 | the entries `eqp.png`, `skl.png` give the codes `eqp`, `skl`, whose run writes six descriptors, three per type, with their extensions and the descriptions "GCS Equipment Library" and "GCS Skills Library" |
| Tasks.DiscoveredRunPathsDistinct | main.go:30-50 | a run over the codes discovered from distinct directory entries never writes two descriptors to the same path |

## Left out

- Image decoding and PNG/ICNS/ICO encoding are library codecs. An image is its dimensions plus an opaque content tag, and the encoder's reaction to a nil image is not modelled.
- `icon.ScaleTo` and `icon.Stack` are library resampling and compositing. `ScaleTo` is reduced to its dimension contract, and the stacking of the glyph over the document frame is not modelled at all.
- Filesystem work is not modelled: opening and listing the types directory, removing and recreating the output directories (main.go:37-44), creating and closing files, and the writes themselves. Directory entries enter the model as a sequence of names, and artifacts are their paths and selected contents.
- The loop of `processAppFileTask` that writes one `app_<width>.png` per variant (main.go:64-69) is file output named by decimal formatting. It is not modelled.
- The task queue and its `Shutdown` (main.go:46-51) are parallel fan-out with a join. The model enumerates what the tasks write, in submission order, and does not model their scheduling.
- `jot.FatalIfErr` ends the process on any error; `errs.Wrap` (main.go:178, 182) only adds context to an error and returns it; `atexit.Exit(0)` (main.go:53) ends a successful run. None of the modelled logic can fail, and the process exit status is not modelled.
