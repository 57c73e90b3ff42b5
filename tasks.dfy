/** What the run of main.go writes as file-association descriptors: none for
    the application task, three for each discovered document type (one per
    platform, each pointing at that platform's icon artifact). Scheduling the
    tasks on the queue is not modelled; the tasks are independent, so the
    order of this enumeration is the order of submission. */
module Tasks {
  import opened Images
  import opened Catalog
  import opened Association
  import opened Artifacts
  import opened Discovery

  /** The (platform, icon file type) pairs of `newProcessDocFileTask`. */
  const Platforms: seq<(string, string)> := [("linux", "png"), ("macos", "icns"), ("windows", "ico")]

  /** A descriptor write: type code, platform directory, icon file type. */
  datatype Job = Job(code: string, platform: string, fileType: string)

  /** The descriptor writes of one document-type task, in source order. */
  function DocJobs(code: string): (r: seq<Job>)
    ensures |r| == |Platforms|
    ensures forall p :: 0 <= p < |Platforms| ==> r[p] == Job(code, Platforms[p].0, Platforms[p].1)
  {
    [Job(code, "linux", "png"), Job(code, "macos", "icns"), Job(code, "windows", "ico")]
  }

  /** The descriptor writes of a run over the discovered type codes; the
      application task adds none. */
  function RunJobs(codes: seq<string>): (r: seq<Job>)
    ensures |r| == 3 * |codes|
    ensures forall i :: 0 <= i < |r| ==> r[i].code in codes
  {
    if codes == [] then [] else DocJobs(codes[0]) + RunJobs(codes[1..])
  }

  /** The descriptors those writes produce. */
  function RunDescriptors(codes: seq<string>): (r: seq<Descriptor>)
    ensures |r| == |RunJobs(codes)|
    ensures forall i :: 0 <= i < |r| ==>
      r[i].path == DescriptorPath(RunJobs(codes)[i].code, RunJobs(codes)[i].platform)
  {
    var jobs := RunJobs(codes);
    seq(|jobs|, i requires 0 <= i < |jobs| => AssociationFile(jobs[i].code, jobs[i].platform, jobs[i].fileType))
  }

  /** Write `i` of a run is the one for code `i / 3` and platform `i % 3`;
      there are exactly three per code. */
  lemma {:induction false} RunJobsAt(codes: seq<string>)
    ensures |RunJobs(codes)| == 3 * |codes|
    ensures forall i :: 0 <= i < |RunJobs(codes)| ==>
      RunJobs(codes)[i] == Job(codes[i / 3], Platforms[i % 3].0, Platforms[i % 3].1)
    decreases |codes|
  {
    if codes != [] {
      RunJobsAt(codes[1..]);
      var rest := RunJobs(codes[1..]);
      forall i | 0 <= i < |RunJobs(codes)|
        ensures RunJobs(codes)[i] == Job(codes[i / 3], Platforms[i % 3].0, Platforms[i % 3].1)
      {
        if i >= 3 {
          assert RunJobs(codes)[i] == rest[i - 3];
          assert (i - 3) / 3 == i / 3 - 1 && (i - 3) % 3 == i % 3;
          assert codes[1..][i / 3 - 1] == codes[i / 3];
        }
      }
    }
  }

  lemma PlatformsDistinct(p: int, q: int)
    requires 0 <= p < 3 && 0 <= q < 3 && Platforms[p].0 == Platforms[q].0
    ensures p == q
  {
    assert "linux"[0] == 'l' && "macos"[0] == 'm' && "windows"[0] == 'w';
  }

  lemma PlatformsFlat(p: int)
    requires 0 <= p < 3
    ensures '/' !in Platforms[p].0 && '\n' !in Platforms[p].1
  {
  }

  /** Distinct codes give pairwise distinct (code, platform) writes. */
  lemma RunJobsDistinct(codes: seq<string>)
    requires forall i, j :: 0 <= i < j < |codes| ==> codes[i] != codes[j]
    ensures forall i, j :: 0 <= i < j < |RunJobs(codes)| ==>
      RunJobs(codes)[i].code != RunJobs(codes)[j].code || RunJobs(codes)[i].platform != RunJobs(codes)[j].platform
  {
    RunJobsAt(codes);
    var jobs := RunJobs(codes);
    forall i, j | 0 <= i < j < |jobs|
      ensures jobs[i].code != jobs[j].code || jobs[i].platform != jobs[j].platform
    {
      if jobs[i].code == jobs[j].code && jobs[i].platform == jobs[j].platform {
        assert i / 3 == j / 3;
        PlatformsDistinct(i % 3, j % 3);
        assert false;
      }
    }
  }

  /** Tasks write to disjoint files: distinct codes give pairwise distinct
      descriptor paths. */
  lemma RunDescriptorPathsDistinct(codes: seq<string>)
    requires forall i, j :: 0 <= i < j < |codes| ==> codes[i] != codes[j]
    ensures forall i, j :: 0 <= i < j < |RunDescriptors(codes)| ==>
      RunDescriptors(codes)[i].path != RunDescriptors(codes)[j].path
  {
    RunJobsAt(codes);
    RunJobsDistinct(codes);
    var jobs := RunJobs(codes);
    var ds := RunDescriptors(codes);
    forall i, j | 0 <= i < j < |ds| ensures ds[i].path != ds[j].path {
      PlatformsFlat(i % 3);
      PlatformsFlat(j % 3);
      if ds[i].path == ds[j].path {
        DescriptorPathInjective(jobs[i].code, jobs[i].platform, jobs[j].code, jobs[j].platform);
        assert false;
      }
    }
  }

  /** Each descriptor's icon is a file the same task writes: the `<name>_doc`
      artifact of the matching container format. */
  lemma DocIconsAreWritten(name: string, imgs: seq<Image>)
    ensures IconPath(name, "png") == PngRaster(name + "_doc", imgs).path
    ensures IconPath(name, "icns") == IcnsBundle(name + "_doc", imgs).path
    ensures IconPath(name, "ico") == IcoBundle(name + "_doc", imgs).path
  {
  }

  /** Every descriptor of a run reads back as the four properties of its
      code and file type. */
  lemma RunDescriptorContents(codes: seq<string>)
    requires forall k :: 0 <= k < |codes| ==> '\n' !in codes[k]
    ensures forall i :: 0 <= i < |RunDescriptors(codes)| ==>
      ParseProperties(RunDescriptors(codes)[i].content) ==
        DescriptorProperties(RunJobs(codes)[i].code, RunJobs(codes)[i].fileType)
  {
    RunJobsAt(codes);
    var jobs := RunJobs(codes);
    forall i | 0 <= i < |jobs|
      ensures ParseProperties(DescriptorContent(jobs[i].code, jobs[i].fileType)) ==
        DescriptorProperties(jobs[i].code, jobs[i].fileType)
    {
      PlatformsFlat(i % 3);
      DescriptorContentRoundTrip(jobs[i].code, jobs[i].fileType);
    }
  }

  /** A run over a directory holding the glyphs `eqp.png` and `skl.png`
      discovers `eqp` and `skl` and writes six descriptors, three per type,
      one per platform, each with its extension and its catalog description. */
  lemma TwoTypeRun()
    ensures TypeCodes(["eqp.png", "skl.png"]) == ["eqp", "skl"]
    ensures |RunDescriptors(["eqp", "skl"])| == 6
    ensures forall i :: 0 <= i < 6 ==>
      RunJobs(["eqp", "skl"])[i] == Job(if i < 3 then "eqp" else "skl", Platforms[i % 3].0, Platforms[i % 3].1)
    ensures Description("eqp") == "GCS Equipment Library" && Description("skl") == "GCS Skills Library"
    ensures forall i :: 0 <= i < 6 ==>
      ParseProperties(RunDescriptors(["eqp", "skl"])[i].content) ==
        DescriptorProperties(RunJobs(["eqp", "skl"])[i].code, RunJobs(["eqp", "skl"])[i].fileType)
  {
    TwoGlyphDiscovery();
    var codes := ["eqp", "skl"];
    RunJobsAt(codes);
    RunDescriptorContents(codes);
  }

  /** A run over the codes discovered from a directory, whose entries are
      distinct, never writes two descriptors to the same file. */
  lemma DiscoveredRunPathsDistinct(names: seq<string>)
    requires forall i, j :: 0 <= i < j < |names| ==> names[i] != names[j]
    ensures forall i, j :: 0 <= i < j < |RunDescriptors(TypeCodes(names))| ==>
      RunDescriptors(TypeCodes(names))[i].path != RunDescriptors(TypeCodes(names))[j].path
  {
    TypeCodesDistinct(names);
    RunDescriptorPathsDistinct(TypeCodes(names));
  }
}
