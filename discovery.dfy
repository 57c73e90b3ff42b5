/** Discovery of document types (main.go, the loop over the entries of
    `artifacts/artwork_prep/types`): keep the entries whose name ends in
    `.png` and strip the extension. Listing the directory is not modelled;
    its entry names, in directory order, are the input. */
module Discovery {
  import opened Seqs

  const PngSuffix: string := ".png"

  /** `strings.HasSuffix(s, suffix)` */
  predicate HasSuffix(s: string, suffix: string): (b: bool)
    ensures b <==> |suffix| <= |s| && s == s[..|s| - |suffix|] + suffix
  {
    assert |suffix| <= |s| ==> s == s[..|s| - |suffix|] + s[|s| - |suffix|..];
    |suffix| <= |s| && s[|s| - |suffix|..] == suffix
  }

  /** Position of the dot that starts the extension: the last `.` after the
      last `/`, or -1 when there is none. */
  function ExtensionStart(path: string): (i: int)
    ensures -1 <= i < |path|
    ensures i >= 0 ==> path[i] == '.'
  {
    if path == [] || path[|path| - 1] == '/' then -1
    else if path[|path| - 1] == '.' then |path| - 1
    else ExtensionStart(path[..|path| - 1])
  }

  /** `filepath.Ext`: the extension including its dot, or empty. */
  function Ext(path: string): (e: string)
    ensures e == [] || e[0] == '.'
  {
    var i := ExtensionStart(path);
    if i < 0 then [] else path[i..]
  }

  /** `fs.TrimExtension`: the path without its extension. */
  function TrimExtension(path: string): (r: string)
    ensures r + Ext(path) == path
  {
    var i := ExtensionStart(path);
    if i < 0 then path else path[..i]
  }

  /** For a `.png` file the extension removed is exactly the four characters
      of `.png`. */
  lemma TrimPngExtension(name: string)
    requires HasSuffix(name, PngSuffix)
    ensures TrimExtension(name) == name[..|name| - 4]
  {
    var n := |name|;
    assert name[n - 4..] == ".png";
    assert name[n - 1] == 'g' && name[n - 2] == 'n' && name[n - 3] == 'p' && name[n - 4] == '.';
    var p1, p2, p3 := name[..n - 1], name[..n - 2], name[..n - 3];
    assert p1[..n - 2] == p2 && p2[..n - 3] == p3;
    assert ExtensionStart(p3) == n - 4;
    assert ExtensionStart(p2) == n - 4;
    assert ExtensionStart(p1) == n - 4;
    assert ExtensionStart(name) == n - 4;
  }

  /** The type codes discovered from the directory entries `names`, in order. */
  function TypeCodes(names: seq<string>): (codes: seq<string>)
    ensures |codes| <= |names|
  {
    if names == [] then []
    else
      var last := names[|names| - 1];
      var front := TypeCodes(names[..|names| - 1]);
      if HasSuffix(last, PngSuffix) then front + [TrimExtension(last)] else front
  }

  /** The discovery loop of `main`. */
  method DiscoverTypes(names: seq<string>) returns (list: seq<string>)
    ensures list == TypeCodes(names)
  {
    list := [];
    for i := 0 to |names|
      invariant list == TypeCodes(names[..i])
    {
      assert names[..i + 1][..i] == names[..i];
      if HasSuffix(names[i], PngSuffix) {
        list := list + [TrimExtension(names[i])];
      }
    }
    assert names[..|names|] == names;
  }

  /** Each code, with `.png` put back, is the entry it came from. */
  function WithPng(codes: seq<string>): (r: seq<string>)
    ensures |r| == |codes|
    ensures forall k :: 0 <= k < |codes| ==> r[k] == codes[k] + PngSuffix
  {
    seq(|codes|, k requires 0 <= k < |codes| => codes[k] + PngSuffix)
  }

  lemma PngNameRoundTrip(name: string)
    requires HasSuffix(name, PngSuffix)
    ensures TrimExtension(name) + PngSuffix == name
  {
    TrimPngExtension(name);
    assert name == name[..|name| - 4] + name[|name| - 4..];
  }

  /** Putting `.png` after any code gives a `.png` entry that trims back to it. */
  lemma AddPngRoundTrip(code: string)
    ensures HasSuffix(code + PngSuffix, PngSuffix)
    ensures TrimExtension(code + PngSuffix) == code
  {
    var s := code + PngSuffix;
    assert s[|s| - 4..] == PngSuffix;
    TrimPngExtension(s);
    assert s[..|s| - 4] == code;
  }

  /** One step of discovery: an entry adds `code` exactly when it is `code.png`. */
  lemma EntryYieldsCode(name: string, code: string)
    ensures (HasSuffix(name, PngSuffix) && TrimExtension(name) == code) <==> name == code + PngSuffix
  {
    AddPngRoundTrip(code);
    if HasSuffix(name, PngSuffix) {
      PngNameRoundTrip(name);
    }
  }

  /** A code is discovered exactly when its `.png` file is among the entries. */
  lemma {:induction false} TypeCodesMembership(names: seq<string>, code: string)
    ensures code in TypeCodes(names) <==> code + PngSuffix in names
    decreases |names|
  {
    if names != [] {
      var front := names[..|names| - 1];
      var last := names[|names| - 1];
      TypeCodesMembership(front, code);
      assert names == front + [last];
      EntryYieldsCode(last, code);
    }
  }

  /** Discovery keeps the `.png` entries in directory order: the codes with
      `.png` put back are the entries with the others left out. */
  lemma {:induction false} TypeCodesOrdered(names: seq<string>)
    ensures IsSubsequence(WithPng(TypeCodes(names)), names)
    decreases |names|
  {
    if names == [] {
      EmptySubsequence(names);
    } else {
      var front := names[..|names| - 1];
      var last := names[|names| - 1];
      TypeCodesOrdered(front);
      var keep := HasSuffix(last, PngSuffix);
      var codes := TypeCodes(front);
      assert front + [last] == names;
      if keep {
        var c := TrimExtension(last);
        PngNameRoundTrip(last);
        assert TypeCodes(names) == codes + [c];
        WithPngSnoc(codes, c);
      }
      SubsequenceSnoc(WithPng(codes), front, last, keep, WithPng(TypeCodes(names)), names);
    }
  }

  lemma WithPngSnoc(codes: seq<string>, c: string)
    ensures WithPng(codes + [c]) == WithPng(codes) + [c + PngSuffix]
  {
  }

  /** Distinct entries give distinct codes. */
  lemma {:induction false} TypeCodesDistinct(names: seq<string>)
    requires forall i, j :: 0 <= i < j < |names| ==> names[i] != names[j]
    ensures forall i, j :: 0 <= i < j < |TypeCodes(names)| ==> TypeCodes(names)[i] != TypeCodes(names)[j]
    decreases |names|
  {
    if names != [] {
      var front := names[..|names| - 1];
      var last := names[|names| - 1];
      TypeCodesDistinct(front);
      if HasSuffix(last, PngSuffix) {
        var c := TrimExtension(last);
        PngNameRoundTrip(last);
        TypeCodesMembership(front, c);
        assert last !in front;
      }
    }
  }

  /** A directory holding `eqp.png` and `skl.png` yields the codes `eqp` and
      `skl`, in that order. */
  lemma TwoGlyphDiscovery()
    ensures TypeCodes(["eqp.png", "skl.png"]) == ["eqp", "skl"]
  {
    var names := ["eqp.png", "skl.png"];
    AddPngRoundTrip("eqp");
    AddPngRoundTrip("skl");
    assert names[..1] == ["eqp.png"] && names[..1][..0] == [];
    assert "eqp" + PngSuffix == "eqp.png" && "skl" + PngSuffix == "skl.png";
    assert TypeCodes(names[..1]) == ["eqp"];
  }
}
