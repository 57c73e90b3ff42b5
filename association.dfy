/** The file-association descriptor of `writeAssociationFile` in main.go: its
    output path and its four-line `key=value` text. The file write itself is
    not modelled. */
module Association {
  import opened Catalog

  /** A descriptor file: where it is written and what it contains. */
  datatype Descriptor = Descriptor(path: string, content: string)

  /** `artifacts/file_associations/<platform>/<name>_ext.properties` */
  function DescriptorPath(name: string, platform: string): (p: string)
    ensures |p| == 44 + |platform| + |name|
    ensures p[..29 + |platform|] == "artifacts/file_associations/" + platform + "/"
    ensures p[29 + |platform|..29 + |platform| + |name|] == name
    ensures p[29 + |platform| + |name|..] == "_ext.properties"
  {
    "artifacts/file_associations/" + platform + "/" + name + "_ext.properties"
  }

  /** The icon the descriptor points at: the `<name>_doc` artifact in the
      `<fileType>` output directory. */
  function IconPath(name: string, fileType: string): string
  {
    "artifacts/" + fileType + "/" + name + "_doc." + fileType
  }

  function MimeType(name: string): string
  {
    "application/gcs." + name
  }

  /** One `key=value` line with its terminating newline. */
  function PropertyLine(key: string, value: string): string
  {
    key + "=" + value + "\n"
  }

  // A reader for the descriptor text, the partner of the template above.

  /** Position of the first `c` in `s`, or -1. */
  function IndexOf(s: string, c: char): (i: int)
    ensures -1 <= i < |s|
    ensures i == -1 <==> c !in s
    ensures i >= 0 ==> s[i] == c && c !in s[..i]
  {
    if s == [] then -1
    else if s[0] == c then 0
    else
      var j := IndexOf(s[1..], c);
      if j < 0 then -1
      else
        assert s[..j + 1] == [s[0]] + s[1..][..j];
        j + 1
  }

  /** The lines of `s`, each without its newline; a trailing newline does not
      start an extra empty line. */
  function Lines(s: string): seq<string>
    decreases |s|
  {
    if s == [] then []
    else
      var i := IndexOf(s, '\n');
      if i < 0 then [s] else [s[..i]] + Lines(s[i + 1..])
  }

  /** A line split at its first `=` into key and value. */
  function SplitProperty(line: string): (string, string)
  {
    var i := IndexOf(line, '=');
    if i < 0 then (line, "") else (line[..i], line[i + 1..])
  }

  function ParseLines(lines: seq<string>): (r: seq<(string, string)>)
    ensures |r| == |lines|
  {
    if lines == [] then [] else [SplitProperty(lines[0])] + ParseLines(lines[1..])
  }

  /** The key/value pairs of a properties text, one per line. */
  function ParseProperties(s: string): seq<(string, string)>
  {
    ParseLines(Lines(s))
  }

  lemma IndexOfConcat(a: string, c: char, b: string)
    requires c !in a
    ensures IndexOf(a + [c] + b, c) == |a|
  {
    var s := a + [c] + b;
    assert s[|a|] == c;
    assert s[..|a|] == a;
  }

  /** In a text that starts with `a` and then `c`, the first `c` is right after `a`. */
  lemma IndexOfPrefix(s: string, a: string, c: char)
    requires c !in a && |a| < |s| && s[..|a| + 1] == a + [c]
    ensures IndexOf(s, c) == |a|
  {
    assert s == a + [c] + s[|a| + 1..];
    IndexOfConcat(a, c, s[|a| + 1..]);
  }

  lemma LinesCons(line: string, rest: string)
    requires '\n' !in line
    ensures Lines(line + "\n" + rest) == [line] + Lines(rest)
  {
    var s := line + "\n" + rest;
    IndexOfConcat(line, '\n', rest);
    assert s[..|line|] == line;
    assert s[|line| + 1..] == rest;
  }

  lemma SplitPropertyOf(key: string, value: string)
    requires '=' !in key
    ensures SplitProperty(key + "=" + value) == (key, value)
  {
    var line := key + "=" + value;
    IndexOfConcat(key, '=', value);
    assert line[..|key|] == key;
    assert line[|key| + 1..] == value;
  }

  /** A property line is read back as the line without its newline. */
  lemma LinesOfPropertyLine(key: string, value: string, rest: string)
    requires '\n' !in key && '\n' !in value
    ensures Lines(PropertyLine(key, value) + rest) == [key + "=" + value] + Lines(rest)
  {
    assert PropertyLine(key, value) + rest == (key + "=" + value) + "\n" + rest;
    LinesCons(key + "=" + value, rest);
  }

  lemma MimeTypeSingleLine(name: string)
    requires '\n' !in name
    ensures '\n' !in MimeType(name)
  {
    assert MimeType(name) == "application/gcs." + name;
  }

  lemma IconPathSingleLine(name: string, fileType: string)
    requires '\n' !in name && '\n' !in fileType
    ensures '\n' !in IconPath(name, fileType)
  {
    assert IconPath(name, fileType) == "artifacts/" + fileType + "/" + name + "_doc." + fileType;
  }

  /** A list of properties written one `key=value` line each. */
  function Render(props: seq<(string, string)>): string
  {
    if props == [] then "" else PropertyLine(props[0].0, props[0].1) + Render(props[1..])
  }

  /** Keys and values fit on one line and keys have no `=`. */
  predicate WellFormed(props: seq<(string, string)>)
  {
    forall k :: 0 <= k < |props| ==>
      '\n' !in props[k].0 && '=' !in props[k].0 && '\n' !in props[k].1
  }

  /** Reading rendered properties back gives the same properties. */
  lemma {:induction false} RenderRoundTrip(props: seq<(string, string)>)
    requires WellFormed(props)
    ensures ParseProperties(Render(props)) == props
    decreases |props|
  {
    if props != [] {
      var (key, value) := props[0];
      var rest := Render(props[1..]);
      assert WellFormed(props[1..]) by {
        forall k | 0 <= k < |props[1..]| ensures '\n' !in props[1..][k].0 && '=' !in props[1..][k].0 && '\n' !in props[1..][k].1 {
          assert props[1..][k] == props[k + 1];
        }
      }
      RenderRoundTrip(props[1..]);
      LinesOfPropertyLine(key, value, rest);
      SplitPropertyOf(key, value);
      var lines := Lines(rest);
      assert ([key + "=" + value] + lines)[1..] == lines;
    }
  }

  /** The four properties of a descriptor, in template order. */
  function DescriptorProperties(name: string, fileType: string): seq<(string, string)>
  {
    [("extension", name),
     ("mime-type", MimeType(name)),
     ("icon", IconPath(name, fileType)),
     ("description", Description(name))]
  }

  /** The `Fprintf` template of `writeAssociationFile`: the four properties
      of the descriptor, written one `key=value` line each. */
  function DescriptorContent(name: string, fileType: string): (r: string)
    ensures r == Render(DescriptorProperties(name, fileType))
  {
    var l1, l2 := PropertyLine("extension", name), PropertyLine("mime-type", MimeType(name));
    var l3, l4 := PropertyLine("icon", IconPath(name, fileType)), PropertyLine("description", Description(name));
    var props := DescriptorProperties(name, fileType);
    assert Render(props[3..]) == l4 + "";
    assert Render(props[2..]) == l3 + (l4 + "") by { assert props[2..][1..] == props[3..]; }
    assert Render(props[1..]) == l2 + (l3 + (l4 + "")) by { assert props[1..][1..] == props[2..]; }
    assert Render(props) == l1 + (l2 + (l3 + (l4 + "")));
    l1 + l2 + l3 + l4
  }

  /** The descriptor `writeAssociationFile` writes: at the path for the name
      and platform, with text that reads back as its four properties. */
  function AssociationFile(name: string, platform: string, fileType: string): (d: Descriptor)
    ensures d.path == DescriptorPath(name, platform)
    ensures '\n' !in name && '\n' !in fileType ==>
      ParseProperties(d.content) == DescriptorProperties(name, fileType)
  {
    var d := Descriptor(DescriptorPath(name, platform), DescriptorContent(name, fileType));
    if '\n' !in name && '\n' !in fileType then
      DescriptorContentRoundTrip(name, fileType);
      d
    else
      d
  }

  /** Round trip: reading the descriptor text back gives exactly four
      key/value pairs in template order, the extension, the MIME type, the
      icon path and the catalog description. */
  lemma DescriptorContentRoundTrip(name: string, fileType: string)
    requires '\n' !in name && '\n' !in fileType
    ensures ParseProperties(DescriptorContent(name, fileType)) == [
      ("extension", name),
      ("mime-type", MimeType(name)),
      ("icon", IconPath(name, fileType)),
      ("description", Description(name))]
  {
    DescriptionSingleLine(name);
    MimeTypeSingleLine(name);
    IconPathSingleLine(name, fileType);
    RenderRoundTrip(DescriptorProperties(name, fileType));
  }

  /** The text is newline-terminated. */
  lemma DescriptorContentEndsWithNewline(name: string, fileType: string)
    ensures |DescriptorContent(name, fileType)| > 0
    ensures DescriptorContent(name, fileType)[|DescriptorContent(name, fileType)| - 1] == '\n'
  {
  }

  /** Distinct (name, platform) pairs are written to distinct files, as long
      as the platform directory has no `/` in it. */
  lemma DescriptorPathInjective(name1: string, platform1: string, name2: string, platform2: string)
    requires '/' !in platform1 && '/' !in platform2
    requires DescriptorPath(name1, platform1) == DescriptorPath(name2, platform2)
    ensures name1 == name2 && platform1 == platform2
  {
    var p := DescriptorPath(name1, platform1);
    SlashSeparated(p[28..], platform1, name1, platform2, name2);
  }

  /** Where a text continues as `a/x` and as `b/y`, with no `/` in `a` or `b`,
      and `x`, `y` end at the same place, then `a == b` and `x == y`. */
  lemma SlashSeparated(q: string, a: string, x: string, b: string, y: string)
    requires '/' !in a && '/' !in b
    requires |a| + 1 + |x| <= |q| && |a| + |x| == |b| + |y|
    requires q[..|a| + 1] == a + "/" && q[|a| + 1..|a| + 1 + |x|] == x
    requires q[..|b| + 1] == b + "/" && q[|b| + 1..|b| + 1 + |y|] == y
    ensures a == b && x == y
  {
    IndexOfPrefix(q, a, '/');
    IndexOfPrefix(q, b, '/');
    assert a == q[..|a|];
    assert b == q[..|b|];
  }
}
