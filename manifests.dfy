/**
 * The two documents of the backwards-compatibility tests: a Docker manifest
 * list and a Docker image manifest, each a pretty-printed JSON text. Each
 * test checks the digest of the document, then hands `convertFormats` of it
 * to the validator of the OCI schema.
 *
 * A document is written as its lines. Most lines are short: shorter than
 * any OCI media type, so no OCI media type fits in them. The long ones are
 * `mediaType` fields, whose value is a Docker media type, and `digest`
 * fields, whose value is hexadecimal; neither can hold an OCI media type,
 * and no media type can run across a line break. So no OCI media type
 * occurs in either document, and `convertFormats` as written returns them
 * as they are, Docker media types and all. The intended conversion leaves
 * no Docker media type of the table in them.
 */
module TestManifests {
  import opened Strings
  import opened Rewriting
  import opened BackwardsCompat

  /** One line of a pretty-printed JSON document. */
  datatype Line =
    | Plain(text: String)
    | MediaTypeField(indent: nat, mediaType: String, comma: bool)
    | DigestField(indent: nat, digest: nat, comma: bool)

  function Spaces(n: nat): (r: String)
    ensures |r| == n && forall i | 0 <= i < n :: r[i] == ' '
  {
    seq(n, _ => ' ')
  }

  /** The lower-case hexadecimal digit for `d`. */
  function HexDigit(d: nat): (c: char)
    requires d < 16
    ensures c != '/'
  {
    if d < 10 then ('0' as int + d) as char else ('a' as int + d - 10) as char
  }

  /** The last `width` hexadecimal digits of `n`, most significant first,
      with leading zeros: how a `sha256:` digest prints its 256-bit value
      when `width` is 64. */
  function Hex(n: nat, width: nat): (r: String)
    ensures |r| == width && '/' !in r
    decreases width
  {
    if width == 0 then [] else Hex(n / 16, width - 1) + [HexDigit(n % 16)]
  }

  function Comma(comma: bool): String {
    if comma then "," else ""
  }

  /** The text of one line. */
  function Render(l: Line): String {
    match l
    case Plain(text) => text
    case MediaTypeField(n, t, c) => Spaces(n) + "\"mediaType\": \"" + t + "\"" + Comma(c)
    case DigestField(n, d, c) => Spaces(n) + "\"digest\": \"sha256:" + Hex(d, 64) + "\"" + Comma(c)
  }

  function RenderAll(lines: seq<Line>): (r: seq<String>)
    ensures |r| == |lines| && forall k | 0 <= k < |lines| :: r[k] == Render(lines[k])
  {
    seq(|lines|, k requires 0 <= k < |lines| => Render(lines[k]))
  }

  /** The document: its lines separated by line breaks, with no line break
      after the last one (as in a Go raw string that ends on `}`). */
  function Document(lines: seq<Line>): String {
    Join(RenderAll(lines), "\n")
  }

  // The media types the two documents declare.
  const DockerManifestV1: String := Media("vnd.docker." + "distribution." + "manifest.v1+json")
  const OctetStream: String := Media("octet-stream")
  const FixtureMediaTypes: seq<String> :=
    [DockerManifestList, DockerManifestV1, DockerManifest, OctetStream, DockerLayer]

  /** Every OCI media type of the table is at least this long. */
  const ShortestOci: nat := 41

  // The digests the two documents contain, as numbers.
  const Ppc64leDigest: nat := 0x7820f9a86d4ad15a2c4f0c0e5479298df2aa7c2f6871288e2ef8546f3e7b6783
  const Amd64Digest: nat := 0xae1b0e06e8ade3a11267564a26e750585ba2259c0ecab59ab165ad1af41d1bdd
  const S390xDigest: nat := 0xe4c0df75810b953d6717b8f8f28298d73870e8aa2a0d5e77b8391f16fdfbbbe2
  const ArmV7Digest: nat := 0x07ebe243465ef4a667b78154ae6c3ea46fdb1582936aac3ac899ea311a701b40
  const Arm64V8Digest: nat := 0xfb2fc0707b86dafa9959fe3d29e66af8787aee4d9a23581714be65db4265ad8a
  const ConfigDigest: nat := 0x5359a4f250650c20227055957e353e8f8a74152f35fe36f00b6b1f9fc19c8861
  const Layer1Digest: nat := 0xfae91920dcd4542f97c9350b3157139a5d901362c2abec284de5ebd1b45b4957
  const Layer2Digest: nat := 0xf384f6ab36adad485192f09379c0b58dc612a3cde82c551e082a7c29a87c95da
  const Layer3Digest: nat := 0xed0d2dd5e1a0e5e650a330a864c8a122e9aa91fa6ba9ac6f0bd1882e59df55e7
  const Layer4Digest: nat := 0xec4d00b58417c45f7ddcfde7bcad8c9d62a7d6d5d17cdc1f7d79bcb2e22c1491

  /** The opening of the manifest list, up to the `manifests` array. */
  const ListOpening: seq<Line> := [
    Plain("{"),
    Plain("   \"schemaVersion\": 2,"),
    MediaTypeField(3, DockerManifestList, true),
    Plain("   \"manifests\": [")
  ]

  /** The `ppc64le` entry. */
  const Ppc64leEntry: seq<Line> := [
    Plain("      {"),
    MediaTypeField(9, DockerManifestV1, true),
    Plain("         \"size\": 2094,"),
    DigestField(9, Ppc64leDigest, true),
    Plain("         \"platform\": {"),
    Plain("            \"architecture\": \"ppc64le\","),
    Plain("            \"os\": \"linux\""),
    Plain("         }"),
    Plain("      },")
  ]

  /** The `amd64` entry, with its `sse` feature. */
  const Amd64Entry: seq<Line> := [
    Plain("      {"),
    MediaTypeField(9, DockerManifestV1, true),
    Plain("         \"size\": 1922,"),
    DigestField(9, Amd64Digest, true),
    Plain("         \"platform\": {"),
    Plain("            \"architecture\": \"amd64\","),
    Plain("            \"os\": \"linux\","),
    Plain("            \"features\": ["),
    Plain("               \"sse\""),
    Plain("            ]"),
    Plain("         }"),
    Plain("      },")
  ]

  /** The `s390x` entry. */
  const S390xEntry: seq<Line> := [
    Plain("      {"),
    MediaTypeField(9, DockerManifestV1, true),
    Plain("         \"size\": 2084,"),
    DigestField(9, S390xDigest, true),
    Plain("         \"platform\": {"),
    Plain("            \"architecture\": \"s390x\","),
    Plain("            \"os\": \"linux\""),
    Plain("         }"),
    Plain("      },")
  ]

  /** The `arm` entry, variant `armv7`. */
  const ArmV7Entry: seq<Line> := [
    Plain("      {"),
    MediaTypeField(9, DockerManifestV1, true),
    Plain("         \"size\": 2084,"),
    DigestField(9, ArmV7Digest, true),
    Plain("         \"platform\": {"),
    Plain("            \"architecture\": \"arm\","),
    Plain("            \"os\": \"linux\","),
    Plain("            \"variant\": \"armv7\""),
    Plain("         }"),
    Plain("      },")
  ]

  /** The `arm64` entry, variant `armv8`: the last one, without a comma. */
  const Arm64V8Entry: seq<Line> := [
    Plain("      {"),
    MediaTypeField(9, DockerManifestV1, true),
    Plain("         \"size\": 2090,"),
    DigestField(9, Arm64V8Digest, true),
    Plain("         \"platform\": {"),
    Plain("            \"architecture\": \"arm64\","),
    Plain("            \"os\": \"linux\","),
    Plain("            \"variant\": \"armv8\""),
    Plain("         }"),
    Plain("      }")
  ]

  /** The end of the `manifests` array and of the document. */
  const ListClosing: seq<Line> := [
    Plain("   ]"),
    Plain("}")
  ]

  /** The opening of the image manifest: its media type, its `config`, and the start of `layers`. */
  const ManifestOpening: seq<Line> := [
    Plain("{"),
    Plain("   \"schemaVersion\": 2,"),
    MediaTypeField(3, DockerManifest, true),
    Plain("   \"config\": {"),
    MediaTypeField(6, OctetStream, true),
    Plain("      \"size\": 3210,"),
    DigestField(6, ConfigDigest, false),
    Plain("   },"),
    Plain("   \"layers\": [")
  ]

  /** The first layer. */
  const Layer1Entry: seq<Line> := [
    Plain("      {"),
    MediaTypeField(9, DockerLayer, true),
    Plain("         \"size\": 2310272,"),
    DigestField(9, Layer1Digest, false),
    Plain("      },")
  ]

  /** The second layer. */
  const Layer2Entry: seq<Line> := [
    Plain("      {"),
    MediaTypeField(9, DockerLayer, true),
    Plain("         \"size\": 913022,"),
    DigestField(9, Layer2Digest, false),
    Plain("      },")
  ]

  /** The third layer. */
  const Layer3Entry: seq<Line> := [
    Plain("      {"),
    MediaTypeField(9, DockerLayer, true),
    Plain("         \"size\": 9861668,"),
    DigestField(9, Layer3Digest, false),
    Plain("      },")
  ]

  /** The fourth layer: the last one, without a comma. */
  const Layer4Entry: seq<Line> := [
    Plain("      {"),
    MediaTypeField(9, DockerLayer, true),
    Plain("         \"size\": 465,"),
    DigestField(9, Layer4Digest, false),
    Plain("      }")
  ]

  /** The end of the `layers` array and of the document. */
  const ManifestClosing: seq<Line> := [
    Plain("   ]"),
    Plain("}")
  ]

  /** The lines of the manifest list of `TestBackwardsCompatibilityManifestList`. */
  const ManifestListLines: seq<Line> :=
    ListOpening + Ppc64leEntry + Amd64Entry + S390xEntry + ArmV7Entry + Arm64V8Entry + ListClosing

  /** The lines of the image manifest of `TestBackwardsCompatibilityManifest`. */
  const ManifestLines: seq<Line> :=
    ManifestOpening + Layer1Entry + Layer2Entry + Layer3Entry + Layer4Entry + ManifestClosing

  /** The manifest list as one text. */
  const ManifestListText: String := Document(ManifestListLines)

  /** The image manifest as one text. */
  const ManifestText: String := Document(ManifestLines)

  // ---------------------------------------------------------------------
  // Why no OCI media type occurs in the documents

  /** A line that cannot hold an OCI media type of the table: a line shorter
      than all of them, a `mediaType` field holding one of the media types
      the documents declare, or a `digest` field. */
  predicate Admissible(l: Line) {
    match l
    case Plain(text) => |text| < ShortestOci
    case MediaTypeField(_, t, _) => t in FixtureMediaTypes
    case DigestField(_, _, _) => true
  }

  predicate AllAdmissible(lines: seq<Line>) {
    forall k | 0 <= k < |lines| :: Admissible(lines[k])
  }

  /** The OCI media types are long, and none spans a line break. */
  lemma OciTokensLong()
    ensures forall e | e in CompatTable :: |e.oci| >= ShortestOci && '\n' !in e.oci
  {
    MediaOneLine("vnd.oci." + "image." + "manifest.list.v1+json");
    MediaOneLine("vnd.oci." + "image." + "manifest.v1+json");
    MediaOneLine("vnd.oci." + "image." + "rootfs.tar.gzip");
    MediaOneLine("vnd.oci." + "image." + "serialization." + "config.v1+json");
  }

  lemma {:induction false} MediaOneLine(subtype: String)
    requires '\n' !in subtype
    ensures '\n' !in Media(subtype)
  {
  }

  /** The media types the documents declare have the shape of a media type
      and lack the `o` of `vnd.oci` where every OCI media type has it. */
  lemma FixtureMediaTypesOk()
    ensures forall t | t in FixtureMediaTypes :: Shaped(t) && |t| > 16 && t[16] != 'o'
  {
    DockerTokenFacts();
    MediaShaped("vnd.docker." + "distribution." + "manifest.v1+json");
    MediaShaped("octet-stream");
  }

  /** Nothing shorter than `w` holds it. */
  lemma {:induction false} ShortFree(s: String, w: String)
    requires |s| < |w|
    ensures !Contains(s, w)
  {
    ContainsIff(s, w);
  }

  /** Text without a `/` holds no media type. */
  lemma {:induction false} SlashFree(s: String, w: String)
    requires Shaped(w) && '/' !in s
    ensures !Contains(s, w)
  {
    ContainsIff(s, w);
    assert w[11] == MediaPrefix[11] == '/';
    forall q | 0 <= q <= |s|
      ensures !(w <= s[q..])
    {
      if q + 11 < |s| {
        assert s[q..][11] == s[q + 11];
      }
    }
  }

  /** A media type `w` clashing with `t` does not occur in `p + t + x` when
      neither `p` nor `x` holds a `/`: the `/` of `w` would have to be the
      one of `t`, and `w` would then start where `t` starts. */
  lemma {:induction false} FieldFree(p: String, t: String, x: String, w: String)
    requires Shaped(t) && Shaped(w) && Clash(w, t)
    requires '/' !in p && '/' !in x
    ensures !Contains(p + t + x, w)
  {
    var s := p + t + x;
    ContainsIff(s, w);
    assert w[11] == MediaPrefix[11] == '/';
    assert '/' !in MediaPrefix[..11];
    forall q | 0 <= q <= |s|
      ensures !(w <= s[q..])
    {
      var j := q + 11;
      if j < |s| {
        assert s[q..][11] == s[j];
        if j < |p| {
          assert s[j] == p[j];
        } else if j >= |p| + |t| {
          assert s[j] == x[j - |p| - |t|];
        } else if j - |p| < 11 {
          assert s[j] == t[j - |p|] == MediaPrefix[..11][j - |p|];
        } else if j - |p| > 11 {
          assert s[j] == t[j - |p|] == t[|MediaPrefix|..][j - |p| - 12];
        } else {
          assert s[q..] == t + x;
          ClashBlocks(w, t, x);
        }
      }
    }
  }

  /** An occurrence of `w` in two texts joined by a line break lies in one
      of them when `w` itself holds no line break. */
  lemma {:induction false} BreakFree(a: String, b: String, w: String)
    requires !Contains(a, w) && !Contains(b, w) && '\n' !in w
    ensures !Contains(a + "\n" + b, w)
  {
    var s := a + "\n" + b;
    ContainsIff(a, w);
    ContainsIff(b, w);
    ContainsIff(s, w);
    forall q | 0 <= q <= |s|
      ensures !(w <= s[q..])
    {
      if q + |w| <= |s| {
        if q + |w| <= |a| {
          assert s[q..q + |w|] == a[q..q + |w|];
          assert !(w <= a[q..]);
        } else if q > |a| {
          assert s[q..] == b[q - |a| - 1..];
        } else {
          assert s[q..][|a| - q] == s[|a|] == '\n';
          assert w[|a| - q] != '\n';
        }
      }
    }
  }

  /** No line holds `w`, so the document does not. */
  lemma {:induction false} JoinFree(parts: seq<String>, w: String)
    requires w != [] && '\n' !in w
    requires forall k | 0 <= k < |parts| :: !Contains(parts[k], w)
    ensures !Contains(Join(parts, "\n"), w)
    decreases |parts|
  {
    if parts == [] {
      ShortFree([], w);
    } else if |parts| > 1 {
      JoinFree(parts[1..], w);
      BreakFree(parts[0], Join(parts[1..], "\n"), w);
    }
  }

  /** An admissible line holds no OCI media type of the table. */
  lemma {:induction false} LineFree(l: Line, e: Entry)
    requires Admissible(l) && e in CompatTable
    ensures !Contains(Render(l), e.oci)
  {
    match l
    case Plain(text) =>
      OciTokensLong();
      ShortFree(text, e.oci);
    case MediaTypeField(n, t, c) =>
      MediaTypeFieldFree(n, t, c, e);
    case DigestField(n, d, c) =>
      DigestFieldFree(n, d, c, e);
  }

  /** A `mediaType` field holding a media type of the documents holds no
      OCI media type of the table. */
  lemma {:induction false} MediaTypeFieldFree(n: nat, t: String, c: bool, e: Entry)
    requires t in FixtureMediaTypes && e in CompatTable
    ensures !Contains(Render(MediaTypeField(n, t, c)), e.oci)
  {
    TokenFacts();
    FixtureMediaTypesOk();
    FieldLineFree(n, t, c, e.oci);
  }

  /** A `mediaType` field holds no media type `w` that differs from its
      value at index 16. */
  lemma {:induction false} FieldLineFree(n: nat, t: String, c: bool, w: String)
    requires Shaped(t) && Shaped(w) && |t| > 16 && |w| > 16 && t[16] != w[16]
    ensures !Contains(Render(MediaTypeField(n, t, c)), w)
  {
    ClashAt(w, t, 16);
    var p, x := Spaces(n) + "\"mediaType\": \"", "\"" + Comma(c);
    assert '/' !in p by {
      assert '/' !in Spaces(n);
      assert '/' !in "\"mediaType\": \"";
    }
    assert '/' !in x;
    assert Render(MediaTypeField(n, t, c)) == p + t + x;
    FieldFree(p, t, x, w);
  }

  /** A `digest` field holds no `/`, so no media type. */
  lemma {:induction false} DigestFieldFree(n: nat, d: nat, c: bool, e: Entry)
    requires e in CompatTable
    ensures !Contains(Render(DigestField(n, d, c)), e.oci)
  {
    TokenFacts();
    DigestLineSlashFree(n, d, c);
    SlashFree(Render(DigestField(n, d, c)), e.oci);
  }

  /** A `digest` line has no `/`. */
  lemma {:induction false} DigestLineSlashFree(n: nat, d: nat, c: bool)
    ensures '/' !in Render(DigestField(n, d, c))
  {
    var key := "\"digest\": \"sha256:";
    assert '/' !in Spaces(n) && '/' !in key && '/' !in Hex(d, 64);
    assert '/' !in "\"" + Comma(c);
    AppendAssoc(Spaces(n) + key + Hex(d, 64), "\"", Comma(c));
  }

  /** A document made of admissible lines holds no OCI media type of the
      table. */
  lemma {:induction false} DocumentFree(lines: seq<Line>, e: Entry)
    requires AllAdmissible(lines) && e in CompatTable
    ensures !Contains(Document(lines), e.oci)
  {
    OciTokensLong();
    var parts := RenderAll(lines);
    forall k | 0 <= k < |parts|
      ensures !Contains(parts[k], e.oci)
    {
      LineFree(lines[k], e);
    }
    JoinFree(parts, e.oci);
  }

  /** `convertFormats` returns a document made of admissible lines as it
      is. */
  lemma {:induction false} DocumentUnchanged(lines: seq<Line>)
    requires AllAdmissible(lines)
    ensures OnePass(Document(lines), CompatRules) == Document(lines)
  {
    forall e | e in CompatTable
      ensures !Contains(Document(lines), e.oci)
    {
      DocumentFree(lines, e);
    }
    CompatIdentity(Document(lines));
  }

  lemma ManifestListAdmissible()
    ensures AllAdmissible(ManifestListLines)
  {
    assert AllAdmissible(ListOpening);
    assert AllAdmissible(Ppc64leEntry);
    assert AllAdmissible(Amd64Entry);
    assert AllAdmissible(S390xEntry);
    assert AllAdmissible(ArmV7Entry);
    assert AllAdmissible(Arm64V8Entry);
    assert AllAdmissible(ListClosing);
  }

  lemma ManifestAdmissible()
    ensures AllAdmissible(ManifestLines)
  {
    assert AllAdmissible(ManifestOpening);
    assert AllAdmissible(Layer1Entry);
    assert AllAdmissible(Layer2Entry);
    assert AllAdmissible(Layer3Entry);
    assert AllAdmissible(Layer4Entry);
    assert AllAdmissible(ManifestClosing);
  }

  /** The manifest list comes back from `convertFormats` unchanged. */
  lemma ManifestListUnchanged()
    ensures OnePass(ManifestListText, CompatRules) == ManifestListText
  {
    ManifestListAdmissible();
    DocumentUnchanged(ManifestListLines);
  }

  /** The image manifest comes back from `convertFormats` unchanged. */
  lemma ManifestUnchanged()
    ensures OnePass(ManifestText, CompatRules) == ManifestText
  {
    ManifestAdmissible();
    DocumentUnchanged(ManifestLines);
  }

  /** A `mediaType` line holds its media type. */
  lemma {:induction false} MediaTypeLineHolds(n: nat, t: String, c: bool)
    ensures Contains(Render(MediaTypeField(n, t, c)), t)
  {
    var a := Spaces(n) + "\"mediaType\": \"";
    ContainsMiddle(a, t, "\"" + Comma(c));
    AppendAssoc(a + t, "\"", Comma(c));
  }

  /** A document holds the media type of each of its `mediaType` lines. */
  lemma {:induction false} DocumentHolds(lines: seq<Line>, i: nat, n: nat, t: String, c: bool)
    requires i < |lines| && lines[i] == MediaTypeField(n, t, c)
    ensures Contains(Document(lines), t)
  {
    JoinContains(RenderAll(lines), "\n", i);
    MediaTypeLineHolds(n, t, c);
    ContainsTrans(Document(lines), Render(lines[i]), t);
  }

  /** Element `i` of a concatenation, when it falls in the first part. */
  lemma {:induction false} InFront(a: seq<Line>, b: seq<Line>, i: nat)
    requires i < |a|
    ensures (a + b)[i] == a[i]
  {
  }

  /** The manifest list declares the Docker manifest-list media type, on
      its third line. */
  lemma ManifestListDeclaresDocker()
    ensures Contains(ManifestListText, DockerManifestList)
  {
    var l := MediaTypeField(3, DockerManifestList, true);
    assert ListOpening[2] == l;
    InFront(ListOpening, Ppc64leEntry, 2);
    InFront(ListOpening + Ppc64leEntry, Amd64Entry, 2);
    InFront(ListOpening + Ppc64leEntry + Amd64Entry, S390xEntry, 2);
    InFront(ListOpening + Ppc64leEntry + Amd64Entry + S390xEntry, ArmV7Entry, 2);
    InFront(ListOpening + Ppc64leEntry + Amd64Entry + S390xEntry + ArmV7Entry, Arm64V8Entry, 2);
    InFront(ListOpening + Ppc64leEntry + Amd64Entry + S390xEntry + ArmV7Entry + Arm64V8Entry, ListClosing, 2);
    DocumentHolds(ManifestListLines, 2, 3, DockerManifestList, true);
  }

  /** The image manifest declares the Docker manifest media type, on its
      third line. */
  lemma ManifestDeclaresDocker()
    ensures Contains(ManifestText, DockerManifest)
  {
    var l := MediaTypeField(3, DockerManifest, true);
    assert ManifestOpening[2] == l;
    InFront(ManifestOpening, Layer1Entry, 2);
    InFront(ManifestOpening + Layer1Entry, Layer2Entry, 2);
    InFront(ManifestOpening + Layer1Entry + Layer2Entry, Layer3Entry, 2);
    InFront(ManifestOpening + Layer1Entry + Layer2Entry + Layer3Entry, Layer4Entry, 2);
    InFront(ManifestOpening + Layer1Entry + Layer2Entry + Layer3Entry + Layer4Entry, ManifestClosing, 2);
    DocumentHolds(ManifestLines, 2, 3, DockerManifest, true);
  }

  /** `convertFormats` as written leaves the manifest list a Docker
      document: it still declares the Docker manifest-list media type. */
  lemma ManifestListStaysDocker()
    ensures OnePass(ManifestListText, CompatRules) == ManifestListText
    ensures Contains(OnePass(ManifestListText, CompatRules), DockerManifestList)
  {
    ManifestListUnchanged();
    ManifestListDeclaresDocker();
  }

  /** `convertFormats` as written leaves the image manifest a Docker
      document: it still declares the Docker manifest media type. */
  lemma ManifestStaysDocker()
    ensures OnePass(ManifestText, CompatRules) == ManifestText
    ensures Contains(OnePass(ManifestText, CompatRules), DockerManifest)
  {
    ManifestUnchanged();
    ManifestDeclaresDocker();
  }

  /** The intended conversion does change the manifest list: no Docker
      media type of the table is left in it. */
  lemma ManifestListConverted()
    ensures forall e | e in CompatTable :: !Contains(OnePass(ManifestListText, IntendedRules), e.docker)
    ensures OnePass(ManifestListText, IntendedRules) != ManifestListText
  {
    IntendedRemovesAll(ManifestListText);
    ManifestListStaysDocker();
    assert CompatTable[0].docker == DockerManifestList;
  }

  /** The intended conversion does change the image manifest: no Docker
      media type of the table is left in it. */
  lemma ManifestConverted()
    ensures forall e | e in CompatTable :: !Contains(OnePass(ManifestText, IntendedRules), e.docker)
    ensures OnePass(ManifestText, IntendedRules) != ManifestText
  {
    IntendedRemovesAll(ManifestText);
    ManifestStaysDocker();
    assert CompatTable[1].docker == DockerManifest;
  }
}
