/**
 * The legacy-compatibility adapter of the schema tests: a fixed table that
 * pairs each Docker v2.2 media type with its OCI counterpart, and
 * `convertFormats`, which rewrites a document by running `strings.Replace`
 * once per table entry, in whatever order Go's `range` visits the map.
 *
 * Each step replaces the OCI token of an entry by its Docker token (the code
 * turns OCI text into Docker text, whatever the doc comment above it says).
 *
 * The steps are `Rewriting` rules. The table's rules cannot interfere with
 * one another, so every order of the map gives the text of `OnePass`, the
 * one-scan reference, and with it: no OCI media type survives, text without
 * one comes back unchanged, and a second conversion changes nothing.
 *
 * `ConvertFormatsIntended` is the conversion the doc comment describes
 * (Docker media types become OCI ones); the same properties are proved
 * for it.
 */
module BackwardsCompat {
  import opened Strings
  import opened Rewriting

  /** One entry of the table: the Docker media type (the map key) and the
      OCI media type it stands for (the map value). */
  datatype Entry = Entry(docker: String, oci: String)

  /** Every media type in the table starts with this. */
  const MediaPrefix: String := "application/"

  /** The media type `application/<subtype>`. */
  function Media(subtype: String): (t: String)
    ensures |t| == |MediaPrefix| + |subtype|
    ensures t[..|MediaPrefix|] == MediaPrefix && t[|MediaPrefix|..] == subtype
  {
    MediaPrefix + subtype
  }

  // The eight media types of the table. Each subtype is written as a few
  // short literals joined together; the joined text is exactly the Go string.
  const DockerManifestList: String := Media("vnd.docker." + "distribution." + "manifest.list.v2+json")
  const DockerManifest: String := Media("vnd.docker." + "distribution." + "manifest.v2+json")
  const DockerLayer: String := Media("vnd.docker." + "image.rootfs." + "diff.tar.gzip")
  const DockerConfig: String := Media("vnd.docker." + "container." + "image.v1+json")
  const OciManifestList: String := Media("vnd.oci." + "image." + "manifest.list.v1+json")
  const OciManifest: String := Media("vnd.oci." + "image." + "manifest.v1+json")
  const OciLayer: String := Media("vnd.oci." + "image." + "rootfs.tar.gzip")
  const OciConfig: String := Media("vnd.oci." + "image." + "serialization." + "config.v1+json")

  /** `compatMap`: Docker media type (key) to OCI media type (value). */
  const CompatTable: seq<Entry> := [
    Entry(DockerManifestList, OciManifestList),
    Entry(DockerManifest, OciManifest),
    Entry(DockerLayer, OciLayer),
    Entry(DockerConfig, OciConfig)
  ]

  // ---------------------------------------------------------------------
  // The conversion

  /** The step of `convertFormats` for the entry `k: v`:
      `strings.Replace(out, v, k, -1)` puts the Docker media type where the
      OCI one was. */
  function AsWritten(e: Entry): Rule {
    Rule(e.oci, e.docker)
  }

  /** The step the doc comment describes: the Docker media type becomes the
      OCI one. */
  function Intended(e: Entry): Rule {
    Rule(e.docker, e.oci)
  }

  /** One step per entry, in the order the entries are visited. */
  function Steps(order: seq<Entry>, step: Entry -> Rule): (rules: seq<Rule>)
    ensures |rules| == |order|
    ensures forall i | 0 <= i < |order| :: rules[i] == step(order[i])
  {
    seq(|order|, i requires 0 <= i < |order| => step(order[i]))
  }

  /** The rules of `convertFormats` as written. */
  const CompatRules: seq<Rule> := Steps(CompatTable, AsWritten)

  /** The rules of the conversion the doc comment describes. */
  const IntendedRules: seq<Rule> := Steps(CompatTable, Intended)

  /** `convertFormats`. Go visits the entries of `compatMap` in an
      unspecified order; `order` is that order, any permutation of the
      table. */
  method ConvertFormats(input: String, order: seq<Entry>) returns (out: String)
    requires multiset(order) == multiset(CompatTable)
    ensures out == OnePass(input, CompatRules)
    ensures forall e | e in CompatTable :: !Contains(out, e.oci)
    ensures (forall e | e in CompatTable :: !Contains(input, e.oci)) ==> out == input
  {
    CompatRulesNonOverlapping();
    PermutedSteps(order, AsWritten);
    out := ApplyAll(input, Steps(order, AsWritten));
    SequentialOrderFree(input, Steps(order, AsWritten), CompatRules);
    CompatRemovesAll(input);
    if forall e | e in CompatTable :: !Contains(input, e.oci) {
      CompatIdentity(input);
    }
  }

  /** `convertFormats` with the replacement the other way round, as its doc
      comment describes: Docker media types in, OCI media types out. */
  method ConvertFormatsIntended(input: String, order: seq<Entry>) returns (out: String)
    requires multiset(order) == multiset(CompatTable)
    ensures out == OnePass(input, IntendedRules)
    ensures forall e | e in CompatTable :: !Contains(out, e.docker)
    ensures (forall e | e in CompatTable :: !Contains(input, e.docker)) ==> out == input
  {
    IntendedRulesNonOverlapping();
    PermutedSteps(order, Intended);
    out := ApplyAll(input, Steps(order, Intended));
    SequentialOrderFree(input, Steps(order, Intended), IntendedRules);
    IntendedRemovesAll(input);
    if forall e | e in CompatTable :: !Contains(input, e.docker) {
      IntendedIdentity(input);
    }
  }

  /** A permutation of the table gives the same set of steps. */
  lemma {:induction false} PermutedSteps(order: seq<Entry>, step: Entry -> Rule)
    requires multiset(order) == multiset(CompatTable)
    ensures forall r :: r in Steps(order, step) <==> r in Steps(CompatTable, step)
  {
    var p, q := Steps(order, step), Steps(CompatTable, step);
    forall r | r in p
      ensures r in q
    {
      var i :| 0 <= i < |p| && p[i] == r;
      assert order[i] in multiset(CompatTable);
      var j :| 0 <= j < |CompatTable| && CompatTable[j] == order[i];
      assert q[j] == r;
    }
    forall r | r in q
      ensures r in p
    {
      var j :| 0 <= j < |q| && q[j] == r;
      assert CompatTable[j] in multiset(order);
      var i :| 0 <= i < |order| && order[i] == CompatTable[j];
      assert p[i] == r;
    }
  }

  /** `convertFormats` gives the same text for every order of the map. */
  lemma {:induction false} ConvertOrderFree(s: String, order: seq<Entry>)
    requires multiset(order) == multiset(CompatTable)
    ensures PatternsNonEmpty(Steps(order, AsWritten))
    ensures Sequential(s, Steps(order, AsWritten)) == OnePass(s, CompatRules)
  {
    CompatRulesNonOverlapping();
    PermutedSteps(order, AsWritten);
    SequentialOrderFree(s, Steps(order, AsWritten), CompatRules);
  }

  // ---------------------------------------------------------------------
  // Facts about the four entries of the table

  /** `compatMap` is injective: four distinct keys, four distinct values. */
  lemma CompatTableInjective()
    ensures |CompatTable| == 4
    ensures forall i, j | 0 <= i < j < |CompatTable| ::
      CompatTable[i].docker != CompatTable[j].docker && CompatTable[i].oci != CompatTable[j].oci
  {
  }

  /** `t` is `application/` followed by a subtype without a `/`. */
  predicate Shaped(t: String) {
    |t| > |MediaPrefix| && t[..|MediaPrefix|] == MediaPrefix && '/' !in t[|MediaPrefix|..]
  }

  /** No tail of `t` shorter than `application/` is a prefix of it. */
  predicate ShortTailsOk(t: String) {
    forall k | 0 <= k < |t| && |t| - k < |MediaPrefix| :: !(t[k..] <= MediaPrefix)
  }

  /** Two strings that differ at a position both have clash. */
  lemma {:induction false} ClashAt(a: String, b: String, i: nat)
    requires i < |a| && i < |b| && a[i] != b[i]
    ensures Clash(a, b)
  {
  }

  lemma {:induction false} MediaShaped(subtype: String)
    requires subtype != [] && '/' !in subtype
    ensures Shaped(Media(subtype))
  {
  }

  /** A media type ending in `on` or `ip` whose last eleven characters are
      not `application` has no short tail that could start a media type. */
  lemma {:induction false} EndingRulesOutShortTails(t: String, j: nat)
    requires |t| > |MediaPrefix|
    requires (t[|t| - 2] == 'o' && t[|t| - 1] == 'n') || (t[|t| - 2] == 'i' && t[|t| - 1] == 'p')
    requires j < 11 && t[|t| - 11 + j] != MediaPrefix[j]
    ensures ShortTailsOk(t)
  {
    forall k | 0 <= k < |t| && |t| - k < |MediaPrefix|
      ensures !(t[k..] <= MediaPrefix)
    {
      var n := |t| - k;
      var tail := t[k..];
      if n == 11 {
        assert tail[j] != MediaPrefix[j];
      } else {
        assert tail[n - 1] == t[|t| - 1];
        assert n >= 2 ==> tail[n - 2] == t[|t| - 2];
        assert MediaPrefix[n - 1] != t[|t| - 1] || (n >= 2 && MediaPrefix[n - 2] != t[|t| - 2]);
      }
    }
  }

  /** A media type cannot start strictly inside another one: the `/` after
      `application` never lines up, and the short tails were ruled out. */
  lemma {:induction false} TailClash(t: String, u: String, m: nat)
    requires Shaped(t) && Shaped(u) && ShortTailsOk(t) && 0 < m < |t|
    ensures Clash(t[m..], u)
  {
    var tail := t[m..];
    assert '/' !in MediaPrefix[..11];
    if m < 12 {
      assert tail[11 - m] == t[11] == MediaPrefix[11];
      assert u[11 - m] == MediaPrefix[11 - m] == MediaPrefix[..11][11 - m];
      ClashAt(tail, u, 11 - m);
    } else if |t| - m >= 12 {
      assert tail[11] == t[m + 11] == t[12..][m - 1];
      assert u[11] == MediaPrefix[11];
      ClashAt(tail, u, 11);
    } else {
      var n := |t| - m;
      assert u[..n] == MediaPrefix[..n];
      assert !(tail <= MediaPrefix);
    }
  }

  /** The facts about each of the eight media types that the proofs use. */
  lemma TokenFacts()
    ensures forall e | e in CompatTable ::
      Shaped(e.oci) && Shaped(e.docker) && ShortTailsOk(e.oci) && ShortTailsOk(e.docker)
    ensures forall e | e in CompatTable ::
      |e.docker| > 16 && e.docker[16] == 'd' && |e.oci| > 16 && e.oci[16] == 'o'
  {
    DockerTokenFacts();
    OciTokenFacts();
  }

  lemma DockerManifestListFacts()
    ensures Shaped(DockerManifestList) && ShortTailsOk(DockerManifestList) && |DockerManifestList| > 16 && DockerManifestList[16] == 'd'
  {
    MediaShaped("vnd.docker." + "distribution." + "manifest.list.v2+json");
    EndingRulesOutShortTails(DockerManifestList, 0);
  }

  lemma DockerManifestFacts()
    ensures Shaped(DockerManifest) && ShortTailsOk(DockerManifest) && |DockerManifest| > 16 && DockerManifest[16] == 'd'
  {
    MediaShaped("vnd.docker." + "distribution." + "manifest.v2+json");
    EndingRulesOutShortTails(DockerManifest, 0);
  }

  lemma DockerLayerFacts()
    ensures Shaped(DockerLayer) && ShortTailsOk(DockerLayer) && |DockerLayer| > 16 && DockerLayer[16] == 'd'
  {
    MediaShaped("vnd.docker." + "image.rootfs." + "diff.tar.gzip");
    EndingRulesOutShortTails(DockerLayer, 0);
  }

  lemma DockerConfigFacts()
    ensures Shaped(DockerConfig) && ShortTailsOk(DockerConfig) && |DockerConfig| > 16 && DockerConfig[16] == 'd'
  {
    MediaShaped("vnd.docker." + "container." + "image.v1+json");
    EndingRulesOutShortTails(DockerConfig, 1);
  }

  lemma OciManifestListFacts()
    ensures Shaped(OciManifestList) && ShortTailsOk(OciManifestList) && |OciManifestList| > 16 && OciManifestList[16] == 'o'
  {
    MediaShaped("vnd.oci." + "image." + "manifest.list.v1+json");
    EndingRulesOutShortTails(OciManifestList, 0);
  }

  lemma OciManifestFacts()
    ensures Shaped(OciManifest) && ShortTailsOk(OciManifest) && |OciManifest| > 16 && OciManifest[16] == 'o'
  {
    MediaShaped("vnd.oci." + "image." + "manifest.v1+json");
    EndingRulesOutShortTails(OciManifest, 0);
  }

  lemma OciLayerFacts()
    ensures Shaped(OciLayer) && ShortTailsOk(OciLayer) && |OciLayer| > 16 && OciLayer[16] == 'o'
  {
    MediaShaped("vnd.oci." + "image." + "rootfs.tar.gzip");
    EndingRulesOutShortTails(OciLayer, 0);
  }

  lemma OciConfigFacts()
    ensures Shaped(OciConfig) && ShortTailsOk(OciConfig) && |OciConfig| > 16 && OciConfig[16] == 'o'
  {
    MediaShaped("vnd.oci." + "image." + "serialization." + "config.v1+json");
    EndingRulesOutShortTails(OciConfig, 0);
  }

  lemma DockerTokenFacts()
    ensures Shaped(DockerManifestList) && ShortTailsOk(DockerManifestList) && DockerManifestList[16] == 'd'
    ensures Shaped(DockerManifest) && ShortTailsOk(DockerManifest) && DockerManifest[16] == 'd'
    ensures Shaped(DockerLayer) && ShortTailsOk(DockerLayer) && DockerLayer[16] == 'd'
    ensures Shaped(DockerConfig) && ShortTailsOk(DockerConfig) && DockerConfig[16] == 'd'
  {
    DockerManifestListFacts();
    DockerManifestFacts();
    DockerLayerFacts();
    DockerConfigFacts();
  }

  lemma OciTokenFacts()
    ensures Shaped(OciManifestList) && ShortTailsOk(OciManifestList) && OciManifestList[16] == 'o'
    ensures Shaped(OciManifest) && ShortTailsOk(OciManifest) && OciManifest[16] == 'o'
    ensures Shaped(OciLayer) && ShortTailsOk(OciLayer) && OciLayer[16] == 'o'
    ensures Shaped(OciConfig) && ShortTailsOk(OciConfig) && OciConfig[16] == 'o'
  {
    OciManifestListFacts();
    OciManifestFacts();
    OciLayerFacts();
    OciConfigFacts();
  }

  /** Where the OCI media types first differ from one another. */
  lemma OciManifestListApart()
    ensures Clash(OciManifestList, OciManifest) && Clash(OciManifestList, OciLayer) && Clash(OciManifestList, OciConfig)
  {
    ClashAt(OciManifestList, OciManifest, 35);
    ClashAt(OciManifestList, OciLayer, 26);
    ClashAt(OciManifestList, OciConfig, 26);
  }

  lemma OciManifestApart()
    ensures Clash(OciManifest, OciLayer) && Clash(OciManifest, OciConfig) && Clash(OciLayer, OciConfig)
  {
    ClashAt(OciManifest, OciLayer, 26);
    ClashAt(OciManifest, OciConfig, 26);
    ClashAt(OciLayer, OciConfig, 26);
  }

  /** Where the Docker media types first differ from one another. */
  lemma DockerManifestListApart()
    ensures Clash(DockerManifestList, DockerManifest) && Clash(DockerManifestList, DockerLayer)
    ensures Clash(DockerManifestList, DockerConfig)
  {
    ClashAt(DockerManifestList, DockerManifest, 45);
    ClashAt(DockerManifestList, DockerLayer, 23);
    ClashAt(DockerManifestList, DockerConfig, 23);
  }

  lemma DockerManifestApart()
    ensures Clash(DockerManifest, DockerLayer) && Clash(DockerManifest, DockerConfig) && Clash(DockerLayer, DockerConfig)
  {
    ClashAt(DockerManifest, DockerLayer, 23);
    ClashAt(DockerManifest, DockerConfig, 23);
    ClashAt(DockerLayer, DockerConfig, 23);
  }

  /** A four-rule table whose patterns clash pairwise has them apart
      whichever two rules are taken. */
  lemma {:induction false} FourApart(t: seq<Rule>)
    requires |t| == 4
    requires Clash(t[0].pat, t[1].pat) && Clash(t[0].pat, t[2].pat) && Clash(t[0].pat, t[3].pat)
    requires Clash(t[1].pat, t[2].pat) && Clash(t[1].pat, t[3].pat) && Clash(t[2].pat, t[3].pat)
    ensures forall e, f | e in t && f in t && e != f :: Clash(e.pat, f.pat)
  {
    forall e, f | e in t && f in t && e != f
      ensures Clash(e.pat, f.pat)
    {
      var i :| 0 <= i < 4 && t[i] == e;
      var j :| 0 <= j < 4 && t[j] == f;
      assert i != j;
    }
  }

  /** Both sides of `r` are media types, and they differ at position 16,
      the first letter after `application/vnd.`. */
  predicate MediaRule(r: Rule, cp: char, cr: char) {
    && Shaped(r.pat) && Shaped(r.rep) && ShortTailsOk(r.pat) && ShortTailsOk(r.rep)
    && |r.pat| > 16 && |r.rep| > 16 && r.pat[16] == cp && r.rep[16] == cr
  }

  /** Rules between two families of media types, told apart by one letter,
      whose patterns differ pairwise, cannot interfere. */
  lemma {:induction false} NonOverlappingFromShape(rules: seq<Rule>, cp: char, cr: char)
    requires cp != cr
    requires forall r | r in rules :: MediaRule(r, cp, cr)
    requires forall e, f | e in rules && f in rules && e != f :: Clash(e.pat, f.pat)
    ensures NonOverlapping(rules)
  {
    forall e, f, m | e in rules && f in rules && e != f && 0 <= m < |e.pat|
      ensures Clash(e.pat[m..], f.pat)
    {
      if m == 0 {
        assert e.pat[0..] == e.pat;
      } else {
        TailClash(e.pat, f.pat, m);
      }
    }
    forall e, f, p | e in rules && f in rules && 0 <= p < |e.rep|
      ensures Clash(f.pat, e.rep[p..])
    {
      if p == 0 {
        assert e.rep[0..] == e.rep;
        ClashAt(f.pat, e.rep, 16);
      } else {
        TailClash(e.rep, f.pat, p);
      }
    }
    forall e, f, m | e in rules && f in rules && 0 <= m < |f.pat|
      ensures Clash(f.pat[m..], e.rep)
    {
      if m == 0 {
        assert f.pat[0..] == f.pat;
        ClashAt(f.pat, e.rep, 16);
      } else {
        TailClash(f.pat, e.rep, m);
      }
    }
  }

  /** The rules of `convertFormats`, written out. */
  lemma CompatRulesSpelled()
    ensures CompatRules == [
      Rule(OciManifestList, DockerManifestList), Rule(OciManifest, DockerManifest),
      Rule(OciLayer, DockerLayer), Rule(OciConfig, DockerConfig)]
  {
  }

  /** The rules of the intended conversion, written out. */
  lemma IntendedRulesSpelled()
    ensures IntendedRules == [
      Rule(DockerManifestList, OciManifestList), Rule(DockerManifest, OciManifest),
      Rule(DockerLayer, OciLayer), Rule(DockerConfig, OciConfig)]
  {
  }

  /** Every rule of `convertFormats` turns an OCI media type into a Docker
      one. */
  lemma CompatRulesShaped()
    ensures forall r | r in CompatRules :: MediaRule(r, 'o', 'd')
  {
    CompatRulesSpelled();
    DockerTokenFacts();
    OciTokenFacts();
  }

  /** The patterns of `convertFormats`, the OCI media types, differ pairwise. */
  lemma CompatPatternsApart()
    ensures forall e, f | e in CompatRules && f in CompatRules && e != f :: Clash(e.pat, f.pat)
  {
    CompatRulesSpelled();
    OciManifestListApart();
    OciManifestApart();
    FourApart(CompatRules);
  }

  /** The rules of `convertFormats` meet every condition under which the
      order of the replacements cannot matter. */
  lemma CompatRulesNonOverlapping()
    ensures NonOverlapping(CompatRules)
  {
    CompatRulesShaped();
    CompatPatternsApart();
    NonOverlappingFromShape(CompatRules, 'o', 'd');
  }

  /** Every rule of the intended conversion turns a Docker media type into
      an OCI one. */
  lemma IntendedRulesShaped()
    ensures forall r | r in IntendedRules :: MediaRule(r, 'd', 'o')
  {
    IntendedRulesSpelled();
    DockerTokenFacts();
    OciTokenFacts();
  }

  /** The patterns of the intended conversion, the Docker media types,
      differ pairwise. */
  lemma IntendedPatternsApart()
    ensures forall e, f | e in IntendedRules && f in IntendedRules && e != f :: Clash(e.pat, f.pat)
  {
    IntendedRulesSpelled();
    DockerManifestListApart();
    DockerManifestApart();
    FourApart(IntendedRules);
  }

  /** So do the rules of the intended conversion. */
  lemma IntendedRulesNonOverlapping()
    ensures NonOverlapping(IntendedRules)
  {
    IntendedRulesShaped();
    IntendedPatternsApart();
    NonOverlappingFromShape(IntendedRules, 'd', 'o');
  }

  /** After `convertFormats` no OCI media type of the table is left. */
  lemma {:induction false} CompatRemovesAll(s: String)
    ensures forall e | e in CompatTable :: !Contains(OnePass(s, CompatRules), e.oci)
  {
    CompatRulesNonOverlapping();
    forall e | e in CompatTable
      ensures !Contains(OnePass(s, CompatRules), e.oci)
    {
      var j :| 0 <= j < |CompatTable| && CompatTable[j] == e;
      OnePassRemovesAll(s, CompatRules, CompatRules[j]);
    }
  }

  /** A document without OCI media types comes back from `convertFormats`
      unchanged. */
  lemma {:induction false} CompatIdentity(s: String)
    requires forall e | e in CompatTable :: !Contains(s, e.oci)
    ensures OnePass(s, CompatRules) == s
  {
    CompatRulesNonOverlapping();
    forall r | r in CompatRules
      ensures !Contains(s, r.pat)
    {
      var j :| 0 <= j < |CompatRules| && CompatRules[j] == r;
      assert CompatTable[j] in CompatTable;
    }
    OnePassIdentity(s, CompatRules);
  }

  /** Running `convertFormats` on its own output changes nothing. */
  lemma {:induction false} CompatIdempotent(s: String)
    ensures OnePass(OnePass(s, CompatRules), CompatRules) == OnePass(s, CompatRules)
  {
    CompatRulesNonOverlapping();
    OnePassIdempotent(s, CompatRules);
  }

  /** After the intended conversion no Docker media type of the table is
      left. */
  lemma {:induction false} IntendedRemovesAll(s: String)
    ensures forall e | e in CompatTable :: !Contains(OnePass(s, IntendedRules), e.docker)
  {
    IntendedRulesNonOverlapping();
    forall e | e in CompatTable
      ensures !Contains(OnePass(s, IntendedRules), e.docker)
    {
      var j :| 0 <= j < |CompatTable| && CompatTable[j] == e;
      OnePassRemovesAll(s, IntendedRules, IntendedRules[j]);
    }
  }

  /** A document without Docker media types comes back from the intended
      conversion unchanged. */
  lemma {:induction false} IntendedIdentity(s: String)
    requires forall e | e in CompatTable :: !Contains(s, e.docker)
    ensures OnePass(s, IntendedRules) == s
  {
    IntendedRulesNonOverlapping();
    forall r | r in IntendedRules
      ensures !Contains(s, r.pat)
    {
      var j :| 0 <= j < |IntendedRules| && IntendedRules[j] == r;
      assert CompatTable[j] in CompatTable;
    }
    OnePassIdentity(s, IntendedRules);
  }
}
