/**
 * A table of rewrite rules applied one `strings.Replace` at a time, and the
 * single left-to-right scan that serves as its reference.
 *
 * `Sequential` is the loop: one `ReplaceAll` per rule, in the order given.
 * `OnePass` rewrites every pattern of the table in one scan; it depends only
 * on the set of rules. When the rules cannot interfere with one another
 * (`NonOverlapping`), the loop computes the scan in every order, the scan
 * leaves no pattern behind, leaves pattern-free text alone and is
 * idempotent.
 */
module Rewriting {
  import opened Strings

  /** One `strings.Replace(out, pat, rep, -1)` step. */
  datatype Rule = Rule(pat: String, rep: String)

  // ---------------------------------------------------------------------
  // When rewriting steps cannot interfere with each other

  /** Every pattern is non-empty, so `strings.Replace` with it makes
      progress. */
  predicate PatternsNonEmpty(table: seq<Rule>) {
    forall e | e in table :: e.pat != []
  }

  /** No pattern can begin at, or anywhere inside, a different pattern. */
  predicate PatternsApart(table: seq<Rule>) {
    forall e, f, m | e in table && f in table && e != f && 0 <= m < |e.pat| ::
      Clash(e.pat[m..], f.pat)
  }

  /** No pattern can begin anywhere inside a replacement, whatever
      follows the replacement. */
  predicate ReplacementsInert(table: seq<Rule>) {
    forall e, f, p | e in table && f in table && 0 <= p < |e.rep| ::
      Clash(f.pat, e.rep[p..])
  }

  /** No pattern can begin before a replacement and run into it. */
  predicate NoStraddle(table: seq<Rule>) {
    forall e, f, m | e in table && f in table && 0 <= m < |f.pat| ::
      Clash(f.pat[m..], e.rep)
  }

  /** The rules are pairwise non-overlapping, in the sense
      that no replacement can create or hide an occurrence of any pattern. */
  predicate NonOverlapping(table: seq<Rule>) {
    PatternsNonEmpty(table) && PatternsApart(table) && ReplacementsInert(table) && NoStraddle(table)
  }

  // ---------------------------------------------------------------------
  // The loop and its reference

  /** The loop: one `strings.Replace(out, r.pat, r.rep, -1)` per rule, in
      the order given. */
  function Sequential(s: String, order: seq<Rule>): String
    requires PatternsNonEmpty(order)
    decreases |order|
  {
    if order == [] then s
    else Sequential(ReplaceAll(s, order[0].pat, order[0].rep), order[1..])
  }

  /** The first rule (in table order) whose pattern starts `s`. */
  function Match(s: String, table: seq<Rule>): (r: Option<Rule>)
    ensures r.Some? ==> r.value in table && r.value.pat <= s
    ensures r.None? ==> forall e | e in table :: !(e.pat <= s)
    decreases |table|
  {
    if table == [] then None
    else if table[0].pat <= s then Some(table[0])
    else Match(s, table[1..])
  }

  /** The reference: one left-to-right scan that replaces each pattern
      it meets by the replacement of its rule. */
  function OnePass(s: String, table: seq<Rule>): String
    requires PatternsNonEmpty(table)
    decreases |s|
  {
    if s == [] then []
    else
      match Match(s, table)
      case Some(e) => e.rep + OnePass(s[|e.pat|..], table)
      case None => [s[0]] + OnePass(s[1..], table)
  }

  /** The loop itself: `out` goes through one `strings.Replace` per rule,
      in the order given. */
  method ApplyAll(input: String, order: seq<Rule>) returns (out: String)
    requires PatternsNonEmpty(order)
    ensures out == Sequential(input, order)
  {
    out := input;
    for i := 0 to |order|
      invariant out == Sequential(input, order[..i])
    {
      SequentialSnoc(input, order[..i], order[i]);
      assert order[..i + 1] == order[..i] + [order[i]];
      out := ReplaceAll(out, order[i].pat, order[i].rep);
    }
    assert order[..|order|] == order;
  }

  // ---------------------------------------------------------------------
  // Lemmas about the loop and the scan

  /** Running the loop one rule further is one more `strings.Replace`. */
  lemma {:induction false} SequentialSnoc(s: String, order: seq<Rule>, e: Rule)
    requires PatternsNonEmpty(order) && e.pat != []
    ensures Sequential(s, order + [e]) == ReplaceAll(Sequential(s, order), e.pat, e.rep)
    decreases |order|
  {
    if order == [] {
      assert [] + [e] == [e];
      assert [e][1..] == [];
    } else {
      assert (order + [e])[1..] == order[1..] + [e];
      SequentialSnoc(ReplaceAll(s, order[0].pat, order[0].rep), order[1..], e);
    }
  }

  /** In a table whose patterns are apart, the rule found does not depend
      on how the table is ordered. */
  lemma {:induction false} MatchOrderFree(s: String, p: seq<Rule>, q: seq<Rule>)
    requires forall e :: e in p <==> e in q
    requires PatternsNonEmpty(p) && PatternsApart(p)
    ensures Match(s, p) == Match(s, q)
  {
    match Match(s, p)
    case None =>
    case Some(e) =>
      assert Match(s, q).Some?;
      var f := Match(s, q).value;
      PrefixesAgree(e.pat, f.pat, s);
      assert e.pat[0..] == e.pat;
      assert e == f;
  }

  /** Two prefixes of one text: the shorter is a prefix of the longer. */
  lemma {:induction false} PrefixesAgree(a: String, b: String, s: String)
    requires a <= s && b <= s
    ensures !Clash(a, b)
  {
    if |a| <= |b| {
      assert b[..|a|] == s[..|a|] == a;
    } else {
      assert a[..|b|] == s[..|b|] == b;
    }
  }

  /** The rule found for `s` is found for any text that starts with its
      pattern too. */
  lemma {:induction false} MatchSamePrefix(s: String, t: String, table: seq<Rule>, e: Rule)
    requires PatternsApart(table)
    requires Match(s, table) == Some(e) && e.pat <= t
    ensures Match(t, table) == Some(e)
    decreases |table|
  {
    if !(table[0].pat <= s) {
      assert e in table[1..];
      if table[0].pat <= t {
        assert table[0].pat[0..] == table[0].pat;
        assert table[0] == e;
      } else {
        MatchSamePrefix(s, t, table[1..], e);
      }
    }
  }

  /** The scan depends only on the set of rules, not on their order. */
  lemma {:induction false} OnePassOrderFree(s: String, p: seq<Rule>, q: seq<Rule>)
    requires forall e :: e in p <==> e in q
    requires PatternsNonEmpty(p) && PatternsApart(p)
    ensures OnePass(s, p) == OnePass(s, q)
    decreases |s|
  {
    if s != [] {
      MatchOrderFree(s, p, q);
      match Match(s, p)
      case Some(e) => OnePassOrderFree(s[|e.pat|..], p, q);
      case None => OnePassOrderFree(s[1..], p, q);
    }
  }

  /** When no pattern starts `[c] + s`, the scan copies `c` and goes on. */
  lemma {:induction false} OnePassStep(c: char, s: String, table: seq<Rule>)
    requires PatternsNonEmpty(table)
    requires forall e | e in table :: !(e.pat <= [c] + s)
    ensures OnePass([c] + s, table) == [c] + OnePass(s, table)
  {
    var x := [c] + s;
    assert x != [] && x[0] == c && x[1..] == s;
    if Match(x, table).Some? {
      assert false;
    }
  }

  /** What `OnePassVerbatim` needs to go one character further. */
  lemma {:induction false} VerbatimTail(a: String, b: String, table: seq<Rule>)
    requires a != []
    requires forall e, q | e in table && 0 <= q < |a| :: Clash(e.pat, a[q..])
    ensures a + b == [a[0]] + (a[1..] + b)
    ensures forall e | e in table :: !(e.pat <= [a[0]] + (a[1..] + b))
    ensures forall e, q | e in table && 0 <= q < |a[1..]| :: Clash(e.pat, a[1..][q..])
  {
    assert a + b == [a[0]] + (a[1..] + b);
    forall e | e in table
      ensures !(e.pat <= a + b)
    {
      assert a[0..] == a;
      ClashBlocks(e.pat, a[0..], b);
    }
    forall e, q | e in table && 0 <= q < |a[1..]|
      ensures Clash(e.pat, a[1..][q..])
    {
      assert a[1..][q..] == a[q + 1..];
    }
  }

  /** A prefix in which no pattern can start is copied verbatim. */
  lemma {:induction false} OnePassVerbatim(a: String, b: String, table: seq<Rule>)
    requires PatternsNonEmpty(table)
    requires forall e, q | e in table && 0 <= q < |a| :: Clash(e.pat, a[q..])
    ensures OnePass(a + b, table) == a + OnePass(b, table)
    decreases |a|
  {
    if a == [] {
      assert a + b == b;
    } else {
      VerbatimTail(a, b, table);
      OnePassVerbatim(a[1..], b, table);
      OnePassStep(a[0], a[1..] + b, table);
      AppendAssoc([a[0]], a[1..], OnePass(b, table));
      assert a == [a[0]] + a[1..];
    }
  }


  /** `w` starts `[c] + r` exactly when it starts with `c` and the rest of
      it starts `r`. */
  lemma {:induction false} PrefixCons(c: char, w: String, r: String)
    requires w != []
    ensures (w <= [c] + r) <==> (w[0] == c && w[1..] <= r)
  {
    var x := [c] + r;
    assert x[0] == c && x[1..] == r;
    if w[0] == c && w[1..] <= r {
      assert w == [c] + w[1..];
    }
  }

  /** A replacement never makes `w` a prefix of the text when no tail of `w`
      lines up with the inserted replacement. */
  lemma {:induction false} ReplaceCreatesNoPrefix(w: String, s: String, pat: String, rep: String)
    requires pat != [] && w != []
    requires forall j | 0 <= j < |w| :: Clash(w[j..], rep)
    requires !(w <= s)
    ensures !(w <= ReplaceAll(s, pat, rep))
    decreases |s|
  {
    if pat <= s {
      assert w[0..] == w;
      ClashBlocks(w, rep, ReplaceAll(s[|pat|..], pat, rep));
    } else if s != [] {
      var r := ReplaceAll(s[1..], pat, rep);
      ReplaceStep(s[0], s[1..], pat, rep);
      assert s == [s[0]] + s[1..];
      PrefixCons(s[0], w, r);
      PrefixCons(s[0], w, s[1..]);
      if |w| > 1 && w[0] == s[0] {
        forall j | 0 <= j < |w[1..]|
          ensures Clash(w[1..][j..], rep)
        {
          assert w[1..][j..] == w[j + 1..];
        }
        ReplaceCreatesNoPrefix(w[1..], s[1..], pat, rep);
      }
    }
  }

  /** `ReplaceThenOnePass` where the replaced pattern starts the text. */
  lemma {:induction false} ReplaceThenOnePassHit(s: String, e: Rule, rest: seq<Rule>)
    requires NonOverlapping([e] + rest) && e.pat <= s
    requires OnePass(ReplaceAll(s[|e.pat|..], e.pat, e.rep), rest) == OnePass(s[|e.pat|..], [e] + rest)
    ensures OnePass(ReplaceAll(s, e.pat, e.rep), rest) == OnePass(s, [e] + rest)
  {
    var table := [e] + rest;
    assert e in table;
    assert forall f | f in rest :: f in table;
    var tail := ReplaceAll(s[|e.pat|..], e.pat, e.rep);
    assert ReplaceAll(s, e.pat, e.rep) == e.rep + tail;
    OnePassVerbatim(e.rep, tail, rest);
    forall f | f in rest
      ensures !Contains(e.rep, f.pat)
    {
      NeverStarts(e.rep, f.pat);
    }
    OnePassIdentity(e.rep, rest);
    assert Match(s, table) == Some(e);
  }

  /** `strings.Replace` copies a prefix `w` of the text in which its
      pattern can start nowhere. */
  lemma {:induction false} ReplaceSkipPrefix(s: String, w: String, pat: String, rep: String)
    requires pat != [] && w <= s
    requires forall m | 0 <= m < |w| :: Clash(w[m..], pat)
    ensures ReplaceAll(s, pat, rep) == w + ReplaceAll(s[|w|..], pat, rep)
  {
    var after := s[|w|..];
    assert s == w + after;
    forall q | 0 <= q < |w|
      ensures !(pat <= (w + after)[q..])
    {
      assert (w + after)[q..] == w[q..] + after;
      ClashBlocks(pat, w[q..], after);
    }
    ReplaceSkip(w, after, pat, rep);
  }

  /** `ReplaceThenOnePass` where another rule's pattern starts the text. */
  lemma {:induction false} ReplaceThenOnePassOther(s: String, e: Rule, rest: seq<Rule>, f: Rule)
    requires NonOverlapping([e] + rest) && !(e.pat <= s) && Match(s, rest) == Some(f)
    requires OnePass(ReplaceAll(s[|f.pat|..], e.pat, e.rep), rest) == OnePass(s[|f.pat|..], [e] + rest)
    ensures OnePass(ReplaceAll(s, e.pat, e.rep), rest) == OnePass(s, [e] + rest)
  {
    var table := [e] + rest;
    assert e in table && f in table && f != e;
    assert forall g | g in rest :: g in table;
    ReplaceSkipPrefix(s, f.pat, e.pat, e.rep);
    var r, tail := ReplaceAll(s, e.pat, e.rep), ReplaceAll(s[|f.pat|..], e.pat, e.rep);
    assert f.pat <= r && r[|f.pat|..] == tail;
    MatchSamePrefix(s, r, rest, f);
    assert Match(s, table) == Some(f);
  }

  /** `ReplaceThenOnePass` where no pattern starts the text. */
  lemma {:induction false} ReplaceThenOnePassMiss(s: String, e: Rule, rest: seq<Rule>)
    requires NonOverlapping([e] + rest) && s != [] && !(e.pat <= s) && Match(s, rest) == None
    requires OnePass(ReplaceAll(s[1..], e.pat, e.rep), rest) == OnePass(s[1..], [e] + rest)
    ensures OnePass(ReplaceAll(s, e.pat, e.rep), rest) == OnePass(s, [e] + rest)
  {
    var table := [e] + rest;
    assert e in table;
    assert forall g | g in rest :: g in table;
    var r, tail := ReplaceAll(s, e.pat, e.rep), ReplaceAll(s[1..], e.pat, e.rep);
    assert r == [s[0]] + tail;
    forall f | f in rest
      ensures !(f.pat <= r)
    {
      ReplaceCreatesNoPrefix(f.pat, s, e.pat, e.rep);
    }
    assert Match(r, rest) == None;
    assert r[1..] == tail;
    assert Match(s, table) == None;
  }

  /** One step of the loop followed by a scan for the remaining rules is
      a scan for all of them. */
  lemma {:induction false} ReplaceThenOnePass(s: String, e: Rule, rest: seq<Rule>)
    requires NonOverlapping([e] + rest)
    ensures OnePass(ReplaceAll(s, e.pat, e.rep), rest) == OnePass(s, [e] + rest)
    decreases |s|
  {
    if e.pat <= s {
      ReplaceThenOnePass(s[|e.pat|..], e, rest);
      ReplaceThenOnePassHit(s, e, rest);
    } else if s != [] {
      match Match(s, rest)
      case Some(f) =>
        assert f in [e] + rest;
        ReplaceThenOnePass(s[|f.pat|..], e, rest);
        ReplaceThenOnePassOther(s, e, rest, f);
      case None =>
        ReplaceThenOnePass(s[1..], e, rest);
        ReplaceThenOnePassMiss(s, e, rest);
    }
  }

  /** The loop, run in any order, computes the one-pass rewrite. */
  lemma {:induction false} SequentialIsOnePass(s: String, order: seq<Rule>)
    requires NonOverlapping(order)
    ensures Sequential(s, order) == OnePass(s, order)
    decreases |order|
  {
    if order == [] {
      OnePassIdentity(s, order);
    } else {
      var e, rest := order[0], order[1..];
      assert order == [e] + rest;
      assert forall f | f in rest :: f in order;
      SequentialIsOnePass(ReplaceAll(s, e.pat, e.rep), rest);
      ReplaceThenOnePass(s, e, rest);
    }
  }

  /** If `w` can start nowhere inside `a`, it does not occur in `a`. */
  lemma {:induction false} NeverStarts(a: String, w: String)
    requires forall q | 0 <= q < |a| :: Clash(w, a[q..])
    requires w != []
    ensures !Contains(a, w)
  {
    ContainsIff(a, w);
    forall q | 0 <= q <= |a|
      ensures !(w <= a[q..])
    {
      if q == |a| {
      } else {
        assert a[q..] == a[q..] + [];
        ClashBlocks(w, a[q..], []);
      }
    }
  }

  /** Text in which no pattern occurs comes back from the scan unchanged. */
  lemma {:induction false} OnePassIdentity(s: String, table: seq<Rule>)
    requires PatternsNonEmpty(table)
    requires forall e | e in table :: !Contains(s, e.pat)
    ensures OnePass(s, table) == s
    decreases |s|
  {
    if s != [] {
      assert Match(s, table) == None;
      OnePassIdentity(s[1..], table);
      assert s == [s[0]] + s[1..];
    }
  }

  /** The scan never makes `w` a prefix of its output when no tail of `w`
      lines up with any replacement. */
  lemma {:induction false} OnePassCreatesNoPrefix(w: String, s: String, table: seq<Rule>)
    requires PatternsNonEmpty(table) && w != []
    requires forall j, g | 0 <= j < |w| && g in table :: Clash(w[j..], g.rep)
    requires !(w <= s)
    ensures !(w <= OnePass(s, table))
    decreases |s|
  {
    if s != [] {
      match Match(s, table)
      case Some(g) =>
        assert w[0..] == w;
        ClashBlocks(w, g.rep, OnePass(s[|g.pat|..], table));
      case None =>
        if |w| > 1 && w[0] == s[0] {
          assert w == [w[0]] + w[1..];
          assert s == [s[0]] + s[1..];
          forall j, g | 0 <= j < |w[1..]| && g in table
            ensures Clash(w[1..][j..], g.rep)
          {
            assert w[1..][j..] == w[j + 1..];
          }
          OnePassCreatesNoPrefix(w[1..], s[1..], table);
        }
    }
  }

  /** No pattern of the table occurs in the output of the scan. */
  lemma {:induction false} OnePassRemovesAll(s: String, table: seq<Rule>, f: Rule)
    requires NonOverlapping(table) && f in table
    ensures !Contains(OnePass(s, table), f.pat)
    decreases |s|
  {
    if s != [] {
      match Match(s, table)
      case Some(g) =>
        var tail := OnePass(s[|g.pat|..], table);
        OnePassRemovesAll(s[|g.pat|..], table, f);
        ContainsSkip(g.rep, tail, f.pat);
      case None =>
        var tail := OnePass(s[1..], table);
        OnePassRemovesAll(s[1..], table, f);
        OnePassCreatesNoPrefix(f.pat, s, table);
        assert OnePass(s, table) == [s[0]] + tail;
        assert ([s[0]] + tail)[1..] == tail;
    }
  }

  /** An occurrence of `w` in `a + b` lies in `b` when `w` can start nowhere
      inside `a`. */
  lemma {:induction false} ContainsSkip(a: String, b: String, w: String)
    requires forall q | 0 <= q < |a| :: Clash(w, a[q..])
    ensures Contains(a + b, w) ==> Contains(b, w)
    decreases |a|
  {
    if a == [] {
      assert a + b == b;
    } else {
      ClashBlocks(w, a[0..], b);
      assert a[0..] == a;
      assert (a + b)[1..] == a[1..] + b;
      forall q | 0 <= q < |a[1..]|
        ensures Clash(w, a[1..][q..])
      {
        assert a[1..][q..] == a[q + 1..];
      }
      ContainsSkip(a[1..], b, w);
    }
  }

  /** Converting a second time changes nothing. */
  lemma {:induction false} OnePassIdempotent(s: String, table: seq<Rule>)
    requires NonOverlapping(table)
    ensures OnePass(OnePass(s, table), table) == OnePass(s, table)
  {
    forall f | f in table
      ensures !Contains(OnePass(s, table), f.pat)
    {
      OnePassRemovesAll(s, table, f);
    }
    OnePassIdentity(OnePass(s, table), table);
  }

  /** One `strings.Replace` step leaves no occurrence of the pattern it
      replaces, provided pattern and replacement cannot overlap. */
  lemma {:induction false} ReplaceAllRemoves(s: String, pat: String, rep: String)
    requires NonOverlapping([Rule(pat, rep)])
    ensures !Contains(ReplaceAll(s, pat, rep), pat)
  {
    var e := Rule(pat, rep);
    assert [e] + [] == [e];
    ReplaceThenOnePass(s, e, []);
    OnePassIdentity(ReplaceAll(s, pat, rep), []);
    OnePassRemovesAll(s, [e], e);
  }

  /** The loop gives the same text for every permutation of a table whose
      rules cannot interfere. */
  lemma {:induction false} SequentialOrderFree(s: String, order: seq<Rule>, table: seq<Rule>)
    requires forall r :: r in order <==> r in table
    requires NonOverlapping(table)
    ensures Sequential(s, order) == OnePass(s, table)
  {
    SequentialIsOnePass(s, order);
    OnePassOrderFree(s, order, table);
  }
}
