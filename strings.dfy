/**
 * The one library routine the compatibility adapter relies on: Go's
 * `strings.Replace(s, old, new, -1)`, which replaces every non-overlapping
 * occurrence of `old`, found scanning left to right, by `new`.
 *
 * `ReplaceAll` follows the scan character by character. `IndexOf`, `Split`
 * and `Join` give an independent reference for it (cut the text at the
 * leftmost occurrences, then glue the pieces back together with the
 * replacement), and the lemmas below connect the two.
 */
module Strings {

  type String = seq<char>

  datatype Option<T> = None | Some(value: T)

  /** Neither of `a` and `b` is a prefix of the other: they disagree at some
      position that both of them have. */
  predicate Clash(a: String, b: String) {
    !(a <= b) && !(b <= a)
  }

  /** `pat` occurs somewhere in `s`. */
  predicate Contains(s: String, pat: String)
    decreases |s|
  {
    pat <= s || (s != [] && Contains(s[1..], pat))
  }

  /** Go's `strings.Replace(s, pat, rep, -1)` for a non-empty `pat`. */
  function ReplaceAll(s: String, pat: String, rep: String): (r: String)
    requires pat != []
    ensures !Contains(s, pat) ==> r == s
    decreases |s|
  {
    if pat <= s then rep + ReplaceAll(s[|pat|..], pat, rep)
    else if s == [] then []
    else [s[0]] + ReplaceAll(s[1..], pat, rep)
  }

  /** Go's `strings.Index`: the position of the leftmost occurrence. */
  function IndexOf(s: String, pat: String): (r: Option<nat>)
    requires pat != []
    ensures r.Some? ==> r.value + |pat| <= |s|
    decreases |s|
  {
    if pat <= s then Some(0)
    else if s == [] then None
    else
      match IndexOf(s[1..], pat)
      case None => None
      case Some(p) => Some(p + 1)
  }

  /** What `IndexOf` finds is an occurrence. */
  lemma {:induction false} IndexOfFound(s: String, pat: String)
    requires pat != []
    ensures IndexOf(s, pat).Some? ==> pat <= s[IndexOf(s, pat).value..]
    decreases |s|
  {
    if !(pat <= s) && s != [] {
      IndexOfFound(s[1..], pat);
      match IndexOf(s[1..], pat)
      case None =>
      case Some(p) =>
        assert s[p + 1..] == s[1..][p..];
    }
  }

  /** `IndexOf` finds nothing exactly when there is nothing to find. */
  lemma {:induction false} IndexOfNone(s: String, pat: String)
    requires pat != []
    ensures IndexOf(s, pat).None? <==> !Contains(s, pat)
    decreases |s|
  {
    if !(pat <= s) && s != [] {
      IndexOfNone(s[1..], pat);
    }
  }

  /** `IndexOf` finds the leftmost occurrence: none starts earlier. */
  lemma {:induction false} IndexOfLeftmost(s: String, pat: String)
    requires pat != []
    ensures IndexOf(s, pat).Some? ==> forall q | 0 <= q < IndexOf(s, pat).value :: !(pat <= s[q..])
    decreases |s|
  {
    if !(pat <= s) && s != [] {
      IndexOfLeftmost(s[1..], pat);
      match IndexOf(s[1..], pat)
      case None =>
      case Some(p) =>
        assert s[0..] == s;
        forall q | 1 <= q < p + 1
          ensures !(pat <= s[q..])
        {
          assert s[q..] == s[1..][q - 1..];
        }
    }
  }

  /** The pieces of `s` between the leftmost non-overlapping occurrences
      of `sep` (Go's `strings.Split`). */
  function Split(s: String, sep: String): (parts: seq<String>)
    requires sep != []
    ensures |parts| > 0
    decreases |s|
  {
    match IndexOf(s, sep)
    case None => [s]
    case Some(p) => [s[..p]] + Split(s[p + |sep|..], sep)
  }

  /** The pieces glued together with `sep` between neighbours (Go's
      `strings.Join`). */
  function Join(parts: seq<String>, sep: String): String
  {
    if parts == [] then []
    else if |parts| == 1 then parts[0]
    else parts[0] + sep + Join(parts[1..], sep)
  }

  /** `Contains` says that there is a position where `pat` starts. */
  lemma {:induction false} ContainsIff(s: String, pat: String)
    ensures Contains(s, pat) <==> exists q :: 0 <= q <= |s| && pat <= s[q..]
    decreases |s|
  {
    assert s[0..] == s;
    if s != [] {
      ContainsIff(s[1..], pat);
      if Contains(s, pat) && !(pat <= s) {
        var q :| 0 <= q <= |s[1..]| && pat <= s[1..][q..];
        assert s[1..][q..] == s[q + 1..];
      }
      if exists q :: 0 <= q <= |s| && pat <= s[q..] {
        var q :| 0 <= q <= |s| && pat <= s[q..];
        if q > 0 {
          assert s[1..][q - 1..] == s[q..];
        }
      }
    }
  }

  /** `b` occurs in `a + b + c`. */
  lemma {:induction false} ContainsMiddle(a: String, b: String, c: String)
    ensures Contains(a + b + c, b)
  {
    var x := a + b + c;
    assert x[|a|..][..|b|] == b;
    ContainsIff(x, b);
  }

  /** Dropping the same number of characters keeps a prefix a prefix. */
  lemma {:induction false} PrefixDrop(b: String, x: String, q: nat)
    requires b <= x && q <= |b|
    ensures b[q..] <= x[q..]
  {
    forall k | 0 <= k < |b| - q
      ensures b[q..][k] == x[q..][k]
    {
      assert b[q + k] == x[q + k];
    }
  }

  /** What occurs inside an occurrence occurs in the whole. */
  lemma {:induction false} ContainsTrans(a: String, b: String, c: String)
    requires Contains(a, b) && Contains(b, c)
    ensures Contains(a, c)
  {
    ContainsIff(a, b);
    ContainsIff(b, c);
    var p :| 0 <= p <= |a| && b <= a[p..];
    var q :| 0 <= q <= |b| && c <= b[q..];
    PrefixDrop(b, a[p..], q);
    assert a[p..][q..] == a[p + q..];
    ContainsIff(a, c);
  }

  /** A string that clashes with `a` is not a prefix of anything that
      starts with `a`. */
  lemma {:induction false} ClashBlocks(v: String, a: String, b: String)
    requires Clash(v, a)
    ensures !(v <= a + b)
  {
    if |v| <= |a| {
      assert (a + b)[..|v|] == a[..|v|];
    } else {
      assert v[..|a|] != a;
    }
  }

  /** Concatenation is associative. */
  lemma {:induction false} AppendAssoc(x: String, y: String, z: String)
    ensures x + (y + z) == (x + y) + z
  {
  }

  /** When `pat` does not start `c + s`, the scan copies `c` and goes on. */
  lemma {:induction false} ReplaceStep(c: char, s: String, pat: String, rep: String)
    requires pat != [] && !(pat <= [c] + s)
    ensures ReplaceAll([c] + s, pat, rep) == [c] + ReplaceAll(s, pat, rep)
  {
    var x := [c] + s;
    assert x != [] && x[0] == c && x[1..] == s;
  }

  /** When `pat` starts nowhere inside `a` (whatever follows it), the scan
      copies `a` unchanged and goes on with the rest. */
  lemma {:induction false} ReplaceSkip(a: String, t: String, pat: String, rep: String)
    requires pat != []
    requires forall q | 0 <= q < |a| :: !(pat <= (a + t)[q..])
    ensures ReplaceAll(a + t, pat, rep) == a + ReplaceAll(t, pat, rep)
    decreases |a|
  {
    if a == [] {
      assert a + t == t;
    } else {
      NoStartTail(a, t, pat);
      ReplaceSkip(a[1..], t, pat, rep);
      ReplaceStep(a[0], a[1..] + t, pat, rep);
      AppendAssoc([a[0]], a[1..], ReplaceAll(t, pat, rep));
      assert a == [a[0]] + a[1..];
    }
  }

  /** What `ReplaceSkip` needs to go one character further. */
  lemma {:induction false} NoStartTail(a: String, t: String, pat: String)
    requires a != []
    requires forall q | 0 <= q < |a| :: !(pat <= (a + t)[q..])
    ensures a + t == [a[0]] + (a[1..] + t) && !(pat <= [a[0]] + (a[1..] + t))
    ensures forall q | 0 <= q < |a[1..]| :: !(pat <= (a[1..] + t)[q..])
  {
    var x, rest := a + t, a[1..] + t;
    assert x == [a[0]] + rest;
    assert x[0..] == x;
    forall q | 0 <= q < |a[1..]|
      ensures !(pat <= rest[q..])
    {
      assert rest[q..] == x[q + 1..];
    }
  }

  /** The occurrence that `IndexOf` finds cuts `s` into three parts. */
  lemma {:induction false} CutAt(s: String, sep: String, p: nat)
    requires sep != [] && IndexOf(s, sep) == Some(p)
    ensures p + |sep| <= |s| && s == s[..p] + (sep + s[p + |sep|..])
  {
    IndexOfFound(s, sep);
    var tail := s[p..];
    assert tail == sep + tail[|sep|..];
    assert tail[|sep|..] == s[p + |sep|..];
    assert s == s[..p] + tail;
  }

  /** One cut of `Split`: the piece before the leftmost occurrence, then
      the pieces of what follows it. */
  lemma {:induction false} SplitStep(s: String, sep: String, p: nat)
    requires sep != [] && IndexOf(s, sep) == Some(p)
    ensures p + |sep| <= |s|
    ensures Split(s, sep) == [s[..p]] + Split(s[p + |sep|..], sep)
  {
  }

  /** Joining a piece in front of a non-empty list of pieces. */
  lemma {:induction false} JoinCons(a: String, parts: seq<String>, sep: String)
    requires parts != []
    ensures Join([a] + parts, sep) == a + (sep + Join(parts, sep))
  {
    assert ([a] + parts)[1..] == parts;
  }

  /** Every piece occurs in the pieces joined. */
  lemma {:induction false} JoinContains(parts: seq<String>, sep: String, i: nat)
    requires i < |parts|
    ensures Contains(Join(parts, sep), parts[i])
    decreases |parts|
  {
    if |parts| == 1 {
      ContainsMiddle([], parts[0], []);
      assert [] + parts[0] + [] == parts[0];
    } else {
      var rest := Join(parts[1..], sep);
      assert Join(parts, sep) == parts[0] + sep + rest;
      if i == 0 {
        ContainsMiddle([], parts[0], sep + rest);
        assert [] + parts[0] + (sep + rest) == parts[0] + sep + rest;
      } else {
        JoinContains(parts[1..], sep, i - 1);
        ContainsMiddle(parts[0] + sep, rest, []);
        assert parts[0] + sep + rest + [] == parts[0] + sep + rest;
        ContainsTrans(Join(parts, sep), rest, parts[i]);
      }
    }
  }

  /** Cutting at the leftmost occurrences and gluing back with `sep` gives
      the text back: nothing outside the occurrences is lost or moved. */
  lemma {:induction false} SplitJoin(s: String, sep: String)
    requires sep != []
    ensures Join(Split(s, sep), sep) == s
    decreases |s|
  {
    match IndexOf(s, sep)
    case None =>
    case Some(p) =>
      var rest := s[p + |sep|..];
      SplitStep(s, sep, p);
      CutAt(s, sep, p);
      SplitJoin(rest, sep);
      JoinCons(s[..p], Split(rest, sep), sep);
  }

  /** The first `p + |pat| - 1` characters of `s` hold no occurrence of
      `pat` when none starts before `p`. */
  lemma {:induction false} NoEarlyOccurrence(s: String, pat: String, p: nat)
    requires pat != [] && p + |pat| <= |s|
    requires forall q | 0 <= q < p :: !(pat <= s[q..])
    ensures !Contains(s[..p + |pat| - 1], pat)
  {
    var x := s[..p + |pat| - 1];
    ContainsIff(x, pat);
    forall q | 0 <= q <= |x|
      ensures !(pat <= x[q..])
    {
      if q < p {
        assert x[q..] <= s[q..];
      }
    }
  }

  /** The first piece of `Split` keeps `sep` out even with all but the last
      character of the following `sep` put back. */
  lemma {:induction false} FirstPieceLeftmost(s: String, sep: String, p: nat)
    requires sep != [] && IndexOf(s, sep) == Some(p)
    ensures !Contains(s[..p] + sep[..|sep| - 1], sep)
  {
    IndexOfFound(s, sep);
    IndexOfLeftmost(s, sep);
    NoEarlyOccurrence(s, sep, p);
    assert s[p..p + |sep|] == sep;
    assert s[..p] + sep[..|sep| - 1] == s[..p + |sep| - 1];
  }

  /** The leftmost-cut property of a list of pieces survives putting a
      good piece in front. */
  lemma {:induction false} LeftmostCons(a: String, parts: seq<String>, sep: String)
    requires sep != [] && parts != []
    requires !Contains(a + sep[..|sep| - 1], sep)
    requires forall i | 0 <= i < |parts| - 1 :: !Contains(parts[i] + sep[..|sep| - 1], sep)
    ensures var all := [a] + parts;
      forall i | 0 <= i < |all| - 1 :: !Contains(all[i] + sep[..|sep| - 1], sep)
  {
    var all := [a] + parts;
    forall i | 0 <= i < |all| - 1
      ensures !Contains(all[i] + sep[..|sep| - 1], sep)
    {
      if i > 0 {
        assert all[i] == parts[i - 1];
      }
    }
  }

  /** Every piece of `Split` is free of `sep`, and none but the last even
      lets an occurrence start inside it when the following `sep` is put
      back: the occurrences used are the leftmost ones. */
  lemma {:induction false} SplitLeftmost(s: String, sep: String)
    requires sep != []
    ensures var parts := Split(s, sep);
      && (forall i | 0 <= i < |parts| - 1 :: !Contains(parts[i] + sep[..|sep| - 1], sep))
      && !Contains(parts[|parts| - 1], sep)
    decreases |s|
  {
    match IndexOf(s, sep)
    case None =>
      IndexOfNone(s, sep);
    case Some(p) =>
      var rest := s[p + |sep|..];
      SplitStep(s, sep, p);
      SplitLeftmost(rest, sep);
      FirstPieceLeftmost(s, sep, p);
      LeftmostCons(s[..p], Split(rest, sep), sep);
      var parts := Split(s, sep);
      assert parts[|parts| - 1] == Split(rest, sep)[|Split(rest, sep)| - 1];
  }

  /** An occurrence at the front is replaced and the scan goes on after it. */
  lemma {:induction false} ReplaceFront(pat: String, t: String, rep: String)
    requires pat != []
    ensures ReplaceAll(pat + t, pat, rep) == rep + ReplaceAll(t, pat, rep)
  {
    assert (pat + t)[|pat|..] == t;
  }

  /** The scan of `ReplaceAll` agrees with the reference: split at the
      leftmost occurrences, join with the replacement. */
  lemma {:induction false} ReplaceAllIsSplitJoin(s: String, pat: String, rep: String)
    requires pat != []
    ensures ReplaceAll(s, pat, rep) == Join(Split(s, pat), rep)
    decreases |s|
  {
    match IndexOf(s, pat)
    case None =>
      IndexOfNone(s, pat);
    case Some(p) =>
      var head, rest := s[..p], s[p + |pat|..];
      SplitStep(s, pat, p);
      CutAt(s, pat, p);
      IndexOfLeftmost(s, pat);
      ReplaceSkip(head, pat + rest, pat, rep);
      ReplaceFront(pat, rest, rep);
      ReplaceAllIsSplitJoin(rest, pat, rep);
      JoinCons(head, Split(rest, pat), rep);
  }

}
