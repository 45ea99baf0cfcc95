/**
 * Page-name suggestions (`JSONSearch.getSuggestions`): the fragment is split at
 * its first '/' into a page part and an attachment part, two lower-cased
 * prefixes are built from it, and the known page names are filtered, in their
 * iteration order, by "the lower-cased name starts with either prefix", keeping
 * at most the requested number.
 */
module Suggestions {
  import opened Wrappers
  import opened Sequences
  import opened Wiki

  /** Java's `String.indexOf(c)`: the first position of `c` in `s`, or -1. */
  function IndexOf(s: string, c: char): (r: int)
    ensures -1 <= r < |s|
    ensures r == -1 <==> c !in s
    ensures r >= 0 ==> s[r] == c && c !in s[..r]
  {
    if |s| == 0 then -1
    else if s[0] == c then 0
    else
      var i := IndexOf(s[1..], c);
      assert i >= 0 ==> s[..i + 1] == [s[0]] + s[1..][..i];
      if i == -1 then -1 else i + 1
  }

  /**
   * The fragment split into the page part and the attachment part; the
   * attachment part starts at the first '/' and keeps it.
   */
  function SplitAttachment(w: string): (r: (string, string))
    ensures r.0 + r.1 == w
    ensures '/' !in r.0
    ensures r.1 == [] || r.1[0] == '/'
  {
    var pos := IndexOf(w, '/');
    if pos >= 0 then (w[..pos], w[pos..]) else (w, [])
  }

  /** The three properties of `SplitAttachment` determine the split uniquely. */
  lemma SplitAttachmentUnique(w: string, page: string, file: string)
    requires page + file == w && '/' !in page && (file == [] || file[0] == '/')
    ensures SplitAttachment(w) == (page, file)
  {
    var (p, f) := SplitAttachment(w);
    if |p| < |page| {
      assert false;
    } else if |page| < |p| {
      ConcatIndex(w, p, f, |page|);
      assert false;
    }
    assert p == w[..|p|] == page;
  }

  /** The character at position `i` of `a + b`, inside `a`, is the one `a` holds there. */
  lemma ConcatIndex(w: string, a: string, b: string, i: nat)
    requires a + b == w && i < |a|
    ensures w[i] == a[i] && a[i] in a
  {
  }

  /** The two normalised prefixes a candidate page name is compared against. */
  datatype Prefixes = Prefixes(clean: string, oldStyle: string)

  /**
   * `cleanWikiName` and `oldStyleName`: the page part through `cleanLink` and
   * through `wikifyLink`, each lower-cased, followed by the lower-cased
   * attachment part (nothing when there is none).
   */
  function NormalizedPrefixes(t: TextOps, w: string): (r: Prefixes)
    ensures '/' !in w ==> r == Prefixes(t.toLowerCase(t.cleanLink(w)), t.toLowerCase(t.wikifyLink(w)))
    ensures forall pos :: 0 <= pos < |w| && w[pos] == '/' && '/' !in w[..pos] ==>
              && r.clean == t.toLowerCase(t.cleanLink(w[..pos])) + t.toLowerCase(w[pos..])
              && r.oldStyle == t.toLowerCase(t.wikifyLink(w[..pos])) + t.toLowerCase(w[pos..])
  {
    var (page, file) := SplitAttachment(w);
    var suffix := if file == [] then [] else t.toLowerCase(file);
    Prefixes(t.toLowerCase(t.cleanLink(page)) + suffix, t.toLowerCase(t.wikifyLink(page)) + suffix)
  }

  /** The prefixes as built from the position of the first '/', with `""` as the missing attachment part. */
  lemma PrefixesAtFirstSlash(t: TextOps, w: string, pos: int)
    requires pos == IndexOf(w, '/')
    ensures var page := if pos >= 0 then w[..pos] else w;
            var file := if pos >= 0 then t.toLowerCase(w[pos..]) else "";
            NormalizedPrefixes(t, w) == Prefixes(t.toLowerCase(t.cleanLink(page)) + file, t.toLowerCase(t.wikifyLink(page)) + file)
  {
    if pos < 0 {
      assert t.toLowerCase(t.cleanLink(w)) + "" == t.toLowerCase(t.cleanLink(w));
      assert t.toLowerCase(t.wikifyLink(w)) + "" == t.toLowerCase(t.wikifyLink(w));
    }
  }

  /** The filter applied to each known name: Java's `startsWith` is the sequence-prefix relation. */
  function Matches(t: TextOps, pre: Prefixes, name: string): (b: bool)
  {
    var lower := t.toLowerCase(name);
    StartsWith(lower, pre.clean) || StartsWith(lower, pre.oldStyle)
  }

  /** Every matching name of `names`, in order, without a cap. */
  function MatchingNames(t: TextOps, pre: Prefixes, names: seq<string>): (r: seq<string>)
    ensures |r| <= |names|
    ensures forall k :: 0 <= k < |r| ==> r[k] in names && Matches(t, pre, r[k])
    ensures forall j :: 0 <= j < |names| && Matches(t, pre, names[j]) ==> names[j] in r
    decreases |names|
  {
    if names == [] then []
    else
      var init := names[..|names| - 1];
      var last := names[|names| - 1];
      var r0 := MatchingNames(t, pre, init);
      assert forall x :: x in init ==> x in names;
      assert forall j :: 0 <= j < |names| - 1 ==> names[j] == init[j];
      if Matches(t, pre, last) then r0 + [last] else r0
  }

  /** One more name: it is kept exactly when it matches. */
  lemma MatchingNamesSnoc(t: TextOps, pre: Prefixes, names: seq<string>, x: string)
    ensures MatchingNames(t, pre, names + [x]) == MatchingNames(t, pre, names) + (if Matches(t, pre, x) then [x] else [])
  {
    assert (names + [x])[..|names|] == names;
  }

  /** Filtering distributes over concatenation: a scan can be resumed where it stopped. */
  lemma {:induction false} MatchingNamesAppend(t: TextOps, pre: Prefixes, a: seq<string>, b: seq<string>)
    ensures MatchingNames(t, pre, a + b) == MatchingNames(t, pre, a) + MatchingNames(t, pre, b)
    decreases |b|
  {
    if b == [] {
      assert a + b == a;
    } else {
      var b0 := b[..|b| - 1];
      assert (a + b)[..|a + b| - 1] == a + b0;
      assert (a + b)[|a + b| - 1] == b[|b| - 1];
      MatchingNamesAppend(t, pre, a, b0);
    }
  }

  /** The positions of the matching names. */
  ghost function MatchPositions(t: TextOps, pre: Prefixes, names: seq<string>): (idx: seq<nat>)
    decreases |names|
  {
    if names == [] then []
    else
      var r0 := MatchPositions(t, pre, names[..|names| - 1]);
      if Matches(t, pre, names[|names| - 1]) then r0 + [|names| - 1] else r0
  }

  /** The matching names appear in `names` at increasing positions. */
  lemma {:induction false} MatchingNamesEmbedded(t: TextOps, pre: Prefixes, names: seq<string>)
    ensures Embeds(MatchPositions(t, pre, names), MatchingNames(t, pre, names), names)
    decreases |names|
  {
    if names != [] {
      var init := names[..|names| - 1];
      MatchingNamesEmbedded(t, pre, init);
      var idx0 := MatchPositions(t, pre, init);
      assert forall k :: 0 <= k < |idx0| ==> idx0[k] < |init| && names[idx0[k]] == init[idx0[k]];
    }
  }

  /**
   * The embedding positions are exactly the positions holding a matching
   * name, so a name the list holds twice is kept twice.
   */
  lemma {:induction false} MatchPositionsExact(t: TextOps, pre: Prefixes, names: seq<string>, j: nat)
    requires j < |names|
    ensures j in MatchPositions(t, pre, names) <==> Matches(t, pre, names[j])
    decreases |names|
  {
    var init := names[..|names| - 1];
    MatchingNamesEmbedded(t, pre, init);
    var idx0 := MatchPositions(t, pre, init);
    assert forall k :: 0 <= k < |idx0| ==> idx0[k] < |init|;
    assert |init| !in idx0;
    if j < |init| {
      MatchPositionsExact(t, pre, init, j);
      assert names[j] == init[j];
    }
  }

  /**
   * The suggestions for fragment `w`: nothing for an empty fragment; otherwise
   * the first `max` known names that match, where a failed `findCreated`
   * counts as knowing no names.
   */
  function Suggest(t: TextOps, w: string, known: Result<seq<string>, ProviderError>, max: nat): (r: seq<string>)
    ensures |r| <= max
    ensures |w| == 0 || known.Failure? ==> r == []
    ensures known.Success? ==> forall k :: 0 <= k < |r| ==> r[k] in known.value && Matches(t, NormalizedPrefixes(t, w), r[k])
  {
    if |w| == 0 then []
    else
      var names := if known.Success? then known.value else [];
      var matching := MatchingNames(t, NormalizedPrefixes(t, w), names);
      Take(matching, max)
  }

  /** The suggestions keep the known names' iteration order. */
  lemma SuggestInOrder(t: TextOps, w: string, names: seq<string>, max: nat)
    ensures IsSubsequence(Suggest(t, w, Success(names), max), names)
  {
    var r := Suggest(t, w, Success(names), max);
    if |w| == 0 {
      assert Embeds([], r, names);
    } else {
      var pre := NormalizedPrefixes(t, w);
      var all := MatchingNames(t, pre, names);
      MatchingNamesEmbedded(t, pre, names);
      var idx := MatchPositions(t, pre, names);
      EmbedsPrefix(idx, all, names, |r|);
      assert all[..|r|] == r;
    }
  }

  /**
   * The scan stops exactly at the cap: the suggestions are the first matches
   * of the whole name list, as many as `max` allows, and when fewer than `max`
   * are returned every matching known name is among them.
   */
  lemma SuggestMaximal(t: TextOps, w: string, names: seq<string>, max: nat)
    requires |w| > 0
    ensures var r := Suggest(t, w, Success(names), max);
            var all := MatchingNames(t, NormalizedPrefixes(t, w), names);
            && |r| == (if max < |all| then max else |all|)
            && r == all[..|r|]
            && (|r| < max ==> forall j :: 0 <= j < |names| && Matches(t, NormalizedPrefixes(t, w), names[j]) ==> names[j] in r)
  {
  }
}
