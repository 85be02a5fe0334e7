/** Locating an extracted value among the words of a document page. */
module EvidenceSpan {
  import opened Wrappers

  const MAX_SPAN_WORDS: nat := 24
  const MATCH_THRESHOLD: real := 88.0

  /** A word box; `token` is its text after evidence normalisation. */
  datatype WordBox = WordBox(page: int, x: real, y: real, width: real, height: real, token: string)

  datatype Region = Region(page: int, left: real, top: real, right: real, bottom: real)

  function Abs(a: real): real { if a < 0.0 then -a else a }

  function Max(a: real, b: real): real { if a < b then b else a }

  function Min(a: real, b: real): real { if b < a then b else a }

  function Center(w: WordBox): real { w.y + w.height / 2.0 }

  predicate SameLine(first: WordBox, current: WordBox) {
    current.page == first.page && Abs(Center(current) - Center(first)) <= Max(first.height, current.height) * 1.5
  }

  /** At most 24 consecutive words, all on the page and the line of the first. */
  predicate Run(words: seq<WordBox>, start: int, length: int) {
    && 0 <= start && 1 <= length <= 24 && start + length <= |words|
    && forall k :: start < k < start + length ==> SameLine(words[start], words[k])
  }

  function Concatenation(words: seq<WordBox>, start: nat, length: nat): string
    requires start + length <= |words|
  {
    if length == 0 then "" else Concatenation(words, start, length - 1) + words[start + length - 1].token
  }

  predicate Spells(words: seq<WordBox>, needle: string, start: int, length: int) {
    Run(words, start, length) && Concatenation(words, start, length) == needle
  }

  lemma {:induction false} ConcatenationExtends(words: seq<WordBox>, start: nat, short: nat, long: nat)
    requires short <= long && start + long <= |words|
    ensures Concatenation(words, start, short) <= Concatenation(words, start, long)
  {
    if short < long { ConcatenationExtends(words, start, short, long - 1); }
  }

  /** Once the concatenation is as long as the needle without being it, no longer run spells the needle. */
  lemma BreakIsSafe(words: seq<WordBox>, needle: string, start: nat, length: nat, longer: nat)
    requires start + length <= |words| && length < longer
    requires |Concatenation(words, start, length)| >= |needle| && Concatenation(words, start, length) != needle
    ensures !Spells(words, needle, start, longer)
  {
    if start + longer <= |words| { ConcatenationExtends(words, start, length, longer); }
  }

  /** The shortest run from `start` that spells the needle, if any run from there does. */
  method SearchFrom(words: seq<WordBox>, needle: string, start: nat) returns (length: Option<nat>)
    requires needle != "" && start < |words|
    ensures length.None? ==> forall l :: !Spells(words, needle, start, l)
    ensures length.Some? ==> Spells(words, needle, start, length.value)
    ensures length.Some? ==> forall l :: l < length.value ==> !Spells(words, needle, start, l)
  {
    var combined := "";
    var last := if start + MAX_SPAN_WORDS < |words| then start + MAX_SPAN_WORDS else |words|;
    var first := words[start];
    for i := start to last
      invariant combined == Concatenation(words, start, i - start) && (i == start || Run(words, start, i - start))
      invariant forall l :: l <= i - start ==> !Spells(words, needle, start, l)
    {
      var current := words[i];
      if current.page != first.page {
        return None;
      }
      if i > start && Abs(Center(current) - Center(first)) > Max(first.height, current.height) * 1.5 {
        return None;
      }
      combined := combined + current.token;
      assert Run(words, start, i + 1 - start);
      if combined == needle {
        return Some(i + 1 - start);
      }
      if |combined| >= |needle| {
        forall l | l > i + 1 - start ensures !Spells(words, needle, start, l) {
          BreakIsSafe(words, needle, start, i + 1 - start, l);
        }
        return None;
      }
    }
    return None;
  }

  predicate Covers(r: Region, w: WordBox) {
    r.left <= w.x && w.x + w.width <= r.right && r.top <= w.y && w.y + w.height <= r.bottom
  }

  /** The smallest region around the words of a run: it covers each of them and each side touches one. */
  predicate IsHull(words: seq<WordBox>, start: nat, length: nat, r: Region)
    requires 1 <= length && start + length <= |words|
  {
    && r.page == words[start].page
    && (forall k :: start <= k < start + length ==> Covers(r, words[k]))
    && (exists k :: start <= k < start + length && words[k].x == r.left)
    && (exists k :: start <= k < start + length && words[k].x + words[k].width == r.right)
    && (exists k :: start <= k < start + length && words[k].y == r.top)
    && (exists k :: start <= k < start + length && words[k].y + words[k].height == r.bottom)
  }

  function BoxRegion(w: WordBox): Region {
    Region(w.page, w.x, w.y, w.x + w.width, w.y + w.height)
  }

  method Hull(words: seq<WordBox>, start: nat, length: nat) returns (r: Region)
    requires 1 <= length && start + length <= |words|
    ensures IsHull(words, start, length, r)
  {
    r := BoxRegion(words[start]);
    for k := 1 to length
      invariant IsHull(words, start, k, r)
    {
      var b := words[start + k];
      r := r.(left := Min(r.left, b.x), top := Min(r.top, b.y),
              right := Max(r.right, b.x + b.width), bottom := Max(r.bottom, b.y + b.height));
    }
  }

  /** A run from the earliest possible start, and the shortest one from there. */
  ghost predicate EarliestSpan(words: seq<WordBox>, needle: string, start: int, length: int) {
    && Spells(words, needle, start, length)
    && (forall l :: l < length ==> !Spells(words, needle, start, l))
    && (forall s, l :: s < start ==> !Spells(words, needle, s, l))
  }

  /** A single word whose similarity to the needle reaches the threshold, and that no candidate beats. */
  predicate FuzzyBest(words: seq<WordBox>, needle: string, ratio: (string, string) -> real, i: int) {
    && 0 <= i < |words| && ratio(needle, words[i].token) >= 88.0
    && (forall k :: 0 <= k < |words| ==> ratio(needle, words[k].token) <= ratio(needle, words[i].token))
    && (forall k :: 0 <= k < i ==> ratio(needle, words[k].token) < ratio(needle, words[i].token))
  }

  ghost predicate SpelledSomewhere(words: seq<WordBox>, needle: string) {
    exists s, l :: Spells(words, needle, s, l)
  }

  /** Without a spelling run no single word equals the needle, so the exact fallback finds nothing. */
  lemma NoRunNoExactWord(words: seq<WordBox>, needle: string, i: nat)
    requires !SpelledSomewhere(words, needle) && i < |words|
    ensures words[i].token != needle
  {
    assert Concatenation(words, i, 0) == "";
    assert Concatenation(words, i, 1) == "" + words[i].token == words[i].token;
    assert Run(words, i, 1);
    assert words[i].token == needle ==> Spells(words, needle, i, 1);
  }

  method ExactWords(words: seq<WordBox>, needle: string) returns (exact: seq<nat>)
    ensures exact != [] <==> exists i :: 0 <= i < |words| && words[i].token == needle
    ensures forall m :: 0 <= m < |exact| ==> exact[m] < |words| && words[exact[m]].token == needle
  {
    exact := [];
    for i := 0 to |words|
      invariant exact != [] <==> exists k :: 0 <= k < i && words[k].token == needle
      invariant forall m :: 0 <= m < |exact| ==> exact[m] < i && words[exact[m]].token == needle
    {
      if words[i].token == needle {
        exact := exact + [i];
      }
    }
  }

  /** Positions in increasing order: words equal to the needle or, if there are none, the similar ones. */
  method FallbackCandidates(words: seq<WordBox>, needle: string, ratio: (string, string) -> real)
      returns (candidates: seq<nat>)
    requires !SpelledSomewhere(words, needle)
    ensures forall m :: 0 <= m < |candidates| ==> candidates[m] < |words|
    ensures forall m, n :: 0 <= m < n < |candidates| ==> candidates[m] < candidates[n]
    ensures forall k :: 0 <= k < |words| ==> (k in candidates <==> ratio(needle, words[k].token) >= 88.0)
  {
    candidates := ExactWords(words, needle);
    forall i | 0 <= i < |words| ensures words[i].token != needle {
      NoRunNoExactWord(words, needle, i);
    }
    if candidates == [] {
      for i := 0 to |words|
        invariant forall m :: 0 <= m < |candidates| ==> candidates[m] < i
        invariant forall m, n :: 0 <= m < n < |candidates| ==> candidates[m] < candidates[n]
        invariant forall k :: 0 <= k < i ==> (k in candidates <==> ratio(needle, words[k].token) >= MATCH_THRESHOLD)
      {
        if ratio(needle, words[i].token) >= MATCH_THRESHOLD {
          candidates := candidates + [i];
        }
      }
    }
  }

  /** The first candidate that no candidate beats. */
  method MostSimilar(words: seq<WordBox>, needle: string, ratio: (string, string) -> real, candidates: seq<nat>)
      returns (best: nat)
    requires candidates != [] && forall m :: 0 <= m < |candidates| ==> candidates[m] < |words|
    requires forall m, n :: 0 <= m < n < |candidates| ==> candidates[m] < candidates[n]
    ensures best in candidates
    ensures forall c :: c in candidates ==> ratio(needle, words[c].token) <= ratio(needle, words[best].token)
    ensures forall c :: c in candidates && c < best ==> ratio(needle, words[c].token) < ratio(needle, words[best].token)
  {
    ghost var p := 0;
    best := candidates[0];
    for n := 1 to |candidates|
      invariant p < n && candidates[p] == best
      invariant forall m :: 0 <= m < n ==> ratio(needle, words[candidates[m]].token) <= ratio(needle, words[best].token)
      invariant forall m :: 0 <= m < p ==> ratio(needle, words[candidates[m]].token) < ratio(needle, words[best].token)
    {
      if ratio(needle, words[candidates[n]].token) > ratio(needle, words[best].token) {
        best := candidates[n];
        p := n;
      }
    }
  }

  /**
   * The region returned is the hull of the earliest run that spells the needle; only when there is
   * no such run is it the most similar single word above the threshold, and otherwise there is none.
   */
  method EvidenceForValue(words: seq<WordBox>, needle: string, ratio: (string, string) -> real)
      returns (region: Option<Region>)
    ensures needle == "" ==> region == None
    ensures needle != "" && SpelledSomewhere(words, needle) ==>
              region.Some? && exists s, l :: EarliestSpan(words, needle, s, l) && IsHull(words, s, l, region.value)
    ensures needle != "" && !SpelledSomewhere(words, needle) ==>
              if exists k :: 0 <= k < |words| && ratio(needle, words[k].token) >= 88.0
              then region.Some? && exists i :: FuzzyBest(words, needle, ratio, i) && region.value == BoxRegion(words[i])
              else region == None
  {
    if needle == "" {
      return None;
    }
    for start := 0 to |words|
      invariant forall s, l :: s < start ==> !Spells(words, needle, s, l)
    {
      var length := SearchFrom(words, needle, start);
      if length.Some? {
        var r := Hull(words, start, length.value);
        assert EarliestSpan(words, needle, start, length.value);
        return Some(r);
      }
    }
    var candidates := FallbackCandidates(words, needle, ratio);
    if candidates == [] {
      return None;
    }
    var best := MostSimilar(words, needle, ratio, candidates);
    assert FuzzyBest(words, needle, ratio, best);
    return Some(BoxRegion(words[best]));
  }
}
