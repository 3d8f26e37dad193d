/** Detection post-processing of the detector: the per-concept scores are thresholded in
    catalog order, ranked by confidence with a stable sort, and cut to the five best. */
module Detector {
  import opened Strings
  import opened Reals
  import opened Catalog

  /** One detected concept, as the dictionary built for it. */
  datatype Detection = Detection(
    id: string,
    concept: string,
    technique: Technique,
    confidence: real,
    labelText: string,
    color: string,
    classIndex: nat)

  /** A concept is kept when its score is strictly above this. */
  const Threshold: real := 0.10

  /** At most this many detections are returned. */
  const MaxDetections: nat := 5

  /** The id of the `k`-th concept over the threshold, counted in catalog order. */
  function DetectionId(k: nat): string {
    "detection_" + NatToString(k)
  }

  /** The number of scores strictly above the threshold. */
  function CountAbove(s: seq<real>): nat {
    if s == [] then 0
    else CountAbove(s[..|s| - 1]) + (if s[|s| - 1] > Threshold then 1 else 0)
  }

  /** What every detection built from the scores `probs` of `concepts` satisfies: its
      concept and score are those of its catalog index, the score is over the threshold,
      type, label and colour follow from the concept, and the id counts the concepts over
      the threshold before it. */
  predicate Built(d: Detection, concepts: seq<string>, probs: seq<real>, classify: string -> Technique) {
    && d.classIndex < |concepts|
    && d.classIndex < |probs|
    && d.concept == concepts[d.classIndex]
    && d.confidence == probs[d.classIndex]
    && d.confidence > Threshold
    && d.technique == classify(d.concept)
    && d.labelText == Label(d.technique)
    && d.color == ColorOf(d.technique)
    && d.id == DetectionId(CountAbove(probs[..d.classIndex]))
  }

  /** Every detection of `r` is built from the scores and comes from one of the first `n` concepts. */
  predicate AllBuilt(r: seq<Detection>, concepts: seq<string>, probs: seq<real>, classify: string -> Technique, n: nat) {
    forall j :: 0 <= j < |r| ==> Built(r[j], concepts, probs, classify) && r[j].classIndex < n
  }

  /** The `j`-th detection has id `detection_j`. */
  predicate Numbered(r: seq<Detection>) {
    forall j :: 0 <= j < |r| ==> r[j].id == DetectionId(j)
  }

  /** The detections appear in strictly increasing catalog order. */
  predicate InCatalogOrder(r: seq<Detection>) {
    forall j, k :: 0 <= j < k < |r| ==> r[j].classIndex < r[k].classIndex
  }

  /** Every one of the first `n` concepts scoring over the threshold has a detection. */
  predicate Covers(r: seq<Detection>, probs: seq<real>, n: nat) {
    forall i :: 0 <= i < n && i < |probs| && probs[i] > Threshold ==>
      exists j :: 0 <= j < |r| && r[j].classIndex == i
  }

  /** The detections the scoring loop appends while visiting the first `n` concepts. */
  function Candidates(concepts: seq<string>, probs: seq<real>, classify: string -> Technique, n: nat): (r: seq<Detection>)
    requires n <= |concepts| && n <= |probs|
    ensures |r| == CountAbove(probs[..n])
  {
    if n == 0 then []
    else
      var prev := Candidates(concepts, probs, classify, n - 1);
      assert probs[..n][..n - 1] == probs[..n - 1];
      Visit(prev, concepts, probs, classify, n - 1)
  }

  /** One turn of the scoring loop: concept `i` is appended when its score is over the
      threshold, with the next free number. */
  function Visit(prev: seq<Detection>, concepts: seq<string>, probs: seq<real>, classify: string -> Technique, i: nat): (r: seq<Detection>)
    requires i < |concepts| && i < |probs| && |prev| == CountAbove(probs[..i])
    ensures probs[i] > Threshold ==> |r| == |prev| + 1 && r[..|prev|] == prev && r[|prev|].classIndex == i
    ensures probs[i] <= Threshold ==> r == prev
  {
    if probs[i] > Threshold then prev + [NewDetection(concepts, probs, classify, i, |prev|)]
    else prev
  }

  /** The loop over `n` concepts is the loop over `n - 1` followed by one more turn. */
  lemma CandidatesStep(concepts: seq<string>, probs: seq<real>, classify: string -> Technique, n: nat)
    requires 0 < n <= |concepts| && n <= |probs|
    ensures Candidates(concepts, probs, classify, n) == Visit(Candidates(concepts, probs, classify, n - 1), concepts, probs, classify, n - 1)
  {
  }

  /** Each candidate is built from the score of its own concept and lies before `n`. */
  lemma {:induction false} CandidatesBuilt(concepts: seq<string>, probs: seq<real>, classify: string -> Technique, n: nat)
    requires n <= |concepts| && n <= |probs|
    ensures AllBuilt(Candidates(concepts, probs, classify, n), concepts, probs, classify, n)
  {
    if n > 0 {
      CandidatesBuilt(concepts, probs, classify, n - 1);
      StepBuilt(concepts, probs, classify, n);
    }
  }

  lemma StepBuilt(concepts: seq<string>, probs: seq<real>, classify: string -> Technique, n: nat)
    requires 0 < n <= |concepts| && n <= |probs|
    requires AllBuilt(Candidates(concepts, probs, classify, n - 1), concepts, probs, classify, n - 1)
    ensures AllBuilt(Candidates(concepts, probs, classify, n), concepts, probs, classify, n)
  {
    CandidatesStep(concepts, probs, classify, n);
    VisitBuilt(Candidates(concepts, probs, classify, n - 1), concepts, probs, classify, n - 1);
  }

  lemma VisitBuilt(prev: seq<Detection>, concepts: seq<string>, probs: seq<real>, classify: string -> Technique, i: nat)
    requires i < |concepts| && i < |probs| && |prev| == CountAbove(probs[..i])
    requires AllBuilt(prev, concepts, probs, classify, i)
    ensures AllBuilt(Visit(prev, concepts, probs, classify, i), concepts, probs, classify, i + 1)
  {
    var r := Visit(prev, concepts, probs, classify, i);
    forall j | 0 <= j < |r|
      ensures Built(r[j], concepts, probs, classify) && r[j].classIndex < i + 1
    {
      if j < |prev| {
        assert r[j] == prev[j];
      }
    }
  }

  /** The `j`-th candidate has id `detection_j`. */
  lemma {:induction false} CandidatesNumbered(concepts: seq<string>, probs: seq<real>, classify: string -> Technique, n: nat)
    requires n <= |concepts| && n <= |probs|
    ensures Numbered(Candidates(concepts, probs, classify, n))
  {
    if n > 0 {
      CandidatesNumbered(concepts, probs, classify, n - 1);
      StepNumbered(concepts, probs, classify, n);
    }
  }

  lemma StepNumbered(concepts: seq<string>, probs: seq<real>, classify: string -> Technique, n: nat)
    requires 0 < n <= |concepts| && n <= |probs|
    requires Numbered(Candidates(concepts, probs, classify, n - 1))
    ensures Numbered(Candidates(concepts, probs, classify, n))
  {
    CandidatesStep(concepts, probs, classify, n);
    VisitNumbered(Candidates(concepts, probs, classify, n - 1), concepts, probs, classify, n - 1);
  }

  lemma VisitNumbered(prev: seq<Detection>, concepts: seq<string>, probs: seq<real>, classify: string -> Technique, i: nat)
    requires i < |concepts| && i < |probs| && |prev| == CountAbove(probs[..i])
    requires Numbered(prev)
    ensures Numbered(Visit(prev, concepts, probs, classify, i))
  {
    var r := Visit(prev, concepts, probs, classify, i);
    forall j | 0 <= j < |r|
      ensures r[j].id == DetectionId(j)
    {
      if j < |prev| {
        assert r[j] == prev[j];
      }
    }
  }

  /** Every detection comes from one of the first `n` concepts. */
  predicate Before(r: seq<Detection>, n: nat) {
    forall j :: 0 <= j < |r| ==> r[j].classIndex < n
  }

  /** Candidates appear in catalog order, all from the concepts visited. */
  lemma {:induction false} CandidatesOrdered(concepts: seq<string>, probs: seq<real>, classify: string -> Technique, n: nat)
    requires n <= |concepts| && n <= |probs|
    ensures InCatalogOrder(Candidates(concepts, probs, classify, n)) && Before(Candidates(concepts, probs, classify, n), n)
  {
    if n > 0 {
      CandidatesOrdered(concepts, probs, classify, n - 1);
      StepOrdered(concepts, probs, classify, n);
    }
  }

  lemma StepOrdered(concepts: seq<string>, probs: seq<real>, classify: string -> Technique, n: nat)
    requires 0 < n <= |concepts| && n <= |probs|
    requires InCatalogOrder(Candidates(concepts, probs, classify, n - 1)) && Before(Candidates(concepts, probs, classify, n - 1), n - 1)
    ensures InCatalogOrder(Candidates(concepts, probs, classify, n)) && Before(Candidates(concepts, probs, classify, n), n)
  {
    CandidatesStep(concepts, probs, classify, n);
    VisitOrdered(Candidates(concepts, probs, classify, n - 1), concepts, probs, classify, n - 1);
    VisitBefore(Candidates(concepts, probs, classify, n - 1), concepts, probs, classify, n - 1);
  }

  lemma VisitOrdered(prev: seq<Detection>, concepts: seq<string>, probs: seq<real>, classify: string -> Technique, i: nat)
    requires i < |concepts| && i < |probs| && |prev| == CountAbove(probs[..i])
    requires InCatalogOrder(prev) && Before(prev, i)
    ensures InCatalogOrder(Visit(prev, concepts, probs, classify, i))
  {
    var r := Visit(prev, concepts, probs, classify, i);
    forall j, k | 0 <= j < k < |r|
      ensures r[j].classIndex < r[k].classIndex
    {
      assert r[j] == prev[j];
      if k < |prev| {
        assert r[k] == prev[k];
      }
    }
  }

  lemma VisitBefore(prev: seq<Detection>, concepts: seq<string>, probs: seq<real>, classify: string -> Technique, i: nat)
    requires i < |concepts| && i < |probs| && |prev| == CountAbove(probs[..i])
    requires Before(prev, i)
    ensures Before(Visit(prev, concepts, probs, classify, i), i + 1)
  {
    var r := Visit(prev, concepts, probs, classify, i);
    forall j | 0 <= j < |r|
      ensures r[j].classIndex < i + 1
    {
      if j < |prev| {
        assert r[j] == prev[j];
      }
    }
  }

  /** Every concept over the threshold has a candidate. */
  lemma {:induction false} CandidatesComplete(concepts: seq<string>, probs: seq<real>, classify: string -> Technique, n: nat)
    requires n <= |concepts| && n <= |probs|
    ensures Covers(Candidates(concepts, probs, classify, n), probs, n)
  {
    if n > 0 {
      CandidatesComplete(concepts, probs, classify, n - 1);
      StepCovers(concepts, probs, classify, n);
    }
  }

  lemma StepCovers(concepts: seq<string>, probs: seq<real>, classify: string -> Technique, n: nat)
    requires 0 < n <= |concepts| && n <= |probs|
    requires Covers(Candidates(concepts, probs, classify, n - 1), probs, n - 1)
    ensures Covers(Candidates(concepts, probs, classify, n), probs, n)
  {
    CandidatesStep(concepts, probs, classify, n);
    VisitCovers(Candidates(concepts, probs, classify, n - 1), concepts, probs, classify, n - 1);
  }

  lemma VisitCovers(prev: seq<Detection>, concepts: seq<string>, probs: seq<real>, classify: string -> Technique, i: nat)
    requires i < |concepts| && i < |probs| && |prev| == CountAbove(probs[..i])
    requires Covers(prev, probs, i)
    ensures Covers(Visit(prev, concepts, probs, classify, i), probs, i + 1)
  {
    var r := Visit(prev, concepts, probs, classify, i);
    forall m | 0 <= m < i + 1 && m < |probs| && probs[m] > Threshold
      ensures exists j :: 0 <= j < |r| && r[j].classIndex == m
    {
      if m == i {
        assert r[|prev|].classIndex == i;
      } else {
        var j :| 0 <= j < |prev| && prev[j].classIndex == m;
        assert r[j] == prev[j];
      }
    }
  }

  /** The detection appended for concept `i` when `k` concepts before it were kept. */
  function NewDetection(concepts: seq<string>, probs: seq<real>, classify: string -> Technique, i: nat, k: nat): (d: Detection)
    requires i < |concepts| && i < |probs| && probs[i] > Threshold
    requires k == CountAbove(probs[..i])
    ensures Built(d, concepts, probs, classify) && d.classIndex == i && d.id == DetectionId(k)
  {
    var t := classify(concepts[i]);
    Detection(DetectionId(k), concepts[i], t, probs[i], Label(t), ColorOf(t), i)
  }

  /** `a` comes before `b` in the ranked list: a higher confidence, or the same confidence
      and an earlier catalog position (the sort is stable). */
  predicate Precedes(a: Detection, b: Detection) {
    a.confidence > b.confidence || (a.confidence == b.confidence && a.classIndex < b.classIndex)
  }

  predicate Ranked(s: seq<Detection>) {
    forall i, j :: 0 <= i < j < |s| ==> Precedes(s[i], s[j])
  }

  /** Inserts `x` ahead of the first element whose confidence does not exceed its own. */
  function Insert(x: Detection, s: seq<Detection>): (r: seq<Detection>)
    ensures multiset(r) == multiset(s) + multiset{x}
    ensures |r| == |s| + 1
  {
    if s == [] || x.confidence >= s[0].confidence then [x] + s
    else
      assert s == [s[0]] + s[1..];
      [s[0]] + Insert(x, s[1..])
  }

  /** `sort(key=confidence, reverse=True)`: a stable sort, highest confidence first. */
  function SortByConfidence(s: seq<Detection>): (r: seq<Detection>)
    ensures multiset(r) == multiset(s)
    ensures |r| == |s|
  {
    if s == [] then []
    else
      assert s == [s[0]] + s[1..];
      Insert(s[0], SortByConfidence(s[1..]))
  }

  /** Inserting an element that comes earlier in the catalog than everything in a ranked
      list keeps it ranked. */
  lemma {:induction false} InsertRanked(x: Detection, s: seq<Detection>)
    requires Ranked(s)
    requires forall j :: 0 <= j < |s| ==> x.classIndex < s[j].classIndex
    ensures Ranked(Insert(x, s))
    decreases |s|
  {
    if s == [] || x.confidence >= s[0].confidence {
      var r := [x] + s;
      forall i, j | 0 <= i < j < |r|
        ensures Precedes(r[i], r[j])
      {
        if i > 0 {
          assert Precedes(s[i - 1], s[j - 1]);
        } else if j > 1 {
          assert Precedes(s[0], s[j - 1]);
        }
      }
    } else {
      var rest := Insert(x, s[1..]);
      InsertRanked(x, s[1..]);
      var r := [s[0]] + rest;
      forall i, j | 0 <= i < j < |r|
        ensures Precedes(r[i], r[j])
      {
        if i == 0 {
          assert rest[j - 1] in multiset(s[1..]) + multiset{x};
          if rest[j - 1] != x {
            assert rest[j - 1] in s[1..];
            var k :| 0 <= k < |s[1..]| && s[1..][k] == rest[j - 1];
            assert Precedes(s[0], s[k + 1]);
          }
        }
      }
    }
  }

  /** Sorting candidates listed in strictly increasing catalog order yields a ranked list. */
  lemma {:induction false} SortRanked(s: seq<Detection>)
    requires InCatalogOrder(s)
    ensures Ranked(SortByConfidence(s))
    decreases |s|
  {
    if s != [] {
      var rest := SortByConfidence(s[1..]);
      SortRanked(s[1..]);
      forall j | 0 <= j < |rest|
        ensures s[0].classIndex < rest[j].classIndex
      {
        assert rest[j] in multiset(s[1..]);
        var k :| 0 <= k < |s[1..]| && s[1..][k] == rest[j];
        assert s[k + 1] == rest[j];
      }
      InsertRanked(s[0], rest);
    }
  }

  /** The first `n` elements, or all of them when there are fewer (`s[:n]`). */
  function Take<T>(s: seq<T>, n: nat): (r: seq<T>)
    ensures |r| == if |s| <= n then |s| else n
    ensures r == s[..|r|]
  {
    if |s| <= n then s else s[..n]
  }

  /** The candidates of all concepts, ranked. */
  function RankedCandidates(concepts: seq<string>, probs: seq<real>, classify: string -> Technique): (r: seq<Detection>)
    requires |concepts| <= |probs|
    ensures Ranked(r)
    ensures multiset(r) == multiset(Candidates(concepts, probs, classify, |concepts|))
    ensures AllBuilt(r, concepts, probs, classify, |concepts|)
  {
    var c := Candidates(concepts, probs, classify, |concepts|);
    CandidatesOrdered(concepts, probs, classify, |concepts|);
    CandidatesBuilt(concepts, probs, classify, |concepts|);
    SortRanked(c);
    var r := SortByConfidence(c);
    BuiltPermuted(c, r, concepts, probs, classify, |concepts|);
    r
  }

  lemma BuiltPermuted(c: seq<Detection>, r: seq<Detection>, concepts: seq<string>, probs: seq<real>,
                      classify: string -> Technique, n: nat)
    requires multiset(r) == multiset(c) && AllBuilt(c, concepts, probs, classify, n)
    ensures AllBuilt(r, concepts, probs, classify, n)
  {
    forall j | 0 <= j < |r|
      ensures Built(r[j], concepts, probs, classify) && r[j].classIndex < n
    {
      assert r[j] in multiset(c);
      var p :| 0 <= p < |c| && c[p] == r[j];
    }
  }

  /** The detection list: when the score row is shorter than the catalog the loop fails and
      the handler returns no detections; otherwise the five best candidates, ranked. */
  function DetectElements(concepts: seq<string>, probs: seq<real>, classify: string -> Technique): (r: seq<Detection>)
    ensures |probs| < |concepts| ==> r == []
    ensures |probs| >= |concepts| ==>
              |r| == (if CountAbove(probs[..|concepts|]) <= MaxDetections
                      then CountAbove(probs[..|concepts|]) else MaxDetections)
    ensures forall j :: 0 <= j < |r| ==> Built(r[j], concepts, probs, classify)
    ensures Ranked(r)
  {
    if |probs| < |concepts| then []
    else
      Take(RankedCandidates(concepts, probs, classify), MaxDetections)
  }

  /** The returned ids are pairwise distinct. */
  lemma DetectionIdsUnique(concepts: seq<string>, probs: seq<real>, classify: string -> Technique)
    ensures var r := DetectElements(concepts, probs, classify);
      forall i, j :: 0 <= i < j < |r| ==> r[i].id != r[j].id
  {
    var r := DetectElements(concepts, probs, classify);
    if |probs| >= |concepts| {
      var c := Candidates(concepts, probs, classify, |concepts|);
      CandidatesNumbered(concepts, probs, classify, |concepts|);
      var sorted := RankedCandidates(concepts, probs, classify);
      RankedIdsDistinct(c, sorted);
      forall i, j | 0 <= i < j < |r|
        ensures r[i].id != r[j].id
      {
        assert r[i] == sorted[i] && r[j] == sorted[j];
      }
    }
  }

  /** A ranking of numbered detections has pairwise distinct ids. */
  lemma RankedIdsDistinct(c: seq<Detection>, s: seq<Detection>)
    requires Numbered(c) && multiset(s) == multiset(c) && Ranked(s)
    ensures forall i, j :: 0 <= i < j < |s| ==> s[i].id != s[j].id
  {
    forall i, j | 0 <= i < j < |s|
      ensures s[i].id != s[j].id
    {
      assert s[i] in multiset(c) && s[j] in multiset(c);
      var p :| 0 <= p < |c| && c[p] == s[i];
      var q :| 0 <= q < |c| && c[q] == s[j];
      assert Precedes(s[i], s[j]);
      if s[i].id == s[j].id {
        TaggedIdInjective("detection_", p, q);
      }
    }
  }

  /** Some detection of `r` comes from concept `i`. */
  predicate Selected(r: seq<Detection>, i: nat) {
    exists j :: 0 <= j < |r| && r[j].classIndex == i
  }

  /** Every detection of `r` ranks ahead of concept `i` scoring `p`. */
  predicate AllAhead(r: seq<Detection>, p: real, i: nat) {
    forall j :: 0 <= j < |r| ==> r[j].confidence > p || (r[j].confidence == p && r[j].classIndex < i)
  }

  /** Every concept over the threshold is among the ranked candidates. */
  lemma RankedCandidateOf(concepts: seq<string>, probs: seq<real>, classify: string -> Technique, i: nat)
    requires |concepts| <= |probs|
    requires i < |concepts| && probs[i] > Threshold
    ensures Selected(RankedCandidates(concepts, probs, classify), i)
  {
    var c := Candidates(concepts, probs, classify, |concepts|);
    var sorted := RankedCandidates(concepts, probs, classify);
    CandidatesComplete(concepts, probs, classify, |concepts|);
    assert Selected(c, i);
    SelectedPermuted(c, sorted, i);
  }

  /** Reordering keeps every concept that was selected. */
  lemma SelectedPermuted(c: seq<Detection>, s: seq<Detection>, i: nat)
    requires multiset(s) == multiset(c) && Selected(c, i)
    ensures Selected(s, i)
  {
    var k :| 0 <= k < |c| && c[k].classIndex == i;
    assert c[k] in multiset(s);
    var p :| 0 <= p < |s| && s[p] == c[k];
  }

  /** In a ranked list, every element before position `n` ranks ahead of the one at `p >= n`. */
  lemma PrefixRanksAhead(s: seq<Detection>, n: nat, p: nat)
    requires Ranked(s)
    requires n <= p < |s|
    ensures AllAhead(s[..n], s[p].confidence, s[p].classIndex)
  {
    forall j | 0 <= j < n
      ensures Precedes(s[..n][j], s[p])
    {
      assert s[..n][j] == s[j];
    }
  }

  /** A concept over the threshold that is missing from the result was crowded out: five
      detections were returned and each of them ranks ahead of it. */
  lemma DetectElementsKeepsBest(concepts: seq<string>, probs: seq<real>, classify: string -> Technique, i: nat)
    requires |concepts| <= |probs|
    requires i < |concepts| && probs[i] > Threshold
    requires !Selected(DetectElements(concepts, probs, classify), i)
    ensures |DetectElements(concepts, probs, classify)| == MaxDetections
    ensures AllAhead(DetectElements(concepts, probs, classify), probs[i], i)
  {
    var sorted := RankedCandidates(concepts, probs, classify);
    RankedCandidateOf(concepts, probs, classify, i);
    var p :| 0 <= p < |sorted| && sorted[p].classIndex == i;
    var r := DetectElements(concepts, probs, classify);
    assert r == sorted[..|r|];
    assert forall j :: 0 <= j < |r| ==> r[j] == sorted[j];
    assert forall j :: 0 <= j < |r| ==> r[j].classIndex != i;
    assert p >= |r|;
    PrefixRanksAhead(sorted, |r|, p);
  }

  /** The confidences of a detection list, in order. */
  function Confidences(dets: seq<Detection>): (s: seq<real>)
    ensures |s| == |dets|
    ensures forall j :: 0 <= j < |dets| ==> s[j] == dets[j].confidence
  {
    seq(|dets|, j requires 0 <= j < |dets| => dets[j].confidence)
  }

  /** `np.mean` of the confidences, or 0.0 for no detections. */
  function OverallConfidence(dets: seq<Detection>): (c: real)
    ensures dets == [] ==> c == 0.0
    ensures (forall j :: 0 <= j < |dets| ==> dets[j].confidence > Threshold) && dets != [] ==>
              Threshold < c <= Max(Confidences(dets))
  {
    if dets == [] then 0.0
    else
      var s := Confidences(dets);
      if forall j :: 0 <= j < |dets| ==> dets[j].confidence > Threshold then
        MeanBounds(s, Threshold, Max(s));
        Mean(s)
      else Mean(s)
  }
}
