/** The analysis text: a caption header, one paragraph and one confidence line per technique
    type found (in order of first appearance, "general" left out), and an overall assessment
    chosen by the mean confidence. */
module Analysis {
  import opened Wrappers
  import opened Strings
  import opened Reals
  import opened Catalog
  import opened Detector

  /** The text when nothing was detected. */
  const NothingDetected: string :=
    "No significant propaganda elements "
    + "detected in this image."

  const ElementsHeader: string := "**Detected Propaganda Elements**:\n"

  /** The first part: the caption under a heading. */
  function CaptionHeader(caption: string): string {
    "**Image Analysis**: " + caption + "\n"
  }

  /** The three assessment tiers. */
  datatype Assessment = Strong | Moderate | Minimal

  /** The tier for a mean confidence: above 0.3 strong, above 0.2 moderate, else minimal. */
  function AssessmentOf(mean: real): (a: Assessment)
    ensures a == Strong <==> mean > 0.3
    ensures a == Moderate <==> 0.2 < mean <= 0.3
    ensures a == Minimal <==> mean <= 0.2
  {
    if mean > 0.3 then Strong else if mean > 0.2 then Moderate else Minimal
  }

  function Rank(a: Assessment): nat {
    match a
    case Minimal => 0
    case Moderate => 1
    case Strong => 2
  }

  /** A higher mean never gives a lower tier. */
  lemma AssessmentMonotone(m1: real, m2: real)
    requires m1 <= m2
    ensures Rank(AssessmentOf(m1)) <= Rank(AssessmentOf(m2))
  {
  }

  /** The closing paragraph of each tier. */
  const StrongText: string :=
    "**Overall Assessment**: This image "
    + "shows strong indicators of propaganda "
    + "techniques. The combination of visual "
    + "elements appears designed to influence "
    + "opinion or behavior through emotional "
    + "and psychological appeals rather than "
    + "factual argumentation."

  const ModerateText: string :=
    "**Overall Assessment**: This image "
    + "contains moderate propaganda elements. "
    + "Some visual techniques may be intended "
    + "to influence perception, though the "
    + "overall effect is less pronounced."

  const MinimalText: string :=
    "**Overall Assessment**: This image "
    + "shows minimal propaganda "
    + "characteristics. While some persuasive "
    + "elements may be present, they appear "
    + "relatively subtle or incidental."

  function AssessmentText(a: Assessment): string {
    match a
    case Strong => StrongText
    case Moderate => ModerateText
    case Minimal => MinimalText
  }

  /** Some detection has type `t`. */
  predicate Occurs(dets: seq<Detection>, t: Technique) {
    exists k :: 0 <= k < |dets| && dets[k].technique == t
  }

  /** The technique types of `dets` in order of first appearance, each once: the key order of
      the grouping dictionary. */
  function DistinctTechniques(dets: seq<Detection>): (r: seq<Technique>)
    ensures forall i, j :: 0 <= i < j < |r| ==> r[i] != r[j]
    ensures forall t :: t in r <==> Occurs(dets, t)
    decreases |dets|
  {
    if dets == [] then []
    else
      var front := dets[..|dets| - 1];
      var prev := DistinctTechniques(front);
      var t := dets[|dets| - 1].technique;
      assert forall u :: Occurs(dets, u) <==> Occurs(front, u) || u == t by {
        forall u
          ensures Occurs(dets, u) <==> Occurs(front, u) || u == t
        {
          if Occurs(front, u) {
            var k :| 0 <= k < |front| && front[k].technique == u;
            assert dets[k] == front[k];
          }
          if Occurs(dets, u) && u != t {
            var k :| 0 <= k < |dets| && dets[k].technique == u;
            assert front[k] == dets[k];
          }
        }
      }
      if t in prev then prev else prev + [t]
  }

  /** The first position of a detection of type `t`. */
  function FirstIndex(dets: seq<Detection>, t: Technique): (k: nat)
    requires Occurs(dets, t)
    ensures k < |dets| && dets[k].technique == t
    ensures forall j :: 0 <= j < k ==> dets[j].technique != t
  {
    if dets[0].technique == t then 0 else 1 + FirstIndex(dets[1..], t)
  }

  /** Every type in `types` occurs in `dets`, and earlier types first occur earlier. */
  predicate InFirstOrder(dets: seq<Detection>, types: seq<Technique>) {
    && (forall i :: 0 <= i < |types| ==> Occurs(dets, types[i]))
    && (forall i, j :: 0 <= i < j < |types| ==> FirstIndex(dets, types[i]) < FirstIndex(dets, types[j]))
  }

  /** Types come in order of their first detection. */
  lemma {:induction false} DistinctTechniquesOrder(dets: seq<Detection>)
    ensures InFirstOrder(dets, DistinctTechniques(dets))
    decreases |dets|
  {
    if dets != [] {
      var n := |dets| - 1;
      var front := dets[..n];
      DistinctTechniquesOrder(front);
      var prev := DistinctTechniques(front);
      assert InFirstOrder(front, prev);
      var r := DistinctTechniques(dets);
      assert r == prev || (r == prev + [dets[n].technique] && dets[n].technique !in prev);
      forall t | t in prev
        ensures FirstIndex(dets, t) == FirstIndex(front, t)
      {
        FirstIndexOfPrefix(dets, n, t);
      }
      forall i, j | 0 <= i < j < |r|
        ensures FirstIndex(dets, r[i]) < FirstIndex(dets, r[j])
      {
        if j < |prev| {
          assert r[i] == prev[i] && r[j] == prev[j];
          assert prev[i] in prev && prev[j] in prev;
        } else {
          assert r[i] == prev[i] && r[i] in prev;
          assert FirstIndex(dets, r[i]) == FirstIndex(front, r[i]) < n;
          assert r[j] == dets[n].technique && r[j] !in prev;
          assert FirstIndex(dets, r[j]) == n by {
            forall k | 0 <= k < n
              ensures dets[k].technique != r[j]
            {
              assert front[k] == dets[k];
            }
            FirstIndexIs(dets, r[j], n);
          }
        }
      }
    }
  }

  /** A type that already occurs in a prefix first occurs where it first occurs there. */
  lemma FirstIndexOfPrefix(dets: seq<Detection>, n: nat, t: Technique)
    requires n <= |dets|
    requires exists k :: 0 <= k < n && dets[..n][k].technique == t
    ensures FirstIndex(dets, t) == FirstIndex(dets[..n], t)
  {
    var k := FirstIndex(dets[..n], t);
    assert dets[k] == dets[..n][k];
    forall j | 0 <= j < k
      ensures dets[j].technique != t
    {
      assert dets[j] == dets[..n][j];
    }
    FirstIndexIs(dets, t, k);
  }

  /** `FirstIndex` is the one position holding `t` with no `t` before it. */
  lemma {:induction false} FirstIndexIs(dets: seq<Detection>, t: Technique, k: nat)
    requires k < |dets| && dets[k].technique == t
    requires forall j :: 0 <= j < k ==> dets[j].technique != t
    ensures FirstIndex(dets, t) == k
    decreases k
  {
    if k > 0 {
      FirstIndexIs(dets[1..], t, k - 1);
    }
  }

  /** The detections of type `t`, in order. */
  function OfType(dets: seq<Detection>, t: Technique): (r: seq<Detection>)
    ensures forall j :: 0 <= j < |r| ==> r[j].technique == t && r[j] in dets
    ensures forall j :: 0 <= j < |dets| && dets[j].technique == t ==> dets[j] in r
    ensures Occurs(dets, t) ==> |r| > 0
    decreases |dets|
  {
    if dets == [] then []
    else
      var rest := OfType(dets[1..], t);
      assert forall j :: 1 <= j < |dets| ==> dets[j] == dets[1..][j - 1];
      (if dets[0].technique == t then [dets[0]] else []) + rest
  }

  /** Grouping distributes over concatenation: the group of a list is the group of its front
      followed by the group of its back, so it keeps the detections' order. */
  lemma {:induction false} OfTypeAppend(a: seq<Detection>, b: seq<Detection>, t: Technique)
    ensures OfType(a + b, t) == OfType(a, t) + OfType(b, t)
    decreases |a|
  {
    if a != [] {
      assert (a + b)[1..] == a[1..] + b;
      OfTypeAppend(a[1..], b, t);
    } else {
      assert a + b == b;
    }
  }

  /** The confidence line of a type; `pct` is the `{:.1%}` formatting of a fraction. */
  function ConfidenceLine(dets: seq<Detection>, t: Technique, pct: real -> string): string
    requires Occurs(dets, t)
  {
    "*Confidence: " + pct(Mean(Confidences(OfType(dets, t)))) + "\n"
  }

  /** The parts written for the given types: the paragraph and confidence line of each type
      with a description, nothing for the others. */
  function TypeParts(types: seq<Technique>, dets: seq<Detection>, pct: real -> string): (r: seq<string>)
    requires forall i :: 0 <= i < |types| ==> Occurs(dets, types[i])
    decreases |types|
  {
    if types == [] then []
    else
      var t := types[0];
      var rest := TypeParts(types[1..], dets, pct);
      match Description(t)
      case None => rest
      case Some(text) => [text, ConfidenceLine(dets, t, pct)] + rest
  }

  /** The types that have a description, in order ("general" is dropped). */
  function Known(types: seq<Technique>): (r: seq<Technique>)
    ensures forall i :: 0 <= i < |r| ==> r[i] != General && r[i] in types
    ensures forall t :: t in types && t != General ==> t in r
    decreases |types|
  {
    if types == [] then []
    else (if types[0] != General then [types[0]] else []) + Known(types[1..])
  }

  /** Dropping "general" keeps the remaining types in order of first detection. */
  lemma {:induction false} KnownInFirstOrder(dets: seq<Detection>, types: seq<Technique>)
    requires InFirstOrder(dets, types)
    ensures InFirstOrder(dets, Known(types))
    decreases |types|
  {
    if types != [] {
      var tail := types[1..];
      TailInFirstOrder(dets, types);
      KnownInFirstOrder(dets, tail);
      var kt := Known(tail);
      if types[0] != General {
        assert Known(types) == [types[0]] + kt;
        forall j | 0 <= j < |kt|
          ensures FirstIndex(dets, types[0]) < FirstIndex(dets, kt[j])
        {
          assert kt[j] in tail;
          var m :| 0 <= m < |tail| && tail[m] == kt[j];
          assert types[m + 1] == kt[j];
        }
        ConsInFirstOrder(dets, types[0], kt);
      } else {
        assert Known(types) == kt;
      }
    }
  }

  /** The tail of a list in first-detection order is in that order. */
  lemma TailInFirstOrder(dets: seq<Detection>, types: seq<Technique>)
    requires types != [] && InFirstOrder(dets, types)
    ensures InFirstOrder(dets, types[1..])
  {
    var tail := types[1..];
    assert forall i :: 0 <= i < |tail| ==> tail[i] == types[i + 1];
  }

  /** A type first detected before every type of an ordered list can go in front of it. */
  lemma ConsInFirstOrder(dets: seq<Detection>, t: Technique, kt: seq<Technique>)
    requires Occurs(dets, t) && InFirstOrder(dets, kt)
    requires forall j :: 0 <= j < |kt| ==> FirstIndex(dets, t) < FirstIndex(dets, kt[j])
    ensures InFirstOrder(dets, [t] + kt)
  {
    var r := [t] + kt;
    forall i | 0 <= i < |r|
      ensures Occurs(dets, r[i])
    {
      if i > 0 {
        assert r[i] == kt[i - 1];
      }
    }
    forall i, j | 0 <= i < j < |r|
      ensures FirstIndex(dets, r[i]) < FirstIndex(dets, r[j])
    {
      assert r[j] == kt[j - 1];
      if i > 0 {
        assert r[i] == kt[i - 1];
      }
    }
  }

  /** `r` holds two parts per type of `kn`: its paragraph, then its confidence line. */
  predicate PartsFor(r: seq<string>, kn: seq<Technique>, dets: seq<Detection>, pct: real -> string) {
    && |r| == 2 * |kn|
    && forall i :: 0 <= i < |kn| ==>
         && kn[i] != General
         && Occurs(dets, kn[i])
         && r[2 * i] == Description(kn[i]).value
         && r[2 * i + 1] == ConfidenceLine(dets, kn[i], pct)
  }

  /** Putting one known type's two parts in front extends the listing by that type. */
  lemma PartsForCons(t: Technique, rest: seq<string>, krest: seq<Technique>, dets: seq<Detection>, pct: real -> string)
    requires t != General && Occurs(dets, t)
    requires PartsFor(rest, krest, dets, pct)
    ensures PartsFor([Description(t).value, ConfidenceLine(dets, t, pct)] + rest, [t] + krest, dets, pct)
  {
    var r := [Description(t).value, ConfidenceLine(dets, t, pct)] + rest;
    var kn := [t] + krest;
    forall i | 1 <= i < |kn|
      ensures kn[i] != General && Occurs(dets, kn[i])
      ensures r[2 * i] == Description(kn[i]).value && r[2 * i + 1] == ConfidenceLine(dets, kn[i], pct)
    {
      assert kn[i] == krest[i - 1];
      assert r[2 * i] == rest[2 * (i - 1)];
      assert r[2 * i + 1] == rest[2 * (i - 1) + 1];
    }
  }

  /** Two parts per known type, in order: its paragraph, then its confidence line. */
  lemma {:induction false} TypePartsSpec(types: seq<Technique>, dets: seq<Detection>, pct: real -> string)
    requires forall i :: 0 <= i < |types| ==> Occurs(dets, types[i])
    ensures PartsFor(TypeParts(types, dets, pct), Known(types), dets, pct)
    decreases |types|
  {
    if types != [] {
      var t := types[0];
      assert forall i :: 0 <= i < |types[1..]| ==> types[1..][i] == types[i + 1];
      TypePartsSpec(types[1..], dets, pct);
      var rest := TypeParts(types[1..], dets, pct);
      var krest := Known(types[1..]);
      if t != General {
        assert Known(types) == [t] + krest;
        assert TypeParts(types, dets, pct) == [Description(t).value, ConfidenceLine(dets, t, pct)] + rest;
        PartsForCons(t, rest, krest, dets, pct);
      } else {
        assert Known(types) == krest;
        assert TypeParts(types, dets, pct) == rest;
      }
    }
  }

  /** The parts of the analysis for a non-empty detection list. */
  function AnalysisParts(caption: string, dets: seq<Detection>, pct: real -> string): (r: seq<string>)
    requires dets != []
    ensures |r| >= 3
    ensures r[0] == CaptionHeader(caption) && r[1] == ElementsHeader
    ensures r[|r| - 1] == AssessmentText(AssessmentOf(OverallConfidence(dets)))
  {
    var types := DistinctTechniques(dets);
    [CaptionHeader(caption), ElementsHeader] + TypeParts(types, dets, pct)
      + [AssessmentText(AssessmentOf(OverallConfidence(dets)))]
  }

  /** Between the two headers and the assessment come, for each known type in order of first
      appearance, its paragraph and its confidence line. */
  lemma AnalysisPartsTypes(caption: string, dets: seq<Detection>, pct: real -> string)
    requires dets != []
    ensures var r := AnalysisParts(caption, dets, pct);
      PartsFor(r[2..|r| - 1], Known(DistinctTechniques(dets)), dets, pct)
    ensures InFirstOrder(dets, Known(DistinctTechniques(dets)))
    ensures forall t :: t in Known(DistinctTechniques(dets)) <==> Occurs(dets, t) && t != General
  {
    var types := DistinctTechniques(dets);
    var r := AnalysisParts(caption, dets, pct);
    var tp := TypeParts(types, dets, pct);
    TypePartsSpec(types, dets, pct);
    assert r[2..|r| - 1] == tp;
    DistinctTechniquesOrder(dets);
    KnownInFirstOrder(dets, types);
  }

  /** `_generate_analysis_text`: the fixed sentence when nothing was detected, otherwise the
      parts joined by blank lines. */
  function AnalysisText(caption: string, dets: seq<Detection>, pct: real -> string): (r: string)
    ensures dets == [] <==> r == NothingDetected
    ensures dets != [] ==> StartsWith(r, CaptionHeader(caption))
  {
    if dets == [] then NothingDetected
    else
      var r := Join(AnalysisParts(caption, dets, pct), "\n\n");
      HeaderIsNotNothing(r, caption);
      r
  }

  /** A text opening with the caption header is not the fixed sentence: they differ in their
      first character. */
  lemma HeaderIsNotNothing(text: string, caption: string)
    requires StartsWith(text, CaptionHeader(caption))
    ensures text != NothingDetected
  {
    var header := CaptionHeader(caption);
    assert text[0] == text[..|header|][0] == header[0] == '*';
    assert NothingDetected[0] == 'N';
  }

  /** The caption used in the analysis: the generated one, or the fallback text when caption
      generation fails. */
  function CaptionOrFallback(caption: Option<string>): (r: string)
    ensures caption.Some? ==> r == caption.value
    ensures caption.None? ==> r == "Unable to generate caption"
  {
    if caption.Some? then caption.value else "Unable to generate caption"
  }
}
