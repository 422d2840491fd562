/** The image-mode ranking: the classifier's probability vector is reduced
    to its three most likely classes (app.py:15-31, app.py:103-111). */
module Ranking {
  import opened Outcome
  import opened Seqs
  import opened Percent

  /** Class labels in the classifier's output order. */
  const ClassNames: seq<string> := [
    "Pepper__Bacterial_spot",
    "Pepper__healthy",
    "Potato__Early_blight",
    "Potato__healthy",
    "Potato__Late_blight",
    "Tomato__Target_Spot",
    "Tomato__Tomato_mosaic_virus",
    "Tomato_Bacterial_spot",
    "Tomato_Early_blight",
    "Tomato_healthy",
    "Tomato_Late_blight",
    "Tomato_Leaf_Mold",
    "Tomato_Septoria_leaf_spot",
    "Tomato_Spider_mites_Two_spotted_spider_mite",
    "Tomato_YellowLeaf_Curl_Virus"
  ]

  /** How many classes the classifier distinguishes. */
  const ClassCount: nat := 15

  lemma ClassNamesCount()
    ensures |ClassNames| == ClassCount
  {
  }

  /** How many classes are reported. */
  const TopCount: nat := 3

  /** The classifier's output, assumed to be probabilities: every entry in [0, 1]. */
  predicate IsProbabilityVector(p: seq<real>)
  {
    forall i :: 0 <= i < |p| ==> 0.0 <= p[i] <= 1.0
  }

  predicate ValidIndices(p: seq<real>, s: seq<nat>)
  {
    forall i :: 0 <= i < |s| ==> s[i] < |p|
  }

  /** Selected classes appear in non-increasing order of probability. */
  predicate NonIncreasing(p: seq<real>, s: seq<nat>)
    requires ValidIndices(p, s)
  {
    forall i, j :: 0 <= i < j < |s| ==> p[s[i]] >= p[s[j]]
  }

  /** Every selected class is at least as likely as every unselected one. */
  predicate Dominates(p: seq<real>, s: seq<nat>)
    requires ValidIndices(p, s)
  {
    forall i, j :: 0 <= i < |s| && 0 <= j < |p| && j !in s ==> p[s[i]] >= p[j]
  }

  /** `s` is a valid answer to "the `k` most likely classes, most likely
      first": what `argsort()[-k:][::-1]` returns for k >= 1, with ties in
      any order. */
  predicate IsTopK(p: seq<real>, k: nat, s: seq<nat>)
  {
    && |s| == Min(k, |p|)
    && Distinct(s)
    && ValidIndices(p, s)
    && NonIncreasing(p, s)
    && Dominates(p, s)
  }

  /** Class `i` comes before class `j` when a stable ascending argsort is
      read backwards: it is more likely, or equally likely with a higher
      index. */
  predicate Above(p: seq<real>, i: nat, j: nat)
    requires i < |p| && j < |p|
  {
    p[i] > p[j] || (p[i] == p[j] && i > j)
  }

  /** `s` is ordered as `argsort()[-k:][::-1]` (k >= 1) orders it when the
      sort is stable: each selected class comes before the later selected
      ones and before every unselected one. */
  predicate StableOrder(p: seq<real>, s: seq<nat>)
    requires ValidIndices(p, s)
  {
    && (forall i, j :: 0 <= i < j < |s| ==> Above(p, s[i], s[j]))
    && (forall i, j :: 0 <= i < |s| && 0 <= j < |p| && j !in s ==> Above(p, s[i], j))
  }

  /** The most likely class among indices below `n` not yet in `taken`;
      of equally likely classes the highest index is chosen. */
  function BestIndex(p: seq<real>, taken: seq<nat>, n: nat): (r: Option<nat>)
    requires n <= |p|
    ensures r.None? <==> forall j :: 0 <= j < n ==> j in taken
    ensures r.Some? ==> r.value < n && r.value !in taken
    ensures r.Some? ==> forall j :: 0 <= j < n && j !in taken ==> p[r.value] >= p[j]
    ensures r.Some? ==> forall j :: 0 <= j < n && j !in taken && j != r.value ==> Above(p, r.value, j)
  {
    if n == 0 then None
    else
      var rest := BestIndex(p, taken, n - 1);
      if n - 1 in taken then rest
      else match rest
        case None => Some(n - 1)
        case Some(b) => if p[n - 1] >= p[b] then Some(n - 1) else Some(b)
  }

  /** Extends `prev`, a valid selection of the most likely classes, by the
      best remaining class at a time until it holds `k` classes or all of
      them. */
  function ExtendTop(p: seq<real>, k: nat, prev: seq<nat>): (s: seq<nat>)
    requires |prev| <= k
    requires IsTopK(p, |prev|, prev) && StableOrder(p, prev)
    ensures IsTopK(p, k, s) && StableOrder(p, s)
    decreases k - |prev|
  {
    if |prev| == k then prev
    else
      match BestIndex(p, prev, |p|)
      case None =>
        IndicesExhausted(p, prev);
        prev
      case Some(b) =>
        ExtendStep(p, prev, b);
        ExtendTop(p, k, prev + [b])
  }

  /** Appending the best remaining class keeps a stable top selection. */
  lemma ExtendStep(p: seq<real>, prev: seq<nat>, b: nat)
    requires IsTopK(p, |prev|, prev) && StableOrder(p, prev)
    requires b < |p| && b !in prev
    requires forall j :: 0 <= j < |p| && j !in prev && j != b ==> Above(p, b, j)
    ensures IsTopK(p, |prev| + 1, prev + [b]) && StableOrder(p, prev + [b])
  {
    var s := prev + [b];
    assert forall i :: 0 <= i < |prev| ==> s[i] == prev[i];
    assert s[|prev|] == b;
    assert Distinct(s);
    assert ValidIndices(p, s);
    IndicesBounded(s, |p|);
    forall i, j | 0 <= i < |s| && 0 <= j < |p| && j !in s
      ensures Above(p, s[i], j)
    {
      assert j !in prev && j != b;
    }
    forall i, j | 0 <= i < j < |s|
      ensures Above(p, s[i], s[j])
    {
      if j == |prev| {
        assert s[j] == b && b !in prev;
      }
    }
  }

  /** The `k` most likely classes, most likely first (all of them when
      there are fewer than `k`): `argsort()[-k:][::-1]` with a stable sort,
      for k >= 1 (Python's `[-0:]` would be the whole array; the source
      uses k = 3). */
  function TopIndices(p: seq<real>, k: nat): (s: seq<nat>)
    ensures IsTopK(p, k, s)
    ensures StableOrder(p, s)
  {
    ExtendTop(p, k, [])
  }

  /** When every class is already selected, the selection has all of them. */
  lemma IndicesExhausted(p: seq<real>, prev: seq<nat>)
    requires Distinct(prev) && ValidIndices(p, prev)
    requires forall j :: 0 <= j < |p| ==> j in prev
    ensures |prev| == |p|
  {
    IndicesBounded(prev, |p|);
    if |prev| < |p| {
      MissingIndex(prev, |p|);
    }
  }

  /** Where `a` and `b` are both valid top-k answers, `a` is never more
      likely than `b` at the same rank. */
  lemma NotMoreLikelyAt(p: seq<real>, k: nat, a: seq<nat>, b: seq<nat>, i: nat)
    requires IsTopK(p, k, a) && IsTopK(p, k, b)
    requires i < |a|
    ensures p[a[i]] <= p[b[i]]
  {
    if p[a[i]] > p[b[i]] {
      var pre := a[..i + 1];
      if forall m :: 0 <= m <= i ==> a[m] in b {
        // Each of the i + 1 classes a[0..i] sits above b[i], so in b it
        // must come before position i: i + 1 classes in i places.
        forall x | x in pre
          ensures x in b[..i]
        {
          var m :| 0 <= m < |pre| && pre[m] == x;
          assert a[m] == x && p[x] >= p[a[i]];
          var q :| 0 <= q < |b| && b[q] == x;
          assert q < i;
          assert b[..i][q] == x;
        }
        assert Distinct(pre) by {
          forall u, v | 0 <= u < v < |pre| ensures pre[u] != pre[v] {
            assert pre[u] == a[u] && pre[v] == a[v];
          }
        }
        SubsetLength(pre, b[..i]);
      } else {
        // Some class a[m] ranked above b[i] was left out of b, yet b
        // dominates every class it leaves out.
        assert false;
      }
    }
  }

  /** However ties are ordered, every valid top-k answer reports the same
      probabilities at the same ranks. */
  lemma TopProbabilitiesDetermined(p: seq<real>, k: nat, a: seq<nat>, b: seq<nat>)
    requires IsTopK(p, k, a) && IsTopK(p, k, b)
    ensures |a| == |b|
    ensures forall i :: 0 <= i < |a| ==> p[a[i]] == p[b[i]]
  {
    forall i | 0 <= i < |a|
      ensures p[a[i]] == p[b[i]]
    {
      NotMoreLikelyAt(p, k, a, b, i);
      NotMoreLikelyAt(p, k, b, a, i);
    }
  }

  /** Where `a` and `b` are both top-k answers in stable order, `a[i]`
      never comes before `b[i]`. */
  lemma NotAboveAt(p: seq<real>, k: nat, a: seq<nat>, b: seq<nat>, i: nat)
    requires IsTopK(p, k, a) && StableOrder(p, a)
    requires IsTopK(p, k, b) && StableOrder(p, b)
    requires i < |a|
    ensures !Above(p, a[i], b[i])
  {
    if Above(p, a[i], b[i]) {
      var pre := a[..i + 1];
      if forall m :: 0 <= m <= i ==> a[m] in b {
        // Each of a[0..i] comes before b[i], so in b it sits before
        // position i: i + 1 classes in i places.
        forall x | x in pre
          ensures x in b[..i]
        {
          var m :| 0 <= m < |pre| && pre[m] == x;
          assert a[m] == x && Above(p, x, b[i]);
          var q :| 0 <= q < |b| && b[q] == x;
          assert q < i;
          assert b[..i][q] == x;
        }
        assert Distinct(pre) by {
          forall u, v | 0 <= u < v < |pre| ensures pre[u] != pre[v] {
            assert pre[u] == a[u] && pre[v] == a[v];
          }
        }
        SubsetLength(pre, b[..i]);
      } else {
        // Some a[m] before b[i] was left out of b, yet b puts b[i] before
        // every class it leaves out.
        assert false;
      }
    }
  }

  /** The stable-order top-k answer is unique: the ranking is determined by
      the probabilities alone. */
  lemma StableTopUnique(p: seq<real>, k: nat, a: seq<nat>, b: seq<nat>)
    requires IsTopK(p, k, a) && StableOrder(p, a)
    requires IsTopK(p, k, b) && StableOrder(p, b)
    ensures a == b
  {
    forall i | 0 <= i < |a|
      ensures a[i] == b[i]
    {
      NotAboveAt(p, k, a, b, i);
      NotAboveAt(p, k, b, a, i);
    }
  }

  /** Any selection of `k` classes listed from most to least likely, ties
      broken towards the higher index, is the one `TopIndices` makes: the
      ranking depends on the probabilities alone. */
  lemma TopIndicesUnique(p: seq<real>, k: nat, s: seq<nat>)
    requires IsTopK(p, k, s) && StableOrder(p, s)
    ensures TopIndices(p, k) == s
  {
    StableTopUnique(p, k, TopIndices(p, k), s);
  }

  /** One entry of `top_predictions`, identified by its class; its "name"
      is `Name` of it. */
  datatype Prediction = Prediction(classIndex: nat, confidence: Confidence)

  /** The label of a prediction's class, `class_names[i]`. */
  function Name(pr: Prediction): string
    requires pr.classIndex < ClassCount
  {
    ClassNamesCount();
    ClassNames[pr.classIndex]
  }

  /** The two ways the image branch raises `IndexError`. */
  datatype RankError =
    | NoPredictions         // `top_predictions[0]` on an empty list
    | LabelIndexOutOfRange  // `class_names[i]` with i >= 15

  /** The prediction reported for class `i`: its name is `Name` of it and
      its confidence is `round(p[i] * 100, 2)`, held in hundredths of a
      percent. */
  function PredictionFor(p: seq<real>, i: nat): (r: Prediction)
    requires IsProbabilityVector(p) && i < |p| && i < ClassCount
    ensures r.classIndex == i
    ensures r.confidence.Hundredths? && r.confidence.h <= 10000
    ensures r.confidence.h as real - 0.5 <= p[i] * 10000.0 < r.confidence.h as real + 0.5
  {
    ScaledInPercentRange(p[i]);
    Prediction(i, Hundredths(ScaledProbability(p[i])))
  }

  /** All selected indices have a class name. */
  predicate AllLabelled(idx: seq<nat>)
  {
    forall i :: 0 <= i < |idx| ==> idx[i] < ClassCount
  }

  /** `preds` names, in order, the classes selected by `idx`. */
  predicate LabelledAs(p: seq<real>, idx: seq<nat>, preds: seq<Prediction>)
    requires IsProbabilityVector(p) && ValidIndices(p, idx)
  {
    && AllLabelled(idx)
    && |preds| == |idx|
    && forall i :: 0 <= i < |idx| ==> preds[i] == PredictionFor(p, idx[i])
  }

  /** The loop that turns selected indices into predictions, in order,
      stopping at the first index with no class name. */
  function Label(p: seq<real>, idx: seq<nat>): (r: Result<seq<Prediction>, RankError>)
    requires IsProbabilityVector(p) && ValidIndices(p, idx)
    ensures r.Ok? <==> AllLabelled(idx)
    ensures r.Ok? ==> LabelledAs(p, idx, r.value)
    ensures r.Err? ==> r.error == LabelIndexOutOfRange
  {
    if |idx| == 0 then Ok([])
    else if idx[0] >= ClassCount then Err(LabelIndexOutOfRange)
    else
      match Label(p, idx[1..])
      case Err(e) => Err(e)
      case Ok(rest) => Ok([PredictionFor(p, idx[0])] + rest)
  }

  /** app.py:103-111 for a selection of `k` classes: rank, label, and fail
      when there is no first entry. */
  function RankTop(p: seq<real>, k: nat): (r: Result<seq<Prediction>, RankError>)
    requires IsProbabilityVector(p)
    ensures r.Ok? ==> 1 <= |r.value| == Min(k, |p|)
    ensures r.Ok? <==> |p| > 0 && k > 0 && AllLabelled(TopIndices(p, k))
    ensures r.Ok? ==> LabelledAs(p, TopIndices(p, k), r.value)
  {
    var idx := TopIndices(p, k);
    var labelled := Label(p, idx);
    if labelled.Err? then Err(labelled.error)
    else if |labelled.value| == 0 then Err(NoPredictions)
    else Ok(labelled.value)
  }

  /** The top-3 predictions of the image branch. */
  function Rank(p: seq<real>): (r: Result<seq<Prediction>, RankError>)
    requires IsProbabilityVector(p)
    ensures r.Ok? ==> 1 <= |r.value| <= TopCount
  {
    RankTop(p, TopCount)
  }

  /** No two classes share a label. */
  lemma ClassNamesDistinct()
    ensures Distinct(ClassNames)
  {
  }

  /** Predictions of distinct selected classes carry distinct names. */
  lemma LabelledNamesDistinct(p: seq<real>, idx: seq<nat>, preds: seq<Prediction>)
    requires IsProbabilityVector(p) && ValidIndices(p, idx) && Distinct(idx)
    requires LabelledAs(p, idx, preds)
    ensures forall i, j :: 0 <= i < j < |preds| ==> Name(preds[i]) != Name(preds[j])
  {
    ClassNamesDistinct();
    forall i, j | 0 <= i < j < |preds|
      ensures Name(preds[i]) != Name(preds[j])
    {
      assert preds[i].classIndex == idx[i] && preds[j].classIndex == idx[j];
    }
  }

  /** Predictions of a top-k selection: confidences in [0, 100], in
      non-increasing order, the first at least the rounded confidence of
      every class. */
  lemma LabelledConfidencesRanked(p: seq<real>, k: nat, idx: seq<nat>, preds: seq<Prediction>)
    requires IsProbabilityVector(p) && IsTopK(p, k, idx)
    requires LabelledAs(p, idx, preds)
    ensures forall i, j :: 0 <= i < j < |preds| ==> InHundredths(preds[i].confidence) >= InHundredths(preds[j].confidence)
    ensures forall i :: 0 <= i < |preds| ==> InHundredths(preds[i].confidence) <= 10000
    ensures |preds| > 0 ==> forall j :: 0 <= j < |p| ==> ScaledProbability(p[j]) <= InHundredths(preds[0].confidence)
  {
    forall i, j | 0 <= i < j < |preds|
      ensures InHundredths(preds[i].confidence) >= InHundredths(preds[j].confidence)
    {
      ScaledMonotone(p[idx[j]], p[idx[i]]);
    }
    forall i | 0 <= i < |preds|
      ensures InHundredths(preds[i].confidence) <= 10000
    {
      ScaledInPercentRange(p[idx[i]]);
    }
    if |preds| > 0 {
      forall j | 0 <= j < |p|
        ensures ScaledProbability(p[j]) <= InHundredths(preds[0].confidence)
      {
        if j in idx {
          var m :| 0 <= m < |idx| && idx[m] == j;
        }
        ScaledMonotone(p[j], p[idx[0]]);
      }
    }
  }

  /** The reported confidences depend only on the probabilities: any valid
      top-k choice, whatever its tie order, yields the same ones. */
  lemma RankTopTieIndependent(p: seq<real>, k: nat, s: seq<nat>)
    requires IsProbabilityVector(p)
    requires RankTop(p, k).Ok?
    requires IsTopK(p, k, s)
    ensures |s| == |RankTop(p, k).value|
    ensures forall i :: 0 <= i < |s| ==>
      RankTop(p, k).value[i].confidence == Hundredths(ScaledProbability(p[s[i]]))
  {
    TopProbabilitiesDetermined(p, k, TopIndices(p, k), s);
  }

  /** On the classifier's 15-entry output the ranking always succeeds with
      exactly three predictions. */
  lemma ClassifierOutputRanks(p: seq<real>)
    requires IsProbabilityVector(p)
    requires |p| == ClassCount
    ensures RankTop(p, TopCount).Ok?
    ensures |RankTop(p, TopCount).value| == TopCount
  {
    var idx := TopIndices(p, TopCount);
    assert AllLabelled(idx);
  }
}
