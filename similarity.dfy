/**
 * Best-match selection of the AI engine. Feature extraction and the cosine
 * similarity itself are library numerics; the cosine is a parameter here, an
 * arbitrary real-valued function of two vectors.
 */
module Similarity {
  import opened Wrappers

  type Vector = seq<real>

  /** `max(0.0, min(1.0, x))`. */
  function Clamp(x: real): (r: real)
    ensures 0.0 <= r <= 1.0
    ensures 0.0 <= x <= 1.0 ==> r == x
    ensures x < 0.0 ==> r == 0.0
    ensures x > 1.0 ==> r == 1.0
  {
    if 1.0 < x then 1.0 else if x < 0.0 then 0.0 else x
  }

  /** `calculate_similarity`: the cosine of the two vectors, clamped to [0, 1]. */
  function CalculateSimilarity(cosine: (Vector, Vector) -> real, a: Vector, b: Vector): (r: real)
    ensures 0.0 <= r <= 1.0
  {
    Clamp(cosine(a, b))
  }

  /** The score of every candidate against the query, in order. */
  function Scores(query: Vector, candidates: seq<(int, Vector)>, cosine: (Vector, Vector) -> real): (s: seq<real>)
    ensures |s| == |candidates|
    ensures forall j :: 0 <= j < |s| ==> s[j] == CalculateSimilarity(cosine, query, candidates[j].1)
  {
    seq(|candidates|, j requires 0 <= j < |candidates| => CalculateSimilarity(cosine, query, candidates[j].1))
  }

  /** `k` is the first position holding the largest score. */
  predicate IsFirstMax(s: seq<real>, k: int) {
    && 0 <= k < |s|
    && (forall j :: 0 <= j < |s| ==> s[j] <= s[k])
    && (forall j :: 0 <= j < k ==> s[j] < s[k])
  }

  /** There is only one first maximum, so the tie rule fixes the answer. */
  lemma FirstMaxUnique(s: seq<real>, k1: int, k2: int)
    requires IsFirstMax(s, k1) && IsFirstMax(s, k2)
    ensures k1 == k2
  {
    assert s[k1] <= s[k2] && s[k2] <= s[k1];
  }

  /**
   * `find_most_similar`: the id and score of the candidate with the largest
   * clamped similarity, the earliest one on ties; `(None, 0.0)` for no
   * candidates.
   */
  method FindMostSimilar(query: Vector, candidates: seq<(int, Vector)>, cosine: (Vector, Vector) -> real)
    returns (bestId: Option<int>, best: real)
    ensures |candidates| == 0 ==> bestId == None && best == 0.0
    ensures bestId.None? <==> |candidates| == 0
    ensures |candidates| > 0 ==>
      exists k :: IsFirstMax(Scores(query, candidates, cosine), k) &&
        bestId == Some(candidates[k].0) && best == Scores(query, candidates, cosine)[k]
  {
    if |candidates| == 0 {
      return None, 0.0;
    }
    ghost var s := Scores(query, candidates, cosine);
    ghost var k := 0;
    bestId, best := None, -1.0;
    var i := 0;
    while i < |candidates|
      invariant 0 <= i <= |candidates| && 0 <= k < |candidates|
      invariant i == 0 ==> bestId == None && best == -1.0
      invariant i > 0 ==> 0 <= k < i && bestId == Some(candidates[k].0) && best == s[k]
      invariant forall j :: 0 <= j < i ==> s[j] <= best
      invariant forall j :: 0 <= j < k ==> s[j] < best
    {
      var (imageId, vector) := candidates[i];
      var similarity := CalculateSimilarity(cosine, query, vector);
      if similarity > best {
        best := similarity;
        bestId := Some(imageId);
        k := i;
      }
      i := i + 1;
    }
    assert IsFirstMax(s, k);
  }
}
