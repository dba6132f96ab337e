/** The weighted average shared by the three score calculators
    (`calculateSeniorFriendlinessScore` in audit.js and pdf_generator.js,
    `calculateLiteScore` in pdf-generator-lite.js): every reference of the
    category contributes `score * weight`, where an absent result or a null
    score counts as 0, and every weight is added to the total. */
module Scoring {
  import opened Common
  import opened Lighthouse
  import opened Configs

  /** `result ? (result.score ?? 0) : 0` for `result = auditResults[id]`. */
  function ScoreOf(audits: map<string, AuditData>, id: string): real {
    if id in audits && audits[id].score.Some? then audits[id].score.value else 0.0
  }

  /** Sum of `score * weight` over the references, from the front. */
  function WeightedSum(refs: seq<AuditRef>, audits: map<string, AuditData>): real {
    if refs == [] then 0.0
    else WeightedSum(refs[..|refs| - 1], audits) + ScoreOf(audits, refs[|refs| - 1].id) * refs[|refs| - 1].weight
  }

  /** Ids of the references with no result, in reference order. */
  function MissingIds(refs: seq<AuditRef>, audits: map<string, AuditData>): seq<string> {
    if refs == [] then []
    else MissingIds(refs[..|refs| - 1], audits) + (if refs[|refs| - 1].id in audits then [] else [refs[|refs| - 1].id])
  }

  /** `(totalWeightedScore / totalWeight) * 100` */
  function Percent(weighted: real, total: real): real
    requires total != 0.0
  {
    weighted / total * 100.0
  }

  predicate ScoresInUnit(audits: map<string, AuditData>) {
    forall id :: id in audits && audits[id].score.Some? ==> 0.0 <= audits[id].score.value <= 1.0
  }

  predicate NonNegativeWeights(refs: seq<AuditRef>) {
    forall i :: 0 <= i < |refs| ==> refs[i].weight >= 0.0
  }

  /** What the accumulator loop leaves behind. */
  datatype Totals = Totals(weighted: real, total: real, missing: seq<string>, processed: nat)

  /** The `for (const auditRef of auditRefs)` loop, with the missing-audit list
      and the processed counter of the audit.js variant. */
  method Accumulate(refs: seq<AuditRef>, audits: map<string, AuditData>) returns (t: Totals)
    ensures t.weighted == WeightedSum(refs, audits)
    ensures t.total == SumWeights(refs)
    ensures t.missing == MissingIds(refs, audits)
    ensures t.processed + |t.missing| == |refs|
  {
    var weighted, total, missing, processed := 0.0, 0.0, [], 0;
    for i := 0 to |refs|
      invariant weighted == WeightedSum(refs[..i], audits)
      invariant total == SumWeights(refs[..i])
      invariant missing == MissingIds(refs[..i], audits)
      invariant processed + |missing| == i
    {
      var id, weight := refs[i].id, refs[i].weight;
      var score := ScoreOf(audits, id);
      if id !in audits {
        missing := missing + [id];
      } else {
        processed := processed + 1;
      }
      weighted := weighted + score * weight;
      total := total + weight;
      assert refs[..i + 1][..i] == refs[..i];
    }
    assert refs[..|refs|] == refs;
    t := Totals(weighted, total, missing, processed);
  }

  lemma ProductInUnit(s: real, w: real)
    requires 0.0 <= s <= 1.0 && w >= 0.0
    ensures 0.0 <= s * w <= w
  {
    assert w - s * w == (1.0 - s) * w;
  }

  /** With scores in [0,1] and non-negative weights, the weighted sum lies
      between 0 and the total weight. */
  lemma {:induction false} WeightedSumBounds(refs: seq<AuditRef>, audits: map<string, AuditData>)
    requires NonNegativeWeights(refs) && ScoresInUnit(audits)
    ensures 0.0 <= WeightedSum(refs, audits) <= SumWeights(refs)
  {
    if refs != [] {
      var n := |refs| - 1;
      var prefix := refs[..n];
      assert NonNegativeWeights(prefix) by {
        forall i | 0 <= i < |prefix| ensures prefix[i].weight >= 0.0 {
          assert prefix[i] == refs[i];
        }
      }
      WeightedSumBounds(prefix, audits);
      ScoreOfInUnit(audits, refs[n].id);
      var s, w := ScoreOf(audits, refs[n].id), refs[n].weight;
      ProductInUnit(s, w);
      SumWeightsStep(refs, |refs|);
      assert refs[..|refs|] == refs;
      AddBounds(WeightedSum(prefix, audits), SumWeights(prefix), s * w, w);
    }
  }

  lemma AddBounds(a: real, b: real, x: real, y: real)
    requires 0.0 <= a <= b && 0.0 <= x <= y
    ensures 0.0 <= a + x <= b + y
  {
  }

  /** The final score lies in [0, 100]. */
  lemma PercentBounds(refs: seq<AuditRef>, audits: map<string, AuditData>)
    requires NonNegativeWeights(refs) && ScoresInUnit(audits) && SumWeights(refs) != 0.0
    ensures 0.0 <= Percent(WeightedSum(refs, audits), SumWeights(refs)) <= 100.0
  {
    WeightedSumBounds(refs, audits);
    var w, t := WeightedSum(refs, audits), SumWeights(refs);
    assert t > 0.0;
    QuotientInUnit(w, t);
  }

  lemma QuotientInUnit(w: real, t: real)
    requires 0.0 <= w <= t && t > 0.0
    ensures 0.0 <= w / t <= 1.0
  {
  }

  lemma ScoreOfInUnit(audits: map<string, AuditData>, id: string)
    requires ScoresInUnit(audits)
    ensures 0.0 <= ScoreOf(audits, id) <= 1.0
  {
  }

  /** Only the per-id scores matter: two result maps that give every
      referenced id the same score give the same weighted sum. */
  lemma {:induction false} WeightedSumDependsOnScores(refs: seq<AuditRef>, a: map<string, AuditData>, b: map<string, AuditData>)
    requires forall i :: 0 <= i < |refs| ==> ScoreOf(a, refs[i].id) == ScoreOf(b, refs[i].id)
    ensures WeightedSum(refs, a) == WeightedSum(refs, b)
  {
    if refs != [] {
      WeightedSumDependsOnScores(refs[..|refs| - 1], a, b);
    }
  }

  /** An absent result and a result with a null score both weigh in as a
      score of 0; the total weight does not depend on the results at all. */
  lemma AbsentOrNullIsZero(refs: seq<AuditRef>, audits: map<string, AuditData>, id: string, items: Option<seq<Item>>)
    ensures WeightedSum(refs, audits - {id}) == WeightedSum(refs, audits[id := AuditData(Some(0.0), items)])
    ensures WeightedSum(refs, audits[id := AuditData(None, items)]) == WeightedSum(refs, audits[id := AuditData(Some(0.0), items)])
  {
    WeightedSumDependsOnScores(refs, audits - {id}, audits[id := AuditData(Some(0.0), items)]);
    WeightedSumDependsOnScores(refs, audits[id := AuditData(None, items)], audits[id := AuditData(Some(0.0), items)]);
  }

  /** Raising scores pointwise never lowers the weighted sum. */
  lemma {:induction false} WeightedSumMonotone(refs: seq<AuditRef>, a: map<string, AuditData>, b: map<string, AuditData>)
    requires NonNegativeWeights(refs)
    requires forall i :: 0 <= i < |refs| ==> ScoreOf(a, refs[i].id) <= ScoreOf(b, refs[i].id)
    ensures WeightedSum(refs, a) <= WeightedSum(refs, b)
  {
    if refs != [] {
      var n := |refs| - 1;
      WeightedSumMonotone(refs[..n], a, b);
      var w := refs[n].weight;
      assert ScoreOf(b, refs[n].id) * w - ScoreOf(a, refs[n].id) * w == (ScoreOf(b, refs[n].id) - ScoreOf(a, refs[n].id)) * w;
    }
  }

  /** Raising one audit's score, all others fixed, never lowers the final score. */
  lemma RaiseOneScore(refs: seq<AuditRef>, audits: map<string, AuditData>, id: string, s: real, items: Option<seq<Item>>)
    requires NonNegativeWeights(refs) && SumWeights(refs) != 0.0
    requires ScoreOf(audits, id) <= s
    ensures Percent(WeightedSum(refs, audits), SumWeights(refs))
         <= Percent(WeightedSum(refs, audits[id := AuditData(Some(s), items)]), SumWeights(refs))
  {
    var raised := audits[id := AuditData(Some(s), items)];
    WeightedSumMonotone(refs, audits, raised);
    var t := SumWeights(refs);
    assert t > 0.0 by {
      SumWeightsNonNegative(refs);
    }
    var x, y := WeightedSum(refs, audits), WeightedSum(refs, raised);
    QuotientMonotone(x, y, t);
  }

  lemma QuotientMonotone(x: real, y: real, t: real)
    requires x <= y && t > 0.0
    ensures x / t * 100.0 <= y / t * 100.0
  {
  }

  lemma {:induction false} SumWeightsNonNegative(refs: seq<AuditRef>)
    requires NonNegativeWeights(refs)
    ensures SumWeights(refs) >= 0.0
  {
    if refs != [] {
      SumWeightsNonNegative(refs[..|refs| - 1]);
    }
  }

  /** With scores in [0,1] and non-negative weights, the weighted sum is 0
      exactly when every reference contributes 0. */
  lemma {:induction false} WeightedSumZero(refs: seq<AuditRef>, audits: map<string, AuditData>)
    requires NonNegativeWeights(refs) && ScoresInUnit(audits)
    ensures WeightedSum(refs, audits) == 0.0
        <==> forall i :: 0 <= i < |refs| ==> ScoreOf(audits, refs[i].id) * refs[i].weight == 0.0
  {
    if refs != [] {
      var n := |refs| - 1;
      WeightedSumZero(refs[..n], audits);
      WeightedSumBounds(refs[..n], audits);
      ScoreOfInUnit(audits, refs[n].id);
      ProductInUnit(ScoreOf(audits, refs[n].id), refs[n].weight);
      assert forall i :: 0 <= i < n ==> refs[..n][i] == refs[i];
    }
  }

  /** The missing list is exactly the referenced ids without a result, in
      reference order. */
  lemma {:induction false} MissingIdsInOrder(refs: seq<AuditRef>, audits: map<string, AuditData>)
    ensures MissingIds(refs, audits) == Filter(Ids(refs), (x: string) => x !in audits)
  {
    if refs != [] {
      var n := |refs| - 1;
      MissingIdsInOrder(refs[..n], audits);
      assert Ids(refs) == Ids(refs[..n]) + [refs[n].id];
      FilterAppend(Ids(refs[..n]), refs[n].id, (x: string) => x !in audits);
    }
  }
}
