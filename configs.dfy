/** The category tables of the two Lighthouse configurations: the full
    `senior-friendly` category (custom-config.js) and the `senior-friendly-lite`
    category (custom-config-lite.js). Only the `settings.onlyCategories` list and
    the `categories` data are modelled. */
module Configs {
  import opened Common

  datatype AuditRef = AuditRef(id: string, weight: real)
  datatype Category = Category(title: string, auditRefs: seq<AuditRef>)
  datatype Config = Config(onlyCategories: seq<string>, categories: map<string, Category>)

  const FullCategoryId := "senior-friendly"
  const LiteCategoryId := "senior-friendly-lite"

  function Ids(refs: seq<AuditRef>): (r: seq<string>)
    ensures |r| == |refs|
    ensures forall i :: 0 <= i < |refs| ==> r[i] == refs[i].id
  {
    if refs == [] then [] else [refs[0].id] + Ids(refs[1..])
  }

  /** Sum of the weights, accumulated from the front as the source's loops do. */
  function SumWeights(refs: seq<AuditRef>): real {
    if refs == [] then 0.0 else SumWeights(refs[..|refs| - 1]) + refs[|refs| - 1].weight
  }

  lemma SumWeightsStep(refs: seq<AuditRef>, k: nat)
    requires 0 < k <= |refs|
    ensures SumWeights(refs[..k]) == SumWeights(refs[..k - 1]) + refs[k - 1].weight
  {
    assert refs[..k][..k - 1] == refs[..k - 1];
  }

  /** A run of equal weights adds its length times the weight. */
  lemma {:induction false} SumUniform(refs: seq<AuditRef>, lo: nat, hi: nat, w: real)
    requires lo <= hi <= |refs|
    requires forall i :: lo <= i < hi ==> refs[i].weight == w
    ensures SumWeights(refs[..hi]) == SumWeights(refs[..lo]) + w * (hi - lo) as real
    decreases hi - lo
  {
    if lo < hi {
      SumUniform(refs, lo, hi - 1, w);
      SumWeightsStep(refs, hi);
      assert w * (hi - lo) as real == w * (hi - 1 - lo) as real + w;
    }
  }

  /** No two references share an id. */
  predicate DistinctIds(refs: seq<AuditRef>) {
    forall i, j :: 0 <= i < j < |refs| ==> refs[i].id != refs[j].id
  }

  function FullRefs(): seq<AuditRef> {
    [ AuditRef("color-contrast", 10.0),
      AuditRef("target-size", 10.0),
      AuditRef("viewport", 10.0),
      AuditRef("cumulative-layout-shift", 10.0),
      AuditRef("text-font-audit", 10.0),
      AuditRef("layout-brittle-audit", 10.0),
      AuditRef("largest-contentful-paint", 5.0),
      AuditRef("total-blocking-time", 5.0),
      AuditRef("link-name", 5.0),
      AuditRef("button-name", 5.0),
      AuditRef("label", 5.0),
      AuditRef("interactive-color-audit", 5.0),
      AuditRef("is-on-https", 2.0),
      AuditRef("dom-size", 2.0),
      AuditRef("heading-order", 2.0),
      AuditRef("errors-in-console", 2.0),
      AuditRef("geolocation-on-start", 2.0) ]
  }

  function FullConfig(): Config {
    Config([FullCategoryId],
           map[FullCategoryId := Category("Senior Friendliness", FullRefs())])
  }

  function LiteRefs(): seq<AuditRef> {
    [ AuditRef("color-contrast", 5.0),
      AuditRef("target-size", 5.0),
      AuditRef("font-size", 5.0),
      AuditRef("viewport", 3.0),
      AuditRef("link-name", 3.0),
      AuditRef("button-name", 3.0),
      AuditRef("label", 3.0),
      AuditRef("heading-order", 2.0),
      AuditRef("is-on-https", 2.0),
      AuditRef("largest-contentful-paint", 1.0),
      AuditRef("cumulative-layout-shift", 1.0) ]
  }

  function LiteConfig(): Config {
    Config([LiteCategoryId],
           map[LiteCategoryId := Category("Senior Accessibility (Lite)", LiteRefs())])
  }

  /** The full table has 17 references with pairwise distinct ids. */
  lemma FullRefsDistinct()
    ensures |FullRefs()| == 17
    ensures DistinctIds(FullRefs())
  {
  }

  /** Six weights of 10, then six of 5, then five of 2: they add up to 100. */
  lemma FullWeights()
    ensures forall i :: 0 <= i < 6 ==> FullRefs()[i].weight == 10.0
    ensures forall i :: 6 <= i < 12 ==> FullRefs()[i].weight == 5.0
    ensures forall i :: 12 <= i < 17 ==> FullRefs()[i].weight == 2.0
    ensures SumWeights(FullRefs()) == 100.0
  {
    var refs := FullRefs();
    SumUniform(refs, 0, 6, 10.0);
    SumUniform(refs, 6, 12, 5.0);
    SumUniform(refs, 12, 17, 2.0);
    assert refs[..0] == [] && refs[..17] == refs;
  }

  /** `onlyCategories` names exactly the one category the full config defines. */
  lemma FullOnlyCategories()
    ensures FullConfig().onlyCategories == [FullCategoryId]
    ensures FullConfig().categories.Keys == {FullCategoryId}
  {
  }

  /** The lite table has 11 references with pairwise distinct ids. */
  lemma LiteRefsDistinct()
    ensures |LiteRefs()| == 11
    ensures DistinctIds(LiteRefs())
  {
  }

  /** Three weights of 5, then four of 3, two of 2 and two of 1: they add up to 33. */
  lemma LiteWeights()
    ensures forall i :: 0 <= i < 3 ==> LiteRefs()[i].weight == 5.0
    ensures forall i :: 3 <= i < 7 ==> LiteRefs()[i].weight == 3.0
    ensures forall i :: 7 <= i < 9 ==> LiteRefs()[i].weight == 2.0
    ensures forall i :: 9 <= i < 11 ==> LiteRefs()[i].weight == 1.0
    ensures SumWeights(LiteRefs()) == 33.0
  {
    var refs := LiteRefs();
    SumUniform(refs, 0, 3, 5.0);
    SumUniform(refs, 3, 7, 3.0);
    SumUniform(refs, 7, 9, 2.0);
    SumUniform(refs, 9, 11, 1.0);
    assert refs[..0] == [] && refs[..11] == refs;
  }

  lemma LiteOnlyCategories()
    ensures LiteConfig().onlyCategories == [LiteCategoryId]
    ensures LiteConfig().categories.Keys == {LiteCategoryId}
  {
  }
}
