/** custom_audits/text-audit.js: the `text-font-audit` lists every text
    element whose computed font size is below 16px. The score is 1 in every
    case; the audit exists to feed the highlighter. */
module TextAudit {
  import opened Common
  import opened Lighthouse

  const MinimumFontSize := 16.0

  /** One `PageText` entry. `fontSize` is `parseFloat(textItem.fontSize)`,
      None when that is NaN. */
  datatype TextItem = TextItem(
    text: string, fontSize: Option<real>, top: real, left: real, width: real, height: real,
    containerTag: string, containerSelector: string)

  /** One failing item of the result table. */
  datatype FailingText = FailingText(textSnippet: string, rect: Rect, containerTag: string, containerSelector: string)

  /** `{ score: 1, notApplicable: true }` has no items; otherwise `details`
      holds the failing items. */
  datatype TextAuditResult = TextAuditResult(score: real, notApplicable: bool, items: Option<seq<FailingText>>)

  /** `parseFloat(fontSize) < 16`: NaN compares false. */
  predicate TooSmall(t: TextItem) {
    t.fontSize.Some? && t.fontSize.value < MinimumFontSize
  }

  /** The item pushed for a text element that fails, if it fails. */
  function Failure(t: TextItem): Option<FailingText> {
    if TooSmall(t) then
      Some(FailingText(t.text, Rect(t.left, t.top, t.width, t.height), t.containerTag, t.containerSelector))
    else None
  }

  function FailingItems(collected: seq<TextItem>): seq<FailingText> {
    Collect(collected, Failure)
  }

  /** `TextAudit.audit(artifacts)` */
  method Audit(collected: seq<TextItem>) returns (r: TextAuditResult)
    ensures collected == [] ==> r == TextAuditResult(1.0, true, None)
    ensures collected != [] ==> r == TextAuditResult(1.0, false, Some(FailingItems(collected)))
  {
    if |collected| == 0 {
      return TextAuditResult(1.0, true, None);
    }
    var failingItems := [];
    for i := 0 to |collected|
      invariant failingItems == Collect(collected[..i], Failure)
    {
      CollectStep(collected, i, Failure);
      var textItem := collected[i];
      if textItem.fontSize.Some? && textItem.fontSize.value < MinimumFontSize {
        failingItems := failingItems + [FailingText(textItem.text, Rect(textItem.left, textItem.top, textItem.width, textItem.height),
                                                    textItem.containerTag, textItem.containerSelector)];
      }
    }
    assert collected[..|collected|] == collected;
    r := TextAuditResult(1.0, false, Some(failingItems));
  }

  /** The failing items are exactly the copies of the text elements below
      16px: each carries the element's text, rect and container. */
  lemma FailingItemsExactly(collected: seq<TextItem>, f: FailingText)
    ensures |FailingItems(collected)| <= |collected|
    ensures f in FailingItems(collected) <==>
              exists i :: 0 <= i < |collected| && TooSmall(collected[i]) &&
                f == FailingText(collected[i].text, Rect(collected[i].left, collected[i].top, collected[i].width, collected[i].height),
                                 collected[i].containerTag, collected[i].containerSelector)
  {
    CollectMembers(collected, Failure, f);
  }

  /** Input order is kept: the items for two runs of text are those of the
      first followed by those of the second. */
  lemma FailingItemsInOrder(a: seq<TextItem>, b: seq<TextItem>)
    ensures FailingItems(a + b) == FailingItems(a) + FailingItems(b)
  {
    CollectAppend(a, b, Failure);
  }

  /** When every element is below 16px, every element is listed, in order. */
  lemma AllSmallAllListed(collected: seq<TextItem>)
    requires forall i :: 0 <= i < |collected| ==> TooSmall(collected[i])
    ensures |FailingItems(collected)| == |collected|
    ensures forall i :: 0 <= i < |collected| ==> FailingItems(collected)[i].textSnippet == collected[i].text
  {
    CollectTotal(collected, Failure);
  }
}
