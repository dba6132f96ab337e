/** draw_boxes_contrast.js: highlight the elements the standard
    `color-contrast` audit flags, in yellow, skipping boxes over empty
    screenshot regions. The screenshot stays in memory; reading and parsing
    the report is the `parsed` input, whose failure propagates. */
module ColorContrastHighlight {
  import opened Common
  import opened Lighthouse
  import opened BoxGeometry

  const AuditId := "color-contrast"
  const FixedOutputPath := "./highlighted-color-contrast.png"
  const BoxColor := "yellow"

  /** Items whose node has a bounding rect become boxes carrying the node's
      label and selector and the item's explanation. */
  function ContrastBox(item: Item): Option<Box> {
    if item.node.Some? && item.node.value.boundingRect.Some? then
      Some(Box(item.node.value.boundingRect.value, "", "", item.node.value.nodeLabel, item.node.value.selector, item.explanation))
    else None
  }

  /** Every extracted box is the bounding rect, label, selector and
      explanation of some flagged item's node. */
  lemma ContrastBoxesFromNodes(report: Report, b: Box)
    requires b in Extracted(AuditItems(report, AuditId), ContrastBox)
    ensures exists i :: 0 <= i < |AuditItems(report, AuditId)| &&
              var item := AuditItems(report, AuditId)[i];
              item.node.Some? && item.node.value.boundingRect == Some(b.rect) &&
              item.node.value.nodeLabel == b.nodeLabel && item.node.value.selector == b.selector &&
              item.explanation == b.explanation
  {
    CollectMembers(AuditItems(report, AuditId), ContrastBox, b);
  }

  /** The boxes the image shows: flagged and over visible content. */
  function FinalBoxes(report: Report, stdevs: Rect -> Option<seq<real>>): seq<Box> {
    Visible(Extracted(AuditItems(report, AuditId), ContrastBox), stdevs)
  }

  /** Steps shared by both entry points, drawing to `outputImagePath`; the
      run returns that path when an image was drawn. */
  method HighlightColorContrast(parsed: Outcome<Report>, outputImagePath: string, stdevs: Rect -> Option<seq<real>>)
    returns (r: Outcome<ProcessorRun>)
    ensures parsed.Threw? ==> r == Threw(parsed.message)
    ensures parsed.Returned? ==> r.Returned? && r.value.temp == None && !r.value.tempRemoved
    ensures r.Returned? && r.value.drawn.Some? <==>
              parsed.Returned? && parsed.value.screenshot != "" && FinalBoxes(parsed.value, stdevs) != []
    ensures r.Returned? && r.value.drawn.Some? ==>
              r.value.drawn.value.path == outputImagePath && r.value.returned == Some(outputImagePath) &&
              |r.value.drawn.value.marks| == |FinalBoxes(parsed.value, stdevs)| &&
              forall k :: 0 <= k < |r.value.drawn.value.marks| ==>
                r.value.drawn.value.marks[k] == PlainMark(FinalBoxes(parsed.value, stdevs)[k], k, BoxColor)
    ensures r.Returned? && r.value.drawn.None? ==> r.value.returned == None
  {
    if parsed.Threw? {
      return Threw(parsed.message);
    }
    var report := parsed.value;
    if report.screenshot == "" {
      return Returned(ProcessorRun(None, None, None, false));
    }
    var allBoxes := ExtractBoxes(report, AuditId, ContrastBox);
    var finalBoxes, _ := PartitionVisible(allBoxes, stdevs);
    if |finalBoxes| == 0 {
      return Returned(ProcessorRun(None, None, None, false));
    }
    var marks := PlainMarks(finalBoxes, BoxColor);
    r := Returned(ProcessorRun(Some(outputImagePath), Some(Drawing(outputImagePath, marks)), None, false));
  }

  /** `processColorContrastAudit(jsonReportPath)` as written: it always draws
      to the fixed `./highlighted-color-contrast.png` and returns `undefined`. */
  method ProcessColorContrastAudit(parsed: Outcome<Report>, stdevs: Rect -> Option<seq<real>>) returns (r: Outcome<ProcessorRun>)
    ensures parsed.Threw? ==> r == Threw(parsed.message)
    ensures r.Returned? ==> r.value.returned == None
    ensures r.Returned? && r.value.drawn.Some? ==> r.value.drawn.value.path == FixedOutputPath
    ensures r.Returned? && r.value.drawn.Some? <==>
              parsed.Returned? && parsed.value.screenshot != "" && FinalBoxes(parsed.value, stdevs) != []
  {
    r := HighlightColorContrast(parsed, FixedOutputPath, stdevs);
    if r.Returned? {
      r := Returned(r.value.(returned := None));
    }
  }

  /** The processor as draw_all.js uses it: it draws to the path it is given
      and returns that path when it drew, None otherwise. */
  method ProcessColorContrastAuditTo(parsed: Outcome<Report>, outputImagePath: string, stdevs: Rect -> Option<seq<real>>)
    returns (r: Outcome<ProcessorRun>)
    ensures parsed.Threw? ==> r == Threw(parsed.message)
    ensures r.Returned? ==> (r.value.returned.Some? <==> r.value.drawn.Some?)
    ensures r.Returned? && r.value.drawn.Some? ==>
              r.value.returned == Some(outputImagePath) && r.value.drawn.value.path == outputImagePath
    ensures r.Returned? && r.value.drawn.Some? <==>
              parsed.Returned? && parsed.value.screenshot != "" && FinalBoxes(parsed.value, stdevs) != []
  {
    r := HighlightColorContrast(parsed, outputImagePath, stdevs);
  }
}
