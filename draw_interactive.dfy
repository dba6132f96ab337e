/** draw_boxes_interactivecolor.js: highlight the links the custom
    `interactive-color-audit` flags, in orange, skipping boxes over empty
    screenshot regions. This processor takes its output path from the caller
    and returns it when it drew an image. */
module InteractiveColorHighlight {
  import opened Common
  import opened Lighthouse
  import opened BoxGeometry

  const AuditId := "interactive-color-audit"
  const BoxColor := "orange"
  const MissingOutputPath := "outputImagePath is required for processInteractiveColorAudit."

  /** Items whose node has a bounding rect become boxes with the item's link
      text and explanation. */
  function InteractiveBox(item: Item): Option<Box> {
    if item.node.Some? && item.node.value.boundingRect.Some? then
      Some(Box(item.node.value.boundingRect.value, "", item.text, "", "", item.explanation))
    else None
  }

  /** Every extracted box is the bounding rect, text and explanation of
      some flagged item. */
  lemma InteractiveBoxesFromNodes(report: Report, b: Box)
    requires b in Extracted(AuditItems(report, AuditId), InteractiveBox)
    ensures exists i :: 0 <= i < |AuditItems(report, AuditId)| &&
              var item := AuditItems(report, AuditId)[i];
              item.node.Some? && item.node.value.boundingRect == Some(b.rect) &&
              item.text == b.textSnippet && item.explanation == b.explanation
  {
    CollectMembers(AuditItems(report, AuditId), InteractiveBox, b);
  }

  function FinalBoxes(report: Report, stdevs: Rect -> Option<seq<real>>): seq<Box> {
    Visible(Extracted(AuditItems(report, AuditId), InteractiveBox), stdevs)
  }

  /** `processInteractiveColorAudit(jsonReportPath, outputImagePath)`: an
      empty output path throws before the report is read; a report without a
      screenshot, or with nothing visible to highlight, gives null. */
  method ProcessInteractiveColorAudit(parsed: Outcome<Report>, outputImagePath: string, stdevs: Rect -> Option<seq<real>>)
    returns (r: Outcome<ProcessorRun>)
    ensures outputImagePath == "" ==> r == Threw(MissingOutputPath)
    ensures outputImagePath != "" && parsed.Threw? ==> r == Threw(parsed.message)
    ensures r.Returned? ==> r.value.temp == None && (r.value.returned.Some? <==> r.value.drawn.Some?)
    ensures r.Returned? && r.value.drawn.Some? <==>
              outputImagePath != "" && parsed.Returned? && parsed.value.screenshot != "" && FinalBoxes(parsed.value, stdevs) != []
    ensures r.Returned? && r.value.drawn.Some? ==>
              r.value.returned == Some(outputImagePath) && r.value.drawn.value.path == outputImagePath &&
              |r.value.drawn.value.marks| == |FinalBoxes(parsed.value, stdevs)| &&
              forall k :: 0 <= k < |r.value.drawn.value.marks| ==>
                r.value.drawn.value.marks[k] == PlainMark(FinalBoxes(parsed.value, stdevs)[k], k, BoxColor)
  {
    if outputImagePath == "" {
      return Threw(MissingOutputPath);
    }
    if parsed.Threw? {
      return Threw(parsed.message);
    }
    var report := parsed.value;
    if report.screenshot == "" {
      return Returned(ProcessorRun(None, None, None, false));
    }
    var allBoxes := ExtractBoxes(report, AuditId, InteractiveBox);
    var finalBoxes, visuallyEmptyBoxes := PartitionVisible(allBoxes, stdevs);
    if |finalBoxes| == 0 {
      return Returned(ProcessorRun(None, None, None, false));
    }
    var marks := PlainMarks(finalBoxes, BoxColor);
    r := Returned(ProcessorRun(Some(outputImagePath), Some(Drawing(outputImagePath, marks)), None, false));
  }
}
