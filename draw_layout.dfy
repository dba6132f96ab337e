/** draw_boxes_layout.js: highlight every element the custom
    `layout-brittle-audit` flags, in blue, with no filtering. The screenshot
    is written to a fixed temporary file that is removed afterwards. */
module LayoutBrittleHighlight {
  import opened Common
  import opened Lighthouse
  import opened BoxGeometry

  const AuditId := "layout-brittle-audit"
  const FixedOutputPath := "./highlighted-layout-brittle.png"
  const TempScreenshotPath := "./temp_screenshot_layout.png"

  /** Items whose node has a bounding rect become blue boxes labelled with
      the node label ("" when absent). */
  function LayoutBox(item: Item): Option<Box> {
    if item.node.Some? && item.node.value.boundingRect.Some? then
      Some(Box(item.node.value.boundingRect.value, "blue", item.node.value.nodeLabel, "", "", ""))
    else None
  }

  /** Every extracted box is blue and is the bounding rect and label of some
      flagged item's node. */
  lemma LayoutBoxesFromNodes(report: Report, b: Box)
    requires b in Extracted(AuditItems(report, AuditId), LayoutBox)
    ensures b.color == "blue"
    ensures exists i :: 0 <= i < |AuditItems(report, AuditId)| &&
              var item := AuditItems(report, AuditId)[i];
              item.node.Some? && item.node.value.boundingRect == Some(b.rect) && item.node.value.nodeLabel == b.textSnippet
  {
    CollectMembers(AuditItems(report, AuditId), LayoutBox, b);
  }

  function FinalBoxes(report: Report): seq<Box> {
    Extracted(AuditItems(report, AuditId), LayoutBox)
  }

  /** Steps shared by both entry points, drawing to `outputImagePath`; the
      run returns that path when an image was drawn. */
  method HighlightLayoutBrittle(parsed: Outcome<Report>, outputImagePath: string) returns (run: ProcessorRun)
    ensures parsed.Threw? || parsed.value.screenshot == "" ==> run == ProcessorRun(None, None, None, false)
    ensures parsed.Returned? && parsed.value.screenshot != "" ==>
              run.temp == Some(TempScreenshotPath) && run.tempRemoved
    ensures run.drawn.Some? <==> parsed.Returned? && parsed.value.screenshot != "" && FinalBoxes(parsed.value) != []
    ensures run.drawn.Some? ==>
              run.drawn.value.path == outputImagePath && run.returned == Some(outputImagePath) &&
              |run.drawn.value.marks| == |FinalBoxes(parsed.value)| &&
              forall k :: 0 <= k < |run.drawn.value.marks| ==>
                run.drawn.value.marks[k] == ScaledMark(FinalBoxes(parsed.value)[k], k, 1.0)
    ensures run.drawn.None? ==> run.returned == None
  {
    if parsed.Threw? {
      return ProcessorRun(None, None, None, false);
    }
    var report := parsed.value;
    if report.screenshot == "" {
      return ProcessorRun(None, None, None, false);
    }
    var finalBoxes := ExtractBoxes(report, AuditId, LayoutBox);
    if |finalBoxes| == 0 {
      return ProcessorRun(None, None, Some(TempScreenshotPath), true);
    }
    var marks := ScaledMarks(finalBoxes, 1.0);
    run := ProcessorRun(Some(outputImagePath), Some(Drawing(outputImagePath, marks)), Some(TempScreenshotPath), true);
  }

  /** `processLayoutBrittleAudit(jsonReportPath)` as written: it always draws
      to the fixed `./highlighted-layout-brittle.png` and returns `undefined`. */
  method ProcessLayoutBrittleAudit(parsed: Outcome<Report>) returns (run: ProcessorRun)
    ensures run.returned == None
    ensures run.drawn.Some? ==> run.drawn.value.path == FixedOutputPath
    ensures run.drawn.Some? <==> parsed.Returned? && parsed.value.screenshot != "" && FinalBoxes(parsed.value) != []
  {
    run := HighlightLayoutBrittle(parsed, FixedOutputPath);
    run := run.(returned := None);
  }

  /** The processor as draw_all.js uses it: it draws to the path it is given
      and returns that path when it drew, None otherwise. */
  method ProcessLayoutBrittleAuditTo(parsed: Outcome<Report>, outputImagePath: string) returns (run: ProcessorRun)
    ensures run.returned.Some? <==> run.drawn.Some?
    ensures run.drawn.Some? ==> run.returned == Some(outputImagePath) && run.drawn.value.path == outputImagePath
    ensures run.drawn.Some? <==> parsed.Returned? && parsed.value.screenshot != "" && FinalBoxes(parsed.value) != []
  {
    run := HighlightLayoutBrittle(parsed, outputImagePath);
  }
}
