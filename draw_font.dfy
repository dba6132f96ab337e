/** draw_boxes_fontSize.js: highlight the elements the `text-font-audit`
    flags. Boxes that strictly contain another flagged box are dropped, then
    boxes over empty screenshot regions, and the rest are drawn in red with
    numbered badges. Reading and parsing the report file is the `parsed`
    input; the screenshot is written to a fixed temporary file. */
module TextFontHighlight {
  import opened Common
  import opened Lighthouse
  import opened BoxGeometry

  const AuditId := "text-font-audit"
  const FixedOutputPath := "./highlighted-text-font.png"
  const TempScreenshotPath := "./temp_screenshot_for_boxing.png"

  /** Items that carry a `rect` become red boxes with the item's text. */
  function FontBox(item: Item): Option<Box> {
    if item.rect.Some? then Some(Box(item.rect.value, "red", item.textSnippet, "", "", "")) else None
  }

  /** Every extracted box is red and is the rect and text of some flagged item. */
  lemma FontBoxesFromItems(report: Report, b: Box)
    requires b in Extracted(AuditItems(report, AuditId), FontBox)
    ensures b.color == "red"
    ensures exists i :: 0 <= i < |AuditItems(report, AuditId)| &&
              AuditItems(report, AuditId)[i].rect == Some(b.rect) && AuditItems(report, AuditId)[i].textSnippet == b.textSnippet
  {
    CollectMembers(AuditItems(report, AuditId), FontBox, b);
  }

  /** Box `a` lies inside box `b`'s frame, edges allowed to touch. */
  predicate ContainsRect(a: Rect, b: Rect) {
    a.left <= b.left && a.top <= b.top &&
    a.left + a.width >= b.left + b.width && a.top + a.height >= b.top + b.height
  }

  /** `a` contains `b` and is wider or taller. */
  predicate StrictlyContains(a: Rect, b: Rect) {
    ContainsRect(a, b) && (a.width > b.width || a.height > b.height)
  }

  /** The rect strictly contains some box of the list. */
  predicate IsContainer(boxes: seq<Box>, r: Rect) {
    exists j :: 0 <= j < |boxes| && StrictlyContains(r, boxes[j].rect)
  }

  function Kept(boxes: seq<Box>): seq<Box> {
    Filter(boxes, (b: Box) => !IsContainer(boxes, b.rect))
  }

  function Removed(boxes: seq<Box>): seq<Box> {
    Filter(boxes, (b: Box) => IsContainer(boxes, b.rect))
  }

  /** The inner `for (let j ...)` loop for box `i`: `i` is marked when its
      rect strictly contains the rect of some box of the list. */
  method MarkIfContainer(boxes: seq<Box>, i: nat, toRemove: set<int>) returns (marked: set<int>)
    requires i < |boxes|
    ensures marked == if IsContainer(boxes, boxes[i].rect) then toRemove + {i} else toRemove
  {
    marked := toRemove;
    var found := false;
    for j := 0 to |boxes|
      invariant found <==> exists m :: 0 <= m < j && StrictlyContains(boxes[i].rect, boxes[m].rect)
      invariant marked == if found then toRemove + {i} else toRemove
    {
      if i == j {
        continue;
      }
      var a, b := boxes[i].rect, boxes[j].rect;
      var contains := a.left <= b.left && a.top <= b.top &&
                      a.left + a.width >= b.left + b.width && a.top + a.height >= b.top + b.height;
      if contains && (a.width > b.width || a.height > b.height) {
        marked := marked + {i};
        found := true;
      }
    }
  }

  /** `filterContainingBoxes`: mark every box that strictly contains another,
      then split the list into kept and removed boxes in input order. */
  method FilterContainingBoxes(boxes: seq<Box>) returns (kept: seq<Box>, removed: seq<Box>)
    ensures kept == Kept(boxes)
    ensures removed == Removed(boxes)
  {
    var toRemove: set<int> := {};
    for i := 0 to |boxes|
      invariant forall k :: k in toRemove <==> 0 <= k < i && IsContainer(boxes, boxes[k].rect)
    {
      toRemove := MarkIfContainer(boxes, i, toRemove);
    }
    kept, removed := SplitMarked(boxes, toRemove);
  }

  /** The `boxes.forEach` that pushes each marked box into `removed` and
      every other box into `kept`. */
  method SplitMarked(boxes: seq<Box>, toRemove: set<int>) returns (kept: seq<Box>, removed: seq<Box>)
    requires forall k :: 0 <= k < |boxes| ==> (k in toRemove <==> IsContainer(boxes, boxes[k].rect))
    ensures kept == Kept(boxes)
    ensures removed == Removed(boxes)
  {
    kept, removed := [], [];
    for index := 0 to |boxes|
      invariant kept == Filter(boxes[..index], (b: Box) => !IsContainer(boxes, b.rect))
      invariant removed == Filter(boxes[..index], (b: Box) => IsContainer(boxes, b.rect))
    {
      var box := boxes[index];
      assert boxes[..index + 1] == boxes[..index] + [box];
      FilterAppend(boxes[..index], box, (b: Box) => !IsContainer(boxes, b.rect));
      FilterAppend(boxes[..index], box, (b: Box) => IsContainer(boxes, b.rect));
      if index in toRemove {
        removed := removed + [box];
      } else {
        kept := kept + [box];
      }
    }
    assert boxes[..|boxes|] == boxes;
  }

  /** Kept and removed boxes split the input. */
  lemma ContainmentPartition(all: seq<Box>, s: seq<Box>)
    ensures multiset(Filter(s, (b: Box) => !IsContainer(all, b.rect))) + multiset(Filter(s, (b: Box) => IsContainer(all, b.rect))) == multiset(s)
  {
    FilterSplit(s, (b: Box) => !IsContainer(all, b.rect), (b: Box) => IsContainer(all, b.rect));
  }

  /** Filtering the kept boxes again removes nothing: no kept box contains
      any box of the input, so none contains a kept one. */
  lemma KeptIdempotent(boxes: seq<Box>)
    ensures Kept(Kept(boxes)) == Kept(boxes)
  {
    var k := Kept(boxes);
    forall b | b in k
      ensures !IsContainer(k, b.rect)
    {
      forall j | 0 <= j < |k|
        ensures !StrictlyContains(b.rect, k[j].rect)
      {
        assert k[j] in boxes;
      }
    }
    FilterAll(k, (b: Box) => !IsContainer(k, b.rect));
  }

  /** Boxes with identical rects never remove each other: a list of equal
      rects is kept whole. */
  lemma EqualRectsKept(boxes: seq<Box>, r: Rect)
    requires forall i :: 0 <= i < |boxes| ==> boxes[i].rect == r
    ensures Kept(boxes) == boxes
    ensures Removed(boxes) == []
  {
    FilterAll(boxes, (b: Box) => !IsContainer(boxes, b.rect));
    FilterNone(boxes, (b: Box) => IsContainer(boxes, b.rect));
  }

  /** Half-perimeter of a box: strict containment strictly decreases it. */
  function Extent(r: Rect): real { r.width + r.height }

  lemma ContainmentShrinks(a: Rect, b: Rect)
    requires StrictlyContains(a, b)
    ensures Extent(b) < Extent(a)
  {
  }

  /** Index of a box of smallest extent in a non-empty list. */
  lemma {:induction false} SmallestBox(boxes: seq<Box>) returns (m: nat)
    requires boxes != []
    ensures m < |boxes|
    ensures forall j :: 0 <= j < |boxes| ==> Extent(boxes[m].rect) <= Extent(boxes[j].rect)
  {
    if |boxes| == 1 {
      m := 0;
    } else {
      var n := |boxes| - 1;
      m := SmallestBox(boxes[..n]);
      assert forall j :: 0 <= j < n ==> boxes[..n][j] == boxes[j];
      if Extent(boxes[n].rect) < Extent(boxes[m].rect) {
        m := n;
      }
    }
  }

  /** The container filter never empties a non-empty list: a box of smallest
      extent contains no other box strictly. */
  lemma KeptNonEmpty(boxes: seq<Box>)
    requires boxes != []
    ensures Kept(boxes) != []
  {
    var m := SmallestBox(boxes);
    if IsContainer(boxes, boxes[m].rect) {
      var j :| 0 <= j < |boxes| && StrictlyContains(boxes[m].rect, boxes[j].rect);
      ContainmentShrinks(boxes[m].rect, boxes[j].rect);
      assert false;
    }
    assert boxes[m] in Kept(boxes);
  }

  /** The boxes the image shows: flagged, not containers, not over empty space. */
  function FinalBoxes(report: Report, stdevs: Rect -> Option<seq<real>>): seq<Box> {
    Visible(Kept(Extracted(AuditItems(report, AuditId), FontBox)), stdevs)
  }

  /** Steps shared by both entry points, drawing to `outputImagePath`; the
      run returns that path when an image was drawn. */
  method HighlightTextFont(parsed: Outcome<Report>, outputImagePath: string, stdevs: Rect -> Option<seq<real>>) returns (run: ProcessorRun)
    ensures parsed.Threw? || parsed.value.screenshot == "" ==> run == ProcessorRun(None, None, None, false)
    ensures parsed.Returned? && parsed.value.screenshot != "" ==>
              run.temp == Some(TempScreenshotPath) && run.tempRemoved
    ensures run.drawn.Some? <==>
              parsed.Returned? && parsed.value.screenshot != "" && FinalBoxes(parsed.value, stdevs) != []
    ensures run.drawn.Some? ==>
              run.drawn.value.path == outputImagePath && run.returned == Some(outputImagePath) &&
              |run.drawn.value.marks| == |FinalBoxes(parsed.value, stdevs)| &&
              forall k :: 0 <= k < |run.drawn.value.marks| ==>
                run.drawn.value.marks[k] == ScaledMark(FinalBoxes(parsed.value, stdevs)[k], k, 1.0)
    ensures run.drawn.None? ==> run.returned == None
  {
    if parsed.Threw? {
      return ProcessorRun(None, None, None, false);
    }
    var report := parsed.value;
    if report.screenshot == "" {
      return ProcessorRun(None, None, None, false);
    }
    var allBoxes := ExtractBoxes(report, AuditId, FontBox);
    var nonContainerBoxes, containerBoxes := FilterContainingBoxes(allBoxes);
    var finalBoxes, visuallyEmptyBoxes := PartitionVisible(nonContainerBoxes, stdevs);
    if |finalBoxes| == 0 {
      return ProcessorRun(None, None, Some(TempScreenshotPath), true);
    }
    var marks := ScaledMarks(finalBoxes, 1.0);
    run := ProcessorRun(Some(outputImagePath), Some(Drawing(outputImagePath, marks)), Some(TempScreenshotPath), true);
  }

  /** `processTextFontAudit(jsonReportPath)` as written: it always draws to
      the fixed `./highlighted-text-font.png` and returns `undefined`. */
  method ProcessTextFontAudit(parsed: Outcome<Report>, stdevs: Rect -> Option<seq<real>>) returns (run: ProcessorRun)
    ensures run.returned == None
    ensures run.drawn.Some? ==> run.drawn.value.path == FixedOutputPath
    ensures run.drawn.Some? <==>
              parsed.Returned? && parsed.value.screenshot != "" && FinalBoxes(parsed.value, stdevs) != []
  {
    run := HighlightTextFont(parsed, FixedOutputPath, stdevs);
    run := run.(returned := None);
  }

  /** The processor as its caller in draw_all.js uses it: it draws to the
      path it is given and returns that path when it drew, None otherwise. */
  method ProcessTextFontAuditTo(parsed: Outcome<Report>, outputImagePath: string, stdevs: Rect -> Option<seq<real>>) returns (run: ProcessorRun)
    ensures run.returned.Some? <==> run.drawn.Some?
    ensures run.drawn.Some? ==> run.returned == Some(outputImagePath) && run.drawn.value.path == outputImagePath
    ensures run.drawn.Some? <==>
              parsed.Returned? && parsed.value.screenshot != "" && FinalBoxes(parsed.value, stdevs) != []
  {
    run := HighlightTextFont(parsed, outputImagePath, stdevs);
  }
}
