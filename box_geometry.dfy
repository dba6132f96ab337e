/** What the four draw_boxes_* files share: the box record, the extraction
    loop over an audit's items, the visual-distinctness rule, the split into
    drawn and visually empty boxes, and the numbered badges drawn on the
    screenshot. Image decoding and pixel statistics are an oracle: `stdevs`
    gives the per-channel standard deviations of a region, or None when the
    image library throws. */
module BoxGeometry {
  import opened Common
  import opened Lighthouse

  /** A box to highlight; fields a file does not fill are "". */
  datatype Box = Box(rect: Rect, color: string, textSnippet: string, nodeLabel: string, selector: string, explanation: string)

  /** One numbered badge with its box, as the SVG overlay draws them: the
      circle is centred on (x, y), the box's top-left corner. */
  datatype Mark = Mark(number: nat, x: real, y: real, width: real, height: real, radius: real, color: string)

  /** An image written to `path` with the given marks. */
  datatype Drawing = Drawing(path: string, marks: seq<Mark>)

  /** `lighthouseReport.audits[auditId]?.details?.items`, empty when absent. */
  function AuditItems(report: Report, auditId: string): seq<Item> {
    if auditId in report.audits && report.audits[auditId].items.Some? then report.audits[auditId].items.value else []
  }

  /** Boxes for the items `toBox` accepts, in item order. */
  function Extracted(items: seq<Item>, toBox: Item -> Option<Box>): seq<Box> {
    Collect(items, toBox)
  }

  /** The `for (const item of audit.details.items)` loop of `extractBoxData`. */
  method ExtractBoxes(report: Report, auditId: string, toBox: Item -> Option<Box>) returns (boxes: seq<Box>)
    ensures boxes == Extracted(AuditItems(report, auditId), toBox)
  {
    boxes := [];
    var items := AuditItems(report, auditId);
    for i := 0 to |items|
      invariant boxes == Extracted(items[..i], toBox)
    {
      CollectStep(items, i, toBox);
      var b := toBox(items[i]);
      if b.Some? {
        boxes := boxes + [b.value];
      }
    }
    assert items[..|items|] == items;
  }

  /** Stdevs above this count as visible content. */
  const VisibilityThreshold := 5.0

  /** `isVisuallyDistinct`: boxes narrower or shorter than 2 are not; a
      region whose statistics cannot be taken is not; otherwise a box is
      distinct when some channel's standard deviation exceeds 5. */
  function IsVisuallyDistinct(rect: Rect, stdevs: Rect -> Option<seq<real>>): (d: bool)
    ensures d ==> rect.width >= 2.0 && rect.height >= 2.0 && stdevs(rect).Some?
    ensures d <==> rect.width >= 2.0 && rect.height >= 2.0 && stdevs(rect).Some?
                   && exists c :: c in stdevs(rect).value && c > VisibilityThreshold
  {
    if rect.width < 2.0 || rect.height < 2.0 then false
    else match stdevs(rect)
      case None => false
      case Some(channels) => exists c :: c in channels && c > VisibilityThreshold
  }

  function Visible(boxes: seq<Box>, stdevs: Rect -> Option<seq<real>>): seq<Box> {
    Filter(boxes, (b: Box) => IsVisuallyDistinct(b.rect, stdevs))
  }

  function NotVisible(boxes: seq<Box>, stdevs: Rect -> Option<seq<real>>): seq<Box> {
    Filter(boxes, (b: Box) => !IsVisuallyDistinct(b.rect, stdevs))
  }

  /** The loop that pushes each box into `finalBoxes` or `visuallyEmptyBoxes`. */
  method PartitionVisible(boxes: seq<Box>, stdevs: Rect -> Option<seq<real>>) returns (finalBoxes: seq<Box>, emptyBoxes: seq<Box>)
    ensures finalBoxes == Visible(boxes, stdevs)
    ensures emptyBoxes == NotVisible(boxes, stdevs)
  {
    finalBoxes, emptyBoxes := [], [];
    for i := 0 to |boxes|
      invariant finalBoxes == Visible(boxes[..i], stdevs)
      invariant emptyBoxes == NotVisible(boxes[..i], stdevs)
    {
      var box := boxes[i];
      assert boxes[..i + 1] == boxes[..i] + [box];
      FilterAppend(boxes[..i], box, (b: Box) => IsVisuallyDistinct(b.rect, stdevs));
      FilterAppend(boxes[..i], box, (b: Box) => !IsVisuallyDistinct(b.rect, stdevs));
      if IsVisuallyDistinct(box.rect, stdevs) {
        finalBoxes := finalBoxes + [box];
      } else {
        emptyBoxes := emptyBoxes + [box];
      }
    }
    assert boxes[..|boxes|] == boxes;
  }

  /** The drawn and the empty boxes split the input: together they hold
      every box exactly as often as the input does. */
  lemma VisiblePartition(boxes: seq<Box>, stdevs: Rect -> Option<seq<real>>)
    ensures multiset(Visible(boxes, stdevs)) + multiset(NotVisible(boxes, stdevs)) == multiset(boxes)
    ensures |Visible(boxes, stdevs)| + |NotVisible(boxes, stdevs)| == |boxes|
  {
    FilterSplit(boxes, (b: Box) => IsVisuallyDistinct(b.rect, stdevs), (b: Box) => !IsVisuallyDistinct(b.rect, stdevs));
    assert |multiset(Visible(boxes, stdevs)) + multiset(NotVisible(boxes, stdevs))| == |multiset(boxes)|;
  }

  function MaxI(a: int, b: int): int { if a >= b then a else b }
  function MinI(a: int, b: int): int { if a <= b then a else b }

  /** Badge radius of `enhanceAndHighlightMultiple`:
      max(round(8s), min(round(0.8 * scaledHeight), round(20s))). */
  function ScaledBadgeRadius(height: real, scale: real): (r: int)
    ensures r >= Round(8.0 * scale)
    ensures Round(8.0 * scale) <= Round(20.0 * scale) ==> r <= Round(20.0 * scale)
  {
    var minSize := Round(8.0 * scale);
    var maxSize := Round(20.0 * scale);
    var idealSize := Round(Round(height * scale) as real * 0.8);
    MaxI(minSize, MinI(idealSize, maxSize))
  }

  /** With a non-negative scale the bounds are ordered, so the radius lies
      between round(8s) and round(20s); at the default scale 1, in [8, 20]. */
  lemma ScaledBadgeRadiusRange(height: real, scale: real)
    requires scale >= 0.0
    ensures Round(8.0 * scale) <= ScaledBadgeRadius(height, scale) <= Round(20.0 * scale)
    ensures scale == 1.0 ==> 8 <= ScaledBadgeRadius(height, scale) <= 20
  {
    RoundMonotone(8.0 * scale, 20.0 * scale);
  }

  /** Badge radius of `enhanceAndHighlight`: max(10, min(0.8 * height, 20)). */
  function PlainBadgeRadius(height: real): (r: real)
    ensures 10.0 <= r <= 20.0
    ensures 12.5 <= height <= 25.0 ==> r == height * 0.8
  {
    MaxR(10.0, MinR(height * 0.8, 20.0))
  }

  /** The badge and box `enhanceAndHighlightMultiple` draws for box `index`. */
  function ScaledMark(b: Box, index: nat, scale: real): Mark {
    Mark(index + 1,
         Round(b.rect.left * scale) as real, Round(b.rect.top * scale) as real,
         Round(b.rect.width * scale) as real, Round(b.rect.height * scale) as real,
         ScaledBadgeRadius(b.rect.height, scale) as real, b.color)
  }

  /** The `boundingBoxes.forEach` of `enhanceAndHighlightMultiple`. */
  method ScaledMarks(boxes: seq<Box>, scale: real) returns (marks: seq<Mark>)
    ensures |marks| == |boxes|
    ensures forall k :: 0 <= k < |marks| ==> marks[k] == ScaledMark(boxes[k], k, scale)
    ensures forall k :: 0 <= k < |marks| ==> marks[k].number == k + 1
  {
    marks := [];
    for k := 0 to |boxes|
      invariant |marks| == k
      invariant forall m :: 0 <= m < k ==> marks[m] == ScaledMark(boxes[m], m, scale)
    {
      marks := marks + [ScaledMark(boxes[k], k, scale)];
    }
  }

  /** The badge and box `enhanceAndHighlight` draws for box `index`. */
  function PlainMark(b: Box, index: nat, color: string): Mark {
    Mark(index + 1, b.rect.left, b.rect.top, b.rect.width, b.rect.height, PlainBadgeRadius(b.rect.height), color)
  }

  /** The `boundingBoxes.forEach` of `enhanceAndHighlight`, in `boxColor`. */
  method PlainMarks(boxes: seq<Box>, color: string) returns (marks: seq<Mark>)
    ensures |marks| == |boxes|
    ensures forall k :: 0 <= k < |marks| ==> marks[k] == PlainMark(boxes[k], k, color)
    ensures forall k :: 0 <= k < |marks| ==>
              marks[k].number == k + 1 && marks[k].color == color && 10.0 <= marks[k].radius <= 20.0
              && marks[k].x == boxes[k].rect.left && marks[k].y == boxes[k].rect.top
  {
    marks := [];
    for k := 0 to |boxes|
      invariant |marks| == k
      invariant forall m :: 0 <= m < k ==> marks[m] == PlainMark(boxes[m], m, color)
    {
      marks := marks + [PlainMark(boxes[k], k, color)];
    }
  }

  /** What one image processor did: its return value (None for `undefined`
      or `null`), the image it drew, and the temporary screenshot file it
      wrote and whether it removed it again. */
  datatype ProcessorRun = ProcessorRun(returned: Option<string>, drawn: Option<Drawing>, temp: Option<string>, tempRemoved: bool)
}
