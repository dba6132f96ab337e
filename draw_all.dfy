/** draw_all.js: run the five image processors on one report and collect
    the image each produced, keyed by audit id. The processor for
    `target-size` lives in draw_boxes_targetSize.js, which is not part of
    this model: it is the `targetSize` parameter, given the report path and
    its output path. */
module DrawAll {
  import opened Common
  import opened Lighthouse
  import opened BoxGeometry
  import LayoutBrittleHighlight
  import InteractiveColorHighlight
  import ColorContrastHighlight
  import TextFontHighlight

  /** The five entries of `imagePaths`; `Key` is the property name used. */
  datatype ImageKind = LayoutKey | InteractiveKey | ContrastKey | TargetKey | FontKey {
    function Key(): string {
      match this
      case LayoutKey => "layout-brittle-audit"
      case InteractiveKey => "interactive-color-audit"
      case ContrastKey => "color-contrast"
      case TargetKey => "target-size"
      case FontKey => "text-font-audit"
    }
  }

  /** The five property names are distinct, so the map below has five
      entries as the object does. */
  lemma KeysDistinct(a: ImageKind, b: ImageKind)
    requires a != b
    ensures a.Key() != b.Key()
  {
    assert LayoutKey.Key()[0] == 'l' && InteractiveKey.Key()[0] == 'i' && ContrastKey.Key()[0] == 'c';
    assert TargetKey.Key()[0] == 't' && TargetKey.Key()[1] == 'a' && FontKey.Key()[0] == 't' && FontKey.Key()[1] == 'e';
  }

  const LayoutSuffix := "-layout-brittle.png"
  const InteractiveSuffix := "-interactive-color.png"
  const ContrastSuffix := "-color-contrast.png"
  const TargetSuffix := "-target-size.png"
  const FontSuffix := "-text-font.png"

  /** The last path segment: everything after the last '/'. */
  function LastSegment(p: string): (r: string)
    ensures EndsWith(p, r)
    ensures forall i :: 0 <= i < |r| ==> r[i] != '/'
    ensures |r| < |p| ==> p[|p| - |r| - 1] == '/'
  {
    if p == [] || p[|p| - 1] == '/' then []
    else
      var r := LastSegment(p[..|p| - 1]) + [p[|p| - 1]];
      assert p[|p| - |r|..] == p[..|p| - 1][|p| - |r|..] + [p[|p| - 1]];
      r
  }

  /** `path.basename(p, ext)`: the last segment, without `ext` when it ends
      with `ext` and is longer than it. */
  function Basename(p: string, ext: string): (r: string)
    ensures forall i :: 0 <= i < |r| ==> r[i] != '/'
    ensures (EndsWith(LastSegment(p), ext) && LastSegment(p) != ext) ==> r + ext == LastSegment(p)
  {
    var b := LastSegment(p);
    if EndsWith(b, ext) && b != ext then
      DropSuffix(b, ext);
      b[..|b| - |ext|]
    else b
  }

  /** Cutting a suffix off and putting it back gives the string again. */
  lemma DropSuffix(b: string, ext: string)
    requires EndsWith(b, ext)
    ensures b[..|b| - |ext|] + ext == b
  {
    assert b == b[..|b| - |ext|] + b[|b| - |ext|..];
  }

  /** `path.join(outputFolder, reportName + suffix)` */
  function ImagePath(outputFolder: string, reportName: string, suffix: string): string {
    JoinPath(outputFolder, reportName + suffix)
  }

  /** An image path is never empty: it ends with its non-empty suffix. */
  lemma ImagePathNonEmpty(outputFolder: string, reportName: string, suffix: string)
    requires suffix != ""
    ensures ImagePath(outputFolder, reportName, suffix) != ""
  {
    JoinPathSplit(outputFolder, reportName + suffix);
  }

  /** What `path.join` puts in front of the file name. */
  function JoinPrefix(dir: string): string {
    if dir == "" then "" else if dir[|dir| - 1] == '/' then dir else dir + "/"
  }

  lemma JoinPathSplit(dir: string, name: string)
    ensures JoinPath(dir, name) == JoinPrefix(dir) + name
    ensures StartsWith(JoinPath(dir, name), dir)
  {
    assert (JoinPrefix(dir) + name)[..|dir|] == dir;
  }

  /** Two different suffixes give two different image paths. */
  lemma ImagePathsDiffer(outputFolder: string, reportName: string, s1: string, s2: string)
    requires s1 != s2
    ensures ImagePath(outputFolder, reportName, s1) != ImagePath(outputFolder, reportName, s2)
  {
    var pre := JoinPrefix(outputFolder);
    JoinPathSplit(outputFolder, reportName + s1);
    JoinPathSplit(outputFolder, reportName + s2);
    assert (pre + (reportName + s1))[|pre| + |reportName|..] == s1;
    assert (pre + (reportName + s2))[|pre| + |reportName|..] == s2;
  }

  /** The five image paths are pairwise distinct and all name files inside
      `outputFolder`, whatever the report is called. */
  lemma ImagePathsDistinct(outputFolder: string, reportName: string)
    ensures Distinct([ImagePath(outputFolder, reportName, LayoutSuffix), ImagePath(outputFolder, reportName, InteractiveSuffix),
                      ImagePath(outputFolder, reportName, ContrastSuffix), ImagePath(outputFolder, reportName, TargetSuffix),
                      ImagePath(outputFolder, reportName, FontSuffix)])
    ensures forall s :: s in [LayoutSuffix, InteractiveSuffix, ContrastSuffix, TargetSuffix, FontSuffix] ==>
              StartsWith(ImagePath(outputFolder, reportName, s), outputFolder) &&
              EndsWith(ImagePath(outputFolder, reportName, s), reportName + s)
  {
    var suffixes := [LayoutSuffix, InteractiveSuffix, ContrastSuffix, TargetSuffix, FontSuffix];
    var paths := [ImagePath(outputFolder, reportName, LayoutSuffix), ImagePath(outputFolder, reportName, InteractiveSuffix),
                  ImagePath(outputFolder, reportName, ContrastSuffix), ImagePath(outputFolder, reportName, TargetSuffix),
                  ImagePath(outputFolder, reportName, FontSuffix)];
    assert Distinct(suffixes) by {
      assert LayoutSuffix[1] == 'l' && InteractiveSuffix[1] == 'i' && ContrastSuffix[1] == 'c';
      assert TargetSuffix[1] == 't' && TargetSuffix[2] == 'a' && FontSuffix[1] == 't' && FontSuffix[2] == 'e';
    }
    forall k | 0 <= k < |suffixes|
      ensures paths[k] == ImagePath(outputFolder, reportName, suffixes[k])
      ensures StartsWith(paths[k], outputFolder)
    {
      JoinPathSplit(outputFolder, reportName + suffixes[k]);
    }
    forall a, b | 0 <= a < b < |paths|
      ensures paths[a] != paths[b]
    {
      ImagePathsDiffer(outputFolder, reportName, suffixes[a], suffixes[b]);
    }
  }

  /** The keys every result map has. */
  function ImageKeys(): set<ImageKind> {
    {LayoutKey, InteractiveKey, ContrastKey, TargetKey, FontKey}
  }

  /** `createAllHighlightedImages(jsonFilePath, outputFolder)` as written.
      `parsed` is what reading and parsing `jsonFilePath` gives each
      processor. Three processors take no output path and return
      `undefined`: their entries are always None, even when they drew an
      image, and `layoutImage`, `contrastImage` and `fontImage` show that
      image landing at its fixed path in the working directory instead of
      in `outputFolder`. */
  method CreateAllHighlightedImagesAsWritten(
    jsonFilePath: string, outputFolder: string, parsed: Outcome<Report>,
    stdevs: Rect -> Option<seq<real>>, targetSize: (string, string) -> Outcome<Option<string>>)
    returns (r: Outcome<map<ImageKind, Option<string>>>, layoutImage: Option<Drawing>, contrastImage: Option<Drawing>, fontImage: Option<Drawing>)
    ensures parsed.Threw? ==> r == Threw(parsed.message)
    ensures r.Returned? ==> parsed.Returned? && r.value.Keys == ImageKeys()
    ensures r.Returned? ==> r.value[LayoutKey] == None && r.value[ContrastKey] == None && r.value[FontKey] == None
    ensures r.Returned? ==>
              (layoutImage.Some? <==> HasScreenshot(parsed.value) && LayoutBrittleHighlight.FinalBoxes(parsed.value) != []) &&
              (contrastImage.Some? <==> HasScreenshot(parsed.value) && ColorContrastHighlight.FinalBoxes(parsed.value, stdevs) != []) &&
              (fontImage.Some? <==> HasScreenshot(parsed.value) && TextFontHighlight.FinalBoxes(parsed.value, stdevs) != [])
    ensures layoutImage.Some? ==> layoutImage.value.path == LayoutBrittleHighlight.FixedOutputPath
    ensures contrastImage.Some? ==> contrastImage.value.path == ColorContrastHighlight.FixedOutputPath
    ensures fontImage.Some? ==> fontImage.value.path == TextFontHighlight.FixedOutputPath
  {
    var reportName := Basename(jsonFilePath, ".json");
    var brittlePath := ImagePath(outputFolder, reportName, LayoutSuffix);
    var interactivePath := ImagePath(outputFolder, reportName, InteractiveSuffix);
    var contrastPath := ImagePath(outputFolder, reportName, ContrastSuffix);
    var targetPath := ImagePath(outputFolder, reportName, TargetSuffix);
    var fontPath := ImagePath(outputFolder, reportName, FontSuffix);
    ImagePathNonEmpty(outputFolder, reportName, InteractiveSuffix);
    r, layoutImage, contrastImage, fontImage := RunProcessorsAsWritten(jsonFilePath, interactivePath, targetPath, parsed, stdevs, targetSize);
  }

  /** The five calls of `createAllHighlightedImages` as written, in order;
      the first processor that throws ends the run. */
  method RunProcessorsAsWritten(
    jsonFilePath: string, interactivePath: string, targetPath: string, parsed: Outcome<Report>,
    stdevs: Rect -> Option<seq<real>>, targetSize: (string, string) -> Outcome<Option<string>>)
    returns (r: Outcome<map<ImageKind, Option<string>>>, layoutImage: Option<Drawing>, contrastImage: Option<Drawing>, fontImage: Option<Drawing>)
    requires interactivePath != ""
    ensures parsed.Threw? ==> r == Threw(parsed.message)
    ensures r.Returned? ==> parsed.Returned? && r.value.Keys == ImageKeys()
    ensures r.Returned? ==> r.value[LayoutKey] == None && r.value[ContrastKey] == None && r.value[FontKey] == None
    ensures r.Returned? ==>
              (layoutImage.Some? <==> HasScreenshot(parsed.value) && LayoutBrittleHighlight.FinalBoxes(parsed.value) != []) &&
              (contrastImage.Some? <==> HasScreenshot(parsed.value) && ColorContrastHighlight.FinalBoxes(parsed.value, stdevs) != []) &&
              (fontImage.Some? <==> HasScreenshot(parsed.value) && TextFontHighlight.FinalBoxes(parsed.value, stdevs) != [])
    ensures layoutImage.Some? ==> layoutImage.value.path == LayoutBrittleHighlight.FixedOutputPath
    ensures contrastImage.Some? ==> contrastImage.value.path == ColorContrastHighlight.FixedOutputPath
    ensures fontImage.Some? ==> fontImage.value.path == TextFontHighlight.FixedOutputPath
  {
    contrastImage, fontImage := None, None;

    var layout := LayoutBrittleHighlight.ProcessLayoutBrittleAudit(parsed);
    layoutImage := layout.drawn;

    var interactive := InteractiveColorHighlight.ProcessInteractiveColorAudit(parsed, interactivePath, stdevs);
    if interactive.Threw? {
      return Threw(interactive.message), layoutImage, contrastImage, fontImage;
    }

    var contrast := ColorContrastHighlight.ProcessColorContrastAudit(parsed, stdevs);
    if contrast.Threw? {
      return Threw(contrast.message), layoutImage, contrastImage, fontImage;
    }
    contrastImage := contrast.value.drawn;

    var target := targetSize(jsonFilePath, targetPath);
    if target.Threw? {
      return Threw(target.message), layoutImage, contrastImage, fontImage;
    }

    var font := TextFontHighlight.ProcessTextFontAudit(parsed, stdevs);
    fontImage := font.drawn;

    r := Returned(map[LayoutKey := layout.returned, InteractiveKey := interactive.value.returned,
                      ContrastKey := contrast.value.returned, TargetKey := target.value, FontKey := font.returned]);
  }

  predicate HasScreenshot(report: Report) {
    report.screenshot != ""
  }

  /** An entry names `path` exactly when the processor drew an image. */
  predicate EntryFor(entry: Option<string>, drew: bool, path: string) {
    (entry.Some? <==> drew) && (entry.Some? ==> entry.value == path)
  }

  /** `createAllHighlightedImages` with every processor drawing to the path
      it is handed and returning it: an entry names an image exactly when
      one was drawn, and then it is that audit's own path in `outputFolder`. */
  method CreateAllHighlightedImages(
    jsonFilePath: string, outputFolder: string, parsed: Outcome<Report>,
    stdevs: Rect -> Option<seq<real>>, targetSize: (string, string) -> Outcome<Option<string>>)
    returns (r: Outcome<map<ImageKind, Option<string>>>)
    ensures parsed.Threw? ==> r == Threw(parsed.message)
    ensures r.Returned? ==> parsed.Returned? && r.value.Keys == ImageKeys()
    ensures r.Returned? ==>
              EntryFor(r.value[LayoutKey], HasScreenshot(parsed.value) && LayoutBrittleHighlight.FinalBoxes(parsed.value) != [],
                       ImagePath(outputFolder, Basename(jsonFilePath, ".json"), LayoutSuffix))
    ensures r.Returned? ==>
              EntryFor(r.value[InteractiveKey], HasScreenshot(parsed.value) && InteractiveColorHighlight.FinalBoxes(parsed.value, stdevs) != [],
                       ImagePath(outputFolder, Basename(jsonFilePath, ".json"), InteractiveSuffix))
    ensures r.Returned? ==>
              EntryFor(r.value[ContrastKey], HasScreenshot(parsed.value) && ColorContrastHighlight.FinalBoxes(parsed.value, stdevs) != [],
                       ImagePath(outputFolder, Basename(jsonFilePath, ".json"), ContrastSuffix))
    ensures r.Returned? ==>
              targetSize(jsonFilePath, ImagePath(outputFolder, Basename(jsonFilePath, ".json"), TargetSuffix)) == Returned(r.value[TargetKey])
    ensures r.Returned? ==>
              EntryFor(r.value[FontKey], HasScreenshot(parsed.value) && TextFontHighlight.FinalBoxes(parsed.value, stdevs) != [],
                       ImagePath(outputFolder, Basename(jsonFilePath, ".json"), FontSuffix))
  {
    var reportName := Basename(jsonFilePath, ".json");
    var brittlePath := ImagePath(outputFolder, reportName, LayoutSuffix);
    var interactivePath := ImagePath(outputFolder, reportName, InteractiveSuffix);
    var contrastPath := ImagePath(outputFolder, reportName, ContrastSuffix);
    var targetPath := ImagePath(outputFolder, reportName, TargetSuffix);
    var fontPath := ImagePath(outputFolder, reportName, FontSuffix);
    ImagePathNonEmpty(outputFolder, reportName, InteractiveSuffix);
    r := RunProcessors(jsonFilePath, brittlePath, interactivePath, contrastPath, targetPath, fontPath, parsed, stdevs, targetSize);
  }

  /** The five calls with each processor handed its own output path, in
      order; the first processor that throws ends the run. */
  method RunProcessors(
    jsonFilePath: string, brittlePath: string, interactivePath: string, contrastPath: string, targetPath: string, fontPath: string,
    parsed: Outcome<Report>, stdevs: Rect -> Option<seq<real>>, targetSize: (string, string) -> Outcome<Option<string>>)
    returns (r: Outcome<map<ImageKind, Option<string>>>)
    requires interactivePath != ""
    ensures parsed.Threw? ==> r == Threw(parsed.message)
    ensures r.Returned? ==> parsed.Returned? && r.value.Keys == ImageKeys()
    ensures r.Returned? ==>
              EntryFor(r.value[LayoutKey], HasScreenshot(parsed.value) && LayoutBrittleHighlight.FinalBoxes(parsed.value) != [], brittlePath)
    ensures r.Returned? ==>
              EntryFor(r.value[InteractiveKey], HasScreenshot(parsed.value) && InteractiveColorHighlight.FinalBoxes(parsed.value, stdevs) != [], interactivePath)
    ensures r.Returned? ==>
              EntryFor(r.value[ContrastKey], HasScreenshot(parsed.value) && ColorContrastHighlight.FinalBoxes(parsed.value, stdevs) != [], contrastPath)
    ensures r.Returned? ==> targetSize(jsonFilePath, targetPath) == Returned(r.value[TargetKey])
    ensures r.Returned? ==>
              EntryFor(r.value[FontKey], HasScreenshot(parsed.value) && TextFontHighlight.FinalBoxes(parsed.value, stdevs) != [], fontPath)
  {
    var layout := LayoutBrittleHighlight.ProcessLayoutBrittleAuditTo(parsed, brittlePath);

    var interactive := InteractiveColorHighlight.ProcessInteractiveColorAudit(parsed, interactivePath, stdevs);
    if interactive.Threw? {
      return Threw(interactive.message);
    }

    var contrast := ColorContrastHighlight.ProcessColorContrastAuditTo(parsed, contrastPath, stdevs);
    if contrast.Threw? {
      return Threw(contrast.message);
    }

    var target := targetSize(jsonFilePath, targetPath);
    if target.Threw? {
      return Threw(target.message);
    }

    var font := TextFontHighlight.ProcessTextFontAuditTo(parsed, fontPath, stdevs);

    assert EntryFor(layout.returned, HasScreenshot(parsed.value) && LayoutBrittleHighlight.FinalBoxes(parsed.value) != [], brittlePath);
    assert EntryFor(interactive.value.returned, HasScreenshot(parsed.value) && InteractiveColorHighlight.FinalBoxes(parsed.value, stdevs) != [], interactivePath);
    assert EntryFor(contrast.value.returned, HasScreenshot(parsed.value) && ColorContrastHighlight.FinalBoxes(parsed.value, stdevs) != [], contrastPath);
    assert EntryFor(font.returned, HasScreenshot(parsed.value) && TextFontHighlight.FinalBoxes(parsed.value, stdevs) != [], fontPath);
    r := Returned(map[LayoutKey := layout.returned, InteractiveKey := interactive.value.returned,
                      ContrastKey := contrast.value.returned, TargetKey := target.value, FontKey := font.returned]);
  }
}
