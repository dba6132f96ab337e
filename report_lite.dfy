/** pdf-generator-lite.js: the lite score, its colour and per-audit status
    ladders, the choice of audits listed in the lite report, and the checks
    and naming of `generateLiteAccessibilityReport`. */
module LiteReport {
  import opened Common
  import opened Lighthouse
  import opened Configs
  import opened Scoring

  /** One LITE_AUDIT_INFO entry with its key; its `impact` sentence is
      looked up by key with `LiteImpact`. */
  datatype LiteEntry = LiteEntry(id: string, title: string, category: string)

  /** LITE_AUDIT_INFO in key order. */
  function LiteAuditInfo(): seq<LiteEntry> {
    [ LiteEntry("color-contrast", "Color Contrast", "Vision"),
      LiteEntry("target-size", "Touch Target Size", "Motor"),
      LiteEntry("font-size", "Font Size", "Vision"),
      LiteEntry("viewport", "Mobile Design", "Technical"),
      LiteEntry("link-name", "Link Text", "Cognitive"),
      LiteEntry("button-name", "Button Labels", "Cognitive"),
      LiteEntry("label", "Form Labels", "Cognitive"),
      LiteEntry("heading-order", "Content Structure", "Cognitive"),
      LiteEntry("is-on-https", "Security", "Security"),
      LiteEntry("largest-contentful-paint", "Loading Speed", "Performance"),
      LiteEntry("cumulative-layout-shift", "Stable Layout", "Performance") ]
  }

  /** The `impact` field of each LITE_AUDIT_INFO entry. */
  function LiteImpact(id: string): string {
    if id == "color-contrast" then "Essential for seniors with vision changes to read text clearly."
    else if id == "target-size" then "Larger buttons help seniors with tremors or arthritis."
    else if id == "font-size" then "Larger fonts are crucial for seniors with presbyopia."
    else if id == "viewport" then "Proper mobile display for seniors using tablets/phones."
    else if id == "link-name" then "Clear link descriptions help seniors navigate confidently."
    else if id == "button-name" then "Descriptive button text prevents confusion for seniors."
    else if id == "label" then "Clear form labels help seniors complete tasks successfully."
    else if id == "heading-order" then "Logical headings reduce cognitive load for seniors."
    else if id == "is-on-https" then "Secure connections protect seniors from online scams."
    else if id == "largest-contentful-paint" then "Fast loading prevents seniors from thinking site is broken."
    else if id == "cumulative-layout-shift" then "Stable pages prevent seniors from clicking wrong elements."
    else ""
  }

  /** Every audit the lite configuration scores is a LITE_AUDIT_INFO key, in
      the same position, so every scored audit can be listed. */
  lemma LiteRefsListed()
    ensures |LiteAuditInfo()| == |LiteRefs()|
    ensures forall i :: 0 <= i < |LiteRefs()| ==> LiteAuditInfo()[i].id == LiteRefs()[i].id
  {
  }

  /** `calculateLiteScore(report).finalScore` */
  function LiteScore(config: Config, audits: map<string, AuditData>): real {
    if LiteCategoryId !in config.categories then 0.0
    else
      var refs := config.categories[LiteCategoryId].auditRefs;
      if SumWeights(refs) == 0.0 then 0.0 else Percent(WeightedSum(refs, audits), SumWeights(refs))
  }

  method CalculateLiteScore(config: Config, report: Report) returns (finalScore: real)
    ensures finalScore == LiteScore(config, report.audits)
  {
    if LiteCategoryId !in config.categories {
      return 0.0;
    }
    var t := Accumulate(config.categories[LiteCategoryId].auditRefs, report.audits);
    finalScore := if t.total == 0.0 then 0.0 else t.weighted / t.total * 100.0;
  }

  /** The lite score is 0 without the category or weight, a percentage in
      [0, 100] otherwise; with the shipped table it is the weighted sum over 33. */
  lemma LiteScoreMeaning(config: Config, audits: map<string, AuditData>)
    ensures LiteCategoryId !in config.categories ==> LiteScore(config, audits) == 0.0
    ensures (LiteCategoryId in config.categories
             && NonNegativeWeights(config.categories[LiteCategoryId].auditRefs)
             && ScoresInUnit(audits)) ==> 0.0 <= LiteScore(config, audits) <= 100.0
    ensures LiteScore(LiteConfig(), audits) * 33.0 == WeightedSum(LiteRefs(), audits) * 100.0
  {
    if LiteCategoryId in config.categories {
      var refs := config.categories[LiteCategoryId].auditRefs;
      if SumWeights(refs) != 0.0 && NonNegativeWeights(refs) && ScoresInUnit(audits) {
        PercentBounds(refs, audits);
      }
    }
    LiteWeights();
  }

  /** Colour of the lite score circle. */
  function LiteScoreColor(finalScore: real): string {
    if finalScore >= 70.0 then "#27AE60" else if finalScore >= 40.0 then "#F39C12" else "#E74C3C"
  }

  lemma LiteScoreColorBands(finalScore: real)
    ensures LiteScoreColor(finalScore) == "#27AE60" <==> finalScore >= 70.0
    ensures LiteScoreColor(finalScore) == "#F39C12" <==> 40.0 <= finalScore < 70.0
    ensures LiteScoreColor(finalScore) == "#E74C3C" <==> finalScore < 40.0
  {
  }

  /** The status word of one audit. */
  function LiteStatus(score: Option<real>): string {
    if score.None? then "N/A"
    else if score.value == 1.0 then "PASS"
    else if score.value > 0.5 then "NEEDS WORK"
    else "FAIL"
  }

  /** The colour of the bullet beside it, written as a separate ladder. */
  function LiteStatusColor(score: Option<real>): string {
    if score.None? then "#95A5A6"
    else if score.value == 1.0 then "#27AE60"
    else if score.value > 0.5 then "#F39C12"
    else "#E74C3C"
  }

  /** Each status comes with its own colour; the two ladders cut at the same
      places, and for scores in [0, 1] a higher score never gets a worse status. */
  lemma LiteStatusBands(score: Option<real>)
    ensures LiteStatus(score) == "N/A" <==> LiteStatusColor(score) == "#95A5A6"
    ensures LiteStatus(score) == "PASS" <==> LiteStatusColor(score) == "#27AE60"
    ensures LiteStatus(score) == "NEEDS WORK" <==> LiteStatusColor(score) == "#F39C12"
    ensures LiteStatus(score) == "FAIL" <==> LiteStatusColor(score) == "#E74C3C"
    ensures LiteStatus(score) == "PASS" <==> score == Some(1.0)
    ensures LiteStatus(score) == "NEEDS WORK" <==> score.Some? && score.value > 0.5 && score.value != 1.0
  {
  }

  /** One listed audit: `${title}: ${status}` with its bullet colour and impact line. */
  datatype ResultLine = ResultLine(id: string, title: string, status: string, color: string, impact: string)

  function LineFor(e: LiteEntry, audits: map<string, AuditData>): ResultLine
    requires e.id in audits
  {
    ResultLine(e.id, e.title, LiteStatus(audits[e.id].score), LiteStatusColor(audits[e.id].score), LiteImpact(e.id))
  }

  /** The entries `addLiteResults` lists: those with a result in the report. */
  function Shown(entries: seq<LiteEntry>, audits: map<string, AuditData>): (r: seq<LiteEntry>)
    ensures forall e :: e in r ==> e in entries && e.id in audits
  {
    Filter(entries, (e: LiteEntry) => e.id in audits)
  }

  /** `addLiteResults`: walk LITE_AUDIT_INFO in key order and list every audit
      the report has a result for. */
  method AddLiteResults(entries: seq<LiteEntry>, audits: map<string, AuditData>) returns (lines: seq<ResultLine>)
    ensures |lines| == |Shown(entries, audits)|
    ensures forall k :: 0 <= k < |lines| ==> lines[k] == LineFor(Shown(entries, audits)[k], audits)
  {
    lines := [];
    ghost var shown: seq<LiteEntry> := [];
    for i := 0 to |entries|
      invariant shown == Shown(entries[..i], audits)
      invariant |lines| == |shown|
      invariant forall k :: 0 <= k < |shown| ==> shown[k].id in audits && lines[k] == LineFor(shown[k], audits)
    {
      var e := entries[i];
      assert entries[..i + 1] == entries[..i] + [e];
      FilterAppend(entries[..i], e, (x: LiteEntry) => x.id in audits);
      if e.id in audits {
        lines := lines + [LineFor(e, audits)];
        shown := shown + [e];
      }
    }
    assert entries[..|entries|] == entries;
  }

  /** An entry is listed exactly when its audit has a result, and the listed
      entries keep LITE_AUDIT_INFO's order. */
  lemma ShownExactly(entries: seq<LiteEntry>, audits: map<string, AuditData>, e: LiteEntry)
    ensures e in Shown(entries, audits) <==> e in entries && e.id in audits
    ensures Shown(entries, audits) == entries ==> forall x :: x in entries ==> x.id in audits
  {
  }

  /** `${hostname with '.' replaced by '-'}.pdf` */
  function LiteReportName(hostname: string): (name: string)
    ensures EndsWith(name, ".pdf")
    ensures |name| == |hostname| + 4
    ensures forall i :: 0 <= i < |hostname| ==> name[i] == (if hostname[i] == '.' then '-' else hostname[i])
    ensures forall i :: 0 <= i < |hostname| ==> name[i] != '.'
  {
    var name := ReplaceChar(hostname, '.', '-') + ".pdf";
    assert name[|name| - 4..] == ".pdf";
    name
  }

  const InputsRequired := "Both inputFile and outputDirectory are required."
  const FinalUrlRequired := "The report JSON must contain a finalUrl property."
  const InvalidUrl := "Invalid URL"

  /** `{ success: true, reportPath, score, isLiteVersion: true }` */
  datatype LiteResult = LiteResult(reportPath: string, score: real)

  /** `generateLiteAccessibilityReport(inputFile, outputDirectory)`. `readJson`
      reads and parses a file (its exception message on failure); `hostOf` is
      the hostname of a parsed URL. */
  function GenerateLiteAccessibilityReport(
    inputFile: string, outputDirectory: string, config: Config,
    readJson: string -> Outcome<Report>, hostOf: string -> Option<string>): (o: Outcome<LiteResult>)
    ensures inputFile == "" || outputDirectory == "" ==> o == Threw(InputsRequired)
    ensures (inputFile != "" && outputDirectory != "" && readJson(inputFile).Returned?
             && readJson(inputFile).value.finalUrl == "") ==> o == Threw(FinalUrlRequired)
    ensures inputFile != "" && outputDirectory != "" && readJson(inputFile).Threw? ==>
              o == Threw(readJson(inputFile).message)
    ensures inputFile != "" && outputDirectory != "" && readJson(inputFile).Returned?
            && readJson(inputFile).value.finalUrl != "" && hostOf(readJson(inputFile).value.finalUrl).None? ==>
              o == Threw(InvalidUrl)
    ensures inputFile != "" && outputDirectory != "" && readJson(inputFile).Returned?
            && readJson(inputFile).value.finalUrl != "" && hostOf(readJson(inputFile).value.finalUrl).Some? ==>
              o.Returned?
    ensures o.Returned? ==>
      inputFile != "" && outputDirectory != "" && readJson(inputFile).Returned?
      && var url := readJson(inputFile).value.finalUrl;
      url != "" && hostOf(url).Some?
      && o.value.reportPath == JoinPath(outputDirectory, LiteReportName(hostOf(url).value))
      && o.value.score == LiteScore(config, readJson(inputFile).value.audits)
  {
    if inputFile == "" || outputDirectory == "" then Threw(InputsRequired)
    else match readJson(inputFile)
      case Threw(m) => Threw(m)
      case Returned(report) =>
        if report.finalUrl == "" then Threw(FinalUrlRequired)
        else match hostOf(report.finalUrl)
          case None => Threw(InvalidUrl)
          case Some(host) =>
            var outputPath := JoinPath(outputDirectory, LiteReportName(host));
            Returned(LiteResult(outputPath, LiteScore(config, report.audits)))
  }
}
