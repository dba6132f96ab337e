/** pdf_generator.js: the report's own copy of the score calculation, the
    score-to-label and score-to-colour ladders, the chunking of finding
    tables into pages, the grouping of audits by category and the name of the
    PDF file. Page layout and drawing are not modelled. */
module FullReport {
  import opened Common
  import opened Lighthouse
  import opened Configs
  import opened Scoring
  import Audit

  /** The parts of an AUDIT_INFO entry the modelled code reads. */
  datatype AuditInfo = AuditInfo(title: string, category: string)

  const Vision := "Vision Accessibility"
  const Motor := "Motor Accessibility"
  const Cognitive := "Cognitive Accessibility"
  const Performance := "Performance for Seniors"
  const Security := "Security for Seniors"
  const Technical := "Technical Accessibility"

  /** AUDIT_INFO, keyed by audit id. */
  function AuditInfoTable(): map<string, AuditInfo> {
    map[
      "text-font-audit" := AuditInfo("Text Size and Readability Analysis", Vision),
      "color-contrast" := AuditInfo("Color Contrast for Clear Vision", Vision),
      "interactive-color-audit" := AuditInfo("Interactive Elements Visual Clarity", Vision),
      "target-size" := AuditInfo("Touch Target Size for Seniors", Motor),
      "layout-brittle-audit" := AuditInfo("Text Spacing Flexibility for Readability", Motor),
      "heading-order" := AuditInfo("Logical Content Structure", Cognitive),
      "button-name" := AuditInfo("Clear Button Labels", Cognitive),
      "link-name" := AuditInfo("Descriptive Link Text", Cognitive),
      "label" := AuditInfo("Form Field Labels", Cognitive),
      "largest-contentful-paint" := AuditInfo("Page Loading Speed", Performance),
      "cumulative-layout-shift" := AuditInfo("Stable Page Layout", Performance),
      "total-blocking-time" := AuditInfo("Page Responsiveness", Performance),
      "is-on-https" := AuditInfo("Secure Connection Protection", Security),
      "geolocation-on-start" := AuditInfo("Privacy-Respecting Location Requests", Security),
      "viewport" := AuditInfo("Mobile-Friendly Design", Technical),
      "dom-size" := AuditInfo("Page Complexity Management", Technical),
      "errors-in-console" := AuditInfo("Technical Stability", Technical),
      "font-size" := AuditInfo("Overall Font Size Assessment", Vision)
    ]
  }

  /** Every audit the full configuration scores has an AUDIT_INFO entry, so
      each of them gets a detail page. */
  lemma FullRefsHaveInfo()
    ensures forall i :: 0 <= i < |FullRefs()| ==> FullRefs()[i].id in AuditInfoTable()
  {
  }

  /** `{ finalScore, totalWeightedScore, totalWeight }` */
  datatype ScoreSummary = ScoreSummary(finalScore: real, totalWeightedScore: real, totalWeight: real)

  /** The value this file's `calculateSeniorFriendlinessScore` returns. */
  function PdfScore(config: Config, audits: map<string, AuditData>): ScoreSummary {
    if FullCategoryId !in config.categories then ScoreSummary(0.0, 0.0, 0.0)
    else
      var refs := config.categories[FullCategoryId].auditRefs;
      if SumWeights(refs) == 0.0 then ScoreSummary(0.0, 0.0, 0.0)
      else ScoreSummary(Percent(WeightedSum(refs, audits), SumWeights(refs)), WeightedSum(refs, audits), SumWeights(refs))
  }

  method CalculateSeniorFriendlinessScore(config: Config, report: Report) returns (r: ScoreSummary)
    ensures r == PdfScore(config, report.audits)
  {
    if FullCategoryId !in config.categories {
      return ScoreSummary(0.0, 0.0, 0.0);
    }
    var t := Accumulate(config.categories[FullCategoryId].auditRefs, report.audits);
    if t.total == 0.0 {
      return ScoreSummary(0.0, 0.0, 0.0);
    }
    r := ScoreSummary(t.weighted / t.total * 100.0, t.weighted, t.total);
  }

  /** The report's calculator and the audit's calculator produce the same
      three numbers on every configuration and every result; only the audit's
      version names its error. */
  lemma PdfScoreAgreesWithAudit(config: Config, audits: map<string, AuditData>)
    ensures PdfScore(config, audits).finalScore == Audit.SeniorScore(config, audits).finalScore
    ensures PdfScore(config, audits).totalWeightedScore == Audit.SeniorScore(config, audits).totalWeightedScore
    ensures PdfScore(config, audits).totalWeight == Audit.SeniorScore(config, audits).totalWeight
  {
  }

  /** A missing category or a zero total weight gives all zeros; otherwise
      the final score is the weighted mean as a percentage and lies in
      [0, 100] for scores in [0, 1] and non-negative weights. */
  lemma PdfScoreMeaning(config: Config, audits: map<string, AuditData>)
    ensures FullCategoryId !in config.categories ==> PdfScore(config, audits) == ScoreSummary(0.0, 0.0, 0.0)
    ensures FullCategoryId in config.categories ==>
      var refs := config.categories[FullCategoryId].auditRefs;
      (SumWeights(refs) == 0.0 ==> PdfScore(config, audits) == ScoreSummary(0.0, 0.0, 0.0))
      && (SumWeights(refs) != 0.0 ==>
            PdfScore(config, audits).finalScore * SumWeights(refs) == WeightedSum(refs, audits) * 100.0)
      && (NonNegativeWeights(refs) && ScoresInUnit(audits) ==> 0.0 <= PdfScore(config, audits).finalScore <= 100.0)
  {
    if FullCategoryId in config.categories {
      var refs := config.categories[FullCategoryId].auditRefs;
      if SumWeights(refs) != 0.0 && NonNegativeWeights(refs) && ScoresInUnit(audits) {
        PercentBounds(refs, audits);
      }
    }
  }

  /** Label and fill colour of `addScoreBar`. */
  datatype BarStyle = BarStyle(text: string, color: string)

  function ScoreBarStyle(score: Option<real>): BarStyle {
    if score.None? then BarStyle("Not Applicable", "#95A5A6")
    else if score.value == 1.0 then BarStyle("Excellent for Seniors", "#27AE60")
    else if score.value > 0.8 then BarStyle("Good for Seniors", "#2ECC71")
    else if score.value > 0.5 then BarStyle("Moderate Issues", "#F39C12")
    else BarStyle("Needs Improvement", "#E74C3C")
  }

  /** Width of the filled part of the 200-point bar; none for a null score. */
  function ScoreBarFill(score: Option<real>): (w: Option<real>)
    ensures score.None? <==> w.None?
    ensures w.Some? ==> w.value >= 10.0
    ensures w.Some? && score.value <= 1.0 ==> w.value <= 200.0
    ensures w.Some? && score.value >= 0.05 ==> w.value == 200.0 * score.value
  {
    if score.None? then None else Some(200.0 * MaxR(score.value, 0.05))
  }

  /** The word `addSummaryPage` prints for an audit's score. */
  function SummaryText(score: Option<real>): string {
    if score.None? then "N/A"
    else if score.value == 1.0 then "Excellent"
    else if score.value > 0.8 then "Good"
    else if score.value > 0.5 then "Needs Work"
    else "Poor"
  }

  /** Position of a score-bar label on the scale, worst first. */
  function BarRank(style: BarStyle): nat {
    if style.text == "Excellent for Seniors" then 3
    else if style.text == "Good for Seniors" then 2
    else if style.text == "Moderate Issues" then 1
    else 0
  }

  /** For scores in [0, 1] a higher score never gets a worse label. */
  lemma ScoreBarMonotone(s: real, t: real)
    requires 0.0 <= s <= t <= 1.0
    ensures BarRank(ScoreBarStyle(Some(s))) <= BarRank(ScoreBarStyle(Some(t)))
  {
  }

  /** The summary page and the score bar, written as two ladders, cut the
      scores at the same places: each summary word goes with one bar label. */
  lemma SummaryAgreesWithScoreBar(score: Option<real>)
    ensures SummaryText(score) == "N/A" <==> ScoreBarStyle(score).text == "Not Applicable"
    ensures SummaryText(score) == "Excellent" <==> ScoreBarStyle(score).text == "Excellent for Seniors"
    ensures SummaryText(score) == "Good" <==> ScoreBarStyle(score).text == "Good for Seniors"
    ensures SummaryText(score) == "Needs Work" <==> ScoreBarStyle(score).text == "Moderate Issues"
    ensures SummaryText(score) == "Poor" <==> ScoreBarStyle(score).text == "Needs Improvement"
  {
  }

  /** Colour of the overall score circle. */
  function OverallScoreColor(finalScore: real): string {
    if finalScore >= 90.0 then "#27AE60"
    else if finalScore >= 50.0 then "#F39C12"
    else "#E74C3C"
  }

  lemma OverallScoreColorBands(finalScore: real)
    ensures OverallScoreColor(finalScore) == "#27AE60" <==> finalScore >= 90.0
    ensures OverallScoreColor(finalScore) == "#F39C12" <==> 50.0 <= finalScore < 90.0
    ensures OverallScoreColor(finalScore) == "#E74C3C" <==> finalScore < 50.0
  {
  }

  const ItemsPerPage := 12

  function Concat<T>(pages: seq<seq<T>>): seq<T> {
    if pages == [] then [] else Concat(pages[..|pages| - 1]) + pages[|pages| - 1]
  }

  /** The table slices of `addTablePages`: nothing without items, otherwise
      `items.slice(i, i + 12)` for i = 0, 12, 24, ... */
  method TablePages(items: Option<seq<Item>>) returns (pages: seq<seq<Item>>)
    ensures items.None? || items.value == [] ==> pages == []
    ensures items.Some? ==> Concat(pages) == items.value
    ensures forall k :: 0 <= k < |pages| ==> 1 <= |pages[k]| <= ItemsPerPage
    ensures forall k :: 0 <= k < |pages| - 1 ==> |pages[k]| == ItemsPerPage
    ensures items.Some? ==> |pages| == (|items.value| + ItemsPerPage - 1) / ItemsPerPage
  {
    pages := [];
    if items.None? || |items.value| == 0 {
      return;
    }
    var all := items.value;
    var i := 0;
    while i < |all|
      invariant 0 <= i <= |all| + ItemsPerPage - 1
      invariant i % ItemsPerPage == 0
      invariant i <= |all| ==> Concat(pages) == all[..i]
      invariant i > |all| ==> Concat(pages) == all
      invariant |pages| == i / ItemsPerPage
      invariant forall k :: 0 <= k < |pages| ==> 1 <= |pages[k]| <= ItemsPerPage
      invariant i <= |all| ==> forall k :: 0 <= k < |pages| ==> |pages[k]| == ItemsPerPage
      invariant i > |all| ==> forall k :: 0 <= k < |pages| - 1 ==> |pages[k]| == ItemsPerPage
      decreases |all| - i
    {
      var end := if i + ItemsPerPage <= |all| then i + ItemsPerPage else |all|;
      var page := all[i..end];
      assert Concat(pages + [page]) == Concat(pages) + page;
      assert all[..i] + all[i..end] == all[..end];
      pages := pages + [page];
      i := i + ItemsPerPage;
    }
    if i == |all| {
      assert all[..i] == all;
    }
  }

  /** Categories of the audits of `ids` that have an AUDIT_INFO entry, in
      order of first appearance, as the keys of the `categories` object come
      out. */
  function CategoryOrder(ids: seq<string>, info: map<string, AuditInfo>): seq<string> {
    if ids == [] then []
    else
      var prefix := CategoryOrder(ids[..|ids| - 1], info);
      var id := ids[|ids| - 1];
      if id !in info || info[id].category in prefix then prefix else prefix + [info[id].category]
  }

  /** The audits of `ids` in category `c`, in report order. */
  function InCategory(ids: seq<string>, info: map<string, AuditInfo>, c: string): seq<string> {
    Filter(ids, (id: string) => id in info && info[id].category == c)
  }

  lemma InCategoryStep(ids: seq<string>, id: string, info: map<string, AuditInfo>, c: string)
    ensures InCategory(ids + [id], info, c)
         == InCategory(ids, info, c) + (if id in info && info[id].category == c then [id] else [])
  {
    FilterAppend(ids, id, (x: string) => x in info && info[x].category == c);
  }

  /** A category is listed exactly when some audit falls in it, and no
      category is listed twice. */
  lemma {:induction false} CategoryOrderSpec(ids: seq<string>, info: map<string, AuditInfo>, c: string)
    ensures c in CategoryOrder(ids, info) <==> InCategory(ids, info, c) != []
    ensures Distinct(CategoryOrder(ids, info))
  {
    if ids != [] {
      var n := |ids| - 1;
      CategoryOrderSpec(ids[..n], info, c);
      assert ids == ids[..n] + [ids[n]];
      InCategoryStep(ids[..n], ids[n], info, c);
    }
  }

  /** The grouping of `generateReport` and `addSummaryPage`: audits of the
      report with an AUDIT_INFO entry go, in report order, to the list of
      their category; categories are listed in order of first appearance. */
  method GroupByCategory(auditOrder: seq<string>, info: map<string, AuditInfo>)
    returns (names: seq<string>, groups: map<string, seq<string>>)
    ensures names == CategoryOrder(auditOrder, info)
    ensures forall c :: c in groups <==> c in names
    ensures forall c :: c in groups ==> groups[c] == InCategory(auditOrder, info, c)
  {
    names, groups := [], map[];
    for i := 0 to |auditOrder|
      invariant names == CategoryOrder(auditOrder[..i], info)
      invariant forall c :: c in groups <==> c in names
      invariant forall c :: c in groups ==> groups[c] == InCategory(auditOrder[..i], info, c)
    {
      var id := auditOrder[i];
      assert auditOrder[..i + 1] == auditOrder[..i] + [id];
      forall d
        ensures InCategory(auditOrder[..i + 1], info, d)
             == InCategory(auditOrder[..i], info, d) + (if id in info && info[id].category == d then [id] else [])
      {
        InCategoryStep(auditOrder[..i], id, info, d);
      }
      if id in info {
        var c := info[id].category;
        if c !in groups {
          CategoryOrderSpec(auditOrder[..i], info, c);
          names := names + [c];
          groups := groups[c := [id]];
        } else {
          groups := groups[c := groups[c] + [id]];
        }
      }
    }
    assert auditOrder[..|auditOrder|] == auditOrder;
  }

  /** Each audit with an AUDIT_INFO entry lands in the group of its own
      category and in no other; audits without one land nowhere. */
  lemma GroupsPartitionSupported(auditOrder: seq<string>, info: map<string, AuditInfo>, c: string, id: string)
    ensures id in InCategory(auditOrder, info, c) <==> id in auditOrder && id in info && info[id].category == c
  {
  }

  /** `node.selector || node.path || null` */
  function ExtractSelector(node: Option<Node>): (r: Option<string>)
    ensures r.Some? ==> r.value != "" && node.Some?
    ensures r.Some? ==> r.value == node.value.selector || (node.value.selector == "" && r.value == node.value.path)
    ensures r.None? <==> node.None? || (node.value.selector == "" && node.value.path == "")
  {
    if node.None? then None
    else if node.value.selector != "" then Some(node.value.selector)
    else if node.value.path != "" then Some(node.value.path)
    else None
  }

  /** `node.nodeLabel || node.snippet || null` */
  function ExtractNodeLabel(node: Option<Node>): (r: Option<string>)
    ensures r.Some? ==> r.value != "" && node.Some?
    ensures r.Some? ==> r.value == node.value.nodeLabel || (node.value.nodeLabel == "" && r.value == node.value.snippet)
    ensures r.None? <==> node.None? || (node.value.nodeLabel == "" && node.value.snippet == "")
  {
    if node.None? then None
    else if node.value.nodeLabel != "" then Some(node.value.nodeLabel)
    else if node.value.snippet != "" then Some(node.value.snippet)
    else None
  }

  /** `url.replace(/https?:\/\//, '')`: the leftmost "http://" or "https://",
      wherever it occurs, is removed; there is no `g` flag. */
  function StripScheme(url: string): string {
    StripSchemeFrom(url, 0)
  }

  function StripSchemeFrom(url: string, i: nat): string
    requires i <= |url|
    decreases |url| - i
  {
    if i == |url| then url
    else if OccursAt(url, "https://", i) then url[..i] + url[i + 8..]
    else if OccursAt(url, "http://", i) then url[..i] + url[i + 7..]
    else StripSchemeFrom(url, i + 1)
  }

  /** A URL that begins with its scheme loses exactly that prefix. */
  lemma StripLeadingScheme(rest: string)
    ensures StripScheme("https://" + rest) == rest
    ensures StripScheme("http://" + rest) == rest
  {
    assert OccursAt("https://" + rest, "https://", 0);
    assert ("https://" + rest)[8..] == rest;
    var h := "http://" + rest;
    assert !OccursAt(h, "https://", 0) by {
      if |h| >= 8 {
        assert h[..8][4] == ':' && "https://"[4] == 's';
      }
    }
    assert OccursAt(h, "http://", 0);
    assert h[7..] == rest;
  }

  /** Characters `[a-zA-Z0-9.-]` that survive sanitising. */
  predicate SafeChar(c: char) {
    'a' <= c <= 'z' || 'A' <= c <= 'Z' || '0' <= c <= '9' || c == '.' || c == '-'
  }

  /** `.replace(/[^a-zA-Z0-9.-]/g, '-')` */
  function DashUnsafe(s: string): (r: string)
    ensures |r| == |s|
    ensures forall i :: 0 <= i < |s| ==> r[i] == if SafeChar(s[i]) then s[i] else '-'
  {
    if s == [] then [] else [if SafeChar(s[0]) then s[0] else '-'] + DashUnsafe(s[1..])
  }

  /** `.replace(/-+/g, '-')`: every run of dashes becomes one dash. */
  function CollapseDashes(s: string): string {
    if |s| < 2 then s
    else if s[0] == '-' && s[1] == '-' then CollapseDashes(s[1..])
    else [s[0]] + CollapseDashes(s[1..])
  }

  predicate NoDoubleDash(s: string) {
    forall i :: 0 <= i < |s| - 1 ==> !(s[i] == '-' && s[i + 1] == '-')
  }

  function WithoutDashes(s: string): string {
    Filter(s, (c: char) => c != '-')
  }

  /** Collapsing keeps the first character, removes only dashes, keeps every
      character it started with, and leaves no two dashes side by side. */
  lemma {:induction false} CollapseDashesSpec(s: string)
    ensures |s| > 0 ==> |CollapseDashes(s)| > 0 && CollapseDashes(s)[0] == s[0]
    ensures WithoutDashes(CollapseDashes(s)) == WithoutDashes(s)
    ensures forall c :: c in CollapseDashes(s) <==> c in s
    ensures NoDoubleDash(CollapseDashes(s))
  {
    if |s| >= 2 {
      CollapseDashesSpec(s[1..]);
      var t := CollapseDashes(s[1..]);
      assert s == [s[0]] + s[1..];
      if s[0] == '-' && s[1] == '-' {
        assert WithoutDashes(s) == WithoutDashes(s[1..]);
      } else {
        var r := [s[0]] + t;
        assert r[1..] == t;
        assert WithoutDashes(r) == (if s[0] != '-' then [s[0]] else []) + WithoutDashes(t);
        assert WithoutDashes(s) == (if s[0] != '-' then [s[0]] else []) + WithoutDashes(s[1..]);
        assert forall i :: 1 <= i < |r| - 1 ==> r[i] == t[i - 1] && r[i + 1] == t[i];
      }
    }
  }

  /** A string with no doubled dash is left as it is. */
  lemma {:induction false} CollapseDashesIdle(s: string)
    requires NoDoubleDash(s)
    ensures CollapseDashes(s) == s
  {
    if |s| >= 2 {
      CollapseDashesIdle(s[1..]);
    }
  }

  /** `sanitizedUrl` of `generateReport`. */
  function SanitizedUrl(url: string): string {
    CollapseDashes(DashUnsafe(StripScheme(url)))
  }

  /** `${sanitizedUrl}-${formFactor}.pdf`, with the `|| 'desktop'` and
      `|| 'unknown-url'` defaults applied to the report's fields. */
  function ReportFileName(report: Report): string {
    var formFactor := if report.formFactor == "" then "desktop" else report.formFactor;
    var url := if report.finalUrl == "" then "unknown-url" else report.finalUrl;
    SanitizedUrl(url) + "-" + formFactor + ".pdf"
  }

  /** The sanitised part uses only `[a-zA-Z0-9.-]`, has no doubled dash, and
      sanitising it again changes nothing. */
  lemma SanitizedUrlSafe(url: string)
    ensures forall c :: c in SanitizedUrl(url) ==> SafeChar(c)
    ensures NoDoubleDash(SanitizedUrl(url))
    ensures SanitizedUrl(SanitizedUrl(url)) == SanitizedUrl(url)
  {
    var d := DashUnsafe(StripScheme(url));
    CollapseDashesSpec(d);
    var s := SanitizedUrl(url);
    NoSchemeInSafe(s);
    assert DashUnsafe(s) == s;
    CollapseDashesIdle(s);
  }

  /** A string of safe characters contains no ':' and so no scheme to strip. */
  lemma NoSchemeInSafe(s: string)
    requires forall c :: c in s ==> SafeChar(c)
    ensures StripScheme(s) == s
  {
    NoSchemeFrom(s, 0);
  }

  lemma SafeHasNoSchemeAt(s: string, i: nat)
    requires forall c :: c in s ==> SafeChar(c)
    ensures !OccursAt(s, "https://", i) && !OccursAt(s, "http://", i)
  {
    if i + 8 <= |s| {
      assert SafeChar(s[i + 5]);
      assert s[i..i + 8][5] == s[i + 5];
    }
    if i + 7 <= |s| {
      assert SafeChar(s[i + 4]);
      assert s[i..i + 7][4] == s[i + 4];
    }
  }

  lemma {:induction false} NoSchemeFrom(s: string, i: nat)
    requires i <= |s|
    requires forall c :: c in s ==> SafeChar(c)
    ensures StripSchemeFrom(s, i) == s
    decreases |s| - i
  {
    if i < |s| {
      SafeHasNoSchemeAt(s, i);
      NoSchemeFrom(s, i + 1);
    }
  }

  /** The file name ends in "-" + form factor + ".pdf", "desktop" when unset. */
  lemma ReportFileNameShape(report: Report)
    ensures EndsWith(ReportFileName(report), "-" + (if report.formFactor == "" then "desktop" else report.formFactor) + ".pdf")
  {
    var f := if report.formFactor == "" then "desktop" else report.formFactor;
    var head := SanitizedUrl(if report.finalUrl == "" then "unknown-url" else report.finalUrl);
    var tail := "-" + f + ".pdf";
    assert ReportFileName(report) == head + tail;
    assert (head + tail)[|head + tail| - |tail|..] == tail;
  }
}
