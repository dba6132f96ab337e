/** audit.js: the error-reporting score calculator, the zero-score gate and
    report naming of `performAudit`, and the one-retry ladder of
    `runLighthouseAudit`. Launching the browser and running Lighthouse is an
    oracle `LhRun`; `Date.now()` arrives with the run. */
module Audit {
  import opened Common
  import opened Lighthouse
  import opened Configs
  import opened Scoring

  /** `{ finalScore, totalWeightedScore, totalWeight, error? }` */
  datatype ScoreData = ScoreData(finalScore: real, totalWeightedScore: real, totalWeight: real, error: Option<string>)

  const CategoryNotFound := "Category not found"
  const NoAuditReferences := "No audit references"
  const ZeroTotalWeight := "Zero total weight"
  const ZeroScoreMessage := "Silver Surfers score is 0 - audit may have failed or configuration issue detected"
  const UrlRequired := "URL is required."
  const InvalidUrl := "Invalid URL"

  function ErrorScore(message: string): ScoreData {
    ScoreData(0.0, 0.0, 0.0, Some(message))
  }

  /** The value `calculateSeniorFriendlinessScore(report)` returns. */
  function SeniorScore(config: Config, audits: map<string, AuditData>): ScoreData {
    if FullCategoryId !in config.categories then ErrorScore(CategoryNotFound)
    else
      var refs := config.categories[FullCategoryId].auditRefs;
      if refs == [] then ErrorScore(NoAuditReferences)
      else if SumWeights(refs) == 0.0 then ErrorScore(ZeroTotalWeight)
      else ScoreData(Percent(WeightedSum(refs, audits), SumWeights(refs)), WeightedSum(refs, audits), SumWeights(refs), None)
  }

  /** The calculator itself: the checks, then the accumulator loop, which also
      lists the references without a result and counts the others. */
  method CalculateSeniorFriendlinessScore(config: Config, report: Report) returns (r: ScoreData, missing: seq<string>, processed: nat)
    ensures r == SeniorScore(config, report.audits)
    ensures FullCategoryId in config.categories && config.categories[FullCategoryId].auditRefs != [] ==>
      var refs := config.categories[FullCategoryId].auditRefs;
      missing == MissingIds(refs, report.audits) && processed + |missing| == |refs|
    ensures FullCategoryId !in config.categories || config.categories[FullCategoryId].auditRefs == [] ==>
      missing == [] && processed == 0
  {
    missing, processed := [], 0;
    if FullCategoryId !in config.categories {
      return ErrorScore(CategoryNotFound), missing, processed;
    }
    var refs := config.categories[FullCategoryId].auditRefs;
    if |refs| == 0 {
      return ErrorScore(NoAuditReferences), missing, processed;
    }
    var t := Accumulate(refs, report.audits);
    missing, processed := t.missing, t.processed;
    if t.total == 0.0 {
      return ErrorScore(ZeroTotalWeight), missing, processed;
    }
    r := ScoreData(t.weighted / t.total * 100.0, t.weighted, t.total, None);
  }

  /** The error field is absent exactly when the category has references of
      non-zero total weight; the score then lies in [0, 100]; with an error
      every number is 0. */
  lemma SeniorScoreMeaning(config: Config, audits: map<string, AuditData>)
    ensures SeniorScore(config, audits).error.None?
        <==> FullCategoryId in config.categories
             && config.categories[FullCategoryId].auditRefs != []
             && SumWeights(config.categories[FullCategoryId].auditRefs) != 0.0
    ensures SeniorScore(config, audits).error.Some? ==>
              SeniorScore(config, audits) == ErrorScore(SeniorScore(config, audits).error.value)
    ensures FullCategoryId in config.categories
            && NonNegativeWeights(config.categories[FullCategoryId].auditRefs)
            && ScoresInUnit(audits) ==>
              0.0 <= SeniorScore(config, audits).finalScore <= 100.0
  {
    if FullCategoryId in config.categories {
      var refs := config.categories[FullCategoryId].auditRefs;
      if NonNegativeWeights(refs) && ScoresInUnit(audits) && refs != [] && SumWeights(refs) != 0.0 {
        PercentBounds(refs, audits);
      }
    }
  }

  /** With the shipped configuration no error variant can occur, the total
      weight is 100, and the final score equals the weighted sum. */
  lemma FullConfigScore(audits: map<string, AuditData>)
    ensures SeniorScore(FullConfig(), audits)
         == ScoreData(WeightedSum(FullRefs(), audits), WeightedSum(FullRefs(), audits), 100.0, None)
  {
    FullWeights();
  }

  /** With the shipped configuration and scores in [0,1], the final score is
      exactly 0 when every referenced audit is missing or scored 0 (or null). */
  lemma FullConfigZeroScore(audits: map<string, AuditData>)
    requires ScoresInUnit(audits)
    ensures SeniorScore(FullConfig(), audits).finalScore == 0.0
        <==> forall i :: 0 <= i < |FullRefs()| ==> ScoreOf(audits, FullRefs()[i].id) == 0.0
  {
    FullConfigScore(audits);
    FullWeights();
    var refs := FullRefs();
    assert NonNegativeWeights(refs);
    WeightedSumZero(refs, audits);
    forall i | 0 <= i < |refs|
      ensures ScoreOf(audits, refs[i].id) * refs[i].weight == 0.0 <==> ScoreOf(audits, refs[i].id) == 0.0
    {
      assert refs[i].weight > 0.0;
    }
  }

  /** What the browser-and-Lighthouse part of `performAudit` produces: an
      exception, or a result with its JSON and rendered forms and the time
      the report is named after. */
  datatype LhRun = LhThrew(message: string) | LhRan(lhr: Report, json: string, rendered: string, timestamp: nat)

  /** What `performAudit` and `runLighthouseAudit` return. `Saved` is
      `{ success: true, reportPath, scoreData, reportGenerated: true }` with
      the content written to `reportPath`; `ZeroScore` is `{ success: false,
      error, scoreData, reportGenerated: false }`; `Failed` is `{ success:
      false, error }`. */
  datatype AuditReply =
    | Saved(reportPath: string, written: string, scoreData: ScoreData)
    | ZeroScore(scoreData: ScoreData)
    | Failed(error: string)
  {
    predicate Success() { Saved? }
    predicate ReportGenerated() { Saved? }
    function Error(): string {
      match this
      case Saved(_, _, _) => ""
      case ZeroScore(_) => ZeroScoreMessage
      case Failed(e) => e
    }
  }

  /** `report-${hostname with '.' replaced by '-'}-${timestamp}.${format}` */
  function ReportPath(hostname: string, timestamp: nat, format: string): (p: string)
    ensures StartsWith(p, "report-")
    ensures EndsWith(p, "." + format)
    ensures p == "report-" + ReplaceChar(hostname, '.', '-') + "-" + NatToString(timestamp) + "." + format
    ensures forall c :: c in ReplaceChar(hostname, '.', '-') ==> c != '.'
  {
    var p := "report-" + ReplaceChar(hostname, '.', '-') + "-" + NatToString(timestamp) + "." + format;
    assert p[..7] == "report-";
    assert p[|p| - |"." + format|..] == "." + format;
    p
  }

  /** The end of `performAudit`: score the result, refuse a score of exactly 0
      without writing anything, otherwise name and write the report.
      `host` is the hostname `new URL(url)` yields, None when it throws. */
  function PerformAudit(format: string, config: Config, run: LhRun, host: Option<string>): (o: Outcome<AuditReply>)
    ensures run.LhThrew? ==> o == Threw(run.message)
    ensures run.LhRan? ==>
      var sd := SeniorScore(config, run.lhr.audits);
      (sd.finalScore == 0.0 ==> o == Returned(ZeroScore(sd)))
      && (sd.finalScore != 0.0 && host.None? ==> o == Threw(InvalidUrl))
      && (sd.finalScore != 0.0 && host.Some? ==>
            o.Returned? && o.value.Saved? && o.value.scoreData == sd
            && o.value.reportPath == ReportPath(host.value, run.timestamp, format)
            && o.value.written == if format == "json" then run.json else run.rendered)
    ensures o.Returned? ==> !o.value.Failed?
    ensures o.Returned? && o.value.Saved? ==> o.value.scoreData.finalScore != 0.0
  {
    match run
    case LhThrew(m) => Threw(m)
    case LhRan(lhr, json, rendered, timestamp) =>
      var scoreData := SeniorScore(config, lhr.audits);
      if scoreData.finalScore == 0.0 then Returned(ZeroScore(scoreData))
      else match host
        case None => Threw(InvalidUrl)
        case Some(h) =>
          Returned(Saved(ReportPath(h, timestamp, format), if format == "json" then json else rendered, scoreData))
  }

  /** A URL carries a scheme the audit can load. */
  predicate HasWebScheme(u: string) {
    StartsWith(u, "http://") || StartsWith(u, "https://")
  }

  /** `url.startsWith('http') ? url : 'https://' + url`, as written. */
  function NormalizeUrlAsWritten(url: string): string {
    if StartsWith(url, "http") then url else "https://" + url
  }

  /** A bare host whose name begins with "http" is left without a scheme. */
  lemma NormalizeUrlAsWrittenMissesHttpHosts()
    ensures NormalizeUrlAsWritten("httpbin.org") == "httpbin.org"
    ensures !HasWebScheme(NormalizeUrlAsWritten("httpbin.org"))
  {
    assert "httpbin.org"[..4] == "http";
    assert "httpbin.org"[..7][4] == 'b' != "http://"[4];
    assert "httpbin.org"[..8][4] == 'b' != "https://"[4];
  }

  /** Prefix `https://` unless the URL already names the http or https scheme. */
  function NormalizeUrl(url: string): (r: string)
    ensures HasWebScheme(r)
    ensures HasWebScheme(url) ==> r == url
    ensures !HasWebScheme(url) ==> r == "https://" + url
  {
    if HasWebScheme(url) then url
    else
      assert ("https://" + url)[..8] == "https://";
      "https://" + url
  }

  /** The corrected prefix rule agrees with the written one on every URL that
      already has a scheme and on every URL not starting with "http"; it is
      idempotent. */
  lemma NormalizeUrlAgrees(url: string)
    ensures HasWebScheme(url) || !StartsWith(url, "http") ==> NormalizeUrl(url) == NormalizeUrlAsWritten(url)
    ensures NormalizeUrl(NormalizeUrl(url)) == NormalizeUrl(url)
  {
    if StartsWith(url, "http://") {
      assert url[..4] == url[..7][..4];
    } else if StartsWith(url, "https://") {
      assert url[..4] == url[..8][..4];
    }
  }

  /** The two error messages that earn a second, advanced attempt. */
  predicate RetryWorthy(message: string) {
    Includes(message, "Status code 403") || Includes(message, "timed out")
  }

  /** The arguments of one `performAudit` call: the URL, the device and the
      `useAdvancedFeatures` flag. */
  datatype LhCall = LhCall(url: string, device: string, advanced: bool)

  /** The reply, and the `performAudit` calls made, in order. */
  datatype AuditRun = AuditRun(reply: AuditReply, calls: seq<LhCall>)

  /** The `try`/`catch` of `runLighthouseAudit` once the URL is built: a
      standard run, and an advanced one when the first threw a 403 or a
      timeout. */
  function AuditWithRetry(
    fullUrl: string, dev: string, fmt: string, config: Config,
    lighthouse: (string, string, bool) -> LhRun, hostOf: string -> Option<string>): (r: AuditRun)
    ensures 1 <= |r.calls| <= 2
    ensures forall i :: 0 <= i < |r.calls| ==> r.calls[i] == LhCall(fullUrl, dev, i == 1)
  {
    match PerformAudit(fmt, config, lighthouse(fullUrl, dev, false), hostOf(fullUrl))
    case Returned(reply) => AuditRun(reply, [LhCall(fullUrl, dev, false)])
    case Threw(message) =>
      if RetryWorthy(message) then
        var calls := [LhCall(fullUrl, dev, false), LhCall(fullUrl, dev, true)];
        match PerformAudit(fmt, config, lighthouse(fullUrl, dev, true), hostOf(fullUrl))
        case Returned(reply) => AuditRun(reply, calls)
        case Threw(finalMessage) => AuditRun(Failed(finalMessage), calls)
      else AuditRun(Failed(message), [LhCall(fullUrl, dev, false)])
  }

  function DeviceOrDefault(device: Option<string>): string {
    if device.Some? then device.value else "desktop"
  }

  function FormatOrDefault(format: Option<string>): string {
    if format.Some? then format.value else "json"
  }

  /** `runLighthouseAudit({ url, device, format })`, with the URL built as
      written. `lighthouse(url, device, advanced)` is the browser run of one
      `performAudit` call; `hostOf` is the hostname of a parsed URL. */
  function RunLighthouseAudit(
    url: string, device: Option<string>, format: Option<string>, config: Config,
    lighthouse: (string, string, bool) -> LhRun, hostOf: string -> Option<string>): (r: AuditRun)
    ensures url == "" <==> r.calls == []
    ensures url == "" ==> r.reply == Failed(UrlRequired)
    ensures |r.calls| <= 2
    ensures forall i :: 0 <= i < |r.calls| ==>
              r.calls[i].url == NormalizeUrlAsWritten(url) && r.calls[i].device == DeviceOrDefault(device)
    ensures r.calls != [] ==> !r.calls[0].advanced
    ensures |r.calls| == 2 ==> r.calls[1].advanced
  {
    if url == "" then AuditRun(Failed(UrlRequired), [])
    else AuditWithRetry(NormalizeUrlAsWritten(url), DeviceOrDefault(device), FormatOrDefault(format), config, lighthouse, hostOf)
  }

  /** The same request with the corrected URL rule: every call gets a URL
      with a web scheme. */
  function RunLighthouseAuditCorrected(
    url: string, device: Option<string>, format: Option<string>, config: Config,
    lighthouse: (string, string, bool) -> LhRun, hostOf: string -> Option<string>): (r: AuditRun)
    ensures url == "" <==> r.calls == []
    ensures url == "" ==> r.reply == Failed(UrlRequired)
    ensures |r.calls| <= 2
    ensures forall i :: 0 <= i < |r.calls| ==>
              HasWebScheme(r.calls[i].url) && r.calls[i].url == NormalizeUrl(url) && r.calls[i].device == DeviceOrDefault(device)
    ensures r.calls != [] ==> !r.calls[0].advanced
    ensures |r.calls| == 2 ==> r.calls[1].advanced
  {
    if url == "" then AuditRun(Failed(UrlRequired), [])
    else AuditWithRetry(NormalizeUrl(url), DeviceOrDefault(device), FormatOrDefault(format), config, lighthouse, hostOf)
  }

  /** The corrected request behaves as the written one on every URL that
      already has a scheme or does not start with "http"; on `httpbin.org`
      the written one audits a URL with no scheme. */
  lemma CorrectedRunAgrees(
    url: string, device: Option<string>, format: Option<string>, config: Config,
    lighthouse: (string, string, bool) -> LhRun, hostOf: string -> Option<string>)
    ensures HasWebScheme(url) || !StartsWith(url, "http") ==>
              RunLighthouseAuditCorrected(url, device, format, config, lighthouse, hostOf)
              == RunLighthouseAudit(url, device, format, config, lighthouse, hostOf)
    ensures !HasWebScheme(RunLighthouseAudit("httpbin.org", device, format, config, lighthouse, hostOf).calls[0].url)
  {
    NormalizeUrlAgrees(url);
    NormalizeUrlAsWrittenMissesHttpHosts();
  }

  /** The advanced attempt happens exactly when the standard one, on the URL
      as the source builds it, threw a retry-worthy error; a returned result
      (a zero score included) is passed on untouched; every exception ends as
      a `Failed` reply with its message. */
  lemma RetryDecision(
    url: string, device: Option<string>, format: Option<string>, config: Config,
    lighthouse: (string, string, bool) -> LhRun, hostOf: string -> Option<string>)
    requires url != ""
    ensures
      var fullUrl := NormalizeUrlAsWritten(url);
      var dev := DeviceOrDefault(device);
      var fmt := FormatOrDefault(format);
      var first := PerformAudit(fmt, config, lighthouse(fullUrl, dev, false), hostOf(fullUrl));
      var second := PerformAudit(fmt, config, lighthouse(fullUrl, dev, true), hostOf(fullUrl));
      var r := RunLighthouseAudit(url, device, format, config, lighthouse, hostOf);
      (|r.calls| == 2 <==> first.Threw? && RetryWorthy(first.message))
      && (first.Returned? ==> r.reply == first.value)
      && (first.Threw? && !RetryWorthy(first.message) ==> r.reply == Failed(first.message))
      && (first.Threw? && RetryWorthy(first.message) ==>
            r.reply == if second.Returned? then second.value else Failed(second.message))
  {
  }
}
