/** backup.js: the three-attempt audit ladder of `runLighthouseAudit`, with an
    advanced second try inside an attempt for connection-like errors,
    exponential back-off between attempts, the list of per-attempt errors,
    and the lite variant. The browser and Lighthouse run of one
    `performAudit` call is an oracle; `Date.now()` arrives with the run. */
module BackupAudit {
  import opened Common
  import Configs
  import Audit

  /** What the browser and Lighthouse part of one `performAudit` call ends
      with: a report at time `timestamp`, or the message it threw. */
  datatype BrowserRun = Ran(timestamp: nat) | Crashed(message: string)

  /** The object `performAudit` resolves with. */
  datatype AuditSuccess = AuditSuccess(
    reportPath: string, isLiteVersion: bool, version: string, url: string, device: string,
    attemptNumber: nat, message: string)

  /** One entry of `errors`. */
  datatype AttemptError = AttemptError(attempt: nat, error: string, advancedError: Option<string>)

  /** The value `runLighthouseAudit` resolves with. */
  datatype BackupResult =
    | Succeeded(success: AuditSuccess)
    | Refused(error: string, errorCode: string, message: string, isLiteVersion: bool)
    | AuditFailed(error: string, errorCode: string, message: string, url: string, device: string,
                  isLiteVersion: bool, version: string, attempts: seq<AttemptError>, lastError: string, retryable: bool)

  /** One `performAudit` call: its attempt number and `useAdvancedFeatures`. */
  datatype Call = Call(attempt: nat, advanced: bool)

  const MaxAttempts := 3
  const InvalidUrl := "Invalid URL"

  function VersionOf(lite: bool): string {
    if lite then "Lite" else "Full"
  }

  /** The configuration `performAudit` hands to Lighthouse. */
  function ConfigFor(lite: bool): Configs.Config {
    if lite then Configs.LiteConfig() else Configs.FullConfig()
  }

  /** `report-${hostname}-${timestamp}${versionSuffix}.${format}` with every
      '.' of the hostname turned into '-'. */
  function ReportPath(hostname: string, timestamp: nat, lite: bool, format: string): (p: string)
    ensures StartsWith(p, "report-")
    ensures lite ==> EndsWith(p, "-lite." + format)
  {
    var p := "report-" + ReplaceChar(hostname, '.', '-') + "-" + NatToString(timestamp) + (if lite then "-lite" else "") + "." + format;
    assert p[..7] == "report-";
    assert lite ==> p[|p| - |"-lite." + format|..] == "-lite." + format;
    p
  }

  /** A lite report and a full report of the same run never share a path. */
  lemma LiteSuffixSeparates(hostname: string, timestamp: nat, format: string)
    ensures ReportPath(hostname, timestamp, true, format) != ReportPath(hostname, timestamp, false, format)
  {
    assert |ReportPath(hostname, timestamp, true, format)| == |ReportPath(hostname, timestamp, false, format)| + 5;
  }

  /** The fixed parts of one audit request; `config` is the Lighthouse
      configuration the request's version selects. */
  datatype Setup = Setup(
    fullUrl: string, device: string, format: string, lite: bool, config: Configs.Config,
    lighthouse: (string, string, bool, Configs.Config, nat) -> BrowserRun,
    hostOf: string -> Option<string>)

  /** `performAudit(fullUrl, { device, format, useAdvancedFeatures, isLiteVersion }, attempt)`:
      the run, then `new URL(url).hostname` for the report name. */
  function PerformAudit(s: Setup, advanced: bool, attempt: nat): (o: Outcome<AuditSuccess>)
    ensures o.Returned? <==> s.lighthouse(s.fullUrl, s.device, advanced, s.config, attempt).Ran? && s.hostOf(s.fullUrl).Some?
    ensures o.Returned? ==>
              o.value.attemptNumber == attempt && o.value.isLiteVersion == s.lite && o.value.url == s.fullUrl &&
              o.value.reportPath == ReportPath(s.hostOf(s.fullUrl).value,
                                               s.lighthouse(s.fullUrl, s.device, advanced, s.config, attempt).timestamp,
                                               s.lite, s.format)
  {
    match s.lighthouse(s.fullUrl, s.device, advanced, s.config, attempt)
    case Crashed(m) => Threw(m)
    case Ran(timestamp) =>
      match s.hostOf(s.fullUrl)
      case None => Threw(InvalidUrl)
      case Some(host) =>
        var version := VersionOf(s.lite);
        Returned(AuditSuccess(ReportPath(host, timestamp, s.lite, s.format), s.lite, version, s.fullUrl, s.device,
                              attempt, version + " audit completed successfully on attempt " + NatToString(attempt)))
  }

  /** The substrings that earn an advanced try within the same attempt. */
  const RetryKeywords := ["Status code 403", "timed out", "timeout", "connection", "Connecting to browser"]

  /** `error.message.includes(k)` for one of the keywords, checked in order. */
  predicate Escalates(message: string) {
    exists k :: 0 <= k < |RetryKeywords| && Includes(message, RetryKeywords[k])
  }

  /** `performAudit(fullUrl, options, attempt)` for a fixed request, keyed by
      `useAdvancedFeatures` and the attempt number. */
  type Perform = (bool, nat) -> Outcome<AuditSuccess>

  function Performer(s: Setup): Perform {
    (advanced: bool, attempt: nat) => PerformAudit(s, advanced, attempt)
  }

  /** Every result is stamped with the attempt that produced it. */
  ghost predicate Stamped(p: Perform) {
    forall advanced, a :: p(advanced, a).Returned? ==> p(advanced, a).value.attemptNumber == a
  }

  lemma PerformerStamped(s: Setup)
    ensures Stamped(Performer(s))
  {
  }

  /** An advanced try is earned exactly when the message contains one of the
      five keywords; the test is case-sensitive, so "Timed out" alone does
      not qualify. */
  lemma EscalatesIff(message: string)
    ensures Escalates(message) <==>
              Includes(message, "Status code 403") || Includes(message, "timed out") || Includes(message, "timeout") ||
              Includes(message, "connection") || Includes(message, "Connecting to browser")
  {
    if Includes(message, "Status code 403") { assert Includes(message, RetryKeywords[0]); }
    if Includes(message, "timed out") { assert Includes(message, RetryKeywords[1]); }
    if Includes(message, "timeout") { assert Includes(message, RetryKeywords[2]); }
    if Includes(message, "connection") { assert Includes(message, RetryKeywords[3]); }
    if Includes(message, "Connecting to browser") { assert Includes(message, RetryKeywords[4]); }
  }

  /** The standard try of attempt `a` threw a message that earns an advanced try. */
  predicate Escalated(p: Perform, a: nat) {
    p(false, a).Threw? && Escalates(p(false, a).message)
  }

  /** Attempt `a` ends with a result, from the standard or the advanced try. */
  predicate Succeeds(p: Perform, a: nat) {
    p(false, a).Returned? || (Escalated(p, a) && p(true, a).Returned?)
  }

  /** The result a successful attempt resolves with. */
  function Winner(p: Perform, a: nat): AuditSuccess
    requires Succeeds(p, a)
  {
    if p(false, a).Returned? then p(false, a).value else p(true, a).value
  }

  /** The `performAudit` calls attempt `a` makes. */
  function AttemptCalls(p: Perform, a: nat): seq<Call> {
    [Call(a, false)] + if Escalated(p, a) then [Call(a, true)] else []
  }

  /** The calls of attempts 1..n, in order. */
  function CallsThrough(p: Perform, n: nat): seq<Call> {
    if n == 0 then [] else CallsThrough(p, n - 1) + AttemptCalls(p, n)
  }

  /** The entry a failed attempt leaves in `errors`. */
  function ErrorOf(p: Perform, a: nat): AttemptError
    requires !Succeeds(p, a)
  {
    AttemptError(a, p(false, a).message, if Escalated(p, a) then Some(p(true, a).message) else None)
  }

  /** The `errors` list after attempts 1..n have all failed. */
  function ErrorsThrough(p: Perform, n: nat): (r: seq<AttemptError>)
    requires forall a: nat :: 1 <= a <= n ==> !Succeeds(p, a)
    ensures |r| == n
  {
    if n == 0 then [] else ErrorsThrough(p, n - 1) + [ErrorOf(p, n)]
  }

  /** `Math.pow(2, attempt - 1) * 2000` */
  function Backoff(attempt: nat): nat
    requires attempt >= 1
  {
    Pow2(attempt - 1) * 2000
  }

  function Pow2(n: nat): (r: nat)
    ensures r >= 1
  {
    if n == 0 then 1 else 2 * Pow2(n - 1)
  }

  /** The waits before attempts 2..n. */
  function BackoffsBefore(n: nat): seq<nat> {
    if n <= 1 then [] else BackoffsBefore(n - 1) + [Backoff(n - 1)]
  }

  /** The back-off is 2 s before the second attempt and 4 s before the third. */
  lemma BackoffValues()
    ensures BackoffsBefore(1) == []
    ensures BackoffsBefore(2) == [2000]
    ensures BackoffsBefore(MaxAttempts) == [2000, 4000]
  {
  }

  /** What the attempt loop ends with, for a request whose URL is present:
      the first attempt that succeeds, with the calls and waits before it, or,
      when all three fail, `AUDIT_FAILED` with every attempt's error and the
      standard message of the last one. */
  predicate LadderOutcome(p: Perform, fullUrl: string, device: string, lite: bool,
                          r: BackupResult, calls: seq<Call>, waits: seq<nat>)
  {
    (r.Succeeded? ==>
       var n := r.success.attemptNumber;
       1 <= n <= MaxAttempts && Succeeds(p, n) && (forall a: nat :: 1 <= a < n ==> !Succeeds(p, a)) &&
       r.success == Winner(p, n) && calls == CallsThrough(p, n) && waits == BackoffsBefore(n)) &&
    (!r.Succeeded? ==>
       (forall a: nat :: 1 <= a <= MaxAttempts ==> !Succeeds(p, a)) &&
       r == AuditFailed("All 3 attempts failed", "AUDIT_FAILED", VersionOf(lite) + " audit failed after 3 attempts",
                        fullUrl, device, lite, VersionOf(lite),
                        [ErrorOf(p, 1), ErrorOf(p, 2), ErrorOf(p, 3)], p(false, 3).message, true) &&
       calls == CallsThrough(p, MaxAttempts) && waits == BackoffsBefore(MaxAttempts))
  }

  /** One pass of the attempt loop: the standard `performAudit`, then the
      advanced one when the standard message asks for it. `info` is the
      `errorInfo` object as it stands when the attempt is over (the source
      pushes it first and sets `advancedError` on the same object later). */
  method TryAttempt(p: Perform, attempt: nat) returns (won: Option<AuditSuccess>, info: AttemptError, made: seq<Call>)
    ensures made == AttemptCalls(p, attempt)
    ensures won.Some? <==> Succeeds(p, attempt)
    ensures won.Some? ==> won.value == Winner(p, attempt)
    ensures won.None? ==> info == ErrorOf(p, attempt)
  {
    made := [Call(attempt, false)];
    info := AttemptError(attempt, "", None);
    var first := p(false, attempt);
    if first.Returned? {
      return Some(first.value), info, made;
    }
    info := AttemptError(attempt, first.message, None);
    if Escalates(first.message) {
      made := made + [Call(attempt, true)];
      var second := p(true, attempt);
      if second.Returned? {
        return Some(second.value), info, made;
      }
      info := info.(advancedError := Some(second.message));
    }
    won := None;
  }

  /** The `for (attempt = 1; attempt <= maxAttempts; attempt++)` loop. The
      final-failure return, taken in the source when `attempt === maxAttempts`,
      sits after the loop here; the loop leaves only by a success or after
      the third attempt, so the two are the same. */
  method Ladder(p: Perform, fullUrl: string, device: string, lite: bool)
    returns (r: BackupResult, calls: seq<Call>, waits: seq<nat>)
    requires Stamped(p)
    ensures r.Succeeded? || r.AuditFailed?
    ensures LadderOutcome(p, fullUrl, device, lite, r, calls, waits)
  {
    var errors: seq<AttemptError> := [];
    var lastError := "";
    calls, waits := [], [];
    var attempt := 1;
    while attempt <= MaxAttempts
      invariant 1 <= attempt <= MaxAttempts + 1
      invariant forall a: nat :: 1 <= a < attempt ==> !Succeeds(p, a)
      invariant errors == ErrorsThrough(p, attempt - 1)
      invariant attempt > 1 ==> lastError == ErrorOf(p, attempt - 1).error
      invariant calls == CallsThrough(p, attempt - 1)
      invariant waits == BackoffsBefore(if attempt <= MaxAttempts then attempt else MaxAttempts)
    {
      var won, info, made := TryAttempt(p, attempt);
      calls := calls + made;
      if won.Some? {
        r := Succeeded(won.value);
        LadderSucceeds(p, fullUrl, device, lite, attempt, r, calls, waits);
        return;
      }
      errors := errors + [info];
      lastError := info.error;
      if attempt < MaxAttempts {
        waits := waits + [Backoff(attempt)];
      }
      attempt := attempt + 1;
    }
    assert errors == [ErrorOf(p, 1), ErrorOf(p, 2), ErrorOf(p, 3)];
    var version := VersionOf(lite);
    r := AuditFailed("All 3 attempts failed", "AUDIT_FAILED", version + " audit failed after 3 attempts",
                     fullUrl, device, lite, version, errors, lastError, true);
    LadderFails(p, fullUrl, device, lite, r, calls, waits);
  }

  /** After three failures the report lists one entry per attempt, in
      order, each with the standard message and, exactly when an advanced
      try was made, the advanced message. */
  lemma FailedAttemptsRecorded(p: Perform, fullUrl: string, device: string, lite: bool,
                               r: BackupResult, calls: seq<Call>, waits: seq<nat>)
    requires LadderOutcome(p, fullUrl, device, lite, r, calls, waits) && r.AuditFailed?
    ensures |r.attempts| == MaxAttempts && r.retryable && r.lastError == r.attempts[2].error
    ensures forall k :: 0 <= k < MaxAttempts ==>
              r.attempts[k].attempt == k + 1 && p(false, k + 1).Threw? && r.attempts[k].error == p(false, k + 1).message &&
              (r.attempts[k].advancedError.Some? <==> Escalates(p(false, k + 1).message)) &&
              (r.attempts[k].advancedError.Some? ==>
                 p(true, k + 1).Threw? && r.attempts[k].advancedError.value == p(true, k + 1).message)
    ensures waits == [2000, 4000] && |calls| <= 2 * MaxAttempts
  {
    assert !Succeeds(p, 1) && !Succeeds(p, 2) && !Succeeds(p, 3);
    BackoffValues();
    CallsShape(p, MaxAttempts);
  }

  lemma LadderSucceeds(p: Perform, fullUrl: string, device: string, lite: bool, n: nat,
                       r: BackupResult, calls: seq<Call>, waits: seq<nat>)
    requires Stamped(p) && 1 <= n <= MaxAttempts && Succeeds(p, n)
    requires forall a: nat :: 1 <= a < n ==> !Succeeds(p, a)
    requires r == Succeeded(Winner(p, n)) && calls == CallsThrough(p, n) && waits == BackoffsBefore(n)
    ensures LadderOutcome(p, fullUrl, device, lite, r, calls, waits)
  {
  }

  lemma LadderFails(p: Perform, fullUrl: string, device: string, lite: bool,
                    r: BackupResult, calls: seq<Call>, waits: seq<nat>)
    requires forall a: nat :: 1 <= a <= MaxAttempts ==> !Succeeds(p, a)
    requires r == AuditFailed("All 3 attempts failed", "AUDIT_FAILED", VersionOf(lite) + " audit failed after 3 attempts",
                              fullUrl, device, lite, VersionOf(lite),
                              [ErrorOf(p, 1), ErrorOf(p, 2), ErrorOf(p, 3)], p(false, 3).message, true)
    requires calls == CallsThrough(p, MaxAttempts) && waits == BackoffsBefore(MaxAttempts)
    ensures LadderOutcome(p, fullUrl, device, lite, r, calls, waits)
  {
  }

  /** `runLighthouseAudit(options)`. `device` and `format` are None when the
      option is absent; `url` is "" when it is absent. */
  method RunLighthouseAudit(
    url: string, device: Option<string>, format: Option<string>, isLiteVersion: bool,
    lighthouse: (string, string, bool, Configs.Config, nat) -> BrowserRun, hostOf: string -> Option<string>)
    returns (r: BackupResult, calls: seq<Call>, waits: seq<nat>)
    ensures url == "" ==>
              r == Refused("URL is required", "MISSING_URL", "No URL provided for audit", isLiteVersion) &&
              calls == [] && waits == []
    ensures url != "" ==>
              var s := RequestSetup(url, device, format, isLiteVersion, lighthouse, hostOf);
              (r.Succeeded? || r.AuditFailed?) && LadderOutcome(Performer(s), s.fullUrl, s.device, isLiteVersion, r, calls, waits)
    ensures url != "" && r.Succeeded? ==>
              r.success.url == Audit.NormalizeUrlAsWritten(url) && r.success.device == Audit.DeviceOrDefault(device)
    ensures r.AuditFailed? ==> r.url == Audit.NormalizeUrlAsWritten(url) && r.device == Audit.DeviceOrDefault(device)
  {
    if url == "" {
      return Refused("URL is required", "MISSING_URL", "No URL provided for audit", isLiteVersion), [], [];
    }
    var s := RequestSetup(url, device, format, isLiteVersion, lighthouse, hostOf);
    PerformerStamped(s);
    r, calls, waits := Ladder(Performer(s), s.fullUrl, s.device, isLiteVersion);
    LadderOnBuiltRequest(url, device, format, isLiteVersion, lighthouse, hostOf, r, calls, waits);
  }

  /** The request `runLighthouseAudit` sends, as written: `https://` put in
      front of a URL that does not start with "http", `device` defaulting to
      "desktop", `format` to "json". */
  function RequestSetup(url: string, device: Option<string>, format: Option<string>, lite: bool,
                        lighthouse: (string, string, bool, Configs.Config, nat) -> BrowserRun,
                        hostOf: string -> Option<string>): (s: Setup)
    ensures s.fullUrl == Audit.NormalizeUrlAsWritten(url)
    ensures Audit.HasWebScheme(url) || !StartsWith(url, "http") ==> Audit.HasWebScheme(s.fullUrl)
    ensures s.device == Audit.DeviceOrDefault(device) && s.format == Audit.FormatOrDefault(format)
    ensures s.lite == lite && s.config == ConfigFor(lite) && s.lighthouse == lighthouse && s.hostOf == hostOf
  {
    assert !StartsWith(url, "http") ==> ("https://" + url)[..8] == "https://";
    Setup(Audit.NormalizeUrlAsWritten(url), Audit.DeviceOrDefault(device), Audit.FormatOrDefault(format),
          lite, ConfigFor(lite), lighthouse, hostOf)
  }

  /** The same request with the corrected URL rule: the audited URL always
      has a web scheme, and only the hosts the written rule misses differ. */
  function RequestSetupCorrected(url: string, device: Option<string>, format: Option<string>, lite: bool,
                                 lighthouse: (string, string, bool, Configs.Config, nat) -> BrowserRun,
                                 hostOf: string -> Option<string>): (s: Setup)
    ensures Audit.HasWebScheme(s.fullUrl) && s.fullUrl == Audit.NormalizeUrl(url)
    ensures Audit.HasWebScheme(url) || !StartsWith(url, "http") ==>
              s == RequestSetup(url, device, format, lite, lighthouse, hostOf)
  {
    Audit.NormalizeUrlAgrees(url);
    RequestSetup(url, device, format, lite, lighthouse, hostOf).(fullUrl := Audit.NormalizeUrl(url))
  }

  /** The ladder's outcome read back against the browser oracle on the URL
      the request builds: a success names that URL and device and comes from
      a run that completed on it; a final failure reports that URL and device,
      and every standard try on it crashed or had no hostname. */
  lemma LadderOnBuiltRequest(url: string, device: Option<string>, format: Option<string>, lite: bool,
                             lighthouse: (string, string, bool, Configs.Config, nat) -> BrowserRun,
                             hostOf: string -> Option<string>, r: BackupResult, calls: seq<Call>, waits: seq<nat>)
    requires LadderOutcome(Performer(RequestSetup(url, device, format, lite, lighthouse, hostOf)),
                           Audit.NormalizeUrlAsWritten(url), Audit.DeviceOrDefault(device), lite, r, calls, waits)
    ensures var u, d := Audit.NormalizeUrlAsWritten(url), Audit.DeviceOrDefault(device);
            r.Succeeded? ==>
              r.success.url == u && r.success.device == d && r.success.isLiteVersion == lite && hostOf(u).Some? &&
              (lighthouse(u, d, false, ConfigFor(lite), r.success.attemptNumber).Ran? ||
               lighthouse(u, d, true, ConfigFor(lite), r.success.attemptNumber).Ran?)
    ensures var u, d := Audit.NormalizeUrlAsWritten(url), Audit.DeviceOrDefault(device);
            !r.Succeeded? ==>
              r.AuditFailed? && r.url == u && r.device == d &&
              forall a: nat :: 1 <= a <= MaxAttempts ==>
                lighthouse(u, d, false, ConfigFor(lite), a).Crashed? || hostOf(u).None?
  {
    var s := RequestSetup(url, device, format, lite, lighthouse, hostOf);
    var p := Performer(s);
    if r.Succeeded? {
      var n := r.success.attemptNumber;
      assert r.success == Winner(p, n);
      if p(false, n).Returned? {
        assert p(false, n) == PerformAudit(s, false, n);
      } else {
        assert p(true, n) == PerformAudit(s, true, n);
      }
    } else {
      forall a: nat | 1 <= a <= MaxAttempts
        ensures lighthouse(s.fullUrl, s.device, false, s.config, a).Crashed? || hostOf(s.fullUrl).None?
      {
        assert !Succeeds(p, a);
        assert p(false, a) == PerformAudit(s, false, a);
      }
    }
  }

  /** An attempt makes one call, or two when its standard try threw a
      connection-like error; the advanced call directly follows the
      standard one of the same attempt. */
  lemma {:induction false} CallsShape(p: Perform, n: nat)
    ensures n <= |CallsThrough(p, n)| <= 2 * n
    ensures forall i :: 0 <= i < |CallsThrough(p, n)| ==> 1 <= CallsThrough(p, n)[i].attempt <= n
    ensures forall i :: 0 <= i < |CallsThrough(p, n)| && CallsThrough(p, n)[i].advanced ==>
              0 < i && CallsThrough(p, n)[i - 1] == Call(CallsThrough(p, n)[i].attempt, false) &&
              Escalated(p, CallsThrough(p, n)[i].attempt)
  {
    if n > 0 {
      CallsShape(p, n - 1);
      var prev, last := CallsThrough(p, n - 1), AttemptCalls(p, n);
      var all := prev + last;
      assert all == CallsThrough(p, n);
      forall i | 0 <= i < |all| && all[i].advanced
        ensures 0 < i && all[i - 1] == Call(all[i].attempt, false) && Escalated(p, all[i].attempt)
      {
        if i < |prev| {
          assert all[i] == prev[i] && all[i - 1] == prev[i - 1];
        } else {
          assert all[i] == last[i - |prev|];
          assert i - |prev| == 1 && all[i - 1] == last[0];
        }
      }
    }
  }

  /** `runLighthouseLiteAudit(options)`: the same ladder with `isLiteVersion`
      forced on, so every report path carries the "-lite" suffix. */
  method RunLighthouseLiteAudit(
    url: string, device: Option<string>, format: Option<string>,
    lighthouse: (string, string, bool, Configs.Config, nat) -> BrowserRun, hostOf: string -> Option<string>)
    returns (r: BackupResult, calls: seq<Call>, waits: seq<nat>)
    ensures url == "" ==>
              r == Refused("URL is required", "MISSING_URL", "No URL provided for audit", true) &&
              calls == [] && waits == []
    ensures url != "" ==>
              var s := RequestSetup(url, device, format, true, lighthouse, hostOf);
              (r.Succeeded? || r.AuditFailed?) && LadderOutcome(Performer(s), s.fullUrl, s.device, true, r, calls, waits)
    ensures r.Succeeded? ==>
              r.success.isLiteVersion && EndsWith(r.success.reportPath, "-lite." + (if format.Some? then format.value else "json"))
    ensures r.AuditFailed? ==> r.isLiteVersion && r.version == "Lite"
  {
    r, calls, waits := RunLighthouseAudit(url, device, format, true, lighthouse, hostOf);
  }
}
