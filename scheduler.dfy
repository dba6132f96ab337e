/** server.js: two FIFO job queues that share one browser lock, and the
    full-audit job body that audits every internal link on both devices.
    Node runs `processQueue` up to its `await` in one go and the rest when
    the job settles, so dispatch (`JobQueue.ProcessQueue`) and completion
    (`Server.Complete`) are two separate events here, and the job function
    itself is an input to the completion event. */
module Scheduler {
  import opened Common
  import Audit
  import InternalLinks

  datatype Job = Job(email: string, url: string)

  /** A queued job. `promise` names the promise `addRequestJob` handed out;
      a background job has none to settle. */
  datatype Task = Task(job: Job, isBg: bool, promise: nat)

  datatype QueueName = FullAuditQueue | QuickScanQueue

  /** A `resolve(result)` or `reject(error)` call on a request's promise. */
  datatype Settlement = Resolved(promise: nat, value: string) | Rejected(promise: nat, message: string)

  /** The `processQueue` call suspended at `await this.processFunction(task.job)`. */
  datatype Running = Running(from: QueueName, task: Task)

  class JobQueue {
    const queueName: QueueName
    var queue: seq<Task>

    constructor (name: QueueName)
      ensures queueName == name && queue == []
    {
      queueName := name;
      queue := [];
    }

    /** `processQueue()` up to its `await`: nothing happens while the shared
        lock is held or this queue is empty; otherwise the lock is taken and
        the head of this queue, and only the head, starts running. */
    method ProcessQueue(server: Server)
      modifies this`queue, server`isBrowserInUse, server`inFlight
      ensures old(server.isBrowserInUse) || old(queue) == [] ==>
                queue == old(queue) && server.isBrowserInUse == old(server.isBrowserInUse) &&
                server.inFlight == old(server.inFlight)
      ensures !old(server.isBrowserInUse) && old(queue) != [] ==>
                server.isBrowserInUse && server.inFlight == Some(Running(queueName, old(queue)[0])) &&
                queue == old(queue)[1..]
    {
      if server.isBrowserInUse || |queue| == 0 {
        return;
      }
      server.isBrowserInUse := true;
      var task := queue[0];
      queue := queue[1..];
      server.inFlight := Some(Running(queueName, task));
    }

    /** `addBgJob(job)`: append at the tail, then try to dispatch. */
    method AddBgJob(server: Server, job: Job)
      modifies this`queue, server`isBrowserInUse, server`inFlight
      ensures var pushed := old(queue) + [Task(job, true, 0)];
              if old(server.isBrowserInUse) then
                queue == pushed && server.isBrowserInUse && server.inFlight == old(server.inFlight)
              else
                server.isBrowserInUse && server.inFlight == Some(Running(queueName, pushed[0])) && queue == pushed[1..]
    {
      queue := queue + [Task(job, true, 0)];
      ProcessQueue(server);
    }

    /** `addRequestJob(job)`: a fresh promise, its task appended at the
        tail, then a dispatch attempt. */
    method AddRequestJob(server: Server, job: Job) returns (promise: nat)
      modifies this`queue, server`isBrowserInUse, server`inFlight, server`nextPromise
      ensures promise == old(server.nextPromise) && server.nextPromise == promise + 1
      ensures var pushed := old(queue) + [Task(job, false, promise)];
              if old(server.isBrowserInUse) then
                queue == pushed && server.isBrowserInUse && server.inFlight == old(server.inFlight)
              else
                server.isBrowserInUse && server.inFlight == Some(Running(queueName, pushed[0])) && queue == pushed[1..]
    {
      promise := server.nextPromise;
      server.nextPromise := server.nextPromise + 1;
      queue := queue + [Task(job, false, promise)];
      ProcessQueue(server);
    }
  }

  /** The settlement a request task receives for its job's outcome. */
  function SettlementOf(task: Task, result: Outcome<string>): (s: Settlement)
    ensures s.promise == task.promise
    ensures s.Resolved? <==> result.Returned?
  {
    match result
    case Returned(v) => Resolved(task.promise, v)
    case Threw(m) => Rejected(task.promise, m)
  }

  /** The module state of server.js: both queues and the lock they share,
      with the job in flight and the promise settlements made so far. */
  class Server {
    const fullAuditQueue: JobQueue
    const quickScanQueue: JobQueue
    var isBrowserInUse: bool
    var inFlight: Option<Running>
    var settled: seq<Settlement>
    var nextPromise: nat

    /** The lock is held exactly while a dispatched job has not completed,
        and no job waits while the browser is free. */
    predicate Valid()
      reads this, fullAuditQueue, quickScanQueue
    {
      fullAuditQueue != quickScanQueue &&
      fullAuditQueue.queueName == FullAuditQueue && quickScanQueue.queueName == QuickScanQueue &&
      (isBrowserInUse <==> inFlight.Some?) &&
      (!isBrowserInUse ==> fullAuditQueue.queue == [] && quickScanQueue.queue == [])
    }

    constructor ()
      ensures Valid() && !isBrowserInUse && settled == [] && nextPromise == 0
      ensures fresh(fullAuditQueue) && fresh(quickScanQueue)
    {
      fullAuditQueue := new JobQueue(FullAuditQueue);
      quickScanQueue := new JobQueue(QuickScanQueue);
      isBrowserInUse := false;
      inFlight := None;
      settled := [];
      nextPromise := 0;
    }

    /** The job in flight settles with `result`: a request's promise is
        resolved or rejected, a background job's is left alone; the lock is
        released either way; then the full-audit queue is offered the browser
        before the quick-scan queue. */
    method Complete(result: Outcome<string>)
      requires Valid() && inFlight.Some?
      modifies this`isBrowserInUse, this`inFlight, this`settled, fullAuditQueue`queue, quickScanQueue`queue
      ensures Valid()
      ensures var task := old(inFlight).value.task;
              settled == old(settled) + if task.isBg then [] else [SettlementOf(task, result)]
      ensures old(fullAuditQueue.queue) != [] ==>
                inFlight == Some(Running(FullAuditQueue, old(fullAuditQueue.queue)[0])) &&
                fullAuditQueue.queue == old(fullAuditQueue.queue)[1..] && quickScanQueue.queue == old(quickScanQueue.queue)
      ensures old(fullAuditQueue.queue) == [] && old(quickScanQueue.queue) != [] ==>
                inFlight == Some(Running(QuickScanQueue, old(quickScanQueue.queue)[0])) &&
                fullAuditQueue.queue == [] && quickScanQueue.queue == old(quickScanQueue.queue)[1..]
      ensures old(fullAuditQueue.queue) == [] && old(quickScanQueue.queue) == [] ==>
                !isBrowserInUse && inFlight.None?
    {
      var task := inFlight.value.task;
      if !task.isBg {
        settled := settled + [SettlementOf(task, result)];
      }
      isBrowserInUse := false;
      inFlight := None;
      fullAuditQueue.ProcessQueue(this);
      quickScanQueue.ProcessQueue(this);
    }

    /** `POST /start-audit`: 400 without an email or URL, otherwise the job is
        queued as a background job and the reply is 202. */
    method StartAudit(email: string, url: string) returns (status: nat)
      requires Valid()
      modifies this`isBrowserInUse, this`inFlight, fullAuditQueue`queue
      ensures Valid()
      ensures status == (if email == "" || url == "" then 400 else 202)
      ensures status == 400 ==> unchanged(this, fullAuditQueue)
      ensures status == 202 ==>
                var pushed := old(fullAuditQueue.queue) + [Task(Job(email, url), true, 0)];
                if old(isBrowserInUse) then fullAuditQueue.queue == pushed && inFlight == old(inFlight)
                else inFlight == Some(Running(FullAuditQueue, pushed[0])) && fullAuditQueue.queue == pushed[1..]
    {
      if email == "" || url == "" {
        return 400;
      }
      fullAuditQueue.AddBgJob(this, Job(email, url));
      status := 202;
    }

    /** `POST /quick-scan` up to its `await`: 400 without an email or URL,
        otherwise a request job on the quick-scan queue whose promise the
        reply waits for. */
    method QuickScan(email: string, url: string) returns (status: Option<nat>, promise: Option<nat>)
      requires Valid()
      modifies this`isBrowserInUse, this`inFlight, this`nextPromise, quickScanQueue`queue
      ensures Valid()
      ensures email == "" || url == "" ==> status == Some(400) && promise.None? && unchanged(this, quickScanQueue)
      ensures email != "" && url != "" ==>
                status.None? && promise == Some(old(nextPromise)) && nextPromise == old(nextPromise) + 1 &&
                var pushed := old(quickScanQueue.queue) + [Task(Job(email, url), false, old(nextPromise))];
                if old(isBrowserInUse) then quickScanQueue.queue == pushed && inFlight == old(inFlight)
                else inFlight == Some(Running(QuickScanQueue, pushed[0])) && quickScanQueue.queue == pushed[1..]
    {
      if email == "" || url == "" {
        return Some(400), None;
      }
      var p := quickScanQueue.AddRequestJob(this, Job(email, url));
      status, promise := None, Some(p);
    }
  }

  // ----- runFullAuditProcess -----

  const Devices := ["desktop", "mobile"]

  /** The pairs of one link, desktop first. */
  function LinkPairs(link: string): seq<(string, string)> {
    [(link, Devices[0]), (link, Devices[1])]
  }

  /** The (link, device) pairs in visiting order: every link, desktop first. */
  function PairsOf(links: seq<string>): (r: seq<(string, string)>)
    ensures |r| == 2 * |links|
    ensures forall i :: 0 <= i < |links| ==> r[2 * i] == (links[i], "desktop") && r[2 * i + 1] == (links[i], "mobile")
  {
    if links == [] then []
    else
      var r := PairsOf(links[..|links| - 1]) + LinkPairs(links[|links| - 1]);
      assert forall i :: 0 <= i < |links| - 1 ==> links[..|links| - 1][i] == links[i];
      r
  }

  /** What happens to one pair: `audit` is `runLighthouseAudit` for the link
      and device, `report` says whether the highlighted images and the PDF
      built from a saved report path complete without throwing. The pair is
      kept when its PDF was produced. */
  function ReportedPair(audit: (string, string) -> Audit.AuditReply, report: string -> bool): ((string, string)) -> Option<(string, string)> {
    (pair: (string, string)) =>
      var reply := audit(pair.0, pair.1);
      if reply.Success() && report(reply.reportPath) then Some(pair) else None
  }

  /** What `signalBackend` is told at the end of a full job. */
  datatype Signal = Completed(clientEmail: string, folderPath: string) | Failed(clientEmail: string, error: string)

  /** The inner `for (const device of ['desktop', 'mobile'])` loop for one
      link: both pairs are attempted in order, and each one whose PDF is
      produced is recorded. */
  method AuditLink(link: string, audit: (string, string) -> Audit.AuditReply, report: string -> bool)
    returns (attempted: seq<(string, string)>, reported: seq<(string, string)>)
    ensures attempted == LinkPairs(link)
    ensures reported == Collect(LinkPairs(link), ReportedPair(audit, report))
  {
    var f := ReportedPair(audit, report);
    ghost var pairs := LinkPairs(link);
    attempted, reported := [], [];
    for d := 0 to |Devices|
      invariant attempted == pairs[..d]
      invariant reported == Collect(pairs[..d], f)
    {
      var device := Devices[d];
      var pair := (link, device);
      assert pairs[d] == pair;
      CollectStep(pairs, d, f);
      attempted := attempted + [pair];
      var reply := audit(link, device);
      if reply.Success() && report(reply.reportPath) {
        assert f(pair) == Some(pair);
        reported := reported + [pair];
      } else {
        assert f(pair) == None;
      }
    }
    assert pairs[..|Devices|] == pairs;
  }

  /** The nested `for (link) for (device)` loop. A pair that fails, by an
      unsuccessful audit or an exception, is logged and skipped; the loop
      always goes on to the next pair. */
  method AuditLinks(links: seq<string>, audit: (string, string) -> Audit.AuditReply, report: string -> bool)
    returns (attempted: seq<(string, string)>, reported: seq<(string, string)>)
    ensures attempted == PairsOf(links)
    ensures reported == Collect(PairsOf(links), ReportedPair(audit, report))
  {
    attempted, reported := [], [];
    for i := 0 to |links|
      invariant attempted == PairsOf(links[..i])
      invariant reported == Collect(attempted, ReportedPair(audit, report))
    {
      var tried, kept := AuditLink(links[i], audit, report);
      CollectAppend(attempted, tried, ReportedPair(audit, report));
      attempted, reported := attempted + tried, reported + kept;
      assert links[..i + 1][..i] == links[..i];
    }
    assert links[..|links|] == links;
  }

  /** A pair is visited exactly when its link is one of the links and its
      device is desktop or mobile. */
  lemma {:induction false} PairsOfMembers(links: seq<string>, link: string, device: string)
    ensures (link, device) in PairsOf(links) <==> link in links && (device == "desktop" || device == "mobile")
  {
    if links != [] {
      var n := |links| - 1;
      PairsOfMembers(links[..n], link, device);
      assert links == links[..n] + [links[n]];
    }
  }

  /** A pair's PDF is produced exactly when the pair is visited, its audit
      succeeded and the images and report went through. */
  lemma ReportedPairs(links: seq<string>, audit: (string, string) -> Audit.AuditReply, report: string -> bool,
                      link: string, device: string)
    ensures (link, device) in Collect(PairsOf(links), ReportedPair(audit, report)) <==>
              link in links && (device == "desktop" || device == "mobile") &&
              audit(link, device).Success() && report(audit(link, device).reportPath)
  {
    var pairs, f, y := PairsOf(links), ReportedPair(audit, report), (link, device);
    CollectMembers(pairs, f, y);
    PairsOfMembers(links, link, device);
    assert forall i :: 0 <= i < |pairs| ==> (f(pairs[i]) == Some(y) <==> pairs[i] == y && f(y).Some?);
    if y in pairs && f(y).Some? {
      var i :| 0 <= i < |pairs| && pairs[i] == y;
      assert f(pairs[i]) == Some(y);
    }
  }

  /** `runFullAuditProcess(job)` with the link extraction's result given:
      a failed extraction ends the job with the "Link extraction failed"
      signal before any audit; otherwise every pair is audited and the job
      signals completion with its report folder. */
  method RunFullAuditProcess(job: Job, extraction: InternalLinks.ExtractionResult,
                             audit: (string, string) -> Audit.AuditReply, report: string -> bool)
    returns (signal: Signal, attempted: seq<(string, string)>, reported: seq<(string, string)>)
    ensures extraction.Failure? ==>
              signal == Failed(job.email, "Link extraction failed: " + extraction.details) && attempted == [] && reported == []
    ensures extraction.Success? ==>
              signal == Completed(job.email, JoinPath("reports-full", job.email)) &&
              attempted == PairsOf(extraction.links) &&
              reported == Collect(PairsOf(extraction.links), ReportedPair(audit, report))
  {
    var finalReportFolder := JoinPath("reports-full", job.email);
    if extraction.Failure? {
      return Failed(job.email, "Link extraction failed: " + extraction.details), [], [];
    }
    attempted, reported := AuditLinks(extraction.links, audit, report);
    signal := Completed(job.email, finalReportFolder);
  }
}
