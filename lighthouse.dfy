/** The parts of a Lighthouse result (the `lhr` JSON object) that the modelled
    code reads. A JavaScript field that may be absent is an Option, except for
    strings the source only tests for truthiness, where "" stands for absent. */
module Lighthouse {
  import opened Common

  /** A `boundingRect` / `rect` in CSS pixels. */
  datatype Rect = Rect(left: real, top: real, width: real, height: real)

  /** An element reference inside an audit item (`item.node`). */
  datatype Node = Node(boundingRect: Option<Rect>, nodeLabel: string, selector: string, path: string, snippet: string)

  /** One entry of `audit.details.items`. */
  datatype Item = Item(rect: Option<Rect>, node: Option<Node>, textSnippet: string, text: string, explanation: string)

  /** One audit result: `score` is null (None) or a number; `items` is
      `details?.items`. */
  datatype AuditData = AuditData(score: Option<real>, items: Option<seq<Item>>)

  /** The report: `audits` keyed by audit id, `auditOrder` the order in which
      `Object.keys(audits)` lists them, `finalUrl`, the configured form factor
      and the data URL of the full-page screenshot ("" when absent). */
  datatype Report = Report(
    audits: map<string, AuditData>,
    auditOrder: seq<string>,
    finalUrl: string,
    formFactor: string,
    screenshot: string)

  /** A parsed URL, as the WHATWG `URL` object exposes it: `protocol` keeps
      its ':', `host` is the hostname with any explicit port. */
  datatype Url = Url(
    origin: string,
    protocol: string,
    username: string,
    password: string,
    host: string,
    hostname: string,
    pathname: string,
    search: string,
    hash: string)
}
