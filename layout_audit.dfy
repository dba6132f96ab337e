/** custom_audits/layout-audit.js: the `layout-brittle-audit`. It flags text
    containers with a fixed pixel height, which break when users widen text
    spacing (WCAG 2.1 Success Criterion 1.4.12, Text Spacing). Each flagged
    element is matched to an accessibility node by its rounded position, or
    given a synthetic node built from its own data. */
module LayoutAudit {
  import opened Common
  import opened Lighthouse
  import opened AccessibilityNodes

  const HiddenReason := "This container has a fixed size and will hide any content that overflows. Text will be cut off and become unreadable if it grows."
  const ScrollReason := "This container has a fixed size and will show a scrollbar if content overflows. This can create a poor, nested scrolling experience on text resize."
  const OverflowReason := "This container has a fixed size and its content may overflow, overlapping and obscuring other elements on the page."
  const DisplaySuffix := " container(s) with fixed heights may break when text is resized."

  /** One `BrittleLayoutElements` entry. */
  datatype BrittleElement = BrittleElement(
    top: real, left: real, width: real, height: real,
    selector: string, failingProperty: string, propertyValue: string, textSnippet: string, overflow: string)

  datatype LayoutItem = LayoutItem(node: ItemNode, failingProperty: string, overflow: string, reason: string)

  /** The audit's return value; `displayValue` is "" and `items` empty when
      the source returns neither. */
  datatype LayoutResult = LayoutResult(score: real, notApplicable: bool, displayValue: string, items: seq<LayoutItem>)

  /** `LayoutAudit.getFailureReason(overflowStyle)` */
  function FailureReason(overflow: string): (reason: string)
    ensures reason in {HiddenReason, ScrollReason, OverflowReason}
  {
    if overflow == "hidden" || overflow == "clip" then HiddenReason
    else if overflow == "scroll" || overflow == "auto" then ScrollReason
    else OverflowReason
  }

  /** The three messages differ, so the reason tells the overflow class
      apart: hidden/clip, scroll/auto, anything else. */
  lemma FailureReasonClasses(overflow: string)
    ensures FailureReason(overflow) == HiddenReason <==> overflow == "hidden" || overflow == "clip"
    ensures FailureReason(overflow) == ScrollReason <==> overflow == "scroll" || overflow == "auto"
    ensures FailureReason(overflow) == OverflowReason <==>
              !(overflow == "hidden" || overflow == "clip" || overflow == "scroll" || overflow == "auto")
  {
    assert |HiddenReason| == 129 && |ScrollReason| == 147 && |OverflowReason| == 115;
  }

  /** The pair registered for an accessibility node with a bounding rect. */
  function NodePair(show: real -> string, a: AxNode): Option<(string, Node)> {
    if a.node.Some? && a.node.value.boundingRect.Some? then
      var r := a.node.value.boundingRect.value;
      Some((RoundedKey(show, r.top, r.left, r.width, r.height), a.node.value))
    else None
  }

  /** The (rounded key, node) pairs in node order. */
  function NodePairs(show: real -> string, nodes: seq<AxNode>): seq<(string, Node)> {
    if nodes == [] then []
    else
      var p := NodePair(show, nodes[|nodes| - 1]);
      NodePairs(show, nodes[..|nodes| - 1]) + (if p.Some? then [p.value] else [])
  }

  /** `accessibilityNodeMap` */
  function NodeMap(show: real -> string, a: AccessibilityResults): map<string, Node> {
    FirstWins(NodePairs(show, AllNodes(a)))
  }

  /** The element's own key: its raw, unrounded position. */
  function ElementKey(show: real -> string, e: BrittleElement): string {
    RectKey(show, e.top, e.left, e.width, e.height)
  }

  /** The node built for an element that matches no accessibility node. */
  function SyntheticNode(show: real -> string, e: BrittleElement): ItemNode {
    Synthetic("brittle-element-" + ElementKey(show, e), e.selector, Rect(e.left, e.top, e.width, e.height),
              "<div style=\"" + e.failingProperty + ": " + e.propertyValue + "\">" + e.textSnippet + "</div>",
              e.textSnippet)
  }

  /** The item pushed for one element. */
  function ItemFor(show: real -> string, m: map<string, Node>, e: BrittleElement): LayoutItem {
    var key := ElementKey(show, e);
    LayoutItem(if key in m then Matched(m[key]) else SyntheticNode(show, e),
               e.failingProperty + ": " + e.propertyValue, e.overflow, FailureReason(e.overflow))
  }

  /** The loop that fills `accessibilityNodeMap`. */
  method BuildNodeMap(show: real -> string, nodes: seq<AxNode>) returns (m: map<string, Node>)
    ensures m == FirstWins(NodePairs(show, nodes))
  {
    m := map[];
    for i := 0 to |nodes|
      invariant m == FirstWins(NodePairs(show, nodes[..i]))
    {
      assert nodes[..i + 1][..i] == nodes[..i];
      assert NodePairs(show, nodes[..i + 1]) == NodePairs(show, nodes[..i]) +
        (if NodePair(show, nodes[i]).Some? then [NodePair(show, nodes[i]).value] else []);
      var accessNode := nodes[i];
      if accessNode.node.Some? && accessNode.node.value.boundingRect.Some? {
        var rect := accessNode.node.value.boundingRect.value;
        var key := RoundedKey(show, rect.top, rect.left, rect.width, rect.height);
        assert NodePair(show, nodes[i]) == Some((key, accessNode.node.value));
        FirstWinsAppend(NodePairs(show, nodes[..i]), (key, accessNode.node.value));
        if key !in m {
          m := m[key := accessNode.node.value];
        }
      } else {
        assert NodePairs(show, nodes[..i + 1]) == NodePairs(show, nodes[..i]);
      }
    }
    assert nodes[..|nodes|] == nodes;
  }

  /** `LayoutAudit.audit(artifacts)` */
  method Audit(show: real -> string, brittleElements: seq<BrittleElement>, accessibility: AccessibilityResults)
    returns (r: LayoutResult)
    ensures brittleElements == [] ==> r == LayoutResult(1.0, false, "", [])
    ensures brittleElements != [] ==>
              r.score == 0.0 && !r.notApplicable &&
              r.displayValue == NatToString(|brittleElements|) + DisplaySuffix &&
              |r.items| == |brittleElements| &&
              forall k :: 0 <= k < |r.items| ==> r.items[k] == ItemFor(show, NodeMap(show, accessibility), brittleElements[k])
  {
    if |brittleElements| == 0 {
      return LayoutResult(1.0, false, "", []);
    }
    var nodeMap := BuildNodeMap(show, AllNodes(accessibility));
    var failingItems: seq<LayoutItem> := [];
    for i := 0 to |brittleElements|
      invariant |failingItems| == i
      invariant forall k :: 0 <= k < i ==> failingItems[k] == ItemFor(show, nodeMap, brittleElements[k])
    {
      var element := brittleElements[i];
      var key := RectKey(show, element.top, element.left, element.width, element.height);
      var matchingNode := if key in nodeMap then Matched(nodeMap[key]) else SyntheticNode(show, element);
      failingItems := failingItems + [LayoutItem(matchingNode, element.failingProperty + ": " + element.propertyValue,
                                                 element.overflow, FailureReason(element.overflow))];
    }
    r := LayoutResult(0.0, false, NatToString(|failingItems|) + DisplaySuffix, failingItems);
  }

  /** An element is matched exactly when some accessibility node's rounded
      rect prints like the element's rect, and then it gets the first such
      node; otherwise its synthetic node carries its own rect and selector. */
  lemma MatchIsFirstNode(show: real -> string, a: AccessibilityResults, e: BrittleElement)
    ensures ItemFor(show, NodeMap(show, a), e).node.Matched? <==>
              exists i :: 0 <= i < |NodePairs(show, AllNodes(a))| && NodePairs(show, AllNodes(a))[i].0 == ElementKey(show, e)
    ensures ItemFor(show, NodeMap(show, a), e).node.Matched? ==>
              var pairs := NodePairs(show, AllNodes(a));
              exists i :: 0 <= i < |pairs| && pairs[i].0 == ElementKey(show, e) &&
                ItemFor(show, NodeMap(show, a), e).node.node == pairs[i].1 &&
                forall j :: 0 <= j < i ==> pairs[j].0 != ElementKey(show, e)
    ensures ItemFor(show, NodeMap(show, a), e).node.Synthetic? ==>
              ItemFor(show, NodeMap(show, a), e).node.boundingRect == Rect(e.left, e.top, e.width, e.height) &&
              ItemFor(show, NodeMap(show, a), e).node.selector == e.selector
  {
    FirstWinsSpec(NodePairs(show, AllNodes(a)), ElementKey(show, e));
  }

  /** Every registered pair comes from a node with a bounding rect, keyed by
      that rect rounded. */
  lemma {:induction false} NodePairsFromRects(show: real -> string, nodes: seq<AxNode>, k: nat)
    requires k < |NodePairs(show, nodes)|
    ensures exists i :: 0 <= i < |nodes| && NodePair(show, nodes[i]) == Some(NodePairs(show, nodes)[k])
  {
    var n := |nodes| - 1;
    var prefix := NodePairs(show, nodes[..n]);
    if k < |prefix| {
      NodePairsFromRects(show, nodes[..n], k);
      var i :| 0 <= i < n && NodePair(show, nodes[..n][i]) == Some(prefix[k]);
      assert nodes[..n][i] == nodes[i];
    } else {
      assert NodePair(show, nodes[n]) == Some(NodePairs(show, nodes)[k]);
    }
  }
}
