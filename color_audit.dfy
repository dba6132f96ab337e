/** custom_audits/color-audit.js: the `interactive-color-audit`. A link
    fails when its colour string equals its parent's, or when the perceptual
    colour difference is below 10. The colour science (`rgbToLab`, `deltaE`)
    is the `deltaE` parameter. Each failing link is matched to an
    accessibility node by its exact or rounded position, or given a
    synthetic node. */
module ColorAudit {
  import opened Common
  import opened Lighthouse
  import opened AccessibilityNodes

  const MinimumColorDifference := 10.0

  /** One `PageLinkColors` entry. */
  datatype Link = Link(
    linkColor: string, parentColor: string, top: real, left: real, width: real, height: real,
    text: string, elementId: string, href: string)

  /** `getFailureReason`: the fixed "identical" message, or the message
      built from the difference and how far, in percent, it falls short. */
  datatype Explanation = Identical | BelowMinimum(difference: real, percentageShort: int)

  datatype ColorItem = ColorItem(
    node: ItemNode, text: string, linkColor: string, parentColor: string, difference: real, explanation: Explanation)

  /** The audit's return value; `displayValue` is "" and `items` None when
      the source returns neither. */
  datatype ColorResult = ColorResult(score: real, notApplicable: bool, displayValue: string, items: Option<seq<ColorItem>>)

  /** The difference the loop computes: 0 for equal colour strings. */
  function Difference(link: Link, deltaE: (string, string) -> real): real {
    if link.linkColor == link.parentColor then 0.0 else deltaE(link.linkColor, link.parentColor)
  }

  /** A link fails when its colour string equals its parent's or the
      difference is below the minimum. */
  predicate IsFailure(link: Link, deltaE: (string, string) -> real) {
    link.linkColor == link.parentColor || deltaE(link.linkColor, link.parentColor) < MinimumColorDifference
  }

  /** `ColorAudit.getFailureReason(difference, 10)` */
  function FailureReason(difference: real): (e: Explanation)
    ensures e.Identical? <==> difference == 0.0
  {
    if difference == 0.0 then Identical
    else BelowMinimum(difference, Round((MinimumColorDifference - difference) / MinimumColorDifference * 100.0))
  }

  /** For a failing, non-zero difference the shortfall is a percentage
      between 0 and 100. */
  lemma ShortfallIsPercentage(difference: real)
    requires 0.0 < difference < MinimumColorDifference
    ensures 0 <= FailureReason(difference).percentageShort <= 100
  {
    var x := (MinimumColorDifference - difference) / MinimumColorDifference * 100.0;
    assert 0.0 < x < 100.0;
  }

  /** `parseFloat(x.toFixed(2))`, rounding halves up. */
  function Round2(x: real): real {
    Round(x * 100.0) as real / 100.0
  }

  /** The two (key, node) pairs registered for an accessibility node with a
      bounding rect: exact key first, then rounded key. */
  function KeyPairs(show: real -> string, a: AxNode): seq<(string, Node)> {
    if a.node.Some? && a.node.value.boundingRect.Some? then
      var r := a.node.value.boundingRect.value;
      [(RectKey(show, r.top, r.left, r.width, r.height), a.node.value),
       (RoundedKey(show, r.top, r.left, r.width, r.height), a.node.value)]
    else []
  }

  function NodePairs(show: real -> string, nodes: seq<AxNode>): seq<(string, Node)> {
    if nodes == [] then [] else NodePairs(show, nodes[..|nodes| - 1]) + KeyPairs(show, nodes[|nodes| - 1])
  }

  /** `accessibilityNodeMap` */
  function NodeMap(show: real -> string, a: AccessibilityResults): map<string, Node> {
    FirstWins(NodePairs(show, AllNodes(a)))
  }

  /** The `allAccessibilityNodes.forEach` that fills the node map; its
      inner `keys.forEach` runs over exactly two keys and is written out. */
  method BuildNodeMap(show: real -> string, nodes: seq<AxNode>) returns (m: map<string, Node>)
    ensures m == FirstWins(NodePairs(show, nodes))
  {
    m := map[];
    for i := 0 to |nodes|
      invariant m == FirstWins(NodePairs(show, nodes[..i]))
    {
      assert nodes[..i + 1][..i] == nodes[..i];
      assert NodePairs(show, nodes[..i + 1]) == NodePairs(show, nodes[..i]) + KeyPairs(show, nodes[i]);
      var accessNode := nodes[i];
      if accessNode.node.Some? && accessNode.node.value.boundingRect.Some? {
        var rect := accessNode.node.value.boundingRect.value;
        var keys := [RectKey(show, rect.top, rect.left, rect.width, rect.height),
                     RoundedKey(show, rect.top, rect.left, rect.width, rect.height)];
        ghost var before := NodePairs(show, nodes[..i]);
        assert KeyPairs(show, accessNode) == [(keys[0], accessNode.node.value), (keys[1], accessNode.node.value)];
        assert before + KeyPairs(show, accessNode) == (before + [(keys[0], accessNode.node.value)]) + [(keys[1], accessNode.node.value)];
        FirstWinsAppend(before, (keys[0], accessNode.node.value));
        FirstWinsAppend(before + [(keys[0], accessNode.node.value)], (keys[1], accessNode.node.value));
        // the inner `keys.forEach`, over its two keys
        if keys[0] !in m {
          m := m[keys[0] := accessNode.node.value];
        }
        if keys[1] !in m {
          m := m[keys[1] := accessNode.node.value];
        }
      } else {
        assert NodePairs(show, nodes[..i + 1]) == NodePairs(show, nodes[..i]);
      }
    }
    assert nodes[..|nodes|] == nodes;
  }

  /** The first key of `keys` present in `m`, with its node. */
  function FirstPresent(m: map<string, Node>, keys: seq<string>): Option<Node> {
    if keys == [] then None
    else if keys[0] in m then Some(m[keys[0]])
    else FirstPresent(m, keys[1..])
  }

  /** The `for (const key of positionKeys)` lookup loop. */
  method FindMatchingNode(m: map<string, Node>, keys: seq<string>) returns (found: Option<Node>)
    ensures found == FirstPresent(m, keys)
  {
    found := None;
    var i := 0;
    while i < |keys|
      invariant 0 <= i <= |keys|
      invariant forall j :: 0 <= j < i ==> keys[j] !in m
      invariant found == None
      invariant FirstPresent(m, keys) == FirstPresent(m, keys[i..])
    {
      assert keys[i..][1..] == keys[i + 1..];
      if keys[i] in m {
        found := Some(m[keys[i]]);
        return;
      }
      i := i + 1;
    }
  }

  /** The link's position keys: exact, then rounded. */
  function PositionKeys(show: real -> string, link: Link): seq<string> {
    [RectKey(show, link.top, link.left, link.width, link.height),
     RoundedKey(show, link.top, link.left, link.width, link.height)]
  }

  /** `s.substring(0, n)` */
  function Prefix(s: string, n: nat): (r: string)
    ensures |r| <= n && StartsWith(s, r)
  {
    if |s| <= n then s else s[..n]
  }

  /** The node built for a failing link with no accessibility node. */
  function SyntheticNode(show: real -> string, link: Link): ItemNode {
    Synthetic("link-" + show(link.top) + "-" + show(link.left),
              if link.elementId == "" then "a" else link.elementId,
              Rect(link.left, link.top, link.width, link.height),
              "<a href=\"" + (if link.href == "" then "#" else link.href) + "\">" + Prefix(link.text, 50) + "...</a>",
              Prefix(link.text, 50))
  }

  /** The item pushed for one link, when it fails. */
  function ItemFor(show: real -> string, deltaE: (string, string) -> real, m: map<string, Node>, link: Link): Option<ColorItem> {
    if IsFailure(link, deltaE) then
      var found := FirstPresent(m, PositionKeys(show, link));
      var d := Difference(link, deltaE);
      Some(ColorItem(if found.Some? then Matched(found.value) else SyntheticNode(show, link),
                     link.text, link.linkColor, link.parentColor, Round2(d), FailureReason(d)))
    else None
  }

  function FailingOf(show: real -> string, deltaE: (string, string) -> real, m: map<string, Node>): Link -> Option<ColorItem> {
    (link: Link) => ItemFor(show, deltaE, m, link)
  }

  function FailingItems(show: real -> string, deltaE: (string, string) -> real, m: map<string, Node>, links: seq<Link>): seq<ColorItem> {
    Collect(links, FailingOf(show, deltaE, m))
  }

  /** `(links - failing) / links` */
  function Score(links: nat, failing: nat): real
    requires links > 0
  {
    (links - failing) as real / links as real
  }

  /** `${n} link${n === 1 ? '' : 's'} have low color distinction` */
  function DisplayValue(n: nat): string {
    NatToString(n) + " link" + (if n == 1 then "" else "s") + " have low color distinction"
  }

  /** `ColorAudit.audit(artifacts)` */
  method Audit(show: real -> string, deltaE: (string, string) -> real, collectedLinks: seq<Link>, accessibility: AccessibilityResults)
    returns (r: ColorResult)
    ensures collectedLinks == [] ==> r == ColorResult(1.0, true, "", None)
    ensures collectedLinks != [] ==>
              var failing := FailingItems(show, deltaE, NodeMap(show, accessibility), collectedLinks);
              (failing == [] ==> r == ColorResult(1.0, false, "", None)) &&
              (failing != [] ==> r == ColorResult(Score(|collectedLinks|, |failing|), false, DisplayValue(|failing|), Some(failing)))
  {
    if |collectedLinks| == 0 {
      return ColorResult(1.0, true, "", None);
    }
    var nodeMap := BuildNodeMap(show, AllNodes(accessibility));
    var failingItems: seq<ColorItem> := [];
    for i := 0 to |collectedLinks|
      invariant failingItems == Collect(collectedLinks[..i], FailingOf(show, deltaE, nodeMap))
    {
      CollectStep(collectedLinks, i, FailingOf(show, deltaE, nodeMap));
      var link := collectedLinks[i];
      var difference := 0.0;
      var isFailure := false;
      if link.linkColor == link.parentColor {
        isFailure := true;
        difference := 0.0;
      } else {
        difference := deltaE(link.linkColor, link.parentColor);
        if difference < MinimumColorDifference {
          isFailure := true;
        }
      }
      if isFailure {
        var matchingNode := FindMatchingNode(nodeMap, PositionKeys(show, link));
        var node := if matchingNode.Some? then Matched(matchingNode.value) else SyntheticNode(show, link);
        failingItems := failingItems + [ColorItem(node, link.text, link.linkColor, link.parentColor,
                                                  Round2(difference), FailureReason(difference))];
      }
    }
    assert collectedLinks[..|collectedLinks|] == collectedLinks;
    if |failingItems| == 0 {
      return ColorResult(1.0, false, "", None);
    }
    r := ColorResult(Score(|collectedLinks|, |failingItems|), false, DisplayValue(|failingItems|), Some(failingItems));
  }

  /** With 0 < failing <= links the score lies in [0, 1). */
  lemma ScoreBounds(links: nat, failing: nat)
    requires 0 < failing <= links
    ensures 0.0 <= Score(links, failing) < 1.0
  {
    var n, k := links as real, failing as real;
    assert (links - failing) as real == n - k;
    var q := (n - k) / n;
    assert q * n == n - k;
    assert (1.0 - q) * n == k;
  }

  /** With at least one failing link the score lies in [0, 1): it is the
      share of links that pass. */
  lemma ScoreRange(show: real -> string, deltaE: (string, string) -> real, m: map<string, Node>, links: seq<Link>)
    requires FailingItems(show, deltaE, m, links) != []
    ensures 0.0 <= Score(|links|, |FailingItems(show, deltaE, m, links)|) < 1.0
  {
    var f := FailingItems(show, deltaE, m, links);
    CollectMembers(links, FailingOf(show, deltaE, m), f[0]);
    ScoreBounds(|links|, |f|);
  }

  /** Exactly the failing links produce items: a link yields one iff its
      colour equals its parent's or the difference is below 10, and the
      "identical" explanation appears iff that difference is 0. */
  lemma FailingItemsExactly(show: real -> string, deltaE: (string, string) -> real, m: map<string, Node>, links: seq<Link>, item: ColorItem)
    ensures item in FailingItems(show, deltaE, m, links) <==>
              exists i :: 0 <= i < |links| && IsFailure(links[i], deltaE) && ItemFor(show, deltaE, m, links[i]) == Some(item) &&
                          item.text == links[i].text &&
                          (item.explanation.Identical? <==> Difference(links[i], deltaE) == 0.0)
  {
    CollectMembers(links, FailingOf(show, deltaE, m), item);
  }

  /** The lookup takes the node registered under the link's exact key when
      there is one, and only otherwise the one under its rounded key. */
  lemma LookupPrefersExact(m: map<string, Node>, show: real -> string, link: Link)
    ensures PositionKeys(show, link)[0] in m ==> FirstPresent(m, PositionKeys(show, link)) == Some(m[PositionKeys(show, link)[0]])
    ensures PositionKeys(show, link)[0] !in m ==>
              FirstPresent(m, PositionKeys(show, link)) ==
                (if PositionKeys(show, link)[1] in m then Some(m[PositionKeys(show, link)[1]]) else None)
  {
    var keys := PositionKeys(show, link);
    assert FirstPresent(m, keys) == if keys[0] in m then Some(m[keys[0]]) else FirstPresent(m, keys[1..]);
    assert keys[1..][0] == keys[1] && keys[1..][1..] == [];
    assert FirstPresent(m, keys[1..]) == if keys[1] in m then Some(m[keys[1]]) else FirstPresent(m, []);
  }
}
