/** What the layout and colour audits share: the accessibility nodes of the
    axe results, flattened in violations, passes, incomplete order, the
    position keys built from a rect, and the node map in which the first node
    registered under a key wins. How JavaScript prints a number is the
    `show` parameter. */
module AccessibilityNodes {
  import opened Common
  import opened Lighthouse

  /** The node reported with an audit item: an accessibility node, or one
      built from the flagged element's own data. */
  datatype ItemNode =
    | Matched(node: Node)
    | Synthetic(lhId: string, selector: string, boundingRect: Rect, snippet: string, nodeLabel: string)

  /** One entry of a rule's `nodes` list: `accessNode.node`, if any. */
  datatype AxNode = AxNode(node: Option<Node>)
  /** One rule result; `nodes` may be absent. */
  datatype RuleResult = RuleResult(nodes: Option<seq<AxNode>>)
  /** The `Accessibility` artifact; each list may be absent. */
  datatype AccessibilityResults = AccessibilityResults(
    violations: Option<seq<RuleResult>>, passes: Option<seq<RuleResult>>, incomplete: Option<seq<RuleResult>>)

  /** `rules.flatMap(r => r.nodes || [])` */
  function NodesOf(rules: seq<RuleResult>): seq<AxNode> {
    if rules == [] then []
    else
      var last := rules[|rules| - 1];
      NodesOf(rules[..|rules| - 1]) + (if last.nodes.Some? then last.nodes.value else [])
  }

  function OrEmpty(rules: Option<seq<RuleResult>>): seq<RuleResult> {
    if rules.Some? then rules.value else []
  }

  /** `allAccessibilityNodes`: violations, then passes, then incomplete. */
  function AllNodes(a: AccessibilityResults): seq<AxNode> {
    NodesOf(OrEmpty(a.violations)) + NodesOf(OrEmpty(a.passes)) + NodesOf(OrEmpty(a.incomplete))
  }

  /** The template `${top}-${left}-${width}-${height}`. */
  function RectKey(show: real -> string, top: real, left: real, width: real, height: real): string {
    show(top) + "-" + show(left) + "-" + show(width) + "-" + show(height)
  }

  /** The same key over `Math.round` of each value. */
  function RoundedKey(show: real -> string, top: real, left: real, width: real, height: real): string {
    RectKey(show, Round(top) as real, Round(left) as real, Round(width) as real, Round(height) as real)
  }

  /** `if (!map.has(key)) map.set(key, node)` */
  function SetIfAbsent(m: map<string, Node>, key: string, node: Node): (r: map<string, Node>)
    ensures key in m ==> r == m
    ensures r.Keys == m.Keys + {key}
  {
    if key in m then m else m[key := node]
  }

  /** The map left by registering the pairs in order, first key wins. */
  function FirstWins(pairs: seq<(string, Node)>): map<string, Node> {
    if pairs == [] then map[]
    else
      var last := pairs[|pairs| - 1];
      SetIfAbsent(FirstWins(pairs[..|pairs| - 1]), last.0, last.1)
  }

  lemma FirstWinsAppend(pairs: seq<(string, Node)>, p: (string, Node))
    ensures FirstWins(pairs + [p]) == SetIfAbsent(FirstWins(pairs), p.0, p.1)
  {
    assert (pairs + [p])[..|pairs|] == pairs;
  }

  /** A key is in the map exactly when some pair carries it, and then it
      maps to the node of the first such pair. */
  lemma {:induction false} FirstWinsSpec(pairs: seq<(string, Node)>, key: string)
    ensures key in FirstWins(pairs) <==> exists i :: 0 <= i < |pairs| && pairs[i].0 == key
    ensures key in FirstWins(pairs) ==>
              exists i :: 0 <= i < |pairs| && pairs[i].0 == key && FirstWins(pairs)[key] == pairs[i].1 &&
                          forall j :: 0 <= j < i ==> pairs[j].0 != key
  {
    if pairs != [] {
      var n := |pairs| - 1;
      var prefix := pairs[..n];
      FirstWinsSpec(prefix, key);
      assert forall i :: 0 <= i < n ==> prefix[i] == pairs[i];
      if key in FirstWins(prefix) {
        var i :| 0 <= i < n && prefix[i].0 == key && FirstWins(prefix)[key] == prefix[i].1 &&
                 forall j :: 0 <= j < i ==> prefix[j].0 != key;
        assert pairs[i].0 == key && FirstWins(pairs)[key] == pairs[i].1;
      } else if pairs[n].0 == key {
        assert FirstWins(pairs)[key] == pairs[n].1;
      }
    }
  }
}
