/**
 * Theme resolution shared by the CSS-variable renderer and the colour data
 * source: which nodes act as theme root and closest themed node, and how a
 * property's effective value falls back from the one to the other.
 */
module ThemeResolution {
  import opened Wrappers
  import opened Php
  import opened ContentRepository

  /** The two nodes values are read from. */
  datatype ThemeAnchors = ThemeAnchors(root: Node, closest: Node)

  /**
   * Root: the first themed ancestor, or the node itself when there is none.
   * Closest: the last themed ancestor when there are at least two, otherwise
   * the node itself. The list is taken in the order the host returns it.
   */
  function LocateAnchors(node: Node, themedAncestors: seq<Node>): (anchors: ThemeAnchors)
    ensures |themedAncestors| == 0 ==> anchors == ThemeAnchors(node, node)
    ensures |themedAncestors| == 1 ==> anchors == ThemeAnchors(themedAncestors[0], node)
    ensures |themedAncestors| > 1 ==>
      anchors == ThemeAnchors(themedAncestors[0], themedAncestors[|themedAncestors| - 1])
  {
    var root := if |themedAncestors| > 0 then themedAncestors[0] else node;
    var closest := if |themedAncestors| > 1 then themedAncestors[|themedAncestors| - 1] else node;
    ThemeAnchors(root, closest)
  }

  function Reversed(nodes: seq<Node>): (r: seq<Node>)
    ensures |r| == |nodes|
    ensures forall k :: 0 <= k < |nodes| ==> r[k] == nodes[|nodes| - 1 - k]
  {
    seq(|nodes|, k requires 0 <= k < |nodes| => nodes[|nodes| - 1 - k])
  }

  /**
   * The outcome depends on the host's order: with two or more themed
   * ancestors, reversing the list swaps root and closest.
   */
  lemma AnchorsDependOnAncestorOrder(node: Node, themedAncestors: seq<Node>)
    requires |themedAncestors| > 1
    ensures LocateAnchors(node, Reversed(themedAncestors)).root == LocateAnchors(node, themedAncestors).closest
    ensures LocateAnchors(node, Reversed(themedAncestors)).closest == LocateAnchors(node, themedAncestors).root
  {
  }

  /**
   * `closest->getProperty(name) ?: root->getProperty(name) ?: ''`: the closest
   * node's value when truthy, else the root's when truthy, else ''. Unset, ''
   * and '0' all count as falsy.
   */
  function ResolveValue(propertyName: string, closest: Node, root: Node): (value: string)
    ensures IsTruthy(GetProperty(closest, propertyName)) ==> value == closest.properties[propertyName]
    ensures !IsTruthy(GetProperty(closest, propertyName)) && IsTruthy(GetProperty(root, propertyName)) ==>
      value == root.properties[propertyName]
    ensures IsTruthyString(value) <==>
      IsTruthy(GetProperty(closest, propertyName)) || IsTruthy(GetProperty(root, propertyName))
    ensures !IsTruthyString(value) ==> value == ""
  {
    ShortTernary(ShortTernary(GetProperty(closest, propertyName), GetProperty(root, propertyName)), Some("")).value
  }

  /** A value set on the closest themed node overrides the root's. */
  lemma ClosestValueWins()
    ensures var root := Node("Site", map["primaryColor" := "#fff"]);
            var closest := Node("Page", map["primaryColor" := "#000"]);
            ResolveValue("primaryColor", closest, root) == "#000"
  {
  }

  /** A property unset, '' or '0' on the closest themed node falls back to the root's value. */
  lemma RootValueFallback()
    ensures var root := Node("Site", map["primaryColor" := "#fff"]);
            forall v :: v in {map[], map["primaryColor" := ""], map["primaryColor" := "0"]} ==>
              ResolveValue("primaryColor", Node("Page", v), root) == "#fff"
  {
  }
}
