/**
 * The Fusion object that renders the theme as CSS custom properties: every
 * property of the page-theme mixin that resolves to a truthy value becomes a
 * `--name:value<unit>` declaration, and the declarations are joined with ';'.
 */
module ThemeCSSVariables {
  import opened Wrappers
  import opened Php
  import opened ContentRepository
  import opened ThemePropertyHelper
  import opened ThemeResolution

  /**
   * What `evaluate` produces. `UnitLookupTypeError` is the TypeError PHP raises
   * when the closest themed node's type is not registered and a property has
   * to be rendered (its unit is looked up on a null node type).
   */
  datatype Rendering = Rendered(css: string) | UnitLookupTypeError

  /**
   * The properties that survive `array_filter`, in schema order, with their
   * resolved values: those whose value resolves truthily.
   */
  function ResolvedProperties(names: seq<string>, closest: Node, root: Node): (resolved: seq<(string, string)>)
    ensures |resolved| <= |names|
    ensures forall k :: 0 <= k < |resolved| ==>
      resolved[k].0 in names && resolved[k].1 == ResolveValue(resolved[k].0, closest, root)
    ensures forall k :: 0 <= k < |resolved| ==> IsTruthyString(resolved[k].1)
    ensures |resolved| == 0 <==> forall n :: n in names ==> !IsTruthyString(ResolveValue(n, closest, root))
  {
    if |names| == 0 then []
    else
      var value := ResolveValue(names[0], closest, root);
      (if IsTruthyString(value) then [(names[0], value)] else []) + ResolvedProperties(names[1..], closest, root)
  }

  /** One more property in the schema adds its resolved value at the end, or nothing. */
  lemma {:induction false} ResolvedPropertiesAppend(names: seq<string>, name: string, closest: Node, root: Node)
    ensures var value := ResolveValue(name, closest, root);
            ResolvedProperties(names + [name], closest, root)
            == ResolvedProperties(names, closest, root) + (if IsTruthyString(value) then [(name, value)] else [])
  {
    if |names| > 0 {
      assert (names + [name])[1..] == names[1..] + [name];
      ResolvedPropertiesAppend(names[1..], name, closest, root);
    }
  }

  /**
   * The declaration of every resolved property, units taken from `unitType`.
   * The ensures only expose the elements to callers.
   */
  function Declarations(resolved: seq<(string, string)>, unitType: NodeType): (decls: seq<string>)
    ensures |decls| == |resolved|
    ensures forall k :: 0 <= k < |resolved| ==>
      decls[k] == ConvertToCSSVariableDefinition(resolved[k].0, resolved[k].1, unitType)
  {
    seq(|resolved|, k requires 0 <= k < |resolved| => ConvertToCSSVariableDefinition(resolved[k].0, resolved[k].1, unitType))
  }

  /** The ';'-joined declarations of the given properties. */
  function RenderProperties(names: seq<string>, closest: Node, root: Node, unitType: NodeType): (css: string)
    ensures css == "" <==> forall n :: n in names ==> !IsTruthyString(ResolveValue(n, closest, root))
    ensures css != "" ==> |css| >= 2 && css[..2] == "--"
  {
    Implode(";", Declarations(ResolvedProperties(names, closest, root), unitType))
  }

  /**
   * Appending a property to the schema appends its declaration, separated by
   * ';' from what was there, when its value resolves, and changes nothing
   * otherwise.
   */
  lemma RenderPropertiesAppend(names: seq<string>, name: string, closest: Node, root: Node, unitType: NodeType)
    ensures var value := ResolveValue(name, closest, root);
            var before := RenderProperties(names, closest, root, unitType);
            var decl := ConvertToCSSVariableDefinition(name, value, unitType);
            RenderProperties(names + [name], closest, root, unitType)
            == if !IsTruthyString(value) then before
               else if before == "" then decl
               else before + ";" + decl
  {
    var value := ResolveValue(name, closest, root);
    var resolved := ResolvedProperties(names, closest, root);
    ResolvedPropertiesAppend(names, name, closest, root);
    if IsTruthyString(value) {
      var decls := Declarations(resolved, unitType);
      var decl := ConvertToCSSVariableDefinition(name, value, unitType);
      assert Declarations(resolved + [(name, value)], unitType) == decls + [decl];
      if |resolved| > 0 {
        ImplodeAppend(";", decls, decl);
      } else {
        assert decls + [decl] == [decl];
      }
    } else {
      assert resolved + [] == resolved;
    }
  }

  /**
   * `evaluate`. `node` is the `node` context value; `themedAncestors` is the
   * result of the ancestor query for the page-theme mixin, or None when the
   * subgraph is denied; `nodeTypes` are the registered node types by name.
   */
  function Evaluate(node: Option<Node>, themedAncestors: Option<seq<Node>>, nodeTypes: map<string, NodeType>): (out: Rendering)
    ensures node.None? || themedAncestors.None? || PageThemeMixin !in nodeTypes ==> out == Rendered("")
    ensures out.Rendered? && out.css != "" ==> |out.css| >= 2 && out.css[..2] == "--"
    ensures node.Some? && themedAncestors.Some? && PageThemeMixin in nodeTypes ==>
      var anchors := LocateAnchors(node.value, themedAncestors.value);
      var names := nodeTypes[PageThemeMixin].propertyNames;
      && (out == Rendered("") <==> forall n :: n in names ==> !IsTruthyString(ResolveValue(n, anchors.closest, anchors.root)))
      && (out.UnitLookupTypeError? <==> anchors.closest.nodeTypeName !in nodeTypes && out != Rendered(""))
      && (anchors.closest.nodeTypeName in nodeTypes ==>
            out == Rendered(RenderProperties(names, anchors.closest, anchors.root, nodeTypes[anchors.closest.nodeTypeName])))
  {
    if node.None? then Rendered("")
    else if themedAncestors.None? then Rendered("")
    else
      var anchors := LocateAnchors(node.value, themedAncestors.value);
      // `!$closestThemedNode` never holds: it is either an ancestor or the node.
      if PageThemeMixin !in nodeTypes then Rendered("")
      else
        var names := nodeTypes[PageThemeMixin].propertyNames;
        if anchors.closest.nodeTypeName in nodeTypes then
          Rendered(RenderProperties(names, anchors.closest, anchors.root, nodeTypes[anchors.closest.nodeTypeName]))
        else if |ResolvedProperties(names, anchors.closest, anchors.root)| == 0 then Rendered("")
        else UnitLookupTypeError
  }

  /**
   * Units come from the closest themed node's own type: replacing the
   * mixin's property configuration (keeping its property list) changes nothing
   * when the closest node is of another type.
   */
  lemma UnitsIgnoreMixinConfiguration(
    node: Node, themedAncestors: seq<Node>, nodeTypes: map<string, NodeType>, properties: map<string, PropertyConfig>)
    requires PageThemeMixin in nodeTypes
    requires LocateAnchors(node, themedAncestors).closest.nodeTypeName != PageThemeMixin
    ensures Evaluate(Some(node), Some(themedAncestors), nodeTypes)
         == Evaluate(Some(node), Some(themedAncestors), nodeTypes[PageThemeMixin := nodeTypes[PageThemeMixin].(properties := properties)])
  {
  }

  /** A single property `spacing` set to '8' with unit 'px' renders as exactly `--spacing:8px`. */
  lemma SpacingExample()
    ensures var pageType := NodeType(["spacing"], map["spacing" := PropertyConfig(None, Some("px"), None, None)], map[]);
            var page := Node("Page", map["spacing" := "8"]);
            Evaluate(Some(page), Some([]), map[PageThemeMixin := pageType, "Page" := pageType])
            == Rendered("--spacing:8px")
  {
    var pageType := NodeType(["spacing"], map["spacing" := PropertyConfig(None, Some("px"), None, None)], map[]);
    var page := Node("Page", map["spacing" := "8"]);
    ConvertKeepsPlainNames("spacing");
    assert ResolvedProperties(["spacing"], page, page) == [("spacing", "8")];
  }
}
