/**
 * The data source behind the backend colour picker: every colour property of
 * the page-theme mixin, with its resolved value, becomes a record
 * `{label, value, group, preview}`; records keep the index of their property.
 */
module ThemeColorsDataSource {
  import opened Wrappers
  import opened Php
  import opened ContentRepository
  import opened ThemePropertyHelper
  import opened ThemeResolution

  /** A value of the data source's `arguments` array. */
  datatype Argument = Text(text: string) | Flag(flag: bool) | Null

  datatype ColorOption = ColorOption(title: string, value: string, group: string, preview: string)

  /** A result entry: the index of the property in the schema and its record. */
  type Entry = (nat, ColorOption)

  const DefaultGroupLabel: string := "Andere"
  const FilterArgument: string := "filterUnsetProperties"

  /** The filled swatch preview is SwatchPrefix + colour + SwatchSuffix. */
  const SwatchPrefix: string := "data:image/svg+xml;utf8,<svg xmlns=\"http://www.w3.org/2000/svg\" viewBox=\"0 0 448 512\"><path fill=\""
  const SwatchSuffix: string := "\" d=\"M0 96C0 60.7 28.7 32 64 32H384c35.3 0 64 28.7 64 64V416c0 35.3-28.7 64-64 64H64c-35.3 0-64-28.7-64-64V96z\"/></svg>"
  const PlaceholderPreview: string :=
    "data:image/svg+xml;utf8,<svg xmlns=\"http://www.w3.org/2000/svg\" viewBox=\"0 0 512 512\"><path d=\"M504 256c0 137-111 248-248 248S8 393 8 256C8 119.1 119 8 256 8s248 111.1 248 248zM262.7 90c-54.5 0-89.3 23-116.5 63.8-3.5 5.3-2.4 12.4 2.7 16.3l34.7 26.3c5.2 3.9 12.6 3 16.7-2.1 17.9-22.7 30.1-35.8 57.3-35.8 20.4 0 45.7 13.1 45.7 33 0 15-12.4 22.7-32.5 34C247.1 238.5 216 254.9 216 296v4c0 6.6 5.4 12 12 12h56c6.6 0 12-5.4 12-12v-1.3c0-28.5 83.2-29.6 83.2-106.7 0-58-60.2-102-116.5-102zM256 338c-25.4 0-46 20.6-46 46 0 25.4 20.6 46 46 46s46-20.6 46-46c0-25.4-20.6-46-46-46z\"/></svg>"

  /**
   * `($arguments['filterUnsetProperties'] ?? true) !== 'false'`: filtering is
   * off only for the string 'false'; a missing or null argument, a boolean or
   * any other string leaves it on.
   */
  function FilterUnsetProperties(arguments: map<string, Argument>): (filter: bool)
    ensures !filter <==> FilterArgument in arguments && arguments[FilterArgument] == Text("false")
  {
    var argument := if FilterArgument in arguments && !arguments[FilterArgument].Null?
                    then arguments[FilterArgument] else Flag(true);
    argument != Text("false")
  }

  /** `getColorPreview`: the swatch filled with the colour when it is truthy, the placeholder otherwise. */
  function GetColorPreview(color: string): (preview: string)
    ensures IsTruthyString(color) ==> preview == SwatchPrefix + color + SwatchSuffix
    ensures !IsTruthyString(color) ==> preview == PlaceholderPreview
  {
    if IsTruthyString(color) then SwatchPrefix + color + SwatchSuffix else PlaceholderPreview
  }

  /** The fill colour can be read back from a swatch preview. */
  lemma SwatchFillRoundTrip(color: string)
    requires IsTruthyString(color)
    ensures var preview := GetColorPreview(color);
            |preview| == |SwatchPrefix| + |color| + |SwatchSuffix|
            && preview[|SwatchPrefix|..|preview| - |SwatchSuffix|] == color
  {
    var preview := GetColorPreview(color);
    assert preview[|SwatchPrefix|..|preview| - |SwatchSuffix|] == (SwatchPrefix + color + SwatchSuffix)[|SwatchPrefix|..|SwatchPrefix| + |color|];
  }

  /**
   * `getGroupLabel`: the label of the property's inspector group, taken as it
   * is configured (even ''), when the group id is truthy and that group has a
   * label; 'Andere' in every other case.
   */
  function GetGroupLabel(propertyName: string, themeProperties: map<string, PropertyConfig>, groups: map<string, GroupConfig>): (groupLabel: string)
    ensures var group := ConfiguredGroup(themeProperties, propertyName);
            && (groupLabel == DefaultGroupLabel || (IsTruthy(group) && GroupLabel(groups, group.value) == Some(groupLabel)))
            && (!IsTruthy(group) ==> groupLabel == DefaultGroupLabel)
            && (IsTruthy(group) && GroupLabel(groups, group.value).Some? ==> groupLabel == GroupLabel(groups, group.value).value)
  {
    var group := ConfiguredGroup(themeProperties, propertyName);
    if IsTruthy(group) then Coalesce(GroupLabel(groups, group.value), DefaultGroupLabel)
    else DefaultGroupLabel
  }

  /** `getPropertyLabel`: the configured `ui.label`, even when '', or else the property name. */
  function GetPropertyLabel(propertyName: string, paletteProperties: map<string, PropertyConfig>): (propertyLabel: string)
    ensures ConfiguredLabel(paletteProperties, propertyName).Some? ==> propertyLabel == ConfiguredLabel(paletteProperties, propertyName).value
    ensures ConfiguredLabel(paletteProperties, propertyName).None? ==> propertyLabel == propertyName
  {
    Coalesce(ConfiguredLabel(paletteProperties, propertyName), propertyName)
  }

  /** `createThemeColorOption`: the record for one colour property. */
  function CreateThemeColorOption(propertyName: string, title: string, group: string, propertyValue: string): (option: ColorOption)
    ensures option.value == "var(--" + ConvertToCSSVariableName(propertyName) + ")"
    ensures option.title == title && option.group == group && option.preview == GetColorPreview(propertyValue)
  {
    var value := ConvertToCSSVariableName(propertyName);
    ColorOption(title, "var(--" + value + ")", group, GetColorPreview(propertyValue))
  }

  /**
   * A record's value refers to exactly the custom property the CSS-variable
   * renderer declares for the same property name.
   */
  lemma ValueReferencesDeclaredVariable(propertyName: string, title: string, group: string, value: string, unitType: NodeType)
    ensures var option := CreateThemeColorOption(propertyName, title, group, value);
            var decl := ConvertToCSSVariableDefinition(propertyName, value, unitType);
            var variable := "--" + ConvertToCSSVariableName(propertyName);
            option.value == "var(" + variable + ")"
            && |variable| < |decl| && decl[..|variable|] == variable && decl[|variable|] == ':'
  {
    var variable := "--" + ConvertToCSSVariableName(propertyName);
    var decl := ConvertToCSSVariableDefinition(propertyName, value, unitType);
    assert decl == variable + (":" + value + GetPropertyUnit(propertyName, unitType));
  }

  /** The record for `primaryColor` refers to `var(--primary-color)`. */
  lemma PrimaryColorValueExample(propertyName: string, title: string, group: string, value: string)
    requires propertyName == "primaryColor"
    ensures CreateThemeColorOption(propertyName, title, group, value).value == "var(--primary-color)"
  {
    var option := CreateThemeColorOption(propertyName, title, group, value);
    assert option.value == "var(--" + ConvertToCSSVariableName(propertyName) + ")";
    ConvertExamplePrimaryColor(propertyName);
  }

  /**
   * The `array_map` callback for one property: nothing for a non-colour
   * property, nothing for an unresolved one while filtering, otherwise its record.
   */
  function ColorOptionFor(
    propertyName: string, themeProperties: map<string, PropertyConfig>, groups: map<string, GroupConfig>,
    closest: Node, root: Node, filterUnset: bool): (option: Option<ColorOption>)
    ensures option.Some? <==>
      IsColorProperty(propertyName, themeProperties)
      && (!filterUnset || IsTruthyString(ResolveValue(propertyName, closest, root)))
    ensures option.Some? ==>
      option.value == CreateThemeColorOption(
        propertyName,
        GetPropertyLabel(propertyName, themeProperties),
        GetGroupLabel(propertyName, themeProperties, groups),
        ResolveValue(propertyName, closest, root))
  {
    if !IsColorProperty(propertyName, themeProperties) then None
    else
      var value := ResolveValue(propertyName, closest, root);
      if !IsTruthyString(value) && filterUnset then None
      else Some(CreateThemeColorOption(
        propertyName,
        GetPropertyLabel(propertyName, themeProperties),
        GetGroupLabel(propertyName, themeProperties, groups),
        ResolveValue(propertyName, closest, root)))
  }

  /**
   * The `array_map` over all property names of the mixin.
   * The ensures only expose the elements to callers.
   */
  function MapColorOptions(
    names: seq<string>, themeProperties: map<string, PropertyConfig>, groups: map<string, GroupConfig>,
    closest: Node, root: Node, filterUnset: bool): (mapped: seq<Option<ColorOption>>)
    ensures |mapped| == |names|
    ensures forall i :: 0 <= i < |names| ==>
      mapped[i] == ColorOptionFor(names[i], themeProperties, groups, closest, root, filterUnset)
  {
    seq(|names|, i requires 0 <= i < |names| => ColorOptionFor(names[i], themeProperties, groups, closest, root, filterUnset))
  }

  /**
   * `getData`. `node` is the node the editor works on; `themedAncestors` is the
   * result of the ancestor query for the page-theme mixin, or None when the
   * subgraph is denied; `nodeTypes` are the registered node types by name.
   */
  function GetData(
    node: Option<Node>, arguments: map<string, Argument>,
    themedAncestors: Option<seq<Node>>, nodeTypes: map<string, NodeType>): (data: seq<Entry>)
    ensures node.None? || themedAncestors.None? || PageThemeMixin !in nodeTypes ==> data == []
  {
    if node.None? then []
    else
      var filterUnset := FilterUnsetProperties(arguments);
      if themedAncestors.None? then []
      else
        var anchors := LocateAnchors(node.value, themedAncestors.value);
        if PageThemeMixin !in nodeTypes then []
        else
          var themeNodeType := nodeTypes[PageThemeMixin];
          var mapped := MapColorOptions(
            themeNodeType.propertyNames, themeNodeType.properties, themeNodeType.groups,
            anchors.closest, anchors.root, filterUnset);
          ArrayFilter(mapped, |mapped|)
  }

  /** The inputs under which `getData` reaches its `array_map`. */
  predicate Reached(node: Option<Node>, themedAncestors: Option<seq<Node>>, nodeTypes: map<string, NodeType>) {
    node.Some? && themedAncestors.Some? && PageThemeMixin in nodeTypes
  }

  /**
   * Which properties appear: property i of the mixin has an entry exactly when
   * it is a colour property and, while filtering, its value resolves truthily.
   * Entries are in schema order and carry their property's index.
   */
  lemma GetDataSelectsColorProperties(
    node: Option<Node>, arguments: map<string, Argument>,
    themedAncestors: Option<seq<Node>>, nodeTypes: map<string, NodeType>)
    requires Reached(node, themedAncestors, nodeTypes)
    ensures var data := GetData(node, arguments, themedAncestors, nodeTypes);
            var t := nodeTypes[PageThemeMixin];
            var anchors := LocateAnchors(node.value, themedAncestors.value);
            && (forall e, f :: 0 <= e < f < |data| ==> data[e].0 < data[f].0)
            && (forall e :: 0 <= e < |data| ==> data[e].0 < |t.propertyNames|)
            && (forall i :: 0 <= i < |t.propertyNames| ==>
                 ((exists e :: 0 <= e < |data| && data[e].0 == i) <==>
                   IsColorProperty(t.propertyNames[i], t.properties)
                   && (!FilterUnsetProperties(arguments)
                       || IsTruthyString(ResolveValue(t.propertyNames[i], anchors.closest, anchors.root)))))
  {
  }

  /**
   * On a well-formed mixin, the entries name each colour property at most once,
   * and every configured colour property that survives the filter has an entry.
   */
  lemma GetDataListsEachColorPropertyOnce(
    node: Option<Node>, arguments: map<string, Argument>,
    themedAncestors: Option<seq<Node>>, nodeTypes: map<string, NodeType>)
    requires Reached(node, themedAncestors, nodeTypes)
    requires WellFormed(nodeTypes[PageThemeMixin])
    ensures var data := GetData(node, arguments, themedAncestors, nodeTypes);
            var t := nodeTypes[PageThemeMixin];
            var anchors := LocateAnchors(node.value, themedAncestors.value);
            && (forall e :: 0 <= e < |data| ==> data[e].0 < |t.propertyNames|)
            && (forall e, f :: 0 <= e < f < |data| ==> t.propertyNames[data[e].0] != t.propertyNames[data[f].0])
            && (forall name :: name in t.properties && t.properties[name].preset == Some(ColorPickerPreset)
                  && (!FilterUnsetProperties(arguments)
                      || IsTruthyString(ResolveValue(name, anchors.closest, anchors.root)))
                  ==> exists e :: 0 <= e < |data| && t.propertyNames[data[e].0] == name)
  {
    var data := GetData(node, arguments, themedAncestors, nodeTypes);
    var t := nodeTypes[PageThemeMixin];
    var anchors := LocateAnchors(node.value, themedAncestors.value);
    GetDataSelectsColorProperties(node, arguments, themedAncestors, nodeTypes);
    forall name | name in t.properties && t.properties[name].preset == Some(ColorPickerPreset)
                  && (!FilterUnsetProperties(arguments)
                      || IsTruthyString(ResolveValue(name, anchors.closest, anchors.root)))
      ensures exists e :: 0 <= e < |data| && t.propertyNames[data[e].0] == name
    {
      var i :| 0 <= i < |t.propertyNames| && t.propertyNames[i] == name;
      assert IsColorProperty(t.propertyNames[i], t.properties);
      var e :| 0 <= e < |data| && data[e].0 == i;
    }
  }

  /**
   * Each record: the label, the group label, `var(--<name>)` for the property at
   * its index, and the preview of the resolved value; while filtering that
   * value is truthy, so the preview is the filled swatch.
   */
  lemma GetDataRecords(
    node: Option<Node>, arguments: map<string, Argument>,
    themedAncestors: Option<seq<Node>>, nodeTypes: map<string, NodeType>)
    requires Reached(node, themedAncestors, nodeTypes)
    ensures var data := GetData(node, arguments, themedAncestors, nodeTypes);
            var t := nodeTypes[PageThemeMixin];
            var anchors := LocateAnchors(node.value, themedAncestors.value);
            forall e :: 0 <= e < |data| ==>
              var name := t.propertyNames[data[e].0];
              var value := ResolveValue(name, anchors.closest, anchors.root);
              && data[e].1.title == GetPropertyLabel(name, t.properties)
              && data[e].1.group == GetGroupLabel(name, t.properties, t.groups)
              && data[e].1.value == "var(--" + ConvertToCSSVariableName(name) + ")"
              && data[e].1.preview == GetColorPreview(value)
              && (FilterUnsetProperties(arguments) ==> data[e].1.preview == SwatchPrefix + value + SwatchSuffix)
  {
  }
}
