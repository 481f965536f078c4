/**
 * The host's content repository, reduced to immutable values: a node is its
 * node type name and its property values; a node type is its ordered list of
 * property names, the per-property configuration the theme builder reads, and
 * its inspector groups.
 */
module ContentRepository {
  import opened Wrappers

  /** Property values of a node; a name that is absent is unset (`null`). */
  datatype Node = Node(nodeTypeName: string, properties: map<string, string>)

  /**
   * The parts of `properties.<name>` the theme builder reads:
   * `options.preset`, `ui.inspector.editorOptions.unit`, `ui.label` (as `title`), `ui.inspector.group`.
   */
  datatype PropertyConfig = PropertyConfig(
    preset: Option<string>,
    unit: Option<string>,
    title: Option<string>,
    group: Option<string>)

  /** `ui.inspector.groups.<id>`; only its `label` (here `title`) is read. */
  datatype GroupConfig = GroupConfig(title: Option<string>)

  /**
   * A node type: `propertyNames` is the key order of `getProperties()`,
   * `properties` its values and `groups` the `ui.inspector.groups` configuration.
   */
  datatype NodeType = NodeType(
    propertyNames: seq<string>,
    properties: map<string, PropertyConfig>,
    groups: map<string, GroupConfig>)

  /**
   * What an ordered PHP array guarantees of `getProperties()`: every name is
   * listed once, and the listed names are exactly the configured ones.
   */
  ghost predicate WellFormed(t: NodeType) {
    && (forall i, j :: 0 <= i < j < |t.propertyNames| ==> t.propertyNames[i] != t.propertyNames[j])
    && (forall name :: name in t.properties <==> name in t.propertyNames)
  }

  /** `$node->getProperty($name)`. */
  function GetProperty(node: Node, name: string): Option<string> {
    if name in node.properties then Some(node.properties[name]) else None
  }

  /** `properties.<name>` of a property configuration array, or null. */
  function PropertyConfiguration(properties: map<string, PropertyConfig>, name: string): Option<PropertyConfig> {
    if name in properties then Some(properties[name]) else None
  }

  function ConfiguredPreset(properties: map<string, PropertyConfig>, name: string): Option<string> {
    match PropertyConfiguration(properties, name)
    case Some(c) => c.preset
    case None => None
  }

  function ConfiguredUnit(nodeType: NodeType, name: string): Option<string> {
    match PropertyConfiguration(nodeType.properties, name)
    case Some(c) => c.unit
    case None => None
  }

  function ConfiguredLabel(properties: map<string, PropertyConfig>, name: string): Option<string> {
    match PropertyConfiguration(properties, name)
    case Some(c) => c.title
    case None => None
  }

  function ConfiguredGroup(properties: map<string, PropertyConfig>, name: string): Option<string> {
    match PropertyConfiguration(properties, name)
    case Some(c) => c.group
    case None => None
  }

  /** `groups.<id>.label`, or null. */
  function GroupLabel(groups: map<string, GroupConfig>, id: string): Option<string> {
    if id in groups then groups[id].title else None
  }
}
