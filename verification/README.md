# Shel.Neos.ThemeBuilder — theme resolution and CSS formatting in Dafny

This project models the logic of the Neos CMS package Shel.Neos.ThemeBuilder. It covers how a page
theme is resolved and turned into CSS:

- **ThemePropertyHelper** turns a camelCase property name into a CSS custom-property name. It applies
  `/(?<!^)([A-Z\d][a-z]|(?<=[a-z])[A-Z\d])/` with `preg_replace` and then `strtolower`. It also looks
  up a property's unit, tests for the colour-picker preset and builds `--name:value<unit>`.
- **Theme resolution** is shared by both adapters. The *theme root* is the first themed ancestor, or
  the node itself when there is none. The *closest themed node* is the last themed ancestor when there
  are at least two, otherwise the node itself. A property's value is the closest node's value when it
  is truthy in PHP's sense, otherwise the root's value when truthy, otherwise `''`. Unset, `''` and
  `'0'` are all falsy.
- **ThemeCSSVariablesImplementation** renders every resolved property of the page-theme mixin as a
  declaration and joins them with `;`.
- **ThemeColorsDataSource** lists the colour properties of the mixin for the backend colour picker,
  as `{label, value, group, preview}` records.
- **StylesImplementation** folds key/value pairs into `key:value;`.

All four files are pure: early returns, `array_map`, `array_filter`, `implode`, `array_reduce` and
lookups in configuration arrays. So the model is made of functions and lemmas, one module per source
file. Three modules support them:

- `Wrappers` holds `Option`; `None` is PHP `null` or a missing key.
- `Php` holds string truthiness, `?:`, `??`, `strtolower`, `implode` and a key-preserving
  `array_filter`.
- `ContentRepository` holds nodes and node types as immutable values.

Host inputs become parameters:

- The `node` context value is an `Option<Node>`.
- The themed-ancestor query is an `Option<seq<Node>>`. `None` means the subgraph threw `AccessDenied`.
  The list is taken in whatever order the host returns it.
- The node-type manager is a `map<string, NodeType>`. A `NodeType` is its ordered property names, the
  per-property configuration the package reads (preset, unit, label, group) and its inspector groups.

## Notable behaviour of the code

- Classes/Helper/ThemePropertyHelper.php:14: the expression gives a digit after a lowercase letter
  its own hyphen, through the `(?<=[a-z])[A-Z\d]` alternative: `bg2Color` → `bg-2-color` and
  `bgColor2` → `bg-color-2` (`ThemePropertyHelper.ConvertExampleInnerDigit`,
  `ThemePropertyHelper.ConvertExampleTrailingDigit`). An uppercase run at the start of a name gets no
  hyphen of its own: `HTMLColor` → `html-color`, with the one hyphen before `C`
  (`ThemePropertyHelper.ConvertExampleAcronym`). The positional rule for every name is
  `ThemePropertyHelper.ConvertFollowsHyphenRule`.
- Classes/Helper/ThemePropertyHelper.php:28-33: converting twice is not the same as converting once:
  `a2b` → `a-2b` → `a--2b` (`ThemePropertyHelper.ConvertIsNotIdempotent`).
- Classes/Fusion/ThemeCSSVariablesImplementation.php:85-87 and
  Classes/DataSource/ThemeColorsDataSource.php:132 resolve values with `?:`, so a stored `'0'` is
  treated like an unset value and the root's value is used instead (`ThemeResolution.ResolveValue`).
- Classes/Fusion/ThemeCSSVariablesImplementation.php:67-68 and
  Classes/DataSource/ThemeColorsDataSource.php:74-75: with no themed ancestor, root and closest
  both fall back to the node itself, so the node's own values are read
  (`ThemeResolution.LocateAnchors`).
- Classes/Fusion/StylesImplementation.php:24 documents that empty values are ignored, while line 40
  skips only `null`. An empty string renders as `key:;` (`Styles.EmptyValueIsKept`).
- Classes/DataSource/ThemeColorsDataSource.php:144 applies `preg_replace` with the helper's
  expression constant and `strtolower` itself, rather than calling `convertToCSSVariableName`. The
  computation is the same, so the model calls `ThemePropertyHelper.ConvertToCSSVariableName`.

## Model

| member | source | states |
|---|---|---|
| `ThemePropertyHelper.ConvertToCSSVariableName` | Classes/Helper/ThemePropertyHelper.php:28-33 | The result has no ASCII uppercase letter. A non-empty name starts with its own first character, lowered, never with an inserted hyphen (`(?<!^)`). |
| `ThemePropertyHelper.ReplaceFromFollowsRule` | Classes/Helper/ThemePropertyHelper.php:14 | The left-to-right, non-overlapping `preg_replace` scan, with each match consuming its text and the lookbehind reading the subject, then lowered, equals the positional rule `Kebab`. A hyphen goes before index i > 0 exactly when s[i] is an uppercase letter or digit and s[i+1] or s[i-1] is a lowercase letter. |
| `ThemePropertyHelper.ConvertFollowsHyphenRule` | Classes/Helper/ThemePropertyHelper.php:14 | For every name, the converter's output is the positional hyphen rule applied to the lowered name. |
| `ThemePropertyHelper.ConvertOnlyInsertsHyphens` | Classes/Helper/ThemePropertyHelper.php:30-32 | The output is `strtolower(input)` with zero or more `-` inserted, each directly before a character of it, and none before the first character. |
| `ThemePropertyHelper.ConvertKeepsPlainNames` | Classes/Helper/ThemePropertyHelper.php:14 | A name with no ASCII uppercase letter and no digit is returned unchanged. |
| `ThemePropertyHelper.ConvertExamplePrimaryColor` | Classes/Helper/ThemePropertyHelper.php:14 | `primaryColor` → `primary-color`. |
| `ThemePropertyHelper.ConvertExampleAcronym` | Classes/Helper/ThemePropertyHelper.php:14 | `HTMLColor` → `html-color`: the uppercase run at the start of the name gets no hyphen of its own; the one hyphen goes before `C`, which starts `Color`. |
| `ThemePropertyHelper.ConvertExampleTrailingDigit` | Classes/Helper/ThemePropertyHelper.php:14 | `bgColor2` → `bg-color-2`. |
| `ThemePropertyHelper.ConvertExampleInnerDigit` | Classes/Helper/ThemePropertyHelper.php:14 | `bg2Color` → `bg-2-color`. |
| `ThemePropertyHelper.ConvertIsNotIdempotent` | Classes/Helper/ThemePropertyHelper.php:28-33 | `a2b` → `a-2b`, and converting that again gives `a--2b`. |
| `ThemePropertyHelper.GetPropertyUnit` | Classes/Helper/ThemePropertyHelper.php:17-21 | Returns the configured `editorOptions.unit` when it is truthy. Returns `''` when it is missing, `''` or `'0'`. The result is always `''` or truthy. |
| `ThemePropertyHelper.IsColorProperty` | Classes/Helper/ThemePropertyHelper.php:23-26 | True exactly when the property is configured and its `options.preset` is `themeBuilder.colorPicker`. An unknown property or another preset gives false. |
| `ThemePropertyHelper.ConvertToCSSVariableDefinition` | Classes/Helper/ThemePropertyHelper.php:35-43 | Equals `"--" + ConvertToCSSVariableName(name) + ":" + value + unit`, so it always starts with `--`. |
| `ThemeResolution.LocateAnchors` | Classes/Fusion/ThemeCSSVariablesImplementation.php:67-68 | With no themed ancestor, root and closest are the node. With one, root is that ancestor and closest is the node. With more, root is the first and closest is the last. |
| `ThemeResolution.AnchorsDependOnAncestorOrder` | Classes/DataSource/ThemeColorsDataSource.php:74-75 | With two or more themed ancestors, reversing the host's list swaps root and closest, so the result depends on the host's order. |
| `ThemeResolution.ResolveValue` | Classes/Fusion/ThemeCSSVariablesImplementation.php:85-87 | A truthy value on the closest node wins. Otherwise a truthy value on the root is used. The result is truthy exactly when one of the two is, and `''` otherwise. The data source's `getPropertyValue` (Classes/DataSource/ThemeColorsDataSource.php:132) is the same expression. |
| `ThemeResolution.ClosestValueWins` | Classes/Fusion/ThemeCSSVariablesImplementation.php:85 | A closer `primaryColor="#000"` overrides the root's `"#fff"`. |
| `ThemeResolution.RootValueFallback` | Classes/Fusion/ThemeCSSVariablesImplementation.php:85-87 | A closer node with `primaryColor` unset, `''` or `'0'` resolves to the root's `"#fff"`. |
| `Php.ImplodeAppend` | Classes/Fusion/ThemeCSSVariablesImplementation.php:76-77 | Joining one more piece appends `;` and that piece. |
| `ThemeCSSVariables.ResolvedProperties` | Classes/Fusion/ThemeCSSVariablesImplementation.php:78-97 | The surviving properties are schema names, each paired with its truthy resolved value. The list is empty exactly when no property resolves. |
| `ThemeCSSVariables.ResolvedPropertiesAppend` | Classes/Fusion/ThemeCSSVariablesImplementation.php:78-97 | Survivors keep schema order. One more schema property adds its resolved value at the end, or nothing when it is falsy on both nodes. |
| `ThemeCSSVariables.RenderProperties` | Classes/Fusion/ThemeCSSVariablesImplementation.php:76-100 | The joined string is `''` exactly when no property resolves. Otherwise it starts with `--`. |
| `ThemeCSSVariables.RenderPropertiesAppend` | Classes/Fusion/ThemeCSSVariablesImplementation.php:76-100 | One more schema property leaves the output unchanged when it does not resolve. Otherwise it appends exactly its declaration, preceded by `;` only when the output was non-empty, so there is no leading or trailing separator. |
| `ThemeCSSVariables.Evaluate` | Classes/Fusion/ThemeCSSVariablesImplementation.php:40-101 | Returns `''` for no node, a denied subgraph or a missing theme mixin. Otherwise returns `''` exactly when no mixin property resolves. Units come from the closest node's own node type. A TypeError is raised exactly when that type is unregistered and something has to be rendered. |
| `ThemeCSSVariables.UnitsIgnoreMixinConfiguration` | Classes/Fusion/ThemeCSSVariablesImplementation.php:74 | When the closest node has another type, replacing the mixin's property configuration (including its units) does not change the output. |
| `ThemeCSSVariables.SpacingExample` | Classes/Fusion/ThemeCSSVariablesImplementation.php:91-95 | `spacing="8"` with unit `px` renders as exactly `--spacing:8px`. |
| `ThemeColorsDataSource.FilterUnsetProperties` | Classes/DataSource/ThemeColorsDataSource.php:53 | Filtering is off exactly when the argument is the string `'false'`. A missing or null argument, a boolean or any other string leaves it on. |
| `ThemeColorsDataSource.GetColorPreview` | Classes/DataSource/ThemeColorsDataSource.php:153-160 | A truthy colour gives the swatch SVG with that colour as `fill`. Any other value gives the fixed placeholder SVG. |
| `ThemeColorsDataSource.SwatchFillRoundTrip` | Classes/DataSource/ThemeColorsDataSource.php:157 | The fill colour can be read back unchanged from between the swatch's fixed prefix and suffix. |
| `ThemeColorsDataSource.GetGroupLabel` | Classes/DataSource/ThemeColorsDataSource.php:162-169 | The result is `Andere` or the label of the property's configured group. It is `Andere` when the group id is missing or falsy, or when that group has no label. A configured label is used as is, even `''`. |
| `ThemeColorsDataSource.GetPropertyLabel` | Classes/DataSource/ThemeColorsDataSource.php:171-174 | Returns the configured `ui.label` when present (even `''`), and the property name otherwise. |
| `ThemeColorsDataSource.CreateThemeColorOption` | Classes/DataSource/ThemeColorsDataSource.php:138-151 | The record's value is `var(--<converted name>)`. Its label and group are the ones given. Its preview is the preview of the value. |
| `ThemeColorsDataSource.ValueReferencesDeclaredVariable` | Classes/DataSource/ThemeColorsDataSource.php:144-147 | A record's value is `var(X)`, where X is exactly the custom-property name the CSS renderer declares (`X:` starts the declaration). |
| `ThemeColorsDataSource.PrimaryColorValueExample` | Classes/DataSource/ThemeColorsDataSource.php:144-147 | The record for `primaryColor` has the value `var(--primary-color)`. |
| `ThemeColorsDataSource.ColorOptionFor` | Classes/DataSource/ThemeColorsDataSource.php:86-121 | The callback gives a record exactly when the property is a colour property and, while filtering, its value resolves truthily. The record is built from the property's label, group label and resolved value. |
| `Php.ArrayFilter` | Classes/DataSource/ThemeColorsDataSource.php:84-124 | Kept elements keep their original key, in increasing key order. Every non-null element is kept and nothing else is. |
| `ThemeColorsDataSource.GetData` | Classes/DataSource/ThemeColorsDataSource.php:45-125 | Returns an empty list for no node, a denied subgraph or a missing theme mixin. |
| `ThemeColorsDataSource.GetDataSelectsColorProperties` | Classes/DataSource/ThemeColorsDataSource.php:84-124 | Entries are in schema order and carry their property's index. Property i has an entry exactly when it is a colour property and, while filtering, resolves truthily. Non-colour properties never appear. |
| `ThemeColorsDataSource.GetDataListsEachColorPropertyOnce` | Classes/DataSource/ThemeColorsDataSource.php:84-124 | When the mixin is well formed (each property listed once, the listed names being the configured ones), no property name has two entries, and every configured colour property that passes the filter has an entry. |
| `ThemeColorsDataSource.GetDataRecords` | Classes/DataSource/ThemeColorsDataSource.php:111-120 | Each entry holds the label, group label, `var(--<name>)` and preview for the property at its index. While filtering, the preview is the swatch filled with the resolved value. |
| `Styles.Evaluate` | Classes/Fusion/StylesImplementation.php:34-42 | The styles object: the `array_reduce` fold from `''` equals the in-order concatenation of `key:value;` for every non-null entry, and is `''` for no entries. |
| `Styles.ReduceAppendsDeclarations` | Classes/Fusion/StylesImplementation.php:38-41 | Folding from any carry appends exactly the entries' declarations to it. |
| `Styles.EvaluateAppend` | Classes/Fusion/StylesImplementation.php:40 | One more entry appends exactly `key:value;`, or nothing when its value is null. |
| `Styles.EvaluateShape` | Classes/Fusion/StylesImplementation.php:38-41 | The result is `''` exactly when every value is null, including when there are no entries. Otherwise it ends with `;`. |
| `Styles.EmptyValueIsKept` | Classes/Fusion/StylesImplementation.php:40 | An empty-string value is not dropped: it renders as `key:;`. |

## Left out

- Content-repository access is left out: the registry, `getContentSubgraph`, `findAncestorNodes` and
  the node-type criteria. The subgraph's outcome (denied, or the themed ancestors in the host's order)
  is an input.
- Node-type configuration paths are left out. `getConfiguration`, `getProperties` and
  `getNodeType` become lookups in immutable maps.
- The Fusion runtime is left out: `fusionValue`, `evaluateNestedProperties`, the framework base
  classes and dependency injection. The styles object receives its evaluated entries as a sequence in
  key order.
- Values are strings or null. PHP coercion of other types (numbers, booleans, arrays) during
  concatenation and truthiness tests is not modelled. Integer-like array keys are not modelled either.
- PHP warnings for undefined array keys are not modelled; such lookups act as null.
- A `NodeType` value does not itself guarantee that its property names are distinct and equal to its
  configured keys, as `getProperties()` does. `ContentRepository.WellFormed` states this, and the
  lemmas that need it require it. The other results do not depend on it.
- `ThemeColorsDataSource.GetGroupLabel`: when the mixin has no `ui.inspector.groups` configuration,
  the source raises a TypeError. The model takes the groups as a map, where that case is an empty map
  and gives `Andere`.
- `strtolower` is modelled as ASCII-only lowering, matching PHP 8.2 and later. Locale-dependent
  lowering in older PHP versions is not modelled.
- JSON encoding of the data-source result for the backend UI is not modelled. The result is a
  sequence of (index, record) pairs.
- The two SVG previews are modelled as opaque string constants. Only the position of the inserted
  `fill` value is reasoned about.
