/**
 * Property-name and declaration helpers of the theme builder: the regex-driven
 * camelCase to kebab-case converter, the unit lookup, the colour-preset test and
 * the `--name:value<unit>` declaration builder.
 */
module ThemePropertyHelper {
  import opened Wrappers
  import opened Php
  import opened ContentRepository

  const PageThemeMixin: string := "Shel.Neos.ThemeBuilder:Mixin.PageTheme"
  const ColorPickerPreset: string := "themeBuilder.colorPicker"

  // ---------------------------------------------------------------------------
  // VARIABLE_NAME_EXPRESSION = /(?<!^)([A-Z\d][a-z]|(?<=[a-z])[A-Z\d])/
  // ---------------------------------------------------------------------------

  /** The character class `[A-Z\d]` (ASCII only, no `u` modifier). */
  predicate IsUpperOrDigit(c: char) {
    IsAsciiUpper(c) || IsAsciiDigit(c)
  }

  /** The first alternative, `[A-Z\d][a-z]`, matches at offset i; `(?<!^)` rules out offset 0. */
  predicate PairMatchAt(s: string, i: nat) {
    0 < i && i + 1 < |s| && IsUpperOrDigit(s[i]) && IsAsciiLower(s[i + 1])
  }

  /**
   * The second alternative, `(?<=[a-z])[A-Z\d]`, matches at offset i. The
   * lookbehind reads the subject string, also inside an earlier match.
   */
  predicate LookbehindMatchAt(s: string, i: nat) {
    0 < i < |s| && IsAsciiLower(s[i - 1]) && IsUpperOrDigit(s[i])
  }

  /**
   * `preg_replace(VARIABLE_NAME_EXPRESSION, '-$1', s)` from offset i on: the
   * engine tries the alternatives in order at each offset, replaces a match by
   * a hyphen and the matched text, and resumes after the match.
   */
  function ReplaceFrom(s: string, i: nat): string
    decreases |s| - i
  {
    if i >= |s| then []
    else if PairMatchAt(s, i) then ['-', s[i], s[i + 1]] + ReplaceFrom(s, i + 2)
    else if LookbehindMatchAt(s, i) then ['-', s[i]] + ReplaceFrom(s, i + 1)
    else [s[i]] + ReplaceFrom(s, i + 1)
  }

  /** `convertToCSSVariableName`: the replacement above, then `strtolower`. */
  function ConvertToCSSVariableName(propertyName: string): (name: string)
    ensures forall j :: 0 <= j < |name| ==> !IsAsciiUpper(name[j])
    ensures |propertyName| > 0 ==> |name| > 0 && name[0] == ToLowerChar(propertyName[0])
  {
    StrToLower(ReplaceFrom(propertyName, 0))
  }

  // ---------------------------------------------------------------------------
  // The same conversion stated position by position
  // ---------------------------------------------------------------------------

  /**
   * A hyphen goes before s[i] when i is not the first offset, s[i] is an
   * uppercase letter or digit, and it is followed or preceded by a lowercase letter.
   */
  predicate HyphenBefore(s: string, i: nat) {
    0 < i < |s| && IsUpperOrDigit(s[i]) &&
    ((i + 1 < |s| && IsAsciiLower(s[i + 1])) || IsAsciiLower(s[i - 1]))
  }

  /** Every character of s from offset i on, lowered, with a hyphen before it where HyphenBefore holds. */
  function Kebab(s: string, i: nat): string
    decreases |s| - i
  {
    if i >= |s| then []
    else (if HyphenBefore(s, i) then "-" else "") + [ToLowerChar(s[i])] + Kebab(s, i + 1)
  }

  /** `strtolower` of a short literal prefix, character by character. */
  lemma LowerPrefix(p: string, rest: string)
    ensures StrToLower(p + rest) == seq(|p|, k requires 0 <= k < |p| => ToLowerChar(p[k])) + StrToLower(rest)
  {
    StrToLowerConcat(p, rest);
  }

  lemma {:induction false} ReplaceFromFollowsRule(s: string, i: nat)
    ensures StrToLower(ReplaceFrom(s, i)) == Kebab(s, i)
    decreases |s| - i
  {
    if i >= |s| {
    } else if PairMatchAt(s, i) {
      PairStep(s, i);
    } else if LookbehindMatchAt(s, i) {
      LookbehindStep(s, i);
    } else {
      NoMatchStep(s, i);
    }
  }

  /** A one-character match: a hyphen, then the character. */
  lemma {:induction false} LookbehindStep(s: string, i: nat)
    requires !PairMatchAt(s, i) && LookbehindMatchAt(s, i)
    ensures StrToLower(ReplaceFrom(s, i)) == Kebab(s, i)
    decreases |s| - i, 0
  {
    ReplaceFromFollowsRule(s, i + 1);
    assert ReplaceFrom(s, i) == ['-', s[i]] + ReplaceFrom(s, i + 1);
    LowerPrefix(['-', s[i]], ReplaceFrom(s, i + 1));
    assert HyphenBefore(s, i);
    assert Kebab(s, i) == "-" + [ToLowerChar(s[i])] + Kebab(s, i + 1);
  }

  /** No match: the character is kept. */
  lemma {:induction false} NoMatchStep(s: string, i: nat)
    requires i < |s| && !PairMatchAt(s, i) && !LookbehindMatchAt(s, i)
    ensures StrToLower(ReplaceFrom(s, i)) == Kebab(s, i)
    decreases |s| - i, 0
  {
    ReplaceFromFollowsRule(s, i + 1);
    assert ReplaceFrom(s, i) == [s[i]] + ReplaceFrom(s, i + 1);
    LowerPrefix([s[i]], ReplaceFrom(s, i + 1));
    assert !HyphenBefore(s, i);
    assert Kebab(s, i) == [ToLowerChar(s[i])] + Kebab(s, i + 1);
  }

  /** A two-character match: its lowercase second character can never start a match itself. */
  lemma {:induction false} PairStep(s: string, i: nat)
    requires PairMatchAt(s, i)
    ensures StrToLower(ReplaceFrom(s, i)) == Kebab(s, i)
    decreases |s| - i, 0
  {
    ReplaceFromFollowsRule(s, i + 2);
    assert ReplaceFrom(s, i) == ['-', s[i], s[i + 1]] + ReplaceFrom(s, i + 2);
    LowerPrefix(['-', s[i], s[i + 1]], ReplaceFrom(s, i + 2));
    assert HyphenBefore(s, i) && !HyphenBefore(s, i + 1);
    assert Kebab(s, i + 1) == [ToLowerChar(s[i + 1])] + Kebab(s, i + 2);
    assert Kebab(s, i) == "-" + [ToLowerChar(s[i])] + Kebab(s, i + 1);
  }

  /**
   * The left-to-right, non-overlapping regex replacement puts a hyphen before
   * exactly the characters HyphenBefore selects, and lowers every character.
   */
  lemma ConvertFollowsHyphenRule(s: string)
    ensures ConvertToCSSVariableName(s) == Kebab(s, 0)
  {
    ReplaceFromFollowsRule(s, 0);
  }

  /** t is u with zero or more hyphens inserted, each directly before a character of u. */
  predicate HyphensInserted(t: string, u: string)
    decreases |u|
  {
    if |u| == 0 then |t| == 0
    else
      || (|t| > 0 && t[0] == u[0] && HyphensInserted(t[1..], u[1..]))
      || (|t| > 1 && t[0] == '-' && t[1] == u[0] && HyphensInserted(t[2..], u[1..]))
  }

  lemma {:induction false} KebabInsertsHyphens(s: string, i: nat)
    requires i <= |s|
    ensures HyphensInserted(Kebab(s, i), StrToLower(s)[i..])
    decreases |s| - i
  {
    if i < |s| {
      KebabInsertsHyphens(s, i + 1);
      var u := StrToLower(s)[i..];
      assert u[0] == ToLowerChar(s[i]) && u[1..] == StrToLower(s)[i + 1..];
      var t := Kebab(s, i);
      if HyphenBefore(s, i) {
        assert t[2..] == Kebab(s, i + 1);
      } else {
        assert t[1..] == Kebab(s, i + 1);
      }
    }
  }

  /**
   * The converted name is the lowered input with hyphens inserted, and no
   * hyphen is inserted before the first character.
   */
  lemma ConvertOnlyInsertsHyphens(s: string)
    ensures HyphensInserted(ConvertToCSSVariableName(s), StrToLower(s))
    ensures |s| > 0 ==> ConvertToCSSVariableName(s)[0] == ToLowerChar(s[0])
  {
    ConvertFollowsHyphenRule(s);
    KebabInsertsHyphens(s, 0);
    assert StrToLower(s)[0..] == StrToLower(s);
  }

  lemma {:induction false} KebabKeepsPlainSuffix(s: string, i: nat)
    requires i <= |s|
    requires forall j :: 0 <= j < |s| ==> !IsAsciiUpper(s[j]) && !IsAsciiDigit(s[j])
    ensures Kebab(s, i) == s[i..]
    decreases |s| - i
  {
    if i < |s| {
      KebabKeepsPlainSuffix(s, i + 1);
      assert s[i..] == [s[i]] + s[i + 1..];
    }
  }

  /** A name without ASCII uppercase letters and digits comes back unchanged. */
  lemma ConvertKeepsPlainNames(s: string)
    requires forall j :: 0 <= j < |s| ==> !IsAsciiUpper(s[j]) && !IsAsciiDigit(s[j])
    ensures ConvertToCSSVariableName(s) == s
  {
    ConvertFollowsHyphenRule(s);
    KebabKeepsPlainSuffix(s, 0);
  }

  lemma KebabExamplePrimaryColor(s: string)
    requires s == "primaryColor"
    ensures Kebab(s, 0) == "primary-color"
  {
    assert Kebab(s, 12) == "";
    assert Kebab(s, 11) == "r";
    assert Kebab(s, 10) == "or";
    assert Kebab(s, 9) == "lor";
    assert Kebab(s, 8) == "olor";
    assert Kebab(s, 7) == "-color";
    assert Kebab(s, 6) == "y-color";
    assert Kebab(s, 5) == "ry-color";
    assert Kebab(s, 4) == "ary-color";
    assert Kebab(s, 3) == "mary-color";
    assert Kebab(s, 2) == "imary-color";
    assert Kebab(s, 1) == "rimary-color";
    assert Kebab(s, 0) == "primary-color";
  }

  /** Worked example: a single camel-case boundary. */
  lemma ConvertExamplePrimaryColor(s: string)
    requires s == "primaryColor"
    ensures ConvertToCSSVariableName(s) == "primary-color"
  {
    ConvertFollowsHyphenRule(s);
    KebabExamplePrimaryColor(s);
  }

  lemma KebabExampleAcronym(s: string)
    requires s == "HTMLColor"
    ensures Kebab(s, 0) == "html-color"
  {
    assert Kebab(s, 9) == "";
    assert Kebab(s, 8) == "r";
    assert Kebab(s, 7) == "or";
    assert Kebab(s, 6) == "lor";
    assert Kebab(s, 5) == "olor";
    assert Kebab(s, 4) == "-color";
    assert Kebab(s, 3) == "l-color";
    assert Kebab(s, 2) == "ml-color";
    assert Kebab(s, 1) == "tml-color";
    assert Kebab(s, 0) == "html-color";
  }

  /**
   * Worked example: an uppercase run at the start of the name gets no hyphen of its
   * own; the one hyphen goes before `C`, which starts `Color`.
   */
  lemma ConvertExampleAcronym(s: string)
    requires s == "HTMLColor"
    ensures ConvertToCSSVariableName(s) == "html-color"
  {
    ConvertFollowsHyphenRule(s);
    KebabExampleAcronym(s);
  }

  lemma KebabExampleTrailingDigit(s: string)
    requires s == "bgColor2"
    ensures Kebab(s, 0) == "bg-color-2"
  {
    assert Kebab(s, 8) == "";
    assert Kebab(s, 7) == "-2";
    assert Kebab(s, 6) == "r-2";
    assert Kebab(s, 5) == "or-2";
    assert Kebab(s, 4) == "lor-2";
    assert Kebab(s, 3) == "olor-2";
    assert Kebab(s, 2) == "-color-2";
    assert Kebab(s, 1) == "g-color-2";
    assert Kebab(s, 0) == "bg-color-2";
  }

  /** Worked example: a digit after a lowercase letter gets its own hyphen. */
  lemma ConvertExampleTrailingDigit(s: string)
    requires s == "bgColor2"
    ensures ConvertToCSSVariableName(s) == "bg-color-2"
  {
    ConvertFollowsHyphenRule(s);
    KebabExampleTrailingDigit(s);
  }

  lemma KebabExampleInnerDigit(s: string)
    requires s == "bg2Color"
    ensures Kebab(s, 0) == "bg-2-color"
  {
    assert Kebab(s, 8) == "";
    assert Kebab(s, 7) == "r";
    assert Kebab(s, 6) == "or";
    assert Kebab(s, 5) == "lor";
    assert Kebab(s, 4) == "olor";
    assert Kebab(s, 3) == "-color";
    assert Kebab(s, 2) == "-2-color";
    assert Kebab(s, 1) == "g-2-color";
    assert Kebab(s, 0) == "bg-2-color";
  }

  /** Worked example: a digit after a lowercase letter gets a hyphen, and so does the word after it. */
  lemma ConvertExampleInnerDigit(s: string)
    requires s == "bg2Color"
    ensures ConvertToCSSVariableName(s) == "bg-2-color"
  {
    ConvertFollowsHyphenRule(s);
    KebabExampleInnerDigit(s);
  }

  lemma KebabHyphenatedDigit(s: string)
    requires s == "a-2b"
    ensures Kebab(s, 0) == "a--2b"
  {
    assert Kebab(s, 4) == "";
    assert Kebab(s, 3) == "b";
    assert Kebab(s, 2) == "-2b";
    assert Kebab(s, 1) == "--2b";
    assert Kebab(s, 0) == "a--2b";
  }

  lemma ConvertHyphenatedDigit(s: string)
    requires s == "a-2b"
    ensures ConvertToCSSVariableName(s) == "a--2b"
  {
    ConvertFollowsHyphenRule(s);
    KebabHyphenatedDigit(s);
  }

  /** The conversion is not idempotent: a digit followed by a lowercase letter gains a hyphen each time. */
  lemma KebabDigitBeforeLowercase(s: string)
    requires s == "a2b"
    ensures Kebab(s, 0) == "a-2b"
  {
    assert Kebab(s, 3) == "";
    assert Kebab(s, 2) == "b";
    assert Kebab(s, 1) == "-2b";
    assert Kebab(s, 0) == "a-2b";
  }

  lemma ConvertIsNotIdempotent(s: string)
    requires s == "a2b"
    ensures ConvertToCSSVariableName(s) == "a-2b"
    ensures ConvertToCSSVariableName(ConvertToCSSVariableName(s)) == "a--2b"
  {
    ConvertFollowsHyphenRule(s);
    KebabDigitBeforeLowercase(s);
    ConvertHyphenatedDigit(ConvertToCSSVariableName(s));
  }

  // ---------------------------------------------------------------------------
  // Units, colour properties, declarations
  // ---------------------------------------------------------------------------

  /** `getPropertyUnit`: the configured `editorOptions.unit` when it is truthy, else ''. */
  function GetPropertyUnit(propertyName: string, nodeType: NodeType): (unit: string)
    ensures IsTruthy(ConfiguredUnit(nodeType, propertyName)) ==> unit == ConfiguredUnit(nodeType, propertyName).value
    ensures !IsTruthy(ConfiguredUnit(nodeType, propertyName)) ==> unit == ""
    ensures unit == "" || IsTruthyString(unit)
  {
    ShortTernary(ConfiguredUnit(nodeType, propertyName), Some("")).value
  }

  /** `isColorProperty`: the configured `options.preset` is exactly the colour-picker preset. */
  function IsColorProperty(propertyName: string, propertiesConfiguration: map<string, PropertyConfig>): (b: bool)
    ensures b <==> propertyName in propertiesConfiguration
                   && propertiesConfiguration[propertyName].preset == Some(ColorPickerPreset)
  {
    ConfiguredPreset(propertiesConfiguration, propertyName) == Some(ColorPickerPreset)
  }

  /** `convertToCSSVariableDefinition`: `--<name>:<value><unit>`, without a trailing ';'. */
  function ConvertToCSSVariableDefinition(propertyName: string, value: string, nodeType: NodeType): (decl: string)
    ensures decl == "--" + ConvertToCSSVariableName(propertyName) + ":" + value + GetPropertyUnit(propertyName, nodeType)
    ensures |decl| >= 3 && decl[..2] == "--"
  {
    var cssVariableName := ConvertToCSSVariableName(propertyName);
    var propertyUnit := GetPropertyUnit(propertyName, nodeType);
    "--" + cssVariableName + ":" + value + propertyUnit
  }
}
