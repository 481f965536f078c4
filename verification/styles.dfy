/**
 * The Fusion object that merges its nested properties into an inline CSS
 * style string: an `array_reduce` over the entries that appends `key:value;`
 * for every entry whose value is not null.
 */
module Styles {
  import opened Wrappers

  /** The evaluated nested properties, in key order; None is a null value. */
  type StyleEntries = seq<(string, Option<string>)>

  /** The reduce callback: append `key:value;` unless the value is null. */
  function AppendStyle(carry: string, key: string, value: Option<string>): string {
    if value.Some? then carry + key + ":" + value.value + ";" else carry
  }

  /** `array_reduce(array_keys($styles), callback, carry)`: a left fold. */
  function Reduce(carry: string, entries: StyleEntries): string
    decreases |entries|
  {
    if |entries| == 0 then carry
    else Reduce(AppendStyle(carry, entries[0].0, entries[0].1), entries[1..])
  }

  /**
   * `evaluate`: the fold, starting from ''. The style string is the concatenation,
   * in key order, of `key:value;` for every non-null entry.
   */
  function Evaluate(entries: StyleEntries): (css: string)
    ensures |entries| == 0 ==> css == ""
    ensures css == Declarations(entries)
  {
    ReduceAppendsDeclarations("", entries);
    Reduce("", entries)
  }

  /** Reference: the declaration each entry stands for, concatenated in order. */
  function Declarations(entries: StyleEntries): string
    decreases |entries|
  {
    if |entries| == 0 then ""
    else
      var (key, value) := entries[0];
      (if value.Some? then key + ":" + value.value + ";" else "") + Declarations(entries[1..])
  }

  lemma {:induction false} ReduceAppendsDeclarations(carry: string, entries: StyleEntries)
    ensures Reduce(carry, entries) == carry + Declarations(entries)
    decreases |entries|
  {
    if |entries| > 0 {
      var (key, value) := entries[0];
      ReduceAppendsDeclarations(AppendStyle(carry, key, value), entries[1..]);
    }
  }

  lemma {:induction false} DeclarationsAppend(entries: StyleEntries, key: string, value: Option<string>)
    ensures Declarations(entries + [(key, value)])
         == Declarations(entries) + (if value.Some? then key + ":" + value.value + ";" else "")
    decreases |entries|
  {
    if |entries| > 0 {
      assert (entries + [(key, value)])[1..] == entries[1..] + [(key, value)];
      DeclarationsAppend(entries[1..], key, value);
    } else {
      assert entries + [(key, value)] == [(key, value)];
    }
  }

  /** One more entry appends exactly `key:value;`, or nothing when its value is null. */
  lemma EvaluateAppend(entries: StyleEntries, key: string, value: Option<string>)
    ensures Evaluate(entries + [(key, value)])
         == Evaluate(entries) + (if value.Some? then key + ":" + value.value + ";" else "")
  {
    DeclarationsAppend(entries, key, value);
  }

  lemma {:induction false} DeclarationsShape(entries: StyleEntries)
    ensures Declarations(entries) == "" <==> forall k :: 0 <= k < |entries| ==> entries[k].1.None?
    ensures Declarations(entries) != "" ==> Declarations(entries)[|Declarations(entries)| - 1] == ';'
    decreases |entries|
  {
    if |entries| > 0 {
      DeclarationsShape(entries[1..]);
      assert forall k :: 1 <= k < |entries| ==> entries[k] == entries[1..][k - 1];
    }
  }

  /**
   * The result is '' exactly when every value is null (an empty value still
   * gives `key:;`), and otherwise ends with ';'.
   */
  lemma EvaluateShape(entries: StyleEntries)
    ensures Evaluate(entries) == "" <==> forall k :: 0 <= k < |entries| ==> entries[k].1.None?
    ensures Evaluate(entries) != "" ==> Evaluate(entries)[|Evaluate(entries)| - 1] == ';'
  {
    DeclarationsShape(entries);
  }

  /** An empty value is not dropped: it renders as `key:;`. */
  lemma EmptyValueIsKept(key: string)
    ensures Evaluate([(key, Some(""))]) == key + ":;"
  {
    EvaluateAppend([], key, Some(""));
    assert [] + [(key, Some(""))] == [(key, Some(""))];
  }
}
