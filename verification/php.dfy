/**
 * The few PHP language semantics the theme builder relies on: truthiness of
 * strings, the short ternary `?:`, null coalescing `??`, `strtolower` and
 * `implode`. Values are strings or null; other PHP types are not modelled.
 */
module Php {
  import opened Wrappers

  /** A PHP string is falsy exactly when it is '' or '0'. */
  predicate IsTruthyString(s: string) {
    s != "" && s != "0"
  }

  /** A possibly-null value is truthy when it is a truthy string. */
  predicate IsTruthy(v: Option<string>) {
    v.Some? && IsTruthyString(v.value)
  }

  /** `a ?: b`: `a` when it is truthy, otherwise `b`. */
  function ShortTernary(a: Option<string>, b: Option<string>): Option<string> {
    if IsTruthy(a) then a else b
  }

  /** `a ?? b`: `a` unless it is null. */
  function Coalesce<T>(a: Option<T>, b: T): T {
    if a.Some? then a.value else b
  }

  predicate IsAsciiUpper(c: char) { 'A' <= c <= 'Z' }

  predicate IsAsciiLower(c: char) { 'a' <= c <= 'z' }

  predicate IsAsciiDigit(c: char) { '0' <= c <= '9' }

  /** `strtolower` on one character: ASCII letters only, everything else is kept. */
  function ToLowerChar(c: char): (d: char)
    ensures !IsAsciiUpper(d)
    ensures IsAsciiUpper(c) ==> IsAsciiLower(d) && d as int == c as int + 32
    ensures !IsAsciiUpper(c) ==> d == c
  {
    if IsAsciiUpper(c) then (c as int + 32) as char else c
  }

  /** `strtolower`, character by character. */
  function StrToLower(s: string): (r: string)
    ensures |r| == |s|
    ensures forall i :: 0 <= i < |s| ==> r[i] == ToLowerChar(s[i])
  {
    seq(|s|, i requires 0 <= i < |s| => ToLowerChar(s[i]))
  }

  lemma StrToLowerConcat(a: string, b: string)
    ensures StrToLower(a + b) == StrToLower(a) + StrToLower(b)
  {
    assert forall i :: 0 <= i < |a + b| ==> StrToLower(a + b)[i] == (StrToLower(a) + StrToLower(b))[i];
  }

  /** `implode(glue, pieces)`: the pieces joined, with `glue` only between two of them. */
  function Implode(glue: string, pieces: seq<string>): (r: string)
    ensures |pieces| == 0 ==> r == ""
    ensures |pieces| > 0 ==> |pieces[0]| <= |r| && r[..|pieces[0]|] == pieces[0]
  {
    if |pieces| == 0 then ""
    else if |pieces| == 1 then pieces[0]
    else pieces[0] + glue + Implode(glue, pieces[1..])
  }

  /** Joining one more piece appends the glue and that piece. */
  lemma {:induction false} ImplodeAppend(glue: string, pieces: seq<string>, last: string)
    requires |pieces| > 0
    ensures Implode(glue, pieces + [last]) == Implode(glue, pieces) + glue + last
  {
    if |pieces| == 1 {
      assert pieces + [last] == [pieces[0], last];
    } else {
      assert (pieces + [last])[1..] == pieces[1..] + [last];
      ImplodeAppend(glue, pieces[1..], last);
    }
  }

  /**
   * `array_filter` over a list whose dropped elements are null, for the first
   * k elements: the remaining ones keep their keys, in key order.
   */
  function ArrayFilter<T>(mapped: seq<Option<T>>, k: nat): (kept: seq<(nat, T)>)
    requires k <= |mapped|
    ensures forall e :: 0 <= e < |kept| ==> kept[e].0 < k && mapped[kept[e].0] == Some(kept[e].1)
    ensures forall e, f :: 0 <= e < f < |kept| ==> kept[e].0 < kept[f].0
    ensures forall i :: 0 <= i < k && mapped[i].Some? ==> exists e :: 0 <= e < |kept| && kept[e].0 == i
    decreases k
  {
    if k == 0 then []
    else
      var earlier := ArrayFilter(mapped, k - 1);
      match mapped[k - 1]
      case None => earlier
      case Some(x) =>
        var kept := earlier + [(k - 1, x)];
        assert kept[|earlier|].0 == k - 1;
        assert forall e :: 0 <= e < |earlier| ==> kept[e] == earlier[e];
        kept
  }
}
