/**
 * The string helpers the component code calls. `String.isBlank` and
 * `Character.isWhitespace` are Java's own; `defaultString` and
 * `concatOptional` belong to the operator's utility class, which is not part
 * of this model, so their definitions here are the behaviour the model
 * ASSUMES of them (README.md lists these assumptions).
 */
module Utils {
  import opened Common

  /** Java's `Character.isWhitespace`, by code point. */
  predicate IsWhitespace(ch: char) {
    var c := ch as int;
    || c == 0x20 || 0x09 <= c <= 0x0D || 0x1C <= c <= 0x1F
    || c == 0x1680 || 0x2000 <= c <= 0x2006 || 0x2008 <= c <= 0x200A
    || c == 0x2028 || c == 0x2029 || c == 0x205F || c == 0x3000
  }

  /** Java's `String.isBlank`: empty, or whitespace only. */
  predicate IsBlank(s: string) {
    forall i :: 0 <= i < |s| ==> IsWhitespace(s[i])
  }

  /** Null, or a blank string. */
  predicate IsNullOrBlank(s: JString) {
    s.None? || IsBlank(s.value)
  }

  /** Candidate `i` is non-empty and every candidate before it is null or empty. */
  predicate IsFirstNonEmptyAt(candidates: seq<JString>, i: int) {
    && 0 <= i < |candidates|
    && NonEmpty(candidates[i])
    && forall j :: 0 <= j < i ==> !NonEmpty(candidates[j])
  }

  /** Position of the first non-empty candidate; `|candidates|` when there is none. */
  function FirstNonEmpty(candidates: seq<JString>): (i: nat)
    ensures i <= |candidates|
    ensures i < |candidates| ==> IsFirstNonEmptyAt(candidates, i)
    ensures i == |candidates| ==> forall j :: 0 <= j < |candidates| ==> !NonEmpty(candidates[j])
  {
    if |candidates| == 0 then 0
    else if NonEmpty(candidates[0]) then 0
    else
      var k := FirstNonEmpty(candidates[1..]);
      assert forall j :: 1 <= j < |candidates| ==> candidates[j] == candidates[1..][j - 1];
      1 + k
  }

  /**
   * `defaultString(a, b, ...)`, assumed to return the first argument that is
   * neither null nor empty, and null when there is none.
   */
  function DefaultString(candidates: seq<JString>): (r: JString)
    ensures r.None? <==> forall j :: 0 <= j < |candidates| ==> !NonEmpty(candidates[j])
    ensures r.Some? ==> NonEmpty(r)
    ensures forall j :: IsFirstNonEmptyAt(candidates, j) ==> r == candidates[j]
  {
    var i := FirstNonEmpty(candidates);
    if i < |candidates| then candidates[i] else None
  }

  /**
   * `defaultString(instance, defaults, fallback)`: the three-level defaulting
   * used for image fields, in which the first level always wins when set.
   */
  function ThreeLevel(instance: JString, defaults: JString, fallback: JString): (r: JString)
    ensures NonEmpty(instance) ==> r == instance
    ensures !NonEmpty(instance) && NonEmpty(defaults) ==> r == defaults
    ensures !NonEmpty(instance) && !NonEmpty(defaults) ==> r == (if NonEmpty(fallback) then fallback else None)
  {
    var candidates := [instance, defaults, fallback];
    assert NonEmpty(instance) ==> IsFirstNonEmptyAt(candidates, 0);
    assert !NonEmpty(instance) && NonEmpty(defaults) ==> IsFirstNonEmptyAt(candidates, 1);
    assert !NonEmpty(instance) && !NonEmpty(defaults) && NonEmpty(fallback) ==> IsFirstNonEmptyAt(candidates, 2);
    DefaultString(candidates)
  }

  /** The separator `concatOptional` is assumed to put between parts. */
  const NameSeparator := "-"

  /** The parts that are neither null nor empty, in their order. */
  function PresentParts(parts: seq<JString>): (r: seq<string>)
    ensures |r| <= |parts|
    ensures forall i :: 0 <= i < |r| ==> |r[i]| > 0
  {
    if |parts| == 0 then []
    else (if NonEmpty(parts[0]) then [parts[0].value] else []) + PresentParts(parts[1..])
  }

  /** `xs` with `sep` between neighbouring elements. */
  function Join(xs: seq<string>, sep: string): string {
    if |xs| == 0 then ""
    else if |xs| == 1 then xs[0]
    else xs[0] + sep + Join(xs[1..], sep)
  }

  /** `concatOptional(parts...)`, assumed to join the non-empty parts with the separator. */
  function ConcatOptional(parts: seq<JString>): string {
    Join(PresentParts(parts), NameSeparator)
  }

  /** The four cases of joining two optional parts. */
  lemma ConcatTwo(a: JString, b: JString)
    ensures NonEmpty(a) && NonEmpty(b) ==> ConcatOptional([a, b]) == a.value + NameSeparator + b.value
    ensures NonEmpty(a) && !NonEmpty(b) ==> ConcatOptional([a, b]) == a.value
    ensures !NonEmpty(a) && NonEmpty(b) ==> ConcatOptional([a, b]) == b.value
    ensures !NonEmpty(a) && !NonEmpty(b) ==> ConcatOptional([a, b]) == ""
  {
    assert [a, b][1..] == [b];
    assert [b][1..] == [];
    var pa := if NonEmpty(a) then [a.value] else [];
    var pb := if NonEmpty(b) then [b.value] else [];
    assert PresentParts([b]) == pb + PresentParts([]);
    assert PresentParts([a, b]) == pa + pb;
    if NonEmpty(a) && NonEmpty(b) {
      var xs := [a.value, b.value];
      assert xs[1..] == [b.value];
      assert Join(xs, NameSeparator) == a.value + NameSeparator + Join([b.value], NameSeparator);
    }
  }
}
