/**
 * The few pieces of the PHP runtime that the SOAP data source relies on:
 * dynamically typed values with PHP's truthiness rule, ASCII case folding,
 * and `strripos`, the case-insensitive search for the LAST occurrence of a
 * needle in a haystack.
 */
module Php {

  datatype Option<+T> = None | Some(value: T)

  /** A PHP value, as far as configuration entries and SOAP payloads need one. */
  datatype Value =
    | Null
    | Bool(b: bool)
    | Int(i: int)
    | Str(s: string)
    | Array(entries: seq<(Value, Value)>)

  /** The values of this type that PHP converts to `false`. */
  const FalsyValues: set<Value> := {Null, Bool(false), Int(0), Str(""), Str("0"), Array([])}

  /**
   * PHP's conversion to boolean: `false`, `0`, `""`, `"0"`, `null` and the
   * empty array are falsy, every other value of this type is truthy.
   */
  predicate Truthy(v: Value)
    ensures Truthy(v) <==> v !in FalsyValues
  {
    match v
    case Null => false
    case Bool(b) => b
    case Int(i) => i != 0
    case Str(s) => s != "" && s != "0"
    case Array(entries) => entries != []
  }

  /** The value `strripos` returns: the position found, or `false`. */
  function Position(p: Option<nat>): (v: Value)
    ensures Truthy(v) <==> p.Some? && p.value > 0
  {
    match p
    case None => Bool(false)
    case Some(i) => Int(i)
  }

  /** ASCII lower-casing of one character; every other character is kept. */
  function Lower(c: char): (l: char)
    ensures 'A' <= c <= 'Z' ==> 'a' <= l <= 'z' && l as int - c as int == 32
    ensures !('A' <= c <= 'Z') ==> l == c
  {
    if 'A' <= c <= 'Z' then (c as int + 32) as char else c
  }

  /** Two strings that differ at most in the letter case of their characters. */
  predicate SameIgnoringCase(a: string, b: string)
  {
    |a| == |b| && forall k :: 0 <= k < |a| ==> Lower(a[k]) == Lower(b[k])
  }

  /** `needle` occurs in `haystack` at index `i`, ignoring letter case. */
  predicate OccursAt(haystack: string, needle: string, i: nat)
  {
    i + |needle| <= |haystack| &&
    forall k :: 0 <= k < |needle| ==> Lower(haystack[i + k]) == Lower(needle[k])
  }

  /** The highest index at or below `i` where `needle` occurs. */
  function LastOccurrenceFrom(haystack: string, needle: string, i: nat): (r: Option<nat>)
    ensures r.Some? ==> r.value <= i && OccursAt(haystack, needle, r.value)
    ensures r.Some? ==> forall j: nat :: r.value < j <= i ==> !OccursAt(haystack, needle, j)
    ensures r.None? ==> forall j: nat :: j <= i ==> !OccursAt(haystack, needle, j)
    decreases i
  {
    if OccursAt(haystack, needle, i) then Some(i)
    else if i == 0 then None
    else LastOccurrenceFrom(haystack, needle, i - 1)
  }

  /**
   * `strripos(haystack, needle)`: the index of the last case-insensitive
   * occurrence of `needle`, or none when there is no occurrence (in
   * particular when the needle is longer than the haystack).
   */
  function StrRiPos(haystack: string, needle: string): (r: Option<nat>)
    requires needle != []
    ensures r.Some? ==> OccursAt(haystack, needle, r.value)
    ensures r.Some? ==> forall j: nat :: r.value < j ==> !OccursAt(haystack, needle, j)
    ensures r.None? <==> forall j: nat :: !OccursAt(haystack, needle, j)
  {
    if |needle| > |haystack| then None
    else LastOccurrenceFrom(haystack, needle, |haystack| - |needle|)
  }

  /** Whether `needle` occurs at an index is blind to the letter case of both strings. */
  lemma OccursAtIgnoresCase(h1: string, h2: string, n1: string, n2: string, i: nat)
    requires SameIgnoringCase(h1, h2) && SameIgnoringCase(n1, n2)
    ensures OccursAt(h1, n1, i) <==> OccursAt(h2, n2, i)
  {
  }

  /** `strripos` gives the same answer when either string changes letter case. */
  lemma StrRiPosIgnoresCase(h1: string, h2: string, n1: string, n2: string)
    requires n1 != [] && SameIgnoringCase(h1, h2) && SameIgnoringCase(n1, n2)
    ensures StrRiPos(h1, n1) == StrRiPos(h2, n2)
  {
    forall j: nat ensures OccursAt(h1, n1, j) <==> OccursAt(h2, n2, j) {
      OccursAtIgnoresCase(h1, h2, n1, n2, j);
    }
    var r1, r2 := StrRiPos(h1, n1), StrRiPos(h2, n2);
    if r1.Some? {
      assert OccursAt(h2, n2, r1.value);
      assert r2.Some?;
      assert !(r1.value < r2.value) by { assert OccursAt(h1, n1, r2.value); }
      assert !(r2.value < r1.value);
    }
  }
}
