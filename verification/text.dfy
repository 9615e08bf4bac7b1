/**
 * String helpers the source takes from JavaScript's `String.prototype`:
 * `toLowerCase`, `includes`, `indexOf` and the decimal rendering of an index.
 */
module Text {

  import opened Options

  /** Lower-cases one character; only the ASCII letters A-Z are mapped. */
  function LowerChar(c: char): (r: char)
    ensures 'A' <= c <= 'Z' ==> r as int == c as int + 32
    ensures !('A' <= c <= 'Z') ==> r == c
    ensures !('A' <= r <= 'Z')
  {
    if 'A' <= c <= 'Z' then (c as int + 32) as char else c
  }

  /** `s.toLowerCase()`, restricted to ASCII letters. */
  function ToLower(s: string): (r: string)
    ensures |r| == |s|
    ensures forall i :: 0 <= i < |s| ==> r[i] == LowerChar(s[i])
  {
    if s == [] then [] else [LowerChar(s[0])] + ToLower(s[1..])
  }

  /** Lower-casing twice is lower-casing once. */
  lemma ToLowerIdempotent(s: string)
    ensures ToLower(ToLower(s)) == ToLower(s)
  {
  }

  /** `pat` occurs in `s` starting at position `i`. */
  predicate OccursAt(s: string, pat: string, i: nat) {
    i + |pat| <= |s| && s[i..i + |pat|] == pat
  }

  /** `s.includes(sub)`. */
  predicate Contains(s: string, sub: string) {
    exists i: nat :: i <= |s| && OccursAt(s, sub, i)
  }

  /**
   * `s.indexOf(pat)`: the position of the first occurrence of `pat` in `s`
   * at or after `from`, or None when there is none.
   */
  function FindFirstFrom(s: string, pat: string, from: nat): (r: Option<nat>)
    requires from <= |s|
    ensures r.Some? ==> from <= r.value <= |s| && OccursAt(s, pat, r.value)
    ensures r.Some? ==> forall j: nat :: from <= j < r.value ==> !OccursAt(s, pat, j)
    ensures r.None? ==> forall j: nat :: from <= j <= |s| ==> !OccursAt(s, pat, j)
    decreases |s| - from
  {
    if OccursAt(s, pat, from) then Some(from)
    else if from == |s| then None
    else FindFirstFrom(s, pat, from + 1)
  }

  /** `s.indexOf(pat)` from the start of `s`. */
  function FindFirst(s: string, pat: string): (r: Option<nat>)
    ensures r.Some? ==> r.value <= |s| && OccursAt(s, pat, r.value)
    ensures r.Some? ==> forall j: nat :: j < r.value ==> !OccursAt(s, pat, j)
    ensures r.None? <==> !Contains(s, pat)
  {
    FindFirstFrom(s, pat, 0)
  }

  /** The decimal digit for `d`. */
  function Digit(d: nat): (c: char)
    requires d < 10
    ensures '0' <= c <= '9'
  {
    ('0' as int + d) as char
  }

  /** `String(n)` for a non-negative integer: its decimal digits, most significant first. */
  function NatToString(n: nat): (r: string)
    ensures |r| > 0
    ensures forall i :: 0 <= i < |r| ==> '0' <= r[i] <= '9'
  {
    if n < 10 then [Digit(n)] else NatToString(n / 10) + [Digit(n % 10)]
  }

  /** The elements of a list, as a set. */
  function Elements(list: seq<string>): (r: set<string>)
    ensures forall x :: x in r <==> x in list
  {
    set x | x in list
  }

  /** No element occurs twice in the list. */
  predicate NoDuplicates(list: seq<string>) {
    forall i, j :: 0 <= i < j < |list| ==> list[i] != list[j]
  }

  /**
   * Some listing of a finite set of strings: each element exactly once, in an
   * order the model leaves open (`Array.from` of a set, or the keys a
   * `for...in` loop visits).
   */
  method Enumerate(s: set<string>) returns (list: seq<string>)
    ensures NoDuplicates(list) && Elements(list) == s
  {
    var rest := s;
    list := [];
    while rest != {}
      invariant Elements(list) + rest == s
      invariant Elements(list) !! rest
      invariant NoDuplicates(list)
      decreases rest
    {
      var x :| x in rest;
      list := list + [x];
      rest := rest - {x};
    }
  }
}
