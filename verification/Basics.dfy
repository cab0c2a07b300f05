/** Notions shared by the models: optional values, lists without repetition, texts within texts. */
module Basics {

  datatype Option<T> = None | Some(value: T)

  function Min(x: nat, y: nat): (m: nat) { if x < y then x else y }

  predicate Distinct<T(==)>(xs: seq<T>) {
    forall i, j :: 0 <= i < j < |xs| ==> xs[i] != xs[j]
  }

  predicate OccursAt(pat: string, s: string, i: int) {
    0 <= i <= |s| && pat <= s[i..]
  }

  predicate Occurs(pat: string, s: string) {
    exists i :: 0 <= i <= |s| && OccursAt(pat, s, i)
  }
}
