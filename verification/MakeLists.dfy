/** Word lists in make: the list functions of Common.mk. A list is a sequence of words. */
module MakeLists {
  import opened Basics

  /** list-rem: all words but the first. */
  function ListRem<T>(xs: seq<T>): (r: seq<T>) { if xs == [] then [] else xs[1..] }

  /** pairmap stops with the shorter list. */
  function PairMap<T>(f: (string, string) -> T, a: seq<string>, b: seq<string>): (r: seq<T>)
    decreases |a|
  {
    if a == [] || b == [] then [] else [f(a[0], b[0])] + PairMap(f, ListRem(a), ListRem(b))
  }

  lemma {:induction false} PairMapIsPointwise<T>(f: (string, string) -> T, a: seq<string>, b: seq<string>)
    ensures |PairMap(f, a, b)| == Min(|a|, |b|)
    ensures forall i :: 0 <= i < Min(|a|, |b|) ==> PairMap(f, a, b)[i] == f(a[i], b[i])
    decreases |a|
  {
    if a != [] && b != [] { PairMapIsPointwise(f, a[1..], b[1..]); }
  }

  /** _pos counts the words it drops while the word is still in the list. */
  function PosAcc(x: string, xs: seq<string>, acc: nat): (n: nat)
    decreases |xs|
  {
    if x in xs then PosAcc(x, ListRem(xs), acc + 1) else acc
  }

  function Pos(x: string, xs: seq<string>): (n: nat) { PosAcc(x, xs, 0) }

  /** pos is the one-based index of the last occurrence, and zero for an absent word. */
  lemma {:induction false} PosAccIsLast(x: string, xs: seq<string>, acc: nat)
    ensures x !in xs ==> PosAcc(x, xs, acc) == acc
    ensures x in xs ==>
              var n := PosAcc(x, xs, acc) - acc;
              1 <= n <= |xs| && xs[n - 1] == x && forall j :: n <= j < |xs| ==> xs[j] != x
    decreases |xs|
  {
    if x in xs {
      PosAccIsLast(x, xs[1..], acc + 1);
      if x !in xs[1..] {
        assert xs[0] == x;
        forall j | 1 <= j < |xs| ensures xs[j] != x { assert xs[j] == xs[1..][j - 1]; }
      } else {
        var n := PosAcc(x, xs, acc) - acc;
        assert xs[n - 1] == xs[1..][n - 2];
        forall j | n <= j < |xs| ensures xs[j] != x { assert xs[j] == xs[1..][j - 1]; }
      }
    }
  }

  lemma PosIsLast(x: string, xs: seq<string>)
    ensures Pos(x, xs) == 0 <==> x !in xs
    ensures x in xs ==>
              && 1 <= Pos(x, xs) <= |xs| && xs[Pos(x, xs) - 1] == x
              && forall j :: Pos(x, xs) <= j < |xs| ==> xs[j] != x
  {
    PosAccIsLast(x, xs, 0);
  }

  /** Joins the words selected by keep among the first n, in order. */
  function Pick(xs: seq<string>, n: nat, keep: nat -> bool): (r: seq<string>)
    requires n <= |xs|
  {
    if n == 0 then [] else Pick(xs, n - 1, keep) + (if keep(n - 1) then [xs[n - 1]] else [])
  }

  /** How many of the first n indices are kept: the position of the next pick. */
  function Kept(n: nat, keep: nat -> bool): (c: nat) {
    if n == 0 then 0 else Kept(n - 1, keep) + (if keep(n - 1) then 1 else 0)
  }

  /** Lists picked with one selection are aligned: a kept index sits at the same place in each. */
  lemma {:induction false} PickAt(xs: seq<string>, n: nat, keep: nat -> bool)
    requires n <= |xs|
    ensures |Pick(xs, n, keep)| == Kept(n, keep) <= n
    ensures forall i :: 0 <= i < n && keep(i) ==>
              Kept(i, keep) < Kept(n, keep) && Pick(xs, n, keep)[Kept(i, keep)] == xs[i]
  {
    if n > 0 { PickAt(xs, n - 1, keep); }
  }

  /** Every picked word comes from a kept index. */
  lemma {:induction false} PickFrom(xs: seq<string>, n: nat, keep: nat -> bool, k: nat) returns (i: nat)
    requires n <= |xs| && k < |Pick(xs, n, keep)|
    ensures i < n && keep(i) && Pick(xs, n, keep)[k] == xs[i] && Kept(i, keep) == k
  {
    PickAt(xs, n - 1, keep);
    if keep(n - 1) && k == Kept(n - 1, keep) {
      i := n - 1;
    } else {
      i := PickFrom(xs, n - 1, keep, k);
    }
  }
}
