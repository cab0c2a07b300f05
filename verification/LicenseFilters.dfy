/** The distinct go mod paths of a project, the license package filter of each, and the go mod
    path the license rule finds for a binary. */
module LicenseFilters {
  import opened Basics
  import opened MakeLists
  import opened BinaryGroups
  import opened TargetNames

  /** UNIQ_GO_MOD_PATHS, UNIQ_GO_MOD_TARGET_FILES, the GO_MOD_*_LICENSE_PACKAGE_FILTER variables
      and the GO_MOD_TARGET_FOR_BINARY_* variables. */
  datatype Filters = Filters(
    uniqPaths: seq<string>, uniqFiles: seq<string>,
    filters: map<string, seq<string>>, goModFor: map<string, string>)

  /** What the project sets beforehand: filters of its own, one filter for all, and attribution
      names by upper-case binary name. */
  datatype Settings = Settings(
    preset: map<string, seq<string>>, common: Option<seq<string>>, names: map<string, string>)

  const DEFAULTS := Settings(map[], None, map[])

  function Key(mod: string): (k: string) { Subst('/', '_', mod) }

  function VarName(s: Settings, bin: string): (v: string) {
    ToUpper(if ToUpper(bin) in s.names then s.names[ToUpper(bin)] else bin)
  }

  function Get(m: map<string, seq<string>>, k: string): (ws: seq<string>) { if k in m then m[k] else [] }

  function AddTriple(s: Settings, f: Filters, bin: string, pat: string, mod: string): (f': Filters) {
    var k := Key(mod);
    var known := Get(f.filters, k) != [];
    Filters(
      f.uniqPaths + if known then [] else [mod],
      f.uniqFiles + if known then [] else [bin],
      f.filters[k := Get(f.filters, k) + if s.common.Some? then s.common.value else [pat]],
      f.goModFor[VarName(s, bin) := mod])
  }

  function FiltersAfter(s: Settings, t: Triples, i: nat): (f: Filters)
    requires i <= t.Size()
  {
    if i == 0 then Filters([], [], s.preset, map[])
    else AddTriple(s, FiltersAfter(s, t, i - 1), t.bins[i - 1], t.pats[i - 1], t.mods[i - 1])
  }

  class MakeVars {
    var uniqPaths: seq<string>
    var uniqFiles: seq<string>
    var filters: map<string, seq<string>>
    var goModFor: map<string, string>

    constructor (s: Settings)
      ensures Current() == Filters([], [], s.preset, map[])
    {
      uniqPaths, uniqFiles, filters, goModFor := [], [], s.preset, map[];
    }

    ghost function Current(): (f: Filters)
      reads this
    {
      Filters(uniqPaths, uniqFiles, filters, goModFor)
    }

    /** setup_uniq_go_mod_license_filters. */
    method SetupUniqGoModLicenseFilters(s: Settings, bin: string, pat: string, mod: string)
      modifies this
      ensures Current() == AddTriple(s, old(Current()), bin, pat, mod)
    {
      var k := Key(mod);
      if Get(filters, k) == [] {
        uniqPaths := uniqPaths + [mod];
        uniqFiles := uniqFiles + [bin];
      }
      goModFor := goModFor[VarName(s, bin) := mod];
      filters := filters[k := Get(filters, k) + if s.common.Some? then s.common.value else [pat]];
    }

    method TrimapSetup(s: Settings, bins: seq<string>, pats: seq<string>, mods: seq<string>, ghost t: Triples,
          ghost i: nat)
      requires i <= t.Size() && bins == t.bins[i..] && pats == t.pats[i..] && mods == t.mods[i..]
      requires Current() == FiltersAfter(s, t, i)
      modifies this
      ensures Current() == FiltersAfter(s, t, t.Size())
      decreases |bins|
    {
      if bins != [] && pats != [] && mods != [] {
        NextTriple(s, t, i);
        SetupUniqGoModLicenseFilters(s, bins[0], pats[0], mods[0]);
        assert Current() == FiltersAfter(s, t, i + 1);
        TrimapSetup(s, ListRem(bins), ListRem(pats), ListRem(mods), t, i + 1);
      } else {
        assert i == t.Size();
      }
    }
  }

  lemma NextTriple(s: Settings, t: Triples, i: nat)
    requires i < t.Size()
    ensures FiltersAfter(s, t, i + 1) ==
              AddTriple(s, FiltersAfter(s, t, i), t.bins[i..][0], t.pats[i..][0], t.mods[i..][0])
    ensures ListRem(t.bins[i..]) == t.bins[i + 1..] && ListRem(t.pats[i..]) == t.pats[i + 1..] &&
              ListRem(t.mods[i..]) == t.mods[i + 1..]
  {
  }

  /** The second trimap call of Common.mk, on fresh variables. */
  method SetupAll(s: Settings, t: Triples) returns (vars: MakeVars)
    ensures vars.Current() == FiltersAfter(s, t, t.Size())
  {
    vars := new MakeVars(s);
    vars.TrimapSetup(s, t.bins, t.pats, t.mods, t, 0);
  }

  // ---- Closed form ----

  function Keys(t: Triples): (ks: seq<string>) { seq(|t.mods|, i requires 0 <= i < |t.mods| => Key(t.mods[i])) }

  function HasWord(ws: seq<string>, w: string): (f: nat -> bool) { (i: nat) => i < |ws| && ws[i] == w }

  /** No earlier entry has this key. */
  predicate NewKey(ks: seq<string>, i: nat) { i < |ks| && forall j :: 0 <= j < i ==> ks[j] != ks[i] }

  function IsNewKey(ks: seq<string>): (f: nat -> bool) { (i: nat) => NewKey(ks, i) }

  /** The filter variables alone, for a list of keys. */
  function FilterMap(ks: seq<string>, pats: seq<string>, i: nat): (m: map<string, seq<string>>)
    requires i <= |ks| && i <= |pats|
  {
    if i == 0 then map[]
    else var m := FilterMap(ks, pats, i - 1); m[ks[i - 1] := Get(m, ks[i - 1]) + [pats[i - 1]]]
  }

  /** The words at the keys that had no filter yet. */
  function Uniq(ks: seq<string>, pats: seq<string>, xs: seq<string>, i: nat): (u: seq<string>)
    requires i <= |ks| && i <= |pats| && i <= |xs|
  {
    if i == 0 then []
    else Uniq(ks, pats, xs, i - 1) + if Get(FilterMap(ks, pats, i - 1), ks[i - 1]) == [] then [xs[i - 1]] else []
  }

  lemma {:induction false} StateIs(t: Triples, i: nat)
    requires i <= t.Size()
    ensures var f := FiltersAfter(DEFAULTS, t, i);
            && f.filters == FilterMap(Keys(t), t.pats, i)
            && f.uniqPaths == Uniq(Keys(t), t.pats, t.mods, i)
            && f.uniqFiles == Uniq(Keys(t), t.pats, t.bins, i)
  {
    if i > 0 {
      StateIs(t, i - 1);
      TripleAdds(FiltersAfter(DEFAULTS, t, i - 1), t.bins[i - 1], t.pats[i - 1], t.mods[i - 1]);
      assert Keys(t)[i - 1] == Key(t.mods[i - 1]);
    }
  }

  lemma TripleAdds(f: Filters, bin: string, pat: string, mod: string)
    ensures var g := AddTriple(DEFAULTS, f, bin, pat, mod);
            var new_ := Get(f.filters, Key(mod)) == [];
            && g.uniqPaths == f.uniqPaths + (if new_ then [mod] else [])
            && g.uniqFiles == f.uniqFiles + (if new_ then [bin] else [])
            && g.filters == f.filters[Key(mod) := Get(f.filters, Key(mod)) + [pat]]
  {
  }

  lemma {:induction false} FilterMapIsSplit(ks: seq<string>, pats: seq<string>, i: nat, k: string)
    requires i <= |ks| && i <= |pats|
    ensures Get(FilterMap(ks, pats, i), k) == Pick(pats, i, HasWord(ks, k))
  {
    if i > 0 { FilterMapIsSplit(ks, pats, i - 1, k); }
  }

  lemma {:induction false} PickEmptyIff(xs: seq<string>, n: nat, keep: nat -> bool)
    requires n <= |xs|
    ensures Pick(xs, n, keep) == [] <==> forall i :: 0 <= i < n ==> !keep(i)
  {
    if n > 0 { PickEmptyIff(xs, n - 1, keep); }
  }

  lemma {:induction false} UniqIsPick(ks: seq<string>, pats: seq<string>, xs: seq<string>, i: nat)
    requires i <= |ks| && i <= |pats| && i <= |xs|
    ensures Uniq(ks, pats, xs, i) == Pick(xs, i, IsNewKey(ks))
  {
    if i > 0 {
      UniqIsPick(ks, pats, xs, i - 1);
      NoFilterIff(ks, pats, i - 1);
      assert IsNewKey(ks)(i - 1) == NewKey(ks, i - 1);
    }
  }

  lemma NoFilterIff(ks: seq<string>, pats: seq<string>, i: nat)
    requires i < |ks| && i <= |pats|
    ensures Get(FilterMap(ks, pats, i), ks[i]) == [] <==> NewKey(ks, i)
  {
    var keep := HasWord(ks, ks[i]);
    FilterMapIsSplit(ks, pats, i, ks[i]);
    PickEmptyIff(pats, i, keep);
    assert forall j :: 0 <= j < i ==> (keep(j) <==> ks[j] == ks[i]);
  }

  /** The filters are the order-preserving split of the source patterns by key. */
  lemma FiltersAre(t: Triples, k: string)
    ensures Get(FiltersAfter(DEFAULTS, t, t.Size()).filters, k) == Pick(t.pats, t.Size(), HasWord(Keys(t), k))
  {
    StateIs(t, t.Size());
    FilterMapIsSplit(Keys(t), t.pats, t.Size(), k);
  }

  /** The unique paths are those whose key is new, in first-seen order, next to their binaries. */
  lemma UniqAre(t: Triples)
    ensures FiltersAfter(DEFAULTS, t, t.Size()).uniqPaths == Pick(t.mods, t.Size(), IsNewKey(Keys(t)))
    ensures FiltersAfter(DEFAULTS, t, t.Size()).uniqFiles == Pick(t.bins, t.Size(), IsNewKey(Keys(t)))
  {
    StateIs(t, t.Size());
    UniqIsPick(Keys(t), t.pats, t.mods, t.Size());
    UniqIsPick(Keys(t), t.pats, t.bins, t.Size());
  }

  /** The key of a path has underscores for its slashes. */
  lemma KeyIs(mod: string)
    ensures |Key(mod)| == |mod| && forall i :: 0 <= i < |mod| ==> Key(mod)[i] == if mod[i] == '/' then '_' else mod[i]
  {
    SubstAt('/', '_', mod);
  }

  // ---- The same for any settings ----

  function Repeated(ws: seq<string>, n: nat): (r: seq<string>) { if n == 0 then [] else Repeated(ws, n - 1) + ws }

  /** What the first n binaries selected by keep add to a filter: their patterns, or the project's one filter
      for each of them. */
  function Added(common: Option<seq<string>>, pats: seq<string>, n: nat, keep: nat -> bool): (ws: seq<string>)
    requires n <= |pats|
  {
    if common.None? then Pick(pats, n, keep) else Repeated(common.value, Kept(n, keep))
  }

  lemma AddedNext(common: Option<seq<string>>, pats: seq<string>, n: nat, keep: nat -> bool)
    requires n < |pats|
    ensures Added(common, pats, n + 1, keep) == Added(common, pats, n, keep) +
              if !keep(n) then [] else if common.Some? then common.value else [pats[n]]
  {
  }

  /** A filter is what the project preset for it, followed by what its binaries add. */
  lemma {:induction false} FiltersInGeneral(s: Settings, t: Triples, i: nat, k: string)
    requires i <= t.Size()
    ensures Get(FiltersAfter(s, t, i).filters, k) == Get(s.preset, k) + Added(s.common, t.pats, i, HasWord(Keys(t), k))
  {
    if i > 0 {
      var n, keep := i - 1, HasWord(Keys(t), k);
      FiltersInGeneral(s, t, n, k);
      OneTripleFilter(s, FiltersAfter(s, t, n), t.bins[n], t.pats[n], t.mods[n], k);
      AddedNext(s.common, t.pats, n, keep);
      OwnKeyIff(t, n, k);
    }
  }

  lemma OwnKeyIff(t: Triples, i: nat, k: string)
    requires i < t.Size()
    ensures HasWord(Keys(t), k)(i) <==> Key(t.mods[i]) == k
    ensures Keys(t)[i] == Key(t.mods[i])
  {
  }

  lemma OneTripleFilter(s: Settings, f: Filters, bin: string, pat: string, mod: string, k: string)
    ensures Get(AddTriple(s, f, bin, pat, mod).filters, k) == Get(f.filters, k) +
              if Key(mod) != k then [] else if s.common.Some? then s.common.value else [pat]
    ensures var new_ := Get(f.filters, Key(mod)) == [];
            && AddTriple(s, f, bin, pat, mod).uniqPaths == f.uniqPaths + (if new_ then [mod] else [])
            && AddTriple(s, f, bin, pat, mod).uniqFiles == f.uniqFiles + (if new_ then [bin] else [])
  {
  }

  /** A path is listed with its binary exactly when nothing was preset for its key and no earlier binary had
      the key, or every binary so far has added an empty filter. */
  lemma PathIsListedIff(s: Settings, t: Triples, i: nat)
    requires i < t.Size()
    ensures var before, after := FiltersAfter(s, t, i), FiltersAfter(s, t, i + 1);
            var new_ := Get(s.preset, Key(t.mods[i])) == [] && (NewKey(Keys(t), i) || s.common == Some([]));
            && after.uniqPaths == before.uniqPaths + (if new_ then [t.mods[i]] else [])
            && after.uniqFiles == before.uniqFiles + (if new_ then [t.bins[i]] else [])
  {
    var k := Key(t.mods[i]);
    var keep := HasWord(Keys(t), k);
    FiltersInGeneral(s, t, i, k);
    OneTripleFilter(s, FiltersAfter(s, t, i), t.bins[i], t.pats[i], t.mods[i], k);
    PickEmptyIff(t.pats, i, keep);
    PickAt(t.pats, i, keep);
    OwnKeyIff(t, i, k);
    assert forall j :: 0 <= j < i ==> (keep(j) <==> Keys(t)[j] == k);
    KeptNoneIff(i, keep);
    if s.common.Some? { RepeatedEmptyIff(s.common.value, Kept(i, keep)); }
  }

  lemma {:induction false} KeptNoneIff(n: nat, keep: nat -> bool)
    ensures Kept(n, keep) == 0 <==> forall i :: 0 <= i < n ==> !keep(i)
  {
    if n > 0 { KeptNoneIff(n - 1, keep); }
  }

  lemma {:induction false} RepeatedEmptyIff(ws: seq<string>, n: nat)
    ensures Repeated(ws, n) == [] <==> ws == [] || n == 0
  {
    if n > 0 { RepeatedEmptyIff(ws, n - 1); }
  }

  /** No two different paths of the project collide when slashes become underscores. */
  ghost predicate NoCollisions(mods: seq<string>, ks: seq<string>, n: nat)
    requires n <= |mods| && n <= |ks|
  {
    forall i, j :: 0 <= i < n && 0 <= j < n && ks[i] == ks[j] ==> mods[i] == mods[j]
  }

  lemma {:induction false} FirstWithKey(ks: seq<string>, i: nat) returns (f: nat)
    requires i < |ks|
    ensures f <= i && NewKey(ks, f) && ks[f] == ks[i]
  {
    if NewKey(ks, i) {
      f := i;
    } else {
      var j :| 0 <= j < i && ks[j] == ks[i];
      f := FirstWithKey(ks, j);
    }
  }

  lemma PickedAreDistinct(mods: seq<string>, ks: seq<string>, n: nat)
    requires n <= |mods| == |ks|
    requires forall i, j :: 0 <= i < |mods| && 0 <= j < |mods| && mods[i] == mods[j] ==> ks[i] == ks[j]
    ensures Distinct(Pick(mods, n, IsNewKey(ks)))
  {
    var u := Pick(mods, n, IsNewKey(ks));
    forall a, b | 0 <= a < b < |u| ensures u[a] != u[b] {
      var i := PickFrom(mods, n, IsNewKey(ks), a);
      var j := PickFrom(mods, n, IsNewKey(ks), b);
      assert NewKey(ks, i) && NewKey(ks, j);
    }
  }

  lemma AllPickedIff(mods: seq<string>, ks: seq<string>, n: nat)
    requires n <= |mods| == |ks|
    requires forall i, j :: 0 <= i < |mods| && 0 <= j < |mods| && mods[i] == mods[j] ==> ks[i] == ks[j]
    ensures (forall i :: 0 <= i < n ==> mods[i] in Pick(mods, n, IsNewKey(ks))) <==> NoCollisions(mods, ks, n)
  {
    var keep := IsNewKey(ks);
    var u := Pick(mods, n, keep);
    if forall i :: 0 <= i < n ==> mods[i] in u {
      forall i, j | 0 <= i < n && 0 <= j < n && ks[i] == ks[j] ensures mods[i] == mods[j] {
        var x := PickedIndex(mods, ks, n, i);
        var y := PickedIndex(mods, ks, n, j);
      }
    }
    if NoCollisions(mods, ks, n) {
      forall i | 0 <= i < n ensures mods[i] in u {
        var f := FirstWithKey(ks, i);
        PickAt(mods, n, keep);
        assert keep(f) && mods[f] == mods[i];
      }
    }
  }

  /** A listed path was picked at the first index of its key. */
  lemma PickedIndex(mods: seq<string>, ks: seq<string>, n: nat, i: nat) returns (x: nat)
    requires i < n <= |mods| == |ks| && mods[i] in Pick(mods, n, IsNewKey(ks))
    requires forall i, j :: 0 <= i < |mods| && 0 <= j < |mods| && mods[i] == mods[j] ==> ks[i] == ks[j]
    ensures x < n && NewKey(ks, x) && mods[x] == mods[i] && ks[x] == ks[i]
  {
    var u := Pick(mods, n, IsNewKey(ks));
    var a :| 0 <= a < |u| && u[a] == mods[i];
    x := PickFrom(mods, n, IsNewKey(ks), a);
  }

  /** No path is listed twice; and every path is listed exactly when none collide. */
  lemma UniqPathsCompleteIff(t: Triples)
    ensures var u := FiltersAfter(DEFAULTS, t, t.Size()).uniqPaths;
            && Distinct(u)
            && ((forall i :: 0 <= i < t.Size() ==> t.mods[i] in u) <==> NoCollisions(t.mods, Keys(t), t.Size()))
  {
    UniqAre(t);
    PickedAreDistinct(t.mods, Keys(t), t.Size());
    AllPickedIff(t.mods, Keys(t), t.Size());
  }

  lemma {:induction false} MoreKeptIsLonger(n: nat, few: nat -> bool, many: nat -> bool)
    requires forall i :: 0 <= i < n && few(i) ==> many(i)
    ensures Kept(n, few) <= Kept(n, many)
    ensures Kept(n, few) == Kept(n, many) <==> forall i :: 0 <= i < n && many(i) ==> few(i)
  {
    if n > 0 { MoreKeptIsLonger(n - 1, few, many); }
  }

  lemma {:induction false} SamePick(xs: seq<string>, n: nat, f: nat -> bool, g: nat -> bool)
    requires n <= |xs| && forall i :: 0 <= i < n ==> f(i) == g(i)
    ensures Pick(xs, n, f) == Pick(xs, n, g)
  {
    if n > 0 { SamePick(xs, n - 1, f, g); }
  }

  /** The filter read back for a path holds exactly the patterns of that path's binaries, in order
      and with nothing lost or duplicated, if and only if no other path shares its key. */
  lemma FilterIsOwnPatternsIff(t: Triples, p: string)
    ensures Get(FiltersAfter(DEFAULTS, t, t.Size()).filters, Key(p)) == Pick(t.pats, t.Size(), HasWord(t.mods, p)) <==>
            forall i :: 0 <= i < t.Size() && Key(t.mods[i]) == Key(p) ==> t.mods[i] == p
  {
    var n, own, shared := t.Size(), HasWord(t.mods, p), HasWord(Keys(t), Key(p));
    FiltersAre(t, Key(p));
    PickAt(t.pats, n, own);
    PickAt(t.pats, n, shared);
    MoreKeptIsLonger(n, own, shared);
    assert forall i :: 0 <= i < n ==> (shared(i) <==> Key(t.mods[i]) == Key(p)) && (own(i) <==> t.mods[i] == p);
    if forall i :: 0 <= i < n && shared(i) ==> own(i) { SamePick(t.pats, n, own, shared); }
  }

  // ---- The go mod path the license rule finds ----

  /** The last of the first i binaries whose variable has this name, or -1. */
  function LastNamed(s: Settings, t: Triples, i: nat, v: string): (j: int)
    requires i <= t.Size()
    ensures -1 <= j < i
    ensures j >= 0 ==> VarName(s, t.bins[j]) == v
    ensures forall l :: j < l < i ==> VarName(s, t.bins[l]) != v
  {
    if i == 0 then -1 else if VarName(s, t.bins[i - 1]) == v then i - 1 else LastNamed(s, t, i - 1, v)
  }

  /** Each variable holds the path of the last binary that shares its name. */
  lemma {:induction false} GoModForIsLast(s: Settings, t: Triples, i: nat, v: string)
    requires i <= t.Size()
    ensures var m := FiltersAfter(s, t, i).goModFor;
            var j := LastNamed(s, t, i, v);
            (v in m <==> j >= 0) && (v in m ==> m[v] == t.mods[j])
  {
    if i > 0 { GoModForIsLast(s, t, i - 1, v); }
  }

  /** A binary with an attribution name of its own is looked up under that name. */
  lemma OverriddenName(s: Settings, t: Triples, i: nat)
    requires i < t.Size() && ToUpper(t.bins[i]) in s.names
    requires forall j :: i < j < t.Size() ==> VarName(s, t.bins[j]) != VarName(s, t.bins[i])
    ensures var v, m := ToUpper(s.names[ToUpper(t.bins[i])]), FiltersAfter(s, t, t.Size()).goModFor;
            v in m && m[v] == t.mods[i]
  {
    GoModForIsLast(s, t, t.Size(), VarName(s, t.bins[i]));
  }

  /** GO_MOD_PATH of the license rule for the prefix read from its target. */
  function GoModOfPrefix(f: Filters, prefix: string): (m: Option<string>) {
    if prefix == "" then if f.uniqPaths == [] then None else Some(f.uniqPaths[0])
    else if ToUpper(prefix) in f.goModFor then Some(f.goModFor[ToUpper(prefix)]) else None
  }

  /** The path found by the license rule for a binary's license target. */
  function FoundModule(t: Triples, i: nat): (m: Option<string>)
    requires i < t.Size()
  {
    var prefix := AttributionPrefix("", t.bins[i], t.mods[i], First(t));
    GoModOfPrefix(FiltersAfter(DEFAULTS, t, t.Size()), PrefixFromLicenseStem(AddTrailing(prefix, "/") + "a"))
  }

  /** From a binary to its license target and back to a go mod path: the rule finds the path the binary was
      declared with exactly when that is the main module's, or the last binary that shares the variable name
      has it too and the name can be a directory. */
  lemma LicenseRuleFindsOwnModule(t: Triples, i: nat)
    requires i < t.Size()
    ensures FoundModule(t, i) == Some(t.mods[i]) <==>
              || t.mods[i] == First(t)
              || (t.bins[i] != "" && t.bins[i] != "." &&
                  t.mods[LastNamed(DEFAULTS, t, t.Size(), VarName(DEFAULTS, t.bins[i]))] == t.mods[i])
  {
    var n := t.Size();
    var prefix := AttributionPrefix("", t.bins[i], t.mods[i], First(t));
    LicenseRuleReadsPrefixIff(prefix);
    FirstUniqIsMain(t);
    if prefix == "." {
      PartsOf(".", "a");
    } else if prefix != "" {
      GoModForIsLast(DEFAULTS, t, n, VarName(DEFAULTS, t.bins[i]));
    }
  }

  /** In particular for pairwise different names without capitals and underscores. */
  lemma PlainNamesFindOwnModule(t: Triples, i: nat)
    requires i < t.Size() && Distinct(t.bins) && forall j :: 0 <= j < |t.bins| ==> PlainName(t.bins[j])
    requires t.bins[i] != "" && t.bins[i] != "."
    ensures FoundModule(t, i) == Some(t.mods[i])
  {
    LastPlainIsOwn(t, i);
    LicenseRuleFindsOwnModule(t, i);
  }

  lemma LastPlainIsOwn(t: Triples, i: nat)
    requires i < t.Size() && Distinct(t.bins) && forall j :: 0 <= j < |t.bins| ==> PlainName(t.bins[j])
    ensures LastNamed(DEFAULTS, t, t.Size(), VarName(DEFAULTS, t.bins[i])) == i
  {
    var j := LastNamed(DEFAULTS, t, t.Size(), VarName(DEFAULTS, t.bins[i]));
    UpperInjectiveOnPlain(t.bins[i], t.bins[j]);
  }

  lemma HyphenIsUnderscore(a: string, b: string)
    requires |a| == |b| && forall k :: 0 <= k < |a| ==> UpperChar(a[k]) == UpperChar(b[k])
    ensures ToUpper(a) == ToUpper(b)
  {
    ChainsArePointwise(a);
    ChainsArePointwise(b);
  }

  /** Two binaries that differ in a hyphen and an underscore: the license of the first is taken from the
      module of the second. */
  lemma SharedVariableFindsOtherModule(t: Triples)
    requires t == Triples(["main", "x-y", "x_y"], ["./cmd", "./x", "./y"], [".", "p", "q"])
    ensures FoundModule(t, 1) != Some("p")
  {
    HyphenIsUnderscore(t.bins[1], t.bins[2]);
    var v := VarName(DEFAULTS, t.bins[1]);
    assert VarName(DEFAULTS, t.bins[2]) == v;
    assert LastNamed(DEFAULTS, t, 3, v) == 2;
    LicenseRuleFindsOwnModule(t, 1);
  }

  lemma FirstUniqIsMain(t: Triples)
    requires t.Size() > 0
    ensures var u := FiltersAfter(DEFAULTS, t, t.Size()).uniqPaths; u != [] && u[0] == t.mods[0]
  {
    var keep := IsNewKey(Keys(t));
    UniqAre(t);
    PickAt(t.mods, t.Size(), keep);
    assert keep(0) && Kept(0, keep) == 0;
  }
}
