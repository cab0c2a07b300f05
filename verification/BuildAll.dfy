/** The build-all target: projects are built one after the other, each after its eksa
    dependencies, through a recursive make target per project whose marker file says
    that it is complete. Markers survive failed runs. */
module BuildAll {
  import opened Basics

  /** A path split at its slashes. */
  type Path = seq<string>

  datatype Dep = Dep(project: Path, branch: string)
  datatype Build = Build(project: Path, branch: string)

  /** The plain marker of a project, and the marker it is renamed to for a release branch. */
  datatype Marker = Plain(project: Path) | Suffixed(project: Path, branch: string)

  /** The words of PROJECT_DEPENDENCIES of every project, and the projects whose target only
      touches the marker. */
  datatype Graph = Graph(words: map<Path, seq<Path>>, skips: set<Path>)

  // ---- Reading a dependency word ----

  /** The fourth slash-separated field; a word without a slash is printed whole. */
  function BranchOf(word: Path): (b: string) {
    if |word| == 1 then word[0] else if |word| >= 4 then word[3] else ""
  }

  function DirName(word: Path): (d: Path) {
    if |word| <= 1 then ["."] else word[..|word| - 1]
  }

  function StripEksa(word: Path): (p: Path) {
    if |word| > 1 && word[0] == "eksa" then word[1..] else word
  }

  function ReadDep(word: Path): (d: Dep) {
    var b := BranchOf(word);
    Dep(StripEksa(if b != "" then DirName(word) else word), b)
  }

  /** The word holds eksa somewhere. */
  predicate IsEksa(word: Path) { exists f :: f in word && Occurs("eksa", f) }

  function EksaDeps(words: seq<Path>): (ds: seq<Dep>) {
    if words == [] then []
    else if IsEksa(words[0]) then [ReadDep(words[0])] + EksaDeps(words[1..])
    else EksaDeps(words[1..])
  }

  function Words(g: Graph, p: Path): (ws: seq<Path>) { if p in g.words then g.words[p] else [] }

  function Deps(g: Graph, p: Path): (ds: seq<Dep>) { EksaDeps(Words(g, p)) }

  function DepOf(word: Path): (ds: seq<Dep>) { if IsEksa(word) then [ReadDep(word)] else [] }

  lemma EksaDepsOfOne(word: Path)
    ensures EksaDeps([word]) == DepOf(word)
  {
    assert EksaDeps([word][1..]) == [];
  }

  lemma EksaDepsUnfold(words: seq<Path>)
    requires words != []
    ensures EksaDeps(words) == DepOf(words[0]) + EksaDeps(words[1..])
  {
  }

  /** Every eksa word gives one dependency, in the order of the words, and no other word gives any. */
  lemma {:induction false} EksaDepsAreInOrder(a: seq<Path>, b: seq<Path>)
    ensures EksaDeps(a + b) == EksaDeps(a) + EksaDeps(b)
    decreases |a|
  {
    if a == [] {
      assert a + b == b;
    } else {
      assert (a + b)[1..] == a[1..] + b && (a + b)[0] == a[0];
      EksaDepsUnfold(a + b);
      EksaDepsUnfold(a);
      EksaDepsAreInOrder(a[1..], b);
    }
  }

  lemma {:induction false} EksaDepsAre(ws: seq<Path>, d: Dep)
    ensures d in EksaDeps(ws) <==> exists i :: 0 <= i < |ws| && IsEksa(ws[i]) && d == ReadDep(ws[i])
    decreases |ws|
  {
    if ws != [] {
      EksaDepsAre(ws[1..], d);
      if d in EksaDeps(ws[1..]) {
        var i :| 0 <= i < |ws[1..]| && IsEksa(ws[1..][i]) && d == ReadDep(ws[1..][i]);
        assert ws[i + 1] == ws[1..][i];
      }
      if exists i :: 0 <= i < |ws| && IsEksa(ws[i]) && d == ReadDep(ws[i]) {
        var i :| 0 <= i < |ws| && IsEksa(ws[i]) && d == ReadDep(ws[i]);
        if i > 0 { assert ws[1..][i - 1] == ws[i]; }
      }
    }
  }

  // ---- What a log and a set of markers say ----

  ghost predicate Built(g: Graph, log: seq<Build>, p: Path) {
    p in g.skips || exists i :: 0 <= i < |log| && log[i].project == p
  }

  /** Every dependency was built before the project. */
  ghost predicate Ordered(g: Graph, log: seq<Build>) {
    forall i, d :: 0 <= i < |log| && d in Deps(g, log[i].project) ==> Built(g, log[..i], d.project)
  }

  /** A marker, plain or suffixed, is never there without a build. */
  ghost predicate Honest(g: Graph, markers: set<Marker>, log: seq<Build>) {
    forall m :: m in markers ==> Built(g, log, m.project)
  }

  ghost predicate Once(markers: set<Marker>, log: seq<Build>) {
    && (forall i, j :: 0 <= i < j < |log| ==> log[i].project != log[j].project)
    && (forall i :: 0 <= i < |log| ==> Plain(log[i].project) in markers)
  }

  ghost predicate NoBranches(g: Graph) {
    forall p, d :: d in Deps(g, p) ==> d.branch == ""
  }

  ghost predicate Acyclic(g: Graph, rank: Path -> nat) {
    forall p, d :: d in Deps(g, p) ==> rank(d.project) < rank(p)
  }

  /** A skipped project gets its marker without a build. */
  ghost predicate NoneSkipped(g: Graph, log: seq<Build>) {
    forall i :: 0 <= i < |log| ==> log[i].project !in g.skips
  }

  ghost predicate NoneBroken(log: seq<Build>, from: nat, broken: set<Path>) {
    forall i :: from <= i < |log| ==> log[i].project !in broken
  }

  ghost predicate RankedAtMost(log: seq<Build>, from: nat, rank: Path -> nat, bound: nat) {
    forall i :: from <= i < |log| ==> rank(log[i].project) <= bound
  }

  // ---- What the targets do to markers and log ----

  datatype State = State(markers: set<Marker>, log: seq<Build>)
  datatype Done = Done(state: State, ok: bool)

  /** A project's target: nothing when the marker is there, only the marker for a skipped project,
      else the dependencies, the build and the marker. */
  function Make(g: Graph, s: State, p: Path, rel: string, broken: set<Path>, fuel: nat): (d: Done)
    decreases fuel, 1
  {
    if Plain(p) in s.markers then Done(s, true)
    else if p in g.skips then Done(s.(markers := s.markers + {Plain(p)}), true)
    else if fuel == 0 then Done(s, false)
    else
      var r := MakeDeps(g, s, Deps(g, p), rel, broken, fuel);
      if !r.ok || p in broken then Done(r.state, false)
      else Done(State(r.state.markers + {Plain(p)}, r.state.log + [Build(p, rel)]), true)
  }

  function MakeDeps(g: Graph, s: State, deps: seq<Dep>, rel: string, broken: set<Path>, fuel: nat): (d: Done)
    requires fuel > 0
    decreases fuel, 0, |deps|
  {
    if deps == [] then Done(s, true)
    else
      var r := MakeDep(g, s, deps[0], rel, broken, fuel - 1);
      if r.ok then MakeDeps(g, r.state, deps[1..], rel, broken, fuel) else r
  }

  function MakeDep(g: Graph, s: State, d: Dep, rel: string, broken: set<Path>, fuel: nat): (r: Done)
    decreases fuel, 2
  {
    if Suffixed(d.project, d.branch) in s.markers then Done(s, true)
    else
      var r := Make(g, s, d.project, if d.branch != "" then d.branch else rel, broken, fuel);
      if !r.ok || d.branch == "" then r
      else Done(r.state.(markers := r.state.markers - {Plain(d.project)} + {Suffixed(d.project, d.branch)}), true)
  }

  /** One pass over the projects; the first pass takes only those that list dependencies. */
  function MakeEach(g: Graph, s: State, projects: seq<Path>, listed: bool, rel: string, broken: set<Path>,
        fuel: nat): (d: Done)
    decreases |projects|
  {
    if projects == [] then Done(s, true)
    else
      var p := projects[0];
      var r := if Plain(p) in s.markers || (listed && Words(g, p) == []) then Done(s, true)
        else Make(g, s, p, rel, broken, fuel);
      if r.ok then MakeEach(g, r.state, projects[1..], listed, rel, broken, fuel) else r
  }

  function MakeAll(g: Graph, s: State, projects: seq<Path>, rel: string, broken: set<Path>, fuel: nat): (d: Done) {
    var first := MakeEach(g, s, projects, true, rel, broken, fuel);
    if first.ok then MakeEach(g, first.state, projects, false, rel, broken, fuel) else first
  }

  // ---- One after the other, up to the first failure ----

  /** Dependencies are made in order, and the first one that fails ends it. */
  lemma {:induction false} DepsInSequence(g: Graph, s: State, a: seq<Dep>, b: seq<Dep>, rel: string,
        broken: set<Path>, fuel: nat)
    requires fuel > 0
    ensures var r := MakeDeps(g, s, a, rel, broken, fuel);
            MakeDeps(g, s, a + b, rel, broken, fuel) == if r.ok then MakeDeps(g, r.state, b, rel, broken, fuel) else r
    ensures |a| == 1 ==> MakeDeps(g, s, a, rel, broken, fuel) == MakeDep(g, s, a[0], rel, broken, fuel - 1)
    decreases |a|
  {
    if a == [] {
      assert a + b == b;
    } else {
      assert (a + b)[1..] == a[1..] + b;
      var r := MakeDep(g, s, a[0], rel, broken, fuel - 1);
      if r.ok { DepsInSequence(g, r.state, a[1..], b, rel, broken, fuel); }
    }
  }

  /** So are the projects of a pass; each one is made unless its marker is there, or the pass is the first and
      it lists no dependency. */
  lemma {:induction false} PassInSequence(g: Graph, s: State, a: seq<Path>, b: seq<Path>, listed: bool, rel: string,
        broken: set<Path>, fuel: nat)
    ensures var r := MakeEach(g, s, a, listed, rel, broken, fuel);
            MakeEach(g, s, a + b, listed, rel, broken, fuel) ==
              if r.ok then MakeEach(g, r.state, b, listed, rel, broken, fuel) else r
    ensures |a| == 1 ==>
              MakeEach(g, s, a, listed, rel, broken, fuel) ==
                if listed && Words(g, a[0]) == [] then Done(s, true) else Make(g, s, a[0], rel, broken, fuel)
    decreases |a|
  {
    if a == [] {
      assert a + b == b;
    } else {
      assert (a + b)[1..] == a[1..] + b;
      var p := a[0];
      var r := if Plain(p) in s.markers || (listed && Words(g, p) == []) then Done(s, true)
        else Make(g, s, p, rel, broken, fuel);
      if r.ok { PassInSequence(g, r.state, a[1..], b, listed, rel, broken, fuel); }
    }
  }

  function WithWords(g: Graph, projects: seq<Path>): (ps: seq<Path>) {
    if projects == [] then []
    else (if Words(g, projects[0]) != [] then [projects[0]] else []) + WithWords(g, projects[1..])
  }

  function WithoutWords(g: Graph, projects: seq<Path>): (ps: seq<Path>) {
    if projects == [] then []
    else (if Words(g, projects[0]) == [] then [projects[0]] else []) + WithoutWords(g, projects[1..])
  }

  lemma {:induction false} WithWordsAre(g: Graph, projects: seq<Path>, p: Path)
    ensures p in WithWords(g, projects) <==> p in projects && Words(g, p) != []
    ensures p in WithoutWords(g, projects) <==> p in projects && Words(g, p) == []
    decreases |projects|
  {
    if projects != [] { WithWordsAre(g, projects[1..], p); }
  }

  lemma {:induction false} FirstPassIs(g: Graph, s: State, projects: seq<Path>, rel: string, broken: set<Path>,
        fuel: nat)
    ensures MakeEach(g, s, projects, true, rel, broken, fuel) ==
              MakeEach(g, s, WithWords(g, projects), false, rel, broken, fuel)
    decreases |projects|
  {
    if projects != [] {
      var p, rest := projects[0], projects[1..];
      if Words(g, p) == [] {
        FirstPassIs(g, s, rest, rel, broken, fuel);
        assert WithWords(g, projects) == WithWords(g, rest);
      } else {
        var r := if Plain(p) in s.markers then Done(s, true) else Make(g, s, p, rel, broken, fuel);
        FirstPassIs(g, r.state, rest, rel, broken, fuel);
        assert WithWords(g, projects)[0] == p && WithWords(g, projects)[1..] == WithWords(g, rest);
      }
    }
  }

  lemma {:induction false} MakeKeepsMarkers(g: Graph, s: State, p: Path, rel: string, broken: set<Path>, fuel: nat)
    requires NoBranches(g)
    ensures var r := Make(g, s, p, rel, broken, fuel);
            s.markers <= r.state.markers && (r.ok ==> Plain(p) in r.state.markers)
    decreases fuel, 1
  {
    if Plain(p) !in s.markers && p !in g.skips && fuel > 0 {
      assert forall d :: d in Deps(g, p) ==> d.branch == "";
      DepsKeepMarkers(g, s, Deps(g, p), rel, broken, fuel);
    }
  }

  lemma {:induction false} DepsKeepMarkers(g: Graph, s: State, deps: seq<Dep>, rel: string, broken: set<Path>,
        fuel: nat)
    requires NoBranches(g) && fuel > 0 && forall d :: d in deps ==> d.branch == ""
    ensures s.markers <= MakeDeps(g, s, deps, rel, broken, fuel).state.markers
    decreases fuel, 0, |deps|
  {
    if deps != [] {
      MakeKeepsMarkers(g, s, deps[0].project, rel, broken, fuel - 1);
      var r := MakeDep(g, s, deps[0], rel, broken, fuel - 1);
      if r.ok { DepsKeepMarkers(g, r.state, deps[1..], rel, broken, fuel); }
    }
  }

  lemma {:induction false} PassKeepsMarkers(g: Graph, s: State, projects: seq<Path>, rel: string, broken: set<Path>,
        fuel: nat)
    requires NoBranches(g)
    ensures var r := MakeEach(g, s, projects, false, rel, broken, fuel);
            s.markers <= r.state.markers && (r.ok ==> forall p :: p in projects ==> Plain(p) in r.state.markers)
    decreases |projects|
  {
    if projects != [] {
      var p := projects[0];
      MakeKeepsMarkers(g, s, p, rel, broken, fuel);
      var r := if Plain(p) in s.markers then Done(s, true) else Make(g, s, p, rel, broken, fuel);
      if r.ok { PassKeepsMarkers(g, r.state, projects[1..], rel, broken, fuel); }
    }
  }

  lemma {:induction false} SecondPassIs(g: Graph, s: State, projects: seq<Path>, rel: string, broken: set<Path>,
        fuel: nat)
    requires NoBranches(g) && forall p :: p in projects && Words(g, p) != [] ==> Plain(p) in s.markers
    ensures MakeEach(g, s, projects, false, rel, broken, fuel) ==
              MakeEach(g, s, WithoutWords(g, projects), false, rel, broken, fuel)
    decreases |projects|
  {
    if projects != [] {
      var p, rest := projects[0], projects[1..];
      if Words(g, p) != [] {
        SecondPassIs(g, s, rest, rel, broken, fuel);
        assert WithoutWords(g, projects) == WithoutWords(g, rest);
      } else {
        MakeKeepsMarkers(g, s, p, rel, broken, fuel);
        var r := if Plain(p) in s.markers then Done(s, true) else Make(g, s, p, rel, broken, fuel);
        SecondPassIs(g, r.state, rest, rel, broken, fuel);
        assert WithoutWords(g, projects)[0] == p && WithoutWords(g, projects)[1..] == WithoutWords(g, rest);
      }
    }
  }

  /** Without branch-qualified dependencies the two passes are one: first the projects that list dependencies,
      then the others, each group in its given order. */
  lemma ListedProjectsFirst(g: Graph, s: State, projects: seq<Path>, rel: string, broken: set<Path>, fuel: nat)
    requires NoBranches(g)
    ensures MakeAll(g, s, projects, rel, broken, fuel) ==
              MakeEach(g, s, WithWords(g, projects) + WithoutWords(g, projects), false, rel, broken, fuel)
  {
    var first := MakeEach(g, s, projects, true, rel, broken, fuel);
    FirstPassIs(g, s, projects, rel, broken, fuel);
    PassKeepsMarkers(g, s, WithWords(g, projects), rel, broken, fuel);
    PassInSequence(g, s, WithWords(g, projects), WithoutWords(g, projects), false, rel, broken, fuel);
    if first.ok {
      forall p | p in projects && Words(g, p) != [] ensures Plain(p) in first.state.markers {
        WithWordsAre(g, projects, p);
      }
      SecondPassIs(g, first.state, projects, rel, broken, fuel);
    }
  }

  // ---- The bound on nested make calls ----

  ghost predicate RanksBelow(ds: seq<Dep>, rank: Path -> nat, bound: nat) {
    forall d :: d in ds ==> rank(d.project) < bound
  }

  /** On an acyclic graph, whatever is broken, any bound above the target's rank gives the same run. */
  lemma {:induction false} BoundDoesNotMatter(g: Graph, s: State, p: Path, rel: string, broken: set<Path>, m: nat,
        n: nat, rank: Path -> nat)
    requires Acyclic(g, rank) && rank(p) < m && rank(p) < n
    ensures Make(g, s, p, rel, broken, m) == Make(g, s, p, rel, broken, n)
    decreases rank(p), 1
  {
    if Plain(p) !in s.markers && p !in g.skips {
      assert RanksBelow(Deps(g, p), rank, rank(p));
      DepsBoundDoesNotMatter(g, s, Deps(g, p), rel, broken, m, n, rank, rank(p));
    }
  }

  lemma {:induction false} DepsBoundDoesNotMatter(
      g: Graph, s: State, deps: seq<Dep>, rel: string, broken: set<Path>, m: nat, n: nat, rank: Path -> nat, top: nat)
    requires Acyclic(g, rank) && RanksBelow(deps, rank, top) && top < m && top < n
    ensures MakeDeps(g, s, deps, rel, broken, m) == MakeDeps(g, s, deps, rel, broken, n)
    decreases top, 0, |deps|
  {
    if deps != [] {
      var d := deps[0];
      BoundDoesNotMatter(g, s, d.project, if d.branch != "" then d.branch else rel, broken, m - 1, n - 1, rank);
      var r := MakeDep(g, s, d, rel, broken, m - 1);
      assert r == MakeDep(g, s, d, rel, broken, n - 1);
      assert forall e :: e in deps[1..] ==> e in deps;
      if r.ok { DepsBoundDoesNotMatter(g, r.state, deps[1..], rel, broken, m, n, rank, top); }
    }
  }

  lemma {:induction false} PassBoundDoesNotMatter(
      g: Graph, s: State, projects: seq<Path>, listed: bool, rel: string, broken: set<Path>, m: nat, n: nat,
      rank: Path -> nat)
    requires Acyclic(g, rank) && forall p :: p in projects ==> rank(p) < m && rank(p) < n
    ensures MakeEach(g, s, projects, listed, rel, broken, m) == MakeEach(g, s, projects, listed, rel, broken, n)
    decreases |projects|
  {
    if projects != [] {
      var p := projects[0];
      BoundDoesNotMatter(g, s, p, rel, broken, m, n, rank);
      var r := if Plain(p) in s.markers || (listed && Words(g, p) == []) then Done(s, true)
        else Make(g, s, p, rel, broken, m);
      if r.ok { PassBoundDoesNotMatter(g, r.state, projects[1..], listed, rel, broken, m, n, rank); }
    }
  }

  /** The same for a whole build-all run. */
  lemma BuildAllBoundDoesNotMatter(g: Graph, s: State, projects: seq<Path>, rel: string, broken: set<Path>, m: nat,
        n: nat, rank: Path -> nat)
    requires Acyclic(g, rank) && forall p :: p in projects ==> rank(p) < m && rank(p) < n
    ensures MakeAll(g, s, projects, rel, broken, m) == MakeAll(g, s, projects, rel, broken, n)
  {
    PassBoundDoesNotMatter(g, s, projects, true, rel, broken, m, n, rank);
    var first := MakeEach(g, s, projects, true, rel, broken, m);
    PassBoundDoesNotMatter(g, first.state, projects, false, rel, broken, m, n, rank);
  }

  lemma BuiltStays(g: Graph, log: seq<Build>, longer: seq<Build>)
    requires log <= longer
    ensures forall p :: Built(g, log, p) ==> Built(g, longer, p)
  {
  }

  lemma OrderedAppend(g: Graph, log: seq<Build>, b: Build)
    requires Ordered(g, log) && forall d :: d in Deps(g, b.project) ==> Built(g, log, d.project)
    ensures Ordered(g, log + [b])
  {
    var grown := log + [b];
    forall i, d | 0 <= i < |grown| && d in Deps(g, grown[i].project) ensures Built(g, grown[..i], d.project) {
      if i < |log| { assert grown[..i] == log[..i]; } else { assert grown[..i] == log; }
    }
  }

  class Workspace {
    var markers: set<Marker>
    var log: seq<Build>

    constructor () ensures markers == {} && log == [] { markers, log := {}, []; }

    ghost function Now(): (s: State)
      reads this
    {
      State(markers, log)
    }

    /** Holds in every state between recipe lines, for every graph; the last part for acyclic
        graphs without branch-qualified dependencies. */
    ghost predicate Valid(g: Graph, rank: Path -> nat)
      reads this
    {
      && Honest(g, markers, log)
      && Ordered(g, log) && NoneSkipped(g, log)
      && (Acyclic(g, rank) && NoBranches(g) ==> Once(markers, log))
    }

    /** make <p>/eks-anywhere-full-build-complete with RELEASE_BRANCH=rel. A missing marker runs
        the recipe; fuel bounds the depth of nested make calls. */
    method MakeTarget(g: Graph, p: Path, rel: string, broken: set<Path>, fuel: nat, ghost rank: Path -> nat)
      returns (ok: bool)
      requires Valid(g, rank)
      modifies this
      ensures Done(Now(), ok) == Make(g, old(Now()), p, rel, broken, fuel)
      ensures Valid(g, rank) && old(log) <= log && NoneBroken(log, |old(log)|, broken)
      ensures ok ==> Plain(p) in markers
      ensures p in broken && p !in g.skips && Plain(p) !in old(markers) ==> !ok
      ensures NoBranches(g) ==> old(markers) <= markers
      ensures Acyclic(g, rank) ==> RankedAtMost(log, |old(log)|, rank, rank(p))
      ensures Acyclic(g, rank) && rank(p) < fuel && broken == {} ==> ok
      ensures Plain(p) in old(markers) ==> ok && log == old(log) && markers == old(markers)
      ensures ok && Plain(p) !in old(markers) && p !in g.skips ==>
                |log| > |old(log)| && log[|log| - 1] == Build(p, rel)
      decreases fuel, 1
    {
      if Plain(p) in markers { return true; }
      if p in g.skips {
        markers := markers + {Plain(p)};
        return true;
      }
      if fuel == 0 { return false; }
      ok := BuildDeps(g, p, rel, broken, fuel, rank);
      if !ok || p in broken { return false; }
      Finish(g, p, rel, rank);
    }

    /** The end of the recipe: the project's own build, then the marker. */
    method Finish(g: Graph, p: Path, rel: string, ghost rank: Path -> nat)
      requires Valid(g, rank) && p !in g.skips && forall d :: d in Deps(g, p) ==> Built(g, log, d.project)
      requires Acyclic(g, rank) && NoBranches(g) ==> Plain(p) !in markers
      modifies this
      ensures Valid(g, rank)
      ensures log == old(log) + [Build(p, rel)] && markers == old(markers) + {Plain(p)}
    {
      OrderedAppend(g, log, Build(p, rel));
      log := log + [Build(p, rel)];
      BuiltStays(g, old(log), log);
      markers := markers + {Plain(p)};
      assert Built(g, log, p) by { assert log[|log| - 1].project == p; }
    }

    /** The loop over the dependencies. */
    method BuildDeps(g: Graph, p: Path, rel: string, broken: set<Path>, fuel: nat, ghost rank: Path -> nat)
      returns (ok: bool)
      requires Valid(g, rank) && fuel > 0
      modifies this
      ensures Done(Now(), ok) == MakeDeps(g, old(Now()), Deps(g, p), rel, broken, fuel)
      ensures Valid(g, rank) && old(log) <= log && NoneBroken(log, |old(log)|, broken)
      ensures ok ==> forall d :: d in Deps(g, p) ==> Built(g, log, d.project)
      ensures NoBranches(g) ==> old(markers) <= markers
      ensures Acyclic(g, rank) ==> forall i :: |old(log)| <= i < |log| ==> rank(log[i].project) < rank(p)
      ensures Acyclic(g, rank) && rank(p) < fuel && broken == {} ==> ok
      ensures Acyclic(g, rank) && NoBranches(g) && Plain(p) !in old(markers) && p !in g.skips ==> Plain(p) !in markers
      decreases fuel, 0
    {
      var deps := Deps(g, p);
      ok := true;
      for k := 0 to |deps|
        invariant Valid(g, rank) && old(log) <= log && NoneBroken(log, |old(log)|, broken)
        invariant MakeDeps(g, Now(), deps[k..], rel, broken, fuel) == MakeDeps(g, old(Now()), deps, rel, broken, fuel)
        invariant forall l :: 0 <= l < k ==> Built(g, log, deps[l].project)
        invariant NoBranches(g) ==> old(markers) <= markers
        invariant Acyclic(g, rank) ==> forall i :: |old(log)| <= i < |log| ==> rank(log[i].project) < rank(p)
      {
        ghost var before := log;
        var d := deps[k];
        assert d in Deps(g, p);
        ok := BuildDep(g, d, rel, broken, fuel - 1, rank);
        if !ok { return false; }
        BuiltStays(g, before, log);
      }
    }

    /** One dependency. A suffixed marker ends it; otherwise the plain target is made, and for a
        branch-qualified dependency its marker is renamed. */
    method BuildDep(g: Graph, d: Dep, rel: string, broken: set<Path>, fuel: nat, ghost rank: Path -> nat)
      returns (ok: bool)
      requires Valid(g, rank) && (NoBranches(g) ==> d.branch == "")
      modifies this
      ensures Done(Now(), ok) == MakeDep(g, old(Now()), d, rel, broken, fuel)
      ensures Valid(g, rank) && old(log) <= log && NoneBroken(log, |old(log)|, broken)
      ensures ok ==> Built(g, log, d.project)
      ensures NoBranches(g) ==> old(markers) <= markers
      ensures Acyclic(g, rank) ==> RankedAtMost(log, |old(log)|, rank, rank(d.project))
      ensures Acyclic(g, rank) && rank(d.project) < fuel && broken == {} ==> ok
      ensures Plain(d.project) in old(markers) ==> ok
      ensures ok && d.branch != "" ==> Suffixed(d.project, d.branch) in markers
      // the branch itself was built just now exactly when neither marker was there
      ensures ok && d.branch != "" && d.project !in g.skips ==>
                (log != old(log) <==>
                   Suffixed(d.project, d.branch) !in old(markers) && Plain(d.project) !in old(markers))
      ensures ok && d.branch != "" && log != old(log) && d.project !in g.skips ==>
                log[|log| - 1] == Build(d.project, d.branch)
      decreases fuel, 2
    {
      if Suffixed(d.project, d.branch) in markers { return true; }
      ok := MakeTarget(g, d.project, if d.branch != "" then d.branch else rel, broken, fuel, rank);
      if !ok { return false; }
      if d.branch != "" { Rename(g, d, rank); }
    }

    /** mv of the plain marker to the branch's. */
    method Rename(g: Graph, d: Dep, ghost rank: Path -> nat)
      requires Valid(g, rank) && !NoBranches(g) && Plain(d.project) in markers
      modifies this`markers
      ensures Valid(g, rank)
      ensures markers == old(markers) - {Plain(d.project)} + {Suffixed(d.project, d.branch)}
    {
      assert Built(g, log, Plain(d.project).project);
      markers := markers - {Plain(d.project)} + {Suffixed(d.project, d.branch)};
    }

    /** build-all: first the projects that list dependencies, then the rest. For every graph and
        from every valid state, markers stay honest and builds ordered. On an acyclic graph without
        branch-qualified dependencies no project is ever built twice, also across failed runs and
        reruns; when nothing is broken the run succeeds, and success leaves every marker. */
    method BuildAllProjects(g: Graph, projects: seq<Path>, rel: string, broken: set<Path>, fuel: nat,
          ghost rank: Path -> nat)
      returns (ok: bool)
      requires Valid(g, rank)
      modifies this
      ensures Done(Now(), ok) == MakeAll(g, old(Now()), projects, rel, broken, fuel)
      ensures Valid(g, rank) && old(log) <= log && NoneBroken(log, |old(log)|, broken)
      ensures NoBranches(g) ==> old(markers) <= markers
      ensures ok && NoBranches(g) ==> forall p :: p in projects ==> Plain(p) in markers && Built(g, log, p)
      ensures Acyclic(g, rank) && broken == {} && (forall p :: p in projects ==> rank(p) < fuel) ==> ok
    {
      ok := true;
      ghost var first := MakeEach(g, Now(), projects, true, rel, broken, fuel);
      for i := 0 to |projects|
        invariant Valid(g, rank) && old(log) <= log && NoneBroken(log, |old(log)|, broken)
        invariant NoBranches(g) ==> old(markers) <= markers
        invariant MakeEach(g, Now(), projects[i..], true, rel, broken, fuel) == first
      {
        var p := projects[i];
        if Words(g, p) != [] && Plain(p) !in markers {
          ok := MakeTarget(g, p, rel, broken, fuel, rank);
          if !ok { return false; }
        }
      }
      for i := 0 to |projects|
        invariant Valid(g, rank) && old(log) <= log && NoneBroken(log, |old(log)|, broken)
        invariant NoBranches(g) ==> old(markers) <= markers
        invariant NoBranches(g) ==> forall k :: 0 <= k < i ==> Plain(projects[k]) in markers
        invariant MakeEach(g, Now(), projects[i..], false, rel, broken, fuel) ==
                  MakeEach(g, first.state, projects, false, rel, broken, fuel)
      {
        var p := projects[i];
        if Plain(p) !in markers {
          ok := MakeTarget(g, p, rel, broken, fuel, rank);
          if !ok { return false; }
        }
      }
    }
  }

  /** Built at one place in the log only, and after the project of every eksa word in its list. */
  ghost predicate BuiltOnceInOrder(g: Graph, log: seq<Build>, p: Path) {
    exists i ::
      && 0 <= i < |log| && log[i].project == p
      && (forall j :: 0 <= j < |log| && log[j].project == p ==> j == i)
      && (forall k :: 0 <= k < |Words(g, p)| && IsEksa(Words(g, p)[k]) ==>
            Built(g, log[..i], ReadDep(Words(g, p)[k]).project))
  }

  lemma ExactlyOnce(g: Graph, markers: set<Marker>, log: seq<Build>, p: Path)
    requires Honest(g, markers, log) && Ordered(g, log) && Once(markers, log)
    requires Plain(p) in markers && p !in g.skips
    ensures BuiltOnceInOrder(g, log, p)
  {
    assert Built(g, log, Plain(p).project);
    var i :| 0 <= i < |log| && log[i].project == p;
    forall k | 0 <= k < |Words(g, p)| && IsEksa(Words(g, p)[k])
      ensures Built(g, log[..i], ReadDep(Words(g, p)[k]).project)
    {
      EksaDepsAre(Words(g, p), ReadDep(Words(g, p)[k]));
    }
  }

  /** From an empty workspace, on any acyclic graph without branch-qualified dependencies and with
      nothing broken: build-all succeeds, leaves every marker, and builds each project that is not
      skipped exactly once and after its dependencies. */
  method BuildFromScratch(g: Graph, projects: seq<Path>, rel: string, fuel: nat, ghost rank: Path -> nat)
    returns (w: Workspace, ok: bool)
    requires Acyclic(g, rank) && NoBranches(g) && forall p :: p in projects ==> rank(p) < fuel
    ensures ok
    ensures forall p :: p in projects ==> Plain(p) in w.markers
    ensures forall p :: p in projects && p !in g.skips ==> BuiltOnceInOrder(g, w.log, p)
    ensures NoneSkipped(g, w.log)
  {
    w := new Workspace();
    ok := w.BuildAllProjects(g, projects, rel, {}, fuel, rank);
    forall p | p in projects && p !in g.skips ensures BuiltOnceInOrder(g, w.log, p) {
      ExactlyOnce(g, w.markers, w.log, p);
    }
  }

  /** Dependency words read back: the fourth field is the branch, a leading eksa and, with a branch, the last
      field are left off, and nothing else is. */
  lemma ReadDepWords(org: string, repo: string, branch: string, first: string, more: Path)
    ensures ReadDep(["eksa", org]) == Dep([org], "") && ReadDep(["eksa", org, repo]) == Dep([org, repo], "")
    ensures branch != "" ==> ReadDep(["eksa", org, repo, branch]) == Dep([org, repo], branch)
    ensures branch != "" && more != [] ==>
              ReadDep(["eksa", org, repo, branch] + more) == Dep([org, repo, branch] + more[..|more| - 1], branch)
    ensures first != "eksa" ==> ReadDep([first, org, repo]) == Dep([first, org, repo], "")
    ensures first != "eksa" && branch != "" ==> ReadDep([first, org, repo, branch]) == Dep([first, org, repo], branch)
    ensures first != "" ==> ReadDep([first]) == Dep(["."], first)
  {
    if branch != "" && more != [] {
      var word := ["eksa", org, repo, branch] + more;
      assert word[..|word| - 1] == ["eksa", org, repo, branch] + more[..|more| - 1];
    }
  }

  /** A project with no dependency of its own, one that depends on it, and one that depends on a
      release branch of it, built in this order. */
  lemma RenamedPlainBuild(g: Graph, q: Path, r: Path, p: Path)
    requires g.skips == {} && q != r && q != p && r != p
    requires Words(g, q) == [] && Words(g, r) != [] && Words(g, p) != []
    requires Deps(g, q) == [] && Deps(g, r) == [Dep(q, "")] && Deps(g, p) == [Dep(q, "1-27")]
    ensures var d := MakeAll(g, State({}, []), [r, p, q], "1-28", {}, 2);
            && d.ok && Suffixed(q, "1-27") in d.state.markers
            && d.state.log == [Build(q, "1-28"), Build(r, "1-28"), Build(p, "1-28"), Build(q, "1-28")]
  {
    var s0 := State({}, []);
    var s1 := State({Plain(q)}, [Build(q, "1-28")]);
    assert Make(g, s0, q, "1-28", {}, 1) == Done(s1, true);
    assert MakeDep(g, s0, Dep(q, ""), "1-28", {}, 1) == Done(s1, true);
    assert MakeDeps(g, s0, [Dep(q, "")], "1-28", {}, 2) == MakeDeps(g, s1, [], "1-28", {}, 2);
    var s2 := State({Plain(q), Plain(r)}, [Build(q, "1-28"), Build(r, "1-28")]);
    assert Make(g, s0, r, "1-28", {}, 2) == Done(s2, true);
    var s3 := State({Suffixed(q, "1-27"), Plain(r)}, s2.log);
    assert MakeDep(g, s2, Dep(q, "1-27"), "1-28", {}, 1) == Done(s3, true);
    assert MakeDeps(g, s2, [Dep(q, "1-27")], "1-28", {}, 2) == MakeDeps(g, s3, [], "1-28", {}, 2);
    var s4 := State(s3.markers + {Plain(p)}, s3.log + [Build(p, "1-28")]);
    assert Make(g, s2, p, "1-28", {}, 2) == Done(s4, true);
    assert [r, p, q][1..] == [p, q] && [p, q][1..] == [q] && [q][1..] == [];
    assert MakeEach(g, s0, [r, p, q], true, "1-28", {}, 2) == MakeEach(g, s2, [p, q], true, "1-28", {}, 2);
    assert MakeEach(g, s2, [p, q], true, "1-28", {}, 2) == MakeEach(g, s4, [q], true, "1-28", {}, 2);
    assert MakeEach(g, s4, [q], true, "1-28", {}, 2) == Done(s4, true);
    var s5 := State(s4.markers + {Plain(q)}, s4.log + [Build(q, "1-28")]);
    assert Make(g, s4, q, "1-28", {}, 2) == Done(s5, true);
    assert MakeEach(g, s4, [r, p, q], false, "1-28", {}, 2) == MakeEach(g, s4, [p, q], false, "1-28", {}, 2);
    assert MakeEach(g, s4, [p, q], false, "1-28", {}, 2) == MakeEach(g, s4, [q], false, "1-28", {}, 2);
    assert MakeEach(g, s4, [q], false, "1-28", {}, 2) == MakeEach(g, s5, [], false, "1-28", {}, 2);
  }

  lemma OneDependency(word: Path)
    requires word != [] && Occurs("eksa", word[0])
    ensures EksaDeps([word]) == [ReadDep(word)]
  {
    assert word[0] in word;
    EksaDepsOfOne(word);
  }

  /** With branch-qualified dependencies markers name branches that were not built: a whole build-all
      run in which the plain build of q is renamed to the marker of a branch that was never built, and
      q is then built a second time. */
  method BranchMarkerWithoutBranchBuild() returns (w: Workspace, ok: bool)
    ensures ok && Suffixed(["o", "q"], "1-27") in w.markers
    ensures w.log == [Build(["o", "q"], "1-28"), Build(["o", "r"], "1-28"),
                      Build(["o", "p"], "1-28"), Build(["o", "q"], "1-28")]
  {
    var q, r, p := ["o", "q"], ["o", "r"], ["o", "p"];
    var g := Graph(map[r := [["eksa", "o", "q"]], p := [["eksa", "o", "q", "1-27"]]], {});
    assert q[1] == "q" && r[1] == "r" && p[1] == "p" && "q" != "r" && "q" != "p" && "r" != "p" by {
      assert "q"[0] == 'q' && "r"[0] == 'r' && "p"[0] == 'p';
    }
    ReadDepWords("o", "q", "1-27", "", []);
    assert OccursAt("eksa", "eksa", 0);
    OneDependency(["eksa", "o", "q"]);
    OneDependency(["eksa", "o", "q", "1-27"]);
    RenamedPlainBuild(g, q, r, p);
    w := new Workspace();
    ghost var rank := (x: Path) => 0;
    ok := w.BuildAllProjects(g, [r, p, q], "1-28", {}, 2, rank);
  }
}
