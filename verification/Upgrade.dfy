/** One run of the version tracker's upgrade command on a fresh checkout of main, and any
    sequence of runs whose commits are merged. External commands answer from a record. */
module Upgrade {
  import opened Basics
  import opened Semver
  import opened Revision
  import opened Tracker
  import Bottlerocket

  /** Files that scripts and make targets write. */
  datatype Generated =
    | Readme(org: string, repo: string) | Checksums(org: string, repo: string)
    | Attribution(org: string, repo: string, name: string) | CiliumDigest(directory: string) | Elsewhere(path: string)

  datatype Path =
    | GitTagFile(org: string, repo: string) | GoVersionFile(org: string, repo: string)
    | TrackerFile | Rocket(file: Bottlerocket.File) | Gen(what: Generated)

  /** A state of main: the decoded tracker and Bottlerocket files, and the contents of the other files. */
  datatype Main = Main(tracker: Text, files: map<Path, string>, rocket: Bottlerocket.Files)

  /** How tags and Go versions read; the same in every run. */
  datatype Reader = Reader(parse: string -> Option<Semver.Version>, goMinor: string -> Option<int>)

  datatype Patches = Patches(total: nat, applied: Option<nat>)

  /** What the outside world answers during one run. A command that succeeds answers with the files it
      wrote, which need not be the files the run will list; glob is what the attribution pattern matches. */
  datatype Answers = Answers(
    upstream: Upstream, imageTags: seq<string>, goVersionOf: string -> Option<string>,
    readme: Option<seq<Generated>>, patches: Option<Patches>,
    checksums: Option<seq<Generated>>, glob: seq<string>,
    digests: Option<seq<Generated>>, generated: Generated -> string, feed: Bottlerocket.Feed)

  datatype Branch = NoBranch | ProjectBranch | BottlerocketBranch | CombinedBranch
  datatype Outcome =
    | Failed
    | Finished(main: Main, upgraded: bool, revision: string,
               staged: seq<Path>, written: seq<Path>, warning: bool, branch: Branch)

  /** The checkout during a run, the list of updated files, and every file written so far. */
  datatype Work = Work(
    tracker: Text, files: map<Path, string>, rocket: Bottlerocket.Files, staged: seq<Path>, written: seq<Path>)
  datatype Step = Stopped | Went(work: Work)

  function Checkout(m: Main): (w: Work) { Work(m.tracker, m.files, m.rocket, [], []) }

  ghost predicate SameFiles(a: seq<Path>, b: seq<Path>) { forall p :: p in a <==> p in b }

  function IsCilium(org: string, repo: string): (b: bool) { org == "cilium" && repo == "cilium" }
  function IsImageBuilder(org: string, repo: string): (b: bool) { org == "kubernetes-sigs" && repo == "image-builder" }

  predicate AllApplied(a: Answers) { a.patches.None? || a.patches.value.applied == Some(a.patches.value.total) }

  // ---- The version files and the tracker ----

  /** Only an existing version file is rewritten. */
  method UpdateProjectVersionFile(w: Work, path: Path, value: string) returns (s: Step)
    ensures s.Went? <==> path in w.files
    ensures s.Went? ==>
              s.work == w.(files := w.files[path := value + "\n"],
                           staged := w.staged + [path], written := w.written + [path])
  {
    if path !in w.files { return Stopped; }
    var w' := w.(files := w.files[path := value + "\n"], written := w.written + [path]);
    return Went(w'.(staged := w'.staged + [path]));
  }

  /** The Go version the tracker gets: only a higher minor version replaces the current one. */
  function NextGo(rd: Reader, a: Answers, current: string, revision: string): (g: Option<string>) {
    if current == "N/A" then Some("N/A")
    else if a.goVersionOf(revision).None? then None
    else
      var latest := a.goVersionOf(revision).value;
      if rd.goMinor(current).None? || rd.goMinor(latest).None? then None
      else if rd.goMinor(latest).value > rd.goMinor(current).value then Some(latest) else Some(current)
  }

  /** Exactly when tag file, Go version file and tracker can be updated. */
  predicate VersionsSucceed(files: map<Path, string>, rd: Reader, a: Answers, org: string, repo: string,
        revision: string, currentGo: string) {
    var go := NextGo(rd, a, currentGo, revision);
    GitTagFile(org, repo) in files && go.Some? && (go.value != currentGo ==> GoVersionFile(org, repo) in files)
  }

  function VersionFiles(files: map<Path, string>, org: string, repo: string, revision: string, currentGo: string,
        go: string): (files': map<Path, string>) {
    var tagged := files[GitTagFile(org, repo) := revision + "\n"];
    if go == currentGo then tagged else tagged[GoVersionFile(org, repo) := go + "\n"]
  }

  function VersionList(org: string, repo: string, currentGo: string, go: string): (ps: seq<Path>) {
    if go == currentGo then [GitTagFile(org, repo), TrackerFile]
      else [GitTagFile(org, repo), GoVersionFile(org, repo), TrackerFile]
  }

  function AfterVersions(w: Work, org: string, repo: string, place: Place, revision: string,
        current: Tracker.Version, go: string): (w': Work)
    requires place.At? && VersionsOf(w.tracker, place.p, place.r) == [current]
  {
    var changed := VersionList(org, repo, current.goVersion, go);
    w.(tracker := Replace(w.tracker, place.p, place.r, current.(tag := revision, goVersion := go)),
       files := VersionFiles(w.files, org, repo, revision, current.goVersion, go),
       staged := w.staged + changed, written := w.written + changed)
  }

  /** Tag file, Go version file and tracker change together or the run stops. */
  method UpdateVersions(w: Work, rd: Reader, a: Answers, org: string, repo: string, revision: string,
        current: Tracker.Version)
    returns (s: Step)
    requires var place := Find(w.tracker, org, repo, |w.tracker|);
             place.At? && VersionsOf(w.tracker, place.p, place.r) == [current]
    ensures s.Went? <==> VersionsSucceed(w.files, rd, a, org, repo, revision, current.goVersion)
    ensures s.Went? ==>
              s.work == AfterVersions(w, org, repo, Find(w.tracker, org, repo, |w.tracker|), revision, current,
                                      NextGo(rd, a, current.goVersion, revision).value)
  {
    s := UpdateProjectVersionFile(w, GitTagFile(org, repo), revision);
    if s.Stopped? { return; }
    var go := current.goVersion;
    if current.goVersion != "N/A" {
      var latest := a.goVersionOf(revision);
      if latest.None? { return Stopped; }
      var currentMinor, latestMinor := rd.goMinor(current.goVersion), rd.goMinor(latest.value);
      if currentMinor.None? || latestMinor.None? { return Stopped; }
      if latestMinor.value > currentMinor.value {
        go := latest.value;
        s := UpdateProjectVersionFile(s.work, GoVersionFile(org, repo), go);
        if s.Stopped? { return; }
      }
    } else {
      go := "N/A";
    }
    var updated := UpdateTracker(w.tracker, org, repo, revision, go);
    if updated.NoVersions? { return Stopped; }
    s := Went(s.work.(tracker := updated.text, written := s.work.written + [TrackerFile]));
    s := Went(s.work.(staged := s.work.staged + [TrackerFile]));
  }

  // ---- Generated files ----

  const CILIUM_DIRECTORIES := ["cilium", "operator-generic", "cilium-chart"]

  function Elems(gs: seq<Generated>): (s: set<Generated>) { set g | g in gs }
  function Gens(gs: seq<Generated>): (ps: seq<Path>) { seq(|gs|, i requires 0 <= i < |gs| => Gen(gs[i])) }

  lemma GensIn(gs: seq<Generated>, p: Path)
    ensures p in Gens(gs) <==> p.Gen? && p.what in gs
  {
    if p.Gen? && p.what in gs {
      var i :| 0 <= i < |gs| && gs[i] == p.what;
      assert Gens(gs)[i] == p;
    }
  }

  /** The files with some of them written anew. */
  function Overlay(files: map<Path, string>, gs: set<Generated>, content: Generated -> string): (files': map<Path,
        string>) {
    map p | p in files.Keys + (set g | g in gs :: Gen(g)) :: if p.Gen? && p.what in gs then content(p.what)
      else files[p]
  }

  lemma OverlayTwice(files: map<Path, string>, x: seq<Generated>, y: seq<Generated>, content: Generated -> string)
    ensures Overlay(Overlay(files, Elems(x), content), Elems(y), content) == Overlay(files, Elems(x + y), content)
    ensures Gens(x + y) == Gens(x) + Gens(y)
  {
    assert Elems(x + y) == Elems(x) + Elems(y);
  }

  lemma OverlayOne(files: map<Path, string>, done: seq<Generated>, g: Generated, content: Generated -> string)
    ensures Overlay(files, Elems(done + [g]), content) == Overlay(files, Elems(done), content)[Gen(g) := content(g)]
    ensures Gens(done + [g]) == Gens(done) + [Gen(g)]
  {
    assert Elems(done + [g]) == Elems(done) + {g};
    OverlayAdd(files, Elems(done), g, content);
  }

  lemma OverlayAdd(files: map<Path, string>, gs: set<Generated>, g: Generated, content: Generated -> string)
    ensures Overlay(files, gs + {g}, content) == Overlay(files, gs, content)[Gen(g) := content(g)]
  {
  }

  lemma OverlayHas(files: map<Path, string>, gs: seq<Generated>, content: Generated -> string, g: Generated)
    ensures Gen(g) in Overlay(files, Elems(gs), content) <==> Gen(g) in files || g in gs
  {
  }

  /** A script or make target writes these files. */
  method Generate(w: Work, a: Answers, gs: seq<Generated>) returns (w': Work)
    ensures w' == w.(files := Overlay(w.files, Elems(gs), a.generated), written := w.written + Gens(gs))
  {
    w' := w;
    for i := 0 to |gs|
      invariant w' == w.(files := Overlay(w.files, Elems(gs[..i]), a.generated), written := w.written + Gens(gs[..i]))
    {
      assert gs[..i + 1] == gs[..i] + [gs[i]];
      OverlayOne(w.files, gs[..i], gs[i], a.generated);
      w' := w'.(files := w'.files[Gen(gs[i]) := a.generated(gs[i])], written := w'.written + [Gen(gs[i])]);
    }
    assert gs[..|gs|] == gs;
  }

  function Writes(command: Option<seq<Generated>>): (gs: seq<Generated>) { if command.Some? then command.value else [] }

  /** The checksums file is in the checkout when it is looked for, after the README script. */
  predicate HasChecksums(files: map<Path, string>, a: Answers, org: string, repo: string) {
    Gen(Checksums(org, repo)) in files || Checksums(org, repo) in Writes(a.readme)
  }

  /** Checksums and attributions are updated only when no patch was left out. */
  predicate UpdatesChecksums(files: map<Path, string>, a: Answers, org: string, repo: string) {
    AllApplied(a) && HasChecksums(files, a, org, repo)
  }

  function ChecksumPlan(a: Answers, org: string, repo: string): (gs: seq<Generated>) {
    [Checksums(org, repo)] + seq(|a.glob|, k requires 0 <= k < |a.glob| => Attribution(org, repo, a.glob[k]))
  }

  function DigestPlan(): (gs: seq<Generated>) {
    seq(|CILIUM_DIRECTORIES|, k requires 0 <= k < |CILIUM_DIRECTORIES| => CiliumDigest(CILIUM_DIRECTORIES[k]))
  }

  /** The generated files the run lists, known without looking at what the commands did. */
  function Plan(files: map<Path, string>, a: Answers, org: string, repo: string): (gs: seq<Generated>) {
    [Readme(org, repo)]
    + (if UpdatesChecksums(files, a, org, repo) then ChecksumPlan(a, org, repo) else [])
    + (if IsCilium(org, repo) then DigestPlan() else [])
  }

  /** The generated files the commands of the run really write. */
  function Wrote(files: map<Path, string>, a: Answers, org: string, repo: string): (gs: seq<Generated>) {
    Writes(a.readme)
    + (if UpdatesChecksums(files, a, org, repo) then Writes(a.checksums) else [])
    + (if IsCilium(org, repo) then Writes(a.digests) else [])
  }

  predicate GeneratedSucceeds(files: map<Path, string>, a: Answers, org: string, repo: string) {
    && a.readme.Some? && (a.patches.Some? ==> a.patches.value.applied.Some?)
    && (UpdatesChecksums(files, a, org, repo) ==> a.checksums.Some?) && (IsCilium(org, repo) ==> a.digests.Some?)
  }

  function AfterGenerated(w: Work, files: map<Path, string>, a: Answers, org: string, repo: string): (w': Work) {
    w.(files := Overlay(w.files, Elems(Wrote(files, a, org, repo)), a.generated),
       staged := w.staged + Gens(Plan(files, a, org, repo)), written := w.written + Gens(Wrote(files, a, org, repo)))
  }

  /** Both lists follow the commands one by one. */
  predicate Follows(w: Work, cur: Work, a: Answers, plan: seq<Generated>, wrote: seq<Generated>) {
    cur == w.(files := Overlay(w.files, Elems(wrote), a.generated),
              staged := w.staged + Gens(plan), written := w.written + Gens(wrote))
  }

  method ListFiles(w: Work, gs: seq<Generated>) returns (w': Work)
    ensures w' == w.(staged := w.staged + Gens(gs))
  {
    w' := w;
    for k := 0 to |gs|
      invariant w' == w.(staged := w.staged + Gens(gs[..k]))
    {
      w' := w'.(staged := w'.staged + [Gen(gs[k])]);
      assert Gens(gs[..k + 1]) == Gens(gs[..k]) + [Gen(gs[k])];
    }
    assert gs[..|gs|] == gs;
  }

  /** One command, then the listing of its files. */
  method RunCommand(ghost w: Work, cur: Work, a: Answers, writes: seq<Generated>, lists: seq<Generated>,
        ghost plan: seq<Generated>, ghost wrote: seq<Generated>)
    returns (next: Work)
    requires Follows(w, cur, a, plan, wrote)
    ensures Follows(w, next, a, plan + lists, wrote + writes)
  {
    next := Generate(cur, a, writes);
    next := ListFiles(next, lists);
    OverlayTwice(w.files, wrote, writes, a.generated);
    OverlayTwice(w.files, plan, lists, a.generated);
  }

  /** The README script, and the look for the checksums file afterwards. */
  method UpdateReadme(w: Work, a: Answers, org: string, repo: string) returns (cur: Work, hasChecksums: bool)
    requires a.readme.Some?
    ensures Follows(w, cur, a, [Readme(org, repo)], Writes(a.readme))
    ensures hasChecksums <==> HasChecksums(w.files, a, org, repo)
  {
    assert Follows(w, w, a, [], []);
    cur := RunCommand(w, w, a, a.readme.value, [Readme(org, repo)], [], []);
    assert [] + [Readme(org, repo)] == [Readme(org, repo)] && [] + a.readme.value == Writes(a.readme);
    hasChecksums := Gen(Checksums(org, repo)) in cur.files;
    OverlayHas(w.files, Writes(a.readme), a.generated, Checksums(org, repo));
  }

  /** README, patches, checksums and attribution files, Cilium digests. */
  method UpdateGenerated(w: Work, a: Answers, org: string, repo: string) returns (s: Step, warning: bool)
    ensures s.Went? <==> GeneratedSucceeds(w.files, a, org, repo)
    ensures s.Went? ==> s.work == AfterGenerated(w, w.files, a, org, repo) && (warning <==> !AllApplied(a))
  {
    warning := false;
    if a.readme.None? { return Stopped, false; }
    var cur, hasChecksums := UpdateReadme(w, a, org, repo);
    ghost var plan, wrote := [Readme(org, repo)], Writes(a.readme);
    var patchApplySucceeded := false;
    if a.patches.Some? {
      if a.patches.value.applied.None? { return Stopped, false; }
      patchApplySucceeded := a.patches.value.applied.value == a.patches.value.total;
      if !patchApplySucceeded { warning := true; }
    }
    if a.patches.None? || patchApplySucceeded {
      if hasChecksums {
        if a.checksums.None? { return Stopped, warning; }
        cur := RunCommand(w, cur, a, a.checksums.value, ChecksumPlan(a, org, repo), plan, wrote);
        plan, wrote := plan + ChecksumPlan(a, org, repo), wrote + a.checksums.value;
      }
    }
    if IsCilium(org, repo) {
      if a.digests.None? { return Stopped, warning; }
      cur := RunCommand(w, cur, a, a.digests.value, DigestPlan(), plan, wrote);
      plan, wrote := plan + DigestPlan(), wrote + a.digests.value;
    }
    assert plan == Plan(w.files, a, org, repo) && wrote == Wrote(w.files, a, org, repo);
    return Went(cur), warning;
  }

  ghost predicate SameVersionFiles(f: map<Path, string>, g: map<Path, string>) {
    forall p: Path :: p.GitTagFile? || p.GoVersionFile? ==> (p in f <==> p in g) && (p in f ==> f[p] == g[p])
  }

  // ---- Agreement of tracker and version files ----

  /** A tag-tracked project without release branches. */
  predicate Tagged(vs: seq<Tracker.Version>) { |vs| == 1 && vs[0].tag != "" }

  ghost predicate AgreesAt(m: Main, p: nat, r: nat) {
    p < |m.tracker| && r < |m.tracker[p].repos| && Tagged(m.tracker[p].repos[r].versions) ==>
      var tagFile := GitTagFile(m.tracker[p].org, m.tracker[p].repos[r].name);
      var goFile := GoVersionFile(m.tracker[p].org, m.tracker[p].repos[r].name);
      var v := m.tracker[p].repos[r].versions[0];
      && tagFile in m.files && m.files[tagFile] == v.tag + "\n"
      && (v.goVersion != "N/A" ==> goFile in m.files && m.files[goFile] == v.goVersion + "\n")
  }

  /** Every tracked tag and Go version is what the project's own files say. */
  ghost predicate Consistent(m: Main) { forall p: nat, r: nat :: AgreesAt(m, p, r) }

  /** No project is listed twice. */
  ghost predicate Unique(t: Text) {
    forall p: nat, r: nat, q: nat, s: nat ::
      p < |t| && r < |t[p].repos| && q < |t| && s < |t[q].repos| ==>
        (t[p].org == t[q].org && t[p].repos[r].name == t[q].repos[s].name ==> p == q && r == s)
  }

  predicate NotLower(rd: Reader, old_: string, new_: string) {
    old_ == new_ || (rd.parse(old_).Some? && rd.parse(new_).Some? &&
      GreaterThan(rd.parse(new_).value, rd.parse(old_).value))
  }

  predicate GoNotLower(rd: Reader, old_: string, new_: string) {
    old_ == new_ || (rd.goMinor(old_).Some? && rd.goMinor(new_).Some? &&
      rd.goMinor(new_).value > rd.goMinor(old_).value)
  }

  /** Same projects in the same places, commits unchanged, no Go minor version lower, and, when tags
      are asked about, no tag lower either. */
  ghost predicate AdvancesAt(rd: Reader, t: Text, u: Text, tags: bool, p: nat, r: nat) {
    p < |t| && r < |t[p].repos| ==>
      && p < |u| && r < |u[p].repos|
      && t[p].org == u[p].org && t[p].repos[r].name == u[p].repos[r].name
      && |t[p].repos[r].versions| == |u[p].repos[r].versions|
      && forall k :: 0 <= k < |t[p].repos[r].versions| ==>
           var a, b := t[p].repos[r].versions[k], u[p].repos[r].versions[k];
           a.commit == b.commit && GoNotLower(rd, a.goVersion, b.goVersion) && (tags ==> NotLower(rd, a.tag, b.tag))
  }

  ghost predicate SameShape(t: Text, u: Text) {
    |t| == |u| && forall p :: 0 <= p < |t| ==> t[p].org == u[p].org && |t[p].repos| == |u[p].repos|
  }

  ghost predicate Advances(rd: Reader, t: Text, u: Text, tags: bool) {
    SameShape(t, u) && forall p: nat, r: nat :: AdvancesAt(rd, t, u, tags, p, r)
  }

  lemma AdvancesTransitive(rd: Reader, t: Text, u: Text, w: Text, tags: bool)
    requires Advances(rd, t, u, tags) && Advances(rd, u, w, tags)
    ensures Advances(rd, t, w, tags)
  {
    forall p: nat, r: nat ensures AdvancesAt(rd, t, w, tags, p, r) {
      assert AdvancesAt(rd, t, u, tags, p, r) && AdvancesAt(rd, u, w, tags, p, r);
      if p < |t| && r < |t[p].repos| && tags {
        forall k | 0 <= k < |t[p].repos[r].versions|
          ensures NotLower(rd, t[p].repos[r].versions[k].tag, w[p].repos[r].versions[k].tag)
        {
          NotLowerTransitive(rd, t[p].repos[r].versions[k].tag, u[p].repos[r].versions[k].tag,
            w[p].repos[r].versions[k].tag);
        }
      }
    }
  }

  lemma NotLowerTransitive(rd: Reader, a: string, b: string, c: string)
    requires NotLower(rd, a, b) && NotLower(rd, b, c)
    ensures NotLower(rd, a, c)
  {
    if a != b && b != c {
      PrecedenceIsTotalOrder(rd.parse(c).value, rd.parse(b).value, rd.parse(a).value);
    }
  }

  lemma ReplaceAdvances(rd: Reader, t: Text, p: nat, r: nat, v: Tracker.Version, tags: bool)
    requires p < |t| && r < |t[p].repos| && |t[p].repos[r].versions| == 1
    requires var old_ := t[p].repos[r].versions[0];
             && v.commit == old_.commit && GoNotLower(rd, old_.goVersion, v.goVersion)
             && (tags ==> NotLower(rd, old_.tag, v.tag))
    ensures Advances(rd, t, Replace(t, p, r, v), tags)
  {
  }

  /** A run's version step keeps tracker and files in agreement, for the project and for all others. */
  lemma VersionsStayConsistent(m: Main, org: string, repo: string, place: Place, revision: string,
        current: Tracker.Version, go: string, after: Main)
    requires Consistent(m) && Unique(m.tracker)
    requires place.At? && Matches(m.tracker, org, repo, place.p, place.r)
    requires VersionsOf(m.tracker, place.p, place.r) == [current] && current.tag != ""
    requires after.tracker == Replace(m.tracker, place.p, place.r, current.(tag := revision, goVersion := go))
    requires SameVersionFiles(VersionFiles(m.files, org, repo, revision, current.goVersion, go), after.files)
    ensures Consistent(after) && Unique(after.tracker)
  {
    assert AgreesAt(m, place.p, place.r);
    forall p: nat, r: nat ensures AgreesAt(after, p, r) {
      assert AgreesAt(m, p, r);
      if p < |m.tracker| && r < |m.tracker[p].repos| && !(p == place.p && r == place.r) {
        assert after.tracker[p].repos[r] == m.tracker[p].repos[r];
        assert m.tracker[p].org != org || m.tracker[p].repos[r].name != repo;
      }
    }
    forall p: nat | p < |m.tracker|
      ensures after.tracker[p].org == m.tracker[p].org && |after.tracker[p].repos| == |m.tracker[p].repos|
      ensures forall r :: 0 <= r < |m.tracker[p].repos| ==> after.tracker[p].repos[r].name == m.tracker[p].repos[r].name
    {
    }
  }

  // ---- What a run does, independently of its steps ----

  /** The versions the run upgrades: exactly one, with a tag. */
  predicate Upgradable(t: Text, org: string, repo: string) {
    var place := Find(t, org, repo, |t|); place.At? && Tagged(VersionsOf(t, place.p, place.r))
  }

  function CurrentOf(t: Text, org: string, repo: string): (v: Tracker.Version)
    requires Upgradable(t, org, repo)
  {
    var place := Find(t, org, repo, |t|); VersionsOf(t, place.p, place.r)[0]
  }

  /** Tags are compared by version in this run: not a project with neither releases nor tags. */
  predicate ComparesTags(a: Answers, org: string, repo: string) {
    IsCilium(org, repo) || Candidates(a.upstream) != []
  }

  /** The revision comes from the image tags for Cilium, and from GitHub otherwise. */
  function Answer(rd: Reader, a: Answers, org: string, repo: string, current: string): (res: Revision.Result) {
    if IsCilium(org, repo) then LatestImageTag(a.imageTags, rd.parse, current)
    else LatestRevision(a.upstream.(parse := rd.parse), current)
  }

  function FeedOf(rd: Reader,
        a: Answers): (f: Bottlerocket.Feed) { a.feed.(upstream := a.feed.upstream.(parse := rd.parse)) }

  /** Each range over the Bottlerocket channels visits every channel once. */
  ghost predicate Ranges(m: Main, rd: Reader, a: Answers, org: string, repo: string) {
    IsImageBuilder(org, repo) ==> Bottlerocket.Fits(m.rocket, FeedOf(rd, a))
  }

  /** git add finds every listed file: the commands wrote it, or it was on main. */
  predicate Addable(files: map<Path, string>, a: Answers, org: string, repo: string) {
    forall g :: g in Plan(files, a, org, repo) ==> g in Wrote(files, a, org, repo) || Gen(g) in files
  }

  /** Exactly when the project itself is upgraded to the revision without an error. */
  predicate UpgradeSucceeds(m: Main, rd: Reader, a: Answers, org: string, repo: string, revision: string)
    requires Upgradable(m.tracker, org, repo)
  {
    && VersionsSucceed(m.files, rd, a, org, repo, revision, CurrentOf(m.tracker, org, repo).goVersion)
    && GeneratedSucceeds(m.files, a, org, repo) && Addable(m.files, a, org, repo)
  }

  /** Exactly when a run ends without an error. */
  predicate Succeeds(m: Main, rd: Reader, a: Answers, org: string, repo: string) {
    && Upgradable(m.tracker, org, repo)
    && var found := Answer(rd, a, org, repo, CurrentOf(m.tracker, org, repo).tag);
       && found.Latest?
       && (found.needsUpgrade ==> UpgradeSucceeds(m, rd, a, org, repo, found.revision))
       && (IsImageBuilder(org, repo) ==> Bottlerocket.Succeeds(m.rocket, FeedOf(rd, a)))
  }

  /** The tracker and the files of main after an upgrade of the project: its entry, its version files, and
      of the generated files those that are both listed and written. */
  function UpgradedTracker(m: Main, rd: Reader, a: Answers, org: string, repo: string, revision: string): (t: Text)
    requires Upgradable(m.tracker, org, repo) && UpgradeSucceeds(m, rd, a, org, repo, revision)
  {
    var place, current := Find(m.tracker, org, repo, |m.tracker|), CurrentOf(m.tracker, org, repo);
    Replace(m.tracker, place.p, place.r,
      current.(tag := revision, goVersion := NextGo(rd, a, current.goVersion, revision).value))
  }

  function UpgradedFiles(m: Main, rd: Reader, a: Answers, org: string, repo: string,
        revision: string): (files: map<Path, string>)
    requires Upgradable(m.tracker, org, repo) && UpgradeSucceeds(m, rd, a, org, repo, revision)
  {
    var currentGo := CurrentOf(m.tracker, org, repo).goVersion;
    Overlay(VersionFiles(m.files, org, repo, revision, currentGo, NextGo(rd, a, currentGo, revision).value),
            Elems(Plan(m.files, a, org, repo)) * Elems(Wrote(m.files, a, org, repo)), a.generated)
  }

  /** Main after the merge of a successful run. */
  function AfterRun(m: Main, rd: Reader, a: Answers, org: string, repo: string): (m': Main)
    requires Succeeds(m, rd, a, org, repo)
  {
    var found := Answer(rd, a, org, repo, CurrentOf(m.tracker, org, repo).tag);
    Main(if found.needsUpgrade then UpgradedTracker(m, rd, a, org, repo, found.revision) else m.tracker,
         if found.needsUpgrade then UpgradedFiles(m, rd, a, org, repo, found.revision) else m.files,
         if IsImageBuilder(org, repo) then Bottlerocket.After(m.rocket, FeedOf(rd, a)) else m.rocket)
  }

  // ---- The commit ----

  /** git add of the staged files, a commit, and its merge: everything else stays as on main. */
  function Merge(m: Main, w: Work): (m': Main) {
    Main(if TrackerFile in w.staged then w.tracker else m.tracker,
         map p | p in m.files.Keys + w.files.Keys && (if p in w.staged then p in w.files else p in m.files)
           :: if p in w.staged then w.files[p] else m.files[p],
         MergeRocket(m, w))
  }

  function MergeRocket(m: Main, w: Work): (b: Bottlerocket.Files) {
    var old_, new_ := m.rocket.containers, w.rocket.containers;
    Bottlerocket.Files(
      if Rocket(Bottlerocket.ReleasesFile) in w.staged then w.rocket.releases else m.rocket.releases,
      map c | c in old_.Keys + new_.Keys &&
        (if Rocket(Bottlerocket.ContainerFile(c)) in w.staged then c in new_ else c in old_)
        :: if Rocket(Bottlerocket.ContainerFile(c)) in w.staged then new_[c] else old_[c])
  }

  predicate Exists(w: Work, p: Path) {
    match p
    case TrackerFile => true
    case Rocket(ReleasesFile) => w.rocket.releases.Some?
    case Rocket(ContainerFile(c)) => c in w.rocket.containers
    case _ => p in w.files
  }

  method AddAll(w: Work) returns (ok: bool)
    ensures ok <==> forall p :: p in w.staged ==> Exists(w, p)
  {
    for i := 0 to |w.staged|
      invariant forall k :: 0 <= k < i ==> Exists(w, w.staged[k])
    {
      if !Exists(w, w.staged[i]) { return false; }
    }
    return true;
  }

  function Rockets(fs: seq<Bottlerocket.File>): (ps: seq<Path>) { seq(|fs|, i requires 0 <= i < |fs| => Rocket(fs[i])) }

  lemma RocketsIn(fs: seq<Bottlerocket.File>, p: Path)
    ensures p in Rockets(fs) <==> p.Rocket? && p.file in fs
  {
    if p.Rocket? && p.file in fs {
      var i :| 0 <= i < |fs| && fs[i] == p.file;
      assert Rockets(fs)[i] == p;
    }
  }

  /** What the steps of a successful run leave in the checkout. */
  function ProjectWork(m: Main, rd: Reader, a: Answers, org: string, repo: string, revision: string): (w: Work)
    requires Upgradable(m.tracker, org, repo)
    requires VersionsSucceed(m.files, rd, a, org, repo, revision, CurrentOf(m.tracker, org, repo).goVersion)
  {
    var place, current := Find(m.tracker, org, repo, |m.tracker|), CurrentOf(m.tracker, org, repo);
    AfterGenerated(AfterVersions(Checkout(m), org, repo, place, revision, current,
      NextGo(rd, a, current.goVersion, revision).value), m.files, a, org, repo)
  }

  function WithRocket(w: Work, now: Bottlerocket.Files, listed: seq<Bottlerocket.File>): (w': Work) {
    w.(rocket := now, staged := w.staged + Rockets(listed), written := w.written + Rockets(listed))
  }

  /** Merging the staged Bottlerocket files gives all that was updated. */
  lemma MergedRocket(m: Main, f: Bottlerocket.Feed, w: Work)
    requires Bottlerocket.Succeeds(m.rocket, f) && w.rocket == Bottlerocket.After(m.rocket, f)
    requires forall p: Bottlerocket.File :: Rocket(p) in w.staged <==> p in Bottlerocket.Listed(m.rocket, f)
    ensures MergeRocket(m, w) == Bottlerocket.After(m.rocket, f)
  {
    forall c ensures c in m.rocket.containers <==> c in w.rocket.containers
             ensures c in m.rocket.containers && Rocket(Bottlerocket.ContainerFile(c)) !in w.staged ==>
                       w.rocket.containers[c] == m.rocket.containers[c]
    {
      Bottlerocket.ListedAreChanged(m.rocket, f, c);
    }
    Bottlerocket.ListedAreChanged(m.rocket, f, "");
  }

  lemma ListedExist(b: Bottlerocket.Files, f: Bottlerocket.Feed, p: Bottlerocket.File)
    requires Bottlerocket.Succeeds(b, f) && p in Bottlerocket.Listed(b, f)
    ensures var now := Bottlerocket.After(b, f);
            match p case ReleasesFile => now.releases.Some? case ContainerFile(c) => c in now.containers
  {
    if p.ContainerFile? { Bottlerocket.ListedAreChanged(b, f, p.container); }
  }

  /** Which paths an upgrade of the project stages, and which of them exist. */
  lemma ProjectStaged(m: Main, rd: Reader, a: Answers, org: string, repo: string, revision: string, p: Path)
    requires Upgradable(m.tracker, org, repo)
    requires VersionsSucceed(m.files, rd, a, org, repo, revision, CurrentOf(m.tracker, org, repo).goVersion)
    ensures var w := ProjectWork(m, rd, a, org, repo, revision);
            var currentGo := CurrentOf(m.tracker, org, repo).goVersion;
            && (p in w.staged <==>
                  || p == GitTagFile(org, repo) || p == TrackerFile
                  || (p == GoVersionFile(org, repo) && NextGo(rd, a, currentGo, revision).value != currentGo)
                  || (p.Gen? && p.what in Plan(m.files, a, org, repo)))
            && (p in w.written <==>
                  || p == GitTagFile(org, repo) || p == TrackerFile
                  || (p == GoVersionFile(org, repo) && NextGo(rd, a, currentGo, revision).value != currentGo)
                  || (p.Gen? && p.what in Wrote(m.files, a, org, repo)))
  {
    GensIn(Plan(m.files, a, org, repo), p);
    GensIn(Wrote(m.files, a, org, repo), p);
  }

  lemma MergedFileAt(m: Main, rd: Reader, a: Answers, org: string, repo: string, revision: string, w: Work, p: Path)
    requires Upgradable(m.tracker, org, repo) && UpgradeSucceeds(m, rd, a, org, repo, revision)
    requires w.files == ProjectWork(m, rd, a, org, repo, revision).files
    requires p.Rocket? || (p in w.staged <==> p in ProjectWork(m, rd, a, org, repo, revision).staged)
    ensures var want, have := UpgradedFiles(m, rd, a, org, repo, revision), Merge(m, w).files;
            (p in want <==> p in have) && (p in want ==> want[p] == have[p])
  {
    var currentGo := CurrentOf(m.tracker, org, repo).goVersion;
    var versions := VersionFiles(m.files, org, repo, revision, currentGo, NextGo(rd, a, currentGo, revision).value);
    ProjectStaged(m, rd, a, org, repo, revision, p);
    match p {
      case Gen(g) => assert p in versions <==> p in m.files;
      case _ => assert p in w.files <==> p in versions;
    }
  }

  lemma MergedFiles(m: Main, rd: Reader, a: Answers, org: string, repo: string, revision: string, w: Work)
    requires Upgradable(m.tracker, org, repo) && UpgradeSucceeds(m, rd, a, org, repo, revision)
    requires w.files == ProjectWork(m, rd, a, org, repo, revision).files
    requires forall p: Path :: !p.Rocket? ==>
               (p in w.staged <==> p in ProjectWork(m, rd, a, org, repo, revision).staged)
    ensures Merge(m, w).files == UpgradedFiles(m, rd, a, org, repo, revision)
  {
    var want, have := UpgradedFiles(m, rd, a, org, repo, revision), Merge(m, w).files;
    forall p: Path ensures (p in want <==> p in have) && (p in want ==> want[p] == have[p]) {
      MergedFileAt(m, rd, a, org, repo, revision, w, p);
    }
  }

  // ---- What every run keeps ----

  lemma AdvancesReflexive(rd: Reader, t: Text)
    ensures Advances(rd, t, t, true) && Advances(rd, t, t, false)
  {
  }

  lemma AdvancesWeaker(rd: Reader, t: Text, u: Text)
    requires Advances(rd, t, u, true)
    ensures Advances(rd, t, u, false)
  {
    forall p: nat, r: nat ensures AdvancesAt(rd, t, u, false, p, r) { assert AdvancesAt(rd, t, u, true, p, r); }
  }

  /** An upgrade answer is not lower than the current tag where tags are compared. */
  lemma AnswerNotLower(rd: Reader, a: Answers, org: string, repo: string, current: string)
    ensures var res := Answer(rd, a, org, repo, current);
            res.Latest? && res.needsUpgrade && ComparesTags(a, org, repo) ==> NotLower(rd, current, res.revision)
  {
    if IsCilium(org, repo) {
      LatestImageTagIsAnswer(a.imageTags, rd.parse, current);
    } else {
      UpgradeIsNewer(a.upstream.(parse := rd.parse), current);
    }
  }

  lemma RunAdvances(m: Main, rd: Reader, a: Answers, org: string, repo: string)
    requires Succeeds(m, rd, a, org, repo)
    ensures Advances(rd, m.tracker, AfterRun(m, rd, a, org, repo).tracker, ComparesTags(a, org, repo))
  {
    AdvancesReflexive(rd, m.tracker);
    var place, current := Find(m.tracker, org, repo, |m.tracker|), CurrentOf(m.tracker, org, repo);
    var found := Answer(rd, a, org, repo, current.tag);
    if found.needsUpgrade {
      AnswerNotLower(rd, a, org, repo, current.tag);
      var go := NextGo(rd, a, current.goVersion, found.revision).value;
      ReplaceAdvances(rd, m.tracker, place.p, place.r, current.(tag := found.revision, goVersion := go),
        ComparesTags(a, org, repo));
    }
  }

  lemma RunStaysConsistent(m: Main, rd: Reader, a: Answers, org: string, repo: string)
    requires Succeeds(m, rd, a, org, repo) && Consistent(m) && Unique(m.tracker)
    ensures Consistent(AfterRun(m, rd, a, org, repo)) && Unique(AfterRun(m, rd, a, org, repo).tracker)
  {
    var place, current := Find(m.tracker, org, repo, |m.tracker|), CurrentOf(m.tracker, org, repo);
    var found, after := Answer(rd, a, org, repo, current.tag), AfterRun(m, rd, a, org, repo);
    if found.needsUpgrade {
      VersionsStayConsistent(m, org, repo, place, found.revision, current,
        NextGo(rd, a, current.goVersion, found.revision).value, after);
    } else {
      forall p: nat, r: nat ensures AgreesAt(after, p, r) { assert AgreesAt(m, p, r); }
    }
  }

  lemma RunKeepsChannels(m: Main, rd: Reader, a: Answers, org: string, repo: string)
    requires Succeeds(m, rd, a, org, repo)
    ensures SameChannels(m, AfterRun(m, rd, a, org, repo))
  {
    if IsImageBuilder(org, repo) { Bottlerocket.FitsAfter(m.rocket, FeedOf(rd, a)); }
  }

  ghost predicate SameChannels(m: Main, n: Main) {
    && (m.rocket.releases.Some? <==> n.rocket.releases.Some?)
    && (m.rocket.releases.Some? ==> m.rocket.releases.value.Keys == n.rocket.releases.value.Keys)
  }

  // ---- The whole run ----

  method FindRevision(rd: Reader, a: Answers, org: string, repo: string, current: string) returns (res: Revision.Result)
    ensures res == Answer(rd, a, org, repo, current)
  {
    if IsCilium(org, repo) {
      res := GetLatestImageTag(a.imageTags, rd.parse, current);
    } else {
      res := GetLatestRevision(a.upstream.(parse := rd.parse), current);
    }
  }

  /** The upgrade of the project itself, when a newer revision was found. */
  method UpgradeProject(m: Main, rd: Reader, a: Answers, org: string, repo: string, revision: string)
    returns (s: Step, warning: bool)
    requires Upgradable(m.tracker, org, repo)
    ensures s.Went? <==>
              && VersionsSucceed(m.files, rd, a, org, repo, revision, CurrentOf(m.tracker, org, repo).goVersion)
              && GeneratedSucceeds(m.files, a, org, repo)
    ensures s.Went? ==> s.work == ProjectWork(m, rd, a, org, repo, revision) && (warning <==> !AllApplied(a))
  {
    warning := false;
    var current := CurrentOf(m.tracker, org, repo);
    s := UpdateVersions(Checkout(m), rd, a, org, repo, revision, current);
    if s.Went? { s, warning := UpdateGenerated(s.work, a, org, repo); }
  }

  /** The Bottlerocket files of image-builder; the branch is named after what was updated. */
  method UpgradeBottlerocket(w: Work, f: Bottlerocket.Feed, branch: Branch) returns (s: Step, name: Branch)
    requires Bottlerocket.Fits(w.rocket, f)
    ensures s.Went? <==> Bottlerocket.Succeeds(w.rocket, f)
    ensures s.Went? ==> s.work == WithRocket(w, Bottlerocket.After(w.rocket, f), Bottlerocket.Listed(w.rocket, f))
    ensures s.Went? ==>
              name == if !Bottlerocket.Answer(w.rocket, f).needsUpgrade then branch
                      else if w.staged == [] then BottlerocketBranch else CombinedBranch
  {
    name := branch;
    var b := Bottlerocket.UpdateVersionFiles(w.rocket, f);
    if b.Stopped? { return Stopped, name; }
    var w' := w.(rocket := b.files, written := w.written + Rockets(b.written));
    if |b.listed| > 0 {
      w' := w'.(staged := w'.staged + Rockets(b.listed));
      name := if |w'.staged| == |b.listed| then BottlerocketBranch else CombinedBranch;
    }
    assert b.listed == [] ==> w'.staged == w'.staged + Rockets(b.listed);
    s := Went(w');
  }

  predicate StepsSucceed(m: Main, rd: Reader, a: Answers, org: string, repo: string) {
    && Upgradable(m.tracker, org, repo)
    && var current := CurrentOf(m.tracker, org, repo);
       var found := Answer(rd, a, org, repo, current.tag);
       && found.Latest?
       && (found.needsUpgrade ==>
             && VersionsSucceed(m.files, rd, a, org, repo, found.revision, current.goVersion)
             && GeneratedSucceeds(m.files, a, org, repo))
       && (IsImageBuilder(org, repo) ==> Bottlerocket.Succeeds(m.rocket, FeedOf(rd, a)))
  }

  /** All the steps before the commit. */
  function FinalWork(m: Main, rd: Reader, a: Answers, org: string, repo: string): (w: Work)
    requires StepsSucceed(m, rd, a, org, repo)
  {
    var found := Answer(rd, a, org, repo, CurrentOf(m.tracker, org, repo).tag);
    var w := if found.needsUpgrade then ProjectWork(m, rd, a, org, repo, found.revision) else Checkout(m);
    if !IsImageBuilder(org, repo) then w
    else WithRocket(w, Bottlerocket.After(m.rocket, FeedOf(rd, a)), Bottlerocket.Listed(m.rocket, FeedOf(rd, a)))
  }

  /** Which paths a run stages and writes, path by path. */
  lemma FinalStaged(m: Main, rd: Reader, a: Answers, org: string, repo: string, p: Path)
    requires StepsSucceed(m, rd, a, org, repo)
    ensures var w, found := FinalWork(m, rd, a, org, repo),
              Answer(rd, a, org, repo, CurrentOf(m.tracker, org, repo).tag);
            && (p in w.staged <==>
                  if p.Rocket? then IsImageBuilder(org, repo) && p.file in Bottlerocket.Listed(m.rocket, FeedOf(rd, a))
                  else found.needsUpgrade && p in ProjectWork(m, rd, a, org, repo, found.revision).staged)
            && (p in w.written <==>
                  if p.Rocket? then IsImageBuilder(org, repo) && p.file in Bottlerocket.Listed(m.rocket, FeedOf(rd, a))
                  else found.needsUpgrade && p in ProjectWork(m, rd, a, org, repo, found.revision).written)
  {
    var found := Answer(rd, a, org, repo, CurrentOf(m.tracker, org, repo).tag);
    if found.needsUpgrade { ProjectStaged(m, rd, a, org, repo, found.revision, p); }
    if IsImageBuilder(org, repo) { RocketsIn(Bottlerocket.Listed(m.rocket, FeedOf(rd, a)), p); }
  }

  lemma MergedTrackerAndFiles(m: Main, rd: Reader, a: Answers, org: string, repo: string)
    requires Succeeds(m, rd, a, org, repo)
    ensures var now, want := Merge(m, FinalWork(m, rd, a, org, repo)), AfterRun(m, rd, a, org, repo);
            now.tracker == want.tracker && now.files == want.files
  {
    var w, found := FinalWork(m, rd, a, org, repo), Answer(rd, a, org, repo, CurrentOf(m.tracker, org, repo).tag);
    forall p: Path ensures !p.Rocket? ==>
      (p in w.staged <==> found.needsUpgrade && p in ProjectWork(m, rd, a, org, repo, found.revision).staged)
    {
      FinalStaged(m, rd, a, org, repo, p);
    }
    if found.needsUpgrade {
      ProjectStaged(m, rd, a, org, repo, found.revision, TrackerFile);
      MergedFiles(m, rd, a, org, repo, found.revision, w);
    } else {
      OnlyRocketStaged(m, w);
    }
  }

  lemma OnlyRocketStaged(m: Main, w: Work)
    requires w.files == m.files && forall p :: p in w.staged ==> p.Rocket?
    ensures Merge(m, w).tracker == m.tracker && Merge(m, w).files == m.files
  {
  }

  lemma NoRocketStaged(m: Main, w: Work)
    requires w.rocket == m.rocket
    ensures MergeRocket(m, w) == m.rocket
  {
  }

  /** The commit of what the steps left, merged, is the specified new main. */
  lemma MergeIsAfterRun(m: Main, rd: Reader, a: Answers, org: string, repo: string)
    requires Succeeds(m, rd, a, org, repo)
    ensures Merge(m, FinalWork(m, rd, a, org, repo)) == AfterRun(m, rd, a, org, repo)
  {
    var w := FinalWork(m, rd, a, org, repo);
    MergedTrackerAndFiles(m, rd, a, org, repo);
    if IsImageBuilder(org, repo) {
      forall p: Bottlerocket.File ensures Rocket(p) in w.staged <==> p in Bottlerocket.Listed(m.rocket, FeedOf(rd, a)) {
        FinalStaged(m, rd, a, org, repo, Rocket(p));
      }
      MergedRocket(m, FeedOf(rd, a), w);
    } else {
      NoRocketStaged(m, w);
    }
  }

  /** git add goes through exactly when every listed generated file is there. */
  lemma AddableIff(m: Main, rd: Reader, a: Answers, org: string, repo: string, revision: string, w: Work)
    requires Upgradable(m.tracker, org, repo)
    requires VersionsSucceed(m.files, rd, a, org, repo, revision, CurrentOf(m.tracker, org, repo).goVersion)
    requires w.files == ProjectWork(m, rd, a, org, repo, revision).files
    requires forall p: Path :: p in w.staged <==>
               (p.Rocket? && p in w.staged) || p in ProjectWork(m, rd, a, org, repo, revision).staged
    requires forall p: Path :: p.Rocket? && p in w.staged ==> Exists(w, p)
    ensures (forall p :: p in w.staged ==> Exists(w, p)) <==> Addable(m.files, a, org, repo)
  {
    var currentGo := CurrentOf(m.tracker, org, repo).goVersion;
    var versions := VersionFiles(m.files, org, repo, revision, currentGo, NextGo(rd, a, currentGo, revision).value);
    forall g: Generated ensures Gen(g) in w.staged <==> g in Plan(m.files, a, org, repo)
                        ensures Exists(w, Gen(g)) <==> g in Wrote(m.files, a, org, repo) || Gen(g) in m.files
    {
      ProjectStaged(m, rd, a, org, repo, revision, Gen(g));
      assert Gen(g) in versions <==> Gen(g) in m.files;
    }
    forall p: Path | p in w.staged && !p.Gen? ensures Exists(w, p) {
      ProjectStaged(m, rd, a, org, repo, revision, p);
      if !p.Rocket? && p != TrackerFile { assert p in versions; }
    }
    if forall p :: p in w.staged ==> Exists(w, p) {
      forall g | g in Plan(m.files, a, org, repo)
        ensures g in Wrote(m.files, a, org, repo) || Gen(g) in m.files { assert Gen(g) in w.staged; }
    }
  }

  lemma AddsIff(m: Main, rd: Reader, a: Answers, org: string, repo: string)
    requires StepsSucceed(m, rd, a, org, repo)
    ensures var w := FinalWork(m, rd, a, org, repo);
            (forall p :: p in w.staged ==> Exists(w, p)) <==> Succeeds(m, rd, a, org, repo)
  {
    var w, found := FinalWork(m, rd, a, org, repo), Answer(rd, a, org, repo, CurrentOf(m.tracker, org, repo).tag);
    forall p: Path ensures p in w.staged <==>
                             || (p.Rocket? && p in w.staged)
                             || (found.needsUpgrade && p in ProjectWork(m, rd, a, org, repo, found.revision).staged)
                   ensures p.Rocket? && p in w.staged ==> Exists(w, p)
    {
      FinalStaged(m, rd, a, org, repo, p);
      if found.needsUpgrade { ProjectStaged(m, rd, a, org, repo, found.revision, p); }
      if p.Rocket? && p in w.staged { ListedExist(m.rocket, FeedOf(rd, a), p.file); }
    }
    if found.needsUpgrade { AddableIff(m, rd, a, org, repo, found.revision, w); }
  }

  /** The listed files are the written ones exactly when the commands write what the run lists. */
  lemma StagedIsWrittenIff(m: Main, rd: Reader, a: Answers, org: string, repo: string)
    requires StepsSucceed(m, rd, a, org, repo)
    ensures var w, found := FinalWork(m, rd, a, org, repo),
              Answer(rd, a, org, repo, CurrentOf(m.tracker, org, repo).tag);
            SameFiles(w.staged, w.written) <==>
              (found.needsUpgrade ==> Elems(Plan(m.files, a, org, repo)) == Elems(Wrote(m.files, a, org, repo)))
  {
    var w, found := FinalWork(m, rd, a, org, repo), Answer(rd, a, org, repo, CurrentOf(m.tracker, org, repo).tag);
    forall p: Path ensures !p.Gen? ==> (p in w.staged <==> p in w.written)
                   ensures p.Gen? ==> (p in w.staged <==> found.needsUpgrade && p.what in Plan(m.files, a, org, repo))
                   ensures p.Gen? ==> (p in w.written <==> found.needsUpgrade && p.what in Wrote(m.files, a, org, repo))
    {
      FinalStaged(m, rd, a, org, repo, p);
      if found.needsUpgrade { ProjectStaged(m, rd, a, org, repo, found.revision, p); }
    }
    if SameFiles(w.staged, w.written) && found.needsUpgrade {
      forall g: Generated ensures g in Plan(m.files, a, org, repo) <==> g in Wrote(m.files, a, org, repo) {
        assert Gen(g) in w.staged <==> Gen(g) in w.written;
      }
    } else if found.needsUpgrade && Elems(Plan(m.files, a, org, repo)) == Elems(Wrote(m.files, a, org, repo)) {
      forall g: Generated ensures g in Plan(m.files, a, org, repo) <==> g in Wrote(m.files, a, org, repo) {
        assert g in Elems(Plan(m.files, a, org, repo)) <==> g in Elems(Wrote(m.files, a, org, repo));
      }
    }
  }

  lemma NothingStagedNothingMerged(m: Main, w: Work)
    requires w.staged == []
    ensures Merge(m, w) == m
  {
  }

  /** What a run lists: with an upgrade the tag file and the tracker, the Go version file with a new Go
      version, checksums and attributions exactly when the project has them and no patch was left out. */
  lemma UpgradeLists(m: Main, rd: Reader, a: Answers, org: string, repo: string)
    requires StepsSucceed(m, rd, a, org, repo)
    ensures var w, current := FinalWork(m, rd, a, org, repo), CurrentOf(m.tracker, org, repo);
            var found := Answer(rd, a, org, repo, current.tag);
            if found.needsUpgrade then
              && GitTagFile(org, repo) in w.staged && TrackerFile in w.staged && Gen(Readme(org, repo)) in w.staged
              && (GoVersionFile(org, repo) in w.staged <==>
                NextGo(rd, a, current.goVersion, found.revision) != Some(current.goVersion))
              && (forall g :: g in ChecksumPlan(a, org, repo) ==>
                (Gen(g) in w.staged <==> UpdatesChecksums(m.files, a, org, repo)))
            else forall p :: p in w.staged ==> p.Rocket?
  {
    var w, current := FinalWork(m, rd, a, org, repo), CurrentOf(m.tracker, org, repo);
    if Answer(rd, a, org, repo, current.tag).needsUpgrade {
      PathListed(m, rd, a, org, repo, GitTagFile(org, repo));
      PathListed(m, rd, a, org, repo, TrackerFile);
      PathListed(m, rd, a, org, repo, GoVersionFile(org, repo));
      PathListed(m, rd, a, org, repo, Gen(Readme(org, repo)));
      assert Plan(m.files, a, org, repo)[0] == Readme(org, repo);
      forall g | g in ChecksumPlan(a, org, repo)
        ensures Gen(g) in w.staged <==> UpdatesChecksums(m.files, a, org, repo)
      {
        PathListed(m, rd, a, org, repo, Gen(g));
        ChecksumsPlanned(m.files, a, org, repo, g);
      }
    } else {
      forall p | p in w.staged ensures p.Rocket? { FinalStaged(m, rd, a, org, repo, p); }
    }
  }

  lemma ChecksumsPlanned(files: map<Path, string>, a: Answers, org: string, repo: string, g: Generated)
    requires g in ChecksumPlan(a, org, repo)
    ensures g in Plan(files, a, org, repo) <==> UpdatesChecksums(files, a, org, repo)
  {
    assert g.Checksums? || g.Attribution?;
    assert g !in DigestPlan() && g != Readme(org, repo);
  }

  lemma PathListed(m: Main, rd: Reader, a: Answers, org: string, repo: string, p: Path)
    requires StepsSucceed(m, rd, a, org, repo) && !p.Rocket?
    requires Answer(rd, a, org, repo, CurrentOf(m.tracker, org, repo).tag).needsUpgrade
    ensures var current := CurrentOf(m.tracker, org, repo);
            p in FinalWork(m, rd, a, org, repo).staged <==>
              || p == GitTagFile(org, repo) || p == TrackerFile
              || (p == GoVersionFile(org, repo) &&
                  NextGo(rd, a, current.goVersion, Answer(rd, a, org, repo, current.tag).revision) !=
                    Some(current.goVersion))
              || (p.Gen? && p.what in Plan(m.files, a, org, repo))
  {
    FinalStaged(m, rd, a, org, repo, p);
    ProjectStaged(m, rd, a, org, repo, Answer(rd, a, org, repo, CurrentOf(m.tracker, org, repo).tag).revision, p);
  }

  /** The project's files and entry after an upgrade, in plain terms: the tag is the revision, and a Go version
      other than N/A can be read together with the revision's own, whose higher minor version goes to the
      entry and to the listed file; a minor version that is not higher changes neither. */
  ghost predicate VersionsFollow(m: Main, now: Main, staged: seq<Path>, rd: Reader, a: Answers, org: string,
        repo: string, revision: string)
    requires Upgradable(m.tracker, org, repo)
  {
    var tagFile, goFile, was := GitTagFile(org, repo), GoVersionFile(org, repo), CurrentOf(m.tracker, org, repo);
    var place := Find(m.tracker, org, repo, |m.tracker|);
    && VersionsOf(now.tracker, place.p, place.r) != []
    && var is_ := VersionsOf(now.tracker, place.p, place.r)[0];
       && is_.tag == revision && is_.commit == was.commit
       && tagFile in now.files && now.files[tagFile] == revision + "\n" && tagFile in staged && TrackerFile in staged
       && if was.goVersion != "N/A" && GoIsHigher(rd, a, was.goVersion, revision) then
            var latest := a.goVersionOf(revision).value;
            is_.goVersion == latest && goFile in now.files && now.files[goFile] == latest + "\n" && goFile in staged
          else
            && is_.goVersion == was.goVersion && goFile !in staged
            && (goFile in now.files <==> goFile in m.files)
            && (goFile in m.files ==> now.files[goFile] == m.files[goFile])
            && (was.goVersion != "N/A" ==> GoIsReadable(rd, a, was.goVersion, revision))
  }

  predicate GoIsReadable(rd: Reader, a: Answers, current: string, revision: string) {
    && rd.goMinor(current).Some? && a.goVersionOf(revision).Some? && rd.goMinor(a.goVersionOf(revision).value).Some?
  }

  predicate GoIsHigher(rd: Reader, a: Answers, current: string, revision: string) {
    GoIsReadable(rd, a, current, revision) &&
    rd.goMinor(a.goVersionOf(revision).value).value > rd.goMinor(current).value
  }

  lemma NextGoIs(rd: Reader, a: Answers, current: string, revision: string)
    requires NextGo(rd, a, current, revision).Some?
    ensures current != "N/A" ==> GoIsReadable(rd, a, current, revision)
    ensures NextGo(rd, a, current, revision).value ==
              if current != "N/A" && GoIsHigher(rd, a, current, revision) then a.goVersionOf(revision).value
              else current
    ensures current != "N/A" && GoIsHigher(rd, a, current, revision) ==> a.goVersionOf(revision).value != current
  {
  }

  /** The three entries of the new main that an upgrade decides. */
  lemma UpgradedEntries(m: Main, rd: Reader, a: Answers, org: string, repo: string, revision: string)
    requires Upgradable(m.tracker, org, repo) && UpgradeSucceeds(m, rd, a, org, repo, revision)
    ensures var was, files := CurrentOf(m.tracker, org, repo), UpgradedFiles(m, rd, a, org, repo, revision);
            var place, go := Find(m.tracker, org, repo, |m.tracker|), NextGo(rd, a, was.goVersion, revision).value;
            var tagFile, goFile := GitTagFile(org, repo), GoVersionFile(org, repo);
            && VersionsOf(UpgradedTracker(m, rd, a, org, repo, revision), place.p, place.r) ==
                 [was.(tag := revision, goVersion := go)]
            && tagFile in files && files[tagFile] == revision + "\n"
            && (go != was.goVersion ==> goFile in files && files[goFile] == go + "\n")
            && (go == was.goVersion ==>
                  (goFile in files <==> goFile in m.files) && (goFile in m.files ==> files[goFile] == m.files[goFile]))
  {
  }

  lemma UpgradeFollows(m: Main, rd: Reader, a: Answers, org: string, repo: string)
    requires Succeeds(m, rd, a, org, repo)
    requires Answer(rd, a, org, repo, CurrentOf(m.tracker, org, repo).tag).needsUpgrade
    ensures VersionsFollow(m, AfterRun(m, rd, a, org, repo), FinalWork(m, rd, a, org, repo).staged, rd, a, org, repo,
                           Answer(rd, a, org, repo, CurrentOf(m.tracker, org, repo).tag).revision)
  {
    var was := CurrentOf(m.tracker, org, repo);
    var revision := Answer(rd, a, org, repo, was.tag).revision;
    UpgradedEntries(m, rd, a, org, repo, revision);
    NextGoIs(rd, a, was.goVersion, revision);
    PathListed(m, rd, a, org, repo, GitTagFile(org, repo));
    PathListed(m, rd, a, org, repo, TrackerFile);
    PathListed(m, rd, a, org, repo, GoVersionFile(org, repo));
  }

  /** Which generated files an upgrade lists, and which its commands write, in plain terms. */
  lemma PlanInPlainTerms(files: map<Path, string>, a: Answers, org: string, repo: string, g: Generated)
    requires a.readme.Some?
    ensures var complete := a.patches.None? || a.patches.value.applied == Some(a.patches.value.total);
            var sums := complete && (Gen(Checksums(org, repo)) in files || Checksums(org, repo) in a.readme.value);
            var cilium := org == "cilium" && repo == "cilium";
            && (g in Plan(files, a, org, repo) <==>
                  || g == Readme(org, repo)
                  || (sums && g == Checksums(org, repo))
                  || (sums && exists name :: name in a.glob && g == Attribution(org, repo, name))
                  || (cilium && g.CiliumDigest? && g.directory in ["cilium", "operator-generic", "cilium-chart"]))
            && (g in Wrote(files, a, org, repo) <==>
                  || g in a.readme.value
                  || (sums && a.checksums.Some? && g in a.checksums.value)
                  || (cilium && a.digests.Some? && g in a.digests.value))
  {
    var plan := ChecksumPlan(a, org, repo);
    if name :| name in a.glob && g == Attribution(org, repo, name) {
      var k :| 0 <= k < |a.glob| && a.glob[k] == name;
      assert plan[k + 1] == g;
    }
    if g in plan && g != Checksums(org, repo) {
      var k :| 0 <= k < |plan| && plan[k] == g;
      assert g == Attribution(org, repo, a.glob[k - 1]);
    }
    assert plan[0] == Checksums(org, repo);
    assert DigestPlan() == [CiliumDigest("cilium"), CiliumDigest("operator-generic"), CiliumDigest("cilium-chart")];
  }

  /** When a run succeeds, in plain terms. */
  lemma SuccessInPlainTerms(m: Main, rd: Reader, a: Answers, org: string, repo: string)
    ensures Succeeds(m, rd, a, org, repo) <==>
              && Upgradable(m.tracker, org, repo)
              && var was := CurrentOf(m.tracker, org, repo);
                 var found := if org == "cilium" && repo == "cilium" then LatestImageTag(a.imageTags, rd.parse, was.tag)
                              else LatestRevision(a.upstream.(parse := rd.parse), was.tag);
                 && found.Latest?
                 && (found.needsUpgrade ==>
                       && GitTagFile(org, repo) in m.files
                       && (was.goVersion != "N/A" ==>
                             && GoIsReadable(rd, a, was.goVersion, found.revision)
                             && (GoIsHigher(rd, a, was.goVersion, found.revision) ==>
                                   GoVersionFile(org, repo) in m.files))
                       && a.readme.Some? && (a.patches.Some? ==> a.patches.value.applied.Some?)
                       && ((a.patches.None? || a.patches.value.applied == Some(a.patches.value.total))
                           && (Gen(Checksums(org, repo)) in m.files || Checksums(org, repo) in a.readme.value) ==>
                             a.checksums.Some?)
                       && (org == "cilium" && repo == "cilium" ==> a.digests.Some?)
                       && forall g :: g in Plan(m.files, a, org, repo) ==>
                            g in Wrote(m.files, a, org, repo) || Gen(g) in m.files)
                 && (org == "kubernetes-sigs" && repo == "image-builder" ==>
                       Bottlerocket.Succeeds(m.rocket, FeedOf(rd, a)))
  {
  }

  /** One run, for every main and every answer of the outside world. It finishes exactly when Succeeds says
      so, and main is then what AfterRun says. Tracker and version files agree afterwards if they did before,
      nothing but the project's own entry moves and it never moves back, the staged files are the written ones
      exactly when the commands wrote what the run lists, the warning says that patches were left out, and the
      branch says what was upgraded. */
  method Run(m: Main, rd: Reader, a: Answers, org: string, repo: string) returns (o: Outcome)
    requires Ranges(m, rd, a, org, repo)
    ensures o.Finished? <==> Succeeds(m, rd, a, org, repo)
    ensures o.Finished? ==> o.main == AfterRun(m, rd, a, org, repo)
    ensures o.Finished? ==>
              Answer(rd, a, org, repo, CurrentOf(m.tracker, org, repo).tag) == Latest(o.revision, o.upgraded)
    ensures o.Finished? && Consistent(m) && Unique(m.tracker) ==> Consistent(o.main) && Unique(o.main.tracker)
    ensures o.Finished? ==> Advances(rd, m.tracker, o.main.tracker, ComparesTags(a, org, repo))
    ensures o.Finished? ==>
              o.staged == FinalWork(m, rd, a, org, repo).staged && o.written == FinalWork(m, rd, a, org, repo).written
    ensures o.Finished? ==>
              (SameFiles(o.staged, o.written) <==>
                (o.upgraded ==> Elems(Plan(m.files, a, org, repo)) == Elems(Wrote(m.files, a, org, repo))))
    ensures o.Finished? && o.upgraded ==> VersionsFollow(m, o.main, o.staged, rd, a, org, repo, o.revision)
    ensures o.Finished? ==>
              (o.warning <==> o.upgraded && a.patches.Some? && a.patches.value.applied != Some(a.patches.value.total))
    ensures o.Finished? ==>
              o.branch == if IsImageBuilder(org, repo) && Bottlerocket.Answer(m.rocket, FeedOf(rd, a)).needsUpgrade then
                            if o.upgraded then CombinedBranch else BottlerocketBranch
                          else if o.upgraded then ProjectBranch else NoBranch
  {
    var place := Find(m.tracker, org, repo, |m.tracker|);
    if place.Nowhere? { return Failed; }
    var versions := VersionsOf(m.tracker, place.p, place.r);
    if |versions| > 1 || |versions| == 0 { return Failed; }
    if versions[0].tag == "" { return Failed; }
    var found := FindRevision(rd, a, org, repo, versions[0].tag);
    if found.Err? { return Failed; }
    var w, warning, branch := Checkout(m), false, if found.needsUpgrade then ProjectBranch else NoBranch;
    if found.needsUpgrade {
      var s, warn := UpgradeProject(m, rd, a, org, repo, found.revision);
      if s.Stopped? { return Failed; }
      w, warning := s.work, warn;
    }
    assert w.staged == [] <==> !found.needsUpgrade;
    if IsImageBuilder(org, repo) {
      var s, name := UpgradeBottlerocket(w, FeedOf(rd, a), branch);
      if s.Stopped? { return Failed; }
      w, branch := s.work, name;
    }
    o := Commit(m, rd, a, org, repo, found, w, warning, branch);
    if o.Finished? {
      if o.upgraded { UpgradeFollows(m, rd, a, org, repo); }
      RunAdvances(m, rd, a, org, repo);
      if Consistent(m) && Unique(m.tracker) { RunStaysConsistent(m, rd, a, org, repo); }
    }
  }

  /** Adding, committing and merging what the steps left. */
  method Commit(m: Main, ghost rd: Reader, ghost a: Answers, ghost org: string, ghost repo: string,
        found: Revision.Result, w: Work, warning: bool, branch: Branch)
    returns (o: Outcome)
    requires StepsSucceed(m, rd, a, org, repo) && w == FinalWork(m, rd, a, org, repo)
    requires found == Answer(rd, a, org, repo, CurrentOf(m.tracker, org, repo).tag)
    ensures o.Finished? <==> Succeeds(m, rd, a, org, repo)
    ensures o.Finished? ==>
              o == Finished(AfterRun(m, rd, a, org, repo), found.needsUpgrade, found.revision, w.staged, w.written,
                warning, branch)
    ensures o.Finished? ==>
              (SameFiles(o.staged, o.written) <==>
                (o.upgraded ==> Elems(Plan(m.files, a, org, repo)) == Elems(Wrote(m.files, a, org, repo))))
  {
    AddsIff(m, rd, a, org, repo);
    StagedIsWrittenIff(m, rd, a, org, repo);
    var main := m;
    if |w.staged| > 0 {
      var ok := AddAll(w);
      if !ok { return Failed; }
      main := Merge(m, w);
    } else {
      NothingStagedNothingMerged(m, w);
    }
    MergeIsAfterRun(m, rd, a, org, repo);
    o := Finished(main, found.needsUpgrade, found.revision, w.staged, w.written, warning, branch);
  }

  /** What a command writes and the run does not list stays on main as it was. */
  lemma LeftBehind(m: Main, rd: Reader, a: Answers, org: string, repo: string, g: Generated)
    requires Succeeds(m, rd, a, org, repo) && g in Wrote(m.files, a, org, repo) && g !in Plan(m.files, a, org, repo)
    requires Answer(rd, a, org, repo, CurrentOf(m.tracker, org, repo).tag).needsUpgrade
    ensures var w, now := FinalWork(m, rd, a, org, repo), AfterRun(m, rd, a, org, repo);
            && Gen(g) in w.written && Gen(g) !in w.staged && (Gen(g) in now.files <==> Gen(g) in m.files)
            && (Gen(g) in m.files ==> now.files[Gen(g)] == m.files[Gen(g)])
  {
    FinalStaged(m, rd, a, org, repo, Gen(g));
    ProjectStaged(m, rd, a, org, repo, Answer(rd, a, org, repo, CurrentOf(m.tracker, org, repo).tag).revision, Gen(g));
  }

  /** A README script that also writes another file: the run finishes and leaves that file behind. */
  method WrittenNotStaged() returns (o: Outcome)
    ensures o.Finished? && o.upgraded && Gen(Elsewhere("NOTES")) in o.written && Gen(Elsewhere("NOTES")) !in o.staged
    ensures Gen(Elsewhere("NOTES")) !in o.main.files
  {
    var m, rd, a := NotesMain(), NotesReader(), NotesAnswers();
    NotesRun(m, rd, a);
    LeftBehind(m, rd, a, "org", "repo", Elsewhere("NOTES"));
    o := Run(m, rd, a, "org", "repo");
  }

  function NotesMain(): (m: Main) {
    Main([ProjectText("org", [RepoText("repo", [Tracker.Version("v1", "", "N/A")])])],
         map[GitTagFile("org", "repo") := "v1\n"], Bottlerocket.Files(None, map[]))
  }

  function NotesReader(): (rd: Reader) {
    Reader(tag => if tag == "v1" then Some(Semver.Version(1, 0, 0, []))
                  else if tag == "v2" then Some(Semver.Version(2, 0, 0, [])) else None,
           go => None)
  }

  function NotesUpstream(): (u: Upstream) {
    Upstream(["v2"], [Tag("v2", "b"), Tag("v1", "a")], [],
             sha => if sha == "b" then Some(2) else Some(1), NotesReader().parse)
  }

  function NotesAnswers(): (a: Answers) {
    Answers(NotesUpstream(), [], revision => None, Some([Readme("org", "repo"), Elsewhere("NOTES")]), None,
            None, [], None, g => "", Bottlerocket.Feed(NotesUpstream(), [], [], (c, f, v) => None, v => None,
              (c, t) => None))
  }

  lemma NotesRun(m: Main, rd: Reader, a: Answers)
    requires m == NotesMain() && rd == NotesReader() && a == NotesAnswers()
    ensures Succeeds(m, rd, a, "org", "repo") && Ranges(m, rd, a, "org", "repo")
    ensures Answer(rd, a, "org", "repo", CurrentOf(m.tracker, "org", "repo").tag) == Latest("v2", true)
    ensures Elsewhere("NOTES") in Wrote(m.files, a, "org", "repo") &&
              Elsewhere("NOTES") !in Plan(m.files, a, "org", "repo")
  {
    var u := NotesUpstream();
    assert Matches(m.tracker, "org", "repo", 0, 0);
    var place := Find(m.tracker, "org", "repo", |m.tracker|);
    assert place == At(0, 0);
    assert u.tags[1..] == [Tag("v1", "a")];
    assert CommitForTag(u.tags, "v2") == "b" && CommitForTag(u.tags, "v1") == "a";
    assert Judge(u, "v2", 1, Semver.Version(1, 0, 0, [])) == Revision.Upgrade;
    assert Plan(m.files, a, "org", "repo") == [Readme("org", "repo")];
    assert Wrote(m.files, a, "org", "repo") == [Readme("org", "repo"), Elsewhere("NOTES")];
  }

  // ---- Running again ----

  /** An update moves no name, so the search ends at the same place. */
  lemma FindAfterReplace(t: Text, p: nat, r: nat, v: Tracker.Version, org: string, name: string)
    requires p < |t| && r < |t[p].repos| && t[p].repos[r].versions != []
    ensures Find(Replace(t, p, r, v), org, name, |t|) == Find(t, org, name, |t|)
  {
    var u := Replace(t, p, r, v);
    assert forall q: nat, s: nat :: Matches(u, org, name, q, s) <==> Matches(t, org, name, q, s);
    var a, b := Find(t, org, name, |t|), Find(u, org, name, |t|);
    if a.At? { assert Matches(u, org, name, a.p, a.r); }
    if b.At? { assert Matches(t, org, name, b.p, b.r); }
  }

  /** The second of two runs starts from the answer of the first, if that was an upgrade, and from the same
      tag otherwise. */
  lemma TagAfterRun(m: Main, rd: Reader, a: Answers, org: string, repo: string)
    requires Succeeds(m, rd, a, org, repo)
    ensures var tag := CurrentOf(m.tracker, org, repo).tag;
            var found, now := Answer(rd, a, org, repo, tag), AfterRun(m, rd, a, org, repo).tracker;
            var place := Find(now, org, repo, |now|);
            place.At? && |VersionsOf(now, place.p, place.r)| == 1
            && VersionsOf(now, place.p, place.r)[0].tag == if found.needsUpgrade then found.revision else tag
  {
    var place, current := Find(m.tracker, org, repo, |m.tracker|), CurrentOf(m.tracker, org, repo);
    var found := Answer(rd, a, org, repo, current.tag);
    if found.needsUpgrade {
      var go := NextGo(rd, a, current.goVersion, found.revision).value;
      FindAfterReplace(m.tracker, place.p, place.r, current.(tag := found.revision, goVersion := go), org, repo);
    }
  }

  /** Asked again with an upgrade answer, the source answers and has nothing newer. */
  lemma SecondAnswer(rd: Reader, a: Answers, org: string, repo: string, current: string)
    requires ComparesTags(a, org, repo) && rd.parse("").None?
    requires var first := Answer(rd, a, org, repo, current); first.Latest? && first.needsUpgrade
    ensures var first := Answer(rd, a, org, repo, current);
            var again := Answer(rd, a, org, repo, first.revision);
            first.revision != "" && again.Latest? && !again.needsUpgrade
  {
    var first := Answer(rd, a, org, repo, current);
    AnswerNotLower(rd, a, org, repo, current);
    if IsCilium(org, repo) {
      LatestImageTagIsAnswer(a.imageTags, rd.parse, current);
      LatestImageTagIsAnswer(a.imageTags, rd.parse, first.revision);
      EcrFixpoint(a.imageTags, rd.parse, current, first, Answer(rd, a, org, repo, first.revision));
    } else {
      var u := a.upstream.(parse := rd.parse);
      UpgradeIsNewer(u, current);
      FixpointIff(u, current);
    }
  }

  /** The same answers, with the Bottlerocket channels visited in other orders. */
  function Reordered(a: Answers, order: seq<string>, again: seq<string>): (a': Answers) {
    a.(feed := Bottlerocket.Reordered(a.feed, order, again))
  }

  /** Answers and plans do not depend on the order of the channels. */
  lemma OrderOnlyForRocket(rd: Reader, a: Answers, org: string, repo: string, current: string, order: seq<string>,
        again: seq<string>)
    ensures Answer(rd, Reordered(a, order, again), org, repo, current) == Answer(rd, a, org, repo, current)
    ensures FeedOf(rd, Reordered(a, order, again)) == Bottlerocket.Reordered(FeedOf(rd, a), order, again)
  {
  }

  /** For image-builder: nothing is left to do from the Bottlerocket version that this order finds first. */
  ghost predicate RocketSettled(now: Main, rd: Reader, a: Answers, org: string, repo: string, order: seq<string>) {
    IsImageBuilder(org, repo) ==>
      && now.rocket.releases.Some?
      && Bottlerocket.Settled(now.rocket, FeedOf(rd, a), Bottlerocket.FirstVersion(now.rocket.releases.value, order))
  }

  /** After a merged run the project is not upgraded again. */
  lemma NoSecondUpgrade(m: Main, rd: Reader, a: Answers, org: string, repo: string)
    requires Succeeds(m, rd, a, org, repo) && ComparesTags(a, org, repo) && rd.parse("").None?
    ensures var now := AfterRun(m, rd, a, org, repo);
            && Upgradable(now.tracker, org, repo)
            && var found := Answer(rd, a, org, repo, CurrentOf(now.tracker, org, repo).tag);
               found.Latest? && !found.needsUpgrade
  {
    var tag := CurrentOf(m.tracker, org, repo).tag;
    TagAfterRun(m, rd, a, org, repo);
    if Answer(rd, a, org, repo, tag).needsUpgrade { SecondAnswer(rd, a, org, repo, tag); }
  }

  /** A run without an upgrade of the project leaves all but the Bottlerocket files alone, and these exactly
      when they are settled. */
  lemma QuietRunIff(m: Main, rd: Reader, a: Answers, org: string, repo: string)
    requires Upgradable(m.tracker, org, repo)
    requires var found := Answer(rd, a, org, repo, CurrentOf(m.tracker, org, repo).tag);
             found.Latest? && !found.needsUpgrade
    ensures Succeeds(m, rd, a, org, repo) ==>
              var now := AfterRun(m, rd, a, org, repo); now.tracker == m.tracker && now.files == m.files
    ensures Succeeds(m, rd, a, org, repo) && AfterRun(m, rd, a, org, repo) == m <==>
              RocketSettled(m, rd, a, org, repo, a.feed.order)
  {
    if IsImageBuilder(org, repo) { Bottlerocket.ChangesNothingIff(m.rocket, FeedOf(rd, a)); }
  }

  /** After a merged run a second one with unchanged answers does not upgrade the project again. It succeeds
      and leaves main exactly as it is: always, for a project other than image-builder; and for image-builder
      exactly when nothing is left to do from the Bottlerocket version found first. */
  lemma SecondRun(m: Main, rd: Reader, a: Answers, org: string, repo: string, order: seq<string>, again: seq<string>)
    requires Succeeds(m, rd, a, org, repo) && ComparesTags(a, org, repo) && rd.parse("").None?
    ensures var now, a' := AfterRun(m, rd, a, org, repo), Reordered(a, order, again);
            && Upgradable(now.tracker, org, repo)
            && (var found := Answer(rd, a', org, repo, CurrentOf(now.tracker, org, repo).tag);
                found.Latest? && !found.needsUpgrade)
            && (Succeeds(now, rd, a', org, repo) ==>
                  var then_ := AfterRun(now, rd, a', org, repo);
                  then_.tracker == now.tracker && then_.files == now.files)
            && (Succeeds(now, rd, a', org, repo) && AfterRun(now, rd, a', org, repo) == now <==>
                  RocketSettled(now, rd, a, org, repo, order))
  {
    var now := AfterRun(m, rd, a, org, repo);
    NoSecondUpgrade(m, rd, a, org, repo);
    OrderOnlyForRocket(rd, a, org, repo, CurrentOf(now.tracker, org, repo).tag, order, again);
    QuietRunIff(now, rd, Reordered(a, order, again), org, repo);
  }

  lemma RangesAfter(m: Main, rd: Reader, a: Answers, org: string, repo: string, a': Answers)
    requires Succeeds(m, rd, a, org, repo) && Ranges(m, rd, a', org, repo)
    ensures Ranges(AfterRun(m, rd, a, org, repo), rd, a', org, repo)
  {
    RunKeepsChannels(m, rd, a, org, repo);
  }

  /** For image-builder that is so in the order of the first run, and in any order when all channels had one
      version before the first run. */
  lemma SecondRunSettled(m: Main, rd: Reader, a: Answers, org: string, repo: string, order: seq<string>)
    requires Succeeds(m, rd, a, org, repo) && rd.parse("").None?
    requires IsImageBuilder(org, repo) && Candidates(a.feed.upstream) != []
    requires var cs := m.rocket.releases.value;
             || order == a.feed.order
             || (Bottlerocket.Visits(order, cs) &&
               Bottlerocket.FirstVersions(cs) == {Bottlerocket.FirstVersion(cs, a.feed.order)})
    ensures RocketSettled(AfterRun(m, rd, a, org, repo), rd, a, org, repo, order)
  {
    Bottlerocket.SecondUpdateSettled(m.rocket, FeedOf(rd, a), order);
  }

  /** Without releases and tags there is no such rest: the second run upgrades again or fails. */
  lemma SecondRunWithoutTags(m: Main, rd: Reader, a: Answers, org: string, repo: string, order: seq<string>,
        again: seq<string>)
    requires Succeeds(m, rd, a, org, repo) && !ComparesTags(a, org, repo)
    ensures var now, a' := AfterRun(m, rd, a, org, repo), Reordered(a, order, again);
            Succeeds(now, rd, a', org, repo) ==>
              Answer(rd, a', org, repo, CurrentOf(now.tracker, org, repo).tag).needsUpgrade
  {
    NoTagsAnswerIff(a.upstream.(parse := rd.parse), CurrentOf(m.tracker, org, repo).tag);
  }

  /** Two runs in a row with the same answers, the first one merged. The second one may visit the
      Bottlerocket channels in another order. */
  method RunTwice(m: Main, rd: Reader, a: Answers, org: string, repo: string, order: seq<string>, again: seq<string>)
    returns (first: Outcome, second: Outcome)
    requires Ranges(m, rd, a, org, repo) && Ranges(m, rd, Reordered(a, order, again), org, repo)
    ensures first.Finished? <==> Succeeds(m, rd, a, org, repo)
    ensures first.Finished? && rd.parse("").None? && ComparesTags(a, org, repo) ==>
              && (second.Finished? ==>
                    && !second.upgraded
                    && second.main.tracker == first.main.tracker && second.main.files == first.main.files)
              && (second.Finished? && second.main == first.main <==>
                    RocketSettled(first.main, rd, a, org, repo, order))
    ensures first.Finished? && second.Finished? && !ComparesTags(a, org, repo) ==> second.upgraded
  {
    first := Run(m, rd, a, org, repo);
    if first.Failed? { return first, Failed; }
    RangesAfter(m, rd, a, org, repo, Reordered(a, order, again));
    second := Run(first.main, rd, Reordered(a, order, again), org, repo);
    if !ComparesTags(a, org, repo) {
      SecondRunWithoutTags(m, rd, a, org, repo, order, again);
    } else if rd.parse("").None? {
      SecondRun(m, rd, a, org, repo, order, again);
    }
  }

  // ---- Any sequence of runs ----

  datatype Job = Job(org: string, repo: string, answers: Answers)

  /** Each run starts from a fresh checkout of main; it is merged if it succeeds and leaves no trace if not. */
  function Applied(m: Main, rd: Reader, jobs: seq<Job>): (now: Main) {
    if jobs == [] then m
    else
      var before, job := Applied(m, rd, jobs[..|jobs| - 1]), jobs[|jobs| - 1];
      if Succeeds(before, rd, job.answers, job.org, job.repo) then
        AfterRun(before, rd, job.answers, job.org, job.repo)
      else before
  }

  predicate JobSucceeds(m: Main, rd: Reader, job: Job) { Succeeds(m, rd, job.answers, job.org, job.repo) }

  /** Of the jobs for the entry at this place, those that are applied compare tags. */
  ghost predicate TagsComparedAt(m: Main, rd: Reader, jobs: seq<Job>, p: nat, r: nat) {
    forall i :: 0 <= i < |jobs| && Find(m.tracker, jobs[i].org, jobs[i].repo, |m.tracker|) == At(p, r)
                && JobSucceeds(Applied(m, rd, jobs[..i]), rd, jobs[i]) ==>
                  ComparesTags(jobs[i].answers, jobs[i].org, jobs[i].repo)
  }

  /** The search for a project ends at the same place on every main of a history. */
  lemma FindAfterRun(m: Main, rd: Reader, job: Job, org: string, name: string)
    requires JobSucceeds(m, rd, job)
    ensures var now := AfterRun(m, rd, job.answers, job.org, job.repo).tracker;
            Find(now, org, name, |now|) == Find(m.tracker, org, name, |m.tracker|)
  {
    var place, current := Find(m.tracker, job.org, job.repo, |m.tracker|), CurrentOf(m.tracker, job.org, job.repo);
    var found := Answer(rd, job.answers, job.org, job.repo, current.tag);
    if found.needsUpgrade {
      var go := NextGo(rd, job.answers, current.goVersion, found.revision).value;
      FindAfterReplace(m.tracker, place.p, place.r, current.(tag := found.revision, goVersion := go), org, name);
    }
  }

  lemma {:induction false} FindAfterJobs(m: Main, rd: Reader, jobs: seq<Job>, org: string, name: string)
    ensures var now := Applied(m, rd, jobs).tracker;
            Find(now, org, name, |now|) == Find(m.tracker, org, name, |m.tracker|)
  {
    if jobs != [] {
      var front, job := jobs[..|jobs| - 1], jobs[|jobs| - 1];
      FindAfterJobs(m, rd, front, org, name);
      if JobSucceeds(Applied(m, rd, front), rd, job) { FindAfterRun(Applied(m, rd, front), rd, job, org, name); }
    }
  }

  /** One run seen from one entry: its tag falls only if the run is for this entry and compares no tags. */
  lemma RunAdvancesAt(m: Main, rd: Reader, job: Job, p: nat, r: nat)
    requires JobSucceeds(m, rd, job)
    requires Find(m.tracker, job.org, job.repo, |m.tracker|) == At(p, r) ==>
               ComparesTags(job.answers, job.org, job.repo)
    ensures AdvancesAt(rd, m.tracker, AfterRun(m, rd, job.answers, job.org, job.repo).tracker, true, p, r)
  {
    RunAdvances(m, rd, job.answers, job.org, job.repo);
    var now := AfterRun(m, rd, job.answers, job.org, job.repo).tracker;
    var place := Find(m.tracker, job.org, job.repo, |m.tracker|);
    assert AdvancesAt(rd, m.tracker, now, ComparesTags(job.answers, job.org, job.repo), p, r);
    if place != At(p, r) && p < |m.tracker| && r < |m.tracker[p].repos| {
      assert now[p].repos[r] == m.tracker[p].repos[r];
    }
  }

  lemma AdvancesAtTransitive(rd: Reader, t: Text, u: Text, w: Text, p: nat, r: nat)
    requires AdvancesAt(rd, t, u, true, p, r) && AdvancesAt(rd, u, w, true, p, r)
    ensures AdvancesAt(rd, t, w, true, p, r)
  {
    if p < |t| && r < |t[p].repos| {
      var a, b, c := t[p].repos[r].versions, u[p].repos[r].versions, w[p].repos[r].versions;
      forall k | 0 <= k < |a| ensures NotLower(rd, a[k].tag, c[k].tag) {
        NotLowerTransitive(rd, a[k].tag, b[k].tag, c[k].tag);
      }
    }
  }

  /** Over any history the tag of an entry never falls as long as the applied jobs for this entry compare
      tags; failed jobs and jobs for other projects play no part. */
  lemma {:induction false} TagsNeverFall(m: Main, rd: Reader, jobs: seq<Job>, p: nat, r: nat)
    requires TagsComparedAt(m, rd, jobs, p, r)
    ensures AdvancesAt(rd, m.tracker, Applied(m, rd, jobs).tracker, true, p, r)
  {
    if jobs == [] {
      AdvancesReflexive(rd, m.tracker);
    } else {
      var n := |jobs| - 1;
      var front, job, before := jobs[..n], jobs[n], Applied(m, rd, jobs[..n]);
      forall i | 0 <= i < n ensures front[..i] == jobs[..i] && front[i] == jobs[i] { }
      assert TagsComparedAt(m, rd, front, p, r);
      TagsNeverFall(m, rd, front, p, r);
      FindAfterJobs(m, rd, front, job.org, job.repo);
      if JobSucceeds(before, rd, job) {
        RunAdvancesAt(before, rd, job, p, r);
        AdvancesAtTransitive(rd, m.tracker, before.tracker, Applied(m, rd, jobs).tracker, p, r);
      }
    }
  }

  /** Exactly the jobs that can succeed are applied, in order. Tracker and version files never disagree, Go
      minor versions never fall, and the tag of an entry never falls as long as the applied jobs for it
      compare tags. */
  method History(m: Main, rd: Reader, jobs: seq<Job>) returns (now: Main)
    requires forall i :: 0 <= i < |jobs| ==> Ranges(m, rd, jobs[i].answers, jobs[i].org, jobs[i].repo)
    ensures now == Applied(m, rd, jobs)
    ensures Consistent(m) && Unique(m.tracker) ==> Consistent(now) && Unique(now.tracker)
    ensures Advances(rd, m.tracker, now.tracker, false)
    ensures forall p: nat, r: nat :: TagsComparedAt(m, rd, jobs, p, r) ==>
              AdvancesAt(rd, m.tracker, now.tracker, true, p, r)
  {
    now := m;
    AdvancesReflexive(rd, m.tracker);
    for i := 0 to |jobs|
      invariant now == Applied(m, rd, jobs[..i]) && SameChannels(m, now)
      invariant Consistent(m) && Unique(m.tracker) ==> Consistent(now) && Unique(now.tracker)
      invariant Advances(rd, m.tracker, now.tracker, false)
    {
      assert jobs[..i + 1][..i] == jobs[..i];
      var o := Run(now, rd, jobs[i].answers, jobs[i].org, jobs[i].repo);
      if o.Finished? {
        RunKeepsChannels(now, rd, jobs[i].answers, jobs[i].org, jobs[i].repo);
        StepAdvances(rd, m.tracker, now.tracker, o.main.tracker,
          ComparesTags(jobs[i].answers, jobs[i].org, jobs[i].repo));
        now := o.main;
      }
    }
    assert jobs[..|jobs|] == jobs;
    forall p: nat, r: nat | TagsComparedAt(m, rd, jobs, p, r)
      ensures AdvancesAt(rd, m.tracker, now.tracker, true, p, r)
    {
      TagsNeverFall(m, rd, jobs, p, r);
    }
  }

  lemma StepAdvances(rd: Reader, t: Text, u: Text, w: Text, tags: bool)
    requires Advances(rd, t, u, false) && Advances(rd, u, w, tags)
    ensures Advances(rd, t, w, false)
  {
    if tags { AdvancesWeaker(rd, u, w); }
    AdvancesTransitive(rd, t, u, w, false);
  }

  // ---- A tag that falls ----

  /** One run leaves the project with a tag that is not lower exactly when it upgrades nothing, compares
      tags, or the first commit reads as a higher version. */
  lemma TagNotLowerIff(m: Main, rd: Reader, a: Answers, org: string, repo: string)
    requires Succeeds(m, rd, a, org, repo)
    ensures var tag, now := CurrentOf(m.tracker, org, repo).tag, AfterRun(m, rd, a, org, repo).tracker;
            var place := Find(now, org, repo, |now|);
            && place.At? && VersionsOf(now, place.p, place.r) != []
            && (NotLower(rd, tag, VersionsOf(now, place.p, place.r)[0].tag) <==>
                  || !Answer(rd, a, org, repo, tag).needsUpgrade || ComparesTags(a, org, repo)
                  || (a.upstream.commits != [] && NotLower(rd, tag, a.upstream.commits[0])))
  {
    var tag := CurrentOf(m.tracker, org, repo).tag;
    TagAfterRun(m, rd, a, org, repo);
    AnswerNotLower(rd, a, org, repo, tag);
    if !ComparesTags(a, org, repo) { NoTagsAnswerIff(a.upstream.(parse := rd.parse), tag); }
  }

  /** A project without releases and tags, at v1: the run replaces the tag by a commit hash. */
  method TagBecomesHash() returns (o: Outcome)
    ensures o.Finished? && o.upgraded && o.revision == "c0ffee"
    ensures var place := Find(o.main.tracker, "org", "repo", |o.main.tracker|);
            && place.At? && VersionsOf(o.main.tracker, place.p, place.r) != []
            && VersionsOf(o.main.tracker, place.p, place.r)[0].tag == "c0ffee"
            && !NotLower(NotesReader(), "v1", "c0ffee")
  {
    var m, rd, a := NotesMain(), NotesReader(), HashAnswers();
    HashRun(m, rd, a);
    TagAfterRun(m, rd, a, "org", "repo");
    o := Run(m, rd, a, "org", "repo");
  }

  function HashAnswers(): (a: Answers) {
    var u := Upstream([], [], ["c0ffee"], sha => Some(0), NotesReader().parse);
    NotesAnswers().(upstream := u, readme := Some([Readme("org", "repo")]))
  }

  lemma HashRun(m: Main, rd: Reader, a: Answers)
    requires m == NotesMain() && rd == NotesReader() && a == HashAnswers()
    ensures Succeeds(m, rd, a, "org", "repo") && Ranges(m, rd, a, "org", "repo")
    ensures CurrentOf(m.tracker, "org", "repo").tag == "v1"
    ensures Answer(rd, a, "org", "repo", "v1") == Latest("c0ffee", true)
  {
    assert Matches(m.tracker, "org", "repo", 0, 0);
    assert Find(m.tracker, "org", "repo", |m.tracker|) == At(0, 0);
    NoTagsAnswerIff(a.upstream.(parse := rd.parse), "v1");
    assert Plan(m.files, a, "org", "repo") == [Readme("org", "repo")];
    assert Wrote(m.files, a, "org", "repo") == [Readme("org", "repo")];
  }
}
