/** After a common go build into one directory the outputs are named after their source
    directories; a loop renames them to the configured binary names. */
module BuildOutputs {
  import opened Basics
  import opened MakeLists
  import opened BinaryGroups
  import opened TargetNames

  /** One source: the basename of its pattern, the name go gave its output (the basename, unless the
      pattern is the dot, and for windows with .exe added), and the configured binary name. */
  datatype Source = Source(base: string, built: string, target: string)

  predicate Moves(s: Source) { s.base != "." && s.base != s.target }

  /** What go leaves for any platform but windows, with names that do not collide. */
  ghost predicate WellBuilt(sources: seq<Source>) {
    && (forall i :: 0 <= i < |sources| ==>
          sources[i].built != "." && sources[i].target != "." &&
            (sources[i].base != "." ==> sources[i].built == sources[i].base))
    && (forall i, j :: 0 <= i < j < |sources| ==> sources[i].built != sources[j].built)
    && (forall i, j :: 0 <= i < j < |sources| ==> sources[i].target != sources[j].target)
  }

  /** A dot source is already named right, and no rename lands on an output that is still waiting. */
  ghost predicate Safe(sources: seq<Source>) {
    && (forall i :: 0 <= i < |sources| && sources[i].base == "." ==> sources[i].built == sources[i].target)
    && (forall i, j :: 0 <= i < j < |sources| && Moves(sources[i]) ==> sources[i].target != sources[j].built)
  }

  /** Every binary name holds the output of its own source. */
  ghost predicate AllNamed(sources: seq<Source>, dir: map<string, nat>) {
    forall i :: 0 <= i < |sources| ==> sources[i].target in dir && dir[sources[i].target] == i
  }

  /** File names with the index of the source they were built from, before the first rename. */
  function Outputs(sources: seq<Source>, n: nat): (dir: map<string, nat>)
    requires n <= |sources|
  {
    if n == 0 then map[] else Outputs(sources, n - 1)[sources[n - 1].built := n - 1]
  }

  lemma {:induction false} OutputsAre(sources: seq<Source>, n: nat)
    requires n <= |sources| && WellBuilt(sources)
    ensures forall i :: 0 <= i < n ==>
              sources[i].built in Outputs(sources, n) && Outputs(sources, n)[sources[i].built] == i
    ensures forall f :: f in Outputs(sources, n) ==> var v := Outputs(sources, n)[f]; v < n && f == sources[v].built
  {
    if n > 0 { OutputsAre(sources, n - 1); }
  }

  const EXE := ".exe"

  predicate EndsInExe(s: string) { |s| >= |EXE| && s[|s| - |EXE|..] == EXE }

  /** What go leaves for windows, when no source directory is itself named like an executable. */
  ghost predicate BuiltForWindows(sources: seq<Source>) {
    forall i :: 0 <= i < |sources| ==>
      && !EndsInExe(sources[i].base) && EndsInExe(sources[i].built)
      && (sources[i].base != "." ==> sources[i].built == sources[i].base + EXE)
  }

  /** The files make waits for on windows. */
  ghost predicate AllNamedExe(sources: seq<Source>, dir: map<string, nat>) {
    forall i :: 0 <= i < |sources| ==> sources[i].target + EXE in dir && dir[sources[i].target + EXE] == i
  }

  /** The directory after the first n turns of the loop. */
  function Renamed(sources: seq<Source>, n: nat): (dir: map<string, nat>)
    requires n <= |sources|
  {
    if n == 0 then Outputs(sources, |sources|) else Turn(Renamed(sources, n - 1), sources[n - 1])
  }

  function Turn(dir: map<string, nat>, s: Source): (r: map<string, nat>) {
    if s.base != s.target && s.base in dir then Rename(dir, s.base, s.target) else dir
  }

  /** The last source built under a name owns it. */
  lemma {:induction false} OutputsLast(sources: seq<Source>, n: nat, f: string)
    requires n <= |sources|
    ensures f in Outputs(sources, n) <==> exists i :: 0 <= i < n && sources[i].built == f
    ensures f in Outputs(sources, n) ==>
              var v := Outputs(sources, n)[f];
              v < n && sources[v].built == f && forall j :: v < j < n ==> sources[j].built != f
  {
    if n > 0 { OutputsLast(sources, n - 1, f); }
  }

  /** For windows nothing is ever renamed. */
  lemma {:induction false} WindowsKeepsNames(sources: seq<Source>, n: nat)
    requires n <= |sources| && BuiltForWindows(sources)
    ensures Renamed(sources, n) == Outputs(sources, |sources|)
  {
    if n > 0 {
      WindowsKeepsNames(sources, n - 1);
      OutputsLast(sources, |sources|, sources[n - 1].base);
    }
  }

  /** So the files are right exactly when go's own names are the wanted ones. */
  lemma WindowsNamedIff(sources: seq<Source>)
    requires BuiltForWindows(sources)
    ensures AllNamedExe(sources, Renamed(sources, |sources|)) <==> GoNamesAreWanted(sources)
  {
    var dir := Outputs(sources, |sources|);
    WindowsKeepsNames(sources, |sources|);
    if AllNamedExe(sources, dir) {
      forall i | 0 <= i < |sources|
        ensures sources[i].built == sources[i].target + EXE
        ensures forall j :: i < j < |sources| ==> sources[j].built != sources[i].built
      {
        OutputsLast(sources, |sources|, sources[i].target + EXE);
      }
    }
    if GoNamesAreWanted(sources) {
      forall i | 0 <= i < |sources| ensures sources[i].target + EXE in dir && dir[sources[i].target + EXE] == i {
        OutputsLast(sources, |sources|, sources[i].built);
      }
    }
  }

  ghost predicate GoNamesAreWanted(sources: seq<Source>) {
    && (forall i :: 0 <= i < |sources| ==> sources[i].built == sources[i].target + EXE)
    && (forall i, j :: 0 <= i < j < |sources| ==> sources[i].built != sources[j].built)
  }

  /** What has not had its turn yet is only under the name it was built with. */
  ghost predicate Waiting(sources: seq<Source>, dir: map<string, nat>, i: nat) {
    && (forall v :: i <= v < |sources| && sources[v].base != "." ==> sources[v].built in dir)
    && (forall f :: f in dir && i <= dir[f] < |sources| ==> f == sources[dir[f]].built)
  }

  ghost predicate GoodSoFar(sources: seq<Source>, dir: map<string, nat>, i: nat) {
    && (forall v :: 0 <= v < i && v < |sources| ==> sources[v].target in dir && dir[sources[v].target] == v)
    && (forall v :: i <= v < |sources| ==> sources[v].built in dir && dir[sources[v].built] == v)
  }

  /** Sources whose output was overwritten before step i are gone for good. */
  ghost predicate LostSoFar(sources: seq<Source>, dir: map<string, nat>, i: nat) {
    forall a, b :: 0 <= a < b < |sources| && a < i && Moves(sources[a]) && sources[a].target == sources[b].built ==>
      b !in dir.Values
  }

  /** An output of a dot source never changes its name. */
  ghost predicate DotsStay(sources: seq<Source>, dir: map<string, nat>) {
    forall f :: f in dir && dir[f] < |sources| && sources[dir[f]].base == "." ==> f == sources[dir[f]].built
  }

  function Rename(dir: map<string, nat>, from: string, to: string): (r: map<string, nat>)
    requires from in dir
  {
    (dir - {from})[to := dir[from]]
  }

  lemma RenameKeepsWaiting(sources: seq<Source>, dir: map<string, nat>, i: nat)
    requires i < |sources| && WellBuilt(sources) && Waiting(sources, dir, i) && DotsStay(sources, dir)
    requires Moves(sources[i])
    ensures var r := Rename(dir, sources[i].base, sources[i].target);
            Waiting(sources, r, i + 1) && DotsStay(sources, r)
  {
  }

  lemma RenameKeepsGood(sources: seq<Source>, dir: map<string, nat>, i: nat)
    requires i < |sources| && WellBuilt(sources) && Safe(sources) && GoodSoFar(sources, dir, i)
    requires Moves(sources[i])
    ensures GoodSoFar(sources, Rename(dir, sources[i].base, sources[i].target), i + 1)
  {
  }

  lemma RenameKeepsLost(sources: seq<Source>, dir: map<string, nat>, i: nat)
    requires i < |sources| && WellBuilt(sources) && Waiting(sources, dir, i) && LostSoFar(sources, dir, i)
    requires Moves(sources[i])
    ensures LostSoFar(sources, Rename(dir, sources[i].base, sources[i].target), i + 1)
  {
    var s := sources[i];
    var r := Rename(dir, s.base, s.target);
    forall a, b | 0 <= a < b < |sources| && a < i + 1 && Moves(sources[a]) && sources[a].target == sources[b].built
      ensures b !in r.Values
    {
      forall f | f in r ensures r[f] != b {
        if f == s.target {
          assert r[f] == dir[s.base];
          assert a < i ==> dir[s.base] in dir.Values;
        } else {
          assert r[f] == dir[f];
          assert a < i ==> dir[f] in dir.Values;
        }
      }
    }
  }

  ghost predicate Inv(sources: seq<Source>, dir: map<string, nat>, i: nat) {
    && "." !in dir
    && Waiting(sources, dir, i) && DotsStay(sources, dir) && LostSoFar(sources, dir, i)
    && (Safe(sources) ==> GoodSoFar(sources, dir, i))
  }

  lemma StartInv(sources: seq<Source>)
    requires WellBuilt(sources)
    ensures Inv(sources, Outputs(sources, |sources|), 0)
  {
    OutputsAre(sources, |sources|);
  }

  lemma RenameKeepsInv(sources: seq<Source>, dir: map<string, nat>, i: nat)
    requires i < |sources| && WellBuilt(sources) && Inv(sources, dir, i)
    requires sources[i].base != sources[i].target && sources[i].base in dir
    ensures Inv(sources, Rename(dir, sources[i].base, sources[i].target), i + 1)
  {
    RenameKeepsWaiting(sources, dir, i);
    RenameKeepsLost(sources, dir, i);
    if Safe(sources) { RenameKeepsGood(sources, dir, i); }
  }

  lemma StayKeepsLost(sources: seq<Source>, dir: map<string, nat>, i: nat)
    requires i < |sources| && LostSoFar(sources, dir, i) && !Moves(sources[i])
    ensures LostSoFar(sources, dir, i + 1)
  {
  }

  lemma StayKeepsGood(sources: seq<Source>, dir: map<string, nat>, i: nat)
    requires i < |sources| && WellBuilt(sources) && Safe(sources) && GoodSoFar(sources, dir, i) && !Moves(sources[i])
    ensures GoodSoFar(sources, dir, i + 1)
  {
  }

  lemma StayKeepsInv(sources: seq<Source>, dir: map<string, nat>, i: nat)
    requires i < |sources| && WellBuilt(sources) && Inv(sources, dir, i)
    requires sources[i].base == sources[i].target || sources[i].base !in dir
    ensures Inv(sources, dir, i + 1)
  {
    assert !Moves(sources[i]);
    StayKeepsLost(sources, dir, i);
    if Safe(sources) { StayKeepsGood(sources, dir, i); }
  }

  /** The loop, for any sources and any outputs. All binaries end up under their own names exactly when no
      rename overwrites an output that has not been renamed yet; for windows the loop finds none of its
      files, and the names are right exactly when they were so before. */
  method RenameOutputs(sources: seq<Source>) returns (dir: map<string, nat>)
    ensures dir == Renamed(sources, |sources|)
    ensures WellBuilt(sources) ==> (AllNamed(sources, dir) <==> Safe(sources))
    ensures BuiltForWindows(sources) ==>
              && dir == Outputs(sources, |sources|)
              && (AllNamedExe(sources, dir) <==> GoNamesAreWanted(sources))
  {
    dir := Outputs(sources, |sources|);
    for i := 0 to |sources|
      invariant dir == Renamed(sources, i)
    {
      var s := sources[i];
      if s.base != s.target && s.base in dir { dir := Rename(dir, s.base, s.target); }
    }
    if WellBuilt(sources) { AllNamedIffSafe(sources); }
    if BuiltForWindows(sources) {
      WindowsKeepsNames(sources, |sources|);
      WindowsNamedIff(sources);
    }
  }

  lemma TurnKeepsInv(sources: seq<Source>, dir: map<string, nat>, i: nat)
    requires i < |sources| && WellBuilt(sources) && Inv(sources, dir, i)
    ensures Inv(sources, Turn(dir, sources[i]), i + 1)
  {
    if sources[i].base != sources[i].target && sources[i].base in dir {
      RenameKeepsInv(sources, dir, i);
    } else {
      StayKeepsInv(sources, dir, i);
    }
  }

  lemma InvHolds(sources: seq<Source>, n: nat) returns (dir: map<string, nat>)
    requires n <= |sources| && WellBuilt(sources)
    ensures dir == Renamed(sources, n) && Inv(sources, dir, n)
  {
    dir := Outputs(sources, |sources|);
    StartInv(sources);
    for i := 0 to n
      invariant dir == Renamed(sources, i) && Inv(sources, dir, i)
    {
      TurnKeepsInv(sources, dir, i);
      dir := Turn(dir, sources[i]);
    }
  }

  lemma AllNamedIffSafe(sources: seq<Source>)
    requires WellBuilt(sources)
    ensures AllNamed(sources, Renamed(sources, |sources|)) <==> Safe(sources)
  {
    var dir := InvHolds(sources, |sources|);
    if !Safe(sources) { UnsafeIsNoticed(sources, dir); }
  }

  /** The files of the build as make asks for it: a group of one is built straight into its own name, a
      larger one into a directory with the renames afterwards. */
  method BuildGroup(sources: seq<Source>, windows: bool) returns (dir: map<string, nat>)
    ensures |sources| == 1 ==> dir == map[sources[0].target + (if windows then EXE else "") := 0]
    ensures |sources| != 1 ==> dir == Renamed(sources, |sources|)
    ensures WellBuilt(sources) && !windows ==> (AllNamed(sources, dir) <==> |sources| == 1 || Safe(sources))
    ensures BuiltForWindows(sources) && windows ==>
              (AllNamedExe(sources, dir) <==> |sources| == 1 || GoNamesAreWanted(sources))
  {
    if |sources| == 1 {
      assert sources[0].target + "" == sources[0].target;
      dir := map[sources[0].target + (if windows then EXE else "") := 0];
    } else {
      dir := RenameOutputs(sources);
    }
  }

  lemma UnsafeIsNoticed(sources: seq<Source>, dir: map<string, nat>)
    requires WellBuilt(sources) && !Safe(sources)
    requires DotsStay(sources, dir) && LostSoFar(sources, dir, |sources|)
    ensures !AllNamed(sources, dir)
  {
  }

  // ---- The common build of the TOGETHER group ----

  /** The name go gives an output before the platform's extension: the dot is named after the module. */
  function GoName(pattern: string, module_: string): (name: string) {
    if FilePart(pattern) == "." then module_ else FilePart(pattern)
  }

  /** The sources of the common build for a platform. */
  function SourcesOf(g: Groups, module_: string, windows: bool): (ss: seq<Source>)
    requires |g.togetherFiles| == |g.togetherPatterns|
  {
    seq(|g.togetherFiles|, k requires 0 <= k < |g.togetherFiles| =>
      var name := GoName(g.togetherPatterns[k], module_);
      Source(FilePart(g.togetherPatterns[k]), if windows then name + EXE else name, g.togetherFiles[k]))
  }

  predicate HasPart(g: Groups, part: string) {
    exists k :: 0 <= k < |g.togetherPatterns| && FilePart(g.togetherPatterns[k]) == part
  }

  /** The binaries chosen to be built together can share one output directory, so that no output overwrites
      another before the renames, exactly when not both the dot and a directory named like the module are
      among them. */
  lemma TogetherIsWellBuilt(t: Triples, preset: seq<string>, module_: string)
    requires Distinct(t.bins) && "." !in t.bins && module_ != "."
    ensures var g := After(t, preset, t.Size());
            && |g.togetherFiles| == |g.togetherPatterns|
            && (WellBuilt(SourcesOf(g, module_, false)) <==> !(HasPart(g, ".") && HasPart(g, module_)))
  {
    var n, together := t.Size(), IsTogether(t, preset);
    var g := After(t, preset, n);
    TogetherListsAligned(t, preset);
    TogetherAre(t, preset, n);
    var ss := SourcesOf(g, module_, false);
    forall k | 0 <= k < |ss| ensures ss[k].built != "." && ss[k].target != "." {
      var i := PickFrom(t.bins, n, together, k);
    }
    forall k, l | 0 <= k < l < |ss| ensures ss[k].target != ss[l].target {
      var i := PickFrom(t.bins, n, together, k);
      var j := PickFrom(t.bins, n, together, l);
    }
    DotClashIff(g, module_, ss);
  }

  lemma DotClashIff(g: Groups, module_: string, ss: seq<Source>)
    requires |g.togetherFiles| == |g.togetherPatterns| && ss == SourcesOf(g, module_, false) && module_ != "."
    requires forall k, l :: 0 <= k < l < |ss| ==> ss[k].base != ss[l].base
    ensures (forall k, l :: 0 <= k < l < |ss| ==> ss[k].built != ss[l].built) <==>
              !(HasPart(g, ".") && HasPart(g, module_))
  {
    if HasPart(g, ".") && HasPart(g, module_) {
      var k :| 0 <= k < |g.togetherPatterns| && FilePart(g.togetherPatterns[k]) == ".";
      var l :| 0 <= l < |g.togetherPatterns| && FilePart(g.togetherPatterns[l]) == module_;
      assert ss[k].base == "." && ss[l].base == module_ && ss[k].built == ss[l].built;
    } else {
      forall k, l | 0 <= k < l < |ss| ensures ss[k].built != ss[l].built {
        assert FilePart(g.togetherPatterns[k]) == ss[k].base && FilePart(g.togetherPatterns[l]) == ss[l].base;
      }
    }
  }

  /** For windows the group is always built into names with .exe; no directory may be named like that. */
  lemma TogetherForWindowsIff(t: Triples, preset: seq<string>, module_: string)
    requires Distinct(t.bins)
    ensures var g := After(t, preset, t.Size());
            && |g.togetherFiles| == |g.togetherPatterns|
            && (BuiltForWindows(SourcesOf(g, module_, true)) <==>
                  forall k :: 0 <= k < |g.togetherPatterns| ==> !EndsInExe(FilePart(g.togetherPatterns[k])))
  {
    TogetherListsAligned(t, preset);
    var g := After(t, preset, t.Size());
    var ss := SourcesOf(g, module_, true);
    forall k | 0 <= k < |ss| ensures EndsInExe(ss[k].built) && ss[k].base == FilePart(g.togetherPatterns[k]) {
      ExtendedEndsInExe(GoName(g.togetherPatterns[k], module_));
    }
  }

  lemma ExtendedEndsInExe(name: string)
    ensures EndsInExe(name + EXE)
  {
    assert (name + EXE)[|name|..] == EXE;
  }

  lemma SameName(a: string, b: string)
    ensures a + EXE == b + EXE <==> a == b
  {
    if a + EXE == b + EXE {
      assert |a| == |b|;
      assert (a + EXE)[..|a|] == a && (b + EXE)[..|b|] == b;
    }
  }

  /** The TOGETHER group for windows: every file make waits for is there exactly when each binary is named
      after its own directory, or after the module for the dot. */
  lemma TogetherNamedOnWindowsIff(t: Triples, preset: seq<string>, module_: string)
    requires Distinct(t.bins) && forall p :: p in t.pats ==> !EndsInExe(FilePart(p))
    ensures var g := After(t, preset, t.Size());
            && |g.togetherFiles| == |g.togetherPatterns|
            && var ss := SourcesOf(g, module_, true);
               AllNamedExe(ss, Renamed(ss, |ss|)) <==>
                 forall k :: 0 <= k < |g.togetherFiles| ==> GoName(g.togetherPatterns[k], module_) == g.togetherFiles[k]
  {
    var g := After(t, preset, t.Size());
    TogetherForWindowsIff(t, preset, module_);
    TogetherPicked(t, preset);
    var ss := SourcesOf(g, module_, true);
    WindowsNamedIff(ss);
    GoNamesWantedIff(g, module_, ss);
  }

  /** The group holds different binaries, and patterns of the project. */
  lemma TogetherPicked(t: Triples, preset: seq<string>)
    requires Distinct(t.bins)
    ensures var g := After(t, preset, t.Size());
            Distinct(g.togetherFiles) && forall p :: p in g.togetherPatterns ==> p in t.pats
  {
    var n, together, g := t.Size(), IsTogether(t, preset), After(t, preset, t.Size());
    TogetherAre(t, preset, n);
    forall k, l | 0 <= k < l < |g.togetherFiles| ensures g.togetherFiles[k] != g.togetherFiles[l] {
      var i := PickFrom(t.bins, n, together, k);
      var j := PickFrom(t.bins, n, together, l);
    }
    forall p | p in g.togetherPatterns ensures p in t.pats {
      var k :| 0 <= k < |g.togetherPatterns| && g.togetherPatterns[k] == p;
      var i := PickFrom(t.pats, n, together, k);
    }
  }

  lemma GoNamesWantedIff(g: Groups, module_: string, ss: seq<Source>)
    requires |g.togetherFiles| == |g.togetherPatterns| && ss == SourcesOf(g, module_, true) && Distinct(g.togetherFiles)
    ensures GoNamesAreWanted(ss) <==>
              forall k :: 0 <= k < |g.togetherFiles| ==> GoName(g.togetherPatterns[k], module_) == g.togetherFiles[k]
  {
    forall k | 0 <= k < |ss|
      ensures ss[k].built == ss[k].target + EXE <==> GoName(g.togetherPatterns[k], module_) == g.togetherFiles[k]
    {
      SameName(GoName(g.togetherPatterns[k], module_), g.togetherFiles[k]);
    }
    forall k, l | 0 <= k < l < |ss| ensures ss[k].target + EXE != ss[l].target + EXE {
      SameName(ss[k].target, ss[l].target);
    }
  }

  /** Two binaries with names of their own: for windows none of the files make waits for exists. */
  method WindowsMisnamed() returns (t: Triples, dir: map<string, nat>)
    ensures t == Triples(["x", "y"], ["./a", "./b"], [".", "."])
    ensures var ss := [Source("a", "a.exe", "x"), Source("b", "b.exe", "y")];
            && SourcesOf(After(t, [], 2), "m", true) == ss && BuiltForWindows(ss)
            && dir == map["a.exe" := 0, "b.exe" := 1] && !AllNamedExe(ss, dir)
  {
    t := Triples(["x", "y"], ["./a", "./b"], [".", "."]);
    MisnamedSources(t);
    var ss := [Source("a", "a.exe", "x"), Source("b", "b.exe", "y")];
    MisnamedOutputs(ss);
    dir := RenameOutputs(ss);
  }

  lemma MisnamedSources(t: Triples)
    requires t == Triples(["x", "y"], ["./a", "./b"], [".", "."])
    ensures SourcesOf(After(t, [], 2), "m", true) == [Source("a", "a.exe", "x"), Source("b", "b.exe", "y")]
  {
    TwoTogether(t, "x", "y");
    assert "a" + EXE == "a.exe" && "b" + EXE == "b.exe";
  }

  lemma MisnamedOutputs(ss: seq<Source>)
    requires ss == [Source("a", "a.exe", "x"), Source("b", "b.exe", "y")]
    ensures BuiltForWindows(ss) && Outputs(ss, 2) == map["a.exe" := 0, "b.exe" := 1] && !GoNamesAreWanted(ss)
  {
    assert "a" + EXE == "a.exe" && "b" + EXE == "b.exe" && "x" + EXE == "x.exe";
    ExtendedEndsInExe("a");
    ExtendedEndsInExe("b");
    assert Outputs(ss, 2) == Outputs(ss, 1)["b.exe" := 1] && Outputs(ss, 1) == Outputs(ss, 0)["a.exe" := 0];
    assert ss[0].built[0] == 'a' && (ss[0].target + EXE)[0] == 'x';
  }

  lemma TwoTogether(t: Triples, x: string, y: string)
    requires t == Triples([x, y], ["./a", "./b"], [".", "."]) && x != y
    ensures FilePart("./a") == "a" && FilePart("./b") == "b"
    ensures var g := After(t, [], 2); g.togetherFiles == [x, y] && g.togetherPatterns == ["./a", "./b"]
  {
    assert "./a"[1..] == "/a" && "/a"[1..] == "a" && "./b"[1..] == "/b" && "/b"[1..] == "b";
    assert FilePart("./a") == FilePart("/a") == FilePart("a") == "a";
    assert FilePart("./b") == FilePart("/b") == FilePart("b") == "b";
    var g0 := After(t, [], 0);
    var g1 := After(t, [], 1);
    assert g1 == SetupOne(g0, ".", x, "./a", ".");
    assert After(t, [], 2) == SetupOne(g1, ".", y, "./b", ".");
  }

  /** Two binaries named after each other's directory: make builds them together, and the first rename
      overwrites what the second was to move. */
  method SwappedNames() returns (t: Triples, dir: map<string, nat>)
    ensures t == Triples(["b", "a"], ["./a", "./b"], [".", "."])
    ensures var ss := [Source("a", "a", "b"), Source("b", "b", "a")];
            && SourcesOf(After(t, [], 2), "m", false) == ss && WellBuilt(ss) && !Safe(ss)
            && dir == map["a" := 0] && !AllNamed(ss, dir)
  {
    t := Triples(["b", "a"], ["./a", "./b"], [".", "."]);
    TwoTogether(t, "b", "a");
    var ss := [Source("a", "a", "b"), Source("b", "b", "a")];
    assert SourcesOf(After(t, [], 2), "m", false) == ss;
    SwappedRenames(ss);
    dir := RenameOutputs(ss);
  }

  lemma SwappedRenames(ss: seq<Source>)
    requires ss == [Source("a", "a", "b"), Source("b", "b", "a")]
    ensures WellBuilt(ss) && !Safe(ss) && Renamed(ss, 2) == map["a" := 0]
  {
    assert Moves(ss[0]) && ss[0].target == ss[1].built;
    assert Outputs(ss, 2) == Outputs(ss, 1)["b" := 1] && Outputs(ss, 1) == Outputs(ss, 0)["a" := 0];
    assert Outputs(ss, 2) == map["a" := 0, "b" := 1];
    assert Renamed(ss, 1) == map["b" := 0];
    assert Renamed(ss, 2) == Rename(Renamed(ss, 1), "b", "a");
  }
}
