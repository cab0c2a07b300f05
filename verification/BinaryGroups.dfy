/** Which binaries are built in one go command and which alone. The setup function changes make
    variables with eval, once per (binary, source pattern, go mod path) triple. */
module BinaryGroups {
  import opened Basics
  import opened MakeLists
  import opened TargetNames

  /** The names BINARY_TARGET_FILES_BUILD_*, SOURCE_PATTERNS_BUILD_*, GO_MOD_PATHS_BUILD_* and
      the set of _UNIQ_PATTERN_* variables. */
  datatype Groups = Groups(
    aloneFiles: seq<string>, alonePatterns: seq<string>, aloneMods: seq<string>,
    togetherFiles: seq<string>, togetherPatterns: seq<string>, togetherMods: seq<string>,
    seen: set<string>)

  datatype Triples = Triples(bins: seq<string>, pats: seq<string>, mods: seq<string>) {
    /** The lists are zipped up to the shortest. */
    function Size(): (n: nat)
      ensures n <= |bins| && n <= |pats| && n <= |mods|
      ensures n == |bins| || n == |pats| || n == |mods|
    {
      Min(|bins|, Min(|pats|, |mods|))
    }
  }

  // ---- What the variables hold after the first i triples ----

  predicate Alone(g: Groups, first: string, bin: string, pat: string, mod: string) {
    FilePart(pat) in g.seen || mod != first || bin in g.aloneFiles
  }

  function SetupOne(g: Groups, first: string, bin: string, pat: string, mod: string): (g': Groups) {
    var h :=
      if Alone(g, first, bin, pat, mod) then
        g.(aloneFiles := g.aloneFiles + if bin in g.aloneFiles then [] else [bin],
           alonePatterns := g.alonePatterns + [pat], aloneMods := g.aloneMods + [mod])
      else
        g.(togetherFiles := g.togetherFiles + [bin],
           togetherPatterns := g.togetherPatterns + [pat], togetherMods := g.togetherMods + [mod]);
    h.(seen := h.seen + {FilePart(pat)})
  }

  function First(t: Triples): (m: string) { if t.mods == [] then "" else t.mods[0] }

  /** Starting with the binaries the project already wants built alone. */
  function After(t: Triples, preset: seq<string>, i: nat): (g: Groups)
    requires i <= t.Size()
  {
    if i == 0 then Groups(preset, [], [], [], [], [], {})
    else SetupOne(After(t, preset, i - 1), First(t), t.bins[i - 1], t.pats[i - 1], t.mods[i - 1])
  }

  class MakeVars {
    var aloneFiles: seq<string>
    var alonePatterns: seq<string>
    var aloneMods: seq<string>
    var togetherFiles: seq<string>
    var togetherPatterns: seq<string>
    var togetherMods: seq<string>
    var seen: set<string>

    constructor (preset: seq<string>)
      ensures Current() == Groups(preset, [], [], [], [], [], {})
    {
      aloneFiles, alonePatterns, aloneMods := preset, [], [];
      togetherFiles, togetherPatterns, togetherMods := [], [], [];
      seen := {};
    }

    ghost function Current(): (g: Groups)
      reads this
    {
      Groups(aloneFiles, alonePatterns, aloneMods, togetherFiles, togetherPatterns, togetherMods, seen)
    }

    /** setup_build_alone_vs_together. */
    method SetupBuildAloneVsTogether(first: string, bin: string, pat: string, mod: string)
      modifies this
      ensures Current() == SetupOne(old(Current()), first, bin, pat, mod)
    {
      var alone := FilePart(pat) in seen || mod != first || bin in aloneFiles;
      if alone {
        if bin !in aloneFiles { aloneFiles := aloneFiles + [bin]; }
        alonePatterns := alonePatterns + [pat];
        aloneMods := aloneMods + [mod];
      } else {
        togetherFiles := togetherFiles + [bin];
        togetherPatterns := togetherPatterns + [pat];
        togetherMods := togetherMods + [mod];
      }
      seen := seen + {FilePart(pat)};
    }

    /** trimap of the setup function over what is left of the three lists. */
    method TrimapSetup(first: string, bins: seq<string>, pats: seq<string>, mods: seq<string>, ghost t: Triples,
          ghost preset: seq<string>, ghost i: nat)
      requires first == First(t) && i <= t.Size()
      requires bins == t.bins[i..] && pats == t.pats[i..] && mods == t.mods[i..]
      requires Current() == After(t, preset, i)
      modifies this
      ensures Current() == After(t, preset, t.Size())
      decreases |bins|
    {
      if bins != [] && pats != [] && mods != [] {
        SetupBuildAloneVsTogether(first, bins[0], pats[0], mods[0]);
        TrimapSetup(first, ListRem(bins), ListRem(pats), ListRem(mods), t, preset, i + 1);
      }
    }
  }

  /** The first trimap call of Common.mk, on fresh variables. */
  method SetupAll(t: Triples, preset: seq<string>) returns (vars: MakeVars)
    ensures vars.Current() == After(t, preset, t.Size())
  {
    vars := new MakeVars(preset);
    vars.TrimapSetup(First(t), t.bins, t.pats, t.mods, t, preset, 0);
  }

  // ---- Closed form and partition ----

  /** Triple i goes together: main module, a last path part not seen before, not preset alone. */
  predicate Together(t: Triples, preset: seq<string>, i: nat) {
    && i < t.Size()
    && t.mods[i] == First(t) && t.bins[i] !in preset
    && forall j :: 0 <= j < i ==> FilePart(t.pats[j]) != FilePart(t.pats[i])
  }

  function IsTogether(t: Triples, preset: seq<string>): (f: nat -> bool) { (i: nat) => Together(t, preset, i) }
  function IsAlone(t: Triples, preset: seq<string>): (f: nat -> bool) { (i: nat) => !Together(t, preset, i) }
  function IsNewAlone(t: Triples, preset: seq<string>): (f: nat -> bool) {
    (i: nat) => !Together(t, preset, i) && i < |t.bins| && t.bins[i] !in preset
  }

  lemma {:induction false} SeenAre(t: Triples, preset: seq<string>, i: nat)
    requires i <= t.Size()
    ensures After(t, preset, i).seen == (set j | 0 <= j < i :: FilePart(t.pats[j]))
  {
    if i > 0 { SeenAre(t, preset, i - 1); }
  }

  lemma {:induction false} AloneAreKnown(t: Triples, preset: seq<string>, i: nat)
    requires i <= t.Size()
    ensures var g := After(t, preset, i);
            && (forall b :: b in g.aloneFiles ==> b in preset || b in t.bins[..i])
            && (forall b :: b in preset ==> b in g.aloneFiles)
  {
    if i > 0 {
      AloneAreKnown(t, preset, i - 1);
      assert t.bins[..i] == t.bins[..i - 1] + [t.bins[i - 1]];
    }
  }

  lemma AloneIffNotTogether(t: Triples, preset: seq<string>, i: nat)
    requires i < t.Size() && Distinct(t.bins)
    ensures Alone(After(t, preset, i), First(t), t.bins[i], t.pats[i], t.mods[i]) <==> !Together(t, preset, i)
    ensures t.bins[i] in After(t, preset, i).aloneFiles <==> t.bins[i] in preset
  {
    SeenAre(t, preset, i);
    AloneAreKnown(t, preset, i);
  }

  /** What one triple adds to each list. */
  lemma SetupAdds(g: Groups, first: string, bin: string, pat: string, mod: string)
    ensures var h := SetupOne(g, first, bin, pat, mod);
            var alone := Alone(g, first, bin, pat, mod);
            && h.togetherFiles == g.togetherFiles + (if alone then [] else [bin])
            && h.togetherPatterns == g.togetherPatterns + (if alone then [] else [pat])
            && h.togetherMods == g.togetherMods + (if alone then [] else [mod])
            && h.aloneFiles == g.aloneFiles + (if alone && bin !in g.aloneFiles then [bin] else [])
            && h.alonePatterns == g.alonePatterns + (if alone then [pat] else [])
            && h.aloneMods == g.aloneMods + (if alone then [mod] else [])
  {
  }

  lemma {:induction false} TogetherAre(t: Triples, preset: seq<string>, i: nat)
    requires i <= t.Size() && Distinct(t.bins)
    ensures var g := After(t, preset, i);
            && g.togetherFiles == Pick(t.bins, i, IsTogether(t, preset))
            && g.togetherPatterns == Pick(t.pats, i, IsTogether(t, preset))
            && g.togetherMods == Pick(t.mods, i, IsTogether(t, preset))
  {
    if i > 0 {
      TogetherAre(t, preset, i - 1);
      SetupAdds(After(t, preset, i - 1), First(t), t.bins[i - 1], t.pats[i - 1], t.mods[i - 1]);
      AloneIffNotTogether(t, preset, i - 1);
      assert IsTogether(t, preset)(i - 1) == Together(t, preset, i - 1);
    }
  }

  lemma {:induction false} AloneAre(t: Triples, preset: seq<string>, i: nat)
    requires i <= t.Size() && Distinct(t.bins)
    ensures var g := After(t, preset, i);
            && g.alonePatterns == Pick(t.pats, i, IsAlone(t, preset))
            && g.aloneMods == Pick(t.mods, i, IsAlone(t, preset))
  {
    if i > 0 {
      AloneAre(t, preset, i - 1);
      SetupAdds(After(t, preset, i - 1), First(t), t.bins[i - 1], t.pats[i - 1], t.mods[i - 1]);
      AloneIffNotTogether(t, preset, i - 1);
      assert IsAlone(t, preset)(i - 1) == !Together(t, preset, i - 1);
    }
  }

  lemma AloneFilesStep(t: Triples, preset: seq<string>, n: nat)
    requires n < t.Size() && Distinct(t.bins)
    ensures After(t, preset, n + 1).aloneFiles ==
              After(t, preset, n).aloneFiles + if IsNewAlone(t, preset)(n) then [t.bins[n]] else []
  {
    SetupAdds(After(t, preset, n), First(t), t.bins[n], t.pats[n], t.mods[n]);
    AloneIffNotTogether(t, preset, n);
  }

  lemma {:induction false} AloneFilesAre(t: Triples, preset: seq<string>, i: nat)
    requires i <= t.Size() && Distinct(t.bins)
    ensures After(t, preset, i).aloneFiles == preset + Pick(t.bins, i, IsNewAlone(t, preset))
  {
    if i > 0 {
      AloneFilesAre(t, preset, i - 1);
      AloneFilesStep(t, preset, i - 1);
    }
  }

  /** All six lists are order-preserving selections of the given ones. */
  lemma GroupsAre(t: Triples, preset: seq<string>, i: nat)
    requires i <= t.Size() && Distinct(t.bins)
    ensures var g := After(t, preset, i);
            && g.togetherFiles == Pick(t.bins, i, IsTogether(t, preset))
            && g.togetherPatterns == Pick(t.pats, i, IsTogether(t, preset))
            && g.togetherMods == Pick(t.mods, i, IsTogether(t, preset))
            && g.aloneFiles == preset + Pick(t.bins, i, IsNewAlone(t, preset))
            && g.alonePatterns == Pick(t.pats, i, IsAlone(t, preset))
            && g.aloneMods == Pick(t.mods, i, IsAlone(t, preset))
  {
    TogetherAre(t, preset, i);
    AloneAre(t, preset, i);
    AloneFilesAre(t, preset, i);
  }

  /** Every listed binary lands in exactly one of the two lists; a binary for which the other
      lists have no entry is in neither, unless the project asked for it alone. */
  lemma EachBinaryInOneGroup(t: Triples, preset: seq<string>, i: nat)
    requires i < |t.bins| && Distinct(t.bins)
    ensures var g := After(t, preset, t.Size());
            && (t.bins[i] in g.togetherFiles <==> Together(t, preset, i))
            && (t.bins[i] in g.aloneFiles <==> t.bins[i] in preset || (i < t.Size() && !Together(t, preset, i)))
            && (i < t.Size() ==> (t.bins[i] in g.togetherFiles) != (t.bins[i] in g.aloneFiles))
  {
    var n := t.Size();
    var together, added := IsTogether(t, preset), IsNewAlone(t, preset);
    GroupsAre(t, preset, n);
    PickAt(t.bins, n, together);
    PickAt(t.bins, n, added);
    if t.bins[i] in Pick(t.bins, n, together) {
      var k :| 0 <= k < |Pick(t.bins, n, together)| && Pick(t.bins, n, together)[k] == t.bins[i];
      var j := PickFrom(t.bins, n, together, k);
      assert j == i;
    }
    if t.bins[i] in Pick(t.bins, n, added) {
      var k :| 0 <= k < |Pick(t.bins, n, added)| && Pick(t.bins, n, added)[k] == t.bins[i];
      var j := PickFrom(t.bins, n, added, k);
      assert j == i;
    }
  }

  /** The three TOGETHER lists are aligned with each other and with the given triples, share the
      main go mod path, and have pairwise different last path parts. */
  lemma TogetherListsAligned(t: Triples, preset: seq<string>)
    requires Distinct(t.bins)
    ensures var g := After(t, preset, t.Size());
            && |g.togetherFiles| == |g.togetherPatterns| == |g.togetherMods|
            && (forall k :: 0 <= k < |g.togetherFiles| ==>
                  exists i :: 0 <= i < t.Size() && g.togetherFiles[k] == t.bins[i]
                    && g.togetherPatterns[k] == t.pats[i] && g.togetherMods[k] == t.mods[i] == First(t))
            && (forall k, l :: 0 <= k < l < |g.togetherPatterns| ==>
                  FilePart(g.togetherPatterns[k]) != FilePart(g.togetherPatterns[l]))
  {
    var n, together := t.Size(), IsTogether(t, preset);
    var g := After(t, preset, n);
    GroupsAre(t, preset, n);
    PickAt(t.bins, n, together);
    PickAt(t.pats, n, together);
    PickAt(t.mods, n, together);
    forall k | 0 <= k < |g.togetherFiles|
      ensures exists i :: 0 <= i < n && g.togetherFiles[k] == t.bins[i]
                && g.togetherPatterns[k] == t.pats[i] && g.togetherMods[k] == t.mods[i] == First(t)
    {
      var i := PickFrom(t.bins, n, together, k);
      assert Together(t, preset, i);
    }
    forall k, l | 0 <= k < l < |g.togetherPatterns|
      ensures FilePart(g.togetherPatterns[k]) != FilePart(g.togetherPatterns[l])
    {
      var i := PickFrom(t.pats, n, together, k);
      var j := PickFrom(t.pats, n, together, l);
      assert Together(t, preset, i) && Together(t, preset, j);
    }
  }

  /** SOURCE_PATTERN of the binary rule. */
  function SourcePattern(t: Triples, g: Groups, bin: string): (ps: seq<string>) {
    if bin in g.togetherFiles then g.togetherPatterns
    else
      var k := Pos(bin, t.bins);
      if 1 <= k <= |t.pats| then [t.pats[k - 1]] else []
  }

  /** The pattern looked up for a binary is its own one when it is built alone, and holds its own
      one, at the binary's place in the list, when it is built together. */
  lemma SourcePatternIsOwn(t: Triples, preset: seq<string>, i: nat)
    requires i < t.Size() && Distinct(t.bins)
    ensures var g := After(t, preset, t.Size());
            var ps := SourcePattern(t, g, t.bins[i]);
            if Together(t, preset, i) then
              exists k :: 0 <= k < |ps| && k < |g.togetherFiles| && g.togetherFiles[k] == t.bins[i] &&
                ps[k] == t.pats[i]
            else ps == [t.pats[i]]
  {
    var n, together := t.Size(), IsTogether(t, preset);
    EachBinaryInOneGroup(t, preset, i);
    GroupsAre(t, preset, n);
    PosIsLast(t.bins[i], t.bins);
    assert Pos(t.bins[i], t.bins) == i + 1;
    if Together(t, preset, i) {
      PickAt(t.bins, n, together);
      PickAt(t.pats, n, together);
      assert together(i);
    }
  }
}
