/** Choosing the latest revision of an upstream project: from GitHub by commit date and
    version precedence at once, from the public ECR by precedence alone. */
module Revision {
  import opened Basics
  import opened Semver

  datatype Tag = Tag(name: string, sha: string)

  /** What GitHub answers during one query: releases that are not pre-releases, tags and commits in
      API order, the date of a commit, and how a tag reads as a version. */
  datatype Upstream = Upstream(
    releases: seq<string>, tags: seq<Tag>, commits: seq<string>,
    date: string -> Option<int>, parse: string -> Option<Version>)

  datatype Result = Err | Latest(revision: string, needsUpgrade: bool)

  function CommitForTag(tags: seq<Tag>, name: string): (sha: string) {
    if tags == [] then "" else if tags[0].name == name then tags[0].sha else CommitForTag(tags[1..], name)
  }

  method GetCommitForTag(tags: seq<Tag>, name: string) returns (sha: string)
    ensures sha == CommitForTag(tags, name)
  {
    for i := 0 to |tags|
      invariant CommitForTag(tags, name) == CommitForTag(tags[i..], name)
    {
      if tags[i].name == name { return tags[i].sha; }
    }
    return "";
  }

  /** The commit of the first tag with the name, and the empty string without one. */
  lemma {:induction false} CommitForTagIsFirst(tags: seq<Tag>, name: string)
    ensures forall k :: 0 <= k < |tags| && tags[k].name == name && (forall j :: 0 <= j < k ==> tags[j].name != name) ==>
              CommitForTag(tags, name) == tags[k].sha
    ensures (forall k :: 0 <= k < |tags| ==> tags[k].name != name) ==> CommitForTag(tags, name) == ""
    decreases |tags|
  {
    if tags != [] && tags[0].name != name {
      var rest := tags[1..];
      CommitForTagIsFirst(rest, name);
      assert forall j :: 0 <= j < |rest| ==> rest[j] == tags[j + 1];
      forall k | 0 <= k < |tags| && tags[k].name == name && (forall j :: 0 <= j < k ==> tags[j].name != name)
        ensures CommitForTag(tags, name) == tags[k].sha
      {
        assert rest[k - 1] == tags[k];
      }
    }
  }

  // ---- One comparison ----

  datatype Verdict = Broken | Upgrade | Current | Other

  function DateOfTag(u: Upstream, tag: string): (d: Option<int>) { u.date(CommitForTag(u.tags, tag)) }

  /** isUpgradeRequired, as its two booleans and its error. */
  function Judge(u: Upstream, tag: string, currentDate: int, current: Version): (v: Verdict) {
    if CommitForTag(u.tags, tag) == "" || DateOfTag(u, tag).None? || u.parse(tag).None? then Broken
    else if DateOfTag(u, tag).value > currentDate && GreaterThan(u.parse(tag).value, current) then Upgrade
    else if Equal(u.parse(tag).value, current) then Current
    else Other
  }

  method IsUpgradeRequired(u: Upstream, tag: string, currentDate: int, current: Version)
    returns (ok: bool, needsUpgrade: bool, shouldBreak: bool)
    ensures (match Judge(u, tag, currentDate, current)
             case Broken => !ok
             case Upgrade => ok && needsUpgrade && shouldBreak
             case Current => ok && !needsUpgrade && shouldBreak
             case Other => ok && !needsUpgrade && !shouldBreak)
  {
    needsUpgrade, shouldBreak := false, false;
    var commit := GetCommitForTag(u.tags, tag);
    if commit == "" { return false, false, false; }
    var date := u.date(commit);
    if date.None? { return false, false, false; }
    var version := u.parse(tag);
    if version.None? { return false, false, false; }
    ok := true;
    if date.value > currentDate && GreaterThan(version.value, current) {
      needsUpgrade, shouldBreak := true, true;
    } else if Equal(version.value, current) {
      needsUpgrade, shouldBreak := false, true;
    }
  }

  // ---- The scan ----

  function TagNames(tags: seq<Tag>): (names: seq<string>) {
    if tags == [] then [] else [tags[0].name] + TagNames(tags[1..])
  }

  /** The list the scan goes through: releases, or tags when there are none. */
  function Candidates(u: Upstream): (names: seq<string>) {
    if u.releases != [] then u.releases else TagNames(u.tags)
  }

  function Scan(u: Upstream, names: seq<string>, i: nat, currentDate: int, current: Version): (r: Result)
    requires i <= |names|
    decreases |names| - i
  {
    if i == |names| then Latest(if i == 0 then "" else names[i - 1], false)
    else match Judge(u, names[i], currentDate, current)
      case Broken => Err
      case Upgrade => Latest(names[i], true)
      case Current => Latest(names[i], false)
      case Other => Scan(u, names, i + 1, currentDate, current)
  }

  function LatestRevision(u: Upstream, current: string): (r: Result) {
    if DateOfTag(u, current).None? || u.parse(current).None? then Err
    else if Candidates(u) != [] then Scan(u, Candidates(u), 0, DateOfTag(u, current).value, u.parse(current).value)
    else if u.commits == [] then Err
    else Latest(u.commits[0], true)
  }

  method ScanNames(u: Upstream, names: seq<string>, currentDate: int, current: Version) returns (r: Result)
    ensures r == Scan(u, names, 0, currentDate, current)
  {
    var latest, needsUpgrade := "", false;
    for i := 0 to |names|
      invariant Scan(u, names, i, currentDate, current) == Scan(u, names, 0, currentDate, current)
      invariant latest == (if i == 0 then "" else names[i - 1]) && !needsUpgrade
    {
      latest := names[i];
      var ok, upgrade, stop := IsUpgradeRequired(u, latest, currentDate, current);
      if !ok { return Err; }
      if stop {
        return Latest(latest, upgrade);
      }
    }
    return Latest(latest, needsUpgrade);
  }

  method GetLatestRevision(u: Upstream, current: string) returns (r: Result)
    ensures r == LatestRevision(u, current)
  {
    var commit := GetCommitForTag(u.tags, current);
    var date := u.date(commit);
    if date.None? { return Err; }
    var version := u.parse(current);
    if version.None? { return Err; }
    if |u.releases| > 0 {
      r := ScanNames(u, u.releases, date.value, version.value);
    } else if |u.tags| > 0 {
      r := ScanNames(u, TagNames(u.tags), date.value, version.value);
    } else if |u.commits| == 0 {
      r := Err;
    } else {
      r := Latest(u.commits[0], true);
    }
  }

  // ---- Soundness and fixpoint ----

  /** a is later in time and higher in precedence than b. */
  predicate Newer(u: Upstream, a: string, b: string) {
    && DateOfTag(u, a).Some? && DateOfTag(u, b).Some? && u.parse(a).Some? && u.parse(b).Some?
    && DateOfTag(u, a).value > DateOfTag(u, b).value && GreaterThan(u.parse(a).value, u.parse(b).value)
  }

  /** A tag without a commit, a commit without a date, or a name that is no version. */
  predicate Unreadable(u: Upstream, name: string) {
    CommitForTag(u.tags, name) == "" || DateOfTag(u, name).None? || u.parse(name).None?
  }

  /** The scan ends at an unreadable name, a newer one, or one of the current version. */
  predicate Decides(u: Upstream, name: string, current: string) {
    Unreadable(u, name) || Newer(u, name, current) || u.parse(name) == u.parse(current)
  }

  lemma {:induction false} ScanEndsAtFirst(u: Upstream, names: seq<string>, i: nat, k: nat, current: string)
    requires i <= k < |names| && DateOfTag(u, current).Some? && u.parse(current).Some?
    requires Decides(u, names[k], current) && forall j :: i <= j < k ==> !Decides(u, names[j], current)
    ensures Scan(u, names, i, DateOfTag(u, current).value, u.parse(current).value) ==
              if Unreadable(u, names[k]) then Err else Latest(names[k], Newer(u, names[k], current))
    decreases k - i
  {
    if !Unreadable(u, names[i]) {
      PrecedenceIsTotalOrder(u.parse(names[i]).value, u.parse(current).value, u.parse(current).value);
    }
    if i < k { ScanEndsAtFirst(u, names, i + 1, k, current); }
  }

  lemma {:induction false} ScanRunsThrough(u: Upstream, names: seq<string>, i: nat, current: string)
    requires i <= |names| && DateOfTag(u, current).Some? && u.parse(current).Some?
    requires forall j :: i <= j < |names| ==> !Decides(u, names[j], current)
    ensures Scan(u, names, i, DateOfTag(u, current).value, u.parse(current).value) ==
              Latest(if names == [] then "" else names[|names| - 1], false)
    decreases |names| - i
  {
    if i < |names| {
      PrecedenceIsTotalOrder(u.parse(names[i]).value, u.parse(current).value, u.parse(current).value);
      ScanRunsThrough(u, names, i + 1, current);
    }
  }

  lemma {:induction false} TagNamesAre(tags: seq<Tag>)
    ensures |TagNames(tags)| == |tags| && forall i :: 0 <= i < |tags| ==> TagNames(tags)[i] == tags[i].name
    decreases |tags|
  {
    if tags != [] { TagNamesAre(tags[1..]); }
  }

  /** The answer in plain terms: an error when the current revision has no dated commit or is no version;
      else releases, or tags without releases, are gone through in order up to the first name that decides,
      and the last name is given without an upgrade when none does. */
  lemma LatestRevisionIs(u: Upstream, current: string, k: nat)
    ensures u.date(CommitForTag(u.tags, current)).None? || u.parse(current).None? ==> LatestRevision(u, current) == Err
    ensures var names := if |u.releases| > 0 then u.releases
                         else seq(|u.tags|, i requires 0 <= i < |u.tags| => u.tags[i].name);
            u.date(CommitForTag(u.tags, current)).Some? && u.parse(current).Some? && names != [] ==>
              && (k < |names| && Decides(u, names[k], current)
                  && (forall j :: 0 <= j < k ==> !Decides(u, names[j], current)) ==>
                    LatestRevision(u, current) ==
                      if Unreadable(u, names[k]) then Err else Latest(names[k], Newer(u, names[k], current)))
              && ((forall j :: 0 <= j < |names| ==> !Decides(u, names[j], current)) ==>
                    LatestRevision(u, current) == Latest(names[|names| - 1], false))
  {
    TagNamesAre(u.tags);
    var names := if |u.releases| > 0 then u.releases else seq(|u.tags|, i requires 0 <= i < |u.tags| => u.tags[i].name);
    assert names == Candidates(u);
    if u.date(CommitForTag(u.tags, current)).Some? && u.parse(current).Some? && names != [] {
      if k < |names| && Decides(u, names[k], current) && (forall j :: 0 <= j < k ==> !Decides(u, names[j], current)) {
        ScanEndsAtFirst(u, names, 0, k, current);
      }
      if forall j :: 0 <= j < |names| ==> !Decides(u, names[j], current) { ScanRunsThrough(u, names, 0, current); }
    }
  }

  /** Where an upgrade answer was found, and what came before it. */
  lemma {:induction false} ScanFinds(u: Upstream, names: seq<string>, i: nat, current: string) returns (k: nat)
    requires i <= |names| && DateOfTag(u, current).Some? && u.parse(current).Some?
    requires var r := Scan(u, names, i, DateOfTag(u, current).value, u.parse(current).value);
             r.Latest? && r.needsUpgrade
    ensures i <= k < |names| && Newer(u, names[k], current)
    ensures Scan(u, names, i, DateOfTag(u, current).value, u.parse(current).value).revision == names[k]
    ensures forall j :: i <= j < k ==>
              Judge(u, names[j], DateOfTag(u, current).value, u.parse(current).value) == Other
    decreases |names| - i
  {
    if Judge(u, names[i], DateOfTag(u, current).value, u.parse(current).value) == Upgrade {
      k := i;
    } else {
      k := ScanFinds(u, names, i + 1, current);
    }
  }

  /** With answer names[k] as current revision the scan stops at or before k without an upgrade. */
  lemma {:induction false} ScanStops(u: Upstream, names: seq<string>, i: nat, k: nat, current: string)
    requires i <= k < |names| && Newer(u, names[k], current)
    requires CommitForTag(u.tags, names[k]) != ""
    requires forall j :: i <= j < k ==> Judge(u, names[j], DateOfTag(u, current).value, u.parse(current).value) == Other
    ensures var r := Scan(u, names, i, DateOfTag(u, names[k]).value, u.parse(names[k]).value);
            r.Latest? && !r.needsUpgrade
    decreases k - i
  {
    var x := u.parse(names[k]).value;
    PrecedenceIsTotalOrder(x, x, x);
    if i < k {
      assert Judge(u, names[i], DateOfTag(u, current).value, u.parse(current).value) == Other;
      PrecedenceIsTotalOrder(u.parse(names[i]).value, x, u.parse(current).value);
      ScanStops(u, names, i + 1, k, current);
    }
  }

  /** The same for a commit, by its own date. */
  predicate NewerCommit(u: Upstream, sha: string, b: string) {
    && u.date(sha).Some? && DateOfTag(u, b).Some? && u.parse(sha).Some? && u.parse(b).Some?
    && u.date(sha).value > DateOfTag(u, b).value && GreaterThan(u.parse(sha).value, u.parse(b).value)
  }

  /** With releases or tags an upgrade answer is one of them, strictly later and strictly higher than the
      current revision. Without them it is the first commit, which no comparison guards: it is later and higher
      exactly when that commit happens to be. */
  lemma UpgradeIsNewer(u: Upstream, current: string)
    ensures var r := LatestRevision(u, current);
            r.Latest? && r.needsUpgrade ==>
              if Candidates(u) != [] then r.revision in Candidates(u) && Newer(u, r.revision, current)
              else && u.commits != [] && r.revision == u.commits[0] && !Newer(u, r.revision, current)
                   && (NewerCommit(u, r.revision, current) <==>
                         && u.parse(u.commits[0]).Some?
                         && GreaterThan(u.parse(u.commits[0]).value, u.parse(current).value)
                         && u.date(u.commits[0]).Some? && u.date(u.commits[0]).value > u.date("").value)
  {
    var r := LatestRevision(u, current);
    if r.Latest? && r.needsUpgrade {
      if Candidates(u) != [] {
        var k := ScanFinds(u, Candidates(u), 0, current);
      } else {
        assert u.tags == [];
      }
    }
  }

  /** Without releases and tags the date that is asked for is that of the empty commit name, and there is
      an answer exactly when GitHub has one, the current revision is a version and there is a commit. */
  lemma NoTagsAnswerIff(u: Upstream, current: string)
    requires Candidates(u) == []
    ensures LatestRevision(u, current) ==
              if u.date("").Some? && u.parse(current).Some? && u.commits != [] then Latest(u.commits[0], true) else Err
  {
    assert u.tags == [];
  }

  /** Asking again with the answer as current revision, on unchanged upstream data. With releases or tags
      the query goes through and asks for no further upgrade. Without them it fails exactly when the commit
      hash does not read as a version, and asks for the same upgrade for ever otherwise. */
  lemma FixpointIff(u: Upstream, current: string)
    requires var r := LatestRevision(u, current); r.Latest? && r.needsUpgrade
    ensures var again := LatestRevision(u, LatestRevision(u, current).revision);
            && (Candidates(u) != [] <==> again.Latest? && !again.needsUpgrade)
            && (Candidates(u) == [] ==>
                  && u.date("").Some? && u.commits != []
                  && (again.Err? <==> u.parse(u.commits[0]).None?)
                  && (again.Latest? <==> again == LatestRevision(u, current)))
  {
    if Candidates(u) != [] {
      var k := ScanFinds(u, Candidates(u), 0, current);
      var x := Candidates(u)[k];
      assert Judge(u, x, DateOfTag(u, current).value, u.parse(current).value) == Upgrade by {
        UpgradeJudged(u, Candidates(u), 0, k, current);
      }
      ScanStops(u, Candidates(u), 0, k, current);
    } else {
      NoTagsAnswerIff(u, current);
      NoTagsAnswerIff(u, u.commits[0]);
    }
  }

  /** One commit, no release, no tag, and a hash that does not read as a version: the first query upgrades
      to the hash and the next one fails. */
  method UpgradeToHash() returns (u: Upstream, first: Result, again: Result)
    ensures u.releases == [] && u.tags == [] && u.commits == ["c0ffee"]
    ensures first == LatestRevision(u, "v1.0.0") == Latest("c0ffee", true) && !NewerCommit(u, "c0ffee", "v1.0.0")
    ensures again == LatestRevision(u, "c0ffee") == Err
  {
    u := Upstream([], [], ["c0ffee"], sha => Some(0),
                  tag => if tag == "v1.0.0" then Some(Version(1, 0, 0, [])) else None);
    NoTagsAnswerIff(u, "v1.0.0");
    first := GetLatestRevision(u, "v1.0.0");
    again := GetLatestRevision(u, "c0ffee");
  }

  lemma {:induction false} UpgradeJudged(u: Upstream, names: seq<string>, i: nat, k: nat, current: string)
    requires i <= k < |names| && DateOfTag(u, current).Some? && u.parse(current).Some?
    requires forall j :: i <= j < k ==> Judge(u, names[j], DateOfTag(u, current).value, u.parse(current).value) == Other
    requires Newer(u, names[k], current)
    requires var r := Scan(u, names, i, DateOfTag(u, current).value, u.parse(current).value);
             r.Latest? && r.needsUpgrade
    ensures Judge(u, names[k], DateOfTag(u, current).value, u.parse(current).value) == Upgrade
    decreases k - i
  {
    if i < k { UpgradeJudged(u, names, i + 1, k, current); }
  }

  /** The first acceptable entry wins, so the answer need not be the newest; it is not beaten by any
      candidate when the list runs from later to earlier commits. */
  lemma NoneNewerInDateOrder(u: Upstream, current: string)
    requires Candidates(u) != []
    requires var r := LatestRevision(u, current); r.Latest? && r.needsUpgrade
    requires forall i, j :: 0 <= i < j < |Candidates(u)| &&
                            DateOfTag(u, Candidates(u)[i]).Some? && DateOfTag(u, Candidates(u)[j]).Some? ==>
               DateOfTag(u, Candidates(u)[i]).value >= DateOfTag(u, Candidates(u)[j]).value
    ensures forall c :: c in Candidates(u) ==> !Newer(u, c, LatestRevision(u, current).revision)
  {
    var names := Candidates(u);
    var k := ScanFinds(u, names, 0, current);
    forall c | c in names ensures !Newer(u, c, names[k]) {
      var j :| 0 <= j < |names| && names[j] == c;
      if j < k && u.parse(c).Some? {
        assert Judge(u, c, DateOfTag(u, current).value, u.parse(current).value) == Other;
        PrecedenceIsTotalOrder(u.parse(c).value, u.parse(names[k]).value, u.parse(current).value);
      }
    }
  }

  // ---- Public ECR ----

  predicate IsVersionTag(tag: string) { |tag| > 0 && tag[0] == 'v' }

  /** The answer for a list of image tags: an error for an unreadable version, else a tag of the
      highest version, when one is above the current version. */
  ghost predicate IsEcrAnswer(tags: seq<string>, parse: string -> Option<Version>, current: string, r: Result) {
    if parse(current).None? || exists t :: t in tags && IsVersionTag(t) && parse(t).None? then r == Err
    else
      var cur := parse(current).value;
      if forall t :: t in tags && IsVersionTag(t) ==> !GreaterThan(parse(t).value, cur) then r == Latest("", false)
      else
        && r.Latest? && r.needsUpgrade && r.revision in tags && IsVersionTag(r.revision)
        && GreaterThan(parse(r.revision).value, cur)
        && forall t :: t in tags && IsVersionTag(t) ==> !GreaterThan(parse(t).value, parse(r.revision).value)
  }

  /** The running maximum from tag i on, keeping the first tag of the highest version. */
  function HighestFrom(tags: seq<string>, parse: string -> Option<Version>, i: nat, latest: string,
        highest: Version): (r: Result)
    requires i <= |tags|
    decreases |tags| - i
  {
    if i == |tags| then Latest(latest, latest != "")
    else if !IsVersionTag(tags[i]) then HighestFrom(tags, parse, i + 1, latest, highest)
    else if parse(tags[i]).None? then Err
    else if GreaterThan(parse(tags[i]).value, highest) then
      HighestFrom(tags, parse, i + 1, tags[i], parse(tags[i]).value)
    else HighestFrom(tags, parse, i + 1, latest, highest)
  }

  function LatestImageTag(tags: seq<string>, parse: string -> Option<Version>, current: string): (r: Result) {
    if parse(current).None? then Err else HighestFrom(tags, parse, 0, "", parse(current).value)
  }

  method GetLatestImageTag(tags: seq<string>, parse: string -> Option<Version>, current: string) returns (r: Result)
    ensures r == LatestImageTag(tags, parse, current)
    ensures IsEcrAnswer(tags, parse, current, r)
  {
    LatestImageTagIsAnswer(tags, parse, current);
    var cur := parse(current);
    if cur.None? { return Err; }
    var latest, highest := "", cur.value;
    for i := 0 to |tags|
      invariant HighestFrom(tags, parse, i, latest, highest) == LatestImageTag(tags, parse, current)
    {
      var tag := tags[i];
      if !IsVersionTag(tag) { continue; }
      var version := parse(tag);
      if version.None? { return Err; }
      if GreaterThan(version.value, highest) {
        highest, latest := version.value, tag;
      }
    }
    if latest == "" { return Latest("", false); }
    return Latest(latest, true);
  }

  /** The running maximum meets the specification. */
  lemma {:induction false} HighestFromIsAnswer(tags: seq<string>, parse: string -> Option<Version>, current: string,
        i: nat, latest: string, highest: Version)
    requires i <= |tags| && parse(current).Some?
    requires forall j :: 0 <= j < i && IsVersionTag(tags[j]) ==>
               parse(tags[j]).Some? && !GreaterThan(parse(tags[j]).value, highest)
    requires latest == "" ==> highest == parse(current).value
    requires latest != "" ==>
               latest in tags && IsVersionTag(latest) && parse(latest) == Some(highest) &&
                 GreaterThan(highest, parse(current).value)
    ensures IsEcrAnswer(tags, parse, current, HighestFrom(tags, parse, i, latest, highest))
    decreases |tags| - i
  {
    if i < |tags| {
      if IsVersionTag(tags[i]) && parse(tags[i]).Some? && GreaterThan(parse(tags[i]).value, highest) {
        RaiseHighest(tags[..i], parse, highest, parse(tags[i]).value, parse(current).value);
        HighestFromIsAnswer(tags, parse, current, i + 1, tags[i], parse(tags[i]).value);
      } else if !IsVersionTag(tags[i]) || parse(tags[i]).Some? {
        HighestFromIsAnswer(tags, parse, current, i + 1, latest, highest);
      }
    }
  }

  lemma LatestImageTagIsAnswer(tags: seq<string>, parse: string -> Option<Version>, current: string)
    ensures IsEcrAnswer(tags, parse, current, LatestImageTag(tags, parse, current))
  {
    if parse(current).Some? { HighestFromIsAnswer(tags, parse, current, 0, "", parse(current).value); }
  }

  lemma {:induction false} FirstMaximumFrom(tags: seq<string>, parse: string -> Option<Version>, i: nat, latest: string,
        highest: Version, m: nat) returns (k: nat)
    requires i <= |tags|
    requires var r := HighestFrom(tags, parse, i, latest, highest); r.Latest? && r.needsUpgrade
    requires forall j :: 0 <= j < i && IsVersionTag(tags[j]) ==>
               parse(tags[j]).Some? && !GreaterThan(parse(tags[j]).value, highest)
    requires latest != "" ==>
               && m < i && tags[m] == latest && IsVersionTag(latest) && parse(latest) == Some(highest)
               && forall j :: 0 <= j < m && IsVersionTag(tags[j]) ==> GreaterThan(highest, parse(tags[j]).value)
    ensures k < |tags| && HighestFrom(tags, parse, i, latest, highest).revision == tags[k]
    ensures IsVersionTag(tags[k]) && parse(tags[k]).Some?
    ensures forall j :: 0 <= j < k && IsVersionTag(tags[j]) ==>
              parse(tags[j]).Some? && GreaterThan(parse(tags[k]).value, parse(tags[j]).value)
    decreases |tags| - i
  {
    if i == |tags| {
      k := m;
    } else if IsVersionTag(tags[i]) && GreaterThan(parse(tags[i]).value, highest) {
      var higher := parse(tags[i]).value;
      PrecedenceIsTotalOrder(higher, higher, higher);
      forall j | 0 <= j < i && IsVersionTag(tags[j])
        ensures GreaterThan(higher, parse(tags[j]).value) && !GreaterThan(parse(tags[j]).value, higher)
      {
        PrecedenceIsTotalOrder(higher, highest, parse(tags[j]).value);
        PrecedenceIsTotalOrder(parse(tags[j]).value, highest, higher);
        PrecedenceIsTotalOrder(parse(tags[j]).value, higher, highest);
      }
      k := FirstMaximumFrom(tags, parse, i + 1, tags[i], higher, i);
    } else {
      k := FirstMaximumFrom(tags, parse, i + 1, latest, highest, m);
    }
  }

  /** Among tags of the highest version the first one is chosen. */
  lemma FirstMaximum(tags: seq<string>, parse: string -> Option<Version>, current: string) returns (k: nat)
    requires var r := LatestImageTag(tags, parse, current); r.Latest? && r.needsUpgrade
    ensures k < |tags| && LatestImageTag(tags, parse, current).revision == tags[k]
    ensures parse(tags[k]).Some? && parse(current).Some?
    ensures forall j :: 0 <= j < k && |tags[j]| > 0 && tags[j][0] == 'v' ==>
              parse(tags[j]).Some? && GreaterThan(parse(tags[k]).value, parse(tags[j]).value)
  {
    k := FirstMaximumFrom(tags, parse, 0, "", parse(current).value, 0);
  }

  lemma RaiseHighest(done: seq<string>, parse: string -> Option<Version>, highest: Version, higher: Version,
        cur: Version)
    requires GreaterThan(higher, highest) && (highest == cur || GreaterThan(highest, cur))
    requires forall j :: 0 <= j < |done| && IsVersionTag(done[j]) ==>
               parse(done[j]).Some? && !GreaterThan(parse(done[j]).value, highest)
    ensures GreaterThan(higher, cur) && !GreaterThan(higher, higher)
    ensures forall j :: 0 <= j < |done| && IsVersionTag(done[j]) ==> !GreaterThan(parse(done[j]).value, higher)
  {
    PrecedenceIsTotalOrder(higher, highest, cur);
    PrecedenceIsTotalOrder(higher, higher, higher);
    forall j | 0 <= j < |done| && IsVersionTag(done[j]) ensures !GreaterThan(parse(done[j]).value, higher) {
      PrecedenceIsTotalOrder(parse(done[j]).value, higher, highest);
    }
  }

  /** A second query on the same tags, with the first answer as current version, finds nothing newer. */
  lemma EcrFixpoint(tags: seq<string>, parse: string -> Option<Version>, current: string, first: Result, again: Result)
    requires IsEcrAnswer(tags, parse, current, first) && first.Latest? && first.needsUpgrade
    requires IsEcrAnswer(tags, parse, first.revision, again)
    ensures again == Latest("", false)
  {
  }
}
