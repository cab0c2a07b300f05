/** The upstream projects tracker in memory: decoded lists of projects, repositories and versions,
    where a repository found by the search is a copy whose versions slice still shares its storage
    with the list that is encoded again. */
module Tracker {

  datatype Version = Version(tag: string, commit: string, goVersion: string)
  datatype RepoText = RepoText(name: string, versions: seq<Version>)
  datatype ProjectText = ProjectText(org: string, repos: seq<RepoText>)

  /** The file's contents as values. */
  type Text = seq<ProjectText>

  /** In memory a repository is a name and a reference to its versions. */
  datatype Repo = Repo(name: string, versions: array<Version>)
  datatype Project = Project(org: string, repos: seq<Repo>)

  // ---- Specification: where the search ends and what an update changes ----

  /** The position of the last repository matching org and name, if any. */
  datatype Place = Nowhere | At(p: nat, r: nat)

  function LastRepo(repos: seq<RepoText>, name: string, n: nat): (r: int)
    requires n <= |repos|
    ensures -1 <= r < n
    ensures r >= 0 ==> repos[r].name == name
    ensures forall k :: r < k < n ==> repos[k].name != name
  {
    if n == 0 then -1 else if repos[n - 1].name == name then n - 1 else LastRepo(repos, name, n - 1)
  }

  predicate Matches(t: Text, org: string, name: string, p: nat, r: nat) {
    p < |t| && r < |t[p].repos| && t[p].org == org && t[p].repos[r].name == name
  }

  function Find(t: Text, org: string, name: string, n: nat): (place: Place)
    requires n <= |t|
    ensures place.At? ==> place.p < n && Matches(t, org, name, place.p, place.r)
    ensures forall p: nat, r: nat :: p < n && Matches(t, org, name, p, r) ==>
              place.At? && (p < place.p || (p == place.p && r <= place.r))
  {
    if n == 0 then Nowhere
    else
      var r := if t[n - 1].org == org then LastRepo(t[n - 1].repos, name, |t[n - 1].repos|) else -1;
      if r >= 0 then At(n - 1, r) else Find(t, org, name, n - 1)
  }

  /** The text with version 0 of one repository replaced. */
  function Replace(t: Text, p: nat, r: nat, v: Version): (t': Text)
    requires p < |t| && r < |t[p].repos| && t[p].repos[r].versions != []
  {
    var repo := t[p].repos[r];
    t[p := t[p].(repos := t[p].repos[r := repo.(versions := repo.versions[0 := v])])]
  }

  function VersionsOf(t: Text, p: nat, r: nat): (vs: seq<Version>) {
    if p < |t| && r < |t[p].repos| then t[p].repos[r].versions else []
  }

  // ---- Decoded memory ----

  /** The memory holds this text. */
  ghost predicate Represents(ps: seq<Project>, t: Text)
    reads set p, r | p in ps && r in p.repos :: r.versions
  {
    && |ps| == |t|
    && forall p :: 0 <= p < |ps| ==>
         && ps[p].org == t[p].org && |ps[p].repos| == |t[p].repos|
         && forall r :: 0 <= r < |ps[p].repos| ==>
              && ps[p].repos[r].name == t[p].repos[r].name
              && ps[p].repos[r].versions[..] == t[p].repos[r].versions
  }

  /** Different repositories have different version arrays. */
  ghost predicate Separate(ps: seq<Project>) {
    forall p, r, q, s ::
      0 <= p < |ps| && 0 <= r < |ps[p].repos| && 0 <= q < |ps| && 0 <= s < |ps[q].repos| ==>
        (ps[p].repos[r].versions == ps[q].repos[s].versions ==> p == q && r == s)
  }

  /** Decoding allocates the versions of every repository anew. */
  method DecodeVersions(vs: seq<Version>) returns (a: array<Version>)
    ensures fresh(a) && a[..] == vs
  {
    a := new Version[|vs|](i requires 0 <= i < |vs| => vs[i]);
  }

  method DecodeRepos(repos: seq<RepoText>) returns (out: seq<Repo>)
    ensures |out| == |repos|
    ensures forall r :: 0 <= r < |out| ==>
              fresh(out[r].versions) && out[r].name == repos[r].name && out[r].versions[..] == repos[r].versions
    ensures forall r, s :: 0 <= r < s < |out| ==> out[r].versions != out[s].versions
  {
    out := [];
    for i := 0 to |repos|
      invariant |out| == i
      invariant forall r :: 0 <= r < i ==>
        fresh(out[r].versions) && out[r].name == repos[r].name && out[r].versions[..] == repos[r].versions
      invariant forall r, s :: 0 <= r < s < i ==> out[r].versions != out[s].versions
    {
      var a := DecodeVersions(repos[i].versions);
      out := out + [Repo(repos[i].name, a)];
    }
  }

  method Decode(t: Text) returns (ps: seq<Project>)
    ensures Represents(ps, t) && Separate(ps)
    ensures forall p, r :: 0 <= p < |ps| && 0 <= r < |ps[p].repos| ==> fresh(ps[p].repos[r].versions)
  {
    ps := [];
    for i := 0 to |t|
      invariant |ps| == i && Represents(ps, t[..i]) && Separate(ps)
      invariant forall p, r :: 0 <= p < |ps| && 0 <= r < |ps[p].repos| ==> fresh(ps[p].repos[r].versions)
    {
      var repos := DecodeRepos(t[i].repos);
      ps := ps + [Project(t[i].org, repos)];
    }
    assert t[..|t|] == t;
  }

  /** The search copies every matching repository into one variable, so the last one stays; without
      a match the copy is the zero value with no versions. */
  method FindTarget(ps: seq<Project>, org: string, name: string, ghost t: Text) returns (target: Repo)
    requires Represents(ps, t)
    ensures match Find(t, org, name, |t|)
            case Nowhere => target.versions.Length == 0
            case At(p, r) => target == ps[p].repos[r]
  {
    var none := new Version[0];
    target := Repo("", none);
    for i := 0 to |ps|
      invariant Represents(ps, t)
      invariant match Find(t, org, name, i)
                case Nowhere => target.versions.Length == 0
                case At(p, r) => target == ps[p].repos[r]
    {
      if ps[i].org != org { continue; }
      ghost var before := target;
      for j := 0 to |ps[i].repos|
        invariant Represents(ps, t)
        invariant var r := LastRepo(t[i].repos, name, j);
                  target == if r >= 0 then ps[i].repos[r] else before
      {
        if ps[i].repos[j].name != name { continue; }
        target := ps[i].repos[j];
      }
    }
  }

  /** Encoding reads the list, never the copy. */
  method Encode(ps: seq<Project>) returns (t: Text)
    ensures Represents(ps, t)
  {
    t := [];
    for i := 0 to |ps|
      invariant |t| == i && Represents(ps[..i], t)
    {
      var repos := [];
      for j := 0 to |ps[i].repos|
        invariant |repos| == j
        invariant forall r :: 0 <= r < j ==> repos[r] == RepoText(ps[i].repos[r].name, ps[i].repos[r].versions[..])
      {
        repos := repos + [RepoText(ps[i].repos[j].name, ps[i].repos[j].versions[..])];
      }
      t := t + [ProjectText(ps[i].org, repos)];
      assert ps[..i + 1] == ps[..i] + [ps[i]];
    }
    assert ps[..|ps|] == ps;
  }

  lemma RepresentsOne(ps: seq<Project>, t: Text, u: Text)
    requires Represents(ps, t) && Represents(ps, u)
    ensures t == u
  {
    assert forall p :: 0 <= p < |t| ==> t[p].repos == u[p].repos;
    assert forall p :: 0 <= p < |t| ==> t[p] == u[p];
  }

  /** Writing through the copy changes the encoded list at exactly one place. */
  method WriteThroughCopy(ps: seq<Project>, target: Repo, v: Version, ghost t: Text, ghost p: nat, ghost r: nat)
    requires Represents(ps, t) && Separate(ps)
    requires p < |ps| && r < |ps[p].repos| && target == ps[p].repos[r] && target.versions.Length > 0
    modifies target.versions
    ensures Represents(ps, Replace(t, p, r, v))
  {
    target.versions[0] := v;
  }

  datatype Result = NoVersions | Written(text: Text)

  /** Load, change version 0 of the target copy, and encode the list: every other project, repository,
      version and field comes out as it went in. */
  method UpdateTracker(t: Text, org: string, name: string, tag: string, goVersion: string) returns (res: Result)
    ensures var place := Find(t, org, name, |t|);
            var has := place.At? && VersionsOf(t, place.p, place.r) != [];
            && (res.Written? <==> has)
            && (has ==> res.text == Replace(t, place.p, place.r,
                                            VersionsOf(t, place.p, place.r)[0].(tag := tag, goVersion := goVersion)))
  {
    var ps := Decode(t);
    var target := FindTarget(ps, org, name, t);
    if target.versions.Length == 0 { return NoVersions; }
    ghost var place := Find(t, org, name, |t|);
    var v := target.versions[0].(tag := tag, goVersion := goVersion);
    WriteThroughCopy(ps, target, v, t, place.p, place.r);
    var text := Encode(ps);
    RepresentsOne(ps, text, Replace(t, place.p, place.r, v));
    return Written(text);
  }

  /** The update as seen from any version of any repository. */
  lemma ReplaceTouchesOneVersion(t: Text, p: nat, r: nat, v: Version, q: nat, s: nat)
    requires p < |t| && r < |t[p].repos| && t[p].repos[r].versions != []
    ensures var t' := Replace(t, p, r, v);
            && |t'| == |t|
            && (q < |t| ==> t'[q].org == t[q].org && |t'[q].repos| == |t[q].repos|)
            && (q < |t| && s < |t[q].repos| ==>
                  && t'[q].repos[s].name == t[q].repos[s].name
                  && |t'[q].repos[s].versions| == |t[q].repos[s].versions|
                  && forall k :: 0 <= k < |t[q].repos[s].versions| ==>
                       t'[q].repos[s].versions[k] == if q == p && s == r && k == 0 then v
                         else t[q].repos[s].versions[k])
  {
  }
}
