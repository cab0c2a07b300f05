/** The Bottlerocket files of image-builder: the releases file, which gives a version for each release
    channel and image format, and one metadata file for each host container. */
module Bottlerocket {
  import opened Basics
  import opened Semver
  import opened Revision

  const FORMATS := ["ami", "ova", "raw"]
  const CONTAINERS := ["admin", "control"]

  /** The key a format has in a channel of the releases file. */
  function Slot(format: string): (key: string) { format + "-release-version" }

  type Channel = map<string, string>
  type Channels = map<string, Channel>
  datatype Image = Image(tag: string, digest: string)
  datatype Files = Files(releases: Option<Channels>, containers: map<string, Image>)
  datatype File = ReleasesFile | ContainerFile(container: string)

  /** What the outside world answers: the repository of Bottlerocket, whether an image of a channel, format
      and version is published (None when the manifests cannot be read), the tags of the host containers of
      a version, and image digests. A range over the channels may visit them in any order, each time anew. */
  datatype Feed = Feed(
    upstream: Upstream, order: seq<string>, again: seq<string>,
    image: (string, string, string) -> Option<bool>,
    sources: string -> Option<map<string, string>>, digest: (string, string) -> Option<string>)

  /** What range promises: every channel once. */
  ghost predicate Visits(order: seq<string>, cs: Channels) {
    Distinct(order) && forall c :: c in order <==> c in cs
  }

  ghost predicate Fits(b: Files, f: Feed) {
    b.releases.Some? ==> Visits(f.order, b.releases.value) && Visits(f.again, b.releases.value)
  }

  // ---- The current version ----

  function ChannelAt(cs: Channels, c: string): (ch: Channel) { if c in cs then cs[c] else map[] }

  function FirstSlot(ch: Channel, i: nat): (v: string)
    requires i <= |FORMATS|
    decreases |FORMATS| - i
  {
    if i == |FORMATS| then "" else if Slot(FORMATS[i]) in ch then ch[Slot(FORMATS[i])] else FirstSlot(ch, i + 1)
  }

  /** The first version that is not empty; within a channel only the first format present is looked at. */
  function FirstVersion(cs: Channels, order: seq<string>): (v: string) {
    if order == [] then ""
    else
      var v := FirstSlot(ChannelAt(cs, order[0]), 0);
      if v != "" then v else FirstVersion(cs, order[1..])
  }

  method CurrentVersion(cs: Channels, order: seq<string>) returns (current: string)
    requires Visits(order, cs)
    ensures current == FirstVersion(cs, order)
  {
    current := "";
    for i := 0 to |order|
      invariant current == "" && FirstVersion(cs, order) == FirstVersion(cs, order[i..])
    {
      for j := 0 to |FORMATS|
        invariant current == "" && FirstSlot(cs[order[i]], 0) == FirstSlot(cs[order[i]], j)
      {
        if Slot(FORMATS[j]) in cs[order[i]] {
          current := cs[order[i]][Slot(FORMATS[j])];
          break;
        }
      }
      assert current == FirstSlot(ChannelAt(cs, order[i]), 0);
      if current != "" { break; }
    }
  }

  // ---- The releases file ----

  /** The slot belongs to a format whose image is published for the channel. */
  predicate Published(f: Feed, c: string, latest: string, key: string, n: nat)
    requires n <= |FORMATS|
  {
    exists i :: 0 <= i < n && key == Slot(FORMATS[i]) && f.image(c, FORMATS[i], latest) == Some(true)
  }

  function BumpedChannel(f: Feed, c: string, latest: string, ch: Channel, n: nat): (ch': Channel)
    requires n <= |FORMATS|
  {
    map key | key in ch :: if Published(f, c, latest, key, n) then latest else ch[key]
  }

  predicate Checked(f: Feed, c: string, latest: string, ch: Channel, n: nat)
    requires n <= |FORMATS|
  {
    forall i :: 0 <= i < n && Slot(FORMATS[i]) in ch ==> f.image(c, FORMATS[i], latest).Some?
  }

  /** All channels after an update to the latest version. */
  function Bumped(f: Feed, latest: string, cs: Channels): (cs': Channels) {
    map c | c in cs :: BumpedChannel(f, c, latest, cs[c], |FORMATS|)
  }

  predicate AllChecked(f: Feed, latest: string, cs: Channels) {
    forall c :: c in cs ==> Checked(f, c, latest, cs[c], |FORMATS|)
  }

  /** What looking at one more format changes. */
  lemma BumpStep(f: Feed, c: string, latest: string, ch: Channel, n: nat)
    requires n < |FORMATS|
    ensures var before, key := BumpedChannel(f, c, latest, ch, n), Slot(FORMATS[n]);
            BumpedChannel(f, c, latest, ch, n + 1) ==
              if key in ch && f.image(c, FORMATS[n], latest) == Some(true) then before[key := latest] else before
    ensures Checked(f, c, latest, ch, n + 1) <==>
              Checked(f, c, latest, ch, n) && (Slot(FORMATS[n]) in ch ==> f.image(c, FORMATS[n], latest).Some?)
  {
    forall key ensures Published(f, c, latest, key, n + 1) <==>
      Published(f, c, latest, key, n) || (key == Slot(FORMATS[n]) && f.image(c, FORMATS[n], latest) == Some(true)) { }
  }

  method BumpChannel(f: Feed, c: string, latest: string, ch: Channel) returns (ok: bool, now: Channel)
    ensures ok <==> Checked(f, c, latest, ch, |FORMATS|)
    ensures ok ==> now == BumpedChannel(f, c, latest, ch, |FORMATS|)
  {
    now := ch;
    for j := 0 to |FORMATS|
      invariant Checked(f, c, latest, ch, j) && now == BumpedChannel(f, c, latest, ch, j)
    {
      BumpStep(f, c, latest, ch, j);
      if Slot(FORMATS[j]) in now {
        var exists_ := f.image(c, FORMATS[j], latest);
        if exists_.None? { return false, now; }
        if exists_.value { now := now[Slot(FORMATS[j]) := latest]; }
      }
    }
    ok := true;
  }

  /** The outcome does not depend on the order in which the channels are visited. */
  method UpdateReleases(f: Feed, latest: string, cs: Channels, order: seq<string>) returns (ok: bool, now: Channels)
    requires Visits(order, cs)
    ensures ok <==> AllChecked(f, latest, cs)
    ensures ok ==> now == Bumped(f, latest, cs)
  {
    now := cs;
    for i := 0 to |order|
      invariant now.Keys == cs.Keys
      invariant forall k :: 0 <= k < i ==> Checked(f, order[k], latest, cs[order[k]], |FORMATS|)
      invariant forall k :: 0 <= k < |order| ==>
                  now[order[k]] == if k < i then BumpedChannel(f, order[k], latest, cs[order[k]], |FORMATS|)
                    else cs[order[k]]
    {
      var c := order[i];
      var checked, ch := BumpChannel(f, c, latest, now[c]);
      if !checked { return false, now; }
      now := now[c := ch];
    }
    ok := true;
    forall c | c in cs
      ensures Checked(f, c, latest, cs[c], |FORMATS|) && now[c] == BumpedChannel(f, c, latest, cs[c], |FORMATS|)
    {
      var k :| 0 <= k < |order| && order[k] == c;
    }
  }

  // ---- The host containers ----

  predicate ContainerOk(f: Feed, sources: map<string, string>, images: map<string, Image>, c: string) {
    c in images && c in sources && (images[c].tag != sources[c] ==> f.digest(c, sources[c]).Some?)
  }

  predicate ContainersOk(f: Feed, sources: map<string, string>, images: map<string, Image>, n: nat)
    requires n <= |CONTAINERS|
  {
    forall i :: 0 <= i < n ==> ContainerOk(f, sources, images, CONTAINERS[i])
  }

  /** The containers whose tag is not the source's, in order. */
  function Stale(sources: map<string, string>, images: map<string, Image>, n: nat): (cs: seq<string>)
    requires n <= |CONTAINERS|
  {
    if n == 0 then []
    else
      var c := CONTAINERS[n - 1];
      Stale(sources, images, n - 1) + if c in images && c in sources && images[c].tag != sources[c] then [c] else []
  }

  lemma {:induction false} StaleAre(sources: map<string, string>, images: map<string, Image>, n: nat, c: string)
    requires n <= |CONTAINERS|
    ensures c in Stale(sources, images, n) <==>
              c in CONTAINERS[..n] && c in images && c in sources && images[c].tag != sources[c]
  {
    if n > 0 {
      StaleAre(sources, images, n - 1, c);
      assert CONTAINERS[..n] == CONTAINERS[..n - 1] + [CONTAINERS[n - 1]];
    }
  }

  /** Stale containers get the source's tag and its digest. */
  function Refreshed(f: Feed, sources: map<string, string>, images: map<string, Image>,
        stale: seq<string>): (images': map<string, Image>) {
    map c | c in images ::
      if c in stale && c in sources && f.digest(c, sources[c]).Some? then
        Image(sources[c], f.digest(c, sources[c]).value)
      else images[c]
  }

  function ContainerFiles(cs: seq<string>): (fs: seq<File>) { seq(|cs|,
        i requires 0 <= i < |cs| => ContainerFile(cs[i])) }

  method UpdateContainers(f: Feed, sources: map<string, string>, images: map<string, Image>)
    returns (ok: bool, now: map<string, Image>, listed: seq<File>, written: seq<File>)
    ensures ok <==> ContainersOk(f, sources, images, |CONTAINERS|)
    ensures ok ==>
              var stale := Stale(sources, images, |CONTAINERS|);
              now == Refreshed(f, sources, images, stale) && listed == written == ContainerFiles(stale)
  {
    now, listed, written := images, [], [];
    for j := 0 to |CONTAINERS|
      invariant ContainersOk(f, sources, images, j)
      invariant now == Refreshed(f, sources, images, Stale(sources, images, j))
      invariant listed == written == ContainerFiles(Stale(sources, images, j))
    {
      var c := CONTAINERS[j];
      StaleAre(sources, images, j, c);
      assert c !in CONTAINERS[..j];
      if c !in now || c !in sources { return false, now, listed, written; }
      if now[c].tag != sources[c] {
        var digest := f.digest(c, sources[c]);
        if digest.None? { return false, now, listed, written; }
        now, written := now[c := Image(sources[c], digest.value)], written + [ContainerFile(c)];
        listed := listed + [ContainerFile(c)];
      }
    }
    ok := true;
  }

  // ---- All of it ----

  function Answer(b: Files, f: Feed): (r: Result) {
    if b.releases.None? then Err else LatestRevision(f.upstream, FirstVersion(b.releases.value, f.order))
  }

  /** Exactly when the files are updated without an error. */
  predicate Succeeds(b: Files, f: Feed) {
    && Answer(b, f).Latest?
    && (Answer(b, f).needsUpgrade ==>
          var latest := Answer(b, f).revision;
          && b.releases.Some? && AllChecked(f, latest, b.releases.value)
          && f.sources(latest).Some? && ContainersOk(f, f.sources(latest).value, b.containers, |CONTAINERS|))
  }

  function StaleContainers(b: Files, f: Feed): (cs: seq<string>)
    requires Succeeds(b, f) && Answer(b, f).needsUpgrade
  {
    Stale(f.sources(Answer(b, f).revision).value, b.containers, |CONTAINERS|)
  }

  function After(b: Files, f: Feed): (b': Files)
    requires Succeeds(b, f)
  {
    if !Answer(b, f).needsUpgrade then b
    else
      var latest := Answer(b, f).revision;
      Files(Some(Bumped(f, latest, b.releases.value)),
            Refreshed(f, f.sources(latest).value, b.containers, StaleContainers(b, f)))
  }

  function Listed(b: Files, f: Feed): (fs: seq<File>)
    requires Succeeds(b, f)
  {
    if !Answer(b, f).needsUpgrade then [] else [ReleasesFile] + ContainerFiles(StaleContainers(b, f))
  }

  datatype Step = Stopped | Went(files: Files, listed: seq<File>, written: seq<File>)

  method UpdateVersionFiles(b: Files, f: Feed) returns (s: Step)
    requires Fits(b, f)
    ensures s.Went? <==> Succeeds(b, f)
    ensures s.Went? ==> s.files == After(b, f) && s.listed == s.written == Listed(b, f)
  {
    if b.releases.None? { return Stopped; }
    var current := CurrentVersion(b.releases.value, f.order);
    var found := GetLatestRevision(f.upstream, current);
    if found.Err? { return Stopped; }
    if !found.needsUpgrade { return Went(b, [], []); }
    var ok, channels := UpdateReleases(f, found.revision, b.releases.value, f.again);
    if !ok { return Stopped; }
    var sources := f.sources(found.revision);
    if sources.None? { return Stopped; }
    var done, images, listed, written := UpdateContainers(f, sources.value, b.containers);
    if !done { return Stopped; }
    s := Went(Files(Some(channels), images), [ReleasesFile] + listed, [ReleasesFile] + written);
  }

  /** A container file is listed exactly when its contents change. The releases file is listed by every
      upgrade, and its contents change exactly when some published image had another version. */
  lemma ListedAreChanged(b: Files, f: Feed, c: string)
    requires Succeeds(b, f)
    ensures var now := After(b, f);
            && now.containers.Keys == b.containers.Keys
            && (ContainerFile(c) in Listed(b, f) <==> c in b.containers && now.containers[c] != b.containers[c])
            && (ReleasesFile in Listed(b, f) <==> Answer(b, f).needsUpgrade)
            && (now.releases != b.releases ==> ReleasesFile in Listed(b, f))
    ensures Answer(b, f).needsUpgrade ==>
              var cs, latest := b.releases.value, Answer(b, f).revision;
              (After(b, f).releases != b.releases <==>
                 exists d, key :: d in cs && key in cs[d] && Published(f, d, latest, key, |FORMATS|) &&
                   cs[d][key] != latest)
  {
    if Answer(b, f).needsUpgrade {
      var latest := Answer(b, f).revision;
      ContainersListed(b, f, c);
      ReleasesChanged(f, latest, b.releases.value);
    }
  }

  lemma ContainersListed(b: Files, f: Feed, c: string)
    requires Succeeds(b, f) && Answer(b, f).needsUpgrade
    ensures ContainerFile(c) in Listed(b, f) <==> c in b.containers && After(b, f).containers[c] != b.containers[c]
  {
    var stale := StaleContainers(b, f);
    var sources := f.sources(Answer(b, f).revision).value;
    StaleAre(sources, b.containers, |CONTAINERS|, c);
    assert CONTAINERS[..|CONTAINERS|] == CONTAINERS;
    ContainerFilesIn(stale, c);
    if c in stale {
      var i :| 0 <= i < |CONTAINERS| && CONTAINERS[i] == c;
      assert ContainerOk(f, sources, b.containers, CONTAINERS[i]);
    }
  }

  lemma ContainerFilesIn(cs: seq<string>, c: string)
    ensures ContainerFile(c) in ContainerFiles(cs) <==> c in cs
  {
    if c in cs {
      var i :| 0 <= i < |cs| && cs[i] == c;
      assert ContainerFiles(cs)[i] == ContainerFile(c);
    }
  }

  lemma ReleasesChanged(f: Feed, latest: string, cs: Channels)
    ensures Bumped(f, latest, cs) != cs <==>
              exists d, key :: d in cs && key in cs[d] && Published(f, d, latest, key, |FORMATS|) &&
                cs[d][key] != latest
  {
    if d, key :| d in cs && key in cs[d] && Published(f, d, latest, key, |FORMATS|) && cs[d][key] != latest {
      assert Bumped(f, latest, cs)[d][key] == latest;
    } else {
      forall d | d in cs ensures Bumped(f, latest, cs)[d] == cs[d] { }
    }
  }

  // ---- The update in plain terms ----

  lemma FormatSlots(key: string)
    ensures (exists i :: 0 <= i < |FORMATS| && key == Slot(FORMATS[i])) <==>
              key in ["ami" + "-release-version", "ova" + "-release-version", "raw" + "-release-version"]
    ensures |FORMATS| == 3 && FORMATS[0] == "ami" && FORMATS[1] == "ova" && FORMATS[2] == "raw"
  {
    assert FORMATS[0] == "ami" && FORMATS[1] == "ova" && FORMATS[2] == "raw";
  }

  /** The version looked at in a channel: that of ami, else of ova, else of raw. */
  lemma FirstSlotIs(ch: Channel)
    ensures FirstSlot(ch, 0) ==
              var ami, ova, raw := "ami" + "-release-version", "ova" + "-release-version", "raw" + "-release-version";
              if ami in ch then ch[ami] else if ova in ch then ch[ova] else if raw in ch then ch[raw] else ""
  {
    FormatSlots("");
    assert FirstSlot(ch, 1) == if Slot("ova") in ch then ch[Slot("ova")] else FirstSlot(ch, 2);
    assert FirstSlot(ch, 2) == if Slot("raw") in ch then ch[Slot("raw")] else "";
  }

  /** The first channel in visiting order whose version is not empty gives the current version. */
  lemma {:induction false} FirstVersionIs(cs: Channels, order: seq<string>, k: nat)
    requires k < |order| && FirstSlot(ChannelAt(cs, order[k]), 0) != ""
    requires forall j :: 0 <= j < k ==> FirstSlot(ChannelAt(cs, order[j]), 0) == ""
    ensures FirstVersion(cs, order) == FirstSlot(ChannelAt(cs, order[k]), 0)
    decreases k
  {
    if k > 0 {
      assert forall j :: 0 <= j < |order[1..]| ==> order[1..][j] == order[j + 1];
      FirstVersionIs(cs, order[1..], k - 1);
    }
  }

  /** One slot of one channel: only the slot of a format changes, and exactly when its image is published. */
  lemma SlotAfter(f: Feed, latest: string, cs: Channels, c: string, format: string, key: string)
    requires c in cs && key in cs[c] && AllChecked(f, latest, cs)
    ensures Bumped(f, latest, cs).Keys == cs.Keys && Bumped(f, latest, cs)[c].Keys == cs[c].Keys
    ensures format in ["ami", "ova", "raw"] && key == format + "-release-version" ==>
              && f.image(c, format, latest).Some?
              && Bumped(f, latest, cs)[c][key] == if f.image(c, format, latest).value then latest else cs[c][key]
    ensures key !in ["ami" + "-release-version", "ova" + "-release-version", "raw" + "-release-version"] ==>
              Bumped(f, latest, cs)[c][key] == cs[c][key]
  {
    FormatSlots(key);
    if format in ["ami", "ova", "raw"] && key == format + "-release-version" {
      var i := if format == "ami" then 0 else if format == "ova" then 1 else 2;
      assert FORMATS[i] == format && key == Slot(FORMATS[i]);
      assert Checked(f, c, latest, cs[c], |FORMATS|);
      forall j | 0 <= j < |FORMATS| && key == Slot(FORMATS[j]) ensures j == i { SlotsDiffer(FORMATS[i], FORMATS[j]); }
    }
  }

  lemma SlotsDiffer(a: string, b: string)
    requires Slot(a) == Slot(b)
    ensures a == b
  {
    assert |a| == |b|;
    assert Slot(a)[..|a|] == a && Slot(b)[..|b|] == b;
  }

  /** The files after a successful update: every slot as above, and the admin and control containers with the
      source's tag and its digest where the tag was another one. */
  lemma FilesAfter(b: Files, f: Feed, c: string)
    requires Succeeds(b, f)
    ensures !Answer(b, f).needsUpgrade ==> After(b, f) == b && Listed(b, f) == []
    ensures Answer(b, f).needsUpgrade ==>
            var latest := Answer(b, f).revision;
            && b.releases.Some? && After(b, f).releases == Some(Bumped(f, latest, b.releases.value))
            && f.sources(latest).Some? && After(b, f).containers.Keys == b.containers.Keys
            && (c in ["admin", "control"] ==>
                  var tag := f.sources(latest).value;
                  && c in b.containers && c in tag
                  && if b.containers[c].tag == tag[c] then After(b, f).containers[c] == b.containers[c]
                     else
                       && f.digest(c, tag[c]).Some?
                       && After(b, f).containers[c] == Image(tag[c], f.digest(c, tag[c]).value))
            && (c in b.containers && c !in ["admin", "control"] ==> After(b, f).containers[c] == b.containers[c])
  {
    if Answer(b, f).needsUpgrade {
      var sources := f.sources(Answer(b, f).revision).value;
      assert CONTAINERS[..|CONTAINERS|] == CONTAINERS && CONTAINERS[0] == "admin" && CONTAINERS[1] == "control";
      StaleAre(sources, b.containers, |CONTAINERS|, c);
      if c in ["admin", "control"] {
        var i := if c == "admin" then 0 else 1;
        assert ContainerOk(f, sources, b.containers, CONTAINERS[i]);
      }
    }
  }

  /** When an update succeeds. */
  lemma SuccessInPlainTerms(b: Files, f: Feed)
    ensures Succeeds(b, f) <==>
              && b.releases.Some?
              && var found := LatestRevision(f.upstream, FirstVersion(b.releases.value, f.order));
                 && found.Latest?
                 && (found.needsUpgrade ==>
                       && (forall c, format :: c in b.releases.value && format in ["ami", "ova", "raw"]
                                               && format + "-release-version" in b.releases.value[c] ==>
                                                 f.image(c, format, found.revision).Some?)
                       && f.sources(found.revision).Some?
                       && forall c :: c in ["admin", "control"] ==>
                            var tag := f.sources(found.revision).value;
                            && c in b.containers && c in tag
                            && (b.containers[c].tag != tag[c] ==> f.digest(c, tag[c]).Some?))
  {
    if b.releases.Some? {
      var cs, found := b.releases.value, LatestRevision(f.upstream, FirstVersion(b.releases.value, f.order));
      if found.Latest? {
        CheckedInPlainTerms(f, found.revision, cs);
        if f.sources(found.revision).Some? { ContainersInPlainTerms(f, f.sources(found.revision).value, b.containers); }
      }
    }
  }

  lemma CheckedInPlainTerms(f: Feed, latest: string, cs: Channels)
    ensures AllChecked(f, latest, cs) <==>
              forall c, format :: c in cs && format in ["ami", "ova", "raw"] && format + "-release-version" in cs[c] ==>
                f.image(c, format, latest).Some?
  {
    FormatSlots("");
    forall c, format | AllChecked(f, latest, cs) && c in cs && format in ["ami", "ova", "raw"] &&
                       format + "-release-version" in cs[c]
      ensures f.image(c, format, latest).Some?
    {
      var i := if format == "ami" then 0 else if format == "ova" then 1 else 2;
      assert Checked(f, c, latest, cs[c], |FORMATS|) && FORMATS[i] == format && Slot(FORMATS[i]) in cs[c];
    }
    if forall c, format :: c in cs && format in ["ami", "ova", "raw"] && format + "-release-version" in cs[c] ==>
                             f.image(c, format, latest).Some?
    {
      forall c, i | c in cs && 0 <= i < |FORMATS| && Slot(FORMATS[i]) in cs[c]
        ensures f.image(c, FORMATS[i], latest).Some?
      {
        assert FORMATS[i] in ["ami", "ova", "raw"] && FORMATS[i] + "-release-version" in cs[c];
      }
    }
  }

  lemma ContainersInPlainTerms(f: Feed, sources: map<string, string>, images: map<string, Image>)
    ensures ContainersOk(f, sources, images, |CONTAINERS|) <==>
              forall c :: c in ["admin", "control"] ==>
                && c in images && c in sources && (images[c].tag != sources[c] ==> f.digest(c, sources[c]).Some?)
  {
    assert |CONTAINERS| == 2 && CONTAINERS[0] == "admin" && CONTAINERS[1] == "control";
    if ContainersOk(f, sources, images, |CONTAINERS|) {
      assert ContainerOk(f, sources, images, CONTAINERS[0]) && ContainerOk(f, sources, images, CONTAINERS[1]);
    }
  }

  // ---- Which version an update starts from ----

  /** The same answers, with the channels visited in other orders. */
  function Reordered(f: Feed, order: seq<string>, again: seq<string>): (g: Feed) { f.(order := order, again := again) }

  /** Any channel may come first. */
  function FirstVersions(cs: Channels): (vs: set<string>) {
    var filled := set c | c in cs && FirstSlot(cs[c], 0) != "" :: FirstSlot(cs[c], 0);
    if filled == {} then {""} else filled
  }

  lemma {:induction false} FirstVersionIsOne(cs: Channels, rest: seq<string>)
    requires forall c :: c in rest ==> c in cs
    requires forall c :: c in cs && c !in rest ==> FirstSlot(cs[c], 0) == ""
    ensures FirstVersion(cs, rest) in FirstVersions(cs)
    decreases |rest|
  {
    if rest != [] && FirstSlot(cs[rest[0]], 0) == "" {
      assert forall c :: c in rest[1..] ==> c in rest;
      assert forall c :: c in rest ==> c == rest[0] || c in rest[1..];
      FirstVersionIsOne(cs, rest[1..]);
    }
  }

  lemma {:induction false} Enumerate(names: set<string>) returns (order: seq<string>)
    ensures Distinct(order) && forall c :: c in order <==> c in names
    decreases |names|
  {
    order := [];
    if names != {} {
      var c :| c in names;
      var rest := Enumerate(names - {c});
      order := [c] + rest;
    }
  }

  /** An update starts from exactly these versions, for one order of the channels or another. */
  lemma FirstVersionsAre(cs: Channels, v: string)
    ensures v in FirstVersions(cs) <==> exists order :: Visits(order, cs) && FirstVersion(cs, order) == v
  {
    if order :| Visits(order, cs) && FirstVersion(cs, order) == v { FirstVersionIsOne(cs, order); }
    if v in FirstVersions(cs) {
      var order := OrderFor(cs, v);
    }
  }

  lemma OrderFor(cs: Channels, v: string) returns (order: seq<string>)
    requires v in FirstVersions(cs)
    ensures Visits(order, cs) && FirstVersion(cs, order) == v
  {
    if v == "" {
      order := Enumerate(cs.Keys);
      FirstVersionIsOne(cs, order);
      assert FirstVersions(cs) == {""};
    } else {
      var c :| c in cs && FirstSlot(cs[c], 0) == v;
      var rest := Enumerate(cs.Keys - {c});
      order := [c] + rest;
    }
  }

  // ---- Running again ----

  /** Every slot can be checked, and those with a published image hold the version already. */
  predicate ChannelHolds(f: Feed, c: string, latest: string, ch: Channel) {
    forall i :: 0 <= i < |FORMATS| && Slot(FORMATS[i]) in ch ==>
      && f.image(c, FORMATS[i], latest).Some?
      && (f.image(c, FORMATS[i], latest).value ==> ch[Slot(FORMATS[i])] == latest)
  }

  predicate ContainerHolds(sources: map<string, string>, images: map<string, Image>, c: string) {
    c in images && c in sources && images[c].tag == sources[c]
  }

  predicate Holds(b: Files, f: Feed, latest: string) {
    && b.releases.Some? && (forall c :: c in b.releases.value ==> ChannelHolds(f, c, latest, b.releases.value[c]))
    && f.sources(latest).Some?
    && forall i :: 0 <= i < |CONTAINERS| ==> ContainerHolds(f.sources(latest).value, b.containers, CONTAINERS[i])
  }

  /** Nothing is left to do from this version: no upgrade, or one to what is there already. */
  predicate Settled(b: Files, f: Feed, current: string) {
    var r := LatestRevision(f.upstream, current);
    r.Latest? && (r.needsUpgrade ==> Holds(b, f, r.revision))
  }

  lemma ChannelHoldsIff(f: Feed, c: string, latest: string, ch: Channel)
    ensures ChannelHolds(f, c, latest, ch) <==>
              Checked(f, c, latest, ch, |FORMATS|) && BumpedChannel(f, c, latest, ch, |FORMATS|) == ch
  {
    var now := BumpedChannel(f, c, latest, ch, |FORMATS|);
    if Checked(f, c, latest, ch, |FORMATS|) && now == ch {
      forall i | 0 <= i < |FORMATS| && Slot(FORMATS[i]) in ch && f.image(c, FORMATS[i], latest) == Some(true)
        ensures ch[Slot(FORMATS[i])] == latest
      {
        assert Published(f, c, latest, Slot(FORMATS[i]), |FORMATS|);
        assert now[Slot(FORMATS[i])] == latest;
      }
    }
  }

  lemma ChannelsHoldIff(f: Feed, latest: string, cs: Channels)
    ensures (forall c :: c in cs ==> ChannelHolds(f, c, latest, cs[c])) <==>
              AllChecked(f, latest, cs) && Bumped(f, latest, cs) == cs
  {
    forall c | c in cs
      ensures ChannelHolds(f, c, latest, cs[c]) <==>
                Checked(f, c, latest, cs[c], |FORMATS|) && Bumped(f, latest, cs)[c] == cs[c]
    {
      ChannelHoldsIff(f, c, latest, cs[c]);
    }
  }

  lemma ContainersHoldIff(f: Feed, sources: map<string, string>, images: map<string, Image>)
    ensures (forall i :: 0 <= i < |CONTAINERS| ==> ContainerHolds(sources, images, CONTAINERS[i])) <==>
              && ContainersOk(f, sources, images, |CONTAINERS|)
              && Refreshed(f, sources, images, Stale(sources, images, |CONTAINERS|)) == images
  {
    var stale := Stale(sources, images, |CONTAINERS|);
    var now := Refreshed(f, sources, images, stale);
    assert CONTAINERS[..|CONTAINERS|] == CONTAINERS;
    forall c ensures c in stale <==> c in CONTAINERS && c in images && c in sources && images[c].tag != sources[c] {
      StaleAre(sources, images, |CONTAINERS|, c);
    }
    if ContainersOk(f, sources, images, |CONTAINERS|) && now == images {
      forall i | 0 <= i < |CONTAINERS| ensures ContainerHolds(sources, images, CONTAINERS[i]) {
        assert ContainerOk(f, sources, images, CONTAINERS[i]);
      }
    }
  }

  /** An update goes through and changes nothing exactly when nothing is left to do from the version found. */
  lemma ChangesNothingIff(b: Files, f: Feed)
    ensures Succeeds(b, f) && After(b, f) == b <==>
              b.releases.Some? && Settled(b, f, FirstVersion(b.releases.value, f.order))
  {
    if Answer(b, f).Latest? && Answer(b, f).needsUpgrade {
      var latest := Answer(b, f).revision;
      ChannelsHoldIff(f, latest, b.releases.value);
      if f.sources(latest).Some? { ContainersHoldIff(f, f.sources(latest).value, b.containers); }
    }
  }

  /** Whatever the order of the channels, an update goes through and changes nothing. */
  ghost predicate AtRest(b: Files, f: Feed) {
    forall order, again :: Fits(b, Reordered(f, order, again)) ==>
      Succeeds(b, Reordered(f, order, again)) && After(b, Reordered(f, order, again)) == b
  }

  /** That is so exactly when nothing is left to do from any version that may be found first. */
  lemma AtRestIff(b: Files, f: Feed)
    ensures AtRest(b, f) <==> b.releases.Some? && forall v :: v in FirstVersions(b.releases.value) ==> Settled(b, f, v)
  {
    if b.releases.None? {
      assert Fits(b, Reordered(f, [], []));
    } else {
      var cs := b.releases.value;
      if AtRest(b, f) {
        forall v | v in FirstVersions(cs) ensures Settled(b, f, v) {
          var order := OrderFor(cs, v);
          assert Fits(b, Reordered(f, order, order));
          ChangesNothingIff(b, Reordered(f, order, order));
        }
      }
      if forall v :: v in FirstVersions(cs) ==> Settled(b, f, v) {
        forall order, again | Fits(b, Reordered(f, order, again))
          ensures Succeeds(b, Reordered(f, order, again)) && After(b, Reordered(f, order, again)) == b
        {
          FirstVersionIsOne(cs, order);
          ChangesNothingIff(b, Reordered(f, order, again));
        }
      }
    }
  }

  /** Later the first version found is the one found before or the latest. */
  lemma {:induction false} FirstVersionAfter(f: Feed, latest: string, cs: Channels, order: seq<string>)
    requires FirstVersion(cs, order) != "" && latest != ""
    ensures FirstVersion(Bumped(f, latest, cs), order) in [FirstVersion(cs, order), latest]
  {
    FirstSlotAfter(f, latest, cs, order[0], 0);
    if FirstSlot(ChannelAt(cs, order[0]), 0) == "" && FirstSlot(ChannelAt(Bumped(f, latest, cs), order[0]), 0) == "" {
      FirstVersionAfter(f, latest, cs, order[1..]);
    }
  }

  lemma {:induction false} FirstSlotAfter(f: Feed, latest: string, cs: Channels, c: string, i: nat)
    requires i <= |FORMATS|
    ensures FirstSlot(ChannelAt(Bumped(f, latest, cs), c), i) in [FirstSlot(ChannelAt(cs, c), i), latest]
    decreases |FORMATS| - i
  {
    if i < |FORMATS| && Slot(FORMATS[i]) !in ChannelAt(cs, c) { FirstSlotAfter(f, latest, cs, c, i + 1); }
  }

  lemma FitsAfter(b: Files, f: Feed)
    requires Succeeds(b, f)
    ensures b.releases.Some? && After(b, f).releases.Some? && After(b, f).releases.value.Keys == b.releases.value.Keys
    ensures Fits(b, f) ==> Fits(After(b, f), f)
  {
  }

  /** After an update nothing is left to do from the version it started from, nor from the one it found. */
  lemma SettledAfter(b: Files, f: Feed)
    requires Succeeds(b, f)
    requires Answer(b, f).needsUpgrade ==> Candidates(f.upstream) != []
    ensures var current := FirstVersion(b.releases.value, f.order);
            && Settled(After(b, f), f, current)
            && (Answer(b, f).needsUpgrade ==> Settled(After(b, f), f, Answer(b, f).revision))
  {
    if Answer(b, f).needsUpgrade {
      var cs, latest, now := b.releases.value, Answer(b, f).revision, After(b, f);
      FixpointIff(f.upstream, FirstVersion(cs, f.order));
      BumpedTwice(f, latest, cs);
      RefreshedTwice(f, f.sources(latest).value, b.containers);
      ChannelsHoldIff(f, latest, now.releases.value);
      ContainersHoldIff(f, f.sources(latest).value, now.containers);
    }
  }

  /** A second update with the same answers and any order of the channels: it changes nothing, whatever the
      order, exactly when nothing is left to do from any version that may then be found first. With releases
      or tags the start and the result of the first update need not be looked at again. */
  lemma SecondUpdate(b: Files, f: Feed)
    requires Succeeds(b, f)
    ensures var now := After(b, f);
            && now.releases.Some?
            && (AtRest(now, f) <==> forall v :: v in FirstVersions(now.releases.value) ==> Settled(now, f, v))
    ensures Candidates(f.upstream) != [] ==>
              var now, old_ := After(b, f), {FirstVersion(b.releases.value, f.order)}
                                            + if Answer(b, f).needsUpgrade then {Answer(b, f).revision} else {};
              AtRest(now, f) <==> forall v :: v in FirstVersions(now.releases.value) - old_ ==> Settled(now, f, v)
  {
    FitsAfter(b, f);
    if Candidates(f.upstream) != [] { SettledAfter(b, f); }
    AtRestIff(After(b, f), f);
  }

  /** In the same order it changes nothing. */
  lemma SecondUpdateInOrder(b: Files, f: Feed, again: seq<string>)
    requires Succeeds(b, f) && f.upstream.parse("").None? && Candidates(f.upstream) != []
    ensures var g := Reordered(f, f.order, again);
            Succeeds(After(b, f), g) && After(After(b, f), g) == After(b, f)
  {
    var now, current := After(b, f), FirstVersion(b.releases.value, f.order);
    SettledAfter(b, f);
    ChangesNothingIff(now, Reordered(f, f.order, again));
    if Answer(b, f).needsUpgrade {
      UpgradeIsNewer(f.upstream, current);
      FirstVersionAfter(f, Answer(b, f).revision, b.releases.value, f.order);
    }
  }

  /** In any order it changes nothing when all channels had the same version to begin with. */
  lemma SecondUpdateFromOneVersion(b: Files, f: Feed)
    requires Succeeds(b, f) && f.upstream.parse("").None? && Candidates(f.upstream) != []
    requires FirstVersions(b.releases.value) == {FirstVersion(b.releases.value, f.order)}
    ensures AtRest(After(b, f), f)
  {
    SecondUpdate(b, f);
    if Answer(b, f).needsUpgrade {
      var cs, latest, current := b.releases.value, Answer(b, f).revision, FirstVersion(b.releases.value, f.order);
      UpgradeIsNewer(f.upstream, current);
      OneVersionAfter(f, latest, cs, current);
    }
  }

  /** Both in one: what the second update finds first is settled. */
  lemma SecondUpdateSettled(b: Files, f: Feed, order: seq<string>)
    requires Succeeds(b, f) && f.upstream.parse("").None? && Candidates(f.upstream) != []
    requires var cs := b.releases.value;
             order == f.order || (Visits(order, cs) && FirstVersions(cs) == {FirstVersion(cs, f.order)})
    ensures var now := After(b, f); now.releases.Some? && Settled(now, f, FirstVersion(now.releases.value, order))
  {
    var now := After(b, f);
    FitsAfter(b, f);
    if order == f.order {
      SecondUpdateInOrder(b, f, f.again);
      ChangesNothingIff(now, f);
    } else {
      SecondUpdateFromOneVersion(b, f);
      AtRestIff(now, f);
      FirstVersionIsOne(now.releases.value, order);
    }
  }

  lemma FilledIsOne(cs: Channels, c: string)
    requires c in cs && FirstSlot(cs[c], 0) != ""
    ensures FirstSlot(cs[c], 0) in FirstVersions(cs)
  {
  }

  /** The possible starts, given for each channel what is looked at in it. */
  lemma StartsWithin(cs: Channels, vs: set<string>, c: string)
    requires c in cs && FirstSlot(cs[c], 0) in vs && "" !in vs
    requires forall d :: d in cs ==> FirstSlot(cs[d], 0) == "" || FirstSlot(cs[d], 0) in vs
    ensures FirstVersions(cs) <= vs
  {
    FilledIsOne(cs, c);
  }

  lemma OneVersionAfter(f: Feed, latest: string, cs: Channels, current: string)
    requires FirstVersions(cs) == {current} && current != "" && latest != ""
    ensures FirstVersions(Bumped(f, latest, cs)) <= {current, latest}
  {
    var now, vs := Bumped(f, latest, cs), {current, latest};
    forall d | d in cs ensures FirstSlot(now[d], 0) == "" || FirstSlot(now[d], 0) in vs {
      FirstSlotAfter(f, latest, cs, d, 0);
      if FirstSlot(cs[d], 0) != "" { FilledIsOne(cs, d); }
    }
    var c :| c in cs && FirstSlot(cs[c], 0) == current;
    FirstSlotAfter(f, latest, cs, c, 0);
    StartsWithin(now, vs, c);
  }

  // ---- Versions that fall ----

  predicate Lower(u: Upstream, a: string, b: string) {
    u.parse(a).Some? && u.parse(b).Some? && GreaterThan(u.parse(b).value, u.parse(a).value)
  }

  /** No slot of a channel ends up with a lower version. */
  ghost predicate NoneFalls(u: Upstream, cs: Channels, now: Channels) {
    forall c, key :: c in cs && key in cs[c] && c in now && key in now[c] ==> !Lower(u, now[c][key], cs[c][key])
  }

  /** No slot with a published image has a version above this one. */
  ghost predicate NoneAbove(f: Feed, cs: Channels, latest: string) {
    forall c, key :: c in cs && key in cs[c] && Published(f, c, latest, key, |FORMATS|) ==>
      !Lower(f.upstream, latest, cs[c][key])
  }

  lemma NotBelowItself(u: Upstream, a: string)
    ensures !Lower(u, a, a)
  {
    if u.parse(a).Some? { PrecedenceIsTotalOrder(u.parse(a).value, u.parse(a).value, u.parse(a).value); }
  }

  lemma BumpedFallsIff(f: Feed, latest: string, cs: Channels)
    ensures NoneFalls(f.upstream, cs, Bumped(f, latest, cs)) <==> NoneAbove(f, cs, latest)
  {
    var now := Bumped(f, latest, cs);
    forall c, key | c in cs && key in cs[c]
      ensures Lower(f.upstream, now[c][key], cs[c][key]) <==>
                Published(f, c, latest, key, |FORMATS|) && Lower(f.upstream, latest, cs[c][key])
    {
      NotBelowItself(f.upstream, cs[c][key]);
    }
  }

  /** One update lets no version fall exactly when no published slot is above the version found. */
  lemma NoneFallsIff(b: Files, f: Feed)
    requires Succeeds(b, f)
    ensures NoneFalls(f.upstream, b.releases.value, After(b, f).releases.value) <==>
              (Answer(b, f).needsUpgrade ==> NoneAbove(f, b.releases.value, Answer(b, f).revision))
  {
    if Answer(b, f).needsUpgrade {
      BumpedFallsIff(f, Answer(b, f).revision, b.releases.value);
    } else {
      forall c, key | c in b.releases.value && key in b.releases.value[c]
        ensures !Lower(f.upstream, b.releases.value[c][key], b.releases.value[c][key])
      {
        NotBelowItself(f.upstream, b.releases.value[c][key]);
      }
    }
  }

  /** The update from this version goes through. */
  predicate SucceedsFrom(b: Files, f: Feed, current: string) {
    var r := LatestRevision(f.upstream, current);
    && b.releases.Some? && r.Latest?
    && (r.needsUpgrade ==>
          && AllChecked(f, r.revision, b.releases.value) && f.sources(r.revision).Some?
          && ContainersOk(f, f.sources(r.revision).value, b.containers, |CONTAINERS|))
  }

  /** No order lets a version fall exactly when none is above what any start would find. */
  lemma NoOrderFallsIff(b: Files, f: Feed)
    requires b.releases.Some?
    ensures (forall order, again :: Fits(b, Reordered(f, order, again)) && Succeeds(b, Reordered(f, order, again)) ==>
               NoneFalls(f.upstream, b.releases.value, After(b, Reordered(f, order, again)).releases.value)) <==>
            (forall v :: v in FirstVersions(b.releases.value) && SucceedsFrom(b, f, v) ==>
               var r := LatestRevision(f.upstream, v); r.needsUpgrade ==> NoneAbove(f, b.releases.value, r.revision))
  {
    var cs := b.releases.value;
    forall order, again
      ensures var g := Reordered(f, order, again);
              && (Succeeds(b, g) <==> SucceedsFrom(b, f, FirstVersion(cs, order)))
              && (Succeeds(b, g) ==>
                    (NoneFalls(f.upstream, cs, After(b, g).releases.value) <==>
                       var r := LatestRevision(f.upstream, FirstVersion(cs, order));
                       r.needsUpgrade ==> NoneAbove(f, cs, r.revision)))
    {
      OneOrderFallsIff(b, f, order, again);
    }
    forall v | v in FirstVersions(cs)
      ensures exists order :: Fits(b, Reordered(f, order, order)) && FirstVersion(cs, order) == v
    {
      var order := OrderFor(cs, v);
      assert Fits(b, Reordered(f, order, order));
    }
    forall order, again | Fits(b, Reordered(f, order, again)) ensures FirstVersion(cs, order) in FirstVersions(cs) {
      FirstVersionIsOne(cs, order);
    }
  }

  lemma OneOrderFallsIff(b: Files, f: Feed, order: seq<string>, again: seq<string>)
    requires b.releases.Some?
    ensures var cs, g := b.releases.value, Reordered(f, order, again);
            && (Succeeds(b, g) <==> SucceedsFrom(b, f, FirstVersion(cs, order)))
            && (Succeeds(b, g) ==>
                  (NoneFalls(f.upstream, cs, After(b, g).releases.value) <==>
                     var r := LatestRevision(f.upstream, FirstVersion(cs, order));
                     r.needsUpgrade ==> NoneAbove(f, cs, r.revision)))
  {
    var g := Reordered(f, order, again);
    assert Answer(b, g) == LatestRevision(f.upstream, FirstVersion(b.releases.value, order));
    if Succeeds(b, g) { NoneFallsIff(b, g); }
  }

  /** An update that starts from a highest version lets none fall. */
  lemma HighestFirstIsSafe(b: Files, f: Feed)
    requires Succeeds(b, f) && Candidates(f.upstream) != []
    requires var current := FirstVersion(b.releases.value, f.order);
             forall c, key :: c in b.releases.value && key in b.releases.value[c] ==>
               !Lower(f.upstream, current, b.releases.value[c][key])
    ensures NoneFalls(f.upstream, b.releases.value, After(b, f).releases.value)
  {
    NoneFallsIff(b, f);
    if Answer(b, f).needsUpgrade {
      var u, cs, latest, current :=
        f.upstream, b.releases.value, Answer(b, f).revision, FirstVersion(b.releases.value, f.order);
      UpgradeIsNewer(u, current);
      forall c, key | c in cs && key in cs[c] ensures !Lower(u, latest, cs[c][key]) {
        if u.parse(cs[c][key]).Some? {
          PrecedenceIsTotalOrder(u.parse(cs[c][key]).value, u.parse(latest).value, u.parse(current).value);
        }
      }
    }
  }

  lemma BumpedTwice(f: Feed, latest: string, cs: Channels)
    requires AllChecked(f, latest, cs)
    ensures var now := Bumped(f, latest, cs); AllChecked(f, latest, now) && Bumped(f, latest, now) == now
  {
    var now := Bumped(f, latest, cs);
    forall c | c in cs ensures Bumped(f, latest, now)[c] == now[c] { }
  }

  lemma RefreshedTwice(f: Feed, sources: map<string, string>, images: map<string, Image>)
    requires ContainersOk(f, sources, images, |CONTAINERS|)
    ensures var now := Refreshed(f, sources, images, Stale(sources, images, |CONTAINERS|));
            && ContainersOk(f, sources, now, |CONTAINERS|)
            && Refreshed(f, sources, now, Stale(sources, now, |CONTAINERS|)) == now
  {
    var stale := Stale(sources, images, |CONTAINERS|);
    var now := Refreshed(f, sources, images, stale);
    assert CONTAINERS[..|CONTAINERS|] == CONTAINERS;
    forall i | 0 <= i < |CONTAINERS|
      ensures ContainerOk(f, sources, now, CONTAINERS[i]) && now[CONTAINERS[i]].tag == sources[CONTAINERS[i]]
    {
      assert ContainerOk(f, sources, images, CONTAINERS[i]);
      StaleAre(sources, images, |CONTAINERS|, CONTAINERS[i]);
    }
    forall c ensures c !in Stale(sources, now, |CONTAINERS|) { StaleAre(sources, now, |CONTAINERS|, c); }
  }

  // ---- Another order, another answer ----

  /** Two releases: an older one of version 1.5 first in the list, then version 4. */
  function ExampleUpstream(): (u: Upstream) {
    Upstream(["w", "v4"], [Tag("w", "w"), Tag("v4", "v4"), Tag("v1", "v1"), Tag("v2", "v2")], [],
             sha => if sha == "w" then Some(10) else if sha == "v4" then Some(20)
                    else if sha == "v2" then Some(2) else Some(1),
             tag => if tag == "w" then Some(Version(1, 5, 0, []))
                    else if tag == "v4" then Some(Version(4, 0, 0, []))
                    else if tag == "v2" then Some(Version(2, 0, 0, []))
                    else if tag == "v1" then Some(Version(1, 0, 0, [])) else None)
  }

  /** Images are published for channel A only. */
  function ExampleFeed(order: seq<string>): (f: Feed) {
    Feed(ExampleUpstream(), order, order, (c, format, v) => Some(c == "A"),
         v => Some(map["admin" := "t", "control" := "t"]), (c, tag) => None)
  }

  function ExampleFiles(a: string): (b: Files) {
    Files(Some(map["A" := map[Slot("ami") := a], "B" := map[Slot("ami") := "v1"]]),
          map["admin" := Image("t", "d"), "control" := Image("t", "d")])
  }

  lemma ExampleAnswers()
    ensures LatestRevision(ExampleUpstream(), "v2") == Latest("v4", true)
    ensures LatestRevision(ExampleUpstream(), "v1") == Latest("w", true)
  {
    var u := ExampleUpstream();
    var t := u.tags;
    assert t[1..] == [Tag("v4", "v4"), Tag("v1", "v1"), Tag("v2", "v2")];
    assert t[1..][1..] == [Tag("v1", "v1"), Tag("v2", "v2")] && t[1..][1..][1..] == [Tag("v2", "v2")];
    assert CommitForTag(t, "w") == "w" && CommitForTag(t, "v4") == "v4";
    assert CommitForTag(t, "v1") == CommitForTag(t[1..], "v1") == CommitForTag(t[1..][1..], "v1") == "v1";
    assert CommitForTag(t, "v2") == CommitForTag(t[1..], "v2") == CommitForTag(t[1..][1..], "v2") == "v2";
    assert Judge(u, "w", 2, Version(2, 0, 0, [])) == Other && Judge(u, "v4", 2, Version(2, 0, 0, [])) == Upgrade;
    assert Judge(u, "w", 1, Version(1, 0, 0, [])) == Upgrade;
  }

  lemma ExampleChannels(f: Feed, a: string, latest: string)
    requires f.image == ExampleFeed([]).image
    ensures AllChecked(f, latest, ExampleFiles(a).releases.value)
    ensures Bumped(f, latest, ExampleFiles(a).releases.value) == ExampleFiles(latest).releases.value
  {
    var cs := ExampleFiles(a).releases.value;
    assert Published(f, "A", latest, Slot(FORMATS[0]), |FORMATS|);
    assert BumpedChannel(f, "A", latest, cs["A"], |FORMATS|) == map[Slot("ami") := latest];
    assert BumpedChannel(f, "B", latest, cs["B"], |FORMATS|) == cs["B"];
  }

  lemma ExampleContainers(f: Feed, a: string)
    ensures var sources, images := map["admin" := "t", "control" := "t"], ExampleFiles(a).containers;
            && ContainersOk(f, sources, images, |CONTAINERS|)
            && Refreshed(f, sources, images, Stale(sources, images, |CONTAINERS|)) == images
  {
    var sources, images := map["admin" := "t", "control" := "t"], ExampleFiles(a).containers;
    assert forall i :: 0 <= i < |CONTAINERS| ==> ContainerHolds(sources, images, CONTAINERS[i]);
    ContainersHoldIff(f, sources, images);
  }

  lemma ExampleUpdate(a: string, order: seq<string>, latest: string)
    requires LatestRevision(ExampleUpstream(), FirstVersion(ExampleFiles(a).releases.value, order)) ==
               Latest(latest, true)
    ensures Succeeds(ExampleFiles(a), ExampleFeed(order)) &&
              After(ExampleFiles(a), ExampleFeed(order)) == ExampleFiles(latest)
  {
    ExampleChannels(ExampleFeed(order), a, latest);
    ExampleContainers(ExampleFeed(order), a);
  }

  lemma ExampleStarts(a: string)
    requires a != ""
    ensures var cs := ExampleFiles(a).releases.value;
            && FirstVersion(cs, ["A", "B"]) == a && FirstVersion(cs, ["B", "A"]) == "v1"
            && Visits(["A", "B"], cs) && Visits(["B", "A"], cs)
  {
    var cs := ExampleFiles(a).releases.value;
    assert FORMATS[0] == "ami";
    assert FirstSlot(cs["A"], 0) == a && FirstSlot(cs["B"], 0) == "v1";
  }

  /** Only the order of the channels differs: the first update takes channel A up to v4, the second one down
      to w, an older release. */
  method OtherOrderLowers(b: Files, f: Feed, g: Feed) returns (first: Step, second: Step)
    requires b == ExampleFiles("v2") && f == ExampleFeed(["A", "B"]) && g == Reordered(f, ["B", "A"], ["B", "A"])
    ensures first.Went? && first.files == ExampleFiles("v4") && second.Went? && second.files == ExampleFiles("w")
    ensures Lower(f.upstream, "w", "v4")
  {
    ExampleAnswers();
    ExampleStarts("v2");
    ExampleUpdate("v2", f.order, "v4");
    first := UpdateVersionFiles(b, f);
    ExampleStarts("v4");
    ExampleUpdate("v4", g.order, "w");
    second := UpdateVersionFiles(first.files, g);
  }
}
