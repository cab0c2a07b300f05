/** The additional files of an AMI build: comparing two file lists, merging the user's list
    with the default table, and prefixing the sources of default files. Lists are slices:
    the default list handed to the build shares its storage with the default table. */
module AmiFiles {
  import opened Basics

  datatype File = File(source: string, destination: string, owner: string, group: string, mode: int)

  // ---- Comparing lists ----

  /** The counting map holds exactly this multiset, with no zero entries. */
  ghost predicate Counts(m: map<File, int>, files: multiset<File>) {
    && (forall f :: f in m <==> f in files)
    && (forall f :: f in m ==> m[f] == files[f])
  }

  lemma TakeOne(a: seq<File>, i: nat)
    requires i < |a|
    ensures multiset(a[..i + 1]) == multiset(a[..i]) + multiset{a[i]}
  {
    assert a[..i + 1] == a[..i] + [a[i]];
  }

  method CountFiles(a: seq<File>) returns (m: map<File, int>)
    ensures Counts(m, multiset(a))
  {
    m := map[];
    for i := 0 to |a|
      invariant Counts(m, multiset(a[..i]))
    {
      TakeOne(a, i);
      m := m[a[i] := (if a[i] in m then m[a[i]] else 0) + 1];
    }
    assert a[..|a|] == a;
  }

  function Uncount(m: map<File, int>, v: File): (r: map<File, int>)
    requires v in m
  {
    if m[v] == 1 then m - {v} else m[v := m[v] - 1]
  }

  lemma UncountOne(m: map<File, int>, files: multiset<File>, v: File)
    requires Counts(m, files) && v in m
    ensures Counts(Uncount(m, v), files - multiset{v})
  {
  }

  /** The counted rest and what was seen of b make up a; a file that is no longer counted occurs more
      often in b. */
  lemma RestStep(a: seq<File>, b: seq<File>, i: nat, rest: multiset<File>)
    requires i < |b| && rest + multiset(b[..i]) == multiset(a)
    ensures b[i] in rest ==> rest - multiset{b[i]} + multiset(b[..i + 1]) == multiset(a)
    ensures b[i] !in rest ==> multiset(a) != multiset(b)
  {
    TakeOne(b, i);
    assert b == b[..i + 1] + b[i + 1..];
    assert multiset(b) == multiset(b[..i + 1]) + multiset(b[i + 1..]);
    if b[i] !in rest {
      assert multiset(a)[b[i]] == multiset(b[..i])[b[i]];
      assert multiset(b)[b[i]] > multiset(a)[b[i]];
    }
  }

  lemma NothingLeft(a: seq<File>, b: seq<File>, m: map<File, int>, rest: multiset<File>)
    requires |a| == |b| && rest + multiset(b) == multiset(a) && Counts(m, rest)
    ensures multiset(a) == multiset(b) && |m| == 0
  {
  }

  /** The counting map decides equality of the lists as multisets. */
  method SameFilesProvided(a: seq<File>, b: seq<File>) returns (same: bool)
    ensures same <==> multiset(a) == multiset(b)
  {
    if |a| != |b| {
      assert |multiset(a)| != |multiset(b)|;
      return false;
    }
    var m := CountFiles(a);
    ghost var rest := multiset(a);
    for i := 0 to |b|
      invariant rest + multiset(b[..i]) == multiset(a) && Counts(m, rest)
    {
      var v := b[i];
      RestStep(a, b, i, rest);
      if v !in m { return false; }
      UncountOne(m, rest, v);
      rest := rest - multiset{v};
      m := UncountInPlace(m, v);
    }
    assert b[..|b|] == b;
    NothingLeft(a, b, m, rest);
    same := |m| == 0;
  }

  /** Decrement, then delete an entry that reached zero. */
  method UncountInPlace(m: map<File, int>, v: File) returns (r: map<File, int>)
    requires v in m
    ensures r == Uncount(m, v)
  {
    r := m[v := m[v] - 1];
    if r[v] == 0 { r := r - {v}; }
  }

  // ---- Merging the user's list with the defaults ----

  /** The list after the merge, and what the default table holds afterwards: decoding fills the
      shared storage from the front. */
  function Merged(defaults: seq<File>, user: Option<seq<File>>): (r: (seq<File>, seq<File>)) {
    match user
    case None => (defaults, defaults)
    case Some(u) =>
      var k := Min(|u|, |defaults|);
      var table := u[..k] + defaults[k..];
      (if multiset(u) == multiset(table) then u else u + table, table)
  }

  /** Decoding a JSON array into a slice reuses its storage as far as it reaches. */
  method DecodeInto(defaults: array<File>, u: seq<File>) returns (files: seq<File>)
    modifies defaults
    ensures files == u
    ensures var k := Min(|u|, defaults.Length); defaults[..] == u[..k] + old(defaults[..])[k..]
  {
    files := [];
    for i := 0 to |u|
      invariant files == u[..i]
      invariant forall k :: 0 <= k < defaults.Length ==> defaults[k] == if k < i then u[k] else old(defaults[k])
    {
      if i < defaults.Length { defaults[i] := u[i]; }
      files := files + [u[i]];
    }
    assert u[..|u|] == u;
  }

  /** An empty array gives a new empty slice, and a missing key leaves the list alone. */
  method MergeUserFiles(defaults: array<File>, user: Option<seq<File>>) returns (files: seq<File>)
    modifies defaults
    ensures (files, defaults[..]) == Merged(old(defaults[..]), user)
  {
    files := defaults[..];
    if user.Some? { files := DecodeInto(defaults, user.value); }
    var same := SameFilesProvided(files, defaults[..]);
    if !same { files := files + defaults[..]; }
  }

  /** What the merge is for: all user files and all defaults, unless the user listed the defaults. */
  ghost function Intended(defaults: seq<File>, user: seq<File>): (files: multiset<File>) {
    if multiset(user) == multiset(defaults) then multiset(user) else multiset(user) + multiset(defaults)
  }

  /** The merge gives the intended files exactly when the user's entries that land in the
      table's storage are a rearrangement of the defaults they overwrite. */
  lemma MergeIsIntendedIff(defaults: seq<File>, user: seq<File>)
    ensures var k := Min(|user|, |defaults|);
            multiset(Merged(defaults, Some(user)).0) == Intended(defaults, user) <==>
            multiset(user[..k]) == multiset(defaults[..k])
  {
    var k := Min(|user|, |defaults|);
    var kept := multiset(defaults[k..]);
    var table := user[..k] + defaults[k..];
    assert defaults == defaults[..k] + defaults[k..];
    assert multiset(defaults) == multiset(defaults[..k]) + kept;
    assert multiset(table) == multiset(user[..k]) + kept;
    assert multiset(user[..k]) + kept == kept + multiset(user[..k]);
    assert multiset(defaults[..k]) + kept == kept + multiset(defaults[..k]);
    SumsEqualIff(kept, multiset(user[..k]), multiset(defaults[..k]));
    if |user| == |defaults| {
      assert user[..k] == user && defaults[..k] == defaults && table == user;
      SumsEqualIff(multiset(user), multiset(defaults), multiset{});
      assert multiset(user) + multiset{} == multiset(user);
    } else {
      assert |multiset(user)| != |multiset(defaults)| && |multiset(user)| != |multiset(table)|;
      assert multiset(user + table) == multiset(user) + multiset(table);
      SumsEqualIff(multiset(user), multiset(table), multiset(defaults));
    }
  }

  lemma SumsEqualIff(x: multiset<File>, y: multiset<File>, z: multiset<File>)
    ensures x + y == x + z <==> y == z
  {
    if x + y == x + z {
      forall f ensures y[f] == z[f] { assert (x + y)[f] == x[f] + y[f] && (x + z)[f] == x[f] + z[f]; }
    }
  }

  // ---- Prefixing the sources of default files ----

  /** Joining the project path and a clean relative source. */
  function Prefix(root: string, f: File): (r: File) { f.(source := root + "/" + f.source) }

  function Times(root: string, f: File, n: nat): (r: File) {
    if n == 0 then f else Prefix(root, Times(root, f, n - 1))
  }

  /** The inner loop at entry i from table position j on, when list and table are one array. */
  function InnerShared(cur: seq<File>, root: string, i: nat, file: File, j: nat): (r: seq<File>)
    requires i < |cur| && j <= |cur|
    ensures |r| == |cur|
    ensures forall k :: 0 <= k < |cur| && k != i ==> r[k] == cur[k]
    decreases |cur| - j
  {
    if j == |cur| then cur
    else InnerShared(if cur[j] == file then cur[i := Prefix(root, cur[i])] else cur, root, i, file, j + 1)
  }

  function OuterShared(cur: seq<File>, root: string, i: nat): (r: seq<File>)
    requires i <= |cur|
    ensures |r| == |cur| && r[..i] == cur[..i]
    decreases |cur| - i
  {
    if i == |cur| then cur else OuterShared(InnerShared(cur, root, i, cur[i], 0), root, i + 1)
  }

  function Count(files: seq<File>, file: File, n: nat): (c: nat)
    requires n <= |files|
  {
    if n == 0 then 0 else Count(files, file, n - 1) + if files[n - 1] == file then 1 else 0
  }

  lemma {:induction false} CountIsMultiplicity(files: seq<File>, file: File, n: nat)
    requires n <= |files|
    ensures Count(files, file, n) == multiset(files[..n])[file]
  {
    if n > 0 {
      CountIsMultiplicity(files, file, n - 1);
      CountNext(files[..n - 1], files[n - 1], file);
      assert files[..n] == files[..n - 1] + [files[n - 1]];
    }
  }

  lemma CountNext(seen: seq<File>, f: File, file: File)
    ensures multiset(seen + [f])[file] == multiset(seen)[file] + if f == file then 1 else 0
  {
  }

  /** The inner loop: compares one entry, as it was, with the live table. */
  method PrefixEntry(list: array<File>, defaults: array<File>, root: string, index: nat)
    requires index < list.Length
    modifies list
    ensures forall i :: 0 <= i < list.Length && i != index ==> list[i] == old(list[i])
    ensures list != defaults ==> list[index] == Times(root, old(list[index]), multiset(defaults[..])[old(list[index])])
    ensures list == defaults ==> list[..] == InnerShared(old(list[..]), root, index, old(list[index]), 0)
  {
    var file := list[index];
    for j := 0 to defaults.Length
      invariant forall i :: 0 <= i < list.Length && i != index ==> list[i] == old(list[i])
      invariant list != defaults ==> list[index] == Times(root, file, Count(defaults[..], file, j))
      invariant list == defaults ==>
        InnerShared(list[..], root, index, file, j) == InnerShared(old(list[..]), root, index, file, 0)
    {
      ghost var cur := list[..];
      if file == defaults[j] {
        list[index] := Prefix(root, list[index]);
        assert list[..] == cur[index := Prefix(root, cur[index])];
      }
    }
    CountIsMultiplicity(defaults[..], file, defaults.Length);
    assert defaults[..][..defaults.Length] == defaults[..];
  }

  /** With storage of its own every entry is prefixed once per equal default; on the shared table
      the loop compares against entries it has already rewritten. */
  method PrefixDefaultSources(list: array<File>, defaults: array<File>, root: string)
    modifies list
    ensures list != defaults ==>
              forall i :: 0 <= i < list.Length ==>
                list[i] == Times(root, old(list[i]), multiset(defaults[..])[old(list[i])])
    ensures list == defaults ==> list[..] == OuterShared(old(list[..]), root, 0)
  {
    for index := 0 to list.Length
      invariant forall i :: index <= i < list.Length ==> list[i] == old(list[i])
      invariant list != defaults ==>
        forall i :: 0 <= i < index ==> list[i] == Times(root, old(list[i]), multiset(defaults[..])[old(list[i])])
      invariant list == defaults ==> OuterShared(list[..], root, index) == OuterShared(old(list[..]), root, 0)
    {
      PrefixEntry(list, defaults, root, index);
    }
  }

  // ---- Shared storage: exactly once, if and only if the table has no repeated entry ----

  lemma {:induction false} NoHit(cur: seq<File>, root: string, i: nat, file: File, j: nat)
    requires i < |cur| && j <= |cur| && forall k :: j <= k < |cur| ==> cur[k] != file
    ensures InnerShared(cur, root, i, file, j) == cur
    decreases |cur| - j
  {
    if j < |cur| { NoHit(cur, root, i, file, j + 1); }
  }

  /** The only repeated comparison that can succeed is the one with the entry itself, and
      that one is gone once the entry has been prefixed. */
  lemma {:induction false} OneHit(cur: seq<File>, root: string, i: nat, file: File, j: nat)
    requires j <= i < |cur| && cur[i] == file
    requires forall k, l :: j <= k < l < |cur| && cur[k] == file && cur[l] == file ==> l == i
    ensures InnerShared(cur, root, i, file, j) == cur[i := Prefix(root, file)]
    decreases |cur| - j
  {
    if cur[j] == file {
      var hit := cur[i := Prefix(root, file)];
      assert |Prefix(root, file).source| > |file.source|;
      NoHit(hit, root, i, file, j + 1);
    } else {
      OneHit(cur, root, i, file, j + 1);
    }
  }

  lemma PrefixInjective(root: string, f: File, g: File)
    requires Prefix(root, f) == Prefix(root, g)
    ensures f == g
  {
    assert (root + "/" + f.source)[|root| + 1..] == f.source;
    assert (root + "/" + g.source)[|root| + 1..] == g.source;
  }

  lemma {:induction false} DistinctTablePrefixedOnce(table: seq<File>, cur: seq<File>, root: string, i: nat)
    requires Distinct(table) && |cur| == |table| && i <= |table|
    requires forall k :: 0 <= k < |table| ==> cur[k] == if k < i then Prefix(root, table[k]) else table[k]
    ensures forall k :: 0 <= k < |table| ==> OuterShared(cur, root, i)[k] == Prefix(root, table[k])
    decreases |table| - i
  {
    if i < |table| {
      forall k, l | 0 <= k < l < |cur| && cur[k] == table[i] && cur[l] == table[i] ensures l == i {
        if l < i { PrefixInjective(root, table[k], table[l]); }
      }
      OneHit(cur, root, i, table[i], 0);
      DistinctTablePrefixedOnce(table, cur[i := Prefix(root, table[i])], root, i + 1);
    }
  }

  lemma {:induction false} Grows(cur: seq<File>, root: string, i: nat, file: File, j: nat)
    requires i < |cur| && j <= |cur|
    ensures |InnerShared(cur, root, i, file, j)[i].source| >= |cur[i].source|
    decreases |cur| - j
  {
    if j < |cur| {
      Grows(if cur[j] == file then cur[i := Prefix(root, cur[i])] else cur, root, i, file, j + 1);
    }
  }

  lemma {:induction false} GrowsOnce(cur: seq<File>, root: string, i: nat, file: File, j: nat, b: nat)
    requires i < |cur| && j <= b < |cur| && b != i && cur[b] == file
    ensures |InnerShared(cur, root, i, file, j)[i].source| >= |cur[i].source| + |root| + 1
    decreases |cur| - j
  {
    var next := if cur[j] == file then cur[i := Prefix(root, cur[i])] else cur;
    if j == b { Grows(next, root, i, file, j + 1); } else { GrowsOnce(next, root, i, file, j + 1, b); }
  }

  lemma {:induction false} GrowsTwice(cur: seq<File>, root: string, i: nat, file: File, j: nat, b: nat)
    requires j <= i < b < |cur| && cur[i] == file && cur[b] == file
    ensures |InnerShared(cur, root, i, file, j)[i].source| >= |file.source| + 2 * (|root| + 1)
    decreases |cur| - j
  {
    if cur[j] == file {
      GrowsOnce(cur[i := Prefix(root, cur[i])], root, i, file, j + 1, b);
    } else {
      GrowsTwice(cur, root, i, file, j + 1, b);
    }
  }

  lemma {:induction false} RepeatedEntryPrefixedTwice(cur: seq<File>, root: string, i: nat, a: nat, b: nat)
    requires i <= a < b < |cur| && cur[a] == cur[b]
    ensures |OuterShared(cur, root, i)[a].source| >= |cur[a].source| + 2 * (|root| + 1)
    decreases |cur| - i
  {
    var next := InnerShared(cur, root, i, cur[i], 0);
    if i == a {
      GrowsTwice(cur, root, i, cur[i], 0, b);
      assert OuterShared(next, root, i + 1)[..i + 1][a] == next[..i + 1][a];
    } else {
      RepeatedEntryPrefixedTwice(next, root, i + 1, a, b);
    }
  }

  /** On the shared table every entry is prefixed exactly once if and only if the table holds no
      entry twice; a prefixed entry that equals a later one does no harm. */
  lemma SharedPrefixOnceIff(table: seq<File>, root: string)
    ensures (forall k :: 0 <= k < |table| ==> OuterShared(table, root, 0)[k] == Prefix(root, table[k]))
            <==> Distinct(table)
  {
    if Distinct(table) {
      DistinctTablePrefixedOnce(table, table, root, 0);
    } else {
      var a, b :| 0 <= a < b < |table| && table[a] == table[b];
      RepeatedEntryPrefixedTwice(table, root, 0, a, b);
      assert |Prefix(root, table[a]).source| == |table[a].source| + |root| + 1;
    }
  }

  // ---- Merging, then prefixing ----

  /** The merged list is still the table's own storage: without a user list, and with one of the same length,
      which is decoded in place and then found to be the same. A longer or an extended list moves away. */
  predicate Shares(defaults: seq<File>, user: Option<seq<File>>) {
    user.None? || (user.value != [] && |user.value| == |defaults|)
  }

  /** The list that is written in the end. */
  function FinalFiles(defaults: seq<File>, user: Option<seq<File>>, root: string): (files: seq<File>) {
    var (merged, table) := Merged(defaults, user);
    if Shares(defaults, user) then OuterShared(merged, root, 0)
    else seq(|merged|, i requires 0 <= i < |merged| => Times(root, merged[i], multiset(table)[merged[i]]))
  }

  /** Every user file that is not a default keeps its source. */
  ghost predicate OwnSourcesKept(defaults: seq<File>, user: seq<File>, files: seq<File>) {
    |user| <= |files| && forall i :: 0 <= i < |user| && user[i] !in defaults ==> files[i] == user[i]
  }

  /** The user's entries that land in the table's storage are defaults. */
  ghost predicate LeadingAreDefaults(defaults: seq<File>, user: seq<File>) {
    forall i :: 0 <= i < Min(|user|, |defaults|) ==> user[i] in defaults
  }

  method MergeAndPrefix(defaults: array<File>, user: Option<seq<File>>, root: string) returns (list: array<File>)
    modifies defaults
    ensures list[..] == FinalFiles(old(defaults[..]), user, root)
    ensures if Shares(old(defaults[..]), user) then list == defaults
              else fresh(list) && defaults[..] == Merged(old(defaults[..]), user).1
    ensures user.Some? ==>
              (OwnSourcesKept(old(defaults[..]), user.value, list[..]) <==>
                LeadingAreDefaults(old(defaults[..]), user.value))
  {
    ghost var d := defaults[..];
    var files := MergeUserFiles(defaults, user);
    if user.None? || (user.value != [] && |user.value| == defaults.Length) {
      SharedIsTable(d, user);
      list := defaults;
      PrefixDefaultSources(list, defaults, root);
    } else {
      list := new File[|files|](i requires 0 <= i < |files| => files[i]);
      assert list[..] == files;
      PrefixDefaultSources(list, defaults, root);
      assert list[..] == FinalFiles(d, user, root);
    }
    if user.Some? { OwnSourcesKeptIff(d, user.value, root); }
  }

  lemma SharedIsTable(defaults: seq<File>, user: Option<seq<File>>)
    requires Shares(defaults, user)
    ensures Merged(defaults, user).0 == Merged(defaults, user).1
    ensures user.Some? ==> Merged(defaults, user).0 == user.value
  {
    if user.Some? { assert user.value[..|user.value|] + defaults[|user.value|..] == user.value; }
  }

  lemma {:induction false} TimesGrows(root: string, f: File, n: nat)
    ensures |Times(root, f, n).source| >= |f.source| + n
  {
    if n > 0 { TimesGrows(root, f, n - 1); }
  }

  lemma {:induction false} OwnTurnGrows(cur: seq<File>, root: string, i: nat, file: File, j: nat)
    requires j <= i < |cur| && cur[i] == file
    ensures |InnerShared(cur, root, i, file, j)[i].source| > |file.source|
    decreases |cur| - j
  {
    if cur[j] == file {
      Grows(cur[i := Prefix(root, cur[i])], root, i, file, j + 1);
    } else {
      OwnTurnGrows(cur, root, i, file, j + 1);
    }
  }

  /** On the shared table no entry keeps its source. */
  lemma {:induction false} EveryEntryGrows(cur: seq<File>, root: string, i: nat, a: nat)
    requires i <= a < |cur|
    ensures |OuterShared(cur, root, i)[a].source| > |cur[a].source|
    decreases |cur| - i
  {
    var next := InnerShared(cur, root, i, cur[i], 0);
    if i == a {
      OwnTurnGrows(cur, root, i, cur[i], 0);
      assert OuterShared(next, root, i + 1)[..i + 1][a] == next[..i + 1][a];
    } else {
      EveryEntryGrows(next, root, i + 1, a);
    }
  }

  /** One user file that is not a default is left alone exactly when no leading entry equals it. */
  lemma OwnFileKeptIff(defaults: seq<File>, user: seq<File>, root: string, i: nat)
    requires i < |user| && user[i] !in defaults
    ensures |user| <= |FinalFiles(defaults, Some(user), root)|
    ensures FinalFiles(defaults, Some(user), root)[i] == user[i] <==> user[i] !in user[..Min(|user|, |defaults|)]
  {
    var k, table := Min(|user|, |defaults|), Merged(defaults, Some(user)).1;
    assert table == user[..k] + defaults[k..];
    if Shares(defaults, Some(user)) {
      SharedIsTable(defaults, Some(user));
      EveryEntryGrows(user, root, 0, i);
      assert user[..k] == user;
    } else {
      var merged := Merged(defaults, Some(user)).0;
      assert merged[i] == user[i];
      TimesGrows(root, user[i], multiset(table)[user[i]]);
      assert user[i] in table <==> user[i] in user[..k];
    }
  }

  /** The user's own sources are left alone if and only if all entries that land in the table are defaults. */
  lemma OwnSourcesKeptIff(defaults: seq<File>, user: seq<File>, root: string)
    ensures OwnSourcesKept(defaults, user, FinalFiles(defaults, Some(user), root)) <==>
              LeadingAreDefaults(defaults, user)
  {
    var k := Min(|user|, |defaults|);
    forall i | 0 <= i < |user| && user[i] !in defaults
      ensures FinalFiles(defaults, Some(user), root)[i] == user[i] <==> user[i] !in user[..k]
      ensures |user| <= |FinalFiles(defaults, Some(user), root)|
    {
      OwnFileKeptIff(defaults, user, root, i);
    }
    FinalIsNotShorter(defaults, user, root);
    if OwnSourcesKept(defaults, user, FinalFiles(defaults, Some(user), root)) {
      forall i | 0 <= i < k ensures user[i] in defaults { assert user[..k][i] == user[i]; }
    }
  }

  lemma FinalIsNotShorter(defaults: seq<File>, user: seq<File>, root: string)
    ensures |user| <= |FinalFiles(defaults, Some(user), root)|
  {
    if Shares(defaults, Some(user)) { SharedIsTable(defaults, Some(user)); }
  }

  /** A user list as long as the default table replaces it: unless it holds just the defaults they are gone,
      and the user's own sources are then prefixed as if they were defaults. */
  lemma UserFilesTakenForDefaults(defaults: seq<File>, user: seq<File>, root: string)
    requires |user| == |defaults| && Distinct(user)
    ensures Merged(defaults, Some(user)) == (user, user)
    ensures multiset(user) != multiset(defaults) ==>
              multiset(Merged(defaults, Some(user)).0) != Intended(defaults, user)
    ensures forall k :: 0 <= k < |user| ==> OuterShared(user, root, 0)[k] == Prefix(root, user[k])
  {
    assert user[..|user|] + defaults[|user|..] == user;
    MergeIsIntendedIff(defaults, user);
    assert user[..|user|] == user && defaults[..|user|] == defaults;
    SharedPrefixOnceIff(user, root);
  }

  /** Without a user list every default of a table without repetition gets the project path before its source,
      once, and keeps everything else. */
  lemma DefaultsGetPath(defaults: seq<File>, root: string, i: nat)
    requires Distinct(defaults) && i < |defaults|
    ensures |FinalFiles(defaults, None, root)| == |defaults|
    ensures var d := defaults[i];
            FinalFiles(defaults, None, root)[i] == File(root + "/" + d.source, d.destination, d.owner, d.group, d.mode)
  {
    SharedPrefixOnceIff(defaults, root);
  }

  /** One user file and two defaults: the user's source is prefixed, twice listed, and a default is lost. */
  method OwnSourcePrefixed() returns (files: seq<File>)
    ensures var x, y, z := File("x", "", "", "", 0), File("y", "", "", "", 0), File("z", "", "", "", 0);
            && files == FinalFiles([y, z], Some([x]), "r")
            && files == [x.(source := "r/x"), x.(source := "r/x"), z.(source := "r/z")]
  {
    var x, y, z := File("x", "", "", "", 0), File("y", "", "", "", 0), File("z", "", "", "", 0);
    var table := new File[][y, z];
    assert table[..] == [y, z];
    ExampleFinal(x, y, z);
    assert "r" + "/" + "x" == "r/x" && "r" + "/" + "z" == "r/z";
    var list := MergeAndPrefix(table, Some([x]), "r");
    files := list[..];
  }

  lemma ExampleFinal(x: File, y: File, z: File)
    requires x != y && x != z && y != z
    ensures FinalFiles([y, z], Some([x]), "r") == [Prefix("r", x), Prefix("r", x), Prefix("r", z)]
  {
    var user, defaults := [x], [y, z];
    assert user[..1] + defaults[1..] == [x, z];
    assert multiset(user)[z] == 0 && multiset([x, z])[z] == 1;
    assert user + [x, z] == [x, x, z];
    assert Merged(defaults, Some(user)) == ([x, x, z], [x, z]);
    assert multiset([x, z])[x] == 1 && multiset([x, z])[z] == 1;
    assert Times("r", x, 1) == Prefix("r", Times("r", x, 0)) && Times("r", z, 1) == Prefix("r", Times("r", z, 0));
  }
}
