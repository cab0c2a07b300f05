/** Lazily cached make variables. CACHE_VARIABLE moves the definition of x to _old-x and
    redefines x as a call of CACHE_RESULT, which evaluates _old-x on the first read and
    answers from _cache-x afterwards. Definitions may refer to other cached variables and
    to shell commands whose output can change over time. */
module MakeCache {
  import opened Basics

  datatype Part = Lit(text: string) | Ref(name: string) | Shell(command: seq<Part>)

  /** The definitions as written, the names passed to CACHE_VARIABLE, and what eval makes of a
      value that it reads again as the right side of an assignment. */
  datatype Makefile = Makefile(defs: map<string, seq<Part>>, cachedNames: set<string>, reread: string -> string)

  function Definition(mk: Makefile, v: string): (ps: seq<Part>) { if v in mk.defs then mk.defs[v] else [] }

  predicate RefsBelow(parts: seq<Part>, rank: string -> nat, bound: nat) {
    forall i :: 0 <= i < |parts| ==>
      match parts[i]
      case Lit(_) => true
      case Ref(name) => rank(name) < bound
      case Shell(command) => RefsBelow(command, rank, bound)
  }

  /** No variable needs itself. */
  ghost predicate Acyclic(mk: Makefile, rank: string -> nat) {
    forall v :: RefsBelow(Definition(mk, v), rank, rank(v))
  }

  // ---- Plain recursive expansion, and expansion with values reread at cached names ----

  ghost function Value(mk: Makefile, sh: string -> string, rank: string -> nat, v: string, reread: bool): (s: string)
    requires Acyclic(mk, rank)
    decreases rank(v), 1
  {
    var text := Expansion(mk, sh, rank, Definition(mk, v), rank(v), reread);
    if reread && v in mk.cachedNames then mk.reread(text) else text
  }

  ghost function Expansion(mk: Makefile, sh: string -> string, rank: string -> nat, parts: seq<Part>, bound: nat,
        reread: bool): (s: string)
    requires Acyclic(mk, rank) && RefsBelow(parts, rank, bound)
    decreases bound, 0, parts
  {
    if parts == [] then ""
    else
      (match parts[0]
       case Lit(text) => text
       case Ref(name) => Value(mk, sh, rank, name, reread)
       case Shell(command) => sh(Expansion(mk, sh, rank, command, bound, reread)))
      + Expansion(mk, sh, rank, parts[1..], bound, reread)
  }

  // ---- What expansion means ----

  lemma RefsBelowConcat(a: seq<Part>, b: seq<Part>, rank: string -> nat, bound: nat)
    ensures RefsBelow(a + b, rank, bound) <==> RefsBelow(a, rank, bound) && RefsBelow(b, rank, bound)
  {
    if RefsBelow(a + b, rank, bound) {
      assert forall i :: 0 <= i < |a| ==> (a + b)[i] == a[i];
      assert forall i :: 0 <= i < |b| ==> (a + b)[|a| + i] == b[i];
    }
  }

  /** A text is expanded from left to right. */
  lemma {:induction false} ExpansionConcat(mk: Makefile, sh: string -> string, rank: string -> nat,
        a: seq<Part>, b: seq<Part>, bound: nat, reread: bool)
    requires Acyclic(mk, rank) && RefsBelow(a, rank, bound) && RefsBelow(b, rank, bound)
    ensures RefsBelow(a + b, rank, bound)
    ensures Expansion(mk, sh, rank, a + b, bound, reread) ==
              Expansion(mk, sh, rank, a, bound, reread) + Expansion(mk, sh, rank, b, bound, reread)
    decreases |a|
  {
    RefsBelowConcat(a, b, rank, bound);
    if a == [] {
      assert a + b == b;
    } else {
      assert (a + b)[1..] == a[1..] + b;
      ExpansionConcat(mk, sh, rank, a[1..], b, bound, reread);
    }
  }

  /** A literal stands for itself, a reference for the variable's value, and a shell call for the answer to
      its expanded command. */
  lemma ExpansionOfPart(mk: Makefile, sh: string -> string, rank: string -> nat, part: Part, bound: nat, reread: bool)
    requires Acyclic(mk, rank) && RefsBelow([part], rank, bound)
    ensures part.Lit? ==> Expansion(mk, sh, rank, [part], bound, reread) == part.text
    ensures part.Ref? ==> Expansion(mk, sh, rank, [part], bound, reread) == Value(mk, sh, rank, part.name, reread)
    ensures part.Shell? ==>
              && RefsBelow(part.command, rank, bound)
              && Expansion(mk, sh, rank, [part], bound, reread) ==
                   sh(Expansion(mk, sh, rank, part.command, bound, reread))
  {
    assert [part][0] == part && [part][1..] == [];
    assert Expansion(mk, sh, rank, [part][1..], bound, reread) == "";
  }

  /** A variable reads as the expansion of its definition, which eval reads again if it is cached, and an
      undefined one as nothing. */
  lemma ValueIsExpandedDefinition(mk: Makefile, sh: string -> string, rank: string -> nat, v: string)
    requires Acyclic(mk, rank)
    ensures v in mk.defs ==>
              && RefsBelow(mk.defs[v], rank, rank(v))
              && Value(mk, sh, rank, v, false) == Expansion(mk, sh, rank, mk.defs[v], rank(v), false)
              && Value(mk, sh, rank, v, true) ==
                   var text := Expansion(mk, sh, rank, mk.defs[v], rank(v), true);
                   if v in mk.cachedNames then mk.reread(text) else text
    ensures v !in mk.defs ==> Value(mk, sh, rank, v, false) == ""
  {
    assert RefsBelow(Definition(mk, v), rank, rank(v));
  }

  /** Reading v gives its plain expansion. */
  ghost predicate Agrees(mk: Makefile, sh: string -> string, rank: string -> nat, v: string)
    requires Acyclic(mk, rank)
  {
    Value(mk, sh, rank, v, true) == Value(mk, sh, rank, v, false)
  }

  /** Rereading leaves the plain expansion of v alone. */
  ghost predicate Harmless(mk: Makefile, sh: string -> string, rank: string -> nat, v: string)
    requires Acyclic(mk, rank)
  {
    mk.reread(Value(mk, sh, rank, v, false)) == Value(mk, sh, rank, v, false)
  }

  ghost predicate RereadHarmless(mk: Makefile, sh: string -> string, rank: string -> nat)
    requires Acyclic(mk, rank)
  {
    forall v :: v in mk.cachedNames ==> Harmless(mk, sh, rank, v)
  }

  lemma {:induction false} HarmlessValue(mk: Makefile, sh: string -> string, rank: string -> nat, v: string)
    requires Acyclic(mk, rank) && RereadHarmless(mk, sh, rank)
    ensures Agrees(mk, sh, rank, v)
    decreases rank(v), 1
  {
    HarmlessExpansion(mk, sh, rank, Definition(mk, v), rank(v));
    assert v in mk.cachedNames ==> Harmless(mk, sh, rank, v);
  }

  lemma {:induction false} HarmlessExpansion(mk: Makefile, sh: string -> string, rank: string -> nat,
        parts: seq<Part>, bound: nat)
    requires Acyclic(mk, rank) && RefsBelow(parts, rank, bound) && RereadHarmless(mk, sh, rank)
    ensures Expansion(mk, sh, rank, parts, bound, true) == Expansion(mk, sh, rank, parts, bound, false)
    decreases bound, 0, parts
  {
    if parts != [] {
      match parts[0] {
        case Lit(_) =>
        case Ref(name) => HarmlessValue(mk, sh, rank, name);
        case Shell(command) => HarmlessExpansion(mk, sh, rank, command, bound);
      }
      HarmlessExpansion(mk, sh, rank, parts[1..], bound);
    }
  }

  /** Reading through the cache agrees with plain expansion for all variables exactly when
      rereading changes no cached value. */
  lemma CachingIsTransparentIff(mk: Makefile, sh: string -> string, rank: string -> nat)
    requires Acyclic(mk, rank)
    ensures (forall v :: Agrees(mk, sh, rank, v)) <==> RereadHarmless(mk, sh, rank)
  {
    if RereadHarmless(mk, sh, rank) {
      forall v ensures Agrees(mk, sh, rank, v) { HarmlessValue(mk, sh, rank, v); }
    }
    if forall v :: Agrees(mk, sh, rank, v) {
      forall v | v in mk.cachedNames ensures Harmless(mk, sh, rank, v) {
        SameReadsSameText(mk, sh, rank, Definition(mk, v), rank(v));
        assert Agrees(mk, sh, rank, v);
      }
    }
  }

  lemma {:induction false} SameReadsSameText(mk: Makefile, sh: string -> string, rank: string -> nat,
        parts: seq<Part>, bound: nat)
    requires Acyclic(mk, rank) && RefsBelow(parts, rank, bound)
    requires forall v :: Agrees(mk, sh, rank, v)
    ensures Expansion(mk, sh, rank, parts, bound, true) == Expansion(mk, sh, rank, parts, bound, false)
    decreases parts
  {
    if parts != [] {
      if parts[0].Ref? { assert Agrees(mk, sh, rank, parts[0].name); }
      if parts[0].Shell? { SameReadsSameText(mk, sh, rank, parts[0].command, bound); }
      SameReadsSameText(mk, sh, rank, parts[1..], bound);
    }
  }

  // ---- The variables as make changes them ----

  /** The output of a command does not depend on when it runs. */
  ghost predicate Steady(shell: (string, nat) -> string, sh: string -> string) {
    forall c, t :: shell(c, t) == sh(c)
  }

  class Variables {
    var started: set<string>        // _cached-x is defined
    var cache: map<string, string>  // _cache-x
    var evaluated: seq<string>      // originals evaluated so far, in order
    var clock: nat                  // shell commands run so far

    constructor ()
      ensures started == {} && cache == map[] && evaluated == [] && clock == 0
    {
      started, cache, evaluated, clock := {}, map[], [], 0;
    }

    /** Every original is evaluated at most once, and what was started but not stored yet has a
        rank of at least bound. */
    ghost predicate Valid(mk: Makefile, rank: string -> nat, bound: nat)
      reads this
    {
      && cache.Keys <= started <= mk.cachedNames
      && Distinct(evaluated)
      && (forall v :: v in started <==> v in evaluated)
      && (forall v :: v in started && v !in cache ==> rank(v) >= bound)
    }

    ghost predicate StoredAre(mk: Makefile, sh: string -> string, rank: string -> nat)
      requires Acyclic(mk, rank)
      reads this
    {
      forall v :: v in cache ==> cache[v] == Value(mk, sh, rank, v, true)
    }

    /** Nothing stored is lost or changed, and nothing is left half done. */
    twostate predicate Grew()
      reads this
    {
      && old(started) <= started && old(cache.Keys) <= cache.Keys
      && (forall v :: v in old(cache) ==> cache[v] == old(cache)[v])
      && (forall v :: v in started && v !in cache ==> v in old(started) && v !in old(cache))
    }

    /** $(x): a cached variable goes through CACHE_RESULT, any other is expanded again. */
    method Read(mk: Makefile, v: string, shell: (string, nat) -> string, ghost sh: string -> string,
          ghost rank: string -> nat)
      returns (s: string)
      requires Acyclic(mk, rank) && Valid(mk, rank, rank(v) + 1)
      modifies this
      ensures Valid(mk, rank, rank(v) + 1) && Grew()
      ensures v in mk.cachedNames ==> v in cache && s == cache[v]
      ensures Steady(shell, sh) && old(StoredAre(mk, sh, rank)) ==>
                StoredAre(mk, sh, rank) && s == Value(mk, sh, rank, v, true)
      decreases rank(v), 1, 1
    {
      if v !in mk.cachedNames {
        s := Expand(mk, Definition(mk, v), shell, sh, rank, rank(v));
        return;
      }
      if v !in started { Fill(mk, v, shell, sh, rank); }
      s := cache[v];
    }

    /** The first read: the flag is set before the original is evaluated. */
    method Fill(mk: Makefile, v: string, shell: (string, nat) -> string, ghost sh: string -> string,
          ghost rank: string -> nat)
      requires Acyclic(mk, rank) && Valid(mk, rank, rank(v) + 1) && v in mk.cachedNames && v !in started
      modifies this
      ensures Valid(mk, rank, rank(v) + 1) && Grew() && v in cache
      ensures Steady(shell, sh) && old(StoredAre(mk, sh, rank)) ==> StoredAre(mk, sh, rank)
      decreases rank(v), 1, 0
    {
      Flag(mk, v, rank);
      var text := Expand(mk, Definition(mk, v), shell, sh, rank, rank(v));
      Store(mk, v, mk.reread(text), rank);
    }

    method Flag(mk: Makefile, v: string, ghost rank: string -> nat)
      requires Valid(mk, rank, rank(v) + 1) && v in mk.cachedNames && v !in started
      modifies this`started, this`evaluated
      ensures started == old(started) + {v} && evaluated == old(evaluated) + [v]
      ensures Valid(mk, rank, rank(v))
    {
      started := started + {v};
      evaluated := evaluated + [v];
    }

    method Store(mk: Makefile, v: string, text: string, ghost rank: string -> nat)
      requires Valid(mk, rank, rank(v)) && v in started
      requires forall u :: u in started && u !in cache && u != v ==> rank(u) > rank(v)
      modifies this`cache
      ensures cache == old(cache)[v := text]
      ensures Valid(mk, rank, rank(v) + 1)
    {
      cache := cache[v := text];
    }

    /** Expands the parts of a text from left to right. */
    method Expand(mk: Makefile, parts: seq<Part>, shell: (string, nat) -> string, ghost sh: string -> string,
          ghost rank: string -> nat, ghost bound: nat)
      returns (s: string)
      requires Acyclic(mk, rank) && RefsBelow(parts, rank, bound) && Valid(mk, rank, bound)
      modifies this
      ensures Valid(mk, rank, bound) && Grew()
      ensures Steady(shell, sh) && old(StoredAre(mk, sh, rank)) ==>
                StoredAre(mk, sh, rank) && s == Expansion(mk, sh, rank, parts, bound, true)
      decreases bound, 0, parts
    {
      if parts == [] { return ""; }
      var head: string;
      match parts[0] {
        case Lit(text) => head := text;
        case Ref(name) => head := Read(mk, name, shell, sh, rank);
        case Shell(command) =>
          var c := Expand(mk, command, shell, sh, rank, bound);
          head := shell(c, clock);
          clock := clock + 1;
      }
      var tail := Expand(mk, parts[1..], shell, sh, rank, bound);
      s := head + tail;
    }

    /** Any sequence of reads: each original is evaluated at most once, reads of one cached variable
        all give the value of its first evaluation whatever the shell answers later, and with steady
        commands every read gives the variable's value. */
    method ReadAll(mk: Makefile, vs: seq<string>, shell: (string, nat) -> string, ghost sh: string -> string,
          ghost rank: string -> nat)
      returns (out: seq<string>)
      requires Acyclic(mk, rank) && Valid(mk, rank, 0) && started == cache.Keys
      modifies this
      ensures Valid(mk, rank, 0) && started == cache.Keys && Distinct(evaluated)
      ensures |out| == |vs|
      ensures forall i :: 0 <= i < |vs| && vs[i] in mk.cachedNames ==> vs[i] in cache && out[i] == cache[vs[i]]
      ensures forall i :: 0 <= i < |vs| && vs[i] in old(cache) && vs[i] in mk.cachedNames ==>
                out[i] == old(cache)[vs[i]]
      ensures Steady(shell, sh) && old(StoredAre(mk, sh, rank)) ==>
                forall i :: 0 <= i < |vs| ==> out[i] == Value(mk, sh, rank, vs[i], true)
    {
      out := [];
      for i := 0 to |vs|
        invariant Valid(mk, rank, 0) && started == cache.Keys && |out| == i
        invariant forall v :: v in old(cache) ==> v in cache && cache[v] == old(cache)[v]
        invariant forall k :: 0 <= k < i && vs[k] in mk.cachedNames ==> vs[k] in cache && out[k] == cache[vs[k]]
        invariant Steady(shell, sh) && old(StoredAre(mk, sh, rank)) ==>
          StoredAre(mk, sh, rank) && forall k :: 0 <= k < i ==> out[k] == Value(mk, sh, rank, vs[k], true)
      {
        var s := Read(mk, vs[i], shell, sh, rank);
        out := out + [s];
      }
    }
  }
}
