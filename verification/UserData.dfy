/** Loading user data that was stored as numbered secrets: each chunk is fetched, appended
    and its secret deleted at once. A fetch may fail at any index; a deletion is requested
    without looking at its outcome. */
module UserData {

  type Bytes = seq<bv8>
  datatype Result = Ok(data: Bytes) | Err

  // ---- Secret names ----

  function Digit(d: nat): (c: char)
    requires d < 10
  {
    '0' + d as char
  }

  /** The %d format of a non-negative index. */
  function Decimal(n: nat): (s: string)
    ensures s != ""
  {
    if n < 10 then [Digit(n)] else Decimal(n / 10) + [Digit(n % 10)]
  }

  function SecretName(prefix: string, i: nat): (s: string) { prefix + "-" + Decimal(i) }

  ghost function ValueOf(s: string): (n: int) {
    if s == "" then 0 else 10 * ValueOf(s[..|s| - 1]) + (s[|s| - 1] as int - '0' as int)
  }

  lemma {:induction false} DecimalHasValue(n: nat)
    ensures ValueOf(Decimal(n)) == n
  {
    if n < 10 {
      assert [Digit(n)][..0] == "";
    } else {
      DecimalHasValue(n / 10);
      assert (Decimal(n / 10) + [Digit(n % 10)])[..|Decimal(n / 10)|] == Decimal(n / 10);
    }
  }

  /** Different chunk numbers give different secrets. */
  lemma NamesDistinct(prefix: string, i: nat, j: nat)
    requires SecretName(prefix, i) == SecretName(prefix, j)
    ensures i == j
  {
    assert SecretName(prefix, i)[|prefix + "-"|..] == Decimal(i);
    assert SecretName(prefix, j)[|prefix + "-"|..] == Decimal(j);
    DecimalHasValue(i);
    DecimalHasValue(j);
  }

  // ---- What a load does ----

  /** The service's answers for one load: indices whose fetch fails, and indices whose
      deletion request takes effect. */
  datatype Service = Service(fetchFails: set<nat>, deleteWorks: set<nat>)

  predicate Fetchable(secrets: map<string, Bytes>, prefix: string, svc: Service, i: nat) {
    i !in svc.fetchFails && SecretName(prefix, i) in secrets
  }

  /** The first index from i on whose chunk cannot be had, or n. */
  function StopIndex(secrets: map<string, Bytes>, prefix: string, n: nat, svc: Service, i: nat): (k: nat)
    requires i <= n
    ensures i <= k <= n
    ensures forall j :: i <= j < k ==> Fetchable(secrets, prefix, svc, j)
    ensures forall j :: i <= j < k ==> SecretName(prefix, j) in secrets
    ensures k < n ==> !Fetchable(secrets, prefix, svc, k)
    decreases n - i
  {
    if i < n && Fetchable(secrets, prefix, svc, i) then StopIndex(secrets, prefix, n, svc, i + 1) else i
  }

  /** The chunks 0 to k in order. */
  function Gathered(secrets: map<string, Bytes>, prefix: string, k: nat): (b: Bytes)
    requires forall j :: 0 <= j < k ==> SecretName(prefix, j) in secrets
  {
    if k == 0 then [] else Gathered(secrets, prefix, k - 1) + secrets[SecretName(prefix, k - 1)]
  }

  function Names(prefix: string, k: nat): (names: seq<string>) {
    seq(k, i requires 0 <= i => SecretName(prefix, i))
  }

  /** The names among the first k whose deletion took effect. */
  function Removed(prefix: string, k: nat, svc: Service): (names: set<string>) {
    set i | 0 <= i < k && i in svc.deleteWorks :: SecretName(prefix, i)
  }

  class SecretsManager {
    var secrets: map<string, Bytes>
    var deleteRequests: seq<string>

    constructor (stored: map<string, Bytes>)
      ensures secrets == stored && deleteRequests == []
    {
      secrets, deleteRequests := stored, [];
    }

    method GetSecretValue(name: string, fails: bool) returns (r: Result)
      ensures r == if fails || name !in secrets then Err else Ok(secrets[name])
    {
      if fails || name !in secrets { return Err; }
      return Ok(secrets[name]);
    }

    method DeleteSecret(name: string, works: bool)
      modifies this
      ensures deleteRequests == old(deleteRequests) + [name]
      ensures secrets == if works then old(secrets) - {name} else old(secrets)
    {
      deleteRequests := deleteRequests + [name];
      if works { secrets := secrets - {name}; }
    }

    /** For any chunk count and any failure point: the buffer is the in-order concatenation of
        the chunks before the failure, deletion was requested for exactly those, in order, and
        every other secret is untouched. */
    method LoadChunks(prefix: string, chunks: int, svc: Service) returns (r: Result, buffer: Bytes)
      modifies this
      ensures var n := if chunks < 0 then 0 else chunks;
              var k := StopIndex(old(secrets), prefix, n, svc, 0);
              && buffer == Gathered(old(secrets), prefix, k)
              && r == (if k == n then Ok(buffer) else Err)
              && deleteRequests == old(deleteRequests) + Names(prefix, k)
              && secrets == old(secrets) - Removed(prefix, k, svc)
    {
      ghost var n := if chunks < 0 then 0 else chunks;
      buffer := [];
      var i := 0;
      assert secrets == old(secrets) - Removed(prefix, 0, svc);
      while i < chunks
        invariant 0 <= i <= n
        invariant StopIndex(old(secrets), prefix, n, svc, i) == StopIndex(old(secrets), prefix, n, svc, 0)
        invariant forall j :: 0 <= j < i ==> SecretName(prefix, j) in old(secrets)
        invariant buffer == Gathered(old(secrets), prefix, i)
        invariant deleteRequests == old(deleteRequests) + Names(prefix, i)
        invariant secrets == old(secrets) - Removed(prefix, i, svc)
      {
        var name := SecretName(prefix, i);
        StillThere(prefix, i, svc);
        var secret := GetSecretValue(name, i in svc.fetchFails);
        if secret.Err? {
          return Err, buffer;
        }
        buffer := buffer + secret.data;
        DeleteSecret(name, i in svc.deleteWorks);
        RemovedNext(prefix, i, svc);
        i := i + 1;
      }
      r := Ok(buffer);
    }
  }

  /** Deleting earlier chunks never takes away a later one. */
  lemma StillThere(prefix: string, i: nat, svc: Service)
    ensures SecretName(prefix, i) !in Removed(prefix, i, svc)
  {
    forall j: nat | SecretName(prefix, j) == SecretName(prefix, i) ensures j == i {
      NamesDistinct(prefix, i, j);
    }
  }

  lemma RemovedNext(prefix: string, i: nat, svc: Service)
    ensures Removed(prefix, i + 1, svc) ==
            Removed(prefix, i, svc) + (if i in svc.deleteWorks then {SecretName(prefix, i)} else {})
  {
  }

  // ---- Splitting and reassembling, and loading again ----

  function Concat(parts: seq<Bytes>): (b: Bytes) {
    if parts == [] then [] else Concat(parts[..|parts| - 1]) + parts[|parts| - 1]
  }

  /** The secrets hold exactly this way of splitting the data. */
  ghost predicate Holds(secrets: map<string, Bytes>, prefix: string, parts: seq<Bytes>) {
    forall i :: 0 <= i < |parts| ==> SecretName(prefix, i) in secrets && secrets[SecretName(prefix, i)] == parts[i]
  }

  lemma {:induction false} AnySplitIsReassembled(secrets: map<string, Bytes>, prefix: string, parts: seq<Bytes>)
    requires Holds(secrets, prefix, parts)
    ensures Gathered(secrets, prefix, |parts|) == Concat(parts)
  {
    if parts != [] {
      var front := parts[..|parts| - 1];
      assert Holds(secrets, prefix, front);
      AnySplitIsReassembled(secrets, prefix, front);
    }
  }

  /** Every split can be stored: the names do not collide. */
  method StoreSplit(prefix: string, parts: seq<Bytes>) returns (secrets: map<string, Bytes>)
    ensures Holds(secrets, prefix, parts)
  {
    secrets := map[];
    for i := 0 to |parts|
      invariant Holds(secrets, prefix, parts[..i])
    {
      forall j: nat | j < i ensures SecretName(prefix, j) != SecretName(prefix, i) {
        if SecretName(prefix, j) == SecretName(prefix, i) { NamesDistinct(prefix, j, i); }
      }
      secrets := secrets[SecretName(prefix, i) := parts[i]];
    }
    assert parts[..|parts|] == parts;
  }

  lemma HeldIsFetched(secrets: map<string, Bytes>, prefix: string, parts: seq<Bytes>, svc: Service)
    requires Holds(secrets, prefix, parts) && svc.fetchFails == {}
    ensures StopIndex(secrets, prefix, |parts|, svc, 0) == |parts|
  {
  }

  /** The round trip: data split in any way, stored and loaded without a failing fetch comes back as it
      was, whichever deletions take effect, and every chunk's deletion is requested, in order. */
  method StoreAndLoad(prefix: string, parts: seq<Bytes>, deleteWorks: set<nat>) returns (r: Result,
        requests: seq<string>)
    ensures r == Ok(Concat(parts))
    ensures requests == Names(prefix, |parts|)
  {
    var stored := StoreSplit(prefix, parts);
    var manager := new SecretsManager(stored);
    var svc := Service({}, deleteWorks);
    HeldIsFetched(stored, prefix, parts, svc);
    AnySplitIsReassembled(stored, prefix, parts);
    var buffer;
    r, buffer := manager.LoadChunks(prefix, |parts|, svc);
    requests := manager.deleteRequests;
  }

  /** With no fault of its own, a second load after one that stopped at k succeeds exactly when
      every chunk had been stored and none of the first k deletions took effect. So a failure
      after the first effective deletion loses the user data for good. */
  lemma RetryIff(secrets: map<string, Bytes>, prefix: string, n: nat, first: Service, again: Service)
    requires again.fetchFails == {}
    ensures var k := StopIndex(secrets, prefix, n, first, 0);
            var left := secrets - Removed(prefix, k, first);
            StopIndex(left, prefix, n, again, 0) == n <==>
              && (forall i :: 0 <= i < n ==> SecretName(prefix, i) in secrets)
              && (forall i :: 0 <= i < k ==> i !in first.deleteWorks)
  {
  }

  /** Two chunks; the second fetch fails after the first secret is gone: the retry fails without a fault of
      its own, and nothing brings the data back. */
  method RetryAfterDeletion() returns (first: Result, second: Result)
    ensures first == Err && second == Err
  {
    var parts: seq<Bytes> := [[1], [2]];
    var stored := StoreSplit("data", parts);
    var manager := new SecretsManager(stored);
    var failing, fine := Service({1}, {0}), Service({}, {});
    RetryIff(stored, "data", 2, failing, fine);
    assert SecretName("data", 0) in stored && Fetchable(stored, "data", failing, 0);
    assert StopIndex(stored, "data", 2, failing, 0) == StopIndex(stored, "data", 2, failing, 1) == 1;
    var buffer;
    first, buffer := manager.LoadChunks("data", 2, failing);
    second, buffer := manager.LoadChunks("data", 2, fine);
  }

  /** Digits only, and no leading zero but in zero itself. */
  lemma {:induction false} DecimalIsCanonical(n: nat)
    ensures forall i :: 0 <= i < |Decimal(n)| ==> '0' <= Decimal(n)[i] <= '9'
    ensures Decimal(n)[0] == '0' <==> n == 0
    ensures n == 0 ==> Decimal(n) == "0"
  {
    if n >= 10 { DecimalIsCanonical(n / 10); }
  }

  /** The name of a secret: the prefix, a hyphen and the decimal number of the chunk. */
  lemma SecretNameIs(prefix: string, i: nat)
    ensures var name := SecretName(prefix, i);
            && |name| > |prefix| + 1 && name[..|prefix|] == prefix && name[|prefix|] == '-'
            && ValueOf(name[|prefix| + 1..]) == i
            && forall k :: |prefix| < k < |name| ==> '0' <= name[k] <= '9'
  {
    var name, number := SecretName(prefix, i), Decimal(i);
    assert name[|prefix| + 1..] == number;
    DecimalHasValue(i);
    DecimalIsCanonical(i);
    forall k | |prefix| < k < |name| ensures '0' <= name[k] <= '9' { assert name[k] == number[k - |prefix| - 1]; }
  }
}
