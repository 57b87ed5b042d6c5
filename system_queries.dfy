/** The system-wide resource queries of a star system, stated once over the planets'
    own query results. Both star-system variants are proved to compute these. */
module SystemQueries {
  import opened Resources
  import opened Storage

  /** What a planet answers to the three per-planet queries the star system aggregates.
      `T` is how a resource type is named: a string in one variant, a ResourceType in
      the other. */
  datatype Planet<T> = Planet(
    resourceTypesAvailable: seq<T>,
    storedResources: seq<Resource>,
    resourceLocations: map<Resource, StorageNode>)

  /** The outcome of merging dictionaries with an add that rejects a present key. */
  datatype Merge<K, V> = Merged(entries: map<K, V>) | DuplicateKey

  // ---------------------------------------------------------------- lists

  /** In-order concatenation of the lists, duplicates kept. */
  function Flatten<X>(xss: seq<seq<X>>): seq<X>
  {
    if xss == [] then [] else xss[0] + Flatten(xss[1..])
  }

  function TotalLength<X>(xss: seq<seq<X>>): nat
  {
    if xss == [] then 0 else |xss[0]| + TotalLength(xss[1..])
  }

  function Rename<X, Y>(f: X -> Y, xs: seq<X>): (r: seq<Y>)
    ensures |r| == |xs| && forall i :: 0 <= i < |xs| ==> r[i] == f(xs[i])
  {
    seq(|xs|, i requires 0 <= i < |xs| => f(xs[i]))
  }

  lemma {:induction false} FlattenConcat<X>(a: seq<seq<X>>, b: seq<seq<X>>)
    ensures Flatten(a + b) == Flatten(a) + Flatten(b)
  {
    if a == [] {
      assert a + b == b;
    } else {
      assert (a + b)[0] == a[0] && (a + b)[1..] == a[1..] + b;
      FlattenConcat(a[1..], b);
    }
  }

  /** Appending one more list to the input appends it to the result. */
  lemma FlattenSnoc<X>(xss: seq<seq<X>>, xs: seq<X>)
    ensures Flatten(xss + [xs]) == Flatten(xss) + xs
  {
    FlattenConcat(xss, [xs]);
    assert [xs][1..] == [];
  }

  /** The result is as long as all the lists together. */
  lemma {:induction false} FlattenLength<X>(xss: seq<seq<X>>)
    ensures |Flatten(xss)| == TotalLength(xss)
  {
    if xss != [] {
      FlattenLength(xss[1..]);
    }
  }

  /** The j-th entry of the i-th list sits in the result after all entries of the
      earlier lists: the lists appear whole and in order. */
  lemma FlattenAt<X>(xss: seq<seq<X>>, i: nat, j: nat)
    requires i < |xss| && j < |xss[i]|
    ensures TotalLength(xss[..i]) + j < |Flatten(xss)|
    ensures Flatten(xss)[TotalLength(xss[..i]) + j] == xss[i][j]
  {
    assert xss == xss[..i] + [xss[i]] + xss[i + 1..];
    FlattenConcat(xss[..i] + [xss[i]], xss[i + 1..]);
    FlattenSnoc(xss[..i], xss[i]);
    FlattenLength(xss[..i]);
  }

  /** An element is in the result iff it is in one of the lists. */
  lemma {:induction false} FlattenMembership<X>(xss: seq<seq<X>>, x: X)
    ensures x in Flatten(xss) <==> exists i :: 0 <= i < |xss| && x in xss[i]
  {
    if xss != [] {
      FlattenMembership(xss[1..], x);
      if x in Flatten(xss[1..]) {
        var i :| 0 <= i < |xss[1..]| && x in xss[1..][i];
        assert x in xss[i + 1];
      }
      if exists i :: 0 <= i < |xss| && x in xss[i] {
        var i :| 0 <= i < |xss| && x in xss[i];
        if i > 0 {
          assert x in xss[1..][i - 1];
        }
      }
    }
  }

  /** Renaming every element of every list renames the concatenation. */
  lemma {:induction false} FlattenRename<X, Y>(f: X -> Y, xss: seq<seq<X>>, yss: seq<seq<Y>>)
    requires |xss| == |yss|
    requires forall i :: 0 <= i < |xss| ==> yss[i] == Rename(f, xss[i])
    ensures Flatten(yss) == Rename(f, Flatten(xss))
  {
    if xss != [] {
      FlattenRename(f, xss[1..], yss[1..]);
      assert Rename(f, xss[0] + Flatten(xss[1..])) == Rename(f, xss[0]) + Rename(f, Flatten(xss[1..]));
    }
  }

  // ---------------------------------------------------------------- planets

  function TypeLists<T>(ps: seq<Planet<T>>): (r: seq<seq<T>>)
    ensures |r| == |ps| && forall i :: 0 <= i < |ps| ==> r[i] == ps[i].resourceTypesAvailable
  {
    seq(|ps|, i requires 0 <= i < |ps| => ps[i].resourceTypesAvailable)
  }

  function StoredLists<T>(ps: seq<Planet<T>>): (r: seq<seq<Resource>>)
    ensures |r| == |ps| && forall i :: 0 <= i < |ps| ==> r[i] == ps[i].storedResources
  {
    seq(|ps|, i requires 0 <= i < |ps| => ps[i].storedResources)
  }

  function LocationMaps<T>(ps: seq<Planet<T>>): (r: seq<map<Resource, StorageNode>>)
    ensures |r| == |ps| && forall i :: 0 <= i < |ps| ==> r[i] == ps[i].resourceLocations
  {
    seq(|ps|, i requires 0 <= i < |ps| => ps[i].resourceLocations)
  }

  /** Resource types that have stock, over all planets, in planet order. */
  function TypesAvailable<T>(ps: seq<Planet<T>>): seq<T>
  {
    Flatten(TypeLists(ps))
  }

  /** Every stored resource entry of every planet, in planet order. */
  function ResourcesAvailable<T>(ps: seq<Planet<T>>): seq<Resource>
  {
    Flatten(StoredLists(ps))
  }

  /** A single stored entry meets a request: same type, at least the amount. */
  predicate Satisfies(entry: Resource, request: Resource)
  {
    entry.kind == request.kind && entry.amount >= request.amount
  }

  predicate AnySatisfies(entries: seq<Resource>, request: Resource)
  {
    exists i :: 0 <= i < |entries| && Satisfies(entries[i], request)
  }

  predicate HasResourceAmount<T>(ps: seq<Planet<T>>, request: Resource)
  {
    AnySatisfies(ResourcesAvailable(ps), request)
  }

  /** The planets' location maps merged in planet order; fails on a key two planets share. */
  function ResourceLocations<T>(ps: seq<Planet<T>>): Merge<Resource, StorageNode>
  {
    MergeAll(LocationMaps(ps))
  }

  lemma TypesAvailableSnoc<T>(ps: seq<Planet<T>>, i: nat)
    requires i < |ps|
    ensures TypesAvailable(ps[..i + 1]) == TypesAvailable(ps[..i]) + ps[i].resourceTypesAvailable
  {
    assert TypeLists(ps[..i + 1]) == TypeLists(ps[..i]) + [ps[i].resourceTypesAvailable];
    FlattenSnoc(TypeLists(ps[..i]), ps[i].resourceTypesAvailable);
  }

  lemma ResourcesAvailableSnoc<T>(ps: seq<Planet<T>>, i: nat)
    requires i < |ps|
    ensures ResourcesAvailable(ps[..i + 1]) == ResourcesAvailable(ps[..i]) + ps[i].storedResources
  {
    assert StoredLists(ps[..i + 1]) == StoredLists(ps[..i]) + [ps[i].storedResources];
    FlattenSnoc(StoredLists(ps[..i]), ps[i].storedResources);
  }

  /** The number of types listed is the sum of the planets' counts. */
  lemma TypesAvailableLength<T>(ps: seq<Planet<T>>)
    ensures |TypesAvailable(ps)| == TotalLength(TypeLists(ps))
  {
    FlattenLength(TypeLists(ps));
  }

  /** A type is listed iff some planet lists it; a type two planets list is listed twice. */
  lemma TypesAvailableMembers<T>(ps: seq<Planet<T>>, i: nat, j: nat)
    requires i < |ps| && j < |ps[i].resourceTypesAvailable|
    ensures TotalLength(TypeLists(ps)[..i]) + j < |TypesAvailable(ps)|
    ensures TypesAvailable(ps)[TotalLength(TypeLists(ps)[..i]) + j] == ps[i].resourceTypesAvailable[j]
  {
    FlattenAt(TypeLists(ps), i, j);
  }

  /** With no planets, both lists are empty and no amount is available. */
  lemma EmptySystem<T>(ps: seq<Planet<T>>, request: Resource)
    requires ps == []
    ensures TypesAvailable(ps) == [] && ResourcesAvailable(ps) == []
    ensures !HasResourceAmount(ps, request)
    ensures ResourceLocations(ps) == Merged(map[])
  {
  }

  /** An amount is available iff one single entry of one planet's storage meets it. */
  lemma {:induction false} HasResourceAmountPlanetwise<T>(ps: seq<Planet<T>>, request: Resource)
    ensures HasResourceAmount(ps, request) <==>
      exists i, j :: 0 <= i < |ps| && 0 <= j < |ps[i].storedResources| && Satisfies(ps[i].storedResources[j], request)
  {
    var all := ResourcesAvailable(ps);
    if HasResourceAmount(ps, request) {
      var k :| 0 <= k < |all| && Satisfies(all[k], request);
      FlattenMembership(StoredLists(ps), all[k]);
      var i :| 0 <= i < |ps| && all[k] in StoredLists(ps)[i];
      var j :| 0 <= j < |ps[i].storedResources| && ps[i].storedResources[j] == all[k];
      assert Satisfies(ps[i].storedResources[j], request);
    }
    if exists i, j :: 0 <= i < |ps| && 0 <= j < |ps[i].storedResources| && Satisfies(ps[i].storedResources[j], request) {
      var i, j :| 0 <= i < |ps| && 0 <= j < |ps[i].storedResources| && Satisfies(ps[i].storedResources[j], request);
      FlattenAt(StoredLists(ps), i, j);
      assert Satisfies(all[TotalLength(StoredLists(ps)[..i]) + j], request);
    }
  }

  /** Asking for less of the same type is still met. */
  lemma HasResourceAmountMonotone<T>(ps: seq<Planet<T>>, t: ResourceType, more: nat, less: nat)
    requires less <= more
    requires HasResourceAmount(ps, Resource(t, more))
    ensures HasResourceAmount(ps, Resource(t, less))
  {
    var all := ResourcesAvailable(ps);
    var k :| 0 <= k < |all| && Satisfies(all[k], Resource(t, more));
    assert Satisfies(all[k], Resource(t, less));
  }

  /** Amounts in different entries are not added up: two entries of five do not meet a
      request for ten. */
  lemma AmountsNotSummed(t: ResourceType)
    ensures !AnySatisfies([Resource(t, 5), Resource(t, 5)], Resource(t, 10))
  {
  }

  // ---------------------------------------------------------------- locations

  /** Dictionary add of every entry of `m` into `acc`; fails iff a key is already there. */
  function AddAll<K, V>(acc: map<K, V>, m: map<K, V>): Merge<K, V>
  {
    if acc.Keys !! m.Keys then Merged(acc + m) else DuplicateKey
  }

  function MergeAll<K, V>(ms: seq<map<K, V>>): Merge<K, V>
    decreases |ms|
  {
    if ms == [] then Merged(map[])
    else
      match MergeAll(ms[..|ms| - 1])
      case DuplicateKey => DuplicateKey
      case Merged(acc) => AddAll(acc, ms[|ms| - 1])
  }

  /** The inner loop of both variants: `Dictionary.Add` of each entry of `entries` into
      `acc`, in any order, failing at the first key already present. */
  method AddEach<K, V>(acc: map<K, V>, entries: map<K, V>) returns (r: Merge<K, V>)
    ensures r == AddAll(acc, entries)
  {
    var merged := acc;
    var pending := entries.Keys;
    while pending != {}
      invariant pending <= entries.Keys
      invariant acc.Keys !! (entries - pending).Keys
      invariant merged == acc + (entries - pending)
      decreases |pending|
    {
      var k :| k in pending;
      if k in merged {
        assert k in acc && k in entries;
        return DuplicateKey;
      }
      AddOneMore(acc, entries, pending, k);
      merged := merged[k := entries[k]];
      pending := pending - {k};
    }
    assert entries - {} == entries;
    return Merged(merged);
  }

  /** Adding the entry of one more pending key extends the partial union by that entry. */
  lemma AddOneMore<K, V>(acc: map<K, V>, entries: map<K, V>, pending: set<K>, k: K)
    requires pending <= entries.Keys && k in pending && k !in acc
    requires acc.Keys !! (entries - pending).Keys
    ensures acc.Keys !! (entries - (pending - {k})).Keys
    ensures (acc + (entries - pending))[k := entries[k]] == acc + (entries - (pending - {k}))
  {
  }

  predicate PairwiseDisjoint<K, V>(ms: seq<map<K, V>>)
  {
    forall i, j :: 0 <= i < j < |ms| ==> ms[i].Keys !! ms[j].Keys
  }

  /** Merging succeeds iff no key occurs in two maps; it then holds every key of every
      map, bound to that map's value. */
  lemma {:induction false} MergeAllSpec<K, V>(ms: seq<map<K, V>>)
    ensures MergeAll(ms).Merged? <==> PairwiseDisjoint(ms)
    ensures MergeAll(ms).Merged? ==>
      forall k :: k in MergeAll(ms).entries <==> exists i :: 0 <= i < |ms| && k in ms[i]
    ensures MergeAll(ms).Merged? ==>
      forall i, k :: 0 <= i < |ms| && k in ms[i] ==> MergeAll(ms).entries[k] == ms[i][k]
    decreases |ms|
  {
    if ms != [] {
      var n := |ms| - 1;
      var front := ms[..n];
      MergeAllSpec(front);
      assert forall i :: 0 <= i < n ==> front[i] == ms[i];
      match MergeAll(front)
      case DuplicateKey =>
        var i, j :| 0 <= i < j < n && !(front[i].Keys !! front[j].Keys);
        assert !(ms[i].Keys !! ms[j].Keys);
      case Merged(acc) =>
        if acc.Keys !! ms[n].Keys {
          assert MergeAll(ms) == Merged(acc + ms[n]);
          forall i, j | 0 <= i < j < |ms| ensures ms[i].Keys !! ms[j].Keys {
            if j == n {
              forall k | k in ms[i] ensures k !in ms[j] {
                assert k in acc;
              }
            }
          }
          forall k | k in acc + ms[n] ensures exists i :: 0 <= i < |ms| && k in ms[i] {
            if k !in ms[n] {
              var i :| 0 <= i < n && k in front[i];
              assert k in ms[i];
            }
          }
        } else {
          var k :| k in acc && k in ms[n];
          var i :| 0 <= i < n && k in front[i];
          assert !(ms[i].Keys !! ms[n].Keys);
        }
    }
  }

  /** Two planets that share a key make the merge fail. */
  lemma SharedKeyFails<T>(ps: seq<Planet<T>>, i: nat, j: nat, k: Resource)
    requires i < j < |ps|
    requires k in ps[i].resourceLocations && k in ps[j].resourceLocations
    ensures ResourceLocations(ps) == DuplicateKey
  {
    MergeAllSpec(LocationMaps(ps));
  }

  /** With disjoint keys the result holds exactly the planets' keys, each bound to its own
      planet's storage node. */
  lemma DisjointLocations<T>(ps: seq<Planet<T>>)
    requires PairwiseDisjoint(LocationMaps(ps))
    ensures ResourceLocations(ps).Merged?
    ensures forall k :: k in ResourceLocations(ps).entries <==>
      exists i :: 0 <= i < |ps| && k in ps[i].resourceLocations
    ensures forall i, k :: 0 <= i < |ps| && k in ps[i].resourceLocations ==>
      ResourceLocations(ps).entries[k] == ps[i].resourceLocations[k]
  {
    MergeAllSpec(LocationMaps(ps));
  }

  lemma ResourceLocationsSnoc<T>(ps: seq<Planet<T>>, i: nat)
    requires i < |ps|
    ensures ResourceLocations(ps[..i + 1]) ==
      match ResourceLocations(ps[..i])
      case DuplicateKey => DuplicateKey
      case Merged(acc) => AddAll(acc, ps[i].resourceLocations)
  {
    assert LocationMaps(ps[..i + 1])[..i] == LocationMaps(ps[..i]);
  }

  /** Once a prefix of the planets collides, the whole system does. */
  lemma CollisionPersists<T>(ps: seq<Planet<T>>, n: nat)
    requires n <= |ps|
    requires ResourceLocations(ps[..n]) == DuplicateKey
    ensures ResourceLocations(ps) == DuplicateKey
  {
    MergeAllSpec(LocationMaps(ps[..n]));
    MergeAllSpec(LocationMaps(ps));
    var i, j :| 0 <= i < j < n && !(LocationMaps(ps[..n])[i].Keys !! LocationMaps(ps[..n])[j].Keys);
    assert !(LocationMaps(ps)[i].Keys !! LocationMaps(ps)[j].Keys);
  }
}
