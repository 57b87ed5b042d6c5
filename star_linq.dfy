/** The star system's resource queries in the variant that names resource types by
    string and aggregates with LINQ (SelectMany, Exists) where it can. */
module StarLinq {
  import opened Resources
  import opened Storage
  import SystemQueries

  /** LINQ SelectMany: the lists `f` gives for the elements, concatenated in order. */
  function SelectMany<X, Y>(xs: seq<X>, f: X -> seq<Y>): (r: seq<Y>)
    ensures r == SystemQueries.Flatten(SystemQueries.Rename(f, xs))
  {
    if xs == [] then []
    else
      assert SystemQueries.Rename(f, xs)[1..] == SystemQueries.Rename(f, xs[1..]);
      f(xs[0]) + SelectMany(xs[1..], f)
  }

  /** List.Exists: whether some element satisfies `p`. */
  function Exists<X>(xs: seq<X>, p: X -> bool): (b: bool)
    ensures b <==> exists i :: 0 <= i < |xs| && p(xs[i])
  {
    if xs == [] then false
    else
      assert forall i :: 0 < i < |xs| ==> xs[i] == xs[1..][i - 1];
      p(xs[0]) || Exists(xs[1..], p)
  }

  class Star {
    var planets: seq<SystemQueries.Planet<string>>

    constructor (planets: seq<SystemQueries.Planet<string>>)
      ensures this.planets == planets
    {
      this.planets := planets;
    }

    /** Appends each planet's list in turn; duplicates are kept. */
    method ResourceTypesAvailable() returns (result: seq<string>)
      ensures result == SystemQueries.TypesAvailable(planets)
    {
      result := [];
      for i := 0 to |planets|
        invariant result == SystemQueries.TypesAvailable(planets[..i])
      {
        SystemQueries.TypesAvailableSnoc(planets, i);
        result := result + planets[i].resourceTypesAvailable;
      }
      assert planets[..|planets|] == planets;
    }

    function ResourcesAvailable(): (r: seq<Resource>)
      reads this
      ensures r == SystemQueries.ResourcesAvailable(planets)
    {
      assert SystemQueries.Rename((p: SystemQueries.Planet<string>) => p.storedResources, planets)
          == SystemQueries.StoredLists(planets);
      SelectMany(planets, (p: SystemQueries.Planet<string>) => p.storedResources)
    }

    function HasResourceAmount(resource: Resource): (b: bool)
      reads this
      ensures b == SystemQueries.HasResourceAmount(planets, resource)
    {
      Exists(ResourcesAvailable(), (r: Resource) => r.kind == resource.kind && r.amount >= resource.amount)
    }

    /** Adds every planet's entries one by one; an add of a present key fails the whole query. */
    method ResourceLocations() returns (result: SystemQueries.Merge<Resource, StorageNode>)
      ensures result == SystemQueries.ResourceLocations(planets)
    {
      var merged: map<Resource, StorageNode> := map[];
      for i := 0 to |planets|
        invariant SystemQueries.ResourceLocations(planets[..i]) == SystemQueries.Merged(merged)
      {
        SystemQueries.ResourceLocationsSnoc(planets, i);
        var added := SystemQueries.AddEach(merged, planets[i].resourceLocations);
        if added.DuplicateKey? {
          SystemQueries.CollisionPersists(planets, i + 1);
          return SystemQueries.DuplicateKey;
        }
        merged := added.entries;
      }
      assert planets[..|planets|] == planets;
      result := SystemQueries.Merged(merged);
    }
  }
}
