/** The star system's resource queries in the variant that names resource types by
    ResourceType and builds every answer with an explicit loop. */
module StarLoop {
  import opened Resources
  import opened Storage
  import SystemQueries

  class Star {
    var planets: seq<SystemQueries.Planet<ResourceType>>

    constructor (planets: seq<SystemQueries.Planet<ResourceType>>)
      ensures this.planets == planets
    {
      this.planets := planets;
    }

    /** Appends each planet's list in turn; duplicates are kept. */
    method ResourceTypesAvailable() returns (result: seq<ResourceType>)
      ensures result == SystemQueries.TypesAvailable(planets)
    {
      result := [];
      for i := 0 to |planets|
        invariant result == SystemQueries.TypesAvailable(planets[..i])
      {
        SystemQueries.TypesAvailableSnoc(planets, i);
        result := result + planets[i].resourceTypesAvailable;
      }
      assert planets[..|planets|] == planets;
    }

    /** Appends each planet's stored resources in turn. */
    method ResourcesAvailable() returns (result: seq<Resource>)
      ensures result == SystemQueries.ResourcesAvailable(planets)
    {
      result := [];
      for i := 0 to |planets|
        invariant result == SystemQueries.ResourcesAvailable(planets[..i])
      {
        SystemQueries.ResourcesAvailableSnoc(planets, i);
        result := result + planets[i].storedResources;
      }
      assert planets[..|planets|] == planets;
    }

    /** Scans the stored resources and answers true at the first entry meeting the request. */
    method HasResourceAmount(resource: Resource) returns (found: bool)
      ensures found == SystemQueries.HasResourceAmount(planets, resource)
    {
      var available := ResourcesAvailable();
      for i := 0 to |available|
        invariant forall j :: 0 <= j < i ==> !SystemQueries.Satisfies(available[j], resource)
      {
        if available[i].kind == resource.kind && available[i].amount >= resource.amount {
          return true;
        }
      }
      return false;
    }

    /** Adds every planet's entries one by one; an add of a present key fails the whole query. */
    method ResourceLocations() returns (result: SystemQueries.Merge<Resource, StorageNode>)
      ensures result == SystemQueries.ResourceLocations(planets)
    {
      var merged: map<Resource, StorageNode> := map[];
      for i := 0 to |planets|
        invariant SystemQueries.ResourceLocations(planets[..i]) == SystemQueries.Merged(merged)
      {
        SystemQueries.ResourceLocationsSnoc(planets, i);
        var added := SystemQueries.AddEach(merged, planets[i].resourceLocations);
        if added.DuplicateKey? {
          SystemQueries.CollisionPersists(planets, i + 1);
          return SystemQueries.DuplicateKey;
        }
        merged := added.entries;
      }
      assert planets[..|planets|] == planets;
      result := SystemQueries.Merged(merged);
    }
  }

  /** For planets that answer alike (the same stored resources and locations, and type
      lists that differ only in how a type is named), this variant and the string-typed
      variant compute the same resources, the same availability answer and the same
      locations, and their type lists correspond name for name. */
  lemma {:induction false} AgreesWithLinqVariant(
      ps: seq<SystemQueries.Planet<ResourceType>>,
      qs: seq<SystemQueries.Planet<string>>,
      name: ResourceType -> string,
      request: Resource)
    requires |ps| == |qs|
    requires forall i :: 0 <= i < |ps| ==>
      qs[i].storedResources == ps[i].storedResources &&
      qs[i].resourceLocations == ps[i].resourceLocations &&
      qs[i].resourceTypesAvailable == SystemQueries.Rename(name, ps[i].resourceTypesAvailable)
    ensures SystemQueries.ResourcesAvailable(qs) == SystemQueries.ResourcesAvailable(ps)
    ensures SystemQueries.HasResourceAmount(qs, request) == SystemQueries.HasResourceAmount(ps, request)
    ensures SystemQueries.ResourceLocations(qs) == SystemQueries.ResourceLocations(ps)
    ensures SystemQueries.TypesAvailable(qs) == SystemQueries.Rename(name, SystemQueries.TypesAvailable(ps))
  {
    assert SystemQueries.StoredLists(qs) == SystemQueries.StoredLists(ps);
    assert SystemQueries.LocationMaps(qs) == SystemQueries.LocationMaps(ps);
    SystemQueries.FlattenRename(name, SystemQueries.TypeLists(ps), SystemQueries.TypeLists(qs));
  }
}
