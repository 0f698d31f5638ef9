/**
 * PropertyService: creating a property for its owner and reading one back, over the
 * property store. The store assigns the id and, as the entity's `@PrePersist` hook does,
 * both timestamps.
 */
module PropertyService {
  import opened ErrorModel
  import opened Exceptions
  import opened PropertyModel

  /** CreatePropertyRequest.java: three nullable strings. */
  datatype CreatePropertyRequest = CreatePropertyRequest(
    propertyName: Option<string>,
    address: Option<string>,
    propertyType: Option<string>)

  /**
   * The entity `createProperty` fills before saving it: owner and creator are the given
   * owner, name and address are the request's, and the type is the constant the request
   * names; a type that names no constant makes creation fail with `valueOf`'s exception.
   */
  function BuildProperty(request: CreatePropertyRequest, ownerId: int): (r: Result<Property, Exception>)
    ensures r.Ok? <==> ValueOf(request.propertyType).Ok?
    ensures r.Err? ==> r.error == ValueOf(request.propertyType).error
    ensures r.Ok? ==>
      && r.value.ownerId == ownerId && r.value.createdBy == ownerId
      && r.value.propertyName == request.propertyName && r.value.address == request.address
      && request.propertyType == Some(r.value.propertyType.Name())
      && r.value.id.None? && r.value.createdAt.None? && r.value.updatedAt.None?
  {
    match ValueOf(request.propertyType)
    case Err(e) => Err(e)
    case Ok(t) => Ok(Property(None, ownerId, request.propertyName, request.address, t, None, None, ownerId))
  }

  class PropertyRepository {
    /** The saved properties, by id. */
    var properties: map<nat, Property>
    /** The next identity value the store will assign. */
    var nextId: nat

    ghost predicate Valid()
      reads this
    {
      forall id :: id in properties ==> id < nextId && properties[id].id == Some(id)
    }

    constructor()
      ensures Valid() && properties == map[]
    {
      properties := map[];
      nextId := 1;
    }

    /** `save` of a new entity: a fresh id, and both timestamps set to `now`. */
    method Save(p: Property, now: Instant) returns (saved: Property)
      requires Valid()
      modifies this
      ensures Valid()
      ensures saved.id.Some? && saved.id.value !in old(properties)
      ensures saved == p.(id := saved.id, createdAt := Some(now), updatedAt := Some(now))
      ensures properties == old(properties)[saved.id.value := saved]
    {
      saved := p.(id := Some(nextId), createdAt := Some(now), updatedAt := Some(now));
      properties := properties[nextId := saved];
      nextId := nextId + 1;
    }

    /** `findById`: the saved property with this id, if any. */
    function FindById(id: nat): (r: Option<Property>)
      reads this
      requires Valid()
      ensures r.Some? <==> id in properties
      ensures r.Some? ==> r.value == properties[id] && r.value.id == Some(id)
    {
      if id in properties then Some(properties[id]) else None
    }
  }

  class PropertyService {
    const propertyRepository: PropertyRepository

    constructor(repository: PropertyRepository)
      ensures propertyRepository == repository
    {
      propertyRepository := repository;
    }

    /**
     * `createProperty`: exactly one save, of the entity BuildProperty describes, and the
     * saved entity is returned; when the type does not parse nothing is saved.
     */
    method CreateProperty(request: CreatePropertyRequest, ownerId: int, now: Instant) returns (r: Result<Property, Exception>)
      requires propertyRepository.Valid()
      modifies propertyRepository
      ensures propertyRepository.Valid()
      ensures BuildProperty(request, ownerId).Err? ==>
        r == BuildProperty(request, ownerId) && unchanged(propertyRepository)
      ensures BuildProperty(request, ownerId).Ok? ==>
        && r.Ok? && r.value.id.Some? && r.value.id.value !in old(propertyRepository.properties)
        && r.value == BuildProperty(request, ownerId).value.(id := r.value.id, createdAt := Some(now), updatedAt := Some(now))
        && propertyRepository.properties == old(propertyRepository.properties)[r.value.id.value := r.value]
    {
      var property := BuildProperty(request, ownerId);
      if property.Err? {
        return property;
      }
      var saved := propertyRepository.Save(property.value, now);
      return Ok(saved);
    }

    /** `getPropertyById`: the saved property, or null when the id is not in the store. */
    function GetPropertyById(propertyId: nat): (r: Option<Property>)
      reads propertyRepository
      requires propertyRepository.Valid()
      ensures r.None? <==> propertyId !in propertyRepository.properties
      ensures r.Some? ==> r.value == propertyRepository.properties[propertyId] && r.value.id == Some(propertyId)
    {
      propertyRepository.FindById(propertyId)
    }
  }
}
