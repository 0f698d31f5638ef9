/** PropertyMapper: the entity as the API returns it. */
module PropertyMapper {
  import opened ErrorModel
  import opened PropertyModel
  import opened PropertyService
  import opened EnumValidator

  /** PropertyResponse.java: the type travels as its constant name. */
  datatype PropertyResponse = PropertyResponse(
    id: Option<nat>,
    propertyName: Option<string>,
    address: Option<string>,
    propertyType: string,
    ownerId: int,
    createdAt: Option<Instant>,
    updatedAt: Option<Instant>)

  /**
   * `toResponse`: null for null; otherwise every field copied unchanged, and a type name
   * that `valueOf` turns back into the entity's type.
   */
  function ToResponse(property: Option<Property>): (r: Option<PropertyResponse>)
    ensures r.None? <==> property.None?
    ensures r.Some? ==>
      && r.value.id == property.value.id && r.value.ownerId == property.value.ownerId
      && r.value.propertyName == property.value.propertyName && r.value.address == property.value.address
      && r.value.createdAt == property.value.createdAt && r.value.updatedAt == property.value.updatedAt
      && ValueOf(Some(r.value.propertyType)) == Ok(property.value.propertyType)
  {
    match property
    case None => None
    case Some(p) =>
      ValueOfName(p.propertyType);
      Some(PropertyResponse(p.id, p.propertyName, p.address, p.propertyType.Name(), p.ownerId, p.createdAt, p.updatedAt))
  }

  /**
   * A request whose type the PropertyType validator accepts is built without failure, and
   * the mapped property reports the request's type string and the caller as owner.
   */
  lemma CreateThenMap(v: EnumValidator, request: CreatePropertyRequest, ownerId: int, now: Instant, id: nat)
    requires v.enumClass == Some(PropertyTypeClass)
    requires request.propertyType.Some? && v.IsValid(request.propertyType)
    ensures BuildProperty(request, ownerId).Ok?
    ensures var p := BuildProperty(request, ownerId).value.(id := Some(id), createdAt := Some(now), updatedAt := Some(now));
      && ToResponse(Some(p)).value.propertyType == request.propertyType.value
      && ToResponse(Some(p)).value.ownerId == ownerId
      && ToResponse(Some(p)).value.propertyName == request.propertyName
      && ToResponse(Some(p)).value.address == request.address
  {
    AcceptedValueParses(v, request.propertyType.value);
  }
}
