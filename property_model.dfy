/**
 * The property entity and its type enumeration, with `PropertyType.valueOf` as Java's
 * `Enum.valueOf` behaves on it.
 */
module PropertyModel {
  import opened ErrorModel
  import opened Exceptions

  /** PropertyType.java, constants in declaration order. */
  datatype PropertyType = Apartment | House | Commercial | Villa
  {
    /** `name()`: the declared constant name. */
    function Name(): string
    {
      match this
      case Apartment => "APARTMENT"
      case House => "HOUSE"
      case Commercial => "COMMERCIAL"
      case Villa => "VILLA"
    }
  }

  /** `PropertyType.values()`. */
  const PropertyTypeConstants: seq<PropertyType> := [Apartment, House, Commercial, Villa]

  /**
   * `PropertyType.valueOf(name)`: the constant with exactly that name (case matters); a
   * null name raises NullPointerException and an unknown one IllegalArgumentException.
   */
  function ValueOf(name: Option<string>): (r: Result<PropertyType, Exception>)
    ensures name.None? ==> r == Err(NullPointerException("Name is null"))
    ensures r.Ok? ==> name == Some(r.value.Name())
    ensures forall t: PropertyType :: name == Some(t.Name()) ==> r == Ok(t)
    ensures name.Some? && (forall t: PropertyType :: t.Name() != name.value) ==>
      r == Err(IllegalArgumentException(
        "No enum constant dev.ganeshpalankar.rentals_backend.property.model.PropertyType." + name.value))
  {
    match name
    case None => Err(NullPointerException("Name is null"))
    case Some(n) =>
      if n == "APARTMENT" then Ok(Apartment)
      else if n == "HOUSE" then Ok(House)
      else if n == "COMMERCIAL" then Ok(Commercial)
      else if n == "VILLA" then Ok(Villa)
      else Err(IllegalArgumentException(
        "No enum constant dev.ganeshpalankar.rentals_backend.property.model.PropertyType." + n))
  }

  /** `valueOf` inverts `name()`: every constant is found again by its name. */
  lemma ValueOfName(t: PropertyType)
    ensures ValueOf(Some(t.Name())) == Ok(t)
  {
  }

  /** Property.java: id and timestamps are absent until the store has saved the entity. */
  datatype Property = Property(
    id: Option<nat>,
    ownerId: int,
    propertyName: Option<string>,
    address: Option<string>,
    propertyType: PropertyType,
    createdAt: Option<Instant>,
    updatedAt: Option<Instant>,
    createdBy: int)
}
