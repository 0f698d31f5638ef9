/**
 * EnumValidator: the `@ValidEnum` constraint. A null value passes; any other must be,
 * case-sensitively, the name of a constant of the enum class the annotation names.
 */
module EnumValidator {
  import opened ErrorModel
  import opened PropertyModel

  /** An enum class, as far as the validator reads it: the names of its constants in order. */
  datatype EnumClass = EnumClass(constantNames: seq<string>)

  /** The `@ValidEnum` annotation attributes the validator reads. */
  datatype ValidEnum = ValidEnum(enumClass: EnumClass, message: string)

  /** `PropertyType.class`. */
  const PropertyTypeClass: EnumClass :=
    EnumClass(seq(|PropertyTypeConstants|, i requires 0 <= i < |PropertyTypeConstants| => PropertyTypeConstants[i].Name()))

  /**
   * `Arrays.stream(constants).anyMatch(e -> e.name().equals(value))`: the search finds a
   * value exactly when it is one of the names.
   */
  function AnyNameMatches(names: seq<string>, value: string): (b: bool)
    ensures b <==> value in names
  {
    if names == [] then false
    else
      var rest := AnyNameMatches(names[1..], value);
      assert names == [names[0]] + names[1..];
      names[0] == value || rest
  }

  /** The order of the constants does not affect the answer. */
  lemma AnyNameMatchesOrderIndependent(names: seq<string>, others: seq<string>, value: string)
    requires multiset(names) == multiset(others)
    ensures AnyNameMatches(names, value) == AnyNameMatches(others, value)
  {
    assert value in names <==> value in multiset(names);
    assert value in others <==> value in multiset(others);
  }

  class EnumValidator {
    /** The enum class stored by `initialize`; unset before it. */
    var enumClass: Option<EnumClass>

    constructor()
      ensures enumClass.None?
    {
      enumClass := None;
    }

    /** `initialize(annotation)`: remembers the annotation's enum class. */
    method Initialize(annotation: ValidEnum)
      modifies this`enumClass
      ensures enumClass == Some(annotation.enumClass)
    {
      enumClass := Some(annotation.enumClass);
    }

    /**
     * `isValid(value, context)`, on an initialized validator: null is valid, and any other
     * value is valid exactly when it is the name of a constant of the stored class.
     */
    function IsValid(value: Option<string>): (b: bool)
      reads this
      requires enumClass.Some?
      ensures value.None? ==> b
      ensures value.Some? ==> (b <==> value.value in enumClass.value.constantNames)
    {
      if value.None? then true
      else
        AnyNameMatches(enumClass.value.constantNames, value.value)
    }
  }

  /**
   * For PropertyType the accepted non-null values are exactly the four constant names, so
   * a lower-case spelling is refused.
   */
  lemma PropertyTypeAccepted(v: EnumValidator, s: string)
    requires v.enumClass == Some(PropertyTypeClass)
    ensures v.IsValid(Some(s)) <==> s == "APARTMENT" || s == "HOUSE" || s == "COMMERCIAL" || s == "VILLA"
    ensures !v.IsValid(Some("apartment"))
  {
    assert PropertyTypeClass.constantNames == ["APARTMENT", "HOUSE", "COMMERCIAL", "VILLA"];
  }

  /** Every non-null value the PropertyType validator accepts is parsed by `valueOf`. */
  lemma AcceptedValueParses(v: EnumValidator, s: string)
    requires v.enumClass == Some(PropertyTypeClass)
    requires v.IsValid(Some(s))
    ensures ValueOf(Some(s)).Ok? && ValueOf(Some(s)).value.Name() == s
  {
    PropertyTypeAccepted(v, s);
  }
}
