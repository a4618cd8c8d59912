/** The commands that create and change properties and the validators the validation stage
    runs on three of them (src/Million.Application/Properties/Commands). Each validator is the
    list of its failure messages, rule after rule; the clock it reads is a parameter. */
module PropertyCommandValidators {
  import opened Common
  import opened ValidationBehavior
  import opened PropertyEntity

  datatype CreatePropertyCommand = CreatePropertyCommand(
    name: string, description: string, address: string, price: int, year: int, images: Option<seq<string>>)

  datatype UpdatePropertyCommand = UpdatePropertyCommand(
    propertyId: Guid, name: string, description: string, address: string, price: int, year: int)

  datatype UpdatePropertyPriceCommand = UpdatePropertyPriceCommand(propertyId: Guid, newPrice: int)

  datatype DeletePropertyCommand = DeletePropertyCommand(propertyId: Guid)

  const MaxPrice: int := 99_999_999_999

  /** What `CreatePropertyValidator` accepts; `currentYear` is `DateTime.Now.Year`. */
  predicate CreatePropertyAccepted(c: CreatePropertyCommand, currentYear: int) {
    && !IsBlank(c.name) && Utf16Length(c.name) <= 200
    && Utf16Length(c.description) <= 1000
    && !IsBlank(c.address) && Utf16Length(c.address) <= 500
    && 0 < c.price <= MaxPrice
    && 1800 < c.year <= currentYear + 5
  }

  /** The rule on the name: required, at most 200 characters. */
  function NameRule(name: string): (r: seq<string>)
    ensures "Property name is required" in r <==> IsBlank(name)
    ensures "Property name cannot exceed 200 characters" in r <==> Utf16Length(name) > 200
    ensures forall m :: m in r ==> m == "Property name is required" || m == "Property name cannot exceed 200 characters"
  {
    RequiredText(name, 200, "Property name is required", "Property name cannot exceed 200 characters")
  }

  /** The rule on the description: at most 1000 characters, and an empty description passes. */
  function DescriptionRule(description: string): (r: seq<string>)
    ensures r == [] <==> Utf16Length(description) <= 1000
    ensures r != [] ==> r == ["Description cannot exceed 1000 characters"]
  {
    Rule(Utf16Length(description) > 1000, "Description cannot exceed 1000 characters")
  }

  /** The rule on the address: required, at most 500 characters. */
  function AddressRule(address: string): (r: seq<string>)
    ensures "Address is required" in r <==> IsBlank(address)
    ensures "Address cannot exceed 500 characters" in r <==> Utf16Length(address) > 500
    ensures forall m :: m in r ==> m == "Address is required" || m == "Address cannot exceed 500 characters"
  {
    RequiredText(address, 500, "Address is required", "Address cannot exceed 500 characters")
  }

  /** The rule on the price: above zero, at most 99,999,999,999. */
  function PriceRule(price: int): (r: seq<string>)
    ensures "Price must be greater than 0" in r <==> price <= 0
    ensures "Price cannot exceed 99,999,999,999" in r <==> price > MaxPrice
    ensures forall m :: m in r ==> m == "Price must be greater than 0" || m == "Price cannot exceed 99,999,999,999"
  {
    Rule(price <= 0, "Price must be greater than 0") + Rule(price > MaxPrice, "Price cannot exceed 99,999,999,999")
  }

  /** The rule on the year: after 1800, at most five years ahead of `currentYear`. */
  function YearRule(year: int, currentYear: int): (r: seq<string>)
    ensures "Year must be greater than 1800" in r <==> year <= 1800
    ensures "Year cannot be more than 5 years in the future" in r <==> year > currentYear + 5
    ensures forall m :: m in r ==> m == "Year must be greater than 1800" || m == "Year cannot be more than 5 years in the future"
  {
    Rule(year <= 1800, "Year must be greater than 1800") + Rule(year > currentYear + 5, "Year cannot be more than 5 years in the future")
  }

  /** `CreatePropertyValidator`: the rules on name, description, address, price and year, in that order. */
  function CreatePropertyFailures(c: CreatePropertyCommand, currentYear: int): (r: seq<string>)
    ensures r == [] <==> CreatePropertyAccepted(c, currentYear)
    ensures forall m :: m in r <==>
      || m in NameRule(c.name) || m in DescriptionRule(c.description) || m in AddressRule(c.address)
      || m in PriceRule(c.price) || m in YearRule(c.year, currentYear)
  {
    NameRule(c.name)
    + DescriptionRule(c.description)
    + AddressRule(c.address)
    + PriceRule(c.price)
    + YearRule(c.year, currentYear)
  }

  /** `UpdatePropertyPriceValidator`: a non-empty property id and a price not below zero. */
  function UpdatePropertyPriceFailures(c: UpdatePropertyPriceCommand): (r: seq<string>)
    ensures r == [] <==> c.propertyId != EmptyGuid && c.newPrice >= 0
    ensures "PropertyId is required." in r <==> c.propertyId == EmptyGuid
    ensures "Price must be greater than or equal to zero." in r <==> c.newPrice < 0
    ensures c.propertyId == EmptyGuid && c.newPrice < 0 ==> |r| == 2
    ensures |r| <= 2
  {
    Rule(c.propertyId == EmptyGuid, "PropertyId is required.")
    + Rule(c.newPrice < 0, "Price must be greater than or equal to zero.")
  }

  /** `DeletePropertyValidator`: one rule, on the property id. */
  function DeletePropertyFailures(c: DeletePropertyCommand): (r: seq<string>)
    ensures r == [] <==> c.propertyId != EmptyGuid
    ensures r != [] ==> r == ["Property ID is required"]
  {
    Rule(c.propertyId == EmptyGuid, "Property ID is required")
  }

  // ---------------------------------------------------------------------------

  /** An accepted create command gets past the entity's constructor whatever code and id it is
      given, and the property it builds is priced above zero, which the entity alone does not require. */
  lemma AcceptedCreateIsConstructible(c: CreatePropertyCommand, currentYear: int, ownerId: Guid, codeGuid: Guid,
                                      id: Guid, today: Date, now: int)
    requires CreatePropertyAccepted(c, currentYear)
    ensures Created(c.name, c.description, c.address, c.price, c.year, ownerId, codeGuid, id, today, now).Returned?
    ensures Created(c.name, c.description, c.address, c.price, c.year, ownerId, codeGuid, id, today, now).value.price > 0
  {
    var code := CodeInternal(today, codeGuid);
    assert code[0] == 'P' && !IsWhiteSpace(code[0]);
  }

  /** A zero price is refused by the validator though the entity would store it. */
  lemma ZeroPriceOnlyRefusedByValidator(c: CreatePropertyCommand, currentYear: int, id: Guid, ownerId: Guid, codeInternal: string, now: int)
    requires c.price == 0 && !IsBlank(c.name) && !IsBlank(c.address) && !IsBlank(codeInternal)
    ensures "Price must be greater than 0" in CreatePropertyFailures(c, currentYear)
    ensures Construct(id, ownerId, c.name, c.address, c.price, codeInternal, c.year, Some(c.description), now).Returned?
  {
  }

  /** The image list is not looked at. */
  lemma ImagesNotValidated(c: CreatePropertyCommand, currentYear: int, images: Option<seq<string>>)
    ensures CreatePropertyFailures(c.(images := images), currentYear) == CreatePropertyFailures(c, currentYear)
  {
  }

  /** An accepted price change never makes `ChangePrice` throw; zero is an accepted price. */
  lemma AcceptedPriceIsStored(c: UpdatePropertyPriceCommand, d: PropertyData)
    requires UpdatePropertyPriceFailures(c) == []
    ensures PriceChanged(d, c.newPrice) == (None, d.(price := c.newPrice))
    ensures UpdatePropertyPriceFailures(c.(newPrice := 0)) == []
  {
  }
}
