/** The listing itself (src/Million.Domain/Entities/Property.cs): a property owned by one
    owner, with a generated internal code, whose price and details its owner may change.
    Decimal amounts are exact integers, `Created` is a UTC instant in ticks, and the clock
    and `Guid.NewGuid` are parameters. */
module PropertyEntity {
  import opened Common

  /** The stored fields of a property. */
  datatype PropertyData = PropertyData(
    id: Guid,
    ownerId: Guid,
    name: string,
    description: string,
    address: string,
    price: int,
    codeInternal: string,
    year: int,
    created: int)

  /** What the public constructor guarantees of every property it builds, and what the mutators keep. */
  predicate Invariant(d: PropertyData) {
    !IsBlank(d.name) && !IsBlank(d.address) && !IsBlank(d.codeInternal) && d.price >= 0
  }

  function IdOf(d: PropertyData): Guid { d.id }

  /** The exception the constructor raises: the first of name, address, code and price it rejects. */
  function ConstructorFault(name: string, address: string, codeInternal: string, price: int): Option<Exception> {
    if IsBlank(name) then Some(ArgumentException("Name is required", "name"))
    else if IsBlank(address) then Some(ArgumentException("Address is required", "address"))
    else if IsBlank(codeInternal) then Some(ArgumentException("CodeInternal is required", "codeInternal"))
    // ArgumentOutOfRangeException(paramName, message) renders its message like ArgumentException
    else if price < 0 then Some(ArgumentException("Price cannot be negative", "price"))
    else None
  }

  /** The public constructor as a value: the property it stores, or the exception it throws.
      `now` is the `DateTime.UtcNow` it reads for `Created`. */
  function Construct(id: Guid, ownerId: Guid, name: string, address: string, price: int,
                     codeInternal: string, year: int, description: Option<string>, now: int): (r: Outcome<PropertyData>)
    ensures r.Returned? <==> !IsBlank(name) && !IsBlank(address) && !IsBlank(codeInternal) && price >= 0
    ensures r.Returned? ==>
      && Invariant(r.value) && r.value.id == id && r.value.ownerId == ownerId
      && r.value.name == name && r.value.address == address && r.value.price == price
      && r.value.codeInternal == codeInternal && r.value.year == year && r.value.created == now
      && r.value.description == description.GetOr("")
  {
    match ConstructorFault(name, address, codeInternal, price)
    case Some(e) => Threw(e)
    case None => Returned(PropertyData(id, ownerId, name, description.GetOr(""), address, price, codeInternal, year, now))
  }

  /** A calendar date, as `DateTime.UtcNow` is formatted by `yyyyMMdd`. */
  datatype Date = Date(year: nat, month: nat, day: nat) {
    predicate Valid() { 1 <= year <= 9999 && 1 <= month <= 12 && 1 <= day <= 31 }
  }

  /** The generated internal code "PROP-yyyyMMdd-XXXXXXXX": the date of `today` and the first
      eight hex digits of a fresh GUID, upper-cased. */
  function CodeInternal(today: Date, codeGuid: Guid): (code: string)
    ensures |code| == 22
    ensures code[..5] == "PROP-" && code[13] == '-'
    ensures forall i :: 5 <= i < 13 ==> IsDecimalDigit(code[i])
    ensures forall i :: 14 <= i < 22 ==> IsHexDigit(code[i]) && !IsAsciiLower(code[i])
  {
    var hex := GuidN(codeGuid)[..8];
    var upper := ToUpperInvariant(hex);
    assert forall i :: 0 <= i < 8 ==> IsHexDigit(upper[i]) by {
      forall i | 0 <= i < 8 ensures IsHexDigit(upper[i]) {
        assert IsHexDigit(hex[i]);
      }
    }
    "PROP-" + Digits(today.year, 4) + Digits(today.month, 2) + Digits(today.day, 2) + "-" + upper
  }

  /** `Property.Create`: a fresh code and a fresh id (drawn in that order), then the constructor. */
  function Created(name: string, description: string, address: string, price: int, year: int, ownerId: Guid,
                   codeGuid: Guid, id: Guid, today: Date, now: int): Outcome<PropertyData> {
    Construct(id, ownerId, name, address, price, CodeInternal(today, codeGuid), year, Some(description), now)
  }

  /** `ChangePrice` as a transition of the stored fields: the exception, if any, and the new fields. */
  function PriceChanged(d: PropertyData, newPrice: int): (Option<Exception>, PropertyData) {
    if newPrice < 0 then (Some(ArgumentException("Price cannot be negative", "newPrice")), d)
    else (None, d.(price := newPrice))
  }

  /** `UpdateDetails` as a transition: every argument is checked before any field is assigned. */
  function DetailsUpdated(d: PropertyData, name: string, description: Option<string>, address: string,
                          price: int, year: int): (Option<Exception>, PropertyData) {
    if IsBlank(name) then (Some(ArgumentException("Name is required", "name")), d)
    else if IsBlank(address) then (Some(ArgumentException("Address is required", "address")), d)
    else if price < 0 then (Some(ArgumentException("Price cannot be negative", "price")), d)
    else (None, d.(name := name, description := description.GetOr(""), address := address, price := price, year := year))
  }

  /** The entity object whose price and details are reassigned in place. */
  class Property {
    var id: Guid
    var ownerId: Guid
    var name: string
    var description: string
    var address: string
    var price: int
    var codeInternal: string
    var year: int
    var created: int

    function Data(): PropertyData
      reads this
    {
      PropertyData(id, ownerId, name, description, address, price, codeInternal, year, created)
    }

    /** A property with the given fields: how the store materialises a row, and how the public
        constructor ends once its checks pass. */
    constructor Load(d: PropertyData)
      ensures Data() == d
    {
      id, ownerId, name, description, address := d.id, d.ownerId, d.name, d.description, d.address;
      price, codeInternal, year, created := d.price, d.codeInternal, d.year, d.created;
    }

    /** The public constructor: a new object, or the exception it throws. */
    static method New(id: Guid, ownerId: Guid, name: string, address: string, price: int,
                      codeInternal: string, year: int, description: Option<string>, now: int)
      returns (r: Outcome<Property>)
      ensures r.Returned? ==> fresh(r.value) && Construct(id, ownerId, name, address, price, codeInternal, year, description, now) == Returned(r.value.Data())
      ensures r.Threw? ==> Construct(id, ownerId, name, address, price, codeInternal, year, description, now) == Threw(r.exception)
    {
      var built := Construct(id, ownerId, name, address, price, codeInternal, year, description, now);
      if built.Threw? {
        r := Threw(built.exception);
      } else {
        var p := new Property.Load(built.value);
        r := Returned(p);
      }
    }

    /** `Property.Create`. */
    static method Create(name: string, description: string, address: string, price: int, year: int, ownerId: Guid,
                         codeGuid: Guid, id: Guid, today: Date, now: int)
      returns (r: Outcome<Property>)
      ensures r.Returned? ==> fresh(r.value) && Created(name, description, address, price, year, ownerId, codeGuid, id, today, now) == Returned(r.value.Data())
      ensures r.Threw? ==> Created(name, description, address, price, year, ownerId, codeGuid, id, today, now) == Threw(r.exception)
    {
      var code := CodeInternal(today, codeGuid);
      r := New(id, ownerId, name, address, price, code, year, Some(description), now);
    }

    method ChangePrice(newPrice: int) returns (thrown: Option<Exception>)
      modifies this
      ensures (thrown, Data()) == PriceChanged(old(Data()), newPrice)
    {
      if newPrice < 0 {
        thrown := Some(ArgumentException("Price cannot be negative", "newPrice"));
        return;
      }
      price := newPrice;
      thrown := None;
    }

    method UpdateDetails(name: string, description: Option<string>, address: string, price: int, year: int)
      returns (thrown: Option<Exception>)
      modifies this
      ensures (thrown, Data()) == DetailsUpdated(old(Data()), name, description, address, price, year)
    {
      if IsBlank(name) {
        return Some(ArgumentException("Name is required", "name"));
      }
      if IsBlank(address) {
        return Some(ArgumentException("Address is required", "address"));
      }
      if price < 0 {
        return Some(ArgumentException("Price cannot be negative", "price"));
      }
      this.name := name;
      this.description := description.GetOr("");
      this.address := address;
      this.price := price;
      this.year := year;
      thrown := None;
    }
  }

  // ---------------------------------------------------------------------------
  // Properties of the entity

  /** The constructor checks name, address, code and price in that order: each rejection names the
      first failing argument, whatever the later ones are. */
  lemma ConstructorCheckOrder(id: Guid, ownerId: Guid, name: string, address: string, price: int,
                              codeInternal: string, year: int, description: Option<string>, now: int)
    ensures var r := Construct(id, ownerId, name, address, price, codeInternal, year, description, now);
      IsBlank(name) ==> r == Threw(ArgumentException("Name is required", "name"))
    ensures var r := Construct(id, ownerId, name, address, price, codeInternal, year, description, now);
      !IsBlank(name) && IsBlank(address) ==> r == Threw(ArgumentException("Address is required", "address"))
    ensures var r := Construct(id, ownerId, name, address, price, codeInternal, year, description, now);
      !IsBlank(name) && !IsBlank(address) && IsBlank(codeInternal) ==> r == Threw(ArgumentException("CodeInternal is required", "codeInternal"))
    ensures var r := Construct(id, ownerId, name, address, price, codeInternal, year, description, now);
      !IsBlank(name) && !IsBlank(address) && !IsBlank(codeInternal) && price < 0 ==> r == Threw(ArgumentException("Price cannot be negative", "price"))
  {
  }

  /** A price of zero is accepted, and the year takes part in no check: any year is stored as given. */
  lemma ZeroPriceAnyYear(id: Guid, ownerId: Guid, name: string, address: string, codeInternal: string,
                         year: int, otherYear: int, description: Option<string>, now: int)
    requires !IsBlank(name) && !IsBlank(address) && !IsBlank(codeInternal)
    ensures Construct(id, ownerId, name, address, 0, codeInternal, year, description, now).Returned?
    ensures Construct(id, ownerId, name, address, 0, codeInternal, year, description, now).value.year == year
    ensures Construct(id, ownerId, name, address, 0, codeInternal, otherYear, description, now).Returned?
  {
  }

  /** A generated code is never blank, so `Create` only ever rejects the name, the address or the price;
      and the stored owner is the one given. */
  lemma CreateRejects(name: string, description: string, address: string, price: int, year: int, ownerId: Guid,
                      codeGuid: Guid, id: Guid, today: Date, now: int)
    ensures Created(name, description, address, price, year, ownerId, codeGuid, id, today, now).Returned?
      <==> !IsBlank(name) && !IsBlank(address) && price >= 0
    ensures Created(name, description, address, price, year, ownerId, codeGuid, id, today, now).Returned? ==>
      Created(name, description, address, price, year, ownerId, codeGuid, id, today, now).value.ownerId == ownerId
      && Created(name, description, address, price, year, ownerId, codeGuid, id, today, now).value.description == description
  {
    var code := CodeInternal(today, codeGuid);
    assert code[0] == 'P' && !IsWhiteSpace(code[0]);
  }

  /** The date in a generated code reads back as the date it was generated on. */
  lemma {:induction false} CodeInternalDate(today: Date, codeGuid: Guid)
    requires today.Valid()
    ensures ParseDigits(CodeInternal(today, codeGuid)[5..9]) == today.year
    ensures ParseDigits(CodeInternal(today, codeGuid)[9..11]) == today.month
    ensures ParseDigits(CodeInternal(today, codeGuid)[11..13]) == today.day
  {
    var code := CodeInternal(today, codeGuid);
    var y, m, d := Digits(today.year, 4), Digits(today.month, 2), Digits(today.day, 2);
    assert code == "PROP-" + y + m + d + "-" + ToUpperInvariant(GuidN(codeGuid)[..8]);
    assert code[5..9] == y && code[9..11] == m && code[11..13] == d;
    assert Pow(10, 4) == 10000 && Pow(10, 2) == 100;
    DigitsRoundTrip(today.year, 4);
    DigitsRoundTrip(today.month, 2);
    DigitsRoundTrip(today.day, 2);
  }

  /** `ChangePrice` with a negative price throws and changes nothing; otherwise it changes the price
      and no other field. */
  lemma ChangePriceEffect(d: PropertyData, newPrice: int)
    ensures PriceChanged(d, newPrice).0.Some? <==> newPrice < 0
    ensures newPrice < 0 ==> PriceChanged(d, newPrice).1 == d
    ensures newPrice >= 0 ==> PriceChanged(d, newPrice).1 == d.(price := newPrice)
  {
  }

  /** `UpdateDetails` is all or nothing: a rejected call changes no field; an accepted one replaces
      exactly name, description, address, price and year. Id, owner, code and creation time never change. */
  lemma UpdateDetailsEffect(d: PropertyData, name: string, description: Option<string>, address: string, price: int, year: int)
    ensures DetailsUpdated(d, name, description, address, price, year).0.Some? <==> IsBlank(name) || IsBlank(address) || price < 0
    ensures DetailsUpdated(d, name, description, address, price, year).0.Some? ==> DetailsUpdated(d, name, description, address, price, year).1 == d
    ensures var e := DetailsUpdated(d, name, description, address, price, year).1;
      e.id == d.id && e.ownerId == d.ownerId && e.codeInternal == d.codeInternal && e.created == d.created
    ensures DetailsUpdated(d, name, description, address, price, year).0.None? ==>
      var e := DetailsUpdated(d, name, description, address, price, year).1;
      e.name == name && e.description == description.GetOr("") && e.address == address && e.price == price && e.year == year
  {
  }

  /** Neither mutator can break what the constructor established. */
  lemma MutatorsKeepInvariant(d: PropertyData, newPrice: int, name: string, description: Option<string>, address: string, price: int, year: int)
    requires Invariant(d)
    ensures Invariant(PriceChanged(d, newPrice).1)
    ensures Invariant(DetailsUpdated(d, name, description, address, price, year).1)
  {
  }
}
