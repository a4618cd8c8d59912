/** Registering an owner and reading one back (src/Million.Application/Owners): the command's
    validator, the handler that builds and stores the owner, and the lookup by id. The fresh
    owner id and the current time are parameters. */
module OwnerFeature {
  import opened Common
  import opened Results
  import opened Store
  import opened ValidationBehavior
  import opened OwnerEntity
  import opened OwnerPersistence
  import Ownership

  const CreatePrefix: string := "Error creating owner: "
  const GetPrefix: string := "Error retrieving owner: "

  /** The photo is nullable; the birthday is in ticks, 0 being `default(DateTime)`. */
  datatype CreateOwnerCommand = CreateOwnerCommand(name: string, address: string, photo: Option<string>, birthday: int)

  datatype OwnerDto = OwnerDto(id: Guid, name: string, address: string, photo: string, birthday: int)

  function DtoOf(o: OwnerData): OwnerDto {
    OwnerDto(o.id, o.name, o.address, o.photo, o.birthday)
  }

  /** What `CreateOwnerValidator` accepts at local time `now`. */
  predicate CreateOwnerAccepted(c: CreateOwnerCommand, now: int) {
    && !IsBlank(c.name) && Utf16Length(c.name) <= 100
    && !IsBlank(c.address) && Utf16Length(c.address) <= 200
    && c.birthday != 0 && c.birthday < now
    && (IsNullOrWhiteSpace(c.photo) || Utf16Length(c.photo.value) <= 500)
  }

  /** The rule on the name: required, at most 100 characters. */
  function NameRule(name: string): (r: seq<string>)
    ensures "Name is required." in r <==> IsBlank(name)
    ensures "Name must not exceed 100 characters." in r <==> Utf16Length(name) > 100
    ensures forall m :: m in r ==> m == "Name is required." || m == "Name must not exceed 100 characters."
  {
    RequiredText(name, 100, "Name is required.", "Name must not exceed 100 characters.")
  }

  /** The rule on the address: required, at most 200 characters. */
  function AddressRule(address: string): (r: seq<string>)
    ensures "Address is required." in r <==> IsBlank(address)
    ensures "Address must not exceed 200 characters." in r <==> Utf16Length(address) > 200
    ensures forall m :: m in r ==> m == "Address is required." || m == "Address must not exceed 200 characters."
  {
    RequiredText(address, 200, "Address is required.", "Address must not exceed 200 characters.")
  }

  /** The rule on the birthday: set (not `default(DateTime)`), and strictly before `now`. */
  function BirthdayRule(birthday: int, now: int): (r: seq<string>)
    ensures "Birthday is required." in r <==> birthday == 0
    ensures "Birthday must be in the past." in r <==> birthday >= now
    ensures forall m :: m in r ==> m == "Birthday is required." || m == "Birthday must be in the past."
  {
    Rule(birthday == 0, "Birthday is required.") + Rule(birthday >= now, "Birthday must be in the past.")
  }

  /** The rule on the photo: at most 500 characters, checked only when it is neither null nor blank. */
  function PhotoRule(photo: Option<string>): (r: seq<string>)
    ensures r == [] <==> IsNullOrWhiteSpace(photo) || Utf16Length(photo.value) <= 500
    ensures r != [] ==> r == ["Photo URL must not exceed 500 characters."]
  {
    Rule(!IsNullOrWhiteSpace(photo) && Utf16Length(photo.value) > 500, "Photo URL must not exceed 500 characters.")
  }

  /** `CreateOwnerValidator` at local time `now`: the rules on name, address, birthday and photo,
      in that order. */
  function CreateOwnerFailures(c: CreateOwnerCommand, now: int): (r: seq<string>)
    ensures r == [] <==> CreateOwnerAccepted(c, now)
    ensures forall m :: m in r <==>
      m in NameRule(c.name) || m in AddressRule(c.address) || m in BirthdayRule(c.birthday, now) || m in PhotoRule(c.photo)
  {
    NameRule(c.name) + AddressRule(c.address) + BirthdayRule(c.birthday, now) + PhotoRule(c.photo)
  }

  /** A blank photo of any length passes the validator: the length rule only applies to a photo
      with visible characters. */
  lemma BlankPhotoUnbounded(c: CreateOwnerCommand, now: int)
    requires c.photo.Some? && IsBlank(c.photo.value)
    ensures "Photo URL must not exceed 500 characters." !in CreateOwnerFailures(c, now)
  {
    assert "Photo URL must not exceed 500 characters." !in NameRule(c.name);
    assert "Photo URL must not exceed 500 characters." !in AddressRule(c.address);
    assert "Photo URL must not exceed 500 characters." !in BirthdayRule(c.birthday, now);
  }

  /** `CreateOwnerHandler.Handle`: the result and the new owner table. */
  function CreateOwnerOutcome(owners: Table<OwnerData>, c: CreateOwnerCommand, id: Guid): (Result<OwnerDto>, seq<OwnerData>) {
    match Construct(id, c.name, c.address, c.photo, c.birthday)
    case Threw(e) => (Ownership.Caught(CreatePrefix, e), owners.rows)
    case Returned(owner) =>
      var added := Add(owners.fault, owners.rows, IdOf, OwnerFits, owner);
      match added.0
      case Threw(e) => (Ownership.Caught(CreatePrefix, e), added.1)
      case Returned(_) => (Ok(DtoOf(owner)), added.1)
  }

  method CreateOwner(owners: OwnerRepository, c: CreateOwnerCommand, id: Guid) returns (r: Result<OwnerDto>)
    modifies owners
    ensures (r, owners.rows) == CreateOwnerOutcome(old(owners.State()), c, id)
  {
    var owner := Owner.New(id, c.name, c.address, c.photo, c.birthday);
    if owner.Threw? {
      return Ownership.Caught(CreatePrefix, owner.exception);
    }
    var added := owners.AddAsync(owner.value);
    if added.Threw? {
      return Ownership.Caught(CreatePrefix, added.exception);
    }
    return Ok(DtoOf(owner.value.Data()));
  }

  /** Registering succeeds exactly when the name and the address are not blank, the name, address
      and photo fit their columns, and the table is reachable and lacks the new id; then the one new owner, a null photo stored as empty, is
      appended and returned as its DTO. Any other answer leaves the table as it was. */
  lemma CreateOwnerEffect(owners: Table<OwnerData>, c: CreateOwnerCommand, id: Guid)
    ensures var o := CreateOwnerOutcome(owners, c, id);
      o.0.Ok? <==>
        && !IsBlank(c.name) && !IsBlank(c.address)
        && Utf16Length(c.name) <= 100 && Utf16Length(c.address) <= 200 && Utf16Length(c.photo.GetOr("")) <= 500
        && owners.fault.None? && forall j :: 0 <= j < |owners.rows| ==> owners.rows[j].id != id
    ensures var o := CreateOwnerOutcome(owners, c, id);
      o.0.Ok? ==>
        && o.0.value == OwnerDto(id, c.name, c.address, c.photo.GetOr(""), c.birthday)
        && o.1 == owners.rows + [OwnerData(id, c.name, c.address, c.photo.GetOr(""), c.birthday)]
    ensures var o := CreateOwnerOutcome(owners, c, id);
      !o.0.Ok? ==> o.1 == owners.rows
    ensures IsBlank(c.name) ==>
      CreateOwnerOutcome(owners, c, id).0 == FailWith<OwnerDto>(CreatePrefix + "Name is required (Parameter 'name')")
  {
    assert ArgumentException("Name is required", "name").Message() == "Name is required (Parameter 'name')";
    match Construct(id, c.name, c.address, c.photo, c.birthday)
    case Threw(_) =>
    case Returned(owner) =>
      assert owner == OwnerData(id, c.name, c.address, c.photo.GetOr(""), c.birthday);
      assert OwnerFits(owner) <==>
        Utf16Length(c.name) <= 100 && Utf16Length(c.address) <= 200 && Utf16Length(c.photo.GetOr("")) <= 500;
  }

  /** A command the validator accepts never trips the owner's own checks. */
  lemma AcceptedOwnerConstructs(c: CreateOwnerCommand, now: int, id: Guid)
    requires CreateOwnerFailures(c, now) == []
    ensures Construct(id, c.name, c.address, c.photo, c.birthday).Returned?
  {
  }

  /** A blank photo wider than its column passes the validator and the owner's checks, and the
      save then fails: the answer is 400 with the database's message, and nothing is stored. */
  lemma BlankWidePhotoFailsAtSave(owners: Table<OwnerData>, c: CreateOwnerCommand, now: int, id: Guid)
    requires CreateOwnerFailures(c, now) == [] && owners.fault.None?
    requires c.photo.Some? && IsBlank(c.photo.value) && Utf16Length(c.photo.value) > 500
    ensures CreateOwnerOutcome(owners, c, id) == (Ownership.Caught(CreatePrefix, DbUpdateException), owners.rows)
  {
    AcceptedOwnerConstructs(c, now, id);
    var owner := OwnerData(id, c.name, c.address, c.photo.value, c.birthday);
    assert Construct(id, c.name, c.address, c.photo, c.birthday) == Returned(owner);
    assert !OwnerFits(owner);
  }

  /** `GetOwnerByIdHandler.Handle`. */
  function OwnerByIdOutcome(owners: Table<OwnerData>, id: Guid): Result<OwnerDto> {
    match Attempt(owners.fault, Find(owners.rows, IdOf, id))
    case Threw(e) => Ownership.Caught(GetPrefix, e)
    case Returned(found) =>
      if found.None? then NotFound(Ownership.OwnerNotFound(id)) else Ok(DtoOf(found.value))
  }

  /** A reachable table answers 404 for an id it lacks and the stored owner's DTO for one it holds. */
  lemma OwnerByIdAnswer(owners: Table<OwnerData>, id: Guid)
    requires owners.fault.None? && UniqueKeys(owners.rows, IdOf)
    ensures (forall j :: 0 <= j < |owners.rows| ==> owners.rows[j].id != id) <==>
      OwnerByIdOutcome(owners, id) == NotFound(Ownership.OwnerNotFound(id))
    ensures forall j :: 0 <= j < |owners.rows| && owners.rows[j].id == id ==>
      OwnerByIdOutcome(owners, id) == Ok(DtoOf(owners.rows[j]))
  {
    forall j | 0 <= j < |owners.rows| && owners.rows[j].id == id
      ensures OwnerByIdOutcome(owners, id) == Ok(DtoOf(owners.rows[j]))
    {
      FindUnique(owners.rows, IdOf, j);
    }
  }

  /** Reading back a freshly registered owner yields the DTO the registration returned, and the
      other owners read as before. */
  lemma CreateThenGet(owners: Table<OwnerData>, c: CreateOwnerCommand, id: Guid, other: Guid)
    requires CreateOwnerOutcome(owners, c, id).0.Ok?
    ensures var o := CreateOwnerOutcome(owners, c, id);
      OwnerByIdOutcome(Table(o.1, owners.fault), id) == o.0
    ensures var o := CreateOwnerOutcome(owners, c, id);
      other != id ==> OwnerByIdOutcome(Table(o.1, owners.fault), other) == OwnerByIdOutcome(owners, other)
  {
    var owner := OwnerData(id, c.name, c.address, c.photo.GetOr(""), c.birthday);
    CreateOwnerEffect(owners, c, id);
    FindAppend(owners.rows, IdOf, owner, id);
    FindAppend(owners.rows, IdOf, owner, other);
  }
}
