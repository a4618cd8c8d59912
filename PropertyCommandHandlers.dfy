/** The handlers of the property commands (src/Million.Application/Properties/Commands): create a
    property with its images, update its details, change its price, delete it. Each handler is a
    method over the repositories it uses, proved to return the result and leave the tables that
    a pure outcome function describes; the lemmas below state what those outcomes mean. The
    caller's owner id is the claim read from the token, and every fresh GUID and clock reading
    is a parameter. */
module PropertyCommandHandlers {
  import opened Common
  import opened Results
  import opened Store
  import opened PropertyEntity
  import opened PropertyPersistence
  import opened Ownership
  import opened PropertyCommandValidators
  import Images = PropertyImageEntity
  import ImagePersistence
  import Owners = OwnerEntity
  import OwnerPersistence

  const CreatePrefix: string := "Error creating property: "
  const UpdatePrefix: string := "Error updating property: "
  const PricePrefix: string := "Error updating property price: "
  const DeletePrefix: string := "Error deleting property: "

  /** "Owner with ID {id} does not exist". */
  function OwnerNotExisting(id: Guid): string {
    "Owner with ID " + GuidText(id) + " does not exist"
  }

  /** What `Guid.NewGuid` and the clocks give one run of the create handler: the GUID behind the
      internal code, then the property's id, then one id per image in list order; today's UTC date
      for the code and `UtcNow` for `Created`. */
  datatype CreateDraws = CreateDraws(codeGuid: Guid, propertyId: Guid, imageId: nat -> Guid, today: Date, now: int)

  // ---------------------------------------------------------------------------
  // Create

  /** The first `n` image ids a run draws. */
  function ImageIds(draws: CreateDraws, n: nat): (ids: seq<Guid>)
    ensures |ids| == n && forall k :: 0 <= k < n ==> ids[k] == draws.imageId(k)
  {
    if n == 0 then [] else ImageIds(draws, n - 1) + [draws.imageId(n - 1)]
  }

  /** The image loop of the create handler: one enabled image per file, in list order, the file
      at position `k` getting id `ids[k]`; the first exception stops the loop and keeps the images
      added before it. */
  function ImagesAdded(images: Table<Images.ImageData>, propertyId: Guid, files: seq<string>, ids: seq<Guid>)
    : (r: (Option<Exception>, seq<Images.ImageData>))
    requires |ids| == |files|
    ensures |images.rows| <= |r.1| <= |images.rows| + |files|
    ensures r.1[..|images.rows|] == images.rows
    ensures forall j :: |images.rows| <= j < |r.1| ==>
      r.1[j] == Images.ImageData(ids[j - |images.rows|], propertyId, files[j - |images.rows|], true)
    ensures r.0.None? ==> |r.1| == |images.rows| + |files|
    ensures (exists k :: 0 <= k < |files| && IsBlank(files[k])) ==> r.0.Some?
    ensures images.fault.Some? && files != [] ==> r.0.Some? && r.1 == images.rows
    decreases |files|
  {
    if |files| == 0 then (None, images.rows)
    else
      var made := Images.Created(propertyId, files[0], ids[0], true);
      if made.Threw? then (Some(made.exception), images.rows)
      else
        var added := Add(images.fault, images.rows, Images.IdOf, ImagePersistence.ImageFits, made.value);
        if added.0.Threw? then (Some(added.0.exception), added.1)
        else
          var rest := ImagesAdded(Table(added.1, images.fault), propertyId, files[1..], ids[1..]);
          assert forall k :: 1 <= k < |files| ==> files[1..][k - 1] == files[k];
          assert forall k :: 1 <= k < |files| && IsBlank(files[k]) ==> IsBlank(files[1..][k - 1]);
          assert rest.1[..|images.rows|] == added.1[..|images.rows|];
          rest
  }

  /** A path wider than its 500-unit column stops the image loop with an exception, like a blank one. */
  lemma {:induction false} ImagesAddedStopsAtWidePath(images: Table<Images.ImageData>, propertyId: Guid,
                                                      files: seq<string>, ids: seq<Guid>, k: nat)
    requires |ids| == |files| && k < |files| && Utf16Length(files[k]) > 500
    ensures ImagesAdded(images, propertyId, files, ids).0.Some?
    decreases |files|
  {
    var made := Images.Created(propertyId, files[0], ids[0], true);
    if made.Returned? {
      assert made.value.file == files[0];
      var added := Add(images.fault, images.rows, Images.IdOf, ImagePersistence.ImageFits, made.value);
      if k == 0 {
        assert !ImagePersistence.ImageFits(made.value);
      } else if added.0.Returned? {
        assert files[1..][k - 1] == files[k];
        ImagesAddedStopsAtWidePath(Table(added.1, images.fault), propertyId, files[1..], ids[1..], k - 1);
      }
    }
  }

  /** `CreatePropertyHandler.Handle`: the result and the new property and image tables. */
  function CreatePropertyOutcome(owners: Table<Owners.OwnerData>, properties: Table<PropertyData>,
                                 images: Table<Images.ImageData>, ownerIdFromToken: Option<Guid>,
                                 c: CreatePropertyCommand, draws: CreateDraws)
    : (Result<Guid>, seq<PropertyData>, seq<Images.ImageData>)
  {
    if ownerIdFromToken.None? then (Unauthorized(OwnerIdMissing), properties.rows, images.rows)
    else
      var ownerId := ownerIdFromToken.value;
      var ownerExists := Attempt(owners.fault, Find(owners.rows, OwnerPersistence.IdOf, ownerId).Some?);
      if ownerExists.Threw? then (Caught(CreatePrefix, ownerExists.exception), properties.rows, images.rows)
      else if !ownerExists.value then (BadRequest(OwnerNotExisting(ownerId)), properties.rows, images.rows)
      else
        var built := Created(c.name, c.description, c.address, c.price, c.year, ownerId,
                             draws.codeGuid, draws.propertyId, draws.today, draws.now);
        if built.Threw? then (Caught(CreatePrefix, built.exception), properties.rows, images.rows)
        else
          var added := Add(properties.fault, properties.rows, IdOf, PropertyFits, built.value);
          if added.0.Threw? then (Caught(CreatePrefix, added.0.exception), added.1, images.rows)
          else
            var files := c.images.GetOr([]);
            var loop := ImagesAdded(images, added.0.value, files, ImageIds(draws, |files|));
            if loop.0.Some? then (Caught(CreatePrefix, loop.0.value), added.1, loop.1)
            else (Ok(added.0.value), added.1, loop.1)
  }

  method CreateProperty(owners: OwnerPersistence.OwnerRepository, properties: PropertyRepository,
                        images: ImagePersistence.ImageRepository, ownerIdFromToken: Option<Guid>,
                        c: CreatePropertyCommand, draws: CreateDraws)
    returns (r: Result<Guid>)
    modifies properties, images
    ensures (r, properties.rows, images.rows) ==
      CreatePropertyOutcome(old(owners.State()), old(properties.State()), old(images.State()), ownerIdFromToken, c, draws)
  {
    if ownerIdFromToken.None? {
      return Unauthorized(OwnerIdMissing);
    }
    var ownerId := ownerIdFromToken.value;
    var ownerExists := owners.ExistsAsync(ownerId);
    if ownerExists.Threw? {
      return Caught(CreatePrefix, ownerExists.exception);
    }
    if !ownerExists.value {
      return BadRequest(OwnerNotExisting(ownerId));
    }
    var built := Property.Create(c.name, c.description, c.address, c.price, c.year, ownerId,
                                 draws.codeGuid, draws.propertyId, draws.today, draws.now);
    if built.Threw? {
      return Caught(CreatePrefix, built.exception);
    }
    var propertyId := properties.AddAsync(built.value);
    if propertyId.Threw? {
      return Caught(CreatePrefix, propertyId.exception);
    }
    var files := c.images.GetOr([]);
    var thrown := AddImages(images, propertyId.value, files, ImageIds(draws, |files|));
    if thrown.Some? {
      return Caught(CreatePrefix, thrown.value);
    }
    return Ok(propertyId.value);
  }

  /** The handler's `foreach` over the command's image paths. */
  method AddImages(images: ImagePersistence.ImageRepository, propertyId: Guid, files: seq<string>, ids: seq<Guid>)
    returns (thrown: Option<Exception>)
    requires |ids| == |files|
    modifies images
    ensures (thrown, images.rows) == ImagesAdded(old(images.State()), propertyId, files, ids)
  {
    var i := 0;
    while i < |files|
      invariant 0 <= i <= |files|
      invariant ImagesAdded(images.State(), propertyId, files[i..], ids[i..])
             == ImagesAdded(old(images.State()), propertyId, files, ids)
    {
      assert files[i..][0] == files[i] && files[i..][1..] == files[i + 1..];
      assert ids[i..][0] == ids[i] && ids[i..][1..] == ids[i + 1..];
      var made := Images.PropertyImage.New(ids[i], propertyId, files[i], true);
      if made.Threw? {
        return Some(made.exception);
      }
      var added := images.AddAsync(made.value);
      if added.Threw? {
        return Some(added.exception);
      }
      i := i + 1;
    }
    assert files[i..] == [];
    return None;
  }

  // ---------------------------------------------------------------------------
  // Update, change price, delete

  /** `UpdatePropertyHandler.Handle`: the result and the new property table. */
  function UpdatePropertyOutcome(properties: Table<PropertyData>, ownerIdFromToken: Option<Guid>, c: UpdatePropertyCommand)
    : (Result<()>, seq<PropertyData>)
  {
    var gate := GateOf(properties, ownerIdFromToken, c.propertyId);
    if !gate.Allowed? then (Refusal(gate, c.propertyId, "You can only update your own properties", UpdatePrefix), properties.rows)
    else
      var changed := DetailsUpdated(gate.target, c.name, Some(c.description), c.address, c.price, c.year);
      if changed.0.Some? then (Caught(UpdatePrefix, changed.0.value), properties.rows)
      else
        var written := Update(properties.fault, properties.rows, IdOf, PropertyFits, changed.1);
        match written.0
        case Threw(e) => (Caught(UpdatePrefix, e), written.1)
        case Returned(_) => (Ok(()), written.1)
  }

  method UpdateProperty(properties: PropertyRepository, ownerIdFromToken: Option<Guid>, c: UpdatePropertyCommand)
    returns (r: Result<()>)
    modifies properties
    ensures (r, properties.rows) == UpdatePropertyOutcome(old(properties.State()), ownerIdFromToken, c)
  {
    var gate := RunGuards(properties, ownerIdFromToken, c.propertyId);
    if !gate.Allowed? {
      return Refusal(gate, c.propertyId, "You can only update your own properties", UpdatePrefix);
    }
    var property := new Property.Load(gate.target);
    var thrown := property.UpdateDetails(c.name, Some(c.description), c.address, c.price, c.year);
    if thrown.Some? {
      return Caught(UpdatePrefix, thrown.value);
    }
    var updated := properties.UpdateAsync(property);
    match updated {
      case Threw(e) => r := Caught(UpdatePrefix, e);
      case Returned(_) => r := Ok(());
    }
  }

  /** `UpdatePropertyPriceHandler.Handle`: the result and the new property table. */
  function UpdatePriceOutcome(properties: Table<PropertyData>, ownerIdFromToken: Option<Guid>, c: UpdatePropertyPriceCommand)
    : (Result<()>, seq<PropertyData>)
  {
    var gate := GateOf(properties, ownerIdFromToken, c.propertyId);
    if !gate.Allowed? then (Refusal(gate, c.propertyId, "You can only update the price of your own properties", PricePrefix), properties.rows)
    else
      var changed := PriceChanged(gate.target, c.newPrice);
      if changed.0.Some? then (Caught(PricePrefix, changed.0.value), properties.rows)
      else
        var written := Update(properties.fault, properties.rows, IdOf, PropertyFits, changed.1);
        match written.0
        case Threw(e) => (Caught(PricePrefix, e), written.1)
        case Returned(_) => (Ok(()), written.1)
  }

  method UpdatePropertyPrice(properties: PropertyRepository, ownerIdFromToken: Option<Guid>, c: UpdatePropertyPriceCommand)
    returns (r: Result<()>)
    modifies properties
    ensures (r, properties.rows) == UpdatePriceOutcome(old(properties.State()), ownerIdFromToken, c)
  {
    var gate := RunGuards(properties, ownerIdFromToken, c.propertyId);
    if !gate.Allowed? {
      return Refusal(gate, c.propertyId, "You can only update the price of your own properties", PricePrefix);
    }
    var property := new Property.Load(gate.target);
    var thrown := property.ChangePrice(c.newPrice);
    if thrown.Some? {
      return Caught(PricePrefix, thrown.value);
    }
    var updated := properties.UpdateAsync(property);
    match updated {
      case Threw(e) => r := Caught(PricePrefix, e);
      case Returned(_) => r := Ok(());
    }
  }

  /** `DeletePropertyHandler.Handle`: the result and the new property table. */
  function DeletePropertyOutcome(properties: Table<PropertyData>, ownerIdFromToken: Option<Guid>, c: DeletePropertyCommand)
    : (Result<()>, seq<PropertyData>)
  {
    var gate := GateOf(properties, ownerIdFromToken, c.propertyId);
    if !gate.Allowed? then (Refusal(gate, c.propertyId, "You can only delete your own properties", DeletePrefix), properties.rows)
    else
      var removed := Delete(properties.fault, properties.rows, IdOf, c.propertyId);
      match removed.0
      case Threw(e) => (Caught(DeletePrefix, e), removed.1)
      case Returned(deleted) => (if deleted then Ok(()) else FailWith("Failed to delete property"), removed.1)
  }

  method DeleteProperty(properties: PropertyRepository, ownerIdFromToken: Option<Guid>, c: DeletePropertyCommand)
    returns (r: Result<()>)
    modifies properties
    ensures (r, properties.rows) == DeletePropertyOutcome(old(properties.State()), ownerIdFromToken, c)
  {
    var gate := RunGuards(properties, ownerIdFromToken, c.propertyId);
    if !gate.Allowed? {
      return Refusal(gate, c.propertyId, "You can only delete your own properties", DeletePrefix);
    }
    var deleted := properties.DeleteAsync(c.propertyId);
    match deleted {
      case Threw(e) => r := Caught(DeletePrefix, e);
      case Returned(ok) => r := if ok then Ok(()) else FailWith("Failed to delete property");
    }
  }

  // ---------------------------------------------------------------------------
  // What the handlers promise

  /** Image ids that no stored image has and that differ from each other. */
  predicate FreshIds(rows: seq<Images.ImageData>, ids: seq<Guid>) {
    && (forall k, j :: 0 <= k < |ids| && 0 <= j < |rows| ==> rows[j].id != ids[k])
    && (forall k, l :: 0 <= k < l < |ids| ==> ids[k] != ids[l])
  }

  /** The image loop runs to its end when the table is reachable, every path is non-blank and fits
      its column, and every drawn id is fresh. */
  lemma {:induction false} ImagesAddedSucceeds(images: Table<Images.ImageData>, propertyId: Guid, files: seq<string>, ids: seq<Guid>)
    requires |ids| == |files|
    requires files != [] ==> images.fault.None?
    requires FreshIds(images.rows, ids)
    requires forall k :: 0 <= k < |files| ==> !IsBlank(files[k]) && Utf16Length(files[k]) <= 500
    ensures ImagesAdded(images, propertyId, files, ids).0.None?
    decreases |files|
  {
    if |files| > 0 {
      var made := Images.Created(propertyId, files[0], ids[0], true);
      assert made == Returned(Images.ImageData(ids[0], propertyId, files[0], true));
      var after := images.rows + [made.value];
      assert Add(images.fault, images.rows, Images.IdOf, ImagePersistence.ImageFits, made.value).1 == after;
      assert FreshIds(after, ids[1..]) by {
        forall k, j | 0 <= k < |ids[1..]| && 0 <= j < |after| ensures after[j].id != ids[1..][k] {
          assert ids[1..][k] == ids[k + 1];
          if j == |images.rows| {
            assert after[j].id == ids[0];
          } else {
            assert after[j] == images.rows[j];
          }
        }
        forall k, l | 0 <= k < l < |ids[1..]| ensures ids[1..][k] != ids[1..][l] {
          assert ids[1..][k] == ids[k + 1] && ids[1..][l] == ids[l + 1];
        }
      }
      assert forall k :: 0 <= k < |files[1..]| ==> files[1..][k] == files[k + 1];
      ImagesAddedSucceeds(Table(after, images.fault), propertyId, files[1..], ids[1..]);
    }
  }

  /** Conversely, a loop that runs to its end drew ids that no stored image had and that differ
      from each other: a repeated key stops it with `DbUpdateException`. */
  lemma {:induction false} ImagesAddedNeedsFreshIds(images: Table<Images.ImageData>, propertyId: Guid,
                                                    files: seq<string>, ids: seq<Guid>)
    requires |ids| == |files|
    requires ImagesAdded(images, propertyId, files, ids).0.None?
    ensures FreshIds(images.rows, ids)
    decreases |files|
  {
    if |files| > 0 {
      var made := Images.Created(propertyId, files[0], ids[0], true);
      assert made.Returned? && made.value.id == ids[0];
      var added := Add(images.fault, images.rows, Images.IdOf, ImagePersistence.ImageFits, made.value);
      assert added.0.Returned? && added.1 == images.rows + [made.value];
      ImagesAddedNeedsFreshIds(Table(added.1, images.fault), propertyId, files[1..], ids[1..]);
      forall k, j | 0 <= k < |ids| && 0 <= j < |images.rows| ensures images.rows[j].id != ids[k] {
        if k > 0 {
          assert ids[1..][k - 1] == ids[k] && added.1[j] == images.rows[j];
        }
      }
      forall k, l | 0 <= k < l < |ids| ensures ids[k] != ids[l] {
        assert ids[1..][l - 1] == ids[l];
        if k == 0 {
          assert added.1[|images.rows|].id == ids[0];
        } else {
          assert ids[1..][k - 1] == ids[k];
        }
      }
    }
  }

  /** The property a successful create stores: the command's fields, the caller as owner, the
      generated code and the creation instant. */
  function NewProperty(ownerId: Guid, c: CreatePropertyCommand, draws: CreateDraws): PropertyData {
    PropertyData(draws.propertyId, ownerId, c.name, c.description, c.address, c.price,
                 CodeInternal(draws.today, draws.codeGuid), c.year, draws.now)
  }

  /** Whether new details fit the property table's columns (PropertyConfiguration.cs). */
  predicate DetailsFit(name: string, description: string, address: string, price: int) {
    Utf16Length(name) <= 100 && Utf16Length(description) <= 500 && Utf16Length(address) <= 200 && FitsDecimal18_2(price)
  }

  /** The new property fits its row exactly when the command's details do: the generated code
      always fits its 50-unit column. */
  lemma NewPropertyFits(ownerId: Guid, c: CreatePropertyCommand, draws: CreateDraws)
    ensures PropertyFits(NewProperty(ownerId, c, draws)) <==> DetailsFit(c.name, c.description, c.address, c.price)
  {
    var code := CodeInternal(draws.today, draws.codeGuid);
    assert Utf16Length(code) <= 2 * 22;
  }

  /** A caller whose token names a stored owner, sending details the entity accepts and the
      columns hold and image paths that are all non-blank and fit their column, with fresh ids and
      reachable tables, gets the new id back. */
  lemma CreateAccepted(owners: Table<Owners.OwnerData>, properties: Table<PropertyData>,
                       images: Table<Images.ImageData>, ownerIdFromToken: Option<Guid>,
                       c: CreatePropertyCommand, draws: CreateDraws)
    requires ownerIdFromToken.Some? && owners.fault.None? && properties.fault.None?
    requires c.images.GetOr([]) != [] ==> images.fault.None?
    requires exists j :: 0 <= j < |owners.rows| && owners.rows[j].id == ownerIdFromToken.value
    requires !IsBlank(c.name) && !IsBlank(c.address) && c.price >= 0
    requires DetailsFit(c.name, c.description, c.address, c.price)
    requires forall j :: 0 <= j < |properties.rows| ==> properties.rows[j].id != draws.propertyId
    requires forall k :: 0 <= k < |c.images.GetOr([])| ==>
      !IsBlank(c.images.GetOr([])[k]) && Utf16Length(c.images.GetOr([])[k]) <= 500
    requires FreshIds(images.rows, ImageIds(draws, |c.images.GetOr([])|))
    ensures CreatePropertyOutcome(owners, properties, images, ownerIdFromToken, c, draws).0 == Ok(draws.propertyId)
  {
    var code := CodeInternal(draws.today, draws.codeGuid);
    assert code[0] == 'P' && !IsWhiteSpace(code[0]);
    NewPropertyFits(ownerIdFromToken.value, c, draws);
    var p := NewProperty(ownerIdFromToken.value, c, draws);
    var built := Created(c.name, c.description, c.address, c.price, c.year, ownerIdFromToken.value,
                         draws.codeGuid, draws.propertyId, draws.today, draws.now);
    assert built.Returned? && built.value == p;
    var ownerExists := Attempt(owners.fault, Find(owners.rows, OwnerPersistence.IdOf, ownerIdFromToken.value).Some?);
    assert ownerExists == Returned(true);
    var files := c.images.GetOr([]);
    ImagesAddedSucceeds(images, draws.propertyId, files, ImageIds(draws, |files|));
  }

  /** What a create needs, without which it does not answer the new id. */
  predicate CreateSucceedsWhen(owners: Table<Owners.OwnerData>, properties: Table<PropertyData>,
                               images: Table<Images.ImageData>, ownerIdFromToken: Option<Guid>,
                               c: CreatePropertyCommand, draws: CreateDraws)
  {
    var files := c.images.GetOr([]);
    && ownerIdFromToken.Some? && owners.fault.None? && properties.fault.None?
    && (files != [] ==> images.fault.None?)
    && (exists j :: 0 <= j < |owners.rows| && owners.rows[j].id == ownerIdFromToken.value)
    && !IsBlank(c.name) && !IsBlank(c.address) && c.price >= 0
    && DetailsFit(c.name, c.description, c.address, c.price)
    && (forall j :: 0 <= j < |properties.rows| ==> properties.rows[j].id != draws.propertyId)
    && (forall k :: 0 <= k < |files| ==> !IsBlank(files[k]) && Utf16Length(files[k]) <= 500)
    && FreshIds(images.rows, ImageIds(draws, |files|))
  }

  /** A caller without an owner id in the token is refused 401 "Owner ID not found in token" with
      nothing written; and a create answers the new id exactly when the token's owner is stored, the
      tables it touches are reachable, the entity accepts the details, the property table's columns
      hold them, every image path is non-blank and fits its column, and every drawn id is fresh. */
  lemma CreateSucceedsIff(owners: Table<Owners.OwnerData>, properties: Table<PropertyData>,
                          images: Table<Images.ImageData>, ownerIdFromToken: Option<Guid>,
                          c: CreatePropertyCommand, draws: CreateDraws)
    ensures ownerIdFromToken.None? ==>
      CreatePropertyOutcome(owners, properties, images, ownerIdFromToken, c, draws) ==
      (Unauthorized(OwnerIdMissing), properties.rows, images.rows)
    ensures CreatePropertyOutcome(owners, properties, images, ownerIdFromToken, c, draws).0.Ok? <==>
      CreateSucceedsWhen(owners, properties, images, ownerIdFromToken, c, draws)
  {
    if CreateSucceedsWhen(owners, properties, images, ownerIdFromToken, c, draws) {
      CreateAccepted(owners, properties, images, ownerIdFromToken, c, draws);
    }
    if CreatePropertyOutcome(owners, properties, images, ownerIdFromToken, c, draws).0.Ok? {
      var ownerId := ownerIdFromToken.value;
      var ownerExists := Attempt(owners.fault, Find(owners.rows, OwnerPersistence.IdOf, ownerId).Some?);
      assert ownerExists == Returned(true);
      var built := Created(c.name, c.description, c.address, c.price, c.year, ownerId,
                           draws.codeGuid, draws.propertyId, draws.today, draws.now);
      CreateRejects(c.name, c.description, c.address, c.price, c.year, ownerId,
                    draws.codeGuid, draws.propertyId, draws.today, draws.now);
      NewPropertyFits(ownerId, c, draws);
      assert built.Returned? && built.value == NewProperty(ownerId, c, draws);
      var added := Add(properties.fault, properties.rows, IdOf, PropertyFits, built.value);
      assert added.0.Returned?;
      var files := c.images.GetOr([]);
      var ids := ImageIds(draws, |files|);
      assert ImagesAdded(images, added.0.value, files, ids).0.None?;
      ImagesAddedNeedsFreshIds(images, added.0.value, files, ids);
      forall k | 0 <= k < |files| ensures Utf16Length(files[k]) <= 500 {
        if Utf16Length(files[k]) > 500 {
          ImagesAddedStopsAtWidePath(images, added.0.value, files, ids, k);
        }
      }
    }
  }

  /** A successful create appends exactly the new property, owned by the caller, and after the
      stored images one enabled image per path, in the command's order. */
  lemma CreateEffect(owners: Table<Owners.OwnerData>, properties: Table<PropertyData>,
                     images: Table<Images.ImageData>, ownerIdFromToken: Option<Guid>,
                     c: CreatePropertyCommand, draws: CreateDraws)
    requires CreatePropertyOutcome(owners, properties, images, ownerIdFromToken, c, draws).0.Ok?
    ensures ownerIdFromToken.Some?
    ensures var o := CreatePropertyOutcome(owners, properties, images, ownerIdFromToken, c, draws);
      && o.0.value == draws.propertyId
      && o.1 == properties.rows + [NewProperty(ownerIdFromToken.value, c, draws)]
    ensures var o := CreatePropertyOutcome(owners, properties, images, ownerIdFromToken, c, draws);
      var files := c.images.GetOr([]);
      && |o.2| == |images.rows| + |files| && o.2[..|images.rows|] == images.rows
      && forall j :: |images.rows| <= j < |o.2| ==>
           o.2[j] == Images.ImageData(draws.imageId(j - |images.rows|), draws.propertyId, files[j - |images.rows|], true)
  {
    var ownerId := ownerIdFromToken.value;
    var p := NewProperty(ownerId, c, draws);
    var built := Created(c.name, c.description, c.address, c.price, c.year, ownerId,
                         draws.codeGuid, draws.propertyId, draws.today, draws.now);
    assert built.Returned? && built.value == p;
    var added := Add(properties.fault, properties.rows, IdOf, PropertyFits, p);
    assert added.0 == Returned(draws.propertyId) && added.1 == properties.rows + [p];
    var files := c.images.GetOr([]);
    var loop := ImagesAdded(images, draws.propertyId, files, ImageIds(draws, |files|));
    assert loop.0.None?;
  }

  /** The create handler runs without a transaction: once the property is stored, a blank image
      path fails the request with 400 but the property stays. */
  lemma CreateNoRollback(owners: Table<Owners.OwnerData>, properties: Table<PropertyData>,
                         images: Table<Images.ImageData>, ownerIdFromToken: Option<Guid>,
                         c: CreatePropertyCommand, draws: CreateDraws, k: nat)
    requires ownerIdFromToken.Some? && owners.fault.None? && properties.fault.None?
    requires exists j :: 0 <= j < |owners.rows| && owners.rows[j].id == ownerIdFromToken.value
    requires !IsBlank(c.name) && !IsBlank(c.address) && c.price >= 0
    requires DetailsFit(c.name, c.description, c.address, c.price)
    requires forall j :: 0 <= j < |properties.rows| ==> properties.rows[j].id != draws.propertyId
    requires k < |c.images.GetOr([])| && IsBlank(c.images.GetOr([])[k])
    ensures var o := CreatePropertyOutcome(owners, properties, images, ownerIdFromToken, c, draws);
      && o.0.IsFailed() && GetStatusCode(o.0) == 400
      && o.1 == properties.rows + [NewProperty(ownerIdFromToken.value, c, draws)]
  {
    var code := CodeInternal(draws.today, draws.codeGuid);
    assert code[0] == 'P' && !IsWhiteSpace(code[0]);
    NewPropertyFits(ownerIdFromToken.value, c, draws);
  }

  /** Details the entity accepts but the columns do not hold fail the create at the save: 400 with
      the database's message, and neither table changes. */
  lemma CreateTooWide(owners: Table<Owners.OwnerData>, properties: Table<PropertyData>,
                      images: Table<Images.ImageData>, ownerIdFromToken: Option<Guid>,
                      c: CreatePropertyCommand, draws: CreateDraws)
    requires ownerIdFromToken.Some? && owners.fault.None? && properties.fault.None?
    requires exists j :: 0 <= j < |owners.rows| && owners.rows[j].id == ownerIdFromToken.value
    requires !IsBlank(c.name) && !IsBlank(c.address) && c.price >= 0
    requires !DetailsFit(c.name, c.description, c.address, c.price)
    ensures CreatePropertyOutcome(owners, properties, images, ownerIdFromToken, c, draws) ==
      (Caught(CreatePrefix, DbUpdateException), properties.rows, images.rows)
  {
    var code := CodeInternal(draws.today, draws.codeGuid);
    assert code[0] == 'P' && !IsWhiteSpace(code[0]);
    NewPropertyFits(ownerIdFromToken.value, c, draws);
    var p := NewProperty(ownerIdFromToken.value, c, draws);
    var built := Created(c.name, c.description, c.address, c.price, c.year, ownerIdFromToken.value,
                         draws.codeGuid, draws.propertyId, draws.today, draws.now);
    assert built.Returned? && built.value == p;
    assert !PropertyFits(p);
    var ownerExists := Attempt(owners.fault, Find(owners.rows, OwnerPersistence.IdOf, ownerIdFromToken.value).Some?);
    assert ownerExists == Returned(true);
  }

  /** The owner named by the token must be stored: otherwise 400 "Owner with ID … does not exist",
      and nothing is written. */
  lemma CreateNeedsOwner(owners: Table<Owners.OwnerData>, properties: Table<PropertyData>,
                         images: Table<Images.ImageData>, ownerId: Guid,
                         c: CreatePropertyCommand, draws: CreateDraws)
    requires owners.fault.None?
    requires forall j :: 0 <= j < |owners.rows| ==> owners.rows[j].id != ownerId
    ensures CreatePropertyOutcome(owners, properties, images, Some(ownerId), c, draws) ==
      (BadRequest(OwnerNotExisting(ownerId)), properties.rows, images.rows)
  {
  }

  /** An update succeeds exactly when the caller owns the stored property, the entity accepts the
      new details and the changed row fits the table's columns; then that row alone takes the new
      name, description, address, price and year. Any other answer leaves the table as it was. */
  lemma UpdateEffect(properties: Table<PropertyData>, ownerIdFromToken: Option<Guid>, c: UpdatePropertyCommand)
    requires UniqueKeys(properties.rows, IdOf)
    ensures var o := UpdatePropertyOutcome(properties, ownerIdFromToken, c);
      o.0.Ok? <==> && OwnsStored(properties, ownerIdFromToken, c.propertyId)
                   && !IsBlank(c.name) && !IsBlank(c.address) && c.price >= 0
                   && forall j :: 0 <= j < |properties.rows| && properties.rows[j].id == c.propertyId ==>
                        PropertyFits(properties.rows[j].(name := c.name, description := c.description,
                                                         address := c.address, price := c.price, year := c.year))
    ensures var o := UpdatePropertyOutcome(properties, ownerIdFromToken, c);
      o.0.Ok? ==> (exists j :: 0 <= j < |properties.rows| && properties.rows[j].id == c.propertyId
                     && o.1 == properties.rows[j := properties.rows[j].(name := c.name, description := c.description,
                                                                      address := c.address, price := c.price, year := c.year)])
    ensures var o := UpdatePropertyOutcome(properties, ownerIdFromToken, c);
      !o.0.Ok? ==> o.1 == properties.rows
  {
    GateAllowsOwner(properties, ownerIdFromToken, c.propertyId);
    var gate := GateOf(properties, ownerIdFromToken, c.propertyId);
    if gate.Allowed? {
      var i := IndexOf(properties.rows, IdOf, c.propertyId).value;
      UpdateDetailsEffect(gate.target, c.name, Some(c.description), c.address, c.price, c.year);
      var changed := DetailsUpdated(gate.target, c.name, Some(c.description), c.address, c.price, c.year);
      assert forall j :: 0 <= j < |properties.rows| && properties.rows[j].id == c.propertyId ==> j == i;
      if changed.0.None? {
        assert changed.1 == properties.rows[i].(name := c.name, description := c.description,
                                                address := c.address, price := c.price, year := c.year);
        assert IndexOf(properties.rows, IdOf, IdOf(changed.1)) == Some(i);
        if PropertyFits(changed.1) {
          assert Update(None, properties.rows, IdOf, PropertyFits, changed.1).1 == properties.rows[i := changed.1];
        }
      }
    }
  }

  /** A price change succeeds exactly when the caller owns the stored property, the price is not
      negative and the changed row fits the table's columns; then that row's price, and nothing
      else, changes. */
  lemma UpdatePriceEffect(properties: Table<PropertyData>, ownerIdFromToken: Option<Guid>, c: UpdatePropertyPriceCommand)
    requires UniqueKeys(properties.rows, IdOf)
    ensures var o := UpdatePriceOutcome(properties, ownerIdFromToken, c);
      o.0.Ok? <==> && OwnsStored(properties, ownerIdFromToken, c.propertyId) && c.newPrice >= 0
                   && forall j :: 0 <= j < |properties.rows| && properties.rows[j].id == c.propertyId ==>
                        PropertyFits(properties.rows[j].(price := c.newPrice))
    ensures var o := UpdatePriceOutcome(properties, ownerIdFromToken, c);
      o.0.Ok? ==> (exists j :: 0 <= j < |properties.rows| && properties.rows[j].id == c.propertyId
                     && o.1 == properties.rows[j := properties.rows[j].(price := c.newPrice)])
    ensures var o := UpdatePriceOutcome(properties, ownerIdFromToken, c);
      !o.0.Ok? ==> o.1 == properties.rows
  {
    GateAllowsOwner(properties, ownerIdFromToken, c.propertyId);
    var gate := GateOf(properties, ownerIdFromToken, c.propertyId);
    if gate.Allowed? {
      var i := IndexOf(properties.rows, IdOf, c.propertyId).value;
      ChangePriceEffect(gate.target, c.newPrice);
      var changed := PriceChanged(gate.target, c.newPrice);
      assert forall j :: 0 <= j < |properties.rows| && properties.rows[j].id == c.propertyId ==> j == i;
      if changed.0.None? {
        assert IndexOf(properties.rows, IdOf, IdOf(changed.1)) == Some(i);
        if PropertyFits(changed.1) {
          assert Update(None, properties.rows, IdOf, PropertyFits, changed.1).1 == properties.rows[i := changed.1];
        }
      }
    }
  }

  /** A delete succeeds exactly when the caller owns the stored property; the id is then no longer
      found and every other id is found as before. "Failed to delete property" is never the answer,
      since the guards already found the row. */
  lemma DeleteEffect(properties: Table<PropertyData>, ownerIdFromToken: Option<Guid>, c: DeletePropertyCommand, other: Guid)
    requires UniqueKeys(properties.rows, IdOf)
    ensures var o := DeletePropertyOutcome(properties, ownerIdFromToken, c);
      o.0.Ok? <==> OwnsStored(properties, ownerIdFromToken, c.propertyId)
    ensures var o := DeletePropertyOutcome(properties, ownerIdFromToken, c);
      o.0.Ok? ==> (Find(o.1, IdOf, c.propertyId) == None
                    && (other != c.propertyId ==> Find(o.1, IdOf, other) == Find(properties.rows, IdOf, other)))
    ensures var o := DeletePropertyOutcome(properties, ownerIdFromToken, c);
      !o.0.Ok? ==> o.1 == properties.rows && GetFirstErrorMessage(o.0) != "Failed to delete property"
  {
    GateAllowsOwner(properties, ownerIdFromToken, c.propertyId);
    var gate := GateOf(properties, ownerIdFromToken, c.propertyId);
    if gate.Allowed? {
      FindAfterRemove(properties.rows, IdOf, c.propertyId, other);
    } else {
      var o := DeletePropertyOutcome(properties, ownerIdFromToken, c);
      match gate
      case Crashed(e) =>
        assert GetFirstErrorMessage(o.0)[0] == 'E';
      case _ =>
    }
  }
}
