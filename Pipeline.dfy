/** Requests as the application receives them: each goes through the validation stage with the
    one validator registered for its type, and only then, if nothing was collected, through its
    handler. A request stopped by its validator answers 400 with the validator's messages and
    writes nothing. `UpdatePropertyCommand`, `LoginCommand` and the plain queries have no
    validator and reach their handlers unchanged. */
module Pipeline {
  import opened Common
  import opened Results
  import opened Store
  import opened ValidationBehavior
  import opened PropertyEntity
  import opened PropertyPersistence
  import opened PropertyCommandValidators
  import Ownership
  import PropertyCommandHandlers
  import PropertyQueries
  import PropertyImageFeature
  import PropertyTraceFeature
  import OwnerFeature
  import Images = PropertyImageEntity
  import Traces = PropertyTraceEntity
  import Owners = OwnerEntity

  /** A validator registered for a request type, reporting its messages and no null failure. */
  function Validator<Req>(rules: Req -> seq<string>): Req -> seq<Option<string>> {
    (request: Req) => AsFailures(rules(request))
  }

  /** With the one validator of its type, the stage answers with that validator's messages, or
      with the handler's result when there are none. */
  lemma {:induction false} OneValidator<Req, T>(rules: Req -> seq<string>, request: Req, next: () -> Result<T>)
    ensures Failures([Validator(rules)], request) == rules(request)
    ensures Handle([Validator(rules)], request, next) ==
      if rules(request) == [] then next() else ValidationErrors(rules(request))
  {
    var validators := [Validator(rules)];
    assert validators[0](request) == AsFailures(rules(request));
    PresentAll(AsFailures(rules(request)), rules(request));
    assert validators[1..] == [];
  }

  /** A write request sent through the stage: `handled` is what the handler would answer and the
      state it would leave, `before` the state as it is. */
  function Through<Req, T, S>(rules: Req -> seq<string>, request: Req, before: S, handled: (Result<T>, S)): (r: (Result<T>, S))
    ensures r.0 == Handle([Validator(rules)], request, () => handled.0)
    ensures rules(request) != [] ==> r.1 == before && r.0.IsFailed() && GetStatusCode(r.0) == 400
    ensures rules(request) == [] ==> r == handled
  {
    OneValidator(rules, request, () => handled.0);
    if rules(request) == [] then handled
    else
      ValidationErrorsStatus(rules(request), ValidationErrors<T>(rules(request)));
      (ValidationErrors(rules(request)), before)
  }

  // ---------------------------------------------------------------------------
  // The property commands

  function CreatePropertyRequest(owners: Table<Owners.OwnerData>, properties: Table<PropertyData>,
                                 images: Table<Images.ImageData>, ownerIdFromToken: Option<Guid>,
                                 c: CreatePropertyCommand, currentYear: int, draws: PropertyCommandHandlers.CreateDraws)
    : (Result<Guid>, (seq<PropertyData>, seq<Images.ImageData>))
  {
    var o := PropertyCommandHandlers.CreatePropertyOutcome(owners, properties, images, ownerIdFromToken, c, draws);
    Through((x: CreatePropertyCommand) => CreatePropertyFailures(x, currentYear), c, (properties.rows, images.rows), (o.0, (o.1, o.2)))
  }

  /** A create command the validator refuses answers with its messages and neither table changes;
      an accepted one gets exactly the handler's answer. */
  lemma CreatePropertyThroughValidation(owners: Table<Owners.OwnerData>, properties: Table<PropertyData>,
                                        images: Table<Images.ImageData>, ownerIdFromToken: Option<Guid>,
                                        c: CreatePropertyCommand, currentYear: int, draws: PropertyCommandHandlers.CreateDraws)
    ensures var r := CreatePropertyRequest(owners, properties, images, ownerIdFromToken, c, currentYear, draws);
      !CreatePropertyAccepted(c, currentYear) ==>
        r == (ValidationErrors(CreatePropertyFailures(c, currentYear)), (properties.rows, images.rows))
    ensures var r := CreatePropertyRequest(owners, properties, images, ownerIdFromToken, c, currentYear, draws);
      var o := PropertyCommandHandlers.CreatePropertyOutcome(owners, properties, images, ownerIdFromToken, c, draws);
      CreatePropertyAccepted(c, currentYear) ==> r == (o.0, (o.1, o.2))
  {
  }

  /** The validator allows a property name of up to 200 characters, the column only 100: an
      accepted command from a stored owner whose name is longer is answered 400 with the
      database's message, and neither table changes. */
  lemma NameBetweenLimitsFailsAtSave(owners: Table<Owners.OwnerData>, properties: Table<PropertyData>,
                                     images: Table<Images.ImageData>, ownerIdFromToken: Option<Guid>,
                                     c: CreatePropertyCommand, currentYear: int, draws: PropertyCommandHandlers.CreateDraws)
    requires CreatePropertyAccepted(c, currentYear) && Utf16Length(c.name) > 100
    requires ownerIdFromToken.Some? && owners.fault.None? && properties.fault.None?
    requires exists j :: 0 <= j < |owners.rows| && owners.rows[j].id == ownerIdFromToken.value
    ensures CreatePropertyRequest(owners, properties, images, ownerIdFromToken, c, currentYear, draws) ==
      (Ownership.Caught(PropertyCommandHandlers.CreatePrefix, DbUpdateException), (properties.rows, images.rows))
  {
    assert !PropertyCommandHandlers.DetailsFit(c.name, c.description, c.address, c.price);
    PropertyCommandHandlers.CreateTooWide(owners, properties, images, ownerIdFromToken, c, draws);
    CreatePropertyThroughValidation(owners, properties, images, ownerIdFromToken, c, currentYear, draws);
  }

  /** `UpdatePropertyCommand` has no validator: whatever it carries, blank name or negative
      price included, the handler's answer and writes are the request's. */
  lemma UpdatePropertyUnvalidated(properties: Table<PropertyData>, ownerIdFromToken: Option<Guid>, c: UpdatePropertyCommand)
    ensures var o := PropertyCommandHandlers.UpdatePropertyOutcome(properties, ownerIdFromToken, c);
      Handle([], c, () => o.0) == o.0
  {
    NoValidatorsPassThrough(c, () => PropertyCommandHandlers.UpdatePropertyOutcome(properties, ownerIdFromToken, c).0);
  }

  function UpdatePriceRequest(properties: Table<PropertyData>, ownerIdFromToken: Option<Guid>, c: UpdatePropertyPriceCommand)
    : (Result<()>, seq<PropertyData>)
  {
    Through(UpdatePropertyPriceFailures, c, properties.rows,
            PropertyCommandHandlers.UpdatePriceOutcome(properties, ownerIdFromToken, c))
  }

  /** A negative price never reaches the handler, where `ChangePrice` would have thrown: the owner
      gets the validator's single message, not the handler's caught exception, and nothing is
      written. */
  lemma NegativePriceStoppedBeforeHandler(properties: Table<PropertyData>, ownerIdFromToken: Option<Guid>, c: UpdatePropertyPriceCommand)
    requires c.propertyId != EmptyGuid && c.newPrice < 0
    requires UniqueKeys(properties.rows, IdOf) && Ownership.OwnsStored(properties, ownerIdFromToken, c.propertyId)
    ensures var r := UpdatePriceRequest(properties, ownerIdFromToken, c);
      && r.1 == properties.rows
      && GetStatusCode(r.0) == 400
      && GetFirstErrorMessage(r.0) == "Price must be greater than or equal to zero."
    ensures GetFirstErrorMessage(PropertyCommandHandlers.UpdatePriceOutcome(properties, ownerIdFromToken, c).0)
      != "Price must be greater than or equal to zero."
  {
    assert UpdatePropertyPriceFailures(c) == ["Price must be greater than or equal to zero."];
    ValidationErrorsStatus(["Price must be greater than or equal to zero."], ValidationErrors<()>(["Price must be greater than or equal to zero."]));
    ValidationErrorsSingle(["Price must be greater than or equal to zero."], ValidationErrors<()>(["Price must be greater than or equal to zero."]));
    var gate := Ownership.GateOf(properties, ownerIdFromToken, c.propertyId);
    Ownership.GateAllowsOwner(properties, ownerIdFromToken, c.propertyId);
    var p := gate.target;
    assert PriceChanged(p, c.newPrice).0 == Some(ArgumentException("Price cannot be negative", "newPrice"));
    var handled := PropertyCommandHandlers.UpdatePriceOutcome(properties, ownerIdFromToken, c).0;
    assert handled == Ownership.Caught(PropertyCommandHandlers.PricePrefix, ArgumentException("Price cannot be negative", "newPrice"));
    assert GetFirstErrorMessage(handled)[0] == 'E';
  }

  function DeleteRequest(properties: Table<PropertyData>, ownerIdFromToken: Option<Guid>, c: DeletePropertyCommand)
    : (Result<()>, seq<PropertyData>)
  {
    Through(DeletePropertyFailures, c, properties.rows,
            PropertyCommandHandlers.DeletePropertyOutcome(properties, ownerIdFromToken, c))
  }

  /** The delete request: the validator, then `DeletePropertyHandler` only when it passed. */
  method SendDeleteProperty(properties: PropertyRepository, ownerIdFromToken: Option<Guid>, c: DeletePropertyCommand)
    returns (r: Result<()>)
    modifies properties
    ensures (r, properties.rows) == DeleteRequest(old(properties.State()), ownerIdFromToken, c)
  {
    var failures := DeletePropertyFailures(c);
    if failures != [] {
      r := ValidationErrors(failures);
    } else {
      r := PropertyCommandHandlers.DeleteProperty(properties, ownerIdFromToken, c);
    }
  }

  /** An empty property id never reaches the delete handler: whatever the table and the token,
      the answer is the one validation message and nothing is removed. */
  lemma EmptyIdNeverReachesDelete(properties: Table<PropertyData>, ownerIdFromToken: Option<Guid>,
                                  other: Table<PropertyData>, otherToken: Option<Guid>)
    ensures var r := DeleteRequest(properties, ownerIdFromToken, DeletePropertyCommand(EmptyGuid));
      && r == (ValidationErrors(["Property ID is required"]), properties.rows)
      && r.0 == DeleteRequest(other, otherToken, DeletePropertyCommand(EmptyGuid)).0
      && GetFirstErrorMessage(r.0) == "Property ID is required"
  {
    ValidationErrorsSingle(["Property ID is required"], ValidationErrors<()>(["Property ID is required"]));
  }

  /** After a successful delete, every read that takes the property's id answers 404 before it
      looks at the image or trace table, so the image and trace rows the database's cascade would
      have removed cannot be observed through these handlers. */
  lemma DeletedPropertyReadsNotFound(properties: Table<PropertyData>, ownerIdFromToken: Option<Guid>,
                                     c: DeletePropertyCommand, owners: Table<Owners.OwnerData>,
                                     images: Table<Images.ImageData>, traces: Table<Traces.TraceData>)
    requires UniqueKeys(properties.rows, IdOf)
    requires PropertyCommandHandlers.DeletePropertyOutcome(properties, ownerIdFromToken, c).0.Ok?
    ensures var after := Table(PropertyCommandHandlers.DeletePropertyOutcome(properties, ownerIdFromToken, c).1, properties.fault);
      && PropertyImageFeature.PropertyImagesOutcome(after, images, c.propertyId) == NotFound(Ownership.PropertyNotFound(c.propertyId))
      && PropertyTraceFeature.PropertyTracesOutcome(after, traces, c.propertyId) == NotFound(Ownership.PropertyNotFound(c.propertyId))
      && PropertyQueries.PropertyDetailOutcome(after, owners, images, traces, c.propertyId) == NotFound(Ownership.PropertyNotFound(c.propertyId))
  {
    PropertyCommandHandlers.DeleteEffect(properties, ownerIdFromToken, c, c.propertyId);
  }

  // ---------------------------------------------------------------------------
  // Images, traces and owners

  function AddImageRequest(properties: Table<PropertyData>, images: Table<Images.ImageData>, ownerIdFromToken: Option<Guid>,
                           c: PropertyImageFeature.AddPropertyImageCommand, imageId: Guid)
    : (Result<Guid>, seq<Images.ImageData>)
  {
    Through(PropertyImageFeature.AddPropertyImageFailures, c, images.rows,
            PropertyImageFeature.AddPropertyImageOutcome(properties, images, ownerIdFromToken, c, imageId))
  }

  /** The validator's limit on a file path is the column's: a path over 500 characters is refused
      by the validator with its message, and the handler alone would fail at the save with the
      database's message. Nothing is stored either way. */
  lemma LongFileRefusedBeforeSave(properties: Table<PropertyData>, images: Table<Images.ImageData>,
                                  ownerIdFromToken: Option<Guid>, c: PropertyImageFeature.AddPropertyImageCommand, imageId: Guid)
    requires UniqueKeys(properties.rows, IdOf) && Ownership.OwnsStored(properties, ownerIdFromToken, c.propertyId)
    requires !IsBlank(c.file) && Utf16Length(c.file) > 500 && images.fault.None?
    ensures PropertyImageFeature.AddPropertyImageOutcome(properties, images, ownerIdFromToken, c, imageId) ==
      (Ownership.Caught(PropertyImageFeature.AddPrefix, DbUpdateException), images.rows)
    ensures var r := AddImageRequest(properties, images, ownerIdFromToken, c, imageId);
      && r.0 == ValidationErrors(PropertyImageFeature.AddPropertyImageFailures(c)) && r.1 == images.rows
      && "File path cannot exceed 500 characters" in PropertyImageFeature.AddPropertyImageFailures(c)
  {
    Ownership.GateAllowsOwner(properties, ownerIdFromToken, c.propertyId);
  }

  function AddTraceRequest(properties: Table<PropertyData>, traces: Table<Traces.TraceData>, ownerIdFromToken: Option<Guid>,
                           c: PropertyTraceFeature.AddPropertyTraceCommand, now: int, traceId: Guid)
    : (Result<Guid>, seq<Traces.TraceData>)
  {
    Through((x: PropertyTraceFeature.AddPropertyTraceCommand) => PropertyTraceFeature.AddPropertyTraceFailures(x, now), c, traces.rows,
            PropertyTraceFeature.AddPropertyTraceOutcome(properties, traces, ownerIdFromToken, c, traceId))
  }

  /** A sale dated in the future, or worth zero, is refused only by the validator: the handler
      alone would record it for the owner when its row fits the table's columns. */
  lemma FutureOrFreeSaleOnlyRefusedByValidator(properties: Table<PropertyData>, traces: Table<Traces.TraceData>,
                                               ownerIdFromToken: Option<Guid>, c: PropertyTraceFeature.AddPropertyTraceCommand,
                                               now: int, traceId: Guid)
    requires UniqueKeys(properties.rows, IdOf) && Ownership.OwnsStored(properties, ownerIdFromToken, c.propertyId)
    requires !IsBlank(c.name) && c.value >= 0 && c.tax >= 0
    requires Utf16Length(c.name) <= 100 && FitsDecimal18_2(c.value) && FitsDecimal18_2(c.tax)
    requires c.dateSale > now || c.value == 0
    requires traces.fault.None? && forall j :: 0 <= j < |traces.rows| ==> traces.rows[j].id != traceId
    ensures PropertyTraceFeature.AddPropertyTraceOutcome(properties, traces, ownerIdFromToken, c, traceId).0.Ok?
    ensures var r := AddTraceRequest(properties, traces, ownerIdFromToken, c, now, traceId);
      r.0.IsFailed() && r.1 == traces.rows
  {
    PropertyTraceFeature.AddTraceEffect(properties, traces, ownerIdFromToken, c, traceId);
  }

  function CreateOwnerRequest(owners: Table<Owners.OwnerData>, c: OwnerFeature.CreateOwnerCommand, now: int, id: Guid)
    : (Result<OwnerFeature.OwnerDto>, seq<Owners.OwnerData>)
  {
    Through((x: OwnerFeature.CreateOwnerCommand) => OwnerFeature.CreateOwnerFailures(x, now), c, owners.rows,
            OwnerFeature.CreateOwnerOutcome(owners, c, id))
  }

  /** A birthday not in the past is refused only by the validator: the owner itself stores any
      birthday whose row fits the table's columns. */
  lemma FutureBirthdayOnlyRefusedByValidator(owners: Table<Owners.OwnerData>, c: OwnerFeature.CreateOwnerCommand, now: int, id: Guid)
    requires !IsBlank(c.name) && !IsBlank(c.address) && c.birthday >= now
    requires Utf16Length(c.name) <= 100 && Utf16Length(c.address) <= 200 && Utf16Length(c.photo.GetOr("")) <= 500
    requires owners.fault.None? && forall j :: 0 <= j < |owners.rows| ==> owners.rows[j].id != id
    ensures OwnerFeature.CreateOwnerOutcome(owners, c, id).0.Ok?
    ensures var r := CreateOwnerRequest(owners, c, now, id);
      r.0.IsFailed() && r.1 == owners.rows
  {
    OwnerFeature.CreateOwnerEffect(owners, c, id);
  }

  // ---------------------------------------------------------------------------
  // The search

  function SearchRequest(properties: Table<PropertyData>, owners: Table<Owners.OwnerData>,
                         images: Table<Images.ImageData>, q: PropertyQueries.SearchPropertiesQuery)
    : Result<PropertyQueries.PaginatedResult>
  {
    Handle([Validator(PropertyQueries.SearchPropertiesFailures)], q, () => PropertyQueries.SearchOutcome(properties, owners, images, q))
  }

  /** A search whose minimum exceeds its maximum is answered with that validation message before
      any table is read; an accepted search gets the handler's page. */
  lemma SearchThroughValidation(properties: Table<PropertyData>, owners: Table<Owners.OwnerData>,
                                images: Table<Images.ImageData>, q: PropertyQueries.SearchPropertiesQuery,
                                otherProperties: Table<PropertyData>)
    ensures PropertyQueries.SearchAccepted(q) ==>
      SearchRequest(properties, owners, images, q) == PropertyQueries.SearchOutcome(properties, owners, images, q)
    ensures q.minPrice.Some? && q.maxPrice.Some? && q.minPrice.value > q.maxPrice.value ==>
      && SearchRequest(properties, owners, images, q) == ValidationErrors(PropertyQueries.SearchPropertiesFailures(q))
      && SearchRequest(properties, owners, images, q) == SearchRequest(otherProperties, owners, images, q)
      && "Minimum price must be less than or equal to maximum price." in PropertyQueries.SearchPropertiesFailures(q)
  {
    OneValidator(PropertyQueries.SearchPropertiesFailures, q, () => PropertyQueries.SearchOutcome(properties, owners, images, q));
    OneValidator(PropertyQueries.SearchPropertiesFailures, q, () => PropertyQueries.SearchOutcome(otherProperties, owners, images, q));
  }
}
