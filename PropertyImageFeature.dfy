/** Adding an image to a property and listing a property's images
    (src/Million.Application/PropertyImages): the command's validator, the guarded handler that
    appends one image, and the query. The fresh image id is a parameter. */
module PropertyImageFeature {
  import opened Common
  import opened Results
  import opened Store
  import opened ValidationBehavior
  import opened PropertyEntity
  import opened PropertyPersistence
  import opened Ownership
  import Images = PropertyImageEntity
  import ImagePersistence

  const AddPrefix: string := "Error adding property image: "
  const ListPrefix: string := "Error retrieving property images: "
  const NotOwnProperty: string := "You can only add images to your own properties"

  datatype AddPropertyImageCommand = AddPropertyImageCommand(propertyId: Guid, file: string, enabled: bool)

  /** `AddPropertyImageValidator`: a non-empty property id, and a file path that is present and at
      most 500 characters; `Enabled` is not checked. */
  function AddPropertyImageFailures(c: AddPropertyImageCommand): (r: seq<string>)
    ensures "Property ID is required" in r <==> c.propertyId == EmptyGuid
    ensures "File path is required" in r <==> IsBlank(c.file)
    ensures "File path cannot exceed 500 characters" in r <==> Utf16Length(c.file) > 500
    ensures r == [] <==> c.propertyId != EmptyGuid && !IsBlank(c.file) && Utf16Length(c.file) <= 500
    ensures |r| <= 3
  {
    Rule(c.propertyId == EmptyGuid, "Property ID is required")
    + RequiredText(c.file, 500, "File path is required", "File path cannot exceed 500 characters")
  }

  /** `AddPropertyImageHandler.Handle`: the result and the new image table. */
  function AddPropertyImageOutcome(properties: Table<PropertyData>, images: Table<Images.ImageData>,
                                   ownerIdFromToken: Option<Guid>, c: AddPropertyImageCommand, imageId: Guid)
    : (Result<Guid>, seq<Images.ImageData>)
  {
    var gate := GateOf(properties, ownerIdFromToken, c.propertyId);
    if !gate.Allowed? then (Refusal(gate, c.propertyId, NotOwnProperty, AddPrefix), images.rows)
    else
      match Images.Created(c.propertyId, c.file, imageId, c.enabled)
      case Threw(e) => (Caught(AddPrefix, e), images.rows)
      case Returned(image) =>
        var added := Add(images.fault, images.rows, Images.IdOf, ImagePersistence.ImageFits, image);
        match added.0
        case Threw(e) => (Caught(AddPrefix, e), added.1)
        case Returned(_) => (Ok(image.id), added.1)
  }

  method AddPropertyImage(properties: PropertyRepository, images: ImagePersistence.ImageRepository,
                          ownerIdFromToken: Option<Guid>, c: AddPropertyImageCommand, imageId: Guid)
    returns (r: Result<Guid>)
    modifies images
    ensures (r, images.rows) == AddPropertyImageOutcome(properties.State(), old(images.State()), ownerIdFromToken, c, imageId)
  {
    var gate := RunGuards(properties, ownerIdFromToken, c.propertyId);
    if !gate.Allowed? {
      return Refusal(gate, c.propertyId, NotOwnProperty, AddPrefix);
    }
    var image := Images.PropertyImage.New(imageId, c.propertyId, c.file, c.enabled);
    if image.Threw? {
      return Caught(AddPrefix, image.exception);
    }
    var added := images.AddAsync(image.value);
    if added.Threw? {
      return Caught(AddPrefix, added.exception);
    }
    return Ok(image.value.id);
  }

  /** Adding an image succeeds exactly when the caller owns the stored property, the path is not
      blank and fits its 500-unit column, and the image table is reachable and lacks the new id; then exactly one image, with the
      command's property, path and flag, is appended and its id returned. Any other answer leaves
      the image table as it was. */
  lemma AddImageEffect(properties: Table<PropertyData>, images: Table<Images.ImageData>,
                       ownerIdFromToken: Option<Guid>, c: AddPropertyImageCommand, imageId: Guid)
    requires UniqueKeys(properties.rows, IdOf)
    ensures var o := AddPropertyImageOutcome(properties, images, ownerIdFromToken, c, imageId);
      o.0.Ok? <==>
        && OwnsStored(properties, ownerIdFromToken, c.propertyId) && !IsBlank(c.file) && Utf16Length(c.file) <= 500
        && images.fault.None? && forall j :: 0 <= j < |images.rows| ==> images.rows[j].id != imageId
    ensures var o := AddPropertyImageOutcome(properties, images, ownerIdFromToken, c, imageId);
      o.0.Ok? ==> o.0.value == imageId && o.1 == images.rows + [Images.ImageData(imageId, c.propertyId, c.file, c.enabled)]
    ensures var o := AddPropertyImageOutcome(properties, images, ownerIdFromToken, c, imageId);
      !o.0.Ok? ==> o.1 == images.rows
  {
    GateAllowsOwner(properties, ownerIdFromToken, c.propertyId);
  }

  /** `GetPropertyImagesHandler.Handle`: 404 for a missing property, otherwise its images. */
  function PropertyImagesOutcome(properties: Table<PropertyData>, images: Table<Images.ImageData>, propertyId: Guid)
    : Result<seq<Images.ImageData>>
  {
    match Attempt(properties.fault, Find(properties.rows, IdOf, propertyId))
    case Threw(e) => Caught(ListPrefix, e)
    case Returned(found) =>
      if found.None? then NotFound(PropertyNotFound(propertyId))
      else
        match Attempt(images.fault, ImagePersistence.ImagesOf(images.rows, propertyId))
        case Threw(e) => Caught(ListPrefix, e)
        case Returned(imgs) => Ok(imgs)
  }

  /** A missing property is answered 404 whatever the image table holds; a stored one is answered
      with exactly its images, an empty list when it has none. */
  lemma PropertyImagesAnswer(properties: Table<PropertyData>, images: Table<Images.ImageData>,
                             otherImages: Table<Images.ImageData>, propertyId: Guid)
    requires properties.fault.None?
    ensures (forall j :: 0 <= j < |properties.rows| ==> properties.rows[j].id != propertyId) ==>
      PropertyImagesOutcome(properties, images, propertyId) == NotFound(PropertyNotFound(propertyId))
      == PropertyImagesOutcome(properties, otherImages, propertyId)
    ensures (exists j :: 0 <= j < |properties.rows| && properties.rows[j].id == propertyId) && images.fault.None? ==>
      && PropertyImagesOutcome(properties, images, propertyId).Ok?
      && (forall i :: i in PropertyImagesOutcome(properties, images, propertyId).value <==> i in images.rows && i.propertyId == propertyId)
  {
  }

  /** An image added through the handler is listed for its property afterwards. */
  lemma AddedImageIsListed(properties: Table<PropertyData>, images: Table<Images.ImageData>,
                           ownerIdFromToken: Option<Guid>, c: AddPropertyImageCommand, imageId: Guid)
    requires AddPropertyImageOutcome(properties, images, ownerIdFromToken, c, imageId).0.Ok?
    ensures var after := Table(AddPropertyImageOutcome(properties, images, ownerIdFromToken, c, imageId).1, images.fault);
      Images.ImageData(imageId, c.propertyId, c.file, c.enabled) in PropertyImagesOutcome(properties, after, c.propertyId).value
  {
    var gate := GateOf(properties, ownerIdFromToken, c.propertyId);
    assert gate.Allowed?;
    var added := AddPropertyImageOutcome(properties, images, ownerIdFromToken, c, imageId).1;
    var image := Images.ImageData(imageId, c.propertyId, c.file, c.enabled);
    assert added == images.rows + [image];
    assert added[|images.rows|] == image;
  }
}
