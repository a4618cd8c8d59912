/** A picture attached to a property (src/Million.Domain/Entities/PropertyImage.cs): a file
    path and an on/off flag that `Toggle` flips in place. */
module PropertyImageEntity {
  import opened Common

  datatype ImageData = ImageData(id: Guid, propertyId: Guid, file: string, enabled: bool)

  function IdOf(d: ImageData): Guid { d.id }

  /** The constructor as a value: a blank file is rejected, anything else is stored as given. */
  function Construct(id: Guid, propertyId: Guid, file: string, enabled: bool): (r: Outcome<ImageData>)
    ensures r.Threw? <==> IsBlank(file)
    ensures r.Threw? ==> r.exception == ArgumentException("File is required", "file")
    ensures r.Returned? ==> r.value == ImageData(id, propertyId, file, enabled)
  {
    if IsBlank(file) then Threw(ArgumentException("File is required", "file"))
    else Returned(ImageData(id, propertyId, file, enabled))
  }

  /** `PropertyImage.Create`: the constructor with a fresh id; `enabled` defaults to true. */
  function Created(propertyId: Guid, file: string, id: Guid, enabled: bool := true): Outcome<ImageData> {
    Construct(id, propertyId, file, enabled)
  }

  /** `Toggle` as a transition of the stored fields. */
  function Toggled(d: ImageData): ImageData {
    d.(enabled := !d.enabled)
  }

  class PropertyImage {
    var id: Guid
    var propertyId: Guid
    var file: string
    var enabled: bool

    function Data(): ImageData
      reads this
    {
      ImageData(id, propertyId, file, enabled)
    }

    constructor Load(d: ImageData)
      ensures Data() == d
    {
      id, propertyId, file, enabled := d.id, d.propertyId, d.file, d.enabled;
    }

    /** The public constructor: a new object, or the exception it throws. */
    static method New(id: Guid, propertyId: Guid, file: string, enabled: bool) returns (r: Outcome<PropertyImage>)
      ensures r.Returned? ==> fresh(r.value) && Construct(id, propertyId, file, enabled) == Returned(r.value.Data())
      ensures r.Threw? ==> Construct(id, propertyId, file, enabled) == Threw(r.exception)
    {
      if IsBlank(file) {
        r := Threw(ArgumentException("File is required", "file"));
      } else {
        var image := new PropertyImage.Load(ImageData(id, propertyId, file, enabled));
        r := Returned(image);
      }
    }

    method Toggle()
      modifies this
      ensures Data() == Toggled(old(Data()))
    {
      enabled := !enabled;
    }
  }

  /** `Create` without an explicit flag builds an enabled image. */
  lemma CreateDefaultsToEnabled(propertyId: Guid, file: string, id: Guid)
    requires !IsBlank(file)
    ensures Created(propertyId, file, id).Returned? && Created(propertyId, file, id).value.enabled
  {
  }

  /** `Toggle` negates the flag, touches nothing else, and toggling twice restores the image. */
  lemma ToggleInvolution(d: ImageData)
    ensures Toggled(d).enabled == !d.enabled
    ensures Toggled(d).id == d.id && Toggled(d).propertyId == d.propertyId && Toggled(d).file == d.file
    ensures Toggled(Toggled(d)) == d
  {
  }
}
