/** The image table and its repository
    (src/Million.Infrastructure/Persistence/Sql/Repositories/PropertyImageRepository.cs): a
    property's images in table order, its first enabled image, and the writes. */
module ImagePersistence {
  import opened Common
  import opened Store
  import opened PropertyImageEntity

  function OfProperty(propertyId: Guid): ImageData -> bool { (i: ImageData) => i.propertyId == propertyId }
  function EnabledOf(propertyId: Guid): ImageData -> bool { (i: ImageData) => i.propertyId == propertyId && i.enabled }

  /** What the image table's columns hold (PropertyImageConfiguration.cs): a file of at most 500
      UTF-16 code units. A longer one makes `SaveChangesAsync` throw. */
  predicate ImageFits(d: ImageData) {
    Utf16Length(d.file) <= 500
  }

  /** The query of `GetByPropertyIdAsync`: the property's images in table order. */
  function ImagesOf(rows: seq<ImageData>, propertyId: Guid): (r: seq<ImageData>)
    ensures forall i :: i in r <==> i in rows && i.propertyId == propertyId
    ensures |r| <= |rows|
  {
    Where(rows, OfProperty(propertyId))
  }

  /** The image table. */
  class ImageRepository {
    var rows: seq<ImageData>
    const fault: Option<Exception>

    constructor (rows: seq<ImageData>, fault: Option<Exception>)
      ensures this.rows == rows && this.fault == fault
    {
      this.rows := rows;
      this.fault := fault;
    }

    function State(): Table<ImageData>
      reads this
    {
      Table(rows, fault)
    }

    /** `GetByPropertyIdAsync`: exactly the property's images, in table order. */
    function GetByPropertyIdAsync(propertyId: Guid): (r: Outcome<seq<ImageData>>)
      reads this
      ensures r.Returned? <==> fault.None?
      ensures r.Returned? ==> forall i :: i in r.value <==> i in rows && i.propertyId == propertyId
    {
      Attempt(fault, ImagesOf(rows, propertyId))
    }

    /** `GetFirstEnabledByPropertyIdAsync`: the first enabled image of the property, null when it
        has none. */
    function GetFirstEnabledByPropertyIdAsync(propertyId: Guid): (r: Outcome<Option<ImageData>>)
      reads this
      ensures r.Returned? <==> fault.None?
      ensures r.Returned? ==> (r.value.None? <==> forall i :: i in rows ==> !(i.propertyId == propertyId && i.enabled))
      ensures r.Returned? && r.value.Some? ==> r.value.value in rows && r.value.value.propertyId == propertyId && r.value.value.enabled
    {
      var enabled := Where(rows, EnabledOf(propertyId));
      if |enabled| == 0 then Attempt(fault, None)
      else
        assert enabled[0] in enabled;
        Attempt(fault, Some(enabled[0]))
    }

    method AddAsync(image: PropertyImage) returns (r: Outcome<Guid>)
      modifies this
      ensures (r, rows) == Add(fault, old(rows), IdOf, ImageFits, image.Data())
    {
      var step := Add(fault, rows, IdOf, ImageFits, image.Data());
      r, rows := step.0, step.1;
    }

    method DeleteAsync(id: Guid) returns (r: Outcome<bool>)
      modifies this
      ensures (r, rows) == Delete(fault, old(rows), IdOf, id)
    {
      var step := Delete(fault, rows, IdOf, id);
      r, rows := step.0, step.1;
    }
  }
}
