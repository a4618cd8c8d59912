/** A recorded sale of a property (src/Million.Domain/Entities/PropertyTrace.cs): a value
    object whose fields are set once by a checking constructor. */
module PropertyTraceEntity {
  import opened Common

  /** A sale: its date (ticks), a name, the amount and the tax paid. */
  datatype TraceData = TraceData(id: Guid, propertyId: Guid, dateSale: int, name: string, value: int, tax: int)

  function IdOf(d: TraceData): Guid { d.id }

  /** The constructor: it rejects a blank name, then a negative value, then a negative tax. */
  function Construct(id: Guid, propertyId: Guid, dateSale: int, name: string, value: int, tax: int): (r: Outcome<TraceData>)
    ensures r.Returned? <==> !IsBlank(name) && value >= 0 && tax >= 0
    ensures r.Returned? ==> r.value == TraceData(id, propertyId, dateSale, name, value, tax)
  {
    if IsBlank(name) then Threw(ArgumentException("Name is required", "name"))
    // ArgumentOutOfRangeException(paramName, message) renders its message like ArgumentException
    else if value < 0 then Threw(ArgumentException("Value cannot be negative", "value"))
    else if tax < 0 then Threw(ArgumentException("Tax cannot be negative", "tax"))
    else Returned(TraceData(id, propertyId, dateSale, name, value, tax))
  }

  /** `PropertyTrace.Create(dateSale, name, value, tax, propertyId)` with a fresh id: the property
      comes last among its arguments and still lands in `propertyId`. */
  function Created(dateSale: int, name: string, value: int, tax: int, propertyId: Guid, id: Guid): (r: Outcome<TraceData>)
    ensures r.Returned? ==>
      && r.value.propertyId == propertyId && r.value.dateSale == dateSale
      && r.value.name == name && r.value.value == value && r.value.tax == tax && r.value.id == id
  {
    Construct(id, propertyId, dateSale, name, value, tax)
  }

  /** The checks run in the order name, value, tax: each rejection names the first failing argument. */
  lemma CheckOrder(id: Guid, propertyId: Guid, dateSale: int, name: string, value: int, tax: int)
    ensures IsBlank(name) ==>
      Construct(id, propertyId, dateSale, name, value, tax) == Threw(ArgumentException("Name is required", "name"))
    ensures !IsBlank(name) && value < 0 ==>
      Construct(id, propertyId, dateSale, name, value, tax) == Threw(ArgumentException("Value cannot be negative", "value"))
    ensures !IsBlank(name) && value >= 0 && tax < 0 ==>
      Construct(id, propertyId, dateSale, name, value, tax) == Threw(ArgumentException("Tax cannot be negative", "tax"))
  {
  }

  /** Zero is an acceptable value and an acceptable tax. */
  lemma ZeroAmountsAccepted(id: Guid, propertyId: Guid, dateSale: int, name: string)
    requires !IsBlank(name)
    ensures Construct(id, propertyId, dateSale, name, 0, 0) == Returned(TraceData(id, propertyId, dateSale, name, 0, 0))
  {
  }
}
