/** Recording a sale of a property and listing a property's sales
    (src/Million.Application/PropertyTraces): the command's validator, the guarded handler that
    appends one trace, and the query. The fresh trace id and the current time are parameters. */
module PropertyTraceFeature {
  import opened Common
  import opened Results
  import opened Store
  import opened ValidationBehavior
  import opened PropertyEntity
  import opened PropertyPersistence
  import opened Ownership
  import Traces = PropertyTraceEntity
  import TracePersistence
  import PropertyQueries

  const AddPrefix: string := "Error adding property trace: "
  const ListPrefix: string := "Error retrieving property traces: "
  const NotOwnProperty: string := "You can only add traces to your own properties"

  /** The sale date is in ticks; the value and the tax are whole amounts. */
  datatype AddPropertyTraceCommand = AddPropertyTraceCommand(propertyId: Guid, dateSale: int, name: string, value: int, tax: int)

  /** `AddPropertyTraceValidator` at time `now`: a non-empty property id, a name that is present
      and at most 200 characters, a positive value, a non-negative tax and a sale date not after
      `now`. */
  function AddPropertyTraceFailures(c: AddPropertyTraceCommand, now: int): (r: seq<string>)
    ensures "Property ID is required" in r <==> c.propertyId == EmptyGuid
    ensures "Trace name is required" in r <==> IsBlank(c.name)
    ensures "Trace name cannot exceed 200 characters" in r <==> Utf16Length(c.name) > 200
    ensures "Value must be greater than zero" in r <==> c.value <= 0
    ensures "Tax cannot be negative" in r <==> c.tax < 0
    ensures "Sale date cannot be in the future" in r <==> c.dateSale > now
    ensures r == [] <==>
      c.propertyId != EmptyGuid && !IsBlank(c.name) && Utf16Length(c.name) <= 200 && c.value > 0 && c.tax >= 0 && c.dateSale <= now
  {
    Rule(c.propertyId == EmptyGuid, "Property ID is required")
    + Rule(IsBlank(c.name), "Trace name is required")
    + Rule(Utf16Length(c.name) > 200, "Trace name cannot exceed 200 characters")
    + Rule(c.value <= 0, "Value must be greater than zero")
    + Rule(c.tax < 0, "Tax cannot be negative")
    + Rule(c.dateSale > now, "Sale date cannot be in the future")
  }

  /** A command the validator accepts never trips the trace's own checks: the validator is the
      stricter of the two (it also refuses a zero value, which the entity allows). */
  lemma AcceptedTraceConstructs(c: AddPropertyTraceCommand, now: int, traceId: Guid)
    requires AddPropertyTraceFailures(c, now) == []
    ensures Traces.Created(c.dateSale, c.name, c.value, c.tax, c.propertyId, traceId)
         == Returned(Traces.TraceData(traceId, c.propertyId, c.dateSale, c.name, c.value, c.tax))
  {
  }

  /** `AddPropertyTraceHandler.Handle`: the result and the new trace table. */
  function AddPropertyTraceOutcome(properties: Table<PropertyData>, traces: Table<Traces.TraceData>,
                                   ownerIdFromToken: Option<Guid>, c: AddPropertyTraceCommand, traceId: Guid)
    : (Result<Guid>, seq<Traces.TraceData>)
  {
    var gate := GateOf(properties, ownerIdFromToken, c.propertyId);
    if !gate.Allowed? then (Refusal(gate, c.propertyId, NotOwnProperty, AddPrefix), traces.rows)
    else
      match Traces.Created(c.dateSale, c.name, c.value, c.tax, c.propertyId, traceId)
      case Threw(e) => (Caught(AddPrefix, e), traces.rows)
      case Returned(trace) =>
        var added := Add(traces.fault, traces.rows, Traces.IdOf, TracePersistence.TraceFits, trace);
        match added.0
        case Threw(e) => (Caught(AddPrefix, e), added.1)
        case Returned(_) => (Ok(trace.id), added.1)
  }

  method AddPropertyTrace(properties: PropertyRepository, traces: TracePersistence.TraceRepository,
                          ownerIdFromToken: Option<Guid>, c: AddPropertyTraceCommand, traceId: Guid)
    returns (r: Result<Guid>)
    modifies traces
    ensures (r, traces.rows) == AddPropertyTraceOutcome(properties.State(), old(traces.State()), ownerIdFromToken, c, traceId)
  {
    var gate := RunGuards(properties, ownerIdFromToken, c.propertyId);
    if !gate.Allowed? {
      return Refusal(gate, c.propertyId, NotOwnProperty, AddPrefix);
    }
    var trace := Traces.Created(c.dateSale, c.name, c.value, c.tax, c.propertyId, traceId);
    if trace.Threw? {
      return Caught(AddPrefix, trace.exception);
    }
    var added := traces.AddAsync(trace.value);
    if added.Threw? {
      return Caught(AddPrefix, added.exception);
    }
    return Ok(trace.value.id);
  }

  /** Recording a sale succeeds exactly when the caller owns the stored property, the trace's
      own checks pass, the name, value and tax fit their columns, and the trace table is reachable and lacks the new id; then exactly that
      sale is appended and its id returned. Any other answer leaves the trace table as it was. */
  lemma AddTraceEffect(properties: Table<PropertyData>, traces: Table<Traces.TraceData>,
                       ownerIdFromToken: Option<Guid>, c: AddPropertyTraceCommand, traceId: Guid)
    requires UniqueKeys(properties.rows, IdOf)
    ensures var o := AddPropertyTraceOutcome(properties, traces, ownerIdFromToken, c, traceId);
      o.0.Ok? <==>
        && OwnsStored(properties, ownerIdFromToken, c.propertyId)
        && !IsBlank(c.name) && c.value >= 0 && c.tax >= 0
        && Utf16Length(c.name) <= 100 && FitsDecimal18_2(c.value) && FitsDecimal18_2(c.tax)
        && traces.fault.None? && forall j :: 0 <= j < |traces.rows| ==> traces.rows[j].id != traceId
    ensures var o := AddPropertyTraceOutcome(properties, traces, ownerIdFromToken, c, traceId);
      o.0.Ok? ==>
        && o.0.value == traceId
        && o.1 == traces.rows + [Traces.TraceData(traceId, c.propertyId, c.dateSale, c.name, c.value, c.tax)]
    ensures var o := AddPropertyTraceOutcome(properties, traces, ownerIdFromToken, c, traceId);
      !o.0.Ok? ==> o.1 == traces.rows
  {
    GateAllowsOwner(properties, ownerIdFromToken, c.propertyId);
  }

  /** An owner's valid command whose row fits the trace table's columns is refused only by the
      table: the handler's own checks never reject what the validator let through. */
  lemma ValidCommandOfOwnerIsRecorded(properties: Table<PropertyData>, traces: Table<Traces.TraceData>,
                                      ownerIdFromToken: Option<Guid>, c: AddPropertyTraceCommand, now: int, traceId: Guid)
    requires UniqueKeys(properties.rows, IdOf)
    requires AddPropertyTraceFailures(c, now) == []
    requires Utf16Length(c.name) <= 100 && FitsDecimal18_2(c.value) && FitsDecimal18_2(c.tax)
    requires OwnsStored(properties, ownerIdFromToken, c.propertyId)
    requires traces.fault.None? && forall j :: 0 <= j < |traces.rows| ==> traces.rows[j].id != traceId
    ensures AddPropertyTraceOutcome(properties, traces, ownerIdFromToken, c, traceId).0 == Ok(traceId)
  {
    AddTraceEffect(properties, traces, ownerIdFromToken, c, traceId);
  }

  /** The validator allows a trace name of up to 200 characters, the column only 100: an owner's
      valid command with a longer name is answered 400 with the database's message, and nothing
      is stored. */
  lemma NameBetweenLimitsFailsAtSave(properties: Table<PropertyData>, traces: Table<Traces.TraceData>,
                                     ownerIdFromToken: Option<Guid>, c: AddPropertyTraceCommand, now: int, traceId: Guid)
    requires UniqueKeys(properties.rows, IdOf)
    requires AddPropertyTraceFailures(c, now) == [] && Utf16Length(c.name) > 100
    requires OwnsStored(properties, ownerIdFromToken, c.propertyId) && traces.fault.None?
    ensures AddPropertyTraceOutcome(properties, traces, ownerIdFromToken, c, traceId) ==
      (Caught(AddPrefix, DbUpdateException), traces.rows)
  {
    GateAllowsOwner(properties, ownerIdFromToken, c.propertyId);
    AcceptedTraceConstructs(c, now, traceId);
    var trace := Traces.TraceData(traceId, c.propertyId, c.dateSale, c.name, c.value, c.tax);
    assert !TracePersistence.TraceFits(trace);
    assert Add(traces.fault, traces.rows, Traces.IdOf, TracePersistence.TraceFits, trace) == (Threw(DbUpdateException), traces.rows);
  }

  /** `GetPropertyTracesHandler.Handle`: 404 for a missing property, otherwise its sales newest
      first, each as a DTO. */
  function PropertyTracesOutcome(properties: Table<PropertyData>, traces: Table<Traces.TraceData>, propertyId: Guid)
    : Result<seq<PropertyQueries.TraceDto>>
  {
    match Attempt(properties.fault, Find(properties.rows, IdOf, propertyId))
    case Threw(e) => Caught(ListPrefix, e)
    case Returned(found) =>
      if found.None? then NotFound(PropertyNotFound(propertyId))
      else
        match Attempt(traces.fault, TracePersistence.TracesOf(traces.rows, propertyId))
        case Threw(e) => Caught(ListPrefix, e)
        case Returned(ts) => Ok(PropertyQueries.TraceDtos(ts))
  }

  /** A missing property is answered 404 whatever the trace table holds; a stored one is
      answered with the DTO of each of its sales, of no other sale, newest first. */
  lemma PropertyTracesAnswer(properties: Table<PropertyData>, traces: Table<Traces.TraceData>,
                             otherTraces: Table<Traces.TraceData>, propertyId: Guid)
    requires properties.fault.None?
    ensures (forall j :: 0 <= j < |properties.rows| ==> properties.rows[j].id != propertyId) ==>
      PropertyTracesOutcome(properties, traces, propertyId) == NotFound(PropertyNotFound(propertyId))
      == PropertyTracesOutcome(properties, otherTraces, propertyId)
    ensures (exists j :: 0 <= j < |properties.rows| && properties.rows[j].id == propertyId) && traces.fault.None? ==>
      var r := PropertyTracesOutcome(properties, traces, propertyId);
      && r.Ok?
      && (forall t :: t in traces.rows && t.propertyId == propertyId ==> PropertyQueries.TraceDtoOf(t) in r.value)
      && (forall d :: d in r.value ==> exists t :: t in traces.rows && t.propertyId == propertyId && d == PropertyQueries.TraceDtoOf(t))
      && (forall a, b :: 0 <= a < b < |r.value| ==> r.value[a].dateSale >= r.value[b].dateSale)
  {
    if (exists j :: 0 <= j < |properties.rows| && properties.rows[j].id == propertyId) && traces.fault.None? {
      PropertyQueries.TracesOfProperty(traces.rows, propertyId);
    }
  }
}
