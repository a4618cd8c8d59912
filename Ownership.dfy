/** The guard sequence the five handlers that act on an existing property run before they
    write: the caller's token must carry an owner id, the property must exist, and the caller
    must own it. A handler that is stopped returns the matching failure and writes nothing. */
module Ownership {
  import opened Common
  import opened Results
  import opened Store
  import opened PropertyEntity
  import opened PropertyPersistence

  const OwnerIdMissing: string := "Owner ID not found in token"

  /** "Owner with ID {id} not found". */
  function OwnerNotFound(id: Guid): string {
    "Owner with ID " + GuidText(id) + " not found"
  }

  /** "Property with ID {id} not found", the id in its `D` format. */
  function PropertyNotFound(id: Guid): string {
    "Property with ID " + GuidText(id) + " not found"
  }

  /** What a handler's `catch` returns: the exception's message under the handler's prefix, with
      no status metadata. */
  function Caught<T>(prefix: string, e: Exception): Result<T> {
    FailWith(prefix + e.Message())
  }

  /** A caught exception answers 400 with the handler's prefix followed by the exception's message. */
  lemma CaughtRendering<T>(prefix: string, e: Exception, r: Result<T>)
    requires r == Caught(prefix, e)
    ensures r.IsFailed()
    ensures GetStatusCode(r) == 400 && GetFirstErrorMessage(r) == prefix + e.Message()
  {
    FailWithRendering(prefix + e.Message(), r);
  }

  /** Where the guards leave a request: stopped at one of them, or through to the property. */
  datatype Gate =
    | Unauthenticated                // no owner id in the token
    | Crashed(exception: Exception)  // the lookup of the property threw
    | Missing                        // no property with the requested id
    | NotOwner                       // the property belongs to another owner
    | Allowed(target: PropertyData)

  /** The guards in their order: the token, then the lookup, then the ownership check. */
  function Guard(ownerIdFromToken: Option<Guid>, lookup: Outcome<Option<PropertyData>>): (g: Gate)
    ensures g.Allowed? <==>
      ownerIdFromToken.Some? && lookup.Returned? && lookup.value.Some? && lookup.value.value.ownerId == ownerIdFromToken.value
    ensures g.Allowed? ==> g.target == lookup.value.value
    ensures ownerIdFromToken.None? ==> g == Unauthenticated
    ensures ownerIdFromToken.Some? && lookup.Threw? ==> g == Crashed(lookup.exception)
    ensures ownerIdFromToken.Some? && lookup == Returned(None) ==> g == Missing
    ensures ownerIdFromToken.Some? && lookup.Returned? && lookup.value.Some? && lookup.value.value.ownerId != ownerIdFromToken.value ==>
      g == NotOwner
  {
    if ownerIdFromToken.None? then Unauthenticated
    else if lookup.Threw? then Crashed(lookup.exception)
    else if lookup.value.None? then Missing
    else if lookup.value.value.ownerId != ownerIdFromToken.value then NotOwner
    else Allowed(lookup.value.value)
  }

  /** What a handler returns when a guard stops it. */
  function Refusal<T>(g: Gate, propertyId: Guid, forbidden: string, errorPrefix: string): Result<T>
    requires !g.Allowed?
  {
    match g
    case Unauthenticated => Unauthorized(OwnerIdMissing)
    case Crashed(e) => Caught(errorPrefix, e)
    case Missing => NotFound(PropertyNotFound(propertyId))
    case NotOwner => Forbidden(forbidden)
  }

  /** A stopped request fails with 401, the caught exception's 400, 404, or 403 with the
      handler's own message, by the guard that stopped it. */
  lemma RefusalRendering<T>(g: Gate, propertyId: Guid, forbidden: string, errorPrefix: string, r: Result<T>)
    requires !g.Allowed? && r == Refusal(g, propertyId, forbidden, errorPrefix)
    ensures r.IsFailed()
    ensures GetStatusCode(r) == (match g
      case Unauthenticated => 401
      case Crashed(_) => 400
      case Missing => 404
      case NotOwner => 403)
    ensures GetFirstErrorMessage(r) == (match g
      case Unauthenticated => OwnerIdMissing
      case Crashed(e) => errorPrefix + e.Message()
      case Missing => PropertyNotFound(propertyId)
      case NotOwner => forbidden)
  {
    match g
    case Unauthenticated => UnauthorizedRendering(OwnerIdMissing, r);
    case Crashed(e) => CaughtRendering(errorPrefix, e, r);
    case Missing => NotFoundRendering(PropertyNotFound(propertyId), r);
    case NotOwner => ForbiddenRendering(forbidden, r);
  }

  /** The guards of a handler acting on property `propertyId`, over the property table. */
  function GateOf(properties: Table<PropertyData>, ownerIdFromToken: Option<Guid>, propertyId: Guid): Gate {
    Guard(ownerIdFromToken, Attempt(properties.fault, Find(properties.rows, IdOf, propertyId)))
  }

  /** The guards as each handler runs them: no owner id answers at once, otherwise the property
      is loaded and its owner compared with the caller. */
  method RunGuards(properties: PropertyRepository, ownerIdFromToken: Option<Guid>, propertyId: Guid)
    returns (gate: Gate)
    ensures gate == GateOf(properties.State(), ownerIdFromToken, propertyId)
  {
    if ownerIdFromToken.None? {
      return Unauthenticated;
    }
    var found := properties.GetByIdAsync(propertyId);
    if found.Threw? {
      return Crashed(found.exception);
    }
    if found.value.None? {
      return Missing;
    }
    var property := found.value.value;
    if property.ownerId != ownerIdFromToken.value {
      return NotOwner;
    }
    gate := Allowed(property.Data());
  }

  /** The caller owns the stored property with this id. */
  predicate OwnsStored(properties: Table<PropertyData>, ownerIdFromToken: Option<Guid>, propertyId: Guid) {
    && properties.fault.None? && ownerIdFromToken.Some?
    && exists j :: 0 <= j < |properties.rows| && properties.rows[j].id == propertyId
                   && properties.rows[j].ownerId == ownerIdFromToken.value
  }

  /** With unique keys the guards let a request through exactly when the caller owns the
      property, and hand on the stored row. */
  lemma GateAllowsOwner(properties: Table<PropertyData>, ownerIdFromToken: Option<Guid>, propertyId: Guid)
    requires UniqueKeys(properties.rows, IdOf)
    ensures GateOf(properties, ownerIdFromToken, propertyId).Allowed? <==> OwnsStored(properties, ownerIdFromToken, propertyId)
    ensures GateOf(properties, ownerIdFromToken, propertyId).Allowed? ==>
      var i := IndexOf(properties.rows, IdOf, propertyId).value;
      GateOf(properties, ownerIdFromToken, propertyId).target == properties.rows[i]
  {
    if OwnsStored(properties, ownerIdFromToken, propertyId) {
      var j :| 0 <= j < |properties.rows| && properties.rows[j].id == propertyId
               && properties.rows[j].ownerId == ownerIdFromToken.value;
      FindUnique(properties.rows, IdOf, j);
    }
  }
}
