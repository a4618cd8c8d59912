/** The property reads (src/Million.Application/Properties/Queries): the paged search with its
    validator, a property's detail, and an owner's listings, together with the DTOs they return
    (src/Million.Application/Properties/DTOs). Images travel in a DTO as the stored image rows. */
module PropertyQueries {
  import opened Common
  import opened Results
  import opened Store
  import opened ValidationBehavior
  import opened PropertyEntity
  import opened PropertyPersistence
  import opened Ownership
  import Images = PropertyImageEntity
  import ImagePersistence
  import Owners = OwnerEntity
  import OwnerPersistence
  import Traces = PropertyTraceEntity
  import TracePersistence

  const SearchPrefix: string := "Error searching properties: "
  const DetailPrefix: string := "Error retrieving property: "
  const ByOwnerPrefix: string := "Error retrieving properties for owner: "
  const UnknownOwner: string := "Unknown"

  datatype PropertyDto = PropertyDto(
    id: Guid, ownerId: Guid, ownerName: string, name: string, description: string, address: string,
    price: int, codeInternal: string, year: int, created: int, images: seq<Images.ImageData>)

  datatype TraceDto = TraceDto(id: Guid, dateSale: int, name: string, value: int, tax: int)

  datatype PropertyDetailDto = PropertyDetailDto(
    id: Guid, ownerId: Guid, ownerName: string, name: string, description: string, address: string,
    price: int, codeInternal: string, year: int, created: int, images: seq<Images.ImageData>, traces: seq<TraceDto>)

  /** One page of search results with the total number of matches. */
  datatype PaginatedResult = PaginatedResult(items: seq<PropertyDto>, totalCount: int, pageNumber: int32, pageSize: int32)

  datatype SearchPropertiesQuery = SearchPropertiesQuery(
    name: Option<string>, address: Option<string>, minPrice: Option<int>, maxPrice: Option<int>,
    pageNumber: int32, pageSize: int32)

  function FilterOf(q: SearchPropertiesQuery): SearchFilter {
    SearchFilter(q.name, q.address, q.minPrice, q.maxPrice)
  }

  // ---------------------------------------------------------------------------
  // The search validator

  /** What `SearchPropertiesValidator` accepts: non-negative bounds in order, and filters of at most
      100 and 200 characters when they are not blank. */
  predicate SearchAccepted(q: SearchPropertiesQuery) {
    && (q.minPrice.None? || q.minPrice.value >= 0)
    && (q.maxPrice.None? || q.maxPrice.value >= 0)
    && (q.minPrice.None? || q.maxPrice.None? || q.minPrice.value <= q.maxPrice.value)
    && (IsNullOrWhiteSpace(q.name) || Utf16Length(q.name.value) <= 100)
    && (IsNullOrWhiteSpace(q.address) || Utf16Length(q.address.value) <= 200)
  }

  /** The bounds rules: each bound that is present must not be negative, and a minimum must not
      exceed a maximum. */
  function PriceBoundsRules(q: SearchPropertiesQuery): (r: seq<string>)
    ensures "Minimum price must be greater than or equal to zero." in r <==> q.minPrice.Some? && q.minPrice.value < 0
    ensures "Maximum price must be greater than or equal to zero." in r <==> q.maxPrice.Some? && q.maxPrice.value < 0
    ensures "Minimum price must be less than or equal to maximum price." in r <==>
      q.minPrice.Some? && q.maxPrice.Some? && q.minPrice.value > q.maxPrice.value
    ensures r == [] <==>
      && (q.minPrice.None? || q.minPrice.value >= 0)
      && (q.maxPrice.None? || q.maxPrice.value >= 0)
      && (q.minPrice.None? || q.maxPrice.None? || q.minPrice.value <= q.maxPrice.value)
  {
    Rule(q.minPrice.Some? && q.minPrice.value < 0, "Minimum price must be greater than or equal to zero.")
    + Rule(q.maxPrice.Some? && q.maxPrice.value < 0, "Maximum price must be greater than or equal to zero.")
    + Rule(q.minPrice.Some? && q.maxPrice.Some? && q.minPrice.value > q.maxPrice.value,
           "Minimum price must be less than or equal to maximum price.")
  }

  /** The length rules, skipped for a blank filter. */
  function FilterLengthRules(q: SearchPropertiesQuery): (r: seq<string>)
    ensures "Name filter must not exceed 100 characters." in r <==> !IsNullOrWhiteSpace(q.name) && Utf16Length(q.name.value) > 100
    ensures "Address filter must not exceed 200 characters." in r <==> !IsNullOrWhiteSpace(q.address) && Utf16Length(q.address.value) > 200
    ensures r == [] <==>
      (IsNullOrWhiteSpace(q.name) || Utf16Length(q.name.value) <= 100) && (IsNullOrWhiteSpace(q.address) || Utf16Length(q.address.value) <= 200)
  {
    Rule(!IsNullOrWhiteSpace(q.name) && Utf16Length(q.name.value) > 100, "Name filter must not exceed 100 characters.")
    + Rule(!IsNullOrWhiteSpace(q.address) && Utf16Length(q.address.value) > 200, "Address filter must not exceed 200 characters.")
  }

  /** `SearchPropertiesValidator`: the bounds rules, then the length rules. */
  function SearchPropertiesFailures(q: SearchPropertiesQuery): (r: seq<string>)
    ensures r == [] <==> SearchAccepted(q)
    ensures forall m :: m in r <==> m in PriceBoundsRules(q) || m in FilterLengthRules(q)
  {
    PriceBoundsRules(q) + FilterLengthRules(q)
  }

  /** Paging is not validated: any page number and size pass. */
  lemma PagingNotValidated(q: SearchPropertiesQuery, pageNumber: int32, pageSize: int32)
    ensures SearchPropertiesFailures(q.(pageNumber := pageNumber, pageSize := pageSize)) == SearchPropertiesFailures(q)
  {
  }

  /** A query without any filter passes. */
  lemma NoFiltersNoFailures(pageNumber: int32, pageSize: int32)
    ensures SearchPropertiesFailures(SearchPropertiesQuery(None, None, None, None, pageNumber, pageSize)) == []
  {
  }

  // ---------------------------------------------------------------------------
  // Assembling the DTOs

  /** `owner?.Name ?? "Unknown"` over the owner table. */
  function OwnerNameOf(owners: seq<Owners.OwnerData>, ownerId: Guid): (r: string)
    ensures (forall j :: 0 <= j < |owners| ==> owners[j].id != ownerId) ==> r == UnknownOwner
    ensures Find(owners, OwnerPersistence.IdOf, ownerId).Some? ==> r == Find(owners, OwnerPersistence.IdOf, ownerId).value.name
  {
    match Find(owners, OwnerPersistence.IdOf, ownerId)
    case None => UnknownOwner
    case Some(o) => o.name
  }

  /** The listing DTO of a property: its own fields, the owner's name and its images. */
  function Dto(p: PropertyData, ownerName: string, images: seq<Images.ImageData>): PropertyDto {
    PropertyDto(p.id, p.ownerId, ownerName, p.name, p.description, p.address, p.price, p.codeInternal, p.year, p.created, images)
  }

  function TraceDtoOf(t: Traces.TraceData): TraceDto {
    TraceDto(t.id, t.dateSale, t.name, t.value, t.tax)
  }

  /** The traces mapped one by one, in their order. */
  function TraceDtos(ts: seq<Traces.TraceData>): (r: seq<TraceDto>)
    ensures |r| == |ts| && forall k :: 0 <= k < |ts| ==> r[k] == TraceDtoOf(ts[k])
  {
    if |ts| == 0 then [] else [TraceDtoOf(ts[0])] + TraceDtos(ts[1..])
  }

  /** The first exception a run of owner-then-images lookups meets. */
  function FirstFault(owners: Option<Exception>, images: Option<Exception>): Option<Exception> {
    if owners.Some? then owners else images
  }

  /** The search handler's loop over a page: for each property the owner lookup, then the image
      lookup, then one DTO; the first exception ends the loop. */
  function Enriched(owners: Table<Owners.OwnerData>, images: Table<Images.ImageData>, page: seq<PropertyData>)
    : (r: Outcome<seq<PropertyDto>>)
    ensures r.Threw? <==> page != [] && FirstFault(owners.fault, images.fault).Some?
    ensures r.Threw? ==> r.exception == FirstFault(owners.fault, images.fault).value
    ensures r.Returned? ==> |r.value| == |page| && forall k :: 0 <= k < |page| ==>
      r.value[k] == Dto(page[k], OwnerNameOf(owners.rows, page[k].ownerId), ImagePersistence.ImagesOf(images.rows, page[k].id))
  {
    if |page| == 0 then Returned([])
    else match Enriched(owners, images, page[..|page| - 1])
      case Threw(e) => Threw(e)
      case Returned(front) =>
        var p := page[|page| - 1];
        match Attempt(owners.fault, OwnerNameOf(owners.rows, p.ownerId))
        case Threw(e) => Threw(e)
        case Returned(ownerName) =>
          match Attempt(images.fault, ImagePersistence.ImagesOf(images.rows, p.id))
          case Threw(e) => Threw(e)
          case Returned(imgs) => Returned(front + [Dto(p, ownerName, imgs)])
  }

  // ---------------------------------------------------------------------------
  // Search

  /** `SearchPropertiesHandler.Handle`. */
  function SearchOutcome(properties: Table<PropertyData>, owners: Table<Owners.OwnerData>,
                         images: Table<Images.ImageData>, q: SearchPropertiesQuery): Result<PaginatedResult>
  {
    var matching := Filtered(properties.rows, FilterOf(q));
    match Attempt(properties.fault, Page(matching, q.pageNumber, q.pageSize))
    case Threw(e) => Caught(SearchPrefix, e)
    case Returned(items) =>
      match Enriched(owners, images, items)
      case Threw(e) => Caught(SearchPrefix, e)
      case Returned(dtos) => Ok(PaginatedResult(dtos, |matching|, q.pageNumber, q.pageSize))
  }

  method SearchProperties(properties: PropertyRepository, owners: OwnerPersistence.OwnerRepository,
                          images: ImagePersistence.ImageRepository, q: SearchPropertiesQuery)
    returns (r: Result<PaginatedResult>)
    ensures r == SearchOutcome(properties.State(), owners.State(), images.State(), q)
  {
    var paged := properties.SearchPagedAsync(q.pageNumber, q.pageSize, FilterOf(q));
    if paged.Threw? {
      return Caught(SearchPrefix, paged.exception);
    }
    var enriched := EnrichPage(owners, images, paged.value.0);
    if enriched.Threw? {
      return Caught(SearchPrefix, enriched.exception);
    }
    return Ok(PaginatedResult(enriched.value, paged.value.1, q.pageNumber, q.pageSize));
  }

  /** The handler's `foreach` over the page. */
  method EnrichPage(owners: OwnerPersistence.OwnerRepository, images: ImagePersistence.ImageRepository,
                    items: seq<PropertyData>)
    returns (r: Outcome<seq<PropertyDto>>)
    ensures r == Enriched(owners.State(), images.State(), items)
  {
    var result: seq<PropertyDto> := [];
    var i := 0;
    while i < |items|
      invariant 0 <= i <= |items|
      invariant Enriched(owners.State(), images.State(), items[..i]) == Returned(result)
    {
      var property := items[i];
      var owner := owners.GetByIdAsync(property.ownerId);
      if owner.Threw? {
        return Threw(owner.exception);
      }
      var propertyImages := images.GetByPropertyIdAsync(property.id);
      if propertyImages.Threw? {
        return Threw(propertyImages.exception);
      }
      var ownerName := if owner.value.Some? then owner.value.value.name else UnknownOwner;
      result := result + [Dto(property, ownerName, propertyImages.value)];
      assert items[..i + 1][..i] == items[..i];
      i := i + 1;
    }
    assert items[..i] == items;
    return Returned(result);
  }

  /** A successful search echoes the request's page number and size, counts every match before
      paging, and lists the requested window of the matches in table order: the `PageLength`
      matches from `PageStart` on, at most `pageSize` of them, each as its DTO with its owner's
      name and exactly its own images. */
  lemma SearchResult(properties: Table<PropertyData>, owners: Table<Owners.OwnerData>,
                     images: Table<Images.ImageData>, q: SearchPropertiesQuery)
    requires SearchOutcome(properties, owners, images, q).Ok?
    ensures var page := SearchOutcome(properties, owners, images, q).value;
      && page.pageNumber == q.pageNumber && page.pageSize == q.pageSize
      && page.totalCount == |Where(properties.rows, Matching(FilterOf(q)))|
      && |page.items| <= page.totalCount
      && (q.pageSize > 0 ==> |page.items| <= q.pageSize as int)
    ensures var page := SearchOutcome(properties, owners, images, q).value;
      var m := Where(properties.rows, Matching(FilterOf(q)));
      var from := PageStart(q.pageNumber, q.pageSize);
      && |page.items| == PageLength(|m|, from, q.pageSize)
      && forall k :: 0 <= k < |page.items| ==>
           page.items[k] == Dto(m[from + k], OwnerNameOf(owners.rows, m[from + k].ownerId),
                                ImagePersistence.ImagesOf(images.rows, m[from + k].id))
    ensures var page := SearchOutcome(properties, owners, images, q).value;
      forall k :: 0 <= k < |page.items| ==>
        && (exists j :: 0 <= j < |properties.rows| && properties.rows[j].id == page.items[k].id
                        && Matches(FilterOf(q), properties.rows[j]))
        && page.items[k].ownerName == OwnerNameOf(owners.rows, page.items[k].ownerId)
        && forall i :: i in page.items[k].images <==> i in images.rows && i.propertyId == page.items[k].id
  {
    var f := FilterOf(q);
    var matching := Filtered(properties.rows, f);
    FilteredIsConjunction(properties.rows, f);
    var items := Page(matching, q.pageNumber, q.pageSize);
    var dtos := Enriched(owners, images, items);
    assert properties.fault.None? && dtos.Returned?;
    var page := SearchOutcome(properties, owners, images, q).value;
    assert page == PaginatedResult(dtos.value, |matching|, q.pageNumber, q.pageSize);
    PageRowsStored(properties.rows, f, q.pageNumber, q.pageSize);
    forall k | 0 <= k < |page.items|
      ensures exists j :: 0 <= j < |properties.rows| && properties.rows[j].id == page.items[k].id
                          && Matches(f, properties.rows[j])
    {
      assert page.items[k].id == items[k].id;
      var j :| 0 <= j < |properties.rows| && properties.rows[j] == items[k] && Matches(f, properties.rows[j]);
    }
  }

  /** Every row of a search page is a stored row that satisfies the filter. */
  lemma PageRowsStored(rows: seq<PropertyData>, f: SearchFilter, pageNumber: int32, pageSize: int32)
    ensures var items := Page(Filtered(rows, f), pageNumber, pageSize);
      forall k :: 0 <= k < |items| ==> exists j :: 0 <= j < |rows| && rows[j] == items[k] && Matches(f, rows[j])
  {
    var matching := Filtered(rows, f);
    FilteredIsConjunction(rows, f);
    var items := Page(matching, pageNumber, pageSize);
    forall k | 0 <= k < |items|
      ensures exists j :: 0 <= j < |rows| && rows[j] == items[k] && Matches(f, rows[j])
    {
      assert items[k] == matching[PageStart(pageNumber, pageSize) + k];
      assert items[k] in Where(rows, Matching(f));
      var j :| 0 <= j < |rows| && rows[j] == items[k];
    }
  }


  // ---------------------------------------------------------------------------
  // A property's detail

  /** `GetPropertyByIdHandler.Handle`: the property, then its owner, images and traces. */
  function PropertyDetailOutcome(properties: Table<PropertyData>, owners: Table<Owners.OwnerData>,
                                 images: Table<Images.ImageData>, traces: Table<Traces.TraceData>, id: Guid)
    : Result<PropertyDetailDto>
  {
    match Attempt(properties.fault, Find(properties.rows, IdOf, id))
    case Threw(e) => Caught(DetailPrefix, e)
    case Returned(found) =>
      if found.None? then NotFound(PropertyNotFound(id))
      else
      var p := found.value;
      match Attempt(owners.fault, OwnerNameOf(owners.rows, p.ownerId))
      case Threw(e) => Caught(DetailPrefix, e)
      case Returned(ownerName) =>
        match Attempt(images.fault, ImagePersistence.ImagesOf(images.rows, p.id))
        case Threw(e) => Caught(DetailPrefix, e)
        case Returned(imgs) =>
          match Attempt(traces.fault, TracePersistence.TracesOf(traces.rows, p.id))
          case Threw(e) => Caught(DetailPrefix, e)
          case Returned(ts) =>
            Ok(PropertyDetailDto(p.id, p.ownerId, ownerName, p.name, p.description, p.address, p.price,
                                 p.codeInternal, p.year, p.created, imgs, TraceDtos(ts)))
  }

  /** With every table reachable, a stored property's detail carries its own fields, its owner's
      name or "Unknown", exactly its images, and exactly its traces, newest sale first. */
  lemma PropertyDetail(properties: Table<PropertyData>, owners: Table<Owners.OwnerData>,
                       images: Table<Images.ImageData>, traces: Table<Traces.TraceData>, j: nat)
    requires properties.fault.None? && owners.fault.None? && images.fault.None? && traces.fault.None?
    requires UniqueKeys(properties.rows, IdOf) && j < |properties.rows|
    ensures var p := properties.rows[j];
      var r := PropertyDetailOutcome(properties, owners, images, traces, p.id);
      && r.Ok?
      && r.value.id == p.id && r.value.ownerId == p.ownerId && r.value.name == p.name
      && r.value.description == p.description && r.value.address == p.address && r.value.price == p.price
      && r.value.codeInternal == p.codeInternal && r.value.year == p.year && r.value.created == p.created
      && r.value.ownerName == OwnerNameOf(owners.rows, p.ownerId)
      && (forall i :: i in r.value.images <==> i in images.rows && i.propertyId == p.id)
      && (forall t :: t in traces.rows && t.propertyId == p.id ==> TraceDtoOf(t) in r.value.traces)
      && (forall d :: d in r.value.traces ==> exists t :: t in traces.rows && t.propertyId == p.id && d == TraceDtoOf(t))
      && (forall a, b :: 0 <= a < b < |r.value.traces| ==> r.value.traces[a].dateSale >= r.value.traces[b].dateSale)
  {
    var p := properties.rows[j];
    FindUnique(properties.rows, IdOf, j);
    var dtos := TraceDtos(TracePersistence.TracesOf(traces.rows, p.id));
    var d := PropertyDetailDto(p.id, p.ownerId, OwnerNameOf(owners.rows, p.ownerId), p.name, p.description, p.address,
                               p.price, p.codeInternal, p.year, p.created, ImagePersistence.ImagesOf(images.rows, p.id), dtos);
    assert PropertyDetailOutcome(properties, owners, images, traces, p.id) == Ok(d);
    TracesOfProperty(traces.rows, p.id);
  }

  /** The trace DTOs of a property: one for each of its traces, none for another's, newest sale first. */
  lemma TracesOfProperty(rows: seq<Traces.TraceData>, propertyId: Guid)
    ensures var dtos := TraceDtos(TracePersistence.TracesOf(rows, propertyId));
      && (forall t :: t in rows && t.propertyId == propertyId ==> TraceDtoOf(t) in dtos)
      && (forall d :: d in dtos ==> exists t :: t in rows && t.propertyId == propertyId && d == TraceDtoOf(t))
      && (forall a, b :: 0 <= a < b < |dtos| ==> dtos[a].dateSale >= dtos[b].dateSale)
  {
    var ts := TracePersistence.TracesOf(rows, propertyId);
    var dtos := TraceDtos(ts);
    forall t | t in rows && t.propertyId == propertyId ensures TraceDtoOf(t) in dtos {
      DtoOfEachTrace(ts, t);
    }
    forall e | e in dtos ensures exists t :: t in rows && t.propertyId == propertyId && e == TraceDtoOf(t) {
      DtoFromSomeTrace(ts, e);
    }
    DtosKeepOrder(ts);
  }

  lemma DtoOfEachTrace(ts: seq<Traces.TraceData>, t: Traces.TraceData)
    requires t in ts
    ensures TraceDtoOf(t) in TraceDtos(ts)
  {
    var k :| 0 <= k < |ts| && ts[k] == t;
    assert TraceDtos(ts)[k] == TraceDtoOf(t);
  }

  lemma DtoFromSomeTrace(ts: seq<Traces.TraceData>, d: TraceDto)
    requires d in TraceDtos(ts)
    ensures exists t :: t in ts && d == TraceDtoOf(t)
  {
    var k :| 0 <= k < |TraceDtos(ts)| && TraceDtos(ts)[k] == d;
    assert ts[k] in ts;
  }

  lemma DtosKeepOrder(ts: seq<Traces.TraceData>)
    requires TracePersistence.NewestFirst(ts)
    ensures forall a, b :: 0 <= a < b < |TraceDtos(ts)| ==> TraceDtos(ts)[a].dateSale >= TraceDtos(ts)[b].dateSale
  {
    forall a, b | 0 <= a < b < |TraceDtos(ts)| ensures TraceDtos(ts)[a].dateSale >= TraceDtos(ts)[b].dateSale {
      assert TraceDtos(ts)[a] == TraceDtoOf(ts[a]) && TraceDtos(ts)[b] == TraceDtoOf(ts[b]);
    }
  }

  /** A missing property is answered 404 before the owner, image and trace tables are read, so
      their contents and faults make no difference. */
  lemma DetailMissingReadsNothingElse(properties: Table<PropertyData>, owners: Table<Owners.OwnerData>,
                                      images: Table<Images.ImageData>, traces: Table<Traces.TraceData>,
                                      otherOwners: Table<Owners.OwnerData>, otherImages: Table<Images.ImageData>,
                                      otherTraces: Table<Traces.TraceData>, id: Guid)
    requires properties.fault.None? && forall j :: 0 <= j < |properties.rows| ==> properties.rows[j].id != id
    ensures PropertyDetailOutcome(properties, owners, images, traces, id) == NotFound(PropertyNotFound(id))
    ensures PropertyDetailOutcome(properties, otherOwners, otherImages, otherTraces, id) == NotFound(PropertyNotFound(id))
  {
  }

  // ---------------------------------------------------------------------------
  // An owner's listings

  /** The owner-listing loop: one DTO per property, all under the owner's name, each with its
      images; the first exception ends the loop. */
  function Listed(images: Table<Images.ImageData>, ownerName: string, owned: seq<PropertyData>)
    : (r: Outcome<seq<PropertyDto>>)
    ensures r.Threw? <==> owned != [] && images.fault.Some?
    ensures r.Threw? ==> r.exception == images.fault.value
    ensures r.Returned? ==> |r.value| == |owned| && forall k :: 0 <= k < |owned| ==>
      r.value[k] == Dto(owned[k], ownerName, ImagePersistence.ImagesOf(images.rows, owned[k].id))
  {
    if |owned| == 0 then Returned([])
    else match Listed(images, ownerName, owned[..|owned| - 1])
      case Threw(e) => Threw(e)
      case Returned(front) =>
        var p := owned[|owned| - 1];
        match Attempt(images.fault, ImagePersistence.ImagesOf(images.rows, p.id))
        case Threw(e) => Threw(e)
        case Returned(imgs) => Returned(front + [Dto(p, ownerName, imgs)])
  }

  /** `GetPropertiesByOwnerIdHandler.Handle`. */
  function ByOwnerOutcome(properties: Table<PropertyData>, owners: Table<Owners.OwnerData>,
                          images: Table<Images.ImageData>, ownerId: Guid): Result<seq<PropertyDto>>
  {
    match Attempt(owners.fault, Find(owners.rows, OwnerPersistence.IdOf, ownerId))
    case Threw(e) => Caught(ByOwnerPrefix, e)
    case Returned(found) =>
      if found.None? then NotFound(OwnerNotFound(ownerId))
      else
      var owner := found.value;
      match Attempt(properties.fault, Where(properties.rows, OwnedBy(ownerId)))
      case Threw(e) => Caught(ByOwnerPrefix, e)
      case Returned(owned) =>
        match Listed(images, owner.name, owned)
        case Threw(e) => Caught(ByOwnerPrefix, e)
        case Returned(dtos) => Ok(dtos)
  }

  method GetPropertiesByOwnerId(properties: PropertyRepository, owners: OwnerPersistence.OwnerRepository,
                                images: ImagePersistence.ImageRepository, ownerId: Guid)
    returns (r: Result<seq<PropertyDto>>)
    ensures r == ByOwnerOutcome(properties.State(), owners.State(), images.State(), ownerId)
  {
    var owner := owners.GetByIdAsync(ownerId);
    if owner.Threw? {
      return Caught(ByOwnerPrefix, owner.exception);
    }
    if owner.value.None? {
      return NotFound(OwnerNotFound(ownerId));
    }
    var ownerName := owner.value.value.name;
    var owned := properties.GetByOwnerIdAsync(ownerId);
    if owned.Threw? {
      return Caught(ByOwnerPrefix, owned.exception);
    }
    var listed := ListOwned(images, ownerName, owned.value);
    match listed {
      case Threw(e) => r := Caught(ByOwnerPrefix, e);
      case Returned(dtos) => r := Ok(dtos);
    }
  }

  /** The handler's loop over the owner's properties: each one's images are read in turn and
      its DTO appended, until the first exception. */
  method ListOwned(images: ImagePersistence.ImageRepository, ownerName: string, items: seq<PropertyData>)
    returns (r: Outcome<seq<PropertyDto>>)
    ensures r == Listed(images.State(), ownerName, items)
  {
    var result: seq<PropertyDto> := [];
    var i := 0;
    while i < |items|
      invariant 0 <= i <= |items|
      invariant Listed(images.State(), ownerName, items[..i]) == Returned(result)
    {
      var property := items[i];
      var propertyImages := images.GetByPropertyIdAsync(property.id);
      if propertyImages.Threw? {
        assert items[..i + 1][..i] == items[..i];
        assert Listed(images.State(), ownerName, items[..i + 1]) == Threw(propertyImages.exception);
        return Threw(propertyImages.exception);
      }
      result := result + [Dto(property, ownerName, propertyImages.value)];
      assert items[..i + 1][..i] == items[..i];
      i := i + 1;
    }
    assert items[..i] == items;
    return Returned(result);
  }

  /** With every table reachable, a stored owner's listing holds exactly that owner's properties,
      each under the owner's name; an owner without properties gets an empty list, not a failure. */
  lemma OwnerListing(properties: Table<PropertyData>, owners: Table<Owners.OwnerData>,
                     images: Table<Images.ImageData>, ownerId: Guid)
    requires properties.fault.None? && owners.fault.None? && images.fault.None?
    requires exists j :: 0 <= j < |owners.rows| && owners.rows[j].id == ownerId
    ensures var r := ByOwnerOutcome(properties, owners, images, ownerId);
      && r.Ok?
      && |r.value| == |Where(properties.rows, OwnedBy(ownerId))|
      && (forall k :: 0 <= k < |r.value| ==>
            r.value[k].ownerId == ownerId && r.value[k].ownerName == OwnerNameOf(owners.rows, ownerId))
      && (forall p :: p in properties.rows && p.ownerId == ownerId ==>
            exists k :: 0 <= k < |r.value| && r.value[k].id == p.id)
      && ((forall p :: p in properties.rows ==> p.ownerId != ownerId) ==> r.value == [])
  {
    var owned := Where(properties.rows, OwnedBy(ownerId));
    var found := Find(owners.rows, OwnerPersistence.IdOf, ownerId);
    assert found.Some?;
    var listed := Listed(images, found.value.name, owned);
    assert listed.Returned?;
    var dtos := listed.value;
    assert ByOwnerOutcome(properties, owners, images, ownerId) == Ok(dtos);
    forall k | 0 <= k < |dtos|
      ensures dtos[k].ownerId == ownerId && dtos[k].ownerName == OwnerNameOf(owners.rows, ownerId)
    {
      assert dtos[k] == Dto(owned[k], found.value.name, ImagePersistence.ImagesOf(images.rows, owned[k].id));
      assert OwnedBy(ownerId)(owned[k]);
    }
    forall p | p in properties.rows && p.ownerId == ownerId
      ensures exists k :: 0 <= k < |dtos| && dtos[k].id == p.id
    {
      var m :| 0 <= m < |properties.rows| && properties.rows[m] == p;
      assert OwnedBy(ownerId)(properties.rows[m]);
      var k :| 0 <= k < |owned| && owned[k] == p;
      assert dtos[k] == Dto(owned[k], found.value.name, ImagePersistence.ImagesOf(images.rows, owned[k].id));
    }
    if |owned| > 0 {
      assert owned[0] in properties.rows && owned[0].ownerId == ownerId;
    }
  }
}
