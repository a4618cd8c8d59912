/** The property table and its repository
    (src/Million.Infrastructure/Persistence/Sql/Repositories/PropertyRepository.cs): lookups,
    the filtered search with and without paging, and the writes. The table keeps its rows in a
    stable order; a repository whose `fault` is set throws it from every call, as a store that
    is down does. */
module PropertyPersistence {
  import opened Common
  import opened Store
  import opened PropertyEntity

  /** The optional search criteria: name and address fragments and inclusive price bounds. */
  datatype SearchFilter = SearchFilter(name: Option<string>, address: Option<string>, minPrice: Option<int>, maxPrice: Option<int>)

  const NoFilter: SearchFilter := SearchFilter(None, None, None, None)

  /** A property satisfies every criterion that is present; a null or white-space fragment and a
      missing bound are no criterion at all. */
  predicate Matches(f: SearchFilter, p: PropertyData) {
    && (IsNullOrWhiteSpace(f.name) || Contains(p.name, f.name.value))
    && (IsNullOrWhiteSpace(f.address) || Contains(p.address, f.address.value))
    && (f.minPrice.None? || p.price >= f.minPrice.value)
    && (f.maxPrice.None? || p.price <= f.maxPrice.value)
  }

  /** `Matches` as a predicate value, for `Where`. */
  function Matching(f: SearchFilter): (r: PropertyData -> bool)
    ensures forall p :: r(p) == Matches(f, p)
  {
    (p: PropertyData) => Matches(f, p)
  }

  /** The element tests of the four `Where` calls. */
  function NameContains(n: string): PropertyData -> bool { (p: PropertyData) => Contains(p.name, n) }
  function AddressContains(a: string): PropertyData -> bool { (p: PropertyData) => Contains(p.address, a) }
  function PriceAtLeast(lo: int): PropertyData -> bool { (p: PropertyData) => p.price >= lo }
  function PriceAtMost(hi: int): PropertyData -> bool { (p: PropertyData) => p.price <= hi }

  /** The query both searches build: one `Where` per criterion that is present, in the order name,
      address, minimum price, maximum price. */
  function Filtered(rows: seq<PropertyData>, f: SearchFilter): seq<PropertyData> {
    var byName := if !IsNullOrWhiteSpace(f.name) then Where(rows, NameContains(f.name.value)) else rows;
    var byAddress := if !IsNullOrWhiteSpace(f.address) then Where(byName, AddressContains(f.address.value)) else byName;
    var byMin := if f.minPrice.Some? then Where(byAddress, PriceAtLeast(f.minPrice.value)) else byAddress;
    if f.maxPrice.Some? then Where(byMin, PriceAtMost(f.maxPrice.value)) else byMin
  }

  /** The window of one page as the source computes it: `Skip((pageNumber - 1) * pageSize)` in
      unchecked 32-bit `int` arithmetic, then `Take(pageSize)`. */
  function PageAsWritten<T>(s: seq<T>, pageNumber: int32, pageSize: int32): seq<T> {
    Take(Skip(s, Wrap32(Offset(pageNumber, pageSize)) as int), pageSize as int)
  }

  /** The number of rows before a page: `(pageNumber - 1) * pageSize` without overflow. */
  function Offset(pageNumber: int32, pageSize: int32): (r: int)
    ensures pageNumber >= 1 && pageSize >= 1 ==> r >= 0
  {
    (pageNumber as int - 1) * pageSize as int
  }

  /** The index of a page's first row: the offset, or 0 when the offset is not positive, since
      `Skip` skips nothing for a count at or below zero. */
  function PageStart(pageNumber: int32, pageSize: int32): nat {
    if Offset(pageNumber, pageSize) <= 0 then 0 else Offset(pageNumber, pageSize)
  }

  /** How many of `n` rows a page of `pageSize` starting at index `from` holds. */
  function PageLength(n: nat, from: nat, pageSize: int32): nat {
    if pageSize <= 0 || from >= n then 0 else Min(pageSize as int, n - from)
  }

  /** The window of one page with the offset computed without overflow: the `PageLength`
      consecutive elements from `PageStart` on. */
  function Page<T>(s: seq<T>, pageNumber: int32, pageSize: int32): (r: seq<T>)
    ensures |r| <= |s| && (pageSize <= 0 ==> r == []) && (pageSize > 0 ==> |r| <= pageSize as int)
    ensures |r| == PageLength(|s|, PageStart(pageNumber, pageSize), pageSize)
    ensures forall i :: 0 <= i < |r| ==> r[i] == s[PageStart(pageNumber, pageSize) + i]
  {
    var from := PageStart(pageNumber, pageSize);
    var skipped := Skip(s, Offset(pageNumber, pageSize));
    assert |skipped| == if from >= |s| then 0 else |s| - from;
    assert forall i :: 0 <= i < |skipped| ==> skipped[i] == s[from + i];
    Take(skipped, pageSize as int)
  }

  function Min(a: int, b: int): int { if a <= b then a else b }

  /** The first `k` pages one after the other. */
  function FirstPages<T>(s: seq<T>, pageSize: int32, k: nat): seq<T>
    requires k < 0x8000_0000
  {
    if k == 0 then [] else FirstPages(s, pageSize, k - 1) + Page(s, (k as int) as int32, pageSize)
  }

  function OwnedBy(ownerId: Guid): PropertyData -> bool { (p: PropertyData) => p.ownerId == ownerId }

  /** What the property table's columns hold (PropertyConfiguration.cs): a name of at most 100, a
      description of at most 500, an address of at most 200 and a code of at most 50 UTF-16 code
      units, and a price that fits `decimal(18,2)`. A wider row makes `SaveChangesAsync` throw. */
  predicate PropertyFits(d: PropertyData) {
    && Utf16Length(d.name) <= 100
    && Utf16Length(d.description) <= 500
    && Utf16Length(d.address) <= 200
    && Utf16Length(d.codeInternal) <= 50
    && FitsDecimal18_2(d.price)
  }

  /** The property table. */
  class PropertyRepository {
    var rows: seq<PropertyData>
    const fault: Option<Exception>

    constructor (rows: seq<PropertyData>, fault: Option<Exception>)
      ensures this.rows == rows && this.fault == fault
    {
      this.rows := rows;
      this.fault := fault;
    }

    function State(): Table<PropertyData>
      reads this
    {
      Table(rows, fault)
    }

    /** What `GetByIdAsync(id)` finds. */
    function Lookup(id: Guid): (r: Outcome<Option<PropertyData>>)
      reads this
      ensures r.Returned? <==> fault.None?
      ensures r.Returned? ==> (r.value.Some? <==> exists j :: 0 <= j < |rows| && rows[j].id == id)
      ensures r.Returned? && r.value.Some? ==> r.value.value in rows && r.value.value.id == id
    {
      Attempt(fault, Find(rows, IdOf, id))
    }

    /** `GetByIdAsync`: the stored property with that id, as a fresh entity object, or null. */
    method GetByIdAsync(id: Guid) returns (r: Outcome<Option<Property>>)
      ensures r.Threw? ==> Lookup(id) == Threw(r.exception)
      ensures r.Returned? ==> Lookup(id).Returned? && (r.value.None? <==> Lookup(id).value.None?)
      ensures r.Returned? && r.value.Some? ==> fresh(r.value.value) && Lookup(id).value == Some(r.value.value.Data())
    {
      var found := Lookup(id);
      if found.Threw? {
        r := Threw(found.exception);
      } else if found.value.None? {
        r := Returned(None);
      } else {
        var p := new Property.Load(found.value.value);
        r := Returned(Some(p));
      }
    }

    /** `SearchAsync`: every property satisfying the filter, in table order. */
    function SearchAsync(f: SearchFilter): (r: Outcome<seq<PropertyData>>)
      reads this
      ensures r.Returned? <==> fault.None?
      ensures r.Returned? ==> forall i :: 0 <= i < |r.value| ==> r.value[i] in rows && Matches(f, r.value[i])
      ensures r.Returned? ==> forall i :: 0 <= i < |rows| && Matches(f, rows[i]) ==> rows[i] in r.value
    {
      FilteredIsConjunction(rows, f);
      Attempt(fault, Filtered(rows, f))
    }

    /** `SearchPagedAsync`: the count of all matches, and the requested page of them: the matches
        in table order, skipping `(pageNumber - 1) * pageSize` of them and taking `pageSize`. The
        offset is computed without overflow; it agrees with the source's 32-bit computation
        whenever that one does not wrap. */
    function SearchPagedAsync(pageNumber: int32, pageSize: int32, f: SearchFilter): (r: Outcome<(seq<PropertyData>, int)>)
      reads this
      ensures r.Returned? <==> fault.None?
      ensures r.Returned? ==> r.value.1 == |Where(rows, Matching(f))| && |r.value.0| <= r.value.1
      ensures r.Returned? ==> (pageSize <= 0 ==> r.value.0 == []) && (pageSize > 0 ==> |r.value.0| <= pageSize as int)
      ensures r.Returned? ==> var m := Where(rows, Matching(f)); var from := PageStart(pageNumber, pageSize);
        && |r.value.0| == PageLength(|m|, from, pageSize)
        && forall i :: 0 <= i < |r.value.0| ==> r.value.0[i] == m[from + i]
      ensures r.Returned? ==> forall i :: 0 <= i < |r.value.0| ==> r.value.0[i] in rows && Matches(f, r.value.0[i])
      ensures r.Returned? && -0x8000_0000 <= Offset(pageNumber, pageSize) < 0x8000_0000 ==>
        r.value.0 == PageAsWritten(Filtered(rows, f), pageNumber, pageSize)
    {
      var matching := Filtered(rows, f);
      FilteredIsConjunction(rows, f);
      var page := Page(matching, pageNumber, pageSize);
      assert forall i :: 0 <= i < |page| ==> page[i] in matching;
      PageAsWrittenWhereInRange(matching, pageNumber, pageSize);
      Attempt(fault, (page, |matching|))
    }

    /** `ExistsAsync`. */
    function ExistsAsync(id: Guid): (r: Outcome<bool>)
      reads this
      ensures r.Returned? <==> fault.None?
      ensures r.Returned? ==> (r.value <==> exists j :: 0 <= j < |rows| && rows[j].id == id)
    {
      Attempt(fault, Find(rows, IdOf, id).Some?)
    }

    /** `CodeInternalExistsAsync`: whether a property other than `excludeId` carries the code. */
    function CodeInternalExistsAsync(codeInternal: string, excludeId: Option<Guid>): (r: Outcome<bool>)
      reads this
      ensures r.Returned? <==> fault.None?
      ensures r.Returned? ==> (r.value <==> exists j :: 0 <= j < |rows| && rows[j].codeInternal == codeInternal
                                                        && (excludeId.None? || rows[j].id != excludeId.value))
    {
      var candidates := if excludeId.Some? then var ex := excludeId.value; Where(rows, (p: PropertyData) => p.id != ex) else rows;
      Attempt(fault, exists i :: 0 <= i < |candidates| && candidates[i].codeInternal == codeInternal)
    }

    /** `GetByOwnerIdAsync`: the owner's properties, in table order. */
    function GetByOwnerIdAsync(ownerId: Guid): (r: Outcome<seq<PropertyData>>)
      reads this
      ensures r.Returned? <==> fault.None?
      ensures r.Returned? ==> forall i :: 0 <= i < |r.value| ==> r.value[i] in rows && r.value[i].ownerId == ownerId
      ensures r.Returned? ==> forall i :: 0 <= i < |rows| && rows[i].ownerId == ownerId ==> rows[i] in r.value
    {
      Attempt(fault, Where(rows, OwnedBy(ownerId)))
    }

    method AddAsync(property: Property) returns (r: Outcome<Guid>)
      modifies this
      ensures (r, rows) == Add(fault, old(rows), IdOf, PropertyFits, property.Data())
    {
      var step := Add(fault, rows, IdOf, PropertyFits, property.Data());
      r, rows := step.0, step.1;
    }

    method UpdateAsync(property: Property) returns (r: Outcome<bool>)
      modifies this
      ensures (r, rows) == Update(fault, old(rows), IdOf, PropertyFits, property.Data())
    {
      var step := Update(fault, rows, IdOf, PropertyFits, property.Data());
      r, rows := step.0, step.1;
    }

    method DeleteAsync(id: Guid) returns (r: Outcome<bool>)
      modifies this
      ensures (r, rows) == Delete(fault, old(rows), IdOf, id)
    {
      var step := Delete(fault, rows, IdOf, id);
      r, rows := step.0, step.1;
    }
  }

  // ---------------------------------------------------------------------------
  // Properties of the search

  /** The four conditional `Where` calls select exactly the properties satisfying every present
      criterion, in table order: the criteria are conjunctive and the price bounds inclusive. */
  lemma {:induction false} FilteredIsConjunction(rows: seq<PropertyData>, f: SearchFilter)
    ensures Filtered(rows, f) == Where(rows, Matching(f))
  {
    var ok1 := (p: PropertyData) => IsNullOrWhiteSpace(f.name) || Contains(p.name, f.name.value);
    var ok2 := (p: PropertyData) => IsNullOrWhiteSpace(f.address) || Contains(p.address, f.address.value);
    var ok3 := (p: PropertyData) => f.minPrice.None? || p.price >= f.minPrice.value;
    var ok4 := (p: PropertyData) => f.maxPrice.None? || p.price <= f.maxPrice.value;
    FilteredIsWhereOfAll(rows, f, ok1, ok2, ok3, ok4);
    var all := Both(Both(Both(ok1, ok2), ok3), ok4);
    forall i | 0 <= i < |rows|
      ensures all(rows[i]) == Matching(f)(rows[i])
    {
      var x := rows[i];
      assert all(x) == (ok1(x) && ok2(x) && ok3(x) && ok4(x));
    }
    WhereCongruent(rows, all, Matching(f));
  }

  /** The four steps of the query select what one `Where` with the conjunction of the four
      criterion tests selects. */
  lemma FilteredIsWhereOfAll(rows: seq<PropertyData>, f: SearchFilter, ok1: PropertyData -> bool, ok2: PropertyData -> bool,
                             ok3: PropertyData -> bool, ok4: PropertyData -> bool)
    requires forall p :: ok1(p) == (IsNullOrWhiteSpace(f.name) || NameContains(f.name.GetOr(""))(p))
    requires forall p :: ok2(p) == (IsNullOrWhiteSpace(f.address) || AddressContains(f.address.GetOr(""))(p))
    requires forall p :: ok3(p) == (f.minPrice.None? || PriceAtLeast(f.minPrice.GetOr(0))(p))
    requires forall p :: ok4(p) == (f.maxPrice.None? || PriceAtMost(f.maxPrice.GetOr(0))(p))
    ensures Filtered(rows, f) == Where(rows, Both(Both(Both(ok1, ok2), ok3), ok4))
  {
    var byName := if !IsNullOrWhiteSpace(f.name) then Where(rows, NameContains(f.name.value)) else rows;
    var byAddress := if !IsNullOrWhiteSpace(f.address) then Where(byName, AddressContains(f.address.value)) else byName;
    var byMin := if f.minPrice.Some? then Where(byAddress, PriceAtLeast(f.minPrice.value)) else byAddress;
    var byMax := if f.maxPrice.Some? then Where(byMin, PriceAtMost(f.maxPrice.value)) else byMin;
    assert Filtered(rows, f) == byMax;

    assert byName == Where(rows, ok1) by {
      StepIsWhere(rows, !IsNullOrWhiteSpace(f.name), NameContains(f.name.GetOr("")), ok1);
    }
    assert byAddress == Where(rows, Both(ok1, ok2)) by {
      StepIsWhere(byName, !IsNullOrWhiteSpace(f.address), AddressContains(f.address.GetOr("")), ok2);
      WhereWhere(rows, ok1, ok2);
    }
    assert byMin == Where(rows, Both(Both(ok1, ok2), ok3)) by {
      StepIsWhere(byAddress, f.minPrice.Some?, PriceAtLeast(f.minPrice.GetOr(0)), ok3);
      WhereWhere(rows, Both(ok1, ok2), ok3);
    }
    StepIsWhere(byMin, f.maxPrice.Some?, PriceAtMost(f.maxPrice.GetOr(0)), ok4);
    WhereWhere(rows, Both(Both(ok1, ok2), ok3), ok4);
  }

  /** One conditional step of the query is a `Where` with the test that accepts everything when
      the criterion is absent. */
  lemma StepIsWhere(s: seq<PropertyData>, active: bool, test: PropertyData -> bool, ok: PropertyData -> bool)
    requires forall p :: ok(p) == (!active || test(p))
    ensures (if active then Where(s, test) else s) == Where(s, ok)
  {
    if active {
      WhereCongruent(s, test, ok);
    } else {
      WhereAll(s, ok);
    }
  }

  /** With no criterion present, or only blank fragments, the search returns the whole table in order. */
  lemma {:induction false} NoCriteriaKeepAll(rows: seq<PropertyData>, name: Option<string>, address: Option<string>)
    requires IsNullOrWhiteSpace(name) && IsNullOrWhiteSpace(address)
    ensures Filtered(rows, SearchFilter(name, address, None, None)) == rows
  {
  }

  /** A page never holds more rows than the count of matches reported beside it, and that count
      never exceeds the table. */
  lemma SearchCountMatchesUnpaged(rows: seq<PropertyData>, f: SearchFilter, pageNumber: int32, pageSize: int32)
    ensures |Page(Filtered(rows, f), pageNumber, pageSize)| <= |Filtered(rows, f)|
    ensures |Filtered(rows, f)| <= |rows|
  {
    FilteredIsConjunction(rows, f);
  }

  // ---------------------------------------------------------------------------
  // Paging

  /** As written, page 1073741825 of size 4 starts at offset 4294967296, which wraps to 0: any
      table with fewer rows than that answers with its first page instead of an empty one. */
  lemma PageOffsetOverflow<T>(s: seq<T>)
    requires 0 < |s| < 0x1_0000_0000
    ensures PageAsWritten(s, 1073741825, 4) == Take(s, 4) != []
    ensures Page(s, 1073741825, 4) == []
  {
    assert Offset(1073741825, 4) == 0x1_0000_0000;
    assert Wrap32(0x1_0000_0000) == 0;
  }

  /** Where no overflow is possible, the two computations agree. */
  lemma PageAsWrittenInRange<T>(s: seq<T>, pageNumber: int32, pageSize: int32)
    requires -0x8000_0000 <= Offset(pageNumber, pageSize) < 0x8000_0000
    ensures PageAsWritten(s, pageNumber, pageSize) == Page(s, pageNumber, pageSize)
  {
  }

  /** `PageAsWrittenInRange` under an implication, for use inside a contract. */
  lemma PageAsWrittenWhereInRange<T>(s: seq<T>, pageNumber: int32, pageSize: int32)
    ensures -0x8000_0000 <= Offset(pageNumber, pageSize) < 0x8000_0000 ==>
      PageAsWritten(s, pageNumber, pageSize) == Page(s, pageNumber, pageSize)
  {
    if -0x8000_0000 <= Offset(pageNumber, pageSize) < 0x8000_0000 {
      PageAsWrittenInRange(s, pageNumber, pageSize);
    }
  }

  /** The first `k` pages of a positive size, one after the other, are the first `k * pageSize`
      elements: paging neither skips nor repeats an element. */
  lemma {:induction false} PagesTile<T>(s: seq<T>, pageSize: int32, k: nat)
    requires pageSize >= 1 && k < 0x8000_0000
    ensures FirstPages(s, pageSize, k) == Take(s, k * pageSize as int)
  {
    if k > 0 {
      PagesTile(s, pageSize, k - 1);
      var size := pageSize as int;
      var start := (k - 1) * size;
      assert k * size == start + size;
      PageAfterTake(s, (k as int) as int32, pageSize, start);
    }
  }

  /** A page from a positive offset continues the prefix before it: the prefix and the page
      together are the prefix one page longer. */
  lemma PageAfterTake<T>(s: seq<T>, pageNumber: int32, pageSize: int32, start: nat)
    requires pageSize >= 1 && Offset(pageNumber, pageSize) == start
    ensures Take(s, start) + Page(s, pageNumber, pageSize) == Take(s, start + pageSize as int)
  {
    var page := Page(s, pageNumber, pageSize);
    assert PageStart(pageNumber, pageSize) == start;
    if start >= |s| {
      assert page == [];
    } else {
      var end := if start + pageSize as int <= |s| then start + pageSize as int else |s|;
      assert page == s[start..end];
      assert s[..start] + s[start..end] == s[..end];
    }
  }

}
