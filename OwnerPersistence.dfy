/** The owner table as the handlers use it
    (src/Million.Infrastructure/Persistence/Sql/Repositories/OwnerRepository.cs): lookup by id,
    existence, and insertion. */
module OwnerPersistence {
  import opened Common
  import opened Store
  import opened OwnerEntity

  function IdOf(d: OwnerData): Guid { d.id }

  /** What the owner table's columns hold (OwnerConfiguration.cs): a name of at most 100, an
      address of at most 200 and a photo of at most 500 UTF-16 code units. A wider row makes
      `SaveChangesAsync` throw. */
  predicate OwnerFits(d: OwnerData) {
    Utf16Length(d.name) <= 100 && Utf16Length(d.address) <= 200 && Utf16Length(d.photo) <= 500
  }

  /** The owner table. */
  class OwnerRepository {
    var rows: seq<OwnerData>
    const fault: Option<Exception>

    constructor (rows: seq<OwnerData>, fault: Option<Exception>)
      ensures this.rows == rows && this.fault == fault
    {
      this.rows := rows;
      this.fault := fault;
    }

    function State(): Table<OwnerData>
      reads this
    {
      Table(rows, fault)
    }

    /** `GetByIdAsync`: the owner with that id, or null. */
    function GetByIdAsync(id: Guid): (r: Outcome<Option<OwnerData>>)
      reads this
      ensures r.Returned? <==> fault.None?
      ensures r.Returned? ==> (r.value.Some? <==> exists j :: 0 <= j < |rows| && rows[j].id == id)
      ensures r.Returned? && r.value.Some? ==> r.value.value in rows && r.value.value.id == id
    {
      Attempt(fault, Find(rows, IdOf, id))
    }

    /** `ExistsAsync`. */
    function ExistsAsync(id: Guid): (r: Outcome<bool>)
      reads this
      ensures r.Returned? <==> fault.None?
      ensures r.Returned? ==> (r.value <==> exists j :: 0 <= j < |rows| && rows[j].id == id)
    {
      Attempt(fault, Find(rows, IdOf, id).Some?)
    }

    method AddAsync(owner: Owner) returns (r: Outcome<Guid>)
      modifies this
      ensures (r, rows) == Add(fault, old(rows), IdOf, OwnerFits, owner.Data())
    {
      var step := Add(fault, rows, IdOf, OwnerFits, owner.Data());
      r, rows := step.0, step.1;
    }
  }
}
