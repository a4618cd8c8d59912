/** The sale-history table and its repository
    (src/Million.Infrastructure/Persistence/Sql/Repositories/PropertyTraceRepository.cs): a
    property's traces newest sale first, the latest of them, and the writes. */
module TracePersistence {
  import opened Common
  import opened Store
  import opened PropertyTraceEntity

  /** Newest sale first: no trace is followed by a later sale. */
  predicate NewestFirst(s: seq<TraceData>) {
    forall i, j :: 0 <= i < j < |s| ==> s[i].dateSale >= s[j].dateSale
  }

  /** Puts `x` into a newest-first sequence, ahead of every trace not later than it. */
  function Insert(x: TraceData, s: seq<TraceData>): (r: seq<TraceData>)
    requires NewestFirst(s)
    ensures NewestFirst(r)
    ensures multiset(r) == multiset(s) + multiset{x}
    ensures |r| == |s| + 1
    ensures forall i :: 0 <= i < |r| ==> r[i] == x || r[i] in s
  {
    if |s| == 0 || x.dateSale >= s[0].dateSale then
      ConsNewestFirst(x, s);
      [x] + s
    else
      var rest := Insert(x, s[1..]);
      InsertBehindHead(x, s, rest);
      [s[0]] + rest
  }

  /** The step of `Insert` that keeps the head: the head stays ahead of the insertion into the tail. */
  lemma InsertBehindHead(x: TraceData, s: seq<TraceData>, rest: seq<TraceData>)
    requires NewestFirst(s) && |s| > 0 && x.dateSale < s[0].dateSale
    requires NewestFirst(rest)
    requires multiset(rest) == multiset(s[1..]) + multiset{x}
    requires |rest| == |s[1..]| + 1
    requires forall i :: 0 <= i < |rest| ==> rest[i] == x || rest[i] in s[1..]
    ensures NewestFirst([s[0]] + rest)
    ensures multiset([s[0]] + rest) == multiset(s) + multiset{x}
    ensures |[s[0]] + rest| == |s| + 1
    ensures forall i :: 0 <= i < |[s[0]] + rest| ==> ([s[0]] + rest)[i] == x || ([s[0]] + rest)[i] in s
  {
    assert s == [s[0]] + s[1..];
    forall i | 0 <= i < |rest| ensures s[0].dateSale >= rest[i].dateSale {
      if rest[i] != x {
        var k :| 0 <= k < |s[1..]| && s[1..][k] == rest[i];
        assert s[k + 1] == rest[i];
      }
    }
    ConsNewestFirst(s[0], rest);
    forall i | 0 <= i < |[s[0]] + rest| ensures ([s[0]] + rest)[i] == x || ([s[0]] + rest)[i] in s {
      if i > 0 {
        assert ([s[0]] + rest)[i] == rest[i - 1];
      }
    }
  }

  /** Putting a trace not earlier than any of a newest-first sequence at its head keeps it newest first. */
  lemma ConsNewestFirst(h: TraceData, t: seq<TraceData>)
    requires NewestFirst(t)
    requires forall i :: 0 <= i < |t| ==> h.dateSale >= t[i].dateSale
    ensures NewestFirst([h] + t)
  {
    forall i, j | 0 <= i < j < |[h] + t| ensures ([h] + t)[i].dateSale >= ([h] + t)[j].dateSale {
      if i > 0 { assert ([h] + t)[i] == t[i - 1]; }
      assert ([h] + t)[j] == t[j - 1];
    }
  }

  /** `OrderByDescending(t => t.DateSale)`: a stable sort, newest sale first. */
  function ByDateDescending(s: seq<TraceData>): (r: seq<TraceData>)
    ensures NewestFirst(r)
    ensures multiset(r) == multiset(s)
  {
    if |s| == 0 then []
    else
      assert s == [s[0]] + s[1..];
      Insert(s[0], ByDateDescending(s[1..]))
  }

  function OfProperty(propertyId: Guid): TraceData -> bool { (t: TraceData) => t.propertyId == propertyId }

  /** What the trace table's columns hold (PropertyTraceConfiguration.cs): a name of at most 100
      UTF-16 code units and a value and tax that fit `decimal(18,2)`. A wider row makes
      `SaveChangesAsync` throw. */
  predicate TraceFits(d: TraceData) {
    Utf16Length(d.name) <= 100 && FitsDecimal18_2(d.value) && FitsDecimal18_2(d.tax)
  }

  /** The query of both reads: the property's traces, newest sale first. */
  function TracesOf(rows: seq<TraceData>, propertyId: Guid): (r: seq<TraceData>)
    ensures NewestFirst(r)
    ensures forall t :: t in r <==> t in rows && t.propertyId == propertyId
  {
    var mine := Where(rows, OfProperty(propertyId));
    var sorted := ByDateDescending(mine);
    assert forall t :: t in sorted <==> t in multiset(mine);
    sorted
  }

  /** The sale-history table. */
  class TraceRepository {
    var rows: seq<TraceData>
    const fault: Option<Exception>

    constructor (rows: seq<TraceData>, fault: Option<Exception>)
      ensures this.rows == rows && this.fault == fault
    {
      this.rows := rows;
      this.fault := fault;
    }

    function State(): Table<TraceData>
      reads this
    {
      Table(rows, fault)
    }

    /** `GetByPropertyIdAsync`: exactly the property's traces, newest sale first. */
    function GetByPropertyIdAsync(propertyId: Guid): (r: Outcome<seq<TraceData>>)
      reads this
      ensures r.Returned? <==> fault.None?
      ensures r.Returned? ==> NewestFirst(r.value)
      ensures r.Returned? ==> forall t :: t in r.value <==> t in rows && t.propertyId == propertyId
    {
      Attempt(fault, TracesOf(rows, propertyId))
    }

    /** `GetLatestByPropertyIdAsync`: the first of that ordering, null when the property has no trace. */
    function GetLatestByPropertyIdAsync(propertyId: Guid): (r: Outcome<Option<TraceData>>)
      reads this
      ensures r.Returned? <==> fault.None?
      ensures r.Returned? ==> (r.value.None? <==> forall t :: t in rows ==> t.propertyId != propertyId)
      ensures r.Returned? && r.value.Some? ==>
        && r.value.value in rows && r.value.value.propertyId == propertyId
        && forall t :: t in rows && t.propertyId == propertyId ==> t.dateSale <= r.value.value.dateSale
    {
      var sorted := TracesOf(rows, propertyId);
      if |sorted| == 0 then
        Attempt(fault, None)
      else
        assert sorted[0] in sorted;
        assert forall t :: t in sorted ==> t.dateSale <= sorted[0].dateSale;
        Attempt(fault, Some(sorted[0]))
    }

    method AddAsync(trace: TraceData) returns (r: Outcome<Guid>)
      modifies this
      ensures (r, rows) == Add(fault, old(rows), IdOf, TraceFits, trace)
    {
      var step := Add(fault, rows, IdOf, TraceFits, trace);
      r, rows := step.0, step.1;
    }

    method DeleteAsync(id: Guid) returns (r: Outcome<bool>)
      modifies this
      ensures (r, rows) == Delete(fault, old(rows), IdOf, id)
    {
      var step := Delete(fault, rows, IdOf, id);
      r, rows := step.0, step.1;
    }
  }

  /** The traces sold at date `d`. */
  function SoldOn(d: int): TraceData -> bool { (t: TraceData) => t.dateSale == d }

  /** `Insert` puts `x` ahead of every trace with its own sale date, and leaves the traces of
      every other date as they were. */
  lemma {:induction false} InsertKeepsTies(x: TraceData, t: seq<TraceData>, d: int)
    requires NewestFirst(t)
    ensures Where(Insert(x, t), SoldOn(d)) == if x.dateSale == d then [x] + Where(t, SoldOn(d)) else Where(t, SoldOn(d))
  {
    var p := SoldOn(d);
    if |t| == 0 || x.dateSale >= t[0].dateSale {
      assert ([x] + t)[1..] == t;
    } else {
      var rest := Insert(x, t[1..]);
      InsertKeepsTies(x, t[1..], d);
      assert ([t[0]] + rest)[1..] == rest;
      if x.dateSale == d {
        assert !p(t[0]);
      }
    }
  }

  /** The sort is stable: for every sale date, the traces sold on it come out in exactly their
      table order. */
  lemma {:induction false} SortIsStable(s: seq<TraceData>, d: int)
    ensures Where(ByDateDescending(s), SoldOn(d)) == Where(s, SoldOn(d))
  {
    if |s| > 0 {
      SortIsStable(s[1..], d);
      InsertKeepsTies(s[0], ByDateDescending(s[1..]), d);
    }
  }

  /** A sequence already newest first is left as it is. */
  lemma {:induction false} SortedUnchanged(s: seq<TraceData>)
    requires NewestFirst(s)
    ensures ByDateDescending(s) == s
  {
    if |s| > 0 {
      SortedUnchanged(s[1..]);
      assert s == [s[0]] + s[1..];
    }
  }
}
