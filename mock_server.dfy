/**
 * The example's mock backend: one table of records with sequential
 * numeric ids, bulk create, update and delete, seeding, clearing,
 * statistics and paged fetches. The browser storage the source persists
 * to is the object's own state here, and the clock is a parameter.
 */
module MockServer {
  import opened Wrappers
  import opened Values
  import opened OrderedMaps
  import opened MockQuery
  import opened SeqFacts

  datatype OperationType = CreateOp | UpdateOp | DeleteOp | SeedOp

  /** `meta.lastOperation`; the timestamp is the clock reading the caller passes in. */
  datatype Operation = Operation(kind: OperationType, reason: Option<string>, recordCount: nat, timestamp: string)

  /** One entry of a bulk update: the id to look for and the fields spread over the record. */
  datatype RecordUpdate = RecordUpdate(id: Value, data: Row)

  /** What `getStats` reports. */
  datatype Stats = Stats(recordCount: nat, lastUpdated: string)

  /** `data.map((item, index) => ({ ...item, [idColumn]: nextId + index }))`. */
  function Stamped(data: seq<Row>, nextId: int, idColumn: string): (r: seq<Row>)
    ensures |r| == |data|
  {
    seq(|data|, i requires 0 <= i < |data| => data[i][idColumn := Int(nextId + i)])
  }

  /** The new records are numbered `nextId, nextId + 1, …` in input order and keep every other field. */
  lemma StampedIds(data: seq<Row>, nextId: int, idColumn: string)
    ensures var r := Stamped(data, nextId, idColumn);
      (forall i :: 0 <= i < |r| ==> Get(r[i], idColumn) == Int(nextId + i))
      && (forall i, f :: 0 <= i < |r| && f != idColumn ==> Get(r[i], f) == Get(data[i], f))
  {
  }

  /** The record ids: numbers from 1 up to below `nextId`, no two alike. */
  predicate IdsValid(records: seq<Row>, idColumn: string, nextId: int) {
    (forall i :: 0 <= i < |records| ==> Get(records[i], idColumn).Int? && 1 <= Get(records[i], idColumn).i < nextId)
    && (forall i, j :: 0 <= i < j < |records| ==> Get(records[i], idColumn) != Get(records[j], idColumn))
  }

  /** Creating keeps the ids valid: the new ids are all at least the old `nextId`. */
  lemma CreateKeepsIds(records: seq<Row>, data: seq<Row>, idColumn: string, nextId: int)
    requires nextId >= 1 && IdsValid(records, idColumn, nextId)
    ensures IdsValid(records + Stamped(data, nextId, idColumn), idColumn, nextId + |data|)
  {
    var all := records + Stamped(data, nextId, idColumn);
    StampedIds(data, nextId, idColumn);
    forall i, j | 0 <= i < j < |all| ensures Get(all[i], idColumn) != Get(all[j], idColumn) {
      if j >= |records| && i < |records| {
        assert Get(all[i], idColumn).i < nextId <= Get(all[j], idColumn).i;
      }
    }
  }

  /** The id column of every record, in record order. */
  function IdsOf(records: seq<Row>, idColumn: string): (r: seq<Value>)
    ensures |r| == |records| && forall i :: 0 <= i < |records| ==> r[i] == Get(records[i], idColumn)
  {
    seq(|records|, i requires 0 <= i < |records| => Get(records[i], idColumn))
  }

  /** `findIndex(record => record[idColumn] === id)` over the ids. */
  function FindIndex(ids: seq<Value>, id: Value): (r: Option<nat>)
    ensures r.Some? ==> r.value < |ids| && SameValue(ids[r.value], id)
    ensures r.Some? ==> forall j :: 0 <= j < r.value ==> !SameValue(ids[j], id)
    ensures r.None? <==> forall j :: 0 <= j < |ids| ==> !SameValue(ids[j], id)
  {
    if ids == [] then None
    else if SameValue(ids[0], id) then Some(0)
    else
      match FindIndex(ids[1..], id)
      case None => None
      case Some(k) => Some(k + 1)
  }

  /** One update: the first record with the id gets the data spread over it; a missing id changes nothing. */
  function ApplyUpdate(records: seq<Row>, u: RecordUpdate, idColumn: string): (r: (seq<Row>, Option<Row>))
    ensures |r.0| == |records|
  {
    match FindIndex(IdsOf(records, idColumn), u.id)
    case None => (records, None)
    case Some(k) => (records[k := records[k] + u.data], Some(records[k] + u.data))
  }

  /** The updates applied one after the other: the records after them, and the merged records in order. */
  function ApplyUpdates(records: seq<Row>, updates: seq<RecordUpdate>, idColumn: string): (r: (seq<Row>, seq<Row>))
    ensures |r.0| == |records| && |r.1| <= |updates|
  {
    if updates == [] then (records, [])
    else
      var before := ApplyUpdates(records, updates[..|updates| - 1], idColumn);
      var step := ApplyUpdate(before.0, updates[|updates| - 1], idColumn);
      (step.0, before.1 + (if step.1.Some? then [step.1.value] else []))
  }

  /**
   * One update is a shallow merge into the first record carrying its id:
   * that record takes every field the data gives and keeps the others,
   * every other record is untouched; with no such record nothing changes
   * and nothing is reported.
   */
  lemma UpdateOne(records: seq<Row>, u: RecordUpdate, idColumn: string)
    ensures var r := ApplyUpdate(records, u, idColumn);
      match FindIndex(IdsOf(records, idColumn), u.id)
      case None =>
        (forall i :: 0 <= i < |records| ==> !SameValue(Get(records[i], idColumn), u.id))
        && r.0 == records && r.1.None?
      case Some(k) =>
        SameValue(Get(records[k], idColumn), u.id)
        && (forall j :: 0 <= j < k ==> !SameValue(Get(records[j], idColumn), u.id))
        && (forall f :: f in u.data ==> Get(r.0[k], f) == u.data[f])
        && (forall f :: f !in u.data ==> Get(r.0[k], f) == Get(records[k], f))
        && (forall j :: 0 <= j < |records| && j != k ==> r.0[j] == records[j])
        && r.1 == Some(r.0[k])
  {
  }

  /** Updates whose data leaves the id column alone keep every record's id in place. */
  lemma {:induction false} UpdateKeepsIdsOf(records: seq<Row>, updates: seq<RecordUpdate>, idColumn: string)
    requires forall i :: 0 <= i < |updates| ==> idColumn !in updates[i].data
    ensures IdsOf(ApplyUpdates(records, updates, idColumn).0, idColumn) == IdsOf(records, idColumn)
  {
    if updates != [] {
      var init := updates[..|updates| - 1];
      UpdateKeepsIdsOf(records, init, idColumn);
      var before := ApplyUpdates(records, init, idColumn).0;
      var u := updates[|updates| - 1];
      var after := ApplyUpdate(before, u, idColumn).0;
      assert IdsOf(after, idColumn) == IdsOf(before, idColumn) by {
        match FindIndex(IdsOf(before, idColumn), u.id)
        case None =>
        case Some(k) =>
          assert Get(after[k], idColumn) == Get(before[k], idColumn);
      }
    }
  }

  /** How many updates name an id among `ids`. */
  function CountFound(ids: seq<Value>, updates: seq<RecordUpdate>): (n: nat)
    ensures n <= |updates|
  {
    if updates == [] then 0
    else CountFound(ids, updates[..|updates| - 1]) + (if FindIndex(ids, updates[|updates| - 1].id).Some? then 1 else 0)
  }

  /**
   * Updates that leave the id column alone report exactly one merged
   * record for each update whose id is in the table.
   */
  lemma {:induction false} UpdateCount(records: seq<Row>, updates: seq<RecordUpdate>, idColumn: string)
    requires forall i :: 0 <= i < |updates| ==> idColumn !in updates[i].data
    ensures |ApplyUpdates(records, updates, idColumn).1| == CountFound(IdsOf(records, idColumn), updates)
  {
    if updates != [] {
      var init := updates[..|updates| - 1];
      UpdateCount(records, init, idColumn);
      UpdateKeepsIdsOf(records, init, idColumn);
    }
  }

  lemma UpdateKeepsIds(records: seq<Row>, updates: seq<RecordUpdate>, idColumn: string, nextId: int)
    requires IdsValid(records, idColumn, nextId)
    requires forall i :: 0 <= i < |updates| ==> idColumn !in updates[i].data
    ensures IdsValid(ApplyUpdates(records, updates, idColumn).0, idColumn, nextId)
  {
    var after := ApplyUpdates(records, updates, idColumn).0;
    UpdateKeepsIdsOf(records, updates, idColumn);
    assert forall i :: 0 <= i < |after| ==> Get(after[i], idColumn) == IdsOf(after, idColumn)[i];
  }

  /** `ids.includes(v)`. */
  predicate Listed(ids: seq<Value>, v: Value) {
    exists i :: 0 <= i < |ids| && SameValue(ids[i], v)
  }

  /** `records.filter(record => !ids.includes(record[idColumn]))`, defined from the right. */
  function WithoutIds(records: seq<Row>, ids: seq<Value>, idColumn: string): (r: seq<Row>)
    ensures |r| <= |records|
    ensures IsSubsequence(r, records)
    ensures forall x {:trigger multiset(r)[x]} :: multiset(r)[x] == if !Listed(ids, Get(x, idColumn)) then multiset(records)[x] else 0
  {
    if records == [] then []
    else
      var last := records[|records| - 1];
      var keep := !Listed(ids, Get(last, idColumn));
      var rest := WithoutIds(records[..|records| - 1], ids, idColumn);
      SnocSubsequence(keep, records, rest);
      MultisetSnoc(records);
      rest + (if keep then [last] else [])
  }

  /** Delete removes exactly the records whose id is listed. */
  lemma {:induction false} DeleteMembers(records: seq<Row>, ids: seq<Value>, idColumn: string)
    ensures forall x :: x in WithoutIds(records, ids, idColumn) <==> x in records && !Listed(ids, Get(x, idColumn))
  {
    if records != [] {
      var init := records[..|records| - 1];
      DeleteMembers(init, ids, idColumn);
      assert records == init + [records[|records| - 1]];
    }
  }

  /** Deleting keeps the ids valid. */
  lemma {:induction false} DeleteKeepsIds(records: seq<Row>, ids: seq<Value>, idColumn: string, nextId: int)
    requires IdsValid(records, idColumn, nextId)
    ensures IdsValid(WithoutIds(records, ids, idColumn), idColumn, nextId)
  {
    if records != [] {
      var init := records[..|records| - 1];
      var last := records[|records| - 1];
      DeleteKeepsIds(init, ids, idColumn, nextId);
      DeleteMembers(init, ids, idColumn);
      var kept := WithoutIds(init, ids, idColumn);
      if !Listed(ids, Get(last, idColumn)) {
        forall i | 0 <= i < |kept| ensures Get(kept[i], idColumn) != Get(last, idColumn) {
          assert kept[i] in init;
          var m :| 0 <= m < |init| && init[m] == kept[i];
          assert records[m] == kept[i];
        }
        AppendKeepsIds(kept, last, idColumn, nextId);
      }
    }
  }

  /** A record with a fresh, in-range id can be appended to records with valid ids. */
  lemma AppendKeepsIds(kept: seq<Row>, last: Row, idColumn: string, nextId: int)
    requires IdsValid(kept, idColumn, nextId)
    requires Get(last, idColumn).Int? && 1 <= Get(last, idColumn).i < nextId
    requires forall i :: 0 <= i < |kept| ==> Get(kept[i], idColumn) != Get(last, idColumn)
    ensures IdsValid(kept + [last], idColumn, nextId)
  {
    var r := kept + [last];
    forall i, j | 0 <= i < j < |r| ensures Get(r[i], idColumn) != Get(r[j], idColumn) {
      assert r[i] == kept[i];
      if j < |kept| {
        assert r[j] == kept[j];
      }
    }
    forall i | 0 <= i < |r|
      ensures Get(r[i], idColumn).Int? && 1 <= Get(r[i], idColumn).i < nextId
    {
      if i < |kept| {
        assert r[i] == kept[i];
      }
    }
  }

  /** Deleting an empty list of ids keeps every record. */
  lemma {:induction false} DeleteNothing(records: seq<Row>, idColumn: string)
    ensures WithoutIds(records, [], idColumn) == records
  {
    if records != [] {
      DeleteNothing(records[..|records| - 1], idColumn);
      assert records == records[..|records| - 1] + [records[|records| - 1]];
    }
  }

  /** `seed`'s reason: `reason || 'Database seeding'`. */
  function SeedReason(reason: Option<string>): (r: string)
    ensures r != ""
    ensures reason.Some? && reason.value != "" ==> r == reason.value
  {
    if reason.Some? && reason.value != "" then reason.value else "Database seeding"
  }

  class MockServer {
    const tableName: string
    const idColumn: string
    /** `db.records`. */
    var records: seq<Row>
    /** `db.meta.nextId`. */
    var nextId: int
    /** `db.meta.lastOperation`. */
    var lastOperation: Option<Operation>
    const createdAt: string
    /** `db.meta.updatedAt`, set by every save. */
    var updatedAt: string

    /** Ids are numbers below `nextId`, each used once. */
    ghost predicate Valid()
      reads this
    {
      nextId >= 1 && IdsValid(records, idColumn, nextId)
    }

    /** A server over a new, empty database (`initializeDatabase` when nothing is stored). */
    constructor (tableName: Option<string>, idColumn: string, now: string)
      ensures this.tableName == tableName.GetOr("default") && this.idColumn == idColumn
      ensures records == [] && nextId == 1 && lastOperation.None?
      ensures createdAt == now && updatedAt == now
      ensures Valid()
    {
      this.tableName := tableName.GetOr("default");
      this.idColumn := idColumn;
      records := [];
      nextId := 1;
      lastOperation := None;
      createdAt := now;
      updatedAt := now;
    }

    /** `fetch`: filter the records, sort them when asked, and cut out the page. */
    method Fetch(c: Coercions, params: FetchParams) returns (r: Response)
      requires FiltersOf(params).Valid() && PageSizeOf(params) >= 1
      ensures r == FetchOf(c, records, params)
    {
      var kept := FilterRecords(c, records, FiltersOf(params));
      var ordered := if params.sortBy.Some? && params.sortBy.value != "" then SortRows(kept, params.sortBy.value, params.sortDir != Some(Desc)) else kept;
      r := PageResponse(ordered, |kept|, PageOf(params), PageSizeOf(params));
      FetchOfSteps(c, records, params, kept, ordered);
    }

    /** `create`: number the new records from `nextId`, append them, and advance `nextId`. */
    method Create(data: seq<Row>, reason: Option<string>, now: string) returns (created: seq<Row>)
      modifies this`records, this`nextId, this`lastOperation, this`updatedAt
      ensures created == Stamped(data, old(nextId), idColumn)
      ensures records == old(records) + created
      ensures nextId == old(nextId) + |data|
      ensures lastOperation == Some(Operation(CreateOp, reason, |data|, now))
      ensures updatedAt == now
      ensures old(Valid()) ==> Valid()
    {
      if Valid() {
        CreateKeepsIds(records, data, idColumn, nextId);
      }
      created := Stamped(data, nextId, idColumn);
      records := records + created;
      nextId := nextId + |data|;
      lastOperation := Some(Operation(CreateOp, reason, |created|, now));
      updatedAt := now;
    }

    /** `update`: each update in turn merges into the record with its id; missing ids are skipped. */
    method Update(updates: seq<RecordUpdate>, reason: Option<string>, now: string) returns (updated: seq<Row>)
      modifies this`records, this`lastOperation, this`updatedAt
      ensures (records, updated) == ApplyUpdates(old(records), updates, idColumn)
      ensures lastOperation == Some(Operation(UpdateOp, reason, |updated|, now))
      ensures updatedAt == now
      ensures old(Valid()) && (forall i :: 0 <= i < |updates| ==> idColumn !in updates[i].data) ==> Valid()
    {
      var recs := records;
      updated := [];
      for i := 0 to |updates|
        invariant (recs, updated) == ApplyUpdates(records, updates[..i], idColumn)
      {
        assert updates[..i + 1][..i] == updates[..i] && updates[..i + 1][i] == updates[i];
        ghost var step := ApplyUpdate(recs, updates[i], idColumn);
        ghost var before := updated;
        var index := FindIndex(IdsOf(recs, idColumn), updates[i].id);
        if index.Some? {
          recs := recs[index.value := recs[index.value] + updates[i].data];
          updated := updated + [recs[index.value]];
        }
        assert step.0 == recs;
        assert updated == before + (if step.1.Some? then [step.1.value] else []);
      }
      assert updates[..|updates|] == updates;
      if Valid() && forall i :: 0 <= i < |updates| ==> idColumn !in updates[i].data {
        UpdateKeepsIds(records, updates, idColumn, nextId);
      }
      records := recs;
      lastOperation := Some(Operation(UpdateOp, reason, |updated|, now));
      updatedAt := now;
    }

    /** `delete`: drop the records with listed ids; the count is how many fewer records there are. */
    method Delete(ids: seq<Value>, reason: Option<string>, now: string)
      modifies this`records, this`lastOperation, this`updatedAt
      ensures records == WithoutIds(old(records), ids, idColumn)
      ensures lastOperation == Some(Operation(DeleteOp, reason, |old(records)| - |records|, now))
      ensures updatedAt == now
      ensures old(Valid()) ==> Valid()
    {
      if Valid() {
        DeleteKeepsIds(records, ids, idColumn, nextId);
      }
      var initialCount := |records|;
      records := WithoutIds(records, ids, idColumn);
      var deletedCount := initialCount - |records|;
      lastOperation := Some(Operation(DeleteOp, reason, deletedCount, now));
      updatedAt := now;
    }

    /**
     * `seed` as written: the reset of `records` and `nextId` is made to a
     * copy read from storage that is never saved, so it changes nothing
     * here; `create` reads storage again, so the old records stay and
     * numbering goes on.
     */
    method SeedAsWritten(data: seq<Row>, reason: Option<string>, now: string) returns (created: seq<Row>)
      modifies this`records, this`nextId, this`lastOperation, this`updatedAt
      ensures created == Stamped(data, old(nextId), idColumn)
      ensures records == old(records) + created
      ensures nextId == old(nextId) + |data|
      ensures lastOperation == Some(Operation(SeedOp, Some(SeedReason(reason)), |data|, now))
      ensures old(Valid()) ==> Valid()
    {
      created := Create(data, Some(SeedReason(reason)), now);
      lastOperation := Some(lastOperation.value.(kind := SeedOp));
      updatedAt := now;
    }

    /** `seed` as intended: empty the table, restart numbering at 1, and create the records. */
    method Seed(data: seq<Row>, reason: Option<string>, now: string) returns (created: seq<Row>)
      modifies this`records, this`nextId, this`lastOperation, this`updatedAt
      ensures created == Stamped(data, 1, idColumn) && records == created
      ensures nextId == 1 + |data|
      ensures lastOperation == Some(Operation(SeedOp, Some(SeedReason(reason)), |data|, now))
      ensures Valid()
    {
      records := [];
      nextId := 1;
      created := Create(data, Some(SeedReason(reason)), now);
      lastOperation := Some(lastOperation.value.(kind := SeedOp));
      updatedAt := now;
    }

    /** `clear`: no records, and numbering restarts at 1. */
    method Clear(now: string)
      modifies this`records, this`nextId, this`updatedAt
      ensures records == [] && nextId == 1 && updatedAt == now
      ensures Valid()
    {
      records := [];
      nextId := 1;
      updatedAt := now;
    }

    /** `getStats`: the number of records and the time of the last save. */
    function GetStats(): (s: Stats)
      reads this
      ensures s.recordCount == |records| && s.lastUpdated == updatedAt
    {
      Stats(|records|, updatedAt)
    }
  }

  /**
   * Seeding a table that already holds one record, as written: two
   * records remain and the seeded one is numbered 2, not 1.
   */
  method SeedAsWrittenKeepsRecords() returns (recordCount: nat, seededId: Value)
    ensures recordCount == 2 && seededId == Int(2)
  {
    var server := new MockServer(None, "id", "t0");
    var first := server.Create([map["name" := Str("Ada")]], None, "t1");
    var seeded := server.SeedAsWritten([map["name" := Str("Grace")]], None, "t2");
    recordCount := |server.records|;
    seededId := Get(seeded[0], "id");
  }

  /** The same seed as intended: one record, numbered 1. */
  method SeedStartsOver() returns (recordCount: nat, seededId: Value)
    ensures recordCount == 1 && seededId == Int(1)
  {
    var server := new MockServer(None, "id", "t0");
    var first := server.Create([map["name" := Str("Ada")]], None, "t1");
    var seeded := server.Seed([map["name" := Str("Grace")]], None, "t2");
    recordCount := |server.records|;
    seededId := Get(seeded[0], "id");
  }
}
