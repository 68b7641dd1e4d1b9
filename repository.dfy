/** An in-memory transaction store standing for the JPA repository of
    transaction records: point lookup by identifier and save. */
module Repository {
  import opened Wrappers
  import opened Uuids
  import opened Entity

  class TransactionRecordRepository {
    var records: map<Uuid, TransactionRecord>

    /** Each stored record carries the key it is stored under, so no record
        object is stored under two keys. */
    ghost predicate Valid()
      reads this, records.Values
    {
      forall k :: k in records ==> records[k].id == Some(k)
    }

    /** The value of the store: each identifier with its record's content. */
    ghost function Snapshot(): (m: map<Uuid, RecordState>)
      reads this, records.Values
      ensures m.Keys == records.Keys
    {
      map k | k in records :: records[k].State()
    }

    constructor ()
      ensures Valid() && records == map[]
    {
      records := map[];
    }

    /** `findById`: the record stored under `id`, if any. */
    method FindById(id: Uuid) returns (r: Option<TransactionRecord>)
      requires Valid()
      ensures r.Some? <==> id in records
      ensures r.Some? ==> r.value == records[id] && r.value.id == Some(id)
    {
      if id in records {
        r := Some(records[id]);
      } else {
        r := None;
      }
    }

    /** `save`: stores the record under its identifier, replacing what was
        there. A record without an identifier first receives `generated`, the
        fresh UUID the persistence provider would generate for it. */
    method Save(record: TransactionRecord, generated: Uuid)
      requires Valid()
      requires record.id.None? ==> generated !in records && WellFormed(generated)
      modifies this, record`id
      ensures Valid()
      ensures record.id == if old(record.id).Some? then old(record.id) else Some(generated)
      ensures records == old(records)[record.id.value := record]
    {
      if record.id.None? {
        assert forall k :: k in records ==> records[k] != record;
        record.id := Some(generated);
      }
      records := records[record.id.value := record];
    }
  }
}
