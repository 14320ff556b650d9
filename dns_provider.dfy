/** The DNS provider seen from the reconciler: a remote store of records that
    answers four requests (list a zone, create, update by id, delete by id).
    Whether the network or the provider fails a request is not something the
    program decides, so each call takes that outcome as a `fault` parameter,
    and the id the provider assigns to a new record as a `newId` parameter.
    A failed call leaves the store as it was. */
module DnsProvider {
  import opened DnsTypes

  /** The records of `records` that belong to `zone`, in their order
      (`InZoneConcat`). */
  function InZone(records: seq<DnsRecord>, zone: string): (r: seq<DnsRecord>)
    ensures forall x :: x in r <==> x in records && x.zoneId == zone
    ensures |r| <= |records|
  {
    if records == [] then []
    else (if records[0].zoneId == zone then [records[0]] else []) + InZone(records[1..], zone)
  }

  /** The zone listing keeps the provider's order: listing a concatenation is
      the concatenation of the listings. */
  lemma {:induction false} InZoneConcat(a: seq<DnsRecord>, b: seq<DnsRecord>, zone: string)
    ensures InZone(a + b, zone) == InZone(a, zone) + InZone(b, zone)
  {
    if a == [] {
      assert a + b == b;
    } else {
      assert (a + b)[1..] == a[1..] + b;
      InZoneConcat(a[1..], b, zone);
    }
  }

  /** The record set after a full replace of the record whose id is `rec.id`. */
  function Replace(records: seq<DnsRecord>, rec: DnsRecord): (r: seq<DnsRecord>)
    ensures |r| == |records|
    ensures forall i :: 0 <= i < |records| ==> r[i] == if records[i].id == rec.id then rec else records[i]
  {
    if records == [] then []
    else [if records[0].id == rec.id then rec else records[0]] + Replace(records[1..], rec)
  }

  /** The record set without the records whose id is `id`. */
  function Remove(records: seq<DnsRecord>, id: string): (r: seq<DnsRecord>)
    ensures forall x :: x in r <==> x in records && x.id != id
    ensures |r| <= |records|
  {
    if records == [] then []
    else (if records[0].id == id then [] else [records[0]]) + Remove(records[1..], id)
  }

  /** What a provider call answers, together with the record set it leaves behind. */
  datatype Outcome<T> = Outcome(result: Result<T>, after: seq<DnsRecord>)

  /** The record a successful creation stores and answers with. */
  function Created(req: DnsRecordCreate, newId: string): DnsRecord {
    DnsRecord(newId, req.zoneId, req.recordType, req.name, req.value, req.ttl)
  }

  function ListSpec(records: seq<DnsRecord>, zone: string, fault: Option<ProviderError>): (r: Result<seq<DnsRecord>>)
    ensures fault.Some? <==> r.Err?
    ensures fault.Some? ==> r.error == fault.value
    ensures r.Ok? ==> forall x :: x in r.value <==> x in records && x.zoneId == zone
  {
    if fault.Some? then Err(fault.value) else Ok(InZone(records, zone))
  }

  function CreateSpec(records: seq<DnsRecord>, req: DnsRecordCreate, newId: string,
                      fault: Option<ProviderError>): (o: Outcome<DnsRecord>)
    ensures fault.Some? ==> o.result == Err(fault.value) && o.after == records
    ensures fault.None? ==> o.result.Ok? && o.result.value.id == newId && o.after == records + [o.result.value]
    ensures o.result.Ok? ==> o.result.value.zoneId == req.zoneId && o.result.value.recordType == req.recordType
    ensures o.result.Ok? ==> o.result.value.name == req.name && o.result.value.value == req.value
    ensures o.result.Ok? ==> o.result.value.ttl == req.ttl
    ensures UniqueIds(records) && newId !in Ids(records) ==> UniqueIds(o.after)
  {
    if fault.Some? then Outcome(Err(fault.value), records)
    else
      var r := Created(req, newId);
      assert forall i :: 0 <= i < |records| ==> records[i].id in Ids(records);
      Outcome(Ok(r), records + [r])
  }

  /** A full replace addressed by `rec.id`. The update call never checks the
      answer's status, so an update the provider refuses (no record with that
      id) surfaces as an answer that does not decode. */
  function UpdateSpec(records: seq<DnsRecord>, rec: DnsRecord, fault: Option<ProviderError>): (o: Outcome<DnsRecord>)
    ensures o.result.Ok? <==> fault.None? && rec.id in Ids(records)
    ensures fault.Some? ==> o.result == Err(fault.value)
    ensures o.result.Ok? ==> o.result.value == rec && o.after == Replace(records, rec)
    ensures o.result.Err? ==> o.after == records
    ensures Ids(o.after) == Ids(records)
    ensures UniqueIds(records) ==> UniqueIds(o.after)
  {
    if fault.Some? then Outcome(Err(fault.value), records)
    else if rec.id !in Ids(records) then Outcome(Err(Decode), records)
    else
      var after := Replace(records, rec);
      assert Ids(after) == Ids(records) by {
        forall x | x in Ids(after) ensures x in Ids(records) {
          var i :| 0 <= i < |after| && after[i].id == x;
        }
        forall x | x in Ids(records) ensures x in Ids(after) {
          var i :| 0 <= i < |records| && records[i].id == x;
          assert after[i].id == x;
        }
      }
      Outcome(Ok(rec), after)
  }

  /** Deleting a record that does not exist is refused with "not found". */
  function DeleteSpec(records: seq<DnsRecord>, id: string, fault: Option<ProviderError>): (o: Outcome<()>)
    ensures o.result.Ok? <==> fault.None? && id in Ids(records)
    ensures fault.Some? ==> o.result == Err(fault.value)
    ensures fault.None? && id !in Ids(records) ==> o.result == Err(Rejected(404))
    ensures o.result.Ok? ==> o.after == Remove(records, id) && Ids(o.after) == Ids(records) - {id}
    ensures o.result.Err? ==> o.after == records
  {
    if fault.Some? then Outcome(Err(fault.value), records)
    else if id !in Ids(records) then Outcome(Err(Rejected(404)), records)
    else
      var after := Remove(records, id);
      assert Ids(after) == Ids(records) - {id} by {
        forall x | x in Ids(records) - {id} ensures x in Ids(after) {
          var y :| y in records && y.id == x;
          assert y in after;
        }
      }
      Outcome(Ok(()), after)
  }

  /** Removing records never creates an id clash. */
  lemma {:induction false} RemoveKeepsUniqueIds(records: seq<DnsRecord>, id: string)
    requires UniqueIds(records)
    ensures UniqueIds(Remove(records, id))
  {
    if records != [] {
      var tail := records[1..];
      assert UniqueIds(tail) by {
        forall i, j | 0 <= i < |tail| && 0 <= j < |tail| && tail[i].id == tail[j].id ensures i == j {
          assert records[i + 1].id == records[j + 1].id;
        }
      }
      RemoveKeepsUniqueIds(tail, id);
      var rest := Remove(tail, id);
      if records[0].id != id {
        var r := [records[0]] + rest;
        assert Remove(records, id) == r;
      } else {
        assert Remove(records, id) == rest;
      }
    }
  }

  /** One request as the provider receives it. */
  datatype Request =
    | ListRecords(zone: string)
    | CreateRecord(create: DnsRecordCreate)
    | UpdateRecord(record: DnsRecord)
    | DeleteRecord(id: string)

  /** The provider's record store and the log of every request it received. */
  class RecordStore {
    var records: seq<DnsRecord>
    var log: seq<Request>

    ghost predicate Valid()
      reads this
    {
      UniqueIds(records)
    }

    constructor (initial: seq<DnsRecord>)
      requires UniqueIds(initial)
      ensures Valid() && records == initial && log == []
    {
      records := initial;
      log := [];
    }

    /** GET records?zone_id=zone: the zone's records in the provider's order. */
    method List(zone: string, fault: Option<ProviderError>) returns (r: Result<seq<DnsRecord>>)
      modifies this`log
      ensures r == ListSpec(records, zone, fault)
      ensures log == old(log) + [ListRecords(zone)]
    {
      log := log + [ListRecords(zone)];
      r := ListSpec(records, zone, fault);
    }

    /** POST records: the provider stores the request under a fresh id. */
    method Create(req: DnsRecordCreate, newId: string, fault: Option<ProviderError>) returns (r: Result<DnsRecord>)
      requires Valid() && newId !in Ids(records)
      modifies this
      ensures Valid()
      ensures Outcome(r, records) == CreateSpec(old(records), req, newId, fault)
      ensures log == old(log) + [CreateRecord(req)]
    {
      log := log + [CreateRecord(req)];
      var o := CreateSpec(records, req, newId, fault);
      r, records := o.result, o.after;
    }

    /** PUT records/{rec.id}: a full replace of the record with that id. */
    method Update(rec: DnsRecord, fault: Option<ProviderError>) returns (r: Result<DnsRecord>)
      requires Valid()
      modifies this
      ensures Valid()
      ensures Outcome(r, records) == UpdateSpec(old(records), rec, fault)
      ensures log == old(log) + [UpdateRecord(rec)]
    {
      log := log + [UpdateRecord(rec)];
      var o := UpdateSpec(records, rec, fault);
      r, records := o.result, o.after;
    }

    /** DELETE records/{id}. */
    method Delete(id: string, fault: Option<ProviderError>) returns (r: Result<()>)
      requires Valid()
      modifies this
      ensures Valid()
      ensures Outcome(r, records) == DeleteSpec(old(records), id, fault)
      ensures log == old(log) + [DeleteRecord(id)]
    {
      log := log + [DeleteRecord(id)];
      var o := DeleteSpec(records, id, fault);
      if o.result.Ok? {
        RemoveKeepsUniqueIds(records, id);
      }
      r, records := o.result, o.after;
    }
  }
}
