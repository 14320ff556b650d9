/** The record reconciler of the Hetzner DNS provider: list the zone, find the
    first record with the desired name and type, and then either leave it,
    update it in place, or create a new record. */
module HetznerDns {
  import opened DnsTypes
  import opened DnsProvider

  /** Position `i` holds the first record of `s` with the desired name and type. */
  ghost predicate IsFirstMatch(s: seq<DnsRecord>, d: DesiredRecord, i: nat) {
    i < |s| && Matches(s[i], d) && forall j :: 0 <= j < i ==> !Matches(s[j], d)
  }

  /** The iterator search for the matching record: the first match in list
      order, later duplicates ignored. */
  function FindMatch(s: seq<DnsRecord>, d: DesiredRecord): (r: Option<nat>)
    ensures r.Some? ==> IsFirstMatch(s, d, r.value)
    ensures r.None? <==> forall j :: 0 <= j < |s| ==> !Matches(s[j], d)
  {
    if s == [] then None
    else if Matches(s[0], d) then Some(0)
    else match FindMatch(s[1..], d)
      case None => None
      case Some(k) =>
        assert s[k + 1] == s[1..][k];
        Some(k + 1)
  }

  /** The one write (or none) the reconciler decides on. */
  datatype Action =
    | NoOp(record: DnsRecord)
    | Update(record: DnsRecord)
    | Create(request: DnsRecordCreate)

  /** The decision taken on the listed records of zone `zone`. */
  function Decide(listed: seq<DnsRecord>, d: DesiredRecord, zone: string): (a: Action)
    ensures a.Create? <==> forall j :: 0 <= j < |listed| ==> !Matches(listed[j], d)
    ensures a.Create? ==>
      a.request.zoneId == zone && a.request.recordType == d.recordType &&
      a.request.name == d.hostname && a.request.value == d.value && a.request.ttl == d.ttl
    ensures a.NoOp? ==>
      exists i: nat :: IsFirstMatch(listed, d, i) && HasDesiredContent(listed[i], d) && a.record == listed[i]
    ensures a.Update? ==>
      exists i: nat :: IsFirstMatch(listed, d, i) && !HasDesiredContent(listed[i], d) &&
        a.record.id == listed[i].id && a.record.zoneId == listed[i].zoneId &&
        a.record.recordType == d.recordType && a.record.name == d.hostname &&
        a.record.value == d.value && a.record.ttl == d.ttl
  {
    match FindMatch(listed, d)
    case Some(i) =>
      var record := listed[i];
      if record.value != d.value || record.ttl != d.ttl then
        Update(DnsRecord(record.id, record.zoneId, d.recordType, d.hostname, d.value, d.ttl))
      else
        NoOp(record)
    case None =>
      Create(DnsRecordCreate(zone, d.recordType, d.hostname, d.value, d.ttl))
  }

  /** The mutating requests an action issues. */
  function Writes(a: Action): seq<Request> {
    match a
    case NoOp(_) => []
    case Update(rec) => [UpdateRecord(rec)]
    case Create(req) => [CreateRecord(req)]
  }

  /** Carrying out an action against the provider's records: the answer of
      the write call is the answer of the reconciliation. */
  function Perform(records: seq<DnsRecord>, a: Action, newId: string, fault: Option<ProviderError>): (o: Outcome<DnsRecord>)
    ensures a.NoOp? ==> o.result == Ok(a.record) && o.after == records
    ensures !a.NoOp? && fault.Some? ==> o == Outcome(Err(fault.value), records)
    ensures a.Create? && fault.None? ==>
      && o.result == Ok(DnsRecord(newId, a.request.zoneId, a.request.recordType,
                                  a.request.name, a.request.value, a.request.ttl))
      && o.after == records + [o.result.value]
    ensures a.Update? && fault.None? ==>
      && (o.result.Ok? <==> a.record.id in Ids(records))
      && (o.result.Ok? ==> o.result.value == a.record && o.after == Replace(records, a.record))
    ensures o.result.Err? ==> o.after == records
  {
    match a
    case NoOp(rec) => Outcome(Ok(rec), records)
    case Update(rec) => UpdateSpec(records, rec, fault)
    case Create(req) => CreateSpec(records, req, newId, fault)
  }

  /** The search result is characterised by the first-match property alone. */
  lemma FirstMatchFound(s: seq<DnsRecord>, d: DesiredRecord, i: nat)
    requires IsFirstMatch(s, d, i)
    ensures FindMatch(s, d) == Some(i)
  {
  }

  /** For a first match at `i` the decision is a no-op exactly when the
      record already has the desired value and ttl, and an update otherwise. */
  lemma DecideOnMatch(listed: seq<DnsRecord>, d: DesiredRecord, zone: string, i: nat)
    requires IsFirstMatch(listed, d, i)
    ensures Decide(listed, d, zone) == NoOp(listed[i]) <==> HasDesiredContent(listed[i], d)
    ensures Decide(listed, d, zone).Update? <==> !HasDesiredContent(listed[i], d)
    ensures Decide(listed, d, zone).Update? ==> Decide(listed, d, zone).record.id == listed[i].id
  {
    FirstMatchFound(listed, d, i);
  }

  /** The mutating requests a reconciliation issues after its list, in terms
      of the listing, the desired record and the zone: one creation of the
      desired fields in the zone when nothing matches, none when the first
      match already has the desired value and ttl, and otherwise one update
      addressed by the first match's id that keeps its zone. */
  lemma WritesOfDecision(listed: seq<DnsRecord>, d: DesiredRecord, zone: string)
    ensures (forall j :: 0 <= j < |listed| ==> !Matches(listed[j], d)) ==>
      Writes(Decide(listed, d, zone)) == [CreateRecord(DnsRecordCreate(zone, d.recordType, d.hostname, d.value, d.ttl))]
    ensures forall i: nat :: IsFirstMatch(listed, d, i) && HasDesiredContent(listed[i], d) ==>
      Writes(Decide(listed, d, zone)) == []
    ensures forall i: nat :: IsFirstMatch(listed, d, i) && !HasDesiredContent(listed[i], d) ==>
      Writes(Decide(listed, d, zone)) ==
        [UpdateRecord(DnsRecord(listed[i].id, listed[i].zoneId, d.recordType, d.hostname, d.value, d.ttl))]
  {
    forall i: nat | IsFirstMatch(listed, d, i) ensures FindMatch(listed, d) == Some(i) {
      FirstMatchFound(listed, d, i);
    }
  }

  /** With unique ids, replacing a record by id keeps the zone listing in
      step, provided the replacement stays in the record's zone. */
  lemma {:induction false} InZoneReplace(records: seq<DnsRecord>, rec: DnsRecord, zone: string)
    requires forall x :: x in records && x.id == rec.id ==> x.zoneId == rec.zoneId
    ensures InZone(Replace(records, rec), zone) == Replace(InZone(records, zone), rec)
  {
    if records != [] {
      var tail := records[1..];
      InZoneReplace(tail, rec, zone);
      assert Replace(records, rec) == [if records[0].id == rec.id then rec else records[0]] + Replace(tail, rec);
      assert Replace(records, rec)[1..] == Replace(tail, rec);
      var head := if records[0].zoneId == zone then [records[0]] else [];
      assert InZone(records, zone) == head + InZone(tail, zone);
      assert Replace(head + InZone(tail, zone), rec) == Replace(head, rec) + Replace(InZone(tail, zone), rec) by {
        ReplaceAppend(head, InZone(tail, zone), rec);
      }
    }
  }

  lemma {:induction false} ReplaceAppend(a: seq<DnsRecord>, b: seq<DnsRecord>, rec: DnsRecord)
    ensures Replace(a + b, rec) == Replace(a, rec) + Replace(b, rec)
  {
    var l, r := Replace(a + b, rec), Replace(a, rec) + Replace(b, rec);
    assert |l| == |r|;
    forall k | 0 <= k < |l| ensures l[k] == r[k] {
      if k < |a| { assert (a + b)[k] == a[k]; } else { assert (a + b)[k] == b[k - |a|]; }
    }
  }

  lemma {:induction false} InZoneAppend(records: seq<DnsRecord>, x: DnsRecord, zone: string)
    requires x.zoneId == zone
    ensures InZone(records + [x], zone) == InZone(records, zone) + [x]
  {
    if records == [] {
      assert records + [x] == [x];
    } else {
      assert (records + [x])[1..] == records[1..] + [x];
      InZoneAppend(records[1..], x, zone);
    }
  }

  /** The outcome `o` of reconciling `d` against `records` has converged: it
      succeeded, its answer carries the desired name, type, value and ttl in
      the zone, it is stored, records with other ids are kept, and listing the
      zone again leads to a no-op returning that same record. */
  ghost predicate Converged(records: seq<DnsRecord>, o: Outcome<DnsRecord>, d: DesiredRecord, zone: string) {
    && o.result.Ok?
    && Matches(o.result.value, d) && HasDesiredContent(o.result.value, d)
    && o.result.value.zoneId == zone
    && o.result.value in o.after
    && (forall x :: x in records && x.id != o.result.value.id ==> x in o.after)
    && Decide(InZone(o.after, zone), d, zone) == NoOp(o.result.value)
  }

  /** The create path converges: the new record is the zone's first match. */
  lemma CreateConverges(records: seq<DnsRecord>, d: DesiredRecord, zone: string, newId: string)
    requires FindMatch(InZone(records, zone), d).None?
    ensures Converged(records, CreateSpec(records, Decide(InZone(records, zone), d, zone).request, newId, None), d, zone)
  {
    var listed := InZone(records, zone);
    var a := Decide(listed, d, zone);
    var x := Created(a.request, newId);
    InZoneAppend(records, x, zone);
    assert IsFirstMatch(listed + [x], d, |listed|) by {
      forall j | 0 <= j < |listed| ensures !Matches((listed + [x])[j], d) {
        assert (listed + [x])[j] == listed[j];
      }
    }
    FirstMatchFound(listed + [x], d, |listed|);
    assert x in records + [x];
  }

  /** The update path converges: the replaced record stays the zone's first
      match, because ids are unique and earlier records keep their ids. */
  lemma UpdateConverges(records: seq<DnsRecord>, d: DesiredRecord, zone: string, i: nat)
    requires UniqueIds(records)
    requires IsFirstMatch(InZone(records, zone), d, i) && !HasDesiredContent(InZone(records, zone)[i], d)
    ensures Converged(records, UpdateSpec(records, Decide(InZone(records, zone), d, zone).record, None), d, zone)
  {
    var listed := InZone(records, zone);
    DecideOnMatch(listed, d, zone, i);
    var rec := Decide(listed, d, zone).record;
    var o := UpdateSpec(records, rec, None);
    assert listed[i] in records;
    assert rec.id in Ids(records);
    forall x | x in records && x.id == rec.id ensures x.zoneId == rec.zoneId {
      SameIdSameRecord(records, x, listed[i]);
    }
    InZoneReplace(records, rec, zone);
    var listed' := Replace(listed, rec);
    assert InZone(o.after, zone) == listed';
    assert IsFirstMatch(listed', d, i) by {
      forall j | 0 <= j < i ensures !Matches(listed'[j], d) {
        if listed[j].id == rec.id {
          SameIdSameRecord(records, listed[j], listed[i]);
        }
      }
    }
    FirstMatchFound(listed', d, i);
    var k :| 0 <= k < |records| && records[k] == listed[i];
    assert o.after[k] == rec;
    forall x | x in records && x.id != rec.id ensures x in o.after {
      var m :| 0 <= m < |records| && records[m] == x;
      assert o.after[m] == x;
    }
  }

  /** Convergence on every path: with no failure, one reconciliation leaves a
      store on which the next reconciliation of the same record is a no-op. */
  lemma Converges(records: seq<DnsRecord>, d: DesiredRecord, zone: string, newId: string)
    requires UniqueIds(records) && newId !in Ids(records)
    ensures Converged(records, Perform(records, Decide(InZone(records, zone), d, zone), newId, None), d, zone)
  {
    var listed := InZone(records, zone);
    match FindMatch(listed, d)
    case None =>
      CreateConverges(records, d, zone, newId);
    case Some(i) =>
      DecideOnMatch(listed, d, zone, i);
      if !HasDesiredContent(listed[i], d) {
        UpdateConverges(records, d, zone, i);
      }
  }

  /** At most one record per (name, type) pair: the invariant the reconciler
      keeps for the zone it manages. */
  ghost predicate KeyUnique(s: seq<DnsRecord>) {
    forall i, j ::
      0 <= i < |s| && 0 <= j < |s| && s[i].name == s[j].name && s[i].recordType == s[j].recordType
      ==> i == j
  }

  /** A creation happens only when nothing in the zone matches, so the new
      record's key is not yet taken. */
  lemma CreateKeepsKeyUnique(listed: seq<DnsRecord>, d: DesiredRecord, x: DnsRecord)
    requires KeyUnique(listed) && Matches(x, d)
    requires forall j :: 0 <= j < |listed| ==> !Matches(listed[j], d)
    ensures KeyUnique(listed + [x])
  {
    var l := listed + [x];
    forall i, j | 0 <= i < |l| && 0 <= j < |l| && l[i].name == l[j].name && l[i].recordType == l[j].recordType
      ensures i == j
    {
      if i < |listed| { assert l[i] == listed[i]; }
      if j < |listed| { assert l[j] == listed[j]; }
    }
  }

  /** An update replaces only the record at the first match, by a record with
      the same name and type. */
  lemma UpdateKeepsKeyUnique(records: seq<DnsRecord>, d: DesiredRecord, zone: string, i: nat)
    requires UniqueIds(records) && KeyUnique(InZone(records, zone))
    requires IsFirstMatch(InZone(records, zone), d, i) && !HasDesiredContent(InZone(records, zone)[i], d)
    ensures KeyUnique(InZone(Replace(records, Decide(InZone(records, zone), d, zone).record), zone))
  {
    var listed := InZone(records, zone);
    DecideOnMatch(listed, d, zone, i);
    var rec := Decide(listed, d, zone).record;
    assert listed[i] in records;
    forall x | x in records && x.id == rec.id ensures x.zoneId == rec.zoneId {
      SameIdSameRecord(records, x, listed[i]);
    }
    InZoneReplace(records, rec, zone);
    var l := Replace(listed, rec);
    forall j | 0 <= j < |listed| ensures l[j].name == listed[j].name && l[j].recordType == listed[j].recordType {
      if listed[j].id == rec.id {
        SameIdSameRecord(records, listed[j], listed[i]);
      }
    }
  }

  /** Reconciling never puts a second record with the same name and type into
      the zone, whatever the outcome of the write. */
  lemma ReconcileKeepsKeyUnique(records: seq<DnsRecord>, d: DesiredRecord, zone: string,
                                newId: string, fault: Option<ProviderError>)
    requires UniqueIds(records) && newId !in Ids(records)
    requires KeyUnique(InZone(records, zone))
    ensures KeyUnique(InZone(Perform(records, Decide(InZone(records, zone), d, zone), newId, fault).after, zone))
  {
    var listed := InZone(records, zone);
    var a := Decide(listed, d, zone);
    if fault.None? {
      match FindMatch(listed, d)
      case None =>
        var x := Created(a.request, newId);
        InZoneAppend(records, x, zone);
        CreateKeepsKeyUnique(listed, d, x);
      case Some(i) =>
        DecideOnMatch(listed, d, zone, i);
        if a.Update? {
          UpdateKeepsKeyUnique(records, d, zone, i);
        }
    }
  }

  /** A changed ttl on an existing A record: one update of record "1" that
      keeps its id and zone and carries the new ttl. */
  lemma TtlChangeUpdates()
    ensures
      var existing := [DnsRecord("1", "z", "A", "app.example.com", "1.2.3.4", 300)];
      var desired := DesiredRecord("app.example.com", "A", "1.2.3.4", 600);
      Decide(InZone(existing, "z"), desired, "z")
        == Update(DnsRecord("1", "z", "A", "app.example.com", "1.2.3.4", 600))
  {
  }

  /** A host the zone does not know yet: one creation in the configured zone. */
  lemma NewHostCreates()
    ensures
      var desired := DesiredRecord("new.example.com", "A", "5.6.7.8", 60);
      Decide(InZone([], "z"), desired, "z")
        == Create(DnsRecordCreate("z", "A", "new.example.com", "5.6.7.8", 60))
  {
  }

  /** The reconciler bound to one provider configuration and one provider. */
  class HetznerDns {
    const config: HetznerConfig
    const store: RecordStore

    constructor (config: HetznerConfig, store: RecordStore)
      ensures this.config == config && this.store == store
    {
      this.config := config;
      this.store := store;
    }

    /** List the configured zone, decide, and issue at most one write; a
        failed list or write is the answer, and nothing further is sent. */
    method UpdateOrCreateDnsRecord(d: DesiredRecord, listFault: Option<ProviderError>,
                                   writeFault: Option<ProviderError>, newId: string)
      returns (r: Result<DnsRecord>)
      requires store.Valid() && newId !in Ids(store.records)
      modifies store
      ensures store.Valid()
      ensures listFault.Some? ==>
        && r == Err(listFault.value)
        && store.records == old(store.records)
        && store.log == old(store.log) + [ListRecords(config.dnsZoneId)]
      ensures listFault.None? ==>
        var a := Decide(InZone(old(store.records), config.dnsZoneId), d, config.dnsZoneId);
        && Outcome(r, store.records) == Perform(old(store.records), a, newId, writeFault)
        && store.log == old(store.log) + [ListRecords(config.dnsZoneId)] + Writes(a)
    {
      var existing := store.List(config.dnsZoneId, listFault);
      if existing.Err? {
        return Err(existing.error);
      }
      var matched := FindMatch(existing.value, d);
      match matched {
        case Some(i) =>
          var record := existing.value[i];
          if record.value != d.value || record.ttl != d.ttl {
            var updated := DnsRecord(record.id, record.zoneId, d.recordType, d.hostname, d.value, d.ttl);
            r := store.Update(updated, writeFault);
          } else {
            r := Ok(record);
          }
        case None =>
          var newRecord := DnsRecordCreate(config.dnsZoneId, d.recordType, d.hostname, d.value, d.ttl);
          r := store.Create(newRecord, newId, writeFault);
      }
    }

    /** Delete by id; the provider's refusal or a transport failure is the answer. */
    method DeleteDnsRecord(id: string, fault: Option<ProviderError>) returns (r: Result<()>)
      requires store.Valid()
      modifies store
      ensures store.Valid()
      ensures Outcome(r, store.records) == DeleteSpec(old(store.records), id, fault)
      ensures store.log == old(store.log) + [DeleteRecord(id)]
    {
      r := store.Delete(id, fault);
    }

    /** Idempotence: two reconciliations of the same desired record without
        failures give the same answer, and the second one only lists. */
    method ReconcileTwice(d: DesiredRecord, newId: string, otherId: string)
      returns (first: Result<DnsRecord>, second: Result<DnsRecord>)
      requires store.Valid() && newId !in Ids(store.records)
      requires otherId !in Ids(store.records) && otherId != newId
      modifies store
      ensures first.Ok? && second == first
      ensures store.records == old(Perform(store.records,
        Decide(InZone(store.records, config.dnsZoneId), d, config.dnsZoneId), newId, None).after)
      ensures store.log == old(store.log) + [ListRecords(config.dnsZoneId)]
        + Writes(old(Decide(InZone(store.records, config.dnsZoneId), d, config.dnsZoneId)))
        + [ListRecords(config.dnsZoneId)]
    {
      Converges(store.records, d, config.dnsZoneId, newId);
      first := UpdateOrCreateDnsRecord(d, None, None, newId);
      assert otherId !in Ids(store.records);
      second := UpdateOrCreateDnsRecord(d, None, None, otherId);
    }
  }
}
