/** Shared data types of the DNS reconciler: the records the provider stores,
    the creation request, the desired record supplied by the service registry,
    and the uniform error every provider call may fail with. */
module DnsTypes {

  datatype Option<T> = None | Some(value: T)

  /** The error a provider call fails with: the request never got an answer,
      the provider answered with a non-success status, or a success answer
      did not have the expected shape. */
  datatype ProviderError = Transport | Rejected(status: nat) | Decode

  datatype Result<T> = Ok(value: T) | Err(error: ProviderError)

  /** A record as the provider holds it; `id` is its only stable identity. */
  datatype DnsRecord = DnsRecord(
    id: string,
    zoneId: string,
    recordType: string,
    name: string,
    value: string,
    ttl: nat)

  /** The body of a creation request: a record without an id. */
  datatype DnsRecordCreate = DnsRecordCreate(
    zoneId: string,
    recordType: string,
    name: string,
    value: string,
    ttl: nat)

  /** The record the service registry wants to exist. */
  datatype DesiredRecord = DesiredRecord(
    hostname: string,
    recordType: string,
    value: string,
    ttl: nat)

  /** The provider configuration; only the zone id matters to the decision,
      the URL and the token only address and authenticate requests. */
  datatype HetznerConfig = HetznerConfig(apiUrl: string, dnsToken: string, dnsZoneId: string)

  /** The matching key: exact, case-sensitive equality of name and type. */
  predicate Matches(r: DnsRecord, d: DesiredRecord) {
    r.name == d.hostname && r.recordType == d.recordType
  }

  /** A matched record needs no write when its value and ttl are the desired ones. */
  predicate HasDesiredContent(r: DnsRecord, d: DesiredRecord) {
    r.value == d.value && r.ttl == d.ttl
  }

  function Ids(s: seq<DnsRecord>): set<string> {
    set x | x in s :: x.id
  }

  /** No two positions of the record set share an id. */
  ghost predicate UniqueIds(s: seq<DnsRecord>) {
    forall i, j :: 0 <= i < |s| && 0 <= j < |s| && s[i].id == s[j].id ==> i == j
  }

  /** With unique ids, a record is determined by its id. */
  lemma SameIdSameRecord(s: seq<DnsRecord>, x: DnsRecord, y: DnsRecord)
    requires UniqueIds(s) && x in s && y in s && x.id == y.id
    ensures x == y
  {
    var i :| 0 <= i < |s| && s[i] == x;
    var j :| 0 <= j < |s| && s[j] == y;
  }
}
