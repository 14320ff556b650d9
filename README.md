# Hetzner DNS record reconciler

This project models the record reconciler of consul-external-dns. The
service registry supplies a desired record: a hostname, a record type, a value
and a TTL. `update_or_create_dns_record` lists the records of the configured
Hetzner DNS zone. It takes the first record whose name and type equal the
desired hostname and type. Then it does one of three things:

- it returns that record unchanged when its value and TTL already agree;
- it issues one full-replace update that keeps the record's id and zone;
- when nothing matches, it issues one creation in the configured zone.

A failed call is the answer, and no further request is sent.

Files:

- `dns_types.dfy` (module `DnsTypes`): the provider record, the creation
  request, the desired record, the configuration, the error type, the
  matching key and id uniqueness.
- `dns_provider.dfy` (module `DnsProvider`): the DNS provider as a record
  store. The class `RecordStore` holds the provider's records and a log of
  every request it received. It has `List`, `Create`, `Update` and `Delete`
  methods. Pure functions (`ListSpec`, `CreateSpec`, `UpdateSpec`,
  `DeleteSpec`) give each call's answer and the record set it leaves.
- `hetzner_dns.dfy` (module `HetznerDns`): the pure search (`FindMatch`) and
  decision (`Decide`), the class `HetznerDns` with `UpdateOrCreateDnsRecord`
  and `DeleteDnsRecord`, and the convergence and idempotence proofs.

Modelling choices:

- The network and the provider's verdict on a request are outside the
  program. Each provider call therefore takes a `fault: Option<ProviderError>`
  parameter: `Some(e)` makes that call fail with `e`. The reconciler takes one
  such parameter for the list and one for its write.
- The provider chooses the id of a new record. Creation receives it as the
  parameter `newId` and requires it to be unused, because the provider assigns
  fresh ids.
- A failed call leaves the record set as it was. Every call, failed or not,
  is appended to the store's request log. "Exactly one create" and "no
  mutating call" are statements about that log.
- Errors form a small closed type: `Transport`, `Rejected(status)` and
  `Decode`. The source propagates opaque `reqwest`/`anyhow` errors. Only
  their propagation matters here, not their kind.
- `update_dns_record` never checks the response status, unlike list, create
  and delete. A provider refusal of an update (no record with that id)
  therefore reaches the caller only as a body that does not decode. The model
  answers `Err(Decode)` in that case. `delete_dns_record` passes on whatever
  status `error_for_status` reports; that a missing id is refused with 404
  is an assumption about the provider.
- Listing returns the records whose zone id is the configured
  `dns_zone_id`, in the provider's order: the `?zone_id=` query at
  src/hetzner_dns.rs:100-103.
- TTL is a `nat` and is only compared for equality. The record types come
  from a file that is not part of this model, so their integer width plays no
  role here.

## Model

| member | source | states |
|---|---|---|
| DnsProvider.InZone | src/hetzner_dns.rs:100-103 | the listing holds exactly the records of the requested zone (membership in both directions) and is never longer than the record set |
| DnsProvider.InZoneConcat | src/hetzner_dns.rs:100-109 | the listing keeps the provider's order: the listing of a concatenation is the concatenation of the listings |
| DnsProvider.ListSpec | src/hetzner_dns.rs:92-113 | a list fails exactly when its call fails, with that error; on success it holds exactly the zone's records |
| DnsProvider.CreateSpec | src/hetzner_dns.rs:132-148 | a failed creation changes nothing; a successful one appends and answers a record with the new id and the request's zone, type, name, value and ttl; ids stay unique when the new id was unused |
| DnsProvider.UpdateSpec | src/hetzner_dns.rs:115-130 | an update succeeds exactly when its call does not fail and its id exists; it answers the submitted record, replaces the record with that id, keeps the set of ids and their uniqueness; a failure changes nothing |
| DnsProvider.DeleteSpec | src/hetzner_dns.rs:79-89 | a delete succeeds exactly when its call does not fail and the id exists; success removes exactly that id; a missing id is refused with status 404; a failure changes nothing |
| DnsProvider.RemoveKeepsUniqueIds | src/hetzner_dns.rs:79-89 | deleting records keeps ids unique |
| DnsProvider.RecordStore.List | src/hetzner_dns.rs:92-113 | answers `ListSpec` of the current records, leaves them alone and logs one list request |
| DnsProvider.RecordStore.Create | src/hetzner_dns.rs:132-148 | answer and new record set are those of `CreateSpec`; logs one creation carrying the request; keeps ids unique |
| DnsProvider.RecordStore.Update | src/hetzner_dns.rs:115-130 | answer and new record set are those of `UpdateSpec`; logs one update addressed by the record's id; keeps ids unique |
| DnsProvider.RecordStore.Delete | src/hetzner_dns.rs:79-89 | answer and new record set are those of `DeleteSpec`; logs one delete request; keeps ids unique |
| HetznerDns.FindMatch | src/hetzner_dns.rs:42-44 | the search answers the first position in list order whose name and type equal the desired ones (later duplicates ignored), and answers nothing exactly when no record matches |
| HetznerDns.Decide | src/hetzner_dns.rs:46-76 | create exactly when nothing matches, with the configured zone and the desired type, name, value and ttl; a no-op answers the first match, which has the desired value and ttl; an update keeps the first match's id and zone, takes every other field from the desired record, and happens only when value or ttl differ |
| HetznerDns.DecideOnMatch | src/hetzner_dns.rs:48-61 | given the first match, the decision is a no-op returning it exactly when value and ttl agree, and an update of its id exactly when they do not |
| HetznerDns.WritesOfDecision | src/hetzner_dns.rs:46-76 | after its list, a reconciliation with no match issues exactly one creation of the desired type, name, value and ttl in the configured zone; with a first match that has the desired value and ttl it issues no mutating request; otherwise exactly one update addressed by the first match's id, keeping its zone and carrying the desired fields |
| HetznerDns.Perform | src/hetzner_dns.rs:58-74 | a failed write is passed back as the answer and nothing is committed; a successful creation answers the stored record with the new id and the request's fields and appends it; an update succeeds exactly when the addressed id exists and then answers the submitted record and replaces it by id; a no-op answers the match and changes nothing |
| HetznerDns.CreateConverges | src/hetzner_dns.rs:64-75 | on the create path without failure, the created record is answered, carries the desired fields in the configured zone, is stored, keeps every other record, and a second reconciliation decides a no-op returning it |
| HetznerDns.UpdateConverges | src/hetzner_dns.rs:48-59 | on the update path without failure and with unique ids, the update succeeds (the matched id exists), the answer carries the matched id and the desired fields, records with other ids are kept, and a second reconciliation decides a no-op returning it |
| HetznerDns.Converges | src/hetzner_dns.rs:42-76 | on every path, without failures and with unique ids, reconciling succeeds with a stored record that has the desired name, type, value and ttl in the configured zone; records with other ids are kept; a second reconciliation on the resulting store decides a no-op returning the same record |
| HetznerDns.CreateKeepsKeyUnique | src/hetzner_dns.rs:64-73 | a creation, which happens only when no zone record has the desired name and type, keeps at most one record per (name, type) in the zone |
| HetznerDns.UpdateKeepsKeyUnique | src/hetzner_dns.rs:48-58 | with unique ids, the update replaces only the first match, by a record with the same name and type, so at most one record per (name, type) stays in the zone |
| HetznerDns.ReconcileKeepsKeyUnique | src/hetzner_dns.rs:42-76 | with unique ids, if the zone holds at most one record per (name, type) before a reconciliation, it still does afterwards, whatever the write's outcome |
| HetznerDns.TtlChangeUpdates | src/hetzner_dns.rs:48-58 | a TTL change on record "1" becomes one update of record "1" in zone "z" with the new TTL |
| HetznerDns.NewHostCreates | src/hetzner_dns.rs:64-73 | an unknown host on an empty zone becomes one creation in zone "z" with the desired fields |
| HetznerDns.HetznerDns.UpdateOrCreateDnsRecord | src/hetzner_dns.rs:30-77 | a failed list is the answer, the records are unchanged, and only the list request is logged; otherwise answer and new records are `Perform` of `Decide` on the zone's listing, and the log grows by the list request and that decision's `Writes`, which `WritesOfDecision` spells out per path (at most one mutating call) |
| HetznerDns.HetznerDns.DeleteDnsRecord | src/hetzner_dns.rs:79-89 | answer and new records are those of `DeleteSpec`; exactly one delete request is logged |
| HetznerDns.HetznerDns.ReconcileTwice | src/hetzner_dns.rs:44-61 | two failure-free reconciliations of the same desired record give the same successful answer, and the second issues only a list request |

## Left out

- HTTP transport: URLs, the `Auth-API-Token` header, the per-call client and
  status handling are network I/O. Each call is an abstract store operation
  that may fail through its `fault` parameter.
- JSON encoding and decoding of the record wrappers is library behaviour. A
  successful answer is the stored record itself.
- `async`, lifetimes and the check-then-act race between concurrent
  reconciliations of the same hostname: the model is sequential.
- The `eprintln!` log line on a failed list, the loading of `HetznerConfig`,
  and the Consul registry client are external collaborators. `HetznerConfig`
  is a plain value, and only its zone id affects any decision.
- A transport failure after the provider applied a write (a lost answer) is
  not modelled. A failed call always leaves the records unchanged.
- UpdateSpec: the kind of a failed update is not constrained. The `fault`
  parameter may be any error, `Rejected(status)` included, though
  `update_dns_record` never checks the status and so cannot itself report one.
- The provider's own id generation is not modelled. The fresh id is a
  parameter.
- `config.rs`, `consul.rs` and `dns_trait.rs` are not part of this model. The
  record types are rebuilt from the fields `hetzner_dns.rs` uses.
