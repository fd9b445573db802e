# A verified model of the OneTDNS servers

This project models the parts of OneTDNS where an error is hardest to see: address allocation in
its two DHCP servers, the response cache with its merging of identical resolutions, the
incremental parsers in front of its encrypted transports, the DNSSEC chain walk for forwarded
answers, the consensus protocol of its cluster, and the link-layer frame builder. Each model follows
the code branch by branch; the theorems are about every input, every run or every interleaving.

`dafny verify dfyconfig.toml` checks everything.

| file | subject |
|---|---|
| `Basics.dfy` | words, bytes, counting |
| `IaMap.dfy` | DHCPv6 binding store: two hash maps with a list threaded through the second one |
| `Lease6Pool.dfy` | DHCPv6 pool: leases, offers, address index, lazy expiry |
| `Dhcp6Wire.dfy`, `Dhcp6Handle.dfy` | DHCPv6 options and the exchange of one message |
| `RotatingSearch.dfy` | the bounded address search of both pools |
| `Dhcp4State.dfy` | DHCPv4 pool as plain maps: the specification of every operation |
| `Dhcp4Safety.dfy` | safety of the DHCPv4 pool over whole runs |
| `Dhcp4Pool.dfy` | the reference-count index against the plain maps |
| `Dhcp4Server.dfy` | the DHCPv4 pool object, proved against the plain maps |
| `Dhcp4Laws.dfy` | what the DHCPv4 operations answer and leave, as conditions on who has what until when |
| `Dhcp4Sync.dfy` | synchronisation between nodes: check first, then apply |
| `Dhcp4Message.dfy`, `Dhcp4Client.dfy` | DHCPv4 messages and the client state machine |
| `MessageLaws.dfy` | DHCPv4 datagrams by their layout |
| `Dns.dfy`, `Aliases.dfy`, `AliasLaws.dfy` | names, records, alias chains |
| `ResponseCache.dfy`, `CacheLaws.dfy` | lifetimes in the response cache |
| `RequestKey.dfy`, `KeyLaws.dfy` | cache keys |
| `Flights.dfy` | merging of in-flight resolutions, as a machine of atomic steps |
| `Chunked.dfy`, `ChunkLaws.dfy` | chunked transfer coding |
| `Admission.dfy` | ClientHello and DNSCrypt framing, replay of read-ahead bytes, connection limits |
| `TrustChain.dfy` | the DNSSEC chain of trust for forwarded answers |
| `Raft.dfy` | the consensus protocol: nodes, messages, events |
| `RaftLogs.dfy`, `RaftElection.dfy` | one leader per term, logs that match |
| `RaftSafety.dfy` | what a majority confirmed is in every later leader's log |
| `RaftCommit.dfy`, `RaftRuns.dfy` | what is committed agrees everywhere and for good |
| `RaftLimits.dfy` | three conditions the code does not enforce, and its loops |
| `RaftSteps.dfy`, `RaftScenario.dfy` | runs that break one condition each and end in disagreement |
| `Checksum.dfy` | the Internet checksum and the frame that carries a DHCP reply |

## How the source is represented

- What an operation does is stated twice where it matters: once in the form of the program, which its
  methods are proved against, and once as a condition on the data itself (modules named
  `...Laws`), with an if-and-only-if between the two.
- Objects whose methods update their fields are classes; hash maps are `map` fields. Iterating over
  a hash map is a loop that takes any remaining key, so nothing depends on the order.
- The clock is a parameter. Where one operation reads it several times there are several
  parameters, nondecreasing where the source relies on it.
- Saving files, logging, metrics and shrinking tables are no-ops.
- Signature checks, the decoding of DS records, the trailer check and the upstream server are
  function parameters; statements hold for every choice of them.
- Beside the DNSSEC layer the answers its upstream gave, and the latest time it was given, are
  recorded in ghost fields that no statement of the program reads.
- The DNSSEC chain cache compares anchor lists where the program compares a 64-bit fingerprint of
  them: two different lists are taken to have different fingerprints.
- The consensus protocol is a machine whose events are one call of a node each; messages, once sent,
  may be delivered any number of times, in any order, or never, and nodes may restart. A node's log
  is kept whole, with the number of entries a snapshot has replaced; what the code can no longer see
  of them the model does not look at. History variables (who won a term, by which votes, with which
  log, and how much each node has confirmed) are recorded beside the nodes and read by no event.
- Names are sequences of lower-cased labels where the program compares names ignoring case. In
  `RequestKey.dfy` case is kept, because folding it is part of the property.
- DHCPv4 host names are byte strings without ASCII control characters and spaces.

## Where the code differs from what one might expect

- A DHCPv6 configuration answer is not limited in size the way address answers are:
  `InformationCanOverrun` gives a DNS list with which it does not fit one datagram, and
  `InformationFitsIff` says exactly when it does.
- The check of a synchronised batch looks at each lease against the pool as it was before the
  batch. By itself that is not enough: `PreflightExact` shows that, for a batch that names each
  client once, applying an accepted batch succeeds throughout if and only if no address occurs
  twice; `RepeatedAddressFails` and `RepeatedClientMiscounts` show what goes wrong otherwise. Its
  only caller, `apply_lease_sync` (`onetdns-bin/src/main.rs:11835-11840`), refuses batches that name
  a client or an address twice before it asks. For the two together, `LeasePool.ApplyLeaseSync` and
  `MovingExact` state that a batch let through lands completely, with the clock moving between the
  check and each insertion, if and only if every lease lasts until its own insertion.
- Declining an address that a client does not own still drops the client's own lease and offer, and
  reserving an address evicts live leases but not offers. The safety theorem holds nevertheless.
- The comment on the DHCPv6 `allocate` speaks of a random start; the code rotates a cursor.
- `rrsig_time_valid` is documented as honouring a global switch for expired signatures; the code
  never accepts them, and the model follows the code.
- The consensus code departs from the published protocol in three places, and each costs agreement a
  condition. A node whose whole log has been replaced by a snapshot reports term zero for its last
  entry and then votes for candidates that are behind (`HoldsLastIff`, `CompactedVoterGrants`). A
  follower follows its leader's commitment up to the end of its own log and not of the entries it
  has just checked; `AppendIsSafeIff` says exactly which messages are harmless all the same. A new
  leader looks for something to commit before it forgets the progress of an earlier leadership
  (`WinCommitsIff`). In a run of events that keeps these three conditions, all nodes agree on what is
  committed; and none of the three can be spared: `CompactedVoterDisagrees`,
  `LooseCommitmentDisagrees` and `StaleProgressDisagrees` are runs from the initial state, within
  the program's own limits (a snapshot after 4096 applied entries, 256 KiB an entry, 512 KiB a
  message), that break one condition each and end with two nodes having committed different entries
  at one position. `SafeIffAllConditions` puts both halves together. Election safety and log
  matching hold in every run of the machine, without conditions.
- Only the response's own question section decides which records are validated before AD is set.

## Model

| member | source | states |
|---|---|---|
| IaStore.SplitPack | onetdns-bin/src/dhcp6.rs:83-110 | splitting a packed secondary key gives back the DUID and IAID, so no two associations share a key |
| IaStore.PushKeeps | onetdns-bin/src/dhcp6.rs:145-198 | threading a new association in front of a DUID's list keeps every list exact: all entries once, forward and back links right, nothing off its list |
| IaStore.UnlinkKeeps | onetdns-bin/src/dhcp6.rs:201-261 | cutting any entry out of its list keeps every list exact |
| IaStore.PromoteKeeps | onetdns-bin/src/dhcp6.rs:201-261 | promoting the list head when the primary entry goes keeps every list exact |
| IaStore.StoreSize | onetdns-bin/src/dhcp6.rs:264-271 | the two map sizes add up to the number of associations |
| IaStore.ListingIsContents | onetdns-bin/src/dhcp6.rs:282-297 | iterating over both maps yields exactly the associations of the plain map |
| IaStore.IaMap.Get | onetdns-bin/src/dhcp6.rs:121-131 | a lookup returns what a plain map from (DUID, IAID) holds |
| IaStore.IaMap.SetExpiry | onetdns-bin/src/dhcp6.rs:133-142 | mutable access changes exactly the one association |
| IaStore.IaMap.Insert | onetdns-bin/src/dhcp6.rs:145-198 | insertion is plain-map insertion, for first, repeated and further associations of a DUID, and returns what it replaced |
| IaStore.IaMap.Remove | onetdns-bin/src/dhcp6.rs:201-261 | removal is plain-map removal for primary, head, middle and last entries, and no chain lookup fails |
| IaStore.IaMap.Len | onetdns-bin/src/dhcp6.rs:264-267 | the reported size is the size of the plain map |
| IaStore.IaMap.IsEmpty | onetdns-bin/src/dhcp6.rs:269-272 | looking at the first map alone tells whether there is any association |
| IaStore.IaMap.NextExpiry | onetdns-bin/src/dhcp6.rs:300-305 | the result is the tight lower bound of all expiries |
| IaStore.IaMap.RemoveExpired | onetdns-bin/src/dhcp6.rs:308-390 | the in-place sweep ends, equals filtering the plain map by expiry, and takes exactly the dropped addresses out of the index |
| IaStore.IaMap.RetainValid | onetdns-bin/src/dhcp6.rs:393-484 | what stays is live, in range and at pairwise different addresses, the index ends as exactly those addresses, and an eligible association goes only when its address is taken by one that stays |
| IaStore.Replay | onetdns-bin/src/dhcp6.rs:114-297 | any sequence of insertions, removals and updates leaves the linked maps equal to the same sequence on one plain map |
| RotatingSearch.Pigeonhole | onetdns-bin/src/dhcp.rs:815-841 | a walk of different occupied addresses is no longer than the index, so one more probe must find a free one |
| RotatingSearch.PickBounded | onetdns-bin/src/dhcp.rs:815-841 | the bounded search returns a free in-range address whenever there is one and none exactly when the range is full, without leaving the range |
| RotatingSearch.PickRound | onetdns-bin/src/dhcp6.rs:1060-1084 | the same for the form that stops when it is back where it began |
| Lease6.CleanedKeeps | onetdns-bin/src/dhcp6.rs:989-1007 | dropping expired entries keeps the pool invariant and shrinks the index by exactly the dropped addresses |
| Lease6.NothingToClean | onetdns-bin/src/dhcp6.rs:989-994 | before the stored bound nothing has expired, so the early return skips nothing |
| Lease6.OfferedKeeps | onetdns-bin/src/dhcp6.rs:1088-1120 | offering a free address keeps each address with one association and the total within its cap |
| Lease6.LeasedKeeps | onetdns-bin/src/dhcp6.rs:1123-1172 | leasing an address free but for the own claim keeps each address with one association |
| Lease6.Lease6Pool.constructor | onetdns-bin/src/dhcp6.rs:901-927 | a restored pool satisfies the invariant: index equals lease and offer addresses, disjoint, in range, within the cap, bound below all expiries |
| Lease6.Lease6Pool.Reconfigure | onetdns-bin/src/dhcp6.rs:934-951 | a new configuration keeps the leases that still fit, drops offers, keeps the invariant |
| Lease6.Lease6Pool.SeekCursor | onetdns-bin/src/dhcp6.rs:967-986 | the cursor ends at a free address of the range unless there is none, and nothing else changes |
| Lease6.Lease6Pool.CleanupExpired | onetdns-bin/src/dhcp6.rs:989-1007 | with or without the early return, exactly the unexpired entries are left |
| Lease6.Lease6Pool.Allocate | onetdns-bin/src/dhcp6.rs:1034-1085 | the own lease or offer again, else a free address whenever the cap and the range allow one |
| Lease6.Lease6Pool.HoldOffer | onetdns-bin/src/dhcp6.rs:1088-1120 | an offer is recorded if and only if the address is free or offered to this association and there is room; nothing else changes |
| Lease6.Lease6Pool.CommitInner | onetdns-bin/src/dhcp6.rs:1123-1172 | a lease is recorded if and only if the address is in range, not somebody else's, offered or leased to this association when that is demanded, and within the cap |
| Lease6.Lease6Pool.Renew | onetdns-bin/src/dhcp6.rs:1185-1201 | only the live lease of exactly this address is extended |
| Lease6.Lease6Pool.OfferedAddress | onetdns-bin/src/dhcp6.rs:1204-1215 | the live offer of the association, else its live lease |
| Lease6.Lease6Pool.LeasedAddress | onetdns-bin/src/dhcp6.rs:1218-1223 | the live lease of the association |
| Lease6.Lease6Pool.ReleaseAddress | onetdns-bin/src/dhcp6.rs:1226-1253 | only the live lease of exactly this address is released, and its address becomes free |
| Dhcp6Wire.ParseIaNa | onetdns-bin/src/dhcp6.rs:748-774 | the one-pass parser accepts exactly associations whose options and nested address options are complete |
| Dhcp6Wire.ContainsAddress | onetdns-bin/src/dhcp6.rs:729-745 | true exactly when some address option names the address |
| Dhcp6Wire.ValidateIaNas | onetdns-bin/src/dhcp6.rs:1416-1448 | accepted exactly when every association is well formed, IAIDs differ and the count fits |
| Dhcp6Wire.ToBeValue | onetdns-bin/src/dhcp6.rs:777-790 | the octets of an address read back as the address |
| Dhcp6Handle.ReplyFits | onetdns-bin/src/dhcp6.rs:1391-1413 | with the capacity computed up front every address reply encodes to at most 65527 bytes, for every request and DNS list |
| Dhcp6Handle.InformationFitsIff | onetdns-bin/src/dhcp6.rs:1566-1599 | when a configuration answer fits one datagram |
| Dhcp6Handle.InformationCanOverrun | onetdns-bin/src/dhcp6.rs:1566-1599 | a DNS list for which it does not |
| Dhcp6Handle.Solicit | onetdns-bin/src/dhcp6.rs:1455-1559 | an association is advertised its live lease, else its live offer, else a free address, held by the lease or for a minute; it is refused exactly when it has neither and the pool is full or the range occupied; only its own entry changes |
| Dhcp6Handle.Request | onetdns-bin/src/dhcp6.rs:1455-1559 | the live offer, else the live lease, becomes a lease for the lease time exactly when the client lists its address and the claim still stands; anything else is refused and changes nothing |
| Dhcp6Handle.RenewIa | onetdns-bin/src/dhcp6.rs:1455-1559 | the live lease is extended by the lease time exactly when the client lists its address; anything else is refused and changes nothing |
| Dhcp6Handle.ReleaseIa | onetdns-bin/src/dhcp6.rs:1455-1559 | the live lease goes exactly when the client lists its address; anything else is refused and changes nothing |
| Dhcp6Handle.Handle | onetdns-bin/src/dhcp6.rs:1455-1559 | no reply means an unchanged pool; a reply means every association was served in turn, each exactly as above, from the pool the one before left, and the reply fits one datagram |
| Dhcp6Handle.AnswersStand | onetdns-bin/src/dhcp6.rs:1455-1559 | every answer of a message, refusals included, is justified by the pool before the message and, if an address, stands in the pool after it |
| Dhcp6Handle.HoldFits | onetdns-bin/src/dhcp6.rs:1034-1120 | what the search found can be held although the clock is read again |
| Dhcp6Handle.RenderReads | onetdns-bin/src/dhcp6.rs:777-833 | a client reads back the IAID, the address with the lease time, and renewal at one half and four fifths of it, or the status code |
| Dhcp6Handle.ReplyReads | onetdns-bin/src/dhcp6.rs:1476-1559 | the reply names client and server once, carries the DNS servers, and for a release the success status |
| Dhcp6Handle.InformationLaw | onetdns-bin/src/dhcp6.rs:1566-1599 | a configuration request is answered exactly when it asks for no address, names this server or none and has a well-formed identifier or none |
| Dhcp6Handle.OthersUntouched | onetdns-bin/src/dhcp6.rs:1455-1559 | a handled message leaves every live binding of every other client as it was |
| Dhcp4Safety.SafeIsExclusive | onetdns-bin/src/dhcp.rs:696-724 | in a safe state a live lease's address has no claimant of any other kind or identity |
| Dhcp4Safety.HoldOfferSafe | onetdns-bin/src/dhcp.rs:925-946 | offering keeps the state safe |
| Dhcp4Safety.DeclineSafe | onetdns-bin/src/dhcp.rs:969-1002 | declining keeps the state safe, whether or not the client owned the address |
| Dhcp4Safety.AddReservationSafe | onetdns-bin/src/dhcp.rs:1061-1120 | reserving keeps the state safe, although it evicts leases and not offers |
| Dhcp4Safety.CommitSafe | onetdns-bin/src/dhcp.rs:1151-1205 | confirming an acceptable address keeps the state safe |
| Dhcp4Safety.InsertSafe | onetdns-bin/src/dhcp.rs:1276-1330 | taking over a peer's lease keeps the state safe |
| Dhcp4Safety.RevalidatedSafe | onetdns-bin/src/dhcp.rs:870-922 | whatever was stored, what is adopted under a configuration is safe |
| Dhcp4Safety.HandlesSafe | onetdns-bin/src/dhcp.rs:1697-1753 | every client message keeps the state safe |
| Dhcp4Safety.RunSafe | onetdns-bin/src/dhcp.rs:561-1346 | every run of messages, synchronisation, reservations and reconfigurations from a restored pool stays safe |
| Dhcp4Safety.LiveLeasesAreExclusive | onetdns-bin/src/dhcp.rs:561-1346 | at every moment of every run the address of every live lease is claimed by nobody else: no other lease, offer or reservation, not declined, not a service address |
| Dhcp4Pool.ClaimsBound | onetdns-bin/src/dhcp.rs:679-694 | an address never has so many claims that its counter saturates |
| Dhcp4Pool.OccupyIndexed | onetdns-bin/src/dhcp.rs:679-683 | counting one new claim keeps the index exact at every address |
| Dhcp4Pool.VacateIndexed | onetdns-bin/src/dhcp.rs:685-694 | uncounting one claim keeps the index exact and removes the entry with the last claim |
| Dhcp4Pool.FastTestIsScan | onetdns-bin/src/dhcp.rs:696-719 | comparing two counts is true exactly when a full scan finds a claim not owned by the client |
| Dhcp4Pool.CountAll | onetdns-bin/src/dhcp.rs:737-771 | rebuilding the index counts every claim once |
| Dhcp4Server.KeepReservations | onetdns-bin/src/dhcp.rs:870-922 | reservable reservations stay, one per address; a dropped one lost its address to one that stayed |
| Dhcp4Server.KeepLeases | onetdns-bin/src/dhcp.rs:870-922 | tolerated leases stay, one per address; a dropped one lost its address to one that stayed |
| Dhcp4Server.LeasePool.constructor | onetdns-bin/src/dhcp.rs:561-602 | a restored pool has an exact index and the adopted state |
| Dhcp4Server.LeasePool.Reconfigure | onetdns-bin/src/dhcp.rs:611-635 | a reconfigured pool has an exact index and the adopted state |
| Dhcp4Server.LeasePool.CleanupExpired | onetdns-bin/src/dhcp.rs:774-812 | exactly the unexpired state is left, with an exact index |
| Dhcp4Server.LeasePool.AddressUsedByOther | onetdns-bin/src/dhcp.rs:721-724 | the answer is that of the full scan over the cleaned state |
| Dhcp4Server.LeasePool.PickAvailable | onetdns-bin/src/dhcp.rs:815-841 | an address without any claim whenever the range has one |
| Dhcp4Server.LeasePool.HoldOffer | onetdns-bin/src/dhcp.rs:925-946 | the plain-map effect, with an exact index |
| Dhcp4Server.LeasePool.ConsumeOffer | onetdns-bin/src/dhcp.rs:949-966 | the plain-map effect, with an exact index |
| Dhcp4Server.LeasePool.Decline | onetdns-bin/src/dhcp.rs:969-1002 | the plain-map effect, with an exact index |
| Dhcp4Server.LeasePool.Allocate | onetdns-bin/src/dhcp.rs:1009-1042 | reservation, own offer, own lease, else a claim-free address whenever budget and range allow |
| Dhcp4Server.LeasePool.AddReservation | onetdns-bin/src/dhcp.rs:1061-1120 | the plain-map effect, with an exact index |
| Dhcp4Server.LeasePool.RemoveReservation | onetdns-bin/src/dhcp.rs:1123-1133 | the plain-map effect, with an exact index |
| Dhcp4Server.LeasePool.Commit | onetdns-bin/src/dhcp.rs:1151-1205 | the plain-map effect, with an exact index |
| Dhcp4Server.LeasePool.Insert | onetdns-bin/src/dhcp.rs:1276-1330 | the plain-map effect, with an exact index |
| Dhcp4Server.LeasePool.Release | onetdns-bin/src/dhcp.rs:1333-1346 | the plain-map effect, with an exact index |
| Dhcp4Server.LeasePool.Handle | onetdns-bin/src/dhcp.rs:1697-1753 | the object takes exactly a step of the state machine the run theorem is about |
| Dhcp4Laws.RequestLaw | onetdns-bin/src/dhcp.rs:1706-1742 | a request is acknowledged exactly when its offer stands (if selecting), the client is entitled to the address, nobody and nothing else names it, the name can be stored and there is room; the lease then recorded, and that any other request gets NAK and costs at most the offer asked for |
| Dhcp4Laws.DiscoverLaw | onetdns-bin/src/dhcp.rs:1699-1705 | a client is offered its reserved, else its offered or leased, else a free address, recorded for a minute; it gets no answer exactly when none suits or there is no room |
| Dhcp4Laws.DeclineLaw | onetdns-bin/src/dhcp.rs:969-1002 | a declined own address of the range rests for ten minutes and its owner has nothing left, unless the pool is full; a foreign one costs the client its bindings only |
| Dhcp4Laws.ReleaseLaw | onetdns-bin/src/dhcp.rs:1333-1346 | a released lease is gone, and nothing else changes |
| Dhcp4Laws.ReserveLaw | onetdns-bin/src/dhcp.rs:1061-1120 | a reservation is made exactly for a host address of the network that is nobody else's by reservation, with a storable name and room; it ends others' live leases there and nothing else |
| Dhcp4Laws.UnreserveLaw | onetdns-bin/src/dhcp.rs:1123-1133 | a reservation removed is gone, and nothing else changes |
| Dhcp4Laws.TakeLaw | onetdns-bin/src/dhcp.rs:1276-1330 | a lease of the peer node is taken as it is exactly when it is live, new, uncontested and finds room |
| Dhcp4Laws.CheckLaw | onetdns-bin/src/dhcp.rs:1240-1273 | a batch naming each client once passes the check exactly when every lease is live, the client's to have in the pool as it is, and finds room in the count expected so far |
| Dhcp4Laws.AdoptLaw | onetdns-bin/src/dhcp.rs:870-922 | a restored or reconfigured pool has every reservation and lease that fits and whose address no other wants, and nothing that does not fit |
| Dhcp4Server.LeasePool.ValidateSyncedBatch | onetdns-bin/src/dhcp.rs:1240-1273 | the loop accepts exactly the batches whose projection succeeds and only removes what has expired |
| Dhcp4Sync.PreflightPrefix | onetdns-bin/src/dhcp.rs:1240-1330 | after every prefix of an accepted batch the projected count is the real one, and every lease went in or was there already |
| Dhcp4Sync.PreflightExact | onetdns-bin/src/dhcp.rs:1240-1330 | an accepted batch naming each client once is applied without refusal if and only if no address repeats, and then the projected counts are exact |
| Dhcp4Server.AdmitBatch | onetdns-bin/src/main.rs:11781-11842 | the loop passes on exactly the batches within the limit, with storable names and no client or address twice |
| Dhcp4Server.LeasePool.ApplyLeaseSync | onetdns-bin/src/main.rs:11770-11861 | a batch is refused as a whole or applied in order with the changes counted, and with any forward-moving clock all of it lands if and only if every lease lasts until its insertion |
| Dhcp4Sync.MovingPrefix | onetdns-bin/src/dhcp.rs:1240-1330 | insertions at later and later times leave the pool that insertions at the time of the check would leave, without what has run out since |
| Dhcp4Sync.MovingExact | onetdns-bin/src/dhcp.rs:1240-1330 | a batch let through lands completely exactly when every lease, or one as good that the pool had, lasts until its insertion |
| Dhcp4Sync.RepeatedAddressFails | onetdns-bin/src/dhcp.rs:1240-1330 | two clients with one free address pass the check and the second insertion is refused |
| Dhcp4Sync.RepeatedClientMiscounts | onetdns-bin/src/dhcp.rs:1256-1270 | a client named twice has its one offer subtracted twice |
| Dhcp4Message.AppendAllIs | onetdns-bin/src/dhcp.rs:157-176 | joining fragments gives each kept option its fragments in order, one entry per code, and is refused exactly when a value outgrows its limit |
| Dhcp4Message.ScanOptionField | onetdns-bin/src/dhcp.rs:179-209 | the scan of a field is splitting it into fragments and joining them |
| Dhcp4Message.ParseMessage | onetdns-bin/src/dhcp.rs:255-305 | parsing reads the options field, then file, then sname as the overload option says, and refuses malformed, invalid or typeless messages |
| Dhcp4Message.ParsedOptions | onetdns-bin/src/dhcp.rs:255-305 | an option of a parsed message is the concatenation of its fragments over the three fields, however it was split, and absent if there is none (sections 5 and 7 of RFC 3396) |
| Dhcp4Message.EncodeMessage | onetdns-bin/src/dhcp.rs:308-336 | the bytes written are the fixed header, the magic, the identifier and options in order, and the end marker |
| Dhcp4Message.RoundTrip | onetdns-bin/src/dhcp.rs:255-336 | parsing an encoded message gives the message back, without the options the server does not keep |
| MessageLaws.FieldLaw | onetdns-bin/src/dhcp.rs:179-209 | the fragments read from a field are exactly those its bytes spell: pads, code, length, value, an end marker, zeros |
| MessageLaws.ParseLaw | onetdns-bin/src/dhcp.rs:255-305 | a datagram is a message exactly when it is framed as one, its options, file and server name fields spell fragments as the overload option says, and the joined values have the lengths their options demand |
| MessageLaws.ContentsLaw | onetdns-bin/src/dhcp.rs:255-305 | the fixed fields are read at their places and every kept option is its fragments joined in order |
| Dhcp4Client.ActionIsAddressed | onetdns-bin/src/dhcp.rs:1636-1692 | a message that names a server is acted on only by that server, and the address acted on is the one the message's state puts it in (section 4.3 of RFC 2131) |
| Dhcp4Client.ClassifyLaw | onetdns-bin/src/dhcp.rs:1636-1692 | which messages, by type code, options, addresses and flags, lead to which action, as an if-and-only-if (table 5 of RFC 2131) |
| Dhcp4Client.HandleMessage | onetdns-bin/src/dhcp.rs:1697-1753 | a message for somebody else leaves the pool and is not answered; any other is one step of the state machine |
| Dhcp4Client.AckIsBacked | onetdns-bin/src/dhcp.rs:1707-1742 | an acknowledged address was asked for, is leased now, is the reserved or an in-range one, and when selecting had been offered live under the same transaction |
| Dhcp4Client.RequestTouchesOnlySender | onetdns-bin/src/dhcp.rs:1707-1742 | whatever the answer, other clients keep their live leases and offers and gain none |
| Aliases.DeepestAgree | onetdns-bin/src/cache.rs:1051-1086 | whichever of several closest DNAMEs is taken, the outcome is the same |
| Aliases.NextAlias | onetdns-bin/src/cache.rs:1015-1086 | the loops find the only CNAME target, or the graft of the closest DNAME, and report contradictory records |
| Aliases.HasRequestedAnswer | onetdns-bin/src/cache.rs:955-989 | true exactly when following fewer than sixteen aliases reaches a record of the type asked for; stopping at a repeated name changes no answer |
| Aliases.TerminalAnswerName | onetdns-bin/src/cache.rs:993-1008 | the name at which the chain ends, and none exactly when it does not end within sixteen names |
| AliasLaws.AliasLaw | onetdns-bin/src/cache.rs:1015-1086 | a name leads to the one target of its CNAMEs if nothing forbidden stands beside them, else to the graft of the closest DNAME if all agree and it fits; it contradicts itself exactly otherwise |
| AliasLaws.RequestedLaw | onetdns-bin/src/cache.rs:955-989 | an answer holds what was asked exactly when a chain of at most sixteen names leads to a record of that type |
| ResponseCache.CapEndsWithSignatures | onetdns-bin/src/cache.rs:370-477 | the DNSSEC cap is at most every in-time signature's time to expiration, original TTL and received TTL |
| ResponseCache.AuthenticNeedsSignature | onetdns-bin/src/cache.rs:452-477 | an authentic answer is kept only with an in-time signature that covers a record present, and no longer than that record |
| ResponseCache.StoredSound | onetdns-bin/src/cache.rs:803-909 | a stored entry lives no longer than any of its answers, its section caps and the DNSSEC cap, and a denial's SOA carries the entry's lifetime |
| ResponseCache.StoredIsJustified | onetdns-bin/src/cache.rs:840-849 | a positive entry holds what was asked; a denial has an SOA of the zone in which the alias chain ends |
| ResponseCache.ReadLaw | onetdns-bin/src/cache.rs:716-765 | a hit occurs exactly before the lifetime ends and returns every stored answer with stored minus elapsed, at least one second; every returned TTL plus the elapsed time is within its caps |
| ResponseCache.SoaStays | onetdns-bin/src/cache.rs:874-893 | a denial's SOA is in every hit with exactly the remaining lifetime (section 5 of RFC 2308) |
| ResponseCache.NothingOutlivesSignatures | onetdns-bin/src/cache.rs:370-477 | no TTL read from the cache reaches past the expiration of a signature that was in time when it was stored (section 5.3.3 of RFC 4035) |
| ResponseCache.AgeRecords | onetdns-bin/src/cache.rs:936-946 | exactly the records with time left stay, with the time they have left |
| ResponseCache.NativeCache.PutByKey | onetdns-bin/src/cache.rs:803-909 | one key changes, to the entry specified, if the response qualifies |
| ResponseCache.NativeCache.GetByKey | onetdns-bin/src/cache.rs:716-765 | reads by the law above; an expired entry goes away |
| CacheLaws.CapLaw | onetdns-bin/src/cache.rs:370-477 | the DNSSEC cap is the least of the TTLs, original TTLs and times to expiration of the valid signatures and of the TTLs they cover, and exists exactly when there is a valid one, covering for an authentic answer, or none at all |
| CacheLaws.StoreLaw | onetdns-bin/src/cache.rs:803-909 | a response is stored exactly when it answers the question, or denies it with the right SOA, and no limit on its lifetime is zero; it then lives exactly as long as its least limit, and every record carries this TTL |
| CacheLaws.OfClassLaw | onetdns-bin/src/cache.rs:817-832 | of each section exactly the records of the question's class stay, in order, without OPT |
| CacheLaws.AgedLaw | onetdns-bin/src/cache.rs:936-946 | reading keeps the order and drops exactly the records without time left |
| CacheLaws.ElapsedIs | onetdns-bin/src/cache.rs:716-725 | what has passed are the whole seconds since the entry was stored |
| RequestKey.NamesDelimit | crates/onetdns-proto/src/name.rs:324-332 | an encoded name can be read off whatever follows it |
| RequestKey.KeysAreCanonical | onetdns-bin/src/cache.rs:139-246 | two requests get the same key exactly when they agree on RD, AD, CD, lower-cased name, type, class, presence of OPT, payload size, version, DO and the sequence of options other than padding |
| RequestKey.CountOptions | onetdns-bin/src/cache.rs:163-195 | the counting pass finds exactly the options and bytes that go into the key, and refuses a list cut short |
| RequestKey.WriteOptions | onetdns-bin/src/cache.rs:227-240 | the writing pass writes those bytes within the room counted |
| RequestKey.KeyBuffer.Extend | onetdns-bin/src/cache.rs:92-115 | bytes go to the end of the fixed or growing buffer; the fixed one needs room |
| RequestKey.FromRequest | onetdns-bin/src/cache.rs:139-246 | a request has a key exactly when it is cacheable and the key fits; exactly the counted bytes are written, and the 64-byte buffer never overflows |
| KeyLaws.KeyLaw | onetdns-bin/src/cache.rs:139-246 | two requests with keys have the same key exactly when they agree on RD, AD, CD, on the name up to letter case, on type, class and payload size, on the version and DO fields of the OPT TTL, and on the options the raw bytes were written from, padding aside |
| KeyLaws.KeyableLaw | onetdns-bin/src/cache.rs:139-210 | a request has a key exactly when it is a plain query with at most an OPT record of the root whose option list is well formed, and the key fits 4096 bytes |
| KeyLaws.OptionsRoundTrip | onetdns-bin/src/cache.rs:163-195 | reading options that were written gives them back, without padding |
| Flights.StepKeeps | onetdns-bin/src/cache.rs:254-352 | every atomic step of every thread keeps the invariant on table, flights and calls |
| Flights.NoLostWakeUp | onetdns-bin/src/cache.rs:302-352 | in every interleaving a sleeping follower has a leader on another thread, for the same key, that has yet to notify it |
| Flights.CompletedFlight | onetdns-bin/src/cache.rs:345-352 | once completion is over the result is there and nobody sleeps on the flight, even when the notification was skipped |
| Flights.OneFlightPerKey | onetdns-bin/src/cache.rs:1544-1563 | two calls never lead for one key at once, and the table stays within its cap |
| Flights.RemovesOwnFlight | onetdns-bin/src/cache.rs:280-300 | what a leader removes from the table is its own flight and nothing else |
| Flights.RunSettles | onetdns-bin/src/cache.rs:254-352 | a stored result is never replaced, and a flight that left the table never comes back |
| Flights.FollowersAgree | onetdns-bin/src/cache.rs:1571-1586 | everyone who follows a flight gets the same answer, stored for the same key |
| Flights.JoinLaw | onetdns-bin/src/cache.rs:1544-1563 | in every run, a call follows the flight another thread leads for its key, leads one when nobody does and fewer than 4096 keys are led, and goes alone otherwise |
| Flights.AnswerLaw | onetdns-bin/src/cache.rs:1571-1586 | what a follower is answered is what a leader of its own key stored |
| Chunked.ScanStable | onetdns-bin/src/http.rs:975-1030 | a verdict, end or error, never changes as bytes are appended |
| Chunked.ResumeIsExact | onetdns-bin/src/http.rs:975-1030 | resuming after the last whole chunk gives the verdict and position of a scan from the start |
| Chunked.ChunkedWireLenFrom | onetdns-bin/src/http.rs:975-1030 | the loop gives the verdict of the scan and saves the position after the last whole chunk |
| Chunked.Receive | onetdns-bin/src/http.rs:842-867 | asking after every piece gives the verdict of one scan of the whole, however the body is cut |
| Chunked.DoneDecodes | onetdns-bin/src/http.rs:1155-1189 | the bytes up to the end found decode to the concatenated chunk data |
| Chunked.DecodesIff | onetdns-bin/src/http.rs:1155-1189 | the decoder accepts exactly the strings the scan sees end at their last byte |
| Chunked.DecodeChunked | onetdns-bin/src/http.rs:1155-1189 | the loop computes the decoding specified |
| Chunked.TrailersRefuseBlank | onetdns-bin/src/http.rs:1221-1244 | the trailer check meets the condition under which scan and decoder agree |
| Chunked.RoundTrip | onetdns-bin/src/http.rs:1155-1218 | decoding undoes chunked encoding, for every list of nonempty chunks (section 7.1 of RFC 9112) |
| ChunkLaws.SizeLaw | onetdns-bin/src/http.rs:1192-1218 | a size line is read as the number its hexadecimal digits write, in either case, with an extension of visible bytes, and any other line is refused |
| ChunkLaws.GrammarLaw | onetdns-bin/src/http.rs:1155-1189 | the decoder accepts exactly the bodies of the grammar (section 7.1 of RFC 9112) and yields the data of their chunks |
| ChunkLaws.ChunkLaw | onetdns-bin/src/http.rs:975-1030 | the scan passes over exactly the whole chunks |
| ChunkLaws.FaultLaw | onetdns-bin/src/http.rs:975-1030 | the scan reports an error exactly at a malformed size line, chunk end or trailer block that is there in full |
| Admission.TlsStable | onetdns-bin/src/connection_limit.rs:317-382 | up to 64 KiB, Ready and errors never change as bytes are appended |
| Admission.ReadyIff | onetdns-bin/src/connection_limit.rs:317-382 | Ready exactly when complete leading handshake records join to type 1, a 24-bit length and that many bytes (section 5.1 of RFC 8446) |
| Admission.BadIff | onetdns-bin/src/connection_limit.rs:317-382 | refused exactly for more than 64 KiB, a record that is no handshake record, or a message that is no ClientHello or cannot end within the limit |
| Admission.TlsClientHelloPrefixState | onetdns-bin/src/connection_limit.rs:317-382 | keeping four header bytes and a count is enough to compute that verdict |
| Admission.DnscryptStable | onetdns-bin/src/connection_limit.rs:385-400 | the DNSCrypt verdict never changes as bytes are appended |
| Admission.DnscryptLaw | onetdns-bin/src/connection_limit.rs:385-400 | refused exactly for a length of zero or above 8192, ready exactly when that many bytes follow |
| Admission.Collect | onetdns-bin/src/connection_limit.rs:219-266 | however the bytes are cut, the outcome is that of all of them up to the limit, an undecided prefix that fills the limit is refused, and what was read and what is left make up the stream |
| Admission.PrefixedTcp.Read | onetdns-bin/src/connection_limit.rs:279-291 | each read takes the next bytes of prefix followed by stream |
| Admission.PrefixedTcp.ReadMany | onetdns-bin/src/connection_limit.rs:279-291 | any sequence of reads of any sizes yields prefix followed by stream, nothing lost or repeated |
| Admission.ConnectionLimiter.TryAcquire | onetdns-bin/src/connection_limit.rs:490-509 | a share is given exactly when total and address are below their limits, IPv4-mapped addresses counting as IPv4 |
| Admission.ConnectionLimiter.Release | onetdns-bin/src/connection_limit.rs:545-557 | a guard gives back exactly its share, and counts always equal the guards alive |
| TrustChain.Entered | onetdns-bin/src/dnssecfwd.rs:252-279 | keys of a DNSKEY answer of the upstream, validated against the trusted DS set, extend an unbroken chain |
| TrustChain.Descends | onetdns-bin/src/dnssecfwd.rs:280-321 | a DS answer of the upstream validated under the zone's keys, with answers that show no cut in between, leads to the next zone |
| TrustChain.ForwardValidateLayer.Ask | onetdns-bin/src/dnssecfwd.rs:155-174 | every question is paid from the budget, and the answer is on record as one the upstream gave |
| TrustChain.ForwardValidateLayer.WalkZone | onetdns-bin/src/dnssecfwd.rs:280-348 | a verdict reached inside a zone holds; descending names the next zone on the chain; a failure is due to an answer that is missing, invalid or proves nothing, at the name the walk had reached |
| TrustChain.ForwardValidateLayer.ChainTo | onetdns-bin/src/dnssecfwd.rs:233-356 | a secure verdict stands on an unbroken chain of validated DNSKEY and DS sets from the anchors, an insecure one on an answer that leaves a delegation below such a chain unsigned, all of them answers the upstream gave to the questions put to it; the chain held at a moment within the last hour and not after the latest time given to the layer; the walk ends; no verdict is given only without anchors, past sixteen labels, or when a walk along such a chain got stuck in this call; a verdict still remembered costs no question |
| TrustChain.ForwardValidateLayer.VerdictFor | onetdns-bin/src/dnssecfwd.rs:430-510 | true only if the question's records validate under keys of such a chain that ends at the signer as apex; an answer without records is never verified, passes with a signature in its authority section or for a name without a secure chain, and fails as stripped in a signed zone; every other failure and every pass has its reason, so that what has neither is verified |
| TrustChain.ForwardValidateLayer.ResolveOutcome | onetdns-bin/src/dnssecfwd.rs:529-606 | for every upstream, what goes out is decided by that verdict: AD on a verified answer to a client that asked for it and on no other, failures only if the policy lets them through, exempt domains and unchecked requests untouched; at most 24 side queries are made (section 5 of RFC 4035) |
| TrustChain.KeptLaw | onetdns-bin/src/dnssecfwd.rs:653-700 | a filter keeps each record or not by itself and changes neither order nor number |
| TrustChain.SectionRecordsAre | onetdns-bin/src/dnssecfwd.rs:653-661 | records of a name and type |
| TrustChain.CoveringSigsAre | onetdns-bin/src/dnssecfwd.rs:671-685 | well-formed signatures at a name over a type |
| TrustChain.OfTypeAre | onetdns-bin/src/dnssecfwd.rs:662-669 | records of a type |
| TrustChain.SigsOfTypeAre | onetdns-bin/src/dnssecfwd.rs:686-700 | well-formed signatures over a type |
| TrustChain.AnswerSignerIs | onetdns-bin/src/dnssecfwd.rs:701-720 | the signer is that of the first signature over the type asked for or over an alias |
| RaftLogs.MergedWithLeader | crates/onetdns-cluster/src/raft.rs:1301-1331 | entries of a leader's log, put into a log that agrees just before them, give the leader's log up to their end or change nothing |
| RaftElection.EventKeeps | crates/onetdns-cluster/src/raft.rs:796-1605 | every event of every node, snapshots included, keeps the invariant on votes, winners, logs and messages |
| RaftElection.InstalledLog | crates/onetdns-cluster/src/raft.rs:1518-1561 | a node that installs a snapshot keeps its log exactly when it agrees with the leader's there, and otherwise has the leader's log up to the snapshot |
| RaftElection.ElectionSafety | crates/onetdns-cluster/src/raft.rs:826-904 | in every run, with loss, repetition, reordering and restarts, a term never has two leaders |
| RaftElection.LogMatching | crates/onetdns-cluster/src/raft.rs:1246-1345 | in every run, two logs with the same term at a position are the same up to it |
| RaftSafety.UpToDateHas | crates/onetdns-cluster/src/raft.rs:1682-1684 | a candidate whose last entry is not behind a voter's has everything confirmed that the voter has |
| RaftSafety.VoteSafe | crates/onetdns-cluster/src/raft.rs:1191-1222 | a vote by a node that still holds its last entry keeps the safety invariant |
| RaftSafety.TakeSafe | crates/onetdns-cluster/src/raft.rs:1246-1345 | taking a leader's entries keeps the safety invariant |
| RaftSafety.InstallSafe | crates/onetdns-cluster/src/raft.rs:1518-1561 | putting a leader's snapshot in the place of the log, with what the node had past it if the two agree there, keeps the safety invariant |
| RaftSteps.SnapshotStep | crates/onetdns-cluster/src/raft.rs:1398-1561 | from every reachable state, a peer behind a compacted log can catch up by the snapshot: it then has the leader's log up to there, committed and applied, and what it had past it if the two agree |
| RaftSafety.WinnerHas | crates/onetdns-cluster/src/raft.rs:1225-1237 | a candidate with a majority of votes has every position a majority can still confirm in an earlier term |
| RaftSafety.WinSafe | crates/onetdns-cluster/src/raft.rs:868-904 | a new leader keeps the safety invariant |
| RaftCommit.LeaderBacked | crates/onetdns-cluster/src/raft.rs:1608-1623 | counting confirmations of entries of its own term, a leader commits only what a majority has confirmed |
| RaftCommit.TakenBacked | crates/onetdns-cluster/src/raft.rs:1246-1345 | a follower commits only what is committed, when the announced commitment or its log ends with the entries |
| RaftCommit.InstalledBacked | crates/onetdns-cluster/src/raft.rs:1398-1605 | what a node counts as committed after installing a snapshot is committed |
| RaftCommit.WinAll | crates/onetdns-cluster/src/raft.rs:868-904 | a new leader without stale progress commits nothing it should not |
| RaftRuns.EventAll | crates/onetdns-cluster/src/raft.rs:796-1605 | every event under the three conditions keeps the whole invariant and loses nothing recorded |
| RaftRuns.LeaderCompleteness | crates/onetdns-cluster/src/raft.rs:1191-1222 | in every sound run the log of every later leader contains everything committed in an earlier term |
| RaftRuns.StateMachineSafety | crates/onetdns-cluster/src/raft.rs:1608-1678 | in every sound run, what any two nodes have committed at any two moments agrees position by position |
| RaftLimits.HoldsLastIff | crates/onetdns-cluster/src/raft.rs:653-655 | a node knows the term of its last entry exactly when a snapshot has not replaced its whole log |
| RaftLimits.CompactedVoterGrants | crates/onetdns-cluster/src/raft.rs:1191-1222 | a node whose whole log was replaced votes for a candidate that is behind it |
| RaftScenario.LaterLeaderLacksCommitted | crates/onetdns-cluster/src/raft.rs:653-655 | a run of five nodes from the start, in which one compacts after the threshold, to a state in which node 1 has committed a log of which the leader of a later term has only the first entry |
| RaftScenario.CompactedVoterDisagrees | crates/onetdns-cluster/src/raft.rs:653-655 | that run, continued, ends with nodes 1 and 3 having committed different entries at one position, and keeps the other two conditions throughout |
| RaftLimits.AppendIsSafeIff | crates/onetdns-cluster/src/raft.rs:1336-1338 | a message leads no follower, of any record of leaders' logs that both logs belong to, to commit something else than its leader's log exactly when no earlier leader can have written another entry anywhere between the end of its entries and the commitment it announces |
| RaftScenario.LooseCommitmentDisagrees | crates/onetdns-cluster/src/raft.rs:1336-1338 | a run of three nodes, keeping the other two conditions, in which a repeated refusal and the message size limit make a follower commit an entry its leader has overwritten and committed differently |
| RaftLimits.WinCommitsIff | crates/onetdns-cluster/src/raft.rs:868-904 | a new leader commits its first entry at once exactly when old progress makes up a majority |
| RaftScenario.StaleProgressDisagrees | crates/onetdns-cluster/src/raft.rs:868-904 | a run of three nodes over six terms, keeping the other two conditions, in which a new leader commits its first entry alone and a later leader commits another there |
| RaftScenario.SafeIffAllConditions | crates/onetdns-cluster/src/raft.rs:796-1678 | of all sets of the three conditions, exactly the full one makes every run agree on what is committed |
| RaftLimits.MergeEntries | crates/onetdns-cluster/src/raft.rs:1301-1331 | the loop over received entries computes the merge and stops exactly at a committed conflict |
| RaftLimits.FindCommit | crates/onetdns-cluster/src/raft.rs:1608-1623 | the downward search finds the position specified |
| Checksum.FoldIs | onetdns-bin/src/dhcp_l2.rs:89-91 | folding carries keeps the sum modulo 65535 and tells zero from nonzero |
| Checksum.NoWrap | onetdns-bin/src/dhcp_l2.rs:74-93 | the 32-bit sum does not wrap for any data up to 128 KiB, hence for any frame accepted |
| Checksum.ComputeChecksum | onetdns-bin/src/dhcp_l2.rs:74-93 | the result depends only on the concatenation of the parts, odd lengths included |
| Checksum.FrameChecks | onetdns-bin/src/dhcp_l2.rs:118-155 | header and pseudo-header with datagram check to zero, with all ones in place of a zero UDP checksum (RFC 1071, RFC 768) |
| Checksum.BuildFrame | onetdns-bin/src/dhcp_l2.rs:97-157 | the frame written in place has every field, both checksums check to zero, the UDP one is never zero, and only an overlong payload is refused |
| Checksum.FrameReads | onetdns-bin/src/dhcp_l2.rs:97-157 | a receiver finds every field at its place, and header and pseudo-header with datagram add up to multiples of 65535 |

## Left out

- Sockets, threads, timeouts and accept loops of the transports, and the control plane.
- Lease and reservation files: the pools start from any stored tables within the entry limit, which the file readers enforce.
- Logging, metrics, and shrinking of tables: no effect on the state modelled.
- Top-level parsing of DHCPv6 messages: the model starts from a list of options.
- Contents of DHCPv4 replies other than the address, and the choice of where to send them.
- Unicode in DHCPv4 host names, and the decoding of the host name option.
- Wire-form cache entries and their promotion, eviction when the response cache or the chain cache is full, and the memory of failures.
- Signature algorithms, and the decoding of DNSKEY, DS and NSEC records.
- Removal of DNSSEC records from answers for clients that did not ask for them.
- Deadlock freedom of nested flights: two leaders that follow each other wait for the 15-second limit.
- HTTP headers, redirects and bodies framed other than by chunks.
- The cutting of snapshots into chunks and their assembly: one message carries a whole snapshot, which stands for the part of the log it replaces.
- The files a cluster node keeps, saves that fail, and overflow of terms and indexes.
- Parsing of the JSON form in which synchronised leases arrive.
- Progress of the cluster: only safety is stated.
- Position arithmetic overflowing `usize` in the parsers, except where a chunk size makes it possible.
- RaftRuns.LeaderCompleteness: holds for runs that meet the three conditions above; without the first of them `RaftScenario.LaterLeaderLacksCommitted` is a counterexample.
- RaftRuns.StateMachineSafety: holds for runs that meet the three conditions above; the code does not enforce them, and `RaftScenario.SafeIffAllConditions` shows that no fewer will do.
- RequestKey.FromRequest: lengths are unbounded integers, so the checked additions on `usize` that guard the key length cannot fail here.
- Dhcp4Sync.PreflightExact: a batch that names a client twice is not characterised further than by the counterexample, because its projected count is then no longer the count of anything.
