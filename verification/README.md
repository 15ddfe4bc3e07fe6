# Cobweb, verified

A Dafny model of the parts of the Cobweb router daemon where being almost right is not enough, with
proofs about all inputs, all interleavings and all runs. `dafny verify dfyconfig.toml` checks everything.

## What is modelled

**Deferred persistence** (`Persistence`, `PersistenceRuns`, `PersistenceProgress`). The configuration
store as a machine whose steps are single instructions of any number of concurrent calls: settings
edits, `Save`, `Flush`, deferred updates and the background flusher. Writes may be slow or fail, and the
process may crash between any two instructions. One invariant gives crash safety, monotonic disk
contents and what each call promises; a second one gives no lost wake-up; a measure gives progress.

**DHCP** (`ConfigStore`, `DhcpServer`, `DhcpRuns`, `DhcpConflicts`). The lease store and a segment's server as classes
whose methods are proved against specification functions, and a machine of several listeners in which
deciding an address and recording its lease are separate steps, with the exact condition under which two
clients can never come to hold one address. The allocator follows RFC 2131 sections 4.3.1 to 4.3.3.

**Wire formats** (`DhcpPacket`, `DnsName`, `DnsMessage`, `Pbkdf2`). Parsers and builders as loops over
bytes, proved against recursive descriptions, and round trips between them. Names follow RFC 1035
section 4.1.4, options RFC 2132, key derivation RFC 8018 section 5.2 over an arbitrary PRF.

**Iterative resolution** (`Resolver`). The referral walk with nested lookups, against a network that may
answer anything, knowing everything asked so far. The history of exchanges is threaded through, so the
call bound and the provenance of an answer are statements about it.

**Firewall** (`Ifaces`, `PortRules`, `Firewall`, `FirewallPolicy`, `FirewallCorrect`). The renderer as a
compiler from a configuration to rules, with a first-match evaluator for packets, proved equivalent to
the zone policy of the repository's README. The overlap algebra of prefix wildcards keeps the zones apart.

**Dashboard transactions** (`FirewallWeb`, `FirewallSync`, `FirewallHandlers`, `FirewallEffect`). Requests that change the
saved configuration, apply it to the kernel and take the change back when the kernel refuses: the
transaction they share, what it keeps, the handlers as methods, and what a successful request does to the traffic.

`Basics` holds the shared types and a few functions on sequences.

## What turned out false, and when it holds

- The pool scan wraps at 255.255.255.255. It is right if and only if the pool ends before that or has a
  free address (`DhcpServer.ScanIsLeast`); `WrappedScanLeavesPool` is a pool that hands out 0.0.0.0.
- The allocator is commented never to hand out the gateway's own address, but only the scan tests for it: a
  client that asks for it gets it exactly when the pool contains it and nobody claims it
  (`DhcpServer.GatewayIsGrantedIff`, `GatewayCanBeGranted`).
- A settings save that fails stays in memory without being marked dirty, so a later successful `Flush` need
  not write it (`PersistenceRuns.FlushMayMissFailedEdit`). It covers all of memory exactly
  when a deferred update was unflushed or every failed edit has been saved since
  (`PersistenceRuns.FlushCoversAllIff`); deferred updates are always covered (`FlushCovers`).
- `AddReservation` does not look for conflicts. When one can arise afterwards, at once or by packets, is exactly
  `DhcpConflicts.ReserveIsSafeIff`.
- Editing or removing a segment leaves its leases behind. One that lies in another segment's pool can lead to
  two holders of one address by packets alone (`DhcpConflicts.StaleLeaseClashes`); when it cannot is exactly
  `DhcpConflicts.NeverClashesIff`.
- A reply with an address that is not IPv4 announces more answers than it holds and cannot be parsed
  (`DnsMessage.ReplyIsFaithful`); the announced count is cut to 16 bits (`DnsMessage.ReplyReadsBack`).
- "Nothing was changed" after a refused rule toggle is true exactly when the toggle flipped the rule,
  and after a refused new rule exactly when its generated ID was fresh (`FirewallSync.RefusedRestores`).
- The kernel can be left behind by a refused removal, a refused non-flipping toggle, a refused new rule whose
  ID was taken, or a failing save; and failing to switch a running firewall, on or off, switches the
  setting off but leaves the rules loaded. When exactly is `FirewallSync.KeepsInStep`.
- The policy table of the repository's README allows ICMP without saying where; the code allows it to the
  box itself only (`FirewallCorrect.InputIsPolicy`), and forwards it like any other traffic
  (`FirewallCorrect.ForwardIsPolicy`).

## Model

| member | source | states |
|---|---|---|
| `Persistence.StepInv` | internal/config/config.go:347-442 | one inductive invariant ties sequence numbers, content versions, `flushedGen` and the writers in flight together; every instruction of every call, every failure and every crash keeps it, and no action takes the file at the path back to an older version |
| `Persistence.InitialInv` | internal/config/config.go:263-325 | the invariant holds when the process has just loaded its file |
| `Persistence.SnapshotOnDisk` | internal/config/config.go:365-382 | a snapshot whose number is at most `lastWritten` is contained in what the path holds, so skipping its write loses nothing |
| `Persistence.PathWhole` | internal/config/config.go:370-380 | temporary file and rename: the path is never half-written and never ahead of memory |
| `Persistence.FileDisk` | internal/config/config.go:365-382 | the steps of `writeSnapshot` keep the disk invariant and only move the path forward |
| `Persistence.FileGen` | internal/config/config.go:365-382 | a snapshot that has been written, or skipped as superseded, covers its generation on disk |
| `Persistence.SwapGen` | internal/config/config.go:384-391 | the compare-and-swap loop claims no generation that the path does not contain |
| `Persistence.CountDecides` | internal/config/config.go:424-438 | between two prefixes of one history, containing as many deferred updates means containing all of them, which is what lets generations stand for contents |
| `Persistence.FlusherStep` | internal/config/config.go:407-419 | call slot 0 is always the flusher's own `Flush`, in progress exactly while the flusher is flushing |
| `PersistenceRuns.RunsKeepInv` | internal/config/config.go:347-442 | the invariant holds in every state of every run: any interleaving, slow or failing writes, any number of crashes and restarts |
| `PersistenceRuns.DiskNeverGoesBack` | internal/config/config.go:362-382 | content versions on disk never go backwards, over whole runs |
| `PersistenceRuns.CrashSafe` | internal/config/config.go:365-391 | in every reachable state `flushedGen <= mutGen`, the path is one complete snapshot that memory once was (or the file the process started from), and it contains every deferred update up to `flushedGen` |
| `PersistenceRuns.CrashRecovers` | internal/config/config.go:374-381 | restarting after a crash at any instruction recovers every deferred update counted in `flushedGen` |
| `PersistenceRuns.SavedMeansOnDisk` | internal/config/config.go:347-360 | when a setter or `Save` is about to return nil, the disk equals memory and `flushedGen == mutGen`: everything deferred so far counts as flushed, and the next `Flush` has nothing to write |
| `PersistenceRuns.RunsKeepGens` | internal/config/config.go:347-360 | over every run, a setter or `Save` that has loaded its generation has loaded the current one, because the lock it holds keeps deferred updates out |
| `PersistenceRuns.ChangeIsMade` | internal/config/config.go:347-360 | a setter or deferred update that returns has made its own change, as the newest in memory, on top of everything that was there when it was called, also when its save failed; a setter that returns nil has it on disk, then and in every later state |
| `PersistenceRuns.FlushCovers` | internal/config/config.go:421-442 | a `Flush` that returns nil has put on disk every lease and device update that was in memory when `Flush` was called, also one that had not yet returned or not yet bumped `mutGen`, and they stay there in every later state |
| `PersistenceRuns.FlushAccounts` | internal/config/config.go:424-435 | once `Flush` has the read lock its generation counts every deferred update that was in memory when it was called |
| `PersistenceRuns.FlushCoversAllIff` | internal/config/config.go:424-442 | everything in memory when `Flush` compares generations, settings edits whose own save failed included, is on disk when it returns nil if and only if some deferred update was not yet flushed at the comparison or every settings edit in memory whose save had failed was on disk by a later save |
| `PersistenceRuns.MissingFailed` | internal/config/config.go:347-382 | in every state of every run, a settings edit that is in memory and not on disk is still being saved, or its own save has failed |
| `PersistenceRuns.DiskIsMemoryIff` | internal/config/config.go:347-442 | in every state of every run in which all deferred updates are flushed and nobody holds the write lock, the disk equals memory if and only if every failed settings edit has been saved since |
| `PersistenceRuns.CallRecord` | internal/config/config.go:424-442 | while one call runs, memory only grows and the call keeps the generation it started from |
| `PersistenceRuns.FlushMayMissFailedEdit` | internal/config/config.go:347-382 | counterexample run: a setter whose write of the temporary file failed has changed memory without marking it dirty, and a later `Flush` returns nil without writing it |
| `PersistenceProgress.NoLostWakeup` | internal/config/config.go:393-419 | in every reachable state: if `mu` is not write-held and `mutGen > flushedGen`, the kick token is present, or the flusher is about to flush or retry, or a snapshot of the newest generation is being written |
| `PersistenceProgress.WakeStep` | internal/config/config.go:395-442 | every action keeps the wake-up invariant, including a kick dropped because the token is already there |
| `PersistenceProgress.NoDeadlock` | internal/config/config.go:347-442 | while any call is in progress some call can take a step, across `mu`, `fileMu` and the retry loop |
| `PersistenceProgress.StuckMeansFlushed` | internal/config/config.go:407-442 | when no quiet step is possible all calls have returned and everything deferred is on disk |
| `PersistenceProgress.QuietStepsDecrease` | internal/config/config.go:384-419 | every step that is not a new call, a failure or a crash decreases a well-founded measure, also a compare-and-swap that loses its race |
| `PersistenceProgress.EverythingGetsFlushed` | internal/config/config.go:393-442 | with no new calls and writes that succeed, every schedule from a reachable state arrives at `flushedGen == mutGen` with every deferred update on disk |
| `ConfigStore.Config.SegmentByID` | internal/config/config.go:587-597 | the first segment with the ID |
| `ConfigStore.Config.ReservationForMAC` | internal/config/config.go:646-655 | the first reservation of the MAC |
| `ConfigStore.Config.LeaseForMAC` | internal/config/config.go:757-766 | the first lease of the MAC |
| `ConfigStore.Config.IPInUse` | internal/config/config.go:843-857 | true exactly when another MAC holds a lease on or has reserved the address |
| `ConfigStore.Config.UpsertLease` | internal/config/config.go:741-754 | overwrites the slot of that MAC or appends, and marks the configuration dirty |
| `ConfigStore.Config.RemoveLease` | internal/config/config.go:774-785 | compacts in place: every lease of that MAC goes, the others keep their order |
| `ConfigStore.Config.AddReservation` | internal/config/config.go:681-692 | overwrites the slot of that MAC or appends, without looking for conflicts |
| `ConfigStore.Config.UpsertDiscoveredDevice` | internal/config/config.go:793-814 | stores the poll unless it says nothing new; `mutGen` grows exactly when the records change |
| `ConfigStore.Config.ParsePoolRangeForSegment` | internal/config/config.go:967-982 | the pool of the first segment with the ID, None when it is gone or does not parse |
| `ConfigStore.PutLeaseMeans` | internal/config/config.go:741-754 | after an upsert that MAC has exactly this lease and no other MAC's lease changed |
| `ConfigStore.PutLeaseMembers` | internal/config/config.go:741-754 | MACs stay unique, and the members are the new lease and the others' |
| `ConfigStore.DropLeaseMembers` | internal/config/config.go:774-785 | exactly the leases of that MAC are gone |
| `ConfigStore.DropLeaseKeeps` | internal/config/config.go:774-785 | and the others keep their order |
| `ConfigStore.FindIsFirst` | internal/config/config.go:646-655 | a MAC's reservation and lease are the first ones in their lists |
| `ConfigStore.PutReservationMeans` | internal/config/config.go:681-692 | after adding a reservation that MAC's first one is the new one and no other MAC's changed |
| `ConfigStore.FindSegmentIsFirst` | internal/config/config.go:587-597 | the first segment with the ID, and nothing only when there is none |
| `ConfigStore.PutDeviceMeans` | internal/config/config.go:793-814 | what is stored for each MAC after one poll |
| `ConfigStore.PollsRefine` | internal/config/config.go:793-818 | write suppression refines always storing: after any polls the stored address and segment are those of the latest poll, the stored LastSeen trails it by less than 300 seconds, and MACs are unique |
| `ConfigStore.StoredUnlessKnown` | internal/config/config.go:793-818 | a poll changes nothing if and only if the device is known with this address and segment and was last stored as seen less than 300 seconds before |
| `ConfigStore.WritesAreRare` | internal/config/config.go:793-818 | however often a device is polled, while its address and segment stay the same it is written once and then at most once every 300 seconds, whatever other devices are polled in between |
| `DhcpServer.Server.TryAllocate` | internal/dhcp/server.go:401-443 | the imperative allocator returns exactly the specified allocation (reservation, lease, requested address, pool scan, in this order), although it deletes expired quarantine entries on the way; what that allocation is for the client is `NewcomerGets` and `OwnAddress` |
| `DhcpServer.NewcomerGets` | internal/dhcp/server.go:401-443 | a client without reservation or lease on the segment gets the requested address if it is in the pool and unclaimed, else the least unclaimed pool address other than the gateway's (in a pool that ends at 255.255.255.255 without one, the least of all), and is refused exactly for want of a segment, a pool or such an address; claimed means held or reserved by another MAC, in the ARP table for another MAC on the segment's interface, or in quarantine |
| `DhcpServer.OwnAddress` | internal/dhcp/server.go:401-410 | a reservation on the segment decides; else a lease there is kept whatever is requested until the second it expires, afterwards when it or nothing is requested, and is left for another requested address that is to be had |
| `DhcpServer.OfferAnswer` | internal/dhcp/server.go:260-276 | what a newcomer's DISCOVER is offered, under the gateway's address, and that silence means there is nothing to offer |
| `DhcpServer.RequestAnswer` | internal/dhcp/server.go:278-355 | silence exactly for another server or a missing segment; an ACK only for the address the REQUEST names (option 50, else a non-zero ciaddr) with a lease of that client, address, segment, host name and expiry in seconds; a NAK when allocation does not grant the named address, or grants nothing |
| `DhcpServer.GatewayIsGrantedIff` | internal/dhcp/server.go:416-429 | the gateway's own address is granted to a newcomer if and only if the client asks for it, the pool contains it and nobody claims it |
| `DhcpServer.GatewayCanBeGranted` | internal/dhcp/server.go:416-429 | counterexample: a pool that holds just the gateway's address, requested |
| `DhcpServer.Server.ScanPool` | internal/dhcp/server.go:425-442 | the scan loop with its wrapping increment terminates and finds what the specified scan finds |
| `DhcpServer.Server.IsDeclined` | internal/dhcp/server.go:246-258 | true exactly during the quarantine; only an expired entry is deleted |
| `DhcpServer.Server.ArpTakenIPs` | internal/dhcp/server.go:383-399 | exactly the addresses claimed on this interface by another MAC |
| `DhcpServer.Server.CheckAvailable` | internal/dhcp/server.go:416-424 | in-use, ARP and quarantine tests together, which is the meaning `AvailableMeans` spells out |
| `DhcpServer.AvailableMeans` | internal/dhcp/server.go:416-424 | available means that no reservation or lease of another MAC, no ARP entry of another MAC on the segment's interface and no running quarantine names the address |
| `DhcpServer.Server.CheckFree` | internal/dhcp/server.go:426-438 | the loop body: additionally never the gateway |
| `DhcpServer.Server.InPoolOf` | internal/dhcp/server.go:445-451 | pool membership, false when the pool is gone |
| `DhcpServer.Server.HandleDiscover` | internal/dhcp/server.go:260-276 | the OFFER, or silence when nothing can be allocated |
| `DhcpServer.Server.HandleRequest` | internal/dhcp/server.go:278-355 | ACK and recorded lease, NAK, or silence; the store changes exactly when the answer is an ACK |
| `DhcpServer.Server.HandleDecline` | internal/dhcp/server.go:225-242 | the requested address is in quarantine for ten minutes and no longer, no other entry changes, and a DECLINE for another server changes nothing |
| `DhcpServer.ScanIsLeast` | internal/dhcp/server.go:412-443 | the scan answers the least pool address that is not the gateway, not another MAC's, not ARP-claimed and not quarantined, and exhaustion exactly when there is none, if and only if the pool stops short of 255.255.255.255 or has such an address |
| `DhcpServer.ScanDiverges` | internal/dhcp/server.go:519-537 | otherwise the scan never ends: every address it reaches is in bounds and rejected |
| `DhcpServer.WrappedScanLeavesPool` | internal/dhcp/server.go:525-531 | counterexample: a one-address pool at 255.255.255.255, already leased, hands out 0.0.0.0 |
| `DhcpServer.FirstFreeMeans` | internal/dhcp/server.go:426-442 | the first free address is least, and None means there is none |
| `DhcpServer.AllocateSame` | internal/dhcp/server.go:246-258 | allocation depends on the quarantine only through which addresses are still in it, so deleting expired entries never changes a result |
| `DhcpServer.QuarantinedIsNotGranted` | internal/dhcp/server.go:416-438 | a quarantined address is granted to no client without a reservation or lease on the segment |
| `DhcpConflicts.NeverClashesIff` | internal/dhcp/server.go:310-355 | exact, for any state however it came about (segment edits included) with disjoint served pools below 255.255.255.255, one lease for each MAC and pending leases on their listener's segment: no run of packets, recordings and cleared leases, however interleaved, reaches a lease on an address that another MAC holds or has reserved, if and only if the state is clear: no such conflict now, none among the leases under way, every lease that is or can come under way again out of the reach of the other pools or on an address reserved to its MAC, and every reservation that can be granted alone on its address |
| `DhcpConflicts.GrantIsClear` | internal/dhcp/server.go:401-443 | from a clear state, whatever allocation grants clashes with no lease, reservation or lease under way of another MAC on any segment, and is out of the reach of the other pools or reserved to its MAC |
| `DhcpConflicts.EventKeeps` | internal/dhcp/server.go:202-223 | one packet, recording or cleared lease keeps a clear state clear |
| `DhcpConflicts.ReserveIsSafeIff` | internal/config/config.go:681-692 | AddReservation in a state from which no conflict can be reached: none can be reached afterwards if and only if nobody else holds the address or was just acknowledged it, nobody else has reserved it in a way that will be granted, and each lease of its MAC that is or can come under way stays out of the reach of the other pools or on an address reserved to the MAC; otherwise there is a conflict at once or some run of packets leads to one |
| `DhcpConflicts.EventIsSafeIff` | internal/dhcp/server.go:202-223 | any event in a state from which no conflict can be reached leaves none to be reached if and only if it is not a reservation that fails that condition |
| `DhcpConflicts.AlwaysSafeIff` | internal/dhcp/server.go:310-355 | over any run of packets, recordings, cleared leases and reservations, no conflict can be reached from any point of the run if and only if every reservation met its condition when it was made |
| `DhcpConflicts.NeverTwoHolders` | internal/dhcp/server.go:310-355 | over every such run from a clear state (served pools disjoint and below 255.255.255.255, one lease for each MAC, pending leases on their listener's segment) whose reservations meet the condition of `ReserveIsSafeIff`, no two MACs hold leases on one address and no lease sits on an address reserved to another MAC |
| `DhcpConflicts.FreshIsClear` | internal/config/config.go:263-325 | a state without leases whose reserved addresses are distinct is clear |
| `DhcpConflicts.StaleLeaseClashes` | internal/config/config.go:612-642 | counterexample run: segments A and B with disjoint pools and one lease left on A at an address of B's pool; no conflict at the start, and three REQUESTs and their recordings later two MACs hold that address |
| `DhcpRuns.GrantIsStable` | internal/dhcp/server.go:401-443 | whatever allocation granted is granted again when asked for later, in all four branches; excepted are only grants of the pool scan that lie outside the pool, which it makes after wrapping |
| `DhcpRuns.OfferIsHonoured` | internal/dhcp/server.go:260-355 | an OFFER followed by the client's REQUEST for it is acknowledged with that address, with the same exception |
| `DhcpRuns.EveryLeaseWasAcked` | internal/dhcp/server.go:278-355 | over any run every recorded lease was there before, was under way, or was acknowledged to the client that asked, with the wanted address when one was given, on the listener's segment; NAKed and foreign REQUESTs record nothing |
| `DhcpRuns.DeclinedStaysOut` | internal/dhcp/server.go:221-258 | after an accepted DECLINE and any run of later events, nobody on that segment without a reservation or lease there is granted the address within ten minutes |
| `DhcpRuns.LeaseSurvivesOthers` | internal/config/config.go:741-754 | no packets of other clients and no reservations for them change a client's lease |
| `DhcpRuns.PendingSurvivesOthers` | internal/dhcp/server.go:330-354 | whatever happens to others between an ACK and its recording, the acknowledged lease stays under way |
| `DhcpRuns.RenewalIsStable` | internal/dhcp/server.go:401-410 | once acknowledged, the address is acknowledged again after any run of other clients' events, before the lease is recorded as well as after, at any time, also after expiry |
| `DhcpRuns.TermIsHonoured` | internal/dhcp/server.go:339-354 | from the ACK to the last full second of the lease time, after any run of other clients' events around the recording, a DISCOVER is offered the same address whatever it requests, and a REQUEST naming another address is not acknowledged |
| `DhcpPacket.WalkOptions` | internal/dhcp/packet.go:90-132 | the option walk stays in bounds and terminates on every byte string, and applies exactly the options before End |
| `DhcpPacket.ParsePacket` | internal/dhcp/packet.go:63-132 | fixed fields and options of every byte string, or the error |
| `DhcpPacket.PadAndEnd` | internal/dhcp/packet.go:92-101 | Pad octets at option boundaries change nothing and octets after End are ignored (RFC 2132 sections 3.1 and 3.2) |
| `DhcpPacket.OptionsCongruent` | internal/dhcp/packet.go:90-106 | after whole options only the meaning of the rest matters |
| `DhcpPacket.TruncatedEnds` | internal/dhcp/packet.go:102-108 | an option that runs off the message or has no length octet ends the walk like End |
| `DhcpPacket.FieldsMean` | internal/dhcp/packet.go:111-126 | what the walk collects: the last option 53 of one octet, 50 of four, 12 of any length and 54 of four |
| `DhcpPacket.MessageRoundTrip` | internal/dhcp/packet.go:63-132 | a message laid out as section 2 of RFC 2131 says is read back: every fixed field including ciaddr, and what its options tell, whatever stands in the name fields, the padding and after End |
| `DhcpPacket.ParsedIsSane` | internal/dhcp/packet.go:63-89 | a message parses if and only if it has at least 240 octets and the cookie at 236; then its transaction ID has four octets and its hardware address as many as announced, at most 16 |
| `DhcpPacket.BuildReply` | internal/dhcp/packet.go:150-189 | header, options in order, End |
| `DhcpPacket.DecodeEncode` | internal/dhcp/packet.go:158-188 | decoding encoded options gives them back, whatever follows End |
| `DhcpPacket.ReplyRoundTrip` | internal/dhcp/packet.go:63-189 | parsing a reply recovers transaction ID, hardware address, given address, message type and server ID, NAK included, zeros where the reply leaves fields out, and the options in order |
| `DhcpPacket.ReplyCarries` | internal/dhcp/packet.go:171-186 | by option code: subnet mask under 1, router under 3, DNS server under 6 (present exactly if given), lease time under 51 in four octets most significant first, type under 53, server ID under 54, and nothing else |
| `Pbkdf2.XorInto` | internal/auth/pbkdf2.go:39-41 | the innermost loop XORs in place |
| `Pbkdf2.DeriveBlock` | internal/auth/pbkdf2.go:30-42 | the middle loop computes F(P, S, c, i) of RFC 8018 section 5.2 over any PRF |
| `Pbkdf2.DeriveKey` | internal/auth/pbkdf2.go:18-46 | the triple loop computes the RFC's derived key, of length keyLen, below the 32-bit block limit |
| `Pbkdf2.KeyOctet` | internal/auth/pbkdf2.go:20-45 | octet k of the key is the XOR of octet k mod 32 of U_1 to U_c of block k/32 + 1, whatever the key length |
| `Pbkdf2.ShorterIsPrefix` | internal/auth/pbkdf2.go:20-45 | a shorter key is a prefix of a longer one |
| `Pbkdf2.IntIsBigEndian` | internal/auth/pbkdf2.go:30-31 | the block number is written in four octets, most significant first |
| `Pbkdf2.TwoBlocks` | internal/auth/pbkdf2.go:18-46 | one iteration, two blocks, written out: PRF(P, S 0001) and PRF(P, S 0002) one after the other |
| `Pbkdf2.TwoRounds` | internal/auth/pbkdf2.go:33-42 | two iterations, written out: the XOR of U_1 and PRF(P, U_1) |
| `DnsName.ReadNameCompressed` | internal/dnsserver/resolver.go:55-101 | the loop equals the recursive pointer-following decoding of RFC 1035 section 4.1.4 on every byte string, errors included, and terminates |
| `DnsName.NameIsBounded` | internal/dnsserver/resolver.go:55-101 | a decoded name has at most 21 times the message's length, and the next offset lies inside the message |
| `DnsName.NameEndLocal` | internal/dnsserver/resolver.go:75-99 | the next offset depends only on the octets up to the first pointer or the terminator |
| `DnsName.ReadName` | internal/dnsserver/server.go:271-291 | the plain reader equals its recursive decoding |
| `DnsName.ReadersAgree` | internal/dnsserver/resolver.go:55-101 | without pointer octets both readers agree, on errors too |
| `DnsName.CompressedReads` | internal/dnsserver/resolver.go:72-99 | labels followed by a pointer are those labels followed by the name its 14 bits address, and the next item stands right behind the pointer |
| `DnsName.JumpsAreLimited` | internal/dnsserver/resolver.go:80-83 | a name is refused for its pointers if and only if it goes through more than twenty |
| `DnsName.PlainMoves` | internal/dnsserver/server.go:271-291 | a pointer-free name reads the same wherever its octets stand |
| `DnsName.DecodeWire` | internal/dnsserver/resolver.go:203-217 | encoded labels decode to those labels, wherever they stand |
| `DnsName.ProperName` | internal/dnsserver/resolver.go:210-213 | a name of dot-free non-empty labels is cut into its own labels, with or without its trailing dot |
| `DnsMessage.ReadRR` | internal/dnsserver/resolver.go:104-129 | one resource record, or the first error |
| `DnsMessage.ReadSection` | internal/dnsserver/resolver.go:165-176 | count records one after another |
| `DnsMessage.ReadQuestions` | internal/dnsserver/resolver.go:146-163 | all questions are read and only the first is kept |
| `DnsMessage.ParseFullMessage` | internal/dnsserver/resolver.go:135-197 | the whole message equals the compositional description of its sections, which `SectionsInOrder` and `MessageRoundTrip` pin down |
| `DnsMessage.SectionsInOrder` | internal/dnsserver/resolver.go:178-195 | in every parsed message answers, authority and additional have the lengths announced at octets 6, 8 and 10, and their data follow each other in that order |
| `DnsMessage.MessageRoundTrip` | internal/dnsserver/resolver.go:104-197 | a message built of a question and any three sections of records is read back with each record in its section, in order, with owner, type, class, TTL and data, whatever follows |
| `DnsMessage.FirstQuestionIsKept` | internal/dnsserver/resolver.go:146-163 | of several questions the first is reported, of none an empty one |
| `DnsMessage.ParsersAgree` | internal/dnsserver/server.go:239-264 | both parsers refuse what is shorter than a header; a header alone is an empty message and no query; and when the first name has no pointers the client's question is the message's first, errors included |
| `DnsMessage.ParseQuestion` | internal/dnsserver/server.go:239-264 | the client's question and the offset after it, or the error |
| `DnsMessage.RecordsInside` | internal/dnsserver/resolver.go:104-129 | every record's data is the window of the message it claims to be, records come in order and never overlap |
| `DnsMessage.BuildIterativeQuery` | internal/dnsserver/resolver.go:203-221 | the octets of a query |
| `DnsMessage.QueryRoundTrip` | internal/dnsserver/resolver.go:203-221 | both parsers read a query back: same ID, no flags, one IN question with the same labels |
| `DnsMessage.QueryCarriesName` | internal/dnsserver/resolver.go:203-221 | any name of dot-free labels of 1 to 63 octets is carried unchanged, trailing dot or not |
| `DnsMessage.BuildAResponse` | internal/dnsserver/server.go:296-328 | the octets of a reply |
| `DnsMessage.AnswerReads` | internal/dnsserver/server.go:317-324 | the owner name of an answer resolves through the 0xC00C pointer to the name at offset 12 |
| `DnsMessage.ReplyReadsBack` | internal/dnsserver/server.go:296-328 | what the full parser makes of any reply to a parsed query, for any list of addresses: the count is cut to 16 bits, and non-IPv4 addresses are counted but not written |
| `DnsMessage.ReplyIsFaithful` | internal/dnsserver/server.go:296-328 | with fewer than 65536 addresses the reply parses exactly when all are IPv4, and then has the query's ID and question and exactly those addresses in order, each owned by the queried name with the given TTL |
| `Resolver.ScanAnswers` | internal/dnsserver/resolver.go:305-332 | addresses owned by the current name, the last alias, and the least TTL among what counted |
| `Resolver.ScanReferral` | internal/dnsserver/resolver.go:350-368 | the nameservers referred to and the glue addresses for them, as `NameserversMean` and `GlueMeans` say |
| `Resolver.GlueMeans` | internal/dnsserver/resolver.go:361-366 | the glue is, in order, the four-octet data of the A records whose lower-cased owner without its dot is a referred nameserver, at port 53 |
| `Resolver.NameserversMean` | internal/dnsserver/resolver.go:348-356 | the referred nameservers are the lower-cased names that the readable NS records hold |
| `Resolver.AliasMeans` | internal/dnsserver/resolver.go:321-330 | the alias is what the last readable CNAME record of the name holds |
| `Resolver.ExchangeOffers` | internal/dnsserver/resolver.go:305-366 | what one answered exchange offers the walk: addresses and alias from the answers, nameservers from the authority section, glue from the additional section, for the name that was asked |
| `Resolver.ViaNameserver` | internal/dnsserver/resolver.go:370-388 | nested lookups in an unspecified order until one succeeds, whose addresses are asked next; it comes to nothing only if a nested resolution of every name came to nothing |
| `Resolver.Interpret` | internal/dnsserver/resolver.go:300-390 | what one exchange leads to: an answer, an alias restarted from the start servers, a referral, or a dead end |
| `Resolver.Resolve` | internal/dnsserver/resolver.go:292-395 | for every network (which may depend on all that was asked before) resolution terminates, records what the network answered to exactly what was asked, its hops form a walk (from one hop to the next by an alias, by glue, or by what a nested walk for the address of a referred name has just found), its result is what the last hop found or is absent for one of the listed reasons (a dead end only if nested resolutions of all referred names failed), and it makes at most Q(depth) calls when replies name at most k nameservers |
| `Resolver.DirectIsResolved` | internal/dnsserver/resolver.go:292-395 | completeness: over a network that answers the same whatever was asked before, whatever answers, aliases and glue lead to within twenty hops is what a resolution returns |
| `Resolver.BudgetIs` | internal/dnsserver/resolver.go:286-301 | Q(0) = 0 and Q(d) = 20 * (1 + k * Q(d - 1)) |
| `Resolver.LeastIsLeast` | internal/dnsserver/resolver.go:305-332 | the least TTL is at most that of every record that counted, and attained unless it is the initial maximum |
| `Resolver.AddressesMean` | internal/dnsserver/resolver.go:309-321 | exactly the data of the name's A records of four octets, in order |
| `Resolver.WalkFollowsAliases` | internal/dnsserver/resolver.go:343-347 | the names a walk asks for form an alias chain from the queried name |
| `Resolver.ResolvedMeans` | internal/dnsserver/resolver.go:292-342 | a result is non-empty, consists of exactly the addresses one response gives, in order, for the name at the end of an alias chain from the queried name, and shows the least TTL of the records that counted (60 if none limits it) |
| `Resolver.NormalIsCanonical` | internal/dnsserver/resolver.go:296-296 | names that are alike in lower case without their dot are asked for alike, with one dot added |
| `Ifaces.OverlapIsExact` | internal/firewall/firewall.go:63-84 | `patternsOverlap` holds if and only if some name matches both patterns |
| `Ifaces.OverlapIsReal` | internal/firewall/firewall.go:48-84 | for patterns that pass the character check, if and only if some legal interface name does |
| `Ifaces.PatternMeans` | internal/firewall/firewall.go:50-55 | a pattern is one to fourteen legal characters, with or without a star after them |
| `Ifaces.TrimMeans` | internal/firewall/firewall.go:101-110 | trimming takes away blanks at both ends, all of them and nothing else |
| `Ifaces.ValidatePatterns` | internal/firewall/firewall.go:101-121 | the loop keeps the distinct non-blank trimmed patterns in order, or reports the first offending one |
| `Ifaces.CheckedMeans` | internal/firewall/firewall.go:101-121 | a list passes exactly when every non-blank input is a valid pattern that shares no name with a reserved one |
| `PortRules.PortsRoundTrip` | internal/firewall/firewall.go:218-263 | what is written for a port or range is parsed as the same ports |
| `PortRules.PortSpecIsValid` | internal/firewall/firewall.go:227-263 | every accepted port or range lies in 1 to 65535 and does not run backwards |
| `PortRules.SegmentContaining` | internal/firewall/firewall.go:322-339 | the first segment whose masked address equals the masked target, skipping unparsable ones |
| `PortRules.FirstHoldingMeans` | internal/firewall/firewall.go:322-339 | found exactly when some segment contains the address |
| `PortRules.NormalizeMeans` | internal/firewall/firewall.go:354-411 | a normalised rule has valid ports, remaps no range, and a forward target in a configured segment that is not that segment's own address |
| `PortRules.NormalizeIff` | internal/firewall/firewall.go:218-411 | normalisation is exact: a rule normalises to something if and only if that is what its words mean: kind, protocols, ports in decimal, source (nothing, one address, or a network without host bits), target and target port |
| `PortRules.PortSpecMeans` | internal/firewall/firewall.go:227-263 | a port text is accepted as a range if and only if it is one number from 1 to 65535, or two with a hyphen that do not run backwards |
| `PortRules.FirstHoldingIsFirst` | internal/firewall/firewall.go:322-339 | the segment of an address is the first that agrees with it in every bit of its mask |
| `Firewall.CollectLans` | internal/firewall/firewall.go:439-456 | distinct LAN interfaces in order, or the first that is invalid or the WAN |
| `Firewall.DockerInterfaces` | internal/firewall/firewall.go:144-162 | the bridge patterns, defaults included, or why they are refused |
| `Firewall.TrustedInterfaces` | internal/firewall/firewall.go:169-178 | the trusted patterns, or why they are refused |
| `Firewall.CollectZones` | internal/firewall/firewall.go:433-478 | the checks before rendering, in order |
| `Firewall.CollectRules` | internal/firewall/firewall.go:480-516 | the enabled rules compiled in order, or the first invalid one |
| `Firewall.Render` | internal/firewall/firewall.go:433-599 | the loops write exactly the chains of the specification; what these do to packets is `ForwardIsPolicy`, `WanToLanNeedsRule`, `InputIsPolicy` and `RedirectAsTyped` |
| `FirewallPolicy.ZonesDisjoint` | internal/firewall/firewall.go:88-178 | under any configuration that renders, no interface name is in two of the WAN, LAN, Docker and trusted zones, and none of the patterns matches loopback |
| `FirewallPolicy.ZonesMean` | internal/firewall/firewall.go:123-178 | the zones are what was configured: the trimmed WAN name, the trimmed segment interfaces, the non-blank trimmed bridge patterns or the defaults (none when Docker is off) and the non-blank trusted patterns |
| `FirewallPolicy.LansAreDistinct` | internal/firewall/firewall.go:439-456 | the LAN interfaces are the segments' own, trimmed, each once |
| `FirewallPolicy.RendersIff` | internal/firewall/firewall.go:433-516 | exactly which configurations render: plain names for the WAN and at least one segment, the WAN on none of them; legal trusted patterns that match none of these nor loopback; with Docker on, at least one bridge, the same for all of them, none sharing a name with a trusted pattern, and a meaningful source; and enabled rules that all mean something |
| `FirewallPolicy.SourceMeans` | internal/firewall/firewall.go:270-290 | a source lets through exactly the address or network its text names, or everybody when blank |
| `FirewallPolicy.RulesAsTyped` | internal/firewall/firewall.go:480-516 | enabled rules let in exactly the packets their text describes: kind, protocol, source, target, and the port typed or, for a remapped one, the target port typed |
| `FirewallPolicy.CompiledMeans` | internal/firewall/firewall.go:480-516 | the emitted port rules match exactly the packets that some enabled rule lets in from the WAN |
| `FirewallCorrect.ForwardIsPolicy` | README.md:400-408 | compiler correctness: the rendered forward chain under first match with policy drop accepts a packet exactly when it belongs to a known connection, or is new and allowed by the zone matrix or an enabled forward rule |
| `FirewallCorrect.WanToLanNeedsRule` | README.md:407-407 | new traffic from the WAN to anywhere but a Docker bridge passes exactly by an enabled forward rule whose text describes the packet |
| `FirewallCorrect.WanToRouterNeedsRule` | README.md:402-407 | new traffic from the WAN reaches the router exactly as ICMP or by an enabled input rule whose text describes the packet, unless loopback itself is configured as the WAN |
| `FirewallCorrect.DockerNeedsDnat` | internal/firewall/firewall.go:556-576 | LAN, WAN and trusted interfaces reach a Docker bridge exactly with dnat status (from the WAN also only from the source typed), forward rules from the WAN aside |
| `FirewallCorrect.OnlyRulesReachOut` | internal/firewall/firewall.go:568-581 | nothing new reaches a trusted or unknown interface except by a forward rule from the WAN, and an unknown interface starts nothing |
| `FirewallCorrect.InputIsPolicy` | README.md:402-407 | the rendered input chain accepts exactly loopback, known connections, ICMP, LAN, Docker and trusted interfaces, and WAN traffic that an enabled input rule admits |
| `FirewallCorrect.RedirectIsFirstTarget` | internal/firewall/firewall.go:585-590 | exactly the packets arriving on the WAN for an address of this box that an enabled forward rule wants are redirected, to the first such rule's target |
| `FirewallCorrect.RedirectAsTyped` | internal/firewall/firewall.go:503-515 | and by text: they go to the address and port typed in the first enabled forward rule that was typed for their protocol, source and port |
| `FirewallCorrect.RedirectedIsForwarded` | internal/firewall/firewall.go:503-515 | a redirected packet is then accepted by the forward chain, for plain, remapped and range ports, both protocols and any source; its target lies in a configured segment and is not that segment's own address |
| `FirewallCorrect.MasqueradedIsWan` | internal/firewall/firewall.go:592-595 | exactly what leaves by the WAN is masqueraded |
| `FirewallHandlers.Server.ApplyFirewall` | internal/firewall/firewall.go:768-796 | install what renders, or remove the tables, or change nothing |
| `FirewallHandlers.Server.ApplyIfEnabled` | internal/web/firewall.go:31-37 | leaves the kernel alone while the firewall is off |
| `FirewallHandlers.Server.RemovePortRule` | internal/config/config.go:939-950 | removes every rule with the ID |
| `FirewallHandlers.Server.SetPortRuleDisabled` | internal/config/config.go:953-963 | changes the first rule with the ID |
| `FirewallHandlers.Server.HandleFirewallToggle` | internal/web/firewall.go:42-72 | the master switch, switched off again when enabling fails; whole new state and reply, in step when it reports success, kernel untouched and configuration restored exactly as stated when it is refused |
| `FirewallHandlers.Server.HandleFirewallAddRule` | internal/web/firewall.go:78-125 | validate, add, apply, take back; whole new state and reply, in step when it reports success, kernel untouched and configuration restored exactly as stated when it is refused |
| `FirewallHandlers.Server.HandleFirewallRemoveRule` | internal/web/firewall.go:127-144 | remove and apply, nothing taken back; whole new state and reply, in step when it reports success, kernel untouched and configuration restored exactly as stated when it is refused |
| `FirewallHandlers.Server.HandleFirewallToggleRule` | internal/web/firewall.go:148-173 | flag, apply, set the opposite flag; whole new state and reply, in step when it reports success, kernel untouched and configuration restored exactly as stated when it is refused |
| `FirewallHandlers.Server.HandleFirewallDocker` | internal/web/firewall.go:178-219 | validate, store, apply, restore the previous settings; whole new state and reply, in step when it reports success, kernel untouched and configuration restored exactly as stated when it is refused |
| `FirewallHandlers.Server.HandleFirewallTrusted` | internal/web/firewall.go:224-263 | the same for trusted interfaces; whole new state and reply, in step when it reports success, kernel untouched and configuration restored exactly as stated when it is refused |
| `FirewallSync.FormKeepsMeaning` | internal/web/firewall.go:83-105 | cleaning the form, naming the rule and giving it an ID change neither whether it is valid nor what it compiles to, provided lower-casing is idempotent on the two words |
| `FirewallSync.RefusedRestores` | internal/web/firewall.go:111-118 | a refused request never touches the kernel, and restores the configuration exactly if and only if: the new rule's ID was fresh, the toggle flipped its rule, the removal removed nothing, the firewall was off before; Docker and trusted changes always |
| `FirewallSync.DoneIsInStep` | internal/web/firewall.go:42-263 | a request that reports success leaves the kernel holding exactly what the configuration renders to, whatever it held before; switching off leaves it without the tables |
| `FirewallSync.KeepsInStep` | internal/web/firewall.go:31-263 | exact condition for every request, save and kernel outcome: configuration and kernel stay in step (on with exactly the rendered rules, off with no tables) if and only if the request is rejected, or is saved and taken or harmless, or its save fails and the change is one the kernel would not see |
| `FirewallSync.InStepForEveryAnswer` | internal/web/firewall.go:31-263 | what can be told beforehand: a saved request keeps the two in step whatever the kernel answers if and only if it would be rejected or is harmless |
| `FirewallSync.StoredInStep` | internal/web/firewall.go:49-53 | a change stored without reaching the kernel, as after a failed save, keeps the two in step if and only if: the switch stays as it was, or the firewall is off, or only switched-off rules go, or the flag stays, or the zones stay the same |
| `FirewallSync.RemainsInStep` | internal/web/firewall.go:111-167 | a change refused and taken back keeps the two in step if and only if: the firewall is off, or the rules with that ID were all off, or the toggle flipped its rule, or it is a Docker or trusted change; a refused switch of a running firewall never does |
| `FirewallSync.WithoutAgrees` | internal/web/firewall.go:133-142 | removing rules behind the kernel's back is unnoticed exactly when every removed rule was off |
| `FirewallSync.WithoutKeeps` | internal/config/config.go:939-950 | removing an ID removes exactly its rules and keeps the order of the others |
| `FirewallSync.FlipDisagrees` | internal/web/firewall.go:156-167 | a flag changed behind the kernel's back always leaves the two apart |
| `FirewallSync.RuledTellsDocker` | internal/firewall/firewall.go:459-473 | configurations that differ in Docker settings render alike only if their zones are the same |
| `FirewallSync.RuledTellsTrusted` | internal/firewall/firewall.go:475-478 | configurations that differ in trusted interfaces render alike only if their zones are the same |
| `FirewallSync.SessionInStepIff` | internal/web/firewall.go:31-263 | over any session configuration and kernel are in step throughout if and only if every request is of those kinds |
| `FirewallEffect.AddTakesEffect` | internal/web/firewall.go:78-125 | from form to packet: after a successful addition to a running firewall the chains accept exactly what they accepted before and what the form describes, from the WAN (lower-casing being idempotent on the two words) |
| `FirewallEffect.RemoveTakesEffect` | internal/web/firewall.go:127-144 | after a successful removal new packets pass exactly by the zone policy or by a rule with another ID |
| `FirewallEffect.ToggleTakesEffect` | internal/web/firewall.go:148-173 | after a successful toggle the first rule with the ID, and only that one, counts as switched on or off for the traffic |
| `FirewallEffect.DockerTakesEffect` | internal/web/firewall.go:178-219 | after new Docker settings the bridges are the ones typed or the defaults, none when off, other zones are as before, and the WAN reaches bridges exactly with redirected packets from the typed source or by a forward rule |
| `FirewallEffect.TrustedTakesEffect` | internal/web/firewall.go:224-263 | after new trusted interfaces that zone is what was typed and everything else is as before |
| `FirewallEffect.SwitchTakesEffect` | internal/web/firewall.go:42-72 | the master switch loads what the configuration renders to or removes the tables, and changes no other setting |

## Left out

- JSON encoding, file-system internals and `fsync`: snapshots are values (marshalling may fail in the model, which the types of the configuration rule out), a rename is atomic, and a write is a begin and an end with a partial temporary file in between.
- Settings setters other than a generic edit, the import of a backup and the migration of old files: they are edits of the same kind to the protocol.
- Locks between web handlers: a handler runs as one step; two dashboards changing the firewall at once are not modelled.
- Several packets inside one segment listener: the source handles them one after another, and the allocator's reads of the store are one step; recording the lease is a separate one.
- One `now` for each packet: the source reads the clock more than once while it handles a packet.
- Textual addresses in the DHCP store: they are 32-bit values, with None where the source could not parse a segment's text; a reservation whose text is not an address is not modelled.
- Removing a reservation and editing segments while leases exist: the runs have packets, recordings, cleared leases and added reservations; `DhcpConflicts.NeverClashesIff` decides the state that any such edit leaves.
- Sockets, broadcasts, packet information, logs and the ARP reader: packets and ARP tables are inputs.
- Which mask, router, DNS server and lease time an OFFER or ACK carries (`buildOfferOrACK`): the builder is proved for all of them, the handlers model the address and the server ID.
- DHCPRELEASE and unknown message types change nothing in the source and nothing here.
- DnsMessage.QueryRoundTrip: needs every label to be shorter than 192 octets, because a longer label's length octet reads as a pointer or is cut to 8 bits; names that obey the limit of 63 always qualify.
- DnsMessage.ReplyReadsBack: needs a query name without pointer octets, which the question reader takes for labels of 192 octets or more and the full parser does not.
- Unicode case folding and lower-casing in the resolver: parameters without any assumption.
- The UDP exchange with one server after another (`queryServers`) and its random IDs: one oracle call, which may return any message or none.
- Resolver.Resolve: the order in which nameserver names are tried is left open, as Go leaves it open.
- The DNS cache, local records, forwarding to an upstream: map lookups and relaying.
- HMAC-SHA-256, salts and password storage: the PRF is a parameter.
- The text of the nftables ruleset, quoting, comments and rule names, the syntax check as a separate run: rules are values, and the kernel either takes a ruleset or changes nothing.
- Address and CIDR parsing and lower-casing in the firewall: parameters; port numbers, trimming, interface names and masks are concrete.
- Strings that are not valid UTF-8: strings are sequences of characters.
- Warnings, foreign tables, the detection of other firewalls, the switch for IP forwarding: diagnostics.
- Splitting the interface lists of a form into words: the handlers receive the words.
- Dashboard pages, sessions, login throttling, traffic shaping, status and statistics: easy members only.
