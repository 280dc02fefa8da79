# Verified model of the coturn server core

coturn is a TURN and STUN server written in C. This project models four connected pieces of it
in Dafny and proves properties of them for all inputs, all runs or all reachable states.

- **The hash table under every server index.** `Probing`, `Rehash` and `HashTable` run the
  khashl code on arrays: cyclic linear probing, backward-shift deletion and the in-place
  kick-out rehash. `UrMaps` puts the server's 64-bit map on top and proves that every run
  answers as a mathematical map does. Nothing is assumed of the hash but its range.
- **The TURN allocation.** `LocalMap` is the per-permission map from port to channel,
  `AllocState` the invariant of the permission and channel tables, `Allocations` the tables
  with their operations, `PeerRequests` the ChannelBind and CreatePermission handlers,
  `Sweeping` the once-per-second sweep, `Relay` the two data directions and whole runs,
  `Deadlines` how long what was granted lasts, and `PermissionCap` a run past the documented limit.
- **The message codec.** `Crc32`, `StunBytes` and `StunBuild` describe messages as values,
  `StunBuffer` the same functions writing into a buffer, `Framing` ChannelData and the framing
  of streams.
- **Bookkeeping around sessions.** `Reservations` and `RtcpMaps` are the reserved sockets and
  their two-phase timer, `AlternateServer` the round robin of redirects, `Authentication` the
  long-term credential check on real message bytes. `Sessions`, `SessionSteps`, `Outcomes`,
  `ServerEvents`, `Servers` and `ServerRuns` are the sessions of a relay server with quota,
  bandwidth, mobility tickets and the authentication gate: the books, the steps and events as
  functions of the state before, the server itself, and its runs. `NameBooks` says exactly when
  the quota of single names balances, and `GuardedRelay` joins a session with its allocation.

The form follows the C code: tables, buffers and sessions that the code changes in place are
classes, arrays and fields with methods, each tied to a function or an invariant; what only
computes is a function.

How the C code was read:

- The address of a permission or channel slot (`Ref`) stands for the pointer to it. Buckets
  grow by pointers to new slots, so a slot never moves. A session is named by its address (`Ptr`).
- Results of allocation, callbacks, random draws, clocks and I/O are parameters.
- Times are 32-bit and compared as signed numbers (`turn_time_before`, src/ns_turn_defs.h:166).
- The khashl table keeps its used bits as booleans, an absent key array as an empty one, and the
  salt of this instantiation is 0. Asking for more than 2^31 buckets counts as failed allocation.
- HMAC is any function with a fixed output length, `is_secure_string` any predicate, the length of
  an HTTP request any function that answers only for bytes starting with a verb.
- Strings in messages are C strings: cut to the size of the C buffer and at the first zero byte.
- The code, not its comments, is followed where they differ: the limit of 1024 permissions
  (src/server/ns_turn_allocation.h:116-122) is tested only when a bucket grows.

Where a promise fails of the code, the model keeps the code, gives a concrete case and says
exactly when the promise holds: `LocalMap.Put` with `LocalMap.UnseenExample`,
`Allocations.Allocation.AddPermission` with `PermissionCap.PastTheCap`, `Framing.StunLengthSum`
with `Framing.LengthWraps`, `Framing.PacketStep` with `Framing.NeverTaken`,
`Reservations.ReusedToken` with `Reservations.ReusedTokenExample`, and `NameBooks.EvenStep` and
`NameBooks.RunEven` with `ServerRuns.RenameExample`.

## Model

| member | source | states |
|---|---|---|
| Probing.CeilBits | src/server/ns_turn_khash.h:190-195 | the bucket count a resize rounds to: the least power of two, at least four, that is not smaller than the request |
| Probing.ProbeMiss | src/server/ns_turn_khash.h:167-181 | a probe that met only other keys and then a free bucket proves the key absent, for any hash function, across wrap-around |
| Probing.ProbeFull | src/server/ns_turn_khash.h:167-181 | so does a probe that went all the way round |
| Probing.ChainedInsert | src/server/ns_turn_khash.h:264-277 | filling the first free bucket of a key's probe keeps every probe chain unbroken |
| Probing.HoldsComplete | src/server/ns_turn_khash.h:167-185 | used buckets with distinct keys, all taken from a map of the same size, leave out no key of that map |
| Probing.ShiftTest | src/server/ns_turn_khash.h:298 | the C condition for moving a bucket back holds exactly when the chain of its key crosses the hole, in all four wrap-around cases |
| Probing.ScanStopsBeforeHole | src/server/ns_turn_khash.h:293-300 | the deletion scan cannot come back to the hole while some bucket is free, so it ends |
| Probing.DeleteStep | src/server/ns_turn_khash.h:293-300 | one iteration, moving or not, keeps the entries and every chain outside the hole |
| Probing.HoleClosed | src/server/ns_turn_khash.h:293-301 | when the scan stops, clearing the hole restores every probe chain |
| Rehash.RehashTake | src/server/ns_turn_khash.h:215-220 | taking an entry out of the old table keeps old-used and new-used apart and takes one off the old-used count |
| Rehash.RehashKick | src/server/ns_turn_khash.h:221-233 | a kick-out exchanges the carried entry for the displaced one: nothing is lost or doubled, and the old-used count goes down |
| Rehash.RehashPlace | src/server/ns_turn_khash.h:234-237 | an entry written to a bucket no one uses completes the map again |
| Rehash.RehashFree | src/server/ns_turn_khash.h:224-225 | the new table always has a free bucket for the carried entry, so the inner probe ends |
| Rehash.RehashDone | src/server/ns_turn_khash.h:240-250 | when the old table is empty the new one alone holds the map with unbroken chains, also in the first buckets after a shrink |
| HashTable.KHash.Get | src/server/ns_turn_khash.h:167-185 | returns the bucket of the key if the map has it, and the bucket count if not |
| HashTable.KHash.ShiftBack | src/server/ns_turn_khash.h:286-301 | whatever the hash, after the backward shift the table with the last hole cleared holds the old map without exactly the deleted key, all chains intact |
| HashTable.KHash.Del | src/server/ns_turn_khash.h:286-304 | removes exactly the entry of that bucket and keeps the table valid |
| HashTable.KHash.RoundUp | src/server/ns_turn_khash.h:188-195 | the shift loop computes the least fitting power of two |
| HashTable.KHash.FirstFree | src/server/ns_turn_khash.h:223-225 | the first bucket from the home of the key that the new table leaves free |
| HashTable.KHash.KickStep | src/server/ns_turn_khash.h:221-238 | one round of the kick-out keeps the union of both tables and the carried entry equal to the map, with a smaller old table when it goes on |
| HashTable.KHash.MoveAll | src/server/ns_turn_khash.h:215-239 | every old entry is placed once; the old table ends empty and the new one holds the whole map |
| HashTable.KHash.RehashTo | src/server/ns_turn_khash.h:202-250 | the in-place rehash keeps the map and installs the new size |
| HashTable.KHash.Resize | src/server/ns_turn_khash.h:187-251 | keeps the map; says exactly when it fails, when it does nothing and what size results |
| HashTable.KHash.MakeRoom | src/server/ns_turn_khash.h:257-262 | after it there is room for one more under the load factor, or the table was full and memory or size ran out |
| HashTable.KHash.Put | src/server/ns_turn_khash.h:253-284 | new, present and out-of-memory are told apart exactly; only a new key changes the map; the returned bucket carries the key |
| HashTable.KHash.GrowthBits | src/server/ns_turn_khash.h:257-262 | a full table asks for one bucket more and gets twice its size, which raises the limit |
| UrMaps.H2bInRange | src/server/ns_turn_khash.h:115-117 | Fibonacci hashing addresses a bucket of the table for every 32-bit hash |
| UrMaps.UrMap.Put | src/server/ns_turn_maps.c:76-91 | map update, refused only when the table must grow and cannot; the map is then unchanged |
| UrMaps.UrMap.Get | src/server/ns_turn_maps.c:93-107 | map lookup |
| UrMaps.UrMap.Del | src/server/ns_turn_maps.c:109-124 | map removal, with the value that was there |
| UrMaps.UrMap.Size | src/server/ns_turn_maps.c:155-161 | the number of keys, never above three quarters of the buckets |
| UrMaps.UrMap.Foreach | src/server/ns_turn_maps.c:163-187 | a walk sees every entry of the map exactly once and nothing else |
| UrMaps.Perform | src/server/ns_turn_maps.c:76-161 | each operation answers, and changes the contents, as a mathematical map does |
| UrMaps.Run | src/server/ns_turn_maps.c:76-161 | every run of put, get, delete and size on a new map, with any pattern of allocation failures, answers as a mathematical map does; a put that has memory is refused only when the map then holds as many entries as the largest table takes |
| LocalMap.Zero | src/server/ns_turn_maps.c:191-195 | the zeroed map is well-formed and empty |
| LocalMap.Get | src/server/ns_turn_maps.c:269-304 | lookup in the finite map the buckets stand for |
| LocalMap.Put | src/server/ns_turn_maps.c:197-267 | an absent key is added and nothing else changes; for a present key the map stays well-formed if and only if no free slot precedes the key, which a caller can check |
| LocalMap.Del | src/server/ns_turn_maps.c:306-346 | removes exactly the key and says whether it was there |
| LocalMap.UnseenExample | src/server/ns_turn_maps.c:197-267 | after a put of 9, a put of 1 and a delete of 9 on the zeroed map, the map is well-formed and holds 1, but a put of 1 does not see it and stores it twice |
| Addresses.IpBucket | src/client/ns_turn_ioaddr.c:126-140 | the hash of an IP, without its port, selects one of the eight permission buckets |
| Addresses.LowBitsDecide | src/client/ns_turn_ioaddr.c:96-101 | two IPv4 addresses with the same low 18 bits share a bucket |
| AllocState.OneChannelPerPeer | src/server/ns_turn_allocation.c:289-378 | two live channels with the same peer are the same channel |
| AllocState.TimesAreNumbers | src/ns_turn_defs.h:166 | below 2^31 one time is before another exactly as numbers, and a deadline is the sum of clock and lifetime while that fits in 32 bits |
| AllocState.InstallKeeps | src/server/ns_turn_allocation.c:400-468 | a permission for a new IP in a free slot keeps the table invariants |
| AllocState.BindKeeps | src/server/ns_turn_allocation.c:313-340 | a new channel entered under a free number and a free port of its owner keeps them |
| AllocState.UnbindKeeps | src/server/ns_turn_allocation.c:289-311 | taking a channel out of its owner's port map and zeroing it keeps them, and the owner is live |
| AllocState.CleanKeeps | src/server/ns_turn_allocation.c:180-194 | zeroing a permission together with all channels that name it keeps them |
| Allocations.CountLive | src/server/ns_turn_allocation.c:382-398 | the number of live permissions over all buckets |
| Allocations.PermissionSlot | src/server/ns_turn_allocation.c:400-456 | finds a slot of the bucket not in use, else grows the bucket; refuses exactly when the bucket is full and the allocation is at the limit |
| Allocations.SearchBucket | src/server/ns_turn_allocation.c:236-261 | the loop over main and extra slots finds a live slot of the IP if the bucket has one |
| Allocations.FirstUnused | src/server/ns_turn_allocation.c:408-434 | the first slot of the bucket that is not in use, all before it being live |
| Allocations.SearchChannels | src/server/ns_turn_allocation.c:470-525 | the loop over a channel bucket finds the live channel of the number if there is one |
| Allocations.ChannelSlot | src/server/ns_turn_allocation.c:470-525 | a slot not in use, or a new one at the end of the bucket |
| Allocations.CleanPorts | src/server/ns_turn_allocation.c:263-287 | every channel in the port map is zeroed and no other slot is touched |
| Allocations.Allocation.GetPermission | src/server/ns_turn_allocation.c:236-261 | the live permission of the IP, and none only when there is none; an address of family 0 never matches |
| Allocations.Allocation.AddPermission | src/server/ns_turn_allocation.c:382-468 | refused if and only if the IP's bucket is full and the allocation holds 1024 or more; otherwise exactly one slot becomes live; a bucket grows only when all its slots are live and the total is below 1024; starting within the documented limit of 1024, the total stays within it if and only if it was below or the bucket was full |
| Allocations.Allocation.FindChannel | src/server/ns_turn_allocation.c:470-525 | the one live channel of a number |
| Allocations.Allocation.PortChannel | src/server/ns_turn_allocation.c:352-378 | the channel the permission's port map names, which is live and owned by that permission |
| Allocations.Allocation.AttachChannel | src/server/ns_turn_allocation.c:313-340 | a slot not in use becomes the channel, and only the owner's port map changes besides |
| Allocations.Allocation.ChannelDelete | src/server/ns_turn_allocation.c:289-311 | the slot is zeroed and exactly its port leaves the owner's map |
| Allocations.Allocation.PermissionClean | src/server/ns_turn_allocation.c:180-194 | the permission and exactly the channels it owns are zeroed |
| Allocations.Allocation.ChannelOfPeer | src/server/ns_turn_allocation.c:344-350 | the live channel of a peer address, none only if there is none |
| Allocations.Allocation.OwnerIsLive | src/server/ns_turn_allocation.c:289-378 | a live channel's owner is a live permission of the same IP whose port map points back to it |
| Allocations.Allocation.PortsAreOwned | src/server/ns_turn_allocation.c:180-194 | a permission's port map names exactly the live channels that name it as owner |
| Allocations.Allocation.OnePermPerIp | src/server/ns_turn_allocation.c:236-261 | an IP has at most one live permission |
| Allocations.Allocation.NoPortZero | src/server/ns_turn_allocation.c:313-340 | no channel is bound to port 0 |
| Allocations.Allocation.PermissionBound | src/server/ns_turn_allocation.c:382-468 | no bucket has more than 1024 slots, so no valid allocation holds more than 8 * 1024 permissions |
| Allocations.Allocation.Clear | src/server/ns_turn_allocation.c:61-94 | nothing is live afterwards and the tables are valid |
| PeerRequests.UpdateChannelLifetime | src/server/ns_turn_server.c:963-989 | the channel gets the channel lifetime and its owner's deadline is pushed along; nothing else changes |
| PeerRequests.NoInternalError | src/server/ns_turn_server.c:2779-2802 | in a valid allocation none of the wrong-permission and wrong-port 500 branches is taken for an existing channel |
| PeerRequests.NewChannel | src/server/ns_turn_allocation.c:313-340 | finds or adds the permission and attaches the channel; it fails, changing nothing, if and only if the IP has no permission and a new one is refused |
| PeerRequests.BindChannel | src/server/ns_turn_server.c:2779-2835 | the reply is determined by the tables before, case by case in the order of the code; a binding is made or refreshed exactly on success and on a multiplex refusal, else nothing changes; a permission becomes live only for the peer of this request, if its own filter accepts it |
| PeerRequests.BindNewChannel | src/server/ns_turn_server.c:2801-2826 | the same for a number that is not in use |
| PeerRequests.BindAnswers | src/server/ns_turn_server.c:2778-2836 | the answer to a well-formed ChannelBind told by the tables before it: which code a number in use for another peer, a peer in use under another number, the filter, a full table and the registry earn, and exactly when it succeeds |
| PeerRequests.ParseBind | src/server/ns_turn_server.c:2714-2776 | accepts exactly the well-formed requests; number and last peer are those of the request; every refusal has its fixed reply |
| PeerRequests.BindCodes | src/server/ns_turn_server.c:2714-2776 | which attribute of a ChannelBind earns which code, for the first one not in order or the end of the request |
| PeerRequests.ChannelBind | src/server/ns_turn_server.c:2695-2864 | the whole effect of a request: which refusal it earns by its attributes, else the reply and the tables that BindChannel fixes; permissions become live only for the listed peer its own filter accepts |
| PeerRequests.UpdatePermission | src/server/ns_turn_server.c:3164-3194 | exactly the permission of the IP gets the new deadline, created if need be; with a channel at the exact peer, that one is refreshed and its lifetime decides |
| PeerRequests.CheckPeers | src/server/ns_turn_server.c:3215-3264 | the first pass accepts exactly the valid requests, and its reply is fixed: an attribute not understood before the first refused peer, else that peer's fault, else a missing peer |
| PeerRequests.CreateCodes | src/server/ns_turn_server.c:3215-3264 | which attribute of a CreatePermission earns which code, for the first one not in order or the end of the request |
| PeerRequests.InstallPeer | src/server/ns_turn_server.c:3272-3300 | one address of the second pass refreshes or installs its IP, or there is no room for it, and keeps what was installed before |
| PeerRequests.InstallPeers | src/server/ns_turn_server.c:3266-3306 | the second pass refreshes or installs exactly the listed IPs that there is room for; its reply is that of the last listed peer without room or held by another allocation, and success otherwise |
| PeerRequests.SuccessExactly | src/server/ns_turn_server.c:3283-3306 | the second pass succeeds if and only if there was room for every listed peer and no other allocation held one |
| PeerRequests.InstallCodes | src/server/ns_turn_server.c:3283-3306 | the last listed peer at fault decides the code: 500 when there was no room for it, else 400 |
| PeerRequests.CreatePermission | src/server/ns_turn_server.c:3196-3314 | two-pass atomic, with reply and tables fixed: a request refused in validation changes no table and gets the first fault's code; an accepted one refreshes or installs exactly the listed IPs that there is room for and touches no channel; every permission that becomes live is for a listed IP that this request's filter accepts; the error code is that of the last listed peer at fault |
| Sweeping.SweepPermissions | src/server/ns_turn_server.c:999-1025 | the first loop equals a filter on deadlines, with the channels of the dropped permissions |
| Sweeping.SweepChannels | src/server/ns_turn_server.c:1027-1046 | the second loop drops exactly the channels past their own deadline, and permissions lose only ports |
| Sweeping.SweepPermBucket | src/server/ns_turn_server.c:1005-1025 | one bucket of the first loop advances the filter by that bucket |
| Sweeping.SweepChanBucket | src/server/ns_turn_server.c:1028-1046 | one bucket of the second loop advances the filter by that bucket |
| Sweeping.PassesFilterChans | src/server/ns_turn_server.c:999-1046 | the two passes together leave exactly the channels neither past their own nor their owner's deadline |
| Sweeping.PortsFollow | src/server/ns_turn_server.c:999-1046 | in a consistent table over the surviving channels a surviving permission keeps exactly the ports of survivors |
| Sweeping.PassesFilterPerms | src/server/ns_turn_server.c:999-1046 | so the swept permission table is fully determined: the pure filter |
| Sweeping.Sweep | src/server/ns_turn_server.c:999-1046 | one sweep of a valid allocation is a pure filter of both tables and keeps every index invariant |
| Sweeping.PermissionLasts | src/server/ns_turn_server.c:999-1026 | a permission is live after a sweep if and only if the clock is not past its deadline, as numbers |
| Sweeping.ChannelLasts | src/server/ns_turn_server.c:999-1046 | a channel is live after a sweep if and only if the clock is past neither its deadline nor its owner's |
| Relay.PeerOfChannel | src/server/ns_turn_server.c:4198-4242 | client data on a channel goes to the peer of the one live channel of that number |
| Relay.ChannelOfData | src/server/ns_turn_server.c:5013-5020 | a permission is found for peer data if and only if the IP has a live one, and the data travels under the number of that exact peer's channel |
| Relay.ChannelsOneToOne | src/server/ns_turn_allocation.c:289-378 | channel number to peer is one to one in every valid allocation |
| Relay.DirectionsAgree | src/server/ns_turn_server.c:4208-4228 | data from a peer travels under channel n if and only if data on channel n goes to exactly that peer |
| Relay.Happen | src/server/ns_turn_server.c:2695-3314 | each event has its whole effect on the tables: a bind, a create, a sweep, a teardown |
| Relay.EventInstalls | src/server/ns_turn_server.c:2804-2825 | a permission that an event makes live is for an IP that this event lists and its own filter lets through; one that stays keeps its IP |
| Relay.Installed | src/server/ns_turn_server.c:3196-3314 | for every live permission of a run there is the event that installed it, live ever since, which lists its IP and whose own filter let it through |
| Relay.Reach | src/server/ns_turn_server.c:2695-3314 | over every run of binds, permissions, sweeps and teardowns: each event has its effect, the tables are valid, channels one to one, at most 8 * 1024 permissions, and every live permission was installed by a request that lists its IP and whose own filter let it through |
| Deadlines.BindDeadlines | src/server/ns_turn_server.c:928-990 | a successful ChannelBind at c leaves the channel and its owning permission with the same deadline, the number c plus the channel lifetime |
| Deadlines.CreateDeadlines | src/server/ns_turn_server.c:928-960 | an accepted CreatePermission at c leaves each permission of a listed IP with the number c plus the permission lifetime |
| Deadlines.CreatedUntil | src/server/ns_turn_server.c:999-1026 | an IP that a CreatePermission at c found room for is permitted after a sweep if and only if the sweep is not past c plus the permission lifetime |
| Deadlines.BoundUntil | src/server/ns_turn_server.c:999-1046 | after a successful ChannelBind at c both data directions join number and peer, and a sweep leaves channel and permission if and only if it is not past c plus the channel lifetime |
| PermissionCap.LimitExceeded | src/server/ns_turn_allocation.c:436-442 | in every run of the given three events, under the real hash, the allocation ends with more than 1024 permissions |
| PermissionCap.PastTheCap | src/server/ns_turn_allocation.c:436-442 | such a run: a request for 1024 addresses of one bucket and a request for one of another |
| Crc32.TableIsBits8 | src/client/ns_turn_msg.c:1731-1761 | each of the 256 table entries is its index shifted through eight bits of the reflected polynomial 0xEDB88320 |
| Crc32.UpdateIsBits8 | src/client/ns_turn_msg.c:1763-1769 | one table step equals eight bit steps, for every register and byte |
| Crc32.NsCrc32 | src/client/ns_turn_msg.c:1763-1769 | the table-driven loop equals the bit-at-a-time CRC-32 of the bytes, complements included, for every buffer |
| StunBytes.Next | src/client/ns_turn_msg.c:1506-1523 | on arbitrary bytes the next cell begins where this one ends and lies inside the declared message |
| StunBytes.FindFrom | src/client/ns_turn_msg.c:1463-1473 | what the lookup by type returns is a whole cell of that type |
| StunBytes.IterationInside | src/client/ns_turn_msg.c:1475-1523 | on arbitrary bytes the iterator's offsets strictly increase and every padded cell stays inside the declared message |
| StunBuild.InitWellFormed | src/client/ns_turn_msg.c:653-660 | a new command is well-formed and has no attribute |
| StunBuild.TypeReadsBack | src/client/ns_turn_msg.c:425-438 | for every method and class the type word reads back: its method, and whether it is a request |
| StunBuild.CommandShape | src/client/ns_turn_msg.c:453-469 | bytes are taken for a command if and only if they are a type below 0x4000, the length of the body, the magic cookie, twelve bytes and a body in whole words |
| StunBuild.AddAttrGrows | src/client/ns_turn_msg.c:1525-1564 | on a well-formed message an append adds one whole cell at the end and changes nothing before it but the length field |
| StunBuild.AddAttrFits | src/client/ns_turn_msg.c:1525-1564 | an append goes through if and only if the padded message stays below 65507 bytes |
| StunBuild.AddAttrYields | src/client/ns_turn_msg.c:1525-1564 | the result is well-formed and the iterator yields the old attributes and then the new one |
| StunBuild.AddAllYields | src/client/ns_turn_msg.c:1525-1564 | the same for any run of appends |
| StunBuild.BuiltMessage | src/client/ns_turn_msg.c:653-660 | from a new command, after any list of successful appends the iterator gives back exactly that list, the length field matches and is a multiple of four, and the message is recognised |
| StunBuild.FindNone | src/client/ns_turn_msg.c:1463-1473 | the lookup by type fails if and only if no attribute has the type |
| StunBuild.IntegrityIsAttr | src/client/ns_turn_msg.c:1838-1869 | zeros first and HMAC afterwards gives the message that had the HMAC of the lengthened head from the start |
| StunBuild.IntegrityAccepted | src/client/ns_turn_msg.c:1913-1999 | the check with the same key returns 1 on whatever grows from a message to which the attribute was added first |
| StunBuild.IntegrityDecides | src/client/ns_turn_msg.c:1913-1998 | whatever stands behind the first MESSAGE-INTEGRITY, the check accepts if and only if its value is the HMAC of all before it with the length set to its end, refuses any other value of that size and rejects any other size as unusable |
| StunBuild.IntegrityMissing | src/client/ns_turn_msg.c:1913-1998 | without the attribute the check has nothing to accept |
| StunBuild.FingerprintAccepted | src/client/ns_turn_msg.c:490-518 | the full check accepts a message to which the first FINGERPRINT has just been added |
| StunBuild.FingerprintDecides | src/client/ns_turn_msg.c:490-517 | a message whose first FINGERPRINT was just added passes if and only if its value is four bytes with the CRC-32 of all before it exclusive-ored with 0x5354554E |
| StunBuild.FingerprintMissing | src/client/ns_turn_msg.c:490-517 | without the attribute a command passes if and only if it is a Binding or the attribute is not mandatory |
| StunBuild.ProtectedMessage | src/client/ns_turn_msg.c:1838-1999 | for every well-formed message without either attribute: add MESSAGE-INTEGRITY, any other attributes, FINGERPRINT; then the integrity check returns 1 and the full check accepts, for every key and any HMAC of fixed length |
| StunBuffer.FindByType | src/client/ns_turn_msg.c:1463-1473 | the iterator loop finds what the recursive lookup finds |
| StunBuffer.AddAttrTo | src/client/ns_turn_msg.c:1525-1564 | in place: the first bytes become the extended message and the rest of the buffer is untouched, or nothing changes |
| StunBuffer.AddIntegrityTo | src/client/ns_turn_msg.c:1838-1869 | in place, the same as the value-level function, all or nothing |
| StunBuffer.AddFingerprintTo | src/client/ns_turn_msg.c:1716-1724 | in place, with the table-driven CRC, the same as the value-level function |
| StunBuffer.CheckIntegrityOf | src/client/ns_turn_msg.c:1913-1999 | returns the value-level verdict on any bytes and leaves every byte of the buffer as it was |
| Framing.ChannelRoundTrip | src/client/ns_turn_msg.c:809-880 | what is built, padded or not, reads back as the same channel and data, whether or not padding is mandatory |
| Framing.ReadChannel | src/client/ns_turn_msg.c:827-880 | the number read is a valid channel number and the length read does not exceed the buffer |
| Framing.TrailingBytes | src/client/ns_turn_msg.c:827-880 | exactly which bytes behind the data of a ChannelData message are tolerated, with and without mandatory padding, and which numbers are channels |
| Framing.InitChannel | src/client/ns_turn_msg.c:809-825 | in place: only the header is written, and what it announces reads back; refused lengths change nothing |
| Framing.ChannelFramedUnlessHttp | src/client/ns_turn_msg.c:957-1010 | a ChannelData message of any number is framed as such if and only if the stream is not taken for a complete HTTP request |
| Framing.FrameRecovered | src/client/ns_turn_msg.c:957-1010 | with a whole frame in front, whatever follows, the framer answers exactly that frame and its content decodes to the packet |
| Framing.OnlyTheseFrames | src/client/ns_turn_msg.c:957-1010 | nothing is framed but a STUN header with cookie and whole words, an HTTP request, or ChannelData, each with the stated length and inside the buffer |
| Framing.NoProperPrefix | src/client/ns_turn_msg.c:957-1010 | no proper prefix of a frame is taken for a message |
| Framing.StreamRecovered | src/client/ns_turn_msg.c:957-1010 | from any run of packets that fit the reader's 65507 bytes, followed by an unfinished one, the read loop gives back exactly the run and keeps the unfinished bytes |
| Framing.PacketStep | src/apps/relay/ns_ioalib_engine_impl.c:3209-3242 | a frame that fits the buffer is taken off the front and decodes to its packet, whatever follows |
| Framing.NeverTaken | src/apps/relay/ns_ioalib_engine_impl.c:3209-3242 | a frame larger than the buffer is never taken off |
| Framing.LargestChannelData | src/client/ns_turn_msg.c:809-825 | padded ChannelData fits that buffer if and only if it carries at most 65500 bytes, though up to 65503 are built |
| Framing.EncodingInjective | src/client/ns_turn_msg.c:809-825 | different runs of packets differ on the wire |
| Framing.StunLengthSum | src/client/ns_turn_msg.c:966-974 | behind any STUN header the framer waits for the whole message and answers its length if and only if the length field is at most 65515; above that the sum wraps and a few header bytes are answered at once |
| Framing.LengthWraps | src/client/ns_turn_msg.c:966-974 | a bare header with length field 65520: the read loop takes its first four bytes for a message and loses its place |
| Reservations.StepAccounted | src/server/ns_turn_maps_rtcp.c:72-160 | every step keeps each reserved socket in exactly one of held, handed out, closed and lost, none closed twice |
| Reservations.StepTimely | src/server/ns_turn_maps_rtcp.c:134-160 | with fresh tokens the timer never closes a socket whose deadline had not passed when it was listed, and nothing gets lost |
| Reservations.ReusedToken | src/server/ns_turn_maps_rtcp.c:193-213 | exactly when this fails: a put under a held token loses the socket there; a put under a listed token leaves the new socket due to be closed unless its deadline too is past |
| Reservations.RunAccounted | src/server/ns_turn_maps_rtcp.c:72-251 | under every interleaving of put, get, scan, delete-one and free with distinct sockets, each is in exactly one place |
| Reservations.RunTimely | src/server/ns_turn_maps_rtcp.c:134-160 | in every run with fresh tokens no step closes early and none is lost |
| Reservations.HandedNeverClosed | src/server/ns_turn_maps_rtcp.c:221-237 | a socket given to a caller is never closed here at any later time of any run |
| Reservations.ReapAll | src/server/ns_turn_maps_rtcp.c:134-170 | undisturbed, the deletions of a timer round take exactly the listed entries and close their sockets in order |
| Reservations.TimerRound | src/server/ns_turn_maps_rtcp.c:134-170 | in numbers: a round of the timer takes an entry only past its deadline and closes its socket, keeps all others as they are, and with fewer than 1024 listed leaves none past its deadline |
| Reservations.ReservedUntil | src/server/ns_turn_maps_rtcp.c:193-213 | a put at c reserves its socket until c + 300 |
| Reservations.PutThenTake | src/server/ns_turn_maps_rtcp.c:193-251 | a take hands out exactly the socket last put under its token and removes that entry only |
| Reservations.ReusedTokenExample | src/server/ns_turn_maps_rtcp.c:134-160 | a run in which a reused token gets a new socket closed at once |
| RtcpMaps.RtcpMap.Put | src/server/ns_turn_maps_rtcp.c:193-213 | makes a put step; with memory it succeeds below the capacity |
| RtcpMaps.RtcpMap.Take | src/server/ns_turn_maps_rtcp.c:221-237 | makes a take step: the caller gets the socket and the entry goes |
| RtcpMaps.RtcpMap.Scan | src/server/ns_turn_maps_rtcp.c:134-154 | makes a scan step: lists only tokens past their deadline, each once, and all of them if they fit in 1024 |
| RtcpMaps.RtcpMap.Reap | src/server/ns_turn_maps_rtcp.c:156-158 | makes one delete step under the mutex |
| RtcpMaps.RtcpMap.Free | src/server/ns_turn_maps_rtcp.c:239-251 | makes a free step: every held socket is closed once |
| RtcpMaps.Perform | src/server/ns_turn_maps_rtcp.c:72-251 | a call makes exactly the step of its kind, token, socket and clock; a scan with tokens left and a deletion without are the calls that make none; a put with memory on an open map below capacity is not refused |
| RtcpMaps.Run | src/server/ns_turn_maps_rtcp.c:72-251 | any sequence of calls on a new map is a run of exactly the steps these calls make, in their order, so its sockets are accounted for and, with fresh tokens, none is lost or closed early |
| RtcpMaps.Expired | src/server/ns_turn_maps_rtcp.c:72-86 | the callback notes exactly the expired tokens as long as there is room |
| RtcpMaps.Close | src/server/ns_turn_maps_rtcp.c:103-109 | closes the socket of every entry once |
| AlternateServer.SetAlternateServer | src/server/ns_turn_server.c:3623-3659 | chooses if and only if the list does not name the server itself and has an entry of its family; the choice is of that family and the first such from the counter on |
| AlternateServer.NextPick | src/server/ns_turn_server.c:3638-3656 | the next call goes on behind the last choice and meets a new entry while one is left |
| AlternateServer.EachOnce | src/server/ns_turn_server.c:3623-3660 | with m suitable entries any m consecutive calls choose each of them exactly once |
| AlternateServer.Redirects | src/server/ns_turn_server.c:3623-3660 | consecutive calls from any counter; as many as there are suitable entries choose each of them once |
| Authentication.CheckNames | src/server/ns_turn_server.c:3461-3546 | the exact realm, user name and key flag afterwards, in the failing cases too, and exactly which refusal earns 400, 437 or 441 |
| Authentication.CheckSecrets | src/server/ns_turn_server.c:3548-3617 | verifies exactly when the nonce is the session's, a key is known and MESSAGE-INTEGRITY verifies under it; 438 exactly for a present but wrong nonce; a lookup is waited for exactly when one may be started and asks for it |
| Authentication.CheckStunAuth | src/server/ns_turn_server.c:3393-3619 | in long-term mode a message passes if and only if it is credible; it then names the session's realm and user where these are fixed, carries its nonce and verifies under a key the session has; every refusal has its exact code |
| Authentication.CheckedNames | src/server/ns_turn_server.c:3393-3619 | the check changes the name of a session in exactly three cases, seen from session and message before: a realm named by ConnectionBind, another user name past the realm check, a flag set by a lookup; key, password and pinned origin never change |
| Authentication.SignedAnswer | src/server/ns_turn_server.c:3393-3619 | the answer to every message signed with any user name, nonce, realm and key, told by these alone: it passes exactly with the session's own values, and each other case earns 400, 437, 441, 438 or 401 |
| Authentication.UnsignedRefused | src/server/ns_turn_server.c:3442-3450 | a message without MESSAGE-INTEGRITY is answered with 401 |
| Authentication.NonceLasts | src/server/ns_turn_server.c:3407-3440 | a nonce drawn at c is the session's exactly until c plus the configured lifetime, as numbers |
| Authentication.TextReadsBack | src/server/ns_turn_server.c:3522-3524 | the text of an attribute, the first of its type, reads back from whatever the message grows into |
| Authentication.TextReads | src/server/ns_turn_server.c:3478-3480 | what is read of any attribute: a start of its value without zero bytes, ending at the buffer size, at the first zero or with the value |
| Authentication.ClientPasses | src/client/ns_turn_msg.c:1871-1887 | a request built by the client library with the session's values is credible to the server's check |
| Sessions.TotalPut | src/server/ns_turn_server.c:190-233 | replacing one session changes a sum over all live sessions by that session's difference, whatever the order of summation |
| Sessions.TouchBooks | src/server/ns_turn_server.c:190-233 | a change that leaves unit and share alone keeps the totals; it keeps the balance of every single name if and only if the name of a holder is not changed |
| Sessions.SessionIdDividesBack | src/server/ns_turn_server.c:773-784 | a session id divides back to its server id if and only if the counter is below the factor |
| Outcomes.Drawn | src/server/ns_turn_server.c:730-758 | the ticket made by the first usable draw names the server in its top byte, is not 0 below and is not in use |
| Outcomes.TransferExactly | src/server/ns_turn_server.c:1780-1822 | a transfer takes place if and only if the ticket leads to another session that is open and mobile, the socket can be handed over and, in long-term mode, the message is credible |
| Outcomes.RefreshMeans | src/server/ns_turn_server.c:1780-1879 | without a transfer only the requester changes; with one it ends without ticket and unit, the original has its credentials, one new ticket leads to the original in place of both old ones, and no other session changes |
| Servers.Server.DecQuota | src/server/ns_turn_server.c:214-221 | gives back at most one unit, in the name the session has now |
| Servers.Server.IncQuota | src/server/ns_turn_server.c:190-212 | takes a unit, in the new name, if and only if the session has none, the callback agrees and, in long-term mode, the origin is pinned |
| Servers.Server.SetBps | src/server/ns_turn_server.c:223-233 | what goes to or comes from the session is what the pool gives or gets back |
| Servers.Server.NewMobileId | src/server/ns_turn_server.c:730-758 | the loop over random draws returns the ticket of the first usable one, not in use, with the server id in its top byte and not 0 below |
| Servers.Server.PutMobile | src/server/ns_turn_server.c:760-771 | a session without a ticket gets the one drawn, and the ticket map stays exactly the live sessions with a ticket |
| Servers.Server.DropMobile | src/server/ns_turn_server.c:786-795 | exactly the session's ticket leaves the map |
| Servers.Server.Create | src/server/ns_turn_server.c:837-850 | a new id above all earlier ones, the drawn ticket if and only if mobility is on, nothing held, and no other session changes |
| Servers.Server.Remove | src/server/ns_turn_server.c:852-861 | a session leaves both maps, and may do so only holding neither unit nor share |
| Servers.Server.Shutdown | src/server/ns_turn_server.c:4249-4348 | a mobile session with a live allocation stays without unit and share; any other is gone from table and both maps; its unit goes back in its name of now and its whole bandwidth to the pool |
| Servers.Server.CopyAuth | src/server/ns_turn_server.c:1602-1618 | the unit goes back in the old name before the credentials change and one is asked for in the new name; the origin of p is pinned only if that of o was, on the same evidence |
| Servers.Server.Allocate | src/server/ns_turn_server.c:1364-1392 | runs only for the message let in last, with the session's nonce and key; the exact session, unit and bandwidth it leaves, each failure keeping the books balanced |
| Servers.Server.Supply | src/server/ns_turn_server.c:1364-1392 | an accepted Allocate loses a ticket it did not ask for, takes the unit, then the bandwidth: exact session, ticket map, quota and bandwidth books, and success exactly when it got both |
| Servers.Server.ShareOut | src/server/ns_turn_server.c:1376-1392 | a session that has its unit and no share gets what the pool answers, and the pool has lent exactly that |
| Servers.Server.OnAllocation | src/server/ns_turn_server.c:3865-3918 | the CreatePermission, ChannelBind and Connect handlers run only for the message let in last, with the session's nonce and key |
| SessionSteps.Ask | src/server/ns_turn_server.c:1380-1384 | the bandwidth asked for is never above the realm's limit, and is the limit when none was requested |
| SessionSteps.FirstIsChallenged | src/server/ns_turn_server.c:3407-3440 | the first message of a new session never passes in long-term mode, and a new session has no key |
| SessionSteps.AllocatedTakes | src/server/ns_turn_server.c:1364-1392 | what an Allocate takes: at most one unit, exactly when callback and pinned origin allow it, at most one share, and a ticket only goes |
| SessionSteps.GateOpens | src/server/ns_turn_server.c:3684-3850 | a request reaches its handler if and only if its kind is turned on and not refused, and it is one the settings leave free, or long-term mode is off, or it is credible |
| SessionSteps.ClientServed | src/server/ns_turn_server.c:3684-3850 | a request signed by the library with the session's user name, nonce, realm and key reaches its handler where the settings allow its kind |
| Servers.Server.CheckSession | src/server/ns_turn_server.c:3393-3619 | the check on a session of the table keeps every invariant, and renames a holder exactly in the cases stated beforehand |
| Servers.Server.PinOrigin | src/server/ns_turn_server.c:3840-3843 | the origin is pinned only by the Allocate let in last, which is noted as what it rests on |
| Servers.Server.CheckAndPin | src/server/ns_turn_server.c:3829-3846 | passes, and lets the message in, exactly when not in long-term mode or credible; the origin is pinned exactly by a passing Allocate of long-term mode |
| Servers.Server.ReadOrigin | src/server/ns_turn_server.c:3793-3827 | an Allocate may change the realm by its origin only while none is pinned |
| Servers.Server.Transfer | src/server/ns_turn_server.c:1864-1879 | the exact table, ticket map and books after a transfer as a function of those before: the new session ends without ticket and unit, the original gets the credentials, a new ticket in place of both old ones and its own unit; no other session changes |
| Servers.Server.HandOver | src/server/ns_turn_server.c:1864-1867 | the original session takes over the credentials exactly when there is a key among them, its unit going back in the old name first |
| Servers.Server.Reticket | src/server/ns_turn_server.c:1868-1870 | both old tickets leave the map and the original session gets the one drawn, which no other session has |
| Servers.Server.Settle | src/server/ns_turn_server.c:1875-1879 | the new session's unit goes back and the original asks for one in its own name |
| Servers.Server.AdoptAndCheck | src/server/ns_turn_server.c:1798-1816 | the security check of a refresh by ticket: on which credentials it is made, when it passes, when it renames a holder, and the exact table and books it leaves |
| Servers.Server.MobileRefresh | src/server/ns_turn_server.c:1781-1879 | the exact table of all sessions, ticket map and books after a refresh by ticket as a function of those before; a transfer happens if and only if the ticket leads to an open mobile session, the socket can be handed over and, in long-term mode, the message is credible |
| Servers.Server.Gate | src/server/ns_turn_server.c:3687-3847 | says exactly which requests pass, what credentials the session has then, what is let in and when a holder is renamed |
| Servers.Server.HandleCommand | src/server/ns_turn_server.c:3661-3955 | for every message, refreshes by ticket included: the exact table of all sessions, ticket map, quota and bandwidth books, exactly which messages are let in, which guarded handlers run and when a holder is renamed |
| Servers.Server.LearnKey | src/server/ns_turn_server.c:3369-3382 | the exact session and books afterwards: the key, the flag, and on a realm change the new realm and the unit moved there; a holder is renamed exactly when the flag changes |
| Servers.Server.ChangeRealm | src/server/ns_turn_server.c:3376-3380 | the unit goes back in the old realm before one is asked for in the new, so the balance per name is kept |
| Servers.Server.Answer | src/server/ns_turn_server.c:3360-3391 | a key is learned and the message processed again behind the same gate: the exact table, ticket map, quota and bandwidth books, what is let in, which handlers run and when a holder is renamed |
| Servers.Server.Resume | src/server/ns_turn_server.c:3360-3391 | the same for the session with the given id if it is still there, and nothing otherwise |
| Servers.Server.AcceptData | src/server/ns_turn_server.c:2588-2625 | a data connection joins a session if and only if the message is credible to that session |
| SessionSteps.EntriesVetted | src/server/ns_turn_server.c:3829-3955 | whatever a request lets in is for its session and message and of a kind that is turned on; in long-term mode it verifies under a key the session has, unless it is a Binding without secure-stun, a ConnectionBind, or with mobility a Refresh without a valid allocation |
| SessionSteps.PinnedByAllocate | src/server/ns_turn_server.c:3840-3843 | a request that is no refresh by ticket pins an origin only by letting in a verified Allocate for that session |
| SessionSteps.PinsExactly | src/server/ns_turn_server.c:3840-3843 | refreshes by ticket aside, a message pins an unpinned origin if and only if it is an Allocate that passes in long-term mode |
| SessionSteps.LearnedMeans | src/server/ns_turn_server.c:3360-3391 | what a found key makes of a session: key, password and flag of the answer, and the realm that came with it |
| NameBooks.TransferAccounts | src/server/ns_turn_server.c:1864-1879 | a transfer moves units between names exactly as its grants and releases say |
| NameBooks.GateNames | src/server/ns_turn_server.c:3793-3846 | the gate changes the name of a holder exactly when the condition on the message and the session before says so; its two writes never undo each other |
| NameBooks.RefreshEven | src/server/ns_turn_server.c:1798-1816 | a refresh by ticket leaves the books of single names off exactly when the condition before it says so: the realm written and the name checked never cancel out |
| NameBooks.AnswerEven | src/server/ns_turn_server.c:3360-3391 | so does a late answer, whose flag, realm and resumed message never cancel out |
| NameBooks.EventAccounts | src/server/ns_turn_server.c:190-233 | for every event and every name, the units held change by what was taken and given back, but for the names that holders lose and win in it |
| NameBooks.EvenStep | src/server/ns_turn_server.c:190-233 | books that balance name by name before an event do so after it if and only if the event, judged on the state before it, renames no holder of a unit |
| NameBooks.RunEven | src/server/ns_turn_server.c:190-233 | after any run the books balance name by name if and only if the names lost in its renamings are, in number, the names won; what each name is off by is exactly that difference |
| ServerRuns.Happen | src/server/ns_turn_server.c:3661-4348 | every event leaves tables, ticket map, quota and bandwidth books and logs that are a function of the state before it, refreshes by ticket and late answers included, and says whether its message reached a handler |
| ServerRuns.LetInBy | src/server/ns_turn_server.c:3661-3955 | every message let in during a run was let in by an event that carries it, for that event's session, with its nonce and under its key, and verified unless that event's settings leave it free |
| ServerRuns.KeysFound | src/server/ns_turn_server.c:3360-3391 | every key that a session of a run has was found by a lookup whose answer is an event of that run |
| ServerRuns.KeyWasFound | src/server/ns_turn_server.c:3360-3391 | every message let in for its credentials in long-term mode was signed with a key that a lookup of the run had found by then |
| ServerRuns.RanWasLetIn | src/server/ns_turn_server.c:3850-3918 | the Allocate, CreatePermission, ChannelBind and Connect handlers that ran in a run ran for messages let in past the check |
| ServerRuns.RefreshPins | src/server/ns_turn_server.c:1602-1618 | a refresh by ticket pins the origin of no session but the requester, if the ticket's session was pinned, or the ticket's session, if the requester was |
| ServerRuns.OriginStep | src/server/ns_turn_server.c:3840-3843 | an event pins the origin of a session only by a verified Allocate let in for that session, or, in a refresh by ticket, by copying it between the requester and the ticket's session |
| ServerRuns.OriginOf | src/server/ns_turn_server.c:3840-3843 | for every session pinned at the end of a run there is the event that pinned it, in one of these two ways, and it has been pinned ever since |
| ServerRuns.LendsRightly | src/server/ns_turn_server.c:1376-1392 | an event lends bandwidth only to the requester of an Allocate that had none, exactly what the pool answers, and only the end of a session gives bandwidth back, all it had |
| ServerRuns.BandwidthOf | src/server/ns_turn_server.c:223-233 | the two bandwidth counters of the server are the sums of what the events of the run lent and gave back |
| ServerRuns.RenamedBy | src/server/ns_turn_server.c:190-233 | the flag that a holder was renamed is up after a run if and only if some event of it met the condition stated on the state before that event; what this does to the books is NameBooks.EvenStep |
| ServerRuns.RenameExample | src/server/ns_turn_server.c:3793-3817 | a run of two Allocates, the second naming another realm by its origin: the unit is given back in the wrong name, totals agree, single names do not |
| ServerRuns.Run | src/server/ns_turn_server.c:3661-4348 | over every run of new sessions, requests, late key answers, data connections and shutdowns: units granted minus released equal the units live sessions hold; the bandwidth its events lent minus what they gave back is what live sessions hold; quota name by name exactly when the renamings of the run cancel out, and step by step exactly when an event renames no holder; both maps are exact; every pinned origin has the event that pinned or copied it and rests on a verified Allocate; every message let in comes from an event of the run under its session's key; guarded handlers ran only for messages past the check |
| GuardedRelay.Happen | src/server/ns_turn_server.c:3865-3918 | a CreatePermission or ChannelBind acts on the allocation of its session exactly when the gate let it through, and on no other event does a request touch it |
| GuardedRelay.RequestActs | src/server/ns_turn_server.c:3865-3918 | a CreatePermission that passes gate and validation gives every listed IP its permission while there is room, and a ChannelBind that passes has its whole effect |
| GuardedRelay.StepInstalls | src/server/ns_turn_server.c:3865-3918 | a permission becomes live only by a request of its own session that was let in past the check, lists the IP and whose filter lets it through |
| GuardedRelay.Permitted | src/server/ns_turn_server.c:3661-3955 | for every live permission at the end of a run there is the step that installed it, such a request, and it has been live with its IP ever since |
| GuardedRelay.Run | src/server/ns_turn_server.c:3661-3955 | over every run of a server and the allocation of one of its sessions: each live permission goes back to a request of that session that in long-term mode carried its nonce and verified under its key |

## Left out

- Sockets, timers, libevent, TLS and DTLS, logging, configuration, statistics and kernel channels: I/O around the logic.
- OpenSSL, OAuth tokens, key derivation and password storage: foreign code; only the HMAC is kept, as any function.
- The multiplex-peer registry: its answer is a yes or no given to ChannelBind and CreatePermission.
- The peer filter's address ranges: any predicate on the IP; IPv6 ranges compare bytewise and no order is claimed.
- TCP relay connections (Connect, ConnectionBind ids): only the credential check on them is modelled.
- Relay socket creation, address families and lifetimes inside Allocate and Refresh: their outcome is a parameter.
- XOR address encoding, attribute type packing, base64, the C++ wrappers: short and finite, would only add easy members.
- Binding requests and RFC 5780, HTTP and web administration: not part of the proved core.
- HashTable.KHash.Resize: a failing realloc while shrinking is not modelled.
- UrMaps.UrMap.Foreach: a callback that stops the walk is not modelled; the callbacks modelled here never stop it.
- Allocations.Allocation.Clear: relay sockets, TCP connections and timers of the allocation are not part of it.
- PeerRequests.CreatePermission: a permission for an address that did not decode is made, as in the code, and no lookup finds it.
- Relay.Reach: does not model two sessions sharing one multiplexed relay socket.
- Relay.ChannelOfData: the server-relay mode, in which data without a permission passes too, is not modelled.
- RtcpMaps.RtcpMap.Free: marks the map invalid; that its memory is gone too is not modelled.
- Reservations.RunTimely: deadlines are compared as the code does, by signed 32-bit times; a clock past that range is not modelled.
- Servers.Server.Create: the 64-bit overflow of the session counter and a failing insertion into the session maps are not modelled.
- Servers.Server.Allocate: reading the attributes, and relay sockets and address families after them, are parameters; only what it takes and gives is modelled.
- Servers.Server.OnAllocation: here only that the three handlers run; what CreatePermission and ChannelBind then do to the allocation is in GuardedRelay.Happen, and Connect has no model.
- GuardedRelay.Happen: the peer attributes a handler reads come as a parameter beside the message; decoding them from its bytes is not modelled.
- Servers.Server.HandleCommand: origin parsing, transaction mismatch and redirects enter as yes-or-no parameters; indications are not handled here.
- ServerRuns.Run: one relay server; the bandwidth pool shared with other servers is seen through what it grants and gets back.
