# MeshWeaver in Dafny

A model of the peer-to-peer layer of MeshWeaver and proofs about it: the Kademlia routing store
and everything that drives it, the correlated UDP request protocol, the two heartbeat failure
detectors, gossip expiry with load selection, the key file format and length-prefixed framing.

Every stateful object of the source is a class here. Its methods are proved to compute a function
on values (`State() == Spec(old(State()))`), and the theorems are about those functions: over all
inputs, all replies of peers, all runs.

| file | what it models |
|---|---|
| `bits.dfy`, `node_id.dfy` | xor and bit length on naturals of any size; 256-bit ids, the XOR metric, the bucket index, the hexadecimal form |
| `sorting.dfy` | Python's stable sort by key and `min` by key |
| `routing_table.dfy`, `lookup.dfy` | contacts, k-buckets, the table of 256 buckets, nearest-k lookup and its reading as a bucket walk |
| `peer_store.dfy` | the record index kept in step with the routing table |
| `rpc.dfy`, `bootstrap.dfy`, `discovery.dfy` | PING and FIND_NODE, joining, one discovery round |
| `overlay.dfy` | whole runs of one store and of a network of honest nodes |
| `network.dfy` | the UDP request protocol, one endpoint against anything and many honest endpoints |
| `heartbeat.dfy` | `HeartbeatManager` and `HeartbeatMonitor` |
| `load_selection.dfy` | the gossip table and `LoadSelector` |
| `key_file.dfy`, `framing.dfy` | the private key text format; frames over a byte stream |

How the outside world enters:

- The system clock is an arbitrary function from reading number to time. Each `time.time()` of the
  peer store takes the next reading (a new record takes two). Results that need a clock that never
  goes back say so.
- A peer is an arbitrary function from the request to a reply: it may raise, send bytes that do not
  decode, or send any message. Seeds of a discovery round may behave differently each time they occur.
- Messages are datatypes; the JSON codec is taken to be an inverse pair on them. Hexadecimal, base64
  and frame lengths are modelled digit by digit and byte by byte.
- In the network of honest nodes a join or a discovery round is one step; steps of other nodes that fall
  between the queries of a round are covered because a round is the composition of one-seed rounds
  (`Discovery.RoundsCompose`).
- Base64 decoding follows Python's non-strict decoder, which skips foreign characters and stops at a
  completed padding.
- Exceptions are `Result` values. Times and loads are reals.
- `send_request` is cut at its `await`: starting, being interrupted and waking up are separate steps,
  so a datagram can arrive between a timeout and the moment the coroutine notices it. A timeout that
  comes after the result may win, as in newer versions of `asyncio.wait_for`, or not happen, as in older ones.

Where code and documentation differ, the model follows the code: bucket 0 holds distance 1 (the class
comment in `routing_table.py` ties it to distance 0), XOR distance is not an ultrametric (a comment in
`tests/test_node_id.py` says it is), `discover` stores responding seeds without returning them, and
gossip keeps the last record received rather than the newest.

## Model

| member | source | states |
|---|---|---|
| `NodeIds.XorDistanceIsMetric` | meshweaver/kademlia/node_id.py:124-167 | XOR distance is defined exactly on pairs of 32-byte strings; there it is zero only for equal ids, symmetric, obeys the triangle inequality, stays below 2^256, and no two ids are at the same distance from a third |
| `NodeIds.FromBytesBit` | meshweaver/kademlia/node_id.py:167 | bytes are read most significant first: bit 8*(n-1-i)+j of the number is bit j of byte i |
| `NodeIds.DistanceBit` | meshweaver/kademlia/node_id.py:124-167 | bit 8*(31-i)+j of the distance of two ids is set exactly if bit j differs in their bytes i |
| `NodeIds.EveryDistanceIsTaken` | meshweaver/kademlia/node_id.py:124-167 | every value below 2^256 is the distance of some id, so with the metric exactly one id lies at each distance |
| `NodeIds.UltrametricExactlyWhen` | tests/test_node_id.py:239-249 | the stronger inequality that the test comment claims holds for a triangle if and only if the top bit of its shorter side is set in the longer one (or that side is zero) |
| `NodeIds.UltrametricFails` | tests/test_node_id.py:239-249 | from any id there is a triangle with sides 1, 2 and 3, so the claim in the comment is false |
| `NodeIds.BucketIndex` | meshweaver/kademlia/routing_table.py:242-275 | the index fails exactly for the local id, lies in 0..255, and i satisfies 2^i <= distance < 2^(i+1); bucket 0 is the one for distance 1, and distance 0 has none |
| `NodeIds.SlotIsFirstDifference` | meshweaver/kademlia/routing_table.py:242-275 | the bucket index names the first byte from the left, and in it the highest bit, in which the id differs from the local one; all bytes before and all higher bits agree |
| `NodeIds.SlotIsUltrametric` | meshweaver/kademlia/routing_table.py:242-275 | the bucket index is symmetric and an ultrametric whose triangles are isosceles with a short base |
| `NodeIds.HigherBucketIsNearerIff` | meshweaver/kademlia/routing_table.py:242-275 | of two ids in different buckets, the one in the higher bucket i is nearer to any target exactly when bit i of the distance from the local id to the target is set |
| `NodeIds.HexRoundTrip` | meshweaver/kademlia/node_id.py:61-121 | parsing the hexadecimal form gives the id back, and no two ids share a form |
| `NodeIds.ToHexDigits` | meshweaver/kademlia/node_id.py:61-90 | byte i is printed as two lower-case digits of 0-9a-f at positions 2i and 2i+1, high half first |
| `NodeIds.UpperCaseParses` | meshweaver/kademlia/node_id.py:93-121 | the upper-case spelling of an id parses to the same bytes |
| `NodeIds.ForeignCharacter` | meshweaver/kademlia/node_id.py:93-121 | in front of a pair of digits, white space is skipped and any other character that is no digit of either case is an error |
| `RoutingTables.MakeContact` | meshweaver/kademlia/routing_table.py:62-68 | a contact exists exactly for a 32-byte id and a port in 1..65535, and has the given id, host and port |
| `RoutingTables.WithoutContents` | meshweaver/kademlia/routing_table.py:157-174 | removal takes out the named id and nothing else, and a search finds the entry of the id |
| `RoutingTables.BucketAddContents` | meshweaver/kademlia/routing_table.py:123-155 | adding keeps ids distinct, puts an accepted contact at the tail in place of its older entry with the rest in order, changes nothing when it refuses, and never lets the bucket outgrow its size |
| `RoutingTables.TableOpsKeepOrder` | meshweaver/kademlia/routing_table.py:281-324 | adding and removing keep every contact in its own bucket, once, and every bucket within its size |
| `RoutingTables.AllContactsMember` | meshweaver/kademlia/routing_table.py:342-347 | the flat list holds exactly the contacts of the responsible buckets |
| `RoutingTables.FlattenDistinct` | meshweaver/kademlia/routing_table.py:342-347 | the flat list names no id twice |
| `RoutingTables.FlattenInOrder` | meshweaver/kademlia/routing_table.py:342-347 | the flat list is as long as the buckets together, and each bucket stands in it in its own order right after those before it |
| `RoutingTables.RemoveTellsIff` | meshweaver/kademlia/routing_table.py:305-324 | a removal answers True exactly if the table listed the id |
| `RoutingTables.KBucket.AddContact` | meshweaver/kademlia/routing_table.py:123-155 | the in-place bucket update computes the specified list and answer |
| `RoutingTables.KBucket.RemoveContact` | meshweaver/kademlia/routing_table.py:157-174 | the removal loop cuts out the first match and says whether there was one |
| `RoutingTables.KBucket.GetContact` | meshweaver/kademlia/routing_table.py:176-181 | the search loop returns the first match or nothing |
| `RoutingTables.RoutingTable.constructor` | meshweaver/kademlia/routing_table.py:225-236 | a new table has 256 distinct empty buckets of the given size |
| `RoutingTables.RoutingTable.AddContact` | meshweaver/kademlia/routing_table.py:281-303 | the local id is an error; otherwise exactly the responsible bucket changes |
| `RoutingTables.RoutingTable.RemoveContact` | meshweaver/kademlia/routing_table.py:305-324 | the local id is never found; otherwise exactly the responsible bucket changes |
| `RoutingTables.RoutingTable.GetContact` | meshweaver/kademlia/routing_table.py:326-340 | the contact is read from the responsible bucket, never for the local id |
| `RoutingTables.RoutingTable.GetAllContacts` | meshweaver/kademlia/routing_table.py:342-347 | the loop lists the buckets in order, each in its own order |
| `Lookups.FindClosestIsNearest` | meshweaver/kademlia/lookup.py:71-105 | a lookup returns exactly min(k, n) contacts of the table, strictly nearer first, and every contact left out is strictly farther than every one returned |
| `Lookups.FindClosestIgnoresHistory` | meshweaver/kademlia/lookup.py:98-105 | the ids found depend only on the set of stored ids: not on the owner of the table, its bucket size, the addresses, or the order of insertions and refreshes |
| `Lookups.FindClosestIsBucketWalk` | meshweaver/kademlia/lookup.py:103-105 | sorting the whole table equals walking its buckets: those whose bit is set in the distance from the local id to the target, high to low, then the others, low to high, each sorted inside; a lookup is that walk cut off after k |
| `Lookups.HexLookupIsLookup` | meshweaver/kademlia/lookup.py:107-131 | looking up the printed form of an id, in lower or upper case, gives what looking up the id gives; text that does not decode to 32 bytes is an error |
| `Lookups.PeerLookup.Create` | meshweaver/kademlia/lookup.py:61-65 | a limit below one is an error |
| `Lookups.PeerLookup.FindClosest` | meshweaver/kademlia/lookup.py:71-105 | the method over the live table computes the specified lookup, and fails exactly on a target of the wrong length |
| `Lookups.PeerLookup.FindClosestHex` | meshweaver/kademlia/lookup.py:107-131 | the same for a hexadecimal target, failing when it does not decode |
| `PeerStores.AddOrUpdateEffect` | meshweaver/kademlia/peer_store.py:137-187 | it raises exactly on the local id, a wrong length or a bad port; refuses exactly a new id whose bucket is full; both leave the store as it was; otherwise it stores the address under the id, touches no other record, and keeps table and records in agreement |
| `PeerStores.KnownIsAccepted` | meshweaver/kademlia/peer_store.py:174-181 | the answer of the table that is ignored when a known peer is refreshed is always True |
| `PeerStores.RemoveEffect` | meshweaver/kademlia/peer_store.py:199-219 | a known peer leaves both structures and nothing else changes; an unknown or malformed id changes nothing |
| `PeerStores.ClearEmpties` | meshweaver/kademlia/peer_store.py:243-247 | a cleared store has no records and no contacts, and keeps its local id and bucket size |
| `PeerStores.TableGetIsRecord` | meshweaver/kademlia/peer_store.py:130-131 | reading any id from the table gives the contact of its record, or nothing when there is no record |
| `PeerStores.AddContactKeepsAge` | meshweaver/kademlia/routing_table.py:144-152 | with a clock that never goes back, a refresh or insertion leaves every bucket in order of last-seen time and no record from the future |
| `PeerStores.RemoveKeepsAge` | meshweaver/kademlia/peer_store.py:199-219 | a removal keeps that order |
| `PeerStores.AddContactGrows` | meshweaver/kademlia/routing_table.py:144-155 | an addition loses no peer, keeps first-seen times, and a full bucket keeps exactly its members |
| `PeerStores.FullStaysClosed` | meshweaver/kademlia/routing_table.py:149-155 | once an id has been refused for lack of room, no id of its bucket that was not on record then ever gets on record while nothing is removed |
| `PeerStores.PeerRecord.constructor` | meshweaver/kademlia/peer_store.py:51-53 | a new record takes two successive clock readings, first-seen before last-seen |
| `PeerStores.PeerRecord.Touch` | meshweaver/kademlia/peer_store.py:74-76 | last-seen moves to the current reading, nothing else changes |
| `PeerStores.PeerStore.Create` | meshweaver/kademlia/peer_store.py:123-131 | a store for a 32-byte id starts empty; any other length is an error |
| `PeerStores.PeerStore.AddOrUpdate` | meshweaver/kademlia/peer_store.py:137-187 | the method on live records and buckets computes the specified store and answer, keeping the same table object |
| `PeerStores.PeerStore.Refresh` | meshweaver/kademlia/peer_store.py:174-181 | the record of a known peer is updated in place and its contact moved to the tail |
| `PeerStores.PeerStore.Insert` | meshweaver/kademlia/peer_store.py:183-187 | a new peer is recorded exactly when the table accepts it |
| `PeerStores.PeerStore.Get` | meshweaver/kademlia/peer_store.py:189-197 | the live record of a known id, or nothing |
| `PeerStores.PeerStore.Contains` | meshweaver/kademlia/peer_store.py:221-229 | true exactly for recorded ids |
| `PeerStores.PeerStore.Remove` | meshweaver/kademlia/peer_store.py:199-219 | the method computes the specified removal |
| `PeerStores.PeerStore.Clear` | meshweaver/kademlia/peer_store.py:243-247 | the store is empty with a new table of the same size; the old table object is left as it was, so an earlier lookup still sees it |
| `Rpc.WireRoundTrip` | meshweaver/kademlia/rpc.py:65-122 | a contact list survives conversion to the wire and back: ids, hosts, ports and order |
| `Rpc.DictOkIff` | meshweaver/kademlia/rpc.py:113-122 | an entry parses exactly if id, host and port are there, the id decodes to 32 bytes and the port is in 1..65535, and the contact has these fields |
| `Rpc.DictsOkIff` | meshweaver/kademlia/rpc.py:113-122 | a list parses exactly if every entry does, and then entry by entry |
| `Rpc.FirstBadEntry` | meshweaver/kademlia/rpc.py:113-122 | otherwise the error is that of the first entry that does not parse |
| `Rpc.ParseContacts` | meshweaver/kademlia/rpc.py:113-122 | the parsing loop returns all contacts in order, or the error of the first entry that does not parse |
| `Rpc.MakeHandler` | meshweaver/kademlia/rpc.py:289-295 | an empty local id or a limit below one is an error; otherwise the handler has the given settings |
| `Rpc.ParsedReplyIsSound` | meshweaver/kademlia/rpc.py:317-354 | whatever a peer sends, a parsed reply is in order of distance, has at most k contacts, and each was on the wire |
| `Rpc.ParseOkIff` | meshweaver/kademlia/rpc.py:317-354 | a reply is accepted exactly if it decodes, is FOUND_NODES from a non-empty sender for the very target string asked for, every entry parses and the target is a node id |
| `Rpc.ParsedReplyIsNearest` | meshweaver/kademlia/rpc.py:349-354 | of n contacts on the wire a parsed reply keeps exactly min(k, n), counted with repetitions, and none left out is nearer than one kept |
| `Rpc.HandleFindNodeOkIff` | meshweaver/kademlia/rpc.py:360-404 | a responder answers exactly a FIND_NODE from a non-empty sender whose target is a node id, and raises on anything else |
| `Rpc.HandlePingOkIff` | meshweaver/kademlia/rpc.py:177-203 | a responder answers exactly a PING from a non-empty sender with a token, with a PONG that carries this token and its own id, and raises on anything else |
| `Rpc.PingSucceedsIff` | meshweaver/kademlia/rpc.py:205-255 | a PING succeeds exactly if it can be built and a PONG from a non-empty sender comes back with its token |
| `Rpc.RemoteLookupIsLocal` | meshweaver/kademlia/rpc.py:301-404 | build, handle and parse together give the first min(k of requester, k of responder) contacts of the responder's own full order, unaltered, for every table and every hexadecimal spelling of the target |
| `Rpc.ReplyMatchesItsRequest` | meshweaver/kademlia/rpc.py:342-348 | an answer to a query for one target is accepted for another exactly when both target strings are equal |
| `Rpc.HonestPing` | meshweaver/kademlia/rpc.py:228-255 | an honest node answers every PING that can be built |
| `Rpc.PongMatchesItsPing` | meshweaver/kademlia/rpc.py:205-226 | a PONG is accepted exactly for the token of the PING it answers |
| `Rpc.HandleRequest` | meshweaver/kademlia/rpc.py:360-404 | the responder over a live store computes the specified reply, with its errors |
| `Bootstrap.StoreAllExact` | meshweaver/kademlia/bootstrap.py:219-228 | the loop accepts exactly the ids of the list that are stored at the end, and these are all that is new |
| `Bootstrap.JoinExact` | meshweaver/kademlia/bootstrap.py:172-230 | a failed join raises BootstrapError and leaves the store alone; otherwise the returned id set is (ids of the reply plus the bootstrap id, if it could become a contact) intersected with the stored ids at the end, and is all that was added, for any behaviour of the peer |
| `Bootstrap.JoinFailsIff` | meshweaver/kademlia/bootstrap.py:172-194 | a join fails exactly if the PING cannot be built or brings back no PONG with its token, or the FIND_NODE for the own id cannot be built or brings back no acceptable reply |
| `Bootstrap.JoinReturns` | meshweaver/kademlia/bootstrap.py:196-230 | the returned list is, exactly and in order: the bootstrap peer as it was named, if it was named with an id and a valid port and is stored at the end, then the contacts of the reply whose id is stored at the end |
| `Bootstrap.JoinStoresReply` | meshweaver/kademlia/bootstrap.py:219-228 | after a join every contact of the reply is stored, with the address that the reply gave last, unless it is the local node or its bucket is full |
| `Bootstrap.JoinStoresBootstrap` | meshweaver/kademlia/bootstrap.py:199-214 | so is a bootstrap peer named with an id and a valid port, with the given address unless the reply gives another |
| `Bootstrap.FirstComeFirstServed` | meshweaver/kademlia/bootstrap.py:219-228 | when a contact of the reply is left out, every stored id of its bucket was stored before or comes earlier in the reply |
| `Bootstrap.JoinReturnsBootstrapExactlyWhen` | meshweaver/kademlia/bootstrap.py:199-214 | leaving the port out of that statement is right unless a peer known before is named with a bad port and missing from the reply: then it is stored but not returned; exactly then |
| `Bootstrap.JoinForgetsKnownPeer` | meshweaver/kademlia/bootstrap.py:199-214 | a join that succeeds with a known peer, port 0 and an empty reply: the peer stays stored and is not returned |
| `Bootstrap.JoinKeeps` | meshweaver/kademlia/bootstrap.py:172-230 | a join keeps table and records in agreement, keeps age order, and evicts nobody |
| `Bootstrap.BootstrapClient.Create` | meshweaver/kademlia/bootstrap.py:94-106 | an empty local id is an error |
| `Bootstrap.BootstrapClient.Join` | meshweaver/kademlia/bootstrap.py:112-230 | the method over a live store computes the specified join |
| `Bootstrap.BootstrapClient.StorePeer` | meshweaver/kademlia/bootstrap.py:199-214 | the bootstrap peer is stored and returned as the table then holds it |
| `Bootstrap.BootstrapClient.StoreReply` | meshweaver/kademlia/bootstrap.py:219-228 | the loop stores the reply and lists what was accepted |
| `Discovery.DiscoverAccounts` | meshweaver/kademlia/discovery.py:139-195 | returned ids are new and listed once; the stored ids at the end are the disjoint union of the initial ones, the responding foreign seeds that were unknown and had room when they answered, and the returned ones |
| `Discovery.FreshSeedsResponded` | meshweaver/kademlia/discovery.py:158-171 | every id counted as a fresh seed is that of a seed that responded, and not the local one |
| `Discovery.AskOkIff` | meshweaver/kademlia/discovery.py:144-156 | a seed counts as responding exactly if the request can be built and an acceptable reply to it comes back |
| `Discovery.OneSeedRound` | meshweaver/kademlia/discovery.py:158-193 | a responding foreign seed that is known or has room is recorded after its round with its own address, its old first-seen time if it had one, and a last-seen time read in the round; every returned contact was in the reply and is recorded as it was sent |
| `Discovery.OneSeedOrder` | meshweaver/kademlia/discovery.py:173-193 | what such a round returns is in the order of the reply; a seed that fails changes nothing |
| `Discovery.DiscoverPlaces` | meshweaver/kademlia/discovery.py:139-195 | after a round of any number of seeds, every seed that responded and every contact of every reply is stored, unless it is the local node or its bucket is full |
| `Discovery.SeedBeforeItsReply` | meshweaver/kademlia/discovery.py:158-193 | when a contact of a reply is left out for lack of room, every stored id of its bucket was stored before, is the seed itself, or comes earlier in the reply |
| `Discovery.FailedSeedsChangeNothing` | meshweaver/kademlia/discovery.py:144-156 | a round equals the round over the seeds whose exchange succeeds |
| `Discovery.AddedTestIsRedundant` | meshweaver/kademlia/discovery.py:177-183 | dropping the added-this-round test changes neither the store nor the result |
| `Discovery.RoundsCompose` | meshweaver/kademlia/discovery.py:139-195 | a round equals its seeds asked in separate rounds one after the other, store and result alike, so steps of other nodes may fall between them |
| `Discovery.DiscoverKeeps` | meshweaver/kademlia/discovery.py:139-195 | a round keeps table and records in agreement, keeps age order, and evicts nobody |
| `Discovery.PeerDiscovery.Create` | meshweaver/kademlia/discovery.py:83-93 | an empty local id is an error |
| `Discovery.PeerDiscovery.Discover` | meshweaver/kademlia/discovery.py:99-195 | the nested loops over a live store compute the specified round |
| `Discovery.PeerDiscovery.StoreNew` | meshweaver/kademlia/discovery.py:173-193 | the inner loop stores what is new in one reply |
| `Overlay.ReachableStoreAgrees` | meshweaver/kademlia/peer_store.py:93-247 | on every run of additions, removals, clears, joins and discoveries, with any peers and clock: the contacts in the buckets are exactly those of the records, each id once and in its own bucket, as many as there are records, no bucket over its size, the local id never, and refreshing a known peer is never refused |
| `Overlay.ReachableStoreInAgeOrder` | meshweaver/kademlia/routing_table.py:97-99 | on every such run with a clock that never goes back, each bucket lists its peers in the order they were last seen, its head is a least recently seen one, and first-seen <= last-seen |
| `Overlay.NoEviction` | meshweaver/kademlia/routing_table.py:126-155 | without a removal or clear no admitted peer is ever lost and a full bucket keeps exactly its members |
| `Overlay.RemoteLookupFindsNearest` | meshweaver/kademlia/rpc.py:301-404 | what a requester gets from any reachable responder is the min(k, n) recorded peers nearest to the target, nearest first, with their recorded addresses, every other peer being farther |
| `Overlay.HonestReplyFrom` | meshweaver/kademlia/rpc.py:384-404 | what an honest peer is understood to say comes from its own store |
| `Overlay.NothingIsFabricated` | meshweaver/kademlia/bootstrap.py:172-230 | in any run of any number of honest nodes over failing transports, every contact in any store was named by a caller: introduced, as bootstrap peer, or as seed, with id, host and port unaltered |
| `Network.CallsAreCorrelated` | meshweaver/network.py:113-167 | in every interleaving of sends, arbitrary datagrams, timeouts, cancellations and lost connections: a future that is settled stays as it is; a returned reply carries the id of its request; a call that has ended is not pending, nor is its id as long as ids are not reused |
| `Network.WaitingCallIsPendingIff` | meshweaver/network.py:113-130 | from the moment a call is pending, as long as it waits, its id still leads to it if and only if no later event took the id: another call starting with the same id, or another call with it giving up |
| `Network.WaitingCallsArePending` | meshweaver/network.py:118-130 | on every run in which no id is used twice, every call that still waits is pending under its id |
| `Network.ReplyReachesWaitingCall` | meshweaver/network.py:43-48 | on every such run a message with the id of a waiting call resolves exactly that call and sends nothing, so no reply to a waiting call is lost |
| `Network.ReusedIdLosesItsCall` | meshweaver/network.py:121-130 | a run in which one id is used twice: the end of the first call takes the second off the pending list while it still waits |
| `Network.HappenKeeps` | meshweaver/network.py:30-167 | every single step keeps pending ids tied to open calls with that id and settles no future twice |
| `Network.DispatchAnswers` | meshweaver/network.py:74-111 | what a handler sends goes back to the sender and is the reply of the request's kind, with its request id and, for a route request, its task id |
| `Network.PingReceived` | meshweaver/network.py:74-75 | a connected endpoint with an own id answers a PING whose id it does not wait for with exactly one PONG, spelled out field by field, to the sender, and notes when the sender was seen; otherwise it sends nothing |
| `Network.HeartbeatReceived` | meshweaver/network.py:80-85 | the same for HEARTBEAT: loads given are taken over, and the HEARTBEAT_ACK carries the loads then on file |
| `Network.RouteRequestReceived` | meshweaver/network.py:90-103 | the same for TASK_ROUTE_REQUEST: answered exactly if task id and source are non-empty, with an offer of the own node and the load of the request or else the own one |
| `Network.OthersReceived` | meshweaver/network.py:51-67 | any other message is answered with nothing; one without a type or a sender leaves no trace |
| `Network.LastSeenIsLastHeard` | meshweaver/network.py:37-41 | on every run the endpoint has a last-seen time exactly for the senders it has heard, and it is the latest |
| `Network.ConnectedRequestGoesOut` | meshweaver/network.py:113-123 | once a connection is made, a request goes out as given, and its id leads to its waiting call |
| `Network.RequestNeedsTransport` | meshweaver/network.py:118-130 | without a transport a request raises at once, its id is not pending and nothing is sent |
| `Network.InterruptedCallRaises` | meshweaver/network.py:124-130 | a call that times out or is cancelled raises that reason when it wakes up, gives up its id, and leaves other calls and ids alone |
| `Network.LostCallsRaise` | meshweaver/network.py:161-167 | a lost connection fails exactly the waiting calls that are pending, which raise ConnectionError when they wake up; no id stays pending |
| `Network.CompletedRequestsGetTheirReply` | meshweaver/network.py:30-130 | among honest endpoints over a lossy, repeating, delaying, reordering network with fresh ids, every completed request to another endpoint returns the reply of its kind (PONG, HEARTBEAT_ACK, or ROUTE_CANDIDATE_RESPONSE with the same task id) and other kinds never complete; a request to oneself completes only with itself, so a PING returns a PONG exactly when it was sent to another endpoint |
| `Network.RequestCompletes` | meshweaver/network.py:30-130 | from every reachable world of honest endpoints, a PING, a HEARTBEAT or a complete route request with a fresh id from one connected endpoint to another completes once it and then its reply are delivered: the call returns the reply spelled out in full, and the caller's other calls and pending ids are as before |
| `Network.SelfPingCompletes` | meshweaver/network.py:30-49 | a run in which a PING that an endpoint addresses to itself completes, with the PING |
| `Network.RepliesAreFinal` | meshweaver/network.py:51-111 | whatever a message makes an endpoint send makes no endpoint send anything further |
| `Network.NetworkProtocol.DatagramReceived` | meshweaver/network.py:30-49 | a datagram resolves the pending future of its id or is dispatched; one that does not decode changes nothing |
| `Network.NetworkProtocol.DispatchMessage` | meshweaver/network.py:51-111 | the handlers compute the specified state and replies |
| `Network.NetworkProtocol.Send` | meshweaver/network.py:69-72 | nothing is sent without a transport |
| `Network.NetworkProtocol.SendReply` | meshweaver/network.py:74-75 | a handler sends its reply exactly when there is a transport and an own id, and raises otherwise |
| `Network.NetworkProtocol.BeginRequest` | meshweaver/network.py:113-130 | an empty type or own id raises ValueError and changes nothing; without a transport the call raises ConnectionError and leaves no pending id; otherwise the future is registered and the request sent |
| `Network.NetworkProtocol.InterruptRequest` | meshweaver/network.py:124-128 | a timeout or cancellation cancels a waiting future |
| `Network.NetworkProtocol.ResumeRequest` | meshweaver/network.py:124-130 | the coroutine returns the reply, or drops its id and raises |
| `Network.NetworkProtocol.ConnectionLost` | meshweaver/network.py:161-167 | the loop fails exactly the pending futures that still wait and forgets all ids |
| `Heartbeats.CheckEffect` | meshweaver/heartbeat.py:68-92 | a check advances exactly the peers it has passed, each by one step that depends only on its own age and state |
| `Heartbeats.StickyIsWorst` | meshweaver/heartbeat.py:51-92 | on every run and any clock, a peer's sticky state is the worst classification that a check has given it since its last accepted heartbeat |
| `Heartbeats.StickyIsClassificationIff` | meshweaver/heartbeat.py:68-92 | after a check, on any clock, a peer's state equals the memoryless classification of its age if and only if no earlier check since its last accepted heartbeat classified it worse |
| `Heartbeats.StickyIsClassification` | meshweaver/heartbeat.py:51-92 | so on a clock that never goes back, after every check each peer's state equals that classification, for any thresholds |
| `Heartbeats.StateAfterCheck` | meshweaver/heartbeat.py:68-92 | on such a clock, after every check: a peer is known exactly if a heartbeat of it was accepted; it is OFFLINE exactly if the last one is at least offline_after old, ALIVE exactly if it is younger than both thresholds, SUSPECTED otherwise |
| `Heartbeats.StateAfterBeat` | meshweaver/heartbeat.py:51-66 | a heartbeat that names a foreign peer makes it ALIVE and seen now, adds it at the end of the order if it is new, and touches no other peer; any other message changes nothing |
| `Heartbeats.StickyNeedsMonotoneClock` | meshweaver/heartbeat.py:87-92 | a run in which the clock jumps back and a peer stays suspected although its age is below the threshold |
| `Heartbeats.NotifiedExactlyOnce` | meshweaver/heartbeat.py:51-85 | on every run and any clock a peer is OFFLINE exactly when each callback has been told once since its last accepted heartbeat, and otherwise none has; two notifications of one callback about one peer are separated by a heartbeat |
| `Heartbeats.CheckNotifies` | meshweaver/heartbeat.py:75-85 | a check tells all callbacks about exactly the peers that reach offline_after and were not OFFLINE, one peer after the other in the order they were first heard |
| `Heartbeats.NotifyAllInOrder` | meshweaver/heartbeat.py:81-85 | each callback is told once, in the order of registration |
| `Heartbeats.DetectorsDifferExactlyWhen` | meshweaver/monitoring.py:39-62 | on the same schedule, with suspicion after T and offline after 2T, the two detectors know the same peers and after a check differ on one exactly at age T or 2T when T >= 0, and exactly at ages from 2T to T when T < 0 |
| `Heartbeats.HeartbeatManager.ProcessIncomingHeartbeat` | meshweaver/heartbeat.py:51-66 | only a heartbeat with a foreign, non-empty sender counts; it makes that peer ALIVE and seen now |
| `Heartbeats.HeartbeatManager.CheckNodeHealth` | meshweaver/heartbeat.py:68-92 | the loop computes the specified check of all known peers in order |
| `Heartbeats.HeartbeatManager.FireCallbacks` | meshweaver/heartbeat.py:81-85 | every registered callback is called once, in order, for the peer |
| `Heartbeats.HeartbeatMonitor.UpdatePeer` | meshweaver/monitoring.py:39-41 | the peer is ALIVE and seen now |
| `Heartbeats.MonitorStateAfterCheck` | meshweaver/monitoring.py:43-62 | after a check, on any clock and whatever was stored before, the monitor says ALIVE of a peer exactly if its last heartbeat is at most the timeout old, and OFFLINE exactly if there was none or it is older than the timeout and twice the timeout; right after a heartbeat it says ALIVE |
| `Heartbeats.ChangedIff` | meshweaver/monitoring.py:46-62 | a check reports exactly the peers whose state differs before and after it, each with the state after; it keeps peers and times |
| `Heartbeats.HeartbeatMonitor.CheckOncePeers` | meshweaver/monitoring.py:46-62 | every peer gets the classification of its age and exactly the changed ones are reported |
| `LoadSelection.MakeSelector` | meshweaver/kademlia/load_selector.py:218-230 | an empty local id or a non-positive limit is an error; otherwise the selector has the given settings |
| `LoadSelection.SelectPeer` | meshweaver/kademlia/load_selector.py:273-318 | the loop computes the specified candidates, counts and winner |
| `LoadSelection.CandidateIff` | meshweaver/kademlia/load_selector.py:280-304 | an entry is a candidate exactly if a record of the table has its id, CPU load, RAM load and timestamp field by field, the id is foreign and the age is below the limit |
| `LoadSelection.WinnerIsLeastLoaded` | meshweaver/kademlia/load_selector.py:309-311 | there is a winner exactly if some record is complete, foreign and younger than the limit; it equals such a record field by field, and no such record reports a lower CPU load |
| `LoadSelection.SelectOne` | meshweaver/kademlia/load_selector.py:280-304 | one record is a candidate, or counts as the own one, as stale, or for nothing, as its fields say |
| `LoadSelection.SelectConcat` | meshweaver/kademlia/load_selector.py:273-318 | candidates and counts of a table are those of its parts put together in order |
| `LoadSelection.SelectAccounts` | meshweaver/kademlia/load_selector.py:276-304 | every record is a candidate, stale, the local one or malformed, counted once |
| `LoadSelection.FilterHeadIsWinner` | meshweaver/kademlia/load_selector.py:320-345 | the filtered list is a permutation of the candidates sorted by load, ties in table order, headed by the winner of the selection |
| `LoadSelection.CleanupIsInvisibleIff` | meshweaver/gossip.py:76-83 | cleanup never changes the candidates or winner of a selection at the same time, for every table, if and only if stale_after <= ttl |
| `LoadSelection.NoStaleAfterCleanupIff` | meshweaver/gossip.py:76-83 | a selection right after cleanup counts no stale record, for every table, if and only if ttl < stale_after |
| `LoadSelection.PutSlots` | meshweaver/gossip.py:73-74 | storing a record replaces the one of the same peer and keeps every other one |
| `LoadSelection.PutKeepsPlaces` | meshweaver/gossip.py:73-74 | storing a record moves no other record |
| `LoadSelection.CleanupSlots` | meshweaver/gossip.py:76-83 | cleanup drops exactly the records older than the limit, a missing timestamp counting as zero, and alters none |
| `LoadSelection.CleanupConcat` | meshweaver/gossip.py:76-83 | cleanup keeps the order of what it keeps |
| `LoadSelection.IncomingRaisesIff` | meshweaver/gossip.py:65-74 | an update raises exactly if its payload has fields but no id |
| `LoadSelection.TableKeepsLastReceived` | meshweaver/gossip.py:65-99 | on every run the table holds at most one record a peer, and exactly these: under each id the last record received for it, whatever its timestamp, unless a later cleanup found it expired; only local updates speak for the node itself |
| `LoadSelection.GossipManager.HandleIncomingGossip` | meshweaver/gossip.py:65-74 | a foreign record replaces the peer's record; a payload without an id raises and changes nothing |
| `LoadSelection.GossipManager.OnLocalUpdate` | meshweaver/gossip.py:98-99 | the own record is replaced |
| `LoadSelection.GossipManager.CleanupStalePeers` | meshweaver/gossip.py:76-83 | deleting the listed keys one by one is the specified cleanup |
| `KeyFile.DecodeInvertsEncode` | meshweaver/kademlia/identity.py:241 | the lenient decoder undoes base64 encoding for byte strings of every length |
| `KeyFile.UsualDigits` | meshweaver/kademlia/identity.py:241 | the 64 digits are A-Z, a-z, 0-9, + and / in the order of table 1 of RFC 4648 |
| `KeyFile.EncodeDigits` | meshweaver/kademlia/identity.py:241 | group g of three bytes is written at position 4g as its four six-bit pieces, highest first, with padding for missing bytes; the text has four characters for every group begun |
| `KeyFile.DecodeSkips` | meshweaver/kademlia/identity.py:315-320 | decoding skips any character that is neither a digit nor padding, wherever it stands |
| `KeyFile.LoadRecovers` | meshweaver/kademlia/identity.py:292-329 | a key is recovered from any text, with any line breaks, whose stripped non-blank lines are non-marker lines, the header, the encoded key wrapped in any way, the footer, and anything after; a key of another length is an error |
| `KeyFile.LoadOkIff` | meshweaver/kademlia/identity.py:292-329 | a text gives a key exactly if, among its stripped non-blank lines, the first header stands before the first footer with lines between that decode to the 32 bytes of the key |
| `KeyFile.CutAtBreak` | meshweaver/kademlia/identity.py:292 | a text is cut into lines at each ASCII line boundary |
| `KeyFile.StripEnds` | meshweaver/kademlia/identity.py:292 | a line loses the ASCII white space at both ends and no more |
| `KeyFile.RenderedLines` | meshweaver/kademlia/identity.py:292 | lines written out one by one are read back stripped, without the blank ones |
| `KeyFile.LoadInvertsSave` | meshweaver/kademlia/identity.py:241-244 | loading what was saved gives the key back |
| `Framing.FrameReceivedIff` | meshweaver/secure_network.py:18-31 | a frame in front of anything is received exactly when it has at most 10485760 bytes; a longer one can be sent but is refused |
| `Framing.FrameBytes` | meshweaver/secure_network.py:18-22 | a frame is the length in four bytes, most significant first, and the data; a length of 2^32 or more is an error |
| `Framing.TruncatedFrame` | meshweaver/secure_network.py:24-31 | a frame cut short anywhere is never mistaken for a frame |
| `Framing.ReceiveManyInverts` | meshweaver/secure_network.py:18-31 | receiving as many frames as were sent gives them back and leaves what follows |
| `Framing.FramesSurviveChunking` | meshweaver/secure_network.py:18-31 | any sequence of frames of at most 10 MiB each, sent one by one and received one by one, arrives exactly, however the bytes in between are cut into chunks |
| `Framing.SendFrames` | meshweaver/secure_network.py:18-22 | sending frames one after the other writes them back to back |
| `Framing.ReceiveFrames` | meshweaver/secure_network.py:24-31 | receiving from a reader that gets the stream in any chunks returns exactly the frames and leaves exactly what follows |
| `Framing.StreamReader.ReadExactly` | meshweaver/secure_network.py:27-31 | reading n bytes depends only on the remaining stream, not on how it is cut into chunks |
| `Framing.SecureNetworkProtocol.Send` | meshweaver/secure_network.py:18-22 | a frame is appended to what was written; no connection and a length of 2^32 or more are errors |
| `Framing.SecureNetworkProtocol.ReceiveFrame` | meshweaver/secure_network.py:24-31 | the method over a chunked stream computes the specified receive on the remaining bytes |

## Left out

- JSON encoding and decoding of messages, including numbers given as strings, non-string hosts and fields of the wrong JSON type: a field is present with its type or missing.
- SHA-256, HMAC, signing and verification; a loaded key pair is represented by its private key alone.
- Sockets, TLS contexts, file access, asyncio scheduling beyond the order of steps, logging and printing.
- Callbacks of the application: `on_message`, `on_node_seen` and `on_state_change` are taken to send nothing and not to re-enter the object; offline callbacks are recorded, not run.
- Length checks on ids inside `RoutingTable` and `KademliaContact` arguments are carried by the type of 32-byte ids; wrong lengths enter through `MakeContact`, `PeerStore` and the lookups.
- `PeerStore.all_peers`, `peer_count`, `bucket_for` and the other read-only views, which add nothing to the record map.
- The address, load and RAM fields of `HeartbeatMonitor` entries and the timestamps inside UDP payloads: nothing decides on them.
- Eviction of dead contacts, which the code documents as out of scope.
- Task records, task transport, fault-tolerant execution, the dictionary-based routing and DHT helpers, the dashboard, demos and scripts.
- NaN values and rounding of floating-point numbers.
