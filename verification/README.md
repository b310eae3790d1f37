# Verification of basket's distributed containers

basket spreads a container over servers. Each server keeps one shard in shared memory, behind one mutex.
A client hashes a key to a server and runs the matching `Local*` function, directly when that server is its own and
lies on its node, through an RPC otherwise. GetAllData and Contains visit every server in turn.

The project has three layers.

- **The protocol.** `RpcMachine` is a step machine for any container: calls, requests in flight, worker threads of
  the RPC servers, the mutexes, bodies, replies. Its state also carries a log of calls, effects and returns, which no step reads.
  `RpcHistory` proves the invariant of every step, `RpcCalls` reads complete calls off a log, `RpcProgress` proves
  mutual exclusion, freedom from deadlock and termination. `MapService` (map, set, multimap, unordered_map), `QueueService`
  and `SequenceService` are instances; `MapHistory`, `ScanHistory` and `Containers` prove what their users may rely on.
- **The shards.** The classes `OrderedShard.Shard` (map, and with unit values set), `MultimapShard.Shard`, `HashShard.Shard`,
  `QueueShard.Shard` and `SequenceShard.Shard` contain the `Local*` functions. Each method is proved to take exactly the step
  that the machine's `Body` describes, so the results about the protocol are about this code. For the hash table, the queue and
  the counter that step reads like the method itself; the last rows of the table below are this link and no results of their own.
- **Configuration and names.** `Routing` (hash to server), `Text` and `CharStruct` (the fixed 256-byte string), `Decimal`,
  `Naming` (files, segments, endpoints) and `Configuration` (server list, ranks, RPC factory).

## What came out

- map, set and multimap are one linearizable map, for any number of servers, clients and worker threads, on-node or remote.
- unordered_map is not, in general: Put reduces the hash to 16 bits before it takes the remainder, Get and Erase take the remainder
  first. With a given hash function it behaves as a map exactly when the two agree on the hash of every key; for every hash function
  exactly when one of num_servers and 65536 divides the other, so for up to 65536 servers exactly for powers of two
  (`Routing.RoutesAgreeForPowersOfTwo`). A key on which the routes differ can be put and is listed by GetAllData, but Get and Erase
  never find it. With three servers a hash of 65536 is such a key.
- Contains of map and set tests a shard with a single entry only against `key_start`. Without concurrent changes it returns
  the wanted range exactly when that test is harmless for the entry of every such shard (`ScanHistory.ShortcutHarmless`). The shortcut of
  map also drops an entry equal to `key_start`. The same shortcut makes a multimap's Contains return a single entry under any key.
  Its scan of several entries misses a match that begins before the wanted key unless it steps back to it, and what follows a gap;
  `MultimapShard.RunComplete` is the exact condition. `Containers` has runs in which each of the three containers goes wrong.
- The loop of GetAllData and Contains counts in an int, the server of an RPC is a uint16_t. With more than 65536 servers the
  visits start again at server 0, and GetAllData is a permutation of the container exactly when no key lies on a server that is visited
  again. MY_SERVER is a uint16_t too, so the ranks are spread evenly exactly up to 65536 servers.
- The first RPC object loads the server list again and overwrites NUM_SERVERS. A program that sets NUM_SERVERS by hand makes two
  containers that disagree on it, unless it set the length of the list; so does one that relies on the defaults.
- A remote `WaitForElement` occupies a worker thread. It can block the remote Push that would end its wait exactly when more clients
  reach the server by RPC than the server has workers (by default one), and then also for ever, whatever is called meanwhile.
- A CharStruct made from a buffer and a size loses the last of the `size` bytes, because snprintf counts the NUL.

## Assumptions

- A hash is a value below 2^64, num_servers a positive `int`; it may exceed the 65536 servers that a uint16_t can name.
- `Compare`, `<`, `>` and `>=` of a key type come from one strict total order. For CharStruct keys this is proved.
- An RPC request is handled once, on the server it names, and occupies one of the RPC_THREADS workers from its delivery until the
  `Local*` function has released the mutex or, without a mutex, has read.
- A `Local*` body under the mutex is one step; so is an unlocked read (`set::LocalSize`, each poll of `queue::LocalWaitForElement`).
- A multimap's `find` returns the first entry with the key.
- A `char` stands for the byte with its code. Texts in CharStructs have at most 255 bytes, as the buffer demands.

## Model

| member | source | states |
|---|---|---|
| RpcHistory.StepInv | include/basket/map/map.cpp:152-248 | every step of the protocol keeps the invariant: a mutex is held exactly by the call between its lock and unlock, each shard is what the logged bodies made of it, and each client's log is a sequence of calls |
| RpcHistory.StepKeepsMutexes | include/basket/map/map.cpp:155-155 | a step changes the owner of a mutex only by the acquire or release of its own call at the server it visits, and leaves the critical sections of all other calls alone |
| RpcHistory.StepKeepsShards | include/basket/map/map.cpp:152-163 | a shard changes only by a logged body, which ran on the contents its predecessors left |
| RpcHistory.StepKeepsViews | include/basket/map/map.cpp:172-183 | what a client has called and been answered so far is what its events say |
| RpcHistory.RunInv | include/basket/map/map.cpp:152-248 | the invariant holds along every run |
| RpcHistory.ReachableInv | include/basket/map/map.cpp:152-248 | in every reachable state the invariant holds and the log is well formed |
| RpcCalls.ReturnAnswersOneCall | include/basket/map/map.cpp:258-288 | every return answers one call; its visits took effect in between, in the order of its plan, and the returned replies are theirs |
| RpcCalls.EffectsRespectRealTime | include/basket/map/map.cpp:172-248 | a call that returned before another began took effect before it |
| RpcCalls.RunsOnPlan | include/basket/map/map.cpp:174-176 | a body runs on a server that its call was routed to |
| RpcProgress.MutualExclusion | include/basket/map/map.cpp:155-156 | no two calls are inside the critical section of one server |
| RpcProgress.WorkersSuffice | src/basket/communication/rpc_lib.cpp:108-121 | no server ever handles more requests at a time than it has workers |
| RpcProgress.NoDeadlock | include/basket/map/map.cpp:152-248 | while a call is pending that neither polls nor is starved by polling, some step other than a new call is possible, for any number of workers |
| RpcProgress.StoppedIff | include/basket/queue/queue.cpp:183-192 | a state allows nothing but new calls exactly when every pending call polls, or waits for a server all of whose workers poll |
| RpcProgress.StepsDecrease | include/basket/map/map.cpp:172-183 | every step that is not a new call brings the pending calls nearer to their end |
| RpcProgress.QuietRunsEnd | include/basket/map/map.cpp:258-288 | a run without new calls is no longer than the steps its pending calls had left |
| RpcProgress.PendingCallsComplete | include/basket/map/map.cpp:258-288 | when nothing polls, all pending calls can be carried to their end |
| RpcProgress.SoloCall | include/basket/map/map.cpp:172-183 | a locked call with nobody else active runs to its end, and logs its call, its one effect and its return |
| RpcProgress.SoloReadCall | include/basket/map/map.cpp:275-288 | a reading call with nobody else active runs through all servers of its plan to its end, and returns their answers |
| Routing.ModThenCast | include/basket/unordered_map/unordered_map.cpp:262-262 | the route of Get and Erase names an existing server below 65536 |
| Routing.CastThenMod | include/basket/unordered_map/unordered_map.cpp:159-159 | so does Put's route |
| Routing.RemaindersCommute | include/basket/unordered_map/unordered_map.cpp:261-262 | two remainders taken in either order agree exactly when the larger modulus drops a multiple of the smaller |
| Routing.RoutesAgreeIff | include/basket/unordered_map/unordered_map.cpp:159-159 | when Put's and Get's route of one hash agree: up to 65536 servers exactly when n divides h - h mod 65536 |
| Routing.RoutesAlwaysAgreeIff | include/basket/unordered_map/unordered_map.cpp:332-333 | the routes agree for all 64-bit hashes exactly when one of num_servers and 65536 divides the other |
| Routing.DivisorsOfPow2 | include/basket/unordered_map/unordered_map.cpp:159-159 | the numbers that divide a power of two are the smaller powers of two |
| Routing.RoutesAgreeForPowersOfTwo | include/basket/unordered_map/unordered_map.cpp:159-159 | up to 65536 servers the routes agree for all hashes exactly when num_servers is a power of two |
| Routing.ThreeServersDisagree | include/basket/unordered_map/unordered_map.cpp:159-159 | with three servers hash 65536 is put on server 0 and looked up on server 1 |
| Ordering.ListingIsPermutation | include/basket/map/map.cpp:337-351 | listing every entry once is the same as being a permutation of the entries |
| Ordering.SortedListingIsUnique | include/basket/map/map.cpp:337-351 | what an ordered shard lists is determined by its contents |
| Ordering.SortedListingExists | include/basket/map/map.cpp:337-351 | every shard has a sorted listing |
| MapService.VisitsAre | include/basket/communication/rpc_lib.h:129-131 | a scatter-gather call makes num_servers visits, its own server's first, and the one for i comes to the server that the low 16 bits of i name |
| MapService.EveryServerVisitedOnce | include/basket/map/map.cpp:261-269 | up to 65536 servers a scatter-gather call visits each server once, its own first, then ascending |
| MapService.VisitedIff | include/basket/communication/rpc_lib.h:129-131 | the servers visited are those below num_servers and below 65536 |
| MapService.RepeatedOnlyFar | include/basket/communication/rpc_lib.h:129-131 | a server is visited again only if it stays below num_servers with 65536 added |
| MapService.FarIsRepeated | include/basket/communication/rpc_lib.h:129-131 | every such server is visited again |
| MapService.LowerBound | include/basket/map/map.cpp:306-306 | all entries before the lower bound are smaller than the key, the one at it is not |
| MapService.RunLength | include/basket/multimap/multimap.cpp:321-328 | the scan's run consists of matching entries and ends at one that does not match, or at the end |
| MapHistory.AlwaysSharded | include/basket/map/map.cpp:172-183 | after any log each server holds exactly the part of the map that Put routes to it |
| MapHistory.RepliesAreSequential | include/basket/map/map.cpp:152-234 | each Put, Get and Erase replies what the sequential map replies when it takes effect |
| MapHistory.Linearizable | include/basket/map/map.cpp:151-248 | a completed Put, Get or Erase took effect at one moment between its call and its return, and returned what the sequential map answers there |
| MapHistory.MisroutedKeyIsNeverFound | include/basket/unordered_map/unordered_map.cpp:260-269 | a key whose routes differ is never found and never erased, and the shard asked does not change |
| MapHistory.MisroutedKeyStays | include/basket/unordered_map/unordered_map.cpp:331-343 | once put, such a key stays in the container |
| MapHistory.FirstOfServer | include/basket/set/set.cpp:388-447 | SeekFirst and PopFirst name the smallest key of their server, and PopFirst removes just that key |
| MapHistory.SetCallAnswers | include/basket/set/set.cpp:388-478 | a completed SeekFirst, PopFirst or Size took effect at one moment on the server it names, and answered the least key there, false exactly when there was none, or the number of keys |
| MapHistory.PopsAscend | include/basket/set/set.cpp:438-448 | while nothing is put, keys popped from a server ascend strictly, whoever pops them |
| ScanHistory.GatherFromServers | include/basket/map/map.cpp:275-288 | the loop of GetAllData makes exactly the visits of the plan, and its result is what the theorems below call the collected answers |
| ScanHistory.CollectedKeyIff | include/basket/map/map.cpp:275-288 | a key is returned exactly when a visit of its server lists it |
| ScanHistory.CollectedFacts | include/basket/map/map.cpp:275-288 | the appended answers of ascending visits repeat no key and come server by server |
| ScanHistory.VisitShowsPart | include/basket/map/map.cpp:337-351 | a visit of a scan lists entries that its server held at that moment, all of them for GetAllData, the sorted range answer for Contains |
| ScanHistory.ScanIsWeaklyConsistent | include/basket/map/map.cpp:275-288 | next to writers a scan returns only pairs held during the call, no key twice unless its server is visited again, own server first and then ascending up to 65536 servers, and GetAllData every key present throughout |
| ScanHistory.PresentIsReturned | include/basket/map/map.cpp:275-288 | a key present throughout the call is returned by GetAllData, twice exactly when its server is visited again |
| ScanHistory.MisroutedKeyIsListedOnce | include/basket/unordered_map/unordered_map.cpp:396-432 | a key that Get never finds is listed by every GetAllData that begins after it was put, exactly once unless its server is visited again |
| ScanHistory.QuietScanIff | include/basket/map/map.cpp:258-288 | without concurrent changes a scan returns just the wanted entries, each once, exactly when the servers answer just these keys and none of them is on a server that is visited again |
| ScanHistory.QuietScanKeys | include/basket/set/set.cpp:280-293 | without concurrent changes a key is returned exactly when its own server answers it, and twice exactly when that server is visited again |
| ScanHistory.QuietGetAllDataIsComplete | include/basket/map/map.cpp:275-288 | without concurrent changes GetAllData returns a permutation of the container exactly when no key is on a server that is visited again, always up to 65536 servers, and then by server |
| ScanHistory.ShortcutRightIff | include/basket/set/set.cpp:320-322 | the single-entry test agrees with the range filter exactly when the entry is harmless, for set and for map |
| ScanHistory.QuietContainsIsRangeIff | include/basket/map/map.cpp:258-271 | without concurrent changes Contains is a permutation of the range exactly when the shortcut is harmless on every singleton shard and no entry of the range is on a server that is visited again; each server's share is sorted |
| ScanHistory.ContainsFinds | include/basket/map/map.cpp:258-271 | next to writers Contains returns a key exactly when a visit of its server finds it there, in the range unless the shortcut is wrong about it, outside if it is |
| ScanHistory.ContainsNextToWriters | include/basket/map/map.cpp:258-271 | next to writers a key of the range present throughout is missed, and one outside it returned, only by a wrong shortcut at a visit |
| ScanHistory.QuietMatchingIsGetIff | include/basket/multimap/multimap.cpp:262-277 | with key equality and no concurrent changes, a multimap's Contains returns what Get finds exactly when no server holds a single entry with another key and the key's server is not visited again |
| ScanHistory.QuietMatchingIsFilterIff | include/basket/multimap/multimap.cpp:262-277 | whatever Contains of the keys means: without concurrent changes a multimap's Contains returns a permutation of all matching entries exactly when no server's scan misses a match or returns a lone entry that does not match, and no match is on a server that is visited again |
| ScanHistory.QuietMatchingConcatenates | include/basket/multimap/multimap.cpp:262-277 | it returns the concatenation of the scans of the servers' sorted parts, in the order of the visits |
| Containers.EveryBodyHasAnOutcome | include/basket/map/map.cpp:65-87 | each bound Local* function has an outcome on every shard, and none polls |
| Containers.PendingCallsAlwaysEnd | include/basket/map/map.cpp:152-288 | no run of map, set, multimap or unordered_map deadlocks, and every step without a new call brings the end of the pending calls nearer |
| Containers.UniformIsWellRouted | include/basket/multimap/multimap.cpp:173-174 | in map, set and multimap every key is put, looked up and erased on the same server |
| Containers.UniformRoutes | include/basket/map/map.cpp:174-176 | in map, set and multimap a key is put, looked up, erased and stored on the server hash(key) % num_servers, narrowed to 16 bits |
| Containers.UnorderedRoutes | include/basket/unordered_map/unordered_map.cpp:159-262 | in unordered_map a key is put and stored where its narrowed hash modulo num_servers says, and looked up and erased where the narrowed remainder of its hash does |
| Containers.OfferedOperations | include/basket/set/set.cpp:463-466 | which operations a client of each container can call, and for which servers |
| Containers.DispatchOfAVisit | include/basket/map/map.cpp:174-181 | a visit is local exactly when it is the call's first, goes to the client's own server, and that is on its node; a request is handled when fewer than RPC_THREADS others are |
| Containers.OnlySizeIsUnlocked | include/basket/set/set.cpp:463-466 | every body but the size of a set runs while its call holds the mutex of its server |
| Containers.UniformContainersAreOneMap | include/basket/map/map.cpp:151-248 | in every reachable state the log is that of one ordinary map, each shard holds exactly its keys, and each completed call took effect between call and return |
| Containers.ScansOfReachableStates | include/basket/map/map.cpp:258-288 | the weak consistency of every scan that returned in a reachable state |
| Containers.OrdinaryIffWellRouted | include/basket/unordered_map/unordered_map.cpp:156-343 | a container without pops is an ordinary map in every run exactly when every key is put and looked up on the same server |
| Containers.UnorderedHashIsOrdinaryIff | include/basket/unordered_map/unordered_map.cpp:156-343 | unordered_map with a given hash function is an ordinary map in every run exactly when the two routes agree on the hash of every key |
| Containers.UnorderedMapIsOrdinaryIff | include/basket/unordered_map/unordered_map.cpp:156-343 | unordered_map is an ordinary map for every hash function and run exactly when num_servers divides 65536 or the reverse |
| Containers.LostEntry | include/basket/unordered_map/unordered_map.cpp:157-269 | for every key that is not well routed, a run in which Put answers true and the Get after it false |
| Containers.LostPut | include/basket/unordered_map/unordered_map.cpp:157-269 | the same run of unordered_map, for every hash on which the routes differ |
| Containers.MapContainsMisses | include/basket/map/map.cpp:299-304 | a run in which Contains of a map misses its only entry, the one asked for |
| Containers.SetContainsTooMuch | include/basket/set/set.cpp:320-322 | a run in which Contains of a set returns its only member, which is above the range |
| Containers.MultimapContainsOther | include/basket/multimap/multimap.cpp:310-313 | a run in which Contains of a multimap returns its only entry, which has another key |
| Containers.EntriesPut | include/basket/multimap/multimap.cpp:150-161 | a run after which a server holds any given entries |
| Containers.MultimapContainsMisses | include/basket/multimap/multimap.cpp:315-328 | a run in which Contains of a multimap of intervals misses the interval that contains the wanted one |
| Containers.ListedTwice | include/basket/communication/rpc_lib.h:129-131 | a run, with more than 65536 servers, in which GetAllData lists a key twice |
| OrderedShard.FindLowerBound | include/basket/map/map.cpp:306-306 | binary search finds the lower bound |
| OrderedShard.LowerBoundIs | include/basket/map/map.cpp:306-306 | the lower bound is the only position that parts smaller keys from the others |
| OrderedShard.SliceIsRange | include/basket/map/map.cpp:306-316 | the entries from the lower bound to the first key above `hi` are the range, sorted |
| OrderedShard.InsertOrAssign | include/basket/map/map.cpp:156-156 | insert_or_assign keeps the order and maps the key to the value |
| OrderedShard.EraseKey | include/basket/map/map.cpp:232-232 | erase keeps the order, removes the key, and counts it |
| OrderedShard.Shard.constructor | include/basket/map/map.cpp:58-58 | a new shard is empty |
| OrderedShard.Shard.LocalPut | include/basket/map/map.cpp:152-163 | LocalPut takes the Put step and answers true |
| OrderedShard.Shard.LocalGet | include/basket/map/map.cpp:193-203 | LocalGet answers the entry, or false and the default value |
| OrderedShard.Shard.LocalErase | include/basket/map/map.cpp:228-234 | LocalErase takes the Erase step; it never returns the erased value |
| OrderedShard.Shard.LocalGetAllDataInServer | include/basket/map/map.cpp:337-351 | the sorted listing of the shard |
| OrderedShard.Shard.LocalContainsInServer | include/basket/set/set.cpp:312-342 | the sorted listing of the range, reversed and empty ranges included, and of the shortcut's answer when there is a single entry |
| OrderedShard.Shard.ScanRange | include/basket/map/map.cpp:306-316 | lower bound, step back and early exit give exactly the range |
| OrderedShard.Shard.LocalSeekFirst | include/basket/set/set.cpp:388-397 | the smallest key, or false for an empty shard |
| OrderedShard.Shard.LocalPopFirst | include/basket/set/set.cpp:438-448 | the smallest key, which is removed, or false for an empty shard |
| OrderedShard.Shard.LocalSeekFirstN | include/basket/set/set.cpp:412-424 | the n least keys, ascending, or all of them when there are fewer |
| OrderedShard.FirstKeysAreLeast | include/basket/set/set.cpp:412-424 | the first n keys of a sorted shard ascend, are as many as there are up to n, and are less than all others |
| OrderedShard.Shard.PopFirstTimes | include/basket/set/set.cpp:438-448 | n pops return the keys that LocalSeekFirstN(n) would have, and leave the rest |
| OrderedShard.Shard.LocalSize | include/basket/set/set.cpp:463-466 | the number of entries |
| MultimapShard.SingleEntryScanIff | include/basket/multimap/multimap.cpp:310-313 | returning a single entry unseen is right exactly when its key is not below the wanted one and matches it |
| MultimapShard.MatchingRunIs | include/basket/multimap/multimap.cpp:315-328 | the scan returns, sorted, exactly the entries it reaches from its start with nothing but matches on the way, told by the keys alone |
| MultimapShard.MatchingRunIsFilterIff | include/basket/multimap/multimap.cpp:315-328 | it returns all matching entries exactly when it steps back to every match below the wanted key and the matches from there on have no gap |
| MultimapShard.ScanIsFilterIff | include/basket/multimap/multimap.cpp:306-328 | the same with the shortcut for a single entry |
| MultimapShard.EnclosingIntervalMissed | include/basket/multimap/multimap.cpp:315-328 | of three intervals the scan misses the one that contains the wanted one |
| MultimapShard.EqualityScanIsGet | include/basket/multimap/multimap.cpp:300-332 | with key equality for Contains the scan answers what LocalGet does, except for a single entry with another key |
| MultimapShard.RunLengthIs | include/basket/multimap/multimap.cpp:321-328 | a run of matching entries that cannot be extended is the maximal one |
| MultimapShard.CollectRun | include/basket/multimap/multimap.cpp:321-328 | the loop returns the maximal run of matching entries from its start |
| MultimapShard.FindUpperBound | include/basket/multimap/multimap.cpp:159-159 | the position behind the entries with the key |
| MultimapShard.WithoutFound | include/basket/multimap/multimap.cpp:155-158 | find and erase leave no entry with the key |
| MultimapShard.Inserted | include/basket/multimap/multimap.cpp:159-159 | insert adds the entry in its place |
| MultimapShard.EndOfEqual | include/basket/multimap/multimap.cpp:233-233 | at most one entry has a given key |
| MultimapShard.Shard.constructor | include/basket/multimap/multimap.cpp:57-57 | a new shard is empty, so it holds at most one entry per key |
| MultimapShard.Shard.LocalPut | include/basket/multimap/multimap.cpp:150-161 | LocalPut keeps one entry per key and takes the Put step of a map |
| MultimapShard.Shard.LocalGet | include/basket/multimap/multimap.cpp:193-203 | LocalGet answers the entry, or false and the default value |
| MultimapShard.Shard.LocalErase | include/basket/multimap/multimap.cpp:229-235 | LocalErase takes the Erase step and removes at most one entry |
| MultimapShard.Shard.LocalGetAllDataInServer | include/basket/multimap/multimap.cpp:351-367 | the sorted listing of the shard |
| MultimapShard.Shard.LocalContainsInServer | include/basket/multimap/multimap.cpp:300-332 | the maximal matching run, or the single entry unseen |
| MultimapShard.Shard.ScanRun | include/basket/multimap/multimap.cpp:315-328 | the run from the lower bound, or from its predecessor when the key contains that one |
| QueueService.PushedIsPoppedThenContents | include/basket/queue/queue.cpp:117-160 | for each server, the values pushed in lock order are the values popped in lock order followed by the contents |
| QueueService.ReachableQueues | include/basket/queue/queue.cpp:117-160 | the same in every reachable state |
| QueueService.Linearizable | include/basket/queue/queue.cpp:117-216 | a completed Push, Pop, WaitForElement or Size took effect at one moment between its call and its return, on the server it names, and returned what a sequential queue answers there: true, the next value pushed or false when there is none, true with an element there, the number of values pushed and not popped |
| QueueService.OnlyWaitingIsUnlocked | include/basket/queue/queue.cpp:117-216 | every body but that of WaitForElement runs while its call holds the mutex of its server |
| QueueService.StaysNonEmpty | include/basket/queue/queue.cpp:151-160 | a queue that a poll saw non-empty stays so until somebody pops |
| QueueService.PopAfterWaitSucceeds | include/basket/queue/queue.cpp:183-192 | with a single popper, the first Pop after its WaitForElement succeeds, whatever others push |
| QueueService.QueuesStopIff | include/basket/queue/queue.cpp:183-203 | a state allows nothing but new calls exactly when every pending call waits on an empty queue, or for a worker of a server all of whose workers so wait |
| QueueService.WaitersTakeWorkers | include/basket/queue/queue.cpp:183-203 | any clients can come to wait on an empty queue, if there is a worker for each remote one |
| QueueService.WaitersBlock | include/basket/queue/queue.cpp:195-203 | for any number of workers w, w remote waiters take them all, the clients on the node wait too, and the operation of one more remote client is pending with no step left |
| QueueService.WaitersBlockIff | include/basket/queue/queue.cpp:195-203 | waiting can hold up a Push, Pop or Size exactly when more clients reach its server by RPC than it has workers |
| QueueService.StepKeepsJam | include/basket/queue/queue.cpp:183-192 | no step frees a server whose workers all wait and whose on-node clients, if any, wait too |
| QueueService.JamIsForEver | include/basket/queue/queue.cpp:183-192 | then its queue stays empty in every run, whatever is called, and no request on its way there is handled |
| QueueService.EnoughWorkersReturn | include/basket/queue/queue.cpp:117-160 | with enough workers a pending Push, Pop or Size has returned at the end of every run without new calls that is carried on until it stops, and all these runs are bounded |
| QueueService.WaitersBlockForEverIff | include/basket/queue/queue.cpp:195-203 | an operation can be held up for ever, whatever is called meanwhile, exactly when more clients reach its server by RPC than it has workers, which is when it can be held up at all |
| SequenceService.ResultsCount | src/basket/sequencer/global_sequence.cpp:86-90 | the k-th number a server hands out is k modulo 2^64 |
| SequenceService.ResultsAreOneToK | src/basket/sequencer/global_sequence.cpp:86-109 | after k calls, fewer than 2^64, the numbers are exactly 1 to k in lock order |
| SequenceService.ResultsDistinctIff | src/basket/sequencer/global_sequence.cpp:86-90 | no number is handed out twice exactly as long as there were at most 2^64 calls |
| SequenceService.EarlierEffectSmallerNumber | src/basket/sequencer/global_sequence.cpp:86-90 | of two calls the one that takes the mutex first gets the smaller number |
| SequenceService.EarlierCallSmallerNumber | src/basket/sequencer/global_sequence.cpp:92-109 | a call that returned before another began got the smaller number, below 2^64 calls |
| SequenceService.RunsAtItsServer | src/basket/sequencer/global_sequence.cpp:92-109 | GetNextSequence takes the number of the client's own server, GetNextSequenceServer that of the server it names |
| SequenceService.CallTakesNextNumber | src/basket/sequencer/global_sequence.cpp:92-109 | a completed call took effect at one moment between its call and its return, on that server, and returned one more than the numbers handed out there before, modulo 2^64 |
| SequenceService.CallsAreAnswered | src/basket/sequencer/global_sequence.cpp:92-109 | every existing server can be asked, and no call polls |
| SequenceService.AlwaysLocked | src/basket/sequencer/global_sequence.cpp:86-90 | every increment runs while its call holds the mutex of its server |
| Text.TextOrderIsTotal | include/basket/common/data_structures.h:110-121 | the order of CharStructs is a strict total order |
| Text.LessAtFirstDifference | include/basket/common/data_structures.h:110-118 | two texts compare as their first difference does |
| CharStruct.Chars.constructor | include/basket/common/data_structures.h:64-67 | the text is what precedes the first NUL of the data |
| CharStruct.Chars.Sized | include/basket/common/data_structures.h:69-71 | from a buffer and a size, the last of the `size` bytes is dropped |
| CharStruct.Chars.Write | include/basket/common/data_structures.h:55-57 | writes the text and a NUL, and leaves the stale bytes behind |
| CharStruct.Chars.Size | include/basket/common/data_structures.h:82-84 | the length of the text |
| CharStruct.Chars.Assign | include/basket/common/data_structures.h:88-91 | the text is copied, also onto itself; stale bytes stay |
| CharStruct.Chars.Compare | include/basket/common/data_structures.h:93-121 | zero exactly for equal texts, and the sign is the order of the texts, whatever stale bytes there are |
| CharStruct.Chars.Append | include/basket/common/data_structures.h:105-109 | concatenation when it fits, also with itself |
| CharStruct.Chars.Plus | include/basket/common/data_structures.h:96-99 | a new value with the concatenated text |
| CharStruct.Chars.Hash | include/basket/common/data_structures.h:126-131 | the hash depends on the text only |
| CharStruct.Chars.Pack | include/basket/common/data_structures.h:151-160 | packs exactly the text |
| CharStruct.Chars.Convert | include/basket/common/data_structures.h:140-148 | unpacks the text |
| CharStruct.PackThenConvert | include/basket/common/data_structures.h:140-160 | converting what was packed gives back an equal value |
| Decimal.AtoiOfDigits | include/basket/common/configuration_manager.h:91-91 | atoi reads back a decimal number |
| Decimal.AtoiReads | include/basket/common/configuration_manager.h:91-91 | atoi reads a number behind white space and a sign, and ignores what follows its digits |
| Decimal.AtoiOfNoNumber | include/basket/common/configuration_manager.h:91-91 | without a digit there it gives 0 |
| Decimal.DigitsAreShortest | include/basket/map/map.cpp:47-47 | a decimal has no leading zero |
| Decimal.DigitsInjective | include/basket/map/map.cpp:47-47 | distinct server indices have distinct decimal texts |
| Naming.LastUnderscoreParts | include/basket/map/map.cpp:38-47 | the last underscore parts a name from its suffix, whatever the name contains |
| Naming.FilesAreDistinct | include/basket/set/set.cpp:37-45 | backing files and segment names coincide only for the same container name and server |
| Naming.FilesAreNamed | include/basket/map/map.cpp:38-47 | a backing file lies in the directory and is named like the segment: the container's name, an underscore, and the shortest decimal of the server |
| Naming.EndpointsAreDistinct | include/basket/set/set.cpp:93-102 | endpoint names coincide only for the same container name and operation |
| Naming.EndpointIsNamed | include/basket/set/set.cpp:93-102 | an endpoint is the container's name, an underscore and the operation |
| Configuration.FindColon | include/basket/common/configuration_manager.h:88-89 | the position of the first colon |
| Configuration.ServersAreCounted | include/basket/common/configuration_manager.h:98-106 | the list is as long as the sum of the non-negative counts |
| Configuration.LineParses | include/basket/common/configuration_manager.h:88-91 | a line host:count is read as that host and count |
| Configuration.LoadingLinesUngroups | include/basket/common/configuration_manager.h:79-109 | loading the lines of any grouping of colon-free hosts gives the servers of the groups |
| Configuration.LoadingGroupedListGivesItBack | include/basket/common/configuration_manager.h:79-109 | grouping a list of colon-free hosts into lines and loading it gives the list back |
| Configuration.LoadingEntries | include/basket/common/configuration_manager.h:79-109 | loading lines with and without counts gives each host as often as its line says: once without a count, never for a negative one |
| Configuration.LoadingHosts | include/basket/common/configuration_manager.h:92-96 | hosts written one to a line are the list of servers |
| Configuration.RanksAreSpreadEvenly | include/basket/common/configuration_manager.h:114-114 | up to 65536 servers, each gets COMM_SIZE / NUM_SERVERS ranks, the first COMM_SIZE % NUM_SERVERS servers one more |
| Configuration.NoRanksAbove | include/basket/common/configuration_manager.h:50-50 | no rank gets a server from 65536 on |
| Configuration.SpreadsEvenlyIff | include/basket/common/configuration_manager.h:114-114 | for every number of ranks each server gets its share, rounded down or up, exactly up to 65536 servers |
| Configuration.ConfigurationManager.constructor | include/basket/common/configuration_manager.h:59-77 | the defaults, among them one server and one worker thread |
| Configuration.ConfigurationManager.LoadServers | include/basket/common/configuration_manager.h:79-109 | the list is the expansion of the file's lines, the lines themselves when none has a colon, and NUM_SERVERS the sum of the non-negative counts; without the file the program exits |
| Configuration.ConfigurationManager.AddServers | include/basket/common/configuration_manager.h:98-100 | appends one entry per server of a host |
| Configuration.ConfigurationManager.ConfigureDefaultClient | include/basket/common/configuration_manager.h:110-116 | a non-empty argument becomes the path of the list, and an empty one leaves it; the file there is loaded, and the program exits exactly when it is missing; this rank's server, and neither server nor on a server's node |
| Configuration.ConfigurationManager.ConfigureDefaultServer | include/basket/common/configuration_manager.h:118-124 | the same, but a server on its node |
| Configuration.RPC.constructor | src/basket/communication/rpc_lib.cpp:49-53 | an RPC takes its port from RPC_PORT and loads the server list again |
| Configuration.RPCFactory.constructor | include/basket/communication/rpc_factory.h:16-16 | a new factory has no RPC |
| Configuration.RPCFactory.GetRPC | include/basket/communication/rpc_factory.h:17-26 | one RPC per port, made for that port; RPC_PORT is restored, and only a new RPC loads the list |
| Configuration.ConstructContainer | include/basket/map/map.cpp:33-49 | a container captures the configuration as it was before its RPC was asked for |
| Configuration.RunAction | include/basket/communication/rpc_factory.h:17-26 | one request for an RPC, or one container, keeps the configuration and the RPCs made so far |
| Configuration.RunProgram | include/basket/map/map.cpp:33-49 | after configuring, any sequence of RPC requests and containers keeps RPC_PORT and one RPC per port; all containers agree on num_servers, with my_server in range |
| Configuration.TwoContainers | include/basket/map/map.cpp:33-49 | without configuring, two containers agree on num_servers exactly when NUM_SERVERS was the length of the list |
| Configuration.DefaultContainersDisagree | include/basket/map/map.cpp:33-49 | with the defaults and a list of two servers, the first container sees one server and the second two |
| HashShard.Shard.constructor | include/basket/unordered_map/unordered_map.cpp:60-62 | a new shard is empty |
| HashShard.Shard.LocalPut | include/basket/unordered_map/unordered_map.cpp:143-149 | LocalPut takes the Put step and answers true |
| HashShard.Shard.LocalGet | include/basket/unordered_map/unordered_map.cpp:241-250 | LocalGet answers the entry, or false and the default value |
| HashShard.Shard.LocalErase | include/basket/unordered_map/unordered_map.cpp:321-327 | LocalErase takes the Erase step |
| HashShard.Shard.LocalGetAllDataInServer | include/basket/unordered_map/unordered_map.cpp:415-432 | every entry once, whatever order the iterator takes |
| QueueShard.Shard.constructor | include/basket/queue/queue.cpp:49-49 | a new queue is empty |
| QueueShard.Shard.LocalPush | include/basket/queue/queue.cpp:117-122 | LocalPush takes the Push step |
| QueueShard.Shard.LocalPop | include/basket/queue/queue.cpp:151-160 | LocalPop takes the Pop step, or answers false on an empty queue |
| QueueShard.Shard.LocalSize | include/basket/queue/queue.cpp:211-216 | the length of the queue |
| QueueShard.LocalWaitForElement | include/basket/queue/queue.cpp:183-192 | the loop goes on while the WaitForElement step is not possible, and then takes it |
| SequenceShard.Shard.constructor | src/basket/sequencer/global_sequence.cpp:71-71 | the counter starts at 0 |
| SequenceShard.Shard.LocalGetNextSequence | src/basket/sequencer/global_sequence.cpp:86-90 | increments with wrap-around and returns the new value |

## Left out

- RPC transport (rpclib, Thallium), host lookup, timeouts, async calls, RDMA: libraries outside the repository; a request runs the bound function on the server it names.
- Shared memory segments, mapped files, allocators, memory limits: a shard is an object; its removal and reopening are not modelled.
- The tree and the hash table of Boost: a sorted sequence and a map; iterators are positions.
- MPI, AutoTrace, timers, signal handlers, stream operators: input, output and debugging.
- The dispatching Put, Get, Erase, Push, Pop and so on are steps of `RpcMachine`, not methods: their local and remote branches are the two ways of its `Send` step.
- Callback variants and Bind/Call of unordered_map: `Call` does not return a value, so it has no meaning to state.
- The remote SeekFirstN: its declared reply type is not that of the local function.
- priority_queue has the dispatch of queue, and its order is that of std::priority_queue; global_clock reads a clock.
- Singleton, Container, enumerations and typedefs: easy members only.
- Fairness: with a fair scheduler every pending call of the map-like containers ends, because each step that is not a new call decreases a measure; the measure and the absence of deadlock are proved, fairness itself is not modelled.
- Several global_sequence servers on one node, whose backing files have the same name.
- Overlong texts in a CharStruct, an atoi overflow, a set with more than 2^31 members in LocalSeekFirstN, an empty server list (a division by zero): undefined behaviour in basket.
- QueueShard.LocalWaitForElement: takes the contents of the queue at its polls as a parameter, because other clients determine them; the interleaving is in `QueueService`.
- The server list as Thallium uses it to build its address from MPI_RANK.
