# Verified models of skynet's protocols and data structures

This project models, in Dafny, the parts of the repository whose correctness is hard to see from one
function: a binary document format and a diff of such documents that keeps table numbers stable, the
coroutine scheduler of a service, a pool allocator, a message server that remembers its responses across
reconnections, a socket gate, and several stream and concurrency protocols. Each part has a model of the
state, the operations in the form the source has them (classes whose methods update fields, loops with
invariants, functions where the source only computes), and the theorems that relate them.

| files | component |
|---|---|
| Words, Chains | bytes, little-endian words, linked chains |
| DatasheetFormat, DatasheetFile, DatasheetDump, DatasheetUndump, DatasheetExample, DatasheetDiff, DatasheetBuilder | the datasheet format, `dump`, `undump`, `diff`, and the builder's chains of versions |
| SchedulerCore, Scheduler | sessions, tokens, queues and reuse of coroutines |
| PoolAllocator | the SGI pool allocator |
| ResponseCache, MsgServer | the reliable message server |
| Packets, DataBuffer, HashId, Gate | the C gate |
| HttpChunked, WebSocket | HTTP bodies in chunks or of known length; WebSocket frames and messages |
| ShareTable | reference counts of shared tables |
| OrderChannel, SessionChannel | request and response pairing of a socket channel |
| ClusterSender | the queue before a cluster sender |
| Crc16, Crc16Table | the checksum of Redis Cluster keys |

How to read it. A class has the source's fields. A `View()` or a predicate over plain values says what its
state means, its methods are proved against step functions or relations on such values, and the theorems
over all inputs, all steps or all runs are lemmas about those. Results of the C core, the network, timers
and user code are parameters or arbitrary choices: session numbers, what a coroutine does next (a script of
commands), whether malloc succeeds and what it returns, how many bytes a read delivers, what a handler
answers, whether a load fails. `dafny verify dfyconfig.toml` checks everything.

## Findings

Where the code does not keep what its surroundings suggest, the model follows the code and states exactly
when it does:

- Scheduler (skynet_test/skynet/lualib/skynet.lua:383-391): `suspend_sleep` registers the session before it
  asserts that the token is free. A coroutine that dies there leaves an entry behind
  (`SchedulerCore.StaleReached`). With coroutines that do not catch that error, a message resumes a
  coroutine that is not suspended exactly when it is for such a session
  (`Scheduler.Service.DispatchMessage`, `SchedulerCore.StaleDead`).
- Message server (skynet_test/skynet/lualib/snax/msgserver.lua:275-277): an entry gets the version of the
  moment its handler ends. A retry after a reconnection calls the handler again exactly when the handler
  ended after the reconnection (nobody authenticated in between) or the response has expired
  (`ResponseCache.RetryCalls`, `CalledTwice`). On one connection the third request for a running session
  throws its entry away and closes the connection (`ThrownAway`); a request after the reconnection then
  starts a second handler while the first is at work (`TwoAtOnce`). A result of more than 65530 bytes cannot
  be packed: the connection of the first request is closed and the entry waits for ever
  (`MsgServer.User.Finish`, `ResponseCache.TooLongStuck`, `RunStuck`). The end of any of a user's
  connections erases `u.fd` (`MsgServer.User.Disconnect`); `logout` closes nothing exactly when it is erased
  or its connection is gone (`Logout`).
- Builder (skynet_test/skynet/lualib/skynet/datasheet/builder.lua:48-59): `update` reads the last version,
  calls the service, and then files its diff. The history stays a chain, in which tables keep their numbers,
  exactly when that version is still current (`DatasheetBuilder.Builder.CommitUpdate`). Two interleaved
  updates break it, and a table at one path gets another number (`InterleavedUpdates`). A chain is told by
  what each version was made of: after a race numbers may also agree by chance. `new` has the same gap
  (`CommitNew`, `InterleavedNews`).
- Shared tables (skynet_test/skynet/lualib/skynet/sharetable.lua:29-50): a load that fails after
  `close_matrix` leaves the file naming a closed matrix, exactly when nobody used it
  (`ShareTable.FailedLoad`); the next load closes it again (`ClosedTwice`).
- Socket channel in order mode (skynet_test/skynet/lualib/skynet/socketchannel.lua:176): the dispatch thread
  can end at the top of its loop with entries left in its queues. Alignment, the outcome from the own
  response function and its being final are kept all the same (`OrderChannel.StepOwn`, `OwnOutcome`,
  `OneOutcome`), but not the order (`StepInv`): afterwards a coroutine can get the response to another one's
  request (`Mispaired`) or wait with no dispatch thread (`Deserted`). The order is also lost exactly when a
  failed write (lines 480-484) is still closing its socket at the next connection and then wakes those who
  wait on that one (`Swept`); whether socket messages can come in such an order is up to the C core
  (`NoneSwept`).
- Socket channel in session mode (skynet_test/skynet/lualib/skynet/socketchannel.lua:85): the same loop test
  leaves sessions without a dispatch thread exactly when the connection is given up during a response that
  succeeds, or before the thread starts (`SessionChannel.StepAttended`, `SessionAbandoned`).
- Gate (skynet_test/skynet/mytest/gate/service_gate.c:225-226): an outgoing connection gets no identifier in
  its slot (`Gate.Service.Connect`). A packet that is too long is refused only when all of it has arrived
  (`Packets.TooLong`). A four-byte length of 2^31 or more is a negative int, and the connection delivers
  nothing any more (`Packets.NegativeLength`). With no broker, no watchdog and no agent yet, `_forward`
  reads nothing: the stream is handled as it should be exactly when no packet is in it (`HandledExact`),
  else the bytes of a packet are taken for headers (`SkimFrame`) and a later packet can be lost
  (`FrameLost`).
- WebSocket (skynet_test/skynet/lualib/http/websocket.lua:213): a close code without a reason is not seen by
  the peer (`WebSocket.CloseArrives`). A payload length of 2^63 or more is negative for Lua and reads no
  payload (`WebSocket.HugeLength`).
- Allocator (sgi_stl_learn/stl_alloc.h:138-149): `_S_refill` never sets `__my_free_list`; the model takes
  the evident intent, the list for size `__n`. Lines 15, 16 and 154 have misspelt names.

## Model

| member | source | states |
|---|---|---|
| DatasheetDump.Dump | skynet_test/skynet/lualib/skynet/datasheet/dump.lua:41-131 | The file is exactly `DumpBytes` of the tree (index table, table blobs in preorder, each string once where it is met first), a dump of it as the format means it, of an exactly known size; dump fails exactly when the tables pass 4 GB or a string would begin at 4 GB or more |
| DatasheetExample.SheetBytes | skynet_test/skynet/lualib/skynet/datasheet/dump.lua:41-131 | The bytes of a sheet with a value of each kind, written out: tags, byte order, padding, index table, shared string |
| DatasheetExample.Sheet | skynet_test/skynet/lualib/skynet/datasheet/dump.lua:41-177 | dump writes those bytes, and undump reads them as the sheet |
| DatasheetDump.DumpRepresents | skynet_test/skynet/lualib/skynet/datasheet/dump.lua:41-131 | A dump holds its tree, every table under its preorder number, however strings were shared |
| DatasheetDump.Dumper.Intern | skynet_test/skynet/lualib/skynet/datasheet/dump.lua:74-81 | A string has one offset for its whole life and no string already stored moves; the list gains exactly a string that was not in it |
| DatasheetDump.Dumper.DumpTable | skynet_test/skynet/lualib/skynet/datasheet/dump.lua:48-113 | The list of tables grows by exactly the blobs of the tree, the table before its sub-tables; what was encoded before stays encoded, the new table is encoded under its number, and the strings stored are exactly those of its traversal; it fails only for a tree that does not fit |
| DatasheetDump.FitsToMonotone | skynet_test/skynet/lualib/skynet/datasheet/dump.lua:74-81 | What does not fit after some items does not fit after more: an early failure is right |
| DatasheetDump.Dumper.Encode | skynet_test/skynet/lualib/skynet/datasheet/dump.lua:56-85 | A cell's type and word encode the value in the document as it then is, sub-tables included; the word is the one that stands for the value |
| DatasheetDump.Dumper.EncodeArray | skynet_test/skynet/lualib/skynet/datasheet/dump.lua:86-89 | All array cells are encoded, in order, and earlier ones stay so while later sub-tables are dumped |
| DatasheetDump.Dumper.EncodeDict | skynet_test/skynet/lualib/skynet/datasheet/dump.lua:90-100 | The same for keys and values of the dictionary part |
| DatasheetDump.NumberUnique | skynet_test/skynet/lualib/skynet/datasheet/dump.lua:49-51 | Preorder numbers of different tables differ |
| DatasheetDump.NumberCovers | skynet_test/skynet/lualib/skynet/datasheet/dump.lua:49-51 | Every number below the table count belongs to a table: no place-holder is left |
| DatasheetDump.EncodedReads | skynet_test/skynet/lualib/skynet/datasheet/dump.lua:101-111 | The header, type bytes, padding and words of a blob are read back from it at the places the decoder looks |
| DatasheetDump.IndexOf | skynet_test/skynet/lualib/skynet/datasheet/dump.lua:116-121 | The index table holds the offset of every blob; it fails exactly when the file passes 4 GB |
| DatasheetDump.Assemble | skynet_test/skynet/lualib/skynet/datasheet/dump.lua:122-130 | The assembled file has the announced layout |
| DatasheetFile.FileIsReads | skynet_test/skynet/lualib/skynet/datasheet/dump.lua:122-130 | The words of such a file are read back: string offset, table count, every index entry |
| DatasheetFile.FileIsTable | skynet_test/skynet/lualib/skynet/datasheet/dump.lua:140-143 | The blob that an index entry leads to is the table that was written there |
| Datasheet.RepTableUnique | skynet_test/skynet/lualib/skynet/datasheet/dump.lua:139-175 | Bytes hold at most one tree: two trees in one document under the same number are equal |
| Datasheet.RepresentsUnique | skynet_test/skynet/lualib/skynet/datasheet/dump.lua:133-177 | The same for whole files |
| Datasheet.RepTableExtends | skynet_test/skynet/lualib/skynet/datasheet/dump.lua:139-175 | A document that grows by prefixes still holds every tree it held |
| Datasheet.SubRep | skynet_test/skynet/lualib/skynet/datasheet/dump.lua:154-156 | Each sub-table at a path of the tree is in the document under its number |
| Datasheet.RepresentsSuffix | skynet_test/skynet/lualib/skynet/datasheet/builder.lua:13-16 | Bytes after the document (the unique number of the builder) do not change what it holds |
| DatasheetUndump.Decode | skynet_test/skynet/lualib/skynet/datasheet/dump.lua:139-175 | Decoding the table with number n gives the tree that the document holds there, although numbers are in no order |
| DatasheetUndump.DecodeArray | skynet_test/skynet/lualib/skynet/datasheet/dump.lua:164-166 | The array part is decoded in order, the offset ending where the dictionary starts |
| DatasheetUndump.DecodeDict | skynet_test/skynet/lualib/skynet/datasheet/dump.lua:167-172 | Keys and values are decoded in order |
| DatasheetUndump.DecodeValue | skynet_test/skynet/lualib/skynet/datasheet/dump.lua:145-163 | A cell is decoded to the value that the document holds there |
| DatasheetUndump.ReadZ | skynet_test/skynet/lualib/skynet/datasheet/dump.lua:157-159 | A NUL-ended string is read exactly |
| DatasheetUndump.Undump | skynet_test/skynet/lualib/skynet/datasheet/dump.lua:133-177 | Undump of a document is the one tree it holds, with its table numbers |
| DatasheetDiff.RoundTrip | skynet_test/skynet/lualib/skynet/datasheet/dump.lua:41-177 | undump(dump(t)) is t, the tables numbered in preorder |
| DatasheetDiff.Comp | skynet_test/skynet/lualib/skynet/datasheet/dump.lua:183-195 | The map is sound (only pairs at one path) and complete (every path that is a table in both) |
| DatasheetDiff.DiffMap | skynet_test/skynet/lualib/skynet/datasheet/dump.lua:179-198 | The same for two whole files |
| DatasheetDiff.SoundInjective | skynet_test/skynet/lualib/skynet/datasheet/dump.lua:186 | No old number is given to two tables |
| DatasheetDiff.Extend | skynet_test/skynet/lualib/skynet/datasheet/dump.lua:208-214 | New tables get fresh numbers from the old count on, in the order of the dump and without gaps; shared ones keep theirs; all differ |
| DatasheetDiff.Reindex | skynet_test/skynet/lualib/skynet/datasheet/dump.lua:251-257 | Entry m[i] of the new index table is old entry i, every other entry is 0xffffffff |
| DatasheetDiff.RemapBlob | skynet_test/skynet/lualib/skynet/datasheet/dump.lua:218-248 | Exactly the numbers of sub-tables change in a table's bytes, by the map |
| DatasheetDiff.Remap | skynet_test/skynet/lualib/skynet/datasheet/dump.lua:218-248 | The same for a table of the file, also when it has no sub-table |
| DatasheetDiff.RemapRep | skynet_test/skynet/lualib/skynet/datasheet/dump.lua:218-248 | The remapped tables hold the renumbered tree |
| DatasheetDiff.RenumErases | skynet_test/skynet/lualib/skynet/datasheet/dump.lua:216-248 | A renumbering does not change the tree |
| DatasheetDiff.RenumTableAt | skynet_test/skynet/lualib/skynet/datasheet/dump.lua:216-248 | Nor where its tables are; their numbers go through the map |
| DatasheetDiff.DumpMapped | skynet_test/skynet/lualib/skynet/datasheet/dump.lua:218-248 | Every sub-table number in a dump is in the map's domain |
| DatasheetDiff.RebuiltIsDiff | skynet_test/skynet/lualib/skynet/datasheet/dump.lua:249-268 | The rebuilt file is a diff: it holds the new tree, tables at paths of the last version keep their numbers, others get numbers beyond it in the order of the dump, the index table does not shrink, and an entry is 0xffffffff exactly when the new version does not use it |
| DatasheetDiff.Rebuild | skynet_test/skynet/lualib/skynet/datasheet/dump.lua:200-269 | diff after diffmap gives such a file; it fails exactly when the string offset of the file, with the number of tables the map has no entry for, passes 4 GB |
| DatasheetDiff.Diff | skynet_test/skynet/lualib/skynet/datasheet/dump.lua:200-269 | The same for diff as a whole, for every earlier version (a dump or a diff) and every tree: it fails exactly when the file with the tables at new paths does not fit |
| DatasheetDiff.FreshIsMissing | skynet_test/skynet/lualib/skynet/datasheet/dump.lua:183-214 | The tables without an entry in the map are exactly those at paths the last version does not have |
| DatasheetDiff.DiffRoundTrip | skynet_test/skynet/lualib/skynet/datasheet/dump.lua:200-269 | undump(diff(last, dump(t))) is t, and every path that is a table in both versions has its old number |
| DatasheetBuilder.UniqueStrings | skynet_test/skynet/lualib/skynet/datasheet/builder.lua:13-16 | A document with a number appended is never equal to another document with another number |
| DatasheetBuilder.Builder.UniqueString | skynet_test/skynet/lualib/skynet/datasheet/builder.lua:13-16 | The string is in no use |
| DatasheetBuilder.Builder.BeginNew | skynet_test/skynet/lualib/skynet/datasheet/builder.lua:38-41 | Refused exactly for a name in use; else the dump under a string that is in no use |
| DatasheetBuilder.Builder.CommitNew | skynet_test/skynet/lualib/skynet/datasheet/builder.lua:42-46 | The name is filed whatever happened during the call; its history is a chain exactly when the name was still unused |
| DatasheetBuilder.Builder.BeginUpdate | skynet_test/skynet/lualib/skynet/datasheet/builder.lua:48-52 | A diff of the version that is current at the call, holding the new tree; refused exactly for an unknown name or a diff that does not fit |
| DatasheetBuilder.Builder.CommitUpdate | skynet_test/skynet/lualib/skynet/datasheet/builder.lua:53-59 | The version is filed whatever happened during the call; the history stays a chain exactly when it was one and the version captured before the call is still current; fails exactly when that version left the cache |
| DatasheetBuilder.ChainMore | skynet_test/skynet/lualib/skynet/datasheet/builder.lua:48-59 | A chain goes on exactly when the new version was made of the last one |
| DatasheetBuilder.InterleavedUpdates | skynet_test/skynet/lualib/skynet/datasheet/builder.lua:48-59 | Two interleaved updates of one sheet: the table at one path is in all versions and changes its number |
| DatasheetBuilder.InterleavedNews | skynet_test/skynet/lualib/skynet/datasheet/builder.lua:38-46 | Two interleaved calls of new for one name: its history is no chain |
| DatasheetBuilder.Builder.Collect | skynet_test/skynet/lualib/skynet/datasheet/builder.lua:18-28 | A version that is not current leaves the cache |
| DatasheetBuilder.ChainStable | skynet_test/skynet/lualib/skynet/datasheet/builder.lua:48-59 | Over any number of updates, each made of the version before it, a table that stays at its path keeps its number, the root is 0, the index table never shrinks |
| PoolAllocator.RoundUp | sgi_stl_learn/stl_alloc.h:71-74 | The next multiple of 8 |
| PoolAllocator.ListIndex | sgi_stl_learn/stl_alloc.h:84-87 | The list whose blocks are the smallest that fit |
| PoolAllocator.Partition | sgi_stl_learn/stl_alloc.h:163-209 | What the ownership map means: window and blocks are disjoint and cover exactly the bytes obtained |
| PoolAllocator.Allocator.Carve | sgi_stl_learn/stl_alloc.h:170-179 | Bytes are cut from the start of the window; blocks and lists stay |
| PoolAllocator.Allocator.Leftover | sgi_stl_learn/stl_alloc.h:182-186 | The rest of the window always fits one list exactly and goes there |
| PoolAllocator.Allocator.Obtain | sgi_stl_learn/stl_alloc.h:187 | New memory becomes the window; everything owned stays |
| PoolAllocator.Allocator.Search | sgi_stl_learn/stl_alloc.h:188-201 | The first free block of a list for the size or more is found, if there is one |
| PoolAllocator.Allocator.Recover | sgi_stl_learn/stl_alloc.h:192-198 | It leaves its list and becomes the window |
| PoolAllocator.Allocator.Settle | sgi_stl_learn/stl_alloc.h:182-186 | What is left of the window is put in front of the list of its size; the lists that can serve the request stay |
| PoolAllocator.Allocator.Reload | sgi_stl_learn/stl_alloc.h:181-208 | Recovery: the new window is exactly what the first malloc gave, else the first block of the first list for the size or more, else what the second malloc gave; the lists and heap_size are given exactly |
| PoolAllocator.Allocator.ChunkAlloc | sgi_stl_learn/stl_alloc.h:163-209 | It succeeds exactly when the window, either malloc or a free block of the size or more can serve it; the blocks are cut from exactly that memory, as many as it has, up to the count asked for; the recursion ends; heap_size counts the memory obtained |
| PoolAllocator.Allocator.Chain | sgi_stl_learn/stl_alloc.h:148-160 | The blocks after the first are linked in address order into the (empty) list of the size |
| PoolAllocator.Allocator.Refill | sgi_stl_learn/stl_alloc.h:133-161 | The first of the blocks cut, up to 20, is in use and all others are on the list, which was empty; the window is the rest of the memory |
| PoolAllocator.Allocator.Allocate | sgi_stl_learn/stl_alloc.h:97-115 | A block in use of the rounded size, aligned, which was not in use before: the head of the list of its size, or that of a refill; lists, window and heap_size afterwards are given exactly; the blocks in use stay so and no word in them changes |
| PoolAllocator.Allocator.Deallocate | sgi_stl_learn/stl_alloc.h:117-128 | The block is put in front of the list of its size, and nothing else changes; the other blocks in use stay so and no word in them changes |
| PoolAllocator.FirstRefill | sgi_stl_learn/stl_alloc.h:133-209 | In numbers: a fresh allocator asked for 8 bytes asks malloc for 320, cuts 20 blocks and keeps 160 bytes |
| PoolAllocator.LaterRefill | sgi_stl_learn/stl_alloc.h:163-209 | In numbers: later it asks for a sixteenth of heap_size more |
| PoolAllocator.Session | sgi_stl_learn/stl_alloc.h:97-209 | In numbers: requests served from a list, from the window, not at all, from a leftover, and from a longer block |
| PoolAllocator.Allocator.Write | sgi_stl_learn/stl_alloc.h:77-80 | A client that writes inside its block disturbs no list |
| PoolAllocator.Allocator.Accounted | sgi_stl_learn/stl_alloc.h:163-209 | At every reachable state blocks are aligned, disjoint from each other and from the window, and with it cover exactly the heap_size bytes obtained |
| PoolAllocator.Allocator.ListsExact | sgi_stl_learn/stl_alloc.h:82-87 | Each list holds exactly the free blocks of its size, once each |
| SchedulerCore.PlacedOnce | skynet_test/skynet/lualib/skynet.lua:214-309 | Every coroutine that is neither running nor dead is in exactly one of fork_queue, the reuse pool and session_id_coroutine (once); a running or dead one is in none |
| SchedulerCore.TombstonesExact | skynet_test/skynet/lualib/skynet.lua:301 | A "BREAK" entry is exactly a timer still in flight whose sleeper was woken early |
| SchedulerCore.CreatorIdle | skynet_test/skynet/lualib/skynet.lua:249-290 | co_create never takes a coroutine that something else holds |
| SchedulerCore.ForkKeeps | skynet_test/skynet/lualib/skynet.lua:755-768 | fork keeps the placement invariant |
| SchedulerCore.TimeoutKeeps | skynet_test/skynet/lualib/skynet.lua:374-381 | timeout keeps it |
| SchedulerCore.WakeupKeeps | skynet_test/skynet/lualib/skynet.lua:715-720 | wakeup keeps it |
| SchedulerCore.SleepKeeps | skynet_test/skynet/lualib/skynet.lua:383-419 | sleep and wait keep it, also when the token is in use and the coroutine dies with its session registered |
| SchedulerCore.CallKeeps | skynet_test/skynet/lualib/skynet.lua:585-594 | call keeps it |
| SchedulerCore.FinishKeeps | skynet_test/skynet/lualib/skynet.lua:275-277 | A coroutine that ends goes to the pool and nowhere else |
| SchedulerCore.FailKeeps | skynet_test/skynet/lualib/skynet.lua:313-331 | A coroutine that fails is nowhere |
| SchedulerCore.RespondKeeps | skynet_test/skynet/lualib/skynet.lua:781-784 | A response resumes the coroutine that waits for it |
| SchedulerCore.TombstoneKeeps | skynet_test/skynet/lualib/skynet.lua:776-777 | The message of a timer that lost the race removes its tombstone |
| SchedulerCore.StaleKeeps | skynet_test/skynet/lualib/skynet.lua:783-784 | So does the message of a stale session |
| SchedulerCore.WokenKeeps | skynet_test/skynet/lualib/skynet.lua:296-302 | A sleeper that is woken runs, its timer is left as a tombstone |
| SchedulerCore.CallFailsKeeps | skynet_test/skynet/lualib/skynet.lua:214-221 | A failed call returns |
| SchedulerCore.StartedKeeps | skynet_test/skynet/lualib/skynet.lua:843-849 | A forked coroutine starts |
| SchedulerCore.RequestKeeps | skynet_test/skynet/lualib/skynet.lua:802-822 | A request runs in a new or reused coroutine |
| SchedulerCore.EntryAlive | skynet_test/skynet/lualib/skynet.lua:781-784 | The coroutine behind a session that is not stale is suspended at that very session |
| SchedulerCore.SleeperAlive | skynet_test/skynet/lualib/skynet.lua:296-302 | The coroutine behind a token is suspended on that token |
| SchedulerCore.CallerAlive | skynet_test/skynet/lualib/skynet.lua:214-221 | The coroutine of a queued error is suspended in that call |
| SchedulerCore.StaleDead | skynet_test/skynet/lualib/skynet.lua:383-391 | An entry leads to a dead coroutine exactly when its session was registered by a sleep or wait that then failed |
| SchedulerCore.StaleReached | skynet_test/skynet/lualib/skynet.lua:383-391 | A reachable state with such an entry: two coroutines sleep on one token |
| Scheduler.Service.CoCreate | skynet_test/skynet/lualib/skynet.lua:249-290 | The last coroutine of the pool is reused, else a new one is made |
| Scheduler.Service.Fork | skynet_test/skynet/lualib/skynet.lua:755-768 | A created coroutine is appended to fork_queue |
| Scheduler.Service.Timeout | skynet_test/skynet/lualib/skynet.lua:374-381 | The new state |
| Scheduler.Service.Wakeup | skynet_test/skynet/lualib/skynet.lua:715-720 | A token in use is appended to wakeup_queue; the sleeper is owed a run |
| Scheduler.Service.Sleep | skynet_test/skynet/lualib/skynet.lua:383-419 | The new state; false exactly when the token is in use |
| Scheduler.Service.Call | skynet_test/skynet/lualib/skynet.lua:585-609 | The new session is watched for the service and registered for the caller |
| Scheduler.Service.Run | skynet_test/skynet/lualib/skynet.lua:249-290 | Whatever commands a coroutine gives, the invariant holds when it gives the processor back; it is dead then exactly when a command failed, and nobody else dies |
| Scheduler.Service.Leave | skynet_test/skynet/lualib/skynet.lua:313-347 | A command that gives the processor back fails exactly when it is an error or sleeps on a token in use |
| Scheduler.Service.Resume | skynet_test/skynet/lualib/skynet.lua:393-419 | Only a suspended coroutine is resumed; it forgets its token, session or watch first, and is no longer owed a run |
| Scheduler.Service.Suspend | skynet_test/skynet/lualib/skynet.lua:312-347 | After a normal end both queues are drained; after an error a fork is left, so that they will be; it succeeds exactly when that and everything it runs has ended without an error |
| Scheduler.Service.DispatchWakeup | skynet_test/skynet/lualib/skynet.lua:292-309 | Succeeds only with wakeup_queue and error_queue empty; else a fork is left |
| Scheduler.Service.WakeFirst | skynet_test/skynet/lualib/skynet.lua:296-302 | The sleeper of the first token is resumed |
| Scheduler.Service.DispatchErrorQueue | skynet_test/skynet/lualib/skynet.lua:214-221 | The caller of the first failed call is resumed; success means that both queues are empty and nobody has failed |
| Scheduler.Service.ErrorDispatch | skynet_test/skynet/lualib/skynet.lua:223-243 | The error queue holds exactly the calls that wait for the failed session or service, once each |
| Scheduler.Service.RawDispatch | skynet_test/skynet/lualib/skynet.lua:772-832 | Any message, any coroutine behaviour: the invariant is kept; it succeeds exactly when no coroutine has failed, no dead one was resumed and the session was known |
| Scheduler.Service.DispatchResponse | skynet_test/skynet/lualib/skynet.lua:774-785 | The coroutine registered for the session is resumed first; a tombstone's message resumes nobody; a stale session's message, and no other, resumes a dead coroutine |
| Scheduler.Service.StartFork | skynet_test/skynet/lualib/skynet.lua:843-849 | The first of fork_queue is resumed |
| Scheduler.Service.RunForks | skynet_test/skynet/lualib/skynet.lua:836-858 | For every finite script of commands the loop ends, with all queues empty, however many coroutines fail; it succeeds exactly when none has and the message had succeeded |
| Scheduler.Service.DispatchMessage | skynet_test/skynet/lualib/skynet.lua:834-860 | For every finite script of commands it returns, with wakeup, error and fork queues empty and with nobody owed a run; it succeeds exactly when no coroutine has failed meanwhile, no dead one was resumed and the session was known; a dead coroutine is resumed exactly by the message of a stale session; a tombstone's message resumes nobody |
| ResponseCache.PacketRound | skynet_test/skynet/lualib/snax/msgserver.lua:266-275 | A client reads its session and the answer back from the packet |
| ResponseCache.PacketBytes | skynet_test/skynet/lualib/snax/msgserver.lua:252-275 | The bytes of a session, a result and a packet, written out |
| ResponseCache.PackedLimit | skynet_test/skynet/lualib/snax/msgserver.lua:265-297 | A result can be packed exactly when it has at most 65535 bytes |
| ResponseCache.StepInv | skynet_test/skynet/lualib/snax/msgserver.lua:222-297 | Every step of authentication, request, completion and disconnection keeps: completed entries have distinct indices below u.index, u.index is below twice expired_number, an index never lags more than the real age |
| ResponseCache.RetireSlots | skynet_test/skynet/lualib/snax/msgserver.lua:222-241 | Retirement keeps the indices distinct and below the new u.index |
| ResponseCache.CacheBounded | skynet_test/skynet/lualib/snax/msgserver.lua:222-241 | On every run, fewer than twice expired_number completed responses are cached |
| ResponseCache.ResentKept | skynet_test/skynet/lualib/snax/msgserver.lua:243-297 | A retry on another authentication than the last one gets the same packet at once, and the response is as young as a new one |
| ResponseCache.RecentKept | skynet_test/skynet/lualib/snax/msgserver.lua:222-297 | On every run a response is still cached, its packet unchanged, as long as at most expired_number responses were completed or sent again since it was, unless its session is used again on the authentication on which it was |
| ResponseCache.NoSecondCall | skynet_test/skynet/lualib/snax/msgserver.lua:243-288 | While a handler is at work, the next request of its session calls none |
| ResponseCache.RetryCalls | skynet_test/skynet/lualib/snax/msgserver.lua:243-297 | However many requests for the session were served before and after the handler ended: the next one calls the handler again exactly when nobody authenticated since the end or the last retry, or the response has expired since; else it gets the same packet |
| ResponseCache.CalledTwice | skynet_test/skynet/lualib/snax/msgserver.lua:275-277 | A run in which a retry after a reconnection calls the handler a second time, because it ended after the reconnection |
| ResponseCache.ThrownAway | skynet_test/skynet/lualib/snax/msgserver.lua:250-259 | A running entry is thrown away exactly by a request for its session on an open connection while its version is the user's; that request closes its connection |
| ResponseCache.TwoAtOnce | skynet_test/skynet/lualib/snax/msgserver.lua:243-306 | A run with two handlers at work for one session: the third request throws the entry away and closes the connection, a request after the reconnection starts the second handler |
| ResponseCache.StepLogged | skynet_test/skynet/lualib/snax/msgserver.lua:243-297 | Each packet sent is the one result of its entry and goes to the connection that asked last; each handler is called once for its entry |
| ResponseCache.RunLogged | skynet_test/skynet/lualib/snax/msgserver.lua:243-297 | The same on every run |
| ResponseCache.OneResult | skynet_test/skynet/lualib/snax/msgserver.lua:279-296 | All packets sent for one entry are equal |
| ResponseCache.EndSends | skynet_test/skynet/lualib/snax/msgserver.lua:289-296 | The result goes at once to the connection that asked last, if it is open and the result fits |
| MsgServer.User.constructor | skynet_test/skynet/lualib/snax/msgserver.lua:110-119 | A fresh user |
| MsgServer.User.Logout | skynet_test/skynet/lualib/snax/msgserver.lua:99-108 | The connection in u.fd is closed; none is closed exactly when u.fd is erased or its connection gone |
| MsgServer.User.Disconnect | skynet_test/skynet/lualib/snax/msgserver.lua:154-168 | The connection is gone, and u.fd is erased whichever of the user's connections it was |
| MsgServer.User.CloseClient | skynet_test/skynet/lualib/snax/gateserver.lua:25-31 | The connection asks no more, until its end is reported |
| MsgServer.User.DoAuth | skynet_test/skynet/lualib/snax/msgserver.lua:173-196 | Accepted exactly for a known user, a number above the last and a genuine signature; else which refusal, exactly |
| MsgServer.User.RetireResponse | skynet_test/skynet/lualib/snax/msgserver.lua:222-241 | The loop does what the specification says, in any order of the table |
| MsgServer.User.Request | skynet_test/skynet/lualib/snax/msgserver.lua:243-306 | The step of the specification; the handler is called exactly when Calls says so; a message that is too short or comes to a third request closes the connection, and a message on a closed one is dropped |
| MsgServer.User.Deliver | skynet_test/skynet/lualib/snax/msgserver.lua:289-296 | The packet is sent, counted, and old ones are retired |
| MsgServer.User.Finish | skynet_test/skynet/lualib/snax/msgserver.lua:265-306 | The step of the specification; false exactly when the result is too long to pack, and then the connection of its first request is closed |
| ResponseCache.TooLongStuck | skynet_test/skynet/lualib/snax/msgserver.lua:265-306 | After the end of a handler its entry waits with no handler at work exactly when the result was too long to pack |
| ResponseCache.RunStuck | skynet_test/skynet/lualib/snax/msgserver.lua:222-297 | Such an entry waits for ever, on every run |
| Packets.HeaderOfLength | skynet_test/skynet/mytest/gate/databuffer.h:134-141 | Reading a length and writing it are inverse |
| Packets.NetworkOrder | skynet_test/skynet/mytest/gate/databuffer.h:134-141 | The bytes of lengths, written out: the most significant first, four of them signed |
| Packets.ParseMore | skynet_test/skynet/mytest/gate/service_gate.c:320-343 | What was parsed stays parsed when more bytes come; the rest goes on as if all had come at once |
| Packets.ParseRejected | skynet_test/skynet/mytest/gate/service_gate.c:329-334 | After a packet that is too long, later bytes change nothing |
| Packets.FeedSplits | skynet_test/skynet/mytest/gate/service_gate.c:320-343 | However the stream is cut into chunks, the packets and what is left are those of the whole stream |
| Packets.ParseFrames | skynet_test/skynet/mytest/gate/service_gate.c:320-343 | The frames of any packets are parsed back, empty ones skipped, then the rest |
| Packets.ParseExact | skynet_test/skynet/mytest/gate/service_gate.c:320-343 | Any bytes are the frames of the packets found, then exactly what is left, which is no whole frame |
| Packets.PacketsArrive | skynet_test/skynet/mytest/gate/service_gate.c:320-343 | Any packets cut into any chunks arrive as they were sent |
| Packets.TooLong | skynet_test/skynet/mytest/gate/service_gate.c:329-334 | A packet of 16M or more stops the stream exactly when all of it is there |
| Packets.NegativeLength | skynet_test/skynet/mytest/gate/databuffer.h:134-141 | After any packets, a length of 2^31 or more ends the delivery for ever |
| Packets.HandledExact | skynet_test/skynet/mytest/gate/service_gate.c:290-341 | A stream is handled as its packets ask exactly when somebody takes them or no packet that is not empty is there |
| Packets.SkimFrame | skynet_test/skynet/mytest/gate/service_gate.c:290-341 | When nobody takes a packet, only its header leaves the buffer and its bytes are read as headers next |
| Packets.FrameLost | skynet_test/skynet/mytest/gate/service_gate.c:290-341 | So a packet that came too early can cost a later one that somebody would take |
| DataBuffer.ReturnChain | skynet_test/skynet/mytest/gate/databuffer.h:50-64 | The head of a chain goes to the free list; chains stay chains and no other connection is touched |
| DataBuffer.TakeChain | skynet_test/skynet/mytest/gate/databuffer.h:96-98 | The head of the free list is taken |
| DataBuffer.GrowChain | skynet_test/skynet/mytest/gate/databuffer.h:99-113 | A new block of 1023 messages |
| DataBuffer.AttachChain | skynet_test/skynet/mytest/gate/databuffer.h:114-124 | A message is put at the end of a chain |
| DataBuffer.OthersKeep | skynet_test/skynet/mytest/gate/databuffer.h:50-125 | No step on one connection changes another one's bytes |
| DataBuffer.MessageHome | skynet_test/skynet/mytest/gate/databuffer.h:50-125 | Every message of the pool is on the free list or in the chain of exactly one connection, once |
| DataBuffer.Buffers.ReturnMessage | skynet_test/skynet/mytest/gate/databuffer.h:50-64 | The chain is the old one without its head |
| DataBuffer.Buffers.Read | skynet_test/skynet/mytest/gate/databuffer.h:66-91 | Exactly the first sz bytes are returned and taken from the buffer, whatever chunks they are in; every message is afterwards on the free list or in one chain, and those of other connections stay where they were |
| DataBuffer.Buffers.TakeMessage | skynet_test/skynet/mytest/gate/databuffer.h:96-113 | A message that nobody holds; no buffer changes |
| DataBuffer.Buffers.NewBlock | skynet_test/skynet/mytest/gate/databuffer.h:99-112 | The loop links the new block |
| DataBuffer.Buffers.Push | skynet_test/skynet/mytest/gate/databuffer.h:93-125 | The bytes come after those in the buffer, and no message is left in hand |
| DataBuffer.Buffers.ReadHeader | skynet_test/skynet/mytest/gate/databuffer.h:127-146 | The length of the packet to come, -1 exactly when not all of it is there |
| DataBuffer.Buffers.Reset | skynet_test/skynet/mytest/gate/databuffer.h:148-151 | Only the header changes |
| DataBuffer.Buffers.Clear | skynet_test/skynet/mytest/gate/databuffer.h:153-159 | All messages of the chain are on the free list, the buffer is empty, other buffers keep theirs |
| HashId.AndMask | skynet_test/skynet/mytest/gate/hashid.h:54 | `id & hashmod` is the remainder |
| HashId.InsertChains | skynet_test/skynet/mytest/gate/hashid.h:106-111 | Buckets stay acyclic and disjoint chains |
| HashId.InsertSlots | skynet_test/skynet/mytest/gate/hashid.h:104-111 | The map gains exactly the new pair |
| HashId.UnlinkTable | skynet_test/skynet/mytest/gate/hashid.h:66-89 | Unlinking a slot anywhere in a bucket removes exactly its pair |
| HashId.WalkEnd | skynet_test/skynet/mytest/gate/hashid.h:52-64 | A walk that ends has seen every slot of its identifier |
| HashId.ProbeAll | skynet_test/skynet/mytest/gate/hashid.h:94-103 | The probe sequence visits every slot |
| HashId.ContentSize | skynet_test/skynet/mytest/gate/hashid.h:115-118 | The map has as many pairs as slots are used; all are used exactly when it is full |
| HashId.Table.constructor | skynet_test/skynet/mytest/gate/hashid.h:21-39 | An empty map |
| HashId.Table.Lookup | skynet_test/skynet/mytest/gate/hashid.h:52-62 | The slot of the identifier, or -1 |
| HashId.Table.Insert | skynet_test/skynet/mytest/gate/hashid.h:91-113 | The map with the new pair; the slot is the first free one of the probe sequence, no other slot moves, and both asserts hold whenever it is not full |
| HashId.Table.FindFree | skynet_test/skynet/mytest/gate/hashid.h:94-105 | A free slot whose next is NULL |
| HashId.Table.Remove | skynet_test/skynet/mytest/gate/hashid.h:64-89 | The map without the identifier; its slot, free again with next NULL, or -1 |
| HashId.Table.FindBefore | skynet_test/skynet/mytest/gate/hashid.h:65-83 | The slot and the one before it in its bucket |
| HashId.Table.Full | skynet_test/skynet/mytest/gate/hashid.h:115-118 | True exactly when as many identifiers as slots are in the map |
| Gate.Service.constructor | skynet_test/skynet/mytest/gate/service_gate.c:482-492 | No connections |
| Gate.Service.Forward | skynet_test/skynet/mytest/gate/service_gate.c:290-318 | The next bytes go to the broker, else to the connection's agent as from its client, else to the watchdog with the identifier; with none of them nothing is read |
| Gate.RouteTo | skynet_test/skynet/mytest/gate/service_gate.c:290-318 | The same of all packets of a message |
| Gate.Service.DispatchMessage | skynet_test/skynet/mytest/gate/service_gate.c:320-343 | The packets of the old bytes and the new ones are forwarded in order; the buffer holds exactly the unparsed rest; a packet that is too long closes the socket; with nobody to take them, only headers leave the buffer |
| Gate.ParsingStep | skynet_test/skynet/mytest/gate/service_gate.c:323-342 | One turn of the loop is one step of the parse |
| Gate.Service.Data | skynet_test/skynet/mytest/gate/service_gate.c:353-365 | For a known identifier that, and nothing else changes; an unknown socket is closed |
| Gate.Service.Accept | skynet_test/skynet/mytest/gate/service_gate.c:403-420 | A new connection with an empty buffer, or a closed socket when full |
| Gate.Service.Connect | skynet_test/skynet/mytest/gate/service_gate.c:200-229 | The same for an outgoing connection, which gets an agent but no identifier in its slot |
| Gate.Service.Close | skynet_test/skynet/mytest/gate/service_gate.c:388-402 | Exactly the connection goes; its slot is vacant with an empty buffer |
| Gate.Service.ForwardAgent | skynet_test/skynet/mytest/gate/service_gate.c:89-98 | Only the connection's agent and client change |
| Gate.Service.SetBroker | skynet_test/skynet/mytest/gate/service_gate.c:179-183 | Only the broker changes |
| Gate.NextTo | skynet_test/skynet/mytest/gate/service_gate.c:290-365 | On any run a packet goes to the broker there is when it arrives, else to the agent the connection has then, as from its client, else to the watchdog |
| Gate.Interleaved | skynet_test/skynet/mytest/gate/service_gate.c:345-425 | However events of all connections and commands are mixed, of a connection that was not refused, stays open and whose packets somebody takes, exactly the packets of its own bytes are forwarded |
| Gate.ClientsArrive | skynet_test/skynet/mytest/gate/service_gate.c:345-425 | So whatever packets a client sends are forwarded in order and unchanged |
| Gate.PlayOne | skynet_test/skynet/mytest/gate/service_gate.c:345-425 | Each accept, connect, forward and broker command, close or piece of data does to the gate what the specification of runs says, a full table included |
| Gate.Play | skynet_test/skynet/mytest/gate/service_gate.c:345-425 | Any run of a gate, with or without broker, agents and watchdog, forwards and keeps exactly what the specification of runs says |
| HttpChunked.ToNumberHex | skynet_test/skynet/lualib/http/httpd.lua:135 | The hexadecimal size is read back |
| HttpChunked.DigitCases | skynet_test/skynet/lualib/http/internal.lua:12 | Letters are digits in both cases |
| HttpChunked.EncodedBytes | skynet_test/skynet/lualib/http/httpd.lua:129-142 | The bytes of a body of one chunk, written out |
| HttpChunked.DecodeEncode | skynet_test/skynet/lualib/http/httpd.lua:129-142 | Decoding what writeall wrote gives the concatenation of the chunks (refused exactly when it passes the limit) and leaves what follows the last size line |
| HttpChunked.Transport.Read | skynet_test/skynet/lualib/http/internal.lua:18 | Some bytes that have arrived: any piece |
| HttpChunked.ChunkSize | skynet_test/skynet/lualib/http/internal.lua:8-20 | The size line is found however the bytes arrive; without any line end, nil after more than 128 bytes, else a broken connection |
| HttpChunked.NotBefore | skynet_test/skynet/lualib/http/internal.lua:14-17 | A line that is refused for its length was longer than 128 bytes |
| HttpChunked.LineLimits | skynet_test/skynet/lualib/http/internal.lua:8-20 | Which lines are refused for their length: without an end, more than 128 bytes; with one, those that may be |
| HttpChunked.ReadCrLn | skynet_test/skynet/lualib/http/internal.lua:22-35 | CR LF is taken, anything else refused |
| HttpChunked.ReadChunk | skynet_test/skynet/lualib/http/internal.lua:120-130 | A chunk and its CR LF, as the specification reads them |
| HttpChunked.SplitLines | skynet_test/skynet/lualib/http/internal.lua:64-69 | Header lines are split as they were joined |
| HttpChunked.LinesBlank | skynet_test/skynet/lualib/http/internal.lua:44-62 | A header has an empty line at its end only, and does not begin with one |
| HttpChunked.SearchTail | skynet_test/skynet/lualib/http/internal.lua:51 | Searching the new bytes and the three before them finds every new empty line |
| HttpChunked.RecvHeader | skynet_test/skynet/lualib/http/internal.lua:37-71 | The lines of any header of up to 8192 bytes, however the bytes arrive and whatever follows it; what follows is kept, but for an empty header of which fewer than two bytes were there; nil only beyond 8192 bytes, a broken connection only without a header |
| HttpChunked.RecvChunkedBody | skynet_test/skynet/lualib/http/internal.lua:103-142 | The decoded body and the trailer lines, nil, or a broken connection, as the specification says, for any fragmentation |
| HttpChunked.ChunkStream.Next | skynet_test/skynet/lualib/http/internal.lua:299-343 | One call gives the next piece of what the specification decodes, or its end: the last chunk, nil, or a broken connection |
| HttpChunked.ReadPieces | skynet_test/skynet/lualib/http/internal.lua:299-343 | The pieces concatenate to the decoded body; a refused or broken body ends with nil or the error |
| HttpChunked.SendAndReceive | skynet_test/skynet/lualib/http/httpd.lua:129-142 | What writeall writes is received, whole or in pieces, for any chunks and any fragmentation |
| HttpChunked.RecvBody | skynet_test/skynet/lualib/http/internal.lua:144-152 | Exactly content-length bytes, or a broken connection |
| HttpChunked.LengthStream.Next | skynet_test/skynet/lualib/http/internal.lua:250-277 | Each piece is the next part of the bytes to come |
| HttpChunked.ReadLength | skynet_test/skynet/lualib/http/internal.lua:250-277 | The pieces concatenate to the first content-length bytes (or all there are) |
| HttpChunked.TakeIs | skynet_test/skynet/lualib/http/internal.lua:250-277 | The first bytes of the stream, so many or all there are |
| WebSocket.MaskedTwice | skynet_test/skynet/lualib/http/websocket.lua:198-202 | Masking twice with one key is the identity |
| WebSocket.ReadFrameBack | skynet_test/skynet/lualib/http/websocket.lua:180-249 | read_frame undoes write_frame for every opcode, length class and mask; a server refuses exactly the payloads above the limit |
| WebSocket.FrameExamples | skynet_test/skynet/lualib/http/websocket.lua:180-203 | The examples of section 5.7 of RFC 6455, byte by byte |
| WebSocket.LongHeaders | skynet_test/skynet/lualib/http/websocket.lua:188-194 | The headers of 256 and of 65536 bytes, byte by byte |
| WebSocket.ServeLoop | skynet_test/skynet/lualib/http/websocket.lua:266-304 | The loop with recv_buf, recv_count and first_op does what the specification says, for all bytes |
| WebSocket.CloseServed | skynet_test/skynet/lualib/http/websocket.lua:272-278 | A close frame, whatever came before it, is answered by an empty one and ends the loop |
| WebSocket.PingServed | skynet_test/skynet/lualib/http/websocket.lua:279-284 | A ping is answered by a pong with its payload, a pong by nothing, also between the parts of a message |
| WebSocket.MessageServed | skynet_test/skynet/lualib/http/websocket.lua:266-304 | A message in any number of frames with pings and pongs between them is delivered once, whole, with its first opcode; each ping is answered |
| WebSocket.MessageRefused | skynet_test/skynet/lualib/http/websocket.lua:289-293 | A message above the limit is never delivered |
| WebSocket.ConversationServed | skynet_test/skynet/lualib/http/websocket.lua:266-304 | Messages are served one after the other |
| WebSocket.ConversationMessages | skynet_test/skynet/lualib/http/websocket.lua:266-304 | Exactly the messages that were sent are delivered, in order |
| WebSocket.ClientRead | skynet_test/skynet/lualib/http/websocket.lua:459-482 | M.read does what the specification says, for all bytes |
| WebSocket.CloseRead | skynet_test/skynet/lualib/http/websocket.lua:464-467 | A close frame, whatever came before it, ends the read with its payload |
| WebSocket.PingRead | skynet_test/skynet/lualib/http/websocket.lua:468-470 | A ping is answered by a pong with its payload, a pong by nothing |
| WebSocket.MessageRead | skynet_test/skynet/lualib/http/websocket.lua:459-482 | One read takes one message of any size off the stream and answers its pings |
| WebSocket.ConversationRead | skynet_test/skynet/lualib/http/websocket.lua:459-482 | Repeated reads give the payloads in order |
| WebSocket.CloseArrives | skynet_test/skynet/lualib/http/websocket.lua:210-218 | A close code reaches the peer exactly when a reason comes with it |
| WebSocket.HugeLength | skynet_test/skynet/lualib/http/websocket.lua:228-249 | A length of 2^63 or more passes the limit and reads no payload |
| ShareTable.LoadedInv | skynet_test/skynet/lualib/skynet/sharetable.lua:17-50 | A successful load keeps: open versions are exactly the current ones and those in use, counts are the numbers of clients, clients and references are inverse, nothing is closed twice |
| ShareTable.LoadedCurrent | skynet_test/skynet/lualib/skynet/sharetable.lua:17-35 | After a load the new version is current and open, and the one before is closed exactly when nobody uses it |
| ShareTable.FailedLoad | skynet_test/skynet/lualib/skynet/sharetable.lua:29-50 | A failed load keeps that exactly when the file was new or its version is in use |
| ShareTable.ClosedTwice | skynet_test/skynet/lualib/skynet/sharetable.lua:17-50 | A load, a failed load and a load: the file names a closed version in between, and that one is closed twice |
| ShareTable.QueriedInv | skynet_test/skynet/lualib/skynet/sharetable.lua:59-83 | A query keeps it, and the client then uses the version |
| ShareTable.ReleasedLeaving | skynet_test/skynet/lualib/skynet/sharetable.lua:122-136 | Each turn of the loop of close keeps it for what is left of the list |
| ShareTable.Safety | skynet_test/skynet/lualib/skynet/sharetable.lua:17-140 | A version in use is open, no version is closed twice, a count is the number of its clients |
| ShareTable.Service.CloseMatrix | skynet_test/skynet/lualib/skynet/sharetable.lua:17-27 | The version is closed unless it is in use |
| ShareTable.Service.Load | skynet_test/skynet/lualib/skynet/sharetable.lua:29-58 | The new version is current; with the exact condition for failures |
| ShareTable.Service.Query | skynet_test/skynet/lualib/skynet/sharetable.lua:85-93 | The address of the current version, which is open and used by the client |
| ShareTable.Service.Close | skynet_test/skynet/lualib/skynet/sharetable.lua:119-140 | The client uses nothing any more, other clients are not affected |
| Crc16.PolyIsX16 | skynet_test/skynet/lualib/skynet/db/redis/crc16.lua:10 | x^16 is 0x1021 modulo the polynomial |
| Crc16.CrcDirect | skynet_test/skynet/lualib/skynet/db/redis/crc16.lua:55-61 | The remainder of the message times x^16 without appending zeros |
| Crc16.DirectByte | skynet_test/skynet/lualib/skynet/db/redis/crc16.lua:59 | Eight coefficients at a time |
| Crc16Table.TableOk | skynet_test/skynet/lualib/skynet/db/redis/crc16.lua:20-53 | Each of the 256 entries is the remainder of its index times x^16 |
| Crc16Table.ByteStep | skynet_test/skynet/lualib/skynet/db/redis/crc16.lua:59 | One turn of the loop divides by one more byte |
| Crc16Table.Checksum | skynet_test/skynet/lualib/skynet/db/redis/crc16.lua:55-62 | The loop computes the remainder of the long division for every byte string |
| Crc16Table.CheckValue | skynet_test/skynet/lualib/skynet/db/redis/crc16.lua:55-62 | The checksum of "123456789" is 0x31C3, and its slot 12739 |
| Crc16Table.KeySlot | skynet_test/skynet/lualib/skynet/db/redis/cluster.lua:145-158 | The slot of the hashed part, below 16384 |
| Crc16Table.TagHashed | skynet_test/skynet/lualib/skynet/db/redis/cluster.lua:150-156 | A key with a first tag that is not empty is hashed by that tag |
| Crc16Table.WholeHashed | skynet_test/skynet/lualib/skynet/db/redis/cluster.lua:150-156 | Any other key is hashed as a whole |
| Crc16Table.SameSlot | skynet_test/skynet/lualib/skynet/db/redis/cluster.lua:145-158 | Any two keys with the same first tag, not empty, have the same slot |
| ClusterSender.Node.Send | skynet_test/skynet/lualib/skynet/cluster.lua:68-76 | The message is next in issue order: at once, or in the queue |
| ClusterSender.Node.Call | skynet_test/skynet/lualib/skynet/cluster.lua:58-66 | The same for a call |
| ClusterSender.Node.Resolved | skynet_test/skynet/lualib/skynet/cluster.lua:12-34 | What is handed on then goes to the sender found, in order, up to the first caller |
| ClusterSender.Node.CallerRuns | skynet_test/skynet/lualib/skynet/cluster.lua:47-54 | A woken caller hands on its own request |
| ClusterSender.Node.ConfirmRuns | skynet_test/skynet/lualib/skynet/cluster.lua:28-30 | The drain goes on after it |
| ClusterSender.Node.Drain | skynet_test/skynet/lualib/skynet/cluster.lua:22-33 | Items added meanwhile are drained too; at its end nothing is left |
| ClusterSender.InOrder | skynet_test/skynet/lualib/skynet/cluster.lua:12-76 | Over every interleaving calls and sends are handed on once each, in the order in which they were issued |
| OrderChannel.StepOwn | skynet_test/skynet/lualib/skynet/socketchannel.lua:58-212 | Every step, whatever was left behind, keeps the queues aligned, each response function beside the coroutine that asked with it, nobody waiting twice, and every outcome there is |
| OrderChannel.OwnOutcome | skynet_test/skynet/lualib/skynet/socketchannel.lua:58-212 | On every run each coroutine that asked waits, once and beside its own response function, or has one outcome: what that function has read, or socket_error |
| OrderChannel.StepInv | skynet_test/skynet/lualib/skynet/socketchannel.lua:58-212 | Each step keeps the queues in the order of the responses to come, exactly unless the dispatch thread ends with the connection gone and entries left, or a failed write wakes those who wait on a new connection |
| OrderChannel.OneOutcome | skynet_test/skynet/lualib/skynet/socketchannel.lua:58-212 | On every run an outcome is final |
| OrderChannel.StepSettles | skynet_test/skynet/lualib/skynet/socketchannel.lua:58-212 | Exactly which steps end the wait of a coroutine, and with what: its response function is done, or socket_error |
| OrderChannel.RunSettled | skynet_test/skynet/lualib/skynet/socketchannel.lua:58-212 | On every run a coroutine has an outcome exactly when such a step was taken while it waited, and it is what that step gives |
| OrderChannel.RunPaired | skynet_test/skynet/lualib/skynet/socketchannel.lua:58-212 | On every run without those steps each coroutine waits, has the response to its own request, or an error |
| OrderChannel.NoneSwept | skynet_test/skynet/lualib/skynet/socketchannel.lua:480-484 | The second of them needs a connection that is made while a failed write is still closing the old one |
| OrderChannel.AnsweredInv | skynet_test/skynet/lualib/skynet/socketchannel.lua:191-199 | A response goes to the coroutine that asked for it; the exact condition under which the dispatch thread then leaves nobody behind |
| OrderChannel.BusyFails | skynet_test/skynet/lualib/skynet/socketchannel.lua:200-210 | A failed response ends everybody's wait with an error |
| OrderChannel.Mispaired | skynet_test/skynet/lualib/skynet/socketchannel.lua:176 | A run in which entries are left behind and a coroutine gets the response to another one's request |
| OrderChannel.Deserted | skynet_test/skynet/lualib/skynet/socketchannel.lua:176-182 | A run in which a close signal is left behind and a new request waits with no dispatch thread |
| OrderChannel.Swept | skynet_test/skynet/lualib/skynet/socketchannel.lua:480-484 | A run in which a failed write wakes a request on a new connection, and another coroutine gets the response to it |
| OrderChannel.Channel.WakeupAll | skynet_test/skynet/lualib/skynet/socketchannel.lua:58-80 | The loop gives socket_error to exactly those who wait |
| OrderChannel.Channel.PushResponse | skynet_test/skynet/lualib/skynet/socketchannel.lua:141-154 | Both queues gain the entry |
| OrderChannel.Channel.TermDispatchThread | skynet_test/skynet/lualib/skynet/socketchannel.lua:225-230 | A close signal is queued when there is a dispatch thread |
| OrderChannel.Channel.CloseSocket | skynet_test/skynet/lualib/skynet/socketchannel.lua:49-56 | The connection is given up, and nothing else changes |
| OrderChannel.Channel.SockErr | skynet_test/skynet/lualib/skynet/socketchannel.lua:480-481 | The connection is given up, and the coroutine closes it while others run |
| OrderChannel.Channel.SockErrEnds | skynet_test/skynet/lualib/skynet/socketchannel.lua:482-483 | Then everybody who waits by that time is told; the exact condition under which that pairs later responses wrongly |
| OrderChannel.Channel.ConnectOnce | skynet_test/skynet/lualib/skynet/socketchannel.lua:317-330 | A new connection and dispatch thread, once the old one is gone |
| OrderChannel.Channel.PopResponse | skynet_test/skynet/lualib/skynet/socketchannel.lua:120-190 | One entry: a close signal, a lost connection, or a response to read |
| OrderChannel.Channel.Run | skynet_test/skynet/lualib/skynet/socketchannel.lua:175-190 | The dispatch thread starts or goes on; the exact condition under which it leaves nobody behind |
| OrderChannel.Channel.Response | skynet_test/skynet/lualib/skynet/socketchannel.lua:191-211 | The end of a response function |
| SessionChannel.StepInv | skynet_test/skynet/lualib/skynet/socketchannel.lua:82-118 | Each step keeps that everybody waits under its session or has its outcome; outcomes stay |
| SessionChannel.StepAttended | skynet_test/skynet/lualib/skynet/socketchannel.lua:82-118 | Sessions lose their dispatch thread exactly when the connection was given up during a response that succeeds (or before the thread started) and others wait |
| SessionChannel.SessionAbandoned | skynet_test/skynet/lualib/skynet/socketchannel.lua:85-118 | A run in which that happens |
| SessionChannel.RunPaired | skynet_test/skynet/lualib/skynet/socketchannel.lua:82-118 | On every run an outcome is an error or exactly the data of the coroutine's own session |
| SessionChannel.StepSettles | skynet_test/skynet/lualib/skynet/socketchannel.lua:82-118 | A step ends the wait of a coroutine exactly when it reads the final response of its session, fails to read, or is the wake-up after a failed write; the outcome is then the data of all parts, the refusal, or socket_error |
| SessionChannel.RunSettled | skynet_test/skynet/lualib/skynet/socketchannel.lua:82-118 | On every run a coroutine has an outcome exactly when such a step was taken while it waited, and it is what that step gives |
| SessionChannel.ReceivedInv | skynet_test/skynet/lualib/skynet/socketchannel.lua:86-108 | A response, whole or a part, reaches only its session |
| SessionChannel.BrokenInv | skynet_test/skynet/lualib/skynet/socketchannel.lua:58-65 | After an error everybody who waited has socket_error |
| SessionChannel.Channel.Dispatch | skynet_test/skynet/lualib/skynet/socketchannel.lua:85-117 | One turn of dispatch_by_session: who waits gets an outcome exactly when it is due, and the one that is due |
| SessionChannel.Channel.SockErr | skynet_test/skynet/lualib/skynet/socketchannel.lua:480-481 | The connection is given up, and the coroutine closes it while others run |
| SessionChannel.Channel.SockErrEnds | skynet_test/skynet/lualib/skynet/socketchannel.lua:482-483 | Then everybody who waits gets socket_error |
| SessionChannel.Channel.WakeupAll | skynet_test/skynet/lualib/skynet/socketchannel.lua:58-65 | The loop over the waiting sessions |
| SessionChannel.Channel.PushResponse | skynet_test/skynet/lualib/skynet/socketchannel.lua:141-145 | The coroutine waits under its session |

## Left out

- Datasheet values: integers of 32 bits, booleans, strings without NUL, nested tables with a contiguous array part and string keys; a float is an opaque word; tables with other keys are refused by the source and are outside the model's trees. The order of `pairs` is the order of the model's key list.
- Datasheet files with very many tables: Lua limits how many results `string.unpack` and `table.unpack` may give, so that `undump` and `diff` raise for them.
- DatasheetUndump.Undump: says what it returns for documents only; bytes that are no document are not modelled.
- DatasheetBuilder: a diff whose offsets pass 32 bits is a refusal here, where `string.pack` raises; the datasheet service, handles and the monitor coroutine are not modelled. Whatever happens during a call of the service is what other operations of the builder do.
- Scheduler: `killthread`, `request`/`select`, `exit`, "USER" yields, tracing, responses and their addresses, coroutines that catch the duplicate-token error, and the collection of pooled coroutines by the Lua collector. Session numbers do not wrap around. A coroutine gives finitely many commands: one that forks for ever keeps `dispatch_message` at work for ever.
- PoolAllocator: `reallocate`, sizes above 128 bytes, overflow of `size_t`, the malloc handler; a request has n > 0.
- ResponseCache.CacheBounded: counts completed responses only; an entry whose handler never ends, or whose result cannot be packed, is never retired by the source.
- MsgServer: one user at a time; others share only the connection table, and connection identifiers are not used again. The handshake table, the text of messages and the hash are reduced to whether the signature is genuine. Authentication numbers are integers.
- DataBuffer: `size` and `offset` are unbounded integers; freeing the pool at the gate's end is not modelled.
- HashId: identifiers are not negative and an inserted one is not in the table, as the C code needs.
- Gate.Service.Connect: `skynet_socket_connect` gives a socket; when it fails the source inserts -1 unchecked, and the table is then indexed with a negative number.
- Gate: the name of a broker is resolved outside; the watchdog's text prefix, reports, the text commands and the listening socket are left out. A length of 2^31 or more overflows a signed shift, which C does not define; the model takes two's complement.
- HttpChunked.ChunkSize: `tonumber` takes hexadecimal digits only here (Lua also accepts blanks, a sign and sizes that wrap at 64 bits), and a size line of 128 bytes or more may be refused or not, as in the source.
- HttpChunked.RecvHeader: which headers of more than 8192 bytes are refused, and whether bytes after an empty header of which fewer than two bytes were there at the call are kept (the code looks for an empty line before it looks for CR LF at the start), depends on the fragmentation and is not said. `parseheader` and `stream_all` are left out.
- WebSocket: handshakes, handlers that close the socket, and TLS are left out; reads of exact sizes make the fragmentation of the transport irrelevant.
- ShareTable: `queryall` (a loop of queries), `info`, and the use of a matrix after a failed load; the client side and `resolve_replace` are not modelled.
- OrderChannel: authentication during the connection, backup hosts, overload warnings and the connecting queue; a connection is one step once there is no dispatch thread. `socket.close` takes a while in `sock_err` only; elsewhere nothing follows it, or nothing that another step could not do before.
- SessionChannel: sessions are not used twice, a coroutine waits for one response at a time, and the connection steps are those of OrderChannel.
- ClusterSender: one node, since nodes share nothing; the service that looks senders up is a parameter.
- Crc16Table.KeySlot: the other methods of the cluster client are left out.
- Database clients, login handshakes, the debug console, JSON, protocol buffers, the binary search tree, the lists and the unfinished dictionary of the learning directories: plumbing, textbook code or code without a contract.
