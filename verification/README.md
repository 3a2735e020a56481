# A verified model of mod_tile and renderd

This project models the request service of renderd, the storage of metatiles, the tools that
feed the daemon, and the parts of the Apache module that talk to it, and proves what they
promise one another. `dafny verify dfyconfig.toml` checks all of it.

The hardest part is renderd's request queue. It is modelled three times, and the models are
tied together:

* `QueueSpec.dfy` is the queue as a value: six lists of item names, a record per live item, the
  statistics, and what each operation does to them; `Admission.dfy` says in terms of the lists
  alone where a request goes and what its answers are.
* `Rings.dfy`, `HashIndex.dfy` and `RequestQueue.dfy` are the queue as the daemon holds it:
  circular doubly-linked lists, hash buckets whose first cell lives in the table, duplicate chains
  threaded through the items, counters. Every method is proved to do to the abstract state
  exactly what `QueueSpec` says.
* `Daemon.dfy`, `DaemonSteps.dfy`, `DaemonRuns.dfy` and `DaemonAnswers.dfy` are the whole daemon as
  a system of atomic steps: the poll loop accepts, receives and notices disconnects while any
  number of render threads fetch, render, take the item off the queue, and answer its chain one
  send at a time. The steps use the same functions of `QueueSpec`. A ledger records what became of
  every request ever received; the theorems hold for all interleavings of all lengths.

Around it, over the shared `Protocol.dfy`, `Bytes.dfy`, `Seqs.dfy` and `Arith.dfy`:

* `Scheduling.dfy`: what the order of the five classes guarantees a waiting request.
* `ConnTable.dfy`: the poll loop's table of connections.
* `SubmitQueue.dfy`: the bounded queue between a rendering tool and its worker threads, as a
  monitor with two condition variables, plus the linked list underneath.
* `Expire.dfy`: render_expired's walk up the zoom levels and its early exit.
* `Metatile.dfy`, `TilePath.dfy` and `Store.dfy`: the metatile file, its path, and the store made of
  both, written by the daemon and read by the module.
* `DelayPool.dfy`: the module's token buckets, with the lock released while a client is made to
  wait.
* `Framing.dfy`: commands on the wire, and the module's reassembly of a reply.
* `Routing.dfy`: base URIs, the loader's check of them, and the choice of a layer.

Properties that turned out not to hold as one might expect have a lemma with the input that
shows it, and a lemma that says exactly when they do hold:

* A reply reaches its own connection exactly if that is still open at the send
  (`DeliveredExactlyWhileOpen`); if it closes after the item has left the queue and the
  descriptor is reused, the newcomer gets the reply (`MisdirectedReply`).
* Fields that a protocol version lacks arrive as zeros exactly if the version is not 2 or the
  first three bytes of the mimetype are zero (`MissingFieldsZeroExactly`,
  `MimetypeLeaksIntoVersion2`); the daemon is not misled by it (`UpgradeUndoesTheCut`).
* A command is accepted exactly if it is complete, or is one of version 3 of which as much has
  arrived as one of version 2 has (`AcceptedExactly`); exactly then the stream is out of step
  afterwards (`AcceptedWholeExactly`, `CutCommandIsAccepted`).
* render_expired's early exit deals with the full expansion exactly if the packed keys tell its
  metatiles apart (`EarlyExitIsRightExactly`), so whenever the metatile of every line has 24-bit
  coordinates (`EarlyExitIsFullExpansion`), as it has for every tile on the grid (`GridFits`). Two
  lines for which it does not: `EarlyExitCanMissAMetatile`.
* render_expired starts workers it cannot need exactly if one threshold covers all levels and the
  other does not, or if it starts them with no level to walk (`IdleWorkersExactly`,
  `IdleBetweenThresholds`, `IdleBelowTheRaisedMinimum`).
* The path returned in a buffer, with the place, identifies a tile exactly if the path leaves a
  byte to spare besides its end (`PrintedPathIdentifiesExactly`). One that just fits may be another
  that was cut (`CutPathCollides`), and in a buffer that the directory fills all tiles are alike
  (`CutPathTellsNothing`).
* A request that is turned away may have been charged (`TurnedAwayStillPays`). A failing round takes
  a token exactly if it finds one kind and lacks the other (`RoundCharges`), and over any run these
  and the passes account for every token (`TokensAccountedFor`).
* The module uses the very URI that the loader checked exactly if its slash was not lost when it
  was cut to the longest path (`SameUriExactly`), as it is from a setting of 4096 characters without
  one (`SlashLostInTheCut`).
* A generated path parses back exactly if the map's name has at most 40 characters
  (`PathReadsBackExactly`).
* Removing an item leaves the counters right exactly if it was on the render list
  (`RemoveRequest`, `RemovedUnfetched`).

Where code and documentation disagree the model follows the code. `includes/protocol.h:32`
promises no response to cmdDirty; the daemon answers NotDone to one that it puts on the dirty
list, and so does the model.

## Model

| member | source | states |
|---|---|---|
| Protocol.Corner | src/renderd.c:158-163 | rounding down to the metatile gives the one multiple of 8 within 8 below the coordinate, also for negative ones |
| Protocol.KeyTellsMetatile | src/request_queue.c:31-42 | two requests have the same key if and only if map, zoom and both corners agree |
| Rings.Item.constructor | src/renderd.c:147-163 | a new item has no duplicates, and no descriptor if it is a dirty request |
| Rings.Append | src/request_queue.c:346-350 | the circle afterwards is the old list with the item at its tail |
| Rings.PushFront | src/request_queue.c:203-208 | the circle afterwards is the old list with the item in front |
| Rings.Unlink | src/request_queue.c:412-413 | the circle afterwards is the old list without its k-th item |
| Rings.MoveFront | src/request_queue.c:199-208 | moving an item between two of several disjoint circles keeps all of them well-formed |
| HashIndex.Index.constructor | src/request_queue.c:498-510 | 2213 empty buckets |
| HashIndex.CalcHashKey | src/request_queue.c:31-42 | the loop computes the bucket as a function of the metatile alone, in 64-bit wrap-around arithmetic |
| HashIndex.Index.Lookup | src/request_queue.c:44-68 | finds an entry with the item's metatile in its bucket, or there is none |
| HashIndex.Index.Insert | src/request_queue.c:70-93 | the item's bucket gains it at the end, no other bucket changes |
| HashIndex.Index.Remove | src/request_queue.c:95-142 | takes exactly the first entry with that metatile out of its bucket, or changes nothing if there is none |
| HashIndex.Index.CutOut | src/request_queue.c:117-134 | removing head (by copying the second cell over it), middle or last cell leaves the other entries in order |
| QueueSpec.FindIsExact | src/request_queue.c:144-165 | a scan of all six lists finds a listed item if and only if it is the one asking for that metatile |
| QueueSpec.AddKeepsInv | src/request_queue.c:281-367 | adding keeps lists, chains, uniqueness per metatile, limits and the rule that dirty items have no descriptor and no duplicates |
| QueueSpec.FetchKeepsInv | src/request_queue.c:167-214 | fetching keeps all of that |
| QueueSpec.RemoveKeepsInv | src/request_queue.c:369-416 | removing an item with its duplicates keeps all of that |
| QueueSpec.ClearKeepsInv | src/request_queue.c:219-279 | forgetting a descriptor keeps all of that |
| Admission.ListedByCommand | src/request_queue.c:311-367 | a request for a metatile nobody wants is put at the tail of the list for RenderPrio, Render, RenderLow or RenderBulk as its command says, below 256 there; else, or for Dirty, on the dirty list below 8000; else it is dropped and counted; and NotDone is answered in exactly the latter two cases |
| Admission.JoinsOrIsRefused | src/request_queue.c:144-165 | a request for a metatile some listed item asks for is refused by one on the dirty or bulk list, and becomes the first duplicate of any other, with all else unchanged |
| Admission.MetatilesAgree | src/request_queue.c:153-160 | a duplicate asks for the map, zoom and corners of the item it hangs on; no two listed items ask for the same |
| Admission.TimeIsBooked | src/request_queue.c:377-410 | a positive time goes once to the class the item was listed in and once to its zoom level, and nowhere else |
| Admission.RepliesAnswerAll | src/renderd.c:104-118 | one message for each item of a chain that somebody waits for, in order, to its own descriptor, with its own request and the given response |
| QueueHeap.LookupIsScan | src/request_queue.c:44-68 | what the hashed lookup returns is what the scan of all lists returns |
| QueueHeap.RequestQueue.constructor | src/request_queue.c:459-512 | six empty circles and an empty index represent the empty queue |
| QueueHeap.RequestQueue.TakeNext | src/request_queue.c:173-197 | picks the front item of the first non-empty class in order of urgency, or none if all are empty, and counts it off |
| QueueHeap.RequestQueue.Advance | src/request_queue.c:199-209 | relinking the item keeps circles, marks, chains and index in agreement with the abstract move |
| QueueHeap.RequestQueue.FetchRequest | src/request_queue.c:167-214 | moves the front item of the most urgent non-empty class to the front of the render list, as the abstract fetch does, and keeps circles, index, chains and counters in agreement |
| QueueHeap.RequestQueue.Pending | src/request_queue.c:144-165 | joins, refuses or reports a new request as the abstract decision says |
| QueueHeap.RequestQueue.JoinTo | src/request_queue.c:155-157 | the item becomes the first duplicate of the listed one, and no other chain changes |
| QueueHeap.RequestQueue.Choose | src/request_queue.c:311-344 | each of the five lists is chosen if and only if the command asks for it and it has room, the dirty one if and only if no other is and it has room, with the counter adjusted |
| QueueHeap.RequestQueue.Enlist | src/request_queue.c:311-356 | a new item goes to the tail of its class and into the index, losing its descriptor on the dirty list |
| QueueHeap.RequestQueue.ListNew | src/request_queue.c:311-367 | for a metatile nobody wants, the abstract choice of list is carried out and answered |
| QueueHeap.RequestQueue.AddRequest | src/request_queue.c:281-367 | refines the abstract add and answers as decided, with all agreement kept |
| QueueHeap.RequestQueue.ChargeTime | src/request_queue.c:377-410 | a positive time is booked to the class of origin and to the zoom level, once each |
| QueueHeap.RequestQueue.Delist | src/request_queue.c:412-414 | the item given, and no other, leaves the list it is on and the index |
| QueueHeap.RequestQueue.RemoveRequest | src/request_queue.c:369-416 | takes exactly the given item, with its duplicates, off whatever list it is on and out of the index and books its time; the counters are right afterwards if and only if it was on the render list |
| QueueHeap.RemovedUnfetched | src/request_queue.c:373-416 | from an empty queue, adding a request and removing it before it was fetched leaves a counter of one on an empty list |
| QueueHeap.RequestQueue.ClearRequestsByFd | src/request_queue.c:219-279 | the walk over five lists and their chains forgets the descriptor in the whole queue |
| QueueHeap.WalkChain | src/renderd.c:104-118 | the walk ends, frees every item of the chain once and sends to those that wait, in order |
| QueueHeap.RequestQueue.SendResponse | src/renderd.c:100-119 | the item leaves the queue, its chain is freed without repetition, and each item of it that somebody waits for gets one message, in order, with its own request and the response given |
| Scheduling.FetchMovesUp | src/request_queue.c:177-208 | a fetch serves the request with nobody in front of it and moves every other up by one |
| Scheduling.StepGrows | src/request_queue.c:346-350 | only a fetch takes anything off the five classes, only listing adds, and at the tail |
| Scheduling.ServedExactlyInTurn | src/request_queue.c:177-208 | in any run in which nothing enters a more urgent class, a request with n others before it is returned by the (n+1)-th fetch and no other |
| ConnTable.FullExactly | src/renderd.c:235-253 | there are as many open descriptors as slots if and only if no slot is free |
| ConnTable.Table.constructor | src/renderd.c:182-192 | no connection is open |
| ConnTable.Table.FreeSlot | src/renderd.c:235-241 | finds an unused slot, or none below the high-water mark is unused |
| ConnTable.Table.Accept | src/renderd.c:233-260 | a connection gets a slot if and only if fewer than 2048 are open, and the count stays right |
| ConnTable.Table.Close | src/renderd.c:275-280 | the slot is free again and exactly its descriptor is gone |
| Daemon.Dispatch | src/gen_tile.cpp:400-485 | a positive render time comes only with a zoom level that the statistics have a place for; Done only for a configured map that was drawn and saved |
| Daemon.ChecksForATile | src/gen_tile.cpp:212-230 | the check of the corner passes if and only if the metatile has a tile on the map at a level of the map |
| Daemon.DispatchExactly | src/gen_tile.cpp:400-485 | Done if and only if the first map of that name was loaded, has something of the metatile, and it was drawn and saved; Ignore if and only if it was loaded and has nothing of it; NotDone otherwise; a render time if and only if there was something to draw |
| DaemonSteps.AcceptKeeps | src/renderd.c:233-260 | a new connection keeps the global invariant, even if it gets a descriptor used before |
| DaemonSteps.ReceiveKeeps | src/renderd.c:273-290 | receiving a request keeps the global invariant |
| DaemonSteps.DisconnectKeeps | src/renderd.c:275-280 | a disconnect keeps the global invariant |
| DaemonSteps.FetchKeeps | src/gen_tile.cpp:400-403 | a fetch by a thread, or its going to sleep, keeps the global invariant |
| DaemonSteps.FinishKeeps | src/renderd.c:100-104 | taking a finished item and its duplicates off the queue keeps the global invariant |
| DaemonSteps.SendKeeps | src/renderd.c:104-118 | every single send keeps the global invariant |
| DaemonSteps.ChargeKeepsBalance | src/request_queue.c:377-410 | render time booked to classes and to zoom levels stays equal in total |
| DaemonRuns.StepKeepsGood | src/renderd.c:180-297 | every step of every thread keeps the global invariant |
| DaemonRuns.Run | src/renderd.c:180-297 | the invariant holds after every run from the start |
| DaemonRuns.AnsweredAtMostOnce | src/renderd.c:100-119 | in every run a request gets at most one reply, with its own coordinates and map, and to its own connection if that is open |
| DaemonRuns.AnsweredExactlyOnce | src/renderd.c:100-119 | a render request that ran its course with its connection open got exactly one reply, on that connection |
| DaemonRuns.NotDoneAtOnceExactly | src/renderd.c:282-288 | NotDone is sent at once to exactly the requests that were rejected, refused, dropped or put on the dirty list |
| DaemonRuns.DeliveredExactlyWhileOpen | src/renderd.c:104-118 | a send reaches the requester's connection if and only if it is still open at that moment |
| DaemonRuns.ReusedDescriptorGetsReply | src/renderd.c:104-118 | from any reachable state with a reply pending, closing and reusing its descriptor sends the reply to the newcomer |
| DaemonRuns.MisdirectedReply | src/renderd.c:100-119 | a complete run from the start in which that happens |
| DaemonRuns.ClearForgets | src/request_queue.c:219-279 | no queued item or duplicate holds the descriptor afterwards, although the dirty list is skipped |
| DaemonRuns.QueuedDescriptorsAreOpen | src/request_queue.c:219-279 | in every run each descriptor in the queue is that of the open connection its request came from |
| DaemonRuns.PlacesAgree | src/request_queue.c:153-160 | two sightings of a request, on a list, in a duplicate chain or in a chain being answered, are the same place |
| DaemonRuns.InExactlyOnePlace | src/request_queue.c:298-343 | a request is queued or detached if and only if it is found there, in one place only |
| DaemonRuns.RenderedOnce | src/request_queue.c:293-309 | the metatile a thread renders is neither queued nor rendered by another |
| DaemonRuns.WorkIsNoticed | src/request_queue.c:171-175 | in every run, while a thread sleeps, at least as many are signalled as items are queued, and one that can fetch if any is |
| DaemonRuns.ServedInOrder | src/request_queue.c:177-197 | in every run, per class, fetches follow admissions in order, admissions are fetches plus waiting items, and render time by class equals that by zoom |
| DaemonAnswers.LedgerIsWhatWasReceived | src/renderd.c:121-166 | in every run the ledger is the requests received, in order, each as it came in but for the upgrade, and each counts as connected if and only if its descriptor was not disconnected since |
| DaemonAnswers.RejectedExactly | src/renderd.c:141-145 | in every run a request is rejected if and only if its command is none of the four render commands or Dirty |
| DaemonAnswers.AllIsTold | src/renderd.c:100-119 | in every run, what a thread is about to answer and what was answered other than at once is the response of a rendering finished in that run |
| DaemonAnswers.AnswerTellsTheRendering | src/renderd.c:100-119 | hence an answer after rendering says Done if and only if the request's metatile was drawn and saved in a certain step, Ignore if and only if it is off its map, and NotDone otherwise |
| DaemonAnswers.AnsweredAsItWas | src/renderd.c:100-119 | a render request that ran its course with its connection open got one reply, there: NotDone at once, or what came of its rendering |
| SubmitQueue.JobList.Append | src/render_submit_queue.c:343-351 | the linked list gains the job at its tail |
| SubmitQueue.JobList.TakeHead | src/render_submit_queue.c:77-84 | the list is the job returned followed by what is left |
| SubmitQueue.EnqueueKeepsGood | src/render_submit_queue.c:333-354 | enqueueing, or waiting for room, keeps the monitor invariant |
| SubmitQueue.FetchKeepsGood | src/render_submit_queue.c:58-87 | fetching, leaving or going to sleep keeps the monitor invariant |
| SubmitQueue.StepKeepsGood | src/render_submit_queue.c:309-474 | every step keeps it: no lost wake-up of workers or producer, nothing lost or reordered, nobody leaves with work left |
| SubmitQueue.Run | src/render_submit_queue.c:392-422 | the invariant holds after every run with any number of workers |
| SubmitQueue.NoJobIsLost | src/render_submit_queue.c:309-355 | in every run, the jobs enqueue was called with are those fetched, followed by those queued, followed by the one the producer waits to put there |
| SubmitQueue.ReturnsExactly | src/render_submit_queue.c:58-87 | enqueue returns if and only if there is room, wait_for_empty_queue if and only if the queue is empty; fetch gives up, sleeps or takes a job if and only if the queue is empty at the end, empty before it, or not empty |
| SubmitQueue.FetchedInOrder | src/render_submit_queue.c:58-87 | jobs are fetched in the order of enqueueing; a worker gets none only after all were fetched and the end was announced |
| SubmitQueue.HaltsExactlyWhenAllGone | src/render_submit_queue.c:357-372 | all threads are stuck if and only if every worker has left while the producer waits; before the end that means that none could connect |
| Expire.TileKeyInjective | src/render_expired.c:40-43 | packed keys tell apart all metatiles whose coordinates fit 24 bits |
| Expire.ClosedHasWalk | src/render_expired.c:383-395 | a set closed under parents that has a metatile has its whole way up |
| Expire.DealUpIsWalk | src/render_expired.c:383-405 | from a closed set the walk that stops early deals with what the full walk would, if keys tell apart what is met |
| Expire.DealAllMarks | src/render_expired.c:383-405 | over the whole input no two metatiles dealt with have the same key |
| Expire.EarlyExitIsRightExactly | src/render_expired.c:361-405 | for any input, the metatiles dealt with are those of the full expansion if and only if packed keys tell the latter apart |
| Expire.EarlyExitIsFullExpansion | src/render_expired.c:361-405 | if the metatile of every line, at the highest level, has 24-bit coordinates, the metatiles dealt with are exactly those of the full expansion, which is closed under parents |
| Expire.GridFits | src/render_expired.c:361-371 | every tile on the grid meets that condition |
| Expire.SameMetaExactly | src/render_expired.c:390-390 | two tiles of a level are one metatile if and only if they have the same corner |
| Expire.NormalIsBrought | src/render_expired.c:361-371 | the loops bring a line to the tile it lies in at the highest level, or to the first of those it is made of |
| Expire.WalkHolds | src/render_expired.c:383-405 | the way up is the metatiles that hold the tile's ancestors at the levels down to the lowest |
| Expire.DealtWithExactly | src/render_expired.c:361-405 | for lines that fit, a metatile is dealt with if and only if its 8x8 square has the ancestor of some line at a level from the highest to the lowest |
| Expire.EarlyExitCanMissAMetatile | src/render_expired.c:40-43 | two lines, the first too far off the grid, after which a metatile of the full expansion is not dealt with |
| Expire.WorkersCoverTheNeed | src/render_expired.c:329-333 | a level whose metatiles are to be rendered implies that workers were started |
| Expire.IdleWorkersExactly | src/render_expired.c:329-333 | workers are started although no level walked can need them if and only if one threshold covers all levels and the other does not, or there is no level to walk |
| Expire.IdleBetweenThresholds | src/render_expired.c:329-333 | touching from the lowest level on and deleting from a higher one is such a case |
| Expire.IdleBelowTheRaisedMinimum | src/render_expired.c:321-333 | a highest level of 2 is another |
| Expire.EveryActionCounted | src/render_expired.c:410-444 | the four kinds of action add up to all |
| Expire.Expirer.Process | src/render_expired.c:401-444 | the metatile is marked and gets the one action its level and presence call for, and the counters follow |
| Expire.Expirer.ExpandLine | src/render_expired.c:361-446 | the loops over levels mark the keys and deal with the metatiles, in order, that the recursive walk does |
| Expire.Expirer.Expand | src/render_expired.c:337-446 | over the whole input no metatile is dealt with twice; those dealt with are the full expansion if and only if keys tell it apart, so for all lines that fit, and then they are those whose square has an ancestor of a line; each was ignored, deleted, touched or rendered if and only if presence and thresholds say so; all = deleted + touched + rendered + ignored; nothing is rendered without workers |
| Bytes.LeastFirst | src/metatile.cpp:97-102 | an int lies in the file with its least byte first |
| Metatile.SlotInjective | src/metatile.cpp:55-59 | the 64 tiles of a metatile get different places |
| Metatile.SlotOnto | src/metatile.cpp:55-59 | and all 64 places are used |
| Metatile.FillTable | src/metatile.cpp:80-91 | every tile's table entry is where the tiles before it end, and its size |
| Metatile.CopyTiles | src/metatile.cpp:104-109 | copying each tile to its place fills the buffer behind the header with all tiles in order |
| Metatile.Save | src/metatile.cpp:61-109 | the buffer is header, table and the tiles one after the other, and the ranges of its table divide up the payload |
| Metatile.ReadOn | src/store_file.c:71-94 | however reads are split, the loop gets all that is there, up to what was asked for |
| Metatile.ReadTile | src/store_file.c:46-154 | for any file contents, the code and bytes are those that header, magic, count, table entry and buffer size call for |
| Metatile.ReadExactly | src/store_file.c:89-154 | which files get -3, -4, -5, -6 and -7, each if and only if; any other, with either magic, is read for the bytes its entry names, as far as they are there |
| Metatile.EntryOf | src/store_file.c:96-118 | the stored entry of every tile, decoded, is where its bytes are and how many |
| Metatile.FormatOf | src/metatile.cpp:55-109 | the header names the metatile, and entry 8i+j of its table tells where the tile of column i and row j is |
| Metatile.ReadsBack | src/store_file.c:109-154 | from a saved file every tile reads back as it was, or -6 if it exceeds the buffer |
| Metatile.TilesTileTheFile | src/metatile.cpp:82-109 | the ranges given by the table stored in the file lie behind the header, no two overlap, and every byte behind the header is in one |
| Metatile.InOneRange | src/metatile.cpp:82-109 | and in one only |
| Metatile.SaveThenRead | src/metatile.cpp:61-109 | saving a square of tiles and reading any one of them yields its bytes, for every way of splitting the reads |
| TilePath.ScanPrinted | src/store_file_utils.c:156-156 | scanning a printed number yields the number and leaves what follows |
| TilePath.Hash | src/store_file_utils.c:226-230 | the shifting loop yields the nibbles of both coordinates side by side |
| TilePath.XyzoToMeta | src/store_file_utils.c:215-250 | the path of the metatile's corner, cut to the buffer, and the tile's place |
| TilePath.PathToXyz | src/store_file_utils.c:143-180 | the loops compute the parse of the path, with its error codes |
| TilePath.LevelsJoin | src/store_file_utils.c:162-179 | joining the five interleaved levels gives back the corner, which is on the grid |
| TilePath.LevelsShow | src/store_file_utils.c:226-237 | which four bits of which coordinate each directory level shows |
| TilePath.PathReadsBack | src/store_file_utils.c:143-180 | the parser returns map, zoom and corner of every generated path with status 0, with or without options |
| TilePath.PathReadsBackExactly | src/store_file_utils.c:156-160 | for any name without slash the path parses back if and only if the name has 40 characters at most, and fails with 1 otherwise |
| TilePath.StatusExactly | src/store_file_utils.c:123-141 | of any path that parses the status is 0 if and only if its coordinates are on the grid |
| TilePath.PathAndPlaceIdentify | src/store_file_utils.c:215-250 | two tiles share uncut path and place only if map, options, x, y and z all agree |
| TilePath.PrintedPathIdentifiesExactly | src/store_file_utils.c:235-237 | what is returned in a buffer of a given length identifies a tile among all others if and only if its path leaves a byte to spare |
| TilePath.CutPathTellsNothing | src/store_file_utils.c:235-237 | in a buffer that the directory fills, every tile gets the same path |
| TilePath.CutPathCollides | src/store_file_utils.c:235-237 | with less room, the same tile with ".meta" added to its options gets the same path and place |
| TilePath.CornerHasThePath | src/store_file_utils.c:219-230 | every tile has the path of its metatile's corner |
| TilePath.PathIdentifiesMetatile | src/store_file_utils.c:215-250 | two tiles have the same path if and only if map, options, zoom and corner agree |
| Store.Disk.WriteMetatile | src/store_file.c:194-248 | on success the file that the path names, and no other metatile, has the new contents and the length is returned; a failure at any step returns -1 and changes no metatile |
| Store.TemporaryIsNoMetatile | src/store_file.c:204-211 | the name under which a metatile is written is that of no metatile |
| Store.Disk.ReadTileOf | src/store_file.c:46-154 | -1 if the path names no file, else what that file calls for, or the code of a failing open or read; if the last metatile written for the tile is a saved square, its cell of that square, or -6 if that exceeds the buffer |
| Store.FileIsLastWrite | src/store_file.c:194-248 | after any writes, the file a tile is looked for in is what was last written for its own metatile, or missing if nothing was |
| Store.PlaceOfTile | src/metatile.cpp:55-59 | a tile's place in the file of its corner is that of its cell |
| Store.TileIsServed | src/store_file.c:46-154 | end to end, after any writes, a tile reads back as the cell (x mod 8, y mod 8) of the square last saved for it, or -6 if that exceeds the buffer |
| DelayPool.RoundCharges | src/mod_tile.c:875-889 | a round passes if and only if every token needed is there and takes exactly those; and exactly when a failing round still takes one |
| DelayPool.SharedPool.constructor | src/mod_tile.c:1841-1848 | all buckets empty and unowned, both fill-up times set |
| DelayPool.SharedPool.Take | src/mod_tile.c:875-889 | changes the one bucket as a round does |
| DelayPool.SharedPool.Refill | src/mod_tile.c:904-930 | every bucket gets all tokens due, or is full if that is less, and both fill-up times come to within one token of now, by whole tokens |
| DelayPool.PassesExactly | src/mod_tile.c:870-942 | a request passes before it must let go of the lock if and only if the slot is somebody else's, or its bucket has all it needs, or has it after filling up; and the slot is its own afterwards |
| DelayPool.WakePassesExactly | src/mod_tile.c:891-935 | after the first sleep it passes if and only if filling up brings what it needs; after the second it does not |
| DelayPool.DueTokensLetPass | src/mod_tile.c:870-942 | once a token of each kind has come due, any client gets through |
| DelayPool.SharedPool.Begin | src/mod_tile.c:870-942 | what the code does to the table until it lets go of the lock |
| DelayPool.SharedPool.Resume | src/mod_tile.c:891-935 | what it does after a sleep: fill up, and one more round after the first |
| DelayPool.ArriveFollowsTheCode | src/mod_tile.c:870-942 | the arrival step changes the table as the code does, and passes or sleeps as the code decides |
| DelayPool.WakeFollowsTheCode | src/mod_tile.c:891-935 | likewise for the step after a sleep, which ends in rejection the second time |
| DelayPool.RoundPays | src/mod_tile.c:875-889 | what a round took is booked as a pass or as lost, exactly |
| DelayPool.FillKeepsDue | src/mod_tile.c:905-930 | however fill-ups are spread, tokens given so far are floor(elapsed / rate) up to the last one |
| DelayPool.Run | src/mod_tile.c:870-942 | in every interleaving levels stay within bounds and nothing is taken that was not given |
| DelayPool.TokensConserved | src/mod_tile.c:870-942 | tokens taken from a slot + tokens in it + tokens spilt at a full bucket or a change of hands = its start + the tokens due by the last fill-up + one bucketful per change of hands, in every run and for both kinds |
| DelayPool.PassesAreLimited | src/mod_tile.c:870-942 | hence the requests that pass at a slot are limited likewise, and those for missing tiles by the render tokens |
| DelayPool.TokensAccountedFor | src/mod_tile.c:870-942 | in every run, tokens gone from a slot = requests charged there + failing rounds that found one kind of token and lacked the other, for tiles and for renders |
| DelayPool.PassedWasCharged | src/mod_tile.c:875-889 | everyone who passed other than by a change of hands took a tile token, and a render token for a missing tile |
| DelayPool.TurnedAwayStillPays | src/mod_tile.c:870-949 | a whole run, with fill-ups and sleeps between the rounds, in which a request is turned away and three tile tokens are gone |
| Framing.SendCmd | src/protocol_helper.c:26-72 | nothing goes out for a bad descriptor, version or socket; else the record's prefix of its version's length, as far as the connection takes it |
| Framing.RecvCmd | src/protocol_helper.c:74-122 | for any stream, waiting or not and however much has arrived by each of its two reads: the return value, the zero-filled record and what is left unread |
| Framing.AcceptedExactly | src/protocol_helper.c:80-118 | waiting or not, a command is accepted if and only if it is all there, or is one of version 3 of which as much is there as one of version 2 has |
| Framing.AcceptedWholeExactly | src/protocol_helper.c:108-118 | what is accepted of a sent command is that command, with the next one in reach, if and only if it is not cut like that |
| Framing.CutCommandIsAccepted | src/protocol_helper.c:108-118 | a version 3 request of which 64 bytes have arrived is accepted incomplete, with its end left as the start of the next |
| Framing.FrameReadsBack | src/protocol_helper.c:74-122 | a sent command is received, cut to its version, and what follows it is untouched |
| Framing.FramesReadBack | src/protocol_helper.c:50-121 | any sequence of commands of mixed versions is received in order with nothing left over |
| Framing.MissingFieldsZeroExactly | src/protocol_helper.c:50-66 | when the fields a version lacks arrive as zeros, exactly |
| Framing.MimetypeLeaksIntoVersion2 | src/mod_tile.c:1223-1272 | a version 2 request with a mimetype for which they do not |
| Framing.MarshalReadsBack | includes/protocol.h:60-69 | a request laid out in its record reads back unchanged |
| Framing.RecordLayout | includes/protocol.h:49-69 | where in the record each field is, and that commands are numbered in the order of the enumeration |
| Framing.UpgradeUndoesTheCut | src/renderd.c:121-134 | after the upgrade to version 3 the daemon has the same request whether or not it came over the wire |
| Framing.RequestArrives | src/protocol_helper.c:74-122 | any request that fits its record and has arrived reaches the queue as it was sent, waiting or not |
| Framing.AwaitReply | src/mod_tile.c:356-404 | for every fragmentation, never a byte past the reply; if the reply is all there it is all taken, and yes is answered exactly if it says so |
| Framing.ReplyIsUnderstood | src/mod_tile.c:375-395 | the daemon's reply to a version 2 or 3 request has the length the module expects and says yes exactly if the answer was Done |
| Framing.SaysDoneExactly | src/mod_tile.c:389-396 | any reply is taken for a yes if and only if it says Done and is for the tile and map asked for |
| Routing.SameUriExactly | src/renderd_config.c:140-168 | the loader's URI ends in a slash, and is the module's base URI, if and only if the cut spared the slash |
| Routing.SlashLostInTheCut | src/renderd_config.c:140-168 | a setting of 4096 characters loses its slash |
| Routing.OneSlashAtTheEnd | src/mod_tile.c:1989-1996 | loader and module both make of any setting short enough that setting with exactly one slash added or kept at its end |
| Routing.SlashedMeansParent | src/renderd_config.c:140-168 | with slashes on, being the beginning of another URI means being its parent, for all settings short enough to keep their slash |
| Routing.CheckUris | src/renderd_config.c:397-406 | the nested loops accept exactly the lists in which no URI is the beginning of a later one |
| Routing.Translate | src/mod_tile.c:1144-1168 | the built-in pages first, then the first matching layer, which is the longest match if the list was accepted |
| Routing.FirstIsBest | src/mod_tile.c:1161-1168 | on an accepted list the first match is the one longest match |
| Routing.CheckIsExact | src/renderd_config.c:397-406 | the check accepts exactly the lists for which that holds of every request |
| Routing.ReachableExactly | src/mod_tile.c:1161-1168 | a layer can be reached if and only if no earlier base URI is the beginning of its own |

## Left out

- Sockets, poll, accept, signals, logging and option parsing: recv and read are modelled as returning some of the bytes that are left; interrupted calls are not.
- Memory: allocation failures are not modelled, and freeing an item is recorded, not performed.
- Blocking waits: pthread_cond_wait is split into going to sleep and coming back, which may happen spuriously; that a signal is delivered and a thread scheduled at some time is not proved.
- slave_thread: its dispatch to other hosts can leave a fetched item on the render list (src/renderd.c:709-731) and is not a step of the daemon model.
- cmdDirty: replies to it are modelled as the code sends them, but the exactly-once claim is about render commands and immediate answers.
- RemoveRequest: requires an item that is on some list, and a zoom level within the statistics for a positive render time, which Dispatch guarantees.
- AddRequest: requires an item that is not yet in the queue and has no duplicates, as rx_request makes it.
- AwaitReply: a timeout is modelled as a failed read, and the comparison of strings stops at the end of the field.
- Unmarshal: a name that fills its field without a terminating NUL is read up to the end of the field; command numbers out of range are read as cmdIgnore, which the daemon treats alike.
- Save: requires a total size below 2 GB, above which the code's int offsets overflow.
- ReadTile: seeking never fails, and the magic is checked but compressed tiles are not unpacked.
- WriteMetatile: the making of directories is a step that may fail, and is not modelled further.
- PathReadsBack: covers the hashed directory layout, not builds without it; numbers are unbounded, so scanf's overflow is not modelled.
- TokensConserved: assumes a clock that does not go back, bucket sizes that are not negative, positive rates and no overflow of the top-up count; requests that skip the accounting because the lock is not to be had are not charged and not counted.
- CalcHashKey: assumes a signed char.
- LeastFirst: assumes a little-endian machine; the code writes ints as the machine holds them.
- SubmitQueue.Run: one producer, one start and one end of the workers; a worker's lost connection is time spent outside the queue.
- EarlyExitIsRightExactly: coordinates are unbounded, so the overflow of shifting a line of int size to a much higher level is not modelled; lines that do not parse are skipped before the model begins.
- Mapnik rendering, projections and style parameters: opaque to the model, which only knows whether drawing and saving worked.
- Other stores: memcached, RADOS, the HTTP proxy, composite and null stores pass calls on to a server, to other stores or to nothing.
- render_list's walk over the grid, HTCP packets, HTTP headers, TileJSON, metrics and cache ages: they enumerate tiles or format output, and hold no state shared with the rest.
- The rest of tile_translate: after the choice of the layer it splits the path, parses three numbers, checks them against the layer's bounds and fills in the request record.
