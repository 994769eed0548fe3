# Verification of the OSM importer

This project models osmpgsqlimport, a multi-threaded importer of OpenStreetMap PBF files into
PostgreSQL, and proves what its phases rely on.

- **The pipeline** (`Pipeline*.dfy`, `BlockingQueue.dfy`): one producer, N node threads with private
  bounded queues, M way threads on one shared bounded queue, a node barrier whose completion runs the
  merge, and a way barrier that a thread reaches on its first relation or at the end. Every interleaving
  is a run of a transition system. Its invariant gives the data dependencies (ways see every node,
  relations see every way), exactly-once processing, final tables equal to those of one sequential pass
  without a rejected row, freedom of deadlock (exactly for capacities of at least one) and termination of every run.
- **The node store** (`Records.dfy`, `ShardCodec.dfy`, `NodeStore.dfy`, `OsmMMap.dfy`, `MergeCrash.dfy`):
  24-byte records in shard streams, a merge that re-parses them in arbitrary chunks, a bitmap and a flat
  array that act as a map, reopening with another size, and crashes during the merge.
- **Geometries** (`Doubles.dfy`, `Stitch.dfy`, `StitchOrder.dfy`, `StitchTheorems.dfy`, `Wkb.dfy`, `GeometryBuild.dfy`,
  `Multipolygon.dfy`): ring stitching with a specification of which segment comes next and its parity theorem, the writers of well-known binary against an
  independent decoder (clause 8 of OGC 06-103r4 with PostGIS's SRID flag), and the delta path's second
  implementations. Doubles are 64-bit patterns compared as in IEEE 754, so the two zeros are equal
  and NaN equals nothing.
- **Database writing and decoders** (`NavDb.dfy`, `PrimitiveBlock.dfy`, `Csv.dfy`, `Replicator.dfy`,
  `Resume.dfy`): buffered COPY with the bad-row retry loop, delta coding, the CSV state machine,
  the replication loop, and the offsets that let a later run start in the middle of the file.
- **The whole import** (`Import.dfy`): the pipeline with the builders it really uses, and what its tables hold in the
  end, said of the input file alone.

`Basics.Listed` says throughout that a list holds certain entries, by position and in order, each once.

Oracles: LZ4 yields the stored bytes cut at arbitrary points; a COPY is one transaction that reports the
1-based line of the first row it rejects, or fails without a line number; PostgreSQL's verdict on a row's
own values, the result of a download, the rounding of coordinates to doubles, and the outcome of the tag test for areas are inputs.

Where the code and its comments disagree, the model follows the code:

- src/NavDB.cpp:187 says `tryCopyBatch` returns the number of rows written; it returns the size of what
  is left of the batch, also when it gives up and nothing was written. That is the number of rows written if
  and only if none of its COPYs is lost (`NavDb.NavDB.TryCopyBatch`); `NavDb.NavDB.LostRowIsCounted` is an
  input for which it is not.
- src/main.cpp:598-600 and 605-606 say that rings that cannot be assembled give an empty result; an open ring
  is closed by an extra edge instead (`StitchTheorems.ClosesByItselfIff` says exactly when).
- src/main.cpp:756 speaks of the inner ring's centroid; its first point is tested.

And where it does less than its interface suggests:

- src/OSMMMap.cpp:338 and 467 compute the offset in 64 bits, so ids of 2^60 and above can reach the record of
  another node (`NodeStore.WriteRefinesIff`, `NodeStore.RemoveRefinesIff`). `insert` cannot create such records,
  because the sidecar bitmap cannot grow that far. `remove` checks nothing: src/DeltaApplier.cpp:178 passes it
  any 64-bit id of a change file, so deleting node 2^60 + k leaves node k present at coordinates zero.
- src/main.cpp:998 enters the delta path before the SRID is chosen in line 1001, so that path always writes
  SRID 3857, also into a database that was imported with -L (`GeometryBuild.SameTextIff`).
- After an ordinary import the delta path gets to neither of these points: src/main.cpp:953 opens the store for
  writing, which needs the sidecar of shard 0 (src/OSMMMap.cpp:46 and 155), and the merge has deleted it
  (src/OSMMMap.cpp:439), so opening fails (`OsmMMap.OSMMMap.OpenForWriting`). They are reached if that sidecar
  was left over, for example by a crash between the two deletions of a shard and a rerun, which skips the shard.

## Model

| member | source | states |
|---|---|---|
| PipelineRuns.WaysSeeEveryNode | src/main.cpp:1231-1249 | In every interleaving and for any number of node threads: once anything is in, or was taken from, the way queue, the store has exactly the coordinates of the input's nodes with id up to maxId |
| PipelineRuns.RelationsSeeEveryWay | src/main.cpp:821-857 | Every relation, in every run, was handled against exactly the rows of all ways of the input with a non-empty geometry, so its geometry is the same in all runs; the same holds of the tables from the moment a thread is past the way barrier |
| PipelineRuns.WaysFrozen | src/main.cpp:884-897 | After the way barrier no run, however it continues, adds, removes or repeats a row with a positive id |
| PipelineRuns.StepFreezesWays | src/main.cpp:845-857 | The same for one step: flushes after the barrier commit rows of relations only |
| PipelineRuns.LateStep | src/main.cpp:822-897 | A thread past the barrier commits no positive-id row, whether it pops, handles a relation, or flushes at the end |
| PipelineRuns.QueuesKeepOrder | src/main.cpp:39-60 | Popped entries followed by queued ones are the read part of the input in order, recorded followed by held and queued nodes are the nodes dealt to the thread in order, and no queue exceeds its capacity |
| PipelineRuns.FinalTables | src/main.cpp:1283-1292 | A finished import has popped every way and relation once, its tables hold exactly the rows of one sequential pass, each once, and the store is that of the sequential pass |
| PipelineTables.CommitsAreNew | src/NavDB.cpp:240-267 | Whatever a step of any run commits has ids that are new to its table, so COPY rejects no row of it and the table grows exactly as row-by-row insertion would make it grow |
| PipelineTables.InDbListed | src/main.cpp:810-818 | The records of a table are the rows with its flag, in order |
| PipelineTables.CommittedDistinct | src/main.cpp:844-851 | The ids of all committed rows, of ways and areas together, are distinct, since relations get negative ids |
| PipelineRuns.Reachable | src/main.cpp:1227-1292 | Every state reachable in any interleaving satisfies the invariant |
| PipelineRuns.StepInv | src/main.cpp:540-897 | Each of the fourteen kinds of steps keeps the invariant |
| PipelineLiveness.Progress | src/main.cpp:34-73 | With queue capacity of at least one, or an empty file, every unfinished reachable state has a step: no deadlock for any thread counts |
| PipelineLiveness.EveryRunCanFinish | src/main.cpp:1283-1292 | Wherever a run has got to, it can go on to the end of the import |
| PipelineLiveness.DeadlockFreeIff | src/main.cpp:41-42 | The import can never get stuck if and only if the queue capacity is at least one or the file is empty |
| PipelineLiveness.RunsAreFinite | src/main.cpp:1227-1292 | Every run is finite: at most three steps per entry, three per node thread, five per way thread and five of the producer |
| PipelineLiveness.StepDecreases | src/main.cpp:540-897 | Every step of every thread decreases the measure, so no fairness assumption is needed for termination |
| PipelineLiveness.WayProgress | src/main.cpp:785-893 | While the way queue can be popped, some way thread can move: the way barrier opens even if there are fewer relations than threads |
| PipelineLiveness.NodeProgress | src/main.cpp:553-584 | Once the node queues are shut, some node thread can move until all have passed the node barrier |
| PipelineLiveness.NoRoomMeansStuck | src/main.cpp:41-42 | With capacity zero or less there is a run into a stuck state, for every non-empty input |
| PipelineSteps.InitInv | src/main.cpp:1084-1167 | The invariant holds when the threads are started |
| PipelineSteps.ShardsComplete | src/main.cpp:1233-1234 | Shards that hold all dealt nodes merge to the store of the sequential pass, whatever the number of node threads |
| PipelineSteps.NodeArriveBar | src/main.cpp:1100-1111 | The last arrival at the node barrier merges complete shards |
| PipelineSteps.NodeArriveInv | src/main.cpp:579-583 | Arriving at the node barrier keeps the invariant: every thread arrives exactly once |
| PipelineSteps.NodeWorkInv | src/main.cpp:553-577 | A node thread only ever holds nodes, and recording one keeps the invariant |
| PipelineSteps.NodePopInv | src/main.cpp:46-54 | Popping from a private queue keeps the invariant |
| PipelineSteps.ProduceNodeInv | src/main.cpp:1231-1234 | Dealing a node keeps the invariant |
| PipelineSteps.ProduceSwitchInv | src/main.cpp:1236-1248 | Shutting the node queues at the first non-node keeps the invariant |
| PipelineSteps.ProduceWayInv | src/main.cpp:1263 | Pushing a way or relation keeps the invariant |
| PipelineSteps.ProducerMoveInv | src/main.cpp:1283-1292 | Shutting down queues and joining threads in the source's order keeps the invariant |
| PipelineWaySteps.AllWaysCommitted | src/main.cpp:822-825 | Once the way barrier has opened, the committed positive-id rows are exactly the rows of the input's ways |
| PipelineWaySteps.NobodyOwes | src/main.cpp:824-825 | After the way barrier no thread has a positive-id row in a buffer or in its hand |
| PipelineWaySteps.PoppedPastWays | src/main.cpp:1227-1265 | When a relation was popped, the popped entries include every way |
| PipelineWaySteps.HandleWayInv | src/main.cpp:800-819 | Handling a way with the merged store keeps the invariant; its row is committed or buffered exactly once |
| PipelineWaySteps.HandleRelationInv | src/main.cpp:843-857 | Handling a relation keeps the invariant; its area row has a negative id and is the row of the sequential pass |
| PipelineWaySteps.FlushEarlyInv | src/main.cpp:822-825 | Flushing before the way barrier, for a first relation or at the end of the queue, moves the buffered rows to the tables |
| PipelineWaySteps.WayArriveBar | src/main.cpp:889-893 | A thread arrives at the way barrier at most once, and the barrier opens when all have |
| PipelineWaySteps.WayLeaveInv | src/main.cpp:825-834 | Leaving the way barrier keeps the invariant |
| PipelineWaySteps.WayFinishInv | src/NavDB.cpp:43-53 | The flush in the connection's destructor keeps the invariant |
| PipelineWaySteps.InsertRows | src/NavDB.cpp:90-104 | An inserted row is in a buffer, or committed with its whole buffer at the thread's staggered threshold |
| BlockingQueues.BlockingQueue.Push | src/main.cpp:39-44 | Appends the item; without shutdown the queue stays within its capacity |
| BlockingQueues.BlockingQueue.Pop | src/main.cpp:46-54 | Takes the front item, or reports the end exactly when the queue is stopped and empty |
| BlockingQueues.BlockingQueue.Shutdown | src/main.cpp:56-60 | Sets the stop flag and keeps the items |
| Import.FinishedImport | src/main.cpp:695-857 | With the real builders: a finished import holds for every multipolygon relation with a geometry one area row with the negated id, which decodes to the polygons stitched from its members' ways over the input's nodes if they fit the format, and no row for any other relation |
| Import.FinishedWays | src/main.cpp:800-819 | For every way with two known nodes or more it holds one row, an area exactly if the line is closed with at least four points and the tags say so, that decodes to the points of the input's nodes in the order of the references, longitude first; for any other way none |
| Import.OnlyInputRows | src/main.cpp:800-857 | It holds no row that is not of a way or relation of the input |
| Import.LocatedListed | src/main.cpp:800-805 | A way's coordinates are one point for each reference to a node in the store, in order: x is the node's longitude, y its latitude |
| Import.LocatedFromInput | src/main.cpp:800-805 | With the store of the import these are the coordinates of the input's nodes with an id up to maxId |
| Import.InputCoordsAre | src/NavDB.cpp:794-825 | The member coordinates are those of the members that are ways with two known nodes or more |
| Import.CoordsFromInput | src/NavDB.cpp:794-825 | The member coordinates read from the database are those of the input's ways over the input's nodes |
| Import.WayRowDecodes | src/main.cpp:800-819 | The stored text of a way decodes to its geometry, and its vertices are the coordinates of its located nodes in order |
| Import.MergeStepIsStoreMerge | src/OSMMMap.cpp:356-440 | The pipeline's merge step applies the same records, in the same order, as the store's merge of the shard streams |
| Import.NodePhase | src/main.cpp:1076-1111 | Creating and opening the files, inserting the node threads' records in any interleaving and merging the shards, however they are cut, leaves the store that the pipeline's merge step leaves |
| Import.InsertAll | src/OSMMMap.cpp:286-303 | In any interleaving of the node threads each shard's stream gains the records of its thread, in order |
| Import.SelectNode | src/OSMMMap.cpp:450-457 | After that `select` yields exactly the coordinates of the input's nodes with an id up to maxId |
| Import.ImportFinishes | src/main.cpp:1227-1292 | Every input can be imported with the real builders: a run to the end exists |
| NodeStore.StoreRefinesMap | src/OSMMMap.cpp:332-354 | Under any sequence of writes, removals and reopenings of ids that do not alias, the files act as a finite map, of which `select` sees the ids up to the current maxId |
| NodeStore.StoreHoldsEntries | src/OSMMMap.cpp:332-354 | Under any sequence of these operations, with ids that alias too, the files hold exactly the specified entries |
| NodeStore.WriteRefinesIff | src/OSMMMap.cpp:333-347 | A write of an id acts as a map update on every store if and only if the id does not alias, that is, unless it exceeds maxId and is at most maxId modulo 2^60 |
| NodeStore.AliasingOverwrites | src/OSMMMap.cpp:338-346 | For every aliasing id there is a store in which the write changes the coordinates of another node, because the 64-bit offset wraps |
| NodeStore.WriteExact | src/OSMMMap.cpp:333-347 | A write changes that entry only, nothing if the id is out of range, and the coordinates of the other id, if it is present, when the id aliases |
| NodeStore.RemoveExact | src/OSMMMap.cpp:465-475 | A removal deletes that entry only; of an id that aliases it zeroes the coordinates of the other id, which stays visible |
| NodeStore.RemoveRefinesIff | src/OSMMMap.cpp:465-475 | A removal of an id acts as a map removal on every store if and only if the id does not alias |
| NodeStore.AliasingZeroes | src/OSMMMap.cpp:467-474 | For every aliasing id there is a store in which the removal leaves another node at coordinates zero |
| NodeStore.SetBitAt | src/OSMMMap.cpp:21-31 | Setting a bit is visible at that id only, for all 64-bit ids, and ignored outside the bitmap |
| NodeStore.ClearBitAt | src/OSMMMap.cpp:471-474 | Clearing a bit is visible at that id only |
| NodeStore.ReopenPreserves | src/OSMMMap.cpp:63-82 | Reopening with any maxId keeps every entry of the files and makes none visible: a larger one grows the files, a smaller one hides the entries beyond |
| NodeStore.WriteKeepsFiles | src/OSMMMap.cpp:333-347 | Writes and removals keep the file sizes, and the bits of the last bitmap byte beyond the last record stay clear |
| OsmMMap.OSMMMap.constructor | src/OSMMMap.cpp:164-177 | Opening to resume: files made for the same, a smaller or a larger maxId show the entries they hold up to maxId and lose none, growing if they are too short, and the shards stay as they are |
| OsmMMap.OSMMMap.ForWriting | src/OSMMMap.cpp:120-177 | Opening for an import: every shard is open and empty, no file grows, and the entries up to maxId are shown |
| OsmMMap.OSMMMap.OpenForWriting | src/OSMMMap.cpp:44-58 | Opening for an import fails if and only if a sidecar is missing |
| OsmMMap.CreateFile | src/OSMMMap.cpp:97-110 | Makes files that hold no entry, and a sidecar for every shard |
| OsmMMap.OSMMMap.Select | src/OSMMMap.cpp:450-457 | Returns the entry of the map, or nothing, for every 64-bit id |
| OsmMMap.OSMMMap.WriteToMerged | src/OSMMMap.cpp:333-347 | Updates array and bitmap as specified for every id, and the map for ids that do not alias |
| OsmMMap.OSMMMap.Remove | src/OSMMMap.cpp:465-475 | Changes array and bitmap as specified for every id; removes the entry from the map for ids that do not alias |
| OsmMMap.OSMMMap.FlushInbuf | src/OSMMMap.cpp:202-213 | Hands the whole input buffer to the compressor, in order |
| OsmMMap.OSMMMap.CloseWriter | src/OSMMMap.cpp:223-247 | Leaves the complete stream in the file |
| OsmMMap.OSMMMap.GrowBitmap | src/OSMMMap.cpp:263-284 | Makes room for the id by appending zero bytes, or fails at the file size limit |
| OsmMMap.OSMMMap.Insert | src/OSMMMap.cpp:286-303 | Appends the record's 24 bytes to the shard's stream, which then parses to one record more, and sets its sidecar bit; fails instead of accepting an id that could alias, and not while the sidecar has room or can grow by a quarter beyond what the id needs |
| OsmMMap.OSMMMap.ProcessChunk | src/OSMMMap.cpp:387-427 | The carry and record loops write exactly the records completed by this chunk and keep the incomplete rest |
| OsmMMap.OSMMMap.MergeShard | src/OSMMMap.cpp:359-433 | However the stream is cut into chunks, the records of the whole stream are written in order |
| OsmMMap.OSMMMap.Merge | src/OSMMMap.cpp:305-448 | Merging applies all records of all shards in order to the map and deletes the shard files |
| OsmMMap.AddressableIsTame | src/OSMMMap.cpp:263-289 | Ids that a sidecar bitmap has room for never alias |
| ShardCodec.StreamRoundTrip | src/OSMMMap.cpp:292-298 | The emitted bytes parse back to the inserted records with nothing left over |
| ShardCodec.RecordRoundTrip | src/OSMMMap.cpp:404-407 | Copying id and coordinates to bytes and back is the identity, negative ids included |
| ShardCodec.ParseSplit | src/OSMMMap.cpp:391-427 | Parsing can be cut at any byte: the tail of the first part is carried into the second |
| Records.ApplyIsOverlay | src/OSMMMap.cpp:333-347 | Applying records overlays their last writes |
| Records.LastWins | src/OSMMMap.cpp:333-347 | Of several records of an id the last one counts |
| Records.OrderIrrelevant | src/OSMMMap.cpp:356-440 | With one coordinate per id, the order of records, and so of shards, does not matter |
| MergeCrash.CrashesDoNotMatter | src/OSMMMap.cpp:356-440 | From complete shard files, any number of process crashes, between records or inside the write of one, and reruns ends with the store of one uninterrupted merge |
| MergeCrash.StepKeepsOutcome | src/OSMMMap.cpp:356-440 | Neither writing a record, deleting or skipping a shard file, nor a crash, with whatever coordinates it leaves for the current id, changes what the merge will end with |
| MergeCrash.RewriteAbsorbed | src/OSMMMap.cpp:333-347 | Whatever is written early for an id that is going to be written again is absorbed |
| Stitch.StitchRings | src/main.cpp:607-655 | Terminates and returns the closed rings of at least four points that the specified ring building gives, kept in order |
| Stitch.GrowRing | src/main.cpp:615-642 | Extends a ring by the first fitting segment until it closes with four points or nothing fits |
| Stitch.TryExtend | src/main.cpp:623-641 | Finds the first segment with an end at the ring's end, forward before reversed, appends it and removes it |
| Stitch.RingsAreClosed | src/main.cpp:644-652 | Every returned ring has at least four points and ends where it starts |
| Stitch.EverySegmentUsedOnce | src/main.cpp:610-641 | Every input segment is a piece of exactly one built ring, counted with multiplicity |
| Stitch.RingsAreMadeOfPieces | src/main.cpp:611-641 | Every built ring consists of its pieces, forward or reversed, each of which starts where the ring so far ends |
| StitchOrder.BuildAllTraced | src/main.cpp:607-642 | Each ring starts with the first unused segment, forward; each next piece is the first unused one with an end at the ring's end, reversed exactly if it does not start there, and the ring was not closed with four points before; a ring ends when it is, or when no unused segment fits; no segment is left over |
| StitchOrder.KeptTraced | src/main.cpp:644-652 | The returned rings are exactly those with at least four points after closing, in order, closed with their own first point |
| StitchOrder.KeptStitched | src/main.cpp:607-655 | Together: the result of stitching, said of the segments alone |
| StitchOrder.GrowTraced | src/main.cpp:615-642 | Growing one ring keeps to these choices |
| StitchTheorems.EdgesConserved | src/main.cpp:607-655 | The edges of all built rings, kept and dropped, are the input edges plus one closing edge for each ring that did not close by itself |
| StitchTheorems.ClosesByItselfIff | src/main.cpp:644-649 | No closing edge is added if and only if every point is an end of an even number of segments |
| StitchTheorems.EvenMeansSameEdges | src/main.cpp:607-655 | Then the rings' edges are the input's edges, no more and no less |
| StitchTheorems.FirstRing | src/main.cpp:611-642 | With even degrees the first ring closes by itself and leaves even degrees |
| StitchTheorems.GrowKeepsEven | src/main.cpp:615-642 | Growing a ring keeps the parity of path ends at every place |
| StitchTheorems.GrowEdges | src/main.cpp:627-640 | Appending segments, forward or reversed, moves their edges into the ring |
| Wkb.RoundTripIff | src/main.cpp:658-685 | Decoding inverts encoding exactly for the geometries whose counts and SRID fit in 32 bits |
| Wkb.ReadGeomBack | src/main.cpp:172-198 | A written geometry is read back, nested parts and whatever bytes follow included |
| Wkb.HexRoundTrip | src/main.cpp:203-221 | Hexadecimal text in either case reads back as its bytes |
| Basics.LEAt | src/main.cpp:172-179 | Byte k of a written number is its digit of 256^k |
| GeometryBuild.BuildWayGeom | src/main.cpp:163-198 | Empty below two points; otherwise the text decodes to a Polygon with the points as its ring exactly if there are at least four and the ends are equal, else to the LineString of the points |
| GeometryBuild.Buffer.WriteWkbRing | src/main.cpp:658-669 | Appends the encoding of the ring |
| GeometryBuild.Buffer.WriteWkbPolygon | src/main.cpp:672-685 | Appends the encoding of the polygon with its holes |
| GeometryBuild.ToHex | src/main.cpp:687-693 | Writes each byte as two digits |
| GeometryBuild.MergeWayGeoms | src/main.cpp:200-251 | Writes the MultiLineString of the linear parts, in order, and nothing if there is none |
| GeometryBuild.MergeDecodes | src/main.cpp:200-251 | For encoded LineStrings and Polygons the result decodes to the MultiLineString of exactly the LineStrings, in order |
| GeometryBuild.LinesListed | src/main.cpp:226-240 | The parts are exactly the LineStrings, each once and in order |
| GeometryBuild.EncodingStarts | src/main.cpp:187-247 | Every geometry starts with the byte order mark 1, its type code with the SRID flag, and the SRID |
| GeometryBuild.MergeLinestrings | src/DeltaApplier.cpp:57-93 | On all inputs, the import's text for the same SRID in lower case |
| GeometryBuild.SameFilter | src/DeltaApplier.cpp:62-76 | The delta path's test on digits and the import's test on bytes select the same parts |
| GeometryBuild.BuildLineWkb | src/DeltaApplier.cpp:36-54 | The text decodes to a Polygon exactly if asked to and there are at least four points, else to the LineString |
| GeometryBuild.DeltaBuildWayGeom | src/DeltaApplier.cpp:102-111 | On all inputs, the import's text for the same SRID in lower case; it decodes to a Polygon exactly if there are at least four points and the ends are equal |
| GeometryBuild.SameTextIff | src/main.cpp:996-1001 | The delta path's text for a way is the import's, up to the case of the digits, if and only if the SRIDs of the two processes are equal |
| Multipolygon.BuildMultipolygon | src/main.cpp:695-766 | Empty without an outer ring; otherwise the text decodes to a geometry that is the relation's in the sense of the next row |
| Multipolygon.RelationGeomIs | src/main.cpp:706-763 | Outer and inner rings are those stitched from the members that are not, or are, "inner" and have coordinates, in order; one outer ring gives a polygon with it as shell and all inner rings as holes, several a part each, whose holes are exactly the inner rings whose first point the shell bounds, in order |
| Multipolygon.RingsOfMembers | src/main.cpp:706-722 | The stitched coordinates of the members of either kind |
| Multipolygon.MatchedListed | src/main.cpp:747-760 | The holes of a part, each once and in order |
| Multipolygon.MatchedExactly | src/main.cpp:746-761 | A part's holes are exactly the inner rings whose first point is bounded on all four sides by points of the outer ring |
| Multipolygon.BoxIsTight | src/main.cpp:748-753 | The computed box is the tight bounding box |
| Multipolygon.MatchInners | src/main.cpp:747-760 | Collects the matching inner rings in order |
| Multipolygon.CollectSegments | src/main.cpp:708-716 | Splits the members with coordinates by role, in order |
| NavDb.NavDB.TryCopyBatch | src/NavDB.cpp:186-238 | Terminates with the table as if rows had been inserted one by one, skipping each rejected or already present id, unless one of the COPYs this takes is lost; then the table is unchanged. The result is the number of rows written if and only if none is lost |
| NavDb.NavDB.LostRowIsCounted | src/NavDB.cpp:186-238 | For one good row whose only COPY is lost the result is 1 and nothing is written |
| NavDb.DropBadRow | src/NavDB.cpp:221-234 | The row COPY rejects first is one that row-by-row insertion skips |
| NavDb.NavDB.FlushViaTemp | src/NavDB.cpp:240-267 | Writes the buffer as if row by row, unless the first COPY fails and one of the retries is lost, and its tags in any case, and leaves both buffers empty |
| NavDb.NavDB.InsertWay | src/NavDB.cpp:90-96 | Adds the row and its alphanumeric tags; flushes exactly when the buffer has reached the thread's size |
| NavDb.NavDB.InsertArea | src/NavDB.cpp:98-104 | Adds the row and its alphanumeric tags; flushes exactly when the buffer has exceeded the thread's size |
| NavDb.NavDB.FinalizeWays | src/NavDB.cpp:126 | Empties all four buffers: no tag is stranded |
| NavDb.NavDB.Run | src/NavDB.cpp:80-157 | After any sequence of calls, tables and buffers together are what inserting every row in order gives; the tag tables and buffers gained, call by call and in order, exactly the tags whose key and value are alphanumeric; if all rows are accepted and new, committed rows followed by buffered rows are the inserted rows in order |
| NavDb.TagRowsListed | src/NavDB.cpp:64-77 | The stored tags of an entity are its tags with alphanumeric key and value, key as key and value as value, each once and in order |
| NavDb.InsertedTagsListed | src/NavDB.cpp:64-77 | The tags of a sequence of calls, call by call |
| NavDb.InsertedRowsListed | src/NavDB.cpp:90-104 | The rows of a sequence of calls on one side, in order |
| NavDb.InsertEachExactly | src/NavDB.cpp:184-238 | Row-by-row insertion keeps the table and appends exactly the accepted rows whose id neither the table nor an accepted row before them has, in order |
| NavDb.FirstBadExactly | src/NavDB.cpp:221-234 | The reported row is the first that conflicts with the table or an earlier row of the batch, or is not accepted |
| NavDb.InsertEachSound | src/NavDB.cpp:184-238 | Row-by-row insertion keeps ids unique and existing rows in place |
| NavDb.AppendsIffNew | src/NavDB.cpp:240-253 | Row-by-row insertion appends a whole batch if and only if its rows are accepted and their ids new and distinct |
| NavDb.NoneBadIffNew | src/NavDB.cpp:244-253 | COPY accepts a batch as a whole under the same condition |
| NavDb.FirstToComeStays | src/NavDB.cpp:184-238 | Of two rows with one id the first to come stays |
| NavDb.OrderIrrelevantIff | src/NavDB.cpp:184-238 | Two rows leave the same table in either order if and only if their ids differ, they are equal, or one of them is not insertable anyway; so with a way twice in the file the tables would depend on the interleaving |
| NavDb.NothingLostIff | src/NavDB.cpp:90-126 | Once the buffers are empty, the table holds all inserted rows in order if and only if all were accepted and new |
| PrimitiveBlock.DenseRoundTrip | src/OSMReader.cpp:170-201 | Decoding gives back every encoded dense node with its tags, for the full and the left-out tag stream, touches no index out of range, and no sum overflows |
| PrimitiveBlock.ParseDense | src/OSMReader.cpp:170-201 | The loop computes the specified decoding, however the scaling to degrees rounds, whenever the indices it touches are in range and its sums are 64-bit integers |
| PrimitiveBlock.DecodedAt | src/OSMReader.cpp:178-183 | In any dense list, ids and coordinates are running sums, and coordinates are scaled by the granularity and moved by the offset of their axis |
| PrimitiveBlock.NodesOfAre | src/OSMReader.cpp:170-201 | The nodes that come back have the encoded ids, scaled coordinates, and tags, of which the last with a key counts |
| PrimitiveBlock.TagMapIs | src/OSMReader.cpp:185-190 | The meaning of a list of pairs of string table indices, key first |
| PrimitiveBlock.EncodePairsAt | proto/osmformat.proto:74-80 | In the stream keys are at even places and their values follow them |
| PrimitiveBlock.EncodeKvIs | proto/osmformat.proto:74-80 | The pairs of each node end with a 0 |
| PrimitiveBlock.ReadTags | src/OSMReader.cpp:185-191 | Reads the pairs up to the next zero |
| PrimitiveBlock.RunIs | src/OSMReader.cpp:185-191 | In any stream, a node's tags are those of the pairs, key first, up to the next zero in a key's place or the end of the stream |
| PrimitiveBlock.ParseRefs | src/OSMReader.cpp:222-226 | Computes the running sums of the references |
| PrimitiveBlock.SumsAt | src/OSMReader.cpp:222-226 | Each value is the one before it plus its delta |
| PrimitiveBlock.DeltasAt | src/OSMReader.cpp:222-226 | Each delta is the value minus the one before it |
| PrimitiveBlock.SumsInvertDeltas | src/OSMReader.cpp:222-226 | Running sums invert delta coding |
| PrimitiveBlock.DeltasInvertSums | src/OSMReader.cpp:222-226 | Delta coding inverts running sums, so no two encodings mean the same references |
| PrimitiveBlock.ParseMembers | src/OSMReader.cpp:236-244 | Keeps the way members in order with their roles |
| PrimitiveBlock.WayMembersListed | src/OSMReader.cpp:237-244 | Exactly the members of type way are kept, in order, each with its id and the role's name, empty if the string table has none |
| PrimitiveBlock.ZipAt | src/OSMReader.cpp:236-244 | The three lists of a relation are read in parallel |
| PrimitiveBlock.MembersRoundTrip | src/OSMReader.cpp:236-244 | Every member list is decoded to its way members, since ids of all members are summed |
| Csv.ParseCsvLine | src/AirportsLoader.cpp:63-82 | The loop computes the specified scan |
| Csv.FieldCount | src/AirportsLoader.cpp:63-82 | Every line, also one with an open quote, has one field more than commas with an even number of quotes before them |
| Csv.NoQuotesJoin | src/AirportsLoader.cpp:74-81 | Without quotes, the fields joined by commas are the line |
| Csv.LineParsesIff | src/AirportsLoader.cpp:63-82 | A line printed by the rules of section 2 of RFC 4180 is read back as its fields if and only if every field with a comma or a quote was quoted |
| Csv.ReadQuoted | src/AirportsLoader.cpp:69-73 | A quoted field with doubled quotes reads back as the field |
| Csv.QuoteDiverges | src/AirportsLoader.cpp:70-75 | A quote inside an unquoted field makes the result differ from the field, whatever follows |
| Replicator.PathRoundTrip | src/Replicator.cpp:47-53 | The path reads back as its sequence number, for every non-negative number |
| Replicator.PathShape | src/Replicator.cpp:47-53 | A path is three numbers of digits: the millions, the thousands, the rest; the last two have exactly three digits, the first at least three |
| Replicator.PartShape | src/Replicator.cpp:49-51 | A number is filled with zeros to three digits and never cut |
| Replicator.PathsAreDistinct | src/Replicator.cpp:47-53 | No two files share a path |
| Replicator.Replicator.DownloadAndApply | src/Replicator.cpp:84-106 | Attempts the file after the stored number, and stores its number exactly if recording it was committed |
| Replicator.Replicator.ApplyPending | src/Replicator.cpp:133-140 | Attempts the pending files in order up to the first failure |
| Replicator.Replicator.Poll | src/Replicator.cpp:108-151 | Makes exactly the specified attempts, for all remote numbers, failures and interrupts |
| Replicator.Replicator.Lifetime | src/Replicator.cpp:108-151 | The log stays orderly over any number of restarts |
| Replicator.RoundCatchesUp | src/Replicator.cpp:133-140 | A round without failures ends at the server's number |
| Replicator.RoundAttemptsAre | src/Replicator.cpp:133-140 | The attempts of a round are for consecutive files up to the server's number, and only the last can fail |
| Replicator.PollCatchesUp | src/Replicator.cpp:114-140 | A process in which nothing fails ends at the highest number the server gave |
| Replicator.PollWithinRemote | src/Replicator.cpp:125-140 | No file beyond the server's number is attempted |
| Replicator.StoredBehindApplied | src/Replicator.cpp:96-100 | The stored number never passes the last applied file and is at most one behind it |
| Replicator.NoGaps | src/Replicator.cpp:134-140 | Every file up to the last applied one was applied |
| Replicator.OnlyUnrecordedRepeats | src/Replicator.cpp:96-105 | An applied file is attempted again only if its number was not recorded |
| Resume.Produce | src/main.cpp:1186-1281 | The reading loop computes the specified run, from the saved offset on |
| Resume.FullRunDeals | src/main.cpp:1231-1265 | A full run deals every entry before the first non-node to the node queues and everything from there on to the way queue, in order, and nothing is lost or repeated |
| Resume.SortedMeansNoNodeLate | src/main.cpp:1231-1265 | In a file in which no node comes after another entry, no node is pushed to the way queue |
| Resume.ResumeDeals | src/main.cpp:1231-1265 | A resumed run deals no node to the node queues; from its first blob on it pushes every entry, only those after the nodes when resumed at merge, all but ways when resumed at relations |
| Resume.ResumeStartsAtOffset | src/main.cpp:1197-1225 | A resumed run starts at the offset file of its phase, else at the other one where it may, else at the start of the file |
| Resume.RunPushesFlat | src/main.cpp:1229-1265 | What is pushed does not depend on how the entries are divided into blobs |
| Resume.FirstWithExactly | src/main.cpp:1240-1261 | The saved position is that of the first blob with a non-node, or a relation |
| Resume.NonNodesListed | src/main.cpp:793-794 | The way threads ignore nodes, and nothing else |
| Resume.OSMReader.Next | src/OSMReader.cpp:250-259 | Returns the next blob with data and skips the others |
| Resume.OSMReader.SeekTo | src/OSMReader.cpp:105-109 | After seeking to an offset at which a blob starts, the reader's position is that offset |
| Resume.SavedInOrder | src/main.cpp:1240-1261 | Wherever a full run is interrupted, it leaves no offset, that of the first non-node, or both |
| Resume.RunsLeave | src/main.cpp:1186-1281 | However often the import is started, at whatever phase, and interrupted, each offset file is missing or holds what one full run writes |
| Resume.ResumeFeedsTheSame | src/main.cpp:1193-1265 | With each offset file missing, empty, or as the full run writes it, a run resumed at merge or ways gives the way threads the same ways and relations as the full run, one resumed at relations the same relations |
| Resume.ResumeKeepsOffsets | src/main.cpp:1240-1261 | Rewriting the offset files during a resumed run keeps those that are there and completes them |
| Resume.ResumeWithoutOffsets | src/main.cpp:1208-1224 | Without offset files the resumed run still feeds the same |
| Resume.RunSaves | src/main.cpp:1240-1261 | A run saves the blob-aligned positions of the first non-node and the first relation |

## Left out

- PROJ, LZ4, zlib, protobuf, expat, memory mapping and PostgreSQL internals are foreign calls; `ST_DumpPoints` is assumed to keep the vertex order, as the comment at src/NavDB.cpp:803 says.
- Condition-variable wakeups, memory orders and the polling of `merge_done` are guarded steps; the shutdowns of all node queues are one step.
- The pipeline is the full run; runs resumed at merge, ways or relations are modelled for the stream they feed to the way threads. `-R reindex` is not modelled.
- The pipeline assumes entries sorted by type, positive ids, and no node, way or relation twice, as in a planet file; `Import` also assumes ways of less than 2^32 nodes.
- PipelineTables.CommitsAreNew: assumes that PostgreSQL rejects no row for its own values, that no COPY is lost, and that the tables start empty; `NavDb` models rejection and loss.
- In the pipeline, relations are rows of the areas table only; the relations and roads tables, whose tags share one buffer, and the nodes table are not modelled.
- Stitch.StitchRings: requires non-empty segments, which is what its caller passes; the source's behaviour is undefined when an empty segment starts a ring and others remain.
- StitchTheorems.ClosesByItselfIff: assumes that no coordinate is NaN, as Multipolygon.MatchedExactly does; the other stitching results hold for all bit patterns.
- Multipolygon.RelationGeomIs: says of the holes of a part only if no coordinate of its shell is NaN.
- NodeStore.WriteRefinesIff: excludes the ids congruent to 2^60 - 1 modulo 2^60 from 2^60 - 1 on, for which the bounds check itself wraps and the source's behaviour is undefined.
- OsmMMap.OSMMMap.ForWriting: requires files that are as long as what is mapped; access beyond their end is undefined.
- OsmMMap.OSMMMap.Insert: the sidecar bitmaps are assumed to be smaller than 2^57 bytes, which every file system guarantees.
- MergeCrash.CrashesDoNotMatter: does not model power loss, after which mapped pages may be missing, or a crash while shards may still hold unflushed data, since each shard is closed only when its turn comes (src/OSMMMap.cpp:357).
- NavDb.NavDB.Run: assumes that only rows are rejected; after a lost COPY, `FlushViaTemp` drops the batch but still writes its tags, and a failing tag COPY ends the process.
- PrimitiveBlock.ParseRefs: does not model 64-bit overflow of the running sums, nor does ParseMembers; for encoded lists every sum is one of the encoded ids.
- Replicator.Replicator.Poll: does not model sleeping; manual resets of the sequence number are excluded.
- The delta path's changes to the store and tables, `isArea`, argument parsing, logging, the schema, indexes, vacuum and the airport columns are easier or plumbing.
