# Streaming query accelerator: verification model

A model, in Dafny, of a streaming SQL accelerator: a table of column banks is scanned row by
row, filtered, projected and aggregated by clocked hardware that a Python query object drives
through an AXI-Lite register file. `dafny verify dfyconfig.toml` checks everything.

## How it is built

Each RTL module appears twice.

* As a **class** whose fields are its registers and memories, with one `Tick` per clock edge that
  updates them in place (`GroupbyEngine.Engine`, `AxisFifo.Fifo`, `ColumnReader.TableReader`,
  `Aggregation.AggregationTop`, `SchedulerCore.Core`, `AxiLite.Slave`, `DbqaTop.Accelerator`, and
  the smaller ones inside them). Every `Tick` ensures `State() == Next(old(State()), inputs)`, and
  the composite classes keep a `Valid()` that separates the storage of their parts.
* As a **step function** `Next` on the value of those registers, every new value computed from the
  old ones. Theorems about every run are lemmas about `Next`.

Loops of the source (predicate slots, column masking, row packing, slot writes, the mask loop, the
reference models, the probing table) are methods with loops, proved against functions.

| file | content |
|---|---|
| Options, Values, Bits, DbPkg | lists of values, words, bitwise operators, `$clog2`, derived widths, records, comparators |
| RefTable | the probing hash table without a clock, and what a table means |
| GroupbyEngine, GroupbyProof | the clocked GROUP BY engine, and that it refines the probing table |
| AxisFifo, AxisRegister, ColumnReader, Operators, Aggregation | the other pipeline stages |
| Scheduler, SchedulerCore | the query core, as a step function and as an object |
| PipelineProof, QueryProof, TimingProof, HistoryProof | what every run of the core keeps, computes, costs and forgets |
| Reference | the table-level reference models, and that completed queries meet them |
| AxiLite, Query, DbqaTop, Delivery | register file, query compiler, top level, and what a master's writes and reads amount to |
| EndToEnd, Latency, TableLoad, Operation | the path from a query object to its answer, when the answer is there, loading, and aborts, polls and whole sessions over the bus |

Parameters are symbolic: any number of rows and columns, any bucket address width A of at least
one with B = 2^A buckets and columns 4A bits wide (as the hash requires), any FIFO depth of at
least one (two inside the reader), accumulators of column width plus row-address width. The
register file, the query compiler and the end-to-end theorems use the shipped values
(1024 rows, 4 columns, A = 8).

## Main results

* **GROUP BY** (`GroupbyProof.EngineComputesGroups`, `Reference.GroupbyMeetsReference`): from any
  register and RAM contents, under any stream and any ready pattern, one beat per key among the
  first B distinct keys, with the aggregates of all that key's rows, columns not selected reading
  as zero. That is the reference dictionary of the table if and only if no passing row has a
  nonzero key or value in an unselected column and at most B keys are distinct.
* **No row lost, duplicated or reordered** (`PipelineProof.StreamConserved`), on every edge.
* **Classic answers** (`Reference.ClassicMeetsReference`): the count of the selected rows, and their
  aggregate if and only if they are undisturbed by the SELECT list; and completion only when
  everything has drained (`QueryProof.AggDoneMeansDrained`, `QueryProof.RunKeepsInv`).
* **Isolation** (`HistoryProof.HistoryIndependence`, `TimingProof.BusyStartsAreHarmless`): status,
  group stream and completed results never depend on the past. The result ports themselves keep
  the last completed query's values while the next one scans, and agree exactly as
  `HistoryIndependence` says.
* **Exact durations** (`TimingProof.ClassicDuration`, `TimingProof.GroupbyDoneIff`).
* **Compilation preserves meaning** (`Query.CompileSelects`), including the rows asked for if and
  only if the limit fits its ten bits (`Query.CompileDenotes`). Which queries run, and what the
  refused ones have written, is exact (`Query.CompileErrs`); columns are those the schema, a
  dictionary, pairs with the names (`Query.Resolve`). A query with no SELECT list of its own is
  answered from the true values (`EndToEnd.WholeRowClassic`, `EndToEnd.WholeRowGroupby`).
* **Every write is applied once** (`AxiLite.WritesAppliedOnce`), **every read answered once**
  (`Delivery.ReadsAnswered`) with the word last written or the core's state
  (`AxiLite.ReadBack`, `AxiLite.WritesApart`, `AxiLite.MuxWords`, `Operation.PolledStatus`), and the
  **table is what was committed** over any run (`TableLoad.TableFollowsWrites`).
* **End to end** (`EndToEnd.ClassicEndToEnd`, `EndToEnd.GroupbyEndToEnd`,
  `Operation.ClassicCollected`, `Operation.ResetLoadClassic`, `Operation.ResetLoadGroupby`), and
  with a responsive master **the answer arrives** (`Latency.ResponsiveClassic`,
  `Latency.ResponsiveGroupby`, `Operation.ResponsiveFromReset`).

## What the environment promises

These are hypotheses of the theorems (`Inside`, `Behaves`, `Allowed`, `Fits`, `Job.Ok`, `Drives`).

* From the edge that samples start until done, the configuration is stable and nothing is loaded.
  Reset, which is what an abort is, may come at any edge.
* Table data fits a column. Column indices of a compiled query lie within the table.
* For the GROUP BY engine on its own: operands and the row count fit the accumulator. For the whole
  core this is proved, not assumed.
* Address and data of an AXI-Lite write are presented together, which is all the slave supports;
  transfers happen when valid and ready are both high (Arm IHI 0022E, section A3.2.1). Stream
  handshakes follow IHI 0051A, sections 2.2 and 2.5; no ready pattern is excluded anywhere.

Inputs from outside (bus signals, ready signals, start pulses, earlier register and RAM contents)
are parameters, quantified over all values and all sequences.

## Where the code and its documentation disagree

The model follows the code.

* The engine header says buckets are not cleared between queries
  (`rtl/operators/groupby_engine.sv:25-26`); state S_CLEAR clears every one, and history
  independence rests on it.
* `probe_count_q <= '1` (`rtl/operators/groupby_engine.sv:238`) is the all-ones literal. The counter
  wraps through zero and a failing chain takes B + 2 probes, not B. The outcome is unaffected
  (`SecondLapMisses`, `DropIffFull`).
* The hash comment says keys sharing a low byte land in different buckets. Keys 0 and 0x10100 do
  not (`LowByteCollides`); `SharedLowChunk` says exactly which do.
* `limit` accepts any number but ten bits travel: 1025 scans one row (`LimitWraps`);
  `LimitHonouredIff` gives the limits that are honoured, and every end-to-end theorem says that
  the rows it speaks of are the rows asked for exactly then.
* A GROUP BY query with no passing row emits no beat and no tlast, so a collector waiting for tlast
  gives up (`SilentQueryIff` says exactly when; `NoRowPassesSilent` is an input).
* Aggregating a column that is not selected aggregates zeros, and an unselected GROUP BY key reads
  as zero; the reference model ignores the SELECT list. A classic opcode is answered from the true
  values on all data if and only if its column is selected or it reads none (`ProjectionMatters`,
  `TableNeedsColumn`), and on given rows exactly as `MaskedAnswerIff` says; `UnselectedSumLost` is
  a failing input. GROUP BY is if and only if key and value are both selected
  (`GroupbyNeedsProjection`, `TableNeedsProjection`), and on given rows if and only if what is not
  selected is zero already (`SameDictionaryIff`); `UnselectedKeyLost` is a failing input.
* The reference model's GROUP BY is unbounded; the hardware keeps the first B distinct keys
  (`GroupbyMeetsReference`; `ThirdKeyLost` is a failing input).

## Model

Main results first, then each class's `Tick` and the lemmas by component. Handlers, setters and
helper lemmas carry contracts of their own and have no row.

| member | source | states |
|---|---|---|
| `GroupbyProof.EngineComputesGroups` | rtl/operators/groupby_engine.sv:187-360 | a finished run, from any state the start edge met, under any stream and ready pattern, emitted exactly the groups of the first b distinct keys of the rows accepted |
| `GroupbyProof.RunRefinesTable` | rtl/operators/groupby_engine.sv:187-356 | over every run, whatever registers such as last_valid_q held before: done only with the stream ended, the beats taken equal to the reference table's dump and the edges worked equal to RunCost; before that a prefix of the dump and fewer edges |
| `Reference.GroupbyMeetsReference` | rtl/operators/groupby_engine.sv:187-360 | a completed GROUP BY query emitted one beat per key among the first b, unprojected columns reading as zero; that is the reference dictionary of the table itself if and only if no passing row loses a nonzero key or value by that and at most b keys are distinct |
| `PipelineProof.StreamConserved` | rtl/scheduler/scheduler.sv:80-182 | consumed beats, projection skid, predicate skid, FIFO and rows not yet pushed concatenate to the ideal stream of rows 0..n-1 with predicate then projection applied and tlast on the last only |
| `QueryProof.RunKeepsInv` | rtl/scheduler/scheduler.sv:199-232 | over every run of a query: S_DONE implies drained, correct latches and no overflow; the error code is start-while-busy exactly when a pulse met the running query, so the overflow code is unreachable |
| `QueryProof.AggDoneMeansDrained` | rtl/scheduler/scheduler.sv:213-221 | once the aggregation stage is done it has consumed the whole ideal stream, and reader, FIFO, both skids and every engine are idle and empty |
| `Reference.ClassicMeetsReference` | rtl/scheduler/scheduler.sv:199-232 | a completed classic query shows the reference count whatever is projected, overflow clear, and a result that is the aggregate of the selected rows if and only if masking leaves that aggregate undisturbed: the opcode reads no column, the column is projected, a zero is among the values or there are none (MIN), or all are zero (SUM, AVG, MAX); with the column projected it is the reference's; predicates may test unprojected columns |
| `HistoryProof.HistoryIndependence` | rtl/scheduler/scheduler.sv:199-239 | after any sequence of loads, queries, aborts and stray starts, the next query shows, on every edge, the status, group stream and completed results that a core freshly reset out of any state shows over the same table; the raw result ports agree if and only if the query is done or zeros were latched before it |
| `TimingProof.BusyStartsAreHarmless` | rtl/scheduler/scheduler.sv:195-221 | two runs that differ only in start pulses met while scanning agree on every register but the error code, hence on outputs and completion edge |
| `TimingProof.ClassicDuration` | rtl/memory/column_reader.sv:128-158 | a classic query over n rows is in S_DONE if and only if at least 2n+1 edges have passed since the one sampling start; the FIFO never holds more than one beat |
| `TimingProof.GroupbyDoneIff` | rtl/operators/groupby_engine.sv:215-355 | a GROUP BY query is in S_DONE if and only if the edges passed reach RunCost plus waits plus stalls plus one, with at most two waits per row; RunCost is b to clear, 1 per non-passing row, 2p+2 per row stored after p probes, 2(b+2)+1 per dropped row, 2b+1 per dump pass and 1 per group |
| `Query.CompileErrs` | scripts/dbqa/query.py:128-153 | the same of the specification Compile, so that a query is runnable by what a caller can see of it |
| `Query.CompileSelects` | scripts/dbqa/query.py:128-153 | from any prior register contents the decoded configuration passes exactly the rows on which every clause holds, has the bit of a column set if and only if some SELECT reference means it, and carries opcode, operand and the column group_by named |
| `Query.CompileDenotes` | scripts/dbqa/query.py:128-153 | from any prior register contents the decoded configuration denotes the query, the rows scanned being those asked for as the reference model reads the limit, if and only if the limit lies in 0..1024 or is a larger multiple of 1024 |
| `AxiLite.WritesAppliedOnce` | rtl/top/axi_lite_slave.sv:109-218 | over every run under any bready pattern: the register file holds exactly the captured writes, each once, in order, with one response each |
| `TableLoad.TableFollowsWrites` | rtl/top/axi_lite_slave.sv:205-216 | over any run without reset, with queries starting, running and being aborted at will, the table in the banks is what the captured writes make of it: each commit stores the row the load registers hold, one edge later, and nothing else ever changes it |
| `Delivery.ReadsAnswered` | rtl/top/axi_lite_slave.sv:135-146 | over every run each accepted read address gets exactly one answer, in order, with the word the mux shows for it on the edge that takes it; ReadBack, WritesApart and MuxWords say which word that is |
| `EndToEnd.ClassicEndToEnd` | scripts/dbqa/query.py:128-165 | from query object to the words shown: once done shows, the count is that of the rows selected among those scanned, which are those asked for if and only if the limit can be carried; the result is the aggregate of their values, zeros when the column is unselected, and that of the rows themselves if and only if they are undisturbed by it; whatever the registers held and however bus and stages were paced |
| `EndToEnd.GroupbyEndToEnd` | scripts/dbqa/query.py:128-182 | from query object to the group stream: once done shows, the beats are the groups of the first 256 distinct keys, unselected columns as zero; over the rows scanned they are the reference dictionary if and only if no passing row has a nonzero key or value in an unselected column and at most 256 keys are distinct; there are none if and only if no row passes; the result registers read zero |
| `EndToEnd.WholeRowClassic` | scripts/dbqa/query.py:64-75 | a classic query with no SELECT list of its own is answered from the true values whenever the schema names its operand column |
| `EndToEnd.WholeRowGroupby` | scripts/dbqa/query.py:64-75 | a GROUP BY query with no SELECT list of its own emits the reference dictionary if and only if at most 256 keys are distinct, whenever the schema names key and operand |
| `Operation.PolledStatus` | scripts/dbqa/query.py:190-197 | polls after the start write's answer read 1 or 2, 2 if and only if the query is done, and after a 2 only 2 |
| `Operation.ClassicCollected` | scripts/dbqa/query.py:159-188 | after a status read, taken after the start write's answer, that shows done, the five result reads, in any order, at any pace and among any others, join to the answer as ClassicEndToEnd states it, overflow zero |
| `Operation.AbortMidQuery` | rtl/top/dbqa_top.sv:78-79 | a query aborted over the bus leaves the design at rest over its table, so the next query's theorems apply |
| `Operation.ResetLoadClassic` | scripts/dbqa/query.py:128-165 | reset in any state, a table loaded over the bus, a classic query: once done shows, the answer is, over the rows loaded, as ClassicEndToEnd states it |
| `Operation.ResetLoadGroupby` | scripts/dbqa/query.py:128-182 | reset in any state, a table loaded over the bus, a GROUP BY query: once done shows, the stream is, over the rows loaded, as GroupbyEndToEnd states it |
| `Latency.ResponsiveClassic` | scripts/dbqa/query.py:128-165 | under a master that always presents its next write and takes every response, a classic query over n rows shows done if and only if 2n+17 edges have passed since its first write, and then the answer as ClassicEndToEnd states it |
| `Latency.ResponsiveGroupby` | scripts/dbqa/query.py:128-182 | under such a master a GROUP BY query is done, its stream as GroupbyEndToEnd states it, within the engine's work for its rows, two edges a row and 17 more |
| `Operation.ResponsiveFromReset` | scripts/dbqa/query.py:128-165 | reset in any state, then such a master loading a table and writing a classic query: done shows if and only if 2n+17 edges have passed since the query's first write, with the answer over the rows loaded as ClassicEndToEnd states it |
| `AxisFifo.RefinesQueue` | rtl/interfaces/axis_fifo.sv:66-124 | for every depth, power of two or not, and every push and pop pattern, RAM, wrapping pointers, forwarding and output register are one bounded queue; the pointer relation left open by draining is restored by the forwarding push |
| `Aggregation.LockstepAlways` | rtl/operators/aggregation_top.sv:70-175 | over every run under any inputs the five engines agree on busy and done, AVG's sum and overflow are SUM's and its count is COUNT's, so COUNT's ready speaks for all |
| `RefTable.HashInRange` | rtl/operators/groupby_engine.sv:145-154 | the folded hash of any key is a bucket address |
| `RefTable.HashBits` | rtl/operators/groupby_engine.sv:145-154 | each bit of the folded hash is the parity of that bit of the four chunks of the key, at every bucket address width |
| `RefTable.HashSeparates` | rtl/operators/groupby_engine.sv:145-154 | keys that differ in exactly one bucket-address-wide chunk hash to different buckets |
| `RefTable.SharedLowChunk` | rtl/operators/groupby_engine.sv:145-154 | keys sharing the low chunk land in different buckets if and only if their upper three chunks fold differently: exactly when the comment's claim holds |
| `RefTable.LowByteCollides` | rtl/operators/groupby_engine.sv:145-154 | keys 0 and 0x10100 share a low byte and the same bucket, against the comment |
| `RefTable.SlotWraps` | rtl/operators/groupby_engine.sv:264-269 | the probe address repeats after one lap of the table |
| `RefTable.SlotCovers` | sim/tb_groupby.cpp:71-75 | the first b probes of any key reach every bucket |
| `RefTable.Search` | sim/tb_groupby.cpp:71-93 | returns the first probe that meets a free bucket or the key, or b when every probe misses |
| `RefTable.ProbingTable.Add` | sim/tb_groupby.cpp:71-93 | in place: the array becomes the specification Insert of what it was: place at the first free probe, fold at the matching one, leave the table alone when the chain is exhausted |
| `RefTable.ProbingMeans` | rtl/operators/groupby_engine.sv:230-291 | the probing invariant is equivalent to: each valid bucket is reached from its key's hash over valid buckets of other keys only; and it makes resident keys unique |
| `RefTable.InsertKeepsProbing` | sim/tb_groupby.cpp:71-93 | inserting any row keeps the probing invariant |
| `RefTable.DroppedIff` | sim/tb_groupby.cpp:71-93 | a row is dropped if and only if every bucket is valid and holds another key |
| `RefTable.TableMeans` | sim/tb_groupby.cpp:71-93 | after any stream the resident keys are exactly the first b distinct passing keys, and each bucket holds count, saturated sum, min and max over all passing rows of its key |
| `GroupbyEngine.BucketRam.Edge` | rtl/operators/groupby_engine.sv:99-116 | one RAM edge: the registered write is committed and the read register takes the word from before it |
| `GroupbyEngine.Engine.Tick` | rtl/operators/groupby_engine.sv:187-356 | one clock edge of the whole engine: every register and the RAM become what Next, the step the proofs speak of, computes from the old ones |
| `GroupbyEngine.Next` | rtl/operators/groupby_engine.sv:187-356 | on every edge the read stage, indices, addresses and the probe counter stay within their widths |
| `GroupbyProof.StartEstablishes` | rtl/operators/groupby_engine.sv:207-214 | a start edge met in any state at all establishes the run invariant |
| `GroupbyProof.EdgeKeepsInv` | rtl/operators/groupby_engine.sv:215-355 | every later edge, whatever the inputs, keeps it: RAM against reference table, probe path, dump progress, edge count |
| `GroupbyProof.SecondLapMisses` | rtl/operators/groupby_engine.sv:238-269 | probes b and b+1, past the wrap of the counter, can only miss |
| `GroupbyProof.DropEdge` | rtl/operators/groupby_engine.sv:254-263 | the chain that gives up leaves the RAM equal to the reference table of the rows including the dropped one |
| `GroupbyProof.StoreEdge` | rtl/operators/groupby_engine.sv:270-275 | the registered write makes the RAM the reference table of the rows including the stored one |
| `GroupbyProof.UpdateIsPut` | rtl/operators/groupby_engine.sv:156-182 | within the accumulator's range the width-limited update is the unbounded one |
| `GroupbyProof.SatAddIsMin` | rtl/operators/groupby_engine.sv:159-178 | the carry-out adder computes the minimum of the true sum and all ones |
| `GroupbyProof.EveryEdgeProbing` | rtl/operators/groupby_engine.sv:109-116 | at every reachable edge after clearing, the RAM viewed with its registered write satisfies the probing invariant and is the reference table of the rows processed |
| `GroupbyProof.DropIffFull` | rtl/operators/groupby_engine.sv:254-275 | when a chain ends, the row is dropped if and only if all buckets are valid with other keys, then after exactly b+2 probes; otherwise it is stored at the reference search's probe and bucket |
| `GroupbyProof.StalledBeatHolds` | rtl/operators/groupby_engine.sv:314-326 | a beat offered and not taken is offered again unchanged |
| `GroupbyProof.DumpShape` | rtl/operators/groupby_engine.sv:294-351 | the dump of a table is its valid buckets in strictly increasing order with tlast on exactly the final beat; RunRefinesTable makes every run emit it |
| `GroupbyProof.DumpIsGroups` | rtl/operators/groupby_engine.sv:294-360 | so it is one beat per admitted key, each key once, with its aggregates |
| `GroupbyProof.SilentIff` | rtl/operators/groupby_engine.sv:327-346 | beats that are the groups of a row list are none if and only if no row of it passes |
| `GroupbyProof.BucketsBounded` | rtl/operators/groupby_engine.sv:370-376 | every write registered and every bucket stored counts at most the rows accepted, sums within the accumulator, and holds extremes within it |
| `GroupbyProof.RunCostGrows` | rtl/operators/groupby_engine.sv:215-355 | a longer stream never costs fewer engine edges |
| `DbPkg.RowsFitAddress` | rtl/common/db_pkg.sv:36-37 | the derived address width reaches every row, at any table size |
| `DbPkg.AccumulatorSuffices` | rtl/common/db_pkg.sv:42-45 | the derived accumulator holds the row count, every operand, and the sum of any scan of the table |
| `Operators.EvalSlots` | rtl/operators/predicate_engine.sv:62-83 | the loop returns the left-to-right fold of the enabled slots, true when none is enabled |
| `Operators.AllAndIsConjunction` | rtl/common/db_pkg.sv:108-112 | when every enabled slot after the first combines by AND, a row passes if and only if every enabled slot holds on it; the first one's combine bit and disabled slots are free |
| `Operators.AllOrIsDisjunction` | rtl/common/db_pkg.sv:108-112 | when some slot is enabled and every enabled one after the first combines by OR, a row passes if and only if some enabled slot holds on it |
| `Operators.FoldMeans` | rtl/operators/predicate_engine.sv:62-83 | at any mix of AND and OR, the fold of the enabled slots holds if and only if some slot that is first or joined by OR is true and every later slot is true or joined by OR |
| `Operators.MaskColumns` | rtl/operators/projection_engine.sv:51-55 | the loop zeroes exactly the columns whose mask bit is clear |
| `Operators.PredicateEngine.Evaluate` | rtl/operators/predicate_engine.sv:62-83 | columns and tlast pass through; pass becomes the WHERE clause |
| `Operators.ProjectionEngine.Mask` | rtl/operators/projection_engine.sv:51-55 | pass and tlast pass through; columns become the projection |
| `Aggregation.CountEngine.Tick` | rtl/operators/count_engine.sv:61-80 | one edge of COUNT in place |
| `Aggregation.SumEngine.Tick` | rtl/operators/sum_engine.sv:84-106 | one edge of SUM in place, saturating with a sticky overflow |
| `Aggregation.MinEngine.Tick` | rtl/operators/min_engine.sv:64-83 | one edge of MIN in place, from the all-ones sentinel |
| `Aggregation.MaxEngine.Tick` | rtl/operators/max_engine.sv:64-83 | one edge of MAX in place, from zero |
| `Aggregation.AvgEngine.Tick` | rtl/operators/avg_engine.sv:91-119 | one edge of AVG in place: sum and count together |
| `Aggregation.ClassicEdge` | rtl/operators/sum_engine.sv:64-106 | each edge keeps every accumulator equal to count, min(true sum, all ones), overflow flag exactly on a true sum beyond it, minimum and maximum of the passing values so far |
| `Aggregation.ClassicStart` | rtl/operators/aggregation_top.sv:70-73 | a start edge met in any state begins from the sentinels |
| `Aggregation.ClassicAnswers` | rtl/operators/aggregation_top.sv:200-220 | when done, the mux shows the selected opcode's answer, the passing-row count, and overflow if and only if the true sum does not fit |
| `Aggregation.AggregationTop.Tick` | rtl/operators/aggregation_top.sv:66-175 | one edge of all six engines in place, routed by groupby |
| `Aggregation.AggregationTop.Outputs` | rtl/operators/aggregation_top.sv:200-220 | the output mux reads the engines as the specification does |
| `AxisFifo.PushAppends` | rtl/interfaces/axis_fifo.sv:93-97 | a push into a non-empty FIFO appends to its contents and never lands on a word still to be read |
| `AxisFifo.PopDrops` | rtl/interfaces/axis_fifo.sv:99-103 | a pop that leaves words drops the head and presents the next word from the RAM |
| `AxisFifo.Fifo.Tick` | rtl/interfaces/axis_fifo.sv:86-124 | in place: registers become the specified ones and the queue held becomes QueueNext of the queue held |
| `AxisFifo.QueueDelivers` | rtl/interfaces/axis_fifo.sv:66-124 | fed a stream in order, the queue delivers it in order under any ready |
| `AxisRegister.SkidConserves` | rtl/interfaces/axis_register.sv:52-82 | held then accepted equals delivered then held next: nothing lost, duplicated or reordered |
| `AxisRegister.SkidCarries` | rtl/interfaces/axis_register.sv:52-82 | fed a stream in order, the stage delivers it in order under any ready |
| `AxisRegister.SkidRegister.Tick` | rtl/interfaces/axis_register.sv:61-82 | one edge in place: stores its input only when empty and stalled |
| `ColumnReader.ColumnMemory.Tick` | rtl/memory/column_memory.sv:57-67 | in place: the read port returns the word from before a write on the same edge |
| `ColumnReader.TickBanks` | rtl/memory/column_reader.sv:91-111 | all banks step with one address, each with its own column of the load |
| `ColumnReader.PackRow` | rtl/memory/column_reader.sv:167-172 | the packing loop returns the read registers as one row |
| `ColumnReader.LastRowIsScanRows` | rtl/memory/column_reader.sv:121-126 | the last-row clamp ends the scan after exactly the bounded number of rows, 0 meaning all |
| `ColumnReader.TableReader.Tick` | rtl/memory/column_reader.sv:128-194 | one edge of reader FSM, banks and output FIFO in place |
| `PipelineProof.ReaderEdge` | rtl/memory/column_reader.sv:128-158 | each edge keeps the reader on row e: the bank output is that row whenever the pending gate is open, and e advances exactly on an accepted push |
| `PipelineProof.ReaderPushes` | rtl/memory/column_reader.sv:113-194 | what is pushed is row e of the table, with tlast exactly on the last row of the scan |
| `PipelineProof.PipeEdge` | rtl/scheduler/scheduler.sv:109-182 | FIFO, skid, skid keep carrying one stream seen through two maps, and the words held change only by what enters and leaves |
| `PipelineProof.StagesEdge` | rtl/scheduler/scheduler.sv:109-182 | on every edge the beat offered to aggregation is the next beat of the ideal stream |
| `PipelineProof.FlowEdge` | rtl/scheduler/scheduler.sv:80-182 | every edge of a query keeps the whole pipeline invariant |
| `SchedulerCore.Core.Tick` | rtl/scheduler/scheduler.sv:80-232 | one clock edge of the core in place: stages and control FSM become what Next computes from the old state |
| `SchedulerCore.NewCore` | rtl/scheduler/scheduler.sv:80-191 | a core whose stages share no storage exists, over any bucket contents |
| `QueryProof.StartEdge` | rtl/scheduler/scheduler.sv:195-212 | from any quiet state, the edge that samples start begins a query on the current table and configuration |
| `QueryProof.ScanEdge` | rtl/scheduler/scheduler.sv:80-182 | every edge inside a query keeps flow and aggregation invariants together |
| `QueryProof.CompletionEdge` | rtl/scheduler/scheduler.sv:213-221 | the edge into S_DONE latches result, count and overflow of the ideal stream |
| `QueryProof.QuietEdge` | rtl/scheduler/scheduler.sv:208-228 | between queries any edge keeps the core quiet, whatever is loaded or reconfigured |
| `QueryProof.NeverOverflows` | rtl/scheduler/scheduler.sv:215-220 | no scan saturates SUM at any width and table size |
| `QueryProof.CountsBounded` | rtl/operators/groupby_engine.sv:370-376 | while a query scans, COUNT's and AVG's accumulators and every bucket written count at most the table's rows |
| `TimingProof.GroupbyDuration` | rtl/scheduler/scheduler.sv:199-232 | every edge of a GROUP BY query is an engine working edge, a wait for a row or an output stall |
| `HistoryProof.LikeGbEdge` | rtl/operators/groupby_engine.sv:187-356 | two engines that differ only in stale registers and stale RAM stay so |
| `HistoryProof.LikeGbStart` | rtl/operators/groupby_engine.sv:207-214 | a start edge makes any two engines alike |
| `HistoryProof.LatchesHold` | rtl/scheduler/scheduler.sv:213-221 | while a query scans, the result, count and overflow ports keep the values latched before it |
| `HistoryProof.SameQuerySamePorts` | rtl/scheduler/scheduler.sv:199-239 | the same query on two quiet cores over the same table shows, on every edge, the same status, group stream and, once done, results; the result ports agree during the scan if and only if they agreed before it |
| `HistoryProof.ResetQuiets` | rtl/scheduler/scheduler.sv:199-205 | reset from any state leaves a quiet core with its table |
| `HistoryProof.ResetOpensSession` | rtl/scheduler/scheduler.sv:199-205 | reset establishes the session invariant from any state over column data |
| `HistoryProof.SessionKeepsInv` | rtl/scheduler/scheduler.sv:199-232 | over any sequence of loads, queries, aborts and stray starts, a core not scanning is quiet and the overflow code never shows |
| `Reference.OnePredicate` | scripts/dbqa/reference.py:21-34 | the reference model's optional predicate is a one-slot WHERE clause |
| `Reference.ClassicReference` | scripts/dbqa/reference.py:49-71 | the loop returns count, saturated sum, min and max, with sentinels, of the rows selected among those asked for |
| `Reference.PaddedSame` | scripts/dbqa/reference.py:58 | a table with fewer rows than asked for gives what the table filled up with rows of zeros gives |
| `Reference.GroupbyReference` | scripts/dbqa/reference.py:74-90 | the loop returns the dictionary folded over the rows asked for |
| `Reference.PaddedGroups` | scripts/dbqa/reference.py:79 | the same of the rows GROUP BY sees |
| `Reference.RefMapMeans` | scripts/dbqa/reference.py:74-90 | the dictionary holds exactly the keys with a passing row, each with its aggregates over all of them |
| `Reference.AdmittedIsFirst` | sim/tb_groupby.cpp:71-93 | the keys a full table admits are the first b distinct ones in arrival order |
| `Reference.MaskedAnswerIff` | scripts/dbqa/reference.py:49-71 | reading zeros for the selected values leaves an opcode's answer as it is if and only if the opcode reads no column, the column is projected, a zero is among the values or there are none (MIN), or all of them are zero (SUM, AVG, MAX) |
| `Reference.ProjectionMatters` | rtl/operators/projection_engine.sv:51-55 | over all value lists an opcode is answered from the true values if and only if its column is projected or it reads none |
| `Reference.TableNeedsColumn` | rtl/operators/projection_engine.sv:51-55 | the same over all WHERE clauses and all tables of a design |
| `Reference.UnselectedSumLost` | scripts/dbqa/reference.py:49-71 | a one-row table: every completed run of a sum over an unselected column shows 0, and the selected row's sum is 7 |
| `Reference.ProjectedRows` | rtl/operators/projection_engine.sv:51-55 | with key and value projected the engine receives the reference model's rows |
| `Reference.SameDictionaryIff` | scripts/dbqa/reference.py:74-90 | masking key or value leaves the reference dictionary as it is if and only if no passing row has a nonzero value in a masked column |
| `Reference.GroupbyNeedsProjection` | rtl/operators/projection_engine.sv:51-55 | over all row lists GROUP BY is answered from the true keys and values if and only if both columns are projected |
| `Reference.TableNeedsProjection` | rtl/operators/projection_engine.sv:51-55 | the same over all WHERE clauses and all tables of a design |
| `Reference.UnselectedKeyLost` | scripts/dbqa/reference.py:74-90 | a one-row table grouped by an unselected column: no completed run emits the reference dictionary |
| `Reference.SilentQueryIff` | scripts/dbqa/query.py:167-182 | a completed GROUP BY query has emitted no beat, hence no tlast, if and only if no row it asks for passes |
| `Reference.NoRowPassesSilent` | scripts/dbqa/query.py:167-182 | a one-row table and a WHERE clause it does not meet: every completed run is silent |
| `Reference.ThirdKeyLost` | sim/tb_groupby.cpp:71-93 | two buckets and three distinct keys: no completed run emits the reference dictionary |
| `AxiLite.ShippedWidths` | rtl/common/db_pkg.sv:27-45 | the shipped parameters give 32-bit columns, 42-bit accumulators, 10-bit row addresses and 256 buckets |
| `AxiLite.RegisterFile.Store` | rtl/top/axi_lite_slave.sv:187-217 | in place: a captured word changes its register, slot half or load word, and nothing else |
| `AxiLite.Slave.Tick` | rtl/top/axi_lite_slave.sv:109-218 | one edge of handshakes, register file and strobes in place |
| `Delivery.DeliveredEdge` | rtl/top/axi_lite_slave.sv:109-218 | each edge delivers at most the master's next write and raises exactly the strobe that write asks for |
| `AxiLite.StrobesArePulses` | rtl/top/axi_lite_slave.sv:182-216 | a strobe implies a capture on the edge before and bars the next capture |
| `AxiLite.ReadBack` | rtl/top/axi_lite_slave.sv:234-267 | every configuration word reads back as written, up to its register's width |
| `AxiLite.WritesApart` | rtl/top/axi_lite_slave.sv:182-267 | a write changes the reading of its own word and of no other; a word with no register changes nothing |
| `AxiLite.MuxWords` | rtl/top/axi_lite_slave.sv:234-267 | the result words read the two halves of the latches; the status word shows busy in bit 0 if and only if S_SCAN, done in bit 1 if and only if S_DONE, and error 0, 1 or 2 above; a word that is mapped nowhere reads zero |
| `AxiLite.WordAddresses` | rtl/top/axi_lite_slave.sv:96-100 | a word answers to its four byte addresses and to their aliases above 16 address bits |
| `Query.MaskBits` | scripts/dbqa/regs.py:101-106 | bit c of the mask is set if and only if column c is listed |
| `Query.PackProjMask` | scripts/dbqa/regs.py:101-106 | the loop returns the mask of the listed columns, truncated |
| `Query.PackAggDecodes` | scripts/dbqa/regs.py:77-80 | unpacking a packed aggregate configuration gives back its fields |
| `Query.PackPredDecodes` | scripts/dbqa/regs.py:88-98 | unpacking a packed predicate slot gives back its fields |
| `Query.LimitHonouredIff` | scripts/dbqa/regs.py:83-85 | the packed limit scans the rows the reference model reads if and only if it lies in 0..1024 or is a larger multiple of 1024 |
| `Query.LimitWraps` | scripts/dbqa/regs.py:83-85 | a limit of 1025 scans one row instead of 1024 |
| `Query.NewQuery` | scripts/dbqa/query.py:64-75 | a schema not naming four columns is refused; otherwise the query projects exactly the table columns its schema names, and every name it selects is known |
| `Query.Lookup` | scripts/dbqa/query.py:78-83 | a name gives a column the schema pairs with it, or nothing exactly when no pair has that name |
| `Query.Resolve` | scripts/dbqa/query.py:78-83 | over a dictionary a name means column i if and only if the schema pairs them, an index means itself, and only a name no pair has is unknown |
| `Query.ResolveAll` | scripts/dbqa/query.py:144-145 | the list of columns meant, element by element, or nothing exactly when some name is unknown |
| `Query.AllResolve` | scripts/dbqa/query.py:71 | selecting every name of the schema resolves to the schema's columns, each in its place |
| `Query.AllProjected` | scripts/dbqa/query.py:71-145 | a query with no SELECT list of its own has no unknown column and projects c if and only if c is a table column the schema maps some name to |
| `Query.Query.Where` | scripts/dbqa/query.py:90-97 | a third clause, an operator other than the six and a name the schema lacks are refused in that order and change nothing; else one clause is appended whose column is the one meant, whose operand is the value masked to 32 bits, and which the comparator answers as the comparison written |
| `Query.OperatorMeans` | rtl/common/db_pkg.sv:185-202 | each of the six WHERE operators has a code, and through it the hardware comparator is the comparison as written |
| `Query.OtherCodesFail` | rtl/common/db_pkg.sv:185-202 | a comparator code that none of the six operators has never holds |
| `Query.OpCode` | scripts/dbqa/regs.py:59-66 | exactly the six operators have a code |
| `Query.Query.GroupBy` | scripts/dbqa/query.py:99-101 | the key becomes the column meant, and nothing else changes; a name the schema lacks is refused |
| `Query.Query.Aggregate` | scripts/dbqa/query.py:107-125 | the aggregate becomes the opcode and the column meant, column 0 for a bare count; a name the schema lacks is refused |
| `Query.Query.Execute` | scripts/dbqa/query.py:128-153 | the loop issues what Compile says: no write and an error if and only if there is no aggregate; the four slot words and an error if and only if a selected name is unknown; otherwise no error, the four slot words, mask, aggregate and limit, and last the start bit |
| `Query.SlotsApplied` | scripts/dbqa/query.py:135-144 | the slot writes leave exactly the query's clauses in the slots and disable the rest, whatever they held |
| `Query.CompiledRegisters` | scripts/dbqa/query.py:128-153 | from any prior register contents: slots, opcode, operand, the key named by group_by, a mask with exactly the projected columns' bits, and the limit |
| `Query.ClausesConjoin` | scripts/dbqa/query.py:90-97 | the compiled slots pass a row if and only if every clause holds on it |
| `DbqaTop.Accelerator.Tick` | rtl/top/dbqa_top.sv:78-151 | one edge of the whole design in place; the core samples the registers as they were |
| `DbqaTop.AbortCancels` | rtl/top/dbqa_top.sv:78-79 | abort cancels whatever runs, leaves the core quiet, and keeps registers and table |
| `TableLoad.RowRegisters` | rtl/top/axi_lite_slave.sv:187-216 | a row's load writes leave its address and words in the load registers |
| `TableLoad.RowLoaded` | rtl/memory/column_reader.sv:91-111 | a row written over the bus at any pace replaces that row of the table and no other, and the design is at rest again |
| `TableLoad.TableLoaded` | scripts/dbqa/backend.py:38-53 | rows stored one after the other are the top rows of the table, the rest as before |
| `TableLoad.TableOverBus` | scripts/dbqa/backend.py:38-53 | a table written row by row over the bus, each row at any pace, is in the banks with what lay below it unchanged, and the design is at rest |
| `EndToEnd.ResetRests` | rtl/top/dbqa_top.sv:78-79 | reset in any state puts the whole design at rest |
| `EndToEnd.ResetReadsZero` | rtl/top/axi_lite_slave.sv:172-181 | after a reset met in any state every word of the register map reads zero |
| `EndToEnd.UseKeepsInv` | rtl/top/axi_lite_slave.sv:109-218 | while a query's writes arrive at any pace the core waits; it starts exactly once, after the last |
| `EndToEnd.DoneRests` | rtl/scheduler/scheduler.sv:223-228 | a finished query leaves the design at rest over the same table, so queries compose |
| `EndToEnd.ReadsLatched` | scripts/dbqa/query.py:184-187 | joining the two words the read mux shows gives the latched value back, and the done bit shows S_DONE |
| `EndToEnd.StatusOfRun` | rtl/top/axi_lite_slave.sv:241 | a status read of any run shows busy until done, then done, and an error field of 1 if and only if a start pulse has met the running query, else 0 |
| `EndToEnd.StatusAtDone` | rtl/scheduler/scheduler.sv:215-221 | from any state of the core, the status after the completing edge shows done with error 2 for an overflowed SUM, else 1 for a start pulse on that edge, else as it was |
| `EndToEnd.StatusShown` | rtl/top/axi_lite_slave.sv:241 | for a query driven over the bus the status word is exactly 1 from the start write's answer until done, then exactly 2 |
| `EndToEnd.QueryUnderWay` | scripts/dbqa/query.py:128-157 | once the start write is answered the query running or done is the one compiled, never a leftover |
| `EndToEnd.JobMeans` | scripts/dbqa/query.py:128-153 | the job behind a compiled query in the query's own terms: rows scanned, columns projected, values selected, rows grouped by the column group_by named |
| `EndToEnd.AnswerIff` | scripts/dbqa/query.py:128-153 | the answer a query shows is that of the rows it selects if and only if they are undisturbed by its SELECT list |
| `Latency.RunMaps` | rtl/top/dbqa_top.sv:78-151 | from the edge that samples the start strobe on, the design is a run of the core inside the query, with the same state and trace |
| `Latency.ClassicLatency` | rtl/scheduler/scheduler.sv:199-232 | a classic query's done bit reads as set if and only if 2n+1 edges have passed since the strobe was sampled, whatever the bus does |
| `Latency.GroupbyLatency` | rtl/operators/groupby_engine.sv:215-355 | a GROUP BY query's done bit reads as set if and only if the edges since the strobe reach the engine's work for the selected rows plus waits (at most two a row) plus output stalls plus one |
| `Latency.EagerPace` | rtl/top/axi_lite_slave.sv:109-148 | a master that always presents its next write and takes every response is answered once per two edges, whatever it writes |
| `Latency.EagerSteps` | rtl/top/axi_lite_slave.sv:109-148 | and its compiled query has the start strobe up after the fifteenth edge |
| `Operation.AbortRests` | rtl/top/dbqa_top.sv:78-79 | writing the abort bit over the bus, whatever the core is doing, ends at rest with the same table and registers |
| `Operation.DoneStays` | rtl/scheduler/scheduler.sv:223-228 | a finished query stays finished while nothing is written |
| `Operation.PolledDone` | scripts/dbqa/query.py:190-197 | once a status read taken after the start write's answer shows done, every later read is taken with the query done |
| `Operation.ResponsiveLoad` | scripts/dbqa/backend.py:38-53 | from rest a responsive master loads any table of column data, twelve edges a row |

## Left out

- Polling and stream-collection limits of the Python client (`_wait_done`, `_collect_groups`): timeouts around I/O. The theorems speak of the state in which the done bit reads as set, and the duration theorems of when it is.
- The floating-point `avg` property: the model ends at the sum and count it divides.
- Simulation back ends, the demo, trace helpers and testbenches other than the probing table: they only drive the design.
- `groupby_ref` of the C++ reference: it neither saturates nor tracks minimum and maximum; the Python reference is modelled instead.
- Power-on unknowns: an object starts from arbitrary RAM contents and reset registers, and the run theorems from any register values.
- Column indices beyond the table: the RTL leaves them undefined. `DbPkg.Col` reads them as zero, and only in-table indices appear in compiled queries.
- Row addresses beyond the table: a load there is ignored and a read gives zero; the reader never issues one.
- Loading or reconfiguring during a scan: the design neither defines nor guards it.
- Write strobes and response codes of AXI-Lite, and masters that present address without data: the slave ignores the former and does not support the latter.
- Stability of a read's data while its response waits and the status registers change under it: the code does not provide it. `Delivery.ReadsAnswered` says what the edge that takes the response returns.
- Port A read data and port B writes of a column bank: nothing is connected to them.
- Separate `count`, `sum`, `min`, `max` and `avg` clause methods: they differ only in the opcode and are one method taking it.
- Negative column indices, in the schema or given directly: they are non-negative. The schema is a dictionary, modelled as pairs with distinct names in insertion order.
- The masking of loaded values to 32 bits by the Python loader: row words are given already masked.
- Synthesis, timing closure and power, and the assertions compiled under DBQA_ASSERT as such. Their bounds on counts and probe indices are `QueryProof.CountsBounded` and `GroupbyEngine.Next`; those on undriven inputs and sampling are not stated.
