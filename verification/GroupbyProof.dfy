/** The clocked GROUP BY engine refines the probing table, for every earlier register and
    RAM contents, every input stream and every output-ready pattern. */
module GroupbyProof {
  import opened Values
  import opened Bits
  import opened RefTable
  import opened DbPkg
  import opened GroupbyEngine

  /** What has crossed the engine's ports since the start edge: rows accepted, groups taken,
      and the edges on which the engine was neither waiting for a row nor stalled. */
  datatype Hist = Hist(rows: seq<Row>, beats: seq<GroupBeat>, work: nat)

  const NO_HIST := Hist([], [], 0)

  function HistNext(s: Gb, i: In, h: Hist): Hist {
    Hist(if Ready(s) && i.valid then h.rows + [i.row] else h.rows,
         if OutValid(s) && i.ready then h.beats + [OutBeat(s)] else h.beats,
         if s.busy && !(Ready(s) && !i.valid) && !(OutValid(s) && !i.ready) then h.work + 1 else h.work)
  }

  // ------------------------------------------------------------------ specification of a run

  /** No row of the stream so far carried tlast. */
  predicate Open(rows: seq<Row>) {
    forall r | r in rows :: !r.last
  }

  /** The stream has ended: its last row, and only that one, carries tlast. */
  predicate Ended(rows: seq<Row>) {
    rows != [] && rows[|rows| - 1].last && Open(rows[..|rows| - 1])
  }

  /** The environment's promise: operands and the row count fit the accumulator. */
  predicate Fits(m: nat, rows: seq<Row>) {
    |rows| <= m && forall r | r in rows :: r.val <= m
  }

  /** Edges spent on one row, given the table it meets. */
  function RowCost(t: Table, r: Row): nat
    requires |t| > 0
  {
    var q := Search(t, r.key, 0);
    if !r.pass then 1
    else if q == |t| then 2 * (|t| + 2) + 1
    else 2 * (q + 1) + 2
  }

  function Cost(b: nat, m: nat, rows: seq<Row>): nat
    requires b > 0
  {
    if rows == [] then 0
    else
      var r0 := rows[..|rows| - 1];
      Cost(b, m, r0) + RowCost(TableOf(b, m, r0), rows[|rows| - 1])
  }

  /** The greatest valid index below n; -1 when there is none. */
  function LastValid(t: Table, n: nat): (l: int)
    requires n <= |t|
    ensures -1 <= l < n
    ensures l >= 0 ==> t[l].valid
    ensures forall i | l < i < n :: !t[i].valid
  {
    if n == 0 then -1 else if t[n - 1].valid then n - 1 else LastValid(t, n - 1)
  }

  /** The dump of the first n buckets: one beat per valid bucket, tlast on the last of all. */
  function Beats(t: Table, n: nat): (bs: seq<GroupBeat>)
    requires n <= |t|
    ensures |bs| <= n
  {
    if n == 0 then []
    else if t[n - 1].valid then Beats(t, n - 1) + [GroupBeat(t[n - 1].g, n - 1 == LastValid(t, |t|))]
    else Beats(t, n - 1)
  }

  function DumpOf(t: Table): seq<GroupBeat> {
    Beats(t, |t|)
  }

  /** Edges of a whole run outside input-idle and output-stall edges. */
  function RunCost(b: nat, m: nat, rows: seq<Row>): nat
    requires b > 0
  {
    b + Cost(b, m, rows) + (2 * b + 1) + (2 * b + 1) + |DumpOf(TableOf(b, m, rows))|
  }

  // ------------------------------------------------------------------ the invariant

  /** How many probes of the current row have been made, read off the wrapping counter. */
  function Probes(b: nat, count: nat): nat {
    if count + 1 == 2 * b then 0 else count + 1
  }

  ghost predicate Inv(p: Params, s: Gb, h: Hist) {
    && Wf(p, s)
    && Fits(p.accMax, h.rows)
    && (s.done <==> !s.busy)
    && (if s.done then DoneInv(p, s, h)
        else match s.phase
          case Clear => ClearInv(p, s, h)
          case AggIdle => IdleInv(p, s, h)
          case AggRd => RdInv(p, s, h)
          case AggWrite => WriteInv(p, s, h)
          case Scan => ScanInv(p, s, h)
          case Present => PresentInv(p, s, h))
  }

  ghost predicate ClearInv(p: Params, s: Gb, h: Hist)
    requires Wf(p, s)
  {
    && h == Hist([], [], s.clearIdx)
    && !s.dump.hold && (s.ram.wen ==> s.ram.wdata == ZERO_BUCKET)
    && forall i | 0 <= i < s.clearIdx :: s.ram.Eff()[i] == ZERO_BUCKET
  }

  ghost predicate IdleInv(p: Params, s: Gb, h: Hist)
    requires Wf(p, s)
  {
    && Open(h.rows) && h.beats == [] && !s.dump.hold
    && s.ram.Eff() == TableOf(p.B(), p.accMax, h.rows)
    && h.work == p.B() + Cost(p.B(), p.accMax, h.rows)
  }

  ghost predicate RdInv(p: Params, s: Gb, h: Hist)
    requires Wf(p, s)
  {
    var b := p.B();
    && h.rows != [] && h.beats == [] && !s.dump.hold
    && var r0, r := h.rows[..|h.rows| - 1], h.rows[|h.rows| - 1];
    && Open(r0) && r == Row(true, s.cur.key, s.cur.val, s.cur.last)
    && !s.ram.wen && s.ram.mem == TableOf(b, p.accMax, r0)
    && var j := Probes(b, s.cur.probeCount);
    && j <= b + 1
    && s.cur.probeIdx == Slot(b, s.cur.key, j) == s.ram.raddr
    && (forall q: nat | q < j && q < b :: !Stops(s.ram.mem, s.cur.key, q))
    && 1 <= s.stage <= 2
    && (s.stage == 2 ==> s.ram.rd == s.ram.mem[s.cur.probeIdx])
    && h.work == b + Cost(b, p.accMax, r0) + 2 * j + s.stage
  }

  ghost predicate WriteInv(p: Params, s: Gb, h: Hist)
    requires Wf(p, s)
  {
    && h.rows != [] && h.beats == [] && !s.dump.hold
    && Open(h.rows[..|h.rows| - 1]) && h.rows[|h.rows| - 1].last == s.cur.last
    && s.ram.Eff() == TableOf(p.B(), p.accMax, h.rows)
    && h.work + 1 == p.B() + Cost(p.B(), p.accMax, h.rows)
  }

  /** A dump pass has a bucket read in flight, or its data in the read register. */
  ghost predicate Reading(p: Params, s: Gb, h: Hist)
    requires Wf(p, s)
  {
    && Ended(h.rows)
    && !s.ram.wen && s.ram.mem == TableOf(p.B(), p.accMax, h.rows)
    && s.stage <= 2
    && (s.stage == 0 ==> s.dump.idx == 0)
    && (s.stage >= 1 ==> s.ram.raddr == s.dump.idx)
    && (s.stage == 2 ==> s.ram.rd == s.ram.mem[s.dump.idx])
  }

  ghost predicate ScanInv(p: Params, s: Gb, h: Hist)
    requires Wf(p, s)
  {
    && Reading(p, s, h)
    && h.beats == [] && !s.dump.hold
    && (var l := LastValid(s.ram.mem, s.dump.idx); l >= 0 ==> s.dump.lastValid == l)
    && h.work == p.B() + Cost(p.B(), p.accMax, h.rows) + 2 * s.dump.idx + s.stage
  }

  ghost predicate PresentInv(p: Params, s: Gb, h: Hist)
    requires Wf(p, s)
  {
    var t := s.ram.mem;
    && Reading(p, s, h)
    && (var l := LastValid(t, |t|); l >= 0 ==> s.dump.lastValid == l)
    && h.beats == Beats(t, s.dump.idx)
    && (s.dump.hold ==>
          && s.stage == 2 && t[s.dump.idx].valid
          && OutBeat(s) == GroupBeat(t[s.dump.idx].g, s.dump.idx == LastValid(t, |t|)))
    && h.work == p.B() + Cost(p.B(), p.accMax, h.rows) + (2 * p.B() + 1)
                 + 2 * s.dump.idx + s.stage + |h.beats| + (if s.dump.hold then 1 else 0)
  }

  ghost predicate DoneInv(p: Params, s: Gb, h: Hist)
    requires Wf(p, s)
  {
    && s.phase == Present && !s.dump.hold
    && Ended(h.rows)
    && !s.ram.wen && s.ram.mem == TableOf(p.B(), p.accMax, h.rows)
    && h.beats == DumpOf(s.ram.mem)
    && h.work == RunCost(p.B(), p.accMax, h.rows)
  }

  // ------------------------------------------------------------------ one edge keeps it

  lemma StartEstablishes(p: Params, s: Gb, i: In)
    requires Wf(p, s) && i.start
    ensures Inv(p, Next(p, s, i), NO_HIST)
  {}

  lemma EdgeKeepsInv(p: Params, s: Gb, i: In, h: Hist)
    requires Inv(p, s, h) && !i.start && Fits(p.accMax, HistNext(s, i, h).rows)
    ensures Inv(p, Next(p, s, i), HistNext(s, i, h))
  {
    if s.busy {
      match s.phase
      case Clear => ClearEdge(p, s, i, h);
      case AggIdle => IdleEdge(p, s, i, h);
      case AggRd => RdEdge(p, s, i, h);
      case AggWrite => WriteEdge(p, s, i, h);
      case Scan => ScanEdge(p, s, i, h);
      case Present => PresentEdge(p, s, i, h);
    }
  }

  lemma ClearEdge(p: Params, s: Gb, i: In, h: Hist)
    requires Inv(p, s, h) && !i.start && s.busy && s.phase == Clear
    ensures Inv(p, Next(p, s, i), HistNext(s, i, h))
  {
    var s' := Next(p, s, i);
    assert s'.ram.Eff() == s.ram.Eff()[s.clearIdx := ZERO_BUCKET];
    if s.clearIdx == p.B() - 1 {
      assert s'.ram.Eff() == Cleared(p.B());
    }
  }

  lemma OpenSnoc(rows: seq<Row>, r: Row)
    requires Open(rows)
    ensures (rows + [r])[..|rows|] == rows
    ensures !r.last ==> Open(rows + [r])
    ensures r.last ==> Ended(rows + [r])
  {
    assert (rows + [r])[..|rows|] == rows;
  }

  lemma IdleEdge(p: Params, s: Gb, i: In, h: Hist)
    requires Inv(p, s, h) && !i.start && s.busy && s.phase == AggIdle
    requires Fits(p.accMax, HistNext(s, i, h).rows)
    ensures Inv(p, Next(p, s, i), HistNext(s, i, h))
  {
    if i.valid {
      OpenSnoc(h.rows, i.row);
      TableOfSnoc(p.B(), p.accMax, h.rows, i.row);
      if i.row.pass {
        HashInRange(p.addrW, i.row.key);
        SlotStart(p.B(), i.row.key);
      }
    }
  }

  lemma SlotStart(b: nat, key: nat)
    requires b > 0 && Hash(b, key) < b
    ensures Slot(b, key, 0) == Hash(b, key)
  {
    ModUnique(Hash(b, key), b, 0, Hash(b, key));
  }

  lemma RdEdge(p: Params, s: Gb, i: In, h: Hist)
    requires Inv(p, s, h) && !i.start && s.busy && s.phase == AggRd
    ensures Inv(p, Next(p, s, i), HistNext(s, i, h))
  {
    if s.stage != 2 {
      RdWaitEdge(p, s, i, h);
    } else {
      var miss := s.ram.rd.valid && s.ram.rd.g.key != s.cur.key;
      if Probes(p.B(), s.cur.probeCount) >= p.B() { SecondLapMisses(p, s, h); }
      if !miss { StoreEdge(p, s, i, h); }
      else if s.cur.probeCount == p.B() { DropEdge(p, s, i, h); }
      else { ProbeEdge(p, s, i, h); }
    }
  }

  lemma RdWaitEdge(p: Params, s: Gb, i: In, h: Hist)
    requires Inv(p, s, h) && !i.start && s.busy && s.phase == AggRd && s.stage != 2
    ensures Inv(p, Next(p, s, i), HistNext(s, i, h))
  {}

  /** Probes b and b + 1 revisit buckets that have already missed. */
  lemma SecondLapMisses(p: Params, s: Gb, h: Hist)
    requires Inv(p, s, h) && s.busy && s.phase == AggRd && s.stage == 2
    requires Probes(p.B(), s.cur.probeCount) >= p.B()
    ensures s.ram.rd.valid && s.ram.rd.g.key != s.cur.key
  {
    var j := Probes(p.B(), s.cur.probeCount);
    SlotWraps(p.B(), s.cur.key, j - p.B());
    assert !Stops(s.ram.mem, s.cur.key, j - p.B());
  }

  lemma ProbeEdge(p: Params, s: Gb, i: In, h: Hist)
    requires Inv(p, s, h) && !i.start && s.busy && s.phase == AggRd && s.stage == 2
    requires s.ram.rd.valid && s.ram.rd.g.key != s.cur.key && s.cur.probeCount != p.B()
    ensures Inv(p, Next(p, s, i), HistNext(s, i, h))
  {
    SlotNext(p.B(), s.cur.key, Probes(p.B(), s.cur.probeCount));
  }

  /** The chain ends after b + 2 probes, all of which missed. */
  lemma DropEdge(p: Params, s: Gb, i: In, h: Hist)
    requires Inv(p, s, h) && !i.start && s.busy && s.phase == AggRd && s.stage == 2
    requires s.ram.rd.valid && s.ram.rd.g.key != s.cur.key && s.cur.probeCount == p.B()
    ensures Inv(p, Next(p, s, i), HistNext(s, i, h))
  {
    var r0, r := h.rows[..|h.rows| - 1], h.rows[|h.rows| - 1];
    assert h.rows == r0 + [r];
    SearchIs(s.ram.mem, s.cur.key, p.B());
    TableOfSnoc(p.B(), p.accMax, r0, r);
    OpenSnoc(r0, r);
  }

  lemma StoreEdge(p: Params, s: Gb, i: In, h: Hist)
    requires Inv(p, s, h) && !i.start && s.busy && s.phase == AggRd && s.stage == 2
    requires !(s.ram.rd.valid && s.ram.rd.g.key != s.cur.key)
    requires Probes(p.B(), s.cur.probeCount) < p.B()
    ensures Inv(p, Next(p, s, i), HistNext(s, i, h))
  {
    var r0, r := h.rows[..|h.rows| - 1], h.rows[|h.rows| - 1];
    var b, m := p.B(), p.accMax;
    assert h.rows == r0 + [r];
    SearchIs(s.ram.mem, s.cur.key, Probes(b, s.cur.probeCount));
    TableMeans(b, m, r0);
    UpdateIsPut(m, s.ram.rd, r.key, r.val);
    TableOfSnoc(b, m, r0, r);
  }

  /** Within the environment's bounds the width-limited update is the reference update. */
  lemma UpdateIsPut(m: nat, s: Bucket, key: nat, v: nat)
    requires v <= m && (s.valid ==> s.g.count < m && s.g.sum <= m)
    ensures UpdatedBucket(m, s, key, v) == Put(m, s, key, v)
  {
    if s.valid {
      CountFits(m, s.g.count);
      SatAddIsMin(m, s.g.sum, v);
    }
  }

  lemma SatAddIsMin(m: nat, x: nat, v: nat)
    requires x <= m && v <= m
    ensures SatAdd(m, x, v) == Min(x + v, m)
  {
    SumExtFits(m, x, v);
  }

  lemma WriteEdge(p: Params, s: Gb, i: In, h: Hist)
    requires Inv(p, s, h) && !i.start && s.busy && s.phase == AggWrite
    ensures Inv(p, Next(p, s, i), HistNext(s, i, h))
  {
    var r0, r := h.rows[..|h.rows| - 1], h.rows[|h.rows| - 1];
    assert h.rows == r0 + [r];
    OpenSnoc(r0, r);
  }

  lemma ScanEdge(p: Params, s: Gb, i: In, h: Hist)
    requires Inv(p, s, h) && !i.start && s.busy && s.phase == Scan
    ensures Inv(p, Next(p, s, i), HistNext(s, i, h))
  {
    if s.stage == 2 { ScanBucketEdge(p, s, i, h); } else { ScanWaitEdge(p, s, i, h); }
  }

  lemma ScanWaitEdge(p: Params, s: Gb, i: In, h: Hist)
    requires Inv(p, s, h) && !i.start && s.busy && s.phase == Scan && s.stage != 2
    ensures Inv(p, Next(p, s, i), HistNext(s, i, h))
  {}

  lemma ScanBucketEdge(p: Params, s: Gb, i: In, h: Hist)
    requires Inv(p, s, h) && !i.start && s.busy && s.phase == Scan && s.stage == 2
    ensures Inv(p, Next(p, s, i), HistNext(s, i, h))
  {
    var t, d := s.ram.mem, s.dump.idx;
    assert LastValid(t, d + 1) == if t[d].valid then d else LastValid(t, d);
  }

  lemma PresentEdge(p: Params, s: Gb, i: In, h: Hist)
    requires Inv(p, s, h) && !i.start && s.busy && s.phase == Present
    ensures Inv(p, Next(p, s, i), HistNext(s, i, h))
  {
    if s.dump.hold {
      if i.ready { TakeEdge(p, s, i, h); }
    } else if s.stage == 2 {
      if s.ram.rd.valid { FillEdge(p, s, i, h); } else { SkipEdge(p, s, i, h); }
    } else {
      PresentWaitEdge(p, s, i, h);
    }
  }

  lemma PresentWaitEdge(p: Params, s: Gb, i: In, h: Hist)
    requires Inv(p, s, h) && !i.start && s.busy && s.phase == Present && !s.dump.hold && s.stage != 2
    ensures Inv(p, Next(p, s, i), HistNext(s, i, h))
  {
    hide ClearNext, IdleNext, RdNext, WriteNext, ScanNext, ClearInv, IdleInv, RdInv, WriteInv, ScanInv, DoneInv,
         Beats, LastValid, Cost, Pow2;
  }

  lemma FillEdge(p: Params, s: Gb, i: In, h: Hist)
    requires Inv(p, s, h) && !i.start && s.busy && s.phase == Present && !s.dump.hold && s.stage == 2
    requires s.ram.rd.valid
    ensures Inv(p, Next(p, s, i), HistNext(s, i, h))
  {
    assert LastValid(s.ram.mem, p.B()) >= s.dump.idx;
  }

  lemma SkipEdge(p: Params, s: Gb, i: In, h: Hist)
    requires Inv(p, s, h) && !i.start && s.busy && s.phase == Present && !s.dump.hold && s.stage == 2
    requires !s.ram.rd.valid
    ensures Inv(p, Next(p, s, i), HistNext(s, i, h))
  {
    assert Beats(s.ram.mem, s.dump.idx + 1) == h.beats;
  }

  lemma TakeEdge(p: Params, s: Gb, i: In, h: Hist)
    requires Inv(p, s, h) && !i.start && s.busy && s.phase == Present && s.dump.hold && i.ready
    ensures Inv(p, Next(p, s, i), HistNext(s, i, h))
  {
    assert Beats(s.ram.mem, s.dump.idx + 1) == h.beats + [OutBeat(s)];
    if s.dump.idx != p.B() - 1 { TakeMoreEdge(p, s, i, h); }
  }

  lemma TakeMoreEdge(p: Params, s: Gb, i: In, h: Hist)
    requires Inv(p, s, h) && !i.start && s.busy && s.phase == Present && s.dump.hold && i.ready
    requires s.dump.idx != p.B() - 1
    requires Beats(s.ram.mem, s.dump.idx + 1) == h.beats + [OutBeat(s)]
    ensures Inv(p, Next(p, s, i), HistNext(s, i, h))
  {}

  // ------------------------------------------------------------------ every run

  /** The state and history after a sequence of edges. */
  function After(p: Params, s: Gb, h: Hist, ins: seq<In>): (r: (Gb, Hist))
    requires Wf(p, s)
    ensures Wf(p, r.0)
  {
    if ins == [] then (s, h)
    else
      var (s1, h1) := After(p, s, h, ins[..|ins| - 1]);
      var i := ins[|ins| - 1];
      (Next(p, s1, i), HistNext(s1, i, h1))
  }

  lemma {:induction false} RunKeepsInv(p: Params, s: Gb, h: Hist, ins: seq<In>)
    requires Inv(p, s, h)
    requires forall i | i in ins :: !i.start
    requires Fits(p.accMax, After(p, s, h, ins).1.rows)
    ensures Inv(p, After(p, s, h, ins).0, After(p, s, h, ins).1)
  {
    if ins == [] {
    } else {
      var i := ins[|ins| - 1];
      var (s1, h1) := After(p, s, h, ins[..|ins| - 1]);
      assert forall r | r in h1.rows :: r in HistNext(s1, i, h1).rows;
      RunKeepsInv(p, s, h, ins[..|ins| - 1]);
      EdgeKeepsInv(p, s1, i, h1);
    }
  }

  /** From a start edge met in any state, under any stream and any ready pattern: the engine
      is done exactly when it has worked RunCost edges, the stream it accepted has ended, and
      the beats taken from it are the dump of the reference table of that stream. */
  lemma RunRefinesTable(p: Params, s0: Gb, start: In, ins: seq<In>)
    requires Wf(p, s0) && start.start
    requires forall i | i in ins :: !i.start
    requires Fits(p.accMax, After(p, Next(p, s0, start), NO_HIST, ins).1.rows)
    ensures var (s, h) := After(p, Next(p, s0, start), NO_HIST, ins);
      && (s.done ==> Ended(h.rows) && h.beats == DumpOf(TableOf(p.B(), p.accMax, h.rows))
                     && h.work == RunCost(p.B(), p.accMax, h.rows))
      && (!s.done ==> s.busy && h.work < RunCost(p.B(), p.accMax, h.rows))
      && h.beats <= DumpOf(TableOf(p.B(), p.accMax, h.rows))
  {
    StartEstablishes(p, s0, start);
    RunKeepsInv(p, Next(p, s0, start), NO_HIST, ins);
    var (s, h) := After(p, Next(p, s0, start), NO_HIST, ins);
    InvBoundsWork(p, s, h);
  }

  lemma InvBoundsWork(p: Params, s: Gb, h: Hist)
    requires Inv(p, s, h)
    ensures s.busy ==> h.work < RunCost(p.B(), p.accMax, h.rows)
    ensures h.beats <= DumpOf(TableOf(p.B(), p.accMax, h.rows))
  {
    assert p.B() >= 2;
    if s.busy && s.phase == Present {
      BeatsPrefix(s.ram.mem, s.dump.idx, p.B());
      if s.dump.hold { BeatsPrefix(s.ram.mem, s.dump.idx + 1, p.B()); }
    }
  }

  lemma {:induction false} BeatsPrefix(t: Table, k: nat, n: nat)
    requires k <= n <= |t|
    ensures Beats(t, k) <= Beats(t, n)
  {
    if k == n {
    } else {
      BeatsPrefix(t, k, n - 1);
    }
  }

  /** Between rows, and while one is looked up or written, the RAM viewed with its registered
      write satisfies the probing invariant; once a row's write is issued it is the reference
      table of every row accepted. */
  lemma EveryEdgeProbing(p: Params, s: Gb, h: Hist)
    requires Inv(p, s, h) && s.phase != Clear
    ensures Probing(s.ram.Eff())
    ensures s.phase != AggRd ==> s.ram.Eff() == TableOf(p.B(), p.accMax, h.rows)
    ensures s.phase == AggRd ==> s.ram.Eff() == TableOf(p.B(), p.accMax, h.rows[..|h.rows| - 1])
  {
    var rows := if s.phase == AggRd then h.rows[..|h.rows| - 1] else h.rows;
    TableMeans(p.B(), p.accMax, rows);
  }

  /** A bucket never written is as cleared. */
  lemma {:induction false} FreeIsZero(b: nat, m: nat, rows: seq<Row>, i: nat)
    requires i < b
    ensures TableOf(b, m, rows)[i].valid || TableOf(b, m, rows)[i] == ZERO_BUCKET
  {
    if rows == [] {
    } else {
      FreeIsZero(b, m, rows[..|rows| - 1], i);
    }
  }

  /** Every write registered, and every bucket stored, counts at most the rows accepted, sums
      within the accumulator, and holds extremes that are operands. */
  lemma BucketsBounded(p: Params, s: Gb, h: Hist)
    requires Inv(p, s, h)
    ensures s.ram.wen ==> Bounded(p.accMax, |h.rows|, s.ram.wdata)
    ensures s.phase != Clear ==> forall i | 0 <= i < p.B() :: Bounded(p.accMax, |h.rows|, s.ram.Eff()[i])
  {
    if s.phase != Clear {
      var rows := if s.phase == AggRd then h.rows[..|h.rows| - 1] else h.rows;
      EveryEdgeProbing(p, s, h);
      forall i | 0 <= i < p.B() ensures Bounded(p.accMax, |h.rows|, s.ram.Eff()[i]) {
        BucketBounded(p.B(), p.accMax, rows, i);
      }
      assert s.ram.wen ==> s.ram.Eff()[s.ram.waddr] == s.ram.wdata;
    }
  }

  predicate Bounded(m: nat, n: nat, x: Bucket) {
    x.g.count <= n && x.g.sum <= m && x.g.min <= m && x.g.max <= m
  }

  lemma BucketBounded(b: nat, m: nat, rows: seq<Row>, i: nat)
    requires i < b && Fits(m, rows)
    ensures Bounded(m, |rows|, TableOf(b, m, rows)[i])
  {
    var t := TableOf(b, m, rows);
    FreeIsZero(b, m, rows, i);
    TableMeans(b, m, rows);
    if t[i].valid {
      hide Vals, Least, Greatest, Sum, TableOf;
      assert t[i].g == Aggregate(m, t[i].g.key, rows);
      ValsFit(m, t[i].g.key, rows);
    }
  }

  lemma {:induction false} ValsFit(m: nat, key: nat, rows: seq<Row>)
    requires forall r | r in rows :: r.val <= m
    ensures forall v | v in Vals(key, rows) :: v <= m
  {
    if rows == [] {
    } else {
      assert rows == rows[..|rows| - 1] + [rows[|rows| - 1]];
      ValsFit(m, key, rows[..|rows| - 1]);
    }
  }

  /** The engine gives up on the row being looked up: it neither stores nor probes on. */
  predicate GivesUp(p: Params, s: Gb)
    requires Wf(p, s)
  {
    s.busy && s.phase == AggRd && s.stage == 2 && RdNext(p, s).phase !in {AggRd, AggWrite}
  }

  /** It stores the row, or folds it into its bucket. */
  predicate Stores(p: Params, s: Gb)
    requires Wf(p, s)
  {
    s.busy && s.phase == AggRd && s.stage == 2 && RdNext(p, s).phase == AggWrite
  }

  /** Every bucket is valid and holds another key. */
  predicate FullOfOthers(t: Table, key: nat) {
    forall i | 0 <= i < |t| :: t[i].valid && t[i].g.key != key
  }

  /** When a looked-up row's chain ends, the row is given up exactly when all buckets are valid
      with other keys, and then on probe b + 2; otherwise it is stored, on the probe and in the
      bucket where the reference search ends. */
  lemma DropIffFull(p: Params, s: Gb, h: Hist)
    requires Inv(p, s, h)
    ensures GivesUp(p, s) || Stores(p, s) ==> (GivesUp(p, s) <==> FullOfOthers(s.ram.mem, s.cur.key))
    ensures GivesUp(p, s) ==> Probes(p.B(), s.cur.probeCount) + 1 == p.B() + 2
    ensures Stores(p, s) ==>
      && Search(s.ram.mem, s.cur.key, 0) == Probes(p.B(), s.cur.probeCount)
      && s.cur.probeIdx == Slot(p.B(), s.cur.key, Search(s.ram.mem, s.cur.key, 0))
  {
    if s.busy && s.phase == AggRd && s.stage == 2 {
      DroppedIff(s.ram.mem, s.cur.key);
      if Probes(p.B(), s.cur.probeCount) >= p.B() { SecondLapMisses(p, s, h); }
      if GivesUp(p, s) { SearchIs(s.ram.mem, s.cur.key, p.B()); }
      if Stores(p, s) { SearchIs(s.ram.mem, s.cur.key, Probes(p.B(), s.cur.probeCount)); }
    }
  }

  /** A beat offered and not taken is offered again, unchanged. */
  lemma StalledBeatHolds(p: Params, s: Gb, i: In)
    requires Wf(p, s) && s.busy && OutValid(s) && !i.ready && !i.start
    ensures OutValid(Next(p, s, i)) && OutBeat(Next(p, s, i)) == OutBeat(s)
  {}

  // ------------------------------------------------------------------ what the dump says

  /** The valid indices below n, in increasing order. */
  function ValidIdx(t: Table, n: nat): (ix: seq<nat>)
    requires n <= |t|
    ensures forall j, k | 0 <= j < k < |ix| :: ix[j] < ix[k]
    ensures forall k | 0 <= k < |ix| :: ix[k] < n
    ensures forall i | 0 <= i < n :: t[i].valid <==> i in ix
  {
    if n == 0 then [] else if t[n - 1].valid then ValidIdx(t, n - 1) + [n - 1] else ValidIdx(t, n - 1)
  }

  /** The dump carries the valid buckets in increasing bucket order, and tlast on exactly the
      final beat. */
  lemma DumpShape(t: Table)
    ensures var ix := ValidIdx(t, |t|);
      && |DumpOf(t)| == |ix|
      && forall k | 0 <= k < |ix| ::
           ix[k] < |t| && DumpOf(t)[k] == GroupBeat(t[ix[k]].g, k == |ix| - 1)
  {
    hide Beats, ValidIdx;
    BeatsShape(t, |t|);
    LastIdx(t);
  }

  lemma {:induction false} BeatsShape(t: Table, n: nat)
    requires n <= |t|
    ensures var ix := ValidIdx(t, n);
      && |Beats(t, n)| == |ix|
      && forall k | 0 <= k < |ix| ::
           ix[k] < |t| && Beats(t, n)[k] == GroupBeat(t[ix[k]].g, ix[k] == LastValid(t, |t|))
  {
    if n == 0 {
    } else {
      hide LastValid;
      BeatsShape(t, n - 1);
    }
  }

  /** The greatest valid index is the final one listed, and only that. */
  lemma LastIdx(t: Table)
    ensures var ix := ValidIdx(t, |t|);
      forall k | 0 <= k < |ix| :: (ix[k] == LastValid(t, |t|)) == (k == |ix| - 1)
  {
    var ix, l := ValidIdx(t, |t|), LastValid(t, |t|);
    if ix != [] {
      assert ix[0] in ix && ix[|ix| - 1] in ix;
      assert l in ix;
      var j :| 0 <= j < |ix| && ix[j] == l;
    }
  }

  /** What a finished run has emitted, said without the table: one beat per key among the
      first b distinct passing keys, each carrying that key's aggregates over all its passing
      rows, tlast on the final beat only. */
  ghost predicate GroupsOf(b: nat, m: nat, rows: seq<Row>, beats: seq<GroupBeat>) {
    && |beats| == |Admitted(b, rows)|
    && (forall k | k in Admitted(b, rows) :: exists j :: 0 <= j < |beats| && beats[j].g.key == k)
    && (forall j | 0 <= j < |beats| ::
          && beats[j].g.key in Admitted(b, rows)
          && beats[j].g == Aggregate(m, beats[j].g.key, rows)
          && beats[j].last == (j == |beats| - 1))
    && (forall j, k | 0 <= j < k < |beats| :: beats[j].g.key != beats[k].g.key)
  }

  /** A run is silent, without even a tlast, exactly when no row of it passes. */
  lemma SilentIff(b: nat, m: nat, rows: seq<Row>, beats: seq<GroupBeat>)
    requires b > 0 && GroupsOf(b, m, rows, beats)
    ensures beats == [] <==> forall i | 0 <= i < |rows| :: !rows[i].pass
  {
    NoneAdmitted(b, rows);
  }

  lemma {:induction false} NoneAdmitted(b: nat, rows: seq<Row>)
    requires b > 0
    ensures Admitted(b, rows) == [] <==> forall i | 0 <= i < |rows| :: !rows[i].pass
  {
    if rows == [] {
    } else {
      var n := |rows| - 1;
      NoneAdmitted(b, rows[..n]);
      assert forall i | 0 <= i < n :: rows[..n][i] == rows[i];
    }
  }

  lemma DumpIsGroups(b: nat, m: nat, rows: seq<Row>)
    requires b > 0 && forall r | r in rows :: r.val <= m
    ensures GroupsOf(b, m, rows, DumpOf(TableOf(b, m, rows)))
  {
    var t := TableOf(b, m, rows);
    var beats := DumpOf(t);
    TableMeans(b, m, rows);
    DumpSize(t);
    forall k | k in Admitted(b, rows) ensures exists j :: 0 <= j < |beats| && beats[j].g.key == k {
      assert Has(t, k);
      DumpHas(t, k);
    }
    forall j | 0 <= j < |beats|
      ensures beats[j].g.key in Admitted(b, rows) && beats[j].g == Aggregate(m, beats[j].g.key, rows)
      ensures beats[j].last == (j == |beats| - 1)
    {
      var i := DumpFrom(t, j);
    }
    DumpDistinct(t);
  }

  lemma DumpSize(t: Table)
    ensures |DumpOf(t)| == CountValid(t)
  {
    DumpShape(t);
    ValidIdxCount(t, |t|);
    assert t[..|t|] == t;
  }

  lemma DumpHas(t: Table, k: nat)
    requires Has(t, k)
    ensures exists j :: 0 <= j < |DumpOf(t)| && DumpOf(t)[j].g.key == k
  {
    DumpShape(t);
    var ix := ValidIdx(t, |t|);
    var i :| 0 <= i < |t| && t[i].valid && t[i].g.key == k;
    assert i in ix;
    var j :| 0 <= j < |ix| && ix[j] == i;
    assert DumpOf(t)[j].g.key == k;
  }

  lemma DumpFrom(t: Table, j: nat) returns (i: nat)
    requires j < |DumpOf(t)|
    ensures i < |t| && t[i].valid && DumpOf(t)[j] == GroupBeat(t[i].g, j == |DumpOf(t)| - 1)
  {
    DumpShape(t);
    i := ValidIdx(t, |t|)[j];
    assert i in ValidIdx(t, |t|);
  }

  lemma DumpDistinct(t: Table)
    requires |t| > 0 && Probing(t)
    ensures forall j, k | 0 <= j < k < |DumpOf(t)| :: DumpOf(t)[j].g.key != DumpOf(t)[k].g.key
  {
    DumpShape(t);
    ProbingMeans(t);
    var ix := ValidIdx(t, |t|);
    forall j, k | 0 <= j < k < |DumpOf(t)| ensures DumpOf(t)[j].g.key != DumpOf(t)[k].g.key {
      assert ix[j] < ix[k] && ix[j] in ix && ix[k] in ix;
    }
  }

  lemma {:induction false} ValidIdxCount(t: Table, n: nat)
    requires n <= |t|
    ensures |ValidIdx(t, n)| == CountValid(t[..n])
  {
    if n == 0 {
    } else {
      ValidIdxCount(t, n - 1);
      assert t[..n][..n - 1] == t[..n - 1];
    }
  }

  /** The engine computes GROUP BY, whatever state the start edge meets. */
  lemma EngineComputesGroups(p: Params, s0: Gb, start: In, ins: seq<In>)
    requires Wf(p, s0) && start.start
    requires forall i | i in ins :: !i.start
    requires Fits(p.accMax, After(p, Next(p, s0, start), NO_HIST, ins).1.rows)
    requires After(p, Next(p, s0, start), NO_HIST, ins).0.done
    ensures var h := After(p, Next(p, s0, start), NO_HIST, ins).1;
      Ended(h.rows) && GroupsOf(p.B(), p.accMax, h.rows, h.beats)
  {
    RunRefinesTable(p, s0, start, ins);
    DumpIsGroups(p.B(), p.accMax, After(p, Next(p, s0, start), NO_HIST, ins).1.rows);
  }

  /** A longer stream never costs fewer edges. */
  lemma {:induction false} RunCostGrows(b: nat, m: nat, rows: seq<Row>, k: nat)
    requires b > 0 && k <= |rows|
    ensures RunCost(b, m, rows[..k]) <= RunCost(b, m, rows)
  {
    if k == |rows| {
      assert rows[..k] == rows;
    } else {
      var n := |rows| - 1;
      RunCostGrows(b, m, rows[..n], k);
      assert rows[..n][..k] == rows[..k];
      var t, r := TableOf(b, m, rows[..n]), rows[n];
      DumpSize(t);
      DumpSize(TableOf(b, m, rows));
      var q := Search(t, r.key, 0);
      if r.pass && q < b {
        var i := Slot(b, r.key, q);
        CountValidPlace(t, i, Put(m, t[i], r.key, r.val));
      }
    }
  }
}
