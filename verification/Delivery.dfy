/** What a bus master's writes and reads amount to over a run of the whole design. */
module Delivery {
  import opened Bits
  import opened PipelineProof
  import opened AxiLite
  import opened DbqaTop

  // ------------------------------------------------------------------ runs

  /** The master presents the writes ws in order, address and data together, at any pace; it may
      read at any time, and writes nothing else. */
  predicate Drives(ws: seq<Write>, bt: BusTrace, b: Bus) {
    b.awvalid || b.wvalid ==>
      b.awvalid && b.wvalid && |bt.writes| < |ws| && WriteOf(b) == ws[|bt.writes|]
  }

  /** A top level in use: its state, what the bus has seen, and the core's trace since start. */
  datatype Use = Use(x: Top, bt: BusTrace, t: Trace)

  function Opened(x: Top): Use {
    Use(x, BusTrace([], 0), NO_TRACE)
  }

  function UseNext(u: Use, i: TopIn): (u': Use)
    requires TopWf(u.x)
    ensures TopWf(u'.x)
  {
    Use(TopNext(u.x, i), BusTraceNext(u.x.axil, i.bus, u.bt),
        if u.x.axil.start then NO_TRACE else TraceNext(u.x.core, CoreIn(u.x, i), u.t))
  }

  function UseAfter(u: Use, ins: seq<TopIn>): (u': Use)
    requires TopWf(u.x)
    ensures TopWf(u'.x)
  {
    if ins == [] then u else UseNext(UseAfter(u, ins[..|ins| - 1]), ins[|ins| - 1])
  }

  ghost predicate Driven(ws: seq<Write>, u: Use, ins: seq<TopIn>)
    requires TopWf(u.x)
  {
    ins == [] ||
    (var v := UseAfter(u, ins[..|ins| - 1]);
     Driven(ws, u, ins[..|ins| - 1]) && !ins[|ins| - 1].rst && Drives(ws, v.bt, ins[|ins| - 1].bus))
  }

  lemma {:induction false} UseSplits(ws: seq<Write>, u: Use, ins: seq<TopIn>, n: nat)
    requires TopWf(u.x) && n <= |ins|
    ensures UseAfter(u, ins) == UseAfter(UseAfter(u, ins[..n]), ins[n..])
    ensures Driven(ws, u, ins) ==> Driven(ws, u, ins[..n]) && Driven(ws, UseAfter(u, ins[..n]), ins[n..])
  {
    hide UseNext, Drives, TopWf;
    if n == |ins| {
      assert ins[..n] == ins && ins[n..] == [];
    } else {
      var m := |ins| - 1;
      UseSplits(ws, u, ins[..m], n);
      assert ins[..m][..n] == ins[..n] && ins[..m][n..] == ins[n..][..m - n];
    }
  }

  lemma {:induction false} ResponsesGrow(u: Use, ins: seq<TopIn>)
    requires TopWf(u.x)
    ensures UseAfter(u, ins).bt.responses >= u.bt.responses
  {
    hide Pow2, Clog2;
    if ins == [] {
    } else {
      ResponsesGrow(u, ins[..|ins| - 1]);
    }
  }

  // ------------------------------------------------------------------ writes

  predicate IsStart(w: Write) {
    w.word == REG_CTRL && Bit(w.data, 0)
  }

  predicate IsAbort(w: Write) {
    w.word == REG_CTRL && Bit(w.data, 1)
  }

  predicate IsCommit(w: Write) {
    w.word == REG_LOAD_ROW
  }

  /** No write in flight and no strobe up. */
  predicate Settled(a: Axil) {
    Handshake(a) && !a.bvalid && !a.start && !a.abort && !a.load
  }

  /** The register file holds the writes captured so far, a prefix of ws; a strobe means that the
      last of them asked for it and is still to be answered. */
  ghost predicate Delivered(ws: seq<Write>, r: RegFile, a: Axil, bt: BusTrace)
    requires r.Wf()
  {
    var n := |bt.writes|;
    && Handshake(a)
    && n <= |ws| && bt.writes == ws[..n]
    && n == bt.responses + (if a.bvalid then 1 else 0)
    && a.regs == ApplyAll(r, bt.writes)
    && (a.start ==> a.bvalid && n > 0 && IsStart(ws[n - 1]))
    && (a.abort ==> a.bvalid && n > 0 && IsAbort(ws[n - 1]))
    && (a.load ==> a.bvalid && n > 0 && IsCommit(ws[n - 1]))
  }

  lemma DeliveredStart(ws: seq<Write>, a: Axil)
    requires Settled(a)
    ensures Delivered(ws, a.regs, a, BusTrace([], 0))
  {}

  lemma DeliveredSize(ws: seq<Write>, r: RegFile, a: Axil, bt: BusTrace)
    requires r.Wf() && Delivered(ws, r, a, bt)
    ensures |bt.writes| <= |ws| && (a.bvalid ==> |bt.writes| > 0)
  {}

  /** One edge delivers at most one write more, and raises exactly the strobe it asks for. */
  lemma DeliveredEdge(ws: seq<Write>, r: RegFile, a: Axil, bt: BusTrace, b: Bus)
    requires r.Wf() && Delivered(ws, r, a, bt) && Drives(ws, bt, b)
    ensures var a', bt', n := AxilNext(a, b), BusTraceNext(a, b, bt), |bt.writes|;
      && Delivered(ws, r, a', bt')
      && |bt'.writes| == n + (if Captures(a, b) then 1 else 0)
      && (a'.start <==> |bt'.writes| > n && IsStart(ws[n]))
      && (a'.abort <==> |bt'.writes| > n && IsAbort(ws[n]))
      && (a'.load <==> |bt'.writes| > n && IsCommit(ws[n]))
  {
    hide ApplyWrite, Bit;
    if Captures(a, b) {
      var n, w := |bt.writes|, WriteOf(b);
      ApplyAllSnoc(r, bt.writes, w);
      assert ws[..n] + [w] == ws[..n + 1];
    }
  }

  // ------------------------------------------------------------------ reads

  /** A read answered: its address, the data returned, and the edge that took it. */
  datatype Read = Read(addr: nat, data: nat, edge: nat)

  /** The addresses accepted, and the reads answered. */
  datatype Reads = Reads(asked: seq<nat>, got: seq<Read>)

  function ReadsNext(x: Top, b: Bus, edge: nat, t: Reads): Reads
    requires x.axil.regs.Wf()
  {
    var a := x.axil;
    Reads(if b.arvalid && a.arready then t.asked + [b.araddr] else t.asked,
          if a.rvalid && b.rready then t.got + [Read(a.araddr, ReadMux(a.regs, a.araddr, x.core), edge)] else t.got)
  }

  function ReadsAfter(u: Use, ins: seq<TopIn>): Reads
    requires TopWf(u.x)
  {
    if ins == [] then Reads(if u.x.axil.rvalid then [u.x.axil.araddr] else [], [])
    else
      var n := |ins| - 1;
      ReadsNext(UseAfter(u, ins[..n]).x, ins[n].bus, n, ReadsAfter(u, ins[..n]))
  }

  /** Over every run: each accepted address is answered exactly once, in order, with the word the
      registers and the core show on the edge that takes it. */
  lemma {:induction false} ReadsAnswered(u: Use, ins: seq<TopIn>)
    requires TopWf(u.x) && Handshake(u.x.axil) && forall k | 0 <= k < |ins| :: !ins[k].rst
    ensures Handshake(UseAfter(u, ins).x.axil) && InOrder(ReadsAfter(u, ins), UseAfter(u, ins).x.axil, |ins|)
    ensures forall k | 0 <= k < |ReadsAfter(u, ins).got| :: Answers(u, ins, ReadsAfter(u, ins).got[k])
  {
    hide TopWf, UseNext, ReadMux, Handshake, InOrder;
    if ins == [] {
      ReadsStart(u);
    } else {
      var n := |ins| - 1;
      ReadsAnswered(u, ins[..n]);
      var t, v := ReadsAfter(u, ins[..n]), UseAfter(u, ins[..n]);
      ReadEdge(v, ins[n], n, t);
      OrderedEdges(t, v.x.axil, n);
      forall k | 0 <= k < |t.got| ensures Answers(u, ins, t.got[k]) {
        assert ins[..n][..t.got[k].edge] == ins[..t.got[k].edge];
      }
    }
  }

  lemma ReadsStart(u: Use)
    requires TopWf(u.x)
    ensures InOrder(ReadsAfter(u, []), u.x.axil, 0)
  {
    hide TopWf;
  }

  lemma OrderedEdges(t: Reads, a: Axil, n: nat)
    requires InOrder(t, a, n)
    ensures forall k | 0 <= k < |t.got| :: t.got[k].edge < n
  {}

  /** Answers so far match the addresses accepted, one by one; an address not yet answered is
      the one held. */
  predicate InOrder(t: Reads, a: Axil, n: nat) {
    && |t.asked| == |t.got| + (if a.rvalid then 1 else 0)
    && (a.rvalid ==> t.asked[|t.got|] == a.araddr)
    && (forall k | 0 <= k < |t.got| :: t.got[k].addr == t.asked[k] && t.got[k].edge < n)
    && (forall j, k | 0 <= j < k < |t.got| :: t.got[j].edge < t.got[k].edge)
  }

  /** The data of a read is the mux's on the edge that took it. */
  predicate Answers(u: Use, ins: seq<TopIn>, g: Read)
    requires TopWf(u.x)
  {
    g.edge < |ins| &&
    var y := UseAfter(u, ins[..g.edge]).x;
    g.data == ReadMux(y.axil.regs, g.addr, y.core)
  }

  lemma ReadEdge(u: Use, i: TopIn, n: nat, t: Reads)
    requires TopWf(u.x) && Handshake(u.x.axil) && !i.rst && InOrder(t, u.x.axil, n)
    ensures Handshake(UseNext(u, i).x.axil) && InOrder(ReadsNext(u.x, i.bus, n, t), UseNext(u, i).x.axil, n + 1)
  {
    hide TraceNext, AxilNext, CoreIn, ReadMux, InOrder, TopWf, Handshake;
    var t' := ReadsNext(u.x, i.bus, n, t);
    ReadChannelEdge(u.x.axil, i.bus, n, t, ReadMux(u.x.axil.regs, u.x.axil.araddr, u.x.core));
  }

  lemma ReadChannelEdge(a: Axil, b: Bus, n: nat, t: Reads, data: nat)
    requires Handshake(a) && InOrder(t, a, n)
    ensures Handshake(AxilNext(a, b))
    ensures InOrder(Reads(if b.arvalid && a.arready then t.asked + [b.araddr] else t.asked,
                          if a.rvalid && b.rready then t.got + [Read(a.araddr, data, n)] else t.got),
                    AxilNext(a, b), n + 1)
  {
    hide ApplyWrite;
  }
}
