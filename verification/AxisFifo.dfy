/** axis_fifo: a first-word-fall-through FIFO over a RAM with wrapping pointers, shown to be
    a bounded queue. */
module AxisFifo {
  import opened Bits

  /** The queue a FIFO of this depth stands for, after one edge. */
  function QueueNext<T>(depth: nat, q: seq<T>, valid: bool, x: T, ready: bool): seq<T> {
    (if q != [] && ready then q[1..] else q) + (if valid && |q| < depth then [x] else [])
  }

  /** The words a FIFO holds: the output register, then the RAM from the read pointer on. */
  function View<T>(mem: seq<T>, rptr: nat, count: nat, dout: T): (q: seq<T>)
    requires rptr < |mem| && count <= |mem|
    ensures |q| == count
  {
    if count == 0 then []
    else [dout] + seq(count - 1, k requires 0 <= k < count - 1 => mem[Wrapped(|mem|, rptr, k)])
  }

  /** The queue holds words c.. of a stream f. */
  ghost predicate QueueCarries<T>(q: seq<T>, f: nat -> T, c: nat) {
    forall k | 0 <= k < |q| :: q[k] == f(c + k)
  }

  /** Fed with a stream in order, the queue delivers that stream in order, under any ready. */
  lemma QueueDelivers<T>(depth: nat, q: seq<T>, f: nat -> T, c: nat, valid: bool, x: T, ready: bool)
    requires QueueCarries(q, f, c) && (valid && |q| < depth ==> x == f(c + |q|))
    ensures var c' := if q != [] && ready then c + 1 else c;
      var q' := QueueNext(depth, q, valid, x, ready);
      && QueueCarries(q', f, c')
      && c' + |q'| == c + |q| + if valid && |q| < depth then 1 else 0
  {}

  /** The address k places after p, k less than one lap. */
  function Wrapped(n: nat, p: nat, k: nat): (a: nat)
    requires p < n && k < n
    ensures a < n
  {
    if p + k < n then p + k else p + k - n
  }

  /** A push without forwarding appends, and moves the write pointer on. */
  lemma PushAppends<T>(mem: seq<T>, w: nat, r: nat, count: nat, dout: T, x: T)
    requires r < |mem| && 0 < count < |mem| && w == Wrapped(|mem|, r, count - 1)
    ensures View(mem[w := x], r, count + 1, dout) == View(mem, r, count, dout) + [x]
    ensures Inc(|mem|, w) == Wrapped(|mem|, r, count)
    ensures count > 1 ==> w != r
  {
    var a, b := View(mem[w := x], r, count + 1, dout), View(mem, r, count, dout) + [x];
    forall k | 0 <= k < count + 1 ensures a[k] == b[k] {
      if 0 < k < count { assert Wrapped(|mem|, r, k - 1) != w; }
    }
  }

  /** A pop that leaves words presents the next one from the RAM. */
  lemma PopDrops<T>(mem: seq<T>, w: nat, r: nat, count: nat, dout: T)
    requires r < |mem| && 1 < count <= |mem| && w == Wrapped(|mem|, r, count - 1)
    ensures View(mem, Inc(|mem|, r), count - 1, mem[r]) == View(mem, r, count, dout)[1..]
    ensures w == Wrapped(|mem|, Inc(|mem|, r), count - 2)
  {
    var q := View(mem, r, count, dout);
    var a := View(mem, Inc(|mem|, r), count - 1, mem[r]);
    forall k | 0 <= k < count - 1 ensures a[k] == q[1..][k] {
      assert q[1..][k] == q[k + 1] == mem[Wrapped(|mem|, r, k)];
      if k > 0 { assert a[k] == mem[Wrapped(|mem|, Inc(|mem|, r), k - 1)]; }
    }
  }

  /** The registers and the RAM. */
  datatype Regs<T> = Regs(mem: seq<T>, wptr: nat, rptr: nat, count: nat, dout: T) {
    /** While words are held the write pointer is count - 1 places after the read pointer.
        An empty FIFO's read pointer may be anywhere. */
    predicate Wf() {
      && |mem| >= 1 && wptr < |mem| && rptr < |mem| && count <= |mem|
      && (count > 0 ==> wptr == Wrapped(|mem|, rptr, count - 1))
    }

    function Queue(): seq<T>
      requires Wf()
    {
      View(mem, rptr, count, dout)
    }
  }

  /** One clock edge: a push into an empty or just emptied FIFO forwards to the output
      register and pulls the read pointer behind it. */
  function Next<T>(s: Regs<T>, valid: bool, x: T, ready: bool): Regs<T>
    requires s.Wf()
  {
    var n := |s.mem|;
    var push := valid && s.count != n;
    var pop := s.count != 0 && ready;
    var forward := push && s.count == if pop then 1 else 0;
    Regs(if push then s.mem[s.wptr := x] else s.mem,
         if push then Inc(n, s.wptr) else s.wptr,
         if forward then Inc(n, s.wptr) else if pop then Inc(n, s.rptr) else s.rptr,
         if push && !pop then s.count + 1 else if pop && !push then s.count - 1 else s.count,
         if forward then x else if pop then s.mem[s.rptr] else s.dout)
  }

  /** At every depth the RAM, pointers and forwarding are one bounded queue. */
  lemma RefinesQueue<T>(s: Regs<T>, valid: bool, x: T, ready: bool)
    requires s.Wf()
    ensures var s' := Next(s, valid, x, ready);
      s'.Wf() && |s'.mem| == |s.mem| && s'.Queue() == QueueNext(|s.mem|, s.Queue(), valid, x, ready)
  {
    var n, c := |s.mem|, s.count;
    if valid && 0 < c < n {
      PushAppends(s.mem, s.wptr, s.rptr, c, s.dout, x);
      if c > 1 && ready { PopDrops(s.mem[s.wptr := x], Inc(n, s.wptr), s.rptr, c + 1, s.dout); }
    } else if c > 1 && ready {
      PopDrops(s.mem, s.wptr, s.rptr, c, s.dout);
    }
  }

  class Fifo<T> {
    const depth: nat
    const mem: array<T>
    var wptr: nat
    var rptr: nat
    var count: nat
    var dout: T

    ghost function State(): Regs<T>
      reads this, mem
    {
      Regs(mem[..], wptr, rptr, count, dout)
    }

    ghost predicate Valid()
      reads this, mem
    {
      mem.Length == depth && State().Wf()
    }

    ghost function Queue(): (q: seq<T>)
      reads this, mem
      ensures Valid() ==> |q| == count && (count > 0 ==> q[0] == dout)
    {
      if State().Wf() then State().Queue() else []
    }

    constructor (depth: nat, zero: T)
      requires depth >= 1
      ensures Valid() && Queue() == [] && this.depth == depth && fresh(mem)
    {
      this.depth := depth;
      mem := new T[depth](_ => zero);
      wptr, rptr, count := 0, 0, 0;
      dout := zero;
    }

    function InReady(): bool
      reads this
    {
      count != depth
    }

    method Reset(zero: T)
      requires Valid()
      modifies this
      ensures Valid() && Queue() == []
    {
      wptr, rptr, count := 0, 0, 0;
      dout := zero;
    }

    /** One clock edge. */
    method Tick(valid: bool, x: T, ready: bool)
      requires Valid()
      modifies this, mem
      ensures Valid() && State() == Next(old(State()), valid, x, ready)
      ensures Queue() == QueueNext(depth, old(Queue()), valid, x, ready)
    {
      hide Wrapped, View;
      RefinesQueue(State(), valid, x, ready);
      var push := valid && count != depth;
      var pop := count != 0 && ready;
      var forward := push && count == (if pop then 1 else 0);
      var w, next := wptr, mem[rptr];
      if push {
        mem[w] := x;
        wptr := Inc(depth, w);
      }
      if forward {
        dout, rptr := x, Inc(depth, w);
      } else if pop {
        dout, rptr := next, Inc(depth, rptr);
      }
      if push && !pop {
        count := count + 1;
      } else if pop && !push {
        count := count - 1;
      }
    }
  }
}
