/** axis_register: the one-deep skid stage with combinational pass-through. */
module AxisRegister {

  datatype Skid<T> = Skid(valid: bool, reg: T)

  predicate InReady<T>(s: Skid<T>) {
    !s.valid
  }

  predicate OutValid<T>(s: Skid<T>, valid: bool) {
    s.valid || valid
  }

  function OutData<T>(s: Skid<T>, x: T): T {
    if s.valid then s.reg else x
  }

  function Next<T>(s: Skid<T>, valid: bool, x: T, ready: bool): Skid<T> {
    if !s.valid then
      if valid then Skid(!ready, x) else s
    else if ready then s.(valid := false) else s
  }

  function Contents<T>(s: Skid<T>): seq<T> {
    if s.valid then [s.reg] else []
  }

  /** Nothing is lost, duplicated or reordered: what was held, then what is accepted, is what
      is delivered, then what is held next. */
  lemma SkidConserves<T>(s: Skid<T>, valid: bool, x: T, ready: bool)
    ensures Contents(s) + (if valid && InReady(s) then [x] else [])
         == (if OutValid(s, valid) && ready then [OutData(s, x)] else []) + Contents(Next(s, valid, x, ready))
  {}

  /** The stage holds word a of a stream f, or holds nothing and awaits it. */
  ghost predicate Carries<T>(s: Skid<T>, f: nat -> T, a: nat) {
    s.valid ==> s.reg == f(a)
  }

  function Held<T>(s: Skid<T>): nat {
    if s.valid then 1 else 0
  }

  /** Fed with a stream in order, the stage delivers that stream in order, under any ready. */
  lemma SkidCarries<T>(s: Skid<T>, f: nat -> T, a: nat, valid: bool, x: T, ready: bool)
    requires Carries(s, f, a) && (valid ==> x == f(a + Held(s)))
    ensures OutValid(s, valid) ==> OutData(s, x) == f(a)
    ensures var a' := if OutValid(s, valid) && ready then a + 1 else a;
      var s' := Next(s, valid, x, ready);
      && Carries(s', f, a')
      && a' + Held(s') == a + Held(s) + if valid && InReady(s) then 1 else 0
  {}

  class SkidRegister<T> {
    var valid: bool
    var reg: T

    ghost function State(): Skid<T>
      reads this
    {
      Skid(valid, reg)
    }

    constructor (zero: T)
      ensures State() == Skid(false, zero)
    {
      valid, reg := false, zero;
    }

    method Reset(zero: T)
      modifies this
      ensures State() == Skid(false, zero)
    {
      valid, reg := false, zero;
    }

    /** The output, combinational from the input while the stage is empty. */
    function Out(x: T): (y: T)
      reads this
      ensures y == OutData(State(), x)
    {
      if valid then reg else x
    }

    /** One clock edge: an empty stage stores its input only when the output stalls. */
    method Tick(inValid: bool, x: T, outReady: bool)
      modifies this
      ensures State() == Next(old(State()), inValid, x, outReady)
    {
      if !valid {
        if inValid {
          reg := x;
          valid := !outReady;
        }
      } else if outReady {
        valid := false;
      }
    }
  }
}
