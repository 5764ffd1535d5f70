/** predicate_engine and projection_engine: what each does to one beat. */
module Operators {
  import opened Bits
  import opened DbPkg
  import AxisRegister

  function SlotResult(p: Pred, cols: seq<nat>): bool {
    PredApply(p.op, Col(cols, p.column), p.imm)
  }

  /** The enabled slots, in order. */
  function Enabled(preds: seq<Pred>): (es: seq<Pred>)
    ensures forall p | p in es :: p.enable && p in preds
  {
    if preds == [] then []
    else
      var p := preds[|preds| - 1];
      Enabled(preds[..|preds| - 1]) + if p.enable then [p] else []
  }

  /** Left-to-right fold over slots that are all active; the first seeds it. */
  function FoldSlots(es: seq<Pred>, cols: seq<nat>): bool {
    if es == [] then true
    else if |es| == 1 then SlotResult(es[0], cols)
    else
      var p := es[|es| - 1];
      PredCombine(FoldSlots(es[..|es| - 1], cols), p.combineOr, SlotResult(p, cols))
  }

  /** The WHERE clause: disabled slots do not count, and no active slot passes every row. */
  function Passes(preds: seq<Pred>, cols: seq<nat>): bool {
    FoldSlots(Enabled(preds), cols)
  }

  /** The engine's loop over the slots. */
  method EvalSlots(preds: seq<Pred>, cols: seq<nat>) returns (pass: bool)
    ensures pass == Passes(preds, cols)
  {
    pass := true;
    var found := false;
    for i := 0 to |preds|
      invariant found == (Enabled(preds[..i]) != [])
      invariant pass == FoldSlots(Enabled(preds[..i]), cols)
    {
      ghost var es := Enabled(preds[..i]);
      assert preds[..i + 1][..i] == preds[..i];
      if preds[i].enable {
        assert Enabled(preds[..i + 1]) == es + [preds[i]];
        assert (es + [preds[i]])[..|es|] == es;
        var r := PredApply(preds[i].op, Col(cols, preds[i].column), preds[i].imm);
        if !found {
          pass := r;
          found := true;
        } else {
          pass := PredCombine(pass, preds[i].combineOr, r);
        }
      } else {
        assert Enabled(preds[..i + 1]) == es;
      }
    }
    assert preds[..|preds|] == preds;
  }

  /** Slot k decides the clause: every later slot is true or joined by OR, and nothing
      before k was needed. */
  predicate Decides(es: seq<Pred>, cols: seq<nat>, k: nat) {
    && k < |es| && SlotResult(es[k], cols) && (k == 0 || es[k].combineOr)
    && forall m | k < m < |es| :: es[m].combineOr || SlotResult(es[m], cols)
  }

  /** The fold, at any mix of AND and OR: it holds when some slot decides it. */
  lemma {:induction false} FoldMeans(es: seq<Pred>, cols: seq<nat>)
    requires es != []
    ensures FoldSlots(es, cols) <==> exists k: nat :: Decides(es, cols, k)
  {
    hide SlotResult;
    var n := |es| - 1;
    if n == 0 {
      assert FoldSlots(es, cols) == SlotResult(es[0], cols);
      assert SlotResult(es[0], cols) ==> Decides(es, cols, 0);
    } else {
      FoldMeans(es[..n], cols);
      if FoldSlots(es[..n], cols) {
        var k: nat :| Decides(es[..n], cols, k);
        assert FoldSlots(es, cols) ==> Decides(es, cols, k);
      } else if FoldSlots(es, cols) {
        assert Decides(es, cols, n);
      }
      if k: nat :| Decides(es, cols, k) && k < n {
        assert Decides(es[..n], cols, k);
      }
    }
  }

  /** With every active slot after the first combined by AND the clause is the conjunction of
      the active slots. */
  lemma AllAndIsConjunction(preds: seq<Pred>, cols: seq<nat>)
    requires forall i | 1 <= i < |Enabled(preds)| :: !Enabled(preds)[i].combineOr
    ensures Passes(preds, cols) <==> forall p | p in preds && p.enable :: SlotResult(p, cols)
  {
    EnabledMembers(preds);
    FoldAnd(Enabled(preds), cols);
  }

  /** With every active slot after the first combined by OR it is the disjunction. */
  lemma AllOrIsDisjunction(preds: seq<Pred>, cols: seq<nat>)
    requires Enabled(preds) != []
    requires forall i | 1 <= i < |Enabled(preds)| :: Enabled(preds)[i].combineOr
    ensures Passes(preds, cols) <==> exists p :: p in preds && p.enable && SlotResult(p, cols)
  {
    EnabledMembers(preds);
    FoldOr(Enabled(preds), cols);
  }

  lemma {:induction false} EnabledMembers(preds: seq<Pred>)
    ensures forall p :: p in Enabled(preds) <==> p in preds && p.enable
  {
    if preds == [] {
    } else {
      var n := |preds| - 1;
      EnabledMembers(preds[..n]);
      assert preds == preds[..n] + [preds[n]];
    }
  }

  lemma {:induction false} FoldAnd(es: seq<Pred>, cols: seq<nat>)
    requires forall i | 1 <= i < |es| :: !es[i].combineOr
    ensures FoldSlots(es, cols) <==> forall p | p in es :: SlotResult(p, cols)
  {
    if |es| <= 1 {
    } else {
      var n := |es| - 1;
      FoldAnd(es[..n], cols);
      assert es == es[..n] + [es[n]];
    }
  }

  lemma {:induction false} FoldOr(es: seq<Pred>, cols: seq<nat>)
    requires es != [] && forall i | 1 <= i < |es| :: es[i].combineOr
    ensures FoldSlots(es, cols) <==> exists p :: p in es && SlotResult(p, cols)
  {
    if |es| == 1 {
      assert es[0] in es;
    } else {
      var n := |es| - 1;
      FoldOr(es[..n], cols);
      assert es == es[..n] + [es[n]];
    }
  }

  /** The SELECT list: unselected columns read as zero. */
  function Project(mask: nat, cols: seq<nat>): (r: seq<nat>)
    ensures |r| == |cols|
  {
    seq(|cols|, c requires 0 <= c < |cols| => if Bit(mask, c) then cols[c] else 0)
  }

  /** The engine's loop over the columns. */
  method MaskColumns(mask: nat, cols: seq<nat>) returns (r: seq<nat>)
    ensures r == Project(mask, cols)
  {
    r := cols;
    for c := 0 to |cols|
      invariant |r| == |cols|
      invariant forall k | 0 <= k < c :: r[k] == Project(mask, cols)[k]
      invariant forall k | c <= k < |cols| :: r[k] == cols[k]
    {
      if !Bit(mask, c) { r := r[c := 0]; }
    }
  }

  function PredBeat(cfg: Config, x: Beat): Beat {
    Beat(Passes(cfg.preds, x.cols), x.cols, x.last)
  }

  function ProjBeat(cfg: Config, x: Beat): Beat {
    Beat(x.pass, Project(cfg.mask, x.cols), x.last)
  }

  // ------------------------------------------------------------------ the two engines

  /** predicate_engine: the loop's pass bit on the way into a skid stage. */
  class PredicateEngine {
    const reg: AxisRegister.SkidRegister<Beat>

    constructor (zero: Beat)
      ensures fresh(reg) && reg.State() == AxisRegister.Skid(false, zero)
    {
      reg := new AxisRegister.SkidRegister(zero);
    }

    method Evaluate(cfg: Config, x: Beat) returns (y: Beat)
      ensures y == PredBeat(cfg, x)
    {
      var pass := EvalSlots(cfg.preds, x.cols);
      y := Beat(pass, x.cols, x.last);
    }
  }

  /** projection_engine: the masking loop on the way into a skid stage. */
  class ProjectionEngine {
    const reg: AxisRegister.SkidRegister<Beat>

    constructor (zero: Beat)
      ensures fresh(reg) && reg.State() == AxisRegister.Skid(false, zero)
    {
      reg := new AxisRegister.SkidRegister(zero);
    }

    method Mask(cfg: Config, x: Beat) returns (y: Beat)
      ensures y == ProjBeat(cfg, x)
    {
      var cols := MaskColumns(cfg.mask, x.cols);
      y := Beat(x.pass, cols, x.last);
    }
  }
}
