/** Sums and extremes of lists of values. */
module Values {

  function Max(x: nat, y: nat): nat { if x < y then y else x }

  function Min(x: nat, y: nat): nat { if x < y then x else y }

  function Sum(vs: seq<nat>): nat {
    if vs == [] then 0 else Sum(vs[..|vs| - 1]) + vs[|vs| - 1]
  }

  function Least(vs: seq<nat>): (r: nat)
    requires vs != []
    ensures r in vs && forall v | v in vs :: r <= v
  {
    assert vs == vs[..|vs| - 1] + [vs[|vs| - 1]];
    if |vs| == 1 then vs[0] else Min(Least(vs[..|vs| - 1]), vs[|vs| - 1])
  }

  function Greatest(vs: seq<nat>): (r: nat)
    requires vs != []
    ensures r in vs && forall v | v in vs :: v <= r
  {
    assert vs == vs[..|vs| - 1] + [vs[|vs| - 1]];
    if |vs| == 1 then vs[0] else Max(Greatest(vs[..|vs| - 1]), vs[|vs| - 1])
  }
}
