/**
 When a carrier takes remote starts: a refill while its ready window is at most half
 full, and one start per pressure quota while the window stays full.
 */
module Admission {

  const READY_TARGET: nat := 64
  const PRESSURE_BOUND: nat := 65_536

  /** Pressure counts consecutive receive passes that left a backlog. */
  datatype Gate = Gate(pressure: nat, backlog: bool)

  function Target(capacity: nat): nat {
    if READY_TARGET < capacity then READY_TARGET else capacity
  }

  /** How many starts one pass may drain. */
  function Limit(ready: nat, target: nat, pressure: nat): nat {
    if ready <= target / 2 then target - ready
    else if pressure >= PRESSURE_BOUND then 1
    else 0
  }

  function Min(a: nat, b: nat): nat {
    if a < b then a else b
  }

  function Pressed(g: Gate): nat {
    g.pressure + if g.backlog then 1 else 0
  }

  /** One pass: `ready` tasks wait, `depth` starts are published, `after` remain published at its end. */
  datatype Pass = Pass(ready: nat, depth: nat, after: nat)

  function Drained(g: Gate, p: Pass, target: nat): nat {
    Min(p.depth, Limit(p.ready, target, Pressed(g)))
  }

  function Next(g: Gate, p: Pass, target: nat): Gate {
    var pressure := if Drained(g, p, target) != 0 then 0 else Pressed(g);
    Gate(if p.after != 0 then pressure else 0, p.after != 0)
  }

  /** Publishers may add starts during a pass, but only the carrier removes them. */
  ghost predicate Possible(g: Gate, p: Pass, target: nat) {
    p.after >= p.depth - Drained(g, p, target)
  }

  /** A run of passes; between passes the carrier may notice a backlog early. */
  ghost predicate Run(gates: seq<Gate>, passes: seq<Pass>, target: nat) {
    && |gates| == |passes| + 1
    && forall i :: 0 <= i < |passes| ==>
         && Possible(gates[i], passes[i], target)
         && gates[i + 1].pressure == Next(gates[i], passes[i], target).pressure
         && (Next(gates[i], passes[i], target).backlog ==> gates[i + 1].backlog)
  }

  /**
   The counter reaches its bound and survives a pass exactly when nothing was published
   at the drain and something is at the end, so that no start could relieve it.
   */
  lemma {:induction false} PressureOutlastsBound(g: Gate, p: Pass, target: nat)
    requires target > 0
    ensures Next(g, p, target).pressure >= PRESSURE_BOUND <==> Pressed(g) >= PRESSURE_BOUND && p.depth == 0 && p.after != 0
  {
  }

  /** Passes that drain nothing from a non-empty queue raise the pressure each time. */
  lemma {:induction false} FruitlessPassesPress(gates: seq<Gate>, passes: seq<Pass>, target: nat, n: nat)
    requires Run(gates, passes, target) && n <= |passes|
    requires forall i :: 0 <= i < |passes| ==> passes[i].depth > 0
    requires forall i :: 0 <= i < n ==> Drained(gates[i], passes[i], target) == 0
    ensures n > 0 ==> gates[n].backlog && gates[n].pressure >= n - 1
  {
    if n > 0 {
      FruitlessPassesPress(gates, passes, target, n - 1);
      assert Possible(gates[n - 1], passes[n - 1], target);
    }
  }

  /** While the start queue stays non-empty, 65,537 consecutive passes drain some start. */
  lemma {:induction false} SomeStartIsDrained(gates: seq<Gate>, passes: seq<Pass>, target: nat)
    requires Run(gates, passes, target) && target > 0 && |passes| == PRESSURE_BOUND + 1
    requires forall i :: 0 <= i < |passes| ==> passes[i].depth > 0
    ensures exists i :: 0 <= i < |passes| && Drained(gates[i], passes[i], target) > 0
  {
    if forall i :: 0 <= i < PRESSURE_BOUND ==> Drained(gates[i], passes[i], target) == 0 {
      FruitlessPassesPress(gates, passes, target, PRESSURE_BOUND);
      assert Limit(passes[PRESSURE_BOUND].ready, target, Pressed(gates[PRESSURE_BOUND])) > 0;
      assert Drained(gates[PRESSURE_BOUND], passes[PRESSURE_BOUND], target) > 0;
    }
  }

  /** The gate after `i` fruitless passes. */
  function Fruitless(i: nat): Gate {
    Gate(if i == 0 then 0 else i - 1, i > 0)
  }

  /** One pass fewer is not enough: a full window can hold every start back that long. */
  lemma {:induction false} BoundIsExact(target: nat)
    requires target > 0
    ensures exists gates: seq<Gate>, passes: seq<Pass> ::
              && Run(gates, passes, target) && |passes| == PRESSURE_BOUND && gates[0] == Gate(0, false)
              && forall i :: 0 <= i < |passes| ==> passes[i].depth > 0 && Drained(gates[i], passes[i], target) == 0
  {
    var passes := seq(PRESSURE_BOUND, i => Pass(target, 1, 1));
    var gates := seq(PRESSURE_BOUND + 1, i requires i >= 0 => Fruitless(i));
    forall i | 0 <= i < |passes|
      ensures Drained(gates[i], passes[i], target) == 0
      ensures gates[i + 1] == Next(gates[i], passes[i], target)
    {
      assert gates[i] == Fruitless(i) && gates[i + 1] == Fruitless(i + 1);
    }
    assert Run(gates, passes, target);
  }
}
