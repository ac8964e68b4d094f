/**
  The per-stage invocation order of the multibody system's realize methods:
  which subsystems' stage methods are called, and in what order, when one
  stage is realized.
 */
module Realization {
  import opened Options
  import opened Stages
  import opened Registry
  import opened Sequences

  /**
    The subsystems whose stage method is called when `stage` is realized, in
    call order. Topology and Model call matter then global; Instance through
    Velocity call global then matter; both then call the force subsystems in
    registration order. Dynamics, Acceleration and Report call global, then
    every force subsystem, then matter. The decoration subsystem, when there
    is one, is always called last.
   */
  function RealizeOrder(stage: Stage, reg: Registry): (t: seq<Id>)
    requires reg.Configured()
    ensures |t| == 2 + |reg.forces| + (if reg.decoration.Some? then 1 else 0)
    ensures multiset(t) == reg.Registered()
  {
    OrderedCalls(OrderingOf(stage), reg) + reg.decoration.Elements()
  }

  /** The calls before the decoration subsystem's, for one of the three orderings. */
  function OrderedCalls(o: Ordering, reg: Registry): (c: seq<Id>)
    requires reg.Configured()
    ensures |c| == 2 + |reg.forces|
    ensures multiset(c) == multiset{reg.matter.value, reg.global.value} + multiset(reg.forces)
  {
    var m := reg.matter.value;
    var g := reg.global.value;
    match o
    case MatterFirst => [m, g] + reg.forces
    case GlobalFirst => [g, m] + reg.forces
    case ForcesBeforeMatter => [g] + reg.forces + [m]
  }

  /** Where the block of force-subsystem calls starts in a stage's trace. */
  function ForceOffset(stage: Stage): nat {
    if OrderingOf(stage) == ForcesBeforeMatter then 1 else 2
  }

  /** The loop over the force list: one call per force subsystem, in list order. */
  method InvokeForces(calls: seq<Id>, forces: seq<Id>) returns (r: seq<Id>)
    ensures r == calls + forces
  {
    r := calls;
    var i := 0;
    while i < |forces|
      invariant 0 <= i <= |forces|
      invariant r == calls + forces[..i]
    {
      r := r + [forces[i]];
      i := i + 1;
    }
  }

  /**
    A stage's realize method as hand-coded calls: each statement appends the
    subsystem it calls to the trace. Its trace is exactly `RealizeOrder`.
   */
  method RealizeStage(stage: Stage, reg: Registry) returns (calls: seq<Id>)
    requires reg.Configured()
    ensures calls == RealizeOrder(stage, reg)
  {
    var m := reg.matter.value;
    var g := reg.global.value;
    calls := [];
    match OrderingOf(stage) {
      case MatterFirst =>
        calls := calls + [m];
        calls := calls + [g];
        calls := InvokeForces(calls, reg.forces);
        assert calls == [m, g] + reg.forces;
      case GlobalFirst =>
        calls := calls + [g];
        calls := calls + [m];
        calls := InvokeForces(calls, reg.forces);
        assert calls == [g, m] + reg.forces;
      case ForcesBeforeMatter =>
        calls := calls + [g];
        calls := InvokeForces(calls, reg.forces);
        calls := calls + [m];
        assert calls == [g] + reg.forces + [m];
    }
    if reg.decoration.Some? {
      calls := calls + [reg.decoration.value];
    }
  }

  /**
    Each registered subsystem is called exactly once per stage, and nothing
    unregistered is called, provided no subsystem occupies two slots.
   */
  lemma ExactlyOnce(stage: Stage, reg: Registry)
    requires reg.Configured() && reg.Distinct()
    ensures forall x :: multiset(RealizeOrder(stage, reg))[x]
                          == (if x in reg.Registered() then 1 else 0)
    ensures NoDup(RealizeOrder(stage, reg))
  {
    var t := RealizeOrder(stage, reg);
    NoDupFromCounts(t);
  }

  /**
    Matter is called before global exactly at Topology and Model; at every
    other stage global is called first.
   */
  lemma MatterGlobalOrder(stage: Stage, reg: Registry)
    requires reg.Configured() && reg.Distinct()
    ensures Before(RealizeOrder(stage, reg), reg.matter.value, reg.global.value)
            <==> OrderingOf(stage) == MatterFirst
    ensures Before(RealizeOrder(stage, reg), reg.global.value, reg.matter.value)
            <==> OrderingOf(stage) != MatterFirst
  {
    var t := RealizeOrder(stage, reg);
    var m, g, n := reg.matter.value, reg.global.value, |reg.forces|;
    ExactlyOnce(stage, reg);
    match OrderingOf(stage)
    case MatterFirst =>
      BeforeAt(t, 0, 1);
      BeforeAsymmetric(t, m, g);
    case GlobalFirst =>
      BeforeAt(t, 0, 1);
      BeforeAsymmetric(t, g, m);
    case ForcesBeforeMatter =>
      BeforeAt(t, 0, n + 1);
      BeforeAsymmetric(t, g, m);
  }

  /** The force subsystems are called as one contiguous block, in list order. */
  lemma ForceBlock(stage: Stage, reg: Registry)
    requires reg.Configured()
    ensures ForceOffset(stage) + |reg.forces| <= |RealizeOrder(stage, reg)|
    ensures RealizeOrder(stage, reg)[ForceOffset(stage)..ForceOffset(stage) + |reg.forces|]
            == reg.forces
  {
    var t := RealizeOrder(stage, reg);
    var k, n := ForceOffset(stage), |reg.forces|;
    forall i | 0 <= i < n
      ensures t[k + i] == reg.forces[i]
    {
    }
  }

  /**
    One force subsystem is called before another exactly when it was
    registered earlier.
   */
  lemma ForceRegistrationOrder(stage: Stage, reg: Registry, i: int, j: int)
    requires reg.Configured() && reg.Distinct()
    requires 0 <= i < |reg.forces| && 0 <= j < |reg.forces|
    ensures Before(RealizeOrder(stage, reg), reg.forces[i], reg.forces[j]) <==> i < j
  {
    var t := RealizeOrder(stage, reg);
    var k := ForceOffset(stage);
    ForceBlock(stage, reg);
    ExactlyOnce(stage, reg);
    assert t[k + i] == reg.forces[i] && t[k + j] == reg.forces[j];
    if i < j {
      BeforeAt(t, k + i, k + j);
    } else if j < i {
      BeforeAt(t, k + j, k + i);
      BeforeAsymmetric(t, reg.forces[j], reg.forces[i]);
    }
  }

  /**
    Every force subsystem is called after global. It is called before matter
    exactly at Dynamics, Acceleration and Report, and after matter otherwise.
   */
  lemma ForcePlacement(stage: Stage, reg: Registry, i: int)
    requires reg.Configured() && reg.Distinct()
    requires 0 <= i < |reg.forces|
    ensures Before(RealizeOrder(stage, reg), reg.global.value, reg.forces[i])
    ensures Before(RealizeOrder(stage, reg), reg.forces[i], reg.matter.value)
            <==> OrderingOf(stage) == ForcesBeforeMatter
  {
    var t := RealizeOrder(stage, reg);
    var m, g, f, n := reg.matter.value, reg.global.value, reg.forces[i], |reg.forces|;
    var k := ForceOffset(stage);
    ForceBlock(stage, reg);
    ExactlyOnce(stage, reg);
    assert t[k + i] == f;
    match OrderingOf(stage)
    case MatterFirst =>
      assert t[1] == g && t[0] == m;
      BeforeAt(t, 1, k + i);
      BeforeAt(t, 0, k + i);
      BeforeAsymmetric(t, m, f);
    case GlobalFirst =>
      assert t[0] == g && t[1] == m;
      BeforeAt(t, 0, k + i);
      BeforeAt(t, 1, k + i);
      BeforeAsymmetric(t, m, f);
    case ForcesBeforeMatter =>
      assert t[0] == g && t[n + 1] == m;
      BeforeAt(t, 0, k + i);
      BeforeAt(t, k + i, n + 1);
  }

  /**
    When a decoration subsystem is present it is the last call of every
    stage, after every other registered subsystem.
   */
  lemma DecorationLast(stage: Stage, reg: Registry)
    requires reg.Configured()
    requires reg.decoration.Some?
    ensures RealizeOrder(stage, reg)[|RealizeOrder(stage, reg)| - 1] == reg.decoration.value
    ensures forall x :: x in reg.Registered() && x != reg.decoration.value
                        ==> Before(RealizeOrder(stage, reg), x, reg.decoration.value)
  {
    var t := RealizeOrder(stage, reg);
    var d := reg.decoration.value;
    forall x | x in reg.Registered() && x != d
      ensures Before(t, x, d)
    {
      assert x in multiset(t);
      var p :| 0 <= p < |t| && t[p] == x;
      BeforeAt(t, p, |t| - 1);
    }
  }

  /**
    Without a decoration subsystem the trace is the same as with one, minus
    the decoration's final call.
   */
  lemma DecorationSkipped(stage: Stage, reg: Registry, d: Id)
    requires reg.Configured()
    ensures RealizeOrder(stage, reg.(decoration := Some(d)))
            == RealizeOrder(stage, reg.(decoration := None)) + [d]
    ensures RealizeOrder(stage, reg.(decoration := None))
            == RealizeOrder(stage, reg.(decoration := Some(d)))[..2 + |reg.forces|]
  {
  }

  /**
    Two stages produce the same trace exactly when they share an ordering, or
    when there are no force subsystems and neither is Topology or Model: the
    later placement of matter at Dynamics, Acceleration and Report is
    observable only through the force subsystems it waits for.
   */
  lemma SameTraceIff(s1: Stage, s2: Stage, reg: Registry)
    requires reg.Configured() && reg.Distinct()
    ensures RealizeOrder(s1, reg) == RealizeOrder(s2, reg)
            <==> (OrderingOf(s1) == OrderingOf(s2)
                  || (reg.forces == [] && OrderingOf(s1) != MatterFirst
                      && OrderingOf(s2) != MatterFirst))
  {
    var o1, o2 := OrderingOf(s1), OrderingOf(s2);
    var c1, c2 := OrderedCalls(o1, reg), OrderedCalls(o2, reg);
    var d := reg.decoration.Elements();
    assert c1 + d == c2 + d ==> c1 == c2 by {
      if c1 + d == c2 + d {
        assert |c1| == |c2|;
        assert c1 == (c1 + d)[..|c1|];
        assert c2 == (c2 + d)[..|c2|];
      }
    }
    if o1 != o2 {
      if reg.forces == [] && o1 != MatterFirst && o2 != MatterFirst {
        var m, g := reg.matter.value, reg.global.value;
        assert c1 == [g, m] == c2;
      } else {
        OrderingsDiffer(o1, o2, reg);
      }
    }
  }

  /** Different orderings put different subsystems first or second, unless no force subsystem tells them apart. */
  lemma OrderingsDiffer(o1: Ordering, o2: Ordering, reg: Registry)
    requires reg.Configured() && reg.Distinct()
    requires o1 != o2
    requires !(reg.forces == [] && o1 != MatterFirst && o2 != MatterFirst)
    ensures OrderedCalls(o1, reg) != OrderedCalls(o2, reg)
  {
    DistinctSlots(reg);
    var c1, c2 := OrderedCalls(o1, reg), OrderedCalls(o2, reg);
    if o1 == MatterFirst || o2 == MatterFirst {
      assert c1[0] != c2[0];
    } else {
      assert c1[1] != c2[1];
    }
  }
}
