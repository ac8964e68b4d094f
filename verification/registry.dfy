/**
  The multibody system's subsystem registry: one matter slot, one global
  (accumulator) slot, an ordered list of force subsystems, an optional
  decoration subsystem, and, for a molecular-mechanics system, the slot naming
  its distinguished force subsystem.
 */
module Registry {
  import opened Options

  /** A subsystem's index within its system. */
  type Id = nat

  /** The concrete kind of the system representation behind a handle. */
  datatype SystemKind = Multibody | MolecularMechanics

  datatype Registry = Registry(
    kind: SystemKind,
    matter: Option<Id>,
    global: Option<Id>,
    forces: seq<Id>,
    decoration: Option<Id>,
    molecularMechanics: Option<Id>)
  {
    /** Both subsystems every stage depends on are installed. */
    predicate Configured() {
      matter.Some? && global.Some?
    }

    /** Every subsystem the registry holds, counted once per slot it occupies. */
    function Registered(): multiset<Id> {
      multiset(matter.Elements()) + multiset(global.Elements())
      + multiset(forces) + multiset(decoration.Elements())
    }

    /** No subsystem occupies two slots (or two places in the force list). */
    ghost predicate Distinct() {
      forall x :: Registered()[x] <= 1
    }

    /** The system is a molecular-mechanics system (its representation is of that kind). */
    predicate IsMolecularMechanicsSystem() {
      kind == MolecularMechanics
    }
  }

  /**
    In a registry where no subsystem fills two slots, matter, global and the
    force subsystems are pairwise different subsystems.
   */
  lemma DistinctSlots(reg: Registry)
    requires reg.Configured() && reg.Distinct()
    ensures reg.matter.value != reg.global.value
    ensures forall i :: 0 <= i < |reg.forces| ==>
              reg.forces[i] != reg.matter.value && reg.forces[i] != reg.global.value
  {
    var m, g := reg.matter.value, reg.global.value;
    assert reg.Registered()[m] >= 1 + multiset{g}[m];
    forall i | 0 <= i < |reg.forces|
      ensures reg.forces[i] != m && reg.forces[i] != g
    {
      var f := reg.forces[i];
      assert f in multiset(reg.forces);
      assert reg.Registered()[f] >= multiset{m}[f] + multiset{g}[f] + 1;
    }
  }

  /** A representation with no subsystem installed. */
  function EmptyRep(kind: SystemKind): Registry {
    Registry(kind, None, None, [], None, None)
  }

  /** The registry operations the system's public setters forward to. */
  datatype Registration =
    | SetMatter(matterId: Id)
    | AddForce(forceId: Id)
    | SetDecoration(decorationId: Id)
    | SetMolecularMechanicsForce(mmId: Id)

  /** A registration the system's kind admits: the molecular-mechanics setter needs that kind. */
  predicate Admits(reg: Registry, op: Registration) {
    op.SetMolecularMechanicsForce? ==> reg.IsMolecularMechanicsSystem()
  }

  /**
    One registration. Matter and decoration replace their slot; a force
    subsystem is appended to the force list; the molecular-mechanics force
    subsystem is appended to the force list and also recorded in its own slot.
   */
  function Apply(reg: Registry, op: Registration): (r: Registry)
    requires Admits(reg, op)
    ensures r.kind == reg.kind && r.global == reg.global
  {
    match op
    case SetMatter(m) => reg.(matter := Some(m))
    case AddForce(f) => reg.(forces := reg.forces + [f])
    case SetDecoration(d) => reg.(decoration := Some(d))
    case SetMolecularMechanicsForce(mm) =>
      reg.(forces := reg.forces + [mm], molecularMechanics := Some(mm))
  }

  /** The force subsystems a series of registrations appends, in registration order. */
  function ForcesIn(ops: seq<Registration>): seq<Id> {
    if ops == [] then []
    else
      match ops[0]
      case AddForce(f) => [f] + ForcesIn(ops[1..])
      case SetMolecularMechanicsForce(mm) => [mm] + ForcesIn(ops[1..])
      case _ => ForcesIn(ops[1..])
  }

  /** Some registration in `ops` installs a matter subsystem. */
  predicate SetsMatter(ops: seq<Registration>) {
    exists i :: 0 <= i < |ops| && ops[i].SetMatter?
  }

  /**
    A series of registrations applied in order. Registration never touches
    the global slot or the system's kind, extends the force list in
    registration order, and leaves a matter subsystem installed exactly when
    one was installed before or some registration installs one.
   */
  function ApplyAll(reg: Registry, ops: seq<Registration>): (r: Registry)
    requires forall i :: 0 <= i < |ops| ==> Admits(reg, ops[i])
    ensures r.global == reg.global
    ensures r.kind == reg.kind
    ensures r.forces == reg.forces + ForcesIn(ops)
    ensures r.matter.Some? <==> reg.matter.Some? || SetsMatter(ops)
    decreases |ops|
  {
    if ops == [] then reg
    else
      var next := Apply(reg, ops[0]);
      assert forall i :: 0 <= i < |ops[1..]| ==> ops[1..][i] == ops[i + 1];
      assert forall i :: 0 <= i < |ops[1..]| ==> Admits(next, ops[1..][i]) by {
        forall i | 0 <= i < |ops[1..]| ensures Admits(next, ops[1..][i]) {
          assert Admits(reg, ops[i + 1]);
        }
      }
      assert SetsMatter(ops) <==> ops[0].SetMatter? || SetsMatter(ops[1..]);
      ApplyAll(next, ops[1..])
  }
}
