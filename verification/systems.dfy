/**
  How the multibody and molecular-mechanics systems are built: each
  constructor allocates a representation, installs the global subsystem, and
  optionally registers matter and the molecular-mechanics force subsystem.
  `global` is the index the representation assigns to the global subsystem it
  creates for itself.
 */
module Systems {
  import opened Options
  import opened Stages
  import opened Registry
  import opened Realization

  /**
    The protected constructor: adopt a representation allocated by a derived
    system and install the global subsystem in it. Whatever the
    representation held, the global slot is filled afterwards and nothing
    else is touched.
   */
  function AdoptRep(rep: Registry, global: Id): (r: Registry)
    ensures r.global == Some(global)
    ensures r.kind == rep.kind && r.matter == rep.matter && r.forces == rep.forces
    ensures r.decoration == rep.decoration && r.molecularMechanics == rep.molecularMechanics
  {
    rep.(global := Some(global))
  }

  /** The default constructor: a generic multibody system with only its global subsystem. */
  function NewMultibodySystem(global: Id): (r: Registry)
    ensures r.global == Some(global)
    ensures !r.IsMolecularMechanicsSystem()
    ensures r.Registered() == multiset{global}
  {
    AdoptRep(EmptyRep(Multibody), global)
  }

  /**
    The constructor taking a matter subsystem: the global subsystem is
    installed first, then the matter slot is set, so the system is ready for
    Topology.
   */
  function NewMultibodySystemWithMatter(global: Id, matter: Id): (r: Registry)
    ensures r.global == Some(global) && r.matter == Some(matter)
    ensures r.Configured() && !r.IsMolecularMechanicsSystem()
    ensures r.Registered() == multiset{matter, global}
  {
    Apply(NewMultibodySystem(global), SetMatter(matter))
  }

  /** The default molecular-mechanics constructor: a fresh representation of that kind, adopted. */
  function NewMolecularMechanicsSystem(global: Id): (r: Registry)
    ensures r.global == Some(global)
    ensures r.IsMolecularMechanicsSystem()
    ensures r.Registered() == multiset{global}
  {
    AdoptRep(EmptyRep(MolecularMechanics), global)
  }

  /**
    The two-argument molecular-mechanics constructor: adopt a fresh
    representation, set matter, then register the molecular-mechanics force
    subsystem, which becomes the only force subsystem.
   */
  function NewMolecularMechanicsSystemWith(global: Id, matter: Id, mm: Id): (r: Registry)
    ensures r.global == Some(global) && r.matter == Some(matter)
    ensures r.forces == [mm] && r.molecularMechanics == Some(mm) && r.decoration == None
    ensures r.Configured() && r.IsMolecularMechanicsSystem()
  {
    var base := NewMolecularMechanicsSystem(global);
    var withMatter := Apply(base, SetMatter(matter));
    Apply(withMatter, SetMolecularMechanicsForce(mm))
  }

  /** Every public way of constructing a system. */
  datatype Constructor =
    | DefaultMultibody
    | MultibodyWithMatter(matter: Id)
    | DefaultMolecularMechanics
    | MolecularMechanicsWith(mmMatter: Id, mm: Id)

  /** The registry a constructor leaves behind. */
  function Construct(c: Constructor, global: Id): Registry {
    match c
    case DefaultMultibody => NewMultibodySystem(global)
    case MultibodyWithMatter(m) => NewMultibodySystemWithMatter(global, m)
    case DefaultMolecularMechanics => NewMolecularMechanicsSystem(global)
    case MolecularMechanicsWith(m, mm) => NewMolecularMechanicsSystemWith(global, m, mm)
  }

  /**
    The global subsystem is installed by every constructor and stays
    installed, under the same index, through any later registrations.
   */
  lemma GlobalAlwaysInstalled(c: Constructor, global: Id, ops: seq<Registration>)
    requires forall i :: 0 <= i < |ops| ==> Admits(Construct(c, global), ops[i])
    ensures ApplyAll(Construct(c, global), ops).global == Some(global)
  {
  }

  /**
    The molecular-mechanics capability check holds exactly for systems built
    by a molecular-mechanics constructor, whatever is registered later.
   */
  lemma MolecularMechanicsInstance(c: Constructor, global: Id, ops: seq<Registration>)
    requires forall i :: 0 <= i < |ops| ==> Admits(Construct(c, global), ops[i])
    ensures ApplyAll(Construct(c, global), ops).IsMolecularMechanicsSystem()
            <==> c.DefaultMolecularMechanics? || c.MolecularMechanicsWith?
  {
  }

  /**
    A constructed system can be realized at Topology (both required slots
    filled) exactly when its constructor took a matter subsystem or some
    later registration set one.
   */
  lemma ReadyForTopology(c: Constructor, global: Id, ops: seq<Registration>)
    requires forall i :: 0 <= i < |ops| ==> Admits(Construct(c, global), ops[i])
    ensures ApplyAll(Construct(c, global), ops).Configured()
            <==> c.MultibodyWithMatter? || c.MolecularMechanicsWith? || SetsMatter(ops)
  {
  }

  /**
    At every stage the force subsystems are called in the order they were
    registered: those the constructor registered, then those added later.
   */
  lemma RegistrationIsInvocationOrder(stage: Stage, c: Constructor, global: Id,
                                      ops: seq<Registration>)
    requires forall i :: 0 <= i < |ops| ==> Admits(Construct(c, global), ops[i])
    requires ApplyAll(Construct(c, global), ops).Configured()
    ensures ForceOffset(stage) + |ApplyAll(Construct(c, global), ops).forces|
            <= |RealizeOrder(stage, ApplyAll(Construct(c, global), ops))|
    ensures RealizeOrder(stage, ApplyAll(Construct(c, global), ops))
              [ForceOffset(stage)..ForceOffset(stage) + |ApplyAll(Construct(c, global), ops).forces|]
            == Construct(c, global).forces + ForcesIn(ops)
  {
    ForceBlock(stage, ApplyAll(Construct(c, global), ops));
  }

  /**
    The schedule of a freshly built molecular-mechanics system: matter,
    global, force field at Topology and Model; global, matter, force field at
    Instance through Velocity; global, force field, matter from Dynamics on.
   */
  lemma MolecularMechanicsSchedule(stage: Stage, global: Id, matter: Id, mm: Id)
    ensures RealizeOrder(stage, NewMolecularMechanicsSystemWith(global, matter, mm))
            == match OrderingOf(stage)
               case MatterFirst => [matter, global, mm]
               case GlobalFirst => [global, matter, mm]
               case ForcesBeforeMatter => [global, mm, matter]
  {
  }

  /** The constructor's arguments and the global subsystem's index are pairwise different. */
  predicate DifferentIds(c: Constructor, global: Id) {
    match c
    case DefaultMultibody => true
    case MultibodyWithMatter(m) => m != global
    case DefaultMolecularMechanics => true
    case MolecularMechanicsWith(m, mm) => m != global && mm != global && m != mm
  }

  /**
    A constructor given pairwise-different subsystems builds a registry in
    which no subsystem fills two slots, so the order lemmas that assume
    `Distinct` apply to it.
   */
  lemma ConstructedDistinct(c: Constructor, global: Id)
    requires DifferentIds(c, global)
    ensures Construct(c, global).Distinct()
  {
    var r := Construct(c, global);
    match c
    case DefaultMultibody =>
    case MultibodyWithMatter(m) =>
    case DefaultMolecularMechanics =>
    case MolecularMechanicsWith(m, mm) =>
      assert r.Registered() == multiset{m} + multiset{global} + multiset{mm};
  }
}
