# Staged realization order of the Simbody multibody system

This project models the orchestration layer of Simbody's `MultibodySystem`.
A multibody system holds four kinds of subsystem:

- one matter subsystem;
- one global (accumulator) subsystem, which the system creates for itself;
- an ordered list of force subsystems;
- an optional decoration subsystem.

A molecular-mechanics system is a multibody system that also names one force
subsystem as its molecular-mechanics force field.

There are nine stages: Topology, Model, Instance, Time, Position, Velocity,
Dynamics, Acceleration and Report. Realizing a stage calls each subsystem's
stage method in a fixed, hand-coded order. That order is the subject of the
model:

- Topology and Model call matter, then global, then the force subsystems.
- Instance, Time, Position and Velocity call global, then matter, then the force subsystems.
- Dynamics, Acceleration and Report call global, then every force subsystem, then matter.
- Force subsystems are always called in registration order.
- The decoration subsystem, when present, is always called last.

The model also covers the constructors: every constructor installs the global
subsystem.

Layout:

- `options.dfy`: `Option`, used for single-subsystem slots.
- `sequences.dfy`: `NoDup`, `Before` and facts about them.
- `stages.dfy`: the `Stage` enumeration and the three orderings.
- `registry.dfy`: the subsystem registry and the registrations that update it.
- `realization.dfy`: the per-stage trace `RealizeOrder`, a loop-based `RealizeStage` that follows the source's statements, and the ordering lemmas.
- `systems.dfy`: the constructors and lemmas about constructed systems.

A subsystem is identified by its index (`Id`, a natural number). A stage's
trace is the sequence of indices whose stage method is called, in call order.
The global subsystem's index is a parameter of the constructors. That index
is assigned by the system representation, which is not part of this model.

Several order lemmas assume `Distinct`: no subsystem fills two slots.
This stands for the representation giving each adopted subsystem its own
index. The representation is not part of this model, so the constructors
accept colliding indices. `Systems.ConstructedDistinct` shows that
pairwise-different arguments give a `Distinct` registry.

The two-argument molecular-mechanics constructor sets matter
(src/MultibodySystem.cpp:342) before it registers the force field (:343).
That order cannot be seen in this model: the two steps change different
slots. The order affects only the indices the representation assigns.

`RealizeOrder` requires both the matter and the global slot at every stage.
The source asserts this only at Topology (src/MultibodySystem.cpp:179-180).
The later stages dereference both slots through accessors, and they run only
after Topology has been realized on the same system.

## Model

| member | source | states |
|---|---|---|
| Realization.RealizeOrder | src/MultibodySystem.cpp:178-271 | At any stage, the trace has 2 + (number of force subsystems) + (1 if there is a decoration) calls. It is a rearrangement of exactly the registered subsystems. |
| Realization.RealizeStage | src/MultibodySystem.cpp:178-271 | Running a stage method's calls in order, including the loop over the force list, produces exactly the trace `RealizeOrder` gives. |
| Realization.InvokeForces | src/MultibodySystem.cpp:187-188 | The force loop calls every force subsystem once, in list order, after the calls already made. |
| Realization.ExactlyOnce | src/MultibodySystem.cpp:178-271 | If no subsystem fills two slots, each registered subsystem is called exactly once per stage and nothing else is called. |
| Realization.MatterGlobalOrder | src/MultibodySystem.cpp:185-208 | If no subsystem fills two slots, matter is called before global if and only if the stage is Topology or Model. At every other stage global is called before matter. |
| Realization.ForceBlock | src/MultibodySystem.cpp:187-188 | The force subsystems are called as one contiguous block, in list order. The block starts at position 2, or at position 1 from Dynamics on. |
| Realization.ForceRegistrationOrder | src/MultibodySystem.cpp:245-246 | If no subsystem fills two slots, one force subsystem is called before another if and only if it was registered earlier. |
| Realization.ForcePlacement | src/MultibodySystem.cpp:242-271 | If no subsystem fills two slots, every force subsystem is called after global. A force subsystem is then called before matter if and only if the stage is Dynamics, Acceleration or Report. |
| Realization.DecorationLast | src/MultibodySystem.cpp:190-191 | A present decoration subsystem is the last call of every stage. Every other registered subsystem that is not the decoration itself is called before it. |
| Realization.DecorationSkipped | src/MultibodySystem.cpp:249-250 | Without a decoration subsystem, the trace is the trace with one, minus its final decoration call. |
| Realization.SameTraceIff | src/MultibodySystem.cpp:242-247 | If no subsystem fills two slots, two stages give the same trace if and only if they share an ordering, or there are no force subsystems and neither stage is Topology or Model. Matter moving to the end is visible only when force subsystems exist. |
| Registry.Apply | src/MultibodySystem.cpp:101-109 | A single registration leaves the global slot and the system kind unchanged. |
| Registry.ApplyAll | src/MultibodySystem.cpp:101-109 | Registrations never change the global slot or the system kind. They append force subsystems in registration order. Matter is installed afterwards if and only if it was installed before or some registration sets it. |
| Systems.AdoptRep | src/MultibodySystem.cpp:84-88 | The protected constructor fills the global slot of the representation it adopts and changes nothing else. |
| Systems.NewMultibodySystem | src/MultibodySystem.cpp:68-72 | The default constructor gives a non-molecular-mechanics system. Its only registered subsystem is the global subsystem. |
| Systems.NewMultibodySystemWithMatter | src/MultibodySystem.cpp:74-80 | The matter-taking constructor installs global and the given matter, and nothing else. The result is ready for Topology. |
| Systems.NewMolecularMechanicsSystem | src/MultibodySystem.cpp:333-336 | The default molecular-mechanics constructor gives a molecular-mechanics system. Its only registered subsystem is the global subsystem. |
| Systems.NewMolecularMechanicsSystemWith | src/MultibodySystem.cpp:338-344 | The two-argument molecular-mechanics constructor installs global and the given matter. The force field becomes the only force subsystem and is recorded in its own slot. The result is ready for Topology. |
| Systems.GlobalAlwaysInstalled | src/MultibodySystem.cpp:68-88 | For every constructor and any later series of registrations, the global slot holds the global subsystem. |
| Systems.MolecularMechanicsInstance | src/MultibodySystem.cpp:309-312 | The molecular-mechanics instance check holds if and only if a molecular-mechanics constructor built the system. Later registrations do not change this. |
| Systems.ReadyForTopology | src/MultibodySystem.cpp:178-180 | A constructed system meets Topology's requirement if and only if its constructor took a matter subsystem or a later registration set one. |
| Systems.RegistrationIsInvocationOrder | src/MultibodySystem.cpp:104-106 | At every stage, the force block of a constructed system's trace is the constructor's force subsystems followed by those added later, in registration order. |
| Systems.MolecularMechanicsSchedule | src/MultibodySystem.cpp:338-344 | A freshly built molecular-mechanics system with matter m, global g and force field f calls m, g, f at Topology and Model. It calls g, m, f at Instance through Velocity, and g, f, m from Dynamics on. |
| Systems.ConstructedDistinct | src/MultibodySystem.cpp:68-88 | A constructor given a matter subsystem, force field and global index that are pairwise different builds a registry in which no subsystem fills two slots. |

## Left out

- `project`: it forwards to the representation's projection, which is not part of this model. It also works on floating-point tolerances with an iterative numeric algorithm.
- Energy and force accessors (`get*`/`upd*`): these are one-line forwards into the representation. Their sizing and zeroing is not visible here, and they use floating-point and spatial-vector types.
- `isInstanceOf`, `downcast`, `updDowncast`, `getRep` and `updRep`: this is C++ type plumbing. Only the system kind is modelled. It is the precondition `Admits` of the molecular-mechanics registration, and the predicate `IsMolecularMechanicsSystem`.
- The global subsystem's own `isInstanceOf`/`downcast` (src/MultibodySystem.cpp:279-301): type plumbing with no effect on the registry.
- `getMatterSubsystem`, `getDecorationSubsystem` and the molecular-mechanics force-field getters: these only read a slot. The model reads the slot fields directly.
- Registration return values: `setMatterSubsystem`, `addForceSubsystem`, `setDecorationSubsystem` and `setMolecularMechanicsForceSubsystem` return indices assigned by the representation, which is not part of this model. The model treats them only as registry updates:
  - matter and decoration replace their slot;
  - a force subsystem is appended to the list;
  - the molecular-mechanics force field is appended to the list and recorded in its own slot. This is an assumption about the representation.
- Subsystem physics: the bodies of the individual `realizeSubsystem*` calls.
- Stage advancement and repeated-realization behaviour: these belong to the `System` base class, which is not part of this model.
- Realization.RealizeOrder: requires the matter and global slots at every stage, not only at Topology where the source asserts them. At later stages the source reaches both slots through accessors that are not part of this model.
