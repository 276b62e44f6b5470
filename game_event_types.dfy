/** The game event taxonomy of IGameEvents.h: the EGameEvent flag enumeration,
    the masks built from it, the signal structs and their constructors, and the
    list of constants the enumeration reflects to the scripting environment. */
module GameEventTypes {

  /** EGameEvent. `None` is the zero value; every other kind is one bit. */
  datatype GameEvent =
    | None
    | KillEntity
    | EntityKilled
    | LeftArena
    | SpawnPlayer
    | DisableWeapons
    | EnableWeapons
    | StartSimulation
    | StopSimulation
    | ResetGame
    | CustomEvent

  /** The bit position `n` of a kind declared as BIT(n). */
  function BitIndex(e: GameEvent): nat
    requires e != None
  {
    match e
    case KillEntity => 0
    case EntityKilled => 1
    case LeftArena => 2
    case SpawnPlayer => 3
    case DisableWeapons => 4
    case EnableWeapons => 5
    case StartSimulation => 6
    case StopSimulation => 7
    case ResetGame => 8
    case CustomEvent => 30
  }

  /** The enumerator's underlying value: 0 for None, BIT(n) for the others. */
  function Value(e: GameEvent): bv32 {
    if e == None then 0 else (1 as bv32) << BitIndex(e)
  }

  /** A value with exactly one bit set. */
  predicate IsSingleBit(v: bv32) {
    v != 0 && v & (v - 1) == 0
  }

  /** None is 0 and every other kind is one bit. */
  lemma KindValues(e: GameEvent)
    ensures e == None <==> Value(e) == 0
    ensures e != None ==> IsSingleBit(Value(e))
  {
  }

  /** Distinct kinds share no bit, so they combine into a mask without collision. */
  lemma KindsDisjoint(a: GameEvent, b: GameEvent)
    requires a != b
    ensures Value(a) & Value(b) == 0
  {
  }

  /** EGameEventMask built by or-ing the kinds together, as CEnumFlags does. */
  function MaskOf(kinds: seq<GameEvent>): bv32
  {
    if kinds == [] then 0 else MaskOf(kinds[..|kinds| - 1]) | Value(kinds[|kinds| - 1])
  }

  /** Testing a mask for a kind's bit recovers exactly the kinds the mask was
      built from, whether the test asks for any bit or for all bits of the kind. */
  lemma {:induction false} MaskCheck(kinds: seq<GameEvent>, e: GameEvent)
    requires e != None
    ensures (MaskOf(kinds) & Value(e) != 0) <==> e in kinds
    ensures (MaskOf(kinds) & Value(e) == Value(e)) <==> e in kinds
  {
    KindValues(e);
    if kinds != [] {
      var init, last := kinds[..|kinds| - 1], kinds[|kinds| - 1];
      MaskCheck(init, e);
      assert kinds == init + [last];
      if last != e {
        KindsDisjoint(last, e);
      }
    }
  }

  /** One entry of the reflected enumeration: the constant, its name and its display label. */
  datatype ReflectedConstant = ReflectedConstant(kind: GameEvent, name: string, displayLabel: string)

  /** The constants the type description adds, in the order it adds them. */
  const ReflectedConstants: seq<ReflectedConstant> := [
    ReflectedConstant(KillEntity, "KillEntity", "Kill Entity"),
    ReflectedConstant(EntityKilled, "EntityKilled", "Entity Killed"),
    ReflectedConstant(LeftArena, "LeftArena", "Left Arena"),
    ReflectedConstant(SpawnPlayer, "SpawnPlayer", "Spawn Player"),
    ReflectedConstant(EnableWeapons, "EnableWeapons", "Enable Weapons"),
    ReflectedConstant(DisableWeapons, "DisableWeapons", "Disable Weapons"),
    ReflectedConstant(StartSimulation, "StartSimulation", "Start Simulation"),
    ReflectedConstant(StopSimulation, "StopSimulation", "Stop Simulation"),
    ReflectedConstant(ResetGame, "ResetGame", "Reset Game"),
    ReflectedConstant(CustomEvent, "CustomEvent", "Custom Event")
  ]

  /** The reflected kinds, in the order the type description adds them. */
  function ReflectedKinds(): seq<GameEvent>
  {
    seq(|ReflectedConstants|, i requires 0 <= i < |ReflectedConstants| => ReflectedConstants[i].kind)
  }

  /** Every kind except None is reflected, and no kind is reflected twice. */
  lemma ReflectedConstantsCoverKinds()
    ensures forall e: GameEvent :: e != None <==> e in ReflectedKinds()
    ensures forall i, j :: 0 <= i < j < |ReflectedKinds()| ==> ReflectedKinds()[i] != ReflectedKinds()[j]
  {
    var ks := ReflectedKinds();
    assert ks == [KillEntity, EntityKilled, LeftArena, SpawnPlayer, EnableWeapons, DisableWeapons,
                  StartSimulation, StopSimulation, ResetGame, CustomEvent];
  }

  /** Schematyc::ExplicitEntityId; the invalid entity id is modelled as 0. */
  datatype ExplicitEntityId = ExplicitEntityId(id: nat)

  const InvalidEntityId: ExplicitEntityId := ExplicitEntityId(0)

  /** Vec3, a float vector the model only carries around. */
  datatype Vec3 = Vec3(x: real, y: real, z: real)

  const ZeroVec: Vec3 := Vec3(0.0, 0.0, 0.0)

  /** The signal structs. `BaseSignal` is SGameEventSignalBase itself; every other
      alternative is one derived struct with its payload fields. A datatype value
      never changes, which is what the const `m_type` guarantees. */
  datatype Signal =
    | BaseSignal(baseType: GameEvent)
    | SpawnPlayerSignal
    | KillEntitySignal
    | EntityKilledSignal(entity: ExplicitEntityId, classname: string)
    | LeftArenaSignal(edgeNormal: Vec3)
    | DisableWeaponsSignal
    | EnableWeaponsSignal
    | StartSimulationSignal
    | StopSimulationSignal
    | ResetGameSignal
    | CustomEventSignal(data: string)
  {
    /** The struct's static `type`; none for the base struct, which has none. */
    function StaticType(): GameEvent
    {
      match this
      case BaseSignal(_) => None
      case SpawnPlayerSignal => SpawnPlayer
      case KillEntitySignal => KillEntity
      case EntityKilledSignal(_, _) => EntityKilled
      case LeftArenaSignal(_) => LeftArena
      case DisableWeaponsSignal => DisableWeapons
      case EnableWeaponsSignal => EnableWeapons
      case StartSimulationSignal => StartSimulation
      case StopSimulationSignal => StopSimulation
      case ResetGameSignal => ResetGame
      case CustomEventSignal(_) => CustomEvent
    }

    /** `m_type`: what the base constructor stored. */
    function Type(): GameEvent
    {
      if BaseSignal? then baseType else StaticType()
    }
  }

  /** SGameEventSignalBase(): a base signal of type None. */
  function DefaultBaseSignal(): (s: Signal)
    ensures s.Type() == None
  {
    BaseSignal(None)
  }

  /** SGameEventSignalBase(type). */
  function NewBaseSignal(t: GameEvent): (s: Signal)
    ensures s.Type() == t
  {
    BaseSignal(t)
  }

  /** SEntityKilledSignal(): the invalid entity and an empty class name. */
  function DefaultEntityKilledSignal(): (s: Signal)
    ensures s.Type() == EntityKilled && s.EntityKilledSignal?
    ensures s.entity == InvalidEntityId && s.classname == ""
  {
    EntityKilledSignal(InvalidEntityId, "")
  }

  /** SEntityKilledSignal(entity, classname). */
  function NewEntityKilledSignal(entity: ExplicitEntityId, classname: string): (s: Signal)
    ensures s.Type() == EntityKilled && s.EntityKilledSignal?
    ensures s.entity == entity && s.classname == classname
  {
    EntityKilledSignal(entity, classname)
  }

  /** SLeftArenaSignal(): a zero edge normal. */
  function DefaultLeftArenaSignal(): (s: Signal)
    ensures s.Type() == LeftArena && s.LeftArenaSignal? && s.edgeNormal == ZeroVec
  {
    LeftArenaSignal(ZeroVec)
  }

  /** SLeftArenaSignal(edgeNormal). */
  function NewLeftArenaSignal(edgeNormal: Vec3): (s: Signal)
    ensures s.Type() == LeftArena && s.LeftArenaSignal? && s.edgeNormal == edgeNormal
  {
    LeftArenaSignal(edgeNormal)
  }

  /** SCustomEventSignal(): a default (empty) shared string. */
  function DefaultCustomEventSignal(): (s: Signal)
    ensures s.Type() == CustomEvent && s.CustomEventSignal? && s.data == ""
  {
    CustomEventSignal("")
  }

  /** SCustomEventSignal(data): the data string unchanged. */
  function NewCustomEventSignal(data: string): (s: Signal)
    ensures s.Type() == CustomEvent && s.CustomEventSignal? && s.data == data
  {
    CustomEventSignal(data)
  }

  /** Every derived struct's constructors pass its static `type` to the base,
      so a derived signal's m_type is its struct's static type and never None. */
  lemma DerivedSignalType(s: Signal)
    requires !s.BaseSignal?
    ensures s.Type() == s.StaticType() && s.Type() != None
  {
  }
}
