/** CGamePlugin (GamePlugin.cpp): the system-event handler that drives the
    Flash module's reload flag and registers the Schematyc packages, with the
    plugin's initialisation and teardown. */
module Plugin {
  import opened FlashHost
  import opened FlashModule

  /** CGamePlugin's class id {BCC7B624-C27D-4F45-A578-A00BB040B37C}, the GUID
      of the entity components package. */
  const PluginGuid: Guid := Guid(0xBCC7B624C27D4F45, 0xA578A00BB040B37C)

  /** The entity components package. */
  const ComponentsPackage: Package := Package(PluginGuid, "EntityComponents", "Crytek GmbH", "Components")

  /** The game nodes package; its GUID, g_gameModuleGUID, is declared in
      Env/GameEnv.h, which is not part of this model. */
  function GameNodesPackage(gameModuleGuid: Guid): Package
  {
    Package(gameModuleGuid, "GameNodes", "Crytek GmbH", "Game")
  }

  /** The system events the handler distinguishes; every other ESystemEvent
      is `OtherSystemEvent`. */
  datatype SystemEvent =
    | GamePostInit
    | RegisterSchematycEnv
    | GameModeSwitchStart
    | GameModeSwitchEnd
    | OtherSystemEvent(code: nat)

  /** The allow flag after one event, following the switch as written: the
      post-init case sets nothing more inside the editor, mode-switch start
      clears the flag, mode-switch end sets it. */
  function AllowReloadAfter(e: SystemEvent, isEditor: bool, allow: bool): bool
  {
    match e
    case GamePostInit => if !isEditor then false else allow
    case GameModeSwitchStart => false
    case GameModeSwitchEnd => true
    case _ => allow
  }

  /** Whether the event runs the REGISTER_SCHEMATYC_ENV case: that case
      itself, and post-init, which has no break and falls through into it. */
  predicate RunsEnvRegistration(e: SystemEvent)
  {
    e == GamePostInit || e == RegisterSchematycEnv
  }

  /** The packages one event registers, in order. */
  function PackagesRegisteredBy(e: SystemEvent, schematycPresent: bool, gameModuleGuid: Guid): seq<Package>
  {
    if RunsEnvRegistration(e) && schematycPresent
    then [ComponentsPackage, GameNodesPackage(gameModuleGuid), FlashPackage]
    else []
  }

  /** The registry after registering `ps` in order. */
  function RegisterAll(packages: map<Guid, Package>, ps: seq<Package>): map<Guid, Package>
    decreases |ps|
  {
    if ps == [] then packages else RegisterAll(packages[ps[0].guid := ps[0]], ps[1..])
  }

  /** The log entries of registering `ps` in order. */
  function RegistrationCalls(ps: seq<Package>): seq<HostCall>
  {
    if ps == [] then [] else [RegisterPackage(ps[0].guid)] + RegistrationCalls(ps[1..])
  }

  datatype Option<T> = Nothing | Some(value: T)

  /** An independent statement of the effect on the flag: the decision an
      event makes, if it makes one. */
  function Decision(e: SystemEvent, isEditor: bool): Option<bool>
  {
    if e == GameModeSwitchEnd then Some(true)
    else if e == GameModeSwitchStart || (e == GamePostInit && !isEditor) then Some(false)
    else Nothing
  }

  /** The flag after a sequence of events, applied in order. */
  function RunAllowReload(events: seq<SystemEvent>, isEditor: bool, allow: bool): bool
  {
    if events == [] then allow
    else RunAllowReload(events[1..], isEditor, AllowReloadAfter(events[0], isEditor, allow))
  }

  /** The decision of the last event in the sequence that makes one. */
  function LastDecision(events: seq<SystemEvent>, isEditor: bool): Option<bool>
  {
    if events == [] then Nothing
    else
      var later := LastDecision(events[1..], isEditor);
      if later.Some? then later else Decision(events[0], isEditor)
  }

  /** One event either decides the flag or leaves it as it was. */
  lemma AllowReloadDecides(e: SystemEvent, isEditor: bool, allow: bool)
    ensures AllowReloadAfter(e, isEditor, allow)
         == (if Decision(e, isEditor).Some? then Decision(e, isEditor).value else allow)
  {
  }

  /** After any sequence of events the flag is what the last deciding event
      set, or its starting value if no event decided. */
  lemma {:induction false} FlagIsLastDecision(events: seq<SystemEvent>, isEditor: bool, allow: bool)
    ensures var d := LastDecision(events, isEditor);
      RunAllowReload(events, isEditor, allow) == if d.Some? then d.value else allow
  {
    if events != [] {
      var next := AllowReloadAfter(events[0], isEditor, allow);
      FlagIsLastDecision(events[1..], isEditor, next);
      AllowReloadDecides(events[0], isEditor, allow);
    }
  }

  lemma {:induction false} LastDecisionAppend(events: seq<SystemEvent>, e: SystemEvent, isEditor: bool)
    requires Decision(e, isEditor).Some?
    ensures LastDecision(events + [e], isEditor) == Decision(e, isEditor)
  {
    if events != [] {
      assert (events + [e])[1..] == events[1..] + [e];
      LastDecisionAppend(events[1..], e, isEditor);
    } else {
      assert LastDecision([e][1..], isEditor) == Nothing;
    }
  }

  /** A mode-switch end allows reload whatever came before, so blocking it at
      post-init outside the editor is not permanent. */
  lemma ModeSwitchEndReallows(events: seq<SystemEvent>, isEditor: bool, allow: bool)
    ensures RunAllowReload(events + [GameModeSwitchEnd], isEditor, allow)
  {
    LastDecisionAppend(events, GameModeSwitchEnd, isEditor);
    FlagIsLastDecision(events + [GameModeSwitchEnd], isEditor, allow);
  }

  /** Inside the editor, post-init never touches the flag. */
  lemma {:induction false} EditorPostInitNeutral(events: seq<SystemEvent>, allow: bool)
    ensures RunAllowReload(events + [GamePostInit], true, allow) == RunAllowReload(events, true, allow)
  {
    FlagIsLastDecision(events + [GamePostInit], true, allow);
    FlagIsLastDecision(events, true, allow);
    LastDecisionNeutralAppend(events, GamePostInit, true);
  }

  lemma {:induction false} LastDecisionNeutralAppend(events: seq<SystemEvent>, e: SystemEvent, isEditor: bool)
    requires Decision(e, isEditor) == Nothing
    ensures LastDecision(events + [e], isEditor) == LastDecision(events, isEditor)
  {
    if events != [] {
      assert (events + [e])[1..] == events[1..] + [e];
      LastDecisionNeutralAppend(events[1..], e, isEditor);
    } else {
      assert LastDecision([e][1..], isEditor) == Nothing;
    }
  }

  /** Post-init performs the whole REGISTER_SCHEMATYC_ENV registration too. */
  lemma PostInitFallsThrough(schematycPresent: bool, g: Guid)
    ensures PackagesRegisteredBy(GamePostInit, schematycPresent, g)
         == PackagesRegisteredBy(RegisterSchematycEnv, schematycPresent, g)
    ensures schematycPresent ==> |PackagesRegisteredBy(GamePostInit, schematycPresent, g)| == 3
  {
  }

  /** Registering a list of packages logs one entry per package, in order,
      adds exactly their GUIDs, leaves other entries alone, and maps each
      package's GUID to the last package in the list with that GUID. */
  lemma {:induction false} RegisterAllEffect(packages: map<Guid, Package>, ps: seq<Package>)
    ensures |RegistrationCalls(ps)| == |ps|
    ensures forall i :: 0 <= i < |ps| ==> RegistrationCalls(ps)[i] == RegisterPackage(ps[i].guid)
    ensures RegisterAll(packages, ps).Keys == packages.Keys + set p | p in ps :: p.guid
    ensures forall g :: g in packages && (forall p :: p in ps ==> p.guid != g) ==> RegisterAll(packages, ps)[g] == packages[g]
    ensures forall i :: 0 <= i < |ps| && (forall k :: i < k < |ps| ==> ps[k].guid != ps[i].guid) ==>
      ps[i].guid in RegisterAll(packages, ps) && RegisterAll(packages, ps)[ps[i].guid] == ps[i]
    decreases |ps|
  {
    if ps != [] {
      assert RegisterAll(packages, ps).Keys == packages.Keys + (set p | p in ps :: p.guid)
          && |RegistrationCalls(ps)| == |ps|
          && (forall i :: 0 <= i < |ps| ==> RegistrationCalls(ps)[i] == RegisterPackage(ps[i].guid))
          && (forall g :: g in packages && (forall p :: p in ps ==> p.guid != g) ==> RegisterAll(packages, ps)[g] == packages[g])
      by {
        RegisterAllEffect(packages[ps[0].guid := ps[0]], ps[1..]);
        assert forall p :: p in ps <==> p == ps[0] || p in ps[1..];
      }
    }
    forall i | 0 <= i < |ps| && (forall k :: i < k < |ps| ==> ps[k].guid != ps[i].guid)
      ensures ps[i].guid in RegisterAll(packages, ps) && RegisterAll(packages, ps)[ps[i].guid] == ps[i]
    {
      RegisterAllLastWins(packages, ps, i);
    }
  }

  /** A GUID no package in the list carries keeps its entry. */
  lemma {:induction false} RegisterAllKeeps(packages: map<Guid, Package>, ps: seq<Package>, g: Guid)
    requires g in packages
    requires forall k :: 0 <= k < |ps| ==> ps[k].guid != g
    ensures g in RegisterAll(packages, ps) && RegisterAll(packages, ps)[g] == packages[g]
    decreases |ps|
  {
    if ps != [] {
      RegisterAllKeeps(packages[ps[0].guid := ps[0]], ps[1..], g);
    }
  }

  /** A package that no later package shares its GUID with is the one filed
      under that GUID. */
  lemma {:induction false} RegisterAllLastWins(packages: map<Guid, Package>, ps: seq<Package>, i: int)
    requires 0 <= i < |ps|
    requires forall k :: i < k < |ps| ==> ps[k].guid != ps[i].guid
    ensures ps[i].guid in RegisterAll(packages, ps) && RegisterAll(packages, ps)[ps[i].guid] == ps[i]
    decreases |ps|
  {
    var tail := ps[1..];
    if i == 0 {
      RegisterAllKeeps(packages[ps[0].guid := ps[0]], tail, ps[0].guid);
    } else {
      assert tail[i - 1] == ps[i];
      RegisterAllLastWins(packages[ps[0].guid := ps[0]], tail, i - 1);
    }
  }

  /** CGamePlugin. */
  class GamePlugin {
    const host: Host
    const flash: FlashEnvModule
    const gameModuleGuid: Guid

    constructor (host: Host, flash: FlashEnvModule, gameModuleGuid: Guid)
      requires flash.host == host
      ensures this.host == host && this.flash == flash && this.gameModuleGuid == gameModuleGuid
    {
      this.host := host;
      this.flash := flash;
      this.gameModuleGuid := gameModuleGuid;
    }

    /** Initialize: listens for system events and always succeeds. */
    method Initialize() returns (ok: bool)
      modifies host
      ensures ok
      ensures host.calls == old(host.calls) + [RegisterSystemEventListener]
      ensures host.packages == old(host.packages) && host.flashRegistry == old(host.flashRegistry)
      ensures host.descriptors == old(host.descriptors)
    {
      host.Record(RegisterSystemEventListener);
      return true;
    }

    /** Registers the three packages: components, game nodes, Flash. */
    method RegisterPackages()
      requires flash.host == host && host.schematycPresent
      modifies host
      ensures host.packages == RegisterAll(old(host.packages), PackagesRegisteredBy(RegisterSchematycEnv, true, gameModuleGuid))
      ensures host.calls == old(host.calls) + RegistrationCalls(PackagesRegisteredBy(RegisterSchematycEnv, true, gameModuleGuid))
      ensures host.flashRegistry == old(host.flashRegistry) && host.descriptors == old(host.descriptors)
    {
      ghost var ps := PackagesRegisteredBy(RegisterSchematycEnv, true, gameModuleGuid);
      ghost var before := host.packages;
      host.RegisterEnvPackage(ComponentsPackage);
      host.RegisterEnvPackage(GameNodesPackage(gameModuleGuid));
      flash.RegisterSchematyc();
      ghost var m1 := before[PluginGuid := ComponentsPackage];
      ghost var m2 := m1[gameModuleGuid := GameNodesPackage(gameModuleGuid)];
      assert ps[1..] == [GameNodesPackage(gameModuleGuid), FlashPackage];
      assert ps[1..][1..] == [FlashPackage];
      assert ps[1..][1..][1..] == [];
      assert RegisterAll(m2, ps[1..][1..]) == m2[PackageGuid := FlashPackage];
      assert RegisterAll(m1, ps[1..]) == RegisterAll(m2, ps[1..][1..]);
      assert RegistrationCalls(ps[1..][1..]) == [RegisterPackage(PackageGuid)];
      assert RegistrationCalls(ps[1..]) == [RegisterPackage(gameModuleGuid), RegisterPackage(PackageGuid)];
    }

    /** OnSystemEvent: the switch, with post-init falling through into the
        Schematyc registration case. */
    method OnSystemEvent(event: SystemEvent)
      requires flash.host == host
      modifies host, flash
      ensures flash.allowReload == AllowReloadAfter(event, host.isEditor, old(flash.allowReload))
      ensures flash.numPreviewInstances == old(flash.numPreviewInstances)
      ensures host.packages == RegisterAll(old(host.packages), PackagesRegisteredBy(event, host.schematycPresent, gameModuleGuid))
      ensures host.calls == old(host.calls) + RegistrationCalls(PackagesRegisteredBy(event, host.schematycPresent, gameModuleGuid))
      ensures host.flashRegistry == old(host.flashRegistry) && host.descriptors == old(host.descriptors)
    {
      if event == GamePostInit {
        if !host.isEditor {
          flash.SetAllowReload(false);
        }
      }
      if RunsEnvRegistration(event) {
        if host.schematycPresent {
          RegisterPackages();
        }
      } else if event == GameModeSwitchStart {
        flash.SetAllowReload(false);
      } else if event == GameModeSwitchEnd {
        flash.SetAllowReload(true);
      }
    }

    /** The destructor: stops listening, then deregisters the components
        package when Schematyc is present. */
    method Destroy()
      modifies host
      ensures host.schematycPresent ==> host.packages == old(host.packages) - {PluginGuid}
      ensures !host.schematycPresent ==> host.packages == old(host.packages)
      ensures host.calls == old(host.calls) + [RemoveSystemEventListener]
                          + (if host.schematycPresent then [DeregisterPackage(PluginGuid)] else [])
      ensures host.flashRegistry == old(host.flashRegistry) && host.descriptors == old(host.descriptors)
    {
      host.Record(RemoveSystemEventListener);
      if host.schematycPresent {
        host.DeregisterEnvPackage(PluginGuid);
      }
    }
  }
}
