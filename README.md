# Game plugin core: event bus, Flash reload gate, dynamic element registration

This project is a Dafny model of the three small pieces of logic inside a game
plugin for CryEngine. The rest of the plugin is glue to the engine.

- **Event taxonomy** (`game_event_types.dfy`, module `GameEventTypes`). This is
  the `EGameEvent` flag enumeration. `None` is 0 and each other kind is one bit.
  The module also has the masks built from those bits, the signal structs with
  their constructors, and the list of constants reflected to Schematyc.
- **Listener directory** (`game_event_bus.dfy`, module `GameEventBus`). The
  singleton `CGameEvents` becomes the class `GameEvents`. Its map field
  `listeners` takes each listener to the set of kinds it subscribed to.
  - A broadcast send calls each listener whose mask holds the signal's type.
  - An entity-targeted send also requires the listener's entity to be the
    target. A null target falls back to the broadcast.
  - Each send returns the listeners it called, in call order.
- **Engine services** (`flash_host.dfy`, module `FlashHost`). The class `Host`
  stands for the parts of the engine the plugin calls through `gEnv`:
  - the Schematyc package registry;
  - the Flash element registry;
  - the dynamic component descriptor registry;
  - the UI elements the Flash UI system supplies;
  - whether the engine runs inside the editor, and whether Schematyc is loaded;
  - an ordered log of these calls: package and Flash element registry
    changes, the descriptor registry reset, UI module, environment module and
    system-event listener (un)registration, `CompileAll`, component
    registration and each `GetUIElement` fetch. Queries (`GetUIElementCount`,
    `IsValid`, `GetName`, `IsEditor`, the name-to-GUID derivation) and the
    descriptor setters are not logged.

  The name-to-GUID derivation is a pair of total functions the model does not
  look inside.
- **Flash module** (`flash_module.dfy`, module `FlashModule`). The class
  `FlashEnvModule` has the reload flag and the preview-instance count. It also
  has package registration, `Shutdown`, the reload query and `EditorReload`.
  The registration pass `RegisterDynamicComponents` is proved against fold
  functions. These give the Flash registry, the descriptor registry and the
  call log after the pass has visited the elements in order.
- **Plugin** (`game_plugin.dfy`, module `Plugin`). The class `GamePlugin` has
  `Initialize`, `OnSystemEvent` and the destructor (`Destroy`).
  `OnSystemEvent` is proved against a one-step transition function for the
  reload flag and a function giving the packages each event registers.

The `ESYSTEM_EVENT_GAME_POST_INIT` case has no `break`. It therefore also runs
all of the `ESYSTEM_EVENT_REGISTER_SCHEMATYC_ENV` registration, and the model
keeps this fallthrough (`PostInitFallsThrough`). So a host that sends both
events registers each package twice when Schematyc is loaded.

Mode-switch end sets the reload flag to `true` unconditionally
(GamePlugin.cpp:86-90). It does not restore an earlier value, so a later
mode-switch end lifts the block a non-editor post-init set. The model follows
the code: `ModeSwitchEndReallows` and `FlagIsLastDecision` state this
behaviour.

## Model

| member | source | states |
|---|---|---|
| `GameEventTypes.KindValues` | IGameEvents.h:8-48 | `None` is the only kind whose value is 0, and every other kind's value has exactly one bit set |
| `GameEventTypes.KindsDisjoint` | IGameEvents.h:12-48 | two different kinds share no bit, so or-ing kinds into a mask never collides |
| `GameEventTypes.MaskCheck` | IGameEvents.h:51 | for any kind but `None`, a mask or-ed from a list of kinds has that kind's bit set iff the kind is in the list. This holds for both the "any bit" and the "all bits" test |
| `GameEventTypes.ReflectedConstantsCoverKinds` | IGameEvents.h:186-195 | every kind except `None` appears among the reflected constants, and none appears twice |
| `GameEventTypes.DefaultBaseSignal` | IGameEvents.h:55-57 | a default-constructed base signal has type `None` |
| `GameEventTypes.NewBaseSignal` | IGameEvents.h:59-62 | a base signal built from a type keeps exactly that type |
| `GameEventTypes.DefaultEntityKilledSignal` | IGameEvents.h:87-91 | the default entity-killed signal has type `EntityKilled`, the invalid entity id and an empty class name |
| `GameEventTypes.NewEntityKilledSignal` | IGameEvents.h:93-97 | the two-argument constructor stores exactly the given entity id and class name, with type `EntityKilled` |
| `GameEventTypes.DefaultLeftArenaSignal` | IGameEvents.h:107-110 | the default left-arena signal has type `LeftArena` and a zero edge normal |
| `GameEventTypes.NewLeftArenaSignal` | IGameEvents.h:112-115 | the left-arena constructor stores the given edge normal unchanged |
| `GameEventTypes.DefaultCustomEventSignal` | IGameEvents.h:169-171 | the default custom signal has type `CustomEvent` and empty data |
| `GameEventTypes.NewCustomEventSignal` | IGameEvents.h:173-176 | the custom signal stores the given data string unchanged, with type `CustomEvent` |
| `GameEventTypes.DerivedSignalType` | IGameEvents.h:65-179 | every derived signal's `m_type` is its struct's static `type`, and that type is never `None` |
| `GameEventBus.UnsubscribedReceivesNothing` | GameEvents.h:29 | a listener whose mask lacks the kind is addressed by neither send |
| `GameEventBus.TargetedWithinBroadcast` | GameEvents.h:45-51 | a targeted send's recipients are a subset of the broadcast's. With a non-null target, every recipient's entity is the target |
| `GameEventBus.TargetedSingleMatch` | GameEvents.h:45-51 | with exactly one subscribed listener bound to the target, a targeted send addresses exactly that listener |
| `GameEventBus.TargetedNoMatch` | GameEvents.h:45-51 | with no subscribed listener bound to a non-null target, a targeted send addresses nobody |
| `GameEventBus.BitMasksAgreeWithSets` | GameEvents.h:29 | for any kind but `None`, testing the listeners' bit masks selects exactly the listeners whose set of kinds holds it |
| `GameEventBus.GameEvents.constructor` | GameEvents.h:68 | the directory starts empty |
| `GameEventBus.GameEvents.SendEvent` | GameEvents.h:24-34 | calls each listener at most once, and calls exactly those whose mask holds the signal's type. The directory is not modified (no `modifies` clause) |
| `GameEventBus.GameEvents.SendEventToEntity` | GameEvents.h:36-52 | with a null target, calls exactly the broadcast's recipients. Otherwise it calls exactly the listeners whose mask holds the type and whose entity is the target, each at most once. The directory is not modified |
| `FlashModule.RegistryKeys` | FlashModule.cpp:100-136 | the pass adds exactly the GUIDs of the valid elements to the Flash registry. After a reset, the registry holds nothing else |
| `FlashModule.RegistryEntries` | FlashModule.cpp:106-136 | every entry is either an earlier one or a valid element of the list, filed under the GUID derived from its own name |
| `FlashModule.LastValidWins` | FlashModule.cpp:135-136 | the registry keeps the last valid element that derives a given GUID |
| `FlashModule.InvalidElementsSkipped` | FlashModule.cpp:106-112 | both registries after the pass equal the registries after a pass over only the valid elements |
| `FlashModule.PassKeepsPairing` | FlashModule.cpp:114-136 | the pass keeps the two registries paired: same keys, and each entry valid and filed under its own GUID. Its descriptor has that GUID, label `"FlashElement:" + name`, category `"FlashUI"` and flags {HideFromInspector, Singleton} |
| `FlashModule.PassVisitsEachIndexOnce` | FlashModule.cpp:100-103 | the elements fetched by the pass are those at indices 0 .. count-1, each once, in increasing order |
| `FlashModule.RegisterDynamicComponents` | FlashModule.cpp:98-141 | the loop leaves the Flash registry, the descriptor registry and the call log as the fold functions give them for the host's element list. The package registry is unchanged |
| `FlashModule.RegisterFlashElements` | FlashModule.cpp:92-96 | registers the Flash env module under the package GUID, then runs the pass |
| `FlashModule.FlashEnvModule.constructor` | FlashModule.h:46-47 | a new module has reload disallowed and zero preview instances, and registers itself with the Flash UI system |
| `FlashModule.FlashEnvModule.RegisterSchematyc` | FlashModule.cpp:38-49 | files the Flash package under the fixed package GUID |
| `FlashModule.FlashEnvModule.UnregisterSchematyc` | FlashModule.cpp:51-54 | removes exactly the entry under that same fixed GUID |
| `FlashModule.FlashEnvModule.SetAllowReload` | FlashModule.cpp:56-59 | sets the flag to the argument and leaves the preview count unchanged |
| `FlashModule.FlashEnvModule.Shutdown` | FlashModule.cpp:61-65 | empties the Flash registry, then unregisters the module. Packages and descriptors are unchanged |
| `FlashModule.FlashEnvModule.EditorAllowReload` | FlashModule.cpp:67-76 | refuses whenever preview instances are open, and otherwise answers with the allow flag. It changes nothing |
| `FlashModule.FlashEnvModule.EditorReload` | FlashModule.cpp:77-85 | in order: deregister the package, reset the Flash registry, reset the descriptor registry, re-register the package, compile all. Both registries are reset before the package is re-registered. The model's re-registration runs no callback, so they end empty (hence paired), and the Flash package is registered again |
| `FlashModule.RebuildAfterReload` | FlashModule.cpp:79-82 | after the reset, a registration pass over the current UI elements leaves the Flash registry holding exactly the valid elements' GUIDs, with the two registries paired |
| `FlashModule.FlashEnvModule.AdjustPreviewInstances` | FlashModule.cpp:87-90 | adds the argument to the count with no clamping, so the count may go negative. The flag is unchanged |
| `Plugin.AllowReloadDecides` | GamePlugin.cpp:39-90 | each system event either decides the flag (mode-switch end: true; mode-switch start, or post-init outside the editor: false) or leaves it unchanged |
| `Plugin.FlagIsLastDecision` | GamePlugin.cpp:36-92 | after any sequence of system events, the flag is what the last deciding event set, or its starting value if none decided |
| `Plugin.ModeSwitchEndReallows` | GamePlugin.cpp:86-90 | a mode-switch end leaves reload allowed whatever came before, so a post-init block is not permanent |
| `Plugin.EditorPostInitNeutral` | GamePlugin.cpp:39-45 | inside the editor, post-init leaves the flag as it was |
| `Plugin.PostInitFallsThrough` | GamePlugin.cpp:39-78 | post-init registers exactly the packages that `REGISTER_SCHEMATYC_ENV` registers, three of them when Schematyc is present |
| `Plugin.RegisterAllEffect` | GamePlugin.cpp:47-76 | registering a list of packages logs one entry per package in order. It adds exactly their GUIDs and leaves other entries as they were. Each registered GUID ends up holding the last package in the list with that GUID |
| `Plugin.RegisterAllKeeps` | GamePlugin.cpp:47-76 | a GUID that no registered package carries keeps the package it held |
| `Plugin.RegisterAllLastWins` | GamePlugin.cpp:47-76 | a package whose GUID no later package in the list shares is the one filed under that GUID |
| `Plugin.GamePlugin.Initialize` | GamePlugin.cpp:26-32 | subscribes to system events and always returns true |
| `Plugin.GamePlugin.RegisterPackages` | GamePlugin.cpp:49-76 | registers the components package, then the game-nodes package, then the Flash package |
| `Plugin.GamePlugin.OnSystemEvent` | GamePlugin.cpp:34-93 | the flag follows the one-step transition function. Packages are registered as the fallthrough dictates, and nothing when Schematyc is absent. Any other event changes nothing |
| `Plugin.GamePlugin.Destroy` | GamePlugin.cpp:14-24 | stops listening for system events. Deregisters the components package only when Schematyc is present |

## Left out

- `SubscribeToEvents` / `UnsubscribeFromEvents` (GameEvents.h:21-22): their bodies are not part of this model, so the directory's contents are arbitrary. Every property of the sends holds for any directory.
- `SendEventInternal` (GameEvents.h:55-65): private, unused, and it works through the engine's `ProcessSignal`.
- `IGameEventListener::OnEvent` (IGameEvents.h:257): a send returns the list of listeners it called. What a handler does is not modelled, including the default handler, which does nothing.
- Re-entrancy: a handler that changes the directory during a send is not modelled.
- Delivery order: the map iterates in the address order of the listener objects. The sends return the calls in an unspecified order, and their contracts speak of the set of listeners called.
- `CEnumFlags::Check` is engine code. The directory stores each mask as the set of kinds it holds, and `BitMasksAgreeWithSets` shows this is exact for every kind except `None`. For a signal of type `None` (value 0), whether a bit test passes depends on the engine's `Check`. The model delivers it only to listeners whose set holds `None`.
- `ReflectType` GUIDs, labels and descriptions (IGameEvents.h:181-251): reflection metadata. Only the list of enumeration constants is modelled.
- `Vec3` floats are modelled as reals and never computed with.
- Engine internals: the engine registries are modelled as map updates that overwrite, with a log entry per call. Two assumptions follow:
  - `RegisterPackage` and `RegisterElement` are assumed to overwrite an existing entry.
  - `CDynDescFactory` and `CDynamicTypeDescRegistry` are assumed to keep one shared store of descriptors.

  A descriptor's other reflected data is not modelled.
- `typeName.ToGUID` and `TypeString` are engine functions. They are modelled as deterministic functions the model does not look inside (`Naming`).
- `RegisterDynamicFunctions`, `RegisterElementFunctions`, `RegisterElementEvents` (FlashModule.cpp:138-140): not part of this model.
- When the engine invokes the package callback, and whether it calls `EditorReload` only after `EditorAllowReload` said yes: decided by the engine, not modelled.
- `CryWarning` diagnostics: they produce output only.
- The `CFlashEnvModule` destructor (FlashModule.cpp:22-30), `GetInstance` singletons, `CRYREGISTER_SINGLETON_CLASS` and GamePlugin.h: not modelled.
- `FlashModule.FlashEnvModule.EditorReload`: assumes that re-registering the Flash package does not itself run the package's `RegisterFlashElements` callback (passed at FlashModule.cpp:46). Its contract therefore promises empty registries at the end. If the engine runs the callback during `RegisterPackage`, the registries instead end as a pass over the current elements leaves them, which `RebuildAfterReload` describes.
- `FlashModule.FlashEnvModule.RegisterSchematyc`, `FlashModule.FlashEnvModule.UnregisterSchematyc`, `FlashModule.FlashEnvModule.EditorReload`: require Schematyc to be loaded (`host.schematycPresent`), because the source dereferences `gEnv->pSchematyc` without a check (FlashModule.cpp:40, 53, 84). The crash a call without Schematyc would cause is not modelled.
- `FlashModule.FlashEnvModule.AdjustPreviewInstances`: does not model 32-bit `int` overflow, which is undefined behaviour in the source. The count is an unbounded integer.
- The two module fields are private in the source. Dafny has no access control, so this is reflected only in that no other member of the model assigns them.
- The `wparam` and `lparam` arguments of `OnSystemEvent` are unused by the source and left out.
