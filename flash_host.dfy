/** The engine services the Flash module and the plugin call through `gEnv`,
    reduced to the state those calls touch: the Schematyc environment registry
    (packages), the Flash element registry, the dynamic component descriptor
    registry, the UI elements the Flash UI system supplies, and an ordered log
    of the host calls that change the package or Flash registries, reset the
    descriptor registry, register modules, listeners or components, compile,
    or fetch an element. Queries (element count, validity, names, the editor
    flag, the name-to-GUID derivation) and the descriptor setters are not
    logged. What the host does
    inside these calls is not modelled; each call is a map update or a log
    entry. */
module FlashHost {

  /** CryGUID: two 64-bit halves. */
  datatype Guid = Guid(high: bv64, low: bv64)

  /** IUIElement as the registration pass sees it: a handle, its name and
      whether the host reports it valid. */
  datatype UIElement = UIElement(handle: nat, name: string, valid: bool)

  /** IEntityComponent::EFlags used by the dynamic components. */
  datatype ComponentFlag = HideFromInspector | Singleton

  /** The dynamic properties a component descriptor is given. */
  datatype ComponentDesc = ComponentDesc(
    guid: Guid, typeName: string, labelText: string, category: string, flags: set<ComponentFlag>)

  /** Schematyc::CEnvPackage: its GUID, name, author and description. */
  datatype Package = Package(guid: Guid, name: string, author: string, description: string)

  /** The host's name-to-GUID derivation: `typeName` is
      EnvDynamicComponent::TypeString, `toGuid` is CTypeNameWrapper::ToGUID with
      the fixed GUIDHigher seed. Both are deterministic and otherwise unknown. */
  datatype Naming = Naming(typeName: string -> string, toGuid: string -> Guid)
  {
    function GuidOf(elementName: string): Guid
    {
      toGuid(typeName(elementName))
    }
  }

  /** One call into the host, as recorded in the call log. */
  datatype HostCall =
    | RegisterUIModule
    | UnregisterUIModule
    | RegisterPackage(packageGuid: Guid)
    | DeregisterPackage(packageGuid: Guid)
    | ResetFlashRegistry
    | ResetTypeDescRegistry
    | CompileAll
    | RegisterEnvModule(moduleGuid: Guid)
    | GetUIElement(index: int)
    | RegisterComponent(componentGuid: Guid)
    | RegisterElement(elementGuid: Guid)
    | RegisterSystemEventListener
    | RemoveSystemEventListener

  /** The global environment. The four constants are facts about the running
      engine: whether it runs inside the editor, whether Schematyc is loaded,
      the name-to-GUID derivation, and the UI elements of the Flash UI system. */
  class Host {
    const isEditor: bool
    const schematycPresent: bool
    const naming: Naming
    const uiElements: seq<UIElement>

    var packages: map<Guid, Package>
    var flashRegistry: map<Guid, UIElement>
    var descriptors: map<Guid, ComponentDesc>
    var calls: seq<HostCall>

    constructor (isEditor: bool, schematycPresent: bool, naming: Naming, uiElements: seq<UIElement>)
      ensures this.isEditor == isEditor && this.schematycPresent == schematycPresent
      ensures this.naming == naming && this.uiElements == uiElements
      ensures packages == map[] && flashRegistry == map[] && descriptors == map[] && calls == []
    {
      this.isEditor := isEditor;
      this.schematycPresent := schematycPresent;
      this.naming := naming;
      this.uiElements := uiElements;
      packages := map[];
      flashRegistry := map[];
      descriptors := map[];
      calls := [];
    }

    /** Logs a call that changes none of the modelled registries. */
    method Record(c: HostCall)
      modifies this
      ensures calls == old(calls) + [c]
      ensures packages == old(packages) && flashRegistry == old(flashRegistry)
      ensures descriptors == old(descriptors)
    {
      calls := calls + [c];
    }

    /** IEnvRegistry::RegisterPackage. */
    method RegisterEnvPackage(p: Package)
      modifies this
      ensures packages == old(packages)[p.guid := p]
      ensures calls == old(calls) + [RegisterPackage(p.guid)]
      ensures flashRegistry == old(flashRegistry) && descriptors == old(descriptors)
    {
      packages := packages[p.guid := p];
      calls := calls + [RegisterPackage(p.guid)];
    }

    /** IEnvRegistry::DeregisterPackage. */
    method DeregisterEnvPackage(g: Guid)
      modifies this
      ensures packages == old(packages) - {g}
      ensures calls == old(calls) + [DeregisterPackage(g)]
      ensures flashRegistry == old(flashRegistry) && descriptors == old(descriptors)
    {
      packages := packages - {g};
      calls := calls + [DeregisterPackage(g)];
    }

    /** CFlashRegistry::Reset. */
    method ResetElements()
      modifies this
      ensures flashRegistry == map[]
      ensures calls == old(calls) + [ResetFlashRegistry]
      ensures packages == old(packages) && descriptors == old(descriptors)
    {
      flashRegistry := map[];
      calls := calls + [ResetFlashRegistry];
    }

    /** CDynamicTypeDescRegistry::Reset. */
    method ResetDescriptors()
      modifies this
      ensures descriptors == map[]
      ensures calls == old(calls) + [ResetTypeDescRegistry]
      ensures packages == old(packages) && flashRegistry == old(flashRegistry)
    {
      descriptors := map[];
      calls := calls + [ResetTypeDescRegistry];
    }

    /** CFlashRegistry::RegisterElement. */
    method RegisterFlashElement(g: Guid, e: UIElement)
      modifies this
      ensures flashRegistry == old(flashRegistry)[g := e]
      ensures calls == old(calls) + [RegisterElement(g)]
      ensures packages == old(packages) && descriptors == old(descriptors)
    {
      flashRegistry := flashRegistry[g := e];
      calls := calls + [RegisterElement(g)];
    }

    /** CDynDescFactory::GetOrCreateDesc followed by the descriptor setters. */
    method SetDescriptor(d: ComponentDesc)
      modifies this
      ensures descriptors == old(descriptors)[d.guid := d]
      ensures calls == old(calls)
      ensures packages == old(packages) && flashRegistry == old(flashRegistry)
    {
      descriptors := descriptors[d.guid := d];
    }

    /** IFlashUI::GetUIElementCount. */
    method GetUIElementCount() returns (n: int)
      ensures n == |uiElements|
    {
      n := |uiElements|;
    }

    /** IFlashUI::GetUIElement. */
    method FetchUIElement(index: int) returns (e: UIElement)
      requires 0 <= index < |uiElements|
      modifies this
      ensures e == uiElements[index]
      ensures calls == old(calls) + [GetUIElement(index)]
      ensures packages == old(packages) && flashRegistry == old(flashRegistry)
      ensures descriptors == old(descriptors)
    {
      e := uiElements[index];
      calls := calls + [GetUIElement(index)];
    }
  }
}
