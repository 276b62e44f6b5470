/** CFlashEnvModule (FlashModule.h, FlashModule.cpp): the reload gate kept in
    two fields, the package registration, the reload sequence, and the pass
    that registers one dynamic component per valid Flash UI element. */
module FlashModule {
  import opened FlashHost

  /** s_packageGUID {58CC50B0-EC1A-4EFD-A5D6-9528ED3CCCF4}. */
  const PackageGuid: Guid := Guid(0x58CC50B0EC1A4EFD, 0xA5D69528ED3CCCF4)

  /** The package RegisterSchematyc registers. */
  const FlashPackage: Package := Package(PackageGuid, "FlashComponents", "Crytek GmbH", "Flash")

  const LabelPrefix: string := "FlashElement:"
  const EditorCategory: string := "FlashUI"
  const ElementFlags: set<ComponentFlag> := {HideFromInspector, Singleton}

  /** The descriptor a valid element named `name` is given. */
  function DescriptorFor(n: Naming, name: string): ComponentDesc
  {
    ComponentDesc(n.GuidOf(name), n.typeName(name), LabelPrefix + name, EditorCategory, ElementFlags)
  }

  /** The Flash registry after the pass has visited `elems` in order. */
  function RegistryAfter(n: Naming, reg: map<Guid, UIElement>, elems: seq<UIElement>): map<Guid, UIElement>
  {
    if elems == [] then reg
    else
      var before, e := RegistryAfter(n, reg, elems[..|elems| - 1]), elems[|elems| - 1];
      if e.valid then before[n.GuidOf(e.name) := e] else before
  }

  /** The descriptor registry after the pass has visited `elems` in order. */
  function DescriptorsAfter(n: Naming, descs: map<Guid, ComponentDesc>, elems: seq<UIElement>): map<Guid, ComponentDesc>
  {
    if elems == [] then descs
    else
      var before, e := DescriptorsAfter(n, descs, elems[..|elems| - 1]), elems[|elems| - 1];
      if e.valid then before[n.GuidOf(e.name) := DescriptorFor(n, e.name)] else before
  }

  /** The host calls the pass makes for the element at `index`. */
  function ElementCalls(n: Naming, index: int, e: UIElement): seq<HostCall>
  {
    [GetUIElement(index)]
      + (if e.valid then [RegisterComponent(n.GuidOf(e.name)), RegisterElement(n.GuidOf(e.name))] else [])
  }

  /** The host calls the pass makes for `elems`, the first elements of the list. */
  function PassCalls(n: Naming, elems: seq<UIElement>): seq<HostCall>
  {
    if elems == [] then []
    else PassCalls(n, elems[..|elems| - 1]) + ElementCalls(n, |elems| - 1, elems[|elems| - 1])
  }

  /** The indices of the elements fetched, in the order of the log. */
  function FetchedIndices(calls: seq<HostCall>): seq<int>
  {
    if calls == [] then []
    else
      var last := calls[|calls| - 1];
      FetchedIndices(calls[..|calls| - 1]) + (if last.GetUIElement? then [last.index] else [])
  }

  /** Only the valid elements of `elems`, in order. */
  function ValidElements(elems: seq<UIElement>): seq<UIElement>
  {
    if elems == [] then []
    else
      var last := elems[|elems| - 1];
      ValidElements(elems[..|elems| - 1]) + (if last.valid then [last] else [])
  }

  /** The GUIDs of the valid elements. */
  function ValidGuids(n: Naming, elems: seq<UIElement>): set<Guid>
  {
    set e | e in elems && e.valid :: n.GuidOf(e.name)
  }

  /** The invariant tying the two registries: they have the same keys, every
      registered element is valid and filed under its own GUID, and the
      descriptor under that GUID is the one derived from the element's name. */
  ghost predicate Paired(n: Naming, reg: map<Guid, UIElement>, descs: map<Guid, ComponentDesc>)
  {
    && reg.Keys == descs.Keys
    && forall g :: g in reg ==>
         reg[g].valid && n.GuidOf(reg[g].name) == g && descs[g] == DescriptorFor(n, reg[g].name)
  }

  lemma PrefixSplit<T>(s: seq<T>)
    requires s != []
    ensures s == s[..|s| - 1] + [s[|s| - 1]]
  {
  }

  /** The pass adds exactly the GUIDs of the valid elements to the registry;
      after a reset, those are all it holds. */
  lemma {:induction false} RegistryKeys(n: Naming, reg: map<Guid, UIElement>, elems: seq<UIElement>)
    ensures RegistryAfter(n, reg, elems).Keys == reg.Keys + ValidGuids(n, elems)
  {
    if elems != [] {
      var init, e := elems[..|elems| - 1], elems[|elems| - 1];
      RegistryKeys(n, reg, init);
      PrefixSplit(elems);
      assert ValidGuids(n, elems) == ValidGuids(n, init) + (if e.valid then {n.GuidOf(e.name)} else {});
    }
  }

  /** Every entry the pass writes is a valid element of the list, filed under
      the GUID derived from its name; other entries are the earlier ones. */
  lemma {:induction false} RegistryEntries(n: Naming, reg: map<Guid, UIElement>, elems: seq<UIElement>, g: Guid)
    requires g in RegistryAfter(n, reg, elems)
    ensures var r := RegistryAfter(n, reg, elems)[g];
      (r in elems && r.valid && n.GuidOf(r.name) == g) || (g in reg && r == reg[g])
  {
    if elems != [] {
      var init, e := elems[..|elems| - 1], elems[|elems| - 1];
      PrefixSplit(elems);
      if !(e.valid && g == n.GuidOf(e.name)) {
        RegistryEntries(n, reg, init, g);
      }
    }
  }

  /** The last valid element with a given GUID is the one the registry keeps. */
  lemma {:induction false} LastValidWins(n: Naming, reg: map<Guid, UIElement>, elems: seq<UIElement>, j: nat)
    requires j < |elems| && elems[j].valid
    requires forall k :: j < k < |elems| && elems[k].valid ==> n.GuidOf(elems[k].name) != n.GuidOf(elems[j].name)
    ensures n.GuidOf(elems[j].name) in RegistryAfter(n, reg, elems)
    ensures RegistryAfter(n, reg, elems)[n.GuidOf(elems[j].name)] == elems[j]
  {
    if j < |elems| - 1 {
      var init := elems[..|elems| - 1];
      LastValidWins(n, reg, init, j);
    }
  }

  /** Skipping is all an invalid element causes: the pass over the list
      leaves both registries as the pass over its valid elements alone. */
  lemma {:induction false} InvalidElementsSkipped(n: Naming, reg: map<Guid, UIElement>,
                                                  descs: map<Guid, ComponentDesc>, elems: seq<UIElement>)
    ensures RegistryAfter(n, reg, elems) == RegistryAfter(n, reg, ValidElements(elems))
    ensures DescriptorsAfter(n, descs, elems) == DescriptorsAfter(n, descs, ValidElements(elems))
  {
    if elems != [] {
      var init, e := elems[..|elems| - 1], elems[|elems| - 1];
      InvalidElementsSkipped(n, reg, descs, init);
      var vs := ValidElements(elems);
      if e.valid {
        assert vs[..|vs| - 1] == ValidElements(init);
      } else {
        assert vs == ValidElements(init);
      }
    }
  }

  /** The pass keeps the two registries paired; in particular an element
      skipped as invalid never gets an entry or a descriptor, and each valid
      one gets the label, category and flags of DescriptorFor. */
  lemma {:induction false} PassKeepsPairing(n: Naming, reg: map<Guid, UIElement>,
                                            descs: map<Guid, ComponentDesc>, elems: seq<UIElement>)
    requires Paired(n, reg, descs)
    ensures Paired(n, RegistryAfter(n, reg, elems), DescriptorsAfter(n, descs, elems))
  {
    if elems != [] {
      PassKeepsPairing(n, reg, descs, elems[..|elems| - 1]);
    }
  }

  /** A reload empties both registries so that the next registration pass
      rebuilds them from the current UI elements alone: after the pass from
      empty registries the Flash registry holds exactly the valid elements'
      GUIDs, and the two registries are paired. */
  lemma RebuildAfterReload(n: Naming, elems: seq<UIElement>)
    ensures RegistryAfter(n, map[], elems).Keys == ValidGuids(n, elems)
    ensures Paired(n, RegistryAfter(n, map[], elems), DescriptorsAfter(n, map[], elems))
  {
    RegistryKeys(n, map[], elems);
    PassKeepsPairing(n, map[], map[], elems);
  }

  lemma {:induction false} FetchedIndicesAppend(a: seq<HostCall>, b: seq<HostCall>)
    ensures FetchedIndices(a + b) == FetchedIndices(a) + FetchedIndices(b)
  {
    if b != [] {
      FetchedIndicesAppend(a, b[..|b| - 1]);
      assert (a + b)[..|a + b| - 1] == a + b[..|b| - 1];
    } else {
      assert a + b == a;
    }
  }

  /** The pass fetches indices 0 .. count-1, each once, in increasing order. */
  lemma {:induction false} PassVisitsEachIndexOnce(n: Naming, elems: seq<UIElement>)
    ensures FetchedIndices(PassCalls(n, elems)) == seq(|elems|, i => i)
  {
    if elems != [] {
      var init, e := elems[..|elems| - 1], elems[|elems| - 1];
      PassVisitsEachIndexOnce(n, init);
      FetchedIndicesAppend(PassCalls(n, init), ElementCalls(n, |elems| - 1, e));
      var ec := ElementCalls(n, |elems| - 1, e);
      FetchedIndicesAppend([GetUIElement(|elems| - 1)], ec[1..]);
      assert ec == [GetUIElement(|elems| - 1)] + ec[1..];
      if e.valid {
        assert FetchedIndices(ec[1..]) == [] by {
          assert ec[1..][..1] == [ec[1]];
          assert ec[1..] == [ec[1]] + [ec[2]];
        }
      }
      assert FetchedIndices([GetUIElement(|elems| - 1)]) == [|elems| - 1];
    }
  }

  /** RegisterDynamicComponents: the loop over the Flash UI elements. */
  method RegisterDynamicComponents(host: Host)
    modifies host
    ensures host.flashRegistry == RegistryAfter(host.naming, old(host.flashRegistry), host.uiElements)
    ensures host.descriptors == DescriptorsAfter(host.naming, old(host.descriptors), host.uiElements)
    ensures host.calls == old(host.calls) + PassCalls(host.naming, host.uiElements)
    ensures host.packages == old(host.packages)
  {
    var numElements := host.GetUIElementCount();
    for elemIndex := 0 to numElements
      invariant host.flashRegistry == RegistryAfter(host.naming, old(host.flashRegistry), host.uiElements[..elemIndex])
      invariant host.descriptors == DescriptorsAfter(host.naming, old(host.descriptors), host.uiElements[..elemIndex])
      invariant host.calls == old(host.calls) + PassCalls(host.naming, host.uiElements[..elemIndex])
      invariant host.packages == old(host.packages)
    {
      var element := host.FetchUIElement(elemIndex);
      assert host.uiElements[..elemIndex + 1][..elemIndex] == host.uiElements[..elemIndex];
      if !element.valid {
        continue;
      }
      var guid := host.naming.GuidOf(element.name);
      var componentName := LabelPrefix + element.name;
      host.SetDescriptor(ComponentDesc(guid, host.naming.typeName(element.name), componentName,
                                       EditorCategory, ElementFlags));
      host.Record(RegisterComponent(guid));
      host.RegisterFlashElement(guid, element);
    }
    assert host.uiElements[..numElements] == host.uiElements;
  }

  /** RegisterFlashElements: the package callback; registers the env module,
      then runs the pass under its scope. */
  method RegisterFlashElements(host: Host)
    modifies host
    ensures host.flashRegistry == RegistryAfter(host.naming, old(host.flashRegistry), host.uiElements)
    ensures host.descriptors == DescriptorsAfter(host.naming, old(host.descriptors), host.uiElements)
    ensures host.calls == old(host.calls) + [RegisterEnvModule(PackageGuid)] + PassCalls(host.naming, host.uiElements)
    ensures host.packages == old(host.packages)
  {
    host.Record(RegisterEnvModule(PackageGuid));
    RegisterDynamicComponents(host);
  }

  /** CFlashEnvModule. Both fields are private: only these methods change them. */
  class FlashEnvModule {
    const host: Host
    var allowReload: bool
    var numPreviewInstances: int

    /** The constructor registers the module with the Flash UI system and
        starts with reload disallowed and no preview instances. */
    constructor (host: Host)
      modifies host
      ensures this.host == host
      ensures !allowReload && numPreviewInstances == 0
      ensures host.calls == old(host.calls) + [RegisterUIModule]
      ensures host.packages == old(host.packages) && host.flashRegistry == old(host.flashRegistry)
      ensures host.descriptors == old(host.descriptors)
    {
      this.host := host;
      allowReload := false;
      numPreviewInstances := 0;
      new;
      host.Record(RegisterUIModule);
    }

    /** RegisterSchematyc: registers the Flash package under s_packageGUID. */
    method RegisterSchematyc()
      requires host.schematycPresent
      modifies host
      ensures host.packages == old(host.packages)[PackageGuid := FlashPackage]
      ensures host.calls == old(host.calls) + [RegisterPackage(PackageGuid)]
      ensures host.flashRegistry == old(host.flashRegistry) && host.descriptors == old(host.descriptors)
    {
      host.RegisterEnvPackage(FlashPackage);
    }

    /** UnregisterSchematyc: deregisters the package under the same GUID. */
    method UnregisterSchematyc()
      requires host.schematycPresent
      modifies host
      ensures host.packages == old(host.packages) - {PackageGuid}
      ensures host.calls == old(host.calls) + [DeregisterPackage(PackageGuid)]
      ensures host.flashRegistry == old(host.flashRegistry) && host.descriptors == old(host.descriptors)
    {
      host.DeregisterEnvPackage(PackageGuid);
    }

    method SetAllowReload(allow: bool)
      modifies this
      ensures allowReload == allow
      ensures numPreviewInstances == old(numPreviewInstances)
    {
      allowReload := allow;
    }

    /** Shutdown: resets the Flash registry and unregisters the module. */
    method Shutdown()
      modifies host
      ensures host.flashRegistry == map[]
      ensures host.calls == old(host.calls) + [ResetFlashRegistry, UnregisterUIModule]
      ensures host.packages == old(host.packages) && host.descriptors == old(host.descriptors)
    {
      host.ResetElements();
      host.Record(UnregisterUIModule);
    }

    /** EditorAllowReload: refuses while preview instances are open, and
        otherwise answers with the allow flag. Changes nothing. */
    method EditorAllowReload() returns (allowed: bool)
      ensures numPreviewInstances > 0 ==> !allowed
      ensures numPreviewInstances <= 0 ==> allowed == allowReload
    {
      if allowReload && numPreviewInstances > 0 {
        return false;
      }
      return allowReload;
    }

    /** EditorReload: unregister the package, reset both registries,
        re-register the package, compile everything, in that order. */
    method EditorReload()
      requires host.schematycPresent
      modifies host
      ensures host.calls == old(host.calls) + [DeregisterPackage(PackageGuid), ResetFlashRegistry,
                                               ResetTypeDescRegistry, RegisterPackage(PackageGuid), CompileAll]
      ensures host.packages == old(host.packages)[PackageGuid := FlashPackage]
      ensures host.flashRegistry == map[] && host.descriptors == map[]
      ensures Paired(host.naming, host.flashRegistry, host.descriptors)
    {
      UnregisterSchematyc();
      host.ResetElements();
      host.ResetDescriptors();
      RegisterSchematyc();
      host.Record(CompileAll);
      assert old(host.packages)[PackageGuid := FlashPackage] == (old(host.packages) - {PackageGuid})[PackageGuid := FlashPackage];
    }

    /** AdjustPreviewInstances: adds `val` with no clamping. */
    method AdjustPreviewInstances(val: int)
      modifies this
      ensures numPreviewInstances == old(numPreviewInstances) + val
      ensures allowReload == old(allowReload)
    {
      numPreviewInstances := numPreviewInstances + val;
    }
  }
}
