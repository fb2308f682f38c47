/** `SceneManager`: the fixed table of the three asylum scenes, loading one
    (teardown of the previous one, camera placement, registration of its
    interactables, its trigger zones, `scene_loaded`), and the per-frame
    firing rule of the trigger zones. */
module Scenes {
  import opened Values
  import opened GameStates
  import EventBus
  import opened Events
  import opened Interaction

  /** One `interactables` entry of a scene: `{ type, position, data }`. */
  datatype ItemSpec = ItemSpec(kind: string, position: Vec3, data: Payload)

  /** One `triggers` entry of a scene: `{ position, radius, event, data }`. */
  datatype Zone = Zone(position: Vec3, radius: real, event: string, data: Payload)

  datatype SceneData = SceneData(
    name: string,
    playerStart: Vec3,
    environment: string,
    lighting: string,
    interactables: seq<ItemSpec>,
    triggers: seq<Zone>)

  const AsylumEntrance := SceneData(
    "Asylum Entrance", Vec3(0.0, 1.8, -5.0), "entrance_hall", "dim",
    [ ItemSpec("note", Vec3(2.0, 1.0, 0.0), map[
        "title" := Str("Patient Log - Day 1"),
        "content" := Str("The new treatment shows promise. Subjects report vivid hallucinations but remain docile. Dr. Hartwell believes we are close to a breakthrough in consciousness manipulation.")]),
      ItemSpec("key", Vec3(-3.0, 1.0, 2.0), map["id" := Str("office_key"), "name" := Str("Office Key")]),
      ItemSpec("door", Vec3(0.0, 0.0, 10.0), map[
        "locked" := Bool(true), "keyId" := Str("office_key"), "targetScene" := Str("main_corridor")]) ],
    [ Zone(Vec3(0.0, 0.0, 5.0), 2.0, AreaEntered, map["area" := Str("entrance")]) ])

  const MainCorridor := SceneData(
    "Main Corridor", Vec3(0.0, 1.8, -8.0), "long_corridor", "flickering",
    [ ItemSpec("note", Vec3(5.0, 1.0, 0.0), map[
        "title" := Str("Research Notes - Dr. Hartwell"),
        "content" := Str("Day 47: The subjects have begun to change. Something is wrong. They speak of shadows that move independently, of whispers in empty rooms. I fear we have opened a door that should have remained closed.")]),
      ItemSpec("switch", Vec3(-4.0, 1.5, 3.0), map["id" := Str("corridor_lights"), "controls" := Str("lighting")]),
      ItemSpec("door", Vec3(0.0, 0.0, 15.0), map["locked" := Bool(false), "targetScene" := Str("restricted_area")]) ],
    [ Zone(Vec3(0.0, 0.0, 0.0), 3.0, EntityEncounter, map["intensity" := Num(1.0)]),
      Zone(Vec3(0.0, 0.0, 10.0), 2.0, AreaEntered, map["area" := Str("corridor")]) ])

  const RestrictedArea := SceneData(
    "Restricted Research Wing", Vec3(0.0, 1.8, -5.0), "research_wing", "emergency",
    [ ItemSpec("note", Vec3(3.0, 1.0, 5.0), map[
        "title" := Str("FINAL LOG - EVACUATION ORDER"),
        "content" := Str("Day 73: IMMEDIATE EVACUATION ORDERED. The entity has manifested. It feeds on light, grows stronger in darkness. All personnel must evacuate immediately. May God forgive us for what we have unleashed.")]),
      ItemSpec("generator", Vec3(-5.0, 0.0, 8.0), map["id" := Str("main_generator"), "powers" := Str("exit_lighting")]),
      ItemSpec("door", Vec3(0.0, 0.0, 12.0), map[
        "locked" := Bool(true), "keyId" := Str("exit_key"), "targetScene" := Str("exit")]) ],
    [ Zone(Vec3(0.0, 0.0, 0.0), 5.0, AreaEntered, map["area" := Str("restricted")]),
      Zone(Vec3(-2.0, 0.0, 6.0), 2.0, EntityEncounter, map["intensity" := Num(3.0)]) ])

  /** `initializeScenes`: the `sceneData` map. */
  const SceneTable: map<string, SceneData> := map[
    "asylum_entrance" := AsylumEntrance,
    "main_corridor" := MainCorridor,
    "restricted_area" := RestrictedArea]

  /** The entry `initializeScenes` builds for a name, or nothing for an
      unknown name; `SceneManager.GetSceneData` is the same entry as later
      interactions have left its data objects. */
  function GetSceneData(name: string): (r: Option<SceneData>)
    ensures r.Some? <==> name in {"asylum_entrance", "main_corridor", "restricted_area"}
    ensures r.Some? ==> r.value.interactables != [] && r.value.triggers != []
  {
    if name in SceneTable then Some(SceneTable[name]) else None
  }

  // ---------------------------------------------------------------- table facts

  /** Within one scene no two entries share a type, so no two placeholder
      meshes made in the same millisecond share an id. */
  predicate KindsDistinct(items: seq<ItemSpec>) {
    forall i, j :: 0 <= i < j < |items| ==> items[i].kind != items[j].kind
  }

  predicate RadiiPositive(zones: seq<Zone>) {
    forall i :: 0 <= i < |zones| ==> zones[i].radius > 0.0
  }

  /** Three interactables of distinct types with a door last, and zones of
      positive radius. */
  predicate WellFormed(d: SceneData) {
    && |d.interactables| == 3
    && KindsDistinct(d.interactables)
    && RadiiPositive(d.triggers)
    && d.interactables[2].kind == "door"
  }

  /** Every scene is well formed, and each scene's door leads to the next
      one; the last door leads to `exit`, which is not in the table. */
  lemma SceneTableShape()
    ensures SceneTable.Keys == {"asylum_entrance", "main_corridor", "restricted_area"}
    ensures forall name :: name in SceneTable ==> WellFormed(SceneTable[name])
    ensures Get(AsylumEntrance.interactables[2].data, "targetScene") == Str("main_corridor")
    ensures Get(MainCorridor.interactables[2].data, "targetScene") == Str("restricted_area")
    ensures Get(RestrictedArea.interactables[2].data, "targetScene") == Str("exit") && "exit" !in SceneTable
  {
    EntranceWellFormed();
    CorridorWellFormed();
    RestrictedWellFormed();
  }

  lemma EntranceWellFormed()
    ensures WellFormed(AsylumEntrance)
  {
  }

  lemma CorridorWellFormed()
    ensures WellFormed(MainCorridor)
  {
  }

  lemma RestrictedWellFormed()
    ensures WellFormed(RestrictedArea)
  {
  }

  /** The entrance key carries the id the entrance door asks for, so once it
      is in the inventory the door unlocks. */
  lemma EntranceKeyOpensEntranceDoor(inventory: seq<Item>)
    ensures var key := AsylumEntrance.interactables[1];
            var door := AsylumEntrance.interactables[2];
            var o := ResolveDoor(door.data, KeyCheck(inventory + [Item("key", key.data)], Get(door.data, "keyId")));
            key.kind == "key" && door.kind == "door"
            && o.completion == Returned(true) && Get(o.data, "locked") == Bool(false)
  {
    var key := AsylumEntrance.interactables[1];
    var door := AsylumEntrance.interactables[2];
    KeyUnlocksDoor(door.data, inventory, key.data);
  }

  /** No scene holds a key whose id is `exit_key`, the id the restricted
      wing's door asks for. */
  lemma NoExitKeyInTable()
    ensures forall name, i :: (name in SceneTable && 0 <= i < |SceneTable[name].interactables|
              && SceneTable[name].interactables[i].kind == "key") ==>
              Get(SceneTable[name].interactables[i].data, "id") != Str("exit_key")
    ensures Get(RestrictedArea.interactables[2].data, "keyId") == Str("exit_key")
  {
  }

  // ---------------------------------------------------------------- zones

  /** `distance <= trigger.radius`; a negative radius holds nothing. */
  predicate InZone(p: Vec3, z: Zone) {
    z.radius >= 0.0 && Within(p, z.position, z.radius)
  }

  function ZoneEvent(z: Zone): Event {
    Event(z.event, z.data)
  }

  /** What one rendered frame emits: every registered zone holding the player,
      in registration order. A zone fires on every frame it holds the player:
      disposing the zone's sphere does not unregister its callback. */
  function Fired(zones: seq<Zone>, p: Vec3): (r: seq<Event>)
    ensures |r| <= |zones|
    ensures (forall i :: 0 <= i < |zones| ==> !InZone(p, zones[i])) ==> r == []
    ensures (forall i :: 0 <= i < |zones| ==> InZone(p, zones[i])) ==> |r| == |zones|
    decreases |zones|
  {
    if zones == [] then []
    else
      var last := zones[|zones| - 1];
      Fired(zones[..|zones| - 1], p) + (if InZone(p, last) then [ZoneEvent(last)] else [])
  }

  /** Zones registered by successive loads fire side by side. */
  lemma {:induction false} FiredAppend(a: seq<Zone>, b: seq<Zone>, p: Vec3)
    ensures Fired(a + b, p) == Fired(a, p) + Fired(b, p)
    decreases |b|
  {
    if b == [] {
      assert a + b == a;
    } else {
      var n := |b| - 1;
      assert (a + b)[..|a + b| - 1] == a + b[..n];
      assert (a + b)[|a + b| - 1] == b[n];
      FiredAppend(a, b[..n], p);
    }
  }

  /** Standing in the entrance hall's zone emits `area_entered` for the
      entrance on every frame, and twice per frame once the scene has been
      loaded twice. */
  lemma EntranceZoneFiresEveryFrame(earlier: seq<Zone>)
    requires Fired(earlier, Vec3(0.0, 0.0, 5.0)) == []
    ensures var p := Vec3(0.0, 0.0, 5.0);
            var e := Event(AreaEntered, map["area" := Str("entrance")]);
            Fired(earlier + AsylumEntrance.triggers, p) == [e]
            && Fired(earlier + AsylumEntrance.triggers + AsylumEntrance.triggers, p) == [e, e]
  {
    var p := Vec3(0.0, 0.0, 5.0);
    var t := AsylumEntrance.triggers;
    assert InZone(p, t[0]);
    assert t[..0] == [];
    FiredAppend(earlier, t, p);
    FiredAppend(earlier + t, t, p);
  }

  // ---------------------------------------------------------------- loading

  function VecValue(v: Vec3): Value {
    Obj(map["x" := Num(v.x), "y" := Num(v.y), "z" := Num(v.z)])
  }

  function ItemValue(item: ItemSpec): Value {
    Obj(map["type" := Str(item.kind), "position" := VecValue(item.position), "data" := Obj(item.data)])
  }

  function ZoneValue(z: Zone): Value {
    Obj(map["position" := VecValue(z.position), "radius" := Num(z.radius),
            "event" := Str(z.event), "data" := Obj(z.data)])
  }

  /** The scene entry as the object passed in `scene_loaded`'s payload. */
  function SceneValue(d: SceneData): Value {
    Obj(map[
      "name" := Str(d.name),
      "playerStart" := VecValue(d.playerStart),
      "environment" := Str(d.environment),
      "lighting" := Str(d.lighting),
      "interactables" := List(seq(|d.interactables|, i requires 0 <= i < |d.interactables| => ItemValue(d.interactables[i]))),
      "triggers" := List(seq(|d.triggers|, i requires 0 <= i < |d.triggers| => ZoneValue(d.triggers[i])))])
  }

  function SceneLoaded(name: string, d: SceneData): Event {
    Event("scene_loaded", map["scene" := Str(name), "data" := SceneValue(d)])
  }

  /** The placeholder mesh id of entry `i`, stamped with the clock reading
      taken for it. */
  function MeshOf(items: seq<ItemSpec>, stamps: seq<nat>, i: nat): MeshId
    requires i < |items| && |stamps| == |items|
  {
    Stamped(items[i].kind, stamps[i])
  }

  /** The ids of the first `n` entries. */
  function MeshesUpTo(items: seq<ItemSpec>, stamps: seq<nat>, n: nat): set<MeshId>
    requires n <= |items| && |stamps| == |items|
  {
    set i | 0 <= i < n :: MeshOf(items, stamps, i)
  }

  /** Among the first `n` entries, entry `i` is not overwritten by a later
      one with the same mesh id. */
  predicate LastBefore(items: seq<ItemSpec>, stamps: seq<nat>, i: nat, n: nat)
    requires i < n <= |items| && |stamps| == |items|
  {
    forall j :: i < j < n ==> MeshOf(items, stamps, j) != MeshOf(items, stamps, i)
  }

  /** `it` is the active object registered for `item` under `mesh`, holding
      the data object `data` itself. */
  ghost predicate Describes(it: Interactable, mesh: MeshId, item: ItemSpec, data: DataObject)
    reads it
  {
    it.mesh == mesh && it.kind == item.kind && it.position == item.position && it.data == data && it.isActive
  }

  /** The registry after registering the first `n` entries on top of `base`:
      the ids are the base's plus one per entry, base entries not
      overwritten are the same objects, and every entry not overwritten
      later is registered as described. */
  ghost predicate RegisteredUpTo(reg: map<MeshId, Interactable>, base: map<MeshId, Interactable>,
                                 items: seq<ItemSpec>, objs: seq<DataObject>, stamps: seq<nat>, n: nat)
    requires n <= |items| && |stamps| == |items| && |objs| == |items|
    reads reg.Values
  {
    && reg.Keys == base.Keys + MeshesUpTo(items, stamps, n)
    && (forall id :: id in base && id !in MeshesUpTo(items, stamps, n) ==> reg[id] == base[id])
    && (forall i :: 0 <= i < n && LastBefore(items, stamps, i, n) ==>
          Describes(reg[MeshOf(items, stamps, i)], MeshOf(items, stamps, i), items[i], objs[i]))
  }

  lemma MeshesSnoc(items: seq<ItemSpec>, stamps: seq<nat>, n: nat)
    requires n < |items| && |stamps| == |items|
    ensures MeshesUpTo(items, stamps, n + 1) == MeshesUpTo(items, stamps, n) + {MeshOf(items, stamps, n)}
  {
  }

  /** With distinct types every entry of a scene is registered, under an id
      of its own. */
  lemma DistinctKindsAllRegistered(items: seq<ItemSpec>, stamps: seq<nat>)
    requires |stamps| == |items| && KindsDistinct(items)
    ensures forall i :: 0 <= i < |items| ==> LastBefore(items, stamps, i, |items|)
    ensures |MeshesUpTo(items, stamps, |items|)| == |items|
  {
    MeshesCount(items, stamps, |items|);
  }

  lemma {:induction false} MeshesCount(items: seq<ItemSpec>, stamps: seq<nat>, n: nat)
    requires n <= |items| && |stamps| == |items| && KindsDistinct(items)
    ensures |MeshesUpTo(items, stamps, n)| == n
    decreases n
  {
    if n > 0 {
      MeshesCount(items, stamps, n - 1);
      MeshesSnoc(items, stamps, n - 1);
      assert MeshOf(items, stamps, n - 1) !in MeshesUpTo(items, stamps, n - 1);
    }
  }

  /** One registration step keeps `RegisteredUpTo` for one more entry. */
  lemma RegisteredStep(before: map<MeshId, Interactable>, after: map<MeshId, Interactable>,
                       base: map<MeshId, Interactable>, items: seq<ItemSpec>, objs: seq<DataObject>,
                       stamps: seq<nat>, k: nat, it: Interactable)
    requires k < |items| && |stamps| == |items| && |objs| == |items|
    requires RegisteredUpTo(before, base, items, objs, stamps, k)
    requires after == before[MeshOf(items, stamps, k) := it]
    requires Describes(it, MeshOf(items, stamps, k), items[k], objs[k])
    ensures RegisteredUpTo(after, base, items, objs, stamps, k + 1)
  {
    var m := MeshOf(items, stamps, k);
    MeshesSnoc(items, stamps, k);
    assert after.Keys == base.Keys + MeshesUpTo(items, stamps, k + 1);
    forall id | id in base && id !in MeshesUpTo(items, stamps, k + 1)
      ensures after[id] == base[id]
    {
      assert id != m && id !in MeshesUpTo(items, stamps, k);
    }
    forall i | 0 <= i < k + 1 && LastBefore(items, stamps, i, k + 1)
      ensures Describes(after[MeshOf(items, stamps, i)], MeshOf(items, stamps, i), items[i], objs[i])
    {
      if i < k {
        assert MeshOf(items, stamps, i) != m;
        assert LastBefore(items, stamps, i, k);
        assert after[MeshOf(items, stamps, i)] == before[MeshOf(items, stamps, i)];
      }
    }
  }

  /** After a load of an entry whose types are distinct, every entry is
      registered, active, under its own id, and holding the table's data
      object itself: a door an earlier visit unlocked, or a generator it
      started, is met again in that state. */
  lemma RegisteredHoldsTableData(reg: map<MeshId, Interactable>, base: map<MeshId, Interactable>,
                                 items: seq<ItemSpec>, objs: seq<DataObject>, stamps: seq<nat>)
    requires |stamps| == |items| && |objs| == |items| && KindsDistinct(items)
    requires RegisteredUpTo(reg, base, items, objs, stamps, |items|)
    ensures forall i :: 0 <= i < |items| ==>
              && MeshOf(items, stamps, i) in reg
              && var it := reg[MeshOf(items, stamps, i)];
                 it.data == objs[i] && it.kind == items[i].kind && it.isActive
  {
    DistinctKindsAllRegistered(items, stamps);
  }

  /** One fresh data object per entry, holding the entry's literal. */
  method NewDataObjects(items: seq<ItemSpec>) returns (objs: seq<DataObject>)
    ensures |objs| == |items|
    ensures forall i :: 0 <= i < |items| ==> fresh(objs[i]) && objs[i].fields == items[i].data
  {
    objs := [];
    for k := 0 to |items|
      invariant |objs| == k
      invariant forall i :: 0 <= i < k ==> fresh(objs[i]) && objs[i].fields == items[i].data
    {
      var data := new DataObject(items[k].data);
      objs := objs + [data];
    }
  }

  /** Each of `objs` holds the data of the entry at the same position. */
  ghost predicate Holds(objs: seq<DataObject>, items: seq<ItemSpec>)
    reads objs
  {
    |objs| == |items| && forall i :: 0 <= i < |items| ==> objs[i].fields == items[i].data
  }

  /** A table entry with its interactables' data read from the data
      objects that hold it: the entry as `getSceneData` returns it. */
  function Live(d: SceneData, objs: seq<DataObject>): (r: SceneData)
    requires |objs| == |d.interactables|
    reads objs
    ensures r.(interactables := []) == d.(interactables := [])
    ensures |r.interactables| == |d.interactables|
    ensures forall i :: 0 <= i < |d.interactables| ==> r.interactables[i] == d.interactables[i].(data := objs[i].fields)
  {
    d.(interactables := WithData(d.interactables, objs))
  }

  /** While the data objects still hold the literals, the live entry is the
      entry `initializeScenes` built. */
  lemma LiveUntouched(d: SceneData, objs: seq<DataObject>)
    requires Holds(objs, d.interactables)
    ensures Live(d, objs) == d
  {
    assert Live(d, objs).interactables == d.interactables;
  }

  /** The entries with each one's data read from its data object. */
  function WithData(items: seq<ItemSpec>, objs: seq<DataObject>): (r: seq<ItemSpec>)
    requires |objs| == |items|
    reads objs
    ensures |r| == |items|
    ensures forall i :: 0 <= i < |items| ==> r[i] == items[i].(data := objs[i].fields)
  {
    if items == [] then [] else [items[0].(data := objs[0].fields)] + WithData(items[1..], objs[1..])
  }

  class SceneManager {
    const bus: EventSystem
    const interactions: InteractionManager
    /** The `data` objects of each scene's `interactables` entries, built once
        by `initializeScenes`. Every load of a scene registers these very
        objects, so what an interaction did to them survives a reload and
        shows in `getSceneData` and `scene_loaded`. */
    const tableData: map<string, seq<DataObject>>
    var currentScene: Option<string>
    /** `scene.activeCamera.position`. */
    var cameraPosition: Vec3
    /** The trigger zones whose before-render callbacks are registered. */
    var zones: seq<Zone>

    /** `tableData` has one data object per entry of each scene. */
    ghost predicate Tabled() {
      && tableData.Keys == SceneTable.Keys
      && forall name :: name in SceneTable ==> |tableData[name]| == |SceneTable[name].interactables|
    }

    constructor (bus: EventSystem, interactions: InteractionManager, cameraPosition: Vec3)
      ensures this.bus == bus && this.interactions == interactions && Tabled()
      ensures Holds(tableData["asylum_entrance"], AsylumEntrance.interactables)
      ensures Holds(tableData["main_corridor"], MainCorridor.interactables)
      ensures Holds(tableData["restricted_area"], RestrictedArea.interactables)
      ensures currentScene == None && zones == [] && this.cameraPosition == cameraPosition
    {
      this.bus := bus;
      this.interactions := interactions;
      var entrance := NewDataObjects(AsylumEntrance.interactables);
      var corridor := NewDataObjects(MainCorridor.interactables);
      var restricted := NewDataObjects(RestrictedArea.interactables);
      tableData := map["asylum_entrance" := entrance, "main_corridor" := corridor, "restricted_area" := restricted];
      currentScene := None;
      this.cameraPosition := cameraPosition;
      zones := [];
    }

    /** `getSceneData`: the table entry as its data objects stand now, or
        nothing for an unknown name. */
    method GetSceneData(name: string) returns (r: Option<SceneData>)
      requires Tabled()
      ensures r.Some? <==> name in SceneTable
      ensures r.Some? ==> r.value == Live(SceneTable[name], tableData[name])
    {
      if name in tableData {
        r := Some(Live(SceneTable[name], tableData[name]));
      } else {
        r := None;
      }
    }

    /** `getCurrentScene`: the name of the last scene loaded, if any. */
    method GetCurrentScene() returns (name: Option<string>)
      ensures name == currentScene
    {
      name := currentScene;
    }

    /** `clearScene`: the interaction registry is emptied. */
    method ClearScene()
      requires interactions.Valid()
      modifies interactions
      ensures interactions.Valid() && interactions.interactables == map[] && interactions.order == []
      ensures interactions.inventory == old(interactions.inventory)
      ensures interactions.currentInteractable == old(interactions.currentInteractable)
    {
      interactions.Dispose();
    }

    /** `createInteractables`: one registration per entry, under the
        placeholder mesh id `${type}_${Date.now()}`, with the entry's own
        data object. */
    method CreateInteractables(items: seq<ItemSpec>, objs: seq<DataObject>, stamps: seq<nat>)
      requires |stamps| == |items| && |objs| == |items| && interactions.Valid()
      modifies interactions
      ensures interactions.Valid()
      ensures RegisteredUpTo(interactions.interactables, old(interactions.interactables), items, objs, stamps, |items|)
      ensures interactions.inventory == old(interactions.inventory)
      ensures interactions.currentInteractable == old(interactions.currentInteractable)
    {
      var k := 0;
      while k < |items|
        invariant 0 <= k <= |items|
        invariant interactions.Valid()
        invariant RegisteredUpTo(interactions.interactables, old(interactions.interactables), items, objs, stamps, k)
        invariant interactions.inventory == old(interactions.inventory)
        invariant interactions.currentInteractable == old(interactions.currentInteractable)
      {
        ghost var before := interactions.interactables;
        var mesh := Stamped(items[k].kind, stamps[k]);
        var it := interactions.RegisterInteractable(mesh, items[k].kind, items[k].position, objs[k]);
        RegisteredStep(before, interactions.interactables, old(interactions.interactables), items, objs, stamps, k, it);
        k := k + 1;
      }
    }

    /** `setupTriggers`: each zone's callback joins the frame loop. */
    method SetupTriggers(triggers: seq<Zone>)
      modifies this`zones
      ensures zones == old(zones) + triggers
    {
      zones := zones + triggers;
    }

    /** `loadScene`: an unknown name is refused with nothing changed; a known
        one tears down the current scene if there is one, places the camera,
        registers the scene's objects and zones, becomes current and is
        announced with `scene_loaded`. */
    method LoadScene(name: string, stamps: seq<nat>) returns (ok: bool)
      requires interactions.Valid() && Tabled()
      requires name in SceneTable ==> |stamps| == |SceneTable[name].interactables|
      modifies this, interactions, bus
      ensures interactions.Valid()
      ensures ok <==> name in SceneTable
      ensures !ok ==> unchanged(this) && unchanged(interactions) && unchanged(bus)
      ensures ok ==> Installed(name, SceneTable[name], tableData[name], stamps,
                               SceneLoaded(name, old(Live(SceneTable[name], tableData[name]))), old(currentScene), old(zones), old(interactions.interactables), old(bus.State()))
      ensures interactions.inventory == old(interactions.inventory)
      ensures interactions.currentInteractable == old(interactions.currentInteractable)
    {
      if name !in tableData {
        return false;
      }
      var loaded := SceneLoaded(name, Live(SceneTable[name], tableData[name]));
      Install(name, SceneTable[name], tableData[name], stamps, loaded);
      ok := true;
    }

    /** The state a successful load of entry `d` under `name` leaves: the
        registry holds the table's own data objects `objs`, and the bus has
        taken `loaded` (for `loadScene`, `scene_loaded` carrying the entry as
        those objects stood). */
    ghost predicate Installed(name: string, d: SceneData, objs: seq<DataObject>, stamps: seq<nat>, loaded: Event,
                              wasCurrent: Option<string>, oldZones: seq<Zone>,
                              oldRegistry: map<MeshId, Interactable>, oldBus: EventBus.Bus)
      requires |stamps| == |d.interactables| && |objs| == |d.interactables|
      reads this, interactions, interactions.interactables.Values, bus
    {
      && currentScene == Some(name)
      && cameraPosition == d.playerStart
      && zones == oldZones + d.triggers
      && RegisteredUpTo(interactions.interactables, if wasCurrent.Some? then map[] else oldRegistry,
                        d.interactables, objs, stamps, |d.interactables|)
      && bus.State() == EventBus.Emit(oldBus, loaded)
    }

    /** The part of `loadScene` after the lookup succeeded. */
    method Install(name: string, d: SceneData, objs: seq<DataObject>, stamps: seq<nat>, loaded: Event)
      requires interactions.Valid() && |stamps| == |d.interactables| && |objs| == |d.interactables|
      modifies this, interactions, bus
      ensures interactions.Valid()
      ensures Installed(name, d, objs, stamps, loaded, old(currentScene), old(zones),
                        old(interactions.interactables), old(bus.State()))
      ensures interactions.inventory == old(interactions.inventory)
      ensures interactions.currentInteractable == old(interactions.currentInteractable)
    {
      ghost var base := if currentScene.Some? then map[] else interactions.interactables;
      Populate(currentScene.Some?, d.interactables, objs, stamps);
      ghost var registry := interactions.interactables;
      cameraPosition := d.playerStart;
      SetupTriggers(d.triggers);
      currentScene := Some(name);
      assert RegisteredUpTo(registry, base, d.interactables, objs, stamps, |d.interactables|);
      Announce(loaded, registry, base, d.interactables, objs, stamps);
      assert interactions.interactables == registry;
    }

    /** `scene_loaded` is emitted; the registrations just made are left as
        they are. */
    method Announce(e: Event, ghost reg: map<MeshId, Interactable>, ghost base: map<MeshId, Interactable>,
                    ghost items: seq<ItemSpec>, ghost objs: seq<DataObject>, ghost stamps: seq<nat>)
      requires |stamps| == |items| && |objs| == |items|
      requires RegisteredUpTo(reg, base, items, objs, stamps, |items|)
      modifies bus
      ensures bus.State() == EventBus.Emit(old(bus.State()), e)
      ensures RegisteredUpTo(reg, base, items, objs, stamps, |items|)
    {
      bus.Emit(e);
    }

    /** The registry part of `loadScene`: the previous scene's objects are
        dropped when a scene is current, then the entries are registered. */
    method Populate(clear: bool, items: seq<ItemSpec>, objs: seq<DataObject>, stamps: seq<nat>)
      requires interactions.Valid() && |stamps| == |items| && |objs| == |items|
      modifies interactions
      ensures interactions.Valid()
      ensures RegisteredUpTo(interactions.interactables, if clear then map[] else old(interactions.interactables),
                             items, objs, stamps, |items|)
      ensures interactions.inventory == old(interactions.inventory)
      ensures interactions.currentInteractable == old(interactions.currentInteractable)
    {
      if clear {
        ClearScene();
      }
      CreateInteractables(items, objs, stamps);
    }

    /** One rendered frame: every registered zone's callback runs in
        registration order and emits when it holds the player. */
    method TickZones(player: Vec3)
      modifies bus
      ensures bus.State() == EventBus.EmitAll(old(bus.State()), Fired(zones, player))
    {
      ghost var start := bus.State();
      var k := 0;
      while k < |zones|
        invariant 0 <= k <= |zones|
        invariant bus.State() == EventBus.EmitAll(start, Fired(zones[..k], player))
      {
        var z := zones[k];
        ghost var grown := zones[..k + 1];
        assert grown[..|grown| - 1] == zones[..k] && grown[|grown| - 1] == z;
        assert Fired(grown, player) == Fired(zones[..k], player) + (if InZone(player, z) then [ZoneEvent(z)] else []);
        if InZone(player, z) {
          EventBus.EmitAllSnoc(start, Fired(zones[..k], player), ZoneEvent(z));
          bus.Emit(ZoneEvent(z));
        } else {
          assert Fired(grown, player) == Fired(zones[..k], player);
        }
        k := k + 1;
      }
      assert zones[..k] == zones;
    }
  }
}
