/** `InteractionManager`: the registry of interactable objects keyed by mesh
    id, the choice of the object the player is aiming at, the per-kind
    interaction rules and the inventory. */
module Interaction {
  import opened Values
  import opened GameStates
  import EventBus
  import opened Events

  /** A mesh id. `registerInteractable` keys by `mesh.id`, and a Babylon
      mesh's id defaults to its name, so this is the name of a mesh built
      into the scene, or the `${type}_${Date.now()}` name of a placeholder
      mesh. */
  datatype MeshId = Named(name: string) | Stamped(prefix: string, stamp: nat)

  /** A plain `data` object. It is held by reference: a scene-table entry,
      the registry entry built from it and the current target all see the
      same object, so a change made through one is seen through the others. */
  class DataObject {
    var fields: Payload

    constructor (fields: Payload)
      ensures this.fields == fields
    {
      this.fields := fields;
    }
  }

  /** A registered world object. The registry, the current target and the
      caller may all hold the same object, so it is a reference; its `data`
      is the very object the caller passed in. */
  class Interactable {
    const mesh: MeshId
    const kind: string
    const position: Vec3
    const data: DataObject
    var isActive: bool

    constructor (mesh: MeshId, kind: string, position: Vec3, data: DataObject)
      ensures this.mesh == mesh && this.kind == kind && this.position == position
      ensures this.data == data && isActive
    {
      this.mesh := mesh;
      this.kind := kind;
      this.position := position;
      this.data := data;
      isActive := true;
    }
  }

  /** One inventory entry: `{ type, data }`. */
  datatype Item = Item(kind: string, data: Payload)

  const InteractionRange: real := 3.0
  const FadedText := "The text is too faded to read..."

  // ---------------------------------------------------------------- inventory

  /** `hasItem(type, id)`: some entry has that type and `data.id`. */
  function HasItem(inventory: seq<Item>, kind: string, id: Value): (r: bool)
    ensures r <==> exists i :: 0 <= i < |inventory| && inventory[i].kind == kind && Get(inventory[i].data, "id") == id
  {
    if inventory == [] then false
    else (inventory[0].kind == kind && Get(inventory[0].data, "id") == id) || HasItem(inventory[1..], kind, id)
  }

  /** Appending an entry adds exactly that entry's membership and keeps every
      earlier one. */
  lemma HasItemAfterAdd(inventory: seq<Item>, added: Item, kind: string, id: Value)
    ensures HasItem(inventory + [added], kind, id)
        <==> HasItem(inventory, kind, id) || (added.kind == kind && Get(added.data, "id") == id)
  {
    var grown := inventory + [added];
    if HasItem(inventory, kind, id) {
      var i :| 0 <= i < |inventory| && inventory[i].kind == kind && Get(inventory[i].data, "id") == id;
      assert grown[i] == inventory[i];
    }
    if added.kind == kind && Get(added.data, "id") == id {
      assert grown[|inventory|] == added;
    }
    if HasItem(grown, kind, id) {
      var i :| 0 <= i < |grown| && grown[i].kind == kind && Get(grown[i].data, "id") == id;
      if i < |inventory| { assert inventory[i] == grown[i]; }
    }
  }

  // ---------------------------------------------------------------- rules

  /** How an interaction call ends: with a return value, or with an exception
      that escapes `tryInteract`. */
  datatype Completion = Returned(ok: bool) | Raised(error: string)

  /** The effect of one interaction on the object's `data`, the events it
      emits (each payload as it is when emitted), whether the object is
      consumed (removed from the registry and put in the inventory), and how
      the call ends. */
  datatype Outcome = Outcome(data: Payload, emitted: seq<Event>, consumed: bool, completion: Completion)

  const Refused := Returned(false)

  /** `interactWithDoor`: `holdsKey` is the answer of the key check. */
  function ResolveDoor(data: Payload, holdsKey: bool): Outcome {
    if Truthy(Get(data, "locked")) then
      if holdsKey then
        var unlocked := data["locked" := Bool(false)];
        Outcome(unlocked, [Event("door_unlocked", unlocked)], false, Returned(true))
      else Outcome(data, [], false, Refused)
    else
      var openedData := if !Truthy(Get(data, "isOpen")) then data["isOpen" := Bool(true)] else data;
      Outcome(openedData, [Event("door_opened", data)], false, Returned(true))
  }

  /** `interactWithNote`: the payload is a new object with defaults. */
  function ResolveNote(data: Payload): Outcome {
    var payload := map["title" := Or(Get(data, "title"), Str("Document")),
                       "content" := Or(Get(data, "content"), Str(FadedText))];
    Outcome(data["isRead" := Bool(true)], [Event(NoteRead, payload)], false, Returned(true))
  }

  /** `interactWithKey`. */
  function ResolveKey(data: Payload): Outcome {
    Outcome(data, [Event(KeyCollected, data)], true, Returned(true))
  }

  /** `interactWithSwitch`: after toggling and emitting, the colour feedback
      names `Color3`, which only resolves if it is imported. */
  function ResolveSwitch(data: Payload, color3Imported: bool): Outcome {
    var toggled := data["isOn" := Bool(!Truthy(Get(data, "isOn")))];
    Outcome(toggled, [Event("switch_toggled", toggled)], false,
            if color3Imported then Returned(true) else Raised("ReferenceError: Color3 is not defined"))
  }

  /** `interactWithGenerator`. */
  function ResolveGenerator(data: Payload): Outcome {
    if !Truthy(Get(data, "isRunning")) then
      var running := data["isRunning" := Bool(true)];
      Outcome(running, [Event(GeneratorStarted, running)], false, Returned(true))
    else Outcome(data, [], false, Refused)
  }

  predicate KnownKind(kind: string) {
    kind in {"door", "note", "key", "switch", "generator"}
  }

  /** `tryInteract`'s dispatch on the object's type. An unknown type is
      refused; a refusal changes and emits nothing; every other ending emits
      exactly one event; only a key is consumed. */
  function Resolve(kind: string, data: Payload, holdsKey: bool, color3Imported: bool): (o: Outcome)
    ensures !KnownKind(kind) ==> o == Outcome(data, [], false, Refused)
    ensures o.completion == Refused <==> o.emitted == []
    ensures o.completion == Refused ==> o.data == data
    ensures |o.emitted| <= 1
    ensures o.consumed <==> kind == "key"
  {
    match kind
    case "door" => ResolveDoor(data, holdsKey)
    case "note" => ResolveNote(data)
    case "key" => ResolveKey(data)
    case "switch" => ResolveSwitch(data, color3Imported)
    case "generator" => ResolveGenerator(data)
    case _ => Outcome(data, [], false, Refused)
  }

  /** `getInteractionText`: only a locked door says "Locked". */
  function InteractionText(kind: string, data: Payload): (text: string)
    ensures text == "Locked" <==> kind == "door" && Truthy(Get(data, "locked"))
    ensures !KnownKind(kind) ==> text == "Press E to interact"
  {
    match kind
    case "door" => if Truthy(Get(data, "locked")) then "Locked" else "Press E to open"
    case "note" => "Press E to read"
    case "key" => "Press E to pick up"
    case "switch" => "Press E to flip switch"
    case "generator" => "Press E to start generator"
    case _ => "Press E to interact"
  }

  /** A locked door: with the key it unlocks and emits exactly one
      `door_unlocked`; without it, it stays locked and nothing is emitted. */
  lemma LockedDoor(data: Payload, holdsKey: bool)
    requires Truthy(Get(data, "locked"))
    ensures var o := ResolveDoor(data, holdsKey);
            if holdsKey then
              o.completion == Returned(true) && !Truthy(Get(o.data, "locked"))
              && |o.emitted| == 1 && o.emitted[0].name == "door_unlocked"
            else o == Outcome(data, [], false, Refused) && Truthy(Get(o.data, "locked"))
  {
  }

  /** An unlocked door opens on every call and stays open. */
  lemma UnlockedDoorStaysOpen(data: Payload, holdsKey: bool, holdsKeyLater: bool)
    requires !Truthy(Get(data, "locked"))
    ensures var first := ResolveDoor(data, holdsKey);
            var second := ResolveDoor(first.data, holdsKeyLater);
            first.emitted == [Event("door_opened", data)] && Get(first.data, "isOpen") != Bool(false)
            && Truthy(Get(first.data, "isOpen"))
            && second.emitted == [Event("door_opened", first.data)] && second.data == first.data
  {
  }

  /** A generator starts once; later calls are refused and emit nothing. */
  lemma GeneratorStartsOnce(data: Payload)
    ensures var first := ResolveGenerator(data);
            var second := ResolveGenerator(first.data);
            second == Outcome(first.data, [], false, Refused)
            && (first.completion == Returned(true) <==> !Truthy(Get(data, "isRunning")))
  {
  }

  /** Flipping a switch twice gives back its truthiness (an absent `isOn`
      counts as off, so the first flip turns it on). */
  lemma SwitchTogglesBack(data: Payload, color3Imported: bool)
    ensures var once := ResolveSwitch(data, color3Imported);
            var twice := ResolveSwitch(once.data, color3Imported);
            Truthy(Get(once.data, "isOn")) == !Truthy(Get(data, "isOn"))
            && Truthy(Get(twice.data, "isOn")) == Truthy(Get(data, "isOn"))
  {
  }

  /** A note always emits `note_read`, falling back to 'Document' and the
      faded-text message, and reading it again emits again. */
  lemma NoteDefaults(data: Payload)
    ensures var o := ResolveNote(data);
            |o.emitted| == 1 && o.emitted[0].name == NoteRead
            && Get(o.emitted[0].data, "title") == (if Truthy(Get(data, "title")) then Get(data, "title") else Str("Document"))
            && Get(o.emitted[0].data, "content") == (if Truthy(Get(data, "content")) then Get(data, "content") else Str(FadedText))
            && Get(o.data, "isRead") == Bool(true)
            && ResolveNote(o.data).emitted == o.emitted
  {
  }

  // ---------------------------------------------------------------- findings

  /** The key check as shipped: `playerController.hasKey` is not defined, so
      `hasKey && hasKey(keyId)` is falsy whatever the inventory holds. */
  function ShippedKeyCheck(inventory: seq<Item>, keyId: Value): bool {
    false
  }

  /** The key check the door evidently means: the inventory holds a key with
      the door's `keyId`. */
  function KeyCheck(inventory: seq<Item>, keyId: Value): (r: bool)
    ensures r <==> exists i :: 0 <= i < |inventory| && inventory[i].kind == "key" && Get(inventory[i].data, "id") == keyId
  {
    HasItem(inventory, "key", keyId)
  }

  /** As shipped, a locked door refuses even a player who carries its key. */
  lemma ShippedLockedDoorNeverOpens(data: Payload, inventory: seq<Item>)
    requires Truthy(Get(data, "locked"))
    ensures KeyCheck(inventory + [Item("key", map["id" := Get(data, "keyId")])], Get(data, "keyId"))
    ensures ResolveDoor(data, ShippedKeyCheck(inventory, Get(data, "keyId"))) == Outcome(data, [], false, Refused)
  {
    HasItemAfterAdd(inventory, Item("key", map["id" := Get(data, "keyId")]), "key", Get(data, "keyId"));
  }

  /** With the inventory check, picking up the door's key is what unlocks it. */
  lemma {:induction false} KeyUnlocksDoor(data: Payload, inventory: seq<Item>, key: Payload)
    requires Truthy(Get(data, "locked")) && Get(key, "id") == Get(data, "keyId")
    ensures var o := ResolveDoor(data, KeyCheck(inventory + [Item("key", key)], Get(data, "keyId")));
            o.completion == Returned(true) && Get(o.data, "locked") == Bool(false)
            && o.emitted == [Event("door_unlocked", o.data)]
  {
    HasItemAfterAdd(inventory, Item("key", key), "key", Get(data, "keyId"));
  }

  /** As shipped, flipping a switch toggles it and emits, then raises. */
  lemma SwitchRaisesAsShipped(data: Payload)
    ensures var o := ResolveSwitch(data, false);
            o.completion.Raised? && |o.emitted| == 1 && o.emitted[0].name == "switch_toggled"
            && o.data == ResolveSwitch(data, true).data
  {
  }

  /** With `Color3` imported, the same flip returns true. */
  lemma SwitchReturnsTrue(data: Payload)
    ensures ResolveSwitch(data, true).completion == Returned(true)
    ensures ResolveSwitch(data, true).emitted == ResolveSwitch(data, false).emitted
  {
  }

  // ---------------------------------------------------------------- registry

  predicate Distinct(s: seq<MeshId>) {
    forall i, j :: 0 <= i < j < |s| ==> s[i] != s[j]
  }

  /** A sequence of ids without the given one, order kept. */
  function Without(s: seq<MeshId>, id: MeshId): (r: seq<MeshId>)
    ensures forall x :: x in r <==> x in s && x != id
    ensures Distinct(s) ==> Distinct(r)
  {
    if s == [] then []
    else
      var rest := Without(s[1..], id);
      assert Distinct(s) ==> Distinct(s[1..]) && s[0] !in s[1..] by {
        if Distinct(s) {
          assert forall k :: 0 <= k < |s| - 1 ==> s[1..][k] == s[k + 1];
        }
      }
      if s[0] == id then rest else [s[0]] + rest
  }

  /** The aim check: active, hit by the pick ray, and strictly closer than the
      interaction range. */
  ghost predicate Eligible(it: Interactable, eye: Vec3, picked: Option<MeshId>)
    reads it
  {
    it.isActive && picked == Some(it.mesh) && DistSq(eye, it.position) < InteractionRange * InteractionRange
  }

  class InteractionManager {
    const bus: EventSystem
    var interactables: map<MeshId, Interactable>
    /** The `Map`'s iteration order: insertion order of the live keys. */
    var order: seq<MeshId>
    var currentInteractable: Interactable?
    var inventory: seq<Item>

    /** `order` lists the registry's keys, each once. */
    ghost predicate Ordered()
      reads this`interactables, this`order
    {
      && Distinct(order)
      && (forall id :: id in interactables <==> id in order)
    }

    /** Every entry sits under its own mesh's id. */
    ghost predicate Keyed()
      reads this`interactables
    {
      forall id :: id in interactables ==> interactables[id].mesh == id
    }

    ghost predicate Valid()
      reads this`interactables, this`order
    {
      Ordered() && Keyed()
    }

    constructor (bus: EventSystem)
      ensures Valid() && this.bus == bus
      ensures interactables == map[] && order == [] && currentInteractable == null && inventory == []
    {
      this.bus := bus;
      interactables := map[];
      order := [];
      currentInteractable := null;
      inventory := [];
    }

    /** `registerInteractable`: a new active object under the mesh's id; an
        id already present keeps its place in the iteration order. */
    method RegisterInteractable(mesh: MeshId, kind: string, position: Vec3, data: DataObject) returns (it: Interactable)
      requires Valid()
      modifies this
      ensures Valid() && fresh(it)
      ensures it.mesh == mesh && it.kind == kind && it.position == position && it.data == data && it.isActive
      ensures interactables == old(interactables)[mesh := it]
      ensures order == if mesh in old(interactables) then old(order) else old(order) + [mesh]
      ensures currentInteractable == old(currentInteractable) && inventory == old(inventory)
    {
      it := new Interactable(mesh, kind, position, data);
      if mesh !in interactables {
        order := order + [mesh];
      }
      interactables := interactables[mesh := it];
    }

    /** The object at a position of the iteration order. */
    ghost function At(k: nat): Interactable
      reads this`interactables, this`order
      requires Ordered() && k < |order|
    {
      interactables[order[k]]
    }

    /** The target `checkForInteractables` settles on sits at position `c`:
        it is eligible, every eligible object before it is strictly farther,
        and none after it is strictly nearer. */
    ghost predicate NearestAt(c: nat, eye: Vec3, picked: Option<MeshId>)
      reads this`interactables, this`order, interactables.Values
      requires Ordered()
    {
      && c < |order|
      && Eligible(At(c), eye, picked)
      && (forall j :: 0 <= j < c && Eligible(At(j), eye, picked) ==>
            DistSq(eye, At(j).position) > DistSq(eye, At(c).position))
      && (forall j :: c < j < |order| && Eligible(At(j), eye, picked) ==>
            DistSq(eye, At(j).position) >= DistSq(eye, At(c).position))
    }

    /** `checkForInteractables`: the pick ray is asked once per frame, so its
        answer `picked` is a parameter; `eye` is the camera position. */
    method CheckForInteractables(eye: Vec3, picked: Option<MeshId>)
      requires Ordered()
      modifies this`currentInteractable
      ensures currentInteractable == null <==>
                forall k :: 0 <= k < |order| ==> !Eligible(At(k), eye, picked)
      ensures currentInteractable != null ==>
                exists c :: 0 <= c < |order| && At(c) == currentInteractable && NearestAt(c, eye, picked)
      ensures currentInteractable != null ==> picked == Some(currentInteractable.mesh)
    {
      var closest: Interactable? := null;
      var closestDistance := InteractionRange * InteractionRange;
      ghost var c := 0;
      var k := 0;
      while k < |order|
        invariant 0 <= k <= |order|
        invariant closest == null ==> closestDistance == InteractionRange * InteractionRange
        invariant closest == null ==> forall j :: 0 <= j < k ==> !Eligible(At(j), eye, picked)
        invariant closest != null ==>
                    && c < k && At(c) == closest && Eligible(closest, eye, picked)
                    && closestDistance == DistSq(eye, closest.position)
                    && (forall j :: 0 <= j < c && Eligible(At(j), eye, picked) ==>
                          DistSq(eye, At(j).position) > closestDistance)
                    && (forall j :: c < j < k && Eligible(At(j), eye, picked) ==>
                          DistSq(eye, At(j).position) >= closestDistance)
      {
        var it := interactables[order[k]];
        if it.isActive {
          var distance := DistSq(eye, it.position);
          if distance <= InteractionRange * InteractionRange {
            if picked == Some(it.mesh) && distance < closestDistance {
              closest := it;
              closestDistance := distance;
              c := k;
            }
          }
        }
        k := k + 1;
      }
      currentInteractable := closest;
      if closest != null {
        assert NearestAt(c, eye, picked);
      }
    }

    /** In a registry keyed by mesh id at most one entry holds the picked
        mesh, so at most one entry is eligible and ties never arise. */
    lemma SelectionUnique(eye: Vec3, picked: Option<MeshId>, i: nat, j: nat)
      requires Valid() && i < |order| && j < |order|
      requires Eligible(At(i), eye, picked) && Eligible(At(j), eye, picked)
      ensures i == j
    {
      assert order[i] == At(i).mesh && order[j] == At(j).mesh;
    }

    /** `addToInventory`: one entry at the end, earlier ones kept. */
    method AddToInventory(kind: string, data: Payload)
      modifies this`inventory
      ensures inventory == old(inventory) + [Item(kind, data)]
    {
      inventory := inventory + [Item(kind, data)];
    }

    /** `removeInteractable`. */
    method RemoveInteractable(mesh: MeshId)
      requires Valid()
      modifies this
      ensures Valid()
      ensures interactables == old(interactables) - {mesh} && order == Without(old(order), mesh)
      ensures currentInteractable == old(currentInteractable) && inventory == old(inventory)
    {
      interactables := interactables - {mesh};
      order := Without(order, mesh);
    }

    /** `dispose`: the registry is emptied; the inventory and the current
        target stay. */
    method Dispose()
      modifies this
      ensures Valid()
      ensures interactables == map[] && order == []
      ensures currentInteractable == old(currentInteractable) && inventory == old(inventory)
    {
      interactables := map[];
      order := [];
    }

    /** The door rule on the target's shared `data` object. */
    method InteractWithDoor(it: Interactable) returns (ok: bool)
      modifies it.data, bus
      ensures var o := ResolveDoor(old(it.data.fields), KeyCheck(inventory, Get(old(it.data.fields), "keyId")));
              it.data.fields == o.data && bus.State() == EventBus.EmitAll(old(bus.State()), o.emitted)
              && ok == (o.completion == Returned(true))
    {
      var data := it.data;
      if Truthy(Get(data.fields, "locked")) {
        if KeyCheck(inventory, Get(data.fields, "keyId")) {
          data.fields := data.fields["locked" := Bool(false)];
          bus.Emit(Event("door_unlocked", data.fields));
          ok := true;
        } else {
          ok := false;
        }
      } else {
        bus.Emit(Event("door_opened", data.fields));
        if !Truthy(Get(data.fields, "isOpen")) {
          data.fields := data.fields["isOpen" := Bool(true)];
        }
        ok := true;
      }
    }

    method InteractWithNote(it: Interactable) returns (ok: bool)
      modifies it.data, bus
      ensures var o := ResolveNote(old(it.data.fields));
              it.data.fields == o.data && bus.State() == EventBus.EmitAll(old(bus.State()), o.emitted)
              && ok == (o.completion == Returned(true))
    {
      var data := it.data;
      bus.Emit(Event(NoteRead, map["title" := Or(Get(data.fields, "title"), Str("Document")),
                                   "content" := Or(Get(data.fields, "content"), Str(FadedText))]));
      data.fields := data.fields["isRead" := Bool(true)];
      ok := true;
    }

    /** The inventory entry records the key's `data` as it is when taken;
        nothing changes a key's data afterwards. */
    method InteractWithKey(it: Interactable) returns (ok: bool)
      requires Valid()
      modifies this, bus
      ensures Valid()
      ensures var o := ResolveKey(it.data.fields);
              bus.State() == EventBus.EmitAll(old(bus.State()), o.emitted) && ok == (o.completion == Returned(true))
      ensures interactables == old(interactables) - {it.mesh} && order == Without(old(order), it.mesh)
      ensures inventory == old(inventory) + [Item("key", it.data.fields)]
      ensures currentInteractable == old(currentInteractable)
    {
      bus.Emit(Event(KeyCollected, it.data.fields));
      RemoveInteractable(it.mesh);
      AddToInventory("key", it.data.fields);
      ok := true;
    }

    method InteractWithSwitch(it: Interactable) returns (ok: bool)
      modifies it.data, bus
      ensures var o := ResolveSwitch(old(it.data.fields), true);
              it.data.fields == o.data && bus.State() == EventBus.EmitAll(old(bus.State()), o.emitted)
              && ok == (o.completion == Returned(true))
    {
      var data := it.data;
      data.fields := data.fields["isOn" := Bool(!Truthy(Get(data.fields, "isOn")))];
      bus.Emit(Event("switch_toggled", data.fields));
      ok := true;
    }

    method InteractWithGenerator(it: Interactable) returns (ok: bool)
      modifies it.data, bus
      ensures var o := ResolveGenerator(old(it.data.fields));
              it.data.fields == o.data && bus.State() == EventBus.EmitAll(old(bus.State()), o.emitted)
              && ok == (o.completion == Returned(true))
    {
      var data := it.data;
      if !Truthy(Get(data.fields, "isRunning")) {
        data.fields := data.fields["isRunning" := Bool(true)];
        bus.Emit(Event(GeneratorStarted, data.fields));
        ok := true;
      } else {
        ok := false;
      }
    }

    /** `tryInteract`: nothing targeted is a refusal; otherwise the target's
        type picks the rule, with the inventory as the door's key check. */
    method TryInteract() returns (ok: bool)
      requires Valid()
      modifies this, bus, if currentInteractable == null then {} else {currentInteractable.data}
      ensures Valid() && currentInteractable == old(currentInteractable)
      ensures old(currentInteractable) == null ==>
                !ok && unchanged(this) && bus.State() == old(bus.State())
      ensures var it := currentInteractable;
              it != null ==>
                var o := Resolve(it.kind, old(it.data.fields), KeyCheck(old(inventory), Get(old(it.data.fields), "keyId")), true);
                && it.data.fields == o.data
                && bus.State() == EventBus.EmitAll(old(bus.State()), o.emitted)
                && ok == (o.completion == Returned(true))
                && if o.consumed then
                     && interactables == old(interactables) - {it.mesh}
                     && order == Without(old(order), it.mesh)
                     && inventory == old(inventory) + [Item("key", old(it.data.fields))]
                   else
                     interactables == old(interactables) && order == old(order) && inventory == old(inventory)
    {
      if currentInteractable == null {
        return false;
      }
      var it := currentInteractable;
      match it.kind
      case "door" => ok := InteractWithDoor(it);
      case "note" => ok := InteractWithNote(it);
      case "key" => ok := InteractWithKey(it);
      case "switch" => ok := InteractWithSwitch(it);
      case "generator" => ok := InteractWithGenerator(it);
      case _ =>
        ok := false;
        assert bus.State() == EventBus.EmitAll(old(bus.State()), []);
    }
  }
}
