/** The one registry rule of `EnvironmentManager`: the chase lockdown, which
    locks every registered door whatever area it is asked for. */
module Environment {
  import opened Values
  import opened GameStates
  import opened Interaction

  /** A door's data after the lockdown: `locked` and `chaseMode` are set,
      every other field is kept. */
  function Lockdown(data: Payload): (r: Payload)
    ensures r.Keys == data.Keys + {"locked", "chaseMode"}
    ensures Get(r, "locked") == Bool(true) && Get(r, "chaseMode") == Bool(true)
    ensures forall k :: k in data && k != "locked" && k != "chaseMode" ==> r[k] == data[k]
  {
    data["locked" := Bool(true)]["chaseMode" := Bool(true)]
  }

  /** Locking twice is locking once. */
  lemma LockdownIdempotent(data: Payload)
    ensures Lockdown(Lockdown(data)) == Lockdown(data)
  {
    assert Lockdown(Lockdown(data)).Keys == Lockdown(data).Keys;
  }

  /** After the lockdown a door opens only for a player who holds its key:
      without it nothing is emitted and the door stays locked; with it the
      door unlocks but stays in chase mode. */
  lemma LockedDownDoor(data: Payload, inventory: seq<Item>)
    ensures var locked := Lockdown(data);
            var o := ResolveDoor(locked, KeyCheck(inventory, Get(locked, "keyId")));
            if HasItem(inventory, "key", Get(data, "keyId")) then
              o.completion == Returned(true) && !Truthy(Get(o.data, "locked"))
              && Get(o.data, "chaseMode") == Bool(true)
              && o.emitted == [Event("door_unlocked", o.data)]
            else
              o == Outcome(locked, [], false, Refused)
  {
    var locked := Lockdown(data);
    assert Get(locked, "keyId") == Get(data, "keyId");
    LockedDoor(locked, KeyCheck(inventory, Get(locked, "keyId")));
  }

  /** Some door among the first `n` entries of the iteration order holds
      the data object `d`. */
  ghost predicate DoorBefore(im: InteractionManager, n: nat, d: DataObject)
    reads im`interactables, im`order
    requires im.Ordered() && n <= |im.order|
  {
    exists i :: 0 <= i < n && im.At(i).kind == "door" && im.At(i).data == d
  }

  /** Some registered door holds the data object `d`. */
  ghost predicate HeldByDoor(im: InteractionManager, d: DataObject)
    reads im`interactables
  {
    exists id :: id in im.interactables && im.interactables[id].kind == "door" && im.interactables[id].data == d
  }

  /** `lockDoorsInArea(area)`: walks the registry in insertion order and
      locks each door's data object; `area` is not consulted. A data object
      held by a door is locked down (once, however many doors share it) and
      every other one is left as it was; only data objects change. */
  method LockDoorsInArea(im: InteractionManager, area: string)
    requires im.Valid()
    modifies set it | it in im.interactables.Values :: it.data
    ensures forall id :: id in im.interactables ==>
              var d := im.interactables[id].data;
              d.fields == if HeldByDoor(im, d) then Lockdown(old(d.fields)) else old(d.fields)
  {
    ghost var before := map d | d in Datas(im) :: d.fields;
    for k := 0 to |im.order|
      invariant LockedUpTo(im, k, before)
    {
      LockAt(im, k, before);
    }
    forall id | id in im.interactables
      ensures var d := im.interactables[id].data;
              d.fields == if HeldByDoor(im, d) then Lockdown(old(d.fields)) else old(d.fields)
    {
      assert id in im.order;
      var j :| 0 <= j < |im.order| && im.order[j] == id;
      DoorsAgree(im, im.At(j).data);
    }
  }

  /** The data objects the registry holds. */
  ghost function Datas(im: InteractionManager): set<DataObject>
    reads im`interactables
  {
    set it | it in im.interactables.Values :: it.data
  }

  /** The doors among the first `k` entries have locked their data objects
      down; every other data object holds what `before` recorded. */
  ghost predicate LockedUpTo(im: InteractionManager, k: nat, before: map<DataObject, Payload>)
    reads im`interactables, im`order, Datas(im)
  {
    && im.Ordered() && k <= |im.order|
    && forall j :: 0 <= j < |im.order| ==>
         var d := im.At(j).data;
         d in before && d.fields == if DoorBefore(im, k, d) then Lockdown(before[d]) else before[d]
  }

  /** The loop body: the entry at position `k`. */
  method LockAt(im: InteractionManager, k: nat, ghost before: map<DataObject, Payload>)
    requires LockedUpTo(im, k, before) && k < |im.order|
    modifies im.interactables[im.order[k]].data
    ensures LockedUpTo(im, k + 1, before)
  {
    var it := im.interactables[im.order[k]];
    assert im.At(k) == it;
    if it.kind == "door" {
      var d := it.data;
      LockdownIdempotent(before[d]);
      d.fields := Lockdown(d.fields);
    }
    forall j | 0 <= j < |im.order|
      ensures var e := im.At(j).data;
              e in before && e.fields == if DoorBefore(im, k + 1, e) then Lockdown(before[e]) else before[e]
    {
      DoorBeforeStep(im, k, im.At(j).data);
    }
  }

  /** One more entry of the iteration order adds its data object when it is
      a door. */
  lemma DoorBeforeStep(im: InteractionManager, k: nat, d: DataObject)
    requires im.Ordered() && k < |im.order|
    ensures DoorBefore(im, k + 1, d) <==> DoorBefore(im, k, d) || (im.At(k).kind == "door" && im.At(k).data == d)
  {
    if DoorBefore(im, k + 1, d) && !(im.At(k).kind == "door" && im.At(k).data == d) {
      var i :| 0 <= i < k + 1 && im.At(i).kind == "door" && im.At(i).data == d;
      assert i < k;
    }
  }

  /** Over the whole iteration order, "held by a door before the end" is
      "held by a registered door". */
  lemma DoorsAgree(im: InteractionManager, d: DataObject)
    requires im.Ordered()
    ensures DoorBefore(im, |im.order|, d) <==> HeldByDoor(im, d)
  {
    if HeldByDoor(im, d) {
      var id :| id in im.interactables && im.interactables[id].kind == "door" && im.interactables[id].data == d;
      assert id in im.order;
      var i :| 0 <= i < |im.order| && im.order[i] == id;
      assert im.At(i) == im.interactables[id];
    }
  }
}
