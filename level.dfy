/** `LevelBuilder`: the room configurations, the trigger tables laid out
    around them, the one-shot proximity trigger, the patient-room layout and
    the cleanup of what the builder tracks. */
module Level {
  import opened Values
  import opened GameStates
  import EventBus
  import opened Events

  /** `{ width, depth, height, position }`. */
  datatype RoomConfig = RoomConfig(width: real, depth: real, height: real, position: Vec3)

  const EntranceConfig := RoomConfig(25.0, 20.0, 4.5, Vec3(0.0, 0.0, 0.0))
  const CorridorConfig := RoomConfig(4.0, 40.0, 4.0, Vec3(0.0, 0.0, 20.0))
  const ResearchConfig := RoomConfig(30.0, 25.0, 5.0, Vec3(0.0, 0.0, 60.0))
  const BasementConfig := RoomConfig(20.0, 15.0, 3.0, Vec3(0.0, -4.0, 80.0))

  /** The arguments of one `createTrigger(position, radius, event, data)`. */
  datatype TriggerSpec = TriggerSpec(position: Vec3, radius: real, event: string, data: Payload)

  function Offset(p: Vec3, dx: real, dz: real): Vec3 {
    Vec3(p.x + dx, p.y, p.z + dz)
  }

  // ---------------------------------------------------------------- trigger tables

  /** `createEntranceTriggers`. */
  function EntranceTriggers(c: RoomConfig): seq<TriggerSpec> {
    [ TriggerSpec(c.position, 3.0, AreaEntered, map["area" := Str("entrance")]),
      TriggerSpec(Offset(c.position, 0.0, 8.0), 2.0, "approaching_corridor", map[]) ]
  }

  /** `createCorridorTriggers`. */
  function CorridorTriggers(c: RoomConfig): seq<TriggerSpec> {
    [ TriggerSpec(Offset(c.position, 0.0, -c.depth / 4.0), 2.0, EntityEncounter, map["intensity" := Num(1.0)]),
      TriggerSpec(Offset(c.position, 0.0, c.depth / 4.0), 2.0, EntityEncounter, map["intensity" := Num(2.0)]) ]
  }

  /** `createResearchTriggers`. */
  function ResearchTriggers(c: RoomConfig): seq<TriggerSpec> {
    [ TriggerSpec(c.position, 4.0, AreaEntered, map["area" := Str("research_wing")]),
      TriggerSpec(Offset(c.position, -10.0, 0.0), 2.0, "generator_proximity", map[]) ]
  }

  /** `createBasementTriggers`. */
  function BasementTriggers(c: RoomConfig): seq<TriggerSpec> {
    [ TriggerSpec(c.position, 3.0, AreaEntered, map["area" := Str("basement")]),
      TriggerSpec(Offset(c.position, 0.0, 5.0), 2.0, EntityEncounter, map["intensity" := Num(3.0)]) ]
  }

  /** Laid out around the level's own rooms, the tables put their triggers
      at these points; the first trigger of each area sits at the room's
      centre and announces the area. */
  lemma TriggerTables()
    ensures EntranceTriggers(EntranceConfig)[1].position == Vec3(0.0, 0.0, 8.0)
    ensures CorridorTriggers(CorridorConfig)[0].position == Vec3(0.0, 0.0, 10.0)
    ensures CorridorTriggers(CorridorConfig)[1].position == Vec3(0.0, 0.0, 30.0)
    ensures ResearchTriggers(ResearchConfig)[1].position == Vec3(-10.0, 0.0, 60.0)
    ensures BasementTriggers(BasementConfig)[1].position == Vec3(0.0, -4.0, 85.0)
    ensures forall c: RoomConfig :: EntranceTriggers(c)[0].position == c.position && EntranceTriggers(c)[0].event == AreaEntered
    ensures forall c: RoomConfig :: ResearchTriggers(c)[0].position == c.position && ResearchTriggers(c)[0].event == AreaEntered
    ensures forall c: RoomConfig :: BasementTriggers(c)[0].position == c.position && BasementTriggers(c)[0].event == AreaEntered
  {
  }

  /** Every trigger of every table has a positive radius and sits on the
      room's floor level. */
  lemma TriggerTablesWellFormed(c: RoomConfig)
    ensures forall t :: t in EntranceTriggers(c) + CorridorTriggers(c) + ResearchTriggers(c) + BasementTriggers(c) ==>
              t.radius > 0.0 && t.position.y == c.position.y
  {
    var all := EntranceTriggers(c) + CorridorTriggers(c) + ResearchTriggers(c) + BasementTriggers(c);
    assert |all| == 8;
    forall t | t in all
      ensures t.radius > 0.0 && t.position.y == c.position.y
    {
      var i :| 0 <= i < |all| && all[i] == t;
    }
  }

  // ---------------------------------------------------------------- one-shot rule

  /** `distance <= radius`; a negative radius holds nothing. */
  predicate Reaches(t: TriggerSpec, p: Vec3) {
    t.radius >= 0.0 && Within(p, t.position, t.radius)
  }

  function TriggerEvent(t: TriggerSpec): Event {
    Event(t.event, t.data)
  }

  /** Whether the trigger is still armed, and what was emitted. */
  datatype Firing = Firing(armed: bool, emitted: seq<Event>)

  /** One frame of the trigger's callback. */
  function Step(t: TriggerSpec, armed: bool, p: Vec3): (f: Firing)
    ensures f.emitted != [] <==> armed && Reaches(t, p)
    ensures f.armed <==> armed && !Reaches(t, p)
  {
    if armed && Reaches(t, p) then Firing(false, [TriggerEvent(t)]) else Firing(armed, [])
  }

  /** The frames of a walk through the level, one player position each. */
  function Run(t: TriggerSpec, armed: bool, path: seq<Vec3>): Firing
    decreases |path|
  {
    if path == [] then Firing(armed, [])
    else
      var first := Step(t, armed, path[0]);
      var rest := Run(t, first.armed, path[1..]);
      Firing(rest.armed, first.emitted + rest.emitted)
  }

  predicate EverReaches(t: TriggerSpec, path: seq<Vec3>) {
    exists i :: 0 <= i < |path| && Reaches(t, path[i])
  }

  /** Once fired, a trigger never emits again, whatever the path. */
  lemma {:induction false} DisarmedStaysSilent(t: TriggerSpec, path: seq<Vec3>)
    ensures Run(t, false, path) == Firing(false, [])
    decreases |path|
  {
    if path != [] {
      DisarmedStaysSilent(t, path[1..]);
    }
  }

  /** An armed trigger emits its event exactly once if the walk ever comes
      within the radius, and otherwise emits nothing and stays armed. */
  lemma {:induction false} ArmedFiresOnce(t: TriggerSpec, path: seq<Vec3>)
    ensures Run(t, true, path) ==
              if EverReaches(t, path) then Firing(false, [TriggerEvent(t)]) else Firing(true, [])
    decreases |path|
  {
    if path != [] {
      if Reaches(t, path[0]) {
        DisarmedStaysSilent(t, path[1..]);
      } else {
        ArmedFiresOnce(t, path[1..]);
        assert EverReaches(t, path) <==> EverReaches(t, path[1..]) by {
          if EverReaches(t, path) {
            var i :| 0 <= i < |path| && Reaches(t, path[i]);
            assert path[1..][i - 1] == path[i];
          }
          if EverReaches(t, path[1..]) {
            var i :| 0 <= i < |path[1..]| && Reaches(t, path[1..][i]);
            assert path[i + 1] == path[1..][i];
          }
        }
      }
    }
  }

  /** The frame that emits is the first one within the radius. */
  lemma FiresAtFirstReach(t: TriggerSpec, path: seq<Vec3>, i: nat)
    requires i < |path| && Reaches(t, path[i])
    requires forall j :: 0 <= j < i ==> !Reaches(t, path[j])
    ensures Run(t, true, path[..i]) == Firing(true, [])
    ensures Run(t, true, path[..i + 1]) == Firing(false, [TriggerEvent(t)])
  {
    ArmedFiresOnce(t, path[..i]);
    ArmedFiresOnce(t, path[..i + 1]);
    assert path[..i + 1][i] == path[i];
  }

  /** One more frame after a walk. */
  lemma {:induction false} RunSnoc(t: TriggerSpec, armed: bool, path: seq<Vec3>, p: Vec3)
    ensures Run(t, armed, path + [p]).armed == Step(t, Run(t, armed, path).armed, p).armed
    ensures Run(t, armed, path + [p]).emitted == Run(t, armed, path).emitted + Step(t, Run(t, armed, path).armed, p).emitted
    decreases |path|
  {
    if path == [] {
      assert path + [p] == [p];
    } else {
      assert (path + [p])[0] == path[0] && (path + [p])[1..] == path[1..] + [p];
      RunSnoc(t, Step(t, armed, path[0]).armed, path[1..], p);
    }
  }

  // ---------------------------------------------------------------- one frame

  /** One rendered frame over triggers registered in this order, `armed[i]`
      saying whether the i-th is still armed: each callback runs in turn. */
  function Frame(specs: seq<TriggerSpec>, armed: seq<bool>, p: Vec3): (r: seq<Event>)
    requires |armed| == |specs|
    decreases |specs|
  {
    if specs == [] then []
    else
      var n := |specs| - 1;
      Frame(specs[..n], armed[..n], p) + Step(specs[n], armed[n], p).emitted
  }

  /** Which triggers are still armed after that frame. */
  function Rearmed(specs: seq<TriggerSpec>, armed: seq<bool>, p: Vec3): (r: seq<bool>)
    requires |armed| == |specs|
    ensures |r| == |specs|
    ensures forall i :: 0 <= i < |specs| ==> r[i] == Step(specs[i], armed[i], p).armed
  {
    seq(|specs|, i requires 0 <= i < |specs| => Step(specs[i], armed[i], p).armed)
  }

  lemma FrameSnoc(specs: seq<TriggerSpec>, armed: seq<bool>, k: nat, p: Vec3)
    requires |armed| == |specs| && k < |specs|
    ensures Frame(specs[..k + 1], armed[..k + 1], p) == Frame(specs[..k], armed[..k], p) + Step(specs[k], armed[k], p).emitted
  {
    assert specs[..k + 1][..k] == specs[..k] && armed[..k + 1][..k] == armed[..k];
  }

  /** A frame emits exactly the events of the armed triggers holding the
      player, one each. */
  lemma {:induction false} FrameEmits(specs: seq<TriggerSpec>, armed: seq<bool>, p: Vec3, e: Event)
    requires |armed| == |specs|
    ensures |Frame(specs, armed, p)| <= |specs|
    ensures e in Frame(specs, armed, p) <==>
              exists i :: 0 <= i < |specs| && armed[i] && Reaches(specs[i], p) && e == TriggerEvent(specs[i])
    decreases |specs|
  {
    if specs != [] {
      var n := |specs| - 1;
      FrameEmits(specs[..n], armed[..n], p, e);
      if exists i :: 0 <= i < |specs| && armed[i] && Reaches(specs[i], p) && e == TriggerEvent(specs[i]) {
        var i :| 0 <= i < |specs| && armed[i] && Reaches(specs[i], p) && e == TriggerEvent(specs[i]);
        if i < n {
          assert specs[..n][i] == specs[i] && armed[..n][i] == armed[i];
        }
      }
      if e in Frame(specs[..n], armed[..n], p) {
        var i :| 0 <= i < n && armed[..n][i] && Reaches(specs[..n][i], p) && e == TriggerEvent(specs[..n][i]);
        assert specs[i] == specs[..n][i];
      }
    }
  }

  /** A second frame with the player where they were emits nothing: every
      trigger that fired is disarmed, and the others still do not hold the
      player. */
  lemma SecondFrameSilent(specs: seq<TriggerSpec>, armed: seq<bool>, p: Vec3)
    requires |armed| == |specs|
    ensures Frame(specs, Rearmed(specs, armed, p), p) == []
  {
    var again := Frame(specs, Rearmed(specs, armed, p), p);
    if again != [] {
      FrameEmits(specs, Rearmed(specs, armed, p), p, again[0]);
      assert false;
    }
  }

  /** The before-render callback `createTrigger` registers, with the flag it
      closes over. */
  class ProximityTrigger {
    const spec: TriggerSpec
    var triggered: bool

    constructor (spec: TriggerSpec)
      ensures this.spec == spec && !triggered
    {
      this.spec := spec;
      triggered := false;
    }

    /** One frame: an armed trigger holding the player emits and disarms. */
    method Tick(bus: EventSystem, player: Vec3)
      modifies this, bus
      ensures var f := Step(spec, !old(triggered), player);
              triggered == !f.armed && bus.State() == EventBus.EmitAll(old(bus.State()), f.emitted)
    {
      if !triggered {
        if Reaches(spec, player) {
          bus.Emit(TriggerEvent(spec));
          triggered := true;
        }
      }
    }
  }

  // ---------------------------------------------------------------- patient rooms

  /** The `createPatientRooms` layout: six rooms on the left, then six on the
      right, 8 by 6 by 3.5, eight apart along z from z = 10. */
  predicate PatientLayout(rooms: seq<RoomConfig>) {
    && |rooms| == 12
    && (forall i :: 0 <= i < 6 ==>
          rooms[i] == RoomConfig(8.0, 6.0, 3.5, Vec3(-10.0, 0.0, 10.0 + 8.0 * (i as real))))
    && (forall i :: 6 <= i < 12 ==>
          rooms[i] == RoomConfig(8.0, 6.0, 3.5, Vec3(10.0, 0.0, 10.0 + 8.0 * ((i - 6) as real))))
  }

  /** `createPatientRooms`: the configurations it returns. */
  method CreatePatientRooms() returns (rooms: seq<RoomConfig>)
    ensures PatientLayout(rooms)
  {
    rooms := [];
    var i := 0;
    while i < 6
      invariant 0 <= i <= 6 && |rooms| == i
      invariant forall j :: 0 <= j < i ==>
                  rooms[j] == RoomConfig(8.0, 6.0, 3.5, Vec3(-10.0, 0.0, 10.0 + 8.0 * (j as real)))
    {
      rooms := rooms + [RoomConfig(8.0, 6.0, 3.5, Vec3(-10.0, 0.0, 10.0 + (i as real) * 8.0))];
      i := i + 1;
    }
    i := 0;
    while i < 6
      invariant 0 <= i <= 6 && |rooms| == 6 + i
      invariant forall j :: 0 <= j < 6 ==>
                  rooms[j] == RoomConfig(8.0, 6.0, 3.5, Vec3(-10.0, 0.0, 10.0 + 8.0 * (j as real)))
      invariant forall j :: 6 <= j < 6 + i ==>
                  rooms[j] == RoomConfig(8.0, 6.0, 3.5, Vec3(10.0, 0.0, 10.0 + 8.0 * ((j - 6) as real)))
    {
      rooms := rooms + [RoomConfig(8.0, 6.0, 3.5, Vec3(10.0, 0.0, 10.0 + (i as real) * 8.0))];
      i := i + 1;
    }
  }

  /** The floor rectangles of two rooms do not overlap. */
  predicate Apart(a: RoomConfig, b: RoomConfig) {
    || a.position.x + a.width / 2.0 <= b.position.x - b.width / 2.0
    || b.position.x + b.width / 2.0 <= a.position.x - a.width / 2.0
    || a.position.z + a.depth / 2.0 <= b.position.z - b.depth / 2.0
    || b.position.z + b.depth / 2.0 <= a.position.z - a.depth / 2.0
  }

  /** No two patient rooms overlap: the sides are 20 apart across x and the
      rooms on one side are 8 apart along z, more than their depth of 6. */
  lemma PatientRoomsApart(rooms: seq<RoomConfig>, i: nat, j: nat)
    requires PatientLayout(rooms) && i < j < 12
    ensures Apart(rooms[i], rooms[j])
  {
    if j < 6 || 6 <= i {
      var a := if j < 6 then i else i - 6;
      var b := if j < 6 then j else j - 6;
      assert rooms[j].position.z - rooms[i].position.z == 8.0 * ((b - a) as real);
    }
  }

  // ---------------------------------------------------------------- builder

  datatype Color3 = Color3(r: real, g: real, b: real)

  /** A `StandardMaterial` as `initializeMaterials` configures it. */
  datatype Material = Material(diffuse: Color3, specular: Color3, roughness: real)

  function Wall(c: Color3): Material { Material(c, Color3(0.1, 0.1, 0.1), 0.8) }
  function Floor(c: Color3): Material { Material(c, Color3(0.2, 0.2, 0.2), 0.6) }
  function Metal(c: Color3): Material { Material(c, Color3(0.3, 0.3, 0.3), 0.7) }
  function Wood(c: Color3): Material { Material(c, Color3(0.05, 0.05, 0.05), 0.9) }
  function Fabric(c: Color3): Material { Material(c, Color3(0.01, 0.01, 0.01), 1.0) }

  /** `initializeMaterials`: the eight named materials. */
  const MaterialTable: map<string, Material> := map[
    "wall_dirty" := Wall(Color3(0.35, 0.4, 0.35)),
    "wall_moldy" := Wall(Color3(0.25, 0.3, 0.2)),
    "wall_blood" := Wall(Color3(0.4, 0.2, 0.2)),
    "floor_tile" := Floor(Color3(0.3, 0.3, 0.35)),
    "floor_concrete" := Floor(Color3(0.25, 0.25, 0.25)),
    "metal_rusty" := Metal(Color3(0.4, 0.25, 0.1)),
    "wood_old" := Wood(Color3(0.3, 0.2, 0.1)),
    "fabric_torn" := Fabric(Color3(0.2, 0.15, 0.1))]

  /** Every material a room of the level asks for is in the table. */
  lemma MaterialsCoverRooms()
    ensures |MaterialTable| == 8
    ensures forall name :: name in {"floor_tile", "wall_dirty", "floor_concrete", "wall_moldy", "wall_blood"} ==>
              name in MaterialTable
  {
    assert MaterialTable.Keys == {"wall_dirty", "wall_moldy", "wall_blood", "floor_tile", "floor_concrete",
                                  "metal_rusty", "wood_old", "fabric_torn"};
  }

  /** A handle for a mesh or light the builder created. */
  type Handle = nat

  function Specs(ts: seq<ProximityTrigger>): (r: seq<TriggerSpec>)
    ensures |r| == |ts| && forall i :: 0 <= i < |ts| ==> r[i] == ts[i].spec
  {
    seq(|ts|, i requires 0 <= i < |ts| => ts[i].spec)
  }

  /** Which of the triggers are still armed. */
  ghost function Armed(ts: seq<ProximityTrigger>): (r: seq<bool>)
    reads ts
    ensures |r| == |ts| && forall i :: 0 <= i < |ts| ==> r[i] == !ts[i].triggered
  {
    if ts == [] then [] else [!ts[0].triggered] + Armed(ts[1..])
  }

  /** In a sequence without repeats, the entry at `k` is no other entry. */
  lemma OthersDiffer(ts: seq<ProximityTrigger>, k: nat)
    requires k < |ts| && forall i :: 0 <= i < |ts| ==> ts[i] !in ts[..i]
    ensures forall i :: 0 <= i < |ts| && i != k ==> ts[i] != ts[k]
  {
    forall i | 0 <= i < |ts| && i != k
      ensures ts[i] != ts[k]
    {
      if i < k {
        assert ts[..k][i] == ts[i];
      } else {
        assert ts[..i][k] == ts[k];
      }
    }
  }

  class LevelBuilder {
    const bus: EventSystem
    var meshes: seq<Handle>
    var lights: seq<Handle>
    var materials: map<string, Material>
    /** The callbacks `createTrigger` registered with the scene. */
    var triggers: seq<ProximityTrigger>

    /** Each registered callback is its own trigger. */
    ghost predicate Valid()
      reads this`triggers
    {
      forall i :: 0 <= i < |triggers| ==> triggers[i] !in triggers[..i]
    }

    constructor (bus: EventSystem)
      ensures this.bus == bus && materials == MaterialTable && Valid()
      ensures meshes == [] && lights == [] && triggers == []
    {
      this.bus := bus;
      meshes := [];
      lights := [];
      materials := MaterialTable;
      triggers := [];
    }

    /** The triggers are `before` followed by one armed trigger per entry
        of `specs`, in order. */
    ghost predicate Appended(before: seq<ProximityTrigger>, specs: seq<TriggerSpec>)
      reads this`triggers, triggers
    {
      && |triggers| == |before| + |specs| && triggers[..|before|] == before
      && forall i :: 0 <= i < |specs| ==>
           triggers[|before| + i].spec == specs[i] && !triggers[|before| + i].triggered
    }

    /** `createTrigger`: a fresh armed trigger joins the frame loop. */
    method CreateTrigger(spec: TriggerSpec) returns (t: ProximityTrigger)
      requires Valid()
      modifies this`triggers
      ensures Valid() && fresh(t) && t.spec == spec && !t.triggered
      ensures triggers == old(triggers) + [t]
    {
      t := new ProximityTrigger(spec);
      triggers := triggers + [t];
    }

    /** The trigger creations of one `create*Triggers`, in table order. */
    method CreateTriggers(specs: seq<TriggerSpec>)
      requires Valid()
      modifies this`triggers
      ensures Valid() && Appended(old(triggers), specs)
      ensures forall i :: |old(triggers)| <= i < |triggers| ==> fresh(triggers[i])
    {
      ghost var created: seq<ProximityTrigger> := [];
      for k := 0 to |specs|
        invariant Valid()
        invariant |created| == k && triggers == old(triggers) + created
        invariant forall i :: 0 <= i < k ==>
                    fresh(created[i]) && created[i].spec == specs[i] && !created[i].triggered
      {
        var t := CreateTrigger(specs[k]);
        created := created + [t];
      }
      assert forall i :: 0 <= i < |specs| ==> triggers[|old(triggers)| + i] == created[i];
      assert triggers[..|old(triggers)|] == old(triggers);
    }

    /** `createEntranceTriggers`. */
    method CreateEntranceTriggers(c: RoomConfig)
      requires Valid()
      modifies this`triggers
      ensures Valid()
      ensures Appended(old(triggers), EntranceTriggers(c))
    {
      CreateTriggers(EntranceTriggers(c));
    }

    /** `createCorridorTriggers`. */
    method CreateCorridorTriggers(c: RoomConfig)
      requires Valid()
      modifies this`triggers
      ensures Valid()
      ensures Appended(old(triggers), CorridorTriggers(c))
    {
      CreateTriggers(CorridorTriggers(c));
    }

    /** `createResearchTriggers`. */
    method CreateResearchTriggers(c: RoomConfig)
      requires Valid()
      modifies this`triggers
      ensures Valid()
      ensures Appended(old(triggers), ResearchTriggers(c))
    {
      CreateTriggers(ResearchTriggers(c));
    }

    /** `createBasementTriggers`. */
    method CreateBasementTriggers(c: RoomConfig)
      requires Valid()
      modifies this`triggers
      ensures Valid()
      ensures Appended(old(triggers), BasementTriggers(c))
    {
      CreateTriggers(BasementTriggers(c));
    }

    /** One rendered frame: every registered trigger's callback runs, in
        registration order. */
    method TickTriggers(player: Vec3)
      requires Valid()
      modifies triggers, bus
      ensures forall i :: 0 <= i < |triggers| ==>
                triggers[i].triggered == !Step(triggers[i].spec, !old(triggers[i].triggered), player).armed
      ensures bus.State() == EventBus.EmitAll(old(bus.State()), Frame(Specs(triggers), old(Armed(triggers)), player))
    {
      ghost var start := bus.State();
      ghost var specs := Specs(triggers);
      ghost var armed := Armed(triggers);
      for k := 0 to |triggers|
        invariant TickedUpTo(k, armed, player)
        invariant bus.State() == EventBus.EmitAll(start, Frame(specs[..k], armed[..k], player))
      {
        TickAt(k, player, start, specs, armed);
      }
      assert specs[..|triggers|] == specs && armed[..|triggers|] == armed;
    }

    /** The callbacks before position `k` have run on the flags `armed`;
        the others have not. */
    ghost predicate TickedUpTo(k: nat, armed: seq<bool>, player: Vec3)
      reads this`triggers, triggers
    {
      && k <= |triggers| && |armed| == |triggers|
      && forall i :: 0 <= i < |triggers| ==>
           triggers[i].triggered == if i < k then !Step(triggers[i].spec, armed[i], player).armed else !armed[i]
    }

    /** The callback at position `k`. */
    method TickAt(k: nat, player: Vec3, ghost start: EventBus.Bus, ghost specs: seq<TriggerSpec>, ghost armed: seq<bool>)
      requires Valid() && k < |triggers| && specs == Specs(triggers) && TickedUpTo(k, armed, player)
      requires bus.State() == EventBus.EmitAll(start, Frame(specs[..k], armed[..k], player))
      modifies triggers[k], bus
      ensures TickedUpTo(k + 1, armed, player)
      ensures bus.State() == EventBus.EmitAll(start, Frame(specs[..k + 1], armed[..k + 1], player))
    {
      var t := triggers[k];
      OthersDiffer(triggers, k);
      ghost var done := Frame(specs[..k], armed[..k], player);
      FrameSnoc(specs, armed, k, player);
      assert specs[k] == t.spec;
      t.Tick(bus, player);
      assert t.triggered == !Step(specs[k], armed[k], player).armed;
      if Step(t.spec, armed[k], player).emitted != [] {
        EventBus.EmitAllSnoc(start, done, TriggerEvent(t.spec));
      } else {
        assert done + [] == done;
      }
    }

    /** `dispose`: meshes, lights and materials are dropped; the trigger
        callbacks stay registered with the scene. */
    method Dispose()
      modifies this`meshes, this`lights, this`materials
      ensures meshes == [] && lights == [] && materials == map[]
    {
      meshes := [];
      lights := [];
      materials := map[];
    }
  }
}
