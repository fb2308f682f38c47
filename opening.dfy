/** `OpeningSequence`: the one-time start, the clues registered with the
    interaction manager, the step counter that plays the door slam and the
    look cue for the broken recorder. */
module Opening {
  import opened Values
  import opened GameStates
  import EventBus
  import opened Events
  import opened Interaction

  /** One environmental clue: the mesh it is attached to, its type and data. */
  datatype Clue = Clue(mesh: string, kind: string, data: Payload)

  /** `setupEnvironmentalClues`: the three clues, in registration order. */
  const Clues: seq<Clue> := [
    Clue("intake_clipboard", "document", map[
      "title" := Str("Patient Transfer Form"),
      "content" := Str("Subject 23 - TRANSFER TO WING C - EXPERIMENTAL PROTOCOL 7\n[Blood stains obscure the remaining text]")]),
    Clue("broken_recorder", "device", map[
      "title" := Str("Audio Recording Device"),
      "content" := Str("Cracked tape recorder with partially ejected cassette.\nLabel reads: \"SESSION 47 - DR. [ILLEGIBLE]\"")]),
    Clue("keycard_fragment", "key_item", map[
      "title" := Str("Security Keycard Fragment"),
      "content" := Str("Half of a security access card showing \"CLEARANCE LEV-\" and part of a photograph.")])]

  /** The clues are registered, but their types are none of the five kinds
      `tryInteract` knows, so interacting with one is refused and changes
      nothing. */
  lemma CluesAreInert(holdsKey: bool, color3Imported: bool)
    ensures forall i :: 0 <= i < |Clues| ==>
              Resolve(Clues[i].kind, Clues[i].data, holdsKey, color3Imported)
                == Outcome(Clues[i].data, [], false, Refused)
    ensures Clues[0].mesh != Clues[1].mesh && Clues[1].mesh != Clues[2].mesh && Clues[0].mesh != Clues[2].mesh
  {
    forall i | 0 <= i < |Clues|
      ensures !KnownKind(Clues[i].kind)
    {
    }
  }

  // ---------------------------------------------------------------- cues

  const DoorSlam := "door_slam"
  const Static := "static"
  const Recorder := "broken_recorder"

  /** The counter, the two `triggersActivated` flags and the sounds played. */
  datatype Cues = Cues(stepCount: nat, firstMovement: bool, objectLook: bool, sounds: seq<string>)

  const Quiet := Cues(0, false, false, [])

  /** The `player_moved` callback. */
  function Moved(c: Cues): (d: Cues)
    ensures d.stepCount == c.stepCount + 1 && d.objectLook == c.objectLook
    ensures d.sounds == c.sounds || (d.sounds == c.sounds + [DoorSlam] && d.stepCount == 3 && !c.firstMovement)
    ensures d.firstMovement <==> c.firstMovement || d.stepCount == 3
  {
    var n := c.stepCount + 1;
    if n == 3 && !c.firstMovement then Cues(n, true, c.objectLook, c.sounds + [DoorSlam])
    else c.(stepCount := n)
  }

  /** The pointer observer, given the name of the picked mesh if any. */
  function Pointed(c: Cues, picked: Option<string>): (d: Cues)
    ensures d.stepCount == c.stepCount && d.firstMovement == c.firstMovement
    ensures d.objectLook <==> c.objectLook || picked == Some(Recorder)
    ensures d.sounds == c.sounds || (d.sounds == c.sounds + [Static] && !c.objectLook && picked == Some(Recorder))
  {
    if picked == Some(Recorder) && !c.objectLook then c.(objectLook := true, sounds := c.sounds + [Static])
    else c
  }

  /** `n` movement events in a row. */
  function MovedTimes(c: Cues, n: nat): Cues {
    if n == 0 then c else Moved(MovedTimes(c, n - 1))
  }

  /** A run of pointer events. */
  function PointedAll(c: Cues, picks: seq<Option<string>>): Cues
    decreases |picks|
  {
    if picks == [] then c else Pointed(PointedAll(c, picks[..|picks| - 1]), picks[|picks| - 1])
  }

  function Occurrences(s: seq<string>, x: string): nat {
    if s == [] then 0 else (if s[0] == x then 1 else 0) + Occurrences(s[1..], x)
  }

  lemma {:induction false} OccurrencesSnoc(s: seq<string>, y: string, x: string)
    ensures Occurrences(s + [y], x) == Occurrences(s, x) + (if y == x then 1 else 0)
    decreases |s|
  {
    if s == [] {
      assert [y][1..] == [];
    } else {
      assert (s + [y])[0] == s[0] && (s + [y])[1..] == s[1..] + [y];
      OccurrencesSnoc(s[1..], y, x);
    }
  }

  /** Counting steps from the start: the counter equals the number of
      events, and the door slam has played exactly once from the third step
      on and never before. */
  lemma {:induction false} DoorSlamOnce(n: nat)
    ensures MovedTimes(Quiet, n) == Cues(n, n >= 3, false, if n >= 3 then [DoorSlam] else [])
    ensures Occurrences(MovedTimes(Quiet, n).sounds, DoorSlam) == if n >= 3 then 1 else 0
  {
    if n > 0 {
      DoorSlamOnce(n - 1);
      var prev := MovedTimes(Quiet, n - 1);
      assert MovedTimes(Quiet, n) == Moved(prev);
      if n == 3 {
        assert !prev.firstMovement && prev.sounds == [];
      } else {
        assert Moved(prev) == prev.(stepCount := n);
      }
    }
    if n >= 3 {
      assert [DoorSlam][1..] == [];
    }
  }

  /** Over any run of pointer events from the start, the static cue plays
      once if the recorder was ever picked and never otherwise. */
  lemma {:induction false} LookCueAtMostOnce(picks: seq<Option<string>>)
    ensures PointedAll(Quiet, picks).objectLook == (Some(Recorder) in picks)
    ensures PointedAll(Quiet, picks).sounds == if Some(Recorder) in picks then [Static] else []
    ensures Occurrences(PointedAll(Quiet, picks).sounds, Static) <= 1
    decreases |picks|
  {
    if picks != [] {
      var front := picks[..|picks| - 1];
      LookCueAtMostOnce(front);
      assert picks == front + [picks[|picks| - 1]];
      assert Some(Recorder) in picks <==> Some(Recorder) in front || picks[|picks| - 1] == Some(Recorder);
    }
  }

  /** The id under which the movement callback is subscribed. */
  const MovementHandler: EventBus.Handler := 0

  // ---------------------------------------------------------------- class

  class OpeningSequence {
    const bus: EventSystem
    const interactions: InteractionManager
    var hasStarted: bool
    var objectLook: bool
    var firstMovement: bool
    var stepCount: nat
    /** The sounds `audioManager.playSound` was asked for, in order. */
    var sounds: seq<string>
    /** Observers added to `scene.onPointerObservable`. */
    var pointerObservers: nat

    function State(): Cues
      reads this
    {
      Cues(stepCount, firstMovement, objectLook, sounds)
    }

    constructor (bus: EventSystem, interactions: InteractionManager)
      ensures this.bus == bus && this.interactions == interactions
      ensures !hasStarted && State() == Quiet && pointerObservers == 0
    {
      this.bus := bus;
      this.interactions := interactions;
      hasStarted := false;
      objectLook := false;
      firstMovement := false;
      stepCount := 0;
      sounds := [];
      pointerObservers := 0;
    }

    /** `start`: only the first call does anything; it registers the clues
        whose meshes the scene has (`meshes` maps a mesh name to its
        position), adds the pointer observer and subscribes the movement
        callback. */
    method Start(meshes: map<string, Vec3>)
      requires interactions.Valid()
      modifies this, interactions, bus
      ensures interactions.Valid()
      ensures old(hasStarted) ==> unchanged(this) && unchanged(interactions) && unchanged(bus)
      ensures !old(hasStarted) ==>
                && hasStarted && State() == old(State()) && pointerObservers == old(pointerObservers) + 1
                && bus.State() == EventBus.Subscribe(old(bus.State()), "player_moved", MovementHandler)
                && CluesRegistered(interactions.interactables, old(interactions.interactables), meshes)
      ensures interactions.inventory == old(interactions.inventory)
      ensures interactions.currentInteractable == old(interactions.currentInteractable)
    {
      if hasStarted {
        return;
      }
      hasStarted := true;
      SetupEnvironmentalClues(meshes);
      SetupTriggers();
    }

    /** `setupEnvironmentalClues`: the guarded registrations, one per clue in
        table order. */
    method SetupEnvironmentalClues(meshes: map<string, Vec3>)
      requires interactions.Valid()
      modifies interactions
      ensures interactions.Valid()
      ensures CluesRegistered(interactions.interactables, old(interactions.interactables), meshes)
      ensures interactions.inventory == old(interactions.inventory)
      ensures interactions.currentInteractable == old(interactions.currentInteractable)
    {
      ghost var base := interactions.interactables;
      CluesNone(base, meshes);
      for n := 0 to |Clues|
        invariant interactions.Valid()
        invariant CluesUpTo(interactions.interactables, base, meshes, n)
        invariant interactions.inventory == old(interactions.inventory)
        invariant interactions.currentInteractable == old(interactions.currentInteractable)
      {
        RegisterClue(n, meshes, base);
      }
    }

    /** One `if (mesh) registerInteractable(mesh, type, data)`, with a data
        object of its own built from the clue's literal. The registry is
        keyed by `mesh.id`; a mesh loaded from a scene file has its name as
        its id, so the clue sits under `Named` of the mesh name. */
    method RegisterClue(n: nat, meshes: map<string, Vec3>, ghost base: map<MeshId, Interactable>)
      requires n < |Clues| && interactions.Valid()
      requires CluesUpTo(interactions.interactables, base, meshes, n)
      modifies interactions
      ensures interactions.Valid()
      ensures CluesUpTo(interactions.interactables, base, meshes, n + 1)
      ensures interactions.inventory == old(interactions.inventory)
      ensures interactions.currentInteractable == old(interactions.currentInteractable)
    {
      if Clues[n].mesh in meshes {
        RegisterPresentClue(n, meshes, base);
      } else {
        ClueSkip(interactions.interactables, base, meshes, n);
      }
    }

    /** The registration itself, for a clue whose mesh the scene has. */
    method RegisterPresentClue(n: nat, meshes: map<string, Vec3>, ghost base: map<MeshId, Interactable>)
      requires n < |Clues| && Clues[n].mesh in meshes && interactions.Valid()
      requires CluesUpTo(interactions.interactables, base, meshes, n)
      modifies interactions
      ensures interactions.Valid()
      ensures CluesUpTo(interactions.interactables, base, meshes, n + 1)
      ensures interactions.inventory == old(interactions.inventory)
      ensures interactions.currentInteractable == old(interactions.currentInteractable)
    {
      ghost var before := interactions.interactables;
      var clue := Clues[n];
      var data := new DataObject(clue.data);
      var it := interactions.RegisterInteractable(Named(clue.mesh), clue.kind, meshes[clue.mesh], data);
      assert ClueAt(it, n, meshes);
      ClueStep(before, interactions.interactables, base, meshes, n, it);
    }

    /** `setupTriggers`. */
    method SetupTriggers()
      modifies this`pointerObservers, bus
      ensures pointerObservers == old(pointerObservers) + 1
      ensures bus.State() == EventBus.Subscribe(old(bus.State()), "player_moved", MovementHandler)
    {
      pointerObservers := pointerObservers + 1;
      bus.On("player_moved", MovementHandler);
    }

    /** The `player_moved` callback's body. */
    method OnPlayerMoved()
      modifies this
      ensures State() == Moved(old(State()))
      ensures hasStarted == old(hasStarted) && pointerObservers == old(pointerObservers)
    {
      stepCount := stepCount + 1;
      if stepCount == 3 && !firstMovement {
        firstMovement := true;
        sounds := sounds + [DoorSlam];
      }
    }

    /** The pointer observer's body; `picked` names the picked mesh, if any. */
    method OnPointer(picked: Option<string>)
      modifies this
      ensures State() == Pointed(old(State()), picked)
      ensures hasStarted == old(hasStarted) && pointerObservers == old(pointerObservers)
    {
      if picked == Some(Recorder) && !objectLook {
        objectLook := true;
        sounds := sounds + [Static];
      }
    }
  }

  /** The ids the first `n` clues are registered under, given the meshes
      the scene has. */
  function ClueIds(meshes: map<string, Vec3>, n: nat): set<MeshId>
    requires n <= |Clues|
  {
    set i | 0 <= i < n && Clues[i].mesh in meshes :: Named(Clues[i].mesh)
  }

  lemma ClueIdsSnoc(meshes: map<string, Vec3>, n: nat)
    requires n < |Clues|
    ensures ClueIds(meshes, n + 1) == ClueIds(meshes, n) + (if Clues[n].mesh in meshes then {Named(Clues[n].mesh)} else {})
    ensures Named(Clues[n].mesh) !in ClueIds(meshes, n)
  {
  }

  /** The registry after the first `n` guarded registrations: each of those
      clues whose mesh the scene has is registered under the mesh's name
      with its type, data and the mesh's position; every other entry is
      unchanged. */
  ghost predicate CluesUpTo(reg: map<MeshId, Interactable>, base: map<MeshId, Interactable>,
                            meshes: map<string, Vec3>, n: nat)
    requires n <= |Clues|
    reads reg.Values, set it | it in reg.Values :: it.data
  {
    && reg.Keys == base.Keys + ClueIds(meshes, n)
    && (forall id :: id in base && id !in ClueIds(meshes, n) ==> reg[id] == base[id])
    && (forall i :: 0 <= i < n && Clues[i].mesh in meshes ==> ClueAt(reg[Named(Clues[i].mesh)], i, meshes))
  }

  /** `it` is clue `i` as registered: its type, a data object holding its
      literal, the mesh's position, active. */
  ghost predicate ClueAt(it: Interactable, i: nat, meshes: map<string, Vec3>)
    requires i < |Clues| && Clues[i].mesh in meshes
    reads it, it.data
  {
    it.kind == Clues[i].kind && it.data.fields == Clues[i].data && it.position == meshes[Clues[i].mesh] && it.isActive
  }

  /** Registering clue `n` keeps `CluesUpTo` for one more clue. */
  lemma ClueStep(before: map<MeshId, Interactable>, after: map<MeshId, Interactable>,
                 base: map<MeshId, Interactable>, meshes: map<string, Vec3>, n: nat, it: Interactable)
    requires n < |Clues| && Clues[n].mesh in meshes
    requires CluesUpTo(before, base, meshes, n)
    requires after == before[Named(Clues[n].mesh) := it]
    requires ClueAt(it, n, meshes)
    ensures CluesUpTo(after, base, meshes, n + 1)
  {
    ClueIdsSnoc(meshes, n);
    forall i | 0 <= i < n && Clues[i].mesh in meshes
      ensures after[Named(Clues[i].mesh)] == before[Named(Clues[i].mesh)]
    {
      assert Named(Clues[i].mesh) in ClueIds(meshes, n);
    }
  }

  /** Before any registration the registry is its own base. */
  lemma CluesNone(reg: map<MeshId, Interactable>, meshes: map<string, Vec3>)
    ensures CluesUpTo(reg, reg, meshes, 0)
  {
    assert ClueIds(meshes, 0) == {};
  }

  /** A clue whose mesh the scene lacks leaves `CluesUpTo` holding for one
      more clue. */
  lemma ClueSkip(reg: map<MeshId, Interactable>, base: map<MeshId, Interactable>,
                 meshes: map<string, Vec3>, n: nat)
    requires n < |Clues| && Clues[n].mesh !in meshes
    requires CluesUpTo(reg, base, meshes, n)
    ensures CluesUpTo(reg, base, meshes, n + 1)
  {
    ClueIdsSnoc(meshes, n);
  }

  /** The registry after `setupEnvironmentalClues`. */
  ghost predicate CluesRegistered(reg: map<MeshId, Interactable>, base: map<MeshId, Interactable>,
                                  meshes: map<string, Vec3>)
    reads reg.Values, set it | it in reg.Values :: it.data
  {
    CluesUpTo(reg, base, meshes, |Clues|)
  }
}
