/** The progress record kept by the event system (`gameState`) and its
    transition table: which emitted event changes which field. */
module GameStates {
  import opened Values

  const KeyCollected := "key_collected"
  const NoteRead := "note_read"
  const GeneratorStarted := "generator_started"
  const PowerRestored := "power_restored"
  const EntityEncounter := "entity_encounter"
  const AreaEntered := "area_entered"
  const StoryTrigger := "story_trigger"

  /** One emitted event: its name and the payload object passed to `emit`. */
  datatype Event = Event(name: string, data: Payload)

  /** `currentArea` holds whatever `data.area` was, undefined included. */
  datatype GameState = GameState(
    keysCollected: nat,
    notesRead: nat,
    generatorStarted: bool,
    powerRestored: bool,
    entityEncounters: nat,
    currentArea: Value)

  /** The record the constructor builds. */
  const Initial := GameState(0, 0, false, false, 0, Str("entrance"))

  /** The event names the transition table reacts to. */
  predicate Tracked(name: string) {
    name in {KeyCollected, NoteRead, GeneratorStarted, PowerRestored, EntityEncounter, AreaEntered}
  }

  /** `updateGameState`: the one field an event name owns changes, every other
      field keeps its value, and an untracked name changes nothing. */
  function Apply(s: GameState, e: Event): (t: GameState)
    ensures !Tracked(e.name) ==> t == s
    ensures t.keysCollected == s.keysCollected + (if e.name == KeyCollected then 1 else 0)
    ensures t.notesRead == s.notesRead + (if e.name == NoteRead then 1 else 0)
    ensures t.entityEncounters == s.entityEncounters + (if e.name == EntityEncounter then 1 else 0)
    ensures t.generatorStarted == (s.generatorStarted || e.name == GeneratorStarted)
    ensures t.powerRestored == (s.powerRestored || e.name == PowerRestored)
    ensures t.currentArea == if e.name == AreaEntered then Get(e.data, "area") else s.currentArea
  {
    match e.name
    case "key_collected" => s.(keysCollected := s.keysCollected + 1)
    case "note_read" => s.(notesRead := s.notesRead + 1)
    case "generator_started" => s.(generatorStarted := true)
    case "power_restored" => s.(powerRestored := true)
    case "entity_encounter" => s.(entityEncounters := s.entityEncounters + 1)
    case "area_entered" => s.(currentArea := Get(e.data, "area"))
    case _ => s
  }

  /** The state reached by applying a log of events in order. */
  function ApplyAll(s: GameState, log: seq<Event>): GameState
    decreases |log|
  {
    if log == [] then s else ApplyAll(Apply(s, log[0]), log[1..])
  }

  /** How many events of a log carry the given name. */
  function Count(log: seq<Event>, name: string): nat {
    if log == [] then 0 else (if log[0].name == name then 1 else 0) + Count(log[1..], name)
  }

  /** Whether some event of a log carries the given name. */
  predicate Occurs(log: seq<Event>, name: string) {
    exists i :: 0 <= i < |log| && log[i].name == name
  }

  /** The area named by the last `area_entered` of a log, if there is one. */
  function LastArea(log: seq<Event>, otherwise: Value): Value
    decreases |log|
  {
    if log == [] then otherwise
    else if log[|log| - 1].name == AreaEntered then Get(log[|log| - 1].data, "area")
    else LastArea(log[..|log| - 1], otherwise)
  }

  lemma {:induction false} ApplyAllAppend(s: GameState, a: seq<Event>, b: seq<Event>)
    ensures ApplyAll(s, a + b) == ApplyAll(ApplyAll(s, a), b)
    decreases |a|
  {
    if a != [] {
      assert (a + b)[0] == a[0] && (a + b)[1..] == a[1..] + b;
      ApplyAllAppend(Apply(s, a[0]), a[1..], b);
    } else {
      assert a + b == b;
    }
  }

  lemma {:induction false} CountAppend(a: seq<Event>, b: seq<Event>, name: string)
    ensures Count(a + b, name) == Count(a, name) + Count(b, name)
    decreases |a|
  {
    if a != [] {
      assert (a + b)[0] == a[0] && (a + b)[1..] == a[1..] + b;
      CountAppend(a[1..], b, name);
    } else {
      assert a + b == b;
    }
  }

  lemma OccursSnoc(front: seq<Event>, last: Event, name: string)
    ensures Occurs(front + [last], name) == (Occurs(front, name) || last.name == name)
  {
    var log := front + [last];
    if last.name == name { assert log[|front|].name == name; }
    if Occurs(log, name) && last.name != name {
      var i :| 0 <= i < |log| && log[i].name == name;
      assert front[i].name == name;
    }
    if Occurs(front, name) {
      var i :| 0 <= i < |front| && front[i].name == name;
      assert log[i].name == name;
    }
  }

  /** Replaying a log: each counter grows by the number of its events, each
      flag is set iff it was set or its event occurs, and the area is the one
      named by the last `area_entered`. */
  lemma {:induction false} ReplayFields(s: GameState, log: seq<Event>)
    ensures ApplyAll(s, log).keysCollected == s.keysCollected + Count(log, KeyCollected)
    ensures ApplyAll(s, log).notesRead == s.notesRead + Count(log, NoteRead)
    ensures ApplyAll(s, log).entityEncounters == s.entityEncounters + Count(log, EntityEncounter)
    ensures ApplyAll(s, log).generatorStarted == (s.generatorStarted || Occurs(log, GeneratorStarted))
    ensures ApplyAll(s, log).powerRestored == (s.powerRestored || Occurs(log, PowerRestored))
    ensures ApplyAll(s, log).currentArea == LastArea(log, s.currentArea)
    decreases |log|
  {
    if log != [] {
      var n := |log| - 1;
      var front, last := log[..n], log[n];
      assert log == front + [last];
      ApplyAllAppend(s, front, [last]);
      CountAppend(front, [last], KeyCollected);
      CountAppend(front, [last], NoteRead);
      CountAppend(front, [last], EntityEncounter);
      ReplayFields(s, front);
      OccursSnoc(front, last, GeneratorStarted);
      OccursSnoc(front, last, PowerRestored);
    }
  }

  /** Events outside the table leave the state alone however many there are. */
  lemma {:induction false} ReplayUntracked(s: GameState, log: seq<Event>)
    requires forall i :: 0 <= i < |log| ==> !Tracked(log[i].name)
    ensures ApplyAll(s, log) == s
    decreases |log|
  {
    if log != [] {
      ReplayUntracked(s, log[1..]);
    }
  }

  /** The fields `setGameState` may be given; an absent one is `None`. */
  datatype StatePatch = StatePatch(
    keysCollected: Option<nat>,
    notesRead: Option<nat>,
    generatorStarted: Option<bool>,
    powerRestored: Option<bool>,
    entityEncounters: Option<nat>,
    currentArea: Option<Value>)

  const EmptyPatch := StatePatch(None, None, None, None, None, None)

  function Pick<T>(given: Option<T>, kept: T): (r: T)
  {
    if given.Some? then given.value else kept
  }

  /** `{ ...gameState, ...newState }`: given fields win, the others are kept. */
  function Merge(s: GameState, p: StatePatch): (t: GameState)
    ensures p == EmptyPatch ==> t == s
    ensures p.keysCollected.None? ==> t.keysCollected == s.keysCollected
    ensures p.keysCollected.Some? ==> t.keysCollected == p.keysCollected.value
    ensures p.notesRead.None? ==> t.notesRead == s.notesRead
    ensures p.notesRead.Some? ==> t.notesRead == p.notesRead.value
    ensures p.generatorStarted.None? ==> t.generatorStarted == s.generatorStarted
    ensures p.generatorStarted.Some? ==> t.generatorStarted == p.generatorStarted.value
    ensures p.powerRestored.None? ==> t.powerRestored == s.powerRestored
    ensures p.powerRestored.Some? ==> t.powerRestored == p.powerRestored.value
    ensures p.entityEncounters.None? ==> t.entityEncounters == s.entityEncounters
    ensures p.entityEncounters.Some? ==> t.entityEncounters == p.entityEncounters.value
    ensures p.currentArea.None? ==> t.currentArea == s.currentArea
    ensures p.currentArea.Some? ==> t.currentArea == p.currentArea.value
  {
    GameState(
      Pick(p.keysCollected, s.keysCollected),
      Pick(p.notesRead, s.notesRead),
      Pick(p.generatorStarted, s.generatorStarted),
      Pick(p.powerRestored, s.powerRestored),
      Pick(p.entityEncounters, s.entityEncounters),
      Pick(p.currentArea, s.currentArea))
  }

  /** Merging the same patch twice is merging it once. */
  lemma MergeIdempotent(s: GameState, p: StatePatch)
    ensures Merge(Merge(s, p), p) == Merge(s, p)
  {
  }
}
