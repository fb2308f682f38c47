/** `EventSystem`: the listener map, the progress record and the timers as
    fields that its methods update in place. Each method is proved to leave the
    fields as the matching function of `EventBus` says. */
module Events {
  import opened Values
  import opened GameStates
  import opened EventBus

  class EventSystem {
    var listeners: map<string, seq<Handler>>
    var gameState: GameState
    /** Which callbacks raise when called (they stand for arbitrary code). */
    const throwing: set<Handler>
    /** The event loop's clock, in milliseconds. */
    var now: nat
    /** What `console.log` records: every emitted event, in order. */
    var trace: seq<Event>
    /** Every listener call, with whether it threw and was logged. */
    var calls: seq<Call>
    /** Callbacks handed to `setTimeout` that have not run yet. */
    var pending: seq<Timer>

    function State(): Bus
      reads this
    {
      Bus(listeners, gameState, throwing, now, trace, calls, pending)
    }

    constructor (throwing: set<Handler>)
      ensures State() == NewBus(throwing)
      ensures gameState == Initial
    {
      listeners := map[];
      gameState := Initial;
      this.throwing := throwing;
      now := 0;
      trace := [];
      calls := [];
      pending := [];
    }

    method On(name: string, callback: Handler)
      modifies this
      ensures State() == Subscribe(old(State()), name, callback)
    {
      if name !in listeners {
        listeners := listeners[name := []];
      }
      listeners := listeners[name := listeners[name] + [callback]];
    }

    method Off(name: string, callback: Handler)
      modifies this
      ensures State() == Unsubscribe(old(State()), name, callback)
    {
      if name in listeners {
        var callbacks := listeners[name];
        var index := IndexOf(callbacks, callback);
        if index > -1 {
          listeners := listeners[name := callbacks[..index] + callbacks[index + 1..]];
        }
      }
    }

    method Emit(e: Event)
      modifies this
      ensures State() == EventBus.Emit(old(State()), e)
      decreases Rank(e.name), 1
    {
      trace := trace + [e];
      UpdateGameState(e);
      var callbacks := ListenersOf(listeners, e.name);
      var i := 0;
      while i < |callbacks|
        invariant 0 <= i <= |callbacks|
        invariant calls == old(calls) + Deliver(callbacks[..i], e, throwing)
        invariant listeners == old(listeners) && pending == old(pending) && now == old(now)
        invariant trace == old(trace) + [e] && gameState == Apply(old(gameState), e)
      {
        assert Deliver(callbacks[..i + 1], e, throwing)
            == Deliver(callbacks[..i], e, throwing) + [Call(callbacks[i], e, callbacks[i] in throwing)];
        calls := calls + [Call(callbacks[i], e, callbacks[i] in throwing)];
        i := i + 1;
      }
      assert callbacks[..i] == callbacks;
      CheckStoryProgression(e);
    }

    method UpdateGameState(e: Event)
      modifies this
      ensures gameState == Apply(old(gameState), e)
      ensures State() == old(State()).(state := gameState)
    {
      match e.name
      case "key_collected" => gameState := gameState.(keysCollected := gameState.keysCollected + 1);
      case "note_read" => gameState := gameState.(notesRead := gameState.notesRead + 1);
      case "generator_started" => gameState := gameState.(generatorStarted := true);
      case "power_restored" => gameState := gameState.(powerRestored := true);
      case "entity_encounter" => gameState := gameState.(entityEncounters := gameState.entityEncounters + 1);
      case "area_entered" => gameState := gameState.(currentArea := Get(e.data, "area"));
      case _ =>
    }

    method CheckStoryProgression(e: Event)
      modifies this
      ensures State() == EventBus.CheckStoryProgression(old(State()), e)
      decreases Rank(e.name), 0
    {
      if e.name == KeyCollected && gameState.keysCollected == 1 {
        pending := pending + [Timer(now + 2000, [Story("entity_introduction", EntityIntroductionMessage)])];
      }
      if e.name == NoteRead && gameState.notesRead == 1 {
        Emit(Story("backstory_reveal", BackstoryMessage));
      }
      if e.name == GeneratorStarted {
        pending := pending + [Timer(now + 3000, [Event(PowerRestored, map[]), Story("power_restored", PowerRestoredMessage)])];
      }
      if e.name == EntityEncounter && gameState.entityEncounters >= 3 {
        Emit(Story("entity_aggressive", EntityAggressiveMessage));
      }
      if e.name == AreaEntered && Get(e.data, "area") == Str("restricted") {
        Emit(Story("chase_sequence", ChaseMessage));
      }
    }

    /** `getGameState`: a copy; being a value, no change to it reaches the store. */
    method GetGameState() returns (s: GameState)
      ensures s == gameState
    {
      s := gameState;
    }

    /** `setGameState`: the given fields overwrite, the others are kept. */
    method SetGameState(patch: StatePatch)
      modifies this
      ensures gameState == Merge(old(gameState), patch)
      ensures State() == old(State()).(state := gameState)
    {
      gameState := Merge(gameState, patch);
    }

    /** Time passes on the event loop. */
    method Elapse(ms: nat)
      modifies this
      ensures State() == EventBus.Elapse(old(State()), ms)
    {
      now := now + ms;
    }

    /** The event loop runs the next due `setTimeout` callback. */
    method RunDueTimer()
      requires Due(State())
      modifies this
      ensures State() == RunTimer(old(State()))
    {
      var index := Earliest(pending);
      var events := pending[index].events;
      ghost var dequeued := State().(pending := pending[..index] + pending[index + 1..]);
      pending := pending[..index] + pending[index + 1..];
      assert State() == dequeued;
      EmitEach(events);
    }

    /** A timer callback's body: its events emitted one after the other. */
    method EmitEach(events: seq<Event>)
      modifies this
      ensures State() == EmitAll(old(State()), events)
      decreases |events|
    {
      if events != [] {
        Emit(events[0]);
        EmitEach(events[1..]);
      }
    }
  }
}
