/** The event system as values: the listener table, the progress record, the
    story rules that `emit` evaluates after its listeners, and the timers the
    delayed rules schedule with `setTimeout`. The class `Events.EventSystem`
    is proved to change its fields exactly as these functions say. */
module EventBus {
  import opened Values
  import opened GameStates

  /** A registered callback, known only by identity. */
  type Handler = nat

  /** One call of a listener; `threw` records that it raised and was logged. */
  datatype Call = Call(handler: Handler, event: Event, threw: bool)

  /** A pending `setTimeout` callback: when it is due and what it emits. */
  datatype Timer = Timer(due: nat, events: seq<Event>)

  /** Everything `emit` reads or changes. `trace` lists every emitted event in
      the order `emit` was entered, `calls` every listener call, `pending` the
      scheduled timers in scheduling order, `now` the clock in milliseconds,
      `throwing` the callbacks that raise when called. */
  datatype Bus = Bus(
    listeners: map<string, seq<Handler>>,
    state: GameState,
    throwing: set<Handler>,
    now: nat,
    trace: seq<Event>,
    calls: seq<Call>,
    pending: seq<Timer>)

  /** A fresh event system: no listeners, nothing emitted or scheduled. */
  function NewBus(throwing: set<Handler>): Bus {
    Bus(map[], Initial, throwing, 0, [], [], [])
  }

  function ListenersOf(listeners: map<string, seq<Handler>>, name: string): seq<Handler> {
    if name in listeners then listeners[name] else []
  }

  // ---------------------------------------------------------------- on / off

  /** `on`: the callback goes to the end of the list for that name. */
  function Subscribe(b: Bus, name: string, h: Handler): (r: Bus)
    ensures ListenersOf(r.listeners, name) == ListenersOf(b.listeners, name) + [h]
    ensures forall n :: n != name ==> ListenersOf(r.listeners, n) == ListenersOf(b.listeners, n)
    ensures r.(listeners := b.listeners) == b
  {
    b.(listeners := b.listeners[name := ListenersOf(b.listeners, name) + [h]])
  }

  /** `Array.prototype.indexOf`: the first position holding `h`, or -1. */
  function IndexOf(s: seq<Handler>, h: Handler): (i: int)
    ensures -1 <= i < |s|
    ensures i == -1 <==> h !in s
    ensures 0 <= i ==> s[i] == h && h !in s[..i]
  {
    if s == [] then -1
    else if s[0] == h then 0
    else
      var j := IndexOf(s[1..], h);
      if j == -1 then -1 else j + 1
  }

  /** `off`: splice out the first occurrence of the callback, if the name has
      a list and the callback is in it; otherwise nothing changes. */
  function Unsubscribe(b: Bus, name: string, h: Handler): (r: Bus)
    ensures r.(listeners := b.listeners) == b
    ensures forall n :: n != name ==> ListenersOf(r.listeners, n) == ListenersOf(b.listeners, n)
  {
    if name in b.listeners then
      var callbacks := b.listeners[name];
      var index := IndexOf(callbacks, h);
      if index > -1 then
        b.(listeners := b.listeners[name := callbacks[..index] + callbacks[index + 1..]])
      else b
    else b
  }

  /** `off` removes exactly the first occurrence: what came before it and what
      came after it keep their order, and an absent callback or an unknown
      name leaves the table as it was. */
  lemma UnsubscribeRemovesFirst(b: Bus, name: string, h: Handler)
    ensures var s := ListenersOf(b.listeners, name);
            var t := ListenersOf(Unsubscribe(b, name, h).listeners, name);
            if h in s then
              exists i :: 0 <= i < |s| && s[i] == h && h !in s[..i] && t == s[..i] + s[i + 1..]
            else Unsubscribe(b, name, h) == b
  {
    var s := ListenersOf(b.listeners, name);
    if h in s {
      var i := IndexOf(s, h);
      assert s[i] == h && h !in s[..i];
    }
  }

  /** `on` then `off` of a callback not yet registered gives back the same
      list for every name. */
  lemma {:induction false} UnsubscribeUndoesSubscribe(b: Bus, name: string, h: Handler)
    requires h !in ListenersOf(b.listeners, name)
    ensures forall n :: ListenersOf(Unsubscribe(Subscribe(b, name, h), name, h).listeners, n)
                     == ListenersOf(b.listeners, n)
  {
    var s := ListenersOf(b.listeners, name);
    var i := IndexOf(s + [h], h);
    assert (s + [h])[|s|] == h;
    assert forall k :: 0 <= k < |s| ==> (s + [h])[k] == s[k];
    assert (s + [h])[..i] == s;
  }

  /** Registering the same callback twice makes it run twice per emission. */
  lemma SubscribeTwiceRunsTwice(b: Bus, name: string, h: Handler)
    ensures var s := ListenersOf(Subscribe(Subscribe(b, name, h), name, h).listeners, name);
            |s| == |ListenersOf(b.listeners, name)| + 2 && s[|s| - 1] == h && s[|s| - 2] == h
  {
  }

  // ---------------------------------------------------------------- emit

  /** The calls `forEach` makes: each listener in order, each caught if it throws. */
  function Deliver(hs: seq<Handler>, e: Event, throwing: set<Handler>): seq<Call> {
    seq(|hs|, i requires 0 <= i < |hs| => Call(hs[i], e, hs[i] in throwing))
  }

  /** The listener calls of several emissions, one after the other. */
  function DeliverEach(listeners: map<string, seq<Handler>>, evs: seq<Event>, throwing: set<Handler>): seq<Call>
    decreases |evs|
  {
    if evs == [] then []
    else Deliver(ListenersOf(listeners, evs[0].name), evs[0], throwing) + DeliverEach(listeners, evs[1..], throwing)
  }

  const EntityIntroductionMessage := "You hear a faint whisper echoing through the halls..."
  const BackstoryMessage := "The experiments... they went too far..."
  const PowerRestoredMessage := "Emergency lighting activated. Exit route available."
  const EntityAggressiveMessage := "It knows you're here. RUN."
  const ChaseMessage := "UNAUTHORIZED ACCESS DETECTED"

  /** `emit('story_trigger', { type, message })`. */
  function Story(kind: string, message: string): Event {
    Event(StoryTrigger, map["type" := Str(kind), "message" := Str(message)])
  }

  /** The story rules read as a table: the beats emitted at once after an
      event, given the state the event produced. */
  function ImmediateBeats(e: Event, s: GameState): (r: seq<Event>)
    ensures |r| <= 1
    ensures forall i :: 0 <= i < |r| ==> r[i].name == StoryTrigger
    ensures e.name == StoryTrigger ==> r == []
  {
    if e.name == NoteRead && s.notesRead == 1 then [Story("backstory_reveal", BackstoryMessage)]
    else if e.name == EntityEncounter && s.entityEncounters >= 3 then [Story("entity_aggressive", EntityAggressiveMessage)]
    else if e.name == AreaEntered && Get(e.data, "area") == Str("restricted") then [Story("chase_sequence", ChaseMessage)]
    else []
  }

  /** The same table's delayed rows: the timers an event schedules. */
  function DelayedBeats(e: Event, s: GameState, now: nat): (r: seq<Timer>)
    ensures |r| <= 1
    ensures forall i :: 0 <= i < |r| ==> r[i].due >= now + 2000 && r[i].events != []
    ensures e.name == StoryTrigger ==> r == []
  {
    if e.name == KeyCollected && s.keysCollected == 1 then
      [Timer(now + 2000, [Story("entity_introduction", EntityIntroductionMessage)])]
    else if e.name == GeneratorStarted then
      [Timer(now + 3000, [Event(PowerRestored, map[]), Story("power_restored", PowerRestoredMessage)])]
    else []
  }

  /** Orders the emissions: `story_trigger` is the only name a rule emits, and no
      rule matches it. */
  function Rank(name: string): nat {
    if name == StoryTrigger then 0 else 1
  }

  function Schedule(b: Bus, delay: nat, evs: seq<Event>): Bus {
    b.(pending := b.pending + [Timer(b.now + delay, evs)])
  }

  /** `emit`: update the state first, then call the listeners in registration
      order (a throwing one is caught and the rest still run), then evaluate
      the story rules with the updated state. */
  function Emit(b: Bus, e: Event): (r: Bus)
    ensures r.state == Apply(b.state, e)
    ensures r.trace == b.trace + [e] + ImmediateBeats(e, r.state)
    ensures r.calls == b.calls + Deliver(ListenersOf(b.listeners, e.name), e, b.throwing)
                              + DeliverEach(b.listeners, ImmediateBeats(e, r.state), b.throwing)
    ensures r.pending == b.pending + DelayedBeats(e, r.state, b.now)
    ensures r.listeners == b.listeners && r.throwing == b.throwing && r.now == b.now
    decreases Rank(e.name), 1
  {
    var updated := b.(state := Apply(b.state, e));
    var notified := updated.(calls := b.calls + Deliver(ListenersOf(b.listeners, e.name), e, b.throwing),
                             trace := b.trace + [e]);
    CheckStoryProgression(notified, e)
  }

  /** `checkStoryProgression`: the five rules in the order the source lists them. */
  function CheckStoryProgression(b: Bus, e: Event): (r: Bus)
    ensures r.state == b.state
    ensures r.trace == b.trace + ImmediateBeats(e, b.state)
    ensures r.calls == b.calls + DeliverEach(b.listeners, ImmediateBeats(e, b.state), b.throwing)
    ensures r.pending == b.pending + DelayedBeats(e, b.state, b.now)
    ensures r.listeners == b.listeners && r.throwing == b.throwing && r.now == b.now
    decreases Rank(e.name), 0
  {
    var b1 := if e.name == KeyCollected && b.state.keysCollected == 1
              then Schedule(b, 2000, [Story("entity_introduction", EntityIntroductionMessage)]) else b;
    var b2 := if e.name == NoteRead && b1.state.notesRead == 1
              then Emit(b1, Story("backstory_reveal", BackstoryMessage)) else b1;
    var b3 := if e.name == GeneratorStarted
              then Schedule(b2, 3000, [Event(PowerRestored, map[]), Story("power_restored", PowerRestoredMessage)]) else b2;
    var b4 := if e.name == EntityEncounter && b3.state.entityEncounters >= 3
              then Emit(b3, Story("entity_aggressive", EntityAggressiveMessage)) else b3;
    if e.name == AreaEntered && Get(e.data, "area") == Str("restricted")
    then Emit(b4, Story("chase_sequence", ChaseMessage)) else b4
  }

  /** Several emissions in a row. */
  function EmitAll(b: Bus, evs: seq<Event>): Bus
    decreases |evs|
  {
    if evs == [] then b else EmitAll(Emit(b, evs[0]), evs[1..])
  }

  /** Emitting one more event after a run of emissions. */
  lemma {:induction false} EmitAllSnoc(b: Bus, evs: seq<Event>, e: Event)
    ensures EmitAll(b, evs + [e]) == Emit(EmitAll(b, evs), e)
    decreases |evs|
  {
    if evs == [] {
      assert [e][1..] == [];
    } else {
      assert (evs + [e])[0] == evs[0] && (evs + [e])[1..] == evs[1..] + [e];
      EmitAllSnoc(Emit(b, evs[0]), evs[1..], e);
    }
  }

  // ---------------------------------------------------------------- timers

  /** The timer the event loop runs next: the earliest due, the first
      scheduled among equals. */
  function Earliest(ts: seq<Timer>): (i: nat)
    requires ts != []
    ensures i < |ts|
    ensures forall j :: 0 <= j < |ts| ==> ts[i].due <= ts[j].due
    ensures forall j :: 0 <= j < i ==> ts[j].due > ts[i].due
  {
    if |ts| == 1 then 0
    else
      var k := Earliest(ts[1..]) + 1;
      if ts[0].due <= ts[k].due then 0 else k
  }

  /** Some timer has reached its due time. */
  predicate Due(b: Bus) {
    b.pending != [] && b.pending[Earliest(b.pending)].due <= b.now
  }

  /** Time passes without anything being emitted. */
  function Elapse(b: Bus, ms: nat): (r: Bus)
    ensures r.now == b.now + ms && r.(now := b.now) == b
  {
    b.(now := b.now + ms)
  }

  /** The event loop runs the next due timer: it leaves the queue and its
      callback emits its events one after the other. */
  function RunTimer(b: Bus): (r: Bus)
    requires Due(b)
  {
    var i := Earliest(b.pending);
    EmitAll(b.(pending := b.pending[..i] + b.pending[i + 1..]), b.pending[i].events)
  }

  // ---------------------------------------------------------------- properties

  /** A story beat re-enters `emit` but changes no field and triggers no rule. */
  lemma StoryTriggerIsInert(b: Bus, kind: string, message: string)
    ensures Emit(b, Story(kind, message)).state == b.state
    ensures Emit(b, Story(kind, message)).pending == b.pending
    ensures Emit(b, Story(kind, message)).trace == b.trace + [Story(kind, message)]
  {
  }

  /** Emitting several events leaves the state that folding the transition
      table over them gives, whatever the listeners are and whichever throw. */
  lemma {:induction false} EmitAllState(b: Bus, evs: seq<Event>)
    ensures EmitAll(b, evs).state == ApplyAll(b.state, evs)
    ensures EmitAll(b, evs).listeners == b.listeners
    ensures EmitAll(b, evs).now == b.now
    decreases |evs|
  {
    if evs != [] {
      EmitAllState(Emit(b, evs[0]), evs[1..]);
    }
  }

  /** Every state is the replay of the trace: the state is what the transition
      table gives when folded over every event emitted since `s0`. */
  ghost predicate Replays(b: Bus, s0: GameState) {
    b.state == ApplyAll(s0, b.trace)
  }

  lemma {:induction false} BeatsAreInert(s: GameState, e: Event, t: GameState)
    ensures ApplyAll(s, ImmediateBeats(e, t)) == s
  {
    var beats := ImmediateBeats(e, t);
    if beats != [] {
      assert beats[1..] == [];
      assert !Tracked(beats[0].name);
    }
  }

  lemma {:induction false} EmitReplays(b: Bus, e: Event, s0: GameState)
    requires Replays(b, s0)
    ensures Replays(Emit(b, e), s0)
  {
    var r := Emit(b, e);
    var beats := ImmediateBeats(e, r.state);
    assert r.trace == b.trace + ([e] + beats);
    ApplyAllAppend(s0, b.trace, [e] + beats);
    assert ([e] + beats)[0] == e && ([e] + beats)[1..] == beats;
    BeatsAreInert(Apply(b.state, e), e, r.state);
  }

  lemma {:induction false} EmitAllReplays(b: Bus, evs: seq<Event>, s0: GameState)
    requires Replays(b, s0)
    ensures Replays(EmitAll(b, evs), s0)
    decreases |evs|
  {
    if evs != [] {
      EmitReplays(b, evs[0], s0);
      EmitAllReplays(Emit(b, evs[0]), evs[1..], s0);
    }
  }

  /** Running a timer keeps the replay property too. */
  lemma RunTimerReplays(b: Bus, s0: GameState)
    requires Due(b) && Replays(b, s0)
    ensures Replays(RunTimer(b), s0)
  {
    var i := Earliest(b.pending);
    EmitAllReplays(b.(pending := b.pending[..i] + b.pending[i + 1..]), b.pending[i].events, s0);
  }

  /** Only the key that makes the count one schedules the introduction, 2000 ms
      later; every generator start schedules the power sequence, 3000 ms later. */
  lemma DelayedRules(b: Bus, e: Event)
    ensures var r := Emit(b, e);
            (e.name == KeyCollected ==>
               (|r.pending| == |b.pending| + 1 <==> b.state.keysCollected == 0))
            && (e.name == GeneratorStarted ==>
               r.pending == b.pending + [Timer(b.now + 3000, [Event(PowerRestored, map[]),
                                                              Story("power_restored", PowerRestoredMessage)])])
  {
  }

  /** Scenario: after `generator_started` and 3000 ms, the timer emits exactly
      `power_restored` and then the matching story beat, and power is on. */
  lemma {:induction false} PowerRestoredAfterDelay(b: Bus, data: Payload)
    requires b.pending == []
    ensures var started := Emit(b, Event(GeneratorStarted, data));
            var later := Elapse(started, 3000);
            Due(later) &&
            var r := RunTimer(later);
            r.trace == started.trace + [Event(PowerRestored, map[]), Story("power_restored", PowerRestoredMessage)]
            && r.state.powerRestored && r.state.generatorStarted && r.pending == []
  {
    var started := Emit(b, Event(GeneratorStarted, data));
    var later := Elapse(started, 3000);
    assert later.pending == [Timer(b.now + 3000, [Event(PowerRestored, map[]), Story("power_restored", PowerRestoredMessage)])];
    assert Earliest(later.pending) == 0;
    var emptied := later.(pending := []);
    var evs := later.pending[0].events;
    var first := Emit(emptied, evs[0]);
    assert EmitAll(emptied, evs) == EmitAll(first, evs[1..]);
    var second := Emit(first, evs[1]);
    assert evs[1..][0] == evs[1] && evs[1..][1..] == [];
    assert EmitAll(first, evs[1..]) == second;
  }

  /** Scenario: the third `entity_encounter` and every later one emit the
      aggressive beat right after it; earlier ones emit nothing. */
  lemma EntityAggressiveFromThird(b: Bus, data: Payload)
    ensures var r := Emit(b, Event(EntityEncounter, data));
            r.state.entityEncounters == b.state.entityEncounters + 1
            && (r.trace == b.trace + [Event(EntityEncounter, data)] + [Story("entity_aggressive", EntityAggressiveMessage)]
                <==> b.state.entityEncounters >= 2)
  {
    var e := Event(EntityEncounter, data);
    var r := Emit(b, e);
    if b.state.entityEncounters < 2 {
      assert r.trace == b.trace + [e];
      assert |r.trace| == |b.trace| + 1;
    }
  }
}
