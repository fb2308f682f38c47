# Shadows of Abandoned: the game-logic core in Dafny

This project models the logic layer of the browser horror game "Shadows of
Abandoned". The game draws with Babylon.js; this model covers only the logic
underneath the rendering:

- **Event system** (`EventSystem`). Listeners are kept per event name, and a
  progress record counts keys, notes, encounters, the generator, the power
  and the current area. After every emission, story rules emit
  `story_trigger` beats, some at once and some through `setTimeout`.
- **Interaction manager** (`InteractionManager`). A registry of interactable
  objects is keyed by mesh id. Each frame picks the object the player is
  aiming at. Doors, notes, keys, switches and generators each have their own
  rule, and there is an append-only inventory.
- **Scene manager** (`SceneManager`). Three areas are stored in a fixed
  table. Loading one tears down the previous area, registers the new area's
  objects and announces it. Area trigger zones emit on every frame while the
  player is inside them.
- **Level builder** (`LevelBuilder`). It holds the room and trigger tables,
  the one-shot proximity triggers, the patient-room layout, the material
  table and `dispose`.
- **Opening sequence** (`OpeningSequence`). `start` runs once. It registers
  the three environmental clues. A step counter plays the door slam on the
  third step, and looking at the recorder plays a static cue once.
- **Lockdown**. `lockDoorsInArea` from `EnvironmentManager`.

How the model is built:

- Each part whose source updates state in place is a class with the same
  fields, and its methods carry `modifies` clauses. Each method is proved to
  leave its fields as a pure function of the old state says. The properties
  are then proved about those functions as lemmas.
- Callbacks are opaque handler ids, and a fixed set records which of them
  throw.
- Each `setTimeout` becomes an entry in a pending queue. The event loop's
  clock is an explicit field, and a separate operation runs the next due
  timer.
- The pick ray, the list of meshes a scene has, and `Date.now()` stamps are
  parameters.
- Distances are compared as squared distances over exact reals.

Where a code comment and the code disagree, the model follows the code:

- The comment in `SceneManager.setupTriggers` says a zone is "single use".
  The callback only disposes the zone's sphere and is never unregistered, so
  the zone emits again on every frame the player stands in it. `Scenes.Fired`
  models it that way.

`SetupEnvironmentalClues` is modelled as a loop over the clue table. It
performs the three guarded registrations in the source's order, with the
same guards.

A `data` object is shared by reference in the source: the scene table's
entry, the registry object built from it and the current target all see it.
The model makes it a class, `DataObject`. The scene manager keeps the
table's data objects for its whole life and every load registers those
same objects, so a door unlocked on an earlier visit stays unlocked after a
reload, and a generator started earlier refuses to start again.
`getSceneData` shows them as they stand.

Babylon calls the before-render callbacks of the trigger zones and of the
level's proximity triggers once per frame, in registration order.
`Scenes.SceneManager.TickZones` and `Level.LevelBuilder.TickTriggers` model
one such frame.

## Model

| member | source | states |
|---|---|---|
| GameStates.Apply | src/systems/EventSystem.js:52-73 | each of key_collected, note_read, entity_encounter increments exactly its counter; generator_started and power_restored set their flag; area_entered sets the area to `data.area`; every other name leaves the record unchanged |
| GameStates.ApplyAllAppend | src/systems/EventSystem.js:52-73 | replaying two logs one after the other is replaying their concatenation |
| GameStates.CountAppend | src/systems/EventSystem.js:52-73 | the count of events with a given name is additive over concatenation |
| GameStates.OccursSnoc | src/systems/EventSystem.js:52-73 | an event name occurs in a log extended by one event iff it occurred before or is that event's name |
| GameStates.ReplayFields | src/systems/EventSystem.js:4-11 | from any record, a log leaves each counter raised by the number of its events, each flag set iff it was set or its event occurs, and the area named by the last area_entered |
| GameStates.ReplayUntracked | src/systems/EventSystem.js:52-73 | a log of names outside the transition table leaves the record unchanged |
| GameStates.Merge | src/systems/EventSystem.js:221-223 | `setGameState` overwrites exactly the given fields and keeps every other one; an empty patch changes nothing |
| GameStates.MergeIdempotent | src/systems/EventSystem.js:221-223 | applying the same patch twice equals applying it once |
| EventBus.Subscribe | src/systems/EventSystem.js:14-19 | `on` appends the callback at the end of that name's list (creating it), leaves every other name's list and every other field alone |
| EventBus.IndexOf | src/systems/EventSystem.js:24-25 | -1 iff the callback is absent, otherwise the first position holding it |
| EventBus.Unsubscribe | src/systems/EventSystem.js:21-29 | `off` changes only the named list; other names and fields are untouched |
| EventBus.UnsubscribeRemovesFirst | src/systems/EventSystem.js:21-29 | `off` removes exactly the first occurrence and keeps the rest in order; an absent callback or unknown name leaves the bus unchanged |
| EventBus.UnsubscribeUndoesSubscribe | src/systems/EventSystem.js:14-29 | `on` then `off` of a callback not yet in the list restores every list |
| EventBus.SubscribeTwiceRunsTwice | src/systems/EventSystem.js:14-19 | registering a callback twice puts it in the list twice, so it is called twice per emission |
| EventBus.ImmediateBeats | src/systems/EventSystem.js:86-119 | an event emits at most one immediate beat, always a `story_trigger`, and a `story_trigger` emits none, so the re-entrant emission stops after one level |
| EventBus.DelayedBeats | src/systems/EventSystem.js:76-103 | an event schedules at most one timer, due at least 2000 ms later and carrying events; a `story_trigger` schedules none |
| EventBus.Emit | src/systems/EventSystem.js:31-50 | `emit` first updates the record, then calls every listener of the name in order (a throwing one is logged and the rest still run), then applies the story rules to the updated record; listeners and clock are unchanged |
| EventBus.CheckStoryProgression | src/systems/EventSystem.js:75-120 | the story rules, read against the already-updated record, append exactly the immediate beats to the trace and the delayed beats to the queue, and leave the record unchanged |
| EventBus.EmitAllSnoc | src/systems/EventSystem.js:31-50 | emitting a run of events and then one more is the same as emitting the extended run |
| EventBus.Earliest | src/systems/EventSystem.js:77-103 | the timer the event loop runs next is one with the least due time, the first such in scheduling order |
| EventBus.Elapse | src/systems/EventSystem.js:77-103 | waiting only advances the clock |
| EventBus.StoryTriggerIsInert | src/systems/EventSystem.js:75-120 | a `story_trigger` re-emission changes no field, schedules nothing and matches no rule, so the re-entry terminates |
| EventBus.EmitAllState | src/systems/EventSystem.js:31-73 | a run of emissions leaves the record that folding the transition table over the run gives, and keeps listeners and clock |
| EventBus.BeatsAreInert | src/systems/EventSystem.js:86-119 | replaying the beats a rule emits changes no field of the record |
| EventBus.EmitReplays | src/systems/EventSystem.js:31-120 | after any emission the record is still the replay of every event ever emitted |
| EventBus.EmitAllReplays | src/systems/EventSystem.js:31-120 | the same holds after a run of emissions |
| EventBus.RunTimerReplays | src/systems/EventSystem.js:77-103 | and after a timer callback runs |
| EventBus.DelayedRules | src/systems/EventSystem.js:77-103 | a key_collected schedules a timer iff it makes the count one; every generator_started schedules power_restored then its beat 3000 ms later |
| EventBus.PowerRestoredAfterDelay | src/systems/EventSystem.js:94-103 | after generator_started and 3000 ms the due timer emits exactly power_restored then its story beat, and power is on |
| EventBus.EntityAggressiveFromThird | src/systems/EventSystem.js:105-111 | an encounter emits entity_aggressive right after it iff it is the third or a later one |
| Events.EventSystem.constructor | src/systems/EventSystem.js:2-12 | no listeners, the initial record 0/0/false/false/0/'entrance', nothing emitted or pending |
| Events.EventSystem.On | src/systems/EventSystem.js:14-19 | the new fields are those `Subscribe` gives |
| Events.EventSystem.Off | src/systems/EventSystem.js:21-29 | the new fields are those `Unsubscribe` gives |
| Events.EventSystem.Emit | src/systems/EventSystem.js:31-50 | the in-place update loop leaves exactly the fields `EventBus.Emit` gives |
| Events.EventSystem.UpdateGameState | src/systems/EventSystem.js:52-73 | the record becomes `Apply` of the old one; no other field changes |
| Events.EventSystem.CheckStoryProgression | src/systems/EventSystem.js:75-120 | the new fields are those the functional story rules give |
| Events.EventSystem.GetGameState | src/systems/EventSystem.js:217-219 | returns the record as a value, so no change to the copy reaches the store |
| Events.EventSystem.SetGameState | src/systems/EventSystem.js:221-223 | the record becomes `Merge` of the old one and the patch; no other field changes |
| Events.EventSystem.Elapse | src/systems/EventSystem.js:77-103 | the clock advances and nothing else changes |
| Events.EventSystem.RunDueTimer | src/systems/EventSystem.js:77-103 | the earliest due timer leaves the queue and its events are emitted in order |
| Events.EventSystem.EmitEach | src/systems/EventSystem.js:96-102 | a timer callback's events emitted one after the other leave the bus as `EmitAll` says |
| Interaction.DataObject.constructor | src/systems/SceneManager.js:15-31 | a data object starts out holding its literal's fields |
| Interaction.Interactable.constructor | src/systems/InteractionManager.js:18-32 | a registered object keeps its mesh, type and position, holds the very data object it was given, and starts active |
| Interaction.HasItem | src/systems/InteractionManager.js:202-205 | true iff some inventory entry has that type and `data.id` |
| Interaction.HasItemAfterAdd | src/systems/InteractionManager.js:187-205 | appending an entry adds exactly that entry's membership and keeps all earlier ones |
| Interaction.Resolve | src/systems/InteractionManager.js:89-107 | an unknown type is refused with nothing changed; a call is refused iff it emits nothing; at most one event is emitted; the object is consumed iff it is a key |
| Interaction.InteractionText | src/systems/InteractionManager.js:72-87 | the prompt is "Locked" iff the object is a locked door; unknown types get the generic prompt |
| Interaction.LockedDoor | src/systems/InteractionManager.js:110-120 | a locked door with the key unlocks and emits exactly one door_unlocked; without it stays locked, emits nothing and returns false |
| Interaction.UnlockedDoorStaysOpen | src/systems/InteractionManager.js:121-131 | an unlocked door emits door_opened on every call, and isOpen becomes true and stays true |
| Interaction.GeneratorStartsOnce | src/systems/InteractionManager.js:174-185 | the first call starts a stopped generator; any later call returns false and emits nothing |
| Interaction.SwitchTogglesBack | src/systems/InteractionManager.js:159-162 | a flip negates the switch's truthiness (absent counts as off); two flips restore it |
| Interaction.NoteDefaults | src/systems/InteractionManager.js:134-144 | a note emits note_read with title defaulting to 'Document' and content to the faded text, marks itself read, and emits again on re-reading |
| Interaction.KeyCheck | src/systems/InteractionManager.js:110-113 | the door's key check used by the model: the inventory holds a key whose id is the door's keyId |
| Interaction.ShippedLockedDoorNeverOpens | src/systems/InteractionManager.js:110-120 | as shipped, a locked door refuses even a player who carries its key |
| Interaction.KeyUnlocksDoor | src/systems/InteractionManager.js:110-120 | with the inventory check, picking up the door's key makes the door unlock and emit door_unlocked |
| Interaction.SwitchRaisesAsShipped | src/systems/InteractionManager.js:159-172 | as shipped, a flip toggles the switch and emits switch_toggled, then raises |
| Interaction.SwitchReturnsTrue | src/systems/InteractionManager.js:159-172 | with `Color3` imported the same flip returns true, with the same events |
| Interaction.Without | src/systems/InteractionManager.js:207-209 | deleting a key from the Map's order keeps exactly the other keys, still distinct |
| Interaction.InteractionManager.constructor | src/systems/InteractionManager.js:4-12 | empty registry, no target, empty inventory |
| Interaction.InteractionManager.RegisterInteractable | src/systems/InteractionManager.js:18-32 | a new active object holding the caller's data object is stored under the mesh's id, replacing any earlier one; a new id goes to the end of the iteration order; target and inventory are kept |
| Interaction.InteractionManager.CheckForInteractables | src/systems/InteractionManager.js:38-61 | the target is null iff no active, picked object lies strictly inside the range; otherwise it is the picked one, strictly nearer than every earlier candidate and no farther than every later one |
| Interaction.InteractionManager.SelectionUnique | src/systems/InteractionManager.js:38-61 | in a registry keyed by mesh id at most one entry is eligible, so ties never arise |
| Interaction.InteractionManager.AddToInventory | src/systems/InteractionManager.js:187-200 | exactly one entry is appended at the end; earlier entries are kept |
| Interaction.InteractionManager.RemoveInteractable | src/systems/InteractionManager.js:207-209 | the key leaves the registry and its order; nothing else changes |
| Interaction.InteractionManager.Dispose | src/systems/InteractionManager.js:211-213 | the registry is emptied; the inventory is kept |
| Interaction.InteractionManager.InteractWithDoor | src/systems/InteractionManager.js:110-132 | only the door's data object and the bus change, exactly as `ResolveDoor` says, and the return value is its result; the door stays active |
| Interaction.InteractionManager.InteractWithNote | src/systems/InteractionManager.js:134-144 | only the note's data object and the bus change, exactly as `ResolveNote` says |
| Interaction.InteractionManager.InteractWithKey | src/systems/InteractionManager.js:146-157 | key_collected is emitted, the key leaves the registry and exactly one `{key, data}` entry is appended to the inventory |
| Interaction.InteractionManager.InteractWithSwitch | src/systems/InteractionManager.js:159-172 | only the switch's data object and the bus change, as `ResolveSwitch` with Color3 imported says |
| Interaction.InteractionManager.InteractWithGenerator | src/systems/InteractionManager.js:174-185 | only the generator's data object and the bus change, exactly as `ResolveGenerator` says |
| Interaction.InteractionManager.TryInteract | src/systems/InteractionManager.js:89-107 | no target means false with nothing changed; otherwise the target's type rule runs and its data object, the bus, the registry and the inventory end up as `Resolve` says; the target and its active flag are kept |
| Scenes.GetSceneData | src/systems/SceneManager.js:355-357 | an entry exists iff the name is one of the three scenes, and each has objects and zones |
| Scenes.SceneTableShape | src/systems/SceneManager.js:13-70 | the table holds exactly three scenes, each with three objects of distinct types ending with a door, and each door leads to the next scene |
| Scenes.EntranceWellFormed | src/systems/SceneManager.js:15-31 | the entrance scene is well formed |
| Scenes.CorridorWellFormed | src/systems/SceneManager.js:33-50 | the corridor scene is well formed |
| Scenes.RestrictedWellFormed | src/systems/SceneManager.js:52-69 | the restricted scene is well formed |
| Scenes.EntranceKeyOpensEntranceDoor | src/systems/SceneManager.js:15-31 | the entrance key's id matches the entrance door's keyId, so picking it up unlocks the door |
| Scenes.NoExitKeyInTable | src/systems/SceneManager.js:13-70 | no scene holds a key with id 'exit_key', the id the restricted door asks for |
| Scenes.Fired | src/systems/SceneManager.js:315-334 | a frame emits at most one event per zone: none when the player is in no zone, one per zone when in all |
| Scenes.FiredAppend | src/systems/SceneManager.js:315-334 | zones registered by successive loads fire side by side, earlier ones first |
| Scenes.EntranceZoneFiresEveryFrame | src/systems/SceneManager.js:323-331 | standing in the entrance zone emits area_entered on every frame, twice per frame once the scene is loaded twice |
| Scenes.MeshesSnoc | src/systems/SceneManager.js:290-313 | registering one more entry adds exactly its placeholder id |
| Scenes.DistinctKindsAllRegistered | src/systems/SceneManager.js:290-313 | with distinct types per scene every entry is registered under its own id, one per entry |
| Scenes.MeshesCount | src/systems/SceneManager.js:290-313 | distinct types give as many ids as entries |
| Scenes.RegisteredStep | src/systems/SceneManager.js:290-313 | one registration keeps the description of the registry valid for one more entry |
| Scenes.Live | src/systems/SceneManager.js:355-357 | the entry `getSceneData` hands out: the table's fixed parts, with each object's data read from its shared data object |
| Scenes.LiveUntouched | src/systems/SceneManager.js:13-70 | while the data objects still hold their literals, the live entry is the literal table entry |
| Scenes.NewDataObjects | src/systems/SceneManager.js:13-70 | one fresh data object per entry, holding that entry's literal |
| Scenes.SceneManager.constructor | src/systems/SceneManager.js:4-11 | one data object per table entry, holding its literal; no current scene and no zones |
| Scenes.SceneManager.GetSceneData | src/systems/SceneManager.js:355-357 | a known name gives the live entry, as interactions have left its data objects; an unknown name gives nothing |
| Scenes.SceneManager.GetCurrentScene | src/systems/SceneManager.js:351-353 | returns the name of the scene last loaded, if any |
| Scenes.SceneManager.ClearScene | src/systems/SceneManager.js:336-349 | the interaction registry is emptied; the inventory and the target are kept |
| Scenes.SceneManager.CreateInteractables | src/systems/SceneManager.js:290-313 | each entry is registered, in order, under its stamped id with its type and position, holding the table's own data object, active; entries already present stay unless overwritten; inventory and target are kept |
| Scenes.SceneManager.SetupTriggers | src/systems/SceneManager.js:315-334 | the scene's zones join the frame loop after earlier ones |
| Scenes.SceneManager.LoadScene | src/systems/SceneManager.js:72-110 | an unknown name returns false with nothing changed; a known one tears down only when a scene is current, registers the scene's objects (holding the table's own data objects) and zones, becomes current and emits scene_loaded with the entry as its data objects stand; inventory and target are kept |
| Scenes.SceneManager.Install | src/systems/SceneManager.js:79-109 | the successful branch of `loadScene`: teardown only when a scene is current, camera at the start, the entries registered with the given data objects, the zones added, the scene current, and the announcement emitted last; inventory and target are kept |
| Scenes.SceneManager.Populate | src/systems/SceneManager.js:80-96 | the previous scene's objects are dropped only when a scene is current, then every entry is registered on top of what is left; inventory and target are kept |
| Scenes.SceneManager.Announce | src/systems/SceneManager.js:106-107 | `scene_loaded` reaches the bus as `Emit` says, and the registrations just made stay as they are |
| Scenes.RegisteredHoldsTableData | src/systems/SceneManager.js:290-313 | after a load every entry of the scene is registered, active, under its own id, holding the table's data object itself, so a door unlocked or a generator started on an earlier visit is met again in that state |
| Scenes.SceneManager.TickZones | src/systems/SceneManager.js:323-331 | one rendered frame emits, in registration order, the event of every zone holding the player |
| Level.TriggerTables | src/systems/LevelBuilder.js:527-554 | the tables put area_entered at each room's centre and their second triggers at the offsets the source computes |
| Level.TriggerTablesWellFormed | src/systems/LevelBuilder.js:527-554 | every trigger has a positive radius and sits at its room's height |
| Level.Step | src/systems/LevelBuilder.js:556-573 | a frame emits iff the trigger is armed and the player is within the radius, and the trigger stays armed iff it was armed and the player is outside |
| Level.DisarmedStaysSilent | src/systems/LevelBuilder.js:561-569 | once triggered, no walk makes it emit again |
| Level.ArmedFiresOnce | src/systems/LevelBuilder.js:556-573 | an armed trigger emits exactly once over a walk iff the walk reaches it, and otherwise stays armed |
| Level.FiresAtFirstReach | src/systems/LevelBuilder.js:562-570 | the emitting frame is the first one within the radius |
| Level.RunSnoc | src/systems/LevelBuilder.js:556-573 | a walk extended by one frame is the walk followed by one step |
| Level.ProximityTrigger.constructor | src/systems/LevelBuilder.js:556-559 | a new trigger starts armed |
| Level.ProximityTrigger.Tick | src/systems/LevelBuilder.js:560-572 | the flag and the bus change exactly as `Step` says |
| Level.FrameSnoc | src/systems/LevelBuilder.js:556-573 | a frame over one more trigger adds that trigger's step after the others |
| Level.FrameEmits | src/systems/LevelBuilder.js:556-573 | a frame emits an event iff it is the event of an armed trigger holding the player, and at most one per trigger |
| Level.SecondFrameSilent | src/systems/LevelBuilder.js:556-573 | a second frame with the player where they were emits nothing |
| Level.CreatePatientRooms | src/systems/LevelBuilder.js:112-146 | twelve 8×6×3.5 rooms, the i-th left one at (-10, 0, 10+8i) and the i-th right one at (10, 0, 10+8i) |
| Level.PatientRoomsApart | src/systems/LevelBuilder.js:112-146 | no two patient rooms overlap |
| Level.MaterialsCoverRooms | src/systems/LevelBuilder.js:23-37 | there are eight materials, and every material a room asks for is among them |
| Level.LevelBuilder.constructor | src/systems/LevelBuilder.js:4-14 | the material table is built; nothing else is created |
| Level.LevelBuilder.TickTriggers | src/systems/LevelBuilder.js:556-573 | one rendered frame runs every registered callback in creation order: each flag moves as `Step` says and the bus receives exactly `Frame` of the old flags |
| Level.LevelBuilder.TickAt | src/systems/LevelBuilder.js:560-572 | the callback at one position runs and extends the frame by its step |
| Level.OthersDiffer | src/systems/LevelBuilder.js:556-573 | each callback registered by `createTrigger` has its own trigger object, so running one leaves the others' flags alone |
| Level.LevelBuilder.CreateTrigger | src/systems/LevelBuilder.js:556-573 | a fresh armed trigger for the given arguments joins the frame loop |
| Level.LevelBuilder.CreateTriggers | src/systems/LevelBuilder.js:527-554 | one fresh armed trigger per table row, in order, after the existing ones |
| Level.LevelBuilder.CreateEntranceTriggers | src/systems/LevelBuilder.js:527-532 | the two entrance triggers, armed, in table order |
| Level.LevelBuilder.CreateCorridorTriggers | src/systems/LevelBuilder.js:534-540 | the two corridor encounter triggers, armed, in table order |
| Level.LevelBuilder.CreateResearchTriggers | src/systems/LevelBuilder.js:542-547 | the two research triggers, armed, in table order |
| Level.LevelBuilder.CreateBasementTriggers | src/systems/LevelBuilder.js:549-554 | the two basement triggers, armed, in table order |
| Level.LevelBuilder.Dispose | src/systems/LevelBuilder.js:576-584 | meshes, lights and materials are left empty |
| Opening.CluesAreInert | src/systems/OpeningSequence.js:71-98 | the three clues are on distinct meshes and their types are none of the five kinds, so `tryInteract` refuses them |
| Opening.Moved | src/systems/OpeningSequence.js:110-116 | a step raises the counter by one; the door slam plays only on the step that makes it three, and only if not yet played |
| Opening.Pointed | src/systems/OpeningSequence.js:102-107 | the look cue is set iff it was set or the recorder is picked; static plays only the first time |
| Opening.OccurrencesSnoc | src/systems/OpeningSequence.js:102-116 | appending a sound raises only its own count |
| Opening.DoorSlamOnce | src/systems/OpeningSequence.js:110-116 | after n steps from the start the counter is n and the door slam has played exactly once if n ≥ 3, never otherwise |
| Opening.LookCueAtMostOnce | src/systems/OpeningSequence.js:102-107 | over any run of picks the static cue plays at most once, and exactly once iff the recorder was ever picked |
| Opening.OpeningSequence.constructor | src/systems/OpeningSequence.js:2-11 | not started, step count 0, both cue flags clear |
| Opening.OpeningSequence.Start | src/systems/OpeningSequence.js:13-28 | a second call changes nothing; the first registers the clues whose meshes exist, adds the pointer observer and subscribes the movement callback, keeping the inventory and the target |
| Opening.OpeningSequence.SetupEnvironmentalClues | src/systems/OpeningSequence.js:71-98 | each clue whose mesh exists is registered under the mesh's name with its type and a data object holding its literal; nothing else in the registry changes; inventory and target are kept |
| Opening.OpeningSequence.RegisterClue | src/systems/OpeningSequence.js:73-79 | one guarded registration extends the clue description by one; inventory and target are kept |
| Opening.OpeningSequence.RegisterPresentClue | src/systems/OpeningSequence.js:73-79 | a clue whose mesh exists is registered under the mesh's name with a data object of its own, extending the clue description by one |
| Opening.OpeningSequence.SetupTriggers | src/systems/OpeningSequence.js:100-117 | one pointer observer is added and the movement callback is subscribed to player_moved |
| Opening.OpeningSequence.OnPlayerMoved | src/systems/OpeningSequence.js:110-116 | the cue state changes as `Moved` says |
| Opening.OpeningSequence.OnPointer | src/systems/OpeningSequence.js:102-107 | the cue state changes as `Pointed` says |
| Opening.ClueIdsSnoc | src/systems/OpeningSequence.js:71-98 | each clue adds its mesh's id iff the mesh exists, and that id is new |
| Opening.ClueStep | src/systems/OpeningSequence.js:71-98 | registering one present clue extends the clue description by one |
| Opening.CluesNone | src/systems/OpeningSequence.js:71-98 | before any registration the description holds trivially |
| Opening.ClueSkip | src/systems/OpeningSequence.js:71-98 | a clue whose mesh is missing is skipped without changing the registry |
| Environment.Lockdown | src/systems/EnvironmentManager.js:334-341 | a door's data gains locked = true and chaseMode = true; every other field is kept |
| Environment.LockdownIdempotent | src/systems/EnvironmentManager.js:334-341 | locking twice equals locking once |
| Environment.LockedDownDoor | src/systems/EnvironmentManager.js:334-341 | after the lockdown a door refuses without its key, and with it unlocks but stays in chase mode |
| Environment.LockDoorsInArea | src/systems/EnvironmentManager.js:334-341 | every data object a registered door holds is locked down once, even when shared; every other data object is untouched and nothing but data objects changes, whatever area is named |
| Environment.LockAt | src/systems/EnvironmentManager.js:336-341 | visiting one more entry of the iteration order locks its data object down when it is a door and leaves every other data object as it was |
| Environment.DoorBeforeStep | src/systems/EnvironmentManager.js:336-341 | one more entry of the iteration order adds exactly its data object to those met through a door, and only when it is a door |
| Environment.DoorsAgree | src/systems/EnvironmentManager.js:334-341 | walking the whole iteration order meets exactly the registered doors |

## Left out

- Rendering, cameras, meshes, materials and lights (Babylon.js) are not modelled. In `LevelBuilder` meshes and lights are opaque handles, materials are records of their configured colours, and room geometry and props are not built.
- Audio (`AudioManager`), asset loading (`AssetManager`), the DOM part of `showMessage`, and the narration and random-sound timers of `OpeningSequence` are left out; sounds are recorded as the names asked for.
- `PlayerController` and `main.js` are not part of this model. Nothing in it emits `player_moved`, and the callers of `tryInteract` and `checkForInteractables` are replaced by direct calls.
- The story handlers registered by `setupStoryEvents` (`EventSystem.js:123-188`) are left out; listener bodies are opaque: a listener is only called, and it may throw. These handlers do more than DOM and audio work. The `power_restored` beat calls `EnvironmentManager.restorePower`, which sets its own power flag and, one second later, steps a light intensity by 0.02 every 100 ms and emits `power_fully_restored` when it reaches 0.6 (`EnvironmentManager.js:231-262`); the tick count rests on floating-point accumulation. The `chase_sequence` beat calls `startChaseSequence`, which only changes lights. `handleEntityEncounter` flickers the lights and, with the flashlight on, drains its battery by 10, not below 0; `PlayerController` is not part of this model. The listener for an event named `chase_sequence` locks the doors (modelled on its own as `Environment.LockDoorsInArea`) and starts a pursuit whose interval emits `entity_encounter` every 3 to 5 random seconds; no code in the repository emits an event of that name. A listener that itself calls `emit` is therefore not modelled.
- EventBus.PowerRestoredAfterDelay: speaks only of what the bus itself emits; the later `power_fully_restored` from the shipped handler's `restorePower` is not included.
- EventBus.EntityAggressiveFromThird: speaks only of what the bus itself emits; the shipped handlers' light and battery effects and a pursuit's further `entity_encounter` emissions are not included.
- `Date.now()` and the wall clock are parameters: mesh stamps are a sequence of naturals, and the event loop's clock is a field advanced by `Elapse`. Timers cannot be cancelled, because the source never cancels them.
- `async`/`await` in `loadScene` is treated as running to completion without interleaving.
- Floating point: positions and radii are exact reals, and distances are compared squared.
- Interaction.InteractionManager.TryInteract: states the door and switch rules with the corrected key check and `Color3` imported, not the shipped behaviour; the shipped behaviour is stated by `ShippedLockedDoorNeverOpens` and `SwitchRaisesAsShipped`.
- Scenes.SceneManager.CreateInteractables: does not state that the registered objects are fresh, and does not model the placeholder mesh's scaling and colour.
- Interaction.InteractionManager.InteractWithKey: the inventory entry and every event payload record a data object's fields as they are at that moment, where the source stores the object itself. Nothing writes to a key's data object, and listeners are opaque, so no later change could be observed through them.
- The zones' `data` objects are values: nothing ever writes to them.
- Level.LevelBuilder.CreateTriggers: the invisible sphere mesh of each trigger is not modelled.
- Level.LevelBuilder.Dispose: disposing the meshes, lights and materials themselves is rendering and is not modelled; only the emptied collections are.
- Opening.OpeningSequence.Start: the ambient audio and the one-second narration timer are not modelled.

## Findings

| source | as written | input that shows it | evidently intended | confidence | as-written member | corrected member |
|---|---|---|---|---|---|---|
| src/systems/InteractionManager.js:112 | the door's key check calls `playerController.hasKey`, which `PlayerController` does not define, so the check is always falsy | a locked entrance door with 'office_key' in the inventory | a door unlocks when the inventory holds a key with its `keyId`, which is what `hasItem` answers | not executed | Interaction.ShippedLockedDoorNeverOpens | Interaction.KeyUnlocksDoor |
| src/systems/InteractionManager.js:166 | `interactWithSwitch` uses `Color3`, which the file does not import, after toggling and emitting, so the call raises | any switch | the flip returns true after emitting `switch_toggled` | not executed | Interaction.SwitchRaisesAsShipped | Interaction.SwitchReturnsTrue |
