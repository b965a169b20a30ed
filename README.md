# SoundManager voice pools and bus admission, in Dafny

This project models the voice-pool and bus-admission core of the Unity
package SoundManager. A *sound group* owns a fixed list of audio sources
and hands them out on request. It takes a queued source when one is free
and otherwise steals the oldest playing one. A *bus* caps how many voices
play through it at once: a request on a full bus stops the bus's oldest
voice first.

The repository holds two copies of this logic, and each is modelled in its
own modules:

- The newer copy (`Script/`) is modelled in `ScriptBus`, `ScriptSoundGroup` and `ScriptSoundManager`.
  - A bus keeps its voices in a list and removes a stopped voice by identity.
  - A group cancels the completion waiter of a stolen source.
  - A group reports every stop to the manager.
- The older copy (`SoundGroup.cs`, `SoundManager.cs` at the root) is modelled in `LegacySoundBus`, `LegacySoundGroup`, `LegacyManagerState`, `LegacyManagerModel` and `LegacySoundManager`.
  - A bus keeps a FIFO queue and a separate voice count.
  - The manager subscribes one handler to the group's `OnAudioSourceStopped` event per request served.
  - Each handler run dequeues the front of the bus, whichever source stopped.
- `Lists` holds what both copies share:
  - `List<T>.Remove` as a function;
  - the dictionary-filling loops of `Awake` and `Start`;
  - the optional value that stands for a nullable reference.

Audio sources are natural numbers. Whether the audio device is playing a
source is the manager's `playing` set. A coroutine that waits for a source
to stop is represented as follows:

- in the newer copy, by membership in the pool's `pending` set;
- in the older copy, by a count in its `waiters` multiset.

The resumption of such a coroutine is an explicit `Complete` method.
Each manager is a class. Its registries are constants built by its
constructor (`Awake` followed by `Start`). Its pools, bus records and
playing set are fields. Each method is proved to make the transition that
a function on values defines (`Play`, `Released`, `Handled`, `Completed`,
`VolumeSet`). Lemmas then prove that these transitions keep the manager's
invariant:

- `Consistent` in the newer copy;
- `WellFormed` in the older copy.

In the older copy the class's own `Valid` is only the shape of its maps.
`WellFormed` is proved of every transition by the `...KeepsWellFormed`
lemmas, and the constructor establishes it.

The newer copy's `GetAvailableSource` is declared to return
`(AudioSource, SoundGroup)`, but `PlaySoundInternal` destructures its result
as `(AudioSource source, bool recycled)`. The model follows the manager's
reading. `recycled` is true exactly on the steal-oldest branch.

## Model

| member | source | states |
|---|---|---|
| Lists.Remove | Script/SoundGroup.cs:81 | `List<T>.Remove`: the first occurrence of the element goes, wherever it sits; the rest keep their order; an absent element leaves the list as it is; the multiset loses exactly one copy |
| Lists.RemoveMembership | Script/SoundGroup.cs:81 | removal by identity affects no other element, and removes the element entirely from a list without duplicates |
| Lists.RemoveKeepsOthers | Script/SoundManager.cs:54 | removal by identity keeps every other element's membership, for all elements at once |
| Lists.FirstIsLastIffUnique | Script/SoundManager.cs:34-45 | the first record listed for a bus (what `GetBUSInfoFromList` returns) and the last one (what `Awake` registers) coincide exactly when no two records name that bus |
| Lists.BuildRegistry | Script/SoundManager.cs:20-23 | the `foreach` that fills a dictionary maps every key present to the LAST entry carrying it, and holds no other key |
| Lists.Owners | Script/SoundManager.cs:26-32 | each source some registered group lists is mapped to a registered group that lists it, and no other source is mapped |
| Lists.RegistryOwnsUniquely | SoundManager.cs:61-67 | in a registry of last entries built from a list whose entries share no source, a listed source's owner is the only group that lists it |
| ScriptSoundGroup.Started | Script/SoundGroup.cs:34-38 | after `Start` every configured source is queued in configured order, none is active, and the pool is valid when the sources are distinct |
| ScriptSoundGroup.Acquire | Script/SoundGroup.cs:40-72 | front of the queue if any, appended after the sources already active; else the oldest active source, rotated to the newest position (the others keep their order) with the queue and the active count unchanged and its waiter replaced; else nothing and no change; the source handed out is the newest active one and has a pending completion |
| ScriptSoundGroup.Release | Script/SoundGroup.cs:80-82 | the completed source joins the back of the queue; the active list is exactly the old one without the source's first occurrence, wherever it sat, the others in their order (unchanged when the source is not active); every other source keeps its membership; its waiter ends; the configured sources do not change |
| ScriptSoundGroup.AcquireConserves | Script/SoundGroup.cs:44-59 | acquisition keeps the multiset of queued plus active sources |
| ScriptSoundGroup.AcquireKeepsValid | Script/SoundGroup.cs:40-72 | acquisition keeps the pool conserved and keeps "pending exactly when active" |
| ScriptSoundGroup.ReleaseKeepsValid | Script/SoundGroup.cs:80-84 | the completion of an active source, removed by identity and re-queued, keeps the pool valid |
| ScriptSoundGroup.ReleaseOfInactiveDuplicates | Script/SoundGroup.cs:25-32 | `Stop` of a source that was handed out but is no longer active queues it a second time and breaks conservation |
| ScriptSoundGroup.OutOfOrderRelease | Script/SoundGroup.cs:80-84 | with A, B, C active, B ending first leaves exactly A, C active, in order, and B queued |
| ScriptSoundGroup.StealOldest | Script/SoundGroup.cs:50-59 | with two sources handed out in order A, B, a third request recycles A, which becomes the newest active source |
| ScriptSoundGroup.SoundGroup.constructor | Script/SoundGroup.cs:34-38 | the group's state after `Start` is `Started` of its configured sources |
| ScriptSoundGroup.SoundGroup.GetAvailableSource | Script/SoundGroup.cs:40-72 | the method makes exactly the `Acquire` transition, returns its source and recycled flag, and keeps the pool valid |
| ScriptSoundGroup.SoundGroup.Complete | Script/SoundGroup.cs:74-85 | the completion step makes the `Release` transition and keeps the pool valid |
| ScriptSoundGroup.SoundGroup.Stop | Script/SoundGroup.cs:25-32 | a source never handed out throws and changes nothing; otherwise the source is released; the pool stays valid when it was active |
| ScriptSoundManager.Admit | Script/SoundManager.cs:89-94 | eviction happens iff the list is at or over the limit and not empty; it removes exactly the oldest voice and keeps the rest in order; a bus within capacity then has room for one more |
| ScriptSoundManager.VoiceStopped | Script/SoundManager.cs:47-62 | the stopped source leaves the bus by identity: the voices are exactly the old ones without its first occurrence, the others in their order; an absent source or an empty bus changes nothing; no other voice leaves, and a bus listing each voice once no longer lists the source |
| ScriptSoundManager.Record | Script/SoundManager.cs:100-108 | the played source becomes the newest voice; the other voices stay before it in their order (for a recycled source, the voices with that source removed), so it is not listed twice |
| ScriptSoundManager.PlayStep | Script/SoundManager.cs:86-122 | one request on a registered bus: the eviction is admission's, the source and pool are acquisition's; a fresh source is appended to the voices admission kept; a recycled source is removed from them (once when its stop is reported, once more before recording) and appended; with no source the eviction stands and nothing is added |
| ScriptSoundManager.RecycledMovedToNewest | Script/SoundManager.cs:100-104 | on a bus listing each voice once, a recycled source ends up once, as the newest voice, after the other kept voices in their order |
| ScriptSoundManager.PlayStepWithinCapacity | Script/SoundManager.cs:89-108 | a bus within its capacity stays within it after a request, with no premise on its voices or on the group's pool |
| ScriptSoundManager.PlayStepKeepsBusValid | Script/SoundManager.cs:89-108 | a bus that lists each voice once and is within its capacity still does so after a request, provided no voice of the bus is queued in the group's pool (which the manager's invariant guarantees) |
| ScriptSoundManager.OneVoiceBusScenario | Script/SoundManager.cs:89-108 | on a bus of limit one, a second group's request stops the first voice, plays its own source, and leaves one voice |
| ScriptSoundManager.Play | Script/SoundManager.cs:82-124 | an unknown group or unregistered bus changes nothing; otherwise the outcome is `Playing` of the source obtained, or `NoSourceAvailable` when the group had none; the group's pool becomes `Acquire`'s, the bus's voices become `PlayStep`'s, the evicted voice stops playing and the source obtained plays; no other pool or bus changes; a played source plays, is active and is the bus's newest voice |
| ScriptSoundManager.Released | Script/SoundGroup.cs:74-85 | a completion releases the source in its group, drops it from its bus, and it no longer plays |
| ScriptSoundManager.Stopped | Script/SoundGroup.cs:25-32 | `Stop` ends playback in every case, and releases the source when it was ever handed out |
| ScriptSoundManager.VolumeSet | Script/SoundManager.cs:64-70 | the bus's individual volume and its mixer's level are both the new volume |
| ScriptSoundManager.PlayKeepsConsistent | Script/SoundManager.cs:82-124 | every request keeps the invariant: pools valid, buses without duplicates and within capacity, bus voices active in a group routed to the bus, playing sources active |
| ScriptSoundManager.ReleasedKeepsConsistent | Script/SoundGroup.cs:74-85 | the completion of an active source keeps the invariant |
| ScriptSoundManager.StoppedKeepsConsistent | Script/SoundGroup.cs:25-32 | `Stop` of an active source or of one never handed out keeps the invariant |
| ScriptSoundManager.StoppedPlayingKeepsConsistent | Script/SoundGroup.cs:78 | a source that stops playing on its own keeps the invariant |
| ScriptSoundManager.VolumeSetKeepsConsistent | Script/SoundManager.cs:64-70 | setting a volume keeps the invariant |
| ScriptSoundManager.RegistryConsistent | Script/SoundManager.cs:26-32 | when no two listed groups share a source, every source belongs to exactly one registered group |
| ScriptSoundManager.StartedConsistent | Script/SoundManager.cs:16-32 | the state `Awake` and `Start` build from silent buses and disjoint groups satisfies the invariant |
| ScriptSoundManager.SoundManager.constructor | Script/SoundManager.cs:16-32 | each bus maps to its last listed record, each name to its last listed group, every pool is started, nothing plays, and the invariant holds |
| ScriptSoundManager.SoundManager.GetBUSInfoFromList | Script/SoundManager.cs:34-45 | the search returns null iff no record names the bus, and otherwise the first record that does |
| ScriptSoundManager.SoundManager.HandleAudioSourceStopped | Script/SoundManager.cs:47-62 | a missing bus throws and changes nothing; otherwise the bus's voices lose the source by identity and nothing else changes |
| ScriptSoundManager.SoundManager.PlaySoundInternal | Script/SoundManager.cs:82-124 | the method makes the `Play` transition, reports its outcome, and keeps the invariant |
| ScriptSoundManager.SoundManager.Complete | Script/SoundGroup.cs:74-85 | a pending completion makes the `Released` transition and keeps the invariant |
| ScriptSoundManager.SoundManager.StopSource | Script/SoundGroup.cs:25-32 | `Stop` makes the `Stopped` transition; it throws for a source never handed out; the invariant survives for an active source |
| ScriptSoundManager.SoundManager.PlaybackEnded | Script/SoundGroup.cs:78 | the device finishing a source removes it from the playing set only, and keeps the invariant |
| ScriptSoundManager.SoundManager.SetBusVolume | Script/SoundManager.cs:64-70 | a missing bus throws and changes nothing; otherwise the method makes the `VolumeSet` transition and keeps the invariant |
| LegacySoundBus.NewBusInfo | SoundManager.cs:30-35 | a new record has the given bus and limit, full individual volume, no voice counted and none queued |
| LegacySoundBus.Admit | SoundManager.cs:86-91 | eviction happens iff the COUNT has reached the limit and the queue is not empty; it dequeues exactly the front voice; count and queue length move together |
| LegacySoundBus.Record | SoundManager.cs:96-97 | the played source is counted once more and queued at the back, whether or not it is queued already |
| LegacySoundBus.Dequeued | SoundManager.cs:111-123 | the handler as written dequeues the front voice, whichever source stopped, and decrements the count even when the queue is empty |
| LegacySoundBus.DequeuedTimes | SoundManager.cs:111-123 | k handler runs take the first k voices off the queue (all of them when fewer) and k off the count |
| LegacySoundBus.StoppedByIdentity | SoundManager.cs:111-123 | the handler as intended: a queued source is uncounted once and leaves the queue by identity, the queue being exactly the old one without its first occurrence, the others in their order; a source not queued changes nothing |
| LegacySoundBus.PlayKeepsWithinLimit | SoundManager.cs:86-97 | on a bus whose count is right, a request keeps the count right and the queue within capacity |
| LegacySoundBus.StoppedByIdentityKeepsLimit | SoundManager.cs:111-123 | with the intended handler, any sequence of stops keeps a balanced bus balanced and within its limit |
| LegacySoundBus.DequeueDropsWrongVoice | SoundManager.cs:116-119 | with A queued before B, B stopping leaves B queued and drops A as written; the intended handler leaves exactly A |
| LegacySoundBus.CountDriftExceedsLimit | SoundManager.cs:86-123 | on a bus of limit one, play X, play Y, then two handler runs drive the count to -1, after which two requests leave two voices queued: over the limit and unbalanced |
| LegacySoundGroup.Started | SoundGroup.cs:26-30 | after `Start` every configured source is queued in order, none is active, with no waiter and no handler |
| LegacySoundGroup.Acquire | SoundGroup.cs:32-62 | front of the queue if any; else the oldest active source moved to the back; else nothing and no change; every source handed out gets one more waiter, a stolen one keeping its earlier waiter |
| LegacySoundGroup.Release | SoundGroup.cs:70-72 | one waiter's completion leaves the active list exactly as before without the source's first occurrence, the others in their order (unchanged when the source is not active), queues the source at the back in any case, and ends that waiter |
| LegacySoundGroup.Subscribed | SoundManager.cs:98 | subscribing adds exactly one handler and changes nothing else |
| LegacySoundGroup.Unsubscribed | SoundManager.cs:122 | unsubscribing removes one handler, or nothing when none is subscribed |
| LegacySoundGroup.AcquireKeepsWithin | SoundGroup.cs:32-62 | a pool only ever holds its configured sources after acquisition |
| LegacySoundGroup.ReleaseKeepsWithin | SoundGroup.cs:64-75 | and after a completion |
| LegacySoundGroup.AcquireFromQueueKeepsValid | SoundGroup.cs:36-41 | taking from the queue keeps the pool conserved with waiters matching active sources |
| LegacySoundGroup.ReleaseKeepsValid | SoundGroup.cs:70-72 | so does the completion of a waited-for source |
| LegacySoundGroup.StealThenTwoCompletionsDuplicate | SoundGroup.cs:42-72 | as written, a group of one source serves two requests, the second stealing it; both waiters complete and the source is queued twice |
| LegacySoundGroup.AcquireCancelling | SoundGroup.cs:42-49 | steal-oldest with the earlier waiter cancelled: the same source and lists as `Acquire`, one waiter per source |
| LegacySoundGroup.AcquireCancellingKeepsValid | SoundGroup.cs:32-62 | with cancelling, every acquisition keeps the pool valid |
| LegacySoundGroup.SoundGroup.constructor | SoundGroup.cs:26-30 | the group's state after `Start` is `Started` of its configured sources |
| LegacySoundGroup.SoundGroup.GetAvailableSource | SoundGroup.cs:32-62 | the method makes exactly the `Acquire` transition and returns its source |
| LegacySoundGroup.SoundGroup.Complete | SoundGroup.cs:64-75 | the completion step makes the `Release` transition and raises the event to every subscribed handler |
| LegacySoundGroup.SoundGroup.Subscribe | SoundManager.cs:98 | `+=` makes the `Subscribed` transition |
| LegacySoundGroup.SoundGroup.Unsubscribe | SoundManager.cs:122 | `-=` makes the `Unsubscribed` transition |
| LegacyManagerModel.Play | SoundManager.cs:79-108 | an unknown group changes nothing; an unregistered bus throws and changes nothing; otherwise the group's pool is the one `Acquire` leaves (with one more handler when a source was obtained), the bus record is the admitted one (with the source recorded when obtained), the evicted voice stops playing and the source obtained plays |
| LegacyManagerModel.PlayedEffects | SoundManager.cs:79-108 | no other group's pool and no other bus's record changes; count minus queue length is unchanged on every bus; a played source plays, adds one handler and is the bus's newest voice |
| LegacyManagerModel.Handled | SoundManager.cs:111-123 | one handler run: a missing bus throws and changes nothing; otherwise the bus dequeues its front voice and uncounts one, and one subscription goes |
| LegacyManagerModel.Notified | SoundManager.cs:111-123 | k handler runs change only the group's subscriptions and its bus's record |
| LegacyManagerModel.NotifiedStep | SoundManager.cs:111-123 | one more handler run extends k runs by one |
| LegacyManagerModel.Completed | SoundGroup.cs:64-75 | a completion changes no key and no playing state |
| LegacyManagerModel.CompletionRunsEveryHandler | SoundGroup.cs:74 | a completion runs ALL subscribed handlers, whichever source stopped: none stays subscribed, the bus uncounts one voice per handler, and the source is queued |
| LegacyManagerModel.CompletedUnbalances | SoundManager.cs:121 | with more handlers than queued voices, a completion leaves a balanced bus with an empty queue and a negative count |
| LegacyManagerModel.VolumeSet | SoundManager.cs:125-140 | the bus's volume and mixer become the new volume; for Master every non-Master record's mixer becomes `volume * volume`; nothing else changes |
| LegacyManagerModel.IntendedVolumeSet | SoundManager.cs:125-140 | the intended cascade leaves the set bus at the new volume and changes neither pools nor playback |
| LegacyManagerModel.IntendedCascadeKeepsOwnLevels | SoundManager.cs:131-137 | the intended cascade sets each other bus to its own volume scaled by Master's |
| LegacyManagerModel.MasterCascadeIgnoresOwnLevel | SoundManager.cs:135 | as written, Master at full volume puts a bus at half volume at full; as intended it stays at half |
| LegacyManagerModel.PlayKeepsWellFormed | SoundManager.cs:79-108 | every request keeps the invariant: pools hold their own sources, groups with handlers have a bus, records keyed by their bus, queued voices routed to their bus, playing sources configured |
| LegacyManagerModel.HandledKeepsWellFormed | SoundManager.cs:111-123 | one handler run keeps the invariant |
| LegacyManagerModel.NotifiedKeepsWellFormed | SoundManager.cs:111-123 | any number of handler runs keeps the invariant |
| LegacyManagerModel.ReleasedKeepsWellFormed | SoundGroup.cs:70-72 | releasing a waited-for source keeps the invariant |
| LegacyManagerModel.CompletedKeepsWellFormed | SoundGroup.cs:64-75 | a whole completion, release and every handler, keeps the invariant |
| LegacyManagerModel.StoppedPlayingKeepsWellFormed | SoundGroup.cs:68 | a source that stops playing keeps the invariant |
| LegacyManagerModel.VolumeSetKeepsWellFormed | SoundManager.cs:125-140 | setting a volume keeps the invariant |
| LegacyManagerModel.RegistryConsistent | SoundManager.cs:61-67 | when no two listed groups share a source, every source belongs to exactly one registered group |
| LegacyManagerModel.StartedBuses | SoundManager.cs:51-59 | `Awake` registers each record under its own bus, with an empty queue and a count that agrees |
| LegacyManagerModel.StartedWellFormed | SoundManager.cs:51-67 | the state `Awake` and `Start` build satisfies the invariant |
| LegacySoundManager.SoundManager.constructor | SoundManager.cs:51-67 | each bus maps to its last listed record, each name to its last listed group, every pool is started, every bus is balanced, nothing plays, and the invariant holds |
| LegacySoundManager.SoundManager.PlaySoundInternal | SoundManager.cs:79-108 | the method makes the `Play` transition and reports its outcome |
| LegacySoundManager.SoundManager.HandleAudioSourceStopped | SoundManager.cs:111-123 | a missing bus throws and changes nothing; otherwise the method makes the `Handled` transition |
| LegacySoundManager.SoundManager.Complete | SoundGroup.cs:64-75 | a waiter's completion, with the event's handlers run one by one until one throws, makes the `Completed` transition |
| LegacySoundManager.SoundManager.PlaybackEnded | SoundGroup.cs:68 | the device finishing a source removes it from the playing set only |
| LegacySoundManager.SoundManager.SetBusVolume | SoundManager.cs:125-140 | a missing bus throws and changes nothing; otherwise the method makes the `VolumeSet` transition |

## Left out

- Audio playback itself (`AudioSource.Play`, `Stop`, `isPlaying`, `enabled`) is abstracted as the manager's `playing` set. The device finishing a source is the method `PlaybackEnded`.
- The coroutine scheduler (`StartCoroutine`, `StopCoroutine`, `WaitUntil`) is replaced by the pending set or waiter multiset and an explicit `Complete` step. Interleavings are the caller's choice of method order.
- Random pitch and volume, spatial placement (`Transform.position`) and the `use3DSound` flag have no contract in the source and are left out.
- The decibel conversion `Log10(x) * 20` is floating point. A bus's `mixerLevel` records the linear argument whose decibel form was last written.
- The `Singleton<T>` base is replaced by one explicitly constructed manager. The groups' calls into it are calls of the manager's own methods.
- Bus records and groups are values held in the manager's maps, so the model does not capture aliasing between list entries and dictionary entries. `GetBUSInfoFromList` returns the record as listed at construction.
- Logging (`Debug.LogWarning`, `Debug.LogError` at Script/SoundManager.cs:58,121, Script/SoundGroup.cs:62, SoundGroup.cs:52) is not modelled. The outcome `NoSourceAvailable` stands for the warning of a request that found no source, and the empty-bus branch of `HandleAudioSourceStopped` changes nothing.
- `GetBUSControl` (SoundManager.cs:46-49) is a bare dictionary lookup and is not modelled.
- Editor tooling (`CreateChildObjects`, `#if UNITY_EDITOR`), `Jukebox`, and the test UI classes are not part of this model.
- ScriptSoundGroup.SoundGroup and LegacySoundGroup.SoundGroup: stand-alone classes; the managers hold each group's pool as a value and apply the same transition functions (`Acquire`, `Release`), so the model does not capture a manager and its group objects sharing state (aliasing).
- ScriptSoundGroup.SoundGroup.GetAvailableSource: returns a recycled flag, not the group, because that is how the manager reads the result.
- ScriptSoundManager.SoundManager.StopSource: keeps the invariant only for an active source or one never handed out. Stopping an already released source breaks conservation (`ReleaseOfInactiveDuplicates`).
- ScriptSoundManager.SoundManager.constructor: requires every group's sources to be distinct, no two groups to share a source, and every listed bus record to start silent. These are the configuration the package assumes.
- LegacySoundManager.SoundManager.constructor: requires every listed record to start with an empty queue and a zero count, as the `BusInfo` constructor leaves it, and no two groups to share a source.
- LegacySoundManager.SoundManager.HandleAudioSourceStopped: requires a registered group, since only registered groups' events reach the handler.
- LegacySoundManager.SoundManager.Complete: requires the source to have stopped playing, which is when its waiter resumes.
- LegacySoundManager.SoundManager.PlaySoundInternal: its own contract keeps only the shape of the manager's maps. The full invariant is proved of the transition by `LegacyManagerModel.PlayKeepsWellFormed`, and likewise for the other methods.
- LegacyManagerModel.PlayedEffects: Dafny proves it from the definition of `Play` alone.

## Findings

The manager models above follow the code as written. For each finding, the
corrected definition is given beside the as-written one, and the intended
property is proved about the corrected definition.

| source | as written | input that shows it | evidently intended | confidence | as-written member | corrected member |
|---|---|---|---|---|---|---|
| SoundManager.cs:116-119 | the handler dequeues the front voice of the bus, whichever source stopped | A then B queued on one bus; B stops | the stopped source leaves the queue by identity, as the newer copy does | not executed | LegacySoundBus.DequeueDropsWrongVoice | LegacySoundBus.StoppedByIdentityKeepsLimit |
| SoundManager.cs:121 | the count is decremented once per handler run, even on an empty queue, so count and queue drift apart and the limit check on the count lets the queue grow | limit 1: play X, play Y, X's completion runs two handlers, play X, play Y; two voices are queued | a voice is uncounted only when it leaves the queue | not executed | LegacySoundBus.CountDriftExceedsLimit | LegacySoundBus.StoppedByIdentityKeepsLimit |
| SoundGroup.cs:42-59 | a stolen source keeps its earlier waiter, so both waiters complete and the source is queued twice | one-source group, two requests, then the source stops | the earlier waiter is cancelled before a new one starts, as the newer copy does | not executed | LegacySoundGroup.StealThenTwoCompletionsDuplicate | LegacySoundGroup.AcquireCancellingKeepsValid |
| SoundManager.cs:135 | the cascade writes `control.individualVolume * volume`, which is `volume * volume` once Master's volume has been set | Master to 1.0 with a bus at individual volume 0.5: that bus's mixer is written at 1.0 | each bus's own individual volume scaled by Master's | not executed | LegacyManagerModel.MasterCascadeIgnoresOwnLevel | LegacyManagerModel.IntendedCascadeKeepsOwnLevels |
