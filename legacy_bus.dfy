// SoundManager.cs, lines 9-36: the bus categories of the older copy and its
// per-bus record, together with what `PlaySoundInternal` and
// `HandleAudioSourceStopped` do to one record. The record counts its voices
// in `activeVoiceCount` and queues them in `activeVoices`; the two are kept
// apart, and nothing forces them to agree.

module LegacySoundBus {
  import opened Lists

  /** The bus categories; this copy has a `Master` bus. */
  datatype SoundBus = Master | Ambient | Environment | SFX | UI | Voice

  /** One bus record. `activeVoices` is a FIFO queue, front first;
      `mixerLevel` is the linear level whose decibel form was last written
      to the bus's mixer. */
  datatype BusInfo = BusInfo(soundBus: SoundBus, mixerLevel: real, individualVolume: real,
                             activeVoiceCount: int, voiceLimit: int, activeVoices: seq<nat>)

  /** The constructor `BusInfo(soundBus, audioMixer, voiceLimit)`: full
      individual volume, no voice counted, none queued. The mixer's level is
      whatever the mixer asset holds. */
  function NewBusInfo(soundBus: SoundBus, mixerLevel: real, voiceLimit: int): (r: BusInfo)
    ensures r.soundBus == soundBus && r.voiceLimit == voiceLimit && r.mixerLevel == mixerLevel
    ensures r.individualVolume == 1.0 && r.activeVoiceCount == 0 && r.activeVoices == []
    ensures Balanced(r)
  {
    BusInfo(soundBus, mixerLevel, 1.0, 0, voiceLimit, [])
  }

  /** The most voices a bus keeps when its count is right: its limit, and
      one even when the limit is zero or negative, since a request is
      always admitted after eviction. */
  function Capacity(limit: int): nat
  {
    if limit < 1 then 1 else limit
  }

  /** The count agrees with the queue. */
  ghost predicate Balanced(info: BusInfo)
  {
    info.activeVoiceCount == |info.activeVoices|
  }

  /** The queue holds no more voices than the bus's capacity. */
  ghost predicate WithinLimit(info: BusInfo)
  {
    |info.activeVoices| <= Capacity(info.voiceLimit)
  }

  /** The record after admission, and the voice dequeued, if any. */
  datatype Admission = Admission(info: BusInfo, evicted: Option<nat>)

  /** Admission in `PlaySoundInternal`: when the COUNT has reached the limit
      and the queue is not empty, the front voice is dequeued (and stopped)
      and the count drops by one. Count and queue length move together. */
  function Admit(info: BusInfo): (r: Admission)
    ensures r.evicted.Some? <==> info.activeVoiceCount >= info.voiceLimit && info.activeVoices != []
    ensures r.evicted.Some? ==> r.evicted.value == info.activeVoices[0] && r.info.activeVoices == info.activeVoices[1..]
    ensures r.evicted.None? ==> r.info == info
    ensures forall v :: v in r.info.activeVoices ==> v in info.activeVoices
    ensures r.info.activeVoiceCount - |r.info.activeVoices| == info.activeVoiceCount - |info.activeVoices|
    ensures r.info == info.(activeVoiceCount := r.info.activeVoiceCount, activeVoices := r.info.activeVoices)
  {
    if info.activeVoiceCount >= info.voiceLimit && |info.activeVoices| > 0 then
      Admission(info.(activeVoiceCount := info.activeVoiceCount - 1, activeVoices := info.activeVoices[1..]),
                Some(info.activeVoices[0]))
    else
      Admission(info, None)
  }

  /** Recording a played source: counted once more and queued at the back,
      whether or not it is queued already. */
  function Record(info: BusInfo, src: nat): (r: BusInfo)
    ensures |r.activeVoices| == |info.activeVoices| + 1 && Last(r.activeVoices) == src
    ensures r.activeVoices[..|info.activeVoices|] == info.activeVoices
    ensures forall v :: v in r.activeVoices ==> v in info.activeVoices || v == src
    ensures r.activeVoiceCount - |r.activeVoices| == info.activeVoiceCount - |info.activeVoices|
    ensures r == info.(activeVoiceCount := r.activeVoiceCount, activeVoices := r.activeVoices)
  {
    info.(activeVoiceCount := info.activeVoiceCount + 1, activeVoices := info.activeVoices + [src])
  }

  /** The body of `HandleAudioSourceStopped` as written: it dequeues the
      FRONT voice, whichever source stopped, when the queue is not empty,
      and decrements the count in any case. */
  function Dequeued(info: BusInfo): (r: BusInfo)
    ensures r.activeVoiceCount == info.activeVoiceCount - 1
    ensures r.activeVoices == if info.activeVoices == [] then [] else info.activeVoices[1..]
    ensures forall v :: v in r.activeVoices ==> v in info.activeVoices
    ensures r == info.(activeVoiceCount := r.activeVoiceCount, activeVoices := r.activeVoices)
  {
    if |info.activeVoices| > 0 then
      info.(activeVoiceCount := info.activeVoiceCount - 1, activeVoices := info.activeVoices[1..])
    else
      info.(activeVoiceCount := info.activeVoiceCount - 1)
  }

  /** `k` handlers run one after the other: the count drops by `k`, the
      queue loses its first `k` voices (all of them when it is shorter). */
  function DequeuedTimes(info: BusInfo, k: nat): (r: BusInfo)
    ensures r.activeVoiceCount == info.activeVoiceCount - k
    ensures r.activeVoices == if k <= |info.activeVoices| then info.activeVoices[k..] else []
    ensures r == info.(activeVoiceCount := r.activeVoiceCount, activeVoices := r.activeVoices)
    decreases k
  {
    if k == 0 then info
    else
      var prev := DequeuedTimes(info, k - 1);
      assert k - 1 < |info.activeVoices| ==> info.activeVoices[k - 1..][1..] == info.activeVoices[k..];
      Dequeued(prev)
  }

  /** The handler as it is evidently meant to work, and as the newer copy
      does it: the stopped source leaves the queue by identity, wherever it
      sits, and is uncounted only when it was there. */
  function StoppedByIdentity(info: BusInfo, src: nat): (r: BusInfo)
    ensures src !in info.activeVoices ==> r == info
    ensures src in info.activeVoices ==>
              && r.activeVoiceCount == info.activeVoiceCount - 1
              && var i := IndexOf(info.activeVoices, src);
                 r.activeVoices == info.activeVoices[..i] + info.activeVoices[i + 1..]
    ensures multiset(r.activeVoices) == multiset(info.activeVoices) - multiset{src}
    ensures r.activeVoiceCount - |r.activeVoices| == info.activeVoiceCount - |info.activeVoices|
    ensures r == info.(activeVoiceCount := r.activeVoiceCount, activeVoices := r.activeVoices)
  {
    if src in info.activeVoices then
      info.(activeVoiceCount := info.activeVoiceCount - 1, activeVoices := Remove(info.activeVoices, src))
    else info
  }

  /** A request keeps a balanced bus within its limit: when the count is
      right, admission makes room for the voice recorded. */
  lemma PlayKeepsWithinLimit(info: BusInfo, src: nat)
    requires Balanced(info) && WithinLimit(info)
    ensures Balanced(Admit(info).info) && WithinLimit(Admit(info).info)
    ensures Balanced(Record(Admit(info).info, src)) && WithinLimit(Record(Admit(info).info, src))
  {
    var adm := Admit(info);
    assert |adm.info.activeVoices| < Capacity(info.voiceLimit);
  }

  /** With the handler evidently intended, any number of handler runs for
      any sources keeps a balanced bus balanced and within its limit. */
  lemma {:induction false} StoppedByIdentityKeepsLimit(info: BusInfo, stopped: seq<nat>)
    requires Balanced(info) && WithinLimit(info)
    ensures var r := StoppedAll(info, stopped); Balanced(r) && WithinLimit(r)
    decreases |stopped|
  {
    if stopped != [] {
      StoppedByIdentityKeepsLimit(StoppedByIdentity(info, stopped[0]), stopped[1..]);
    }
  }

  /** Runs the intended handler once per entry of `stopped`, in order. */
  function StoppedAll(info: BusInfo, stopped: seq<nat>): BusInfo
    decreases |stopped|
  {
    if stopped == [] then info else StoppedAll(StoppedByIdentity(info, stopped[0]), stopped[1..])
  }

  /** The handler as written takes the wrong voice off the queue: with A
      queued before B, B stopping leaves B queued and drops A, which still
      plays. The intended handler leaves exactly A. */
  lemma DequeueDropsWrongVoice(info: BusInfo, a: nat, b: nat)
    requires a != b && info.activeVoices == [a, b] && Balanced(info)
    ensures Dequeued(info).activeVoices == [b]
    ensures StoppedByIdentity(info, b).activeVoices == [a] && Balanced(StoppedByIdentity(info, b))
  {
    assert [a, b][1..] == [b];
    assert IndexOf([a, b], b) == 1;
    assert Remove([a, b], b) == [a] + [];
  }

  /** Count drift as written, on a bus of limit one: X plays, Y's request
      evicts X, X's completion runs two handlers (one per request) that
      dequeue Y and leave the count at -1; then X and Y are requested again
      and nothing is evicted, so the queue holds two voices. */
  lemma CountDriftExceedsLimit(info: BusInfo, x: nat, y: nat)
    requires info.voiceLimit == 1 && info.activeVoiceCount == 0 && info.activeVoices == []
    ensures var s1 := Record(Admit(info).info, x);
            var s2 := Record(Admit(s1).info, y);
            var s3 := Dequeued(Dequeued(s2));
            var s4 := Record(Admit(s3).info, x);
            var s5 := Record(Admit(s4).info, y);
            && s3.activeVoiceCount == -1 && s3.activeVoices == []
            && s5.activeVoices == [x, y] && !WithinLimit(s5) && !Balanced(s5)
  {
    var s1 := Record(Admit(info).info, x);
    assert s1.activeVoices == [x];
    var s2 := Record(Admit(s1).info, y);
    assert s2.activeVoices == [y] by {
      assert [x][1..] == [];
    }
  }
}
