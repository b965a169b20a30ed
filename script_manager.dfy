// Script/SoundManager.cs: bus admission of the newer copy.
//
// The manager holds the whole sound state: the registries (built once, by
// `Awake` and `Start`), every registered group's pool, every registered bus's
// record, and the playing state of the audio device, abstracted as the set
// `playing` of source ids. The groups' calls back into the singleton
// (`SoundManager.Instance.HandleAudioSourceStopped`) become calls of the
// manager's own method.

module ScriptSoundManager {
  import opened Lists
  import opened ScriptBus
  import opened ScriptSoundGroup

  /** The most voices a bus keeps: its limit, and one even when the limit is
      zero or negative, since a request is always admitted after eviction. */
  function Capacity(limit: int): nat
  {
    if limit < 1 then 1 else limit
  }

  /** A bus lists each voice once and stays within its capacity. */
  ghost predicate BusValid(limit: int, voices: seq<nat>)
  {
    Distinct(voices) && |voices| <= Capacity(limit)
  }

  /** The voices left after admission, and the voice evicted, if any. */
  datatype Admission = Admission(voices: seq<nat>, evicted: Option<nat>)

  /** Admission before a group is asked for a source: when the bus is at or
      over its limit and not empty, its oldest voice is evicted; the others
      keep their order. A bus within capacity has room for one more after. */
  function Admit(limit: int, voices: seq<nat>): (r: Admission)
    ensures r.evicted.Some? <==> |voices| >= limit && voices != []
    ensures r.evicted.Some? ==> r.evicted.value == voices[0] && r.voices == voices[1..]
    ensures r.evicted.None? ==> r.voices == voices
    ensures |voices| <= Capacity(limit) ==> |r.voices| < Capacity(limit)
  {
    if |voices| >= limit && |voices| > 0 then Admission(voices[1..], Some(voices[0]))
    else Admission(voices, None)
  }

  /** `HandleAudioSourceStopped`: the stopped source leaves the bus by
      identity, wherever it sits; nothing else leaves, and a source that is
      not listed (or an empty bus, which only warns) changes nothing. */
  function VoiceStopped(voices: seq<nat>, src: nat): (r: seq<nat>)
    ensures src !in voices ==> r == voices
    ensures src in voices ==> r == voices[..IndexOf(voices, src)] + voices[IndexOf(voices, src) + 1..]
    ensures multiset(r) == multiset(voices) - multiset{src}
    ensures Distinct(voices) ==> src !in r && Distinct(r)
    ensures forall v :: v != src ==> (v in r <==> v in voices)
  {
    if |voices| > 0 then
      RemoveMembership(voices, src, src);
      RemoveKeepsOthers(voices, src);
      Remove(voices, src)
    else voices
  }

  /** Recording a played source: it becomes the newest voice; a recycled
      source is moved there rather than listed twice. */
  function Record(voices: seq<nat>, src: nat, recycled: bool): (r: seq<nat>)
    ensures r != [] && Last(r) == src
    ensures recycled ==> multiset(r) == multiset(voices) - multiset{src} + multiset{src}
    ensures !recycled ==> multiset(r) == multiset(voices) + multiset{src}
    ensures !recycled ==> r[..|r| - 1] == voices
    ensures recycled ==> r[..|r| - 1] == Remove(voices, src)
    ensures forall v :: v in r ==> v in voices || v == src
  {
    if recycled then Remove(voices, src) + [src] else voices + [src]
  }

  /** The state one `PlaySoundInternal` leaves behind for a registered group
      whose bus is registered. */
  datatype PlayResult = PlayResult(pool: Pool, voices: seq<nat>, evicted: Option<nat>, source: Option<nat>)

  /** One request: admission on the bus, then acquisition from the group; a
      stolen source is first reported stopped to the bus, and a source
      obtained is recorded as the bus's newest voice. When the group has no
      source the bus keeps the admission's eviction and gains nothing. */
  function PlayStep(limit: int, voices: seq<nat>, pool: Pool): (r: PlayResult)
    ensures r.pool == Acquire(pool).pool && r.source == Acquire(pool).source
    ensures r.evicted == Admit(limit, voices).evicted
    ensures r.source.Some? ==> r.voices != [] && Last(r.voices) == r.source.value
    ensures r.source.None? ==> r.voices == Admit(limit, voices).voices
    ensures r.source.Some? && !Acquire(pool).recycled ==>
              r.voices == Admit(limit, voices).voices + [r.source.value]
    ensures r.source.Some? && Acquire(pool).recycled ==>
              r.voices == Remove(VoiceStopped(Admit(limit, voices).voices, r.source.value), r.source.value) + [r.source.value]
    ensures forall v :: v in r.voices ==> v in voices || r.source == Some(v)
  {
    var adm := Admit(limit, voices);
    var acq := Acquire(pool);
    if acq.source.None? then PlayResult(acq.pool, adm.voices, adm.evicted, None)
    else
      var src := acq.source.value;
      var notified := if acq.recycled then VoiceStopped(adm.voices, src) else adm.voices;
      assert forall v :: v in notified ==> v in voices;
      PlayResult(acq.pool, Record(notified, src, acq.recycled), adm.evicted, acq.source)
  }

  /** The bus limit holds after every request: a bus within its capacity
      stays within it, whatever it lists and whatever the group holds. */
  lemma PlayStepWithinCapacity(limit: int, voices: seq<nat>, pool: Pool)
    requires |voices| <= Capacity(limit)
    ensures |PlayStep(limit, voices, pool).voices| <= Capacity(limit)
  {
    var adm := Admit(limit, voices);
    var acq := Acquire(pool);
    assert |adm.voices| < Capacity(limit);
    if acq.source.Some? {
      var src := acq.source.value;
      var notified := if acq.recycled then VoiceStopped(adm.voices, src) else adm.voices;
      assert |notified| <= |adm.voices|;
      assert |Record(notified, src, acq.recycled)| <= |notified| + 1;
    }
  }

  /** A bus keeps listing each voice once after a request, as long as a
      source taken from the group's queue is not already on the bus; its
      capacity holds as well. */
  lemma PlayStepKeepsBusValid(limit: int, voices: seq<nat>, pool: Pool)
    requires BusValid(limit, voices)
    requires forall v :: v in voices ==> v !in pool.available
    ensures BusValid(limit, PlayStep(limit, voices, pool).voices)
  {
    PlayStepWithinCapacity(limit, voices, pool);
    var adm := Admit(limit, voices);
    var acq := Acquire(pool);
    if adm.evicted.Some? {
      DistinctTail(voices);
    }
    if acq.source.Some? {
      var src := acq.source.value;
      var notified := if acq.recycled then VoiceStopped(adm.voices, src) else adm.voices;
      assert src !in notified && Distinct(notified) && |notified| <= |adm.voices| by {
        if !acq.recycled {
          assert src in pool.available;
          assert forall v :: v in adm.voices ==> v in voices;
        }
      }
      assert Record(notified, src, acq.recycled) == notified + [src] by {
        if acq.recycled {
          assert Remove(notified, src) == notified;
        }
      }
      DistinctSnoc(notified, src);
    }
  }

  /** On a bus that lists each voice once, a recycled source is moved to
      the newest position: the other voices admission kept stay, in order,
      and the source appears once. */
  lemma RecycledMovedToNewest(limit: int, voices: seq<nat>, pool: Pool)
    requires Distinct(voices) && Acquire(pool).recycled
    ensures var kept, src := Admit(limit, voices).voices, Acquire(pool).source.value;
            PlayStep(limit, voices, pool).voices == Remove(kept, src) + [src]
  {
    var kept, src := Admit(limit, voices).voices, Acquire(pool).source.value;
    if Admit(limit, voices).evicted.Some? {
      DistinctTail(voices);
    }
    assert Distinct(kept);
    assert src !in VoiceStopped(kept, src);
  }

  /** The bus scenario of a voice limit of one: g1 plays X on the bus; a
      request for g2 on the same bus stops X, plays g2's source, and the bus
      still holds one voice. */
  lemma OneVoiceBusScenario(x: nat, y: nat)
    requires x != y
    ensures var first := PlayStep(1, [], Started([x]));
            var second := PlayStep(1, first.voices, Started([y]));
            && first.voices == [x]
            && second.evicted == Some(x) && second.source == Some(y)
            && second.voices == [y]
  {
  }

  /** What a request reports. An unknown group is ignored silently, an
      unregistered bus makes the dictionary lookup throw, and a group with
      no source logs a warning; none of the three plays anything. */
  datatype PlayOutcome = GroupNotFound | BusNotFound | NoSourceAvailable | Playing(source: nat)


  /** The group registry, and the group each configured source belongs to. */
  datatype Config = Config(groups: map<string, GroupSettings>, owner: map<nat, string>)

  /** `owner` names the one registered group listing each source. */
  ghost predicate ConfigValid(c: Config)
  {
    && (forall s :: s in c.owner ==> c.owner[s] in c.groups && s in c.groups[c.owner[s]].audioSources)
    && (forall n, s :: n in c.groups && s in c.groups[n].audioSources ==> s in c.owner && c.owner[s] == n)
  }

  /** The mutable state of the manager: each group's pool, each registered
      bus's record, and the sources the device plays. */
  datatype Mgr = Mgr(pools: map<string, Pool>, buses: map<SoundBus, SoundBusInfo>, playing: set<nat>)

  ghost predicate Shaped(c: Config, m: Mgr)
  {
    ConfigValid(c) && m.pools.Keys == c.groups.Keys
  }

  /** Every group's pool is valid. */
  ghost predicate PoolsValid(c: Config, m: Mgr)
    requires Shaped(c, m)
  {
    forall n :: n in m.pools ==> PoolValid(c.groups[n].audioSources, m.pools[n])
  }

  /** Every bus keeps within its capacity and lists no voice twice. */
  ghost predicate BusesValid(m: Mgr)
  {
    forall b :: b in m.buses ==> BusValid(m.buses[b].voiceLimit, m.buses[b].activeVoices)
  }

  /** Every voice of a bus is an active source of a group routed to it. */
  ghost predicate VoicesActive(c: Config, m: Mgr)
    requires Shaped(c, m)
  {
    forall b, v :: b in m.buses && v in m.buses[b].activeVoices ==>
      v in c.owner && c.groups[c.owner[v]].soundBUS == b && v in m.pools[c.owner[v]].active
  }

  /** Only active sources play. */
  ghost predicate PlayingActive(c: Config, m: Mgr)
    requires Shaped(c, m)
  {
    forall s :: s in m.playing ==> s in c.owner && s in m.pools[c.owner[s]].active
  }

  /** The manager's invariant. */
  ghost predicate Consistent(c: Config, m: Mgr)
  {
    Shaped(c, m) && PoolsValid(c, m) && BusesValid(m) && VoicesActive(c, m) && PlayingActive(c, m)
  }

  /** What a request changes, and what it reports. */
  datatype Played = Played(mgr: Mgr, outcome: PlayOutcome)

  /** `PlaySoundInternal` on values: an unknown group or an unregistered bus
      changes nothing; otherwise one `PlayStep` on the group's pool and bus,
      the evicted voice stops playing and the source obtained plays. Only
      that pool and the voices of that bus change. */
  function Play(c: Config, m: Mgr, name: string): (r: Played)
    requires Shaped(c, m)
    ensures name !in c.groups ==> r == Played(m, GroupNotFound)
    ensures name in c.groups && c.groups[name].soundBUS !in m.buses ==> r == Played(m, BusNotFound)
    ensures r.mgr.pools.Keys == m.pools.Keys && r.mgr.buses.Keys == m.buses.Keys
    ensures forall n :: n in m.pools && n != name ==> r.mgr.pools[n] == m.pools[n]
    ensures forall b :: b in m.buses ==> r.mgr.buses[b] == m.buses[b].(activeVoices := r.mgr.buses[b].activeVoices)
    ensures forall b :: b in m.buses && (name !in c.groups || b != c.groups[name].soundBUS) ==>
              r.mgr.buses[b] == m.buses[b]
    ensures r.outcome.Playing? ==> name in c.groups && c.groups[name].soundBUS in m.buses
    ensures r.outcome.Playing? ==>
              var b := c.groups[name].soundBUS;
              && r.outcome.source in r.mgr.playing
              && r.outcome.source in r.mgr.pools[name].active
              && r.mgr.buses[b].activeVoices != [] && Last(r.mgr.buses[b].activeVoices) == r.outcome.source
    ensures name in c.groups && c.groups[name].soundBUS in m.buses ==>
              var b := c.groups[name].soundBUS;
              var step := PlayStep(m.buses[b].voiceLimit, m.buses[b].activeVoices, m.pools[name]);
              && r.outcome == (if step.source.None? then NoSourceAvailable else Playing(step.source.value))
              && r.mgr.pools[name] == Acquire(m.pools[name]).pool
              && r.mgr.buses[b].activeVoices == step.voices
              && r.mgr.playing == (m.playing - OptSet(step.evicted)) + OptSet(step.source)
              && (step.evicted.Some? && step.evicted != step.source ==> step.evicted.value !in r.mgr.playing)
  {
    if name !in c.groups then Played(m, GroupNotFound)
    else if c.groups[name].soundBUS !in m.buses then Played(m, BusNotFound)
    else
      var b := c.groups[name].soundBUS;
      var step := PlayStep(m.buses[b].voiceLimit, m.buses[b].activeVoices, m.pools[name]);
      Played(Apply(m, name, b, step),
             if step.source.Some? then Playing(step.source.value) else NoSourceAvailable)
  }

  /** The manager state after one `PlayStep` on group `name` and bus `b`:
      the evicted voice stops playing and the source obtained plays. */
  function Apply(m: Mgr, name: string, b: SoundBus, step: PlayResult): Mgr
    requires b in m.buses
  {
    Mgr(m.pools[name := step.pool], m.buses[b := m.buses[b].(activeVoices := step.voices)],
        (m.playing - OptSet(step.evicted)) + OptSet(step.source))
  }

  /** A source that ends, or is stopped: its group releases it, its bus (if
      registered) drops it, and it no longer plays. */
  function Released(c: Config, m: Mgr, name: string, src: nat): (r: Mgr)
    requires Shaped(c, m) && name in c.groups
    ensures r.pools.Keys == m.pools.Keys && r.buses.Keys == m.buses.Keys
    ensures src !in r.playing && r.playing == m.playing - {src}
  {
    var b := c.groups[name].soundBUS;
    Mgr(m.pools[name := Release(m.pools[name], src)],
        if b in m.buses then m.buses[b := m.buses[b].(activeVoices := VoiceStopped(m.buses[b].activeVoices, src))]
        else m.buses,
        m.playing - {src})
  }

  /** `SoundGroup.Stop(src)` with its report to the manager: the source stops
      playing; the lookup of its waiter throws for a source never handed
      out, which changes nothing more; otherwise the source is released. */
  function Stopped(c: Config, m: Mgr, name: string, src: nat): (r: Mgr)
    requires Shaped(c, m) && name in c.groups
    ensures src !in r.playing
  {
    if src in m.pools[name].keys then Released(c, m, name, src)
    else m.(playing := m.playing - {src})
  }

  /** `SetBusVolume` on a registered bus: its level and its mixer's level
      are both `volume`. */
  function VolumeSet(m: Mgr, bus: SoundBus, volume: real): (r: Mgr)
    requires bus in m.buses
    ensures r.buses.Keys == m.buses.Keys
    ensures r.buses[bus].individualVolume == volume && r.buses[bus].mixerLevel == volume
  {
    m.(buses := m.buses[bus := m.buses[bus].(individualVolume := volume, mixerLevel := volume)])
  }

  /** An active source is not also queued. */
  lemma ActiveNotQueued(sources: seq<nat>, p: Pool, v: nat)
    requires PoolValid(sources, p) && v in p.active
    ensures v !in p.available && v in sources
  {
    assert multiset(p.available + p.active)[v] == multiset(p.available)[v] + multiset(p.active)[v];
    assert multiset(sources)[v] <= 1;
  }

  /** A queued source is one of the configured ones. */
  lemma QueuedIsConfigured(sources: seq<nat>, p: Pool, v: nat)
    requires PoolValid(sources, p) && v in p.available
    ensures v in sources
  {
    assert multiset(p.available + p.active)[v] > 0;
  }

  /** A source configured for a group is owned by it. */
  lemma Owned(c: Config, name: string, src: nat)
    requires ConfigValid(c) && name in c.groups && src in c.groups[name].audioSources
    ensures src in c.owner && c.owner[src] == name
  {
  }

  lemma ReleasedPoolsValid(c: Config, m: Mgr, name: string, src: nat)
    requires Shaped(c, m) && PoolsValid(c, m) && name in m.pools && src in m.pools[name].active
    ensures Shaped(c, Released(c, m, name, src)) && PoolsValid(c, Released(c, m, name, src))
  {
    ReleaseKeepsValid(c.groups[name].audioSources, m.pools[name], src);
  }

  lemma ReleasedBusesValid(c: Config, m: Mgr, name: string, src: nat)
    requires Shaped(c, m) && BusesValid(m) && name in m.pools
    ensures BusesValid(Released(c, m, name, src))
  {
    var r := Released(c, m, name, src);
    forall b | b in r.buses ensures BusValid(r.buses[b].voiceLimit, r.buses[b].activeVoices) {
      if b == c.groups[name].soundBUS {
        assert |VoiceStopped(m.buses[b].activeVoices, src)| <= |m.buses[b].activeVoices|;
      }
    }
  }

  lemma ReleasedVoicesActive(c: Config, m: Mgr, name: string, src: nat)
    requires Shaped(c, m) && VoicesActive(c, m) && name in m.pools
    requires src in c.owner && c.owner[src] == name
    requires c.groups[name].soundBUS in m.buses ==> Distinct(m.buses[c.groups[name].soundBUS].activeVoices)
    ensures Shaped(c, Released(c, m, name, src)) && VoicesActive(c, Released(c, m, name, src))
  {
    var r := Released(c, m, name, src);
    var bus := c.groups[name].soundBUS;
    forall b, v | b in r.buses && v in r.buses[b].activeVoices
      ensures v in c.owner && c.groups[c.owner[v]].soundBUS == b && v in r.pools[c.owner[v]].active
    {
      assert v in m.buses[b].activeVoices && v != src by {
        if b == bus {
          assert r.buses[b].activeVoices == VoiceStopped(m.buses[b].activeVoices, src);
        }
      }
      if c.owner[v] == name {
        RemoveMembership(m.pools[name].active, src, v);
      }
    }
  }

  lemma ReleasedPlayingActive(c: Config, m: Mgr, name: string, src: nat)
    requires Shaped(c, m) && PlayingActive(c, m) && name in m.pools
    ensures Shaped(c, Released(c, m, name, src)) && PlayingActive(c, Released(c, m, name, src))
  {
    var r := Released(c, m, name, src);
    forall s | s in r.playing
      ensures s in c.owner && s in r.pools[c.owner[s]].active
    {
      if c.owner[s] == name {
        RemoveMembership(m.pools[name].active, src, s);
      }
    }
  }

  /** The source a group hands out is one of its own. */
  lemma AcquiredOwned(c: Config, m: Mgr, name: string)
    requires Shaped(c, m) && name in m.pools && PoolValid(c.groups[name].audioSources, m.pools[name])
    requires Acquire(m.pools[name]).source.Some?
    ensures var src := Acquire(m.pools[name]).source.value;
            src in c.owner && c.owner[src] == name
  {
    var p := m.pools[name];
    AcquireConserves(p);
    assert multiset(p.available + p.active)[Acquire(p).source.value] > 0;
  }

  lemma PlayedPoolsValid(c: Config, m: Mgr, name: string)
    requires Shaped(c, m) && PoolsValid(c, m)
    ensures Shaped(c, Play(c, m, name).mgr) && PoolsValid(c, Play(c, m, name).mgr)
  {
    if name in c.groups && c.groups[name].soundBUS in m.buses {
      AcquireKeepsValid(c.groups[name].audioSources, m.pools[name]);
    }
  }

  lemma PlayedBusesValid(c: Config, m: Mgr, name: string)
    requires Shaped(c, m) && BusesValid(m)
    requires name in c.groups && c.groups[name].soundBUS in m.buses ==>
               forall v :: v in m.buses[c.groups[name].soundBUS].activeVoices ==> v !in m.pools[name].available
    ensures BusesValid(Play(c, m, name).mgr)
  {
    var r := Play(c, m, name).mgr;
    if name in c.groups && c.groups[name].soundBUS in m.buses {
      var b := c.groups[name].soundBUS;
      PlayStepKeepsBusValid(m.buses[b].voiceLimit, m.buses[b].activeVoices, m.pools[name]);
      forall b' | b' in r.buses
        ensures BusValid(r.buses[b'].voiceLimit, r.buses[b'].activeVoices)
      {
        if b' != b {
          assert r.buses[b'] == m.buses[b'];
        }
      }
    }
  }

  /** What a step must do for the voices to stay active: no active source
      of the group stops being active, the bus gains no voice but the
      source obtained, and that source is an active source of the group. */
  ghost predicate StepKeepsActive(c: Config, m: Mgr, name: string, b: SoundBus, step: PlayResult)
    requires Shaped(c, m) && name in m.pools && b in m.buses
  {
    && (forall s :: s in m.pools[name].active ==> s in step.pool.active)
    && (forall v :: v in step.voices ==> v in m.buses[b].activeVoices || step.source == Some(v))
    && (step.source.Some? ==>
          && step.source.value in c.owner && c.owner[step.source.value] == name
          && step.source.value in step.pool.active)
  }

  lemma AppliedVoicesActive(c: Config, m: Mgr, name: string, step: PlayResult)
    requires Shaped(c, m) && VoicesActive(c, m) && name in c.groups && c.groups[name].soundBUS in m.buses
    requires StepKeepsActive(c, m, name, c.groups[name].soundBUS, step)
    ensures Shaped(c, Apply(m, name, c.groups[name].soundBUS, step))
    ensures VoicesActive(c, Apply(m, name, c.groups[name].soundBUS, step))
  {
    var bus := c.groups[name].soundBUS;
    var r := Apply(m, name, bus, step);
    forall b, v | b in r.buses && v in r.buses[b].activeVoices
      ensures v in c.owner && c.groups[c.owner[v]].soundBUS == b && v in r.pools[c.owner[v]].active
    {
      if b != bus {
        assert v in m.buses[b].activeVoices;
        assert c.owner[v] != name;
      } else if step.source != Some(v) {
        assert v in m.buses[b].activeVoices;
        assert v in m.pools[c.owner[v]].active;
      }
    }
  }

  lemma AppliedPlayingActive(c: Config, m: Mgr, name: string, step: PlayResult)
    requires Shaped(c, m) && PlayingActive(c, m) && name in c.groups && c.groups[name].soundBUS in m.buses
    requires StepKeepsActive(c, m, name, c.groups[name].soundBUS, step)
    ensures Shaped(c, Apply(m, name, c.groups[name].soundBUS, step))
    ensures PlayingActive(c, Apply(m, name, c.groups[name].soundBUS, step))
  {
    var r := Apply(m, name, c.groups[name].soundBUS, step);
    forall s | s in r.playing
      ensures s in c.owner && s in r.pools[c.owner[s]].active
    {
      if step.source != Some(s) {
        assert s in m.playing;
      }
    }
  }

  /** Every request keeps the manager's invariant. */
  lemma PlayKeepsConsistent(c: Config, m: Mgr, name: string)
    requires Consistent(c, m)
    ensures Consistent(c, Play(c, m, name).mgr)
  {
    if name in m.pools {
      assert PoolValid(c.groups[name].audioSources, m.pools[name]);
      if Acquire(m.pools[name]).source.Some? {
        AcquiredOwned(c, m, name);
      }
      if c.groups[name].soundBUS in m.buses {
        assert VoicesActive(c, m);
        forall v | v in m.buses[c.groups[name].soundBUS].activeVoices ensures v !in m.pools[name].available {
          if v in m.pools[name].available {
            QueuedIsConfigured(c.groups[name].audioSources, m.pools[name], v);
            Owned(c, name, v);
            ActiveNotQueued(c.groups[name].audioSources, m.pools[name], v);
          }
        }
      }
    }
    PlayedPoolsValid(c, m, name);
    PlayedBusesValid(c, m, name);
    if name in c.groups && c.groups[name].soundBUS in m.buses {
      var b := c.groups[name].soundBUS;
      var step := PlayStep(m.buses[b].voiceLimit, m.buses[b].activeVoices, m.pools[name]);
      assert StepKeepsActive(c, m, name, b, step);
      AppliedVoicesActive(c, m, name, step);
      AppliedPlayingActive(c, m, name, step);
    }
  }

  /** Releasing an active source keeps the manager's invariant. */
  lemma ReleasedKeepsConsistent(c: Config, m: Mgr, name: string, src: nat)
    requires Consistent(c, m) && name in m.pools && src in m.pools[name].active
    ensures Consistent(c, Released(c, m, name, src))
  {
    ActiveNotQueued(c.groups[name].audioSources, m.pools[name], src);
    Owned(c, name, src);
    if c.groups[name].soundBUS in m.buses {
      assert BusValid(m.buses[c.groups[name].soundBUS].voiceLimit, m.buses[c.groups[name].soundBUS].activeVoices);
    }
    ReleasedPoolsValid(c, m, name, src);
    ReleasedBusesValid(c, m, name, src);
    ReleasedVoicesActive(c, m, name, src);
    ReleasedPlayingActive(c, m, name, src);
  }

  /** A source that stops playing on its own leaves the invariant intact. */
  lemma StoppedPlayingKeepsConsistent(c: Config, m: Mgr, src: nat)
    requires Consistent(c, m)
    ensures Consistent(c, m.(playing := m.playing - {src}))
  {
    assert PlayingActive(c, m);
  }

  /** `Stop` keeps the invariant for an active source and for one never
      handed out; for a source handed out earlier whose sound has ended,
      see `ReleaseOfInactiveDuplicates`. */
  lemma StoppedKeepsConsistent(c: Config, m: Mgr, name: string, src: nat)
    requires Consistent(c, m) && name in m.pools
    requires src in m.pools[name].active || src !in m.pools[name].keys
    ensures Consistent(c, Stopped(c, m, name, src))
  {
    if src in m.pools[name].keys {
      ReleasedKeepsConsistent(c, m, name, src);
    } else {
      StoppedPlayingKeepsConsistent(c, m, src);
    }
  }

  /** Setting a bus's volume keeps the invariant. */
  lemma VolumeSetKeepsConsistent(c: Config, m: Mgr, bus: SoundBus, volume: real)
    requires Consistent(c, m) && bus in m.buses
    ensures Consistent(c, VolumeSet(m, bus, volume))
  {
    var r := VolumeSet(m, bus, volume);
    assert BusesValid(r) by {
      assert BusesValid(m);
    }
    assert VoicesActive(c, r) by {
      assert VoicesActive(c, m);
    }
    assert PlayingActive(c, r) by {
      assert PlayingActive(c, m);
    }
  }

  /** The key each registry uses: a bus record's bus, a group's name. */
  function BusOf(info: SoundBusInfo): SoundBus { info.soundBus }
  function NameOf(g: GroupSettings): string { g.name }
  function SourcesOf(g: GroupSettings): seq<nat> { g.audioSources }

  /** The group registry `Start` builds from a list in which no two groups
      share a source: each source belongs to exactly one registered group. */
  lemma RegistryConsistent(groupsList: seq<GroupSettings>, groups: map<string, GroupSettings>, owner: map<nat, string>)
    requires forall i, j, s :: 0 <= i < j < |groupsList| && s in groupsList[i].audioSources ==>
               s !in groupsList[j].audioSources
    requires forall n :: n in groups ==> LastIndex(groupsList, NameOf, n) >= 0
    requires forall n :: n in groups ==> groups[n] == groupsList[LastIndex(groupsList, NameOf, n)]
    requires forall s :: s in owner ==> owner[s] in groups && s in groups[owner[s]].audioSources
    requires forall n, s :: n in groups && s in groups[n].audioSources ==> s in owner
    ensures ConfigValid(Config(groups, owner))
  {
    RegistryOwnsUniquely(groupsList, NameOf, SourcesOf, groups, owner);
  }

  /** The pools `Start` gives the registered groups. */
  function StartedPools(groups: map<string, GroupSettings>): (pools: map<string, Pool>)
    ensures pools.Keys == groups.Keys
    ensures forall n :: n in pools ==> pools[n].available == groups[n].audioSources && pools[n].active == []
  {
    map n | n in groups :: Started(groups[n].audioSources)
  }

  /** The state `Awake` and `Start` build from lists whose buses are silent
      and whose groups list distinct sources that no two groups share is
      consistent. */
  lemma StartedConsistent(busInfoList: seq<SoundBusInfo>, groupsList: seq<GroupSettings>,
                          buses: map<SoundBus, SoundBusInfo>, groups: map<string, GroupSettings>)
    requires forall i :: 0 <= i < |busInfoList| ==> busInfoList[i].activeVoices == []
    requires forall i :: 0 <= i < |groupsList| ==> Distinct(groupsList[i].audioSources)
    requires forall i, j, s :: 0 <= i < j < |groupsList| && s in groupsList[i].audioSources ==>
               s !in groupsList[j].audioSources
    requires forall b :: b in buses ==> LastIndex(busInfoList, BusOf, b) >= 0
    requires forall b :: b in buses ==> buses[b] == busInfoList[LastIndex(busInfoList, BusOf, b)]
    requires forall n :: n in groups ==> LastIndex(groupsList, NameOf, n) >= 0
    requires forall n :: n in groups ==> groups[n] == groupsList[LastIndex(groupsList, NameOf, n)]
    ensures Consistent(Config(groups, Owners(groups, SourcesOf)), Mgr(StartedPools(groups), buses, {}))
  {
    var c, m := Config(groups, Owners(groups, SourcesOf)), Mgr(StartedPools(groups), buses, {});
    RegistryConsistent(groupsList, groups, c.owner);
    forall n | n in m.pools ensures PoolValid(groups[n].audioSources, m.pools[n]) {
      assert groups[n] == groupsList[LastIndex(groupsList, NameOf, n)];
    }
    forall b | b in buses ensures buses[b].activeVoices == [] {
      assert buses[b] == busInfoList[LastIndex(busInfoList, BusOf, b)];
    }
  }

  class SoundManager {
    /** The bus records as listed, in order. */
    const soundBusInfoList: seq<SoundBusInfo>
    /** The registered groups by name. */
    const soundGroups: map<string, GroupSettings>
    /** The registered group each configured source belongs to. */
    ghost const owner: map<nat, string>
    /** The registered bus records by bus. */
    var allBusInfo: map<SoundBus, SoundBusInfo>
    /** Each registered group's pool. */
    var pools: map<string, Pool>
    /** The sources the audio device is playing. */
    var playing: set<nat>

    ghost function Cfg(): Config
    {
      Config(soundGroups, owner)
    }

    function State(): Mgr
      reads this
    {
      Mgr(pools, allBusInfo, playing)
    }

    ghost predicate Valid()
      reads this
    {
      Consistent(Cfg(), State())
    }

    /** `Awake` and `Start`: each bus is mapped to the LAST record listed for
        it, each group name to the LAST group of that name. Every group has
        started, no two groups share a source, and every bus starts silent. */
    constructor (busInfoList: seq<SoundBusInfo>, groupsList: seq<GroupSettings>)
      requires forall i :: 0 <= i < |busInfoList| ==> busInfoList[i].activeVoices == []
      requires forall i :: 0 <= i < |groupsList| ==> Distinct(groupsList[i].audioSources)
      requires forall i, j, s :: 0 <= i < j < |groupsList| && s in groupsList[i].audioSources ==>
                 s !in groupsList[j].audioSources
      ensures Valid() && playing == {}
      ensures soundBusInfoList == busInfoList
      ensures forall b :: b in allBusInfo <==> LastIndex(busInfoList, BusOf, b) >= 0
      ensures forall b :: b in allBusInfo ==> allBusInfo[b] == busInfoList[LastIndex(busInfoList, BusOf, b)]
      ensures forall n :: n in soundGroups <==> LastIndex(groupsList, NameOf, n) >= 0
      ensures forall n :: n in soundGroups ==> soundGroups[n] == groupsList[LastIndex(groupsList, NameOf, n)]
      ensures forall n :: n in pools ==> pools[n] == Started(soundGroups[n].audioSources)
    {
      soundBusInfoList := busInfoList;
      var buses := BuildRegistry(busInfoList, BusOf);
      var groups := BuildRegistry(groupsList, NameOf);
      allBusInfo := buses;
      soundGroups := groups;
      owner := Owners(groups, SourcesOf);
      pools := StartedPools(groups);
      playing := {};
      new;
      StartedConsistent(busInfoList, groupsList, buses, groups);
    }

    /** `GetBUSInfoFromList`: the FIRST record listed for `bus`, or null. */
    method GetBUSInfoFromList(bus: SoundBus) returns (info: Option<SoundBusInfo>)
      ensures info.None? <==> forall i :: 0 <= i < |soundBusInfoList| ==> soundBusInfoList[i].soundBus != bus
      ensures info.Some? ==> info.value == soundBusInfoList[FirstIndex(soundBusInfoList, BusOf, bus)]
    {
      for i := 0 to |soundBusInfoList|
        invariant forall j :: 0 <= j < i ==> soundBusInfoList[j].soundBus != bus
      {
        if soundBusInfoList[i].soundBus == bus {
          assert FirstIndex(soundBusInfoList, BusOf, bus) == i;
          return Some(soundBusInfoList[i]);
        }
      }
      return None;
    }

    /** `HandleAudioSourceStopped(soundGroup, src)`: the source leaves the
        voices of the group's bus; a bus missing from the registry throws,
        which changes nothing (`found` is false). */
    method HandleAudioSourceStopped(soundGroup: GroupSettings, src: nat) returns (found: bool)
      modifies this
      ensures found <==> soundGroup.soundBUS in old(allBusInfo)
      ensures var b := soundGroup.soundBUS;
              allBusInfo == if found then old(allBusInfo)[b := old(allBusInfo)[b].(activeVoices := VoiceStopped(old(allBusInfo)[b].activeVoices, src))]
                            else old(allBusInfo)
      ensures pools == old(pools) && playing == old(playing)
    {
      var bus := soundGroup.soundBUS;
      if bus !in allBusInfo {
        return false;
      }
      var busInfo := allBusInfo[bus];
      if |busInfo.activeVoices| > 0 {
        allBusInfo := allBusInfo[bus := busInfo.(activeVoices := Remove(busInfo.activeVoices, src))];
      }
      found := true;
    }

    /** `PlaySoundInternal` (and both `PlaySound` overloads, whose location
        argument only moves the source). The group's `GetAvailableSource`
        is `Acquire` on its pool. */
    method PlaySoundInternal(soundGroupName: string) returns (outcome: PlayOutcome)
      requires Valid()
      modifies this
      ensures Valid()
      ensures var r := Play(Cfg(), old(State()), soundGroupName);
              State() == r.mgr && outcome == r.outcome
    {
      ghost var before := State();
      if soundGroupName !in soundGroups {
        return GroupNotFound;
      }
      var soundGroup := soundGroups[soundGroupName];
      var bus := soundGroup.soundBUS;
      if bus !in allBusInfo {
        return BusNotFound;
      }
      ghost var step := PlayStep(allBusInfo[bus].voiceLimit, allBusInfo[bus].activeVoices, pools[soundGroupName]);
      ghost var admission := Admit(allBusInfo[bus].voiceLimit, allBusInfo[bus].activeVoices);
      // The bus record and the device state are updated locally and written back at the end.
      var busInfo, nowPlaying := allBusInfo[bus], playing;
      if |busInfo.activeVoices| >= busInfo.voiceLimit && |busInfo.activeVoices| > 0 {
        var toStop := busInfo.activeVoices[0];
        nowPlaying := nowPlaying - {toStop};
        busInfo := busInfo.(activeVoices := busInfo.activeVoices[1..]);
      }
      assert busInfo.activeVoices == admission.voices;
      assert nowPlaying == before.playing - OptSet(admission.evicted);
      ghost var admitted := nowPlaying;
      var acquired := Acquire(pools[soundGroupName]);
      var source, recycled := acquired.source, acquired.recycled;
      assert source == step.source && acquired.pool == step.pool;
      if recycled {
        nowPlaying := nowPlaying - {source.value};
        busInfo := busInfo.(activeVoices := VoiceStopped(busInfo.activeVoices, source.value));
      }
      if source.Some? {
        var kept := if recycled then Remove(busInfo.activeVoices, source.value) else busInfo.activeVoices;
        assert kept + [source.value] == step.voices;
        busInfo := busInfo.(activeVoices := kept + [source.value]);
        if recycled {
          Readded(admitted, source.value);
        }
        nowPlaying := nowPlaying + {source.value};
        outcome := Playing(source.value);
      } else {
        outcome := NoSourceAvailable;
      }
      assert nowPlaying == admitted + OptSet(step.source);
      assert busInfo == before.buses[bus].(activeVoices := step.voices);
      pools := pools[soundGroupName := acquired.pool];
      allBusInfo := allBusInfo[bus := busInfo];
      playing := nowPlaying;
      assert State() == Apply(before, soundGroupName, bus, step);
      PlayKeepsConsistent(Cfg(), before, soundGroupName);
    }

    /** A pending completion for `src` in group `soundGroupName` runs once its
        source has stopped playing: the group releases it and the bus drops
        it. */
    method Complete(soundGroupName: string, src: nat)
      requires Valid()
      requires soundGroupName in soundGroups && src in pools[soundGroupName].pending
      requires src !in playing
      modifies this
      ensures Valid()
      ensures State() == Released(Cfg(), old(State()), soundGroupName, src)
    {
      ghost var before := State();
      pools := pools[soundGroupName := Release(pools[soundGroupName], src)];
      var _ := HandleAudioSourceStopped(soundGroups[soundGroupName], src);
      assert State() == Released(Cfg(), before, soundGroupName, src);
      ReleasedKeepsConsistent(Cfg(), before, soundGroupName, src);
    }

    /** `SoundGroup.Stop(src)` with its report to the manager. The invariant
        survives when the source is active or was never handed out. */
    method StopSource(soundGroupName: string, src: nat) returns (found: bool)
      requires Valid() && soundGroupName in soundGroups
      modifies this
      ensures found <==> src in old(pools[soundGroupName].keys)
      ensures State() == Stopped(Cfg(), old(State()), soundGroupName, src)
      ensures src in old(pools[soundGroupName].active) || !found ==> Valid()
    {
      ghost var before := State();
      playing := playing - {src};
      if src !in pools[soundGroupName].keys {
        found := false;
      } else {
        pools := pools[soundGroupName := Release(pools[soundGroupName], src)];
        var _ := HandleAudioSourceStopped(soundGroups[soundGroupName], src);
        found := true;
      }
      assert State() == Stopped(Cfg(), before, soundGroupName, src);
      if src in before.pools[soundGroupName].active || src !in before.pools[soundGroupName].keys {
        StoppedKeepsConsistent(Cfg(), before, soundGroupName, src);
      }
    }

    /** The device finishes playing `src` on its own. */
    method PlaybackEnded(src: nat)
      requires Valid()
      modifies this
      ensures Valid() && State() == old(State()).(playing := old(playing) - {src})
    {
      ghost var before := State();
      playing := playing - {src};
      StoppedPlayingKeepsConsistent(Cfg(), before, src);
    }

    /** `SetBusVolume`: the bus's own level and its mixer are set to
        `volume`; a bus missing from the registry throws, changing nothing. */
    method SetBusVolume(bus: SoundBus, volume: real) returns (found: bool)
      requires Valid()
      modifies this
      ensures Valid()
      ensures found <==> bus in old(allBusInfo)
      ensures State() == if found then VolumeSet(old(State()), bus, volume) else old(State())
    {
      if bus !in allBusInfo {
        return false;
      }
      ghost var before := State();
      var control := allBusInfo[bus];
      allBusInfo := allBusInfo[bus := control.(individualVolume := volume, mixerLevel := volume)];
      found := true;
      assert State() == VolumeSet(before, bus, volume);
      VolumeSetKeepsConsistent(Cfg(), before, bus, volume);
    }
  }
}
