// SoundManager.cs: bus admission of the older copy.
//
// The manager holds the whole sound state: the registries (built once, by
// `Awake` and `Start`), every registered group's pool, every registered bus's
// record, and the playing state of the audio device, abstracted as the set
// `playing` of source ids. A group raises `OnAudioSourceStopped` once per
// completion; every handler subscribed to it runs, and each one is the
// manager's `HandleAudioSourceStopped`.

module LegacyManagerModel {
  import opened Lists
  import opened LegacySoundBus
  import opened LegacySoundGroup
  import opened LegacyManagerState

  /** What a request changes, and what it reports. */
  datatype Played = Played(mgr: Mgr, outcome: PlayOutcome)

  /** `PlaySoundInternal` on values: an unknown group changes nothing, and
      so does an unregistered bus (the lookup throws). Otherwise admission
      on the group's bus record, then `GetAvailableSource`; a source
      obtained is counted, queued, plays, and the handler is subscribed once
      more. The evicted voice stops in any case. */
  function Play(c: Config, m: Mgr, name: string): (r: Played)
    requires Shaped(c, m)
    ensures name !in c.groups ==> r == Played(m, GroupNotFound)
    ensures name in c.groups && c.groups[name].soundBUS !in m.buses ==> r == Played(m, BusNotFound)
    ensures r.mgr.pools.Keys == m.pools.Keys && r.mgr.buses.Keys == m.buses.Keys
    ensures name in c.groups && c.groups[name].soundBUS in m.buses ==>
              var b := c.groups[name].soundBUS;
              var adm, acq := Admit(m.buses[b]), Acquire(m.pools[name]);
              && r.outcome == (if acq.source.None? then NoSourceAvailable else Playing(acq.source.value))
              && r.mgr.pools[name] == (if acq.source.None? then acq.pool else Subscribed(acq.pool))
              && r.mgr.buses[b] == (if acq.source.None? then adm.info else Record(adm.info, acq.source.value))
              && r.mgr.playing == (m.playing - OptSet(adm.evicted)) + OptSet(acq.source)
              && (adm.evicted.Some? && adm.evicted != acq.source ==> adm.evicted.value !in r.mgr.playing)
  {
    if name !in c.groups then Played(m, GroupNotFound)
    else if c.groups[name].soundBUS !in m.buses then Played(m, BusNotFound)
    else
      var b := c.groups[name].soundBUS;
      var acq := Acquire(m.pools[name]);
      Played(Served(m, name, b, Admit(m.buses[b]), acq),
             if acq.source.None? then NoSourceAvailable else Playing(acq.source.value))
  }

  /** The state after admission `adm` on bus `b` and acquisition `acq` from
      group `name`'s pool: the evicted voice stops; a source obtained is
      counted, queued and plays, and the handler is subscribed once more. */
  function Served(m: Mgr, name: string, b: SoundBus, adm: Admission, acq: Acquired): Mgr
  {
    var playing := m.playing - OptSet(adm.evicted);
    if acq.source.None? then Mgr(m.pools[name := acq.pool], m.buses[b := adm.info], playing)
    else
      var src := acq.source.value;
      Mgr(m.pools[name := Subscribed(acq.pool)], m.buses[b := Record(adm.info, src)], playing + {src})
  }

  /** What a request changes besides its group's pool and its bus's record,
      and what it does to them: no other group's pool and no other bus's
      record changes; on every bus the count keeps its distance from the
      queue length; a source played is the bus's newest voice and adds one
      handler. */
  lemma PlayedEffects(c: Config, m: Mgr, name: string)
    requires Shaped(c, m)
    ensures var r := Play(c, m, name);
            && (forall n :: n in m.pools && n != name ==> r.mgr.pools[n] == m.pools[n])
            && (forall b :: b in m.buses && (name !in c.groups || b != c.groups[name].soundBUS) ==>
                  r.mgr.buses[b] == m.buses[b])
            && (forall b :: b in m.buses ==>
                  r.mgr.buses[b].activeVoiceCount - |r.mgr.buses[b].activeVoices| ==
                  m.buses[b].activeVoiceCount - |m.buses[b].activeVoices|)
            && (r.outcome.NoSourceAvailable? ==> r.mgr.pools == m.pools)
            && (r.outcome.Playing? ==>
                  && name in c.groups && c.groups[name].soundBUS in m.buses
                  && var b := c.groups[name].soundBUS;
                  && r.outcome.source in r.mgr.playing
                  && r.mgr.pools[name].handlers == m.pools[name].handlers + 1
                  && r.mgr.buses[b].activeVoices != [] && Last(r.mgr.buses[b].activeVoices) == r.outcome.source)
  {
  }

  /** One run of `HandleAudioSourceStopped` for group `name`: the bus
      lookup throws for an unregistered bus, changing nothing; otherwise
      the bus dequeues its front voice and uncounts one, and the handler
      unsubscribes itself once. */
  function Handled(c: Config, m: Mgr, name: string): (r: Mgr)
    requires Shaped(c, m) && name in c.groups
    ensures r.pools.Keys == m.pools.Keys && r.buses.Keys == m.buses.Keys && r.playing == m.playing
  {
    var b := c.groups[name].soundBUS;
    if b !in m.buses then m
    else Mgr(m.pools[name := Unsubscribed(m.pools[name])], m.buses[b := Dequeued(m.buses[b])], m.playing)
  }

  /** `k` runs of the handler for group `name`, stopping at the first that
      throws: the bus loses its first `k` voices and `k` from its count, and
      `k` subscriptions go. */
  function Notified(c: Config, m: Mgr, name: string, k: nat): (r: Mgr)
    requires Shaped(c, m) && name in c.groups
    ensures r.pools.Keys == m.pools.Keys && r.buses.Keys == m.buses.Keys && r.playing == m.playing
    ensures forall n :: n in m.pools && n != name ==> r.pools[n] == m.pools[n]
    ensures forall b :: b in m.buses && b != c.groups[name].soundBUS ==> r.buses[b] == m.buses[b]
  {
    var b := c.groups[name].soundBUS;
    if b !in m.buses then m
    else
      var p := m.pools[name];
      Mgr(m.pools[name := p.(handlers := if k <= p.handlers then p.handlers - k else 0)],
          m.buses[b := DequeuedTimes(m.buses[b], k)], m.playing)
  }

  /** One more handler run extends `k` runs by one. */
  lemma NotifiedStep(c: Config, m: Mgr, name: string, k: nat)
    requires Shaped(c, m) && name in c.groups
    ensures Shaped(c, Notified(c, m, name, k))
    ensures Handled(c, Notified(c, m, name, k), name) == Notified(c, m, name, k + 1)
  {
    var b := c.groups[name].soundBUS;
    if b in m.buses {
      var r := Notified(c, m, name, k);
      assert DequeuedTimes(m.buses[b], k + 1) == Dequeued(DequeuedTimes(m.buses[b], k));
      assert Unsubscribed(r.pools[name]) == m.pools[name].(handlers := Notified(c, m, name, k + 1).pools[name].handlers);
    }
  }

  /** The completion of one waiter of `src` in group `name`: the group
      releases the source, then raises its event, which runs every handler
      subscribed at that moment. */
  function Completed(c: Config, m: Mgr, name: string, src: nat): (r: Mgr)
    requires Shaped(c, m) && name in c.groups
    ensures r.pools.Keys == m.pools.Keys && r.buses.Keys == m.buses.Keys && r.playing == m.playing
  {
    var p := Release(m.pools[name], src);
    Notified(c, m.(pools := m.pools[name := p]), name, p.handlers)
  }

  /** A completion runs ALL the handlers that requests of the group have
      subscribed, whichever source stopped: they all unsubscribe, and the
      group's bus uncounts one voice per handler. */
  lemma CompletionRunsEveryHandler(c: Config, m: Mgr, name: string, src: nat)
    requires Shaped(c, m) && name in c.groups && c.groups[name].soundBUS in m.buses
    ensures var r := Completed(c, m, name, src);
            var b := c.groups[name].soundBUS;
            && r.pools[name].handlers == 0
            && r.buses[b].activeVoiceCount == m.buses[b].activeVoiceCount - m.pools[name].handlers
            && r.pools[name].available == m.pools[name].available + [src]
  {
  }

  /** The handler count, not the number of voices that stopped, decides
      what a completion uncounts: with more handlers than queued voices, a
      bus whose count was right is left with a count below its queue
      length (below zero, in fact). */
  lemma CompletedUnbalances(c: Config, m: Mgr, name: string, src: nat)
    requires Shaped(c, m) && name in c.groups && c.groups[name].soundBUS in m.buses
    requires var b := c.groups[name].soundBUS;
             Balanced(m.buses[b]) && m.pools[name].handlers > |m.buses[b].activeVoices|
    ensures var b := c.groups[name].soundBUS;
            var r := Completed(c, m, name, src);
            && r.buses[b].activeVoices == [] && r.buses[b].activeVoiceCount < 0 && !Balanced(r.buses[b])
  {
  }

  /** `SetBusVolume` on a registered bus, as written: the bus's individual
      volume and its mixer become `volume`; for `Master`, every other
      record's mixer gets Master's individual volume times `volume`, which
      by then is `volume * volume`. */
  function VolumeSet(m: Mgr, bus: SoundBus, volume: real): (r: Mgr)
    requires bus in m.buses
    ensures r.buses.Keys == m.buses.Keys && r.pools == m.pools && r.playing == m.playing
    ensures r.buses[bus] == m.buses[bus].(individualVolume := volume, mixerLevel := volume)
    ensures forall b :: b in m.buses && b != bus ==>
              r.buses[b] == m.buses[b].(mixerLevel := r.buses[b].mixerLevel)
    ensures forall b :: b in m.buses && b != bus ==>
              r.buses[b].mixerLevel == if bus == Master && m.buses[b].soundBus != Master then volume * volume
                                       else m.buses[b].mixerLevel
  {
    var control := m.buses[bus].(individualVolume := volume);
    m.(buses := map b | b in m.buses ::
                  if b == bus then control.(mixerLevel := volume)
                  else if bus == Master && m.buses[b].soundBus != Master then m.buses[b].(mixerLevel := control.individualVolume * volume)
                  else m.buses[b])
  }

  /** The cascade as evidently intended: each other bus's mixer gets its OWN
      individual volume scaled by Master's. */
  function IntendedVolumeSet(m: Mgr, bus: SoundBus, volume: real): (r: Mgr)
    requires bus in m.buses
    ensures r.buses.Keys == m.buses.Keys && r.pools == m.pools && r.playing == m.playing
    ensures r.buses[bus] == m.buses[bus].(individualVolume := volume, mixerLevel := volume)
  {
    m.(buses := map b | b in m.buses ::
                  if b == bus then m.buses[bus].(individualVolume := volume, mixerLevel := volume)
                  else if bus == Master && m.buses[b].soundBus != Master then m.buses[b].(mixerLevel := m.buses[b].individualVolume * volume)
                  else m.buses[b])
  }

  /** Intended: setting Master scales every other bus's own level by the
      same factor; in particular at full volume each plays at its own level. */
  lemma IntendedCascadeKeepsOwnLevels(m: Mgr, volume: real)
    requires Master in m.buses && BusesKeyed(m)
    ensures forall b :: b in m.buses && b != Master ==>
              IntendedVolumeSet(m, Master, volume).buses[b].mixerLevel == m.buses[b].individualVolume * volume
  {
    forall b | b in m.buses && b != Master
      ensures IntendedVolumeSet(m, Master, volume).buses[b].mixerLevel == m.buses[b].individualVolume * volume
    {
      assert m.buses[b].soundBus == b;
    }
  }

  /** As written, setting Master to full volume overrides a bus's own level:
      a non-Master bus at half volume has its mixer written at full. */
  lemma MasterCascadeIgnoresOwnLevel(m: Mgr, b: SoundBus)
    requires Master in m.buses && BusesKeyed(m) && b in m.buses && b != Master
    requires m.buses[b].individualVolume == 0.5
    ensures VolumeSet(m, Master, 1.0).buses[b].mixerLevel == 1.0
    ensures IntendedVolumeSet(m, Master, 1.0).buses[b].mixerLevel == 0.5
  {
    assert m.buses[b].soundBus == b;
    IntendedCascadeKeepsOwnLevels(m, 1.0);
  }

  lemma PlayedPoolsWithin(c: Config, m: Mgr, name: string)
    requires Shaped(c, m) && PoolsWithin(c, m)
    ensures Shaped(c, Play(c, m, name).mgr) && PoolsWithin(c, Play(c, m, name).mgr)
  {
    if name in c.groups && c.groups[name].soundBUS in m.buses {
      assert Within(c.groups[name].audioSources, m.pools[name]);
      AcquireKeepsWithin(c.groups[name].audioSources, m.pools[name]);
    }
  }

  lemma PlayedHandlersRouted(c: Config, m: Mgr, name: string)
    requires Shaped(c, m) && HandlersRouted(c, m)
    ensures Shaped(c, Play(c, m, name).mgr) && HandlersRouted(c, Play(c, m, name).mgr)
  {
  }

  lemma PlayedVoicesRouted(c: Config, m: Mgr, name: string)
    requires ConfigValid(c) && Shaped(c, m) && PoolsWithin(c, m) && VoicesRouted(c, m)
    ensures VoicesRouted(c, Play(c, m, name).mgr)
  {
    if name in c.groups && c.groups[name].soundBUS in m.buses {
      var b := c.groups[name].soundBUS;
      var acq := Acquire(m.pools[name]);
      var adm := Admit(m.buses[b]);
      var info := if acq.source.Some? then Record(adm.info, acq.source.value) else adm.info;
      if acq.source.Some? {
        AcquiredOwned(c, m, name);
      }
      AdmittedRouted(c, b, m.buses[b], acq.source);
      var r := Play(c, m, name).mgr;
      assert r.buses == m.buses[b := info];
      forall b' | b' in r.buses ensures RoutedTo(c, b', r.buses[b'].activeVoices) {
        if b' != b {
          assert RoutedTo(c, b', m.buses[b'].activeVoices);
        }
      }
    }
  }

  /** Admission, then the record of a source of a group routed to the same
      bus, keeps a bus's queue routed to it. */
  lemma AdmittedRouted(c: Config, b: SoundBus, info: BusInfo, src: Option<nat>)
    requires RoutedTo(c, b, info.activeVoices)
    requires src.Some? ==> src.value in c.owner && c.owner[src.value] in c.groups && c.groups[c.owner[src.value]].soundBUS == b
    ensures RoutedTo(c, b, (if src.Some? then Record(Admit(info).info, src.value) else Admit(info).info).activeVoices)
  {
  }

  lemma PlayedPlayingConfigured(c: Config, m: Mgr, name: string)
    requires ConfigValid(c) && Shaped(c, m) && PoolsWithin(c, m) && PlayingConfigured(c, m)
    ensures PlayingConfigured(c, Play(c, m, name).mgr)
  {
    if name in c.groups && c.groups[name].soundBUS in m.buses && Acquire(m.pools[name]).source.Some? {
      AcquiredOwned(c, m, name);
    }
  }

  /** The source a group hands out is one of its own. */
  lemma AcquiredOwned(c: Config, m: Mgr, name: string)
    requires ConfigValid(c) && Shaped(c, m) && PoolsWithin(c, m) && name in m.pools && Acquire(m.pools[name]).source.Some?
    ensures var src := Acquire(m.pools[name]).source.value;
            src in c.owner && c.owner[src] == name
  {
    assert Within(c.groups[name].audioSources, m.pools[name]);
  }

  /** Every request keeps what the manager keeps as written. */
  lemma PlayKeepsWellFormed(c: Config, m: Mgr, name: string)
    requires WellFormed(c, m)
    ensures WellFormed(c, Play(c, m, name).mgr)
  {
    if name in c.groups && c.groups[name].soundBUS in m.buses {
      var r := Play(c, m, name).mgr;
      PlayedPoolsWithin(c, m, name);
      PlayedHandlersRouted(c, m, name);
      PlayedVoicesRouted(c, m, name);
      PlayedPlayingConfigured(c, m, name);
      assert BusesKeyed(r) by {
        assert BusesKeyed(m);
      }
      assert ConfigValid(c) && Shaped(c, r) && PoolsWithin(c, r) && HandlersRouted(c, r);
      assert VoicesRouted(c, r) && PlayingConfigured(c, r);
    }
  }

  /** Fewer subscriptions in one group, and fewer voices queued on its
      bus, keep what the manager keeps. */
  lemma ShrunkKeepsWellFormed(c: Config, m: Mgr, name: string, p: Pool, info: BusInfo)
    requires WellFormed(c, m) && name in c.groups && c.groups[name].soundBUS in m.buses
    requires p == m.pools[name].(handlers := p.handlers) && p.handlers <= m.pools[name].handlers
    requires info.soundBus == m.buses[c.groups[name].soundBUS].soundBus
    requires forall v :: v in info.activeVoices ==> v in m.buses[c.groups[name].soundBUS].activeVoices
    ensures WellFormed(c, Mgr(m.pools[name := p], m.buses[c.groups[name].soundBUS := info], m.playing))
  {
    var b := c.groups[name].soundBUS;
    var r := Mgr(m.pools[name := p], m.buses[b := info], m.playing);
    assert PoolsWithin(c, r) by {
      assert PoolsWithin(c, m);
    }
    assert HandlersRouted(c, r) by {
      assert HandlersRouted(c, m);
    }
    assert BusesKeyed(r) by {
      assert BusesKeyed(m);
    }
    assert VoicesRouted(c, r) by {
      assert RoutedTo(c, b, m.buses[b].activeVoices);
      assert VoicesRouted(c, m);
    }
    assert PlayingConfigured(c, r) by {
      assert PlayingConfigured(c, m);
    }
  }

  /** A handler run keeps what the manager keeps as written. */
  lemma HandledKeepsWellFormed(c: Config, m: Mgr, name: string)
    requires WellFormed(c, m) && name in c.groups
    ensures WellFormed(c, Handled(c, m, name))
  {
    var b := c.groups[name].soundBUS;
    if b in m.buses {
      ShrunkKeepsWellFormed(c, m, name, Unsubscribed(m.pools[name]), Dequeued(m.buses[b]));
    }
  }

  /** Releasing a waited-for source keeps what the manager keeps. */
  lemma ReleasedKeepsWellFormed(c: Config, m: Mgr, name: string, src: nat)
    requires WellFormed(c, m) && name in m.pools && src in m.pools[name].waiters
    ensures WellFormed(c, m.(pools := m.pools[name := Release(m.pools[name], src)]))
  {
    var r := m.(pools := m.pools[name := Release(m.pools[name], src)]);
    assert Within(c.groups[name].audioSources, m.pools[name]);
    ReleaseKeepsWithin(c.groups[name].audioSources, m.pools[name], src);
    assert PoolsWithin(c, r);
    assert HandlersRouted(c, r) by {
      assert HandlersRouted(c, m);
    }
  }

  /** Any number of handler runs keeps what the manager keeps: they only
      take subscriptions away and voices off the front of the queue. */
  lemma NotifiedKeepsWellFormed(c: Config, m: Mgr, name: string, k: nat)
    requires WellFormed(c, m) && name in c.groups
    ensures WellFormed(c, Notified(c, m, name, k))
  {
    var b := c.groups[name].soundBUS;
    if b in m.buses {
      var r := Notified(c, m, name, k);
      var info := DequeuedTimes(m.buses[b], k);
      assert forall v :: v in info.activeVoices ==> v in m.buses[b].activeVoices;
      ShrunkKeepsWellFormed(c, m, name, r.pools[name], info);
    }
  }

  /** A completion keeps what the manager keeps as written. */
  lemma CompletedKeepsWellFormed(c: Config, m: Mgr, name: string, src: nat)
    requires WellFormed(c, m) && name in c.groups && src in m.pools[name].waiters
    ensures WellFormed(c, Completed(c, m, name, src))
  {
    ReleasedKeepsWellFormed(c, m, name, src);
    var p := Release(m.pools[name], src);
    NotifiedKeepsWellFormed(c, m.(pools := m.pools[name := p]), name, p.handlers);
  }

  /** A source that stops playing leaves what the manager keeps intact. */
  lemma StoppedPlayingKeepsWellFormed(c: Config, m: Mgr, src: nat)
    requires WellFormed(c, m)
    ensures WellFormed(c, m.(playing := m.playing - {src}))
  {
    assert PlayingConfigured(c, m);
  }

  /** Setting a bus's volume leaves what the manager keeps intact. */
  lemma VolumeSetKeepsWellFormed(c: Config, m: Mgr, bus: SoundBus, volume: real)
    requires WellFormed(c, m) && bus in m.buses
    ensures WellFormed(c, VolumeSet(m, bus, volume))
  {
    var r := VolumeSet(m, bus, volume);
    assert HandlersRouted(c, r) by {
      assert HandlersRouted(c, m);
    }
    assert BusesKeyed(r) by {
      assert BusesKeyed(m);
    }
    assert VoicesRouted(c, r) by {
      assert VoicesRouted(c, m);
    }
  }

  /** The key each registry uses: a bus record's bus, a group's name. */
  function BusOf(info: BusInfo): SoundBus { info.soundBus }
  function NameOf(g: GroupSettings): string { g.name }
  function SourcesOf(g: GroupSettings): seq<nat> { g.audioSources }

  /** The pools `Start` gives the registered groups. */
  function StartedPools(groups: map<string, GroupSettings>): (pools: map<string, Pool>)
    ensures pools.Keys == groups.Keys
    ensures forall n :: n in pools ==> pools[n] == Started(groups[n].audioSources)
    ensures forall n :: n in pools ==> Within(groups[n].audioSources, pools[n]) && pools[n].handlers == 0
  {
    map n | n in groups :: Started(groups[n].audioSources)
  }

  /** The group registry `Start` builds from a list in which no two groups
      share a source: each source belongs to exactly one registered group. */
  lemma RegistryConsistent(groupsList: seq<GroupSettings>, groups: map<string, GroupSettings>, owner: map<nat, string>)
    requires forall i, j, s :: 0 <= i < j < |groupsList| && s in groupsList[i].audioSources ==>
               s !in groupsList[j].audioSources
    requires forall n :: n in groups ==> LastIndex(groupsList, NameOf, n) >= 0
    requires forall n :: n in groups ==> groups[n] == groupsList[LastIndex(groupsList, NameOf, n)]
    requires forall s :: s in owner ==> owner[s] in groups && s in groups[owner[s]].audioSources
    requires forall n, s :: n in groups && s in groups[n].audioSources ==> s in owner
    ensures ConfigValid(Config(groups, owner))
  {
    RegistryOwnsUniquely(groupsList, NameOf, SourcesOf, groups, owner);
  }

  /** The bus registry `Awake` builds from records with empty queues and
      no voice counted: each record sits under its own bus, balanced. */
  lemma StartedBuses(busInfoList: seq<BusInfo>, buses: map<SoundBus, BusInfo>)
    requires forall i :: 0 <= i < |busInfoList| ==> busInfoList[i].activeVoices == [] && busInfoList[i].activeVoiceCount == 0
    requires forall b :: b in buses ==> LastIndex(busInfoList, BusOf, b) >= 0
    requires forall b :: b in buses ==> buses[b] == busInfoList[LastIndex(busInfoList, BusOf, b)]
    ensures forall b :: b in buses ==> buses[b].activeVoices == [] && Balanced(buses[b]) && buses[b].soundBus == b
  {
    forall b | b in buses ensures buses[b].activeVoices == [] && Balanced(buses[b]) && buses[b].soundBus == b {
      assert buses[b] == busInfoList[LastIndex(busInfoList, BusOf, b)];
    }
  }

  /** The state `Awake` and `Start` build, once the registries are known to
      be consistent and every bus record sits silent under its own bus,
      keeps what the manager keeps. */
  lemma StartedWellFormed(buses: map<SoundBus, BusInfo>, groups: map<string, GroupSettings>, owner: map<nat, string>)
    requires ConfigValid(Config(groups, owner))
    requires forall b :: b in buses ==> buses[b].activeVoices == [] && buses[b].soundBus == b
    ensures WellFormed(Config(groups, owner), Mgr(StartedPools(groups), buses, {}))
  {
    var c, m := Config(groups, owner), Mgr(StartedPools(groups), buses, {});
    assert PoolsWithin(c, m);
    assert HandlersRouted(c, m);
    assert VoicesRouted(c, m);
  }
}
