// SoundManager.cs: the manager object of the older copy. Its state is
// that of `LegacyManagerModel`, and each method is proved to make the
// transition that module defines.

module LegacySoundManager {
  import opened Lists
  import opened LegacySoundBus
  import opened LegacySoundGroup
  import opened LegacyManagerState
  import opened LegacyManagerModel

  class SoundManager {
    /** The registered groups by name. */
    const soundGroups: map<string, GroupSettings>
    /** The registered group each configured source belongs to. */
    ghost const owner: map<nat, string>
    /** The registered bus records by bus. */
    var busInfo: map<SoundBus, BusInfo>
    /** Each registered group's pool. */
    var pools: map<string, Pool>
    /** The sources the audio device is playing. */
    var playing: set<nat>

    ghost function Cfg(): Config
    {
      Config(soundGroups, owner)
    }

    function State(): Mgr
      reads this
    {
      Mgr(pools, busInfo, playing)
    }

    /** What the methods need: a pool for every registered group. That the
        manager also keeps `WellFormed` is proved of the transitions the
        methods are shown to make (`PlayKeepsWellFormed`,
        `HandledKeepsWellFormed`, `CompletedKeepsWellFormed`,
        `StoppedPlayingKeepsWellFormed`, `VolumeSetKeepsWellFormed`). */
    ghost predicate Valid()
      reads this
    {
      Shaped(Cfg(), State())
    }

    /** `Awake` and `Start`: each bus is mapped to the LAST record listed for
        it, each group name to the LAST group of that name. Every group has
        started and every bus is as its constructor leaves it. */
    constructor (soundBusInformationList: seq<BusInfo>, soundGroupsList: seq<GroupSettings>)
      requires forall i :: 0 <= i < |soundBusInformationList| ==>
                 soundBusInformationList[i].activeVoices == [] && soundBusInformationList[i].activeVoiceCount == 0
      requires forall i, j, s :: 0 <= i < j < |soundGroupsList| && s in soundGroupsList[i].audioSources ==>
                 s !in soundGroupsList[j].audioSources
      ensures Valid() && WellFormed(Cfg(), State()) && playing == {}
      ensures forall b :: b in busInfo <==> LastIndex(soundBusInformationList, BusOf, b) >= 0
      ensures forall b :: b in busInfo ==> busInfo[b] == soundBusInformationList[LastIndex(soundBusInformationList, BusOf, b)]
      ensures forall b :: b in busInfo ==> Balanced(busInfo[b])
      ensures forall n :: n in soundGroups <==> LastIndex(soundGroupsList, NameOf, n) >= 0
      ensures forall n :: n in soundGroups ==> soundGroups[n] == soundGroupsList[LastIndex(soundGroupsList, NameOf, n)]
      ensures forall n :: n in pools ==> pools[n] == Started(soundGroups[n].audioSources)
    {
      var buses := BuildRegistry(soundBusInformationList, BusOf);
      var groups := BuildRegistry(soundGroupsList, NameOf);
      busInfo := buses;
      soundGroups := groups;
      owner := Owners(groups, SourcesOf);
      pools := StartedPools(groups);
      playing := {};
      new;
      RegistryConsistent(soundGroupsList, groups, owner);
      StartedBuses(soundBusInformationList, buses);
      StartedWellFormed(buses, groups, owner);
    }

    /** `PlaySoundInternal` (and both `PlaySound` overloads, whose location
        argument only moves the source). */
    method PlaySoundInternal(soundGroupName: string) returns (outcome: PlayOutcome)
      requires Valid()
      modifies this
      ensures Valid()
      ensures var r := Play(Cfg(), old(State()), soundGroupName);
              State() == r.mgr && outcome == r.outcome
    {
      ghost var before := State();
      if soundGroupName !in soundGroups {
        return GroupNotFound;
      }
      var bus := soundGroups[soundGroupName].soundBUS;
      if bus !in busInfo {
        return BusNotFound;
      }
      // The group's pool, the bus record and the device state are updated
      // locally and written back at the end.
      var pool, info, nowPlaying := pools[soundGroupName], busInfo[bus], playing;
      if info.activeVoiceCount >= info.voiceLimit && |info.activeVoices| > 0 {
        var toStop := info.activeVoices[0];
        info := info.(activeVoices := info.activeVoices[1..]);
        nowPlaying := nowPlaying - {toStop};
        info := info.(activeVoiceCount := info.activeVoiceCount - 1);
      }
      ghost var admission := Admit(before.buses[bus]);
      assert info == admission.info && nowPlaying == before.playing - OptSet(admission.evicted);
      var acquired := Acquire(pool);
      var source := acquired.source;
      if source.Some? {
        info := info.(activeVoiceCount := info.activeVoiceCount + 1);
        info := info.(activeVoices := info.activeVoices + [source.value]);
        pool := Subscribed(acquired.pool);
        nowPlaying := nowPlaying + {source.value};
        outcome := Playing(source.value);
      } else {
        outcome := NoSourceAvailable;
      }
      assert Served(before, soundGroupName, bus, admission, acquired) ==
             Mgr(before.pools[soundGroupName := pool], before.buses[bus := info], nowPlaying);
      pools, busInfo, playing := pools[soundGroupName := pool], busInfo[bus := info], nowPlaying;
    }

    /** `HandleAudioSourceStopped(soundGroup)`: the handler is told only of
        the group. A bus missing from the registry throws, which changes
        nothing (`found` is false). */
    method HandleAudioSourceStopped(soundGroupName: string) returns (found: bool)
      requires Valid() && soundGroupName in soundGroups
      modifies this
      ensures Valid()
      ensures found <==> soundGroups[soundGroupName].soundBUS in old(busInfo)
      ensures State() == Handled(Cfg(), old(State()), soundGroupName)
    {
      ghost var before := State();
      var bus := soundGroups[soundGroupName].soundBUS;
      if bus !in busInfo {
        return false;
      }
      var info := busInfo[bus];
      if |info.activeVoices| > 0 {
        info := info.(activeVoices := info.activeVoices[1..]);
      }
      info := info.(activeVoiceCount := info.activeVoiceCount - 1);
      busInfo := busInfo[bus := info];
      var group := pools[soundGroupName];
      if group.handlers > 0 {
        pools := pools[soundGroupName := group.(handlers := group.handlers - 1)];
      }
      found := true;
    }

    /** One waiter of `src` in group `soundGroupName` completes once its
        source has stopped playing: the group releases the source and raises
        its event, which runs every handler subscribed at that moment. */
    method Complete(soundGroupName: string, src: nat)
      requires Valid()
      requires soundGroupName in soundGroups && src in pools[soundGroupName].waiters
      requires src !in playing
      modifies this
      ensures Valid()
      ensures State() == Completed(Cfg(), old(State()), soundGroupName, src)
    {
      ghost var before, c := State(), Cfg();
      pools := pools[soundGroupName := Release(pools[soundGroupName], src)];
      ghost var released := State();
      assert released == before.(pools := before.pools[soundGroupName := Release(before.pools[soundGroupName], src)]);
      var raised := pools[soundGroupName].handlers;
      for i := 0 to raised
        invariant Valid()
        invariant State() == Notified(c, released, soundGroupName, i)
      {
        NotifiedStep(c, released, soundGroupName, i);
        var found := HandleAudioSourceStopped(soundGroupName);
        if !found {
          assert State() == Notified(c, released, soundGroupName, raised);
          break;
        }
      }
    }

    /** The device finishes playing `src` on its own. */
    method PlaybackEnded(src: nat)
      requires Valid()
      modifies this
      ensures Valid() && State() == old(State()).(playing := old(playing) - {src})
    {
      playing := playing - {src};
    }

    /** `SetBusVolume`: a bus missing from the registry throws, changing
        nothing; otherwise the writes of `VolumeSet`, the cascade going
        through the records one by one. */
    method SetBusVolume(bus: SoundBus, volume: real) returns (found: bool)
      requires Valid()
      modifies this
      ensures Valid()
      ensures found <==> bus in old(busInfo)
      ensures State() == if found then VolumeSet(old(State()), bus, volume) else old(State())
    {
      if bus !in busInfo {
        return false;
      }
      ghost var before := State();
      var control := busInfo[bus].(individualVolume := volume);
      // The records are updated locally and written back at the end.
      var buses := busInfo[bus := control];
      if bus == Master {
        var todo := buses.Keys;
        while todo != {}
          invariant todo <= buses.Keys && buses.Keys == before.buses.Keys
          invariant buses[bus].(mixerLevel := volume) == control.(mixerLevel := volume)
          invariant forall b :: b in buses && b != bus ==>
                      buses[b] == if b !in todo && before.buses[b].soundBus != Master
                                  then before.buses[b].(mixerLevel := control.individualVolume * volume)
                                  else before.buses[b]
          decreases todo
        {
          var b :| b in todo;
          var individualControl := buses[b];
          if individualControl.soundBus != Master {
            buses := buses[b := individualControl.(mixerLevel := control.individualVolume * volume)];
          }
          todo := todo - {b};
        }
      }
      buses := buses[bus := buses[bus].(mixerLevel := volume)];
      ghost var target := VolumeSet(before, bus, volume);
      assert buses.Keys == target.buses.Keys;
      assert forall b :: b in buses ==> buses[b] == target.buses[b];
      busInfo := buses;
      found := true;
      assert State() == VolumeSet(before, bus, volume);
    }
  }
}
