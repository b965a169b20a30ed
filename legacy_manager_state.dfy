// SoundManager.cs: the state of the older copy's manager and what the
// manager keeps of it. Each predicate here is one property; the transitions
// in `LegacyManagerModel` are proved to keep each of them.

module LegacyManagerState {
  import opened Lists
  import opened LegacySoundBus
  import opened LegacySoundGroup

  /** What a request reports; the source reports none of the failures. */
  datatype PlayOutcome = GroupNotFound | BusNotFound | NoSourceAvailable | Playing(source: nat)

  /** The group registry, and the group each configured source belongs to. */
  datatype Config = Config(groups: map<string, GroupSettings>, owner: map<nat, string>)

  /** `owner` names the one registered group listing each source. */
  ghost predicate ConfigValid(c: Config)
  {
    && (forall s :: s in c.owner ==> c.owner[s] in c.groups && s in c.groups[c.owner[s]].audioSources)
    && (forall n, s :: n in c.groups && s in c.groups[n].audioSources ==> s in c.owner && c.owner[s] == n)
  }

  /** The mutable state of the manager: each group's pool, each registered
      bus's record, and the sources the device plays. */
  datatype Mgr = Mgr(pools: map<string, Pool>, buses: map<SoundBus, BusInfo>, playing: set<nat>)

  ghost predicate Shaped(c: Config, m: Mgr)
  {
    m.pools.Keys == c.groups.Keys
  }

  /** Every pool holds only its own group's sources. */
  ghost predicate PoolsWithin(c: Config, m: Mgr)
    requires Shaped(c, m)
  {
    forall n :: n in m.pools ==> Within(c.groups[n].audioSources, m.pools[n])
  }

  /** A group with a subscribed handler has a registered bus. */
  ghost predicate HandlersRouted(c: Config, m: Mgr)
    requires Shaped(c, m)
  {
    forall n :: n in m.pools && m.pools[n].handlers > 0 ==> c.groups[n].soundBUS in m.buses
  }

  /** Each record is registered under its own bus. */
  ghost predicate BusesKeyed(m: Mgr)
  {
    forall b :: b in m.buses ==> m.buses[b].soundBus == b
  }

  /** Every voice listed is a source of a group routed to bus `b`. */
  ghost predicate RoutedTo(c: Config, b: SoundBus, voices: seq<nat>)
  {
    forall v :: v in voices ==> v in c.owner && c.owner[v] in c.groups && c.groups[c.owner[v]].soundBUS == b
  }

  /** Every queued voice of a bus is a source of a group routed to it. */
  ghost predicate VoicesRouted(c: Config, m: Mgr)
  {
    forall b :: b in m.buses ==> RoutedTo(c, b, m.buses[b].activeVoices)
  }

  /** Only configured sources play. */
  ghost predicate PlayingConfigured(c: Config, m: Mgr)
  {
    forall s :: s in m.playing ==> s in c.owner
  }

  /** What the manager keeps as written. Whether a bus's count agrees with
      its queue, and whether the queue keeps to the limit, is not kept: see
      `CompletedUnbalances` and `CountDriftExceedsLimit`. */
  ghost predicate WellFormed(c: Config, m: Mgr)
  {
    && ConfigValid(c) && Shaped(c, m) && PoolsWithin(c, m) && HandlersRouted(c, m)
    && BusesKeyed(m) && VoicesRouted(c, m) && PlayingConfigured(c, m)
  }
}
