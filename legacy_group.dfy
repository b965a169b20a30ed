// SoundGroup.cs: the per-sound channel pool of the older copy.
//
// Sources are identified by natural numbers. Every successful
// `GetAvailableSource` starts a coroutine that waits for its source to stop
// playing; `waiters` counts, per source, the coroutines still waiting, and a
// stolen source keeps its earlier one. `handlers` is the length of the
// invocation list of the `OnAudioSourceStopped` event, to which the manager
// adds its handler once per request served.

module LegacySoundGroup {
  import opened Lists
  import opened LegacySoundBus

  /** The serialized fields of a group: its name (the name of its game
      object), its bus and its configured sources. */
  datatype GroupSettings = GroupSettings(name: string, soundBUS: SoundBus, audioSources: seq<nat>)

  /** The pool's state: the FIFO queue of available sources, the active
      sources oldest first, the waiting coroutines per source, and the
      handlers subscribed to `OnAudioSourceStopped`. */
  datatype Pool = Pool(available: seq<nat>, active: seq<nat>, waiters: multiset<nat>, handlers: nat)

  /** Every source the pool holds, queued, active or waited for, is one of
      the configured ones. */
  ghost predicate Within(sources: seq<nat>, p: Pool)
  {
    && (forall s :: s in p.available ==> s in sources)
    && (forall s :: s in p.active ==> s in sources)
    && (forall s :: s in p.waiters ==> s in sources)
  }

  /** What the pool is evidently meant to keep: each configured source is
      queued or active, exactly once, and waited for exactly when it is
      active. */
  ghost predicate PoolValid(sources: seq<nat>, p: Pool)
  {
    && Distinct(sources)
    && multiset(p.available + p.active) == multiset(sources)
    && p.waiters == multiset(p.active)
  }

  /** The pool right after `Start`: every configured source queued, in its
      configured order, none active, no coroutine and no handler. */
  function Started(sources: seq<nat>): (p: Pool)
    ensures p.available == sources && p.active == [] && p.waiters == multiset{} && p.handlers == 0
    ensures Within(sources, p)
    ensures Distinct(sources) ==> PoolValid(sources, p)
  {
    assert sources + [] == sources;
    Pool(sources, [], multiset{}, 0)
  }

  /** What `GetAvailableSource` leaves behind and hands out (null is
      `None`), and whether it took an active source. */
  datatype Acquired = Acquired(pool: Pool, source: Option<nat>, recycled: bool)

  /** `GetAvailableSource`: the front of the queue if there is one, else the
      oldest active source, moved to the back, else nothing. The source
      handed out becomes the newest active one and gets one more waiter; a
      stolen source keeps the waiter it had. */
  function Acquire(p: Pool): (r: Acquired)
    ensures r.source.None? <==> p.available == [] && p.active == []
    ensures r.source.None? ==> r.pool == p && !r.recycled
    ensures r.recycled <==> p.available == [] && p.active != []
    ensures r.source.Some? ==>
              && r.source.value == (if p.available != [] then p.available[0] else p.active[0])
              && r.pool.active != [] && Last(r.pool.active) == r.source.value
              && r.pool.waiters == p.waiters + multiset{r.source.value}
    ensures !r.recycled && r.source.Some? ==>
              r.pool.available == p.available[1..] && r.pool.active == p.active + [r.source.value]
    ensures r.recycled ==> r.pool.available == p.available && r.pool.active == p.active[1..] + [p.active[0]]
    ensures r.pool.handlers == p.handlers
  {
    if |p.available| > 0 then
      var src := p.available[0];
      Acquired(Pool(p.available[1..], p.active + [src], p.waiters + multiset{src}, p.handlers), Some(src), false)
    else if |p.active| > 0 then
      var src := p.active[0];
      Acquired(Pool(p.available, p.active[1..] + [src], p.waiters + multiset{src}, p.handlers), Some(src), true)
    else
      Acquired(p, None, false)
  }

  /** The completion step of `WaitForAudioToEnd`, for one waiter of `src`:
      the source leaves the active list by identity if it is there, joins
      the back of the queue in any case, and the waiter ends. */
  function Release(p: Pool, src: nat): (r: Pool)
    ensures r.available == p.available + [src] && r.handlers == p.handlers
    ensures src !in p.active ==> r.active == p.active
    ensures src in p.active ==>
              r.active == p.active[..IndexOf(p.active, src)] + p.active[IndexOf(p.active, src) + 1..]
    ensures multiset(r.active) == multiset(p.active) - multiset{src}
    ensures r.waiters == p.waiters - multiset{src}
  {
    Pool(p.available + [src], Remove(p.active, src), p.waiters - multiset{src}, p.handlers)
  }

  /** `OnAudioSourceStopped += handler`. */
  function Subscribed(p: Pool): (r: Pool)
    ensures r.handlers == p.handlers + 1
    ensures r == p.(handlers := r.handlers)
  {
    p.(handlers := p.handlers + 1)
  }

  /** `OnAudioSourceStopped -= handler`: removing a handler that is not
      subscribed changes nothing. */
  function Unsubscribed(p: Pool): (r: Pool)
    ensures r.handlers == if p.handlers > 0 then p.handlers - 1 else 0
    ensures r == p.(handlers := r.handlers)
  {
    p.(handlers := if p.handlers > 0 then p.handlers - 1 else 0)
  }

  /** A pool only ever holds its configured sources. */
  lemma AcquireKeepsWithin(sources: seq<nat>, p: Pool)
    requires Within(sources, p)
    ensures Within(sources, Acquire(p).pool)
  {
    var r := Acquire(p).pool;
    forall s | s in r.active ensures s in sources {
      if s !in p.active {
        assert s == p.available[0];
      }
    }
    forall s | s in r.waiters ensures s in sources {
      if s !in p.waiters {
        assert s in r.active;
      }
    }
  }

  lemma ReleaseKeepsWithin(sources: seq<nat>, p: Pool, src: nat)
    requires Within(sources, p) && src in p.waiters
    ensures Within(sources, Release(p, src))
  {
    var r := Release(p, src);
    forall s | s in r.active ensures s in sources {
      RemoveMembership(p.active, src, s);
    }
  }

  /** Without a steal, acquisition keeps the pool as intended. */
  lemma AcquireFromQueueKeepsValid(sources: seq<nat>, p: Pool)
    requires PoolValid(sources, p) && p.available != []
    ensures PoolValid(sources, Acquire(p).pool)
  {
    var src := p.available[0];
    assert p.available == [src] + p.available[1..];
    assert multiset(p.available + p.active)[src] <= 1;
  }

  /** The completion of an active source keeps the pool as intended. */
  lemma ReleaseKeepsValid(sources: seq<nat>, p: Pool, src: nat)
    requires PoolValid(sources, p) && src in p.waiters
    ensures PoolValid(sources, Release(p, src))
  {
    var r := Release(p, src);
    assert src in p.active;
    assert multiset(r.available + r.active) == multiset(p.available) + multiset{src} + (multiset(p.active) - multiset{src});
  }

  /** Steal without cancelling, as written: a group of one source A serves
      two requests (the second steals A, which now has two waiters), and
      both waiters complete once A stops: A is queued twice. */
  lemma StealThenTwoCompletionsDuplicate(a: nat)
    ensures var p1 := Acquire(Started([a])).pool;
            var r2 := Acquire(p1);
            var p4 := Release(Release(r2.pool, a), a);
            && r2.recycled && r2.pool.waiters == multiset{a, a}
            && p4.available == [a, a] && p4.active == [] && p4.waiters == multiset{}
            && !PoolValid([a], r2.pool) && !PoolValid([a], p4)
  {
    var p1 := Acquire(Started([a])).pool;
    assert p1.active == [a] && p1.available == [];
    var r2 := Acquire(p1);
    assert r2.pool.active == [a];
    assert Remove([a], a) == [];
    var p3 := Release(r2.pool, a);
    assert p3.active == [] && p3.available == [a];
    assert Remove([], a) == [];
    var p4 := Release(p3, a);
    assert multiset(p4.available + p4.active)[a] == 2;
  }

  /** Steal-oldest, as the newer copy does it: the stolen source's earlier
      waiter is cancelled before a new one starts. */
  function AcquireCancelling(p: Pool): (r: Acquired)
    ensures r.source == Acquire(p).source && r.recycled == Acquire(p).recycled
    ensures r.pool == Acquire(p).pool.(waiters := r.pool.waiters)
    ensures r.recycled ==> r.pool.waiters == (p.waiters - multiset{r.source.value}) + multiset{r.source.value}
    ensures !r.recycled ==> r.pool.waiters == Acquire(p).pool.waiters
  {
    var r := Acquire(p);
    if r.recycled then
      var src := r.source.value;
      Acquired(r.pool.(waiters := (p.waiters - multiset{src}) + multiset{src}), r.source, true)
    else r
  }

  /** With the earlier waiter cancelled, every acquisition keeps the pool
      as intended. */
  lemma AcquireCancellingKeepsValid(sources: seq<nat>, p: Pool)
    requires PoolValid(sources, p)
    ensures PoolValid(sources, AcquireCancelling(p).pool)
  {
    if p.available != [] {
      AcquireFromQueueKeepsValid(sources, p);
    } else if p.active != [] {
      var src := p.active[0];
      assert p.active == [src] + p.active[1..];
    }
  }

  /** One sound group; `audioSources` is its configured list of sources. */
  class SoundGroup {
    const name: string
    const soundBUS: SoundBus
    const audioSources: seq<nat>
    var availableSources: seq<nat>
    var activeSources: seq<nat>
    var waiters: multiset<nat>
    var handlers: nat

    function State(): Pool
      reads this
    {
      Pool(availableSources, activeSources, waiters, handlers)
    }

    ghost predicate Valid()
      reads this
    {
      Within(audioSources, State())
    }

    /** The serialized fields, then `Start`: every configured source queued,
        in its configured order, none active. */
    constructor (name: string, soundBUS: SoundBus, audioSources: seq<nat>)
      ensures this.name == name && this.soundBUS == soundBUS && this.audioSources == audioSources
      ensures State() == Started(audioSources) && Valid()
    {
      this.name := name;
      this.soundBUS := soundBUS;
      this.audioSources := audioSources;
      availableSources := audioSources;
      activeSources := [];
      waiters := multiset{};
      handlers := 0;
    }

    /** `GetAvailableSource`. Stopping a stolen source and starting the
        waiter's playback are done by the caller,
        `LegacySoundManager.SoundManager.PlaySoundInternal`. */
    method GetAvailableSource() returns (source: Option<nat>)
      requires Valid()
      modifies this
      ensures State() == Acquire(old(State())).pool && source == Acquire(old(State())).source
      ensures Valid()
    {
      AcquireKeepsWithin(audioSources, State());
      if |availableSources| > 0 {
        var src := availableSources[0];
        availableSources := availableSources[1..];
        activeSources := activeSources + [src];
        source := Some(src);
      } else if |activeSources| > 0 {
        var src := activeSources[0];
        activeSources := activeSources[1..];
        activeSources := activeSources + [src];
        source := Some(src);
      } else {
        return None;
      }
      waiters := waiters + multiset{source.value};
    }

    /** The completion step of one waiter of `src`, once its source has
        stopped playing. The event is then raised: `raised` is the number of
        handlers it invokes, each told only of this group. */
    method Complete(src: nat) returns (raised: nat)
      requires Valid() && src in waiters
      modifies this
      ensures State() == Release(old(State()), src) && raised == handlers
      ensures Valid()
    {
      ReleaseKeepsWithin(audioSources, State(), src);
      activeSources := Remove(activeSources, src);
      availableSources := availableSources + [src];
      waiters := waiters - multiset{src};
      raised := handlers;
    }

    /** `OnAudioSourceStopped += handler`. */
    method Subscribe()
      modifies this
      ensures State() == Subscribed(old(State()))
    {
      handlers := handlers + 1;
    }

    /** `OnAudioSourceStopped -= handler`. */
    method Unsubscribe()
      modifies this
      ensures State() == Unsubscribed(old(State()))
    {
      if handlers > 0 {
        handlers := handlers - 1;
      }
    }
  }
}
