// Script/SoundGroup.cs: the per-sound channel pool of the newer copy.
//
// Sources are identified by natural numbers. The coroutine that waits for a
// source to stop playing is represented by its key: `pending` holds the
// sources whose waiting coroutine is still live, `keys` every source ever
// stored in the coroutine dictionary (entries are overwritten, never removed).

module ScriptSoundGroup {
  import opened Lists
  import opened ScriptBus

  /** The serialized fields of a group: its name (the name of its game
      object), its bus and its configured sources. */
  datatype GroupSettings = GroupSettings(name: string, soundBUS: SoundBus, audioSources: seq<nat>)

  /** The pool's state: the FIFO queue of available sources, the active
      sources oldest first, the sources with a live completion waiter, and
      the keys of the coroutine dictionary. */
  datatype Pool = Pool(available: seq<nat>, active: seq<nat>, pending: set<nat>, keys: set<nat>)

  /** Each configured source is queued or active, exactly once, a source
      has a pending completion exactly when it is active, and a live waiter
      is stored in the dictionary. */
  ghost predicate PoolValid(sources: seq<nat>, p: Pool)
  {
    && Distinct(sources)
    && multiset(p.available + p.active) == multiset(sources)
    && (forall s :: s in p.pending <==> s in p.active)
    && p.pending <= p.keys
  }

  /** The pool right after `Start`: every configured source queued, in its
      configured order, none active and no waiter stored. */
  function Started(sources: seq<nat>): (p: Pool)
    ensures p.available == sources && p.active == [] && p.keys == {}
    ensures Distinct(sources) ==> PoolValid(sources, p)
  {
    assert sources + [] == sources;
    Pool(sources, [], {}, {})
  }

  /** What `GetAvailableSource` leaves behind and hands out. */
  datatype Acquired = Acquired(pool: Pool, source: Option<nat>, recycled: bool)

  /** `GetAvailableSource`: the front of the queue if there is one, else the
      oldest active source (stolen: its old waiter is cancelled and a new one
      registered), else nothing. The source handed out becomes the newest
      active one; no active source stops being active. */
  function Acquire(p: Pool): (r: Acquired)
    ensures r.source.None? <==> p.available == [] && p.active == []
    ensures r.source.None? ==> r.pool == p && !r.recycled
    ensures r.recycled <==> p.available == [] && p.active != []
    ensures r.source.Some? ==>
              && r.source.value == (if p.available != [] then p.available[0] else p.active[0])
              && r.pool.active != [] && Last(r.pool.active) == r.source.value
              && r.pool.pending == p.pending + {r.source.value}
    ensures r.pool.keys == p.keys + OptSet(r.source)
    ensures !r.recycled && r.source.Some? ==>
              r.pool.available == p.available[1..] && |r.pool.active| == |p.active| + 1
    ensures !r.recycled && r.source.Some? ==> r.pool.active == p.active + [r.source.value]
    ensures r.recycled ==> r.pool.available == p.available && |r.pool.active| == |p.active|
    ensures r.recycled ==> r.pool.active == p.active[1..] + [p.active[0]]
    ensures forall s :: s in p.active ==> s in r.pool.active
  {
    if |p.available| > 0 then
      var src := p.available[0];
      Acquired(Pool(p.available[1..], p.active + [src], p.pending + {src}, p.keys + {src}), Some(src), false)
    else if |p.active| > 0 then
      var src := p.active[0];
      Acquired(Pool(p.available, p.active[1..] + [src], (p.pending - {src}) + {src}, p.keys + {src}), Some(src), true)
    else
      Acquired(p, None, false)
  }

  /** The completion step of `WaitForAudioToEnd` and the body of `Stop`:
      the source leaves the active list by identity, wherever it sits, joins
      the back of the queue, and its waiter ends. */
  function Release(p: Pool, src: nat): (r: Pool)
    ensures r.available == p.available + [src]
    ensures src !in p.active ==> r.active == p.active
    ensures src in p.active ==>
              r.active == p.active[..IndexOf(p.active, src)] + p.active[IndexOf(p.active, src) + 1..]
    ensures multiset(r.active) == multiset(p.active) - multiset{src}
    ensures forall s :: s != src ==> (s in r.active <==> s in p.active)
    ensures src !in r.pending && r.pending == p.pending - {src} && r.keys == p.keys
  {
    Pool(p.available + [src], Remove(p.active, src), p.pending - {src}, p.keys)
  }

  /** Acquisition moves a source between the queue and the active list, or
      within the active list: the sources held are the same. */
  lemma AcquireConserves(p: Pool)
    ensures var r := Acquire(p).pool;
            multiset(r.available + r.active) == multiset(p.available + p.active)
  {
    if |p.available| > 0 {
      assert p.available == [p.available[0]] + p.available[1..];
    } else if |p.active| > 0 {
      assert p.active == [p.active[0]] + p.active[1..];
    }
  }

  lemma AcquireKeepsValid(sources: seq<nat>, p: Pool)
    requires PoolValid(sources, p)
    ensures PoolValid(sources, Acquire(p).pool)
  {
    var r := Acquire(p);
    AcquireConserves(p);
    if p.available != [] {
      var src := p.available[0];
      assert multiset(p.available + p.active)[src] <= 1;
      assert src !in p.active;
    }
  }

  /** Releasing an active source keeps the pool conserved and keeps pending
      completions in step with the active list. */
  lemma {:induction false} ReleaseKeepsValid(sources: seq<nat>, p: Pool, src: nat)
    requires PoolValid(sources, p) && src in p.active
    ensures PoolValid(sources, Release(p, src))
  {
    var r := Release(p, src);
    assert Distinct(p.active) by {
      forall x ensures multiset(p.active)[x] <= 1 {
        assert multiset(p.available + p.active)[x] == multiset(p.available)[x] + multiset(p.active)[x];
      }
    }
    assert multiset(r.available + r.active) == multiset(p.available) + multiset{src} + (multiset(p.active) - multiset{src});
    forall s ensures s in r.pending <==> s in r.active {
      RemoveMembership(p.active, src, s);
    }
  }

  /** Releasing a source that is configured but not active (a `Stop` of a
      source whose sound already ended) puts a second copy of it into the
      queue: the pool is no longer conserved. */
  lemma {:induction false} ReleaseOfInactiveDuplicates(sources: seq<nat>, p: Pool, src: nat)
    requires PoolValid(sources, p) && src in sources && src !in p.active
    ensures multiset(Release(p, src).available)[src] == 2
    ensures !PoolValid(sources, Release(p, src))
  {
    assert multiset(sources)[src] == 1 by {
      assert multiset(sources)[src] <= 1;
    }
    assert multiset(p.available + p.active)[src] == multiset(p.available)[src] + multiset(p.active)[src];
    assert multiset(Release(p, src).available)[src] == multiset(p.available)[src] + 1;
  }

  /** Out-of-order release: with A, B, C active (oldest first), B ending
      first leaves exactly A, C active, in that order. */
  lemma OutOfOrderRelease(a: nat, b: nat, c: nat)
    requires a != b && b != c && a != c
    ensures Release(Pool([], [a, b, c], {a, b, c}, {a, b, c}), b) == Pool([b], [a, c], {a, c}, {a, b, c})
  {
    assert [a, b, c][1..] == [b, c];
    assert IndexOf([b, c], b) == 0;
    assert IndexOf([a, b, c], b) == 1;
    assert Remove([a, b, c], b) == [a] + [c];
  }

  /** Steal-oldest: in a pool of two sources, acquired in the order A, B, a
      third acquisition recycles A, which becomes the newest active source. */
  lemma StealOldest(a: nat, b: nat)
    requires a != b
    ensures var p1 := Acquire(Started([a, b])).pool;
            var p2 := Acquire(p1).pool;
            var r3 := Acquire(p2);
            r3.source == Some(a) && r3.recycled && r3.pool.active == [b, a]
  {
  }

  /** One sound group; `audioSources` is its configured list of sources. */
  class SoundGroup {
    const name: string
    const soundBUS: SoundBus
    const audioSources: seq<nat>
    var availableSources: seq<nat>
    var activeSources: seq<nat>
    var sourceCoroutines: set<nat>
    var coroutineKeys: set<nat>

    function State(): Pool
      reads this
    {
      Pool(availableSources, activeSources, sourceCoroutines, coroutineKeys)
    }

    ghost predicate Valid()
      reads this
    {
      PoolValid(audioSources, State())
    }

    /** The serialized fields, then `Start`: every configured source queued,
        in its configured order, none active. */
    constructor (name: string, soundBUS: SoundBus, audioSources: seq<nat>)
      ensures this.name == name && this.soundBUS == soundBUS && this.audioSources == audioSources
      ensures State() == Started(audioSources)
      ensures Distinct(audioSources) ==> Valid()
    {
      this.name := name;
      this.soundBUS := soundBUS;
      this.audioSources := audioSources;
      availableSources := audioSources;
      activeSources := [];
      sourceCoroutines := {};
      coroutineKeys := {};
    }

    /** `GetAvailableSource`. On the stealing branch the source also stops
        playing and the manager is told it stopped; both are done by the
        caller, `ScriptSoundManager.SoundManager.PlaySoundInternal`. */
    method GetAvailableSource() returns (source: Option<nat>, recycled: bool)
      requires Valid()
      modifies this
      ensures var r := Acquire(old(State()));
              State() == r.pool && source == r.source && recycled == r.recycled
      ensures Valid()
    {
      AcquireKeepsValid(audioSources, State());
      if |availableSources| > 0 {
        var src := availableSources[0];
        availableSources := availableSources[1..];
        activeSources := activeSources + [src];
        source, recycled := Some(src), false;
      } else if |activeSources| > 0 {
        var src := activeSources[0];
        sourceCoroutines := sourceCoroutines - {src};
        activeSources := activeSources[1..];
        activeSources := activeSources + [src];
        source, recycled := Some(src), true;
      } else {
        return None, false;
      }
      sourceCoroutines := sourceCoroutines + {source.value};
      coroutineKeys := coroutineKeys + {source.value};
    }

    /** The completion step of `WaitForAudioToEnd` for `src`, once its
        source has stopped playing; the manager is told by the caller. */
    method Complete(src: nat)
      requires Valid() && src in sourceCoroutines
      modifies this
      ensures State() == Release(old(State()), src)
      ensures Valid()
    {
      ReleaseKeepsValid(audioSources, State(), src);
      activeSources := Remove(activeSources, src);
      availableSources := availableSources + [src];
      sourceCoroutines := sourceCoroutines - {src};
    }

    /** `Stop(src)`: looking up the waiter of a source never handed out
        throws, and nothing changes (`found` is false); otherwise the waiter
        is cancelled and the source released. The pool stays valid when the
        source was active. */
    method Stop(src: nat) returns (found: bool)
      requires Valid()
      modifies this
      ensures found <==> src in old(coroutineKeys)
      ensures found ==> State() == Release(old(State()), src)
      ensures !found ==> State() == old(State())
      ensures src in old(activeSources) || !found ==> Valid()
    {
      if src !in coroutineKeys {
        return false;
      }
      ghost var before := State();
      sourceCoroutines := sourceCoroutines - {src};
      activeSources := Remove(activeSources, src);
      availableSources := availableSources + [src];
      found := true;
      assert State() == Release(before, src);
      if src in before.active {
        ReleaseKeepsValid(audioSources, before, src);
      }
    }
  }
}
