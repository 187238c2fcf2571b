/** Recycled timeline semaphores.  A handle keeps its value when it is reused,
    so the values signalled on it must rise for ever. */
module Timelines {
  type Handle = nat
  type WrapperId = nat

  const CAPACITY: nat := 128
  const UINT64_MAX: nat := 0xFFFF_FFFF_FFFF_FFFF

  /** A handle with the last value signalled, or to be signalled, on it. */
  datatype Timeline = Timeline(handle: Handle, count: nat)

  function LastValue(signals: seq<nat>): nat { if signals == [] then 0 else signals[|signals| - 1] }

  /** Every value is larger than the one before, starting above the initial zero. */
  ghost predicate Rising(signals: seq<nat>) {
    (forall i, j :: 0 <= i < j < |signals| ==> signals[i] < signals[j]) && (forall i :: 0 <= i < |signals| ==> 0 < signals[i] <= UINT64_MAX)
  }

  lemma RisingLast(signals: seq<nat>)
    requires Rising(signals)
    ensures forall v :: v in signals ==> v <= LastValue(signals)
    ensures LastValue(signals) < UINT64_MAX ==> Rising(signals + [LastValue(signals) + 1])
  {
  }

  /** What the driver knows of a handle agrees with its record. */
  ghost predicate Tracked(t: Timeline, signals: map<Handle, seq<nat>>, counter: map<Handle, nat>) {
    && t.handle in signals && t.handle in counter
    && t.count == LastValue(signals[t.handle]) && counter[t.handle] <= t.count
  }

  /** Every value signalled on the handle was reached. */
  ghost predicate Quiet(t: Timeline, counter: map<Handle, nat>) {
    t.handle in counter && counter[t.handle] == t.count
  }

  ghost predicate PoolOk(pool: seq<Timeline>, signals: map<Handle, seq<nat>>, counter: map<Handle, nat>) {
    && |pool| <= CAPACITY
    && (forall i :: 0 <= i < |pool| ==> Tracked(pool[i], signals, counter) && Quiet(pool[i], counter) && pool[i].count < UINT64_MAX)
    && (forall i, j :: 0 <= i < j < |pool| ==> pool[i].handle != pool[j].handle)
  }

  ghost predicate WrappersOk(wrappers: map<WrapperId, Timeline>, signals: map<Handle, seq<nat>>, counter: map<Handle, nat>) {
    && (forall w :: w in wrappers ==> Tracked(wrappers[w], signals, counter))
    && (forall v, w :: v in wrappers && w in wrappers && wrappers[v].handle == wrappers[w].handle ==> v == w)
  }

  /** A handle is idle in the pool or held by one wrapper, never both. */
  ghost predicate Exclusive(pool: seq<Timeline>, wrappers: map<WrapperId, Timeline>) {
    forall i, w :: 0 <= i < |pool| && w in wrappers ==> pool[i].handle != wrappers[w].handle
  }

  ghost predicate HandlesOk(signals: map<Handle, seq<nat>>, counter: map<Handle, nat>, nextHandle: Handle) {
    && signals.Keys == counter.Keys
    && forall h :: h in signals ==> h < nextHandle && Rising(signals[h]) && counter[h] <= LastValue(signals[h])
  }

  /** The last pooled timeline is taken out. */
  lemma PopKeeps(pool: seq<Timeline>, wrappers: map<WrapperId, Timeline>, signals: map<Handle, seq<nat>>, counter: map<Handle, nat>)
    requires PoolOk(pool, signals, counter) && Exclusive(pool, wrappers) && pool != []
    ensures var t, rest := pool[|pool| - 1], pool[..|pool| - 1];
            && PoolOk(rest, signals, counter) && Exclusive(rest, wrappers) && Fresh(t, rest, wrappers)
            && Tracked(t, signals, counter) && Quiet(t, counter) && t.count < UINT64_MAX
  {
    hide Tracked, Quiet;
  }

  ghost predicate Fresh(t: Timeline, pool: seq<Timeline>, wrappers: map<WrapperId, Timeline>) {
    && (forall i :: 0 <= i < |pool| ==> pool[i].handle != t.handle)
    && (forall w :: w in wrappers ==> wrappers[w].handle != t.handle)
  }

  lemma AdoptKeeps(pool: seq<Timeline>, wrappers: map<WrapperId, Timeline>, signals: map<Handle, seq<nat>>, counter: map<Handle, nat>, w: WrapperId, t: Timeline)
    requires WrappersOk(wrappers, signals, counter) && Exclusive(pool, wrappers) && w !in wrappers
    requires Fresh(t, pool, wrappers) && Tracked(t, signals, counter)
    ensures WrappersOk(wrappers[w := t], signals, counter) && Exclusive(pool, wrappers[w := t])
  {
    hide Tracked;
  }

  /** One more signal on the handle of wrapper `w`. */
  lemma SubmitKeeps(pool: seq<Timeline>, wrappers: map<WrapperId, Timeline>, signals: map<Handle, seq<nat>>, counter: map<Handle, nat>,
                    nextHandle: Handle, w: WrapperId)
    requires PoolOk(pool, signals, counter) && WrappersOk(wrappers, signals, counter) && Exclusive(pool, wrappers)
    requires HandlesOk(signals, counter, nextHandle) && w in wrappers && wrappers[w].count < UINT64_MAX
    ensures var t := wrappers[w]; t.handle in signals
    ensures var t := wrappers[w];
            var after, more := wrappers[w := t.(count := t.count + 1)], signals[t.handle := signals[t.handle] + [t.count + 1]];
            && PoolOk(pool, more, counter) && WrappersOk(after, more, counter) && Exclusive(pool, after)
            && HandlesOk(more, counter, nextHandle)
  {
    hide Rising, HandlesOk;
    var t := wrappers[w];
    var after, more := wrappers[w := t.(count := t.count + 1)], signals[t.handle := signals[t.handle] + [t.count + 1]];
    assert Tracked(t, signals, counter);
    SubmitRises(signals, counter, nextHandle, t);
    forall i | 0 <= i < |pool| ensures Tracked(pool[i], more, counter) { assert pool[i].handle != t.handle; }
    forall v | v in after ensures Tracked(after[v], more, counter) && after[v].handle == wrappers[v].handle {
      if v != w { assert wrappers[v].handle != t.handle; }
    }
  }

  lemma SubmitRises(signals: map<Handle, seq<nat>>, counter: map<Handle, nat>, nextHandle: Handle, t: Timeline)
    requires HandlesOk(signals, counter, nextHandle) && Tracked(t, signals, counter) && t.count < UINT64_MAX
    ensures HandlesOk(signals[t.handle := signals[t.handle] + [t.count + 1]], counter, nextHandle)
  {
    RisingLast(signals[t.handle]);
  }

  class TimelinePool {
    var pool: seq<Timeline>
    var wrappers: map<WrapperId, Timeline>
    var nextWrapper: WrapperId
    /** The driver never creates the same handle twice. */
    var nextHandle: Handle
    /** Every value ever submitted for signalling, by handle. */
    ghost var signals: map<Handle, seq<nat>>
    /** The driver's counters. */
    ghost var counter: map<Handle, nat>

    ghost predicate Valid()
      reads this
    {
      && PoolOk(pool, signals, counter) && WrappersOk(wrappers, signals, counter) && Exclusive(pool, wrappers)
      && HandlesOk(signals, counter, nextHandle) && (forall w :: w in wrappers ==> w < nextWrapper)
    }

    /** The device pays for a full pool once, before frames start. */
    constructor ()
      ensures Valid() && wrappers == map[] && |pool| == 128
    {
      pool, wrappers, nextWrapper, nextHandle, signals, counter := [], map[], 0, 0, map[], map[];
      new;
      for i := 0 to CAPACITY
        invariant Valid() && |pool| == i && wrappers == map[]
      {
        var t := Create();
        pool := pool + [t];
      }
    }

    method Create() returns (t: Timeline)
      requires Valid()
      modifies this`nextHandle, this`signals, this`counter
      ensures t == Timeline(old(nextHandle), 0) && nextHandle == old(nextHandle) + 1
      ensures signals == old(signals)[t.handle := []] && counter == old(counter)[t.handle := 0]
      ensures PoolOk(pool, signals, counter) && WrappersOk(wrappers, signals, counter) && Exclusive(pool, wrappers)
      ensures HandlesOk(signals, counter, nextHandle) && t.handle !in old(signals) && t.handle !in old(counter)
      ensures forall i :: 0 <= i < |pool| ==> pool[i].handle != t.handle
      ensures forall w :: w in wrappers ==> wrappers[w].handle != t.handle
    {
      t := Timeline(nextHandle, 0);
      signals, counter := signals[nextHandle := []], counter[nextHandle := 0];
      nextHandle := nextHandle + 1;
    }

    /** Reuses the most recently recycled handle, or creates one. */
    method Acquire() returns (w: WrapperId)
      requires Valid()
      modifies this
      ensures Valid() && w == old(nextWrapper) && w in wrappers && w !in old(wrappers) && wrappers == old(wrappers)[w := wrappers[w]]
      ensures Quiet(wrappers[w], counter) && wrappers[w].count < UINT64_MAX
      ensures old(pool) != [] ==> old(pool) == pool + [wrappers[w]] && nextHandle == old(nextHandle) && signals == old(signals) && counter == old(counter)
      ensures old(pool) == [] ==> pool == [] && wrappers[w] == Timeline(old(nextHandle), 0) && nextHandle == old(nextHandle) + 1
      ensures forall h :: h in old(signals) ==> h in signals && signals[h] == old(signals)[h]
      ensures forall h :: h in old(counter) ==> h in counter && counter[h] == old(counter)[h]
    {
      hide PoolOk, WrappersOk, Exclusive, HandlesOk, Rising;
      var t;
      if pool != [] {
        PopKeeps(pool, wrappers, signals, counter);
        t := pool[|pool| - 1];
        pool := pool[..|pool| - 1];
      } else {
        t := Create();
      }
      w := nextWrapper;
      AdoptKeeps(pool, wrappers, signals, counter, w, t);
      nextWrapper := nextWrapper + 1;
      wrappers := wrappers[w := t];
    }

    /** A commit counts its timeline up and submits a signal of the new value. */
    method Submit(w: WrapperId)
      requires Valid() && w in wrappers && wrappers[w].count < UINT64_MAX
      modifies this`wrappers, this`signals
      ensures Valid() && wrappers == old(wrappers)[w := old(wrappers)[w].(count := old(wrappers)[w].count + 1)]
      ensures wrappers[w].handle in old(signals)
      ensures signals == old(signals)[wrappers[w].handle := old(signals)[wrappers[w].handle] + [wrappers[w].count]]
    {
      hide PoolOk, WrappersOk, Exclusive, HandlesOk, Rising;
      SubmitKeeps(pool, wrappers, signals, counter, nextHandle, w);
      var t := wrappers[w];
      wrappers := wrappers[w := t.(count := t.count + 1)];
      signals := signals[t.handle := signals[t.handle] + [t.count + 1]];
    }

    /** The GPU reaches the next submitted value of a handle. */
    ghost method Reach(h: Handle, value: nat)
      requires Valid() && h in signals && value in signals[h] && counter[h] < value
      modifies this`counter
      ensures Valid() && counter == old(counter)[h := value]
    {
      RisingLast(signals[h]);
      counter := counter[h := value];
    }

    /** The last owner let go: the handle is cached with its value, unless the
        pool is full or the value could not rise any more. */
    method Release(w: WrapperId)
      requires Valid() && w in wrappers && Quiet(wrappers[w], counter)
      modifies this`pool, this`wrappers
      ensures Valid() && wrappers == old(wrappers) - {w}
      ensures pool == if |old(pool)| < CAPACITY && old(wrappers)[w].count != UINT64_MAX then old(pool) + [old(wrappers)[w]] else old(pool)
    {
      RisingLast(signals[wrappers[w].handle]);
      if |pool| < CAPACITY && wrappers[w].count != UINT64_MAX { pool := pool + [wrappers[w]]; }
      wrappers := wrappers - {w};
    }
  }
}
