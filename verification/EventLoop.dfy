/** Selecting and erasing by index, as the poller does on its parallel vectors. */
module IndexedErasure {
  predicate Ascending(s: seq<nat>) {
    forall i, j :: 0 <= i < j < |s| ==> s[i] < s[j]
  }

  predicate Within(s: seq<nat>, n: nat) {
    forall i :: 0 <= i < |s| ==> s[i] < n
  }

  function Select<T>(s: seq<T>, indices: seq<nat>): seq<T>
    requires Within(indices, |s|)
  {
    seq(|indices|, k requires 0 <= k < |indices| => s[indices[k]])
  }

  /** The indices below `n` that are not in `gone`, ascending. */
  function Remaining(n: nat, gone: seq<nat>): (kept: seq<nat>)
    ensures Within(kept, n) && Ascending(kept)
  {
    if n == 0 then [] else Remaining(n - 1, gone) + if n - 1 in gone then [] else [n - 1]
  }

  lemma {:induction false} RemainingHas(n: nat, gone: seq<nat>, i: nat)
    ensures i in Remaining(n, gone) <==> i < n && i !in gone
  {
    if n > 0 { RemainingHas(n - 1, gone, i); }
  }

  function Without<T>(s: seq<T>, gone: seq<nat>): seq<T> {
    Select(s, Remaining(|s|, gone))
  }

  function Erase<T>(s: seq<T>, i: nat): seq<T>
    requires i < |s|
  {
    s[..i] + s[i + 1..]
  }

  /** Erasing `gone` from the last index to the first. */
  function EraseBackward<T>(s: seq<T>, gone: seq<nat>): seq<T>
    requires Ascending(gone) && Within(gone, |s|)
    decreases |gone|
  {
    if gone == [] then s
    else
      var last := gone[|gone| - 1];
      EraseBackward(Erase(s, last), gone[..|gone| - 1])
  }

  lemma {:induction false} WithoutTail<T>(a: seq<T>, b: seq<T>, gone: seq<nat>)
    requires Within(gone, |a|)
    ensures Without(a + b, gone) == Without(a, gone) + b
  {
    if b == [] {
      assert a + b == a;
    } else {
      var init := b[..|b| - 1];
      WithoutTail(a, init, gone);
      var all := a + b;
      assert all[..|all| - 1] == a + init;
      WithoutSnoc(all, gone);
      assert |all| - 1 !in gone;
      assert all[|all| - 1] == b[|b| - 1];
      assert b == init + [b[|b| - 1]];
    }
  }

  lemma WithoutSnoc<T>(s: seq<T>, gone: seq<nat>)
    requires s != []
    ensures Without(s, gone) == Without(s[..|s| - 1], gone) + if |s| - 1 in gone then [] else [s[|s| - 1]]
  {
    var n := |s| - 1;
    var before := Remaining(n, gone);
    if n in gone {
      assert Remaining(n + 1, gone) == before;
      assert Select(s, before) == Select(s[..n], before);
    } else {
      assert Remaining(n + 1, gone) == before + [n];
      assert Select(s, before + [n]) == Select(s[..n], before) + [s[n]];
    }
  }

  lemma {:induction false} RemainingIgnores(n: nat, gone: seq<nat>, i: nat)
    requires n <= i
    ensures Remaining(n, gone + [i]) == Remaining(n, gone)
  {
    if n > 0 { RemainingIgnores(n - 1, gone, i); }
  }

  /** Back-to-front erasure keeps the indices valid and removes exactly `gone`. */
  lemma {:induction false} EraseBackwardKeepsRest<T>(s: seq<T>, gone: seq<nat>)
    requires Ascending(gone) && Within(gone, |s|)
    ensures EraseBackward(s, gone) == Without(s, gone)
    decreases |gone|
  {
    if gone == [] {
      KeepAll(s);
    } else {
      var i, rest := gone[|gone| - 1], gone[..|gone| - 1];
      EraseBackwardKeepsRest(Erase(s, i), rest);
      WithoutTail(s[..i], s[i + 1..], rest);
      EraseLast(s, rest, i);
      assert gone == rest + [i];
    }
  }

  lemma EraseLast<T>(s: seq<T>, rest: seq<nat>, i: nat)
    requires i < |s| && Within(rest, i)
    ensures Without(s, rest + [i]) == Without(s[..i], rest) + s[i + 1..]
  {
    var gone := rest + [i];
    RemainingIgnores(i, rest, i);
    assert Without(s[..i], gone) == Without(s[..i], rest);
    var front := s[..i + 1];
    WithoutSnoc(front, gone);
    assert gone[|rest|] == i;
    assert front[..i] == s[..i];
    WithoutTail(front, s[i + 1..], gone);
    assert front + s[i + 1..] == s;
  }

  lemma {:induction false} KeepAll<T>(s: seq<T>)
    ensures Without(s, []) == s
  {
    if s != [] {
      KeepAll(s[..|s| - 1]);
      WithoutSnoc(s, []);
    }
  }

  /** Going front to back instead would erase the wrong entries. */
  lemma FrontToBackErasesOthers()
    ensures Erase(Erase([10, 11, 12, 13], 1), 2) != Without([10, 11, 12, 13], [1, 2])
  {
    var s := [10, 11, 12, 13];
    EraseBackwardKeepsRest(s, [1, 2]);
    assert [1, 2][..1] == [1] && [1][..0] == [];
    assert Erase(s, 2) == [10, 11, 13] && Erase(Erase(s, 2), 1) == [10, 13];
    assert EraseBackward(Erase(s, 2), [1]) == [10, 13];
    assert Erase(Erase(s, 1), 2)[1] == 12;
  }
}

/** The device's completion poller: callbacks wait in three parallel vectors
    for timeline semaphores, other threads append while the poller waits
    without the lock, and a wake timeline occupies entry zero. */
module EventLoops {
  import opened Wrappers
  import opened IndexedErasure

  type Semaphore = nat
  type Callback = nat

  datatype Registration = Registration(semaphore: Semaphore, target: nat, callback: Option<Callback>)

  /** Where the one polling thread is. */
  datatype Poller =
    | Away
    | Asleep
    | Waiting(semaphores: seq<Semaphore>, values: seq<nat>)
    | Checked(semaphores: seq<Semaphore>, values: seq<nat>, indices: seq<nat>)
    | Running

  /** Entry `i` of the vectors is registration `ids[i]`, for every `i` above zero. */
  ghost predicate Aligned(semaphores: seq<Semaphore>, values: seq<nat>, callbacks: seq<Option<Callback>>, ids: seq<nat>, log: seq<Registration>) {
    && |semaphores| == |values| == |callbacks| == |ids|
    && forall i :: 1 <= i < |ids| ==> ids[i] < |log| && log[ids[i]] == Registration(semaphores[i], values[i], callbacks[i])
  }

  ghost predicate AscendingAfterFirst(ids: seq<nat>) {
    forall i, j :: 1 <= i < j < |ids| ==> ids[i] < ids[j]
  }

  ghost predicate Pending(ids: seq<nat>, id: nat) {
    exists i :: 1 <= i < |ids| && ids[i] == id
  }

  /** Every registration is in exactly one place, and nothing else is. */
  ghost predicate Conserved(count: nat, ids: seq<nat>, taken: seq<nat>, ran: seq<nat>) {
    && (forall id :: 0 <= id < count ==> Pending(ids, id) || id in taken || id in ran)
    && (forall id :: id in taken ==> id < count && !Pending(ids, id) && id !in ran)
    && (forall id :: id in ran ==> id < count && !Pending(ids, id))
    && Ascending(taken)
    && (forall i, j :: 0 <= i < j < |ran| ==> ran[i] != ran[j])
  }

  ghost predicate Reached(counter: map<Semaphore, nat>, r: Registration) {
    r.semaphore in counter && r.target <= counter[r.semaphore]
  }

  ghost predicate AllReached(counter: map<Semaphore, nat>, log: seq<Registration>, ids: seq<nat>) {
    forall id :: id in ids ==> id < |log| && Reached(counter, log[id])
  }

  ghost predicate Forward(counter: map<Semaphore, nat>, next: map<Semaphore, nat>) {
    forall s :: s in counter ==> s in next && counter[s] <= next[s]
  }

  /** A snapshot is a prefix of the vectors; only the wake value may have moved on. */
  ghost predicate Snapshot(s: seq<Semaphore>, v: seq<nat>, semaphores: seq<Semaphore>, values: seq<nat>) {
    && 1 <= |s| == |v| <= |semaphores| == |values|
    && v[0] <= values[0]
    && forall i :: 0 <= i < |s| ==> s[i] == semaphores[i] && (i > 0 ==> v[i] == values[i])
  }

  /** Taking the ready entries out loses and duplicates nothing. */
  lemma TakeConserves(count: nat, ids: seq<nat>, ran: seq<nat>, ready: seq<nat>)
    requires Conserved(count, ids, [], ran) && AscendingAfterFirst(ids) && |ids| > 0
    requires Ascending(ready) && Within(ready, |ids|) && (forall k :: 0 <= k < |ready| ==> ready[k] > 0)
    requires forall i :: 1 <= i < |ids| ==> ids[i] < count
    ensures Within(ready, |ids|) && Conserved(count, Without(ids, ready), Select(ids, ready), ran) && AscendingAfterFirst(Without(ids, ready))
  {
    var kept := Remaining(|ids|, ready);
    var rest, taken := Without(ids, ready), Select(ids, ready);
    ZeroRemains(|ids|, ready);
    forall id | 0 <= id < count && id !in ran ensures Pending(rest, id) || id in taken {
      var i :| 1 <= i < |ids| && ids[i] == id;
      RemainingHas(|ids|, ready, i);
      if i in ready {
        var k :| 0 <= k < |ready| && ready[k] == i;
        assert taken[k] == id;
      } else {
        var k :| 0 <= k < |kept| && kept[k] == i;
        assert rest[k] == id && kept[0] == 0;
      }
    }
    forall id | Pending(rest, id) ensures Pending(ids, id) && id !in taken {
      var k :| 1 <= k < |rest| && rest[k] == id;
      assert kept[0] < kept[k];
      assert ids[kept[k]] == id;
      RemainingHas(|ids|, ready, kept[k]);
      if id in taken {
        var m :| 0 <= m < |taken| && taken[m] == id;
        assert ready[m] in ready && kept[k] in kept;
        assert ids[ready[m]] == ids[kept[k]];
        SameEntry(ids, ready[m], kept[k]);
      }
    }
    forall id | id in taken ensures Pending(ids, id) {
      var k :| 0 <= k < |taken| && taken[k] == id;
      assert ids[ready[k]] == id;
    }
  }

  lemma SameEntry(ids: seq<nat>, i: nat, j: nat)
    requires AscendingAfterFirst(ids) && 1 <= i < |ids| && 1 <= j < |ids| && ids[i] == ids[j]
    ensures i == j
  {
  }

  lemma {:induction false} ZeroRemains(n: nat, gone: seq<nat>)
    requires n > 0 && 0 !in gone
    ensures Remaining(n, gone) != [] && Remaining(n, gone)[0] == 0
  {
    if n > 1 { ZeroRemains(n - 1, gone); }
  }

  /** What the check saw ready has reached its registered target. */
  lemma TakenReached(s: seq<Semaphore>, v: seq<nat>, indices: seq<nat>, semaphores: seq<Semaphore>, values: seq<nat>,
                     callbacks: seq<Option<Callback>>, ids: seq<nat>, log: seq<Registration>, counter: map<Semaphore, nat>)
    requires Aligned(semaphores, values, callbacks, ids, log) && Snapshot(s, v, semaphores, values) && Within(indices, |s|)
    requires forall k :: 0 <= k < |indices| ==> indices[k] > 0 && s[indices[k]] in counter && v[indices[k]] <= counter[s[indices[k]]]
    ensures Within(indices, |ids|) && AllReached(counter, log, Select(ids, indices))
    ensures |semaphores| == |values| == |callbacks| == |ids|
    ensures var moved, taken := Select(callbacks, indices), Select(ids, indices);
            |moved| == |taken| && forall k :: 0 <= k < |taken| ==> taken[k] < |log| && moved[k] == log[taken[k]].callback
  {
    var taken := Select(ids, indices);
    forall id | id in taken ensures id < |log| && Reached(counter, log[id]) {
      var k :| 0 <= k < |taken| && taken[k] == id;
      var i := indices[k];
      assert log[ids[i]] == Registration(semaphores[i], values[i], callbacks[i]);
    }
  }

  lemma TakeAligned(semaphores: seq<Semaphore>, values: seq<nat>, callbacks: seq<Option<Callback>>, ids: seq<nat>, log: seq<Registration>, gone: seq<nat>)
    requires Aligned(semaphores, values, callbacks, ids, log) && |ids| > 0 && 0 !in gone
    ensures Aligned(Without(semaphores, gone), Without(values, gone), Without(callbacks, gone), Without(ids, gone), log)
    ensures |Without(ids, gone)| > 0 && |Without(values, gone)| > 0 && |Without(callbacks, gone)| > 0
    ensures Without(semaphores, gone) != [] && Without(semaphores, gone)[0] == semaphores[0]
    ensures Without(values, gone)[0] == values[0] && Without(callbacks, gone)[0] == callbacks[0]
  {
    ZeroRemains(|ids|, gone);
    var kept := Remaining(|ids|, gone);
    forall k | 1 <= k < |kept| ensures 1 <= kept[k] < |ids| { assert kept[0] < kept[k]; }
  }

  class EventLoop {
    const wakeSemaphore: Semaphore
    var semaphores: seq<Semaphore>
    var values: seq<nat>
    var callbacks: seq<Option<Callback>>
    var waiting: bool
    var wakePending: bool
    /** Callbacks the poller moved out and has not run yet. */
    var ready: seq<Option<Callback>>
    var poller: Poller

    /** The timeline counters of the driver. */
    ghost var counter: map<Semaphore, nat>
    /** Every registration ever made, oldest first. */
    ghost var log: seq<Registration>
    ghost var ids: seq<nat>
    ghost var taken: seq<nat>
    /** Registrations whose callbacks ran, in the order they ran. */
    ghost var ran: seq<nat>
    /** A wake that no poll has returned for yet. */
    ghost var owed: bool

    ghost predicate Valid()
      reads this
    {
      && Aligned(semaphores, values, callbacks, ids, log) && |ids| > 0 && AscendingAfterFirst(ids)
      && semaphores[0] == wakeSemaphore && callbacks[0] == None
      && Conserved(|log|, ids, taken, ran)
      && AllReached(counter, log, taken) && AllReached(counter, log, ran)
      && |ready| == |taken| && (forall k :: 0 <= k < |taken| ==> taken[k] < |log| && ready[k] == log[taken[k]].callback)
      && (taken != [] ==> poller == Running)
      && wakeSemaphore in counter && values[0] == counter[wakeSemaphore] + 1
      && HandshakeOk() && PollerOk()
    }

    /** The poller never sleeps through a wake or through registered GPU work. */
    ghost predicate HandshakeOk()
      requires |values| > 0 && wakeSemaphore in counter
      reads this
    {
      && (waiting ==> poller == Asleep && !wakePending && |semaphores| == 1)
      && (owed ==> match poller
                   case Away => wakePending
                   case Asleep => !waiting
                   case Waiting(_, v) => v != [] && v[0] <= counter[wakeSemaphore]
                   case Checked(_, _, _) => true
                   case Running => true)
    }

    ghost predicate PollerOk()
      reads this
    {
      match poller
      case Waiting(s, v) => Snapshot(s, v, semaphores, values)
      case Checked(s, v, indices) =>
        && Snapshot(s, v, semaphores, values) && Ascending(indices) && Within(indices, |s|)
        && (forall k :: 0 <= k < |indices| ==> indices[k] > 0 && s[indices[k]] in counter && v[indices[k]] <= counter[s[indices[k]]])
      case _ => true
    }

    constructor (wake: Semaphore)
      ensures Valid() && wakeSemaphore == wake && log == [] && ran == [] && poller == Away
      ensures counter == map[wake := 0]
    {
      wakeSemaphore := wake;
      semaphores, values, callbacks := [wake], [1], [None];
      waiting, wakePending, ready, poller := false, false, [], Away;
      counter, log, ids, taken, ran, owed := map[wake := 0], [], [0], [], [], false;
    }

    /** The driver: it creates semaphores, and the counters of all but the wake
        semaphore move forward. */
    ghost method Advance(next: map<Semaphore, nat>)
      requires Valid() && Forward(counter, next) && wakeSemaphore in counter && next[wakeSemaphore] == counter[wakeSemaphore]
      modifies this`counter
      ensures Valid() && counter == next
    {
      hide Conserved, Aligned, AscendingAfterFirst;
      CountersGrow(counter, next, log, taken);
      CountersGrow(counter, next, log, ran);
      counter := next;
    }

    method WaitForSemaphore(s: Semaphore, target: nat, callback: Option<Callback>)
      requires Valid()
      modifies this`semaphores, this`values, this`callbacks, this`waiting, this`log, this`ids
      ensures Valid() && ids == old(ids) + [|old(log)|] && log == old(log) + [Registration(s, target, callback)]
      ensures !waiting
    {
      hide Conserved, AllReached, Aligned, AscendingAfterFirst;
      Lengths(semaphores, values, callbacks, ids, log);
      ghost var r := Registration(s, target, callback);
      Registered(|log|, ids, taken, ran);
      RegisteredAligned(semaphores, values, callbacks, ids, log, r);
      StillReached(counter, log, r, taken, ran);
      semaphores, values, callbacks := semaphores + [s], values + [target], callbacks + [callback];
      ids, log := ids + [|log|], log + [r];
      if waiting { waiting := false; }
    }

    /** Signals strictly increasing values on the wake timeline, unless the
        poller sleeps on the CPU condition variable. */
    method WakeupEventLoop()
      requires Valid()
      modifies this`wakePending, this`waiting, this`values, this`counter, this`owed
      ensures Valid() && owed && wakePending
      ensures old(waiting) ==> !waiting && counter == old(counter)
      ensures !old(waiting) ==> counter == old(counter)[wakeSemaphore := old(counter)[wakeSemaphore] + 1]
    {
      hide Conserved, AllReached, AscendingAfterFirst;
      CounterGrows(counter, wakeSemaphore, values[0], log, taken);
      CounterGrows(counter, wakeSemaphore, values[0], log, ran);
      wakePending := true;
      owed := true;
      if waiting { waiting := false; return; }
      var oldValue := values[0];
      values := values[0 := values[0] + 1];
      counter := counter[wakeSemaphore := oldValue];
    }

    /** The first locked section of a poll. */
    method Enter() returns (returned: bool)
      requires Valid() && poller == Away
      modifies this`wakePending, this`waiting, this`poller, this`owed
      ensures Valid() && log == old(log)
      ensures returned <==> old(wakePending)
      ensures waiting <==> !returned && |semaphores| == 1
      ensures returned ==> poller == Away && !wakePending
      ensures !returned ==> poller == if |semaphores| == 1 then Asleep else Waiting(semaphores, values)
    {
      if wakePending { wakePending := false; owed := false; return true; }
      if |semaphores| == 1 {
        waiting := true;
        poller := Asleep;
      } else {
        poller := Waiting(semaphores, values);
      }
      return false;
    }

    /** The condition variable's wait ends: notified, or timed out. */
    method EndSleep()
      requires Valid() && poller == Asleep
      modifies this`wakePending, this`waiting, this`poller, this`owed
      ensures Valid() && poller == Away && !waiting && !wakePending
    {
      waiting := false;
      wakePending := false;
      owed := false;
      poller := Away;
    }

    method EndWait()
      requires Valid() && poller.Waiting?
      modifies this`poller, this`owed, this`wakePending
      ensures Valid() && poller == Away
    {
      poller := Away;
      owed := false;
    }

    /** Without the lock: which snapshot entries are ready.  `observed` are the
        counter values the driver returned one after the other. */
    method Check(observed: seq<nat>)
      requires Valid() && poller.Waiting? && |observed| == |poller.semaphores|
      requires forall i :: 0 <= i < |observed| ==> poller.semaphores[i] in counter && observed[i] <= counter[poller.semaphores[i]]
      modifies this`poller
      ensures Valid() && poller.Checked?
      ensures poller.semaphores == old(poller).semaphores && poller.values == old(poller).values
      ensures forall i :: i in poller.indices <==> 1 <= i < |observed| && old(poller).values[i] <= observed[i]
    {
      var indices: seq<nat> := [];
      for i := 1 to |poller.semaphores|
        invariant Ascending(indices) && Within(indices, i)
        invariant forall k :: k in indices <==> 1 <= k < i && poller.values[k] <= observed[k]
      {
        if observed[i] >= poller.values[i] { indices := indices + [i]; }
      }
      forall k | 0 <= k < |indices| ensures poller.values[indices[k]] <= observed[indices[k]] { assert indices[k] in indices; }
      poller := Checked(poller.semaphores, poller.values, indices);
    }

    /** The second locked section: moves the ready callbacks out in order, then
        erases back to front.  Entries appended meanwhile stay. */
    method Take()
      requires Valid() && poller.Checked?
      modifies this`semaphores, this`values, this`callbacks, this`ready, this`poller, this`ids, this`taken
      ensures Valid() && poller == Running
      ensures taken == Select(old(ids), old(poller).indices)
      ensures ids == Without(old(ids), old(poller).indices)
    {
      hide Conserved, AllReached, Aligned, AscendingAfterFirst, Without, Reached, Remaining;
      Lengths(semaphores, values, callbacks, ids, log);
      var indices := poller.indices;
      TakenReached(poller.semaphores, poller.values, indices, semaphores, values, callbacks, ids, log, counter);
      TakeConserves(|log|, ids, ran, indices);
      TakeAligned(semaphores, values, callbacks, ids, log, indices);
      ready := MoveOut(indices);
      EraseReady(indices);
      taken := Select(ids, indices);
      ids := Without(ids, indices);
      poller := Running;
    }

    /** The ready callbacks in registration order. */
    method MoveOut(indices: seq<nat>) returns (moved: seq<Option<Callback>>)
      requires Within(indices, |callbacks|)
      ensures moved == Select(callbacks, indices)
    {
      moved := [];
      for i := 0 to |indices|
        invariant moved == Select(callbacks, indices)[..i]
      {
        moved := moved + [callbacks[indices[i]]];
      }
    }

    /** Erases from the last index to the first. */
    method EraseReady(indices: seq<nat>)
      requires |semaphores| == |values| == |callbacks| && Ascending(indices) && Within(indices, |semaphores|)
      modifies this`semaphores, this`values, this`callbacks
      ensures semaphores == Without(old(semaphores), indices)
      ensures values == Without(old(values), indices)
      ensures callbacks == Without(old(callbacks), indices)
    {
      EraseBackwardKeepsRest(semaphores, indices);
      EraseBackwardKeepsRest(values, indices);
      EraseBackwardKeepsRest(callbacks, indices);
      var i := |indices|;
      assert indices[..i] == indices;
      while i > 0
        invariant 0 <= i <= |indices| && |semaphores| == |values| == |callbacks| && Within(indices[..i], |semaphores|)
        invariant EraseBackward(semaphores, indices[..i]) == EraseBackward(old(semaphores), indices)
        invariant EraseBackward(values, indices[..i]) == EraseBackward(old(values), indices)
        invariant EraseBackward(callbacks, indices[..i]) == EraseBackward(old(callbacks), indices)
      {
        i := i - 1;
        assert indices[..i + 1][..i] == indices[..i];
        semaphores := Erase(semaphores, indices[i]);
        values := Erase(values, indices[i]);
        callbacks := Erase(callbacks, indices[i]);
      }
    }

    /** Runs the oldest callback that was moved out. */
    method RunOne() returns (callback: Option<Callback>)
      requires Valid() && poller == Running && ready != []
      modifies this`ready, this`taken, this`ran
      ensures Valid() && old(taken) != [] && old(taken)[0] < |log| && ran == old(ran) + [old(taken)[0]] && taken == old(taken)[1..]
      ensures callback == log[old(taken)[0]].callback
      ensures old(taken)[0] !in old(ran) && Reached(counter, log[old(taken)[0]])
    {
      callback := ready[0];
      ready := ready[1..];
      ran := ran + [taken[0]];
      taken := taken[1..];
      RanOne(|log|, ids, old(taken), old(ran));
    }

    method Finish()
      requires Valid() && poller == Running && ready == []
      modifies this`poller, this`owed
      ensures Valid() && poller == Away
    {
      poller := Away;
      owed := false;
    }
  }

  lemma CountersGrow(counter: map<Semaphore, nat>, next: map<Semaphore, nat>, log: seq<Registration>, ids: seq<nat>)
    requires AllReached(counter, log, ids) && Forward(counter, next)
    ensures AllReached(next, log, ids)
  {
  }

  lemma CounterGrows(counter: map<Semaphore, nat>, s: Semaphore, value: nat, log: seq<Registration>, ids: seq<nat>)
    requires AllReached(counter, log, ids) && (s in counter ==> counter[s] <= value)
    ensures AllReached(counter[s := value], log, ids)
  {
  }

  lemma Lengths(semaphores: seq<Semaphore>, values: seq<nat>, callbacks: seq<Option<Callback>>, ids: seq<nat>, log: seq<Registration>)
    requires Aligned(semaphores, values, callbacks, ids, log)
    ensures |semaphores| == |values| == |callbacks| == |ids|
    ensures forall i :: 1 <= i < |ids| ==> ids[i] < |log|
  {
  }

  lemma Registered(count: nat, ids: seq<nat>, taken: seq<nat>, ran: seq<nat>)
    requires Conserved(count, ids, taken, ran) && AscendingAfterFirst(ids) && |ids| > 0
    requires forall i :: 1 <= i < |ids| ==> ids[i] < count
    ensures Conserved(count + 1, ids + [count], taken, ran) && AscendingAfterFirst(ids + [count])
  {
    var more := ids + [count];
    forall id ensures Pending(more, id) <==> Pending(ids, id) || id == count {
      if Pending(ids, id) { var i :| 1 <= i < |ids| && ids[i] == id; assert more[i] == id; }
      assert more[|ids|] == count;
    }
  }

  lemma RegisteredAligned(semaphores: seq<Semaphore>, values: seq<nat>, callbacks: seq<Option<Callback>>, ids: seq<nat>, log: seq<Registration>, r: Registration)
    requires Aligned(semaphores, values, callbacks, ids, log) && |ids| > 0
    ensures Aligned(semaphores + [r.semaphore], values + [r.target], callbacks + [r.callback], ids + [|log|], log + [r])
  {
  }

  lemma StillReached(counter: map<Semaphore, nat>, log: seq<Registration>, r: Registration, taken: seq<nat>, ran: seq<nat>)
    requires AllReached(counter, log, taken) && AllReached(counter, log, ran)
    ensures AllReached(counter, log + [r], taken) && AllReached(counter, log + [r], ran)
  {
  }

  lemma RanOne(count: nat, ids: seq<nat>, taken: seq<nat>, ran: seq<nat>)
    requires Conserved(count, ids, taken, ran) && taken != []
    ensures Conserved(count, ids, taken[1..], ran + [taken[0]])
  {
    var rest, more := taken[1..], ran + [taken[0]];
    assert taken == [taken[0]] + rest;
    assert forall i :: 0 <= i < |rest| ==> rest[i] == taken[i + 1];
    assert taken[0] in taken;
    forall id | id in rest ensures id in taken && id != taken[0] {
      var k :| 0 <= k < |rest| && rest[k] == id;
      assert taken[k + 1] == id;
    }
    forall i, j | 0 <= i < j < |more| ensures more[i] != more[j] { if j == |ran| { assert more[i] in ran; } }
  }
}
