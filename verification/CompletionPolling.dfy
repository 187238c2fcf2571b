/** The event loop and the command buffers together: an armed completion is a
    registration in the loop, and only the loop runs it.  So a command completes
    once, and only after the counter of its timeline reached its value. */
module CompletionPolling {
  import opened Wrappers
  import opened Timelines
  import opened CommandBuffers
  import opened EventLoops

  /** The loop's semaphores: its own wake semaphore, and the pooled timelines. */
  const WAKE: Semaphore := 0

  function SemaphoreOf(h: Handle): Semaphore { h + 1 }

  ghost predicate SameCounters(counter: map<Handle, nat>, seen: map<Semaphore, nat>) {
    forall h :: h in counter ==> SemaphoreOf(h) in seen && seen[SemaphoreOf(h)] == counter[h]
  }

  /** The registration that arms the completion of an armed command. */
  ghost predicate Arms(places: map<CommandId, Place>, history: map<CommandId, History>, wrappers: map<WrapperId, Timeline>, r: Registration) {
    && r.callback.Some? && r.callback.value in places && places[r.callback.value] == Armed
    && r.callback.value in history && history[r.callback.value].wrapper in wrappers
    && var t := wrappers[history[r.callback.value].wrapper];
       r.semaphore == SemaphoreOf(t.handle) && r.target == t.count
  }

  ghost predicate Outstanding(log: seq<Registration>, ran: seq<nat>, id: nat) { id < |log| && id !in ran }

  /** The registrations that have not run are those of the armed commands, one each. */
  ghost predicate Linked(places: map<CommandId, Place>, history: map<CommandId, History>, wrappers: map<WrapperId, Timeline>,
                         log: seq<Registration>, ran: seq<nat>)
  {
    && (forall id: nat :: Outstanding(log, ran, id) ==> Arms(places, history, wrappers, log[id]))
    && (forall i: nat, j: nat :: Outstanding(log, ran, i) && Outstanding(log, ran, j) && log[i].callback == log[j].callback ==> i == j)
    && (forall c :: c in places && places[c] == Armed ==> exists id: nat :: Outstanding(log, ran, id) && log[id].callback == Some(c))
  }

  /** The same commands are armed, with the same timelines. */
  ghost predicate SameArmed(places: map<CommandId, Place>, history: map<CommandId, History>, wrappers: map<WrapperId, Timeline>,
                            p: map<CommandId, Place>, h: map<CommandId, History>, w: map<WrapperId, Timeline>)
  {
    && (forall c :: (c in p && p[c] == Armed) <==> (c in places && places[c] == Armed))
    && (forall c :: c in places && places[c] == Armed && c in history && history[c].wrapper in wrappers ==>
          c in h && h[c].wrapper == history[c].wrapper && h[c].wrapper in w && w[h[c].wrapper] == wrappers[h[c].wrapper])
  }

  lemma LinkedSame(places: map<CommandId, Place>, history: map<CommandId, History>, wrappers: map<WrapperId, Timeline>,
                   p: map<CommandId, Place>, h: map<CommandId, History>, w: map<WrapperId, Timeline>, log: seq<Registration>, ran: seq<nat>)
    requires Linked(places, history, wrappers, log, ran) && SameArmed(places, history, wrappers, p, h, w)
    ensures Linked(p, h, w, log, ran)
  {
  }

  lemma NothingLinked(places: map<CommandId, Place>, history: map<CommandId, History>, wrappers: map<WrapperId, Timeline>, ran: seq<nat>)
    requires places == map[]
    ensures Linked(places, history, wrappers, [], ran)
  {
  }

  /** Command `c` is armed and registered. */
  lemma LinkedMore(places: map<CommandId, Place>, history: map<CommandId, History>, wrappers: map<WrapperId, Timeline>,
                   p: map<CommandId, Place>, log: seq<Registration>, ran: seq<nat>, c: CommandId, r: Registration)
    requires Linked(places, history, wrappers, log, ran) && c in places && places[c] != Armed && p == places[c := Armed]
    requires Arms(p, history, wrappers, r) && r.callback == Some(c) && forall id :: id in ran ==> id < |log|
    ensures Linked(p, history, wrappers, log + [r], ran)
  {
    var more := log + [r];
    assert Outstanding(more, ran, |log|);
    forall id: nat | Outstanding(more, ran, id)
      ensures Arms(p, history, wrappers, more[id]) && (id < |log| ==> Outstanding(log, ran, id) && more[id] == log[id] && log[id].callback != Some(c))
    {
      if id < |log| { assert Outstanding(log, ran, id) && Arms(places, history, wrappers, log[id]); }
    }
    forall d | d in p && p[d] == Armed ensures exists id: nat :: Outstanding(more, ran, id) && more[id].callback == Some(d) {
      if d == c {
        assert more[|log|].callback == Some(d);
      } else {
        var id: nat :| Outstanding(log, ran, id) && log[id].callback == Some(d);
        assert Outstanding(more, ran, id) && more[id] == log[id];
      }
    }
  }

  /** The registration `id` ran, and its command is not armed any more. */
  lemma LinkedLess(places: map<CommandId, Place>, history: map<CommandId, History>, wrappers: map<WrapperId, Timeline>,
                   p: map<CommandId, Place>, h: map<CommandId, History>, log: seq<Registration>, ran: seq<nat>, id: nat, c: CommandId)
    requires Linked(places, history, wrappers, log, ran) && Outstanding(log, ran, id) && log[id].callback == Some(c)
    requires c in p && p == places[c := p[c]] && p[c] != Armed && c in h && h == history[c := h[c]]
    ensures Linked(p, h, wrappers, log, ran + [id])
  {
    var more := ran + [id];
    forall k: nat | Outstanding(log, more, k) ensures Arms(p, h, wrappers, log[k]) && Outstanding(log, ran, k) {
      assert Outstanding(log, ran, k) && log[k].callback != log[id].callback;
    }
    forall d | d in p && p[d] == Armed ensures exists k: nat :: Outstanding(log, more, k) && log[k].callback == Some(d) {
      var k: nat :| Outstanding(log, ran, k) && log[k].callback == Some(d);
      assert Outstanding(log, more, k);
    }
  }

  /** A counter at the registered value is the timeline's last value. */
  lemma ReachedIsQuiet(t: Timeline, signals: map<Handle, seq<nat>>, counter: map<Handle, nat>, seen: map<Semaphore, nat>, r: Registration)
    requires Tracked(t, signals, counter) && SameCounters(counter, seen) && Reached(seen, r)
    requires r.semaphore == SemaphoreOf(t.handle) && r.target == t.count
    ensures Quiet(t, counter)
  {
  }

  /** What the loop sees of the driver's counters. */
  ghost function Seen(counter: map<Handle, nat>, wake: nat): map<Semaphore, nat> {
    (map h | h in counter :: SemaphoreOf(h) := counter[h])[WAKE := wake]
  }

  /** The loop sees nothing but the wake semaphore and the pooled timelines. */
  ghost predicate Watches(counter: map<Handle, nat>, seen: map<Semaphore, nat>) {
    WAKE in seen && seen == Seen(counter, seen[WAKE])
  }

  lemma SeenFacts(counter: map<Handle, nat>, wake: nat)
    ensures WAKE in Seen(counter, wake) && Seen(counter, wake)[WAKE] == wake && SameCounters(counter, Seen(counter, wake))
    ensures forall s :: s in Seen(counter, wake) && s != WAKE ==> s - 1 in counter && SemaphoreOf(s - 1) == s
  {
  }

  lemma SeenWake(counter: map<Handle, nat>, wake: nat, next: nat)
    ensures Seen(counter, wake)[WAKE := next] == Seen(counter, next)
  {
  }

  lemma SeenForward(counter: map<Handle, nat>, seen: map<Semaphore, nat>, next: map<Handle, nat>)
    requires Watches(counter, seen) && forall h :: h in counter ==> h in next && counter[h] <= next[h]
    ensures Forward(seen, Seen(next, seen[WAKE])) && Watches(next, Seen(next, seen[WAKE]))
    ensures WAKE in Seen(next, seen[WAKE]) && Seen(next, seen[WAKE])[WAKE] == seen[WAKE]
  {
    hide Seen;
    SeenFacts(counter, seen[WAKE]);
    SeenFacts(next, seen[WAKE]);
    var more := Seen(next, seen[WAKE]);
    forall s | s in seen && s != WAKE ensures s in more && seen[s] <= more[s] {
      assert SemaphoreOf(s - 1) in more && more[SemaphoreOf(s - 1)] == next[s - 1];
    }
  }

  /** One more registration, for the completion of `c`. */
  ghost predicate Registers(c: CommandId, was: seq<Registration>, log: seq<Registration>) {
    |log| == |was| + 1 && log[..|was|] == was && log[|was|].callback == Some(c)
  }

  /** A commit gives `c` a fresh timeline; the armed commands keep theirs. */
  lemma CommitKeeps(places: map<CommandId, Place>, history: map<CommandId, History>, wrappers: map<WrapperId, Timeline>,
                    p: map<CommandId, Place>, h: map<CommandId, History>, w: map<WrapperId, Timeline>, c: CommandId,
                    log: seq<Registration>, ran: seq<nat>)
    requires Linked(places, history, wrappers, log, ran) && c in places && places[c] != Armed
    requires c in p && p == places[c := p[c]] && c in h && h == history[c := h[c]]
    requires h[c].wrapper !in wrappers && h[c].wrapper in w && w == wrappers[h[c].wrapper := w[h[c].wrapper]]
    ensures Linked(p[c := Recording], h, w, log, ran) && (p[c] != Armed ==> Linked(p, h, w, log, ran))
  {
    LinkedSame(places, history, wrappers, p[c := Recording], h, w, log, ran);
    if p[c] != Armed { LinkedSame(places, history, wrappers, p, h, w, log, ran); }
  }

  class CompletionDevice {
    const device: CommandDevice
    const loop: EventLoop

    ghost predicate Valid()
      reads this, device, device.timelines, loop
    {
      && device.Valid() && loop.Valid() && loop.wakeSemaphore == WAKE
      && Watches(device.timelines.counter, loop.counter)
      && Linked(device.places, device.history, device.timelines.wrappers, loop.log, loop.ran)
    }

    /** A new device: the reserve of timelines, no commands, an idle loop. */
    constructor ()
      ensures Valid() && device.commands == map[] && loop.log == [] && fresh(device) && fresh(device.timelines) && fresh(loop)
    {
      hide CommandDevice.Valid, EventLoop.Valid, TimelinePool.Valid, Linked, Seen;
      var timelines := new TimelinePool();
      var commands := new CommandDevice(timelines);
      var polling := new EventLoop(WAKE);
      device, loop := commands, polling;
      new;
      Known();
      SeenFacts(device.timelines.counter, 0);
      loop.Advance(Seen(device.timelines.counter, 0));
      NothingLinked(device.places, device.history, device.timelines.wrappers, loop.ran);
    }

    /** The GPU work of the command is done. */
    ghost predicate TimelineReached(c: CommandId)
      reads device, device.timelines
    {
      && c in device.history && device.history[c].wrapper in device.timelines.wrappers
      && Quiet(device.timelines.wrappers[device.history[c].wrapper], device.timelines.counter)
    }

    /** What the device knows of one command. */
    lemma Facts(c: CommandId)
      requires device.Valid() && c in device.commands
      ensures c in device.places && c in device.history && (device.commands[c].committed <==> device.places[c] != Recording)
      ensures device.places[c] == Armed ==>
                && device.commands[c].semaphore == Some(device.history[c].wrapper) && device.history[c].wrapper in device.timelines.wrappers
                && Tracked(device.timelines.wrappers[device.history[c].wrapper], device.timelines.signals, device.timelines.counter)
                && HeldByClosure(device.places, device.history, device.history[c].wrapper)
    {
      hide PoolsOk, QueueOk, PoolOk, HandlesOk, Exclusive;
      Look(device.commands, device.places, device.history, c);
      if device.places[c] == Armed { assert Holds(device.places, c); }
    }

    lemma Known()
      requires device.Valid()
      ensures device.commands.Keys == device.places.Keys
    {
    }

    lemma RanBefore()
      requires loop.Valid()
      ensures forall id :: id in loop.ran ==> id < |loop.log|
      ensures loop.wakeSemaphore in loop.counter
    {
    }

    /** waitForSemaphore with the completion of `c` as its callback. */
    method Register(c: CommandId)
      requires device.Valid() && loop.Valid() && loop.wakeSemaphore == WAKE && Watches(device.timelines.counter, loop.counter)
      requires c in device.commands && c in device.places && device.places[c] == Armed
      requires Linked(device.places[c := Recording], device.history, device.timelines.wrappers, loop.log, loop.ran)
      modifies loop
      ensures Valid() && loop.counter == old(loop.counter) && Registers(c, old(loop.log), loop.log)
    {
      hide CommandDevice.Valid, EventLoop.Valid, Linked, Watches, Tracked;
      Facts(c);
      RanBefore();
      var t := device.timelines.wrappers[device.commands[c].semaphore.value];
      ghost var r := Registration(SemaphoreOf(t.handle), t.count, Some(c));
      assert device.places[c := Recording][c := Armed] == device.places;
      LinkedMore(device.places[c := Recording], device.history, device.timelines.wrappers, device.places, loop.log, loop.ran, c, r);
      loop.WaitForSemaphore(SemaphoreOf(t.handle), t.count, Some(c));
    }

    /** The loop sees the driver's counters move. */
    ghost method Observe(was: map<Handle, nat>)
      requires loop.Valid() && loop.wakeSemaphore == WAKE && Watches(was, loop.counter)
      requires forall h :: h in was ==> h in device.timelines.counter && was[h] <= device.timelines.counter[h]
      modifies loop`counter
      ensures loop.Valid() && Watches(device.timelines.counter, loop.counter)
    {
      hide EventLoop.Valid, Seen;
      RanBefore();
      SeenForward(was, loop.counter, device.timelines.counter);
      loop.Advance(Seen(device.timelines.counter, loop.counter[WAKE]));
    }

    /** A commit; a completion that is armed at once is registered at once. */
    method Commit(c: CommandId)
      requires Valid() && c in device.commands && !device.commands[c].committed
      modifies device, device.timelines, loop
      ensures Valid() && device.places == old(device.places)[c := if old(device.commands)[c].scheduled == [] then Armed else Scheduling(0)]
      ensures old(device.commands)[c].scheduled == [] ==> Registers(c, old(loop.log), loop.log)
      ensures old(device.commands)[c].scheduled != [] ==> loop.log == old(loop.log)
    {
      hide CommandDevice.Valid, EventLoop.Valid, Linked, Watches;
      Facts(c);
      device.Commit(c);
      CommitKeeps(old(device.places), old(device.history), old(device.timelines.wrappers), device.places, device.history, device.timelines.wrappers, c,
                  loop.log, loop.ran);
      Observe(old(device.timelines.counter));
      if device.places[c] == Armed { Register(c); }
    }

    /** The serial queue's last step for a command: its completion is armed. */
    method ArmScheduled() returns (c: CommandId)
      requires Valid() && device.scheduledQueue != [] && device.scheduledQueue[0] in device.commands && device.scheduledQueue[0] in device.places
      requires device.places[device.scheduledQueue[0]].Scheduling?
      requires device.places[device.scheduledQueue[0]].called == |device.commands[device.scheduledQueue[0]].scheduled|
      modifies device, loop
      ensures Valid() && c == old(device.scheduledQueue)[0] && device.places == old(device.places)[c := Armed]
      ensures Registers(c, old(loop.log), loop.log)
    {
      hide CommandDevice.Valid, EventLoop.Valid, Linked, Watches;
      c := device.ArmScheduled();
      LinkedSame(old(device.places), old(device.history), device.timelines.wrappers, device.places[c := Recording], device.history, device.timelines.wrappers,
                 loop.log, loop.ran);
      Register(c);
    }

    /** The poller runs the oldest callback that it moved out: the completion of
        an armed command whose timeline has reached its value, for the only time. */
    method RunCompletion(resetOk: bool) returns (c: CommandId)
      requires Valid() && loop.poller == Running && loop.ready != []
      modifies device, loop
      ensures Valid() && c in old(device.places) && old(device.places)[c] == Armed
      ensures old(TimelineReached(c))
      ensures c in device.places && (device.places[c] == Dropping || device.places[c] == Finishing(0)) && c in device.commands && device.commands[c].completed
      ensures forall id: nat :: Outstanding(loop.log, loop.ran, id) ==> loop.log[id].callback != Some(c)
    {
      hide CommandDevice.Valid, EventLoop.Valid, Watches, Quiet, Tracked, Given;
      ghost var id := NextToRun();
      var callback := loop.RunOne();
      c := callback.value;
      Known();
      Facts(c);
      SameSeen(device.timelines.counter, loop.counter);
      ReachedIsQuiet(device.timelines.wrappers[device.history[c].wrapper], device.timelines.signals, device.timelines.counter, loop.counter, loop.log[id]);
      device.Complete(c, resetOk);
      LinkedLess(old(device.places), old(device.history), device.timelines.wrappers, device.places, device.history, loop.log, old(loop.ran), id, c);
    }

    lemma NextToRun() returns (id: nat)
      requires Valid() && loop.poller == Running && loop.ready != []
      ensures loop.taken != [] && id == loop.taken[0] && Outstanding(loop.log, loop.ran, id)
      ensures Arms(device.places, device.history, device.timelines.wrappers, loop.log[id])
    {
      id := loop.taken[0];
      assert id in loop.taken;
    }

    /** The GPU moves a timeline forward. */
    ghost method Reach(handle: Handle, value: nat)
      requires Valid() && handle in device.timelines.signals && handle in device.timelines.counter
      requires value in device.timelines.signals[handle] && device.timelines.counter[handle] < value
      modifies device.timelines`counter, loop`counter
      ensures Valid() && device.timelines.counter == old(device.timelines.counter)[handle := value]
    {
      hide CommandDevice.Valid, EventLoop.Valid, Linked, Watches;
      device.Reach(handle, value);
      Observe(old(device.timelines.counter));
    }

    /** Every other step of the poller or of a command (the poller's locked
        sections and waits, handlers and encoders added, waits for the GPU)
        leaves the registrations and the armed commands alone. */
    twostate lemma Elsewhere()
      requires old(Valid()) && device.Valid() && loop.Valid()
      requires loop.log == old(loop.log) && loop.ran == old(loop.ran) && Watches(device.timelines.counter, loop.counter)
      requires SameArmed(old(device.places), old(device.history), old(device.timelines.wrappers), device.places, device.history, device.timelines.wrappers)
      ensures Valid()
    {
      LinkedSame(old(device.places), old(device.history), old(device.timelines.wrappers), device.places, device.history, device.timelines.wrappers, loop.log, loop.ran);
    }

    method Wakeup()
      requires Valid()
      modifies loop
      ensures Valid() && loop.owed && loop.wakePending && loop.log == old(loop.log) && loop.ran == old(loop.ran)
    {
      hide CommandDevice.Valid, EventLoop.Valid, Linked, Seen;
      RanBefore();
      ghost var wake := loop.counter[WAKE];
      loop.WakeupEventLoop();
      SeenWake(device.timelines.counter, wake, wake + 1);
      SeenFacts(device.timelines.counter, wake + 1);
      Elsewhere();
    }

    method NewCommand(c: CommandId)
      requires Valid() && c !in device.commands
      modifies device
      ensures Valid() && device.places == old(device.places)[c := Recording]
    {
      hide CommandDevice.Valid, EventLoop.Valid, Linked, Watches;
      Known();
      device.NewCommand(c);
      Elsewhere();
    }

    method CallScheduled() returns (c: CommandId, handler: Handler)
      requires Valid() && device.scheduledQueue != [] && device.scheduledQueue[0] in device.commands && device.scheduledQueue[0] in device.places
      requires device.places[device.scheduledQueue[0]].Scheduling?
      requires device.places[device.scheduledQueue[0]].called < |device.commands[device.scheduledQueue[0]].scheduled|
      modifies device
      ensures Valid() && c == old(device.scheduledQueue)[0] && handler == old(device.commands)[c].scheduled[old(device.places)[c].called]
      ensures device.places == old(device.places)[c := Scheduling(old(device.places)[c].called + 1)]
    {
      hide CommandDevice.Valid, EventLoop.Valid, Linked, Watches;
      c, handler := device.CallScheduled();
      Elsewhere();
    }

    method DropEncoders(c: CommandId)
      requires Valid() && c in device.commands && c in device.places && device.places[c] == Dropping
      modifies device
      ensures Valid() && device.places == old(device.places)[c := Finishing(0)]
    {
      hide CommandDevice.Valid, EventLoop.Valid, Linked, Watches;
      device.DropEncoders(c);
      Elsewhere();
    }

    method CallCompleted(c: CommandId) returns (handler: Handler)
      requires Valid() && c in device.commands && c in device.places && device.places[c].Finishing?
      requires device.places[c].called < |device.commands[c].completions|
      modifies device
      ensures Valid() && handler == old(device.commands)[c].completions[old(device.places)[c].called]
      ensures device.places == old(device.places)[c := Finishing(old(device.places)[c].called + 1)]
    {
      hide CommandDevice.Valid, EventLoop.Valid, Linked, Watches;
      handler := device.CallCompleted(c);
      Elsewhere();
    }

    method Notify(c: CommandId)
      requires Valid() && c in device.commands && c in device.places && device.places[c].Finishing?
      requires device.places[c].called == |device.commands[c].completions|
      modifies device
      ensures Valid() && device.places == old(device.places)[c := Finished]
    {
      hide CommandDevice.Valid, EventLoop.Valid, Linked, Watches;
      device.Notify(c);
      Elsewhere();
    }

    method Destroy(c: CommandId, resetOk: bool)
      requires Valid() && c in device.commands && c in device.places && (device.places[c] == Recording || device.places[c] == Finished)
      modifies device
      ensures Valid() && device.places == old(device.places) - {c}
    {
      hide CommandDevice.Valid, EventLoop.Valid, Linked, Watches, Given;
      device.Destroy(c, resetOk);
      Elsewhere();
    }

    method ReleaseTimeline(w: WrapperId)
      requires Valid() && w in device.timelines.wrappers && !HeldByClosure(device.places, device.history, w)
      requires forall i :: i in device.waiters ==> device.waiters[i] != w
      modifies device.timelines
      ensures Valid() && device.timelines.wrappers == old(device.timelines.wrappers) - {w}
    {
      hide CommandDevice.Valid, EventLoop.Valid, Linked, Watches, HeldByClosure;
      Known();
      forall c | c in device.places && device.places[c] == Armed
        ensures c in device.history && device.history[c].wrapper != w
      {
        Facts(c);
      }
      device.ReleaseTimeline(w);
      Elsewhere();
    }
  }

  lemma SameSeen(counter: map<Handle, nat>, seen: map<Semaphore, nat>)
    requires Watches(counter, seen)
    ensures SameCounters(counter, seen)
  {
    SeenFacts(counter, seen[WAKE]);
  }
}
