/** The life of command buffers: recording, commit, scheduled handlers, GPU
    completion, completed handlers, waiters, and the recycling of command pools
    and timelines.  Every method is one atomic step of some thread. */
module CommandBuffers {
  import opened Wrappers
  import opened Timelines

  type CommandId = nat
  type PoolId = nat
  type Handler = nat
  type WaiterId = nat

  const MAX_RECYCLED: nat := 32

  datatype Command = Command(
    committed: bool, completed: bool, handlersCompleted: bool,
    scheduled: seq<Handler>, completions: seq<Handler>, encoders: nat,
    pool: Option<PoolId>, semaphore: Option<WrapperId>)

  /** Which queue holds the command's closure.  The numbers count the handlers
      that the closure already called. */
  datatype Place =
    | Recording
    | Scheduling(called: nat)
    | Armed
    | Dropping
    | Finishing(called: nat)
    | Finished

  datatype Event =
    | ScheduledCalled(handler: Handler)
    | CompletionArmed
    | GpuDone
    | PoolGiven
    | EncodersDropped
    | CompletedCalled(handler: Handler)
    | Notified

  /** What a committed command set out with, and what has happened to it. */
  datatype History = History(scheduled: seq<Handler>, completions: seq<Handler>, wrapper: WrapperId, events: seq<Event>)

  function ScheduledEvents(handlers: seq<Handler>): seq<Event> {
    seq(|handlers|, i requires 0 <= i < |handlers| => ScheduledCalled(handlers[i]))
  }

  function CompletedEvents(handlers: seq<Handler>): seq<Event> {
    seq(|handlers|, i requires 0 <= i < |handlers| => CompletedCalled(handlers[i]))
  }

  function UntilDropped(h: History): seq<Event> {
    ScheduledEvents(h.scheduled) + [CompletionArmed, GpuDone, PoolGiven, EncodersDropped]
  }

  /** The one order in which the events of a command may happen. */
  function Script(h: History): seq<Event> {
    UntilDropped(h) + CompletedEvents(h.completions) + [Notified]
  }

  ghost predicate CommandOk(c: Command, p: Place, h: History) {
    && (c.committed <==> !p.Recording?)
    && (c.completed <==> p.Dropping? || p.Finishing? || p.Finished?)
    && (c.handlersCompleted <==> p.Finished?)
    && (c.pool.Some? <==> !c.completed)
    && c.semaphore == (if p.Scheduling? || p.Armed? then Some(h.wrapper) else None)
    && match p
       case Recording => h.events == []
       case Scheduling(k) =>
         && c.scheduled == h.scheduled && c.completions == h.completions
         && k <= |h.scheduled| && h.events == ScheduledEvents(h.scheduled)[..k]
       case Armed =>
         && c.completions == h.completions && h.events == ScheduledEvents(h.scheduled) + [CompletionArmed]
       case Dropping =>
         && c.completions == h.completions
         && h.events == ScheduledEvents(h.scheduled) + [CompletionArmed, GpuDone, PoolGiven]
       case Finishing(k) =>
         && c.completions == h.completions && c.encoders == 0 && k <= |h.completions|
         && h.events == UntilDropped(h) + CompletedEvents(h.completions)[..k]
       case Finished => c.encoders == 0 && h.events == Script(h)
  }

  /** In every reachable state a command's events are a prefix of its script. */
  lemma EventsFollowScript(c: Command, p: Place, h: History)
    requires CommandOk(c, p, h)
    ensures h.events <= Script(h)
    ensures c.handlersCompleted ==> h.events == Script(h)
  {
    match p
    case Scheduling(k) =>
      assert ScheduledEvents(h.scheduled)[..k] <= ScheduledEvents(h.scheduled);
      assert ScheduledEvents(h.scheduled) <= Script(h);
    case Finishing(k) =>
      assert CompletedEvents(h.completions)[..k] <= CompletedEvents(h.completions);
      assert UntilDropped(h) + CompletedEvents(h.completions)[..k] <= UntilDropped(h) + CompletedEvents(h.completions);
    case _ =>
  }

  ghost predicate CommandsOk(commands: map<CommandId, Command>, places: map<CommandId, Place>, history: map<CommandId, History>) {
    && commands.Keys == places.Keys && commands.Keys == history.Keys
    && forall c :: c in commands ==> CommandOk(commands[c], places[c], history[c])
  }

  ghost predicate Owned(commands: map<CommandId, Command>, pool: PoolId) {
    exists c :: c in commands && commands[c].pool == Some(pool)
  }

  /** Every pool ever created is idle, or belongs to one command, or was
      destroyed, and is in one of these places only. */
  ghost predicate PoolsOk(commands: map<CommandId, Command>, recycled: seq<PoolId>, destroyed: set<PoolId>, nextPool: PoolId) {
    && |recycled| <= MAX_RECYCLED
    && (forall p :: 0 <= p < nextPool ==> p in recycled || p in destroyed || Owned(commands, p))
    && (forall i :: 0 <= i < |recycled| ==> recycled[i] < nextPool && recycled[i] !in destroyed)
    && (forall i, j :: 0 <= i < j < |recycled| ==> recycled[i] != recycled[j])
    && (forall p :: p in destroyed ==> p < nextPool)
    && (forall c :: c in commands && commands[c].pool.Some? ==>
          commands[c].pool.value < nextPool && commands[c].pool.value !in recycled && commands[c].pool.value !in destroyed)
    && (forall c, d :: c in commands && d in commands && commands[c].pool.Some? && commands[c].pool == commands[d].pool ==> c == d)
  }

  /** A pool that is given away is cached or destroyed, one of the two and once;
      giving nothing changes nothing. */
  ghost predicate Given(pool: Option<PoolId>, cached: bool, recycled: seq<PoolId>, destroyed: set<PoolId>, after: seq<PoolId>, gone: set<PoolId>) {
    match pool
    case None => after == recycled && gone == destroyed
    case Some(p) =>
      && p !in recycled && p !in destroyed
      && after == (if cached then recycled + [p] else recycled) && gone == (if cached then destroyed else destroyed + {p})
  }

  /** The closures of `c` still hold the command and its timeline. */
  predicate Holds(places: map<CommandId, Place>, c: CommandId) {
    c in places && (places[c].Scheduling? || places[c].Armed?)
  }

  ghost predicate HeldByClosure(places: map<CommandId, Place>, history: map<CommandId, History>, w: WrapperId) {
    exists c :: c in history && Holds(places, c) && history[c].wrapper == w
  }

  /** A timeline whose last value was not reached is held by a closure. */
  ghost predicate SemaphoresOk(places: map<CommandId, Place>, history: map<CommandId, History>, waiters: map<WaiterId, WrapperId>,
                               wrappers: map<WrapperId, Timeline>, counter: map<Handle, nat>)
  {
    && (forall c :: c in history && Holds(places, c) ==> history[c].wrapper in wrappers)
    && (forall c, d :: c in history && d in history && Holds(places, c) && Holds(places, d) && history[c].wrapper == history[d].wrapper ==> c == d)
    && (forall w :: w in wrappers ==> Quiet(wrappers[w], counter) || HeldByClosure(places, history, w))
    && (forall i :: i in waiters ==> waiters[i] in wrappers)
  }

  ghost predicate QueueOk(places: map<CommandId, Place>, queue: seq<CommandId>) {
    && (forall c :: c in queue <==> c in places && places[c].Scheduling?)
    && (forall i, j :: 0 <= i < j < |queue| ==> queue[i] != queue[j])
    && (forall i :: 1 <= i < |queue| ==> queue[i] in places && places[queue[i]] == Scheduling(0))
  }

  datatype Readback = NotCommitted | AlreadyDone | WaitFor(waiter: WaiterId)

  // ------------------------------------------------------------ one command

  lemma OneCommand(commands: map<CommandId, Command>, places: map<CommandId, Place>, history: map<CommandId, History>,
                   c: CommandId, x: Command, p: Place, h: History)
    requires CommandsOk(commands, places, history) && CommandOk(x, p, h)
    ensures CommandsOk(commands[c := x], places[c := p], history[c := h])
  {
    hide CommandOk;
  }

  lemma Look(commands: map<CommandId, Command>, places: map<CommandId, Place>, history: map<CommandId, History>, c: CommandId)
    requires CommandsOk(commands, places, history) && c in commands
    ensures c in places && c in history && CommandOk(commands[c], places[c], history[c])
  {
  }

  lemma SamePool(commands: map<CommandId, Command>, recycled: seq<PoolId>, destroyed: set<PoolId>, nextPool: PoolId, c: CommandId, x: Command)
    requires PoolsOk(commands, recycled, destroyed, nextPool) && c in commands && x.pool == commands[c].pool
    ensures PoolsOk(commands[c := x], recycled, destroyed, nextPool)
  {
    var next := commands[c := x];
    forall p: PoolId | Owned(commands, p) ensures Owned(next, p) {
      var d :| d in commands && commands[d].pool == Some(p);
      assert next[d].pool == Some(p);
    }
  }

  /** The command gives its pool away; it is cached or destroyed. */
  lemma GivePool(commands: map<CommandId, Command>, recycled: seq<PoolId>, destroyed: set<PoolId>, nextPool: PoolId, c: CommandId, x: Command,
                 cached: bool, after: seq<PoolId>, gone: set<PoolId>)
    requires PoolsOk(commands, recycled, destroyed, nextPool) && c in commands && x.pool == None
    requires Given(commands[c].pool, cached, recycled, destroyed, after, gone) && (cached ==> |recycled| < MAX_RECYCLED)
    ensures PoolsOk(commands[c := x], after, gone, nextPool)
  {
    var next := commands[c := x];
    forall d | d in next && next[d].pool.Some?
      ensures next[d].pool.value < nextPool && next[d].pool.value !in after && next[d].pool.value !in gone
    {
      assert d in commands && (commands[c].pool.Some? ==> commands[d].pool != commands[c].pool);
    }
    forall p | 0 <= p < nextPool ensures p in after || p in gone || Owned(next, p) {
      if Owned(commands, p) {
        var d :| d in commands && commands[d].pool == Some(p);
        if d == c { assert cached ==> after[|recycled|] == p; } else { assert next[d].pool == Some(p); }
      }
    }
  }

  lemma TakePool(commands: map<CommandId, Command>, recycled: seq<PoolId>, destroyed: set<PoolId>, nextPool: PoolId, c: CommandId, x: Command)
    requires PoolsOk(commands, recycled, destroyed, nextPool) && c !in commands
    requires x.pool == Some(if recycled == [] then nextPool else recycled[|recycled| - 1])
    ensures if recycled == [] then PoolsOk(commands[c := x], recycled, destroyed, nextPool + 1)
            else PoolsOk(commands[c := x], recycled[..|recycled| - 1], destroyed, nextPool)
  {
    var next := commands[c := x];
    var rest := if recycled == [] then [] else recycled[..|recycled| - 1];
    forall d | d in next && next[d].pool.Some? && d != c ensures d in commands && next[d].pool != x.pool {
      if recycled != [] { assert x.pool.value in recycled; }
    }
    forall p | p in recycled && Some(p) != x.pool ensures p in rest {
      var i :| 0 <= i < |recycled| && recycled[i] == p;
      assert rest[i] == p;
    }
    forall p: PoolId | Owned(commands, p) || Some(p) == x.pool ensures Owned(next, p) {
      if Some(p) == x.pool {
        assert next[c].pool == Some(p);
      } else {
        var d :| d in commands && commands[d].pool == Some(p);
        assert next[d].pool == Some(p);
      }
    }
  }

  // ------------------------------------------------------- closures and queues

  /** The same closures hold the same timelines. */
  ghost predicate SameHolders(places: map<CommandId, Place>, history: map<CommandId, History>, p: map<CommandId, Place>, h: map<CommandId, History>) {
    && (forall d :: Holds(p, d) <==> Holds(places, d))
    && (forall d :: Holds(places, d) ==> (d in h <==> d in history) && (d in history ==> h[d].wrapper == history[d].wrapper))
  }

  lemma HoldersSame(places: map<CommandId, Place>, history: map<CommandId, History>, p: map<CommandId, Place>, h: map<CommandId, History>,
                    waiters: map<WaiterId, WrapperId>, wrappers: map<WrapperId, Timeline>, counter: map<Handle, nat>)
    requires SemaphoresOk(places, history, waiters, wrappers, counter) && SameHolders(places, history, p, h)
    ensures SemaphoresOk(p, h, waiters, wrappers, counter)
  {
    forall w | w in wrappers ensures Quiet(wrappers[w], counter) || HeldByClosure(p, h, w) {
      if !Quiet(wrappers[w], counter) {
        var d :| d in history && Holds(places, d) && history[d].wrapper == w;
        assert d in h && Holds(p, d) && h[d].wrapper == w;
      }
    }
  }

  /** A commit: closure `c` holds the fresh timeline `w`. */
  lemma HolderAdded(places: map<CommandId, Place>, history: map<CommandId, History>, c: CommandId, p: Place, h: History,
                    waiters: map<WaiterId, WrapperId>, wrappers: map<WrapperId, Timeline>, counter: map<Handle, nat>,
                    more: map<WrapperId, Timeline>, count: map<Handle, nat>)
    requires SemaphoresOk(places, history, waiters, wrappers, counter) && !Holds(places, c) && (p.Scheduling? || p.Armed?)
    requires h.wrapper !in wrappers && h.wrapper in more && more == wrappers[h.wrapper := more[h.wrapper]]
    requires forall w :: w in wrappers && Quiet(wrappers[w], counter) ==> Quiet(wrappers[w], count)
    ensures SemaphoresOk(places[c := p], history[c := h], waiters, more, count)
  {
    var ps, hs := places[c := p], history[c := h];
    forall w | w in more ensures Quiet(more[w], count) || HeldByClosure(ps, hs, w) {
      if w == h.wrapper { assert c in hs && Holds(ps, c) && hs[c].wrapper == w; }
      else if !Quiet(wrappers[w], counter) {
        var d :| d in history && Holds(places, d) && history[d].wrapper == w;
        assert d in hs && Holds(ps, d) && hs[d].wrapper == w;
      }
    }
  }

  /** A completion: closure `c` lets go of a timeline that reached its value. */
  lemma HolderRemoved(places: map<CommandId, Place>, history: map<CommandId, History>, c: CommandId, p: Place, h: History,
                      waiters: map<WaiterId, WrapperId>, wrappers: map<WrapperId, Timeline>, counter: map<Handle, nat>)
    requires SemaphoresOk(places, history, waiters, wrappers, counter) && c in history && Holds(places, c)
    requires history[c].wrapper in wrappers && Quiet(wrappers[history[c].wrapper], counter) && !(p.Scheduling? || p.Armed?)
    ensures SemaphoresOk(places[c := p], history[c := h], waiters, wrappers, counter)
  {
    var ps, hs := places[c := p], history[c := h];
    forall w | w in wrappers ensures Quiet(wrappers[w], counter) || HeldByClosure(ps, hs, w) {
      if !Quiet(wrappers[w], counter) {
        var d :| d in history && Holds(places, d) && history[d].wrapper == w;
        assert d in hs && Holds(ps, d) && hs[d].wrapper == w;
      }
    }
  }

  /** The GPU moves a counter forward; what was reached stays reached. */
  lemma CounterMoved(places: map<CommandId, Place>, history: map<CommandId, History>, waiters: map<WaiterId, WrapperId>,
                     wrappers: map<WrapperId, Timeline>, counter: map<Handle, nat>, handle: Handle, value: nat)
    requires SemaphoresOk(places, history, waiters, wrappers, counter) && handle in counter && counter[handle] < value
    requires forall w :: w in wrappers && wrappers[w].handle == handle ==> value <= wrappers[w].count
    ensures SemaphoresOk(places, history, waiters, wrappers, counter[handle := value])
  {
  }

  lemma TimelineReleased(places: map<CommandId, Place>, history: map<CommandId, History>, waiters: map<WaiterId, WrapperId>,
                         wrappers: map<WrapperId, Timeline>, counter: map<Handle, nat>, w: WrapperId)
    requires SemaphoresOk(places, history, waiters, wrappers, counter)
    requires !HeldByClosure(places, history, w) && forall i :: i in waiters ==> waiters[i] != w
    ensures SemaphoresOk(places, history, waiters, wrappers - {w}, counter)
  {
    forall c | c in history && Holds(places, c) ensures history[c].wrapper in wrappers - {w} { }
  }

  lemma QueueSame(places: map<CommandId, Place>, queue: seq<CommandId>, c: CommandId, p: Place)
    requires QueueOk(places, queue) && !p.Scheduling? && (c in places ==> !places[c].Scheduling?)
    ensures QueueOk(places[c := p], queue)
  {
  }

  lemma QueueEnter(places: map<CommandId, Place>, queue: seq<CommandId>, c: CommandId)
    requires QueueOk(places, queue) && (c in places ==> !places[c].Scheduling?)
    ensures QueueOk(places[c := Scheduling(0)], queue + [c])
  {
    assert c !in queue;
  }

  lemma QueueStep(places: map<CommandId, Place>, queue: seq<CommandId>, k: nat)
    requires QueueOk(places, queue) && queue != []
    ensures QueueOk(places[queue[0] := Scheduling(k)], queue)
  {
    assert queue[0] in queue;
  }

  lemma QueueLeave(places: map<CommandId, Place>, queue: seq<CommandId>, p: Place)
    requires QueueOk(places, queue) && queue != [] && !p.Scheduling?
    ensures QueueOk(places[queue[0] := p], queue[1..])
  {
    var rest, ps := queue[1..], places[queue[0] := p];
    assert queue == [queue[0]] + rest;
    assert forall i :: 0 <= i < |rest| ==> rest[i] == queue[i + 1];
    forall c ensures c in rest <==> c in ps && ps[c].Scheduling? {
      if c in rest { var i :| 0 <= i < |rest| && rest[i] == c; assert queue[i + 1] == c && c in queue; }
    }
  }

  class CommandDevice {
    const timelines: TimelinePool
    var commands: map<CommandId, Command>
    var places: map<CommandId, Place>
    /** The serial queue of scheduled handlers. */
    var scheduledQueue: seq<CommandId>
    var recycled: seq<PoolId>
    var nextPool: PoolId
    ghost var destroyed: set<PoolId>
    /** Threads inside waitForGPU hold the timeline they wait on. */
    var waiters: map<WaiterId, WrapperId>
    ghost var history: map<CommandId, History>

    ghost predicate Valid()
      reads this, timelines
    {
      && timelines.Valid() && CommandsOk(commands, places, history) && PoolsOk(commands, recycled, destroyed, nextPool)
      && SemaphoresOk(places, history, waiters, timelines.wrappers, timelines.counter) && QueueOk(places, scheduledQueue)
    }

    constructor (timelines: TimelinePool)
      requires timelines.Valid() && timelines.wrappers == map[]
      ensures Valid() && commands == map[] && this.timelines == timelines
    {
      this.timelines := timelines;
      commands, places, scheduledQueue, recycled, nextPool, destroyed, waiters, history := map[], map[], [], [], 0, {}, map[], map[];
    }

    /** Takes the most recently recycled pool, or creates one. */
    method NewCommand(c: CommandId)
      requires Valid() && c !in commands
      modifies this`commands, this`places, this`recycled, this`nextPool, this`history
      ensures Valid() && c in commands && c in places && commands == old(commands)[c := commands[c]]
      ensures !commands[c].committed && places == old(places)[c := Recording] && history == old(history)[c := History([], [], 0, [])]
      ensures old(recycled) == [] ==> commands[c].pool == Some(old(nextPool)) && nextPool == old(nextPool) + 1 && recycled == []
      ensures old(recycled) != [] ==> old(recycled) == recycled + [commands[c].pool.value] && commands[c].pool.Some? && nextPool == old(nextPool)
    {
      hide PoolsOk, SemaphoresOk, QueueOk, PoolOk, WrappersOk, HandlesOk, Exclusive;
      var pool := nextPool;
      if recycled != [] { pool := recycled[|recycled| - 1]; }
      var x := Command(false, false, false, [], [], 0, Some(pool), None);
      ghost var h := History([], [], 0, []);
      TakePool(commands, recycled, destroyed, nextPool, c, x);
      OneCommand(commands, places, history, c, x, Recording, h);
      HoldersSame(places, history, places[c := Recording], history[c := h], waiters, timelines.wrappers, timelines.counter);
      QueueSame(places, scheduledQueue, c, Recording);
      if recycled != [] { recycled := recycled[..|recycled| - 1]; } else { nextPool := nextPool + 1; }
      commands, places, history := commands[c := x], places[c := Recording], history[c := h];
    }

    /** Returns false where the source aborts. */
    method AddScheduledHandler(c: CommandId, handler: Handler) returns (ok: bool)
      requires Valid() && c in commands
      modifies this`commands
      ensures Valid() && (ok <==> !old(commands)[c].committed)
      ensures commands == if ok then old(commands)[c := old(commands)[c].(scheduled := old(commands)[c].scheduled + [handler])] else old(commands)
    {
      hide CommandsOk, PoolsOk, SemaphoresOk, QueueOk, PoolOk, WrappersOk, HandlesOk, Exclusive;
      Look(commands, places, history, c);
      ok := !commands[c].committed;
      if ok { Change(c, commands[c].(scheduled := commands[c].scheduled + [handler])); }
    }

    method AddCompletedHandler(c: CommandId, handler: Handler) returns (ok: bool)
      requires Valid() && c in commands
      modifies this`commands
      ensures Valid() && (ok <==> !old(commands)[c].committed)
      ensures commands == if ok then old(commands)[c := old(commands)[c].(completions := old(commands)[c].completions + [handler])] else old(commands)
    {
      hide CommandsOk, PoolsOk, SemaphoresOk, QueueOk, PoolOk, WrappersOk, HandlesOk, Exclusive;
      Look(commands, places, history, c);
      ok := !commands[c].committed;
      if ok { Change(c, commands[c].(completions := commands[c].completions + [handler])); }
    }

    /** Encoders are added while the command records. */
    method AddEncoder(c: CommandId)
      requires Valid() && c in commands && !commands[c].committed
      modifies this`commands
      ensures Valid() && commands == old(commands)[c := old(commands)[c].(encoders := old(commands)[c].encoders + 1)]
    {
      hide CommandsOk, PoolsOk, SemaphoresOk, QueueOk, PoolOk, WrappersOk, HandlesOk, Exclusive;
      Look(commands, places, history, c);
      Change(c, commands[c].(encoders := commands[c].encoders + 1));
    }

    /** Stores a changed command that stays in its place. */
    method Change(c: CommandId, x: Command)
      requires Valid() && c in commands && c in places && c in history && CommandOk(x, places[c], history[c]) && x.pool == commands[c].pool
      modifies this`commands
      ensures Valid() && commands == old(commands)[c := x]
    {
      hide CommandsOk, PoolsOk, SemaphoresOk, QueueOk, PoolOk, WrappersOk, HandlesOk, Exclusive, CommandOk;
      OneCommand(commands, places, history, c, x, places[c], history[c]);
      SamePool(commands, recycled, destroyed, nextPool, c, x);
      assert places[c := places[c]] == places && history[c := history[c]] == history;
      commands := commands[c := x];
    }

    /** commit: counts a timeline up, submits, and arms the completion unless
        scheduled handlers must run first.  Committing twice is a caller's error. */
    method Commit(c: CommandId)
      requires Valid() && c in commands && !commands[c].committed
      modifies this`commands, this`places, this`scheduledQueue, this`history, timelines
      ensures Valid() && c in history && c in places
      ensures history[c].scheduled == old(commands)[c].scheduled && history[c].completions == old(commands)[c].completions
      ensures commands == old(commands)[c := old(commands)[c].(committed := true, semaphore := Some(history[c].wrapper))]
      ensures history[c].wrapper !in old(timelines.wrappers)
      ensures places == old(places)[c := if old(commands)[c].scheduled == [] then Armed else Scheduling(0)]
      ensures history == old(history)[c := history[c]] && history[c].wrapper in timelines.wrappers
      ensures timelines.wrappers == old(timelines.wrappers)[history[c].wrapper := timelines.wrappers[history[c].wrapper]]
      ensures forall h :: h in old(timelines.counter) ==> h in timelines.counter && timelines.counter[h] == old(timelines.counter)[h]
      // the submission signals a value that the timeline has not reached
      ensures var t := timelines.wrappers[history[c].wrapper];
              && t.handle in timelines.counter && timelines.counter[t.handle] + 1 == t.count
              && t.handle in timelines.signals && timelines.signals[t.handle] != []
              && timelines.signals[t.handle][|timelines.signals[t.handle]| - 1] == t.count
    {
      hide CommandsOk, PoolsOk, SemaphoresOk, QueueOk, PoolOk, WrappersOk, HandlesOk, Exclusive;
      Look(commands, places, history, c);
      ghost var wrappers, counter := timelines.wrappers, timelines.counter;
      var w := timelines.Acquire();
      timelines.Submit(w);
      var x := commands[c].(committed := true, semaphore := Some(w));
      var direct := x.scheduled == [];
      var p := if direct then Armed else Scheduling(0);
      ghost var h := History(x.scheduled, x.completions, w, if direct then [CompletionArmed] else []);
      OneCommand(commands, places, history, c, x, p, h);
      SamePool(commands, recycled, destroyed, nextPool, c, x);
      HolderAdded(places, history, c, p, h, waiters, wrappers, counter, timelines.wrappers, timelines.counter);
      if direct {
        QueueSame(places, scheduledQueue, c, p);
      } else {
        QueueEnter(places, scheduledQueue, c);
        scheduledQueue := scheduledQueue + [c];
      }
      commands, places, history := commands[c := x], places[c := p], history[c := h];
    }

    /** Stores a command whose closure moved on without letting go of anything. */
    method Move(c: CommandId, x: Command, p: Place, ghost h: History)
      requires Valid() && c in commands && c in places && c in history && CommandOk(x, p, h) && x.pool == commands[c].pool
      requires (Holds(places, c) <==> p.Scheduling? || p.Armed?) && h.wrapper == history[c].wrapper
      requires !places[c].Scheduling? && !p.Scheduling?
      modifies this`commands, this`places, this`history
      ensures Valid() && commands == old(commands)[c := x] && places == old(places)[c := p] && history == old(history)[c := h]
    {
      hide CommandsOk, PoolsOk, SemaphoresOk, QueueOk, PoolOk, WrappersOk, HandlesOk, Exclusive, CommandOk;
      OneCommand(commands, places, history, c, x, p, h);
      SamePool(commands, recycled, destroyed, nextPool, c, x);
      HoldersSame(places, history, places[c := p], history[c := h], waiters, timelines.wrappers, timelines.counter);
      QueueSame(places, scheduledQueue, c, p);
      commands, places, history := commands[c := x], places[c := p], history[c := h];
    }

    /** The serial queue calls the next scheduled handler of its front closure. */
    method CallScheduled() returns (c: CommandId, handler: Handler)
      requires Valid() && scheduledQueue != [] && scheduledQueue[0] in commands && scheduledQueue[0] in places
      requires places[scheduledQueue[0]].Scheduling? && places[scheduledQueue[0]].called < |commands[scheduledQueue[0]].scheduled|
      modifies this`places, this`history
      ensures Valid() && c == old(scheduledQueue)[0] && handler == commands[c].scheduled[old(places)[c].called]
      ensures c in old(history) && history == old(history)[c := old(history)[c].(events := old(history)[c].events + [ScheduledCalled(handler)])]
      ensures places == old(places)[c := Scheduling(old(places)[c].called + 1)]
    {
      hide CommandsOk, PoolsOk, SemaphoresOk, QueueOk, PoolOk, WrappersOk, HandlesOk, Exclusive;
      c := scheduledQueue[0];
      Look(commands, places, history, c);
      var k := places[c].called;
      handler := commands[c].scheduled[k];
      ghost var h := history[c].(events := history[c].events + [ScheduledCalled(handler)]);
      ScheduledSnoc(h.scheduled, k);
      OneCommand(commands, places, history, c, commands[c], Scheduling(k + 1), h);
      assert commands[c := commands[c]] == commands;
      HoldersSame(places, history, places[c := Scheduling(k + 1)], history[c := h], waiters, timelines.wrappers, timelines.counter);
      QueueStep(places, scheduledQueue, k + 1);
      places, history := places[c := Scheduling(k + 1)], history[c := h];
    }

    /** All scheduled handlers ran: the closure arms the completion. */
    method ArmScheduled() returns (c: CommandId)
      requires Valid() && scheduledQueue != [] && scheduledQueue[0] in commands && scheduledQueue[0] in places
      requires places[scheduledQueue[0]].Scheduling? && places[scheduledQueue[0]].called == |commands[scheduledQueue[0]].scheduled|
      modifies this`commands, this`places, this`scheduledQueue, this`history
      ensures Valid() && c == old(scheduledQueue)[0] && places == old(places)[c := Armed] && scheduledQueue == old(scheduledQueue)[1..]
      ensures c in commands && c in old(history) && history == old(history)[c := old(history)[c].(events := old(history)[c].events + [CompletionArmed])]
    {
      hide CommandsOk, PoolsOk, SemaphoresOk, QueueOk, PoolOk, WrappersOk, HandlesOk, Exclusive;
      c := scheduledQueue[0];
      Look(commands, places, history, c);
      var x := commands[c].(scheduled := []);
      ghost var h := history[c].(events := history[c].events + [CompletionArmed]);
      assert ScheduledEvents(h.scheduled)[..|h.scheduled|] == ScheduledEvents(h.scheduled);
      OneCommand(commands, places, history, c, x, Armed, h);
      SamePool(commands, recycled, destroyed, nextPool, c, x);
      HoldersSame(places, history, places[c := Armed], history[c := h], waiters, timelines.wrappers, timelines.counter);
      QueueLeave(places, scheduledQueue, Armed);
      commands, places, history := commands[c := x], places[c := Armed], history[c := h];
      scheduledQueue := scheduledQueue[1..];
    }

    /** The GPU finishes a submission. */
    ghost method Reach(handle: Handle, value: nat)
      requires Valid() && handle in timelines.signals && handle in timelines.counter
      requires value in timelines.signals[handle] && timelines.counter[handle] < value
      modifies timelines`counter
      ensures Valid() && timelines.counter == old(timelines.counter)[handle := value]
    {
      hide CommandsOk, PoolsOk, SemaphoresOk, QueueOk;
      forall w | w in timelines.wrappers && timelines.wrappers[w].handle == handle ensures value <= timelines.wrappers[w].count {
        RisingLast(timelines.signals[handle]);
      }
      CounterMoved(places, history, waiters, timelines.wrappers, timelines.counter, handle, value);
      timelines.Reach(handle, value);
    }

    /** recycleCommandPool: the pool is reset and cached, or destroyed, and the
        command does not own it any more. */
    method RecycleCommandPool(c: CommandId, resetOk: bool)
      requires PoolsOk(commands, recycled, destroyed, nextPool) && c in commands
      modifies this`commands, this`recycled, this`destroyed
      ensures PoolsOk(commands, recycled, destroyed, nextPool)
      ensures commands == old(commands)[c := old(commands)[c].(pool := None)]
      ensures Given(old(commands)[c].pool, resetOk && |old(recycled)| < 32, old(recycled), old(destroyed), recycled, destroyed)
    {
      hide PoolsOk;
      OwnPool(commands, recycled, destroyed, nextPool, c);
      if commands[c].pool.None? {
        assert commands[c := commands[c].(pool := None)] == commands;
        return;
      }
      var pool := commands[c].pool.value;
      var x := commands[c].(pool := None);
      var cached := resetOk && |recycled| < MAX_RECYCLED;
      GivePool(commands, recycled, destroyed, nextPool, c, x, cached,
               if cached then recycled + [pool] else recycled, if cached then destroyed else destroyed + {pool});
      commands := commands[c := x];
      if cached { recycled := recycled + [pool]; } else { destroyed := destroyed + {pool}; }
    }

    /** The event loop found the counter at its target and runs the completion
        callback; the command pool is not pending any more. */
    method Complete(c: CommandId, resetOk: bool)
      requires Valid() && c in commands && c in places && places[c] == Armed
      requires c in history && history[c].wrapper in timelines.wrappers && Quiet(timelines.wrappers[history[c].wrapper], timelines.counter)
      modifies this`commands, this`places, this`recycled, this`destroyed, this`history
      ensures Valid() && c in commands && c in history
      ensures commands == old(commands)[c := old(commands)[c].(pool := None, encoders := 0, completed := true, semaphore := None)]
      ensures places == old(places)[c := if old(commands)[c].completions == [] && old(commands)[c].encoders == 0 then Finishing(0) else Dropping]
      ensures history == old(history)[c := history[c]] && old(commands)[c].pool.Some?
      ensures Given(old(commands)[c].pool, resetOk && |old(recycled)| < MAX_RECYCLED, old(recycled), old(destroyed), recycled, destroyed)
    {
      hide CommandsOk, PoolsOk, SemaphoresOk, QueueOk, PoolOk, WrappersOk, HandlesOk, Exclusive, Given;
      Look(commands, places, history, c);
      ghost var before := commands;
      var x := commands[c].(pool := None, encoders := 0, completed := true, semaphore := None);
      var direct := commands[c].completions == [] && commands[c].encoders == 0;
      var p := if direct then Finishing(0) else Dropping;
      ghost var h := history[c].(events := history[c].events + [GpuDone, PoolGiven] + if direct then [EncodersDropped] else []);
      assert direct ==> h.events == UntilDropped(h);
      assert !direct ==> h.events == ScheduledEvents(h.scheduled) + [CompletionArmed, GpuDone, PoolGiven];
      OneCommand(commands, places, history, c, x, p, h);
      HolderRemoved(places, history, c, p, h, waiters, timelines.wrappers, timelines.counter);
      QueueSame(places, scheduledQueue, c, p);
      RecycleCommandPool(c, resetOk);
      SamePool(commands, recycled, destroyed, nextPool, c, x);
      assert commands[c := x] == before[c := x];
      commands, places, history := commands[c := x], places[c := p], history[c := h];
    }

    /** Off the polling thread: the encoders are released. */
    method DropEncoders(c: CommandId)
      requires Valid() && c in commands && c in places && places[c] == Dropping
      modifies this`commands, this`places, this`history
      ensures Valid() && places == old(places)[c := Finishing(0)]
      ensures c in old(history) && history == old(history)[c := old(history)[c].(events := old(history)[c].events + [EncodersDropped])]
    {
      hide CommandsOk, PoolsOk, SemaphoresOk, QueueOk, PoolOk, WrappersOk, HandlesOk, Exclusive;
      Look(commands, places, history, c);
      ghost var h := history[c].(events := history[c].events + [EncodersDropped]);
      assert h.events == UntilDropped(h);
      Move(c, commands[c].(encoders := 0), Finishing(0), h);
    }

    /** The next completed handler, in registration order. */
    method CallCompleted(c: CommandId) returns (handler: Handler)
      requires Valid() && c in commands && c in places && places[c].Finishing? && places[c].called < |commands[c].completions|
      modifies this`commands, this`places, this`history
      ensures Valid() && handler == old(commands)[c].completions[old(places)[c].called] && places == old(places)[c := Finishing(old(places)[c].called + 1)]
      ensures c in old(history) && history == old(history)[c := old(history)[c].(events := old(history)[c].events + [CompletedCalled(handler)])]
    {
      hide CommandsOk, PoolsOk, SemaphoresOk, QueueOk, PoolOk, WrappersOk, HandlesOk, Exclusive;
      Look(commands, places, history, c);
      var k := places[c].called;
      handler := commands[c].completions[k];
      ghost var h := history[c].(events := history[c].events + [CompletedCalled(handler)]);
      CompletedSnoc(h.completions, k);
      assert h.events == UntilDropped(h) + CompletedEvents(h.completions)[..k + 1];
      Move(c, commands[c], Finishing(k + 1), h);
    }

    /** finishCompletedHandlers ends: waiters are notified. */
    method Notify(c: CommandId)
      requires Valid() && c in commands && c in places && places[c].Finishing? && places[c].called == |commands[c].completions|
      modifies this`commands, this`places, this`history
      ensures Valid() && places == old(places)[c := Finished] && c in history && history == old(history)[c := history[c]]
      ensures commands == old(commands)[c := old(commands)[c].(completions := [], handlersCompleted := true)]
    {
      hide CommandsOk, PoolsOk, SemaphoresOk, QueueOk, PoolOk, WrappersOk, HandlesOk, Exclusive;
      Look(commands, places, history, c);
      ghost var h := history[c].(events := history[c].events + [Notified]);
      assert CompletedEvents(h.completions)[..|h.completions|] == CompletedEvents(h.completions);
      assert h.events == Script(h);
      Move(c, commands[c].(completions := [], handlersCompleted := true), Finished, h);
    }

    /** waitUntilCompleted leaves its loop only when everything happened. */
    method ReturnFromWait(c: CommandId)
      requires Valid() && c in commands && commands[c].handlersCompleted
      ensures c in history && history[c].events == Script(history[c])
    {
      hide CommandsOk, PoolsOk, SemaphoresOk, QueueOk, PoolOk, WrappersOk, HandlesOk, Exclusive;
      Look(commands, places, history, c);
    }

    /** waitForGPU: takes its own reference to the timeline. */
    method BeginReadback(c: CommandId, waiter: WaiterId) returns (r: Readback)
      requires Valid() && c in commands && waiter !in waiters
      modifies this`waiters
      ensures Valid()
      ensures r.NotCommitted? <==> !commands[c].committed
      ensures r.AlreadyDone? <==> commands[c].completed
      ensures r.WaitFor? ==> c in history && waiters == old(waiters)[waiter := history[c].wrapper]
    {
      hide CommandsOk, PoolsOk, SemaphoresOk, QueueOk, PoolOk, WrappersOk, HandlesOk, Exclusive;
      Look(commands, places, history, c);
      if !commands[c].committed { return NotCommitted; }
      if commands[c].completed { return AlreadyDone; }
      WaiterAdded(places, history, waiters, timelines.wrappers, timelines.counter, c, waiter);
      waiters := waiters[waiter := commands[c].semaphore.value];
      return WaitFor(waiter);
    }

    method EndReadback(waiter: WaiterId)
      requires Valid() && waiter in waiters && waiters[waiter] in timelines.wrappers
      requires Quiet(timelines.wrappers[waiters[waiter]], timelines.counter)
      modifies this`waiters
      ensures Valid() && waiters == old(waiters) - {waiter}
    {
      waiters := waiters - {waiter};
    }

    /** The last reference to a timeline went away.  Its counter reached the
        value recorded for its command, so the handle may be reused. */
    method ReleaseTimeline(w: WrapperId)
      requires Valid() && w in timelines.wrappers && !HeldByClosure(places, history, w) && forall i :: i in waiters ==> waiters[i] != w
      modifies timelines
      ensures Valid() && old(Quiet(timelines.wrappers[w], timelines.counter))
      ensures timelines.wrappers == old(timelines.wrappers) - {w} && timelines.counter == old(timelines.counter)
    {
      hide CommandsOk, PoolsOk, QueueOk, PoolOk, WrappersOk, HandlesOk, Exclusive;
      TimelineReleased(places, history, waiters, timelines.wrappers, timelines.counter, w);
      timelines.Release(w);
    }

    /** The destructor.  Closures keep a committed command alive until it
        finished; only one that was never committed still has a pool to give. */
    method Destroy(c: CommandId, resetOk: bool)
      requires Valid() && c in commands && c in places && (places[c] == Recording || places[c] == Finished)
      modifies this`commands, this`places, this`recycled, this`destroyed, this`history
      ensures Valid() && commands == old(commands) - {c} && places == old(places) - {c} && history == old(history) - {c}
      ensures old(commands)[c].pool.Some? <==> old(places)[c] == Recording
      ensures Given(old(commands)[c].pool, resetOk && |old(recycled)| < MAX_RECYCLED, old(recycled), old(destroyed), recycled, destroyed)
    {
      hide CommandsOk, PoolsOk, SemaphoresOk, QueueOk, PoolOk, WrappersOk, HandlesOk, Exclusive, Given;
      Look(commands, places, history, c);
      ghost var before := commands;
      RecycleCommandPool(c, resetOk);
      Forget(commands, recycled, destroyed, nextPool, c);
      assert commands - {c} == before - {c};
      Remove(before, places, history, scheduledQueue, c);
      HoldersSame(places, history, places - {c}, history - {c}, waiters, timelines.wrappers, timelines.counter);
      commands, places, history := commands - {c}, places - {c}, history - {c};
    }

    /** In every reachable state: what happened to a command is a prefix of its
        script; its k-th completed handler is the k-th registered one and was
        called after the GPU was done, the pool was given away and the encoders
        were dropped; and while it is pending it still owns its pool. */
    lemma EventsInOrder(c: CommandId, k: nat)
      requires Valid() && c in commands
      ensures c in history && c in places && history[c].events <= Script(history[c])
      ensures var e, done := history[c].events, |history[c].scheduled| + 4;
              && (k < |e| && e[k].CompletedCalled? ==>
                    k >= done && k - done < |history[c].completions| && e[k].handler == history[c].completions[k - done]
                    && GpuDone in e[..k] && PoolGiven in e[..k] && EncodersDropped in e[..k])
              && (k < |e| && e[k].ScheduledCalled? ==>
                    k < |history[c].scheduled| && e[k].handler == history[c].scheduled[k] && CompletionArmed !in e[..k])
      ensures places[c].Scheduling? || places[c] == Armed ==>
                commands[c].pool.Some? && commands[c].pool.value !in recycled && commands[c].pool.value !in destroyed
    {
      hide CommandsOk, SemaphoresOk, QueueOk, PoolOk, WrappersOk, HandlesOk, Exclusive;
      Look(commands, places, history, c);
      EventsFollowScript(commands[c], places[c], history[c]);
      if k < |history[c].events| { ScriptOrder(history[c], history[c].events, k); }
    }
  }

  lemma ScriptOrder(h: History, e: seq<Event>, k: nat)
    requires e <= Script(h) && k < |e|
    ensures e[k].CompletedCalled? ==>
              && |h.scheduled| + 4 <= k < |h.scheduled| + 4 + |h.completions| && e[k].handler == h.completions[k - |h.scheduled| - 4]
              && GpuDone in e[..k] && PoolGiven in e[..k] && EncodersDropped in e[..k]
    ensures e[k].ScheduledCalled? ==> k < |h.scheduled| && e[k].handler == h.scheduled[k] && CompletionArmed !in e[..k]
  {
    var s, n := Script(h), |h.scheduled|;
    assert e == s[..|e|];
    assert forall i :: 0 <= i < n ==> s[i] == ScheduledCalled(h.scheduled[i]);
    assert s[n] == CompletionArmed && s[n + 1] == GpuDone && s[n + 2] == PoolGiven && s[n + 3] == EncodersDropped;
    assert forall i :: 0 <= i < |h.completions| ==> s[n + 4 + i] == CompletedCalled(h.completions[i]);
    if e[k].CompletedCalled? {
      assert e[..k][n + 1] == GpuDone && e[..k][n + 2] == PoolGiven && e[..k][n + 3] == EncodersDropped;
    }
  }

  lemma OwnPool(commands: map<CommandId, Command>, recycled: seq<PoolId>, destroyed: set<PoolId>, nextPool: PoolId, c: CommandId)
    requires PoolsOk(commands, recycled, destroyed, nextPool) && c in commands
    ensures commands[c].pool.Some? ==> commands[c].pool.value !in recycled && commands[c].pool.value !in destroyed
  {
  }

  lemma ScheduledSnoc(handlers: seq<Handler>, k: nat)
    requires k < |handlers|
    ensures ScheduledEvents(handlers)[..k + 1] == ScheduledEvents(handlers)[..k] + [ScheduledCalled(handlers[k])]
  {
  }

  lemma CompletedSnoc(handlers: seq<Handler>, k: nat)
    requires k < |handlers|
    ensures CompletedEvents(handlers)[..k + 1] == CompletedEvents(handlers)[..k] + [CompletedCalled(handlers[k])]
  {
  }

  lemma WaiterAdded(places: map<CommandId, Place>, history: map<CommandId, History>, waiters: map<WaiterId, WrapperId>,
                    wrappers: map<WrapperId, Timeline>, counter: map<Handle, nat>, c: CommandId, waiter: WaiterId)
    requires SemaphoresOk(places, history, waiters, wrappers, counter) && c in history && Holds(places, c)
    ensures SemaphoresOk(places, history, waiters[waiter := history[c].wrapper], wrappers, counter)
  {
  }

  lemma Forget(commands: map<CommandId, Command>, recycled: seq<PoolId>, destroyed: set<PoolId>, nextPool: PoolId, c: CommandId)
    requires PoolsOk(commands, recycled, destroyed, nextPool) && c in commands && commands[c].pool == None
    ensures PoolsOk(commands - {c}, recycled, destroyed, nextPool)
  {
    forall p: PoolId | Owned(commands, p) ensures Owned(commands - {c}, p) {
      var d :| d in commands && commands[d].pool == Some(p);
      assert (commands - {c})[d].pool == Some(p);
    }
  }

  lemma Remove(commands: map<CommandId, Command>, places: map<CommandId, Place>, history: map<CommandId, History>, queue: seq<CommandId>, c: CommandId)
    requires CommandsOk(commands, places, history) && QueueOk(places, queue) && c in places && !places[c].Scheduling?
    ensures CommandsOk(commands - {c}, places - {c}, history - {c}) && QueueOk(places - {c}, queue)
  {
    hide CommandOk;
  }
}
