/** One render pipeline state: linked and optimized variants race to publish,
    and optional optimization may be rejected and retried.  Every method is one
    locked section or one driver call of some thread. */
module PipelinePublication {
  import opened Wrappers

  type Handle = nat
  type Thread = nat

  const TOPOLOGIES: nat := 3
  const TRIANGLE: nat := 2

  /** Everything the state owns until its destructor. */
  datatype Slots = Slots(optimized: seq<Option<Handle>>, clamped: seq<Option<Handle>>, linked: seq<Option<Handle>>,
                         vertexInputs: seq<Option<Handle>>, output: Option<Handle>)
  {
    predicate Sized() {
      |optimized| == |clamped| == |linked| == |vertexInputs| == TOPOLOGIES
    }

    /** All slots, in the order in which the destructor visits them. */
    function All(): seq<Option<Handle>> {
      optimized + clamped + linked + vertexInputs + [output]
    }
  }

  ghost predicate Stored(all: seq<Option<Handle>>, h: Handle) {
    exists i :: 0 <= i < |all| && all[i] == Some(h)
  }

  ghost predicate DistinctHandles(all: seq<Option<Handle>>) {
    forall i, j :: 0 <= i < j < |all| && all[i].Some? ==> all[i] != all[j]
  }

  /** Each created pipeline is in one slot, in the hands of one thread, or destroyed. */
  ghost predicate Accounted(created: Handle, all: seq<Option<Handle>>, inFlight: map<Thread, Handle>, destroyed: set<Handle>) {
    && DistinctHandles(all)
    && (forall h :: 0 <= h < created ==> Stored(all, h) || h in inFlight.Values || h in destroyed)
    && (forall i :: 0 <= i < |all| && all[i].Some? ==> all[i].value < created && all[i].value !in inFlight.Values && all[i].value !in destroyed)
    && (forall t :: t in inFlight ==> inFlight[t] < created && inFlight[t] !in destroyed)
    && (forall t, u :: t in inFlight && u in inFlight && inFlight[t] == inFlight[u] ==> t == u)
    && (forall h :: h in destroyed ==> h < created)
  }

  /** What is published for topology `t`: the optimized pipeline if there is
      one, else the linked one if there is one. */
  ghost predicate Published(slots: Slots, ready: seq<Option<Handle>>) {
    && slots.Sized() && |ready| == 2 * TOPOLOGIES
    && forall t :: 0 <= t < TOPOLOGIES ==>
         && ready[t] == (if slots.optimized[t].Some? then slots.optimized[t] else slots.linked[t])
         && ready[t + TOPOLOGIES] == slots.clamped[t]
  }

  lemma ReadyIsStored(slots: Slots, ready: seq<Option<Handle>>, t: nat)
    requires Published(slots, ready) && t < TOPOLOGIES && ready[t].Some?
    ensures Stored(slots.All(), ready[t].value)
  {
    assert slots.All()[t] == slots.optimized[t] && slots.All()[6 + t] == slots.linked[t];
  }

  /** How far publication got: nothing, linked, optimized. */
  function Rank(slots: Slots, t: nat): nat
    requires slots.Sized() && t < TOPOLOGIES
  {
    if slots.optimized[t].Some? then 2 else if slots.linked[t].Some? then 1 else 0
  }

  /** Slots are filled once and never emptied or replaced. */
  ghost predicate Grows(a: Slots, b: Slots) {
    a.Sized() && b.Sized() && forall i :: 0 <= i < |a.All()| && a.All()[i].Some? ==> b.All()[i] == a.All()[i]
  }

  lemma RankNeverFalls(a: Slots, b: Slots, t: nat)
    requires Grows(a, b) && t < TOPOLOGIES
    ensures Rank(a, t) <= Rank(b, t)
  {
    assert a.All()[t] == a.optimized[t] && b.All()[t] == b.optimized[t];
    assert a.All()[6 + t] == a.linked[t] && b.All()[6 + t] == b.linked[t];
  }

  lemma GrowsSame(a: Slots)
    requires a.Sized()
    ensures Grows(a, a)
  {
  }

  lemma GrowsOn(a: Slots, b: Slots, c: Slots)
    requires Grows(a, b) && Grows(b, c)
    ensures Grows(a, c)
  {
  }

  lemma StoreKeepsAccount(created: Handle, all: seq<Option<Handle>>, inFlight: map<Thread, Handle>, destroyed: set<Handle>, t: Thread, i: nat)
    requires Accounted(created, all, inFlight, destroyed) && t in inFlight && i < |all| && all[i].None?
    ensures inFlight[t] !in destroyed && Accounted(created, all[i := Some(inFlight[t])], inFlight - {t}, destroyed)
  {
    var next, rest := all[i := Some(inFlight[t])], inFlight - {t};
    forall h | 0 <= h < created ensures Stored(next, h) || h in rest.Values || h in destroyed {
      if Stored(all, h) {
        var k :| 0 <= k < |all| && all[k] == Some(h);
        assert next[k] == Some(h);
      } else if h in inFlight.Values && h !in destroyed {
        var u :| u in inFlight && inFlight[u] == h;
        if u == t { assert next[i] == Some(h); } else { assert u in rest && rest[u] == h; }
      }
    }
    forall k | 0 <= k < |next| && next[k].Some? ensures next[k].value < created && next[k].value !in rest.Values && next[k].value !in destroyed {
    }
    forall j, k | 0 <= j < k < |next| && next[j].Some? ensures next[j] != next[k] {
      if j == i && next[k].Some? { assert all[k].value !in inFlight.Values; assert inFlight[t] in inFlight.Values; }
      if k == i { assert all[j].value !in inFlight.Values; assert inFlight[t] in inFlight.Values; }
    }
  }

  lemma DestroyKeepsAccount(created: Handle, all: seq<Option<Handle>>, inFlight: map<Thread, Handle>, destroyed: set<Handle>, t: Thread)
    requires Accounted(created, all, inFlight, destroyed) && t in inFlight
    ensures Accounted(created, all, inFlight - {t}, destroyed + {inFlight[t]})
  {
    var rest := inFlight - {t};
    forall h | 0 <= h < created ensures Stored(all, h) || h in rest.Values || h in destroyed + {inFlight[t]} {
      if h in inFlight.Values && h !in destroyed {
        var u :| u in inFlight && inFlight[u] == h;
        if u != t { assert u in rest && rest[u] == h; }
      }
    }
    forall i | 0 <= i < |all| && all[i].Some? ensures all[i].value !in rest.Values && all[i].value != inFlight[t] {
      assert inFlight[t] in inFlight.Values;
    }
  }

  lemma CreateKeepsAccount(created: Handle, all: seq<Option<Handle>>, inFlight: map<Thread, Handle>, destroyed: set<Handle>, t: Thread)
    requires Accounted(created, all, inFlight, destroyed) && t !in inFlight
    ensures Accounted(created + 1, all, inFlight[t := created], destroyed)
  {
    var more := inFlight[t := created];
    forall h | 0 <= h < created + 1 ensures Stored(all, h) || h in more.Values || h in destroyed {
      if h == created { assert more[t] == h; }
      else if h in inFlight.Values { var u :| u in inFlight && inFlight[u] == h; assert u in more && more[u] == h; }
    }
  }

  /** A pipeline created and stored under the lock. */
  lemma NewKeepsAccount(created: Handle, all: seq<Option<Handle>>, inFlight: map<Thread, Handle>, destroyed: set<Handle>, i: nat)
    requires Accounted(created, all, inFlight, destroyed) && i < |all| && all[i].None?
    ensures Accounted(created + 1, all[i := Some(created)], inFlight, destroyed)
  {
    var next := all[i := Some(created)];
    assert next[i] == Some(created);
    forall h | 0 <= h < created && Stored(all, h) ensures Stored(next, h) {
      var k :| 0 <= k < |all| && all[k] == Some(h);
      assert next[k] == Some(h);
    }
  }

  // -------------------------------------------------------------- optimization

  /** Threads inside `optimizeLater`, by topology. */
  ghost predicate OptimizingOk(optimizing: seq<bool>, deferred: seq<bool>, attempts: map<Thread, nat>, accepted: seq<nat>, attempted: seq<bool>, preparing: bool) {
    && |optimizing| == |deferred| == |accepted| == |attempted| == TOPOLOGIES
    && (forall t :: t in attempts ==> attempts[t] < TOPOLOGIES && optimizing[attempts[t]] && accepted[attempts[t]] == 0)
    && (forall t, u :: t in attempts && u in attempts && attempts[t] == attempts[u] ==> t == u)
    && (forall i :: 0 <= i < TOPOLOGIES ==>
          && accepted[i] <= 1
          && (optimizing[i] <==> accepted[i] == 1 || i in attempts.Values)
          && (accepted[i] == 1 ==> !deferred[i])
          && (attempted[i] && !optimizing[i] ==> deferred[i]))
    && (preparing ==> accepted[TRIANGLE] == 0 && TRIANGLE !in attempts.Values)
  }

  lemma BeginAttempt(optimizing: seq<bool>, deferred: seq<bool>, attempts: map<Thread, nat>, accepted: seq<nat>, attempted: seq<bool>, preparing: bool, t: Thread, i: nat)
    requires OptimizingOk(optimizing, deferred, attempts, accepted, attempted, preparing)
    requires t !in attempts && i < TOPOLOGIES && !optimizing[i] && !(preparing && i == TRIANGLE)
    ensures OptimizingOk(optimizing[i := true], deferred, attempts[t := i], accepted, attempted[i := true], preparing)
  {
    var more := attempts[t := i];
    assert more[t] == i;
    forall j ensures j in more.Values <==> j == i || j in attempts.Values {
      if j in attempts.Values { var u :| u in attempts && attempts[u] == j; assert u in more && more[u] == j; }
    }
  }

  lemma AttemptFacts(optimizing: seq<bool>, deferred: seq<bool>, attempts: map<Thread, nat>, accepted: seq<nat>, attempted: seq<bool>, preparing: bool, t: Thread)
    requires OptimizingOk(optimizing, deferred, attempts, accepted, attempted, preparing) && t in attempts
    ensures |optimizing| == |deferred| == |accepted| == TOPOLOGIES && attempts[t] < TOPOLOGIES && accepted[attempts[t]] == 0
  {
  }

  /** Nothing was created, published or attempted. */
  lemma Initially(none: seq<Option<Handle>>, preparing: bool)
    requires none == [None, None, None]
    ensures Accounted(0, Slots(none, none, none, none, None).All(), map[], {})
    ensures OptimizingOk([false, false, false], [false, false, false], map[], [0, 0, 0], [false, false, false], preparing)
  {
  }

  lemma EndAttempt(optimizing: seq<bool>, deferred: seq<bool>, attempts: map<Thread, nat>, accepted: seq<nat>, attempted: seq<bool>, preparing: bool, t: Thread, queued: bool)
    requires OptimizingOk(optimizing, deferred, attempts, accepted, attempted, preparing) && t in attempts
    ensures var i := attempts[t];
            if queued then OptimizingOk(optimizing, deferred[i := false], attempts - {t}, accepted[i := 1], attempted, preparing)
            else OptimizingOk(optimizing[i := false], deferred[i := true], attempts - {t}, accepted, attempted, preparing)
  {
    var rest := attempts - {t};
    assert attempts[t] in attempts.Values;
    forall j ensures j in rest.Values <==> j in attempts.Values && j != attempts[t] {
      if j in attempts.Values { var u :| u in attempts && attempts[u] == j; if u != t { assert u in rest && rest[u] == j; } }
      if j in rest.Values { var u :| u in rest && rest[u] == j; assert attempts[u] == j && u != t; }
    }
  }

  /** Only threads inside a call of somebody who holds the state, and tasks of
      the state that have not ended, have a pipeline in hand or an attempt open. */
  ghost predicate ActorsOk(users: set<Thread>, tasks: map<Thread, bool>, inFlight: map<Thread, Handle>, attempts: map<Thread, nat>) {
    && (forall t :: t in users ==> t !in tasks)
    && (forall t :: t in inFlight ==> t in users || (t in tasks && !tasks[t]))
    && (forall t :: t in attempts ==> t in users)
  }

  /** So without users, and after the waits for the tasks, nothing is under way. */
  lemma NobodyActs(users: set<Thread>, tasks: map<Thread, bool>, inFlight: map<Thread, Handle>, attempts: map<Thread, nat>)
    requires ActorsOk(users, tasks, inFlight, attempts) && users == {} && forall t :: t in tasks ==> tasks[t]
    ensures inFlight == map[] && attempts == map[]
  {
    assert inFlight.Keys == {} && attempts.Keys == {};
  }

  class PipelineState {
    /** Whether the preparation task will optimize the triangle variant. */
    const preparing: bool
    var slots: Slots
    /** Read by encoders without the lock. */
    var ready: seq<Option<Handle>>
    var optimizing: seq<bool>
    var deferred: seq<bool>
    /** Handles that threads created and have not stored or destroyed yet. */
    var inFlight: map<Thread, Handle>
    /** Threads between the two locked sections of `optimizeLater`. */
    var attempts: map<Thread, nat>
    /** Threads inside a call on the state. */
    var users: set<Thread>
    /** The preparation and the accepted optimizations, by the thread identity
        they run under; true when the task's future is ready. */
    var tasks: map<Thread, bool>
    /** The driver's count of created pipelines; handles are never reused. */
    var created: Handle
    ghost var destroyed: set<Handle>
    /** Deferred optimizations that the worker queue accepted. */
    ghost var accepted: seq<nat>
    ghost var attempted: seq<bool>

    ghost predicate Valid()
      reads this
    {
      && Published(slots, ready) && Accounted(created, slots.All(), inFlight, destroyed)
      && OptimizingOk(optimizing, deferred, attempts, accepted, attempted, preparing)
      && ActorsOk(users, tasks, inFlight, attempts)
    }

    constructor (preparing: bool, preparation: Thread)
      ensures Valid() && this.preparing == preparing && users == {} && tasks == if preparing then map[preparation := false] else map[]
      ensures forall i :: 0 <= i < |ready| ==> ready[i] == None
    {
      hide Accounted, OptimizingOk;
      this.preparing := preparing;
      var none := [None, None, None];
      slots := Slots(none, none, none, none, None);
      ready := none + none;
      optimizing, deferred, inFlight, attempts, created := [false, false, false], [false, false, false], map[], map[], 0;
      users, tasks := {}, if preparing then map[preparation := false] else map[];
      destroyed, accepted, attempted := {}, [0, 0, 0], [false, false, false];
      new;
      Initially(none, preparing);
    }

    /** A holder of the state calls into it; it holds the state until it returns. */
    method BeginUse(t: Thread)
      requires Valid() && t !in users && t !in tasks
      modifies this`users
      ensures Valid() && users == old(users) + {t}
    {
      users := users + {t};
    }

    method EndUse(t: Thread)
      requires Valid() && t in users && t !in inFlight && t !in attempts
      modifies this`users
      ensures Valid() && users == old(users) - {t}
    {
      users := users - {t};
    }

    /** A task's future becomes ready. */
    method EndTask(t: Thread)
      requires Valid() && t in tasks && t !in inFlight
      modifies this`tasks
      ensures Valid() && tasks == old(tasks)[t := true]
    {
      tasks := tasks[t := true];
    }

    /** The lock-free fast path of `pipelineFor`. */
    method Load(index: nat) returns (pipeline: Option<Handle>, retry: bool)
      requires Valid() && index < 2 * TOPOLOGIES
      ensures pipeline.Some? ==> Stored(slots.All(), pipeline.value)
      ensures pipeline.None? <==> if index < TOPOLOGIES then Rank(slots, index) == 0 else slots.clamped[index - TOPOLOGIES].None?
      ensures retry <==> pipeline.Some? && index < TOPOLOGIES && deferred[index]
    {
      pipeline := ready[index];
      retry := pipeline.Some? && index < TOPOLOGIES && deferred[index];
      if index < TOPOLOGIES {
        assert slots.All()[index] == slots.optimized[index] && slots.All()[6 + index] == slots.linked[index];
      } else {
        assert slots.All()[index] == slots.clamped[index - TOPOLOGIES];
      }
    }

    /** The first locked section of `compilePipeline`. */
    method Existing(topology: nat, clamp: bool) returns (pipeline: Option<Handle>)
      requires Valid() && topology < TOPOLOGIES
      ensures pipeline == if clamp then slots.clamped[topology] else slots.optimized[topology]
    {
      pipeline := if clamp then slots.clamped[topology] else slots.optimized[topology];
    }

    /** The driver creates a pipeline for a thread that holds no lock. */
    method Create(t: Thread)
      requires Valid() && t !in inFlight && (t in users || (t in tasks && !tasks[t]))
      modifies this`inFlight, this`created
      ensures Valid() && inFlight == old(inFlight)[t := old(created)]
    {
      CreateKeepsAccount(created, slots.All(), inFlight, destroyed, t);
      inFlight := inFlight[t := created];
      created := created + 1;
    }

    /** The last locked section of `compilePipeline`: the first thread to get
        here publishes, later ones destroy what they built. */
    method Publish(t: Thread, topology: nat, clamp: bool) returns (pipeline: Handle)
      requires Valid() && topology < TOPOLOGIES && t in inFlight
      modifies this`slots, this`ready, this`inFlight, this`destroyed
      ensures Valid() && Grows(old(slots), slots) && inFlight == old(inFlight) - {t}
      ensures pipeline == if clamp then (if old(slots).clamped[topology].Some? then old(slots).clamped[topology].value else old(inFlight)[t])
                          else (if old(slots).optimized[topology].Some? then old(slots).optimized[topology].value else old(inFlight)[t])
      ensures Stored(slots.All(), pipeline) && ready[if clamp then topology + TOPOLOGIES else topology] == Some(pipeline)
      ensures old(inFlight)[t] !in old(destroyed)
      ensures pipeline != old(inFlight)[t] ==> destroyed == old(destroyed) + {old(inFlight)[t]} && slots == old(slots)
      ensures pipeline == old(inFlight)[t] ==> destroyed == old(destroyed)
    {
      hide Accounted, OptimizingOk;
      ghost var all := slots.All();
      var compiled := inFlight[t];
      var index := if clamp then topology + TOPOLOGIES else topology;
      assert all[index] == if clamp then slots.clamped[topology] else slots.optimized[topology];
      var existing := if clamp then slots.clamped[topology] else slots.optimized[topology];
      if existing.Some? {
        DestroyKeepsAccount(created, all, inFlight, destroyed, t);
        StoredIsNotInFlight(created, all, inFlight, destroyed, index, t);
        inFlight, destroyed := inFlight - {t}, destroyed + {compiled};
        return existing.value;
      }
      StoreKeepsAccount(created, all, inFlight, destroyed, t, index);
      if clamp {
        slots := slots.(clamped := slots.clamped[topology := Some(compiled)]);
      } else {
        slots := slots.(optimized := slots.optimized[topology := Some(compiled)]);
      }
      assert slots.All() == all[index := Some(compiled)];
      assert slots.All()[index] == Some(compiled);
      inFlight := inFlight - {t};
      ready := ready[index := Some(compiled)];
      return compiled;
    }

    /** The pieces that a topology's link needs besides the shader libraries. */
    method LinkParts(topology: nat, inputOk: bool, outputOk: bool) returns (ok: bool)
      requires Valid() && topology < TOPOLOGIES
      modifies this`slots, this`created
      ensures Valid() && Grows(old(slots), slots) && slots.linked == old(slots).linked
      ensures ok <==> slots.vertexInputs[topology].Some? && slots.output.Some?
      ensures ok <==> (old(slots).vertexInputs[topology].Some? || inputOk) && (old(slots).output.Some? || outputOk)
      ensures !inputOk ==> slots.vertexInputs == old(slots).vertexInputs
      ensures !outputOk ==> slots.output == old(slots).output
      ensures forall t :: 0 <= t < TOPOLOGIES && t != topology ==> slots.vertexInputs[t] == old(slots).vertexInputs[t]
      ensures slots.optimized == old(slots).optimized && slots.clamped == old(slots).clamped
      ensures slots == old(slots) ==> created == old(created)
    {
      hide Accounted, OptimizingOk;
      if slots.vertexInputs[topology].None? && inputOk {
        ghost var all := slots.All();
        assert all[9 + topology] == slots.vertexInputs[topology];
        NewKeepsAccount(created, all, inFlight, destroyed, 9 + topology);
        slots := slots.(vertexInputs := slots.vertexInputs[topology := Some(created)]);
        assert slots.All() == all[9 + topology := Some(created)];
        created := created + 1;
      }
      if slots.output.None? && outputOk {
        ghost var all := slots.All();
        assert all[12] == slots.output;
        NewKeepsAccount(created, all, inFlight, destroyed, 12);
        slots := slots.(output := Some(created));
        assert slots.All() == all[12 := Some(created)];
        created := created + 1;
      }
      ok := slots.vertexInputs[topology].Some? && slots.output.Some?;
    }

    /** The driver linked a pipeline: it is kept, and published unless an
        optimized one is. */
    method StoreLinked(topology: nat)
      requires Valid() && topology < TOPOLOGIES && slots.linked[topology].None?
      modifies this`slots, this`created, this`ready
      ensures Valid() && Grows(old(slots), slots) && slots == old(slots).(linked := old(slots).linked[topology := Some(old(created))])
      ensures ready == if old(ready)[topology].None? then old(ready)[topology := Some(old(created))] else old(ready)
    {
      hide Accounted, OptimizingOk, ActorsOk;
      ghost var all := slots.All();
      assert all[6 + topology] == slots.linked[topology];
      NewKeepsAccount(created, all, inFlight, destroyed, 6 + topology);
      slots := slots.(linked := slots.linked[topology := Some(created)]);
      assert slots.All() == all[6 + topology := Some(created)];
      if ready[topology].None? { ready := ready[topology := Some(created)]; }
      created := created + 1;
    }

    /** linkPipeline.  It never replaces an optimized pipeline that is already
        published.  The flags are the outcomes of the driver calls. */
    method Link(topology: nat, librariesOk: bool, inputOk: bool, outputOk: bool, linkOk: bool) returns (pipeline: Option<Handle>)
      requires Valid() && topology < TOPOLOGIES
      modifies this`slots, this`created, this`ready
      ensures Valid() && Grows(old(slots), slots) && slots.optimized == old(slots).optimized
      ensures pipeline.Some? ==> librariesOk && pipeline == ready[topology] && Stored(slots.All(), pipeline.value)
      ensures pipeline.Some? <==> librariesOk && slots.linked[topology].Some?
      ensures pipeline.Some? <==>
                && librariesOk
                && (old(slots).linked[topology].Some?
                    || (linkOk && (old(slots).vertexInputs[topology].Some? || inputOk) && (old(slots).output.Some? || outputOk)))
      ensures !linkOk || pipeline.None? ==> slots.linked == old(slots).linked && ready == old(ready)
      ensures !librariesOk ==> slots == old(slots) && created == old(created)
      ensures pipeline.Some? && old(ready)[topology].None? ==> ready == old(ready)[topology := slots.linked[topology]]
      ensures pipeline.Some? && old(ready)[topology].Some? ==> ready == old(ready)
      ensures forall i :: 0 <= i < 2 * TOPOLOGIES && old(ready)[i].Some? && (i >= TOPOLOGIES || old(slots).optimized[i].Some?) ==> ready[i] == old(ready)[i]
    {
      hide Accounted, OptimizingOk, ActorsOk, Grows, Slots.All;
      GrowsSame(slots);
      if !librariesOk { return None; }
      if slots.linked[topology].None? {
        var parts := LinkParts(topology, inputOk, outputOk);
        if !parts || !linkOk { return None; }
        ghost var mid := slots;
        StoreLinked(topology);
        GrowsOn(old(slots), mid, slots);
      }
      ReadyIsStored(slots, ready, topology);
      return ready[topology];
    }

    /** The first locked section of `optimizeLater`. */
    method BeginOptimize(t: Thread, topology: nat, workers: nat) returns (go: bool)
      requires Valid() && t in users && t !in attempts && topology < TOPOLOGIES
      modifies this`optimizing, this`attempts, this`attempted
      ensures Valid() && |optimizing| == |old(optimizing)| == TOPOLOGIES
      ensures go <==> !old(optimizing)[topology] && workers > 0 && !(topology == TRIANGLE && preparing)
      ensures go ==> attempts == old(attempts)[t := topology] && accepted[topology] == 0 && optimizing == old(optimizing)[topology := true]
      ensures go ==> |old(attempted)| == TOPOLOGIES && attempted == old(attempted)[topology := true]
      ensures !go ==> attempts == old(attempts) && optimizing == old(optimizing) && attempted == old(attempted)
    {
      if optimizing[topology] || workers == 0 || (topology == TRIANGLE && preparing) { return false; }
      BeginAttempt(optimizing, deferred, attempts, accepted, attempted, preparing, t, topology);
      optimizing := optimizing[topology := true];
      attempts := attempts[t := topology];
      attempted := attempted[topology := true];
      return true;
    }

    /** The last locked section: `queued` says whether the worker queue took the
        job, which is then `task`.  A rejected topology is marked, so its next
        use retries. */
    method EndOptimize(t: Thread, queued: bool, task: Thread)
      requires Valid() && t in attempts && task !in users && task !in tasks
      modifies this`optimizing, this`deferred, this`attempts, this`accepted, this`tasks
      ensures tasks == if queued then old(tasks)[task := false] else old(tasks)
      ensures Valid() && attempts == old(attempts) - {t} && |accepted| == |old(accepted)| && old(attempts)[t] < |accepted|
      ensures accepted == if queued then old(accepted)[old(attempts)[t] := 1] else old(accepted)
      ensures queued ==> old(accepted)[old(attempts)[t]] == 0
      ensures |deferred| == TOPOLOGIES && (deferred[old(attempts)[t]] <==> !queued)
    {
      hide Accounted, OptimizingOk, Published;
      AttemptFacts(optimizing, deferred, attempts, accepted, attempted, preparing, t);
      EndAttempt(optimizing, deferred, attempts, accepted, attempted, preparing, t, queued);
      var topology := attempts[t];
      attempts := attempts - {t};
      if queued {
        deferred := deferred[topology := false];
        accepted := accepted[topology := 1];
        tasks := tasks[task := false];
      } else {
        optimizing := optimizing[topology := false];
        deferred := deferred[topology := true];
      }
    }

    /** The destructor: nobody holds the state any more, so nobody is inside a
        call, and the waits for its tasks returned.  Every pipeline that was ever
        created is destroyed now, or was destroyed before, once. */
    method Destroy()
      requires Valid() && users == {} && forall t :: t in tasks ==> tasks[t]
      modifies this`slots, this`ready, this`destroyed
      ensures forall h :: h in destroyed <==> 0 <= h < created
    {
      NobodyActs(users, tasks, inFlight, attempts);
      var all := slots.All();
      for i := 0 to |all|
        invariant forall k :: 0 <= k < i && all[k].Some? ==> all[k].value in destroyed
        invariant forall k :: i <= k < |all| && all[k].Some? ==> all[k].value !in destroyed
        invariant forall h :: h in old(destroyed) ==> h in destroyed
        invariant forall h :: h in destroyed ==> h < created
      {
        assert all[i].Some? ==> all[i].value !in destroyed;
        if all[i].Some? { destroyed := destroyed + {all[i].value}; }
      }
      forall h | 0 <= h < created ensures h in destroyed {
        if Stored(all, h) { var k :| 0 <= k < |all| && all[k] == Some(h); }
      }
      var none := seq(TOPOLOGIES, _ => None);
      slots, ready := Slots(none, none, none, none, None), none + none;
    }

    /** A failed creation leaves nothing behind, or only a handle to destroy. */
    method Discard(t: Thread)
      requires Valid() && t in inFlight
      modifies this`inFlight, this`destroyed
      ensures Valid() && inFlight == old(inFlight) - {t} && destroyed == old(destroyed) + {old(inFlight)[t]}
    {
      DestroyKeepsAccount(created, slots.All(), inFlight, destroyed, t);
      inFlight, destroyed := inFlight - {t}, destroyed + {inFlight[t]};
    }
  }

  lemma StoredIsNotInFlight(created: Handle, all: seq<Option<Handle>>, inFlight: map<Thread, Handle>, destroyed: set<Handle>, i: nat, t: Thread)
    requires Accounted(created, all, inFlight, destroyed) && i < |all| && all[i].Some? && t in inFlight
    ensures all[i].value != inFlight[t] && inFlight[t] !in destroyed
  {
    assert inFlight[t] in inFlight.Values;
  }
}
