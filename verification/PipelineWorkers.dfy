/** The bounded compiler pool: a first-in first-out queue for pipeline states
    and a speculative queue that only runs while no pipeline state waits. */
module PipelineWorkers {
  type Job = nat
  type Worker = nat

  const MAX_JOBS: nat := 64

  datatype Activity = Idle | Compiling(job: Job) | Speculating(job: Job) | Exited

  /** The jobs that the pool accepted, in order, are those taken followed by
      those still queued; each taken job ended or is with exactly one worker. */
  ghost predicate Accounted(log: seq<Job>, jobs: seq<Job>, taken: nat, ended: set<Job>, workers: seq<Activity>) {
    && taken <= |log| && jobs == log[taken..]
    && (forall i, j :: 0 <= i < j < |log| ==> log[i] != log[j])
    && (forall i :: 0 <= i < taken ==> log[i] in ended || exists w :: 0 <= w < |workers| && workers[w] == Compiling(log[i]))
    && (forall w :: 0 <= w < |workers| && workers[w].Compiling? ==> workers[w].job in log[..taken] && workers[w].job !in ended)
    && (forall v, w :: 0 <= v < w < |workers| && workers[v].Compiling? ==> workers[v] != workers[w])
    && (forall j :: j in ended ==> j in log[..taken])
  }

  lemma TakeKeeps(log: seq<Job>, jobs: seq<Job>, taken: nat, ended: set<Job>, workers: seq<Activity>, w: Worker)
    requires Accounted(log, jobs, taken, ended, workers) && jobs != [] && w < |workers| && workers[w] == Idle
    ensures Accounted(log, jobs[1..], taken + 1, ended, workers[w := Compiling(jobs[0])])
  {
    var after := workers[w := Compiling(jobs[0])];
    assert jobs[0] == log[taken];
    assert log[..taken + 1] == log[..taken] + [log[taken]];
    assert jobs[0] !in log[..taken];
    assert after[w] == Compiling(log[taken]);
    forall i | 0 <= i < taken + 1 ensures log[i] in ended || exists v :: 0 <= v < |after| && after[v] == Compiling(log[i]) {
      if i < taken && log[i] !in ended {
        var v :| 0 <= v < |workers| && workers[v] == Compiling(log[i]);
        assert after[v] == Compiling(log[i]);
      }
    }
  }

  lemma EndKeeps(log: seq<Job>, jobs: seq<Job>, taken: nat, ended: set<Job>, workers: seq<Activity>, w: Worker)
    requires Accounted(log, jobs, taken, ended, workers) && w < |workers| && workers[w].Compiling?
    ensures Accounted(log, jobs, taken, ended + {workers[w].job}, workers[w := Idle])
  {
    var after := workers[w := Idle];
    forall i | 0 <= i < taken && log[i] !in ended && log[i] != workers[w].job ensures exists v :: 0 <= v < |after| && after[v] == Compiling(log[i]) {
      var v :| 0 <= v < |workers| && workers[v] == Compiling(log[i]);
      assert after[v] == Compiling(log[i]);
    }
  }

  lemma OtherKeeps(log: seq<Job>, jobs: seq<Job>, taken: nat, ended: set<Job>, workers: seq<Activity>, w: Worker, a: Activity)
    requires Accounted(log, jobs, taken, ended, workers) && w < |workers| && !workers[w].Compiling? && !a.Compiling?
    ensures Accounted(log, jobs, taken, ended, workers[w := a])
  {
    var after := workers[w := a];
    forall i | 0 <= i < taken && log[i] !in ended ensures exists v :: 0 <= v < |after| && after[v] == Compiling(log[i]) {
      var v :| 0 <= v < |workers| && workers[v] == Compiling(log[i]);
      assert after[v] == Compiling(log[i]);
    }
  }

  lemma SubmitKeeps(log: seq<Job>, jobs: seq<Job>, taken: nat, ended: set<Job>, workers: seq<Activity>, job: Job)
    requires Accounted(log, jobs, taken, ended, workers) && job !in log
    ensures Accounted(log + [job], jobs + [job], taken, ended, workers)
  {
    assert (log + [job])[..taken] == log[..taken];
    forall i | 0 <= i < taken ensures log[i] in ended || exists w :: 0 <= w < |workers| && workers[w] == Compiling((log + [job])[i]) {
      assert (log + [job])[i] == log[i];
    }
  }

  datatype Submission = Queued | Rejected | Stopping

  class Pool {
    var jobs: seq<Job>
    var background: seq<Job>
    var workers: seq<Activity>
    var stopping: bool
    /** Every job ever accepted, and how many of them were taken. */
    ghost var log: seq<Job>
    ghost var taken: nat
    ghost var ended: set<Job>

    ghost predicate Valid()
      reads this
    {
      && |jobs| <= MAX_JOBS && Accounted(log, jobs, taken, ended, workers)
      && (workers == [] ==> jobs == [])
      && (forall w :: 0 <= w < |workers| && workers[w] == Exited ==> stopping && jobs == [])
    }

    constructor (count: nat)
      ensures Valid() && |workers| == count && !stopping && log == []
    {
      jobs, background, stopping := [], [], false;
      workers := seq(count, _ => Idle);
      log, taken, ended := [], 0, {};
    }

    method Submit(job: Job) returns (r: Submission)
      requires Valid() && job !in log
      modifies this`jobs, this`log
      ensures Valid()
      ensures r == if stopping then Stopping else if workers == [] || |old(jobs)| >= 64 then Rejected else Queued
      ensures r.Queued? ==> jobs == old(jobs) + [job] && log == old(log) + [job]
      ensures !r.Queued? ==> jobs == old(jobs) && log == old(log)
    {
      if stopping { return Stopping; }
      if workers == [] || |jobs| >= MAX_JOBS { return Rejected; }
      SubmitKeeps(log, jobs, taken, ended, workers, job);
      jobs, log := jobs + [job], log + [job];
      return Queued;
    }

    method SubmitBackground(job: Job)
      requires Valid()
      modifies this`background
      ensures Valid() && background == if stopping then old(background) else old(background) + [job]
    {
      if stopping { return; }
      background := background + [job];
    }

    /** A worker wakes up: pipeline states first, oldest first; speculation only
        when none is queued and the pool is not stopping. */
    method Step(w: Worker)
      requires Valid() && w < |workers| && workers[w] == Idle && (stopping || jobs != [] || background != [])
      modifies this`jobs, this`background, this`workers, this`taken
      ensures Valid() && |workers| == |old(workers)|
      ensures workers[w].Compiling? <==> old(jobs) != []
      ensures workers[w].Compiling? ==> workers[w].job == old(jobs)[0] && jobs == old(jobs)[1..]
      ensures workers[w].Speculating? ==> old(jobs) == [] && !stopping && old(background) != [] && workers[w].job == old(background)[0]
      ensures workers[w] == Exited <==> old(jobs) == [] && stopping
      ensures !workers[w].Compiling? ==> jobs == old(jobs) && taken == old(taken)
      ensures background == if workers[w].Speculating? then old(background)[1..] else old(background)
      ensures workers[w] != Idle && workers == old(workers)[w := workers[w]]
    {
      if jobs != [] {
        TakeKeeps(log, jobs, taken, ended, workers, w);
        workers := workers[w := Compiling(jobs[0])];
        jobs, taken := jobs[1..], taken + 1;
      } else if !stopping {
        OtherKeeps(log, jobs, taken, ended, workers, w, Speculating(background[0]));
        workers := workers[w := Speculating(background[0])];
        background := background[1..];
      } else {
        OtherKeeps(log, jobs, taken, ended, workers, w, Exited);
        workers := workers[w := Exited];
      }
    }

    method EndJob(w: Worker)
      requires Valid() && w < |workers| && (workers[w].Compiling? || workers[w].Speculating?)
      modifies this`workers, this`ended
      ensures Valid() && workers == old(workers)[w := Idle]
      ensures ended == if old(workers)[w].Compiling? then old(ended) + {old(workers)[w].job} else old(ended)
      ensures old(workers)[w].Compiling? ==> old(workers)[w].job !in old(ended)
    {
      if workers[w].Compiling? {
        EndKeeps(log, jobs, taken, ended, workers, w);
        ended := ended + {workers[w].job};
      } else {
        OtherKeeps(log, jobs, taken, ended, workers, w, Idle);
      }
      workers := workers[w := Idle];
    }

    method BeginStop()
      requires Valid()
      modifies this`stopping
      ensures Valid() && stopping
    {
      stopping := true;
    }

    /** `stop` returns when every worker was joined: every accepted job ran. */
    method StopReturns()
      requires Valid() && forall w :: 0 <= w < |workers| ==> workers[w] == Exited
      ensures forall j :: j in log ==> j in ended
    {
      assert workers != [] ==> workers[0] == Exited;
      assert log[taken..] == [] && taken == |log|;
      forall j | j in log ensures j in ended {
        var i :| 0 <= i < |log| && log[i] == j;
      }
    }
  }
}
