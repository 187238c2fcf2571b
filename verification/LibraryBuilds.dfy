/** Shared shader libraries: speculative builds that a release cancels or waits
    out, demand builds, and the shutdown.  Every method is one locked section
    or one edge of a once-only call. */
module LibraryBuilds {
  import opened ShaderBindings

  type Module = nat
  type Thread = nat
  type LibraryId = nat

  /** The state of a once-only call.  A call that throws leaves it unset. */
  datatype Once = Unset | Running(thread: Thread) | Called

  datatype Library = Library(module_: Module, stage: Stage, once: Once, built: bool)

  /** A compile builds a pipeline, fails and stays null for ever, or throws. */
  datatype Outcome = Built | Failed | Threw

  function AfterCompile(l: Library, outcome: Outcome): Library {
    match outcome
    case Built => l.(once := Called, built := true)
    case Failed => l.(once := Called, built := false)
    case Threw => l.(once := Unset, built := false)
  }

  lemma OutcomeMeans(l: Library, outcome: Outcome)
    ensures var after := AfterCompile(l, outcome);
            after.once == (if outcome.Threw? then Unset else Called) && after.built == outcome.Built?
  {
  }

  function Counted(compiles: map<LibraryId, nat>, l: LibraryId, outcome: Outcome): map<LibraryId, nat>
    requires l in compiles
  {
    if outcome.Built? then compiles[l := compiles[l] + 1] else compiles
  }

  datatype Release = Release(module_: Module, removed: set<LibraryId>)

  /** A thread is inside the call of the library it works on, and only then. */
  ghost predicate ActiveOk(libraries: map<LibraryId, Library>, active: map<Thread, LibraryId>) {
    && (forall t :: t in active ==> active[t] in libraries && libraries[active[t]].once == Running(t))
    && (forall l :: l in libraries && libraries[l].once.Running? ==> libraries[l].once.thread in active && active[libraries[l].once.thread] == l)
  }

  ghost predicate TableOk(libraries: map<LibraryId, Library>, table: map<(Module, Stage), LibraryId>) {
    forall k :: k in table ==> table[k] in libraries && libraries[table[k]].module_ == k.0 && libraries[table[k]].stage == k.1
  }

  predicate InTable(libraries: map<LibraryId, Library>, table: map<(Module, Stage), LibraryId>, l: LibraryId)
    requires l in libraries
  {
    var k := (libraries[l].module_, libraries[l].stage);
    k in table && table[k] == l
  }

  ghost predicate BeingReleased(releases: map<Thread, Release>, l: LibraryId) {
    exists t :: t in releases && l in releases[t].removed
  }

  /** A library that left the table is finished with, or its release waits for
      it, or the shutdown dropped the whole table. */
  ghost predicate RetiredOk(libraries: map<LibraryId, Library>, table: map<(Module, Stage), LibraryId>, releases: map<Thread, Release>, cleared: bool) {
    && (forall l :: l in libraries ==> InTable(libraries, table, l) || BeingReleased(releases, l) || libraries[l].once == Called || cleared)
    && (forall t, l :: t in releases && l in releases[t].removed ==>
          l in libraries && libraries[l].module_ == releases[t].module_ && !InTable(libraries, table, l))
    && (forall t, u :: t in releases && u in releases && releases[t].module_ == releases[u].module_ ==> t == u)
  }

  ghost predicate BuildsOk(libraries: map<LibraryId, Library>, builds: map<Thread, LibraryId>, queued: seq<LibraryId>, running: nat,
                           active: map<Thread, LibraryId>)
  {
    && running == |builds| && (forall t :: t in builds ==> builds[t] in libraries)
    && (forall t :: t in builds && t in active ==> active[t] == builds[t])
    && (forall i :: 0 <= i < |queued| ==> queued[i] in libraries)
  }

  /** A successful compile happens at most once, and only in a finished call. */
  ghost predicate CompilesOk(libraries: map<LibraryId, Library>, compiles: map<LibraryId, nat>) {
    && libraries.Keys == compiles.Keys
    && forall l :: l in libraries ==> compiles[l] == (if libraries[l].built then 1 else 0) && (libraries[l].built ==> libraries[l].once == Called)
  }

  lemma EntryKeeps(libraries: map<LibraryId, Library>, table: map<(Module, Stage), LibraryId>, releases: map<Thread, Release>, cleared: bool,
                   l: LibraryId, m: Module, s: Stage)
    requires RetiredOk(libraries, table, releases, cleared) && TableOk(libraries, table) && l !in libraries && (m, s) !in table
    ensures RetiredOk(libraries[l := Library(m, s, Unset, false)], table[(m, s) := l], releases, cleared)
    ensures TableOk(libraries[l := Library(m, s, Unset, false)], table[(m, s) := l])
  {
  }

  lemma OnceKeeps(libraries: map<LibraryId, Library>, table: map<(Module, Stage), LibraryId>, releases: map<Thread, Release>, cleared: bool,
                  l: LibraryId, next: Library)
    requires RetiredOk(libraries, table, releases, cleared) && TableOk(libraries, table) && l in libraries
    requires next.module_ == libraries[l].module_ && next.stage == libraries[l].stage && (libraries[l].once == Called ==> next.once == Called)
    ensures RetiredOk(libraries[l := next], table, releases, cleared) && TableOk(libraries[l := next], table)
  {
    var after := libraries[l := next];
    forall k | k in after ensures InTable(after, table, k) == InTable(libraries, table, k) { }
  }

  lemma RemoveKeeps(libraries: map<LibraryId, Library>, table: map<(Module, Stage), LibraryId>, releases: map<Thread, Release>, cleared: bool,
                    t: Thread, m: Module, removed: set<LibraryId>, rest: map<(Module, Stage), LibraryId>)
    requires RetiredOk(libraries, table, releases, cleared) && TableOk(libraries, table)
    requires t !in releases && (forall u :: u in releases ==> releases[u].module_ != m)
    requires rest == table - {(m, Vertex), (m, Fragment)}
    requires forall l :: l in removed <==> ((m, Vertex) in table && table[(m, Vertex)] == l) || ((m, Fragment) in table && table[(m, Fragment)] == l)
    ensures RetiredOk(libraries, rest, releases[t := Release(m, removed)], cleared) && TableOk(libraries, rest)
  {
    var more := releases[t := Release(m, removed)];
    assert more[t].removed == removed;
    forall l | l in libraries ensures InTable(libraries, rest, l) || BeingReleased(more, l) || libraries[l].once == Called || cleared {
      if InTable(libraries, table, l) && !InTable(libraries, rest, l) {
        assert l in removed;
      } else if BeingReleased(releases, l) {
        var u :| u in releases && l in releases[u].removed;
        assert u in more && more[u] == releases[u];
      }
    }
    forall u, l | u in more && l in more[u].removed
      ensures l in libraries && libraries[l].module_ == more[u].module_ && !InTable(libraries, rest, l)
    {
      if u != t { assert u in releases; }
    }
  }

  lemma ReleaseEnds(libraries: map<LibraryId, Library>, table: map<(Module, Stage), LibraryId>, releases: map<Thread, Release>, cleared: bool, t: Thread)
    requires RetiredOk(libraries, table, releases, cleared) && t in releases
    requires forall l :: l in releases[t].removed ==> l in libraries && libraries[l].once == Called
    ensures RetiredOk(libraries, table, releases - {t}, cleared)
  {
    var rest := releases - {t};
    forall l | l in libraries && BeingReleased(releases, l) && libraries[l].once != Called ensures BeingReleased(rest, l) {
      var u :| u in releases && l in releases[u].removed;
      assert u in rest && l in rest[u].removed;
    }
  }

  lemma ActiveEnter(libraries: map<LibraryId, Library>, active: map<Thread, LibraryId>, t: Thread, l: LibraryId)
    requires ActiveOk(libraries, active) && t !in active && l in libraries && !libraries[l].once.Running?
    ensures ActiveOk(libraries[l := libraries[l].(once := Running(t))], active[t := l])
  {
  }

  lemma Inside(libraries: map<LibraryId, Library>, active: map<Thread, LibraryId>, t: Thread)
    requires ActiveOk(libraries, active) && t in active
    ensures active[t] in libraries && libraries[active[t]].once == Running(t)
  {
  }

  lemma ActiveLeave(libraries: map<LibraryId, Library>, active: map<Thread, LibraryId>, t: Thread, next: Library)
    requires ActiveOk(libraries, active) && t in active && !next.once.Running?
    ensures ActiveOk(libraries[active[t] := next], active - {t})
  {
  }

  lemma ActiveSame(libraries: map<LibraryId, Library>, active: map<Thread, LibraryId>, l: LibraryId, next: Library)
    requires ActiveOk(libraries, active) && (l in libraries ==> !libraries[l].once.Running?) && !next.once.Running?
    ensures ActiveOk(libraries[l := next], active)
  {
  }

  lemma CompilesSame(libraries: map<LibraryId, Library>, compiles: map<LibraryId, nat>, l: LibraryId, next: Library)
    requires CompilesOk(libraries, compiles) && l in libraries && next.built == libraries[l].built && (next.built ==> next.once == Called)
    ensures CompilesOk(libraries[l := next], compiles)
  {
  }

  lemma NoBuilds(builds: map<Thread, LibraryId>)
    requires |builds| == 0
    ensures builds == map[]
  {
  }

  lemma Cleared(libraries: map<LibraryId, Library>, table: map<(Module, Stage), LibraryId>, releases: map<Thread, Release>, cleared: bool)
    requires RetiredOk(libraries, table, releases, cleared)
    ensures RetiredOk(libraries, map[], releases, true) && TableOk(libraries, map[])
  {
  }

  /** An entry that left the table belongs to a release, or is finished with. */
  lemma FinishedWith(libraries: map<LibraryId, Library>, table: map<(Module, Stage), LibraryId>, releases: map<Thread, Release>, cleared: bool, t: Thread)
    requires RetiredOk(libraries, table, releases, cleared) && t in releases
    requires forall l :: l in releases[t].removed ==> l in libraries && libraries[l].once == Called
    ensures forall l :: l in libraries && libraries[l].module_ == releases[t].module_ && !InTable(libraries, table, l) ==> libraries[l].once == Called || cleared
  {
    forall l | l in libraries && libraries[l].module_ == releases[t].module_ && !InTable(libraries, table, l)
      ensures libraries[l].once == Called || cleared
    {
      if BeingReleased(releases, l) {
        var u :| u in releases && l in releases[u].removed;
        assert releases[u].module_ == releases[t].module_ && u == t;
      }
    }
  }

  /** A build of a called library is not inside its call. */
  lemma NotInside(libraries: map<LibraryId, Library>, builds: map<Thread, LibraryId>, queued: seq<LibraryId>, running: nat, active: map<Thread, LibraryId>)
    requires ActiveOk(libraries, active) && BuildsOk(libraries, builds, queued, running, active)
    ensures forall u :: u in builds ==> builds[u] in libraries && (libraries[builds[u]].once == Called ==> u !in active)
    ensures forall i :: 0 <= i < |queued| ==> queued[i] in libraries
  {
  }

  lemma NotBuilt(libraries: map<LibraryId, Library>, compiles: map<LibraryId, nat>, l: LibraryId)
    requires CompilesOk(libraries, compiles) && l in libraries && libraries[l].once != Called
    ensures !libraries[l].built
  {
  }

  lemma CompileEnds(libraries: map<LibraryId, Library>, compiles: map<LibraryId, nat>, l: LibraryId, outcome: Outcome)
    requires CompilesOk(libraries, compiles) && l in libraries && libraries[l].once.Running?
    ensures l in compiles
    ensures var next := AfterCompile(libraries[l], outcome);
            && CompilesOk(libraries[l := next], Counted(compiles, l, outcome))
            && next.module_ == libraries[l].module_ && next.stage == libraries[l].stage && !next.once.Running? && libraries[l].once != Called
  {
  }

  lemma BuildsSame(libraries: map<LibraryId, Library>, builds: map<Thread, LibraryId>, queued: seq<LibraryId>, running: nat,
                   active: map<Thread, LibraryId>, l: LibraryId, next: Library, after: map<Thread, LibraryId>)
    requires BuildsOk(libraries, builds, queued, running, active)
    requires forall t :: t in builds && t in after ==> (t in active && after[t] == active[t]) || after[t] == builds[t]
    ensures BuildsOk(libraries[l := next], builds, queued, running, after)
  {
  }

  class GraphicsLibraries {
    var libraries: map<LibraryId, Library>
    /** What a module and stage currently mean. */
    var table: map<(Module, Stage), LibraryId>
    var next: LibraryId
    /** Speculative builds waiting in the worker pool. */
    var queued: seq<LibraryId>
    /** Speculative builds between their two locked sections. */
    var builds: map<Thread, LibraryId>
    var running: nat
    var closed: bool
    /** Threads inside a once-only call that compiles. */
    var active: map<Thread, LibraryId>
    /** Threads inside `release`. */
    var releases: map<Thread, Release>
    ghost var compiles: map<LibraryId, nat>
    /** The shutdown is over: its last section dropped the table. */
    ghost var cleared: bool

    ghost predicate Valid()
      reads this
    {
      && ActiveOk(libraries, active) && TableOk(libraries, table) && RetiredOk(libraries, table, releases, cleared)
      && BuildsOk(libraries, builds, queued, running, active) && CompilesOk(libraries, compiles)
      && (cleared ==> closed && builds == map[])
      && forall l :: l in libraries ==> l < next
    }

    constructor ()
      ensures Valid() && libraries == map[] && !closed && running == 0
    {
      libraries, table, next, queued, builds, running, closed := map[], map[], 0, [], map[], 0, false;
      active, releases, compiles, cleared := map[], map[], map[], false;
    }

    method Entry(m: Module, s: Stage) returns (l: LibraryId)
      requires Valid()
      modifies this`libraries, this`table, this`next, this`compiles
      ensures Valid() && (m, s) in table && l == table[(m, s)] && l in libraries
      ensures (m, s) in old(table) ==> table == old(table) && libraries == old(libraries)
      ensures (m, s) !in old(table) ==> l !in old(libraries) && libraries == old(libraries)[l := Library(m, s, Unset, false)] && table == old(table)[(m, s) := l]
    {
      hide ActiveOk, RetiredOk, BuildsOk;
      if (m, s) !in table {
        ActiveSame(libraries, active, next, Library(m, s, Unset, false));
        BuildsSame(libraries, builds, queued, running, active, next, Library(m, s, Unset, false), active);
        EntryKeeps(libraries, table, releases, cleared, next, m, s);
        libraries := libraries[next := Library(m, s, Unset, false)];
        table := table[(m, s) := next];
        compiles := compiles[next := 0];
        next := next + 1;
      }
      l := table[(m, s)];
    }

    /** Queues a speculative build when a shader library is loaded. */
    method Prepare(m: Module, s: Stage)
      requires Valid() && IsGraphics(s)
      modifies this`libraries, this`table, this`next, this`compiles, this`queued
      ensures Valid() && (m, s) in table && queued == old(queued) + [table[(m, s)]]
    {
      hide ActiveOk, RetiredOk, CompilesOk;
      var l := Entry(m, s);
      queued := queued + [l];
    }

    /** A worker starts a queued build, unless the device is closing. */
    method StartBuild(t: Thread) returns (started: bool)
      requires Valid() && queued != [] && t !in builds && t !in active
      modifies this`queued, this`builds, this`running
      ensures Valid() && (started <==> !closed) && queued == old(queued)[1..]
      ensures started ==> builds == old(builds)[t := old(queued)[0]] && running == old(running) + 1
      ensures !started ==> builds == old(builds) && running == old(running)
    {
      var l := queued[0];
      queued := queued[1..];
      if closed { return false; }
      running := running + 1;
      builds := builds[t := l];
      return true;
    }

    /** Entering a once-only call: it runs, or it was called before.  While
        another thread runs it this step is not enabled.  A build works on its
        own library. */
    method EnterOnce(t: Thread, l: LibraryId) returns (mine: bool)
      requires Valid() && l in libraries && t !in active && !libraries[l].once.Running? && (t in builds ==> builds[t] == l)
      modifies this`libraries, this`active
      ensures Valid() && l in libraries && (mine <==> old(libraries)[l].once == Unset)
      ensures mine ==> libraries == old(libraries)[l := old(libraries)[l].(once := Running(t))] && active == old(active)[t := l]
      ensures !mine ==> libraries == old(libraries) && active == old(active) && libraries[l].once == Called
    {
      hide ActiveOk, TableOk, RetiredOk, BuildsOk, CompilesOk;
      if libraries[l].once == Called { return false; }
      ActiveEnter(libraries, active, t, l);
      BuildsSame(libraries, builds, queued, running, active, l, libraries[l].(once := Running(t)), active[t := l]);
      NotBuilt(libraries, compiles, l);
      CompilesSame(libraries, compiles, l, libraries[l].(once := Running(t)));
      OnceKeeps(libraries, table, releases, cleared, l, libraries[l].(once := Running(t)));
      libraries := libraries[l := libraries[l].(once := Running(t))];
      active := active[t := l];
      return true;
    }

    /** A compile ends. */
    method LeaveOnce(t: Thread, outcome: Outcome)
      requires Valid() && t in active
      modifies this`libraries, this`active, this`compiles
      ensures Valid() && active == old(active) - {t} && old(active)[t] in old(libraries) && old(active)[t] in old(compiles)
      ensures libraries == old(libraries)[old(active)[t] := AfterCompile(old(libraries)[old(active)[t]], outcome)]
      ensures compiles == Counted(old(compiles), old(active)[t], outcome)
      // a throw lets the next caller compile again; a failure stays without a pipeline for ever
      ensures var l := libraries[old(active)[t]]; l.once == (if outcome.Threw? then Unset else Called) && l.built == outcome.Built?
    {
      hide ActiveOk, TableOk, RetiredOk, BuildsOk, CompilesOk, AfterCompile, Counted;
      Inside(libraries, active, t);
      var l := active[t];
      CompileEnds(libraries, compiles, l, outcome);
      var after := AfterCompile(libraries[l], outcome);
      OutcomeMeans(libraries[l], outcome);
      OnceKeeps(libraries, table, releases, cleared, l, after);
      ActiveLeave(libraries, active, t, after);
      BuildsSame(libraries, builds, queued, running, active, l, after, active - {t});
      libraries := libraries[l := after];
      active := active - {t};
      compiles := Counted(compiles, l, outcome);
    }

    method EndBuild(t: Thread)
      requires Valid() && t in builds && t !in active
      modifies this`builds, this`running
      ensures Valid() && builds == old(builds) - {t} && running == old(running) - 1
    {
      builds := builds - {t};
      running := running - 1;
    }

    /** release, first part: the module's entries leave the table. */
    method BeginRelease(t: Thread, m: Module)
      requires Valid() && t !in releases && forall u :: u in releases ==> releases[u].module_ != m
      modifies this`table, this`releases
      ensures Valid() && (m, Vertex) !in table && (m, Fragment) !in table
      ensures t in releases && releases == old(releases)[t := releases[t]] && releases[t].module_ == m
    {
      hide ActiveOk, TableOk, RetiredOk, BuildsOk, CompilesOk;
      var removed := {};
      if (m, Vertex) in table { removed := removed + {table[(m, Vertex)]}; }
      if (m, Fragment) in table { removed := removed + {table[(m, Fragment)]}; }
      RemoveKeeps(libraries, table, releases, cleared, t, m, removed, table - {(m, Vertex), (m, Fragment)});
      table := table - {(m, Vertex), (m, Fragment)};
      releases := releases[t := Release(m, removed)];
    }

    /** release, second part: cancels a build that did not start.  For a
        running one this step is not enabled: the release waits. */
    method Cancel(t: Thread, l: LibraryId)
      requires Valid() && t in releases && l in releases[t].removed && l in libraries && !libraries[l].once.Running?
      modifies this`libraries
      ensures Valid() && libraries == old(libraries)[l := old(libraries)[l].(once := Called)]
    {
      hide ActiveOk, TableOk, RetiredOk, BuildsOk, CompilesOk;
      OnceKeeps(libraries, table, releases, cleared, l, libraries[l].(once := Called));
      ActiveSame(libraries, active, l, libraries[l].(once := Called));
      BuildsSame(libraries, builds, queued, running, active, l, libraries[l].(once := Called), active);
      CompilesSame(libraries, compiles, l, libraries[l].(once := Called));
      libraries := libraries[l := libraries[l].(once := Called)];
    }

    /** release returns, at whatever stage of a shutdown: every entry of the
        module that left the table is finished with for ever, so that no build,
        queued or started, compiles it, and no background build is inside a
        compile of it.  Only the end of the shutdown leaves entries unfinished,
        when no build is left and none can start. */
    method EndRelease(t: Thread)
      requires Valid() && t in releases
      requires forall l :: l in releases[t].removed ==> l in libraries && libraries[l].once == Called
      modifies this`releases
      ensures Valid() && releases == old(releases) - {t}
      ensures forall u :: u in builds && builds[u] in libraries && libraries[builds[u]].module_ == old(releases)[t].module_ && !InTable(libraries, table, builds[u]) ==>
                libraries[builds[u]].once == Called && u !in active
      ensures forall i :: 0 <= i < |queued| && queued[i] in libraries && libraries[queued[i]].module_ == old(releases)[t].module_ && !InTable(libraries, table, queued[i]) ==>
                libraries[queued[i]].once == Called || (closed && builds == map[])
      ensures forall l :: l in libraries && libraries[l].module_ == old(releases)[t].module_ && !InTable(libraries, table, l) ==>
                libraries[l].once == Called || (cleared && closed && builds == map[])
    {
      hide ActiveOk, TableOk, RetiredOk, BuildsOk, CompilesOk;
      ReleaseEnds(libraries, table, releases, cleared, t);
      FinishedWith(libraries, table, releases, cleared, t);
      NotInside(libraries, builds, queued, running, active);
      releases := releases - {t};
    }

    method BeginClose()
      requires Valid()
      modifies this`closed
      ensures Valid() && closed
    {
      closed := true;
    }

    /** close returns: no speculative build is running, and none can start. */
    method EndClose()
      requires Valid() && closed && running == 0
      modifies this`table, this`cleared
      ensures Valid() && table == map[] && builds == map[] && closed && cleared
    {
      hide ActiveOk, TableOk, RetiredOk, CompilesOk;
      NoBuilds(builds);
      Cleared(libraries, table, releases, cleared);
      table, cleared := map[], true;
    }
  }
}
