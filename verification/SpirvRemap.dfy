/** Moving a graphics module's descriptor decorations to the set scheme of
    module ShaderBindings. */
module SpirvRemap {
  import opened ShaderBindings
  import opened Wrappers
  import opened SpirvModules

  /** Where an identifier's set and binding literals are. */
  datatype Target = Target(setAt: Option<nat>, bindingAt: Option<nat>) {
    predicate Complete() { setAt.Some? && bindingAt.Some? }
  }

  const NO_TARGET := Target(None, None)

  function Lookup(targets: map<Word, Target>, id: Word): Target {
    if id in targets then targets[id] else NO_TARGET
  }

  /** One instruction's effect on the targets; later decorations win. */
  function Note(words: seq<Word>, targets: map<Word, Target>, s: nat): map<Word, Target> {
    if Decorates(words, s, DECORATE_SET) then targets[words[s + 1] := Lookup(targets, words[s + 1]).(setAt := Some(s + 3))]
    else if Decorates(words, s, DECORATE_BINDING) then targets[words[s + 1] := Lookup(targets, words[s + 1]).(bindingAt := Some(s + 3))]
    else targets
  }

  function Targets(words: seq<Word>, starts: seq<nat>): map<Word, Target> {
    if starts == [] then map[] else Note(words, Targets(words, starts[..|starts| - 1]), starts[|starts| - 1])
  }

  function EntryPoints(words: seq<Word>, starts: seq<nat>): nat {
    if starts == [] then 0
    else
      var s := starts[|starts| - 1];
      EntryPoints(words, starts[..|starts| - 1]) + if s < |words| && Opcode(words[s]) == OP_ENTRY_POINT then 1 else 0
  }

  /** OpDecorationGroup, OpGroupDecorate and OpGroupMemberDecorate. */
  predicate GroupDecoration(w: Word) { Opcode(w) == 73 || Opcode(w) == 74 || Opcode(w) == 75 }

  /** The modules that the translators emit. */
  ghost predicate Acceptable(words: seq<Word>) {
    && |words| >= HEADER && words[0] == MAGIC && Parse(words, HEADER).Some?
    && var starts := Parse(words, HEADER).value;
       && EntryPoints(words, starts) == 1
       && forall k :: 0 <= k < |starts| && starts[k] < |words| ==> !GroupDecoration(words[starts[k]])
  }

  /** A target's literals are those of decorations of its identifier. */
  ghost predicate TargetFrom(words: seq<Word>, starts: seq<nat>, id: Word, t: Target) {
    && (t.setAt.Some? ==> exists k :: 0 <= k < |starts| && Decorates(words, starts[k], DECORATE_SET) && words[starts[k] + 1] == id && t.setAt.value == starts[k] + 3)
    && (t.bindingAt.Some? ==> exists k :: 0 <= k < |starts| && Decorates(words, starts[k], DECORATE_BINDING) && words[starts[k] + 1] == id && t.bindingAt.value == starts[k] + 3)
  }

  lemma {:induction false} TargetsFrom(words: seq<Word>, starts: seq<nat>)
    ensures forall id :: id in Targets(words, starts) ==> TargetFrom(words, starts, id, Targets(words, starts)[id])
  {
    if starts != [] {
      var init, last := starts[..|starts| - 1], |starts| - 1;
      TargetsFrom(words, init);
      var before, after := Targets(words, init), Targets(words, starts);
      forall id | id in after ensures TargetFrom(words, starts, id, after[id]) {
        if id in before { FromMore(words, init, starts, id, before[id]); }
        if Decorates(words, starts[last], DECORATE_SET) && words[starts[last] + 1] == id { assert after[id].setAt == Some(starts[last] + 3); }
        else if Decorates(words, starts[last], DECORATE_BINDING) && words[starts[last] + 1] == id { assert after[id].bindingAt == Some(starts[last] + 3); }
      }
    }
  }

  lemma FromMore(words: seq<Word>, init: seq<nat>, starts: seq<nat>, id: Word, t: Target)
    requires |init| <= |starts| && init == starts[..|init|] && TargetFrom(words, init, id, t)
    ensures TargetFrom(words, starts, id, t)
  {
    if t.setAt.Some? {
      var k :| 0 <= k < |init| && Decorates(words, init[k], DECORATE_SET) && words[init[k] + 1] == id && t.setAt.value == init[k] + 3;
      assert starts[k] == init[k];
    }
    if t.bindingAt.Some? {
      var k :| 0 <= k < |init| && Decorates(words, init[k], DECORATE_BINDING) && words[init[k] + 1] == id && t.bindingAt.value == init[k] + 3;
      assert starts[k] == init[k];
    }
  }

  /** Different identifiers' literals are different words, and so are the set
      and binding literals. */
  lemma LiteralsApart(words: seq<Word>, starts: seq<nat>, p: Word, q: Word, s: Target, t: Target)
    requires TargetFrom(words, starts, p, s) && TargetFrom(words, starts, q, t)
    ensures s.setAt.Some? && s.setAt == t.setAt ==> p == q
    ensures s.bindingAt.Some? && s.bindingAt == t.bindingAt ==> p == q
    ensures s.setAt.Some? && t.bindingAt.Some? ==> s.setAt != t.bindingAt
    ensures s.setAt.Some? ==> s.setAt.value < |words|
    ensures s.bindingAt.Some? ==> s.bindingAt.value < |words|
  {
  }

  // ------------------------------------------------------------------ the scan

  lemma EntryPointsSnoc(words: seq<Word>, starts: seq<nat>, s: nat)
    requires s < |words|
    ensures EntryPoints(words, starts + [s]) == EntryPoints(words, starts) + if Opcode(words[s]) == OP_ENTRY_POINT then 1 else 0
  {
    assert (starts + [s])[..|starts|] == starts;
  }

  lemma TargetsSnoc(words: seq<Word>, starts: seq<nat>, s: nat)
    ensures Targets(words, starts + [s]) == Note(words, Targets(words, starts), s)
  {
    assert (starts + [s])[..|starts|] == starts;
  }

  /** `done` are the instructions before word `i`. */
  ghost predicate Scanned(words: seq<Word>, i: nat, done: seq<nat>) {
    && Parse(words, HEADER) == (match Parse(words, i) case None => None case Some(rest) => Some(done + rest))
    && forall k :: 0 <= k < |done| ==> done[k] < |words| && !GroupDecoration(words[done[k]])
  }

  lemma ScanStep(words: seq<Word>, i: nat, done: seq<nat>)
    requires Scanned(words, i, done) && i < |words|
    ensures var n := Count(words[i]);
            if n == 0 || i + n > |words| then Parse(words, HEADER).None?
            else if GroupDecoration(words[i]) then !Acceptable(words)
            else Scanned(words, i + n, done + [i])
  {
    hide EntryPoints;
    var n := Count(words[i]);
    if n != 0 && i + n <= |words| {
      if Parse(words, i + n).Some? {
        var rest := Parse(words, i + n).value;
        Regroup(done, i, rest);
        assert Parse(words, HEADER).value[|done|] == i;
      }
      if !GroupDecoration(words[i]) { DoneMore(words, i, done); }
    }
  }

  lemma DoneMore(words: seq<Word>, i: nat, done: seq<nat>)
    requires forall k :: 0 <= k < |done| ==> done[k] < |words| && !GroupDecoration(words[done[k]])
    requires i < |words| && !GroupDecoration(words[i])
    ensures forall k :: 0 <= k < |done + [i]| ==> (done + [i])[k] < |words| && !GroupDecoration(words[(done + [i])[k]])
  {
  }

  /** The first pass: checks the module and collects the targets. */
  method Scan(words: array<Word>) returns (ok: bool, targets: map<Word, Target>)
    ensures ok <==> Acceptable(words[..])
    ensures ok ==> Parse(words[..], HEADER).Some? && targets == Targets(words[..], Parse(words[..], HEADER).value)
  {
    targets := map[];
    if words.Length < HEADER || words[0] != MAGIC { return false, targets; }
    ghost var ws := words[..];
    ghost var done: seq<nat> := [];
    var entryPoints := 0;
    var i: nat := HEADER;
    assert Scanned(ws, i, done) by {
      match Parse(ws, i) case None => case Some(rest) => assert [] + rest == rest;
    }
    while i < words.Length
      invariant HEADER <= i <= words.Length && Scanned(ws, i, done)
      invariant targets == Targets(ws, done) && entryPoints == EntryPoints(ws, done)
    {
      var opcode, count := Opcode(words[i]), Count(words[i]);
      ScanStep(ws, i, done);
      if count == 0 || i + count > words.Length { return false, targets; }
      if opcode == OP_ENTRY_POINT { entryPoints := entryPoints + 1; }
      if opcode == 73 || opcode == 74 || opcode == 75 { return false, targets; }
      if opcode == OP_DECORATE && count == 4 {
        if words[i + 2] == DECORATE_SET { targets := targets[words[i + 1] := Lookup(targets, words[i + 1]).(setAt := Some(i + 3))]; }
        if words[i + 2] == DECORATE_BINDING { targets := targets[words[i + 1] := Lookup(targets, words[i + 1]).(bindingAt := Some(i + 3))]; }
      }
      EntryPointsSnoc(ws, done, i);
      TargetsSnoc(ws, done, i);
      done := done + [i];
      i := i + count;
    }
    assert Parse(ws, i) == Some([]) && done + [] == done;
    ok := entryPoints == 1;
  }

  // --------------------------------------------------------------- the rewrite

  /** The reflected resource with this binding number. */
  function Find(bs: seq<Binding>, slot: nat): (r: Option<Binding>)
    ensures r.Some? ==> r.value in bs && !r.value.VertexInput? && r.value.slot == slot
    ensures r.None? ==> forall b :: b in bs && !b.VertexInput? ==> b.slot != slot
  {
    if bs == [] then None
    else if !bs[0].VertexInput? && bs[0].slot == slot then Some(bs[0])
    else Find(bs[1..], slot)
  }

  /** Where the module as read puts a complete target, and where it must go. */
  function Before(words: seq<Word>, t: Target): Location
    requires t.Complete() && t.setAt.value < |words| && t.bindingAt.value < |words|
  {
    Location(words[t.setAt.value], words[t.bindingAt.value])
  }

  function After(at: Location, info: FunctionInfo, dev: Device): Location {
    match Find(info.bindings, at.binding)
    case None => at
    case Some(b) => LocationOf(info, b, dev)
  }

  ghost predicate InRange(words: seq<Word>, targets: map<Word, Target>) {
    forall id :: id in targets ==>
      && (targets[id].setAt.Some? ==> targets[id].setAt.value < |words|)
      && (targets[id].bindingAt.Some? ==> targets[id].bindingAt.value < |words|)
  }

  ghost predicate Apart(targets: map<Word, Target>) {
    forall p, q :: p in targets && q in targets ==>
      && (targets[p].setAt.Some? && targets[p].setAt == targets[q].setAt ==> p == q)
      && (targets[p].bindingAt.Some? && targets[p].bindingAt == targets[q].bindingAt ==> p == q)
      && (targets[p].setAt.Some? && targets[q].bindingAt.Some? ==> targets[p].setAt != targets[q].bindingAt)
  }

  lemma TargetsApart(words: seq<Word>, starts: seq<nat>)
    ensures InRange(words, Targets(words, starts)) && Apart(Targets(words, starts))
  {
    TargetsFrom(words, starts);
    var targets := Targets(words, starts);
    forall p, q | p in targets && q in targets
      ensures targets[p].setAt.Some? && targets[p].setAt == targets[q].setAt ==> p == q
      ensures targets[p].bindingAt.Some? && targets[p].bindingAt == targets[q].bindingAt ==> p == q
      ensures targets[p].setAt.Some? && targets[q].bindingAt.Some? ==> targets[p].setAt != targets[q].bindingAt
      ensures targets[p].setAt.Some? ==> targets[p].setAt.value < |words|
      ensures targets[p].bindingAt.Some? ==> targets[p].bindingAt.value < |words|
    {
      LiteralsApart(words, starts, p, q, targets[p], targets[q]);
    }
  }

  /** The literals of the targets in `ids` moved, and nothing else changed. */
  ghost predicate Moved(words: seq<Word>, out: seq<Word>, targets: map<Word, Target>, ids: set<Word>, info: FunctionInfo, dev: Device)
    requires InRange(words, targets)
  {
    && |out| == |words|
    && (forall id :: id in ids && id in targets && targets[id].Complete() ==>
                       Before(out, targets[id]) == After(Before(words, targets[id]), info, dev))
    && (forall k :: 0 <= k < |words| && !LiteralOf(targets, ids, k) ==> out[k] == words[k])
  }

  /** Word `k` is a literal of a complete target in `ids`. */
  ghost predicate LiteralOf(targets: map<Word, Target>, ids: set<Word>, k: nat) {
    exists id :: id in ids && id in targets && targets[id].Complete() && (k == targets[id].setAt.value || k == targets[id].bindingAt.value)
  }

  lemma MoveOne(words: seq<Word>, was: seq<Word>, out: seq<Word>, targets: map<Word, Target>, ids: set<Word>, id: Word, info: FunctionInfo, dev: Device)
    requires InRange(words, targets) && Apart(targets) && Moved(words, was, targets, ids, info, dev)
    requires id in targets && id !in ids && targets[id].Complete() && |out| == |was|
    requires Before(out, targets[id]) == After(Before(words, targets[id]), info, dev)
    requires forall k :: 0 <= k < |was| && k != targets[id].setAt.value && k != targets[id].bindingAt.value ==> out[k] == was[k]
    ensures Moved(words, out, targets, ids + {id}, info, dev)
  {
    forall p | p in ids + {id} && p in targets && targets[p].Complete()
      ensures Before(out, targets[p]) == After(Before(words, targets[p]), info, dev)
    {
      if p != id { assert Before(out, targets[p]) == Before(was, targets[p]); }
    }
    forall k | 0 <= k < |words| && !LiteralOf(targets, ids + {id}, k) ensures out[k] == words[k] {
      assert id in ids + {id};
    }
  }

  /** remapDescriptorSets, in place.  It returns false for an unexpected module
      and then leaves every word alone; otherwise exactly the literals of the
      matched resources move, to where the layouts and the encoder expect them. */
  method RemapDescriptorSets(words: array<Word>, info: FunctionInfo, dev: Device) returns (ok: bool)
    modifies words
    ensures ok <==> Acceptable(old(words[..]))
    ensures !ok ==> words[..] == old(words[..])
    ensures ok ==> var targets := Targets(old(words[..]), Parse(old(words[..]), HEADER).value);
                   InRange(old(words[..]), targets) && Moved(old(words[..]), words[..], targets, targets.Keys, info, dev)
  {
    hide Moved, Apart, Acceptable, LiteralOf, InRange;
    ghost var was := words[..];
    var targets;
    ok, targets := Scan(words);
    if !ok { return; }
    TargetsApart(was, Parse(was, HEADER).value);
    var pushed := ScanPushesBuffers(info, dev);
    var rest := targets.Keys;
    ghost var gone: set<Word> := {};
    NothingMoved(was, targets, info, dev);
    while rest != {}
      invariant rest <= targets.Keys && gone !! rest && gone + rest == targets.Keys
      invariant Moved(was, words[..], targets, gone, info, dev)
      decreases |rest|
    {
      var id :| id in rest;
      MoveEntry(words, was, targets, gone, id, info, dev, pushed);
      rest := rest - {id};
      gone := gone + {id};
    }
    assert gone == targets.Keys;
  }

  /** One step over the collected identifiers. */
  method MoveEntry(words: array<Word>, ghost was: seq<Word>, targets: map<Word, Target>, ghost ids: set<Word>, id: Word,
                   info: FunctionInfo, dev: Device, pushed: bool)
    requires InRange(was, targets) && Apart(targets) && id in targets && id !in ids && pushed == PushesBuffers(info, dev)
    requires Moved(was, words[..], targets, ids, info, dev)
    modifies words
    ensures Moved(was, words[..], targets, ids + {id}, info, dev)
  {
    hide Moved, After, Before, LiteralOf;
    ghost var before := words[..];
    var t := targets[id];
    SameLength(was, before, targets, ids, info, dev);
    if t.Complete() {
      Untouched(was, before, targets, ids, id, info, dev);
      MoveTarget(words, t, info, dev, pushed);
      MoveOne(was, before, words[..], targets, ids, id, info, dev);
    } else {
      MoveNone(was, before, targets, ids, id, info, dev);
    }
  }

  lemma SameLength(words: seq<Word>, out: seq<Word>, targets: map<Word, Target>, ids: set<Word>, info: FunctionInfo, dev: Device)
    requires InRange(words, targets) && Moved(words, out, targets, ids, info, dev)
    ensures |out| == |words|
  {
  }

  lemma MoveNone(words: seq<Word>, out: seq<Word>, targets: map<Word, Target>, ids: set<Word>, id: Word, info: FunctionInfo, dev: Device)
    requires InRange(words, targets) && Moved(words, out, targets, ids, info, dev) && id in targets && !targets[id].Complete()
    ensures Moved(words, out, targets, ids + {id}, info, dev)
  {
    forall k | 0 <= k < |words| && !LiteralOf(targets, ids + {id}, k) ensures !LiteralOf(targets, ids, k) {
      assert forall p :: p in ids ==> p in ids + {id};
    }
  }

  /** One complete target's literals. */
  method MoveTarget(words: array<Word>, t: Target, info: FunctionInfo, dev: Device, pushed: bool)
    requires t.Complete() && t.setAt.value < words.Length && t.bindingAt.value < words.Length && t.setAt != t.bindingAt
    requires pushed == PushesBuffers(info, dev)
    modifies words
    ensures Before(words[..], t) == After(Before(old(words[..]), t), info, dev)
    ensures forall k :: 0 <= k < words.Length && k != t.setAt.value && k != t.bindingAt.value ==> words[k] == old(words[k])
  {
    var binding := FindBinding(info.bindings, words[t.bindingAt.value]);
    if binding.Some? {
      if binding.value.Buffer? && pushed {
        words[t.setAt.value] := 0;
        words[t.bindingAt.value] := PushedBinding(info.stage, binding.value.slot);
      } else {
        words[t.setAt.value] := StageSet(info.stage);
      }
    }
  }

  lemma NothingMoved(words: seq<Word>, targets: map<Word, Target>, info: FunctionInfo, dev: Device)
    requires InRange(words, targets)
    ensures Moved(words, words, targets, {}, info, dev)
  {
  }

  lemma Untouched(words: seq<Word>, out: seq<Word>, targets: map<Word, Target>, ids: set<Word>, id: Word, info: FunctionInfo, dev: Device)
    requires InRange(words, targets) && Apart(targets) && Moved(words, out, targets, ids, info, dev)
    requires id in targets && id !in ids && targets[id].Complete()
    ensures Before(out, targets[id]) == Before(words, targets[id])
  {
  }

  /** The linear search of the reflected bindings. */
  method FindBinding(bs: seq<Binding>, slot: nat) returns (r: Option<Binding>)
    ensures r == Find(bs, slot)
  {
    assert bs[0..] == bs;
    for i := 0 to |bs|
      invariant Find(bs, slot) == Find(bs[i..], slot)
    {
      assert bs[i..][0] == bs[i] && bs[i..][1..] == bs[i + 1..];
      if bs[i].slot == slot && !bs[i].VertexInput? { return Some(bs[i]); }
    }
    return None;
  }

  // ------------------------------------------------------- what this achieves

  lemma NotALiteral(words: seq<Word>, out: seq<Word>, starts: seq<nat>, info: FunctionInfo, dev: Device, k: nat, at: nat)
    requires Spaced(words, starts) && k < |starts| && starts[k] <= at < starts[k] + Count(words[starts[k]]) && at != starts[k] + 3
    requires InRange(words, Targets(words, starts)) && Moved(words, out, Targets(words, starts), Targets(words, starts).Keys, info, dev)
    ensures at < |words| && out[at] == words[at]
  {
    var targets := Targets(words, starts);
    TargetsFrom(words, starts);
    forall j | 0 <= j < |starts| && Count(words[starts[j]]) == 4 ensures at != starts[j] + 3 {
      if j != k { LiteralApart(words, starts, j, k, at); }
    }
    forall id | id in targets && targets[id].Complete() ensures at != targets[id].setAt.value && at != targets[id].bindingAt.value {
      assert TargetFrom(words, starts, id, targets[id]);
    }
  }

  /** The rewrite keeps the length, the instruction boundaries and the places
      of the literals: read again, the module has the same structure. */
  lemma RewriteKeepsStructure(words: seq<Word>, out: seq<Word>, info: FunctionInfo, dev: Device)
    requires Acceptable(words)
    requires var targets := Targets(words, Parse(words, HEADER).value);
             InRange(words, targets) && Moved(words, out, targets, targets.Keys, info, dev)
    ensures |out| == |words| && Parse(out, HEADER) == Parse(words, HEADER) && Acceptable(out)
    ensures Targets(out, Parse(out, HEADER).value) == Targets(words, Parse(words, HEADER).value)
  {
    var starts := Parse(words, HEADER).value;
    ParseSpaced(words, HEADER);
    forall k | 0 <= k < |starts| ensures starts[k] < |words| && out[starts[k]] == words[starts[k]] {
      ParsePositive(words, HEADER, k);
      NotALiteral(words, out, starts, info, dev, k, starts[k]);
    }
    ParseSame(words, out, HEADER);
    forall k | 0 <= k < |starts| ensures SameHead(words, out, starts[k]) {
      if Count(words[starts[k]]) == 4 {
        NotALiteral(words, out, starts, info, dev, k, starts[k] + 1);
        NotALiteral(words, out, starts, info, dev, k, starts[k] + 2);
      }
    }
    SameTargets(words, out, starts);
    SameEntryPoints(words, out, starts);
    HeaderKept(words, out, starts, info, dev);
  }

  lemma HeaderKept(words: seq<Word>, out: seq<Word>, starts: seq<nat>, info: FunctionInfo, dev: Device)
    requires Spaced(words, starts) && |words| >= HEADER
    requires InRange(words, Targets(words, starts)) && Moved(words, out, Targets(words, starts), Targets(words, starts).Keys, info, dev)
    ensures out[0] == words[0]
  {
    TargetsFrom(words, starts);
    assert !LiteralOf(Targets(words, starts), Targets(words, starts).Keys, 0);
  }

  lemma {:induction false} ParsePositive(words: seq<Word>, i: nat, k: nat)
    requires Parse(words, i).Some? && k < |Parse(words, i).value|
    ensures Parse(words, i).value[k] < |words| && Count(words[Parse(words, i).value[k]]) > 0
    decreases |words| - i
  {
    var rest := Parse(words, i + Count(words[i])).value;
    assert Parse(words, i).value == [i] + rest;
    if k > 0 { ParsePositive(words, i + Count(words[i]), k - 1); }
  }

  /** Everything but the literal of a decoration. */
  predicate SameHead(a: seq<Word>, b: seq<Word>, s: nat)
    requires |a| == |b|
  {
    s < |a| && a[s] == b[s] && (Count(a[s]) == 4 && s + 3 < |a| ==> a[s + 1] == b[s + 1] && a[s + 2] == b[s + 2])
  }

  lemma {:induction false} SameTargets(a: seq<Word>, b: seq<Word>, starts: seq<nat>)
    requires |a| == |b|
    requires forall k :: 0 <= k < |starts| ==> SameHead(a, b, starts[k])
    ensures Targets(a, starts) == Targets(b, starts)
  {
    if starts != [] {
      var init, s := starts[..|starts| - 1], starts[|starts| - 1];
      SameTargets(a, b, init);
    }
  }

  lemma {:induction false} SameEntryPoints(a: seq<Word>, b: seq<Word>, starts: seq<nat>)
    requires |a| == |b|
    requires forall k :: 0 <= k < |starts| ==> starts[k] < |a| && a[starts[k]] == b[starts[k]]
    ensures EntryPoints(a, starts) == EntryPoints(b, starts)
  {
    if starts != [] { SameEntryPoints(a, b, starts[..|starts| - 1]); }
  }

  /** A matched resource ends up exactly where the layout declares it and the
      encoder writes it. */
  lemma MatchedAgrees(info: FunctionInfo, dev: Device, b: Binding, at: Location)
    requires info.Valid() && b in info.bindings && !b.VertexInput? && at.binding == b.slot
    ensures After(at, info, dev) == LocationOf(info, b, dev)
  {
    var c := Find(info.bindings, at.binding).value;
    var i :| 0 <= i < |info.bindings| && info.bindings[i] == b;
    var j :| 0 <= j < |info.bindings| && info.bindings[j] == c;
    assert i == j;
  }

  /** Why two resources may end up at one location: they shared it before, or
      they have one reflected binding number in different sets, or one of them
      is unknown to the reflection and already sits where the other one moves. */
  predicate Clash(info: FunctionInfo, dev: Device, p: Location, q: Location) {
    var x, y := Find(info.bindings, p.binding), Find(info.bindings, q.binding);
    || p == q
    || (p.binding == q.binding && x.Some?)
    || (x.Some? && y.None? && LocationOf(info, x.value, dev) == q)
    || (x.None? && y.Some? && LocationOf(info, y.value, dev) == p)
  }

  /** For any two resources of a function: they collide after the rewrite exactly
      then. */
  lemma CollisionExactly(info: FunctionInfo, dev: Device, p: Location, q: Location)
    requires info.Valid() && IsGraphics(info.stage)
    ensures After(p, info, dev) == After(q, info, dev) <==> Clash(info, dev, p, q)
  {
    var x, y := Find(info.bindings, p.binding), Find(info.bindings, q.binding);
    if x.Some? && y.Some? && p.binding != q.binding {
      var i :| 0 <= i < |info.bindings| && info.bindings[i] == x.value;
      var j :| 0 <= j < |info.bindings| && info.bindings[j] == y.value;
      if i < j { LocationsDistinct(info, dev, i, j); } else { LocationsDistinct(info, dev, j, i); }
    }
  }

  /** Resources with one reflected binding number in two sets end up together. */
  lemma SharedNumbersCollide()
    ensures exists info: FunctionInfo, dev: Device, p: Location, q: Location ::
              info.Valid() && info.stage == Fragment && p != q && After(p, info, dev) == After(q, info, dev)
              && Find(info.bindings, p.binding).Some? && Find(info.bindings, q.binding).Some?
  {
    var info, dev := FunctionInfo(Fragment, [Buffer(0, 3)], []), Device(true, 8, 16, 65536);
    var p, q := Location(0, 3), Location(1, 3);
    assert info.Valid() && Find(info.bindings, 3) == Some(Buffer(0, 3));
    assert After(p, info, dev) == After(q, info, dev);
  }

  /** The set that the offline preparation gives every resource of a stage. */
  function PreparedSet(stage: Stage): nat { if stage == Fragment then 1 else 0 }

  /** In a prepared module no two resources collide. */
  lemma PreparedModulesDoNotCollide(info: FunctionInfo, dev: Device, p: Location, q: Location)
    requires info.Valid() && IsGraphics(info.stage) && p != q
    requires p.set_ == q.set_ == PreparedSet(info.stage)
    ensures After(p, info, dev) != After(q, info, dev)
  {
    CollisionExactly(info, dev, p, q);
  }

  /** A module that was not prepared can collide. */
  lemma UnpreparedModulesMayCollide()
    ensures exists info: FunctionInfo, dev: Device, p: Location, q: Location ::
              info.Valid() && info.stage == Fragment && p.binding != q.binding && p.set_ == q.set_ == 0
              && After(p, info, dev) == After(q, info, dev)
  {
    var info, dev := FunctionInfo(Fragment, [Buffer(0, 0)], []), Device(true, 8, 16, 65536);
    var p, q := Location(0, 0), Location(0, 16);
    assert PushesBuffers(info, dev);
    assert Find(info.bindings, 0) == Some(Buffer(0, 0));
    assert info.bindings[1..] == [];
    assert Find(info.bindings, 16) == None;
    assert After(p, info, dev) == Location(0, 16) == After(q, info, dev);
    assert info.Valid();
  }

  /** The two stages of a pipeline never collide on the resources they know. */
  lemma StagesDoNotCollide(v: FunctionInfo, f: FunctionInfo, dev: Device, a: Binding, b: Binding, p: Location, q: Location)
    requires v.Valid() && f.Valid() && v.stage == Vertex && f.stage == Fragment
    requires a in v.bindings && !a.VertexInput? && p.binding == a.slot
    requires b in f.bindings && !b.VertexInput? && q.binding == b.slot
    ensures After(p, v, dev) != After(q, f, dev)
  {
    MatchedAgrees(v, dev, a, p);
    MatchedAgrees(f, dev, b, q);
    StagesDisjoint(v, f, dev, a, b);
  }

  /** The whole rewrite, on every module that it accepts: read again from the
      rewritten words, two resources share a location exactly if they clash, and
      each one that the reflection knows is where the layout and the encoder
      have it. */
  lemma RewrittenResources(words: seq<Word>, out: seq<Word>, info: FunctionInfo, dev: Device, p: Word, q: Word)
    requires Acceptable(words) && info.Valid() && IsGraphics(info.stage)
    requires var targets := Targets(words, Parse(words, HEADER).value);
             && InRange(words, targets) && Moved(words, out, targets, targets.Keys, info, dev)
             && p in targets && q in targets && targets[p].Complete() && targets[q].Complete()
    ensures Parse(out, HEADER).Some?
    ensures var targets := Targets(out, Parse(out, HEADER).value);
            && targets == Targets(words, Parse(words, HEADER).value) && InRange(out, targets)
            && (Before(out, targets[p]) == Before(out, targets[q]) <==> Clash(info, dev, Before(words, targets[p]), Before(words, targets[q])))
            && forall b :: b in info.bindings && !b.VertexInput? && b.slot == Before(words, targets[p]).binding ==>
                             Before(out, targets[p]) == LocationOf(info, b, dev)
  {
    RewriteKeepsStructure(words, out, info, dev);
    var targets := Targets(words, Parse(words, HEADER).value);
    CollisionExactly(info, dev, Before(words, targets[p]), Before(words, targets[q]));
    forall b | b in info.bindings && !b.VertexInput? && b.slot == Before(words, targets[p]).binding
      ensures Before(out, targets[p]) == LocationOf(info, b, dev)
    {
      MatchedAgrees(info, dev, b, Before(words, targets[p]));
    }
  }

  /** In a prepared module every two resources that were apart stay apart. */
  lemma PreparedModulesStayApart(words: seq<Word>, out: seq<Word>, info: FunctionInfo, dev: Device, p: Word, q: Word)
    requires Acceptable(words) && info.Valid() && IsGraphics(info.stage)
    requires var targets := Targets(words, Parse(words, HEADER).value);
             && InRange(words, targets) && Moved(words, out, targets, targets.Keys, info, dev)
             && p in targets && q in targets && targets[p].Complete() && targets[q].Complete()
             && Before(words, targets[p]) != Before(words, targets[q])
             && Before(words, targets[p]).set_ == Before(words, targets[q]).set_ == PreparedSet(info.stage)
    ensures Parse(out, HEADER).Some?
    ensures var targets := Targets(out, Parse(out, HEADER).value);
            && p in targets && q in targets && targets[p].Complete() && targets[q].Complete() && InRange(out, targets)
            && Before(out, targets[p]) != Before(out, targets[q])
  {
    RewrittenResources(words, out, info, dev, p, q);
    var targets := Targets(words, Parse(words, HEADER).value);
    PreparedModulesDoNotCollide(info, dev, Before(words, targets[p]), Before(words, targets[q]));
    CollisionExactly(info, dev, Before(words, targets[p]), Before(words, targets[q]));
  }
}
