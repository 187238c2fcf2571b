/** The offline preparation of translated modules: varyings are renumbered by
    Metal's user semantic, so that independently translated stages link, and
    fragment resources move to their own set. */
module StageInterfaces {
  import opened ShaderBindings
  import opened Wrappers
  import opened SpirvModules

  /** A reflected varying: its compact location and the number in its
      `user(locnN)` semantic, if it has one. */
  datatype Varying = Varying(location: Word, semantic: Option<Word>)

  function Locations(varyings: seq<Varying>): map<Word, Word>
    requires forall v :: v in varyings ==> v.semantic.Some?
  {
    if varyings == [] then map[]
    else Locations(varyings[..|varyings| - 1])[varyings[|varyings| - 1].location := varyings[|varyings| - 1].semantic.value]
  }

  /** The storage class of a stage's interface variables: outputs of a vertex
      function, inputs of a fragment function. */
  function InterfaceClass(stage: Stage): Option<Word> {
    match stage case Vertex => Some(3) case Fragment => Some(1) case Kernel => None
  }

  predicate DeclaresVariable(words: seq<Word>, s: nat) {
    s < |words| && Opcode(words[s]) == OP_VARIABLE && Count(words[s]) >= 4 && s + 3 < |words|
  }

  /** The storage class of every declared variable. */
  function Storage(words: seq<Word>, starts: seq<nat>): map<Word, Word> {
    if starts == [] then map[]
    else
      var before, s := Storage(words, starts[..|starts| - 1]), starts[|starts| - 1];
      if DeclaresVariable(words, s) then before[words[s + 2] := words[s + 3]] else before
  }

  function StorageOf(storage: map<Word, Word>, id: Word): Option<Word> {
    if id in storage then Some(storage[id]) else None
  }

  /** `s` decorates an interface variable of the stage with a location.  A kernel
      has no interface class, which matches exactly the identifiers that no
      variable declares. */
  predicate InterfaceLocation(words: seq<Word>, storage: map<Word, Word>, stage: Stage, s: nat) {
    Decorates(words, s, DECORATE_LOCATION) && StorageOf(storage, words[s + 1]) == InterfaceClass(stage)
  }

  ghost predicate Injective(m: map<Word, Word>) {
    forall a, b :: a in m && b in m && m[a] == m[b] ==> a == b
  }

  /** What the preparation accepts. */
  ghost predicate Accepts(words: seq<Word>, stage: Stage, varyings: seq<Varying>) {
    && |words| >= HEADER && words[0] == MAGIC
    && (forall v :: v in varyings ==> v.semantic.Some?) && Injective(Locations(varyings))
    && Parse(words, HEADER).Some?
    && var starts := Parse(words, HEADER).value;
       forall k :: 0 <= k < |starts| ==> StepAccepts(words, Storage(words, starts), stage, Locations(varyings), starts[k])
  }

  predicate StepAccepts(words: seq<Word>, storage: map<Word, Word>, stage: Stage, locations: map<Word, Word>, s: nat) {
    && (InterfaceLocation(words, storage, stage, s) ==> words[s + 3] in locations)
    && (Decorates(words, s, DECORATE_SET) ==> words[s + 3] == 0)
  }

  /** The new literal of the decoration at `s`. */
  function NewLiteral(words: seq<Word>, storage: map<Word, Word>, stage: Stage, locations: map<Word, Word>, s: nat): Word
    requires s + 3 < |words| && StepAccepts(words, storage, stage, locations, s)
  {
    if InterfaceLocation(words, storage, stage, s) then locations[words[s + 3]]
    else if Decorates(words, s, DECORATE_SET) then (if stage == Fragment then 1 else 0)
    else words[s + 3]
  }

  /** The instruction at `s` was rewritten, if there was anything to rewrite. */
  ghost predicate StepDone(words: seq<Word>, out: seq<Word>, storage: map<Word, Word>, stage: Stage, locations: map<Word, Word>, s: nat)
    requires |out| == |words|
  {
    s + 3 < |words| && Count(words[s]) == 4 && StepAccepts(words, storage, stage, locations, s) ==>
      out[s + 3] == NewLiteral(words, storage, stage, locations, s)
  }

  /** The instructions in `done` were rewritten, and nothing else changed. */
  ghost predicate Prepared(words: seq<Word>, out: seq<Word>, done: seq<nat>, storage: map<Word, Word>, stage: Stage, locations: map<Word, Word>) {
    && |out| == |words|
    && (forall k :: 0 <= k < |done| ==> StepDone(words, out, storage, stage, locations, done[k]))
    && (forall at :: 0 <= at < |words| && !LiteralIn(words, done, at) ==> out[at] == words[at])
  }

  ghost predicate LiteralIn(words: seq<Word>, done: seq<nat>, at: nat) {
    exists k :: 0 <= k < |done| && done[k] < |words| && Count(words[done[k]]) == 4 && at == done[k] + 3
  }

  /** The instructions before word `at` are `starts`. */
  ghost predicate Walked(words: seq<Word>, at: nat, starts: seq<nat>) {
    Parse(words, HEADER) == (match Parse(words, at) case None => None case Some(rest) => Some(starts + rest))
  }

  lemma WalkOn(words: seq<Word>, at: nat, starts: seq<nat>)
    requires Walked(words, at, starts) && at < |words|
    ensures var n := Count(words[at]);
            if n == 0 || at + n > |words| then Parse(words, HEADER).None? else Walked(words, at + n, starts + [at])
  {
    var n := Count(words[at]);
    if n != 0 && at + n <= |words| && Parse(words, at + n).Some? { Regroup(starts, at, Parse(words, at + n).value); }
  }

  /** The first pass: instruction starts and storage classes. */
  method Collect(words: seq<Word>) returns (ok: bool, starts: seq<nat>, storage: map<Word, Word>)
    requires |words| >= HEADER
    ensures ok <==> Parse(words, HEADER).Some?
    ensures ok ==> starts == Parse(words, HEADER).value && storage == Storage(words, starts)
  {
    starts, storage := [], map[];
    var at: nat := HEADER;
    assert Walked(words, at, starts) by {
      match Parse(words, at) case None => case Some(rest) => assert [] + rest == rest;
    }
    while at < |words|
      invariant HEADER <= at <= |words| && storage == Storage(words, starts) && Walked(words, at, starts)
    {
      WalkOn(words, at, starts);
      var n := Count(words[at]);
      if n == 0 || at + n > |words| { return false, starts, storage; }
      if Opcode(words[at]) == OP_VARIABLE && n >= 4 { storage := storage[words[at + 2] := words[at + 3]]; }
      assert (starts + [at])[..|starts|] == starts;
      starts := starts + [at];
      at := at + n;
    }
    assert starts + [] == starts;
    ok := true;
  }

  method CollectLocations(varyings: seq<Varying>) returns (r: Result<map<Word, Word>>)
    ensures r.Ok? <==> (forall v :: v in varyings ==> v.semantic.Some?) && Injective(Locations(varyings))
    ensures r.Ok? ==> r.value == Locations(varyings)
  {
    var locations: map<Word, Word> := map[];
    for i := 0 to |varyings|
      invariant forall k :: 0 <= k < i ==> varyings[k].semantic.Some?
      invariant locations == Locations(varyings[..i])
    {
      if varyings[i].semantic.None? { assert varyings[i] in varyings; return Err; }
      assert varyings[..i + 1][..i] == varyings[..i];
      locations := locations[varyings[i].location := varyings[i].semantic.value];
    }
    assert varyings[..|varyings|] == varyings;
    if |locations.Values| != |locations| { InjectiveCount(locations); return Err; }
    InjectiveCount(locations);
    return Ok(locations);
  }

  lemma {:induction false} InjectiveCount(m: map<Word, Word>)
    ensures |m.Values| <= |m| && (|m.Values| == |m| <==> Injective(m))
    decreases |m|
  {
    if m == map[] {
      assert m.Values == {};
    } else {
      var k :| k in m;
      var rest := m - {k};
      assert m.Keys == rest.Keys + {k};
      assert |m| == |rest| + 1 by { assert |m.Keys| == |m| && |rest.Keys| == |rest|; }
      InjectiveCount(rest);
      if m[k] in rest.Values {
        assert m.Values == rest.Values;
        var a :| a in rest && rest[a] == m[k];
        assert a in m && m[a] == m[k] && a != k;
      } else {
        assert m.Values == rest.Values + {m[k]};
        assert Injective(m) ==> Injective(rest);
        assert forall a :: a in m && a != k ==> a in rest && rest[a] == m[a] && m[a] in rest.Values;
      }
    }
  }

  /** The literal of an instruction that was not rewritten yet. */
  lemma NotYet(words: seq<Word>, out: seq<Word>, starts: seq<nat>, i: nat, storage: map<Word, Word>, stage: Stage, locations: map<Word, Word>, at: nat)
    requires Spaced(words, starts) && i < |starts| && starts[i] <= at < starts[i] + Count(words[starts[i]])
    requires Prepared(words, out, starts[..i], storage, stage, locations)
    ensures at < |out| == |words| && out[at] == words[at]
  {
    assert at < |words|;
    forall j | 0 <= j < i && Count(words[starts[j]]) == 4 ensures at != starts[j] + 3 {
      LiteralApart(words, starts, j, i, at);
    }
  }

  function Step(words: seq<Word>, out: seq<Word>, storage: map<Word, Word>, stage: Stage, locations: map<Word, Word>, s: nat): seq<Word>
    requires |out| == |words| && s < |words| && StepAccepts(words, storage, stage, locations, s)
  {
    if Count(words[s]) == 4 && s + 3 < |words| then out[s + 3 := NewLiteral(words, storage, stage, locations, s)] else out
  }

  lemma PrepareOne(words: seq<Word>, out: seq<Word>, starts: seq<nat>, i: nat, storage: map<Word, Word>, stage: Stage, locations: map<Word, Word>)
    requires Spaced(words, starts) && i < |starts| && Prepared(words, out, starts[..i], storage, stage, locations)
    requires StepAccepts(words, storage, stage, locations, starts[i])
    ensures Prepared(words, Step(words, out, storage, stage, locations, starts[i]), starts[..i + 1], storage, stage, locations)
  {
    hide NewLiteral, StepAccepts;
    var s, done, more := starts[i], starts[..i], starts[..i + 1];
    var next := Step(words, out, storage, stage, locations, s);
    assert more == done + [s];
    forall k | 0 <= k < |more| ensures StepDone(words, next, storage, stage, locations, more[k]) {
      if k < i { assert done[k] == more[k]; StepKept(words, out, next, storage, stage, locations, done[k], s); }
    }
    forall at | 0 <= at < |words| && !LiteralIn(words, more, at) ensures next[at] == words[at] {
      assert more[i] == s;
      assert forall k :: 0 <= k < |done| ==> more[k] == done[k];
    }
  }

  lemma StepKept(words: seq<Word>, out: seq<Word>, next: seq<Word>, storage: map<Word, Word>, stage: Stage, locations: map<Word, Word>, r: nat, s: nat)
    requires |out| == |words| && StepDone(words, out, storage, stage, locations, r)
    requires (r < |words| && Count(words[r]) == 4 ==> r < s) && |next| == |out| && forall at :: 0 <= at < |out| && at != s + 3 ==> next[at] == out[at]
    ensures StepDone(words, next, storage, stage, locations, r)
  {
  }

  /** remap_sets: renumbers the interface by user semantic and moves the
      descriptors of a fragment module from set 0 to set 1. */
  method RemapSets(data: seq<Word>, stage: Stage, varyings: seq<Varying>) returns (r: Result<seq<Word>>)
    ensures r.Ok? <==> Accepts(data, stage, varyings)
    ensures r.Ok? ==> var starts := Parse(data, HEADER).value;
                      Prepared(data, r.value, starts, Storage(data, starts), stage, Locations(varyings))
  {
    hide Injective, Prepared, Storage, Locations;
    if |data| < HEADER || data[0] != MAGIC { return Err; }
    var l := CollectLocations(varyings);
    if l.Err? { return Err; }
    var ok, starts, storage := Collect(data);
    if !ok { return Err; }
    ParseSpaced(data, HEADER);
    var words: seq<Word> := data;
    NothingPrepared(data, storage, stage, l.value);
    assert starts[..0] == [];
    for i := 0 to |starts|
      invariant Prepared(data, words, starts[..i], storage, stage, l.value)
      invariant forall k :: 0 <= k < i ==> StepAccepts(data, storage, stage, l.value, starts[k])
    {
      ok, words := RemapInstruction(data, words, starts, i, storage, stage, l.value);
      if !ok { return Err; }
    }
    assert starts[..|starts|] == starts;
    return Ok(words);
  }

  lemma NothingPrepared(words: seq<Word>, storage: map<Word, Word>, stage: Stage, locations: map<Word, Word>)
    ensures Prepared(words, words, [], storage, stage, locations)
  {
  }

  /** One instruction of the second pass. */
  method RemapInstruction(ghost data: seq<Word>, words: seq<Word>, starts: seq<nat>, i: nat, storage: map<Word, Word>, stage: Stage, locations: map<Word, Word>)
    returns (ok: bool, out: seq<Word>)
    requires Spaced(data, starts) && i < |starts| && Prepared(data, words, starts[..i], storage, stage, locations)
    ensures ok <==> StepAccepts(data, storage, stage, locations, starts[i])
    ensures ok ==> Prepared(data, out, starts[..i + 1], storage, stage, locations)
  {
    hide Prepared, LiteralIn;
    var at := starts[i];
    out := words;
    Unchanged(data, words, starts, i, storage, stage, locations);
    if Count(words[at]) == 4 && Opcode(words[at]) == OP_DECORATE {
      if words[at + 2] == DECORATE_LOCATION && StorageOf(storage, words[at + 1]) == InterfaceClass(stage) {
        if words[at + 3] !in locations { return false, out; }
        out := out[at + 3 := locations[words[at + 3]]];
      }
      if words[at + 2] == DECORATE_SET {
        if words[at + 3] != 0 { return false, out; }
        out := out[at + 3 := if stage == Fragment then 1 else 0];
      }
    }
    PrepareOne(data, words, starts, i, storage, stage, locations);
    assert out == Step(data, words, storage, stage, locations, at);
    return true, out;
  }

  lemma Unchanged(words: seq<Word>, out: seq<Word>, starts: seq<nat>, i: nat, storage: map<Word, Word>, stage: Stage, locations: map<Word, Word>)
    requires Spaced(words, starts) && i < |starts| && Prepared(words, out, starts[..i], storage, stage, locations)
    ensures starts[i] < |out| == |words| && out[starts[i]] == words[starts[i]]
    ensures Count(words[starts[i]]) == 4 ==>
              var s := starts[i]; s + 3 < |out| && out[s + 1] == words[s + 1] && out[s + 2] == words[s + 2] && out[s + 3] == words[s + 3]
  {
    if Count(words[starts[i]]) == 4 {
      NotYet(words, out, starts, i, storage, stage, locations, starts[i] + 1);
      NotYet(words, out, starts, i, storage, stage, locations, starts[i] + 2);
      NotYet(words, out, starts, i, storage, stage, locations, starts[i] + 3);
    }
    forall j | 0 <= j < i && Count(words[starts[j]]) == 4 ensures starts[i] != starts[j] + 3 { assert starts[j] + 4 <= starts[i]; }
  }

  // ------------------------------------------------------- what this achieves

  /** Two stages link: a vertex output and a fragment input have the same
      location after the preparation exactly when Metal gave them the same
      semantic, whatever compact locations the translator chose. */
  lemma StagesLinkBySemantic(v: seq<Word>, vOut: seq<Word>, vVaryings: seq<Varying>, f: seq<Word>, fOut: seq<Word>, fVaryings: seq<Varying>, s: nat, t: nat)
    requires Accepts(v, Vertex, vVaryings) && Accepts(f, Fragment, fVaryings)
    requires var starts := Parse(v, HEADER).value;
             && Prepared(v, vOut, starts, Storage(v, starts), Vertex, Locations(vVaryings)) && s in starts
             && InterfaceLocation(v, Storage(v, starts), Vertex, s)
    requires var starts := Parse(f, HEADER).value;
             && Prepared(f, fOut, starts, Storage(f, starts), Fragment, Locations(fVaryings)) && t in starts
             && InterfaceLocation(f, Storage(f, starts), Fragment, t)
    ensures v[s + 3] in Locations(vVaryings) && f[t + 3] in Locations(fVaryings)
    ensures vOut[s + 3] == fOut[t + 3] <==> Locations(vVaryings)[v[s + 3]] == Locations(fVaryings)[f[t + 3]]
  {
    InterfaceMoved(v, vOut, Vertex, vVaryings, s);
    InterfaceMoved(f, fOut, Fragment, fVaryings, t);
  }

  lemma InterfaceMoved(words: seq<Word>, out: seq<Word>, stage: Stage, varyings: seq<Varying>, s: nat)
    requires Accepts(words, stage, varyings)
    requires var starts := Parse(words, HEADER).value;
             && Prepared(words, out, starts, Storage(words, starts), stage, Locations(varyings)) && s in starts
             && InterfaceLocation(words, Storage(words, starts), stage, s)
    ensures |out| == |words| && words[s + 3] in Locations(varyings) && out[s + 3] == Locations(varyings)[words[s + 3]]
  {
    var starts := Parse(words, HEADER).value;
    var k :| 0 <= k < |starts| && starts[k] == s;
    assert StepAccepts(words, Storage(words, starts), stage, Locations(varyings), starts[k]);
    assert StepDone(words, out, Storage(words, starts), stage, Locations(varyings), starts[k]);
  }

  /** Within one stage different locations stay different. */
  lemma InterfaceStaysDistinct(words: seq<Word>, out: seq<Word>, stage: Stage, varyings: seq<Varying>, s: nat, t: nat)
    requires Accepts(words, stage, varyings)
    requires var starts := Parse(words, HEADER).value;
             && Prepared(words, out, starts, Storage(words, starts), stage, Locations(varyings)) && s in starts && t in starts
             && InterfaceLocation(words, Storage(words, starts), stage, s) && InterfaceLocation(words, Storage(words, starts), stage, t)
    ensures out[s + 3] == out[t + 3] <==> words[s + 3] == words[t + 3]
  {
    InterfaceMoved(words, out, stage, varyings, s);
    InterfaceMoved(words, out, stage, varyings, t);
  }

  /** A location means the semantic of the varying reflected there. */
  lemma {:induction false} LocationsMeanSemantics(varyings: seq<Varying>, v: Varying)
    requires (forall x :: x in varyings ==> x.semantic.Some?) && v in varyings
    requires forall i, j :: 0 <= i < j < |varyings| ==> varyings[i].location != varyings[j].location
    ensures v.location in Locations(varyings) && Some(Locations(varyings)[v.location]) == v.semantic
  {
    var init, last := varyings[..|varyings| - 1], varyings[|varyings| - 1];
    if v != last {
      LocationsMeanSemantics(init, v);
      var k :| 0 <= k < |init| && init[k] == v;
      assert varyings[k] == v;
    }
  }

  /** Every descriptor of a prepared module is in the set of its stage. */
  lemma DescriptorsInOneSet(words: seq<Word>, out: seq<Word>, stage: Stage, varyings: seq<Varying>, s: nat)
    requires Accepts(words, stage, varyings)
    requires var starts := Parse(words, HEADER).value;
             Prepared(words, out, starts, Storage(words, starts), stage, Locations(varyings)) && s in starts && Decorates(words, s, DECORATE_SET)
    ensures |out| == |words| && out[s + 3] == if stage == Fragment then 1 else 0
  {
    var starts := Parse(words, HEADER).value;
    var k :| 0 <= k < |starts| && starts[k] == s;
    assert StepAccepts(words, Storage(words, starts), stage, Locations(varyings), starts[k]);
    assert StepDone(words, out, Storage(words, starts), stage, Locations(varyings), starts[k]);
  }
}
