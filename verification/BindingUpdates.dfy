/** What the driver has recorded as bound for the next draw. */
module CommandStreams {
  import opened ShaderBindings
  import opened Wrappers
  import opened DescriptorPlans
  import opened DescriptorArenas

  datatype Stream = Stream(owner: Option<Id>, pushed: map<nat, View>, sets: seq<Option<SetId>>,
                           offsets: seq<seq<nat>>, vertex: seq<BufferArg>) {
    /** Binding through another pipeline layout may disturb everything bound
        through the previous one; the model assumes that it always does. */
    function Rebase(p: Id): Stream {
      if owner == Some(p) then this else Stream(Some(p), map[], [None, None], [[], []], vertex)
    }

    function Push(p: Id, writes: seq<(nat, View)>): Stream {
      var r := Rebase(p);
      r.(pushed := PushAll(r.pushed, writes))
    }

    function BindSet(p: Id, stage: nat, s: SetId, dynamic: seq<nat>): Stream
      requires stage < 2 && |sets| == 2 && |offsets| == 2
    {
      var r := Rebase(p);
      r.(sets := r.sets[stage := Some(s)], offsets := r.offsets[stage := dynamic])
    }

    function BindVertex(args: seq<BufferArg>): Stream {
      this.(vertex := args + if |args| < |vertex| then vertex[|args|..] else [])
    }
  }

  function PushAll(pushed: map<nat, View>, writes: seq<(nat, View)>): map<nat, View> {
    if writes == [] then pushed
    else PushAll(pushed, writes[..|writes| - 1])[writes[|writes| - 1].0 := writes[|writes| - 1].1]
  }

  const EMPTY_STREAM := Stream(None, map[], [None, None], [[], []], [])
}

/** The incremental update of descriptors before a draw: what is bound, what the
    dirty bits promise, and one stage's step from the last bound arguments to
    the current ones. */
module BindingUpdates {
  import opened ShaderBindings
  import opened Wrappers
  import opened ObjectLifetimes
  import opened DescriptorPlans
  import opened DescriptorArenas
  import opened CommandStreams

  /** One stage's argument tables and dirty bits, and what was last bound for it. */
  datatype StageState = StageState(
    tables: Tables, inlines: seq<InlineRange>,
    dirtyBuffers: bool, dirtyTextures: bool, dirtySamplers: bool,
    bound: Tables, set_: Option<SetId>, key: seq<nat>, dynamicOffsets: seq<nat>)
  {
    predicate Dirty() { dirtyBuffers || dirtyTextures || dirtySamplers }

    function AllDirty(): StageState { this.(dirtyBuffers := true, dirtyTextures := true, dirtySamplers := true) }
  }

  const NO_TABLES := Tables([], [], [])
  const INITIAL_STAGE := StageState(NO_TABLES, [], true, true, true, NO_TABLES, None, [], [])

  // ------------------------------------------------------------------ tables

  function Placed<T>(s: seq<T>, i: nat, x: T, empty: T): (r: seq<T>)
    ensures |r| == (if i < |s| then |s| else i + 1) && r[i] == x
  {
    if i < |s| then s[i := x] else s + seq(i - |s|, _ => empty) + [x]
  }

  const NO_BUFFER := BufferArg(None, 0)

  /** The same objects in the same slots; buffer offsets may differ. */
  ghost predicate SameObjects(a: Tables, b: Tables) {
    SameBuffers(a.buffers, b.buffers) && a.textures == b.textures && a.samplers == b.samplers
  }

  ghost predicate SameBuffers(a: seq<BufferArg>, b: seq<BufferArg>) {
    |a| == |b| && forall i :: 0 <= i < |a| ==> a[i].buffer == b[i].buffer
  }

  ghost predicate NoLonger(a: Tables, b: Tables) {
    |a.buffers| <= |b.buffers| && |a.textures| <= |b.textures| && |a.samplers| <= |b.samplers|
  }

  ghost predicate InlinesOk(inlines: seq<InlineRange>) {
    forall i :: 0 <= i < |inlines| && inlines[i].buffer.Some? ==> inlines[i].length > 0
  }

  // ---------------------------------------------------------- what is bound

  ghost predicate UsedSet(entries: seq<Entry>, s: SetId) {
    exists i :: 0 <= i < |entries| && entries[i].used && entries[i].set_ == Some(s)
  }

  /** Stage `s` of the stream holds exactly what `a` needs, and the stage's
      bookkeeping describes it. */
  ghost predicate StageBound(p: Id, s: nat, a: Args, entries: seq<Entry>, contents: map<SetId, SetContents>, stream: Stream, st: StageState)
    requires s < 2 && |stream.sets| == 2 && |stream.offsets| == 2
  {
    && a.Complete()
    && PushesShown(a, stream)
    && (a.Plan(a.info.bindings) != [] ==> SetShown(s, a, entries, contents, stream, st))
    && (HasDescriptors(a.info) ==> stream.owner == Some(p))
  }

  ghost predicate HasDescriptors(info: FunctionInfo) {
    exists b :: b in info.bindings && !b.VertexInput?
  }

  ghost predicate PushesShown(a: Args, stream: Stream)
    requires a.Complete()
  {
    PushesBuffers(a.info, a.dev) ==>
      forall b :: b in a.info.bindings && b.Buffer? ==>
                    PushedBinding(a.info.stage, b.slot) in stream.pushed && stream.pushed[PushedBinding(a.info.stage, b.slot)] == a.ViewOf(b)
  }

  ghost predicate SetShown(s: nat, a: Args, entries: seq<Entry>, contents: map<SetId, SetContents>, stream: Stream, st: StageState)
    requires s < 2 && |stream.sets| == 2 && |stream.offsets| == 2 && a.Complete()
  {
    var plan := a.Plan(a.info.bindings);
    && st.set_.Some? && stream.sets[s] == st.set_ && UsedSet(entries, st.set_.value)
    && st.set_.value in contents && contents[st.set_.value] == ContentsOf(plan)
    && Known(a.h, plan) && st.key == KeyOf(a.h, plan)
    && st.dynamicOffsets == stream.offsets[s] == Values(SortOffsets(a.Offsets(a.info.bindings)))
  }

  function VertexArg(tables: Tables, index: nat): BufferArg {
    if index < |tables.buffers| then tables.buffers[index] else NO_BUFFER
  }

  function VertexArgs(tables: Tables, inputs: seq<nat>): seq<BufferArg> {
    seq(|inputs|, i requires 0 <= i < |inputs| => VertexArg(tables, inputs[i]))
  }

  ghost predicate VertexShown(tables: Tables, inputs: seq<nat>, vertex: seq<BufferArg>) {
    |inputs| <= |vertex| && vertex[..|inputs|] == VertexArgs(tables, inputs)
  }

  // --------------------------------------------------------- recorded draws

  /** A recorded draw: the bound state it will execute with, and the arguments
      that were current when it was recorded. */
  datatype Draw = Draw(pso: Id, inputs: seq<nat>, args: seq<Args>, bound: Stream)

  /** Executed against the set memory `contents`, the draw sees for every
      resource what a binder that rewrites everything before each draw shows. */
  ghost predicate DrawShows(d: Draw, contents: map<SetId, SetContents>) {
    && |d.args| == 2 && |d.bound.sets| == 2 && |d.bound.offsets| == 2
    && (forall s, b :: 0 <= s < 2 && b in d.args[s].info.bindings && !b.VertexInput? ==> BindingShown(d, s, b, contents))
    && VertexShown(d.args[0].tables, d.inputs, d.bound.vertex)
  }

  ghost predicate BindingShown(d: Draw, s: nat, b: Binding, contents: map<SetId, SetContents>)
    requires s < 2 && |d.args| == 2 && |d.bound.sets| == 2 && |d.bound.offsets| == 2 && !b.VertexInput?
  {
    var a := d.args[s];
    var at := LocationOf(a.info, b, a.dev);
    && a.Bindable(b)
    && if at.set_ == 0 then at.binding in d.bound.pushed && d.bound.pushed[at.binding] == a.ViewOf(b)
       else
         && at.set_ == 1 + s && d.bound.sets[s].Some? && d.bound.sets[s].value in contents
         && EffectiveView(contents[d.bound.sets[s].value], d.bound.offsets[s], at.binding) == Some(a.ViewOf(b))
  }

  /** The sets a draw reads belong to entries in use, which are never rewritten. */
  ghost predicate DrawPinned(d: Draw, entries: seq<Entry>) {
    && |d.args| == 2 && |d.bound.sets| == 2
    && forall s :: 0 <= s < 2 && OwnsSet(d.args[s]) && d.bound.sets[s].Some? ==> UsedSet(entries, d.bound.sets[s].value)
  }

  ghost predicate OwnsSet(a: Args) {
    exists b :: b in a.info.bindings && Owned(a.info, b, a.dev)
  }

  lemma {:induction false} PlanEmptyIff(a: Args, bs: seq<Binding>)
    requires forall b :: b in bs && Owned(a.info, b, a.dev) ==> a.Bindable(b)
    ensures a.Plan(bs) != [] <==> exists b :: b in bs && Owned(a.info, b, a.dev)
  {
    if a.Plan(bs) != [] { PlanFrom(a, bs); assert a.Plan(bs)[0] in a.Plan(bs); }
    if b :| b in bs && Owned(a.info, b, a.dev) { PlanHas(a, bs, b); }
  }

  /** From the encoder's bookkeeping to what the shaders see. */
  lemma BoundShows(d: Draw, p: Pipeline, entries: seq<Entry>, contents: map<SetId, SetContents>, sts: seq<StageState>)
    requires p.Valid() && |d.args| == 2 && |sts| == 2 && |d.bound.sets| == 2 && |d.bound.offsets| == 2
    requires forall s :: 0 <= s < 2 ==> d.args[s].info == p.functions[s] && StageBound(d.pso, s, d.args[s], entries, contents, d.bound, sts[s])
    requires VertexShown(d.args[0].tables, d.inputs, d.bound.vertex)
    ensures DrawShows(d, contents) && DrawPinned(d, entries)
  {
    forall s, b | 0 <= s < 2 && b in d.args[s].info.bindings && !b.VertexInput? ensures BindingShown(d, s, b, contents) {
      var a := d.args[s];
      assert StageBound(d.pso, s, a, entries, contents, d.bound, sts[s]);
      if Owned(a.info, b, a.dev) {
        PlanEmptyIff(a, a.info.bindings);
        PlanShows(a, b);
      }
    }
    forall s | 0 <= s < 2 && OwnsSet(d.args[s]) ensures d.bound.sets[s].Some? && UsedSet(entries, d.bound.sets[s].value) {
      assert StageBound(d.pso, s, d.args[s], entries, contents, d.bound, sts[s]);
      PlanEmptyIff(d.args[s], d.args[s].info.bindings);
    }
  }

  lemma UsedPreserved(before: seq<Entry>, after: seq<Entry>, was: map<SetId, SetContents>, is_: map<SetId, SetContents>, x: SetId)
    requires Preserved(before, after, was, is_) && UsedSet(before, x)
    ensures UsedSet(after, x) && (x in was ==> x in is_ && is_[x] == was[x])
  {
    var i :| 0 <= i < |before| && before[i].used && before[i].set_ == Some(x);
    assert after[i] == before[i];
  }

  /** Later work in the same recording leaves earlier draws alone. */
  lemma DrawPreserved(d: Draw, before: seq<Entry>, after: seq<Entry>, was: map<SetId, SetContents>, is_: map<SetId, SetContents>)
    requires Preserved(before, after, was, is_) && DrawShows(d, was) && DrawPinned(d, before)
    ensures DrawShows(d, is_) && DrawPinned(d, after)
  {
    forall s | 0 <= s < 2 && OwnsSet(d.args[s]) && d.bound.sets[s].Some? ensures UsedSet(after, d.bound.sets[s].value) {
      UsedPreserved(before, after, was, is_, d.bound.sets[s].value);
    }
    forall s, b | 0 <= s < 2 && b in d.args[s].info.bindings && !b.VertexInput? ensures BindingShown(d, s, b, is_) {
      assert BindingShown(d, s, b, was);
      if Owned(d.args[s].info, b, d.args[s].dev) {
        assert OwnsSet(d.args[s]);
        UsedPreserved(before, after, was, is_, d.bound.sets[s].value);
      }
    }
  }

  // ------------------------------------------------------ collecting a stage

  lemma KeySnoc(h: Heap, plan: seq<Planned>, w: Planned)
    requires Known(h, plan) && ResourceOf(w.descriptor) in h.objects
    ensures Known(h, plan + [w]) && KeyOf(h, plan + [w]) == KeyOf(h, plan) + KeyWords(h, w)
  {
    assert (plan + [w])[..|plan|] == plan;
  }

  /** Whether an update examines a binding at all. */
  predicate Checked(b: Binding, pushed: bool, dirtyBuffers: bool, updateSet: bool) {
    match b
    case Buffer(_, _) => !pushed || dirtyBuffers
    case VertexInput(_) => false
    case _ => updateSet
  }

  /** The key of a stage after the first `n` bindings. */
  ghost predicate KeyGathered(a: Args, n: nat, key: seq<nat>, ownSet: bool)
    requires n <= |a.info.bindings|
  {
    var bs := a.info.bindings[..n];
    && (forall b :: b in bs && Owned(a.info, b, a.dev) ==> a.Bindable(b))
    && Known(a.h, a.Plan(bs)) && key == KeyOf(a.h, a.Plan(bs)) && ownSet == (a.Plan(bs) != [])
  }

  ghost predicate OffsetsGathered(a: Args, n: nat, offs: seq<(nat, nat)>)
    requires n <= |a.info.bindings|
  {
    offs == a.Offsets(a.info.bindings[..n])
  }

  ghost predicate RangesGathered(a: Args, n: nat, ranges: seq<nat>)
    requires n <= |a.info.bindings|
  {
    && |ranges| == |a.tables.buffers|
    && forall k :: 0 <= k < n && a.info.bindings[k].Buffer? && Owned(a.info, a.info.bindings[k], a.dev) ==>
                     a.Bindable(a.info.bindings[k]) && ranges[a.info.bindings[k].index] == a.Size(a.info.bindings[k].index)
  }

  lemma SnocMembers(bs: seq<Binding>, b: Binding, more: seq<Binding>)
    requires |more| == |bs| + 1 && more[..|bs|] == bs && more[|bs|] == b
    ensures forall c :: c in more <==> c in bs || c == b
  {
    assert more == bs + [b];
  }

  lemma GatherKey(a: Args, n: nat, key: seq<nat>, ownSet: bool)
    requires a.Valid() && n < |a.info.bindings| && KeyGathered(a, n, key, ownSet)
    requires Owned(a.info, a.info.bindings[n], a.dev) ==> a.Bindable(a.info.bindings[n])
    ensures var b := a.info.bindings[n];
            if Owned(a.info, b, a.dev)
            then ResourceOf(a.Describe(b)) in a.h.objects && KeyGathered(a, n + 1, key + KeyWords(a.h, Planned(b.slot, a.Describe(b))), true)
            else KeyGathered(a, n + 1, key, ownSet)
  {
    var b := a.info.bindings[n];
    var bs, more := a.info.bindings[..n], a.info.bindings[..n + 1];
    assert more[..n] == bs && more[n] == b;
    SnocMembers(bs, b, more);
    if Owned(a.info, b, a.dev) {
      DescribedLive(a, b);
      KeySnoc(a.h, a.Plan(bs), Planned(b.slot, a.Describe(b)));
      assert a.Plan(more) == a.Plan(bs) + [Planned(b.slot, a.Describe(b))];
    } else {
      assert a.Plan(more) == a.Plan(bs);
    }
  }

  lemma GatherOffsets(a: Args, n: nat, offs: seq<(nat, nat)>)
    requires n < |a.info.bindings| && OffsetsGathered(a, n, offs)
    ensures var b := a.info.bindings[n];
            OffsetsGathered(a, n + 1, offs + if a.Dynamic(b) then [(b.slot, a.OffsetOf(b))] else [])
  {
    var bs, more := a.info.bindings[..n], a.info.bindings[..n + 1];
    assert more[..n] == bs;
  }

  ghost predicate PushesGathered(a: Args, n: nat, pushes: seq<(nat, View)>)
    requires n <= |a.info.bindings|
  {
    var bs := a.info.bindings[..n];
    (forall b :: b in bs && b.Buffer? ==> a.Bindable(b)) && pushes == a.Pushes(bs)
  }

  lemma GatherPush(a: Args, n: nat, pushes: seq<(nat, View)>)
    requires n < |a.info.bindings| && PushesGathered(a, n, pushes)
    requires a.info.bindings[n].Buffer? ==> a.Bindable(a.info.bindings[n])
    ensures var b := a.info.bindings[n];
            PushesGathered(a, n + 1, pushes + if b.Buffer? then [(PushedBinding(a.info.stage, b.slot), a.ViewOf(b))] else [])
  {
    var b := a.info.bindings[n];
    var bs, more := a.info.bindings[..n], a.info.bindings[..n + 1];
    assert more[..n] == bs && more[n] == b;
    assert forall c :: c in more <==> c in bs || c == b by { assert more == bs + [b]; }
  }

  /** The words that one owned binding contributes to the key. */
  method WordsOf(a: Args, b: Binding) returns (words: seq<nat>)
    requires a.Valid() && Owned(a.info, b, a.dev) && a.Bindable(b)
    ensures ResourceOf(a.Describe(b)) in a.h.objects && words == KeyWords(a.h, Planned(b.slot, a.Describe(b)))
  {
    DescribedLive(a, b);
    match b
    case Buffer(index, slot) =>
      var arg := a.tables.buffers[index];
      words := [slot, a.h.objects[arg.buffer.value].address, if DynamicBuffer(a.info, slot, a.dev) then 0 else arg.offset, a.Size(index)];
    case Texture(index, slot, _) => words := [slot, a.h.objects[a.tables.textures[index].value].address];
    case Sampler(index, slot) => words := [slot, a.h.objects[a.tables.samplers[index].value].address];
    case EmbeddedSampler(which, slot) => words := [slot, a.h.objects[a.info.embedded[which]].address];
  }

  /** One binding's contribution to the stage's own set. */
  method GatherOne(a: Args, i: nat, key0: seq<nat>, ranges0: seq<nat>, offs0: seq<(nat, nat)>, ownSet0: bool)
    returns (key: seq<nat>, ranges: seq<nat>, offs: seq<(nat, nat)>, ownSet: bool)
    requires a.Valid() && i < |a.info.bindings|
    requires Owned(a.info, a.info.bindings[i], a.dev) ==> a.Bindable(a.info.bindings[i])
    requires KeyGathered(a, i, key0, ownSet0) && OffsetsGathered(a, i, offs0) && RangesGathered(a, i, ranges0)
    ensures KeyGathered(a, i + 1, key, ownSet) && OffsetsGathered(a, i + 1, offs) && RangesGathered(a, i + 1, ranges)
  {
    key, ranges, offs, ownSet := key0, ranges0, offs0, ownSet0;
    GatherKey(a, i, key, ownSet);
    GatherOffsets(a, i, offs);
    var b := a.info.bindings[i];
    if Owned(a.info, b, a.dev) {
      var words := WordsOf(a, b);
      key := key + words;
      ownSet := true;
      if b.Buffer? {
        ranges := ranges[b.index := a.Size(b.index)];
        if DynamicBuffer(a.info, b.slot, a.dev) { offs := offs + [(b.slot, a.tables.buffers[b.index].offset)]; }
      }
    }
  }

  /** The scan over a stage's reflected bindings.  Pushed buffers are skipped
      unless a buffer changed, textures and samplers unless the set is updated;
      `ok` is false exactly when an examined binding cannot be bound. */
  method Collect(a: Args, pushed: bool, dirtyBuffers: bool, updateSet: bool)
    returns (ok: bool, key: seq<nat>, ranges: seq<nat>, offs: seq<(nat, nat)>, pushes: seq<(nat, View)>, ownSet: bool)
    requires a.Valid() && pushed == PushesBuffers(a.info, a.dev) && (pushed || updateSet)
    ensures ok <==> forall b :: b in a.info.bindings && Checked(b, pushed, dirtyBuffers, updateSet) ==> a.Bindable(b)
    ensures ok && updateSet ==> KeyGathered(a, |a.info.bindings|, key, ownSet) && OffsetsGathered(a, |a.info.bindings|, offs)
                                && RangesGathered(a, |a.info.bindings|, ranges)
    ensures !updateSet ==> !ownSet
    ensures ok && pushed && dirtyBuffers ==> PushesGathered(a, |a.info.bindings|, pushes)
    ensures !(pushed && dirtyBuffers) ==> pushes == []
  {
    ok, key, offs, pushes, ownSet := true, [], [], [], false;
    ranges := seq(|a.tables.buffers|, _ => 0);
    var bs := a.info.bindings;
    for i := 0 to |bs|
      invariant forall k :: 0 <= k < i && Checked(bs[k], pushed, dirtyBuffers, updateSet) ==> a.Bindable(bs[k])
      invariant updateSet ==> KeyGathered(a, i, key, ownSet) && OffsetsGathered(a, i, offs) && RangesGathered(a, i, ranges)
      invariant !updateSet ==> !ownSet
      invariant pushed && dirtyBuffers ==> PushesGathered(a, i, pushes)
      invariant !(pushed && dirtyBuffers) ==> pushes == []
    {
      var b := bs[i];
      if Checked(b, pushed, dirtyBuffers, updateSet) && !a.Bindable(b) { assert b in bs; ok := false; return; }
      if updateSet { key, ranges, offs, ownSet := GatherOne(a, i, key, ranges, offs, ownSet); }
      if pushed && dirtyBuffers {
        GatherPush(a, i, pushes);
        if b.Buffer? { pushes := pushes + [(PushedBinding(a.info.stage, b.slot), a.ViewOf(b))]; }
      }
    }
  }

  // ------------------------------------------------- one stage of an update

  /** What the stage's dirty bits promise about the last completed update. */
  ghost predicate Tracked(st: StageState, last: Tables, lastInlines: seq<InlineRange>) {
    && (!st.dirtyBuffers ==> st.tables.buffers == last.buffers && st.inlines == lastInlines)
    && (!st.dirtyTextures ==> st.tables.textures == last.textures)
    && (!st.dirtySamplers ==> st.tables.samplers == last.samplers)
  }

  /** The update's decision to look at textures and samplers. */
  predicate UpdatesSet(pushed: bool, psoChanged: bool, st: StageState) {
    !pushed || psoChanged || st.dirtyTextures || st.dirtySamplers
  }

  /** `a` is the stage's current arguments, `l` the ones of the last update. */
  ghost predicate StageArgs(a: Args, l: Args, st: StageState, psoChanged: bool) {
    && a.Valid() && l.Valid() && a.h == l.h && a.dev == l.dev
    && a.tables == st.tables && a.inlines == st.inlines
    && Tracked(st, l.tables, l.inlines)
    && (psoChanged ==> st.dirtyBuffers && st.dirtyTextures && st.dirtySamplers)
    && (!psoChanged ==> a.info == l.info && l.Complete())
  }

  lemma CompleteNow(a: Args, l: Args, st: StageState, psoChanged: bool)
    requires StageArgs(a, l, st, psoChanged)
    requires var pushed := PushesBuffers(a.info, a.dev);
             forall b :: b in a.info.bindings && Checked(b, pushed, st.dirtyBuffers, UpdatesSet(pushed, psoChanged, st)) ==> a.Bindable(b)
    ensures a.Complete()
  {
    var pushed := PushesBuffers(a.info, a.dev);
    forall b | b in a.info.bindings && !Checked(b, pushed, st.dirtyBuffers, UpdatesSet(pushed, psoChanged, st)) ensures a.Bindable(b) {
      if !b.VertexInput? { assert l.Bindable(b); }
    }
  }

  lemma {:induction false} PushedValue(a: Args, bs: seq<Binding>, pushed: map<nat, View>, b: Binding)
    requires forall c :: c in bs && c.Buffer? ==> a.Bindable(c)
    requires DistinctSlots(bs) && b in bs && b.Buffer?
    ensures var all := PushAll(pushed, a.Pushes(bs)); var at := PushedBinding(a.info.stage, b.slot);
            at in all && all[at] == a.ViewOf(b)
  {
    var init, c := bs[..|bs| - 1], bs[|bs| - 1];
    if c.Buffer? { assert a.Pushes(bs)[..|a.Pushes(bs)| - 1] == a.Pushes(init); } else { assert a.Pushes(bs) == a.Pushes(init); }
    if b != c {
      PushedValue(a, init, pushed, b);
      var k :| 0 <= k < |init| && init[k] == b;
      assert bs[k] == b;
    }
  }

  lemma {:induction false} PushedElsewhere(a: Args, bs: seq<Binding>, pushed: map<nat, View>, at: nat)
    requires forall c :: c in bs && c.Buffer? ==> a.Bindable(c)
    requires forall c :: c in bs && c.Buffer? ==> at != PushedBinding(a.info.stage, c.slot)
    requires at in pushed
    ensures var all := PushAll(pushed, a.Pushes(bs)); at in all && all[at] == pushed[at]
  {
    if bs != [] {
      var init, c := bs[..|bs| - 1], bs[|bs| - 1];
      PushedElsewhere(a, init, pushed, at);
      if c.Buffer? { assert a.Pushes(bs)[..|a.Pushes(bs)| - 1] == a.Pushes(init); } else { assert a.Pushes(bs) == a.Pushes(init); }
    }
  }

  ghost predicate StreamOk(stream: Stream) {
    |stream.sets| == 2 && |stream.offsets| == 2
  }

  /** The buffers of this stage after its pushes. */
  lemma PushesNow(p: Id, a: Args, l: Args, st: StageState, psoChanged: bool, stream: Stream, pushes: seq<(nat, View)>)
    requires StageArgs(a, l, st, psoChanged) && a.Complete() && PushesBuffers(a.info, a.dev)
    requires st.dirtyBuffers ==> PushesGathered(a, |a.info.bindings|, pushes)
    requires !st.dirtyBuffers ==> pushes == []
    requires !psoChanged ==> PushesShown(l, stream) && (HasDescriptors(l.info) ==> stream.owner == Some(p))
    ensures PushesShown(a, if pushes != [] then stream.Push(p, pushes) else stream)
  {
    var bs := a.info.bindings;
    var next := if pushes != [] then stream.Push(p, pushes) else stream;
    assert bs[..|bs|] == bs;
    forall b | b in bs && b.Buffer?
      ensures PushedBinding(a.info.stage, b.slot) in next.pushed && next.pushed[PushedBinding(a.info.stage, b.slot)] == a.ViewOf(b)
    {
      if st.dirtyBuffers {
        assert pushes != [] by { PushesNonEmpty(a, bs, b); }
        PushedValue(a, bs, stream.Rebase(p).pushed, b);
      } else {
        assert l.Bindable(b);
      }
    }
  }

  lemma {:induction false} PushesNonEmpty(a: Args, bs: seq<Binding>, b: Binding)
    requires forall c :: c in bs && c.Buffer? ==> a.Bindable(c)
    requires b in bs && b.Buffer?
    ensures a.Pushes(bs) != []
  {
    if b != bs[|bs| - 1] { PushesNonEmpty(a, bs[..|bs| - 1], b); }
  }

  /** The stream still shows stage `t`, given what it showed before. */
  ghost predicate StreamKeeps(p: Id, t: nat, a: Args, was: Stream, is_: Stream)
    requires t < 2 && StreamOk(was) && StreamOk(is_)
  {
    HasDescriptors(a.info) ==>
      && is_.owner == Some(p) && is_.sets[t] == was.sets[t] && is_.offsets[t] == was.offsets[t]
      && forall b :: b in a.info.bindings && b.Buffer? && PushesBuffers(a.info, a.dev) && PushedBinding(a.info.stage, b.slot) in was.pushed ==>
           && PushedBinding(a.info.stage, b.slot) in is_.pushed
           && is_.pushed[PushedBinding(a.info.stage, b.slot)] == was.pushed[PushedBinding(a.info.stage, b.slot)]
  }

  lemma StageKept(p: Id, t: nat, a: Args, st: StageState, before: seq<Entry>, after: seq<Entry>,
                  was: map<SetId, SetContents>, is_: map<SetId, SetContents>, stream: Stream, next: Stream)
    requires t < 2 && StreamOk(stream) && StreamOk(next)
    requires StageBound(p, t, a, before, was, stream, st)
    requires Preserved(before, after, was, is_) && StreamKeeps(p, t, a, stream, next)
    ensures StageBound(p, t, a, after, is_, next, st)
  {
    if a.Plan(a.info.bindings) != [] {
      PlanEmptyIff(a, a.info.bindings);
      UsedPreserved(before, after, was, is_, st.set_.value);
    }
    if PushesBuffers(a.info, a.dev) {
      forall b | b in a.info.bindings && b.Buffer?
        ensures PushedBinding(a.info.stage, b.slot) in next.pushed && next.pushed[PushedBinding(a.info.stage, b.slot)] == a.ViewOf(b)
      {
        assert HasDescriptors(a.info);
      }
    }
  }

  /** One stage's pushes leave the other stage's buffers alone. */
  lemma PushKeepsOther(p: Id, t: nat, other: Args, a: Args, stream: Stream, pushes: seq<(nat, View)>)
    requires t < 2 && StreamOk(stream)
    requires a.Complete() && PushesGathered(a, |a.info.bindings|, pushes) && PushesBuffers(a.info, a.dev)
    requires {a.info.stage, other.info.stage} == {Vertex, Fragment}
    requires HasDescriptors(other.info) ==> stream.owner == Some(p)
    ensures StreamKeeps(p, t, other, stream, stream.Push(p, pushes))
  {
    var bs := a.info.bindings;
    assert bs[..|bs|] == bs;
    forall b | b in other.info.bindings && b.Buffer? && PushesBuffers(other.info, other.dev)
               && PushedBinding(other.info.stage, b.slot) in stream.pushed && HasDescriptors(other.info)
      ensures var at := PushedBinding(other.info.stage, b.slot); var next := stream.Push(p, pushes);
              at in next.pushed && next.pushed[at] == stream.pushed[at]
    {
      PushedElsewhere(a, bs, stream.pushed, PushedBinding(other.info.stage, b.slot));
    }
  }

  /** Textures and samplers did not change, so neither did the own set. */
  lemma {:induction false} PlanUnchanged(a: Args, l: Args, bs: seq<Binding>)
    requires a.info == l.info && a.dev == l.dev && PushesBuffers(a.info, a.dev)
    requires a.tables.textures == l.tables.textures && a.tables.samplers == l.tables.samplers
    requires forall b :: b in bs && Owned(a.info, b, a.dev) ==> a.Bindable(b) && l.Bindable(b)
    ensures a.Plan(bs) == l.Plan(bs) && a.Offsets(bs) == l.Offsets(bs) == []
  {
    if bs != [] { PlanUnchanged(a, l, bs[..|bs| - 1]); }
  }

  lemma SetUnchanged(s: nat, a: Args, l: Args, st: StageState, psoChanged: bool, entries: seq<Entry>, contents: map<SetId, SetContents>, stream: Stream)
    requires StageArgs(a, l, st, psoChanged) && a.Complete() && s < 2 && StreamOk(stream)
    requires PushesBuffers(a.info, a.dev) && !UpdatesSet(true, psoChanged, st)
    requires l.Plan(l.info.bindings) != [] ==> SetShown(s, l, entries, contents, stream, st)
    ensures a.Plan(a.info.bindings) != [] ==> SetShown(s, a, entries, contents, stream, st)
  {
    PlanUnchanged(a, l, a.info.bindings);
  }

  /** The bound set may be kept when its raw-address key is unchanged: the
      previous arguments are still retained, so their addresses were not reused. */
  lemma BoundKeyIsExact(a: Args, l: Args)
    requires a.Valid() && l.Valid() && a.h == l.h && a.dev == l.dev && a.info == l.info && a.Complete() && l.Complete()
    requires Known(a.h, a.Plan(a.info.bindings)) && Known(a.h, l.Plan(a.info.bindings))
    requires KeyOf(a.h, a.Plan(a.info.bindings)) == KeyOf(a.h, l.Plan(a.info.bindings))
    ensures a.Plan(a.info.bindings) == l.Plan(a.info.bindings)
  {
    PlansSameShape(a, l, a.info.bindings);
    PlanLive(a, a.info.bindings);
    PlanLive(l, a.info.bindings);
    SameKeySamePlan(a.h, a.Plan(a.info.bindings), l.Plan(a.info.bindings));
  }

  /** Keeps, finds or writes the stage's own set, and binds it when the set or
      its dynamic offsets changed. */
  method BindOwnSet(arena: DescriptorArena, h: Heap, p: Id, layout: nat, s: nat, a: Args, ghost l: Args, psoChanged: bool,
                    st0: StageState, stream0: Stream, key: seq<nat>, ranges: seq<nat>, offs: seq<(nat, nat)>)
    returns (st: StageState, stream: Stream)
    requires arena.Coherent(h) && arena.dev == a.dev && a.h == h
    requires StageArgs(a, l, st0, psoChanged) && a.Complete() && s < 2 && StreamOk(stream0)
    requires p in h.pipelines && h.pipelines[p].Valid() && h.pipelines[p].functions[s] == a.info && h.pipelines[p].layouts[s] == layout
    requires KeyGathered(a, |a.info.bindings|, key, true) && OffsetsGathered(a, |a.info.bindings|, offs) && RangesGathered(a, |a.info.bindings|, ranges)
    requires !psoChanged && l.Plan(l.info.bindings) != [] ==>
               SetShown(s, l, arena.entries, arena.contents, stream0, st0) && stream0.owner == Some(p)
    modifies arena
    ensures arena.Coherent(h) && Preserved(old(arena.entries), arena.entries, old(arena.contents), arena.contents)
    ensures StreamOk(stream) && stream.owner == Some(p) && SetShown(s, a, arena.entries, arena.contents, stream, st)
    ensures stream == stream0 || stream == stream0.BindSet(p, s, st.set_.value, st.dynamicOffsets)
    ensures st == st0.(set_ := st.set_, key := st.key, dynamicOffsets := st.dynamicOffsets)
  {
    assert a.info.bindings[..|a.info.bindings|] == a.info.bindings;
    var sorted := Values(SortOffsets(offs));
    var bind := psoChanged || st0.dynamicOffsets != sorted;
    st := st0.(dynamicOffsets := sorted);
    ghost var kept := !psoChanged;
    if kept {
      PlanEmptyIff(a, a.info.bindings);
      PlanEmptyIff(l, l.info.bindings);
      if st0.set_.Some? && st0.key == key { BoundKeyIsExact(a, l); }
    }
    if st0.set_.None? || psoChanged || key != st0.key {
      RangesGatheredMatch(a, ranges);
      var index := arena.Acquire(h, p, s, a, layout, key, ranges);
      var found := arena.entries[index].set_;
      assert UsedSet(arena.entries, found.value);
      bind := bind || st0.set_ != found;
      st := st.(set_ := found, key := key);
    }
    stream := if bind then stream0.BindSet(p, s, st.set_.value, sorted) else stream0;
  }

  lemma RangesGatheredMatch(a: Args, ranges: seq<nat>)
    requires a.Complete() && RangesGathered(a, |a.info.bindings|, ranges)
    ensures RangesMatch(a, ranges)
  {
    forall b | b in a.info.bindings && b.Buffer? && Owned(a.info, b, a.dev)
      ensures b.index < |ranges| && ranges[b.index] == a.Size(b.index)
    {
      var k :| 0 <= k < |a.info.bindings| && a.info.bindings[k] == b;
      assert a.Bindable(b);
    }
  }

  /** What holds between a stage's pushes and the binding of its own set. */
  ghost predicate HalfShown(p: Id, s: nat, a: Args, l: Args, other: Args, psoChanged: bool, st: StageState,
                            entries: seq<Entry>, contents: map<SetId, SetContents>, was: Stream, is_: Stream)
    requires s < 2 && StreamOk(was) && StreamOk(is_) && a.Complete() && (!psoChanged ==> l.Complete())
  {
    && PushesShown(a, is_)
    && (PushesBuffers(a.info, a.dev) && (exists b :: b in a.info.bindings && b.Buffer?) ==> is_.owner == Some(p))
    && is_.vertex == was.vertex
    && (!psoChanged && l.Plan(l.info.bindings) != [] ==> SetShown(s, l, entries, contents, is_, st) && is_.owner == Some(p))
    && ((HasDescriptors(other.info) ==> was.owner == Some(p)) ==> StreamKeeps(p, 1 - s, other, was, is_))
  }

  lemma AfterPushes(p: Id, s: nat, a: Args, l: Args, other: Args, psoChanged: bool, st: StageState,
                    entries: seq<Entry>, contents: map<SetId, SetContents>, stream: Stream, pushes: seq<(nat, View)>)
    requires StageArgs(a, l, st, psoChanged) && a.Complete() && s < 2 && StreamOk(stream)
    requires {a.info.stage, other.info.stage} == {Vertex, Fragment}
    requires !psoChanged ==> StageBound(p, s, l, entries, contents, stream, st)
    requires PushesBuffers(a.info, a.dev) && st.dirtyBuffers ==> PushesGathered(a, |a.info.bindings|, pushes)
    requires !(PushesBuffers(a.info, a.dev) && st.dirtyBuffers) ==> pushes == []
    ensures var next := if pushes != [] then stream.Push(p, pushes) else stream;
            StreamOk(next) && HalfShown(p, s, a, l, other, psoChanged, st, entries, contents, stream, next)
  {
    var bs := a.info.bindings;
    assert bs[..|bs|] == bs;
    if PushesBuffers(a.info, a.dev) {
      PushesNow(p, a, l, st, psoChanged, stream, pushes);
      if b :| b in bs && b.Buffer? {
        if st.dirtyBuffers { PushesNonEmpty(a, bs, b); } else { assert HasDescriptors(l.info); }
      }
    }
    if pushes != [] && (HasDescriptors(other.info) ==> stream.owner == Some(p)) {
      PushKeepsOther(p, 1 - s, other, a, stream, pushes);
    }
    if !psoChanged && l.Plan(l.info.bindings) != [] {
      PlanEmptyIff(l, l.info.bindings);
      assert HasDescriptors(l.info);
    }
  }

  lemma AfterBind(p: Id, s: nat, a: Args, l: Args, other: Args, psoChanged: bool, st0: StageState, st: StageState,
                  before: seq<Entry>, was: map<SetId, SetContents>, after: seq<Entry>, is_: map<SetId, SetContents>,
                  stream0: Stream, half: Stream, stream: Stream)
    requires s < 2 && StreamOk(stream0) && StreamOk(half) && StreamOk(stream) && a.Complete() && (!psoChanged ==> l.Complete())
    requires HalfShown(p, s, a, l, other, psoChanged, st0, before, was, stream0, half)
    requires stream.owner == Some(p) && SetShown(s, a, after, is_, stream, st)
    requires stream == half || (st.set_.Some? && stream == half.BindSet(p, s, st.set_.value, st.dynamicOffsets))
    ensures StageBound(p, s, a, after, is_, stream, st) && stream.vertex == stream0.vertex
    ensures (HasDescriptors(other.info) ==> stream0.owner == Some(p)) ==> StreamKeeps(p, 1 - s, other, stream0, stream)
  {
  }

  /** Brings one stage of the recorded state up to date.  It fails exactly when
      a binder that examines every binding would fail. */
  method ShowStage(arena: DescriptorArena, h: Heap, p: Id, layout: nat, s: nat, a: Args, ghost l: Args, ghost other: Args,
                   psoChanged: bool, st0: StageState, stream0: Stream)
    returns (ok: bool, st: StageState, stream: Stream)
    requires arena.Coherent(h) && arena.dev == a.dev && a.h == h
    requires StageArgs(a, l, st0, psoChanged) && s < 2 && StreamOk(stream0)
    requires p in h.pipelines && h.pipelines[p].Valid() && h.pipelines[p].layouts[s] == layout
    requires h.pipelines[p].functions[s] == a.info && h.pipelines[p].functions[1 - s] == other.info
    requires !psoChanged ==> StageBound(p, s, l, arena.entries, arena.contents, stream0, st0)
    modifies arena
    ensures arena.Coherent(h) && Preserved(old(arena.entries), arena.entries, old(arena.contents), arena.contents)
    ensures ok <==> a.Complete()
    ensures ok ==> StreamOk(stream) && stream.vertex == stream0.vertex
    ensures ok ==> StageBound(p, s, a, arena.entries, arena.contents, stream, st)
    ensures ok ==> st == st0.(set_ := st.set_, key := st.key, dynamicOffsets := st.dynamicOffsets)
    ensures ok ==> (HasDescriptors(other.info) ==> stream0.owner == Some(p)) ==> StreamKeeps(p, 1 - s, other, stream0, stream)
  {
    hide HalfShown, StageBound, KeyGathered, OffsetsGathered, RangesGathered, PushesGathered, CoherentState, StreamKeeps, Heap.Valid;
    st, stream := st0, stream0;
    var pushed := ScanPushesBuffers(a.info, a.dev);
    var updateSet := UpdatesSet(pushed, psoChanged, st0);
    var key, ranges, offs, pushes, ownSet;
    ok, key, ranges, offs, pushes, ownSet := Collect(a, pushed, st0.dirtyBuffers, updateSet);
    if !ok { return; }
    CompleteNow(a, l, st0, psoChanged);
    AfterPushes(p, s, a, l, other, psoChanged, st0, arena.entries, arena.contents, stream0, pushes);
    if pushes != [] { stream := stream.Push(p, pushes); }
    if ownSet {
      ghost var half := stream;
      assert KeyGathered(a, |a.info.bindings|, key, true);
      st, stream := BindOwnSet(arena, h, p, layout, s, a, l, psoChanged, st0, stream, key, ranges, offs);
      AfterBind(p, s, a, l, other, psoChanged, st0, st, old(arena.entries), old(arena.contents),
                arena.entries, arena.contents, stream0, half, stream);
    } else {
      NoOwnSet(p, s, a, l, other, psoChanged, st0, arena.entries, arena.contents, stream0, stream, pushed, updateSet, key);
    }
  }

  lemma NoOwnSet(p: Id, s: nat, a: Args, l: Args, other: Args, psoChanged: bool, st: StageState,
                 entries: seq<Entry>, contents: map<SetId, SetContents>, stream: Stream, half: Stream,
                 pushed: bool, updateSet: bool, key: seq<nat>)
    requires StageArgs(a, l, st, psoChanged) && a.Complete() && s < 2 && StreamOk(stream) && StreamOk(half)
    requires pushed == PushesBuffers(a.info, a.dev) && updateSet == UpdatesSet(pushed, psoChanged, st)
    requires !psoChanged ==> l.Complete()
    requires HalfShown(p, s, a, l, other, psoChanged, st, entries, contents, stream, half)
    requires updateSet ==> KeyGathered(a, |a.info.bindings|, key, false)
    ensures StageBound(p, s, a, entries, contents, half, st)
  {
    var bs := a.info.bindings;
    assert bs[..|bs|] == bs;
    if !updateSet { SetUnchanged(s, a, l, st, psoChanged, entries, contents, half); }
    if b :| b in bs && !b.VertexInput? {
      if Owned(a.info, b, a.dev) {
        PlanHas(a, bs, b);
        assert !updateSet;
        PlanEmptyIff(l, bs);
      }
    }
  }

  // --------------------------------------------------------------- retention

  /** Replaces the changed slots of a bound table, keeping what they held when
      it must outlive the draws that used it, and appends the new tail. */
  method RetainChanges<T(==)>(previous: seq<T>, next: seq<T>, retain: bool) returns (bound: seq<T>, dropped: seq<T>)
    requires |previous| <= |next|
    ensures bound == next
    ensures forall x :: x in dropped ==> x in previous
    ensures retain ==> forall x :: x in previous ==> x in bound || x in dropped
  {
    bound, dropped := previous, [];
    for i := 0 to |previous|
      invariant |bound| == |previous|
      invariant bound[..i] == next[..i] && bound[i..] == previous[i..]
      invariant forall x :: x in dropped ==> x in previous
      invariant retain ==> forall k :: 0 <= k < i ==> previous[k] in next[..i] || previous[k] in dropped
    {
      assert bound[i] == previous[i];
      if bound[i] != next[i] {
        if retain { dropped := dropped + [bound[i]]; }
        bound := bound[i := next[i]];
      }
      assert next[..i + 1] == next[..i] + [next[i]];
    }
    assert bound == next[..|previous|];
    bound := bound + next[|previous|..];
  }

  ghost predicate Covers(now: Tables, saved: Tables, was: Tables) {
    was.Ids() <= now.Ids() + saved.Ids()
  }

  lemma BufferIdsCovered(was: seq<BufferArg>, now: seq<BufferArg>, dropped: seq<BufferArg>, saved: seq<BufferArg>)
    requires forall x :: x in was ==> x in now || x in dropped
    ensures BufferIds(was) <= BufferIds(now) + BufferIds(saved + dropped)
  {
    forall id | id in BufferIds(was) ensures id in BufferIds(now) + BufferIds(saved + dropped) {
      var i :| 0 <= i < |was| && was[i].buffer == Some(id);
      if was[i] in now { var k :| 0 <= k < |now| && now[k] == was[i]; }
      else { var k :| 0 <= k < |dropped| && dropped[k] == was[i]; assert (saved + dropped)[|saved| + k] == was[i]; }
    }
  }

  lemma OptionIdsCovered(was: seq<Option<Id>>, now: seq<Option<Id>>, dropped: seq<Option<Id>>, saved: seq<Option<Id>>)
    requires forall x :: x in was ==> x in now || x in dropped
    ensures OptionIds(was) <= OptionIds(now) + OptionIds(saved + dropped)
  {
    forall id | id in OptionIds(was) ensures id in OptionIds(now) + OptionIds(saved + dropped) {
      var i :| 0 <= i < |was| && was[i] == Some(id);
      if was[i] in now { var k :| 0 <= k < |now| && now[k] == was[i]; }
      else { var k :| 0 <= k < |dropped| && dropped[k] == was[i]; assert (saved + dropped)[|saved| + k] == was[i]; }
    }
  }

  lemma BufferIdsJoin(a: seq<BufferArg>, b: seq<BufferArg>)
    ensures BufferIds(a + b) == BufferIds(a) + BufferIds(b)
  {
    forall id | id in BufferIds(a) ensures id in BufferIds(a + b) {
      var i :| 0 <= i < |a| && a[i].buffer == Some(id); assert (a + b)[i] == a[i];
    }
    forall id | id in BufferIds(b) ensures id in BufferIds(a + b) {
      var i :| 0 <= i < |b| && b[i].buffer == Some(id); assert (a + b)[|a| + i] == b[i];
    }
  }

  lemma OptionIdsJoin(a: seq<Option<Id>>, b: seq<Option<Id>>)
    ensures OptionIds(a + b) == OptionIds(a) + OptionIds(b)
  {
    forall id | id in OptionIds(a) ensures id in OptionIds(a + b) {
      var i :| 0 <= i < |a| && a[i] == Some(id); assert (a + b)[i] == a[i];
    }
    forall id | id in OptionIds(b) ensures id in OptionIds(a + b) {
      var i :| 0 <= i < |b| && b[i] == Some(id); assert (a + b)[|a| + i] == b[i];
    }
  }

  lemma DroppedIds(dropped: seq<BufferArg>, was: seq<BufferArg>, droppedOther: seq<Option<Id>>, wasOther: seq<Option<Id>>)
    requires forall x :: x in dropped ==> x in was
    requires forall x :: x in droppedOther ==> x in wasOther
    ensures BufferIds(dropped) <= BufferIds(was) && OptionIds(droppedOther) <= OptionIds(wasOther)
  {
    forall id | id in BufferIds(dropped) ensures id in BufferIds(was) {
      var i :| 0 <= i < |dropped| && dropped[i].buffer == Some(id);
      assert dropped[i] in was;
      var k :| 0 <= k < |was| && was[k] == dropped[i];
    }
    forall id | id in OptionIds(droppedOther) ensures id in OptionIds(wasOther) {
      var i :| 0 <= i < |droppedOther| && droppedOther[i] == Some(id);
      assert droppedOther[i] in wasOther;
      var k :| 0 <= k < |wasOther| && wasOther[k] == droppedOther[i];
    }
  }

  lemma SameObjectsSameIds(a: Tables, b: Tables)
    requires SameObjects(a, b)
    ensures a.Ids() == b.Ids()
  {
    forall id ensures id in BufferIds(a.buffers) <==> id in BufferIds(b.buffers) {
      if id in BufferIds(a.buffers) { var i :| 0 <= i < |a.buffers| && a.buffers[i].buffer == Some(id); assert b.buffers[i].buffer == Some(id); }
      if id in BufferIds(b.buffers) { var i :| 0 <= i < |b.buffers| && b.buffers[i].buffer == Some(id); assert a.buffers[i].buffer == Some(id); }
    }
    assert BufferIds(a.buffers) == BufferIds(b.buffers);
  }

  /** After a stage's descriptors are up to date, its bound tables take over the
      current objects; what they replaced is saved for the recorded draws. */
  method Retain(st0: StageState, saved0: Tables, retain: bool) returns (st: StageState, saved: Tables)
    requires NoLonger(st0.bound, st0.tables)
    ensures st == st0.(bound := st.bound) && SameObjects(st.bound, st0.tables) && NoLonger(st.bound, st0.tables)
    ensures saved.Ids() <= saved0.Ids() + st0.bound.Ids() && saved0.Ids() <= saved.Ids()
    ensures retain ==> Covers(st.bound, saved, st0.bound)
  {
    st, saved := st0, saved0;
    var same := |st.tables.buffers| == |st.bound.buffers|;
    var i := 0;
    while same && i < |st.bound.buffers|
      invariant same ==> 0 <= i <= |st.bound.buffers| == |st.tables.buffers|
                         && forall k :: 0 <= k < i ==> st.bound.buffers[k].buffer == st.tables.buffers[k].buffer
      decreases same, |st.bound.buffers| - i
    {
      if st.bound.buffers[i].buffer != st.tables.buffers[i].buffer { same := false; } else { i := i + 1; }
    }
    if !same || st.tables.textures != st.bound.textures || st.tables.samplers != st.bound.samplers {
      var buffers, b := RetainChanges(st.bound.buffers, st.tables.buffers, retain);
      var textures, t := RetainChanges(st.bound.textures, st.tables.textures, retain);
      var samplers, m := RetainChanges(st.bound.samplers, st.tables.samplers, true);
      saved := Tables(saved.buffers + b, saved.textures + t, saved.samplers + m);
      BufferIdsJoin(saved0.buffers, b);
      OptionIdsJoin(saved0.textures, t);
      OptionIdsJoin(saved0.samplers, m);
      DroppedIds(b, st0.bound.buffers, t, st0.bound.textures);
      DroppedIds(b, st0.bound.buffers, m, st0.bound.samplers);
      if retain {
        BufferIdsCovered(st0.bound.buffers, buffers, b, saved0.buffers);
        OptionIdsCovered(st0.bound.textures, textures, t, saved0.textures);
        OptionIdsCovered(st0.bound.samplers, samplers, m, saved0.samplers);
      }
      st := st.(bound := Tables(buffers, textures, samplers));
    }
  }

  // ---------------------------------------------------------- encoder state

  /** The tables at the last completed update (history; nothing reads it). */
  datatype Last = Last(tables: Tables, inlines: seq<InlineRange>)

  /** A snapshot of the encoder's fields. */
  datatype Snapshot = Snapshot(
    dev: Device, retain: bool, pso: Option<Id>, savedPipelines: seq<Id>, descriptorPso: Option<Id>,
    stages: seq<StageState>, saved: Tables, keepAlive: seq<Id>, vertexArgs: seq<BufferArg>, stream: Stream,
    last: seq<Last>, draws: seq<Draw>)
  {
    /** Everything the encoder keeps alive is in `live`. */
    ghost predicate HeldIn(live: set<Id>)
      requires |stages| == 2
    {
      && (pso.Some? ==> pso.value in live) && (descriptorPso.Some? ==> descriptorPso.value in live)
      && (forall id :: id in savedPipelines ==> id in live) && (forall id :: id in keepAlive ==> id in live)
      && saved.Ids() <= live
      && stages[0].tables.Ids() <= live && stages[0].bound.Ids() <= live
      && stages[1].tables.Ids() <= live && stages[1].bound.Ids() <= live
    }

    ghost function Current(h: Heap, p: Id, s: nat): Args
      requires p in h.pipelines && h.pipelines[p].Valid() && s < 2 == |stages|
    {
      Args(h, dev, h.pipelines[p].functions[s], stages[s].tables, stages[s].inlines)
    }

    ghost function Previous(h: Heap, p: Id, s: nat): Args
      requires p in h.pipelines && h.pipelines[p].Valid() && s < 2 == |last|
    {
      Args(h, dev, h.pipelines[p].functions[s], last[s].tables, last[s].inlines)
    }
  }

  ghost predicate Base(h: Heap, e: Snapshot) {
    && h.Valid() && |e.stages| == 2 && |e.last| == 2 && StreamOk(e.stream) && e.dev.offsetAlignment > 0
    && e.HeldIn(h.live)
    && (e.pso.Some? ==> e.pso.value in h.pipelines) && (e.descriptorPso.Some? ==> e.descriptorPso.value in h.pipelines)
    && StageBase(e.stages[0], e.last[0]) && StageBase(e.stages[1], e.last[1])
    && |e.vertexArgs| <= |e.stream.vertex| && e.stream.vertex[..|e.vertexArgs|] == e.vertexArgs
  }

  ghost predicate StageBase(st: StageState, last: Last) {
    InlinesOk(st.inlines) && InlinesOk(last.inlines) && NoLonger(st.bound, st.tables)
  }

  /** Every recorded draw still shows what it must, reads only pinned sets, and
      (unless the application keeps its references itself) only live objects. */
  ghost predicate DrawsOk(e: Snapshot, entries: seq<Entry>, contents: map<SetId, SetContents>)
    requires |e.stages| == 2
  {
    && (forall d :: d in e.draws ==> DrawShows(d, contents) && DrawPinned(d, entries))
    && (e.retain ==> forall d :: d in e.draws ==> DrawKept(d, e))
  }

  ghost predicate DrawKept(d: Draw, e: Snapshot)
    requires |e.stages| == 2
  {
    && (d.pso in e.savedPipelines || e.pso == Some(d.pso))
    && |d.args| == 2
    && forall s :: 0 <= s < 2 ==> d.args[s].tables.Ids() <= Kept(e)
  }

  ghost function Kept(e: Snapshot): set<Id>
    requires |e.stages| == 2
  {
    e.stages[0].bound.Ids() + e.stages[1].bound.Ids() + e.saved.Ids()
  }

  /** A stage whose update has not happened yet.  Between updates (`settled`)
      the stream still shows the last updated pipeline state's arguments, even
      if the encoder switched away from it; it may be switched back. */
  ghost predicate Pending(h: Heap, e: Snapshot, s: nat, settled: bool, entries: seq<Entry>, contents: map<SetId, SetContents>)
    requires Base(h, e) && s < 2
  {
    && SameObjects(e.stages[s].bound, e.last[s].tables)
    && Tracked(e.stages[s], e.last[s].tables, e.last[s].inlines)
    && (e.pso != e.descriptorPso ==> e.stages[s].dirtyBuffers && e.stages[s].dirtyTextures && e.stages[s].dirtySamplers)
    && (e.descriptorPso.Some? && (settled || e.descriptorPso == e.pso) ==>
          StageBound(e.descriptorPso.value, s, e.Previous(h, e.descriptorPso.value, s), entries, contents, e.stream, e.stages[s]))
  }

  /** A stage that shows its current arguments. */
  ghost predicate Updated(h: Heap, e: Snapshot, s: nat, entries: seq<Entry>, contents: map<SetId, SetContents>)
    requires Base(h, e) && s < 2
  {
    && SameObjects(e.stages[s].bound, e.stages[s].tables)
    && e.pso.Some?
    && StageBound(e.pso.value, s, e.Current(h, e.pso.value, s), entries, contents, e.stream, e.stages[s])
  }

  /** The vertex buffers shown for the last update. */
  ghost predicate VertexKept(h: Heap, e: Snapshot)
    requires Base(h, e)
  {
    e.descriptorPso.Some? ==>
      VertexShown(e.last[0].tables, h.pipelines[e.descriptorPso.value].vertexInputs, e.stream.vertex)
  }

  /** The state while an update has processed the first `done` stages. */
  ghost predicate Mid(h: Heap, e: Snapshot, done: nat, entries: seq<Entry>, contents: map<SetId, SetContents>) {
    && Base(h, e) && DrawsOk(e, entries, contents) && VertexKept(h, e)
    && (if done == 0 then Pending(h, e, 0, true, entries, contents) else Updated(h, e, 0, entries, contents))
    && (if done < 2 then Pending(h, e, 1, done == 0, entries, contents) else Updated(h, e, 1, entries, contents))
  }

  lemma ArgsValid(h: Heap, dev: Device, p: Id, s: nat, tables: Tables, inlines: seq<InlineRange>)
    requires h.Valid() && dev.offsetAlignment > 0 && p in h.pipelines && p in h.live && s < 2
    requires tables.Ids() <= h.live && InlinesOk(inlines)
    ensures h.pipelines[p].Valid() && Args(h, dev, h.pipelines[p].functions[s], tables, inlines).Valid()
  {
    assert h.pipelines[p].EmbeddedLive(h.live);
  }

  lemma CurrentValid(h: Heap, e: Snapshot, p: Id, s: nat)
    requires Base(h, e) && p in h.pipelines && p in h.live && s < 2
    ensures e.Current(h, p, s).Valid()
  {
    ArgsValid(h, e.dev, p, s, e.stages[s].tables, e.stages[s].inlines);
  }

  lemma PreviousValid(h: Heap, e: Snapshot, p: Id, s: nat)
    requires Base(h, e) && p in h.pipelines && p in h.live && s < 2
    requires SameObjects(e.stages[s].bound, e.last[s].tables)
    ensures e.Previous(h, p, s).Valid()
  {
    SameObjectsSameIds(e.stages[s].bound, e.last[s].tables);
    ArgsValid(h, e.dev, p, s, e.last[s].tables, e.last[s].inlines);
  }

  /** What stage `s`'s update must achieve for the whole state to advance. */
  ghost predicate Advances(h: Heap, e: Snapshot, f: Snapshot, s: nat, before: seq<Entry>, after: seq<Entry>,
                           was: map<SetId, SetContents>, is_: map<SetId, SetContents>)
    requires Base(h, e) && s < 2 && e.pso.Some?
  {
    && StreamOk(f.stream) && |f.stages| == 2
    && f == e.(stages := f.stages, saved := f.saved, stream := f.stream)
    && f.stages == e.stages[s := f.stages[s]] && f.stages[s].tables == e.stages[s].tables && f.stages[s].inlines == e.stages[s].inlines
    && f.stream.vertex == e.stream.vertex
    && SameObjects(f.stages[s].bound, f.stages[s].tables) && NoLonger(f.stages[s].bound, f.stages[s].tables)
    && e.saved.Ids() <= f.saved.Ids() <= e.saved.Ids() + e.stages[s].bound.Ids()
    && (e.retain ==> Covers(f.stages[s].bound, f.saved, e.stages[s].bound))
    && Preserved(before, after, was, is_)
    && StageBound(e.pso.value, s, e.Current(h, e.pso.value, s), after, is_, f.stream, f.stages[s])
    && (Relevant(e, 1 - s, s) ==> StreamKeeps(e.pso.value, 1 - s, e.Current(h, e.pso.value, 1 - s), e.stream, f.stream))
  }

  /** Whether the other stage already shows something that must be kept. */
  ghost predicate Relevant(e: Snapshot, t: int, done: int) {
    t < done || (e.descriptorPso.Some? && e.descriptorPso == e.pso)
  }

  lemma MidStep(h: Heap, e: Snapshot, f: Snapshot, s: nat, before: seq<Entry>, after: seq<Entry>,
                was: map<SetId, SetContents>, is_: map<SetId, SetContents>)
    requires s < 2 && Mid(h, e, s, before, was) && e.pso.Some?
    requires Advances(h, e, f, s, before, after, was, is_)
    ensures Mid(h, f, s + 1, after, is_)
  {
    BaseStep(h, e, f, s, before, after, was, is_);
    DrawsStep(e, f, before, after, was, is_);
    ThisStep(h, e, f, s, before, after, was, is_);
    if s == 1 { UpdatedStep(h, e, f, s, before, after, was, is_); } else { PendingStep(h, e, f, s, before, after, was, is_); }
  }

  lemma DrawsStep(e: Snapshot, f: Snapshot, before: seq<Entry>, after: seq<Entry>,
                  was: map<SetId, SetContents>, is_: map<SetId, SetContents>)
    requires |e.stages| == 2 && |f.stages| == 2 && DrawsOk(e, before, was) && f.draws == e.draws
    requires Preserved(before, after, was, is_)
    ensures forall d :: d in f.draws ==> DrawShows(d, is_) && DrawPinned(d, after)
  {
    forall d | d in f.draws ensures DrawShows(d, is_) && DrawPinned(d, after) {
      DrawPreserved(d, before, after, was, is_);
    }
  }

  lemma ThisStep(h: Heap, e: Snapshot, f: Snapshot, s: nat, before: seq<Entry>, after: seq<Entry>,
                 was: map<SetId, SetContents>, is_: map<SetId, SetContents>)
    requires s < 2 && Base(h, e) && Base(h, f) && e.pso.Some?
    requires Advances(h, e, f, s, before, after, was, is_)
    ensures Updated(h, f, s, after, is_)
  {
    assert f.Current(h, e.pso.value, s) == e.Current(h, e.pso.value, s);
  }

  /** The stage that was updated first keeps what it shows. */
  lemma UpdatedStep(h: Heap, e: Snapshot, f: Snapshot, s: nat, before: seq<Entry>, after: seq<Entry>,
                    was: map<SetId, SetContents>, is_: map<SetId, SetContents>)
    requires s == 1 && Base(h, e) && Base(h, f) && e.pso.Some? && Updated(h, e, 0, before, was)
    requires Advances(h, e, f, s, before, after, was, is_)
    ensures Updated(h, f, 0, after, is_)
  {
    var a := e.Current(h, e.pso.value, 0);
    StageKept(e.pso.value, 0, a, e.stages[0], before, after, was, is_, e.stream, f.stream);
    assert f.Current(h, e.pso.value, 0) == a && f.stages[0] == e.stages[0];
  }

  /** The stage that is still to be updated keeps what it last showed. */
  lemma PendingStep(h: Heap, e: Snapshot, f: Snapshot, s: nat, before: seq<Entry>, after: seq<Entry>,
                    was: map<SetId, SetContents>, is_: map<SetId, SetContents>)
    requires s == 0 && Base(h, e) && Base(h, f) && e.pso.Some? && Pending(h, e, 1, true, before, was)
    requires Advances(h, e, f, s, before, after, was, is_)
    ensures Pending(h, f, 1, false, after, is_)
  {
    assert f.stages[1] == e.stages[1];
    if e.descriptorPso == e.pso {
      var l := e.Previous(h, e.pso.value, 1);
      assert StreamKeeps(e.pso.value, 1, e.Current(h, e.pso.value, 1), e.stream, f.stream);
      assert l.info == e.Current(h, e.pso.value, 1).info && l.dev == e.dev;
      StageKept(e.pso.value, 1, l, e.stages[1], before, after, was, is_, e.stream, f.stream);
      assert f.Previous(h, e.pso.value, 1) == l;
    }
  }

  lemma BaseStep(h: Heap, e: Snapshot, f: Snapshot, s: nat, before: seq<Entry>, after: seq<Entry>,
                 was: map<SetId, SetContents>, is_: map<SetId, SetContents>)
    requires s < 2 && Base(h, e) && e.pso.Some? && DrawsOk(e, before, was)
    requires Advances(h, e, f, s, before, after, was, is_)
    ensures e.retain ==> Kept(e) <= Kept(f)
    ensures Base(h, f)
    ensures f.retain ==> forall d :: d in f.draws ==> DrawKept(d, f)
  {
    SameObjectsSameIds(f.stages[s].bound, f.stages[s].tables);
    assert StageBase(e.stages[0], e.last[0]) && StageBase(e.stages[1], e.last[1]);
    assert StageBase(f.stages[0], f.last[0]) && StageBase(f.stages[1], f.last[1]);
    if e.retain {
      forall d | d in f.draws ensures DrawKept(d, f) { assert DrawKept(d, e); }
    }
  }
}
