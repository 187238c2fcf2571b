/** The render encoder: argument setters, draws, and the incremental update of
    the recorded descriptor state before each draw. */
module RenderEncoders {
  import opened ShaderBindings
  import opened Wrappers
  import opened ObjectLifetimes
  import opened DescriptorPlans
  import opened DescriptorArenas
  import opened CommandStreams
  import opened BindingUpdates
  import opened InlineData
  import opened NaiveBinder
  import opened ArgumentCalls
  import opened Alignments

  // ------------------------------------------------------------ value lemmas

  /** A stage without dirty bits already shows its current arguments. */
  lemma CleanStage(h: Heap, e: Snapshot, s: nat, entries: seq<Entry>, contents: map<SetId, SetContents>)
    requires s < 2 && Mid(h, e, s, entries, contents) && e.pso.Some? && !e.stages[s].Dirty()
    ensures Mid(h, e, s + 1, entries, contents) && e.Current(h, e.pso.value, s).Complete()
  {
    assert Pending(h, e, s, s == 0, entries, contents);
    assert e.pso == e.descriptorPso && e.stages[s].tables == e.last[s].tables;
    assert e.Current(h, e.pso.value, s) == e.Previous(h, e.pso.value, s);
    assert Updated(h, e, s, entries, contents);
    if s == 1 { assert Updated(h, e, 0, entries, contents); } else { assert Pending(h, e, 1, true, entries, contents); }
  }

  /** Without dirty bits the last update was for the current pipeline state and arguments. */
  lemma CleanState(h: Heap, e: Snapshot, entries: seq<Entry>, contents: map<SetId, SetContents>)
    requires Mid(h, e, 0, entries, contents) && e.pso.Some? && !e.stages[0].Dirty() && !e.stages[1].Dirty()
    ensures e.descriptorPso == e.pso
    ensures e.Current(h, e.pso.value, 0).Complete() && e.Current(h, e.pso.value, 1).Complete()
  {
    CleanStage(h, e, 0, entries, contents);
    CleanStage(h, e, 1, entries, contents);
  }

  /** An update changes what is bound, never what the application set. */
  ghost predicate UnchangedInputs(was: StageState, is_: StageState) {
    is_ == was.(bound := is_.bound, set_ := is_.set_, key := is_.key, dynamicOffsets := is_.dynamicOffsets)
  }

  ghost function DrawOf(p: Id, inputs: seq<nat>, v: Args, f: Args, bound: Stream): Draw { Draw(p, inputs, [v, f], bound) }

  lemma DrawsShown(h: Heap, e: Snapshot, entries: seq<Entry>, contents: map<SetId, SetContents>)
    requires Mid(h, e, 0, entries, contents)
    ensures forall d :: d in e.draws ==> DrawShows(d, contents)
  {
  }

  function Cleaned(st: StageState): StageState {
    st.(dirtyBuffers := false, dirtyTextures := false, dirtySamplers := false)
  }

  ghost function LastOf(st: StageState): Last { Last(st.tables, st.inlines) }

  /** The end of an update: both stages are shown, the vertex buffers are
      (re)bound when needed, and every dirty bit is cleared. */
  ghost predicate Finished(h: Heap, e: Snapshot, f: Snapshot, vertex: seq<BufferArg>)
    requires Base(h, e) && e.pso.Some?
  {
    && f == e.(descriptorPso := e.pso, vertexArgs := vertex, stream := f.stream,
               stages := [Cleaned(e.stages[0]), Cleaned(e.stages[1])], last := [LastOf(e.stages[0]), LastOf(e.stages[1])])
    && ((f.stream == e.stream && vertex == e.vertexArgs) || f.stream == e.stream.BindVertex(vertex))
    && VertexShown(e.stages[0].tables, h.pipelines[e.pso.value].vertexInputs, f.stream.vertex)
  }

  /** Nothing that the recorded draws rely on was dropped. */
  ghost predicate KeepsDraws(e: Snapshot, f: Snapshot)
    requires |e.stages| == 2 && |f.stages| == 2
  {
    && f.retain == e.retain && f.draws == e.draws && Kept(e) == Kept(f)
    && forall p :: p in e.savedPipelines || e.pso == Some(p) ==> p in f.savedPipelines || f.pso == Some(p)
  }

  lemma DrawsStay(e: Snapshot, f: Snapshot, entries: seq<Entry>, contents: map<SetId, SetContents>)
    requires |e.stages| == 2 && |f.stages| == 2 && DrawsOk(e, entries, contents) && KeepsDraws(e, f)
    ensures DrawsOk(f, entries, contents)
  {
    if f.retain {
      forall d | d in f.draws ensures DrawKept(d, f) { assert DrawKept(d, e); }
    }
  }

  /** What was last bound for stage `s` is still bound. */
  ghost predicate SameBound(e: Snapshot, f: Snapshot, s: nat)
    requires s < 2 && |e.stages| == 2 && |f.stages| == 2 && |e.last| == 2
  {
    && f.dev == e.dev && f.descriptorPso == e.descriptorPso && f.stream == e.stream && f.last == e.last
    && f.stages[s].bound == e.stages[s].bound && f.stages[s].set_ == e.stages[s].set_
    && f.stages[s].key == e.stages[s].key && f.stages[s].dynamicOffsets == e.stages[s].dynamicOffsets
  }

  lemma StillPending(h: Heap, e: Snapshot, f: Snapshot, s: nat, entries: seq<Entry>, contents: map<SetId, SetContents>)
    requires s < 2 && Base(h, e) && Base(h, f) && Pending(h, e, s, true, entries, contents) && SameBound(e, f, s)
    requires Tracked(f.stages[s], f.last[s].tables, f.last[s].inlines)
    requires f.pso != f.descriptorPso ==> f.stages[s].dirtyBuffers && f.stages[s].dirtyTextures && f.stages[s].dirtySamplers
    ensures Pending(h, f, s, true, entries, contents)
  {
    if e.descriptorPso.Some? {
      var p := e.descriptorPso.value;
      var l := e.Previous(h, p, s);
      assert f.Previous(h, p, s) == l;
      BoundAlike(p, s, l, entries, contents, e.stream, e.stages[s], f.stages[s]);
    }
  }

  lemma BoundAlike(p: Id, s: nat, a: Args, entries: seq<Entry>, contents: map<SetId, SetContents>, stream: Stream, st: StageState, next: StageState)
    requires s < 2 && StreamOk(stream) && StageBound(p, s, a, entries, contents, stream, st)
    requires next.set_ == st.set_ && next.key == st.key && next.dynamicOffsets == st.dynamicOffsets
    ensures StageBound(p, s, a, entries, contents, stream, next)
  {
  }

  lemma FinishUpdate(h: Heap, e: Snapshot, f: Snapshot, vertex: seq<BufferArg>, entries: seq<Entry>, contents: map<SetId, SetContents>)
    requires Mid(h, e, 2, entries, contents) && e.pso.Some? && Finished(h, e, f, vertex)
    ensures Mid(h, f, 0, entries, contents)
  {
    FinishBase(h, e, f, vertex);
    DrawsStay(e, f, entries, contents);
    FinishStage(h, e, f, vertex, 0, entries, contents);
    FinishStage(h, e, f, vertex, 1, entries, contents);
  }

  lemma FinishBase(h: Heap, e: Snapshot, f: Snapshot, vertex: seq<BufferArg>)
    requires Base(h, e) && e.pso.Some? && Finished(h, e, f, vertex)
    ensures Base(h, f) && KeepsDraws(e, f) && VertexKept(h, f)
  {
    assert f.stages[0].bound == e.stages[0].bound && f.stages[1].bound == e.stages[1].bound;
  }

  lemma FinishStage(h: Heap, e: Snapshot, f: Snapshot, vertex: seq<BufferArg>, s: nat, entries: seq<Entry>, contents: map<SetId, SetContents>)
    requires s < 2 && Base(h, e) && Base(h, f) && e.pso.Some? && Finished(h, e, f, vertex) && Updated(h, e, s, entries, contents)
    ensures Pending(h, f, s, true, entries, contents)
  {
    var p := e.pso.value;
    var a := e.Current(h, p, s);
    assert f.Previous(h, p, s) == a;
    BoundAlike(p, s, a, entries, contents, e.stream, e.stages[s], f.stages[s]);
    BoundVertex(p, s, a, entries, contents, e.stream, f.stream, f.stages[s]);
  }

  lemma BoundVertex(p: Id, s: nat, a: Args, entries: seq<Entry>, contents: map<SetId, SetContents>, stream: Stream, next: Stream, st: StageState)
    requires s < 2 && StreamOk(stream) && StageBound(p, s, a, entries, contents, stream, st)
    requires next == stream.(vertex := next.vertex)
    ensures StageBound(p, s, a, entries, contents, next, st)
  {
  }

  /** A draw recorded right after an update. */
  lemma RecordDraw(h: Heap, e: Snapshot, f: Snapshot, d: Draw, entries: seq<Entry>, contents: map<SetId, SetContents>)
    requires Mid(h, e, 0, entries, contents) && e.pso.Some? && e.descriptorPso == e.pso
    requires !e.stages[0].Dirty() && !e.stages[1].Dirty()
    requires f == e.(draws := e.draws + [d])
    requires d == Draw(e.pso.value, h.pipelines[e.pso.value].vertexInputs, [e.Current(h, e.pso.value, 0), e.Current(h, e.pso.value, 1)], e.stream)
    ensures Mid(h, f, 0, entries, contents) && DrawShows(d, contents)
  {
    hide DrawsOk, Tables.Ids, NoLonger, InlinesOk, StageBound, DrawShows, DrawPinned;
    var p := e.pso.value;
    assert e.Current(h, p, 0) == e.Previous(h, p, 0) && e.Current(h, p, 1) == e.Previous(h, p, 1);
    BoundShows(d, h.pipelines[p], entries, contents, e.stages);
    DrawsGrow(e, f, d, entries, contents);
    StillPending(h, e, f, 0, entries, contents);
    StillPending(h, e, f, 1, entries, contents);
  }

  lemma DrawsGrow(e: Snapshot, f: Snapshot, d: Draw, entries: seq<Entry>, contents: map<SetId, SetContents>)
    requires |e.stages| == 2 && |e.last| == 2 && DrawsOk(e, entries, contents) && f == e.(draws := e.draws + [d])
    requires DrawShows(d, contents) && DrawPinned(d, entries) && e.pso == Some(d.pso)
    requires forall s :: 0 <= s < 2 ==> d.args[s].tables == e.last[s].tables && SameObjects(e.stages[s].bound, e.last[s].tables)
    ensures DrawsOk(f, entries, contents)
  {
    SameObjectsSameIds(e.stages[0].bound, e.last[0].tables);
    SameObjectsSameIds(e.stages[1].bound, e.last[1].tables);
    if e.retain {
      forall x | x in f.draws ensures DrawKept(x, f) { if x != d { assert DrawKept(x, e); } }
    }
  }

  /** When the command buffer retains what it references, everything a recorded
      draw was recorded with is still alive. */
  lemma RetainedDrawsLive(h: Heap, e: Snapshot, d: Draw, s: nat, entries: seq<Entry>, contents: map<SetId, SetContents>)
    requires Mid(h, e, 0, entries, contents) && e.retain && d in e.draws && s < 2
    ensures d.pso in h.live && |d.args| == 2 && d.args[s].tables.Ids() <= h.live
  {
    hide Pending, VertexKept, StageBase, Heap.Valid;
    assert DrawKept(d, e);
    assert d.args[s].tables.Ids() <= Kept(e);
  }

  /** What a setter may do to a stage: a changed table grows and is marked dirty. */
  ghost predicate Touched(was: StageState, is_: StageState) {
    && is_ == was.(tables := is_.tables, inlines := is_.inlines, dirtyBuffers := is_.dirtyBuffers,
                   dirtyTextures := is_.dirtyTextures, dirtySamplers := is_.dirtySamplers)
    && NoLonger(was.tables, is_.tables)
    && (is_.dirtyBuffers || (!was.dirtyBuffers && is_.tables.buffers == was.tables.buffers && is_.inlines == was.inlines))
    && (is_.dirtyTextures || (!was.dirtyTextures && is_.tables.textures == was.tables.textures))
    && (is_.dirtySamplers || (!was.dirtySamplers && is_.tables.samplers == was.tables.samplers))
  }

  /** One setter call on stage `s`. */
  ghost predicate SetterCall(h: Heap, e: Snapshot, f: Snapshot, s: nat)
    requires s < 2
  {
    && |e.stages| == 2 && |f.stages| == 2
    && f == e.(stages := e.stages[s := f.stages[s]], keepAlive := f.keepAlive)
    && Touched(e.stages[s], f.stages[s]) && f.stages[s].tables.Ids() <= h.live && InlinesOk(f.stages[s].inlines)
    && forall id :: id in f.keepAlive ==> id in h.live
  }

  lemma TouchStage(h: Heap, e: Snapshot, f: Snapshot, s: nat, entries: seq<Entry>, contents: map<SetId, SetContents>)
    requires s < 2 && Mid(h, e, 0, entries, contents) && SetterCall(h, e, f, s)
    ensures Mid(h, f, 0, entries, contents)
  {
    TouchBase(h, e, f, s);
    DrawsStay(e, f, entries, contents);
    TouchPending(h, e, f, s, 0, entries, contents);
    TouchPending(h, e, f, s, 1, entries, contents);
  }

  lemma TouchBase(h: Heap, e: Snapshot, f: Snapshot, s: nat)
    requires s < 2 && Base(h, e) && VertexKept(h, e) && SetterCall(h, e, f, s)
    ensures Base(h, f) && VertexKept(h, f) && KeepsDraws(e, f)
  {
    assert f.stages[0].bound == e.stages[0].bound && f.stages[1].bound == e.stages[1].bound;
  }

  lemma TouchPending(h: Heap, e: Snapshot, f: Snapshot, s: nat, t: nat, entries: seq<Entry>, contents: map<SetId, SetContents>)
    requires s < 2 && t < 2 && Base(h, e) && Base(h, f) && Pending(h, e, t, true, entries, contents) && SetterCall(h, e, f, s)
    ensures Pending(h, f, t, true, entries, contents)
  {
    if t == s { StillPending(h, e, f, t, entries, contents); } else { StillPending(h, e, f, t, entries, contents); }
  }

  lemma SwitchPipeline(h: Heap, e: Snapshot, f: Snapshot, p: Option<Id>, entries: seq<Entry>, contents: map<SetId, SetContents>)
    requires Mid(h, e, 0, entries, contents) && (p.Some? ==> p.value in h.pipelines && p.value in h.live)
    requires f == e.(pso := p, stages := [e.stages[0].AllDirty(), e.stages[1].AllDirty()],
                     savedPipelines := e.savedPipelines + if e.pso.Some? then [e.pso.value] else [])
    ensures Mid(h, f, 0, entries, contents)
  {
    assert f.stages[0].bound == e.stages[0].bound && f.stages[1].bound == e.stages[1].bound;
    DrawsStay(e, f, entries, contents);
    StillPending(h, e, f, 0, entries, contents);
    StillPending(h, e, f, 1, entries, contents);
  }

  // ------------------------------------------------ while the encoder is idle

  lemma SameBindable(a: Args, k: Heap, held: set<Id>, b: Binding)
    requires Evolves(a.h, k, held) && a.tables.Ids() <= a.h.objects.Keys
    ensures var c := a.(h := k);
            && c.Bindable(b) == a.Bindable(b) && c.Dynamic(b) == a.Dynamic(b) && c.OffsetOf(b) == a.OffsetOf(b)
            && (a.Bindable(b) && !b.VertexInput? ==> c.Describe(b) == a.Describe(b) && c.ViewOf(b) == a.ViewOf(b))
  {
    if b.Buffer? && b.index < |a.tables.buffers| && a.tables.buffers[b.index].buffer.Some? {
      assert a.tables.buffers[b.index].buffer.value in BufferIds(a.tables.buffers);
    }
  }

  lemma {:induction false} SamePlan(a: Args, k: Heap, held: set<Id>, bs: seq<Binding>)
    requires Evolves(a.h, k, held) && a.tables.Ids() <= a.h.objects.Keys
    requires forall b :: b in bs && Owned(a.info, b, a.dev) ==> a.Bindable(b)
    ensures forall b :: b in bs && Owned(a.info, b, a.dev) ==> a.(h := k).Bindable(b)
    ensures a.(h := k).Plan(bs) == a.Plan(bs) && a.(h := k).Offsets(bs) == a.Offsets(bs)
  {
    forall b | b in bs && Owned(a.info, b, a.dev) ensures a.(h := k).Bindable(b) { SameBindable(a, k, held, b); }
    if bs != [] {
      SamePlan(a, k, held, bs[..|bs| - 1]);
      SameBindable(a, k, held, bs[|bs| - 1]);
    }
  }

  lemma BoundStable(p: Id, s: nat, a: Args, k: Heap, held: set<Id>, entries: seq<Entry>, contents: map<SetId, SetContents>, stream: Stream, st: StageState)
    requires s < 2 && StreamOk(stream) && StageBound(p, s, a, entries, contents, stream, st)
    requires Evolves(a.h, k, held) && a.tables.Ids() <= a.h.objects.Keys
    ensures StageBound(p, s, a.(h := k), entries, contents, stream, st)
  {
    var bs, c := a.info.bindings, a.(h := k);
    forall b | b in bs ensures c.Bindable(b) && (!b.VertexInput? ==> c.ViewOf(b) == a.ViewOf(b)) { SameBindable(a, k, held, b); }
    SamePlan(a, k, held, bs);
    if a.Plan(bs) != [] { KeyStable(a.h, k, a.Plan(bs)); }
  }

  lemma PendingStable(h: Heap, k: Heap, e: Snapshot, held: set<Id>, s: nat, entries: seq<Entry>, contents: map<SetId, SetContents>)
    requires s < 2 && Base(h, e) && Base(k, e) && Pending(h, e, s, true, entries, contents) && Evolves(h, k, held)
    ensures Pending(k, e, s, true, entries, contents)
  {
    hide StageBound, NoLonger, InlinesOk, Tracked, SameObjects, BufferIds, OptionIds;
    if e.descriptorPso.Some? {
      var p := e.descriptorPso.value;
      var l := e.Previous(h, p, s);
      SameObjectsSameIds(e.stages[s].bound, e.last[s].tables);
      BoundStable(p, s, l, k, held, entries, contents, e.stream, e.stages[s]);
      assert e.Previous(k, p, s) == l.(h := k);
    }
  }

  /** Between two calls the rest of the program may release anything the
      encoder does not hold and reuse the addresses: the recorded state stays
      right, and so does the cache. */
  lemma IdleKeepsState(h: Heap, k: Heap, e: Snapshot, held: set<Id>, entries: seq<Entry>, contents: map<SetId, SetContents>)
    requires Mid(h, e, 0, entries, contents) && Evolves(h, k, held) && e.HeldIn(held)
    ensures Mid(k, e, 0, entries, contents)
  {
    assert Base(k, e);
    PendingStable(h, k, e, held, 0, entries, contents);
    PendingStable(h, k, e, held, 1, entries, contents);
  }

  lemma IdleKeepsCache(h: Heap, k: Heap, held: set<Id>, dev: Device, keyHash: (nat, seq<nat>) -> nat, entries: seq<Entry>,
                       plans: seq<seq<Planned>>, contents: map<SetId, SetContents>, lookup: map<nat, multiset<nat>>,
                       available: map<nat, seq<nat>>, nextSet: SetId)
    requires CoherentState(h, dev, keyHash, entries, plans, contents, lookup, available, nextSet) && Evolves(h, k, held)
    ensures CoherentState(k, dev, keyHash, entries, plans, contents, lookup, available, nextSet)
  {
    forall i | 0 <= i < |entries| ensures EntryCoherent(k, dev, contents, entries[i], plans[i]) {
      EntryStable(h, k, held, dev, contents, entries[i], plans[i]);
    }
  }

  // ------------------------------------------------------- tables of setters

  lemma PutBufferIds(s: seq<BufferArg>, i: nat, x: BufferArg, live: set<Id>)
    requires BufferIds(s) <= live && (x.buffer.Some? ==> x.buffer.value in live)
    ensures BufferIds(Placed(s, i, x, NO_BUFFER)) <= live
  {
    var r := Placed(s, i, x, NO_BUFFER);
    forall id | id in BufferIds(r) ensures id in live {
      var k :| 0 <= k < |r| && r[k].buffer == Some(id);
      if k != i { assert k < |s| && s[k] == r[k]; assert id in BufferIds(s); }
    }
  }

  lemma PutOptionIds(s: seq<Option<Id>>, i: nat, x: Option<Id>, live: set<Id>)
    requires OptionIds(s) <= live && (x.Some? ==> x.value in live)
    ensures OptionIds(Placed(s, i, x, None)) <= live
  {
    var r := Placed(s, i, x, None);
    forall id | id in OptionIds(r) ensures id in live {
      var k :| 0 <= k < |r| && r[k] == Some(id);
      if k != i { assert k < |s| && s[k] == r[k]; assert id in OptionIds(s); }
    }
  }

  lemma SetterBuffer(h: Heap, e: Snapshot, f: Snapshot, s: nat, i: nat, x: BufferArg)
    requires Base(h, e) && s < 2 && (x.buffer.Some? ==> x.buffer.value in h.live)
    requires f == e.(stages := e.stages[s := e.stages[s].(tables := WithBuffer(e.stages[s].tables, i, x), dirtyBuffers := true)])
    ensures SetterCall(h, e, f, s)
  {
    PutBufferIds(e.stages[s].tables.buffers, i, x, h.live);
  }

  lemma SetterTexture(h: Heap, e: Snapshot, f: Snapshot, s: nat, i: nat, x: Option<Id>)
    requires Base(h, e) && s < 2 && (x.Some? ==> x.value in h.live)
    requires f == e.(stages := e.stages[s := e.stages[s].(tables := WithTexture(e.stages[s].tables, i, x), dirtyTextures := true)])
    ensures SetterCall(h, e, f, s)
  {
    PutOptionIds(e.stages[s].tables.textures, i, x, h.live);
  }

  lemma SetterSampler(h: Heap, e: Snapshot, f: Snapshot, s: nat, i: nat, x: Option<Id>)
    requires Base(h, e) && s < 2 && (x.Some? ==> x.value in h.live)
    requires f == e.(stages := e.stages[s := e.stages[s].(tables := WithSampler(e.stages[s].tables, i, x), dirtySamplers := true)])
    ensures SetterCall(h, e, f, s)
  {
    PutOptionIds(e.stages[s].tables.samplers, i, x, h.live);
  }

  lemma SetterInline(h: Heap, e: Snapshot, f: Snapshot, s: nat, i: nat, buffer: Id, offset: nat, length: nat)
    requires Base(h, e) && s < 2 && buffer in h.live && length > 0
    requires f == e.(stages := e.stages[s := WithInline(e.stages[s], i, buffer, offset, length)], keepAlive := f.keepAlive)
    requires f.keepAlive == e.keepAlive || f.keepAlive == e.keepAlive + [buffer]
    ensures SetterCall(h, e, f, s)
  {
    hide Heap.Valid, Pipeline.Valid, BufferIds, OptionIds;
    PutBufferIds(e.stages[s].tables.buffers, i, BufferArg(Some(buffer), offset), h.live);
  }

  lemma SlotLive(h: Heap, e: Snapshot, s: nat, i: nat)
    requires Base(h, e) && s < 2 && i < |e.stages[s].tables.buffers| && e.stages[s].tables.buffers[i].buffer.Some?
    ensures e.stages[s].tables.buffers[i].buffer.value in h.live
  {
    assert e.stages[s].tables.buffers[i].buffer.value in BufferIds(e.stages[s].tables.buffers);
  }

  /** A stage after setBytes: the slice is bound and its length remembered. */
  function WithInline(st: StageState, index: nat, buffer: Id, offset: nat, length: nat): StageState {
    st.(tables := WithBuffer(st.tables, index, BufferArg(Some(buffer), offset)),
        inlines := Placed(st.inlines, index, InlineRange(Some(buffer), offset, length), NO_RANGE), dirtyBuffers := true)
  }

  lemma InlineFacts(was: StageState, is_: StageState, i: nat, slice: Slice)
    requires is_ == WithInline(was, i, slice.buffer, slice.offset, |slice.bytes|)
    ensures is_.tables == WithBuffer(was.tables, i, BufferArg(Some(slice.buffer), slice.offset))
    ensures is_.inlines == Placed(was.inlines, i, RangeOf(Some(slice)), NO_RANGE)
  {
  }

  // ------------------------------------------------- facts the methods start from

  lemma Shape(h: Heap, e: Snapshot, done: nat, entries: seq<Entry>, contents: map<SetId, SetContents>)
    requires Mid(h, e, done, entries, contents)
    ensures Base(h, e) && |e.stages| == 2 && |e.last| == 2 && StreamOk(e.stream)
    ensures e.pso.Some? ==> e.pso.value in h.live && e.pso.value in h.pipelines && h.pipelines[e.pso.value].Valid()
    ensures e.pso.Some? ==> |h.pipelines[e.pso.value].functions| == |h.pipelines[e.pso.value].layouts| == 2
  {
    hide DrawsOk, Pending, Updated, VertexKept;
  }

  lemma TableFacts(h: Heap, e: Snapshot, s: nat)
    requires Base(h, e) && s < 2
    ensures e.stages[s].tables.Ids() <= h.live && InlinesOk(e.stages[s].inlines) && NoLonger(e.stages[s].bound, e.stages[s].tables)
    ensures forall id :: id in e.keepAlive ==> id in h.live
  {
  }

  lemma StageFacts(h: Heap, e: Snapshot, s: nat, entries: seq<Entry>, contents: map<SetId, SetContents>)
    requires s < 2 && Mid(h, e, s, entries, contents) && e.pso.Some?
    ensures Base(h, e)
    ensures var p := e.pso.value; var psoChanged := e.descriptorPso != e.pso;
            && StageArgs(e.Current(h, p, s), e.Previous(h, p, s), e.stages[s], psoChanged)
            && (!psoChanged ==> StageBound(p, s, e.Previous(h, p, s), entries, contents, e.stream, e.stages[s]))
  {
    PendingFacts(h, e, s, s == 0, entries, contents);
  }

  lemma VertexFacts(h: Heap, e: Snapshot, inputs: seq<nat>, entries: seq<Entry>, contents: map<SetId, SetContents>)
    requires Mid(h, e, 2, entries, contents) && e.pso.Some? && inputs == h.pipelines[e.pso.value].vertexInputs
    ensures Base(h, e) && |e.stages| == 2 && |e.last| == 2
    ensures |e.vertexArgs| <= |e.stream.vertex| && e.stream.vertex[..|e.vertexArgs|] == e.vertexArgs
    ensures e.descriptorPso == e.pso && e.stages[0].tables.buffers == e.last[0].tables.buffers ==>
              VertexShown(e.stages[0].tables, inputs, e.stream.vertex)
  {
    if e.descriptorPso == e.pso && e.stages[0].tables.buffers == e.last[0].tables.buffers {
      assert VertexArgs(e.stages[0].tables, inputs) == VertexArgs(e.last[0].tables, inputs);
    }
  }

  lemma DirtyFacts(h: Heap, e: Snapshot, entries: seq<Entry>, contents: map<SetId, SetContents>)
    requires Mid(h, e, 0, entries, contents)
    ensures |e.stages| == 2 && |e.last| == 2
    ensures !e.stages[0].dirtyBuffers ==> e.descriptorPso == e.pso && e.stages[0].tables.buffers == e.last[0].tables.buffers
  {
    assert Pending(h, e, 0, true, entries, contents);
  }

  lemma PendingFacts(h: Heap, e: Snapshot, s: nat, settled: bool, entries: seq<Entry>, contents: map<SetId, SetContents>)
    requires s < 2 && Base(h, e) && Pending(h, e, s, settled, entries, contents) && e.pso.Some?
    ensures var p := e.pso.value; var psoChanged := e.descriptorPso != e.pso;
            && StageArgs(e.Current(h, p, s), e.Previous(h, p, s), e.stages[s], psoChanged)
            && (!psoChanged ==> StageBound(p, s, e.Previous(h, p, s), entries, contents, e.stream, e.stages[s]))
  {
    var p := e.pso.value;
    CurrentValid(h, e, p, s);
    PreviousValid(h, e, p, s);
  }

  lemma OwnerKnown(h: Heap, e: Snapshot, s: nat, entries: seq<Entry>, contents: map<SetId, SetContents>)
    requires s < 2 && Mid(h, e, s, entries, contents) && e.pso.Some? && Relevant(e, 1 - s, s)
    ensures HasDescriptors(e.Current(h, e.pso.value, 1 - s).info) ==> e.stream.owner == Some(e.pso.value)
  {
    hide DrawsOk, VertexKept, Tables.Ids, Heap.Valid, Pipeline.Valid, NoLonger, InlinesOk, Tracked, SameObjects, PushesShown, SetShown, Args.Complete;
    if s == 1 { assert Updated(h, e, 0, entries, contents); } else { assert Pending(h, e, 1, true, entries, contents); }
  }

  /** One stage's step, put together from what was shown and what was retained. */
  lemma StageStep(h: Heap, e: Snapshot, f: Snapshot, s: nat, st: StageState, before: seq<Entry>, after: seq<Entry>,
                  was: map<SetId, SetContents>, is_: map<SetId, SetContents>)
    requires s < 2 && Mid(h, e, s, before, was) && e.pso.Some? && |f.stages| == 2
    requires f == e.(stages := e.stages[s := f.stages[s]], saved := f.saved, stream := f.stream)
    requires StreamOk(f.stream) && f.stream.vertex == e.stream.vertex && Preserved(before, after, was, is_)
    requires st == e.stages[s].(set_ := st.set_, key := st.key, dynamicOffsets := st.dynamicOffsets)
    requires StageBound(e.pso.value, s, e.Current(h, e.pso.value, s), after, is_, f.stream, st)
    requires var other := e.Current(h, e.pso.value, 1 - s);
             (HasDescriptors(other.info) ==> e.stream.owner == Some(e.pso.value)) ==> StreamKeeps(e.pso.value, 1 - s, other, e.stream, f.stream)
    requires f.stages[s] == st.(bound := f.stages[s].bound) && SameObjects(f.stages[s].bound, st.tables) && NoLonger(f.stages[s].bound, st.tables)
    requires f.saved.Ids() <= e.saved.Ids() + st.bound.Ids() && e.saved.Ids() <= f.saved.Ids()
    requires e.retain ==> Covers(f.stages[s].bound, f.saved, st.bound)
    ensures Mid(h, f, s + 1, after, is_)
  {
    hide Mid, DrawsOk, Pending, Updated, VertexKept;
    StageFacts(h, e, s, before, was);
    if Relevant(e, 1 - s, s) { OwnerKnown(h, e, s, before, was); }
    BoundAlike(e.pso.value, s, e.Current(h, e.pso.value, s), after, is_, f.stream, st, f.stages[s]);
    MidStep(h, e, f, s, before, after, was, is_);
  }

  /** The recorded draw answers the calls before it. */
  lemma RecordMeant(h: Heap, e: Snapshot, f: Snapshot, d: Draw, entries: seq<Entry>, contents: map<SetId, SetContents>, calls: seq<Call>, marks: seq<nat>)
    requires Mid(h, e, 0, entries, contents) && Meant(h, e, calls, marks) && e.pso.Some? && e.pso.value in h.pipelines && h.pipelines[e.pso.value].Valid()
    requires f == e.(draws := e.draws + [d]) && |e.stages| == 2 && d.pso == e.pso.value
    requires d.args == [e.Current(h, e.pso.value, 0), e.Current(h, e.pso.value, 1)]
    ensures Meant(h, f, calls, marks + [|calls|])
  {
    hide DrawsOk, Pending, VertexKept, StageBase, BufferIds, OptionIds, Meant;
    MeantDraw(h, e, f, calls, marks, d);
  }

  /** One setBytes call: everything but the inline allocator. */
  lemma InlineCall(h: Heap, e: Snapshot, f: Snapshot, s: nat, i: nat, slice: Slice, slices: seq<Slice>, entries: seq<Entry>, contents: map<SetId, SetContents>,
                   calls: seq<Call>, marks: seq<nat>)
    requires Mid(h, e, 0, entries, contents) && Meant(h, e, calls, marks) && BytesKept(calls, slices) && s < 2 && |e.stages| == 2
    requires slice.buffer in h.live && slice.bytes != [] && slice.buffer in h.objects && slice.offset + |slice.bytes| <= h.objects[slice.buffer].length
    requires f == e.(stages := e.stages[s := WithInline(e.stages[s], i, slice.buffer, slice.offset, |slice.bytes|)], keepAlive := f.keepAlive)
    requires f.keepAlive == e.keepAlive || f.keepAlive == e.keepAlive + [slice.buffer]
    ensures Mid(h, f, 0, entries, contents) && Meant(h, f, calls + [BytesCall(s, i, slice)], marks)
    ensures BytesKept(calls + [BytesCall(s, i, slice)], slices + [slice])
    ensures SlotSet(e.stages[s].tables.buffers, f.stages[s].tables.buffers, i, BufferArg(Some(slice.buffer), slice.offset), NO_BUFFER)
  {
    hide Mid, Base, Meant, BytesKept, SlotSet, WithInline, SetterCall;
    Shape(h, e, 0, entries, contents);
    SetterInline(h, e, f, s, i, slice.buffer, slice.offset, |slice.bytes|);
    TouchStage(h, e, f, s, entries, contents);
    InlineFacts(e.stages[s], f.stages[s], i, slice);
    AfterBytes(h, e, f, calls, marks, slices, s, i, slice);
  }

  // -------------------------------------------------------------- the encoder

  const INITIAL_SNAPSHOT_STAGES := [INITIAL_STAGE, INITIAL_STAGE]
  const NO_LAST := Last(NO_TABLES, [])

  class RenderEncoder {
    const dev: Device
    /** Whether the command buffer retains what it references. */
    const retain: bool
    const arena: DescriptorArena
    const inline: InlineAllocator

    var pso: Option<Id>
    var savedPipelines: seq<Id>
    var descriptorPso: Option<Id>
    var stages: seq<StageState>
    var saved: Tables
    var keepAlive: seq<Id>
    var vertexArgs: seq<BufferArg>
    /** What the command buffer has recorded as bound. */
    var stream: Stream
    ghost var last: seq<Last>
    /** Every draw recorded so far. */
    ghost var draws: seq<Draw>
    /** The calls of the application, and how many came before each draw. */
    ghost var calls: seq<Call>
    ghost var marks: seq<nat>

    ghost function State(): Snapshot
      reads this
    {
      Snapshot(dev, retain, pso, savedPipelines, descriptorPso, stages, saved, keepAlive, vertexArgs, stream, last, draws)
    }

    /** Includes: every recorded draw shows what a rebind-everything binder
        would have shown it, and no set it reads will be rewritten. */
    ghost predicate Valid(h: Heap)
      reads this, arena, inline
    {
      && arena.dev == dev && arena.Coherent(h) && inline.Valid() && Backed(h, inline.memory)
      && Mid(h, State(), 0, arena.entries, arena.contents)
      && Meant(h, State(), calls, marks) && BytesKept(calls, inline.slices)
      && (inline.buffer.Some? ==> inline.buffer.value in keepAlive)
      && forall i :: 0 <= i < |inline.slices| ==> inline.slices[i].buffer in keepAlive
    }

    /** An encoder takes over an arena whose previous owner completed. */
    constructor (h: Heap, dev: Device, retain: bool, arena: DescriptorArena, inline: InlineAllocator)
      requires h.Valid() && dev.offsetAlignment > 0 && arena.dev == dev && arena.Coherent(h)
      requires inline.Valid() && inline.slices == [] && inline.memory == map[]
      modifies arena
      ensures Valid(h) && this.dev == dev && this.retain == retain && this.arena == arena && this.inline == inline
      ensures pso == None && draws == [] && calls == [] && marks == [] && stages == INITIAL_SNAPSHOT_STAGES
      ensures |arena.entries| == |old(arena.entries)| && arena.contents == old(arena.contents)
      ensures forall i :: 0 <= i < |arena.entries| ==> arena.entries[i] == old(arena.entries)[i].(used := false)
    {
      this.dev, this.retain, this.arena, this.inline := dev, retain, arena, inline;
      pso, savedPipelines, descriptorPso, stages := None, [], None, INITIAL_SNAPSHOT_STAGES;
      saved, keepAlive, vertexArgs, stream, last, draws := NO_TABLES, [], [], EMPTY_STREAM, [NO_LAST, NO_LAST], [];
      calls, marks := [], [];
      new;
      InitiallyMeant(h, State());
      arena.Reset(h);
    }

    method SetRenderPipelineState(h: Heap, p: Option<Id>)
      requires Valid(h) && (p.Some? ==> p.value in h.pipelines && p.value in h.live)
      modifies this`pso, this`savedPipelines, this`stages, this`calls
      ensures Valid(h) && pso == p && calls == old(calls) + [PipelineCall(p)]
      ensures p == old(pso) ==> State() == old(State())
    {
      hide Mid, CoherentState, Base, Tables.Ids, BufferIds, OptionIds, Heap.Valid, Pipeline.Valid, NoLonger, InlinesOk, Intact, Backed, Meant, BytesKept, SlotSet;
      Shape(h, State(), 0, arena.entries, arena.contents);
      calls := calls + [PipelineCall(p)];
      if pso == p {
        MeantPipeline(h, State(), State(), old(calls), marks, inline.slices, p);
        return;
      }
      if pso.Some? { savedPipelines := savedPipelines + [pso.value]; }
      pso := p;
      stages := [stages[0].AllDirty(), stages[1].AllDirty()];
      SwitchPipeline(h, old(State()), State(), p, arena.entries, arena.contents);
      MeantPipeline(h, old(State()), State(), old(calls), marks, inline.slices, p);
    }

    /** setVertexBuffer / setFragmentBuffer. */
    method SetBuffer(h: Heap, s: nat, buffer: Option<Id>, offset: nat, index: nat)
      requires Valid(h) && s < 2 && (buffer.Some? ==> buffer.value in h.live)
      modifies this`stages, this`calls
      ensures Valid(h) && |stages| == |old(stages)| == 2 && stages[1 - s] == old(stages)[1 - s]
      ensures stages[s].tables == WithBuffer(old(stages)[s].tables, index, BufferArg(buffer, offset))
      ensures calls == old(calls) + [BufferCall(s, index, BufferArg(buffer, offset))]
      ensures SlotSet(old(stages)[s].tables.buffers, stages[s].tables.buffers, index, BufferArg(buffer, offset), NO_BUFFER)
    {
      hide Mid, CoherentState, Base, Tables.Ids, BufferIds, OptionIds, Heap.Valid, Pipeline.Valid, NoLonger, InlinesOk, Intact, Backed, Meant, BytesKept, SlotSet;
      Shape(h, State(), 0, arena.entries, arena.contents);
      var t := stages[s].tables;
      calls := calls + [BufferCall(s, index, BufferArg(buffer, offset))];
      if index < |t.buffers| && t.buffers[index] == BufferArg(buffer, offset) {
        PlacedSame(t.buffers, index, NO_BUFFER);
        AfterBuffer(h, State(), State(), old(calls), marks, inline.slices, s, index, BufferArg(buffer, offset));
        return;
      }
      stages := stages[s := stages[s].(tables := WithBuffer(t, index, BufferArg(buffer, offset)), dirtyBuffers := true)];
      SetterBuffer(h, old(State()), State(), s, index, BufferArg(buffer, offset));
      TouchStage(h, old(State()), State(), s, arena.entries, arena.contents);
      AfterBuffer(h, old(State()), State(), old(calls), marks, inline.slices, s, index, BufferArg(buffer, offset));
    }

    /** setVertexBufferOffset / setFragmentBufferOffset; the slot must exist. */
    method SetBufferOffset(h: Heap, s: nat, offset: nat, index: nat)
      requires Valid(h) && s < 2 && |stages| == 2 && index < |stages[s].tables.buffers|
      modifies this`stages, this`calls
      ensures Valid(h) && |stages| == |old(stages)| == 2 && stages[1 - s] == old(stages)[1 - s]
      ensures stages[s].tables == WithBuffer(old(stages)[s].tables, index, BufferArg(old(stages)[s].tables.buffers[index].buffer, offset))
      ensures calls == old(calls) + [OffsetCall(s, index, offset)]
      ensures SlotSet(old(stages)[s].tables.buffers, stages[s].tables.buffers, index, BufferArg(old(stages)[s].tables.buffers[index].buffer, offset), NO_BUFFER)
    {
      hide Mid, CoherentState, Base, Tables.Ids, BufferIds, OptionIds, Heap.Valid, Pipeline.Valid, NoLonger, InlinesOk, Intact, Backed, Meant, BytesKept, SlotSet;
      Shape(h, State(), 0, arena.entries, arena.contents);
      var t := stages[s].tables;
      calls := calls + [OffsetCall(s, index, offset)];
      if t.buffers[index].offset == offset {
        PlacedSame(t.buffers, index, NO_BUFFER);
        AfterOffset(h, State(), State(), old(calls), marks, inline.slices, s, index, offset);
        return;
      }
      stages := stages[s := stages[s].(tables := t.(buffers := t.buffers[index := t.buffers[index].(offset := offset)]), dirtyBuffers := true)];
      if t.buffers[index].buffer.Some? { SlotLive(h, old(State()), s, index); }
      SetterBuffer(h, old(State()), State(), s, index, BufferArg(t.buffers[index].buffer, offset));
      TouchStage(h, old(State()), State(), s, arena.entries, arena.contents);
      AfterOffset(h, old(State()), State(), old(calls), marks, inline.slices, s, index, offset);
    }

    /** setVertexTexture / setFragmentTexture. */
    method SetTexture(h: Heap, s: nat, texture: Option<Id>, index: nat)
      requires Valid(h) && s < 2 && (texture.Some? ==> texture.value in h.live)
      modifies this`stages, this`calls
      ensures Valid(h) && |stages| == |old(stages)| == 2 && stages[1 - s] == old(stages)[1 - s]
      ensures stages[s].tables == WithTexture(old(stages)[s].tables, index, texture)
      ensures calls == old(calls) + [TextureCall(s, index, texture)]
      ensures SlotSet(old(stages)[s].tables.textures, stages[s].tables.textures, index, texture, None)
    {
      hide Mid, CoherentState, Base, Tables.Ids, BufferIds, OptionIds, Heap.Valid, Pipeline.Valid, NoLonger, InlinesOk, Intact, Backed, Meant, BytesKept, SlotSet;
      Shape(h, State(), 0, arena.entries, arena.contents);
      var t := stages[s].tables;
      calls := calls + [TextureCall(s, index, texture)];
      if index < |t.textures| && t.textures[index] == texture {
        PlacedSame(t.textures, index, None);
        AfterTexture(h, State(), State(), old(calls), marks, inline.slices, s, index, texture);
        return;
      }
      stages := stages[s := stages[s].(tables := WithTexture(t, index, texture), dirtyTextures := true)];
      SetterTexture(h, old(State()), State(), s, index, texture);
      TouchStage(h, old(State()), State(), s, arena.entries, arena.contents);
      AfterTexture(h, old(State()), State(), old(calls), marks, inline.slices, s, index, texture);
    }

    /** setVertexSamplerState / setFragmentSamplerState.  With LOD clamps the
        caller passes the clamped clone, and the early return does not apply. */
    method SetSampler(h: Heap, s: nat, sampler: Option<Id>, clamped: bool, index: nat)
      requires Valid(h) && s < 2 && (sampler.Some? ==> sampler.value in h.live)
      modifies this`stages, this`calls
      ensures Valid(h) && |stages| == |old(stages)| == 2 && stages[1 - s] == old(stages)[1 - s]
      ensures stages[s].tables == WithSampler(old(stages)[s].tables, index, sampler)
      ensures calls == old(calls) + [SamplerCall(s, index, sampler)]
      ensures SlotSet(old(stages)[s].tables.samplers, stages[s].tables.samplers, index, sampler, None)
    {
      hide Mid, CoherentState, Base, Tables.Ids, BufferIds, OptionIds, Heap.Valid, Pipeline.Valid, NoLonger, InlinesOk, Intact, Backed, Meant, BytesKept, SlotSet;
      Shape(h, State(), 0, arena.entries, arena.contents);
      var t := stages[s].tables;
      calls := calls + [SamplerCall(s, index, sampler)];
      if !clamped && index < |t.samplers| && t.samplers[index] == sampler {
        PlacedSame(t.samplers, index, None);
        AfterSampler(h, State(), State(), old(calls), marks, inline.slices, s, index, sampler);
        return;
      }
      stages := stages[s := stages[s].(tables := WithSampler(t, index, sampler), dirtySamplers := true)];
      SetterSampler(h, old(State()), State(), s, index, sampler);
      TouchStage(h, old(State()), State(), s, arena.entries, arena.contents);
      AfterSampler(h, old(State()), State(), old(calls), marks, inline.slices, s, index, sampler);
    }

    /** setVertexBytes / setFragmentBytes: the bytes become a slice of a buffer
        that the encoder keeps alive, bound with exactly their length. */
    method SetInlineBytes(h: Heap, s: nat, bytes: seq<bv8>, index: nat, created: Id, contents: seq<bv8>) returns (ok: bool)
      requires Valid(h) && s < 2 && created !in inline.memory && |contents| == Max(CHUNK, |bytes|)
      requires created in h.live && created in h.objects && h.objects[created].length == |contents|
      modifies this`stages, this`keepAlive, this`calls, inline
      ensures Valid(h)
      ensures ok <==> bytes != []
      ensures !ok ==> State() == old(State()) && inline.slices == old(inline.slices) && calls == old(calls)
      ensures ok ==> |inline.slices| == |old(inline.slices)| + 1 && inline.slices[..|old(inline.slices)|] == old(inline.slices)
      ensures ok ==> |stages| == |old(stages)| == 2 && stages[1 - s] == old(stages)[1 - s]
      ensures ok ==> var slice := inline.slices[|old(inline.slices)|];
                     && slice.bytes == bytes && slice.offset % inline.alignment == 0
                     && slice.buffer in h.objects && slice.offset + |bytes| <= h.objects[slice.buffer].length
                     && stages[s] == WithInline(old(stages)[s], index, slice.buffer, slice.offset, |bytes|)
                     && calls == old(calls) + [BytesCall(s, index, slice)]
                     && SlotSet(old(stages)[s].tables.buffers, stages[s].tables.buffers, index, BufferArg(Some(slice.buffer), slice.offset), NO_BUFFER)
    {
      hide Mid, CoherentState, Base, Tables.Ids, BufferIds, OptionIds, Heap.Valid, Pipeline.Valid, NoLonger, InlinesOk, Intact, WithInline, SetterCall, Backed, Extends, Meant, BytesKept, SlotSet;
      Shape(h, State(), 0, arena.entries, arena.contents);
      var before := inline.buffer;
      var at := inline.Append(bytes, created, contents);
      StillBacked(h, old(inline.memory), inline.memory, created, |contents|);
      if at.None? { return false; }
      var slice := at.value;
      BackedSlice(h, inline.memory, inline.alignment, slice);
      SliceAligned(inline.memory, inline.alignment, slice);
      TableFacts(h, old(State()), s);
      if inline.buffer != before { keepAlive := keepAlive + [slice.buffer]; }
      stages := stages[s := WithInline(stages[s], index, slice.buffer, slice.offset, |bytes|)];
      calls := calls + [BytesCall(s, index, slice)];
      InlineCall(h, old(State()), State(), s, index, slice, old(inline.slices), arena.entries, arena.contents, old(calls), marks);
      return true;
    }

    /** Between two calls the rest of the program may release and create
        objects, reusing addresses; only what the encoder holds must survive. */
    lemma Idle(h: Heap, k: Heap, held: set<Id>)
      requires Valid(h) && Evolves(h, k, held) && |stages| == 2 && State().HeldIn(held)
      ensures Valid(k)
    {
      MeantIdle(h, k, held, State(), calls, marks);
      IdleKeepsState(h, k, State(), held, arena.entries, arena.contents);
      IdleKeepsCache(h, k, held, dev, arena.keyHash, arena.entries, arena.plans, arena.contents, arena.lookup, arena.available, arena.nextSet);
    }

    /** In every state, every draw recorded so far reads what the calls before it
        set: the last buffer, offset, texture or sampler of each slot, the bytes
        of a setBytes call, the rest of a buffer otherwise. */
    lemma DrawsReadCalls(h: Heap)
      requires Valid(h)
      ensures |marks| == |draws|
      ensures forall i :: 0 <= i < |draws| ==> marks[i] <= |calls| && DrawMeans(draws[i], calls[..marks[i]], arena.contents)
    {
      hide DrawShows, ArgsMean, CoherentState, Pending, VertexKept, StreamOk;
      forall i | 0 <= i < |draws| ensures marks[i] <= |calls| && DrawMeans(draws[i], calls[..marks[i]], arena.contents) {
        assert DrawMeant(draws[i], marks[i], calls);
        assert draws[i] in draws;
        ShownStream(draws[i], arena.contents);
        ShownMeans(draws[i], calls[..marks[i]], arena.contents);
      }
    }

    /** setBytes data is what the shader reads: its bytes are still there. */
    lemma BytesStay(h: Heap, s: nat, k: nat)
      requires Valid(h) && BytesAt(calls, s, k).Some?
      ensures var slice := BytesAt(calls, s, k).value;
              && slice.buffer in inline.memory && slice.offset + |slice.bytes| <= |inline.memory[slice.buffer]|
              && inline.memory[slice.buffer][slice.offset..slice.offset + |slice.bytes|] == slice.bytes
    {
      BytesFromCalls(calls, inline.slices, s, k);
    }

    /** A draw would succeed exactly if the device can show what the calls set. */
    lemma DrawableExactly(h: Heap)
      requires Valid(h) && pso.Some? && pso.value in h.pipelines && h.pipelines[pso.value].Valid() && |stages| == 2
      ensures (State().Current(h, pso.value, 0).Complete() && State().Current(h, pso.value, 1).Complete()) <==>
                forall s, b :: 0 <= s < 2 && b in h.pipelines[pso.value].functions[s].bindings ==>
                  Showable(h, calls, h.pipelines[pso.value].functions[s], dev, s, b)
    {
      hide CoherentState, Showable, DrawsOk, Pending, VertexKept, StageBase, Answers, InlinesInside, DrawMeant, Args.Bindable, BufferIds, OptionIds, Intact, Backed;
      forall s, b | 0 <= s < 2 && b in h.pipelines[pso.value].functions[s].bindings
        ensures State().Current(h, pso.value, s).Bindable(b) <==> Showable(h, calls, h.pipelines[pso.value].functions[s], dev, s, b)
      {
        BindableExactly(State().Current(h, pso.value, s), s, calls, b);
      }
    }

    /** One stage of `UpdateBindings`. */
    method UpdateStage(h: Heap, s: nat, psoChanged: bool) returns (ok: bool)
      requires s < 2 && pso.Some? && psoChanged == (descriptorPso != pso)
      requires arena.dev == dev && arena.Coherent(h) && Mid(h, State(), s, arena.entries, arena.contents)
      modifies this`stages, this`saved, this`stream, arena
      ensures arena.Coherent(h)
      ensures pso.value in h.pipelines && h.pipelines[pso.value].Valid() && |old(stages)| == 2
      ensures ok <==> old(State()).Current(h, pso.value, s).Complete()
      ensures ok ==> Mid(h, State(), s + 1, arena.entries, arena.contents)
      ensures ok ==> |stages| == 2 && stages[1 - s] == old(stages)[1 - s] && stream.vertex == old(stream).vertex
      ensures ok ==> stages[s] == old(stages)[s].(bound := stages[s].bound, set_ := stages[s].set_, key := stages[s].key,
                                                  dynamicOffsets := stages[s].dynamicOffsets)
    {
      hide Mid, CoherentState, Base, StageBound, StreamKeeps, Preserved, StageArgs, SameObjects, Covers, Tables.Ids, BufferIds, OptionIds, Heap.Valid, Pipeline.Valid, NoLonger, InlinesOk, Args.Valid, Args.Complete;
      Shape(h, State(), s, arena.entries, arena.contents);
      TableFacts(h, State(), s);
      StageFacts(h, State(), s, arena.entries, arena.contents);
      var p := pso.value;
      var info := h.pipelines[p].functions[s];
      var a := Args(h, dev, info, stages[s].tables, stages[s].inlines);
      ghost var e := State();
      var st, next;
      ok, st, next := ShowStage(arena, h, p, h.pipelines[p].layouts[s], s, a, e.Previous(h, p, s), e.Current(h, p, 1 - s),
                                psoChanged, stages[s], stream);
      if !ok { return; }
      stream := next;
      var retained, kept := Retain(st, saved, retain);
      stages := stages[s := retained];
      saved := kept;
      StageStep(h, e, State(), s, st, old(arena.entries), arena.entries, old(arena.contents), arena.contents);
    }

    /** The buffers of the vertex inputs, in input order. */
    method GatherVertexArgs(tables: Tables, inputs: seq<nat>) returns (args: seq<BufferArg>)
      ensures args == VertexArgs(tables, inputs)
    {
      args := [];
      for i := 0 to |inputs|
        invariant args == VertexArgs(tables, inputs)[..i]
      {
        args := args + [if inputs[i] >= |tables.buffers| then NO_BUFFER else tables.buffers[inputs[i]]];
      }
    }

    /** Rebinds the vertex buffers when they may have changed. */
    method BindVertexBuffers(inputs: seq<nat>)
      requires |stages| == 2 && |vertexArgs| <= |stream.vertex| && stream.vertex[..|vertexArgs|] == vertexArgs
      requires !stages[0].dirtyBuffers ==> VertexShown(stages[0].tables, inputs, stream.vertex)
      modifies this`stream, this`vertexArgs
      ensures (stream == old(stream) && vertexArgs == old(vertexArgs)) || stream == old(stream).BindVertex(vertexArgs)
      ensures VertexShown(stages[0].tables, inputs, stream.vertex)
      ensures !stages[0].dirtyBuffers || inputs == [] || old(vertexArgs) == VertexArgs(stages[0].tables, inputs) ==>
                stream == old(stream) && vertexArgs == old(vertexArgs)
    {
      if stages[0].dirtyBuffers && |inputs| > 0 {
        var args := GatherVertexArgs(stages[0].tables, inputs);
        if args != vertexArgs {
          stream := stream.BindVertex(args);
          vertexArgs := args;
        }
      }
    }

    /** The end of an update: vertex buffers, then the dirty bits. */
    method Finish(h: Heap)
      requires pso.Some? && Mid(h, State(), 2, arena.entries, arena.contents) && |stages| == 2 && |last| == 2
      requires !stages[0].dirtyBuffers ==> descriptorPso == pso && stages[0].tables.buffers == last[0].tables.buffers
      modifies this`stages, this`stream, this`descriptorPso, this`vertexArgs, this`last
      ensures Mid(h, State(), 0, arena.entries, arena.contents) && descriptorPso == pso
      ensures stages == [Cleaned(old(stages)[0]), Cleaned(old(stages)[1])]
    {
      hide Mid, Base, Heap.Valid, Pipeline.Valid, VertexShown;
      Shape(h, State(), 2, arena.entries, arena.contents);
      ghost var e := State();
      var inputs := h.pipelines[pso.value].vertexInputs;
      VertexFacts(h, e, inputs, arena.entries, arena.contents);
      descriptorPso := pso;
      BindVertexBuffers(inputs);
      stages, last := [Cleaned(stages[0]), Cleaned(stages[1])], [LastOf(stages[0]), LastOf(stages[1])];
      FinishUpdate(h, e, State(), vertexArgs, arena.entries, arena.contents);
    }

    /** The per-stage loop of an update. */
    method UpdateStages(h: Heap, psoChanged: bool) returns (ok: bool)
      requires pso.Some? && psoChanged == (descriptorPso != pso)
      requires arena.dev == dev && arena.Coherent(h) && Mid(h, State(), 0, arena.entries, arena.contents)
      modifies this`stages, this`saved, this`stream, arena
      ensures pso.value in h.pipelines && h.pipelines[pso.value].Valid() && |old(stages)| == 2
      ensures ok <==> old(State()).Current(h, pso.value, 0).Complete() && old(State()).Current(h, pso.value, 1).Complete()
      ensures ok ==> arena.Coherent(h) && Mid(h, State(), 2, arena.entries, arena.contents) && |stages| == 2
      ensures ok ==> forall t :: 0 <= t < 2 ==> UnchangedInputs(old(stages)[t], stages[t])
    {
      hide Mid, CoherentState, Base, StageBound, Tables.Ids, BufferIds, OptionIds, Heap.Valid, Pipeline.Valid, NoLonger, InlinesOk, Args.Complete, Backed, Meant, BytesKept;
      Shape(h, State(), 0, arena.entries, arena.contents);
      ghost var e := State();
      ok := true;
      for s := 0 to 2
        invariant arena.Coherent(h) && Mid(h, State(), s, arena.entries, arena.contents)
        invariant State() == e.(stages := stages, saved := saved, stream := stream)
        invariant |stages| == 2
        invariant forall t :: 0 <= t < 2 ==> UnchangedInputs(e.stages[t], stages[t])
        invariant forall t :: 0 <= t < s ==> e.Current(h, pso.value, t).Complete()
      {
        assert State().Current(h, pso.value, s) == e.Current(h, pso.value, s);
        if stages[s].Dirty() {
          ok := UpdateStage(h, s, psoChanged);
          if !ok { return; }
        } else {
          CleanStage(h, State(), s, arena.entries, arena.contents);
        }
      }
    }

    /** updateBindings.  It fails exactly when a binder that examines every
        binding of both stages would fail; the state is then unspecified. */
    method UpdateBindings(h: Heap) returns (ok: bool)
      requires Valid(h) && pso.Some?
      modifies this`stages, this`saved, this`stream, this`descriptorPso, this`vertexArgs, this`last, arena
      ensures pso.value in h.pipelines && h.pipelines[pso.value].Valid() && |old(stages)| == 2
      ensures ok <==> old(State()).Current(h, pso.value, 0).Complete() && old(State()).Current(h, pso.value, 1).Complete()
      ensures ok ==> Valid(h) && descriptorPso == pso && |stages| == 2 && !stages[0].Dirty() && !stages[1].Dirty()
      ensures ok ==> forall s :: 0 <= s < 2 ==> stages[s].tables == old(stages)[s].tables && stages[s].inlines == old(stages)[s].inlines
    {
      hide Mid, CoherentState, Base, StageBound, Tables.Ids, BufferIds, OptionIds, Heap.Valid, Pipeline.Valid, NoLonger, InlinesOk, Args.Complete, Backed, Meant, BytesKept;
      Shape(h, State(), 0, arena.entries, arena.contents);
      DirtyFacts(h, State(), arena.entries, arena.contents);
      if !stages[0].Dirty() && !stages[1].Dirty() {
        CleanState(h, State(), arena.entries, arena.contents);
        return true;
      }
      ok := UpdateStages(h, descriptorPso != pso);
      if !ok { return; }
      Finish(h);
      MeantSame(h, old(State()), State(), calls, marks);
    }

    /** drawPrimitives / drawIndexedPrimitives.  The draw records the bound
        state; it and every earlier draw show exactly the arguments that were
        set when they were recorded, as a binder that rewrites every binding
        before every draw would have shown them. */
    method Draw(h: Heap) returns (ok: bool)
      requires Valid(h) && pso.Some?
      modifies this`stages, this`saved, this`stream, this`descriptorPso, this`vertexArgs, this`last, this`draws, this`marks, arena
      ensures pso.value in h.pipelines && h.pipelines[pso.value].Valid() && |old(stages)| == 2
      ensures ok <==> old(State()).Current(h, pso.value, 0).Complete() && old(State()).Current(h, pso.value, 1).Complete()
      ensures ok ==> Valid(h) && (forall d :: d in draws ==> DrawShows(d, arena.contents)) && marks == old(marks) + [|calls|]
      ensures ok ==> draws == old(draws) + [DrawOf(pso.value, h.pipelines[pso.value].vertexInputs,
                                                   old(State()).Current(h, pso.value, 0), old(State()).Current(h, pso.value, 1), stream)]
    {
      hide Mid, CoherentState, Tables.Ids, BufferIds, OptionIds, Heap.Valid, Pipeline.Valid, NoLonger, InlinesOk, Args.Complete, Backed, Meant, BytesKept;
      Shape(h, State(), 0, arena.entries, arena.contents);
      ok := UpdateBindings(h);
      if !ok { return; }
      ghost var e := State();
      ghost var d := DrawOf(pso.value, h.pipelines[pso.value].vertexInputs, e.Current(h, pso.value, 0), e.Current(h, pso.value, 1), stream);
      draws := draws + [d];
      marks := marks + [|calls|];
      RecordDraw(h, e, State(), d, arena.entries, arena.contents);
      RecordMeant(h, e, State(), d, arena.entries, arena.contents, calls, old(marks));
      DrawsShown(h, State(), arena.entries, arena.contents);
    }
  }
}
