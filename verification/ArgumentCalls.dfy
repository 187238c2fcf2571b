/** The calls an application made on an encoder, and what a draw must read
    after them: for every slot what the last call on it set.  Nothing here
    knows of tables, dirty bits, keys or sets. */
module ArgumentCalls {
  import opened ShaderBindings
  import opened Wrappers
  import opened ObjectLifetimes
  import opened DescriptorPlans
  import opened DescriptorArenas
  import opened CommandStreams
  import opened BindingUpdates
  import opened NaiveBinder
  import opened InlineData

  datatype Call =
    | PipelineCall(pso: Option<Id>)
    | BufferCall(stage: nat, index: nat, arg: BufferArg)
    | OffsetCall(stage: nat, index: nat, offset: nat)
    | BytesCall(stage: nat, index: nat, slice: Slice)
    | TextureCall(stage: nat, index: nat, texture: Option<Id>)
    | SamplerCall(stage: nat, index: nat, sampler: Option<Id>)
  {
    predicate On(s: nat, k: nat) { !PipelineCall? && stage == s && index == k }
  }

  function PipelineAt(calls: seq<Call>): Option<Id> {
    if calls == [] then None
    else match calls[|calls| - 1] case PipelineCall(p) => p case _ => PipelineAt(calls[..|calls| - 1])
  }

  /** The buffer and offset that the calls set last in a slot. */
  function BufferAt(calls: seq<Call>, s: nat, k: nat): BufferArg {
    if calls == [] then BufferArg(None, 0)
    else
      var before, c := calls[..|calls| - 1], calls[|calls| - 1];
      if c.BufferCall? && c.On(s, k) then c.arg
      else if c.BytesCall? && c.On(s, k) then BufferArg(Some(c.slice.buffer), c.slice.offset)
      else if c.OffsetCall? && c.On(s, k) then BufferArg(BufferAt(before, s, k).buffer, c.offset)
      else BufferAt(before, s, k)
  }

  /** The bytes that the calls set last in a slot. */
  function BytesAt(calls: seq<Call>, s: nat, k: nat): Option<Slice> {
    if calls == [] then None
    else
      var c := calls[|calls| - 1];
      if c.BytesCall? && c.On(s, k) then Some(c.slice) else BytesAt(calls[..|calls| - 1], s, k)
  }

  function TextureAt(calls: seq<Call>, s: nat, k: nat): Option<Id> {
    if calls == [] then None
    else
      var c := calls[|calls| - 1];
      if c.TextureCall? && c.On(s, k) then c.texture else TextureAt(calls[..|calls| - 1], s, k)
  }

  function SamplerAt(calls: seq<Call>, s: nat, k: nat): Option<Id> {
    if calls == [] then None
    else
      var c := calls[|calls| - 1];
      if c.SamplerCall? && c.On(s, k) then c.sampler else SamplerAt(calls[..|calls| - 1], s, k)
  }

  /** Whether the slot still shows the bytes of its last setBytes call. */
  predicate ShowsBytes(calls: seq<Call>, s: nat, k: nat) {
    var arg, bytes := BufferAt(calls, s, k), BytesAt(calls, s, k);
    bytes.Some? && arg == BufferArg(Some(bytes.value.buffer), bytes.value.offset)
  }

  /** What a shader must read through a binding: exactly the bytes of a setBytes
      call, or everything from the offset to the end of the buffer. */
  ghost predicate ViewMeans(h: Heap, calls: seq<Call>, info: FunctionInfo, s: nat, b: Binding, v: View) {
    match b
    case Buffer(index, _) =>
      && v.BufferView? && BufferAt(calls, s, index) == BufferArg(Some(v.buffer), v.offset)
      && v.range > 0 && v.buffer in h.objects && v.offset + v.range <= h.objects[v.buffer].length
      && (if ShowsBytes(calls, s, index) then v.range == |BytesAt(calls, s, index).value.bytes|
          else v.offset + v.range == h.objects[v.buffer].length)
    case Texture(index, _, sampled) => v.TextureView? && TextureAt(calls, s, index) == Some(v.texture) && v.sampled == sampled
    case Sampler(index, _) => v.SamplerView? && SamplerAt(calls, s, index) == Some(v.sampler)
    case EmbeddedSampler(which, _) => which < |info.embedded| && v == SamplerView(info.embedded[which])
    case VertexInput(_) => false
  }

  /** Whether the device can show a binding what the calls set. */
  ghost predicate Showable(h: Heap, calls: seq<Call>, info: FunctionInfo, dev: Device, s: nat, b: Binding) {
    match b
    case Buffer(index, slot) =>
      var arg := BufferAt(calls, s, index);
      && arg.buffer.Some? && arg.buffer.value in h.objects && arg.offset < h.objects[arg.buffer.value].length
      && dev.offsetAlignment > 0 && arg.offset % dev.offsetAlignment == 0
      && (if ShowsBytes(calls, s, index) then |BytesAt(calls, s, index).value.bytes| else h.objects[arg.buffer.value].length - arg.offset)
           <= dev.maxStorageRange
      && (!PushesBuffers(info, dev) && |Below(BufferSlots(info.bindings), slot)| < dev.maxDynamicStorageBuffers / 2 ==> arg.offset < 0x1_0000_0000)
    case Texture(index, _, _) => TextureAt(calls, s, index).Some?
    case Sampler(index, _) => SamplerAt(calls, s, index).Some?
    case EmbeddedSampler(which, _) => which < |info.embedded|
    case VertexInput(_) => true
  }

  /** A draw reads what the calls before it set. */
  ghost predicate DrawMeans(d: Draw, calls: seq<Call>, contents: map<SetId, SetContents>) {
    && |d.args| == 2 && StreamOk(d.bound) && PipelineAt(calls) == Some(d.pso)
    && (forall s, b :: 0 <= s < 2 && b in d.args[s].info.bindings && !b.VertexInput? ==>
          var v := Seen(d.bound, contents, s, d.args[s], b); v.Some? && ViewMeans(d.args[s].h, calls, d.args[s].info, s, b, v.value))
    && |d.inputs| <= |d.bound.vertex| && (forall i :: 0 <= i < |d.inputs| ==> d.bound.vertex[i] == BufferAt(calls, 0, d.inputs[i]))
  }

  // ------------------------------------------------------- the tables answer

  /** A setter's effect on a table that grows on demand. */
  ghost predicate SlotSet<T>(was: seq<T>, is_: seq<T>, i: nat, x: T, empty: T) {
    && |is_| == (if i < |was| then |was| else i + 1) && is_[i] == x
    && (forall k :: 0 <= k < |was| && k != i ==> is_[k] == was[k])
    && (forall k :: |was| <= k < i ==> is_[k] == empty)
  }

  lemma PlacedSlots<T>(s: seq<T>, i: nat, x: T, empty: T)
    ensures SlotSet(s, Placed(s, i, x, empty), i, x, empty)
  {
  }

  lemma PlacedSame<T>(s: seq<T>, i: nat, empty: T)
    requires i < |s|
    ensures Placed(s, i, s[i], empty) == s
  {
  }

  function WithBuffer(t: Tables, i: nat, x: BufferArg): Tables { t.(buffers := Placed(t.buffers, i, x, NO_BUFFER)) }
  function WithTexture(t: Tables, i: nat, x: Option<Id>): Tables { t.(textures := Placed(t.textures, i, x, None)) }
  function WithSampler(t: Tables, i: nat, x: Option<Id>): Tables { t.(samplers := Placed(t.samplers, i, x, None)) }

  const NO_RANGE := InlineRange(None, 0, 0)

  function RangeOf(slice: Option<Slice>): InlineRange {
    if slice.Some? then InlineRange(Some(slice.value.buffer), slice.value.offset, |slice.value.bytes|) else NO_RANGE
  }

  function Slot<T>(s: seq<T>, k: nat, empty: T): T { if k < |s| then s[k] else empty }

  lemma PlacedSlot<T>(s: seq<T>, i: nat, x: T, empty: T, k: nat)
    ensures Slot(Placed(s, i, x, empty), k, empty) == if k == i then x else Slot(s, k, empty)
  {
  }

  ghost predicate Answers(calls: seq<Call>, s: nat, t: Tables, inlines: seq<InlineRange>) {
    && (forall k: nat :: Slot(t.buffers, k, NO_BUFFER) == BufferAt(calls, s, k))
    && (forall k: nat :: Slot(t.textures, k, None) == TextureAt(calls, s, k))
    && (forall k: nat :: Slot(t.samplers, k, None) == SamplerAt(calls, s, k))
    && (forall k: nat :: Slot(inlines, k, NO_RANGE) == RangeOf(BytesAt(calls, s, k)))
  }

  lemma AnswerBuffer(calls: seq<Call>, s: nat, i: nat, x: BufferArg, t: Tables, inlines: seq<InlineRange>)
    requires Answers(calls, s, t, inlines)
    ensures Answers(calls + [BufferCall(s, i, x)], s, WithBuffer(t, i, x), inlines)
  {
    hide Placed, Slot;
    assert (calls + [BufferCall(s, i, x)])[..|calls|] == calls;
    forall k: nat ensures Slot(Placed(t.buffers, i, x, NO_BUFFER), k, NO_BUFFER) == (if k == i then x else Slot(t.buffers, k, NO_BUFFER)) {
      PlacedSlot(t.buffers, i, x, NO_BUFFER, k);
    }
  }

  lemma AnswerOffset(calls: seq<Call>, s: nat, i: nat, offset: nat, t: Tables, inlines: seq<InlineRange>)
    requires Answers(calls, s, t, inlines) && i < |t.buffers|
    ensures Answers(calls + [OffsetCall(s, i, offset)], s, WithBuffer(t, i, BufferArg(t.buffers[i].buffer, offset)), inlines)
  {
    hide Placed, Slot;
    assert (calls + [OffsetCall(s, i, offset)])[..|calls|] == calls;
    assert Slot(t.buffers, i, NO_BUFFER) == t.buffers[i] by { SlotInside(t.buffers, i, NO_BUFFER); }
    forall k: nat ensures Slot(Placed(t.buffers, i, BufferArg(t.buffers[i].buffer, offset), NO_BUFFER), k, NO_BUFFER) == (if k == i then BufferArg(t.buffers[i].buffer, offset) else Slot(t.buffers, k, NO_BUFFER)) {
      PlacedSlot(t.buffers, i, BufferArg(t.buffers[i].buffer, offset), NO_BUFFER, k);
    }
  }

  lemma SlotInside<T>(s: seq<T>, k: nat, empty: T)
    requires k < |s|
    ensures Slot(s, k, empty) == s[k]
  {
  }

  lemma AnswerBytes(calls: seq<Call>, s: nat, i: nat, slice: Slice, t: Tables, inlines: seq<InlineRange>)
    requires Answers(calls, s, t, inlines)
    ensures Answers(calls + [BytesCall(s, i, slice)], s, WithBuffer(t, i, BufferArg(Some(slice.buffer), slice.offset)),
                    Placed(inlines, i, RangeOf(Some(slice)), NO_RANGE))
  {
    hide Placed, Slot;
    assert (calls + [BytesCall(s, i, slice)])[..|calls|] == calls;
    var x, y := BufferArg(Some(slice.buffer), slice.offset), RangeOf(Some(slice));
    forall k: nat
      ensures Slot(Placed(t.buffers, i, x, NO_BUFFER), k, NO_BUFFER) == (if k == i then x else Slot(t.buffers, k, NO_BUFFER))
      ensures Slot(Placed(inlines, i, y, NO_RANGE), k, NO_RANGE) == (if k == i then y else Slot(inlines, k, NO_RANGE))
    {
      PlacedSlot(t.buffers, i, x, NO_BUFFER, k);
      PlacedSlot(inlines, i, y, NO_RANGE, k);
    }
  }

  lemma AnswerTexture(calls: seq<Call>, s: nat, i: nat, x: Option<Id>, t: Tables, inlines: seq<InlineRange>)
    requires Answers(calls, s, t, inlines)
    ensures Answers(calls + [TextureCall(s, i, x)], s, WithTexture(t, i, x), inlines)
  {
    hide Placed, Slot;
    assert (calls + [TextureCall(s, i, x)])[..|calls|] == calls;
    forall k: nat ensures Slot(Placed(t.textures, i, x, None), k, None) == (if k == i then x else Slot(t.textures, k, None)) {
      PlacedSlot(t.textures, i, x, None, k);
    }
  }

  lemma AnswerSampler(calls: seq<Call>, s: nat, i: nat, x: Option<Id>, t: Tables, inlines: seq<InlineRange>)
    requires Answers(calls, s, t, inlines)
    ensures Answers(calls + [SamplerCall(s, i, x)], s, WithSampler(t, i, x), inlines)
  {
    hide Placed, Slot;
    assert (calls + [SamplerCall(s, i, x)])[..|calls|] == calls;
    forall k: nat ensures Slot(Placed(t.samplers, i, x, None), k, None) == (if k == i then x else Slot(t.samplers, k, None)) {
      PlacedSlot(t.samplers, i, x, None, k);
    }
  }

  lemma AnswerElsewhere(calls: seq<Call>, c: Call, s: nat, t: Tables, inlines: seq<InlineRange>)
    requires Answers(calls, s, t, inlines) && (c.PipelineCall? || c.stage != s)
    ensures Answers(calls + [c], s, t, inlines)
  {
    assert (calls + [c])[..|calls|] == calls;
  }

  lemma PipelineSnoc(calls: seq<Call>, c: Call)
    ensures PipelineAt(calls + [c]) == if c.PipelineCall? then c.pso else PipelineAt(calls)
  {
    assert (calls + [c])[..|calls|] == calls;
  }

  // ------------------------------------------------------ the encoder answers

  ghost predicate InlinesInside(h: Heap, inlines: seq<InlineRange>) {
    forall i :: 0 <= i < |inlines| && inlines[i].buffer.Some? ==>
      inlines[i].buffer.value in h.objects && inlines[i].length > 0
      && inlines[i].offset + inlines[i].length <= h.objects[inlines[i].buffer.value].length
  }

  ghost predicate ArgsMean(a: Args, s: nat, calls: seq<Call>) {
    Answers(calls, s, a.tables, a.inlines) && InlinesInside(a.h, a.inlines) && a.tables.Ids() <= a.h.objects.Keys
  }

  /** The tables, and those every draw was recorded with, answer the calls
      before; `marks` counts the calls before each draw. */
  ghost predicate Meant(h: Heap, e: Snapshot, calls: seq<Call>, marks: seq<nat>) {
    && |e.stages| == 2 && e.pso == PipelineAt(calls) && |marks| == |e.draws|
    && (forall s :: 0 <= s < 2 ==> Answers(calls, s, e.stages[s].tables, e.stages[s].inlines) && InlinesInside(h, e.stages[s].inlines))
    && (forall i :: 0 <= i < |marks| ==> DrawMeant(e.draws[i], marks[i], calls))
  }

  ghost predicate DrawMeant(d: Draw, mark: nat, calls: seq<Call>) {
    && mark <= |calls| && WellTyped(d) && PipelineAt(calls[..mark]) == Some(d.pso)
    && forall s :: 0 <= s < 2 ==> ArgsMean(d.args[s], s, calls[..mark])
  }

  /** What the encoder's own slices hold is what setBytes was given. */
  ghost predicate BytesKept(calls: seq<Call>, slices: seq<Slice>) {
    forall c :: c in calls && c.BytesCall? ==> c.slice in slices
  }

  lemma {:induction false} BytesFromCalls(calls: seq<Call>, slices: seq<Slice>, s: nat, k: nat)
    requires BytesKept(calls, slices) && BytesAt(calls, s, k).Some?
    ensures BytesAt(calls, s, k).value in slices
  {
    var c := calls[|calls| - 1];
    if !(c.BytesCall? && c.On(s, k)) { BytesFromCalls(calls[..|calls| - 1], slices, s, k); }
  }

  lemma InitiallyMeant(h: Heap, e: Snapshot)
    requires e.pso == None && e.draws == [] && e.stages == [INITIAL_STAGE, INITIAL_STAGE]
    ensures Meant(h, e, [], [])
  {
  }

  lemma DrawMeantLater(d: Draw, mark: nat, calls: seq<Call>, c: Call)
    requires DrawMeant(d, mark, calls)
    ensures DrawMeant(d, mark, calls + [c])
  {
    assert (calls + [c])[..mark] == calls[..mark];
  }

  /** A call on stage `s` after which that stage answers. */
  lemma MeantCall(h: Heap, e: Snapshot, f: Snapshot, calls: seq<Call>, marks: seq<nat>, c: Call, s: nat)
    requires Meant(h, e, calls, marks) && s < 2 && !c.PipelineCall? && c.stage == s
    requires |f.stages| == 2 && f.pso == e.pso && f.draws == e.draws && f.stages[1 - s] == e.stages[1 - s]
    requires Answers(calls + [c], s, f.stages[s].tables, f.stages[s].inlines) && InlinesInside(h, f.stages[s].inlines)
    ensures Meant(h, f, calls + [c], marks)
  {
    hide Answers, InlinesInside, DrawMeant;
    AnswerElsewhere(calls, c, 1 - s, e.stages[1 - s].tables, e.stages[1 - s].inlines);
    PipelineSnoc(calls, c);
    forall i | 0 <= i < |marks| ensures DrawMeant(f.draws[i], marks[i], calls + [c]) { DrawMeantLater(e.draws[i], marks[i], calls, c); }
    forall t | 0 <= t < 2 ensures Answers(calls + [c], t, f.stages[t].tables, f.stages[t].inlines) && InlinesInside(h, f.stages[t].inlines) {
      if t != s { assert t == 1 - s; }
    }
  }

  /** Only the arguments of stage `s` may differ. */
  ghost predicate OneStage(e: Snapshot, f: Snapshot, s: nat) {
    s < 2 && |e.stages| == |f.stages| == 2 && f.pso == e.pso && f.draws == e.draws && f.stages[1 - s] == e.stages[1 - s]
  }

  lemma AfterBuffer(h: Heap, e: Snapshot, f: Snapshot, calls: seq<Call>, marks: seq<nat>, slices: seq<Slice>, s: nat, i: nat, x: BufferArg)
    requires Meant(h, e, calls, marks) && BytesKept(calls, slices) && OneStage(e, f, s)
    requires f.stages[s].tables == WithBuffer(e.stages[s].tables, i, x) && f.stages[s].inlines == e.stages[s].inlines
    ensures Meant(h, f, calls + [BufferCall(s, i, x)], marks) && BytesKept(calls + [BufferCall(s, i, x)], slices)
    ensures SlotSet(e.stages[s].tables.buffers, f.stages[s].tables.buffers, i, x, NO_BUFFER)
  {
    hide Answers, InlinesInside, DrawMeant, SlotSet, Placed;
    AnswerBuffer(calls, s, i, x, e.stages[s].tables, e.stages[s].inlines);
    MeantCall(h, e, f, calls, marks, BufferCall(s, i, x), s);
    PlacedSlots(e.stages[s].tables.buffers, i, x, NO_BUFFER);
  }

  lemma AfterOffset(h: Heap, e: Snapshot, f: Snapshot, calls: seq<Call>, marks: seq<nat>, slices: seq<Slice>, s: nat, i: nat, offset: nat)
    requires Meant(h, e, calls, marks) && BytesKept(calls, slices) && OneStage(e, f, s) && i < |e.stages[s].tables.buffers|
    requires f.stages[s].tables == WithBuffer(e.stages[s].tables, i, BufferArg(e.stages[s].tables.buffers[i].buffer, offset)) && f.stages[s].inlines == e.stages[s].inlines
    ensures Meant(h, f, calls + [OffsetCall(s, i, offset)], marks) && BytesKept(calls + [OffsetCall(s, i, offset)], slices)
    ensures SlotSet(e.stages[s].tables.buffers, f.stages[s].tables.buffers, i, BufferArg(e.stages[s].tables.buffers[i].buffer, offset), NO_BUFFER)
  {
    hide Answers, InlinesInside, DrawMeant, SlotSet, Placed;
    AnswerOffset(calls, s, i, offset, e.stages[s].tables, e.stages[s].inlines);
    MeantCall(h, e, f, calls, marks, OffsetCall(s, i, offset), s);
    PlacedSlots(e.stages[s].tables.buffers, i, BufferArg(e.stages[s].tables.buffers[i].buffer, offset), NO_BUFFER);
  }

  lemma AfterTexture(h: Heap, e: Snapshot, f: Snapshot, calls: seq<Call>, marks: seq<nat>, slices: seq<Slice>, s: nat, i: nat, x: Option<Id>)
    requires Meant(h, e, calls, marks) && BytesKept(calls, slices) && OneStage(e, f, s)
    requires f.stages[s].tables == WithTexture(e.stages[s].tables, i, x) && f.stages[s].inlines == e.stages[s].inlines
    ensures Meant(h, f, calls + [TextureCall(s, i, x)], marks) && BytesKept(calls + [TextureCall(s, i, x)], slices)
    ensures SlotSet(e.stages[s].tables.textures, f.stages[s].tables.textures, i, x, None)
  {
    hide Answers, InlinesInside, DrawMeant, SlotSet, Placed;
    AnswerTexture(calls, s, i, x, e.stages[s].tables, e.stages[s].inlines);
    MeantCall(h, e, f, calls, marks, TextureCall(s, i, x), s);
    PlacedSlots(e.stages[s].tables.textures, i, x, None);
  }

  lemma AfterSampler(h: Heap, e: Snapshot, f: Snapshot, calls: seq<Call>, marks: seq<nat>, slices: seq<Slice>, s: nat, i: nat, x: Option<Id>)
    requires Meant(h, e, calls, marks) && BytesKept(calls, slices) && OneStage(e, f, s)
    requires f.stages[s].tables == WithSampler(e.stages[s].tables, i, x) && f.stages[s].inlines == e.stages[s].inlines
    ensures Meant(h, f, calls + [SamplerCall(s, i, x)], marks) && BytesKept(calls + [SamplerCall(s, i, x)], slices)
    ensures SlotSet(e.stages[s].tables.samplers, f.stages[s].tables.samplers, i, x, None)
  {
    hide Answers, InlinesInside, DrawMeant, SlotSet, Placed;
    AnswerSampler(calls, s, i, x, e.stages[s].tables, e.stages[s].inlines);
    MeantCall(h, e, f, calls, marks, SamplerCall(s, i, x), s);
    PlacedSlots(e.stages[s].tables.samplers, i, x, None);
  }

  lemma AfterBytes(h: Heap, e: Snapshot, f: Snapshot, calls: seq<Call>, marks: seq<nat>, slices: seq<Slice>, s: nat, i: nat, x: Slice)
    requires Meant(h, e, calls, marks) && BytesKept(calls, slices) && OneStage(e, f, s)
    requires f.stages[s].tables == WithBuffer(e.stages[s].tables, i, BufferArg(Some(x.buffer), x.offset))
    requires f.stages[s].inlines == Placed(e.stages[s].inlines, i, RangeOf(Some(x)), NO_RANGE)
    requires x.bytes != [] && x.buffer in h.objects && x.offset + |x.bytes| <= h.objects[x.buffer].length
    ensures Meant(h, f, calls + [BytesCall(s, i, x)], marks) && BytesKept(calls + [BytesCall(s, i, x)], slices + [x])
    ensures SlotSet(e.stages[s].tables.buffers, f.stages[s].tables.buffers, i, BufferArg(Some(x.buffer), x.offset), NO_BUFFER)
  {
    hide Answers, DrawMeant, SlotSet, Placed, InlinesInside;
    AnswerBytes(calls, s, i, x, e.stages[s].tables, e.stages[s].inlines);
    PlacedInside(h, e.stages[s].inlines, i, x);
    MeantCall(h, e, f, calls, marks, BytesCall(s, i, x), s);
    PlacedSlots(e.stages[s].tables.buffers, i, BufferArg(Some(x.buffer), x.offset), NO_BUFFER);
  }

  lemma PlacedInside(h: Heap, inlines: seq<InlineRange>, i: nat, x: Slice)
    requires InlinesInside(h, inlines) && x.bytes != [] && x.buffer in h.objects && x.offset + |x.bytes| <= h.objects[x.buffer].length
    ensures InlinesInside(h, Placed(inlines, i, RangeOf(Some(x)), NO_RANGE))
  {
  }

  lemma MeantPipeline(h: Heap, e: Snapshot, f: Snapshot, calls: seq<Call>, marks: seq<nat>, slices: seq<Slice>, p: Option<Id>)
    requires Meant(h, e, calls, marks) && BytesKept(calls, slices) && f.pso == p && f.draws == e.draws && SameArguments(e, f)
    ensures Meant(h, f, calls + [PipelineCall(p)], marks) && BytesKept(calls + [PipelineCall(p)], slices)
  {
    hide Answers, InlinesInside, DrawMeant;
    var c := PipelineCall(p);
    AnswerElsewhere(calls, c, 0, e.stages[0].tables, e.stages[0].inlines);
    AnswerElsewhere(calls, c, 1, e.stages[1].tables, e.stages[1].inlines);
    PipelineSnoc(calls, c);
    forall i | 0 <= i < |marks| ensures DrawMeant(f.draws[i], marks[i], calls + [c]) { DrawMeantLater(e.draws[i], marks[i], calls, c); }
  }

  ghost predicate SameArguments(e: Snapshot, f: Snapshot) {
    |e.stages| == |f.stages| && forall s :: 0 <= s < |e.stages| ==> f.stages[s].tables == e.stages[s].tables && f.stages[s].inlines == e.stages[s].inlines
  }

  lemma MeantSame(h: Heap, e: Snapshot, f: Snapshot, calls: seq<Call>, marks: seq<nat>)
    requires Meant(h, e, calls, marks) && f.pso == e.pso && f.draws == e.draws && SameArguments(e, f)
    ensures Meant(h, f, calls, marks)
  {
    hide Answers, InlinesInside, DrawMeant;
  }

  lemma MeantIdle(h: Heap, k: Heap, held: set<Id>, e: Snapshot, calls: seq<Call>, marks: seq<nat>)
    requires Meant(h, e, calls, marks) && Evolves(h, k, held)
    ensures Meant(k, e, calls, marks)
  {
    hide Answers, DrawMeant;
  }

  lemma MeantDraw(h: Heap, e: Snapshot, f: Snapshot, calls: seq<Call>, marks: seq<nat>, d: Draw)
    requires Meant(h, e, calls, marks) && f == e.(draws := e.draws + [d])
    requires e.pso == Some(d.pso) && WellTyped(d)
    requires forall s :: 0 <= s < 2 ==> e.stages[s].tables.Ids() <= h.objects.Keys
    requires forall s :: 0 <= s < 2 ==> d.args[s].h == h && d.args[s].tables == e.stages[s].tables && d.args[s].inlines == e.stages[s].inlines
    ensures Meant(h, f, calls, marks + [|calls|])
  {
    hide Answers, InlinesInside;
    assert calls[..|calls|] == calls;
    assert DrawMeant(d, |calls|, calls);
  }

  // ------------------------------------------------------------ what it means

  /** With tables that answer the calls, the binder's checks are exactly what
      the device can show. */
  lemma BindableExactly(a: Args, s: nat, calls: seq<Call>, b: Binding)
    requires ArgsMean(a, s, calls) && a.info.Valid() && b in a.info.bindings
    ensures a.Bindable(b) <==> Showable(a.h, calls, a.info, a.dev, s, b)
  {
    match b
    case Buffer(index, slot) =>
      BufferMeans(a, s, calls, index);
      PrecedingCounts(a.info.bindings, slot);
    case Texture(index, _, _) => assert Slot(a.tables.textures, index, None) == TextureAt(calls, s, index);
    case Sampler(index, _) => assert Slot(a.tables.samplers, index, None) == SamplerAt(calls, s, index);
    case _ =>
  }

  lemma BufferMeans(a: Args, s: nat, calls: seq<Call>, index: nat)
    requires ArgsMean(a, s, calls)
    ensures BufferAt(calls, s, index).buffer.Some? ==>
              index < |a.tables.buffers| && a.tables.buffers[index].buffer.Some? && a.tables.buffers[index].buffer.value in a.h.objects
    ensures index < |a.tables.buffers| ==> a.tables.buffers[index] == BufferAt(calls, s, index)
    ensures ShowsBytes(calls, s, index) <==>
              index < |a.tables.buffers| && index < |a.inlines| && a.inlines[index].buffer.Some?
              && a.tables.buffers[index] == BufferArg(a.inlines[index].buffer, a.inlines[index].offset)
    ensures ShowsBytes(calls, s, index) ==> a.inlines[index].length == |BytesAt(calls, s, index).value.bytes|
  {
    assert Slot(a.tables.buffers, index, NO_BUFFER) == BufferAt(calls, s, index);
    assert Slot(a.inlines, index, NO_RANGE) == RangeOf(BytesAt(calls, s, index));
    if index < |a.tables.buffers| && a.tables.buffers[index].buffer.Some? {
      assert a.tables.buffers[index].buffer.value in BufferIds(a.tables.buffers);
    }
  }

  lemma ViewMeansArgs(a: Args, s: nat, calls: seq<Call>, b: Binding)
    requires ArgsMean(a, s, calls) && a.Bindable(b) && !b.VertexInput?
    ensures ViewMeans(a.h, calls, a.info, s, b, a.ViewOf(b))
  {
    match b
    case Buffer(index, slot) => BufferMeans(a, s, calls, index);
    case Texture(index, _, _) => assert Slot(a.tables.textures, index, None) == TextureAt(calls, s, index);
    case Sampler(index, _) => assert Slot(a.tables.samplers, index, None) == SamplerAt(calls, s, index);
    case _ =>
  }

  /** A draw that shows its arguments reads what the calls set. */
  lemma ShownMeans(d: Draw, calls: seq<Call>, contents: map<SetId, SetContents>)
    requires DrawShows(d, contents) && StreamOk(d.bound) && PipelineAt(calls) == Some(d.pso) && WellTyped(d)
    requires forall s :: 0 <= s < 2 ==> ArgsMean(d.args[s], s, calls)
    ensures DrawMeans(d, calls, contents)
  {
    hide Seen, ViewMeans, ArgsMean;
    SameAsNaive(d, contents);
    forall s, b | 0 <= s < 2 && b in d.args[s].info.bindings && !b.VertexInput?
      ensures var v := Seen(d.bound, contents, s, d.args[s], b); v.Some? && ViewMeans(d.args[s].h, calls, d.args[s].info, s, b, v.value)
    {
      assert BindingShown(d, s, b, contents);
      ViewMeansArgs(d.args[s], s, calls, b);
      SeenIsShown(d, d.bound, s, b, contents);
    }
    forall i | 0 <= i < |d.inputs| ensures d.bound.vertex[i] == BufferAt(calls, 0, d.inputs[i]) {
      assert d.bound.vertex[i] == d.bound.vertex[..|d.inputs|][i] == VertexArg(d.args[0].tables, d.inputs[i]);
      VertexAnswers(d.args[0], calls, d.inputs[i]);
    }
  }

  lemma ShownStream(d: Draw, contents: map<SetId, SetContents>)
    requires DrawShows(d, contents)
    ensures StreamOk(d.bound)
  {
  }

  lemma VertexAnswers(a: Args, calls: seq<Call>, index: nat)
    requires ArgsMean(a, 0, calls)
    ensures VertexArg(a.tables, index) == BufferAt(calls, 0, index)
  {
    assert Slot(a.tables.buffers, index, NO_BUFFER) == BufferAt(calls, 0, index);
  }
}
