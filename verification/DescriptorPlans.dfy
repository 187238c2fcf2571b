/** Object lifetimes with address reuse.  The encoder identifies objects by raw
    address in its cache keys; the model keeps the identity beside the address
    so that it can say when the two disagree. */
module ObjectLifetimes {
  import opened ShaderBindings
  import opened Wrappers

  /** `address` is where the object lives while it is alive, `length` is the
      length of a buffer.  Both are fixed at creation. */
  datatype Object = Object(address: nat, length: nat)

  /** A render pipeline state: reflection of its two functions, the handles of
      the set layouts it owns for them, and its vertex input buffers. */
  datatype Pipeline = Pipeline(functions: seq<FunctionInfo>, layouts: seq<nat>, vertexInputs: seq<nat>) {
    ghost predicate Valid() {
      && |functions| == 2 && functions[0].Valid() && functions[1].Valid()
      && functions[0].stage == Vertex && functions[1].stage == Fragment
      && |layouts| == 2 && layouts[0] != layouts[1]
      && forall f, b :: f in functions && b in f.bindings && b.EmbeddedSampler? ==> b.which < |f.embedded|
    }

    ghost predicate EmbeddedLive(live: set<Id>) {
      forall f, id :: f in functions && id in f.embedded ==> id in live
    }
  }

  /** Every object ever created, and which of them are alive. */
  datatype Heap = Heap(objects: map<Id, Object>, pipelines: map<Id, Pipeline>, live: set<Id>) {
    ghost predicate Valid() {
      && live <= objects.Keys
      && (forall a, b :: a in live && b in live && objects[a].address == objects[b].address ==> a == b)
      && (forall p :: p in pipelines ==> pipelines[p].Valid())
      && (forall p :: p in pipelines && p in live ==> pipelines[p].EmbeddedLive(live))
    }
  }

  /** What the rest of the program may do between two calls: create objects,
      possibly at the addresses of dead ones, and release objects that `held`
      does not keep alive.  Dead objects stay dead. */
  ghost predicate Evolves(h: Heap, k: Heap, held: set<Id>) {
    && k.Valid()
    && (forall id :: id in h.objects ==> id in k.objects && k.objects[id] == h.objects[id])
    && (forall id :: id in h.pipelines ==> id in k.pipelines && k.pipelines[id] == h.pipelines[id])
    && (forall id :: id in h.objects && id in k.live ==> id in h.live)
    && held <= k.live
  }
}

/** What a shader function's descriptors must contain for given arguments, and
    the cache key that the encoder computes for them. */
module DescriptorPlans {
  import opened ShaderBindings
  import opened Wrappers
  import opened ObjectLifetimes

  datatype Descriptor =
    | BufferDescriptor(buffer: Id, offset: nat, range: nat, dynamic: bool)
    | TextureDescriptor(texture: Id, sampled: bool)
    | SamplerDescriptor(sampler: Id)

  /** What a shader reads through a binding. */
  datatype View =
    | BufferView(buffer: Id, offset: nat, range: nat)
    | TextureView(texture: Id, sampled: bool)
    | SamplerView(sampler: Id)

  datatype Planned = Planned(slot: nat, descriptor: Descriptor)

  type SetContents = map<nat, Descriptor>

  function ResourceOf(d: Descriptor): Id {
    match d
    case BufferDescriptor(b, _, _, _) => b
    case TextureDescriptor(t, _) => t
    case SamplerDescriptor(s) => s
  }

  function ResourcesOf(plan: seq<Planned>): seq<Id> {
    seq(|plan|, i requires 0 <= i < |plan| => ResourceOf(plan[i].descriptor))
  }

  ghost predicate Known(h: Heap, plan: seq<Planned>) {
    forall i :: 0 <= i < |plan| ==> ResourceOf(plan[i].descriptor) in h.objects
  }

  function KeyWords(h: Heap, p: Planned): seq<nat>
    requires ResourceOf(p.descriptor) in h.objects
  {
    match p.descriptor
    case BufferDescriptor(b, offset, range, _) => [p.slot, h.objects[b].address, offset, range]
    case TextureDescriptor(t, _) => [p.slot, h.objects[t].address]
    case SamplerDescriptor(s) => [p.slot, h.objects[s].address]
  }

  /** The cache key: binding numbers, raw addresses, static offsets and ranges. */
  function KeyOf(h: Heap, plan: seq<Planned>): seq<nat>
    requires Known(h, plan)
  {
    if plan == [] then [] else KeyOf(h, plan[..|plan| - 1]) + KeyWords(h, plan[|plan| - 1])
  }

  /** What a descriptor set holds after every planned write. */
  function ContentsOf(plan: seq<Planned>): SetContents {
    if plan == [] then map[]
    else ContentsOf(plan[..|plan| - 1])[plan[|plan| - 1].slot := plan[|plan| - 1].descriptor]
  }

  ghost predicate DistinctPlan(plan: seq<Planned>) {
    forall i, j :: 0 <= i < j < |plan| ==> plan[i].slot != plan[j].slot
  }

  lemma {:induction false} ContentsAt(plan: seq<Planned>, i: nat)
    requires DistinctPlan(plan) && i < |plan|
    ensures plan[i].slot in ContentsOf(plan) && ContentsOf(plan)[plan[i].slot] == plan[i].descriptor
  {
    if i < |plan| - 1 { ContentsAt(plan[..|plan| - 1], i); }
  }

  lemma {:induction false} ContentsKey(plan: seq<Planned>, s: nat) returns (i: nat)
    requires s in ContentsOf(plan)
    ensures i < |plan| && plan[i].slot == s
  {
    if plan[|plan| - 1].slot == s { i := |plan| - 1; } else { i := ContentsKey(plan[..|plan| - 1], s); }
  }

  /** Two plans written for the same function: only objects, offsets and ranges differ. */
  predicate SameShape(p: seq<Planned>, q: seq<Planned>) {
    |p| == |q| && forall i :: 0 <= i < |p| ==> SameKind(p[i].descriptor, q[i].descriptor)
  }

  predicate SameKind(d: Descriptor, e: Descriptor) {
    match d
    case BufferDescriptor(_, _, _, dynamic) => e.BufferDescriptor? && e.dynamic == dynamic
    case TextureDescriptor(_, sampled) => e.TextureDescriptor? && e.sampled == sampled
    case SamplerDescriptor(_) => e.SamplerDescriptor?
  }

  ghost predicate AllLive(h: Heap, plan: seq<Planned>) {
    forall i :: 0 <= i < |plan| ==> ResourceOf(plan[i].descriptor) in h.live
  }

  /** The heart of the cache: although a key only holds raw addresses, equal
      keys of same-shaped plans mean equal plans while every object of both is
      alive.  With a dead object on either side they need not be. */
  lemma {:induction false} SameKeySamePlan(h: Heap, p: seq<Planned>, q: seq<Planned>)
    requires h.Valid() && Known(h, p) && Known(h, q)
    requires SameShape(p, q) && AllLive(h, p) && AllLive(h, q)
    requires KeyOf(h, p) == KeyOf(h, q)
    ensures p == q
  {
    if p != [] {
      var n := |p| - 1;
      var pi, qi := p[..n], q[..n];
      assert SameKind(p[n].descriptor, q[n].descriptor);
      assert p[n].descriptor.BufferDescriptor? == q[n].descriptor.BufferDescriptor?;
      SplitEqual(KeyOf(h, pi), KeyWords(h, p[n]), KeyOf(h, qi), KeyWords(h, q[n]));
      SameWordsSameWrite(h, p[n], q[n]);
      SameKeySamePlan(h, pi, qi);
      Rejoin(p, q);
    }
  }

  lemma Rejoin<T>(p: seq<T>, q: seq<T>)
    requires |p| == |q| > 0 && p[..|p| - 1] == q[..|q| - 1] && p[|p| - 1] == q[|q| - 1]
    ensures p == q
  {
    assert p == p[..|p| - 1] + [p[|p| - 1]];
    assert q == q[..|q| - 1] + [q[|q| - 1]];
  }

  lemma SplitEqual<T>(a: seq<T>, b: seq<T>, c: seq<T>, d: seq<T>)
    requires a + b == c + d && |b| == |d|
    ensures a == c && b == d
  {
    assert |a| == |c|;
    assert a == (a + b)[..|a|] && c == (c + d)[..|c|];
    assert b == (a + b)[|a|..] && d == (c + d)[|c|..];
  }

  lemma SameWordsSameWrite(h: Heap, p: Planned, q: Planned)
    requires h.Valid() && ResourceOf(p.descriptor) in h.live && ResourceOf(q.descriptor) in h.live
    requires SameKind(p.descriptor, q.descriptor)
    requires KeyWords(h, p) == KeyWords(h, q)
    ensures p == q
  {
    var a, b := KeyWords(h, p), KeyWords(h, q);
    assert a[0] == b[0] && a[1] == b[1];
    if p.descriptor.BufferDescriptor? { assert a[2] == b[2] && a[3] == b[3]; }
  }

  /** The witness that the liveness check is needed: a dead buffer whose
      address was reused gives two different plans one key. */
  lemma DeadObjectsConfuseKeys()
    ensures exists h: Heap, p: seq<Planned>, q: seq<Planned> ::
              h.Valid() && Known(h, p) && Known(h, q) && SameShape(p, q) && AllLive(h, q) && !AllLive(h, p)
              && KeyOf(h, p) == KeyOf(h, q) && ContentsOf(p) != ContentsOf(q)
  {
    var h := Heap(map[1 := Object(4096, 64), 2 := Object(4096, 64)], map[], {2});
    var p := [Planned(0, BufferDescriptor(1, 0, 64, false))];
    var q := [Planned(0, BufferDescriptor(2, 0, 64, false))];
    assert p[..0] == [] && q[..0] == [];
    assert KeyOf(h, p) == KeyOf(h, q);
    assert ContentsOf(p)[0] != ContentsOf(q)[0];
    assert !AllLive(h, p) by { assert ResourceOf(p[0].descriptor) == 1; }
    assert h.Valid() && Known(h, p) && Known(h, q) && SameShape(p, q) && AllLive(h, q);
  }

  // ---------------------------------------------------------------- arguments

  datatype BufferArg = BufferArg(buffer: Option<Id>, offset: nat)

  /** One stage's argument tables. */
  datatype Tables = Tables(buffers: seq<BufferArg>, textures: seq<Option<Id>>, samplers: seq<Option<Id>>) {
    ghost function Ids(): set<Id> {
      BufferIds(buffers) + OptionIds(textures) + OptionIds(samplers)
    }
  }

  ghost function BufferIds(s: seq<BufferArg>): set<Id> {
    set i | 0 <= i < |s| && s[i].buffer.Some? :: s[i].buffer.value
  }

  ghost function OptionIds(s: seq<Option<Id>>): set<Id> {
    set i | 0 <= i < |s| && s[i].Some? :: s[i].value
  }

  /** The length of a setBytes slice, valid while its argument still binds it. */
  datatype InlineRange = InlineRange(buffer: Option<Id>, offset: nat, length: nat)

  const UINT32_MAX: nat := 0xFFFF_FFFF

  /** One stage of a draw: everything that decides its descriptors. */
  datatype Args = Args(h: Heap, dev: Device, info: FunctionInfo, tables: Tables, inlines: seq<InlineRange>) {
    function LengthOf(id: Id): nat { if id in h.objects then h.objects[id].length else 0 }

    /** The bytes visible through a buffer argument. */
    function Size(index: nat): nat
      requires index < |tables.buffers| && tables.buffers[index].buffer.Some?
      requires tables.buffers[index].offset < LengthOf(tables.buffers[index].buffer.value)
    {
      var arg := tables.buffers[index];
      if index < |inlines| && inlines[index].buffer == arg.buffer && inlines[index].offset == arg.offset
      then inlines[index].length
      else LengthOf(arg.buffer.value) - arg.offset
    }

    predicate Dynamic(b: Binding) {
      b.Buffer? && Owned(info, b, dev) && DynamicBuffer(info, b.slot, dev)
    }

    function OffsetOf(b: Binding): nat {
      if b.Buffer? && b.index < |tables.buffers| then tables.buffers[b.index].offset else 0
    }

    /** The checks that a binding must pass; otherwise the update throws. */
    predicate Bindable(b: Binding) {
      match b
      case Buffer(index, slot) =>
        && index < |tables.buffers| && tables.buffers[index].buffer.Some?
        && tables.buffers[index].offset < LengthOf(tables.buffers[index].buffer.value)
        && dev.offsetAlignment > 0 && tables.buffers[index].offset % dev.offsetAlignment == 0
        && Size(index) <= dev.maxStorageRange
        && (Dynamic(b) ==> tables.buffers[index].offset <= UINT32_MAX)
      case Texture(index, _, _) => index < |tables.textures| && tables.textures[index].Some?
      case Sampler(index, _) => index < |tables.samplers| && tables.samplers[index].Some?
      case EmbeddedSampler(which, _) => which < |info.embedded|
      case VertexInput(_) => true
    }

    ghost predicate Valid() {
      && h.Valid() && info.Valid() && dev.offsetAlignment > 0
      && tables.Ids() <= h.live
      && (forall id :: id in info.embedded ==> id in h.live)
      && forall i :: 0 <= i < |inlines| && inlines[i].buffer.Some? ==> inlines[i].length > 0
    }

    function Describe(b: Binding): Descriptor
      requires !b.VertexInput? && Bindable(b)
    {
      match b
      case Buffer(index, slot) =>
        BufferDescriptor(tables.buffers[index].buffer.value, if Dynamic(b) then 0 else tables.buffers[index].offset, Size(index), Dynamic(b))
      case Texture(index, _, sampled) => TextureDescriptor(tables.textures[index].value, sampled)
      case Sampler(index, _) => SamplerDescriptor(tables.samplers[index].value)
      case EmbeddedSampler(which, _) => SamplerDescriptor(info.embedded[which])
    }

    /** What a binder that rewrites every binding before every draw shows the shader. */
    function ViewOf(b: Binding): View
      requires !b.VertexInput? && Bindable(b)
    {
      match b
      case Buffer(index, slot) => BufferView(tables.buffers[index].buffer.value, tables.buffers[index].offset, Size(index))
      case Texture(index, _, sampled) => TextureView(tables.textures[index].value, sampled)
      case Sampler(index, _) => SamplerView(tables.samplers[index].value)
      case EmbeddedSampler(which, _) => SamplerView(info.embedded[which])
    }

    ghost predicate Complete() {
      forall b :: b in info.bindings ==> Bindable(b)
    }

    /** The writes to the function's own set, in reflection order. */
    function Plan(bs: seq<Binding>): seq<Planned>
      requires forall b :: b in bs && Owned(info, b, dev) ==> Bindable(b)
    {
      if bs == [] then []
      else
        var init, b := bs[..|bs| - 1], bs[|bs| - 1];
        Plan(init) + if Owned(info, b, dev) then [Planned(b.slot, Describe(b))] else []
    }

    /** Binding numbers and offsets of the dynamic buffers, in reflection order. */
    function Offsets(bs: seq<Binding>): seq<(nat, nat)>
    {
      if bs == [] then []
      else
        var init, b := bs[..|bs| - 1], bs[|bs| - 1];
        Offsets(init) + if Dynamic(b) then [(b.slot, OffsetOf(b))] else []
    }

    /** The pushed buffer writes, in reflection order. */
    function Pushes(bs: seq<Binding>): seq<(nat, View)>
      requires forall b :: b in bs && b.Buffer? ==> Bindable(b)
    {
      if bs == [] then []
      else
        var init, b := bs[..|bs| - 1], bs[|bs| - 1];
        Pushes(init) + if b.Buffer? then [(PushedBinding(info.stage, b.slot), ViewOf(b))] else []
    }
  }

  /** `p` is the write of some owned binding among `bs`. */
  ghost predicate WrittenFor(a: Args, bs: seq<Binding>, p: Planned) {
    exists b :: b in bs && Owned(a.info, b, a.dev) && a.Bindable(b) && p == Planned(b.slot, a.Describe(b))
  }

  lemma {:induction false} PlanFrom(a: Args, bs: seq<Binding>)
    requires forall b :: b in bs && Owned(a.info, b, a.dev) ==> a.Bindable(b)
    ensures forall p :: p in a.Plan(bs) ==> WrittenFor(a, bs, p)
  {
    if bs != [] {
      var init, b := bs[..|bs| - 1], bs[|bs| - 1];
      PlanFrom(a, init);
      forall p | p in a.Plan(bs) ensures WrittenFor(a, bs, p) {
        if p in a.Plan(init) {
          var c :| c in init && Owned(a.info, c, a.dev) && a.Bindable(c) && p == Planned(c.slot, a.Describe(c));
          assert c in bs;
        } else {
          assert b in bs;
        }
      }
    }
  }

  lemma {:induction false} PlanHas(a: Args, bs: seq<Binding>, b: Binding)
    requires forall c :: c in bs && Owned(a.info, c, a.dev) ==> a.Bindable(c)
    requires b in bs && Owned(a.info, b, a.dev)
    ensures Planned(b.slot, a.Describe(b)) in a.Plan(bs)
  {
    if b != bs[|bs| - 1] { PlanHas(a, bs[..|bs| - 1], b); }
  }

  lemma {:induction false} PlanDistinct(a: Args, bs: seq<Binding>)
    requires forall b :: b in bs && Owned(a.info, b, a.dev) ==> a.Bindable(b)
    requires DistinctSlots(bs)
    ensures DistinctPlan(a.Plan(bs))
  {
    if bs != [] {
      var init, b := bs[..|bs| - 1], bs[|bs| - 1];
      PlanDistinct(a, init);
      PlanFrom(a, init);
      var plan := a.Plan(init);
      forall i | 0 <= i < |plan| && Owned(a.info, b, a.dev) ensures plan[i].slot != b.slot {
        assert plan[i] in plan;
        var c :| c in init && Owned(a.info, c, a.dev) && a.Bindable(c) && plan[i] == Planned(c.slot, a.Describe(c));
        var k :| 0 <= k < |init| && init[k] == c;
        assert bs[k] == c;
      }
    }
  }

  lemma PlanLive(a: Args, bs: seq<Binding>)
    requires a.Valid() && forall b :: b in bs && Owned(a.info, b, a.dev) ==> a.Bindable(b)
    ensures Known(a.h, a.Plan(bs)) && AllLive(a.h, a.Plan(bs))
  {
    PlanFrom(a, bs);
    var plan := a.Plan(bs);
    forall i | 0 <= i < |plan| ensures ResourceOf(plan[i].descriptor) in a.h.live {
      assert plan[i] in plan;
      var c :| c in bs && Owned(a.info, c, a.dev) && a.Bindable(c) && plan[i] == Planned(c.slot, a.Describe(c));
      DescribedLive(a, c);
    }
  }

  lemma DescribedLive(a: Args, b: Binding)
    requires a.Valid() && !b.VertexInput? && a.Bindable(b)
    ensures ResourceOf(a.Describe(b)) in a.h.live
  {
    match b
    case Buffer(index, _) => assert a.tables.buffers[index].buffer.value in BufferIds(a.tables.buffers);
    case Texture(index, _, _) => assert a.tables.textures[index].value in OptionIds(a.tables.textures);
    case Sampler(index, _) => assert a.tables.samplers[index].value in OptionIds(a.tables.samplers);
    case EmbeddedSampler(which, _) => assert a.info.embedded[which] in a.info.embedded;
  }

  /** Plans for the same function have the same shape whatever the arguments. */
  lemma {:induction false} PlansSameShape(a: Args, c: Args, bs: seq<Binding>)
    requires a.info == c.info && a.dev == c.dev
    requires forall b :: b in bs && Owned(a.info, b, a.dev) ==> a.Bindable(b) && c.Bindable(b)
    ensures SameShape(a.Plan(bs), c.Plan(bs))
    ensures |a.Plan(bs)| == |c.Plan(bs)|
  {
    if bs != [] { PlansSameShape(a, c, bs[..|bs| - 1]); }
  }

  predicate KindMatches(b: Binding, dynamic: bool, d: Descriptor) {
    match b
    case Buffer(_, _) => d.BufferDescriptor? && d.dynamic == dynamic
    case Texture(_, _, sampled) => d.TextureDescriptor? && d.sampled == sampled
    case Sampler(_, _) => d.SamplerDescriptor?
    case EmbeddedSampler(_, _) => d.SamplerDescriptor?
    case VertexInput(_) => false
  }

  /** A plan written for a function, whatever its arguments were. */
  predicate Fits(info: FunctionInfo, dev: Device, bs: seq<Binding>, plan: seq<Planned>) {
    if bs == [] then plan == []
    else
      var init, b := bs[..|bs| - 1], bs[|bs| - 1];
      if !Owned(info, b, dev) then Fits(info, dev, init, plan)
      else
        && plan != [] && plan[|plan| - 1].slot == b.slot
        && KindMatches(b, b.Buffer? && DynamicBuffer(info, b.slot, dev), plan[|plan| - 1].descriptor)
        && Fits(info, dev, init, plan[..|plan| - 1])
  }

  lemma {:induction false} PlanFits(a: Args, bs: seq<Binding>)
    requires forall b :: b in bs && Owned(a.info, b, a.dev) ==> a.Bindable(b)
    ensures Fits(a.info, a.dev, bs, a.Plan(bs))
  {
    if bs != [] {
      var init, b := bs[..|bs| - 1], bs[|bs| - 1];
      PlanFits(a, init);
      if Owned(a.info, b, a.dev) { assert a.Plan(bs)[..|a.Plan(bs)| - 1] == a.Plan(init); }
      else { assert a.Plan(bs) == a.Plan(init); }
    }
  }

  lemma {:induction false} FittingPlansAlike(info: FunctionInfo, dev: Device, bs: seq<Binding>, p: seq<Planned>, q: seq<Planned>)
    requires Fits(info, dev, bs, p) && Fits(info, dev, bs, q)
    ensures SameShape(p, q) && ContentsOf(p).Keys == ContentsOf(q).Keys
  {
    if bs != [] {
      var init, b := bs[..|bs| - 1], bs[|bs| - 1];
      if Owned(info, b, dev) {
        FittingPlansAlike(info, dev, init, p[..|p| - 1], q[..|q| - 1]);
        assert forall i :: 0 <= i < |p| - 1 ==> p[..|p| - 1][i] == p[i] && q[..|q| - 1][i] == q[i];
      } else {
        FittingPlansAlike(info, dev, init, p, q);
      }
    }
  }

  /** The descriptor type that a write needs its layout entry to have. */
  function TypeOf(d: Descriptor): DescriptorType {
    match d
    case BufferDescriptor(_, _, _, dynamic) => if dynamic then StorageBufferDynamic else StorageBuffer
    case TextureDescriptor(_, sampled) => if sampled then SampledImage else StorageImage
    case SamplerDescriptor(_) => SamplerState
  }

  /** The layout declares every planned write with its type. */
  lemma WritesMatchLayout(a: Args, b: Binding)
    requires Owned(a.info, b, a.dev) && a.Bindable(b) && IsGraphics(a.info.stage)
    ensures TypeOf(a.Describe(b)) == KindOf(a.info, b, a.dev)
  {
  }

  /** A map that holds every planned write and nothing else is the plan's contents. */
  lemma ContentsUnique(a: Args, writes: SetContents)
    requires a.info.Valid() && forall b :: b in a.info.bindings && Owned(a.info, b, a.dev) ==> a.Bindable(b)
    requires forall b :: b in a.info.bindings && Owned(a.info, b, a.dev) ==> b.slot in writes && writes[b.slot] == a.Describe(b)
    requires forall s :: s in writes ==> exists b :: b in a.info.bindings && Owned(a.info, b, a.dev) && b.slot == s
    ensures writes == ContentsOf(a.Plan(a.info.bindings))
  {
    var bs := a.info.bindings;
    var plan := a.Plan(bs);
    PlanDistinct(a, bs);
    forall s | s in writes ensures s in ContentsOf(plan) && ContentsOf(plan)[s] == writes[s] {
      var b :| b in bs && Owned(a.info, b, a.dev) && b.slot == s;
      PlanHas(a, bs, b);
      var i :| 0 <= i < |plan| && plan[i] == Planned(b.slot, a.Describe(b));
      ContentsAt(plan, i);
    }
    forall s | s in ContentsOf(plan) ensures s in writes {
      var i := ContentsKey(plan, s);
      PlanFrom(a, bs);
      assert plan[i] in plan;
    }
  }

  // ---------------------------------------------------------- dynamic offsets

  predicate Ascending(s: seq<(nat, nat)>) {
    forall i, j :: 0 <= i < j < |s| ==> s[i].0 < s[j].0
  }

  function Insert(p: (nat, nat), s: seq<(nat, nat)>): seq<(nat, nat)> {
    if s == [] || p.0 <= s[0].0 then [p] + s else [s[0]] + Insert(p, s[1..])
  }

  /** The offsets in ascending binding order, as the driver consumes them. */
  function SortOffsets(s: seq<(nat, nat)>): seq<(nat, nat)> {
    if s == [] then [] else Insert(s[|s| - 1], SortOffsets(s[..|s| - 1]))
  }

  function Values(s: seq<(nat, nat)>): seq<nat> {
    seq(|s|, i requires 0 <= i < |s| => s[i].1)
  }

  ghost predicate DistinctFirst(s: seq<(nat, nat)>) {
    forall i, j :: 0 <= i < j < |s| ==> s[i].0 != s[j].0
  }

  lemma {:induction false} InsertMembers(p: (nat, nat), s: seq<(nat, nat)>)
    ensures |Insert(p, s)| == |s| + 1 && forall q :: q in Insert(p, s) <==> q == p || q in s
  {
    if s != [] && s[0].0 < p.0 {
      InsertMembers(p, s[1..]);
      assert s == [s[0]] + s[1..];
    }
  }

  lemma {:induction false} InsertKeeps(p: (nat, nat), s: seq<(nat, nat)>)
    requires Ascending(s) && forall i :: 0 <= i < |s| ==> s[i].0 != p.0
    ensures Ascending(Insert(p, s))
  {
    if s != [] && s[0].0 < p.0 {
      InsertKeeps(p, s[1..]);
      InsertMembers(p, s[1..]);
      var r := Insert(p, s[1..]);
      forall j | 0 <= j < |r|
        ensures s[0].0 < r[j].0
      {
        assert r[j] in r;
        if r[j] != p {
          var k :| 0 <= k < |s[1..]| && s[1..][k] == r[j];
        }
      }
    }
  }

  lemma LastDistinct(s: seq<(nat, nat)>, q: (nat, nat))
    requires s != [] && DistinctFirst(s) && q in s[..|s| - 1]
    ensures q.0 != s[|s| - 1].0
  {
    var k :| 0 <= k < |s| - 1 && s[..|s| - 1][k] == q;
    assert s[k] == q;
  }

  lemma {:induction false} SortKeeps(s: seq<(nat, nat)>)
    requires DistinctFirst(s)
    ensures Ascending(SortOffsets(s)) && |SortOffsets(s)| == |s|
    ensures forall q :: q in SortOffsets(s) <==> q in s
  {
    if s != [] {
      var init, p := s[..|s| - 1], s[|s| - 1];
      SortKeeps(init);
      var r := SortOffsets(init);
      forall i | 0 <= i < |r| ensures r[i].0 != p.0 {
        assert r[i] in init;
        LastDistinct(s, r[i]);
      }
      InsertKeeps(p, r);
      InsertMembers(p, r);
      forall q ensures q in s <==> q == p || q in init {
        assert s == init + [p];
      }
    }
  }

  function DynamicIn(contents: SetContents): set<nat> {
    set s | s in contents && contents[s].BufferDescriptor? && contents[s].dynamic
  }

  /** The driver pairs dynamic offsets with dynamic descriptors in ascending
      binding order. */
  function EffectiveView(contents: SetContents, offsets: seq<nat>, slot: nat): Option<View> {
    if slot !in contents then None
    else match contents[slot]
      case BufferDescriptor(b, offset, range, dynamic) =>
        var rank := |Below(DynamicIn(contents), slot)|;
        if !dynamic then Some(BufferView(b, offset, range))
        else if rank < |offsets| then Some(BufferView(b, offset + offsets[rank], range)) else None
      case TextureDescriptor(t, sampled) => Some(TextureView(t, sampled))
      case SamplerDescriptor(s) => Some(SamplerView(s))
  }

  ghost function Firsts(s: seq<(nat, nat)>): set<nat> {
    set q | q in s :: q.0
  }

  lemma {:induction false} RankOf(s: seq<(nat, nat)>, k: nat)
    requires Ascending(s) && k < |s|
    ensures |Below(Firsts(s), s[k].0)| == k
  {
    var below := Below(Firsts(s), s[k].0);
    if k == 0 {
      assert forall q :: q in s ==> s[0].0 <= q.0;
      assert below == {};
    } else {
      RankOf(s, k - 1);
      var before := Below(Firsts(s), s[k - 1].0);
      assert s[k - 1] in s;
      forall x | x in below && x != s[k - 1].0 ensures x in before {
        var q :| q in s && q.0 == x;
        var i :| 0 <= i < |s| && s[i] == q;
        assert i < k;
        assert i < k - 1;
      }
      assert below == before + {s[k - 1].0};
    }
  }

  /** `q` is the offset of some dynamic binding among `bs`. */
  ghost predicate OffsetFor(a: Args, bs: seq<Binding>, q: (nat, nat)) {
    exists b :: b in bs && a.Dynamic(b) && q == (b.slot, a.OffsetOf(b))
  }

  lemma {:induction false} OffsetsFrom(a: Args, bs: seq<Binding>)
    ensures forall q :: q in a.Offsets(bs) ==> OffsetFor(a, bs, q)
  {
    if bs != [] {
      var init, b := bs[..|bs| - 1], bs[|bs| - 1];
      OffsetsFrom(a, init);
      forall q | q in a.Offsets(bs) ensures OffsetFor(a, bs, q) {
        if q in a.Offsets(init) {
          var c :| c in init && a.Dynamic(c) && q == (c.slot, a.OffsetOf(c));
          assert c in bs;
        } else {
          assert b in bs;
        }
      }
    }
  }

  lemma {:induction false} OffsetsHave(a: Args, bs: seq<Binding>, b: Binding)
    requires b in bs && a.Dynamic(b)
    ensures (b.slot, a.OffsetOf(b)) in a.Offsets(bs)
  {
    if b != bs[|bs| - 1] { OffsetsHave(a, bs[..|bs| - 1], b); }
  }

  lemma {:induction false} OffsetsDistinct(a: Args, bs: seq<Binding>)
    requires DistinctSlots(bs)
    ensures DistinctFirst(a.Offsets(bs))
  {
    if bs != [] {
      var init, b := bs[..|bs| - 1], bs[|bs| - 1];
      OffsetsDistinct(a, init);
      OffsetsFrom(a, init);
      var os := a.Offsets(init);
      forall i | 0 <= i < |os| && a.Dynamic(b) ensures os[i].0 != b.slot {
        assert os[i] in os;
        var c :| c in init && a.Dynamic(c) && os[i] == (c.slot, a.OffsetOf(c));
        var k :| 0 <= k < |init| && init[k] == c;
        assert bs[k] == c;
      }
    }
  }

  /** The descriptor set the encoder writes, together with the sorted dynamic
      offsets it binds, shows a shader exactly the view of the rebind-everything
      binder, for every resource of the set. */
  lemma PlanShows(a: Args, b: Binding)
    requires a.info.Valid() && a.Complete() && b in a.info.bindings && Owned(a.info, b, a.dev)
    ensures EffectiveView(ContentsOf(a.Plan(a.info.bindings)), Values(SortOffsets(a.Offsets(a.info.bindings))), b.slot)
            == Some(a.ViewOf(b))
  {
    var bs := a.info.bindings;
    var plan := a.Plan(bs);
    PlanDistinct(a, bs);
    PlanHas(a, bs, b);
    var i :| 0 <= i < |plan| && plan[i] == Planned(b.slot, a.Describe(b));
    ContentsAt(plan, i);
    if a.Dynamic(b) {
      DynamicSlotsAgree(a);
      OffsetRanked(a, b);
    }
  }

  lemma OffsetRanked(a: Args, b: Binding)
    requires a.info.Valid() && b in a.info.bindings && a.Dynamic(b)
    ensures var sorted := SortOffsets(a.Offsets(a.info.bindings));
            var rank := |Below(Firsts(sorted), b.slot)|;
            rank < |Values(sorted)| && Values(sorted)[rank] == a.OffsetOf(b)
  {
    var bs := a.info.bindings;
    var sorted := SortOffsets(a.Offsets(bs));
    OffsetsDistinct(a, bs);
    SortKeeps(a.Offsets(bs));
    OffsetsHave(a, bs, b);
    var q := (b.slot, a.OffsetOf(b));
    assert q in sorted;
    var r :| 0 <= r < |sorted| && sorted[r] == q;
    RankOf(sorted, r);
  }

  lemma DynamicSlotsAgree(a: Args)
    requires a.info.Valid() && a.Complete()
    ensures DynamicIn(ContentsOf(a.Plan(a.info.bindings))) == Firsts(SortOffsets(a.Offsets(a.info.bindings)))
  {
    var bs := a.info.bindings;
    var plan, offsets := a.Plan(bs), a.Offsets(bs);
    var contents, sorted := ContentsOf(plan), SortOffsets(offsets);
    PlanDistinct(a, bs);
    OffsetsDistinct(a, bs);
    SortKeeps(offsets);
    forall s | s in DynamicIn(contents) ensures s in Firsts(sorted) {
      PlanFrom(a, bs);
      var i := ContentsKey(plan, s);
      ContentsAt(plan, i);
      assert plan[i] in plan;
      var b :| b in bs && Owned(a.info, b, a.dev) && a.Bindable(b) && plan[i] == Planned(b.slot, a.Describe(b));
      OffsetsHave(a, bs, b);
    }
    forall s | s in Firsts(sorted) ensures s in DynamicIn(contents) {
      OffsetsFrom(a, bs);
      var q :| q in sorted && q.0 == s;
      var b :| b in bs && a.Dynamic(b) && q == (b.slot, a.OffsetOf(b));
      PlanHas(a, bs, b);
      var p := Planned(b.slot, a.Describe(b));
      var i :| 0 <= i < |plan| && plan[i] == p;
      ContentsAt(plan, i);
    }
  }
}
