/** The graphics descriptor-set scheme: which (set, binding) each reflected
    resource of a shader function lives at.  The pipeline layouts, the SPIR-V
    rewriter and the render encoder all rely on this one scheme. */
module ShaderBindings {
  import opened FiniteSets

  /** The identity of a reference-counted object.  Identities are never reused;
      addresses are (see module ObjectLifetimes). */
  type Id = nat

  datatype Stage = Vertex | Fragment | Kernel

  /** One reflected binding.  `slot` is the binding number inside the shader
      module, `index` the Metal argument-table index. */
  datatype Binding =
    | Buffer(index: nat, slot: nat)
    | Texture(index: nat, slot: nat, sampled: bool)
    | Sampler(index: nat, slot: nat)
    | EmbeddedSampler(which: nat, slot: nat)
    | VertexInput(slot: nat)

  datatype FunctionInfo = FunctionInfo(stage: Stage, bindings: seq<Binding>, embedded: seq<Id>) {
    /** Reflected resources of one function have distinct binding numbers. */
    ghost predicate Valid() {
      DistinctSlots(bindings)
    }
  }

  ghost predicate DistinctSlots(bs: seq<Binding>) {
    forall i, j :: 0 <= i < j < |bs| && !bs[i].VertexInput? && !bs[j].VertexInput? ==> bs[i].slot != bs[j].slot
  }

  datatype Device = Device(pushDescriptors: bool, maxDynamicStorageBuffers: nat,
                           offsetAlignment: nat, maxStorageRange: nat)

  const PUSHED_PER_STAGE: nat := 16

  predicate IsGraphics(stage: Stage) {
    stage == Vertex || stage == Fragment
  }

  function StageSet(stage: Stage): nat {
    if stage == Fragment then 2 else 1
  }

  predicate PushesBuffers(info: FunctionInfo, dev: Device) {
    dev.pushDescriptors && IsGraphics(info.stage)
    && forall i :: 0 <= i < |info.bindings| && info.bindings[i].Buffer? ==> info.bindings[i].slot < PUSHED_PER_STAGE
  }

  /** The early-return scan that decides whether a function's buffers are pushed. */
  method ScanPushesBuffers(info: FunctionInfo, dev: Device) returns (pushes: bool)
    ensures pushes == PushesBuffers(info, dev)
  {
    if !dev.pushDescriptors || !IsGraphics(info.stage) { return false; }
    for i := 0 to |info.bindings|
      invariant forall k :: 0 <= k < i && info.bindings[k].Buffer? ==> info.bindings[k].slot < PUSHED_PER_STAGE
    {
      var b := info.bindings[i];
      if b.Buffer? && b.slot >= PUSHED_PER_STAGE { return false; }
    }
    return true;
  }

  function PushedBinding(stage: Stage, slot: nat): nat {
    (if stage == Fragment then PUSHED_PER_STAGE else 0) + slot
  }

  /** How many reflected buffers have a smaller binding number. */
  function Preceding(bs: seq<Binding>, slot: nat): nat {
    if bs == [] then 0
    else Preceding(bs[..|bs| - 1], slot)
         + (var b := bs[|bs| - 1]; if b.Buffer? && b.slot < slot then 1 else 0)
  }

  predicate DynamicBuffer(info: FunctionInfo, slot: nat, dev: Device) {
    Preceding(info.bindings, slot) < dev.maxDynamicStorageBuffers / 2
  }

  method CountPreceding(info: FunctionInfo, slot: nat) returns (preceding: nat)
    ensures preceding == Preceding(info.bindings, slot)
  {
    preceding := 0;
    for i := 0 to |info.bindings|
      invariant preceding == Preceding(info.bindings[..i], slot)
    {
      var b := info.bindings[i];
      assert info.bindings[..i + 1][..i] == info.bindings[..i];
      if b.Buffer? && b.slot < slot { preceding := preceding + 1; }
    }
    assert info.bindings[..|info.bindings|] == info.bindings;
  }

  /** A location in a pipeline layout. */
  datatype Location = Location(set_: nat, binding: nat)

  /** Where a resource of a graphics function lives. */
  function LocationOf(info: FunctionInfo, b: Binding, dev: Device): Location {
    if b.Buffer? && PushesBuffers(info, dev) then Location(0, PushedBinding(info.stage, b.slot))
    else Location(StageSet(info.stage), b.slot)
  }

  datatype DescriptorType = StorageBuffer | StorageBufferDynamic | SampledImage | StorageImage | SamplerState

  datatype LayoutBinding = LayoutBinding(binding: nat, kind: DescriptorType)

  function KindOf(info: FunctionInfo, b: Binding, dev: Device): DescriptorType
    requires !b.VertexInput?
  {
    match b
    case Buffer(_, slot) =>
      if IsGraphics(info.stage) && DynamicBuffer(info, slot, dev) then StorageBufferDynamic else StorageBuffer
    case Texture(_, _, sampled) => if sampled then SampledImage else StorageImage
    case Sampler(_, _) => SamplerState
    case EmbeddedSampler(_, _) => SamplerState
  }

  /** True of the resources that live in the function's own set. */
  predicate Owned(info: FunctionInfo, b: Binding, dev: Device) {
    !b.VertexInput? && !(b.Buffer? && PushesBuffers(info, dev))
  }

  /** The set layout that a function owns: an entry for exactly its non-pushed
      resources, in reflection order. */
  method CreateFunctionSetLayout(info: FunctionInfo, dev: Device) returns (layout: seq<LayoutBinding>)
    ensures forall b :: b in info.bindings && Owned(info, b, dev) ==>
                          LayoutBinding(b.slot, KindOf(info, b, dev)) in layout
    ensures forall l :: l in layout ==>
                          exists b :: b in info.bindings && Owned(info, b, dev) && l == LayoutBinding(b.slot, KindOf(info, b, dev))
    ensures info.Valid() ==> forall i, j :: 0 <= i < j < |layout| ==> layout[i].binding != layout[j].binding
  {
    layout := [];
    var pushed := ScanPushesBuffers(info, dev);
    ghost var from: seq<nat> := [];
    for i := 0 to |info.bindings|
      invariant |from| == |layout|
      invariant forall k :: 0 <= k < |from| ==> from[k] < i && Owned(info, info.bindings[from[k]], dev)
                                                && layout[k] == LayoutBinding(info.bindings[from[k]].slot, KindOf(info, info.bindings[from[k]], dev))
      invariant forall k, l :: 0 <= k < l < |from| ==> from[k] < from[l]
      invariant forall k :: 0 <= k < i && Owned(info, info.bindings[k], dev) ==> k in from
    {
      var b := info.bindings[i];
      if b.Buffer? {
        if !pushed {
          var preceding := CountPreceding(info, b.slot);
          var kind := if IsGraphics(info.stage) && preceding < dev.maxDynamicStorageBuffers / 2 then StorageBufferDynamic else StorageBuffer;
          layout := layout + [LayoutBinding(b.slot, kind)];
          from := from + [i];
        }
      } else if !b.VertexInput? {
        layout := layout + [LayoutBinding(b.slot, KindOf(info, b, dev))];
        from := from + [i];
      }
    }
    forall b | b in info.bindings && Owned(info, b, dev)
      ensures LayoutBinding(b.slot, KindOf(info, b, dev)) in layout
    {
      var k :| 0 <= k < |info.bindings| && info.bindings[k] == b;
      var m :| 0 <= m < |from| && from[m] == k;
      assert layout[m] == LayoutBinding(b.slot, KindOf(info, b, dev));
    }
  }

  /** Two resources of one function never share a location. */
  lemma LocationsDistinct(info: FunctionInfo, dev: Device, i: nat, j: nat)
    requires info.Valid() && i < j < |info.bindings|
    requires !info.bindings[i].VertexInput? && !info.bindings[j].VertexInput?
    ensures LocationOf(info, info.bindings[i], dev) != LocationOf(info, info.bindings[j], dev)
  {
  }

  /** The two stages of one pipeline never share a location: pushed buffers are
      split at binding 16, everything else is in the stage's own set. */
  lemma StagesDisjoint(v: FunctionInfo, f: FunctionInfo, dev: Device, a: Binding, b: Binding)
    requires v.stage == Vertex && f.stage == Fragment
    requires a in v.bindings && b in f.bindings
    ensures LocationOf(v, a, dev) != LocationOf(f, b, dev)
  {
  }

  /** The binding numbers of the buffers that get a dynamic offset. */
  function DynamicSlots(info: FunctionInfo, dev: Device, bs: seq<Binding>): set<nat> {
    set i | 0 <= i < |bs| && bs[i].Buffer? && DynamicBuffer(info, bs[i].slot, dev) :: bs[i].slot
  }

  function BufferSlots(bs: seq<Binding>): set<nat> {
    set i | 0 <= i < |bs| && bs[i].Buffer? :: bs[i].slot
  }

  function Below(all: set<nat>, x: nat): set<nat> {
    set y | y in all && y < x
  }

  lemma {:induction false} PrecedingCounts(bs: seq<Binding>, slot: nat)
    requires DistinctSlots(bs)
    ensures Preceding(bs, slot) == |Below(BufferSlots(bs), slot)|
  {
    if bs == [] {
      assert Below(BufferSlots(bs), slot) == {};
    } else {
      var init, b := bs[..|bs| - 1], bs[|bs| - 1];
      PrecedingCounts(init, slot);
      BufferSlotsSnoc(bs);
      if b.Buffer? && b.slot < slot {
        assert b.slot !in BufferSlots(init);
        assert Below(BufferSlots(bs), slot) == Below(BufferSlots(init), slot) + {b.slot};
      } else {
        assert Below(BufferSlots(bs), slot) == Below(BufferSlots(init), slot);
      }
    }
  }

  lemma BufferSlotsSnoc(bs: seq<Binding>)
    requires bs != []
    ensures var init, b := bs[..|bs| - 1], bs[|bs| - 1];
            BufferSlots(bs) == BufferSlots(init) + if b.Buffer? then {b.slot} else {}
  {
    var init, b := bs[..|bs| - 1], bs[|bs| - 1];
    forall s | s in BufferSlots(bs) ensures s in BufferSlots(init) + if b.Buffer? then {b.slot} else {} {
      var i :| 0 <= i < |bs| && bs[i].Buffer? && bs[i].slot == s;
      if i < |init| { assert init[i] == bs[i]; }
    }
    forall s | s in BufferSlots(init) ensures s in BufferSlots(bs) {
      var i :| 0 <= i < |init| && init[i].Buffer? && init[i].slot == s;
      assert bs[i] == init[i];
    }
  }

  lemma {:induction false} InitialSegmentIsSmall(s: set<nat>, all: set<nat>, limit: nat)
    requires s <= all
    requires forall x :: x in s ==> |Below(all, x)| < limit
    ensures |s| <= limit
  {
    if s != {} {
      var top := Largest(s);
      assert s - {top} <= Below(all, top);
      SubsetCard(s - {top}, Below(all, top));
      assert |s - {top}| == |s| - 1;
    }
  }

  lemma Largest(s: set<nat>) returns (m: nat)
    requires s != {}
    ensures m in s && forall x :: x in s ==> x <= m
    decreases |s|
  {
    m :| m in s;
    if s - {m} != {} {
      var n := Largest(s - {m});
      assert forall y :: y in s ==> y == m || y in s - {m};
      if m < n { m := n; }
    } else {
      assert forall y :: y in s && y != m ==> y in s - {m};
    }
  }

  /** The device's aggregate limit on dynamic storage buffers holds for every
      pipeline: each stage takes at most half of it. */
  lemma DynamicLimitHolds(v: FunctionInfo, f: FunctionInfo, dev: Device)
    requires v.Valid() && f.Valid()
    ensures |DynamicSlots(v, dev, v.bindings)| + |DynamicSlots(f, dev, f.bindings)| <= dev.maxDynamicStorageBuffers
  {
    HalfLimit(v, dev);
    HalfLimit(f, dev);
  }

  lemma HalfLimit(info: FunctionInfo, dev: Device)
    requires info.Valid()
    ensures |DynamicSlots(info, dev, info.bindings)| <= dev.maxDynamicStorageBuffers / 2
  {
    var s := DynamicSlots(info, dev, info.bindings);
    var all := BufferSlots(info.bindings);
    forall x | x in s ensures |Below(all, x)| < dev.maxDynamicStorageBuffers / 2 {
      PrecedingCounts(info.bindings, x);
    }
    InitialSegmentIsSmall(s, all, dev.maxDynamicStorageBuffers / 2);
  }
}
