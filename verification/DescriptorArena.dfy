/** The descriptor cache of one recording owner.  Entries are found again by a
    key of raw addresses; weak lifetimes decide whether the addresses still
    mean the objects the set was written from. */
module DescriptorArenas {
  import opened ShaderBindings
  import opened Wrappers
  import opened ObjectLifetimes
  import opened DescriptorPlans

  type SetId = nat

  /** `pso` and `resources` are weak: they identify objects without keeping them alive. */
  datatype Entry = Entry(set_: Option<SetId>, layout: nat, pso: Option<Id>, key: seq<nat>,
                         resources: seq<Id>, used: bool, hash: nat)

  const EMPTY_ENTRY := Entry(None, 0, None, [], [], false, 0)

  function Bag(lookup: map<nat, multiset<nat>>, hash: nat): multiset<nat> {
    if hash in lookup then lookup[hash] else multiset{}
  }

  /** An entry's key, weak owners and set memory all come from one plan that was
      written for the function whose layout the entry carries. */
  ghost predicate EntryCoherent(h: Heap, dev: Device, contents: map<SetId, SetContents>, e: Entry, plan: seq<Planned>) {
    && e.set_.Some? && e.set_.value in contents && contents[e.set_.value] == ContentsOf(plan)
    && e.pso.Some? && e.pso.value in h.pipelines
    && (exists s :: 0 <= s < 2 && WrittenAt(h, dev, e.pso.value, e.layout, plan, s))
    && Known(h, plan) && e.key == KeyOf(h, plan) && e.resources == ResourcesOf(plan)
  }

  ghost predicate WrittenAt(h: Heap, dev: Device, pso: Id, layout: nat, plan: seq<Planned>, s: nat)
    requires pso in h.pipelines && s < 2
  {
    var p := h.pipelines[pso];
    && p.Valid() && p.layouts[s] == layout
    && Fits(p.functions[s], dev, p.functions[s].bindings, plan)
  }

  predicate Matches(h: Heap, e: Entry, p: Id, layout: nat, key: seq<nat>) {
    e.layout == layout && e.pso == Some(p) && e.key == key && forall r :: r in e.resources ==> r in h.live
  }

  /** `lookup` holds exactly one (hash, index) per entry, and nothing else. */
  ghost predicate Indexed(lookup: map<nat, multiset<nat>>, entries: seq<Entry>) {
    forall k: nat, i: nat :: Bag(lookup, k)[i] == Occurrences(entries, k, i)
  }

  ghost function Occurrences(entries: seq<Entry>, k: nat, i: nat): nat {
    if i < |entries| && entries[i].hash == k then 1 else 0
  }

  /** The free lists only name entries of their layout. */
  ghost predicate Listed(available: map<nat, seq<nat>>, entries: seq<Entry>) {
    forall l, k :: l in available && 0 <= k < |available[l]| ==>
                     available[l][k] < |entries| && entries[available[l][k]].layout == l
  }

  ghost predicate DistinctSets(entries: seq<Entry>) {
    forall i, j :: 0 <= i < j < |entries| ==> entries[i].set_ != entries[j].set_
  }

  ghost predicate CoherentState(h: Heap, dev: Device, keyHash: (nat, seq<nat>) -> nat, entries: seq<Entry>, plans: seq<seq<Planned>>,
                                contents: map<SetId, SetContents>, lookup: map<nat, multiset<nat>>, available: map<nat, seq<nat>>, nextSet: SetId)
  {
    && EntriesCoherent(h, dev, contents, entries, plans) && HashesMatch(keyHash, entries)
    && DistinctSets(entries) && Indexed(lookup, entries) && Listed(available, entries) && Allocated(contents, nextSet)
  }

  ghost predicate EntriesCoherent(h: Heap, dev: Device, contents: map<SetId, SetContents>, entries: seq<Entry>, plans: seq<seq<Planned>>) {
    |plans| == |entries| && forall i :: 0 <= i < |entries| ==> EntryCoherent(h, dev, contents, entries[i], plans[i])
  }

  ghost predicate HashesMatch(keyHash: (nat, seq<nat>) -> nat, entries: seq<Entry>) {
    forall i :: 0 <= i < |entries| ==> entries[i].hash == keyHash(entries[i].layout, entries[i].key)
  }

  ghost predicate Allocated(contents: map<SetId, SetContents>, nextSet: SetId) {
    forall s :: s in contents ==> s < nextSet
  }

  /** The first `n` entries are in the free list of their layout. */
  ghost predicate Covered(free: map<nat, seq<nat>>, entries: seq<Entry>, n: nat)
    requires n <= |entries|
  {
    forall k :: 0 <= k < n ==> entries[k].layout in free && k in free[entries[k].layout]
  }

  function AddFree(free: map<nat, seq<nat>>, layout: nat, i: nat): map<nat, seq<nat>> {
    free[layout := (if layout in free then free[layout] else []) + [i]]
  }

  lemma AddFreeListed(free: map<nat, seq<nat>>, entries: seq<Entry>, i: nat)
    requires i < |entries| && Listed(free, entries) && Covered(free, entries, i)
    ensures Listed(AddFree(free, entries[i].layout, i), entries) && Covered(AddFree(free, entries[i].layout, i), entries, i + 1)
  {
    var layout := entries[i].layout;
    var next := AddFree(free, layout, i);
    forall k | 0 <= k < i + 1 ensures entries[k].layout in next && k in next[entries[k].layout] {
      if k == i { assert next[layout][|next[layout]| - 1] == i; }
      else if entries[k].layout == layout { assert k in free[layout]; }
    }
  }

  lemma ResetCoherent(h: Heap, dev: Device, contents: map<SetId, SetContents>, before: seq<Entry>, after: seq<Entry>,
                      plans: seq<seq<Planned>>, lookup: map<nat, multiset<nat>>, free: map<nat, seq<nat>>)
    requires |before| == |after| && EntriesCoherent(h, dev, contents, before, plans)
    requires forall i :: 0 <= i < |after| ==> after[i] == before[i].(used := false)
    requires DistinctSets(before) && Indexed(lookup, before) && Listed(free, before)
    ensures EntriesCoherent(h, dev, contents, after, plans)
    ensures DistinctSets(after) && Indexed(lookup, after) && Listed(free, after)
  {
    forall i | 0 <= i < |after| ensures EntryCoherent(h, dev, contents, after[i], plans[i]) {
      assert EntryCoherent(h, dev, contents, before[i], plans[i]);
    }
    forall k: nat, i: nat ensures Bag(lookup, k)[i] == Occurrences(after, k, i) {
      assert Bag(lookup, k)[i] == Occurrences(before, k, i);
    }
  }

  /** The range scratch table holds the visible size of every non-pushed buffer,
      or zero for a buffer that is visible to its end. */
  ghost predicate RangesMatch(a: Args, ranges: seq<nat>)
    requires a.Complete()
  {
    forall b :: b in a.info.bindings && b.Buffer? && Owned(a.info, b, a.dev) ==>
                  && b.index < |ranges|
                  && (ranges[b.index] == a.Size(b.index)
                      || (ranges[b.index] == 0
                          && a.Size(b.index) == a.LengthOf(a.tables.buffers[b.index].buffer.value) - a.tables.buffers[b.index].offset))
  }

  ghost predicate Written(a: Args, writes: SetContents, b: Binding) {
    !b.VertexInput? && a.Bindable(b) && b.slot in writes && writes[b.slot] == a.Describe(b)
  }

  ghost predicate OnlyOwned(a: Args, writes: SetContents) {
    forall s :: s in writes ==> exists b :: b in a.info.bindings && Owned(a.info, b, a.dev) && b.slot == s
  }

  lemma WriteOne(a: Args, writes: SetContents, i: nat, d: Descriptor)
    requires a.info.Valid() && a.Complete() && i < |a.info.bindings| && a.info.bindings[i] in a.info.bindings
    requires Owned(a.info, a.info.bindings[i], a.dev) && d == a.Describe(a.info.bindings[i])
    requires OnlyOwned(a, writes)
    ensures var bs, next := a.info.bindings, writes[a.info.bindings[i].slot := d];
            && OnlyOwned(a, next) && Written(a, next, bs[i])
            && forall k :: 0 <= k < |bs| && Owned(a.info, bs[k], a.dev) && Written(a, writes, bs[k]) ==> Written(a, next, bs[k])
  {
    var bs, next := a.info.bindings, writes[a.info.bindings[i].slot := d];
    forall k | 0 <= k < |bs| && Owned(a.info, bs[k], a.dev) && Written(a, writes, bs[k]) ensures Written(a, next, bs[k]) {
      if k < i { assert bs[k].slot != bs[i].slot; } else if i < k { assert bs[i].slot != bs[k].slot; }
    }
  }

  class DescriptorArena {
    const dev: Device
    /** The cache is correct whatever the hash function is. */
    const keyHash: (nat, seq<nat>) -> nat

    var entries: seq<Entry>
    /** Hash to entry indices; the order of equal hashes is unspecified. */
    var lookup: map<nat, multiset<nat>>
    /** Set layout to the indices of the entries that were free at the last reset. */
    var available: map<nat, seq<nat>>
    /** The memory of the descriptor sets allocated from the arena's pools. */
    var contents: map<SetId, SetContents>
    /** The driver hands out set handles it never handed out before. */
    var nextSet: SetId
    /** What each entry's set was last written from. */
    ghost var plans: seq<seq<Planned>>

    ghost predicate Coherent(h: Heap)
      reads this
    {
      CoherentState(h, dev, keyHash, entries, plans, contents, lookup, available, nextSet)
    }

    constructor (dev: Device, keyHash: (nat, seq<nat>) -> nat)
      ensures this.dev == dev && this.keyHash == keyHash
      ensures entries == [] && forall h: Heap :: Coherent(h)
    {
      this.dev, this.keyHash := dev, keyHash;
      entries, lookup, available, contents, nextSet, plans := [], map[], map[], map[], 0, [];
      new;
      assert Indexed(lookup, entries) && Listed(available, entries) && DistinctSets(entries);
    }

    /** A new encoder takes the arena over after its previous owner completed:
        every set is free again, and indexed once by its layout. */
    method Reset(ghost h: Heap)
      requires Coherent(h)
      modifies this`entries, this`available
      ensures Coherent(h)
      ensures |entries| == |old(entries)| && plans == old(plans) && contents == old(contents)
      ensures forall i :: 0 <= i < |entries| ==> entries[i] == old(entries)[i].(used := false)
      ensures Covered(available, entries, |entries|)
    {
      ghost var before := entries;
      var free: map<nat, seq<nat>> := map l | l in available :: [];
      var i := 0;
      while i < |entries|
        invariant 0 <= i <= |entries| == |before| && plans == old(plans) && contents == old(contents) && lookup == old(lookup) && nextSet == old(nextSet)
        invariant forall k :: 0 <= k < i ==> entries[k] == before[k].(used := false)
        invariant forall k :: i <= k < |before| ==> entries[k] == before[k]
        invariant Listed(free, before) && Covered(free, before, i)
      {
        AddFreeListed(free, before, i);
        free := AddFree(free, entries[i].layout, i);
        entries := entries[i := entries[i].(used := false)];
        i := i + 1;
      }
      available := free;
      ResetCoherent(h, dev, contents, before, entries, plans, lookup, free);
    }

    /** Searches the entries of equal hash, in whatever order the index yields them. */
    method FindHit(h: Heap, p: Id, layout: nat, key: seq<nat>) returns (hit: Option<nat>)
      requires Coherent(h)
      ensures hit.Some? ==> hit.value < |entries| && Matches(h, entries[hit.value], p, layout, key)
      ensures hit.None? ==> forall i :: 0 <= i < |entries| ==> !Matches(h, entries[i], p, layout, key)
    {
      var hash := keyHash(layout, key);
      var rest := Bag(lookup, hash);
      while rest != multiset{}
        invariant rest <= Bag(lookup, hash)
        invariant forall i :: 0 <= i < |entries| && entries[i].hash == hash && i !in rest ==> !Matches(h, entries[i], p, layout, key)
        decreases |rest|
      {
        var i :| i in rest;
        assert 0 < rest[i] <= Bag(lookup, hash)[i];
        if Matches(h, entries[i], p, layout, key) { return Some(i); }
        rest := rest - multiset{i};
      }
      return None;
    }

    /** Pops free sets of the layout until one belongs to the same pipeline state. */
    method TakeFree(ghost h: Heap, p: Id, layout: nat) returns (free: Option<nat>)
      requires Coherent(h)
      modifies this`available
      ensures Coherent(h)
      ensures free.Some? ==> free.value < |entries| && !entries[free.value].used
                             && entries[free.value].pso == Some(p) && entries[free.value].layout == layout
    {
      if layout !in available { available := available[layout := []]; }
      while available[layout] != []
        invariant layout in available
        invariant Listed(available, entries)
        decreases |available[layout]|
      {
        var list := available[layout];
        var index := list[|list| - 1];
        available := available[layout := list[..|list| - 1]];
        if !entries[index].used && entries[index].pso == Some(p) { return Some(index); }
      }
      return None;
    }

    /** The descriptor writer: buffers first, then textures and samplers. */
    method WriteDescriptors(a: Args, ranges: seq<nat>) returns (writes: SetContents)
      requires a.Valid() && a.Complete() && a.dev == dev && RangesMatch(a, ranges)
      ensures writes == ContentsOf(a.Plan(a.info.bindings))
    {
      writes := map[];
      var bs := a.info.bindings;
      for i := 0 to |bs|
        invariant forall k :: 0 <= k < i && bs[k].Buffer? && Owned(a.info, bs[k], dev) ==> Written(a, writes, bs[k])
        invariant OnlyOwned(a, writes)
      {
        assert bs[i] in bs;
        if bs[i].Buffer? && Owned(a.info, bs[i], dev) {
          var d := BufferWrite(a, ranges, bs[i]);
          WriteOne(a, writes, i, d);
          writes := writes[bs[i].slot := d];
        }
      }
      for i := 0 to |bs|
        invariant forall k :: 0 <= k < |bs| && (bs[k].Buffer? || k < i) && Owned(a.info, bs[k], dev) ==> Written(a, writes, bs[k])
        invariant OnlyOwned(a, writes)
      {
        assert bs[i] in bs;
        if !bs[i].Buffer? && !bs[i].VertexInput? {
          var d := match bs[i]
            case Texture(index, _, sampled) => TextureDescriptor(a.tables.textures[index].value, sampled)
            case Sampler(index, _) => SamplerDescriptor(a.tables.samplers[index].value)
            case EmbeddedSampler(which, _) => SamplerDescriptor(a.info.embedded[which]);
          WriteOne(a, writes, i, d);
          writes := writes[bs[i].slot := d];
        }
      }
      forall b | b in bs && Owned(a.info, b, dev) ensures Written(a, writes, b) {
        var k :| 0 <= k < |bs| && bs[k] == b;
      }
      ContentsUnique(a, writes);
    }

    method BufferWrite(a: Args, ranges: seq<nat>, b: Binding) returns (d: Descriptor)
      requires a.Valid() && a.Complete() && a.dev == dev && RangesMatch(a, ranges)
      requires b in a.info.bindings && b.Buffer? && Owned(a.info, b, dev)
      ensures d == a.Describe(b)
    {
      var arg := a.tables.buffers[b.index];
      var dynamic := DynamicBuffer(a.info, b.slot, dev);
      var range := if b.index < |ranges| && ranges[b.index] != 0 then ranges[b.index]
                   else a.LengthOf(arg.buffer.value) - arg.offset;
      d := BufferDescriptor(arg.buffer.value, if dynamic then 0 else arg.offset, range, dynamic);
    }

    /** Overwrites the weak owners of a rewritten entry slot by slot, leaving
        unchanged owners alone. */
    method RememberResources(a: Args, previous: seq<Id>) returns (resources: seq<Id>)
      requires a.Complete()
      ensures resources == ResourcesOf(a.Plan(a.info.bindings))
    {
      resources := previous;
      var count := 0;
      var bs := a.info.bindings;
      for i := 0 to |bs|
        invariant count == |a.Plan(bs[..i])| <= |resources|
        invariant resources[..count] == ResourcesOf(a.Plan(bs[..i]))
      {
        assert bs[..i + 1][..i] == bs[..i];
        if Owned(a.info, bs[i], a.dev) {
          assert bs[i] in bs;
          var r := ResourceOf(a.Describe(bs[i]));
          if count == |resources| { resources := resources + [r]; }
          else if resources[count] != r { resources := resources[count := r]; }
          count := count + 1;
        }
      }
      assert bs[..|bs|] == bs;
      resources := resources[..count];
    }

    /** Finds or writes a set that holds exactly `a`'s descriptors.  A hit is
        sound because the weak owners are checked; a rewrite only ever touches
        a set that no draw of this recording has bound. */
    method Acquire(h: Heap, p: Id, ghost stage: nat, a: Args, layout: nat, key: seq<nat>, ranges: seq<nat>) returns (index: nat)
      requires Coherent(h) && a.Valid() && a.Complete() && a.dev == dev && a.h == h && RangesMatch(a, ranges)
      requires stage < 2 && p in h.pipelines && h.pipelines[p].functions[stage] == a.info && h.pipelines[p].layouts[stage] == layout
      requires Known(h, a.Plan(a.info.bindings)) && key == KeyOf(h, a.Plan(a.info.bindings))
      modifies this
      ensures Coherent(h)
      ensures index < |entries| && Shown(entries[index], contents, a)
      ensures Preserved(old(entries), entries, old(contents), contents)
    {
      var hit := FindHit(h, p, layout, key);
      if hit.Some? {
        index := hit.value;
        HitIsExact(h, a, p, stage, contents, entries[index], plans[index]);
        UseCoherent(h, dev, contents, entries, index, plans, lookup, available);
        entries := entries[index := entries[index].(used := true)];
      } else {
        var free := TakeFree(h, p, layout);
        index := if free.Some? then free.value else |entries|;
        Rewrite(h, p, stage, a, layout, key, ranges, index);
      }
    }

    /** Writes `a`'s descriptors into the free entry `index`, or into a new one. */
    method Rewrite(ghost h: Heap, p: Id, ghost stage: nat, a: Args, layout: nat, key: seq<nat>, ranges: seq<nat>, index: nat)
      requires Coherent(h) && a.Valid() && a.Complete() && a.dev == dev && a.h == h && RangesMatch(a, ranges)
      requires stage < 2 && p in h.pipelines && h.pipelines[p].functions[stage] == a.info && h.pipelines[p].layouts[stage] == layout
      requires Known(h, a.Plan(a.info.bindings)) && key == KeyOf(h, a.Plan(a.info.bindings))
      requires index <= |entries|
      requires index < |entries| ==> !entries[index].used && entries[index].pso == Some(p) && entries[index].layout == layout
      modifies this
      ensures Coherent(h)
      ensures index < |entries| && Shown(entries[index], contents, a)
      ensures Preserved(old(entries), entries, old(contents), contents)
    {
      ghost var plan := a.Plan(a.info.bindings);
      var e := if index < |entries| then entries[index] else EMPTY_ENTRY;
      var writes := WriteDescriptors(a, ranges);
      var resources := RememberResources(a, e.resources);
      var set_ := if e.set_.Some? then e.set_.value else nextSet;
      var next := Entry(Some(set_), layout, Some(p), key, resources, true, keyHash(layout, key));
      assert Replaces(h, dev, contents, entries, plans, index, next, plan) by {
        PlanFits(a, a.info.bindings);
        assert WrittenAt(h, dev, p, layout, plan, stage);
        if index < |entries| { assert EntryCoherent(h, dev, contents, entries[index], plans[index]); }
      }
      Install(h, index, next, writes, plan);
    }

    /** The bookkeeping of a rewrite: set memory, index and entry. */
    method Install(ghost h: Heap, index: nat, next: Entry, writes: SetContents, ghost plan: seq<Planned>)
      requires Coherent(h) && Replaces(h, dev, contents, entries, plans, index, next, plan)
      requires index < |entries| ==> !entries[index].used
      requires index == |entries| ==> next.set_ == Some(nextSet)
      requires writes == ContentsOf(plan) && next.hash == keyHash(next.layout, next.key)
      modifies this
      ensures Coherent(h)
      ensures entries == Put(old(entries), index, next) && contents == old(contents)[next.set_.value := ContentsOf(plan)]
      ensures Preserved(old(entries), entries, old(contents), contents)
    {
      hide CoherentState, Preserved, Erase, Emplace, ContentsOf;
      InstallCoherent(h, dev, keyHash, entries, plans, contents, lookup, available, nextSet, index, next, plan);
      var set_ := next.set_.value;
      contents := contents[set_ := (if set_ in contents then contents[set_] else map[]) + writes];
      lookup := Emplace(if index < |entries| then Erase(lookup, entries[index].hash, index) else lookup, next.hash, index);
      nextSet := if index < |entries| then nextSet else nextSet + 1;
      entries := Put(entries, index, next);
      plans := Put(plans, index, plan);
    }
  }

  lemma InstallCoherent(h: Heap, dev: Device, keyHash: (nat, seq<nat>) -> nat, entries: seq<Entry>, plans: seq<seq<Planned>>,
                        contents: map<SetId, SetContents>, lookup: map<nat, multiset<nat>>, available: map<nat, seq<nat>>, nextSet: SetId,
                        index: nat, next: Entry, plan: seq<Planned>)
    requires CoherentState(h, dev, keyHash, entries, plans, contents, lookup, available, nextSet)
    requires Replaces(h, dev, contents, entries, plans, index, next, plan)
    requires index < |entries| ==> !entries[index].used
    requires index == |entries| ==> next.set_ == Some(nextSet)
    requires next.hash == keyHash(next.layout, next.key)
    ensures var set_ := next.set_.value;
            var memory := contents[set_ := (if set_ in contents then contents[set_] else map[]) + ContentsOf(plan)];
            var erased := if index < |entries| then Erase(lookup, entries[index].hash, index) else lookup;
            && memory == contents[set_ := ContentsOf(plan)]
            && CoherentState(h, dev, keyHash, Put(entries, index, next), Put(plans, index, plan), memory,
                             Emplace(erased, next.hash, index), available, if index < |entries| then nextSet else nextSet + 1)
            && Preserved(entries, Put(entries, index, next), contents, memory)
  {
    RewrittenMemory(h, dev, contents, entries, plans, index, next, plan);
    RewriteEntries(h, dev, contents, entries, plans, index, next, plan);
    RewrittenIndex(lookup, entries, index, next);
    RewritePreserves(h, dev, contents, entries, plans, index, next, plan);
    RewriteListed(available, entries, index, next);
    RewriteHashes(keyHash, entries, index, next);
    RewriteAllocated(h, dev, contents, entries, plans, index, next, plan, nextSet);
  }

  lemma RewriteHashes(keyHash: (nat, seq<nat>) -> nat, entries: seq<Entry>, index: nat, next: Entry)
    requires index <= |entries| && HashesMatch(keyHash, entries) && next.hash == keyHash(next.layout, next.key)
    ensures HashesMatch(keyHash, Put(entries, index, next))
  {
  }

  lemma RewriteAllocated(h: Heap, dev: Device, contents: map<SetId, SetContents>, entries: seq<Entry>,
                         plans: seq<seq<Planned>>, index: nat, next: Entry, plan: seq<Planned>, nextSet: SetId)
    requires Replaces(h, dev, contents, entries, plans, index, next, plan) && Allocated(contents, nextSet)
    requires index == |entries| ==> next.set_ == Some(nextSet)
    ensures Allocated(contents[next.set_.value := ContentsOf(plan)], if index < |entries| then nextSet else nextSet + 1)
  {
    if index < |entries| { assert EntryCoherent(h, dev, contents, entries[index], plans[index]); }
  }

  lemma RewriteListed(available: map<nat, seq<nat>>, entries: seq<Entry>, index: nat, next: Entry)
    requires index <= |entries| && Listed(available, entries)
    requires index < |entries| ==> next.layout == entries[index].layout
    ensures Listed(available, Put(entries, index, next))
  {
  }

  function Put<T>(s: seq<T>, i: nat, x: T): seq<T>
    requires i <= |s|
  {
    if i == |s| then s + [x] else s[i := x]
  }

  function Erase(lookup: map<nat, multiset<nat>>, hash: nat, index: nat): map<nat, multiset<nat>> {
    lookup[hash := Bag(lookup, hash) - multiset{index}]
  }

  function Emplace(lookup: map<nat, multiset<nat>>, hash: nat, index: nat): map<nat, multiset<nat>> {
    lookup[hash := Bag(lookup, hash) + multiset{index}]
  }

  /** The entry is in use and its set holds what `a` needs. */
  ghost predicate Shown(e: Entry, contents: map<SetId, SetContents>, a: Args)
    requires a.Complete()
  {
    e.used && e.set_.Some? && e.set_.value in contents && contents[e.set_.value] == ContentsOf(a.Plan(a.info.bindings))
  }

  /** Entries in use, and the memory of their sets, do not change. */
  ghost predicate Preserved(before: seq<Entry>, after: seq<Entry>, was: map<SetId, SetContents>, is_: map<SetId, SetContents>) {
    && |before| <= |after|
    && forall i :: 0 <= i < |before| && before[i].used ==>
         && after[i] == before[i]
         && (before[i].set_.Some? && before[i].set_.value in was ==>
               before[i].set_.value in is_ && is_[before[i].set_.value] == was[before[i].set_.value])
  }

  lemma HitIsExact(h: Heap, a: Args, p: Id, stage: nat, contents: map<SetId, SetContents>, e: Entry, plan: seq<Planned>)
    requires a.Valid() && a.Complete() && a.h == h && stage < 2
    requires p in h.pipelines && h.pipelines[p].functions[stage] == a.info
    requires Known(h, a.Plan(a.info.bindings))
    requires EntryCoherent(h, a.dev, contents, e, plan)
    requires Matches(h, e, p, h.pipelines[p].layouts[stage], KeyOf(h, a.Plan(a.info.bindings)))
    ensures plan == a.Plan(a.info.bindings)
  {
    var s :| 0 <= s < 2 && WrittenAt(h, a.dev, p, e.layout, plan, s);
    assert s == stage;
    PlanFits(a, a.info.bindings);
    FittingPlansAlike(a.info, a.dev, a.info.bindings, plan, a.Plan(a.info.bindings));
    forall i | 0 <= i < |plan| ensures ResourceOf(plan[i].descriptor) in h.live {
      assert e.resources[i] in e.resources;
    }
    PlanLive(a, a.info.bindings);
    SameKeySamePlan(h, plan, a.Plan(a.info.bindings));
  }

  lemma UseCoherent(h: Heap, dev: Device, contents: map<SetId, SetContents>, entries: seq<Entry>, index: nat,
                    plans: seq<seq<Planned>>, lookup: map<nat, multiset<nat>>, available: map<nat, seq<nat>>)
    requires index < |entries| && EntriesCoherent(h, dev, contents, entries, plans)
    requires DistinctSets(entries) && Indexed(lookup, entries) && Listed(available, entries)
    ensures var after := entries[index := entries[index].(used := true)];
            && EntriesCoherent(h, dev, contents, after, plans)
            && DistinctSets(after) && Indexed(lookup, after) && Listed(available, after)
  {
    var after := entries[index := entries[index].(used := true)];
    forall i | 0 <= i < |after| ensures EntryCoherent(h, dev, contents, after[i], plans[i]) {
      assert EntryCoherent(h, dev, contents, entries[i], plans[i]);
    }
    forall k: nat, i: nat ensures Bag(lookup, k)[i] == Occurrences(after, k, i) {
      assert Bag(lookup, k)[i] == Occurrences(entries, k, i);
    }
  }

  /** The state just before entry `index` becomes `next`, written from `plan`. */
  ghost predicate Replaces(h: Heap, dev: Device, contents: map<SetId, SetContents>, entries: seq<Entry>,
                           plans: seq<seq<Planned>>, index: nat, next: Entry, plan: seq<Planned>)
  {
    && index <= |entries| && EntriesCoherent(h, dev, contents, entries, plans)
    && DistinctSets(entries)
    && next.set_.Some? && next.pso.Some? && next.pso.value in h.pipelines
    && (if index < |entries| then next.set_ == entries[index].set_ && next.layout == entries[index].layout && next.pso == entries[index].pso
        else next.set_.value !in contents)
    && (exists s :: 0 <= s < 2 && WrittenAt(h, dev, next.pso.value, next.layout, plan, s))
    && Known(h, plan) && next.key == KeyOf(h, plan) && next.resources == ResourcesOf(plan)
  }

  lemma RewriteEntries(h: Heap, dev: Device, contents: map<SetId, SetContents>, entries: seq<Entry>,
                       plans: seq<seq<Planned>>, index: nat, next: Entry, plan: seq<Planned>)
    requires Replaces(h, dev, contents, entries, plans, index, next, plan)
    ensures var memory := contents[next.set_.value := ContentsOf(plan)];
            var after, written := Put(entries, index, next), Put(plans, index, plan);
            && EntriesCoherent(h, dev, memory, after, written)
            && DistinctSets(after)
  {
    var memory := contents[next.set_.value := ContentsOf(plan)];
    var after, written := Put(entries, index, next), Put(plans, index, plan);
    forall i | 0 <= i < |after| && i != index
      ensures EntryCoherent(h, dev, memory, after[i], written[i]) && after[i].set_ != next.set_
    {
      assert EntryCoherent(h, dev, contents, entries[i], plans[i]);
      if index < |entries| { OtherSet(entries, i, index); }
    }
    forall i, j | 0 <= i < j < |after| ensures after[i].set_ != after[j].set_ {
      if i != index && j != index { assert entries[i].set_ != entries[j].set_; }
    }
  }

  lemma OtherSet(entries: seq<Entry>, i: nat, j: nat)
    requires DistinctSets(entries) && i < |entries| && j < |entries| && i != j
    ensures entries[i].set_ != entries[j].set_
  {
  }

  lemma RewritePreserves(h: Heap, dev: Device, contents: map<SetId, SetContents>, entries: seq<Entry>,
                         plans: seq<seq<Planned>>, index: nat, next: Entry, plan: seq<Planned>)
    requires Replaces(h, dev, contents, entries, plans, index, next, plan)
    requires index < |entries| ==> !entries[index].used
    ensures Preserved(entries, Put(entries, index, next), contents, contents[next.set_.value := ContentsOf(plan)])
  {
    forall i | 0 <= i < |entries| && entries[i].used ensures entries[i].set_ != next.set_ {
      assert EntryCoherent(h, dev, contents, entries[i], plans[i]);
      if index < |entries| { OtherSet(entries, i, index); }
    }
  }

  /** Rewriting overwrites every binding of the set, so nothing stale is left. */
  lemma RewrittenMemory(h: Heap, dev: Device, contents: map<SetId, SetContents>, entries: seq<Entry>,
                        plans: seq<seq<Planned>>, index: nat, next: Entry, plan: seq<Planned>)
    requires Replaces(h, dev, contents, entries, plans, index, next, plan)
    ensures (if next.set_.value in contents then contents[next.set_.value] else map[]) + ContentsOf(plan) == ContentsOf(plan)
  {
    if index < |entries| {
      assert EntryCoherent(h, dev, contents, entries[index], plans[index]);
      var p := h.pipelines[next.pso.value];
      var s :| 0 <= s < 2 && WrittenAt(h, dev, next.pso.value, next.layout, plan, s);
      var t :| 0 <= t < 2 && WrittenAt(h, dev, next.pso.value, next.layout, plans[index], t);
      assert s == t;
      FittingPlansAlike(p.functions[s], dev, p.functions[s].bindings, plan, plans[index]);
    }
  }

  lemma RewrittenIndex(lookup: map<nat, multiset<nat>>, entries: seq<Entry>, index: nat, next: Entry)
    requires index <= |entries| && Indexed(lookup, entries)
    ensures var erased := if index < |entries| then Erase(lookup, entries[index].hash, index) else lookup;
            Indexed(Emplace(erased, next.hash, index), Put(entries, index, next))
  {
    var erased := if index < |entries| then Erase(lookup, entries[index].hash, index) else lookup;
    var after := Put(entries, index, next);
    if index < |entries| { assert Bag(lookup, entries[index].hash)[index] == Occurrences(entries, entries[index].hash, index); }
    forall k: nat, i: nat ensures Bag(Emplace(erased, next.hash, index), k)[i] == Occurrences(after, k, i) {
      assert Bag(lookup, k)[i] == Occurrences(entries, k, i);
      if index < |entries| { ErasedCount(lookup, entries[index].hash, index, k, i); }
      EmplacedCount(erased, next.hash, index, k, i);
    }
  }

  lemma ErasedCount(lookup: map<nat, multiset<nat>>, hash: nat, index: nat, k: nat, i: nat)
    requires Bag(lookup, hash)[index] == 1
    ensures Bag(Erase(lookup, hash, index), k)[i] == if k == hash && i == index then 0 else Bag(lookup, k)[i]
  {
  }

  lemma EmplacedCount(lookup: map<nat, multiset<nat>>, hash: nat, index: nat, k: nat, i: nat)
    ensures Bag(Emplace(lookup, hash, index), k)[i] == Bag(lookup, k)[i] + if k == hash && i == index then 1 else 0
  {
  }

  lemma {:induction false} KeyStable(h: Heap, k: Heap, plan: seq<Planned>)
    requires Known(h, plan)
    requires forall id :: id in h.objects ==> id in k.objects && k.objects[id] == h.objects[id]
    ensures Known(k, plan) && KeyOf(k, plan) == KeyOf(h, plan)
  {
    if plan != [] { KeyStable(h, k, plan[..|plan| - 1]); }
  }

  /** The cache stays coherent while it is idle: objects may die and their
      addresses be reused, because nothing an entry claims depends on liveness. */
  lemma EntryStable(h: Heap, k: Heap, held: set<Id>, dev: Device, contents: map<SetId, SetContents>, e: Entry, plan: seq<Planned>)
    requires Evolves(h, k, held) && EntryCoherent(h, dev, contents, e, plan)
    ensures EntryCoherent(k, dev, contents, e, plan)
  {
    KeyStable(h, k, plan);
    var s :| 0 <= s < 2 && WrittenAt(h, dev, e.pso.value, e.layout, plan, s);
    assert WrittenAt(k, dev, e.pso.value, e.layout, plan, s);
  }
}
