/** Buffer memory: small buffers share blocks of power-of-two slots, large
    shared staging buffers get exact-size blocks that are cached when idle. */
module BufferSlabs {
  import opened Wrappers
  import opened FiniteSets
  import opened Alignments

  type BlockId = nat
  type BufferId = nat

  const MIB: nat := 1048576
  const GIB2: nat := 2147483648

  datatype Block = Block(kind: nat, slotSize: nat, capacity: nat, freeSlots: seq<nat>) {
    predicate Empty() { |freeSlots| == capacity }
    predicate SameClass(o: Block) { kind == o.kind && slotSize == o.slotSize }
  }

  /** What the driver requires of a buffer's memory. */
  datatype Requirements = Requirements(size: nat, alignment: nat) {
    predicate Valid() { size > 0 && PowerOfTwo(alignment) }

    function Needed(): nat { Max(size, alignment) }
  }

  datatype Placement = Placement(block: BlockId, slot: nat, req: Requirements)

  function Clamp(n: nat, low: nat, high: nat): nat { if n < low then low else if n > high then high else n }

  function CapacityFor(slotSize: nat): nat
    requires slotSize > 0
  {
    if slotSize > MIB then 1 else Clamp(4 * MIB / slotSize, 4, 256)
  }

  /** The requirements that are served from blocks. */
  predicate UsesBlocks(req: Requirements, dedicated: bool, visible: bool, coherent: bool, shared: bool) {
    !dedicated && (!visible || coherent) && (req.Needed() <= MIB || (shared && req.Needed() <= 16 * MIB))
  }

  /** A block of small slots is 4 MiB, but never less than 4 or more than 256
      slots; a larger slot has a block of its own. */
  lemma BlockSizes(slotSize: nat)
    requires PowerOfTwo(slotSize) && 256 <= slotSize <= MIB
    ensures 4 <= CapacityFor(slotSize) <= 256 && CapacityFor(slotSize) * slotSize <= 0x40_0000
    ensures CapacityFor(slotSize) == 256 || CapacityFor(slotSize) * slotSize == 0x40_0000
  {
    hide PowerOfTwo;
    Powers();
    PowersDivide(slotSize, 4 * MIB);
  }

  lemma {:induction false} PowersDivide(a: nat, b: nat)
    requires PowerOfTwo(a) && PowerOfTwo(b) && a <= b
    ensures b / a * a == b
  {
    if a > 1 {
      PowersDivide(a / 2, b / 2);
      var q := b / 2 / (a / 2);
      assert b == q * a by { assert b == 2 * (q * (a / 2)); }
      Quotient(b, q, a);
    }
  }

  lemma Quotient(n: nat, q: nat, m: nat)
    requires m > 0 && n == q * m
    ensures n / m == q
  {
    UniqueRemainder(n, q, m);
    var p := n / m;
    assert n == m * p;
    assert (q - p) * m == 0 by { assert (q - p) * m == q * m - p * m; assert p * m == m * p; }
  }

  lemma LargeSlotsAlone(slotSize: nat)
    requires slotSize > 0x10_0000
    ensures CapacityFor(slotSize) == 1
  {
  }

  // ------------------------------------------------------------------ the sizes

  function Doubled(size: nat, needed: nat): (r: nat)
    requires size > 0
    ensures r >= size && r >= needed
    decreases if size < needed then needed - size else 0
  {
    if size < needed then Doubled(2 * size, needed) else size
  }

  function SlotSize(req: Requirements): (slotSize: nat)
    requires req.Valid()
    ensures slotSize >= req.size
  {
    if req.Needed() <= MIB then Doubled(256, req.Needed()) else RoundUp(req.size, req.alignment)
  }

  /** The doubling loop and the exact-size branch. */
  method ChooseSlotSize(req: Requirements) returns (slotSize: nat)
    requires req.Valid()
    ensures slotSize == SlotSize(req)
    ensures req.Needed() <= MIB ==>
              && PowerOfTwo(slotSize) && slotSize >= 256 && slotSize >= req.Needed()
              && forall p: nat :: PowerOfTwo(p) && p >= 256 && p >= req.Needed() ==> slotSize <= p
    ensures req.Needed() > MIB ==> slotSize % req.alignment == 0 && req.size <= slotSize < req.size + req.alignment
  {
    SmallestDoubling(req);
    slotSize := 256;
    if req.Needed() <= MIB {
      while slotSize < req.Needed()
        invariant slotSize > 0 && Doubled(256, req.Needed()) == Doubled(slotSize, req.Needed())
        decreases if slotSize < req.Needed() then req.Needed() - slotSize else 0
      {
        slotSize := slotSize * 2;
      }
    } else {
      slotSize := RoundUp(req.size, req.alignment);
    }
  }

  lemma {:induction false} DoubledFacts(size: nat, needed: nat, limit: nat)
    requires PowerOfTwo(size) && PowerOfTwo(limit) && size <= limit && needed <= limit
    ensures var r := Doubled(size, needed); PowerOfTwo(r) && needed <= r <= limit && size <= r
    decreases if size < needed then needed - size else 0
  {
    if size < needed {
      NextPower(size, limit);
      DoubledFacts(2 * size, needed, limit);
    }
  }

  /** A shared slot is the smallest power of two from 256 on that fits: half of
      it does not.  An exact slot is the smallest multiple of the alignment. */
  lemma SmallestDoubling(req: Requirements)
    requires req.Valid()
    ensures req.Needed() <= MIB ==>
              && PowerOfTwo(SlotSize(req)) && SlotSize(req) >= 256 && SlotSize(req) >= req.Needed()
              && forall p: nat :: PowerOfTwo(p) && p >= 256 && p >= req.Needed() ==> SlotSize(req) <= p
    ensures req.Needed() > MIB ==> SlotSize(req) % req.alignment == 0 && req.size <= SlotSize(req) < req.size + req.alignment
  {
    hide PowerOfTwo, Doubled;
    if req.Needed() <= MIB {
      Powers();
      DoubledFacts(256, req.Needed(), MIB);
      forall p: nat | PowerOfTwo(p) && p >= 256 && p >= req.Needed() ensures Doubled(256, req.Needed()) <= p {
        DoubledFacts(256, req.Needed(), p);
      }
    }
  }

  lemma {:induction false} NextPower(a: nat, b: nat)
    requires PowerOfTwo(a) && PowerOfTwo(b) && a < b
    ensures 2 * a <= b && PowerOfTwo(2 * a)
    decreases b
  {
    if a > 1 { NextPower(a / 2, b / 2); }
  }

  lemma Powers()
    ensures PowerOfTwo(256) && PowerOfTwo(MIB) && PowerOfTwo(4 * MIB)
  {
    assert PowerOfTwo(1) && PowerOfTwo(2) && PowerOfTwo(4) && PowerOfTwo(8) && PowerOfTwo(16) && PowerOfTwo(32);
    assert PowerOfTwo(64) && PowerOfTwo(128) && PowerOfTwo(256) && PowerOfTwo(512) && PowerOfTwo(1024) && PowerOfTwo(2048);
    assert PowerOfTwo(4096) && PowerOfTwo(8192) && PowerOfTwo(16384) && PowerOfTwo(32768) && PowerOfTwo(65536);
    assert PowerOfTwo(131072) && PowerOfTwo(262144) && PowerOfTwo(524288) && PowerOfTwo(2 * MIB);
  }

  /** In both branches the slot is large enough, and every slot of the block
      satisfies the alignment: exact-size blocks have only slot zero. */
  lemma SlotsFit(req: Requirements, slot: nat)
    requires req.Valid() && slot < CapacityFor(SlotSize(req))
    ensures req.size <= SlotSize(req) && slot * SlotSize(req) % req.alignment == 0
  {
    if req.Needed() <= MIB { SharedSlotsFit(req, slot); } else { ExactSlotsFit(req, slot); }
  }

  lemma SharedSlotsFit(req: Requirements, slot: nat)
    requires req.Valid() && req.Needed() <= MIB
    ensures slot * SlotSize(req) % req.alignment == 0
  {
    var s := SlotSize(req);
    Powers();
    DoubledFacts(256, req.Needed(), MIB);
    var offset := slot * s;
    MultipleMod(slot, s);
    SmallerDivides(offset, req.alignment, s);
  }

  lemma ExactSlotsFit(req: Requirements, slot: nat)
    requires req.Valid() && req.Needed() > MIB && slot < CapacityFor(SlotSize(req))
    ensures slot == 0 && slot * SlotSize(req) % req.alignment == 0
  {
    RoundUpAtLeast(req.size, req.alignment);
    assert SlotSize(req) > MIB;
    ZeroAligned(SlotSize(req), req.alignment);
  }

  lemma ZeroAligned(s: nat, alignment: nat)
    requires alignment > 0
    ensures 0 * s % alignment == 0
  {
  }

  lemma RoundUpAtLeast(n: nat, alignment: nat)
    requires n > 0 && alignment > 0
    ensures RoundUp(n, alignment) >= Max(n, alignment)
  {
    var r := RoundUp(n, alignment);
    SmallRemainder(r, alignment);
  }

  lemma SmallRemainder(r: nat, m: nat)
    requires m > 0
    ensures r < m ==> r % m == r
  {
  }

  // ----------------------------------------------------------------- the blocks

  ghost predicate DistinctSeq(s: seq<nat>) {
    forall i, j :: 0 <= i < j < |s| ==> s[i] != s[j]
  }

  ghost predicate BlockOk(b: Block) {
    && b.slotSize > 0 && b.capacity == CapacityFor(b.slotSize)
    && DistinctSeq(b.freeSlots) && forall i :: 0 <= i < |b.freeSlots| ==> b.freeSlots[i] < b.capacity
  }

  ghost predicate Occupied(live: map<BufferId, Placement>, b: BlockId, slot: nat) {
    exists u :: u in live && live[u].block == b && live[u].slot == slot
  }

  /** Each block's free slots and its buffers' slots partition the block. */
  ghost predicate PartitionOk(blocks: map<BlockId, Block>, live: map<BufferId, Placement>) {
    && (forall b :: b in blocks ==> BlockOk(blocks[b]))
    && (forall b, slot :: b in blocks && 0 <= slot < blocks[b].capacity ==>
          (slot in blocks[b].freeSlots <==> !Occupied(live, b, slot)))
    && (forall u :: u in live ==> PlacementOk(blocks, live[u]))
    && (forall u, v :: u in live && v in live && live[u].block == live[v].block && live[u].slot == live[v].slot ==> u == v)
  }

  ghost predicate PlacementOk(blocks: map<BlockId, Block>, p: Placement) {
    && p.req.Valid() && p.req.Needed() <= 16 * MIB && p.block in blocks && p.slot < blocks[p.block].capacity
    && blocks[p.block].slotSize == SlotSize(p.req)
  }

  ghost predicate ListOk(blocks: map<BlockId, Block>, live: map<BufferId, Placement>, listed: seq<BlockId>, nextBlock: BlockId) {
    && DistinctSeq(listed)
    && (forall i :: 0 <= i < |listed| ==> listed[i] in blocks)
    && (forall b :: b in blocks ==> b < nextBlock)
    && (forall u :: u in live ==> live[u].block in listed)
  }

  /** At most one fully empty block per multi-slot class is kept. */
  ghost predicate OneEmptyPerClass(blocks: map<BlockId, Block>, listed: seq<BlockId>) {
    forall b, c :: b in listed && c in listed && b in blocks && c in blocks && b != c && blocks[b].SameClass(blocks[c]) ==>
                     blocks[b].capacity == 1 || !blocks[b].Empty() || !blocks[c].Empty()
  }

  predicate IdleSingle(b: Block) { b.capacity == 1 && b.freeSlots != [] }

  /** The bytes of the listed single-slot blocks that no buffer uses. */
  function IdleBytes(blocks: map<BlockId, Block>, listed: seq<BlockId>): nat {
    if listed == [] then 0
    else
      var b := listed[|listed| - 1];
      IdleBytes(blocks, listed[..|listed| - 1]) + if b in blocks && IdleSingle(blocks[b]) then blocks[b].slotSize else 0
  }

  // --------------------------------------------------- consequences for buffers

  /** Two live buffers of one block never overlap, and both lie inside it. */
  lemma RangesDisjoint(blocks: map<BlockId, Block>, live: map<BufferId, Placement>, u: BufferId, v: BufferId)
    requires PartitionOk(blocks, live) && u in live && v in live && u != v && live[u].block == live[v].block
    ensures var b := blocks[live[u].block];
            var p, q := live[u].slot * b.slotSize, live[v].slot * b.slotSize;
            && (p + live[u].req.size <= q || q + live[v].req.size <= p)
            && p + live[u].req.size <= b.capacity * b.slotSize && p % live[u].req.alignment == 0
  {
    var b := blocks[live[u].block];
    SlotsFit(live[u].req, live[u].slot);
    SlotsFit(live[v].req, live[v].slot);
    var i, j := live[u].slot, live[v].slot;
    if i < j { Scaled(i, j, b.slotSize); } else { Scaled(j, i, b.slotSize); }
    Scaled(i, b.capacity, b.slotSize);
  }

  lemma Scaled(i: nat, j: nat, m: nat)
    requires i < j
    ensures i * m + m <= j * m
  {
    assert (j - i - 1) * m >= 0;
    assert j * m == i * m + m + (j - i - 1) * m;
  }

  /** A block whose free list is as long as its capacity has no live buffer. */
  lemma EmptyMeansUnused(blocks: map<BlockId, Block>, live: map<BufferId, Placement>, b: BlockId)
    requires PartitionOk(blocks, live) && b in blocks && blocks[b].Empty()
    ensures forall u :: u in live ==> live[u].block != b
  {
    forall slot | 0 <= slot < blocks[b].capacity ensures !Occupied(live, b, slot) {
      AllSlotsFree(blocks[b].freeSlots, blocks[b].capacity, slot);
    }
    forall u | u in live ensures live[u].block != b || Occupied(live, b, live[u].slot) { }
    assert forall u :: u in live ==> PlacementOk(blocks, live[u]);
  }

  lemma AllSlotsFree(free: seq<nat>, n: nat, slot: nat)
    requires DistinctSeq(free) && |free| == n && slot < n && forall i :: 0 <= i < |free| ==> free[i] < n
    ensures slot in free
  {
    SetOfDistinct(free);
    if slot !in free {
      SubsetCard(Elements(free), UpTo(n) - {slot});
    }
  }

  function Elements(s: seq<nat>): set<nat> { set x | x in s }

  function UpTo(n: nat): (r: set<nat>)
    ensures |r| == n && forall k :: k in r <==> 0 <= k < n
  {
    if n == 0 then {} else UpTo(n - 1) + {n - 1}
  }

  lemma {:induction false} SetOfDistinct(s: seq<nat>)
    requires DistinctSeq(s)
    ensures |Elements(s)| == |s|
  {
    if s != [] {
      var init, last := s[..|s| - 1], s[|s| - 1];
      SetOfDistinct(init);
      assert s == init + [last];
      assert last !in Elements(init);
      assert Elements(s) == Elements(init) + {last};
    }
  }

  // ---------------------------------------------------------------- allocation

  predicate Usable(b: Block, kind: nat, slotSize: nat) {
    b.kind == kind && b.slotSize == slotSize && b.freeSlots != []
  }

  ghost predicate FirstUsable(blocks: map<BlockId, Block>, listed: seq<BlockId>, kind: nat, slotSize: nat, b: BlockId) {
    exists i :: 0 <= i < |listed| && listed[i] == b && b in blocks && Usable(blocks[b], kind, slotSize)
                && forall k :: 0 <= k < i ==> listed[k] in blocks && !Usable(blocks[listed[k]], kind, slotSize)
  }

  function NewBlock(kind: nat, slotSize: nat): Block
    requires slotSize > 0
  {
    Block(kind, slotSize, CapacityFor(slotSize), Descending(CapacityFor(slotSize)))
  }

  /** The constructor pushes the slots in descending order. */
  function Descending(n: nat): (s: seq<nat>)
    ensures |s| == n && (forall i :: 0 <= i < n ==> s[i] == n - 1 - i)
  {
    if n == 0 then [] else [n - 1] + Descending(n - 1)
  }

  lemma NewBlockKeeps(blocks: map<BlockId, Block>, live: map<BufferId, Placement>, b: BlockId, kind: nat, slotSize: nat)
    requires PartitionOk(blocks, live) && b !in blocks && slotSize > 0
    ensures PartitionOk(blocks[b := NewBlock(kind, slotSize)], live)
  {
    var next := blocks[b := NewBlock(kind, slotSize)];
    var free := next[b].freeSlots;
    forall u | u in live ensures live[u].block != b { assert PlacementOk(blocks, live[u]); }
    forall slot | 0 <= slot < next[b].capacity ensures slot in free {
      assert free[next[b].capacity - 1 - slot] == slot;
    }
    forall u | u in live ensures PlacementOk(next, live[u]) { assert PlacementOk(blocks, live[u]); }
  }

  /** Taking the last free slot for a new buffer. */
  lemma TakeKeeps(blocks: map<BlockId, Block>, live: map<BufferId, Placement>, b: BlockId, u: BufferId, req: Requirements)
    requires PartitionOk(blocks, live) && b in blocks && u !in live && blocks[b].freeSlots != []
    requires req.Valid() && req.Needed() <= 16 * MIB && blocks[b].slotSize == SlotSize(req)
    ensures var free := blocks[b].freeSlots;
            var slot, rest := free[|free| - 1], free[..|free| - 1];
            PartitionOk(blocks[b := blocks[b].(freeSlots := rest)], live[u := Placement(b, slot, req)])
  {
    var free := blocks[b].freeSlots;
    var slot, rest := free[|free| - 1], free[..|free| - 1];
    var next, more := blocks[b := blocks[b].(freeSlots := rest)], live[u := Placement(b, slot, req)];
    assert free == rest + [slot] && BlockOk(blocks[b]);
    assert slot in free && !Occupied(live, b, slot);
    assert more[u] == Placement(b, slot, req);
    forall c, k | c in next && 0 <= k < next[c].capacity ensures k in next[c].freeSlots <==> !Occupied(more, c, k) {
      if Occupied(live, c, k) { var v :| v in live && live[v].block == c && live[v].slot == k; assert more[v] == live[v]; }
      if c == b && k != slot { assert k in free <==> k in rest; }
    }
    forall v | v in more ensures PlacementOk(next, more[v]) { if v != u { assert PlacementOk(blocks, live[v]); } }
    forall v, w | v in more && w in more && more[v].block == more[w].block && more[v].slot == more[w].slot ensures v == w {
      if v == u && w != u { assert Occupied(live, b, slot); }
      if w == u && v != u { assert Occupied(live, b, slot); }
    }
  }

  /** Giving a buffer's slot back. */
  lemma GiveKeeps(blocks: map<BlockId, Block>, live: map<BufferId, Placement>, u: BufferId)
    requires PartitionOk(blocks, live) && u in live
    ensures var p := live[u];
            p.block in blocks && PartitionOk(blocks[p.block := blocks[p.block].(freeSlots := blocks[p.block].freeSlots + [p.slot])], live - {u})
  {
    var p := live[u];
    assert PlacementOk(blocks, p);
    var free := blocks[p.block].freeSlots;
    var next, rest := blocks[p.block := blocks[p.block].(freeSlots := free + [p.slot])], live - {u};
    assert Occupied(live, p.block, p.slot) && BlockOk(blocks[p.block]);
    assert p.slot !in free;
    forall c, k | c in next && 0 <= k < next[c].capacity ensures k in next[c].freeSlots <==> !Occupied(rest, c, k) {
      if Occupied(rest, c, k) { var v :| v in rest && rest[v].block == c && rest[v].slot == k; assert live[v] == rest[v]; assert Occupied(live, c, k); }
      if Occupied(live, c, k) {
        var v :| v in live && live[v].block == c && live[v].slot == k;
        if v != u { assert v in rest && rest[v] == live[v]; }
      }
    }
    forall v | v in rest ensures PlacementOk(next, rest[v]) { assert PlacementOk(blocks, live[v]); }
  }

  /** A block without live buffers may be freed. */
  lemma DropKeeps(blocks: map<BlockId, Block>, live: map<BufferId, Placement>, b: BlockId)
    requires PartitionOk(blocks, live) && forall u :: u in live ==> live[u].block != b
    ensures PartitionOk(blocks - {b}, live)
  {
    forall u | u in live ensures PlacementOk(blocks - {b}, live[u]) { assert PlacementOk(blocks, live[u]); }
  }

  // ------------------------------------------------------------------- idle bytes

  lemma {:induction false} IdleSame(blocks: map<BlockId, Block>, next: map<BlockId, Block>, listed: seq<BlockId>)
    requires forall b :: b in listed ==> (b in blocks <==> b in next) && (b in blocks ==> IdleSingle(blocks[b]) == IdleSingle(next[b]) && blocks[b].slotSize == next[b].slotSize)
    ensures IdleBytes(next, listed) == IdleBytes(blocks, listed)
  {
    if listed != [] { IdleSame(blocks, next, listed[..|listed| - 1]); }
  }

  /** Blocks that stop being idle only lower the sum. */
  lemma {:induction false} IdleLess(blocks: map<BlockId, Block>, next: map<BlockId, Block>, listed: seq<BlockId>)
    requires forall b :: b in listed && b in next && IdleSingle(next[b]) ==> b in blocks && IdleSingle(blocks[b]) && blocks[b].slotSize == next[b].slotSize
    ensures IdleBytes(next, listed) <= IdleBytes(blocks, listed)
  {
    if listed != [] { IdleLess(blocks, next, listed[..|listed| - 1]); }
  }

  lemma {:induction false} IdleErase(blocks: map<BlockId, Block>, listed: seq<BlockId>, i: nat)
    requires i < |listed|
    ensures IdleBytes(blocks, listed) == IdleBytes(blocks, listed[..i] + listed[i + 1..])
                                         + if listed[i] in blocks && IdleSingle(blocks[listed[i]]) then blocks[listed[i]].slotSize else 0
  {
    var rest := listed[..i] + listed[i + 1..];
    if i < |listed| - 1 {
      var init := listed[..|listed| - 1];
      IdleErase(blocks, init, i);
      assert rest[..|rest| - 1] == init[..i] + init[i + 1..];
    } else {
      assert rest == listed[..i];
    }
  }

  /** While bytes are idle there is a block to evict. */
  lemma {:induction false} IdleFound(blocks: map<BlockId, Block>, listed: seq<BlockId>)
    requires IdleBytes(blocks, listed) > 0
    ensures exists i :: 0 <= i < |listed| && listed[i] in blocks && IdleSingle(blocks[listed[i]])
  {
    var last := |listed| - 1;
    if !(listed[last] in blocks && IdleSingle(blocks[listed[last]])) {
      IdleFound(blocks, listed[..last]);
      var i :| 0 <= i < last && listed[..last][i] in blocks && IdleSingle(blocks[listed[..last][i]]);
      assert listed[i] == listed[..last][i];
    }
  }

  // ------------------------------------------------------------------- eviction

  function Without(listed: seq<BlockId>, gone: seq<BlockId>): seq<BlockId> {
    if listed == [] then []
    else Without(listed[..|listed| - 1], gone) + if listed[|listed| - 1] in gone then [] else [listed[|listed| - 1]]
  }

  ghost predicate OldestIdle(blocks: map<BlockId, Block>, listed: seq<BlockId>, b: BlockId) {
    exists i :: 0 <= i < |listed| && listed[i] == b && b in blocks && IdleSingle(blocks[b])
                && forall k :: 0 <= k < i ==> listed[k] in blocks && !IdleSingle(blocks[listed[k]])
  }

  /** Each evicted block was the oldest idle one left, and without evicting it
      too many bytes would have stayed idle. */
  ghost predicate Evictions(blocks: map<BlockId, Block>, listed: seq<BlockId>, gone: seq<BlockId>, limit: nat) {
    forall k :: 0 <= k < |gone| ==>
      var left := Without(listed, gone[..k]); IdleBytes(blocks, left) > limit && OldestIdle(blocks, left, gone[k])
  }

  lemma EvictionsSnoc(blocks: map<BlockId, Block>, listed: seq<BlockId>, gone: seq<BlockId>, limit: nat, b: BlockId)
    requires Evictions(blocks, listed, gone, limit)
    requires IdleBytes(blocks, Without(listed, gone)) > limit && OldestIdle(blocks, Without(listed, gone), b)
    ensures Evictions(blocks, listed, gone + [b], limit)
  {
    var more := gone + [b];
    assert more[..|gone|] == gone;
    forall k | 0 <= k < |gone| ensures more[..k] == gone[..k] {}
  }

  lemma {:induction false} WithoutNothing(listed: seq<BlockId>)
    ensures Without(listed, []) == listed
  {
    if listed != [] { WithoutNothing(listed[..|listed| - 1]); }
  }

  lemma {:induction false} WithoutMembers(listed: seq<BlockId>, gone: seq<BlockId>)
    ensures forall b :: b in Without(listed, gone) <==> b in listed && b !in gone
  {
    if listed != [] {
      WithoutMembers(listed[..|listed| - 1], gone);
      assert forall b :: b in listed <==> b in listed[..|listed| - 1] || b == listed[|listed| - 1];
    }
  }

  /** Erasing entry `i` of what is left is leaving out one block more. */
  lemma {:induction false} WithoutOneMore(listed: seq<BlockId>, gone: seq<BlockId>, i: nat)
    requires DistinctSeq(listed) && i < |Without(listed, gone)|
    ensures var left := Without(listed, gone); Without(listed, gone + [left[i]]) == left[..i] + left[i + 1..]
    decreases |listed|
  {
    var init, last, left := listed[..|listed| - 1], listed[|listed| - 1], Without(listed, gone);
    var before := Without(init, gone);
    WithoutMembers(init, gone);
    if i < |before| {
      WithoutOneMore(init, gone, i);
      assert left[i] == before[i] && before[i] in before;
      assert left[i + 1..] == before[i + 1..] + left[|before|..];
    } else {
      assert left[i] == last && last !in init;
      WithoutStranger(init, gone, last);
      assert left[..i] == before && left[i + 1..] == [];
    }
  }

  lemma {:induction false} WithoutStranger(listed: seq<BlockId>, gone: seq<BlockId>, b: BlockId)
    requires b !in listed
    ensures Without(listed, gone + [b]) == Without(listed, gone)
  {
    if listed != [] { WithoutStranger(listed[..|listed| - 1], gone, b); }
  }

  lemma WithoutOne(listed: seq<BlockId>, i: nat)
    requires DistinctSeq(listed) && i < |listed|
    ensures Without(listed, [listed[i]]) == listed[..i] + listed[i + 1..]
  {
    WithoutNothing(listed);
    WithoutOneMore(listed, [], i);
    assert [] + [listed[i]] == [listed[i]];
  }

  ghost predicate OtherEmpty(blocks: map<BlockId, Block>, listed: seq<BlockId>, b: BlockId)
    requires b in blocks
  {
    exists c :: c in listed && c in blocks && c != b && blocks[c].SameClass(blocks[b]) && blocks[c].Empty()
  }

  // ------------------------------------------------------------------ the device

  lemma IdleLimitMeans(heapSize: nat)
    ensures IdleLimit(heapSize) * 16 <= heapSize && IdleLimit(heapSize) <= 0x8000_0000
    ensures IdleLimit(heapSize) == 0x8000_0000 || heapSize < (IdleLimit(heapSize) + 1) * 16
  {
  }

  /** The cached bytes that a heap of this size tolerates after a free. */
  function IdleLimit(heapSize: nat): nat { if heapSize / 16 < GIB2 then heapSize / 16 else GIB2 }

  /** A block that is not empty, or holds one slot, cannot be a second empty one. */
  lemma ClassesKept(blocks: map<BlockId, Block>, listed: seq<BlockId>, b: BlockId, next: Block, more: seq<BlockId>)
    requires OneEmptyPerClass(blocks, listed) && (forall c :: c in blocks ==> BlockOk(blocks[c])) && BlockOk(next)
    requires !next.Empty() || next.capacity == 1
    requires forall c :: c in more ==> c in listed || c == b
    ensures OneEmptyPerClass(blocks[b := next], more)
  {
  }

  lemma ClassesShrink(blocks: map<BlockId, Block>, next: map<BlockId, Block>, listed: seq<BlockId>, rest: seq<BlockId>)
    requires OneEmptyPerClass(blocks, listed) && (forall c :: c in rest ==> c in listed)
    requires forall c :: c in next ==> c in blocks && next[c] == blocks[c]
    ensures OneEmptyPerClass(next, rest)
  {
  }

  class BufferMemory {
    /** The size of the heap behind each memory type. */
    const heapSize: nat -> nat
    var blocks: map<BlockId, Block>
    /** The blocks that allocation looks at, oldest first. */
    var listed: seq<BlockId>
    var live: map<BufferId, Placement>
    var nextBlock: BlockId

    ghost predicate Valid()
      reads this
    {
      && PartitionOk(blocks, live) && ListOk(blocks, live, listed, nextBlock)
      && OneEmptyPerClass(blocks, listed) && IdleBytes(blocks, listed) <= GIB2
    }

    constructor (heapSize: nat -> nat)
      ensures Valid() && live == map[] && this.heapSize == heapSize
    {
      this.heapSize := heapSize;
      blocks, listed, live, nextBlock := map[], [], map[], 0;
    }

    /** The first listed block of the class with a free slot. */
    method FindUsable(kind: nat, slotSize: nat) returns (found: Option<BlockId>)
      requires Valid()
      ensures found.Some? ==> found.value in listed && found.value in blocks && Usable(blocks[found.value], kind, slotSize)
      ensures found.Some? ==> FirstUsable(blocks, listed, kind, slotSize, found.value)
      ensures found.None? ==> forall b :: b in listed && b in blocks ==> !Usable(blocks[b], kind, slotSize)
    {
      for i := 0 to |listed|
        invariant forall k :: 0 <= k < i ==> listed[k] in blocks && !Usable(blocks[listed[k]], kind, slotSize)
      {
        if Usable(blocks[listed[i]], kind, slotSize) { return Some(listed[i]); }
      }
      return None;
    }

    /** Takes a slot for a new buffer.  No placement means dedicated memory, or
        that the driver had none for a new block. */
    method Allocate(u: BufferId, req: Requirements, kind: nat, dedicated: bool, visible: bool, coherent: bool, shared: bool, memoryOk: bool)
      returns (placed: Option<Placement>)
      requires Valid() && u !in live && req.Valid()
      modifies this
      ensures Valid()
      ensures placed.None? ==> live == old(live) && blocks == old(blocks) && listed == old(listed)
      ensures placed.Some? ==> UsesBlocks(req, dedicated, visible, coherent, shared) && live == old(live)[u := placed.value] && placed.value.req == req
      ensures UsesBlocks(req, dedicated, visible, coherent, shared) && memoryOk ==> placed.Some?
      ensures placed.Some? ==> !dedicated && (visible ==> coherent)
                               && ((req.size <= 0x10_0000 && req.alignment <= 0x10_0000) || (shared && req.size <= 0x100_0000 && req.alignment <= 0x100_0000))
      ensures memoryOk && placed.None? ==> dedicated || (visible && !coherent)
                                           || req.size > 0x100_0000 || req.alignment > 0x100_0000
                                           || (!shared && (req.size > 0x10_0000 || req.alignment > 0x10_0000))
      ensures placed.Some? ==> placed.value.block in blocks && blocks[placed.value.block].kind == kind
      ensures placed.Some? ==> var b := placed.value.block;
                if b in old(blocks) then
                  && FirstUsable(old(blocks), old(listed), kind, SlotSize(req), b) && listed == old(listed)
                  && old(blocks)[b].freeSlots == blocks[b].freeSlots + [placed.value.slot]
                  && blocks == old(blocks)[b := old(blocks)[b].(freeSlots := blocks[b].freeSlots)]
                else
                  && (forall c :: c in old(listed) && c in old(blocks) ==> !Usable(old(blocks)[c], kind, SlotSize(req)))
                  && listed == old(listed) + [b] && blocks == old(blocks)[b := blocks[b]]
                  && blocks[b].slotSize == SlotSize(req) && blocks[b].capacity == CapacityFor(SlotSize(req))
                  && |blocks[b].freeSlots| == blocks[b].capacity - 1
    {
      hide PartitionOk, ListOk, OneEmptyPerClass, IdleBytes, PowerOfTwo, BlockOk;
      if !UsesBlocks(req, dedicated, visible, coherent, shared) { return None; }
      var slotSize := ChooseSlotSize(req);
      var found := FindUsable(kind, slotSize);
      if found.None? {
        if !memoryOk { return None; }
        found := Some(nextBlock);
        AddBlock(kind, slotSize);
      } else {
        SetAside(blocks, listed, found.value);
      }
      var p := Take(found.value, u, req);
      placed := Some(p);
    }

    /** A new block is listed; a slot of it is taken at once. */
    method AddBlock(kind: nat, slotSize: nat)
      requires Valid() && slotSize > 0
      modifies this`blocks, this`listed, this`nextBlock
      ensures blocks == old(blocks)[old(nextBlock) := NewBlock(kind, slotSize)] && listed == old(listed) + [old(nextBlock)]
      ensures PartitionOk(blocks, live) && ListOk(blocks, live, listed, nextBlock)
      ensures OneEmptyPerClass(blocks - {old(nextBlock)}, listed) && IdleBytes(blocks - {old(nextBlock)}, listed) <= GIB2
      ensures old(nextBlock) !in old(blocks)
    {
      var b := nextBlock;
      assert b !in blocks && b !in listed;
      NewBlockKeeps(blocks, live, b, kind, slotSize);
      assert blocks[b := NewBlock(kind, slotSize)] - {b} == blocks;
      assert (listed + [b])[..|listed|] == listed;
      blocks := blocks[b := NewBlock(kind, slotSize)];
      listed := listed + [b];
      nextBlock := nextBlock + 1;
      assert blocks - {b} == old(blocks);
    }

    method Take(b: BlockId, u: BufferId, req: Requirements) returns (p: Placement)
      requires PartitionOk(blocks, live) && ListOk(blocks, live, listed, nextBlock) && b in listed && b in blocks
      requires OneEmptyPerClass(blocks - {b}, listed) && IdleBytes(blocks - {b}, listed) <= GIB2
      requires u !in live && blocks[b].freeSlots != [] && req.Valid() && req.Needed() <= 16 * MIB && blocks[b].slotSize == SlotSize(req)
      modifies this`blocks, this`live
      ensures Valid() && live == old(live)[u := p] && p.req == req && p.block == b && b in blocks
      ensures old(blocks)[b].freeSlots == blocks[b].freeSlots + [p.slot] && blocks == old(blocks)[b := old(blocks)[b].(freeSlots := blocks[b].freeSlots)]
    {
      hide PartitionOk, OneEmptyPerClass, IdleBytes, PowerOfTwo;
      TakeKeeps(blocks, live, b, u, req);
      var free := blocks[b].freeSlots;
      p := Placement(b, free[|free| - 1], req);
      ghost var next := blocks[b].(freeSlots := free[..|free| - 1]);
      TakenIdle(blocks, live, listed, b, next);
      blocks := blocks[b := blocks[b].(freeSlots := free[..|free| - 1])];
      live := live[u := p];
    }

    /** Erases block `i` of the list; nobody else refers to it. */
    method EraseBlock(i: nat)
      requires PartitionOk(blocks, live) && ListOk(blocks, live, listed, nextBlock) && i < |listed|
      requires listed[i] in blocks && blocks[listed[i]].Empty() && OneEmptyPerClass(blocks - {listed[i]}, listed)
      modifies this`blocks, this`listed
      ensures PartitionOk(blocks, live) && ListOk(blocks, live, listed, nextBlock) && OneEmptyPerClass(blocks, listed)
      ensures listed == old(listed)[..i] + old(listed)[i + 1..] && blocks == old(blocks) - {old(listed)[i]}
      ensures old(listed)[i] in old(blocks)
      ensures IdleBytes(blocks, listed) == IdleBytes(old(blocks), old(listed)) - if IdleSingle(old(blocks)[old(listed)[i]]) then old(blocks)[old(listed)[i]].slotSize else 0
    {
      hide PartitionOk, OneEmptyPerClass, IdleBytes;
      var b := listed[i];
      ghost var rest := listed[..i] + listed[i + 1..];
      EmptyMeansUnused(blocks, live, b);
      DropKeeps(blocks, live, b);
      ErasedList(listed, i);
      ClassesShrink(blocks - {b}, blocks - {b}, listed, rest);
      IdleErase(blocks, listed, i);
      IdleSame(blocks, blocks - {b}, rest);
      listed := listed[..i] + listed[i + 1..];
      blocks := blocks - {b};
    }

    /** The destructor of a buffer that lives in a block: its slot is free
        again, and idle memory stays bounded. */
    method Free(u: BufferId) returns (ghost gone: seq<BlockId>)
      requires Valid() && u in live
      modifies this`blocks, this`listed, this`live
      ensures Valid() && live == old(live) - {u}
      ensures old(live)[u].block in old(blocks)
      ensures var p := old(live)[u];
              var given := old(blocks)[p.block := old(blocks)[p.block].(freeSlots := old(blocks)[p.block].freeSlots + [p.slot])];
              && listed == Without(old(listed), gone) && blocks == given - (set b | b in gone)
              && (if !given[p.block].Empty() then gone == []
                  else if given[p.block].capacity != 1 then gone == (if OtherEmpty(given, old(listed), p.block) then [p.block] else [])
                  else Evictions(given, old(listed), gone, IdleLimit(heapSize(given[p.block].kind))))
      ensures old(blocks)[old(live)[u].block].capacity == 1 ==> IdleBytes(blocks, listed) <= IdleLimit(heapSize(old(blocks)[old(live)[u].block].kind))
    {
      hide PartitionOk, OneEmptyPerClass, IdleBytes;
      var p := live[u];
      GiveKeeps(blocks, live, u);
      ghost var next := blocks[p.block].(freeSlots := blocks[p.block].freeSlots + [p.slot]);
      GivenIdle(blocks, live, listed, u, p.block, next, p.slot);
      blocks := blocks[p.block := blocks[p.block].(freeSlots := blocks[p.block].freeSlots + [p.slot])];
      live := live - {u};
      gone := [];
      WithoutNothing(listed);
      if blocks[p.block].Empty() {
        if blocks[p.block].capacity == 1 {
          gone := Evict(IdleLimit(heapSize(blocks[p.block].kind)));
        } else {
          gone := RetainOne(p.block);
        }
      }
    }

    /** Evicts the oldest idle single-slot blocks until the rest fits. */
    method Evict(limit: nat) returns (ghost gone: seq<BlockId>)
      requires PartitionOk(blocks, live) && ListOk(blocks, live, listed, nextBlock) && OneEmptyPerClass(blocks, listed)
      modifies this`blocks, this`listed
      ensures PartitionOk(blocks, live) && ListOk(blocks, live, listed, nextBlock) && OneEmptyPerClass(blocks, listed)
      ensures IdleBytes(blocks, listed) <= limit
      ensures Evictions(old(blocks), old(listed), gone, limit) && listed == Without(old(listed), gone) && blocks == old(blocks) - (set b | b in gone)
    {
      hide PartitionOk, OneEmptyPerClass, Evictions;
      var idle := 0;
      assert listed[..|listed|] == listed;
      for i := 0 to |listed|
        invariant idle == IdleBytes(blocks, listed[..i])
        invariant blocks == old(blocks) && listed == old(listed)
      {
        assert listed[..i + 1][..i] == listed[..i];
        if IdleSingle(blocks[listed[i]]) { idle := idle + blocks[listed[i]].slotSize; }
      }
      gone := [];
      WithoutNothing(listed);
      NothingEvicted(blocks, listed, limit);
      while idle > limit
        invariant PartitionOk(blocks, live) && ListOk(blocks, live, listed, nextBlock) && OneEmptyPerClass(blocks, listed)
        invariant idle == IdleBytes(blocks, listed)
        invariant Evictions(old(blocks), old(listed), gone, limit) && listed == Without(old(listed), gone) && blocks == old(blocks) - (set b | b in gone)
        decreases |listed|
      {
        ghost var left, were := listed, blocks;
        ghost var i;
        idle, i := EvictOldest(idle);
        EvictedOne(old(blocks), old(listed), gone, limit, were, left, i);
        gone := gone + [left[i]];
        assert blocks == old(blocks) - (set b | b in gone);
      }
    }

    /** find_if always finds a block here: the idle bytes are not zero. */
    method EvictOldest(idle: nat) returns (rest: nat, ghost at: nat)
      requires PartitionOk(blocks, live) && ListOk(blocks, live, listed, nextBlock) && OneEmptyPerClass(blocks, listed)
      requires idle == IdleBytes(blocks, listed) && idle > 0
      modifies this`blocks, this`listed
      ensures PartitionOk(blocks, live) && ListOk(blocks, live, listed, nextBlock) && OneEmptyPerClass(blocks, listed)
      ensures rest == IdleBytes(blocks, listed) && |listed| < |old(listed)|
      ensures at < |old(listed)| && OldestIdle(old(blocks), old(listed), old(listed)[at])
      ensures listed == old(listed)[..at] + old(listed)[at + 1..] && blocks == old(blocks) - {old(listed)[at]}
    {
      hide PartitionOk, OneEmptyPerClass, IdleBytes;
      IdleFound(blocks, listed);
      var i := 0;
      while !IdleSingle(blocks[listed[i]])
        invariant 0 <= i < |listed|
        invariant forall k :: 0 <= k < i ==> listed[k] in blocks && !IdleSingle(blocks[listed[k]])
        decreases |listed| - i
      {
        i := i + 1;
      }
      var size := blocks[listed[i]].slotSize;
      SingleIsEmpty(blocks, live, listed[i]);
      SetAside(blocks, listed, listed[i]);
      EraseBlock(i);
      rest, at := idle - size, i;
    }

    /** Keeps one empty block per class: if there is another, this one goes. */
    method RetainOne(b: BlockId) returns (ghost gone: seq<BlockId>)
      requires PartitionOk(blocks, live) && ListOk(blocks, live, listed, nextBlock) && b in listed && b in blocks
      requires blocks[b].Empty() && blocks[b].capacity != 1 && OneEmptyPerClass(blocks - {b}, listed) && IdleBytes(blocks, listed) <= GIB2
      modifies this`blocks, this`listed
      ensures Valid() && listed == Without(old(listed), gone) && blocks == old(blocks) - (set c | c in gone)
      ensures gone == if OtherEmpty(old(blocks), old(listed), b) then [b] else []
    {
      hide PartitionOk, IdleBytes, OneEmptyPerClass, OtherEmpty;
      WithoutNothing(listed);
      gone := [];
      var other := HasOtherEmpty(b);
      if other {
        var k := Position(b);
        WithoutOne(listed, k);
        EraseBlock(k);
        gone := [b];
      } else {
        NoOtherEmpty(blocks, listed, b);
      }
    }

    /** The search for another empty block of the class. */
    method HasOtherEmpty(b: BlockId) returns (found: bool)
      requires ListOk(blocks, live, listed, nextBlock) && b in blocks
      ensures found <==> OtherEmpty(blocks, listed, b)
    {
      for i := 0 to |listed|
        invariant forall k :: 0 <= k < i ==> listed[k] == b || !blocks[listed[k]].SameClass(blocks[b]) || !blocks[listed[k]].Empty()
      {
        if listed[i] != b && blocks[listed[i]].SameClass(blocks[b]) && blocks[listed[i]].Empty() { return true; }
      }
      return false;
    }

    method Position(b: BlockId) returns (k: nat)
      requires b in listed
      ensures k < |listed| && listed[k] == b
    {
      k := 0;
      while listed[k] != b
        invariant k < |listed| && forall j :: 0 <= j < k ==> listed[j] != b
        decreases |listed| - k
      {
        k := k + 1;
      }
    }
  }

  lemma NoOtherEmpty(blocks: map<BlockId, Block>, listed: seq<BlockId>, b: BlockId)
    requires b in blocks && OneEmptyPerClass(blocks - {b}, listed) && !OtherEmpty(blocks, listed, b)
    ensures OneEmptyPerClass(blocks, listed)
  {
  }

  lemma NothingEvicted(blocks: map<BlockId, Block>, listed: seq<BlockId>, limit: nat)
    ensures Evictions(blocks, listed, [], limit)
  {
  }

  lemma EvictedOne(blocks: map<BlockId, Block>, listed: seq<BlockId>, gone: seq<BlockId>, limit: nat, now: map<BlockId, Block>, left: seq<BlockId>, i: nat)
    requires Evictions(blocks, listed, gone, limit) && DistinctSeq(listed) && left == Without(listed, gone)
    requires now == blocks - (set b | b in gone) && IdleBytes(now, left) > limit && i < |left| && OldestIdle(now, left, left[i])
    ensures Evictions(blocks, listed, gone + [left[i]], limit) && Without(listed, gone + [left[i]]) == left[..i] + left[i + 1..]
    ensures now - {left[i]} == blocks - (set b | b in gone + [left[i]])
  {
    hide Evictions, IdleBytes;
    WithoutMembers(listed, gone);
    IdleSame(now, blocks, left);
    assert OldestIdle(blocks, left, left[i]);
    EvictionsSnoc(blocks, listed, gone, limit, left[i]);
    WithoutOneMore(listed, gone, i);
  }

  /** Giving a slot back makes at most this block idle. */
  lemma GivenIdle(blocks: map<BlockId, Block>, live: map<BufferId, Placement>, listed: seq<BlockId>, u: BufferId, b: BlockId, next: Block, slot: nat)
    requires PartitionOk(blocks, live) && OneEmptyPerClass(blocks, listed) && u in live && b == live[u].block && slot == live[u].slot && b in blocks
    requires next == blocks[b].(freeSlots := blocks[b].freeSlots + [slot])
    ensures OneEmptyPerClass(blocks[b := next] - {b}, listed)
    ensures !next.Empty() || next.capacity == 1 ==> OneEmptyPerClass(blocks[b := next], listed)
    ensures next.capacity != 1 ==> IdleBytes(blocks[b := next], listed) == IdleBytes(blocks, listed)
    ensures next.capacity == 1 ==> next.Empty()
  {
    assert PlacementOk(blocks, live[u]) && Occupied(live, b, slot);
    SetAside(blocks, listed, b);
    assert blocks[b := next] - {b} == blocks - {b};
    assert BlockOk(blocks[b]) && slot !in blocks[b].freeSlots;
    if next.capacity != 1 { IdleSame(blocks, blocks[b := next], listed); }
    if next.capacity == 1 {
      assert slot == 0;
      SetOfDistinct(blocks[b].freeSlots);
      SubsetCard(Elements(blocks[b].freeSlots), UpTo(1) - {slot});
    }
  }

  lemma SingleIsEmpty(blocks: map<BlockId, Block>, live: map<BufferId, Placement>, b: BlockId)
    requires PartitionOk(blocks, live) && b in blocks && IdleSingle(blocks[b])
    ensures blocks[b].Empty()
  {
    FreeIsBounded(blocks[b]);
  }

  lemma ErasedList(listed: seq<BlockId>, i: nat)
    requires DistinctSeq(listed) && i < |listed|
    ensures var rest := listed[..i] + listed[i + 1..];
            DistinctSeq(rest) && listed[i] !in rest && forall b :: b in rest <==> b in listed && b != listed[i]
  {
    var rest := listed[..i] + listed[i + 1..];
    assert forall k :: 0 <= k < |rest| ==> rest[k] == if k < i then listed[k] else listed[k + 1];
    forall b | b in listed && b != listed[i] ensures b in rest {
      var k :| 0 <= k < |listed| && listed[k] == b;
      assert rest[if k < i then k else k - 1] == b;
    }
  }

  /** Leaving a block out of account only helps. */
  lemma SetAside(blocks: map<BlockId, Block>, listed: seq<BlockId>, b: BlockId)
    requires OneEmptyPerClass(blocks, listed)
    ensures OneEmptyPerClass(blocks - {b}, listed) && IdleBytes(blocks - {b}, listed) <= IdleBytes(blocks, listed)
  {
    IdleLess(blocks, blocks - {b}, listed);
  }

  lemma TakenIdle(blocks: map<BlockId, Block>, live: map<BufferId, Placement>, listed: seq<BlockId>, b: BlockId, next: Block)
    requires PartitionOk(blocks, live) && b in blocks && blocks[b].freeSlots != []
    requires next == blocks[b].(freeSlots := blocks[b].freeSlots[..|blocks[b].freeSlots| - 1])
    requires OneEmptyPerClass(blocks - {b}, listed) && b in listed
    ensures OneEmptyPerClass(blocks[b := next], listed)
    ensures IdleBytes(blocks[b := next], listed) <= IdleBytes(blocks - {b}, listed)
  {
    assert BlockOk(blocks[b]);
    FreeIsBounded(blocks[b]);
    assert (blocks - {b})[b := next] == blocks[b := next];
    ClassesKept(blocks - {b}, listed, b, next, listed);
    IdleLess(blocks - {b}, blocks[b := next], listed);
  }

  lemma FreeIsBounded(b: Block)
    requires BlockOk(b)
    ensures |b.freeSlots| <= b.capacity
  {
    SetOfDistinct(b.freeSlots);
    SubsetCard(Elements(b.freeSlots), UpTo(b.capacity));
  }
}

/** Host-cache maintenance after the application wrote part of a mapped buffer. */
module MappedRanges {
  import opened Alignments

  datatype Flush = OutOfRange | NotMapped | Nothing | FlushRange(offset: nat, size: nat)

  /** didModifyRange.  A flushed range covers every modified byte, starts on an
      atom, and ends on one or at the end of the allocation. */
  method DidModifyRange(start: nat, length: nat, bufferLength: nat, allocation: nat, atom: nat, mapped: bool, coherent: bool) returns (f: Flush)
    requires atom > 0 && bufferLength <= allocation
    ensures f.OutOfRange? <==> start + length > bufferLength
    ensures f.NotMapped? <==> start + length <= bufferLength && length > 0 && !mapped
    ensures f.FlushRange? <==> start + length <= bufferLength && length > 0 && mapped && !coherent
    ensures f.FlushRange? ==>
              && f.offset <= start < f.offset + atom && f.offset % atom == 0
              && start + length <= f.offset + f.size <= allocation && f.offset + f.size < start + length + atom
              && ((f.offset + f.size) % atom == 0 || f.offset + f.size == allocation)
  {
    if start > bufferLength || length > bufferLength - start { return OutOfRange; }
    if length == 0 { return Nothing; }
    if !mapped { return NotMapped; }
    if coherent { return Nothing; }
    var first := start - start % atom;
    var end := start + length;
    var padding := (atom - end % atom) % atom;
    AtomFacts(start, atom);
    PaddingFacts(end, atom);
    var slack := allocation - end;
    f := FlushRange(first, end + (if padding < slack then padding else slack) - first);
  }

  lemma AtomFacts(start: nat, atom: nat)
    requires atom > 0
    ensures start - start % atom >= 0 && (start - start % atom) % atom == 0
  {
    var q := start / atom;
    assert start == q * atom + start % atom;
    MultipleMod(q, atom);
  }

  lemma PaddingFacts(end: nat, atom: nat)
    requires atom > 0
    ensures var padding := (atom - end % atom) % atom; padding < atom && (end + padding) % atom == 0
  {
    var r := end % atom;
    var q := end / atom;
    assert end == q * atom + r;
    if r == 0 {
      assert (atom - r) % atom == 0 by { MultipleMod(1, atom); }
      MultipleMod(q, atom);
    } else {
      var padding := atom - r;
      assert padding % atom == padding by { SmallMod(padding, atom); }
      assert end + padding == (q + 1) * atom;
      MultipleMod(q + 1, atom);
    }
  }

  lemma SmallMod(r: nat, m: nat)
    requires r < m
    ensures r % m == r
  {
  }
}
