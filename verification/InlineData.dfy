/** Metal copies setBytes data when it is encoded.  The encoder appends the
    bytes as aligned slices of shared buffers that it keeps alive. */
module InlineData {
  import opened ShaderBindings
  import opened Wrappers
  import opened ObjectLifetimes
  import opened Alignments
  import opened ByteRegions

  datatype Slice = Slice(buffer: Id, offset: nat, bytes: seq<bv8>)

  const CHUNK: nat := 65536

  /** A slice still holds its bytes, aligned and inside its buffer. */
  ghost predicate Intact(memory: map<Id, seq<bv8>>, alignment: nat, s: Slice)
    requires alignment > 0
  {
    && s.buffer in memory && s.offset % alignment == 0 && s.bytes != []
    && s.offset + |s.bytes| <= |memory[s.buffer]|
    && memory[s.buffer][s.offset..s.offset + |s.bytes|] == s.bytes
  }

  /** The bytes belong to buffers of exactly their length. */
  ghost predicate Backed(h: Heap, memory: map<Id, seq<bv8>>) {
    forall id :: id in memory ==> id in h.objects && h.objects[id].length == |memory[id]|
  }

  /** Appending writes into a known buffer or adds `created`, and keeps lengths. */
  ghost predicate Extends(was: map<Id, seq<bv8>>, is_: map<Id, seq<bv8>>, created: Id, size: nat) {
    && (forall id :: id in was ==> id in is_ && |is_[id]| == |was[id]|)
    && (forall id :: id in is_ && id !in was ==> id == created && |is_[id]| == size)
  }

  lemma StillBacked(h: Heap, was: map<Id, seq<bv8>>, is_: map<Id, seq<bv8>>, created: Id, size: nat)
    requires Backed(h, was) && Extends(was, is_, created, size) && created in h.objects && h.objects[created].length == size
    ensures Backed(h, is_)
  {
  }

  lemma BackedSlice(h: Heap, memory: map<Id, seq<bv8>>, alignment: nat, s: Slice)
    requires Backed(h, memory) && alignment > 0 && Intact(memory, alignment, s)
    ensures s.buffer in h.objects && s.offset + |s.bytes| <= h.objects[s.buffer].length
  {
  }

  lemma SliceAligned(memory: map<Id, seq<bv8>>, alignment: nat, s: Slice)
    requires alignment > 0 && Intact(memory, alignment, s)
    ensures s.offset % alignment == 0
  {
  }

  lemma SameExtends(memory: map<Id, seq<bv8>>, created: Id, size: nat)
    ensures Extends(memory, memory, created, size)
  {
  }

  lemma NewExtends(memory: map<Id, seq<bv8>>, created: Id, contents: seq<bv8>)
    requires created !in memory
    ensures Extends(memory, memory[created := contents], created, |contents|)
  {
  }

  lemma NewIntact(memory: map<Id, seq<bv8>>, alignment: nat, slices: seq<Slice>, created: Id, contents: seq<bv8>)
    requires alignment > 0 && created !in memory && forall i :: 0 <= i < |slices| ==> Intact(memory, alignment, slices[i])
    ensures forall i :: 0 <= i < |slices| ==> slices[i].buffer != created && Intact(memory[created := contents], alignment, slices[i])
  {
  }

  /** Writing at `at` leaves every slice that ends at or before `at` intact. */
  lemma IntactStays(memory: map<Id, seq<bv8>>, alignment: nat, s: Slice, buffer: Id, at: nat, bytes: seq<bv8>)
    requires alignment > 0 && Intact(memory, alignment, s)
    requires buffer in memory && at + |bytes| <= |memory[buffer]|
    requires s.buffer == buffer ==> s.offset + |s.bytes| <= at
    ensures Intact(memory[buffer := Overwrite(memory[buffer], at, bytes)], alignment, s)
  {
    if s.buffer == buffer {
      OverwriteBelow(memory[buffer], at, bytes, s.offset, s.offset + |s.bytes|);
    }
  }

  /** A write into free room keeps the slices and adds one. */
  lemma SlicesStay(memory: map<Id, seq<bv8>>, alignment: nat, slices: seq<Slice>, buffer: Id, at: nat, bytes: seq<bv8>)
    requires alignment > 0 && bytes != [] && forall i :: 0 <= i < |slices| ==> Intact(memory, alignment, slices[i])
    requires buffer in memory && at % alignment == 0 && at + |bytes| <= |memory[buffer]|
    requires forall i :: 0 <= i < |slices| && slices[i].buffer == buffer ==> slices[i].offset + |slices[i].bytes| <= at
    ensures var next := memory[buffer := Overwrite(memory[buffer], at, bytes)];
            && (forall i :: 0 <= i < |slices| ==> Intact(next, alignment, slices[i]))
            && Intact(next, alignment, Slice(buffer, at, bytes)) && |next[buffer]| == |memory[buffer]|
  {
    forall i | 0 <= i < |slices| ensures Intact(memory[buffer := Overwrite(memory[buffer], at, bytes)], alignment, slices[i]) {
      IntactStays(memory, alignment, slices[i], buffer, at, bytes);
    }
  }

  lemma WrittenExtends(was: map<Id, seq<bv8>>, is_: map<Id, seq<bv8>>, created: Id, size: nat, buffer: Id, at: nat, bytes: seq<bv8>)
    requires Extends(was, is_, created, size) && buffer in is_ && at + |bytes| <= |is_[buffer]|
    ensures Extends(was, is_[buffer := Overwrite(is_[buffer], at, bytes)], created, size)
  {
  }

  class InlineAllocator {
    const alignment: nat
    var buffer: Option<Id>
    var offset: nat
    /** The bytes of every buffer created here. */
    var memory: map<Id, seq<bv8>>
    /** Every slice handed out, oldest first. */
    ghost var slices: seq<Slice>

    ghost predicate Valid()
      reads this
    {
      && alignment >= 16
      && (buffer.Some? ==> buffer.value in memory && offset <= |memory[buffer.value]|)
      && (forall i :: 0 <= i < |slices| ==> Intact(memory, alignment, slices[i]))
      && (forall i :: 0 <= i < |slices| && buffer == Some(slices[i].buffer) ==> slices[i].offset + |slices[i].bytes| <= offset)
      && (forall i, j :: 0 <= i < j < |slices| && slices[i].buffer == slices[j].buffer ==>
                           slices[i].offset + |slices[i].bytes| <= slices[j].offset)
    }

    constructor (storageAlignment: nat, uniformAlignment: nat)
      ensures Valid() && slices == [] && memory == map[] && buffer == None
      ensures alignment == Max(16, Max(storageAlignment, uniformAlignment))
    {
      alignment := Max(16, Max(storageAlignment, uniformAlignment));
      buffer, offset, memory, slices := None, 0, map[], [];
    }

    /** Appends a slice.  Slices handed out before keep their bytes: no later
        call overwrites what an earlier draw reads.  `created` is the buffer
        the device would hand out, `contents` its initial bytes. */
    method Append(bytes: seq<bv8>, created: Id, contents: seq<bv8>) returns (at: Option<Slice>)
      requires Valid() && created !in memory && |contents| == Max(65536, |bytes|)
      modifies this
      ensures Valid()
      ensures at.None? <==> bytes == []
      ensures at.None? ==> slices == old(slices) && memory == old(memory) && buffer == old(buffer)
      ensures at.Some? ==> at.value.bytes == bytes && slices == old(slices) + [at.value]
      ensures at.Some? ==> buffer == Some(at.value.buffer) && (buffer == old(buffer) || at.value.buffer == created)
      ensures Extends(old(memory), memory, created, |contents|)
      ensures at.Some? ==> Intact(memory, alignment, at.value)
    {
      hide Intact, Extends, Overwrite;
      if bytes == [] {
        SameExtends(memory, created, |contents|);
        return None;
      }
      var start := RoundUp(offset, alignment);
      if buffer.None? || start > |memory[buffer.value]| || |bytes| > |memory[buffer.value]| - start {
        NewExtends(memory, created, contents);
        NewIntact(memory, alignment, slices, created, contents);
        buffer := Some(created);
        memory := memory[created := contents];
        offset := 0;
      } else {
        SameExtends(memory, created, |contents|);
        offset := start;
      }
      WrittenExtends(old(memory), memory, created, |contents|, buffer.value, offset, bytes);
      SlicesStay(memory, alignment, slices, buffer.value, offset, bytes);
      memory := memory[buffer.value := Overwrite(memory[buffer.value], offset, bytes)];
      at := Some(Slice(buffer.value, offset, bytes));
      slices := slices + [at.value];
      offset := offset + |bytes|;
    }
  }
}
