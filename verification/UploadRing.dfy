/** The texture upload queue: four batches take turns recording copies from
    their own staging memory, and a fence guards each until the GPU is done. */
module UploadRing {
  import opened Wrappers
  import opened Alignments
  import opened ByteRegions

  type Resource = nat

  const BATCHES: nat := 4
  const MAX_OPERATIONS: nat := 256
  const STAGING: nat := 4194304

  /** A recorded copy from staging memory. */
  datatype Copy = Copy(offset: nat, bytes: seq<bv8>)

  /** `memory` is the mapped staging memory; `fence` is the driver's fence. */
  datatype Batch = Batch(memory: seq<bv8>, used: nat, operations: nat, pending: bool, fence: bool,
                         resources: seq<Resource>, copies: seq<Copy>)
  {
    /** Recording, or submitted and not collected: the GPU may read the memory. */
    predicate Busy(recording: bool) { recording || pending }
  }

  const NEW_BATCH := Batch([], 0, 0, false, false, [], [])

  ghost predicate InPlace(memory: seq<bv8>, alignment: nat, c: Copy)
    requires alignment > 0
  {
    c.offset % alignment == 0 && c.offset + |c.bytes| <= |memory| && memory[c.offset..c.offset + |c.bytes|] == c.bytes
  }

  /** Every copy still finds its bytes, aligned, inside the staging memory and
      apart from every other copy. */
  ghost predicate CopiesOk(b: Batch, alignment: nat)
    requires alignment > 0
  {
    && b.used <= |b.memory| && b.operations <= MAX_OPERATIONS && |b.copies| <= b.operations <= |b.resources|
    && (forall i :: 0 <= i < |b.copies| ==> InPlace(b.memory, alignment, b.copies[i]) && b.copies[i].offset + |b.copies[i].bytes| <= b.used)
    && (forall i, j :: 0 <= i < j < |b.copies| ==> b.copies[i].offset + |b.copies[i].bytes| <= b.copies[j].offset)
  }

  lemma CopyKeeps(b: Batch, alignment: nat, bytes: seq<bv8>, resource: Resource)
    requires alignment > 0 && CopiesOk(b, alignment) && b.used % alignment == 0 && b.used + |bytes| <= |b.memory| && b.operations < MAX_OPERATIONS
    ensures CopiesOk(b.(memory := Overwrite(b.memory, b.used, bytes), used := b.used + |bytes|, operations := b.operations + 1,
                        resources := b.resources + [resource], copies := b.copies + [Copy(b.used, bytes)]), alignment)
  {
    var m := Overwrite(b.memory, b.used, bytes);
    forall i | 0 <= i < |b.copies| ensures InPlace(m, alignment, b.copies[i]) {
      OverwriteBelow(b.memory, b.used, bytes, b.copies[i].offset, b.copies[i].offset + |b.copies[i].bytes|);
    }
  }

  /** A submitted batch whose fence has not signalled is left alone: its staging
      memory and its resources are neither reused nor freed. */
  predicate Guarded(was: Batch, is_: Batch) {
    was.pending && !is_.fence ==> is_ == was
  }

  ghost predicate RingOk(batches: seq<Batch>, current: Option<nat>, alignment: nat)
    requires alignment > 0
  {
    && |batches| == BATCHES
    && (current.Some? ==> current.value < BATCHES && !batches[current.value].pending)
    && forall i :: 0 <= i < BATCHES && batches[i].Busy(current == Some(i)) ==> CopiesOk(batches[i], alignment)
  }

  /** The recording batch is the one the cursor chose last. */
  predicate InTurn(current: Option<nat>, cursor: nat) {
    current.Some? ==> cursor > 0 && current.value == (cursor - 1) % BATCHES
  }

  /** The recording batch is still recording, or it was submitted as it was. */
  ghost predicate Continued(was: seq<Batch>, current: Option<nat>, is_: seq<Batch>, next: Option<nat>) {
    current.Some? && current.value < |was| == |is_| ==>
      var b, c := was[current.value], is_[current.value];
      if next == current then b.copies <= c.copies && b.resources <= c.resources
      else c == b.(fence := false, pending := true)
  }

  /** The recording batch has room for one more operation with that many bytes. */
  predicate Stays(batches: seq<Batch>, current: Option<nat>, alignment: nat, bytes: nat)
    requires alignment > 0
  {
    current.Some? && current.value < |batches|
    && RoundUp(batches[current.value].used, alignment) + bytes <= |batches[current.value].memory| && batches[current.value].operations < 256
  }

  /** An empty batch, in its old staging memory if that is large enough. */
  predicate Restarted(was: Batch, is_: Batch, bytes: nat) {
    && is_.used == 0 && is_.operations == 0 && is_.copies == [] && !is_.pending && (was.pending ==> is_.resources == [])
    && if was.memory != [] && bytes <= |was.memory| then is_.memory == was.memory else |is_.memory| == Max(0x40_0000, bytes)
  }

  /** After its fence signalled a batch lets go of its resources, and of staging
      memory beyond 4 MiB. */
  function Retired(b: Batch): Batch {
    if b.pending && b.fence then b.(pending := false, resources := [], memory := if |b.memory| <= 0x40_0000 then b.memory else []) else b
  }

  /** How many operations the recording batch has before a call. */
  function Operations(batches: seq<Batch>, current: Option<nat>, alignment: nat, bytes: nat): nat
    requires alignment > 0
  {
    if Stays(batches, current, alignment, bytes) then batches[current.value].operations else 0
  }

  predicate Outstanding(batches: seq<Batch>, current: Option<nat>) {
    current.Some? || exists i :: 0 <= i < |batches| && batches[i].pending
  }

  class UploadQueue {
    const alignment: nat
    var batches: seq<Batch>
    /** The batch that records, if any. */
    var current: Option<nat>
    var cursor: nat
    var needsService: bool

    ghost predicate Valid()
      reads this
    {
      && alignment >= 16 && RingOk(batches, current, alignment) && (Outstanding(batches, current) ==> needsService)
      && InTurn(current, cursor)
    }

    constructor (copyAlignment: nat)
      ensures Valid() && current == None && |batches| == 4 && forall i :: 0 <= i < |batches| ==> batches[i] == NEW_BATCH
    {
      alignment := Max(16, copyAlignment);
      batches, current, cursor, needsService := seq(BATCHES, _ => NEW_BATCH), None, 0, false;
    }

    /** The driver signals the fence of a submitted batch. */
    method Signal(i: nat)
      requires Valid() && i < BATCHES && batches[i].pending
      modifies this`batches
      ensures Valid() && batches == old(batches)[i := old(batches)[i].(fence := true)]
    {
      batches := batches[i := batches[i].(fence := true)];
    }

    /** A batch with room for `bytes` more bytes, recording.  It may submit the
        current batch, and waits for the fence of the next one if it must. */
    method Begin(bytes: nat) returns (i: nat)
      requires Valid()
      modifies this
      ensures alignment >= 16 && RingOk(batches, current, alignment) && i < BATCHES && current == Some(i) && InTurn(current, cursor)
      ensures Continued(old(batches), old(current), batches, current)
      ensures batches[i].used % alignment == 0 && batches[i].used + bytes <= |batches[i].memory| && batches[i].operations < MAX_OPERATIONS
      ensures |old(batches)| == BATCHES && forall k :: 0 <= k < BATCHES ==> Guarded(old(batches)[k], batches[k])
      ensures if Stays(old(batches), old(current), alignment, bytes)
              then old(current) == Some(i) && cursor == old(cursor) && needsService == old(needsService)
                   && batches == old(batches)[i := old(batches)[i].(used := RoundUp(old(batches)[i].used, alignment))]
              else i == old(cursor) % BATCHES && cursor == old(cursor) + 1 && Restarted(old(batches)[i], batches[i], bytes)
    {
      if current.Some? {
        i := current.value;
        var offset := RoundUp(batches[i].used, alignment);
        if offset <= |batches[i].memory| && bytes <= |batches[i].memory| - offset && batches[i].operations < MAX_OPERATIONS {
          batches := batches[i := batches[i].(used := offset)];
          return;
        }
        Flush();
      }
      i := cursor % BATCHES;
      cursor := cursor + 1;
      Reuse(i, bytes);
      current := Some(i);
    }

    /** Makes batch `i` ready to record. */
    method Reuse(i: nat, bytes: nat)
      requires alignment >= 16 && RingOk(batches, current, alignment) && current == None && i < BATCHES
      modifies this`batches
      ensures RingOk(batches, Some(i), alignment)
      ensures batches == old(batches)[i := batches[i]] && !batches[i].pending && batches[i].used == 0 && batches[i].operations == 0
      ensures bytes <= |batches[i].memory| && |batches[i].memory| > 0 && batches[i].copies == []
      ensures Guarded(old(batches)[i], batches[i]) && Restarted(old(batches)[i], batches[i], bytes)
    {
      var b := batches[i];
      if b.pending {
        if !b.fence { b := b.(fence := true); } // blocks until the GPU is done
        b := b.(pending := false, resources := []);
      }
      if b.memory == [] || bytes > |b.memory| {
        b := b.(memory := seq(Max(STAGING, bytes), _ => 0));
      }
      batches := batches[i := b.(used := 0, operations := 0, copies := [])];
    }

    method Flush()
      requires alignment >= 16 && RingOk(batches, current, alignment)
      modifies this`batches, this`current, this`needsService
      ensures RingOk(batches, current, alignment) && current == None
      ensures old(current) == None ==> batches == old(batches) && needsService == old(needsService)
      ensures old(current).Some? ==> needsService && old(current).value < |old(batches)|
                                     && batches == old(batches)[old(current).value := old(batches)[old(current).value].(fence := false, pending := true)]
      ensures |old(batches)| == BATCHES && forall k :: 0 <= k < BATCHES ==> Guarded(old(batches)[k], batches[k])
    {
      if current.None? { return; }
      var i := current.value;
      batches := batches[i := batches[i].(fence := false, pending := true)];
      current := None;
      needsService := true;
    }

    /** initialize: one operation without staged bytes. */
    method Initialize(resource: Resource)
      requires Valid()
      modifies this
      ensures Valid() && needsService && current.Some? && Continued(old(batches), old(current), batches, current)
      ensures |old(batches)| == BATCHES && forall k :: 0 <= k < BATCHES ==> Guarded(old(batches)[k], batches[k])
      ensures batches[current.value].operations == Operations(old(batches), old(current), alignment, 0) + 1
      ensures batches[current.value].resources != [] && batches[current.value].resources[|batches[current.value].resources| - 1] == resource
    {
      var i := Begin(0);
      var b := batches[i];
      batches := batches[i := b.(resources := b.resources + [resource], operations := b.operations + 1)];
      needsService := true;
    }

    /** copy: the bytes are staged now and read by the GPU later. */
    method StageCopy(bytes: seq<bv8>, resource: Resource)
      requires Valid()
      modifies this
      ensures Valid() && needsService && current.Some? && |batches| == BATCHES && current.value < BATCHES
      ensures Continued(old(batches), old(current), batches, current)
      ensures |old(batches)| == BATCHES && forall k :: 0 <= k < BATCHES ==> Guarded(old(batches)[k], batches[k])
      ensures batches[current.value].operations == Operations(old(batches), old(current), alignment, |bytes|) + 1
      ensures var b := batches[current.value];
              && b.copies != [] && b.copies[|b.copies| - 1].bytes == bytes && b.resources != [] && b.resources[|b.resources| - 1] == resource
    {
      var i := Begin(|bytes|);
      var b := batches[i];
      CopyKeeps(b, alignment, bytes, resource);
      batches := batches[i := b.(memory := Overwrite(b.memory, b.used, bytes), used := b.used + |bytes|, operations := b.operations + 1,
                                 resources := b.resources + [resource], copies := b.copies + [Copy(b.used, bytes)])];
      needsService := true;
    }

    /** collect: retires the batches whose fence signalled. */
    method Collect()
      requires Valid()
      modifies this`batches, this`needsService
      ensures Valid() && |old(batches)| == BATCHES && forall k :: 0 <= k < BATCHES ==> Guarded(old(batches)[k], batches[k])
      ensures forall k :: 0 <= k < BATCHES ==> batches[k].pending == (old(batches)[k].pending && !old(batches)[k].fence)
      ensures needsService == (old(needsService) && Outstanding(batches, current))
      ensures forall k :: 0 <= k < BATCHES ==> batches[k] == Retired(old(batches)[k])
    {
      for i := 0 to BATCHES
        invariant RingOk(batches, current, alignment) && |old(batches)| == BATCHES && needsService == old(needsService)
        invariant forall k :: i <= k < BATCHES ==> batches[k] == old(batches)[k]
        invariant forall k :: 0 <= k < i ==> batches[k] == Retired(old(batches)[k]) && Guarded(old(batches)[k], batches[k]) && batches[k].pending == (old(batches)[k].pending && !old(batches)[k].fence)
      {
        var b := batches[i];
        if b.pending && b.fence {
          b := b.(pending := false, resources := []);
          if |b.memory| > STAGING { b := b.(memory := []); }
          batches := batches[i := b];
        }
      }
      var outstanding := current.Some?;
      for i := 0 to BATCHES
        invariant outstanding <==> current.Some? || exists k :: 0 <= k < i && batches[k].pending
      {
        if batches[i].pending { outstanding := true; }
      }
      if !outstanding { needsService := false; }
    }
  }
}
