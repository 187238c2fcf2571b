/** Writing into mapped memory that earlier recorded work still reads. */
module ByteRegions {
  function Overwrite(m: seq<bv8>, at: nat, bytes: seq<bv8>): (r: seq<bv8>)
    requires at + |bytes| <= |m|
    ensures |r| == |m| && r[at..at + |bytes|] == bytes
  {
    m[..at] + bytes + m[at + |bytes|..]
  }

  /** What lies below the write is unchanged. */
  lemma OverwriteBelow(m: seq<bv8>, at: nat, bytes: seq<bv8>, low: nat, high: nat)
    requires at + |bytes| <= |m| && low <= high <= at
    ensures Overwrite(m, at, bytes)[low..high] == m[low..high]
  {
    var r := Overwrite(m, at, bytes);
    assert forall i :: 0 <= i < at ==> r[i] == m[i];
  }
}
