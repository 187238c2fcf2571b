/** Finding the sequence parameter set in a byte stream of NAL units (annex B
    of ITU-T H.264 and of ITU-T H.265). */
module NalStreams {
  import opened EmulationPrevention
  import opened ExpGolomb
  import opened SpsParser

  const START_CODE: seq<Byte> := [0, 0, 0, 1]

  predicate StartAt(data: seq<Byte>, i: nat) {
    i + 4 <= |data| && data[i..i + 4] == START_CODE
  }

  lemma StartIs(data: seq<Byte>, i: nat)
    ensures StartAt(data, i) <==> i + 4 <= |data| && data[i] == data[i + 1] == data[i + 2] == 0 && data[i + 3] == 1
  {
    if i + 4 <= |data| {
      var w := data[i..i + 4];
      assert w == [w[0], w[1], w[2], w[3]];
    }
  }

  /** Where the next start code begins, or the end of the data. */
  function UnitEnd(data: seq<Byte>, i: nat): nat
    requires i <= |data|
    decreases |data| - i
  {
    if i + 4 > |data| then |data| else if StartAt(data, i) then i else UnitEnd(data, i + 1)
  }

  predicate IsSps(first: Byte, hevc: bool) {
    if hevc then first / 2 % 64 == 33 else first % 32 == 7
  }

  /** The first byte of a unit's header: H.264 has a reference indication of two
      bits before the type (section 7.3.1), H.265 the highest bit of the layer
      behind it (section 7.3.1.2). */
  function FirstHeaderByte(hevc: bool, type_: nat, other: nat): Byte
    requires if hevc then type_ < 64 && other < 2 else type_ < 32 && other < 4
  {
    if hevc then 2 * type_ + other else 32 * other + type_
  }

  /** Parameter sets are the units of type 7, in H.265 of type 33. */
  lemma SpsIsType(hevc: bool, type_: nat, other: nat)
    requires if hevc then type_ < 64 && other < 2 else type_ < 32 && other < 4
    ensures IsSps(FirstHeaderByte(hevc, type_, other), hevc) <==> type_ == if hevc then 33 else 7
  {
  }

  /** What the scan answers from byte `i` on. */
  function ScanFrom(data: seq<Byte>, i: nat, hevc: bool): Dimensions
    decreases |data| - i
  {
    if i + 5 >= |data| then NoDimensions
    else if !StartAt(data, i) then ScanFrom(data, i + 1, hevc)
    else
      var end := UnitEnd(data, i + 4);
      UnitEndBounds(data, i + 4);
      if IsSps(data[i + 4], hevc) then DimensionsOf(data[i + 4..end], hevc) else ScanFrom(data, end, hevc)
  }

  lemma {:induction false} UnitEndBounds(data: seq<Byte>, i: nat)
    requires i <= |data|
    ensures i <= UnitEnd(data, i) <= |data|
    decreases |data| - i
  {
    if i + 4 <= |data| && !StartAt(data, i) { UnitEndBounds(data, i + 1); }
  }

  method FindEnd(data: seq<Byte>, start: nat) returns (end: nat)
    requires start <= |data|
    ensures end == UnitEnd(data, start)
  {
    end := start;
    while end + 4 <= |data| && data[end..end + 4] != START_CODE
      invariant start <= end <= |data| && UnitEnd(data, start) == UnitEnd(data, end)
    {
      end := end + 1;
    }
    if end + 4 > |data| { end := |data|; }
  }

  /** tracka_video_dimensions. */
  method VideoDimensions(data: seq<Byte>, hevc: bool) returns (d: Dimensions)
    ensures d == ScanFrom(data, 0, hevc)
  {
    hide UnitEnd, DimensionsOf;
    var i := 0;
    while i + 5 < |data|
      invariant ScanFrom(data, 0, hevc) == ScanFrom(data, i, hevc)
      decreases |data| - i
    {
      if data[i..i + 4] == START_CODE {
        var start := i + 4;
        UnitEndBounds(data, start);
        var end := FindEnd(data, start);
        if (if hevc then data[start] / 2 % 64 else data[start] % 32) == (if hevc then 33 else 7) {
          d := SpsDimensions(data[start..end], hevc);
          return;
        }
        i := end - 1;
      }
      i := i + 1;
    }
    return NoDimensions;
  }

  /** The byte stream of some NAL units. */
  function Stream(nals: seq<seq<Byte>>): seq<Byte> {
    if nals == [] then [] else START_CODE + nals[0] + Stream(nals[1..])
  }

  predicate StartFree(nal: seq<Byte>) {
    forall k :: 0 <= k < |nal| ==> !StartAt(nal, k)
  }

  /** The answer for the first unit of the right type. */
  function FirstSps(nals: seq<seq<Byte>>, hevc: bool): Dimensions {
    if nals == [] then NoDimensions
    else if nals[0] != [] && IsSps(nals[0][0], hevc) then DimensionsOf(nals[0], hevc)
    else FirstSps(nals[1..], hevc)
  }

  lemma StreamHead(nals: seq<seq<Byte>>)
    ensures Stream(nals) == [] || (|Stream(nals)| >= 4 && Stream(nals)[..4] == START_CODE)
  {
    if nals != [] { assert Stream(nals)[..4] == START_CODE; }
  }

  /** A start code that spans two units would end in a zero. */
  lemma {:induction false} UnitEndFound(before: seq<Byte>, nal: seq<Byte>, rest: seq<Byte>, k: nat)
    requires StartFree(nal) && k <= |nal| && (rest == [] || (|rest| >= 4 && rest[..4] == START_CODE))
    ensures UnitEnd(before + nal + rest, |before| + k) == |before| + |nal|
    decreases |nal| - k
  {
    var data := before + nal + rest;
    var i := |before| + k;
    if k == |nal| {
      if rest != [] { assert data[i..i + 4] == rest[..4]; }
    } else if i + 4 <= |data| {
      NoStartInside(before, nal, rest, k);
      UnitEndFound(before, nal, rest, k + 1);
    } else {
      TooShort(rest, |nal| - k);
    }
  }

  lemma NoStartInside(before: seq<Byte>, nal: seq<Byte>, rest: seq<Byte>, k: nat)
    requires StartFree(nal) && k < |nal| && (rest == [] || (|rest| >= 4 && rest[..4] == START_CODE))
    ensures !StartAt(before + nal + rest, |before| + k)
  {
    hide StartAt;
    var data := before + nal + rest;
    var i := |before| + k;
    assert !StartAt(nal, k);
    StartIs(nal, k);
    StartIs(data, i);
    if k + 4 > |nal| && i + 4 <= |data| {
      var j := k + 3 - |nal|;
      assert data[i + 3] == rest[j] == rest[..4][j];
    }
  }

  lemma TooShort(rest: seq<Byte>, left: nat)
    requires rest == [] || |rest| >= 4
    ensures left + |rest| < 4 ==> rest == []
  {
  }

  /** A parameter set of one byte says nothing. */
  lemma OneByteSays(nal: seq<Byte>, hevc: bool)
    requires |nal| == 1
    ensures DimensionsOf(nal, hevc) == NoDimensions
  {
    assert Rbsp(nal, hevc) == [];
  }

  /** The scan of a byte stream answers for its first parameter set: no unit is
      missed, split, or joined with its neighbour. */
  lemma {:induction false} ScanFindsFirstSps(before: seq<Byte>, nals: seq<seq<Byte>>, hevc: bool)
    requires forall k :: 0 <= k < |nals| ==> StartFree(nals[k])
    ensures ScanFrom(before + Stream(nals), |before|, hevc) == FirstSps(nals, hevc)
    decreases |nals|
  {
    hide DimensionsOf, StartFree, StartAt, UnitEnd, ScanFrom;
    var data := before + Stream(nals);
    if nals != [] {
      var nal, rest := nals[0], Stream(nals[1..]);
      var head := before + START_CODE;
      assert data == head + nal + rest == head + nal + Stream(nals[1..]);
      StreamHead(nals);
      CodeFound(before, Stream(nals));
      StreamHead(nals[1..]);
      UnitEndFound(head, nal, rest, 0);
      assert data[|head|..|head| + |nal|] == nal;
      assert nal == [] && rest != [] ==> data[|head|] == rest[..4][0];
      ScanUnit(data, |before|, nal, hevc);
      ScanFindsFirstSps(head + nal, nals[1..], hevc);
    } else {
      NothingFound(data, |before|, hevc);
    }
  }

  /** One unit of the scan. */
  lemma ScanUnit(data: seq<Byte>, i: nat, nal: seq<Byte>, hevc: bool)
    requires StartAt(data, i) && i + 4 + |nal| <= |data| && data[i + 4..i + 4 + |nal|] == nal
    requires UnitEnd(data, i + 4) == i + 4 + |nal|
    requires nal == [] && i + 4 < |data| ==> data[i + 4] == 0
    ensures nal != [] && IsSps(nal[0], hevc) ==> ScanFrom(data, i, hevc) == DimensionsOf(nal, hevc)
    ensures nal == [] || !IsSps(nal[0], hevc) ==> ScanFrom(data, i, hevc) == ScanFrom(data, i + 4 + |nal|, hevc)
  {
    hide DimensionsOf, StartAt, UnitEnd;
    if |nal| == 1 { OneByteSays(nal, hevc); }
    if nal != [] { assert data[i + 4] == nal[0]; }
  }

  lemma CodeFound(before: seq<Byte>, rest: seq<Byte>)
    requires |rest| >= 4 && rest[..4] == START_CODE
    ensures StartAt(before + rest, |before|)
  {
    assert (before + rest)[|before|..|before| + 4] == rest[..4];
  }

  lemma NothingFound(data: seq<Byte>, i: nat, hevc: bool)
    requires i + 5 >= |data|
    ensures ScanFrom(data, i, hevc) == NoDimensions
  {
  }

  lemma StartAfterHeader(header: seq<Byte>, rbsp: seq<Byte>, k: nat)
    requires 1 <= |header| <= k + 1
    ensures !StartAt(header + Escape(rbsp, 0), k)
  {
    hide Escape, StartAt;
    var e := Escape(rbsp, 0);
    var nal, j := header + e, k + 1 - |header|;
    StartIs(nal, k);
    if k + 4 <= |nal| {
      assert nal[k + 1] == e[j] && nal[k + 2] == e[j + 1] && nal[k + 3] == e[j + 2];
      EscapeHasNoStartCode(rbsp, 0, j);
    }
  }

  lemma StartInHeader(header: seq<Byte>, rbsp: seq<Byte>)
    requires |header| == 2
    ensures StartAt(header + Escape(rbsp, 0), 0) <==> header == [0, 0] && |rbsp| >= 2 && rbsp[..2] == [0, 1]
  {
    hide Escape, StartAt;
    var e := Escape(rbsp, 0);
    EscapeStart(rbsp);
    StartIs(header + e, 0);
    assert header == [header[0], header[1]];
    if |e| >= 2 { assert rbsp[..2] == [e[..2][0], e[..2][1]]; }
  }

  /** Escaped payloads hold no start code, whatever they carry, and neither do
      the units around them, but for a header of zeros that the payload's own
      first bytes complete. */
  lemma EscapedUnitsStartFree(header: seq<Byte>, rbsp: seq<Byte>)
    requires 1 <= |header| <= 2
    ensures StartFree(header + Escape(rbsp, 0)) <==> !(header == [0, 0] && |rbsp| >= 2 && rbsp[..2] == [0, 1])
  {
    hide Escape, StartAt;
    var nal := header + Escape(rbsp, 0);
    forall k: nat | |header| <= k + 1 ensures !StartAt(nal, k) { StartAfterHeader(header, rbsp, k); }
    if |header| == 2 { StartInHeader(header, rbsp); }
  }

  // ------------------------------------------------------------------ packing

  /** Bits packed into bytes. */
  function Pack(bits: seq<bool>): seq<Byte>
    requires |bits| % 8 == 0
  {
    if bits == [] then [] else (ValueBound(bits[..8]); PowerOfEight(); [Value(bits[..8])]) + Pack(bits[8..])
  }

  lemma Doubles(n: nat)
    ensures Pow2(n + 1) == 2 * Pow2(n)
  {
  }

  lemma ByOne(v: nat)
    ensures v / 1 == v
  {
  }

  lemma PowerOfEight()
    ensures Pow2(8) == 256 && Pow2(0) == 1
  {
  }

  lemma {:induction false} ValueBit(s: seq<bool>, i: nat)
    requires i < |s|
    ensures Value(s) / Pow2(|s| - 1 - i) % 2 == if s[i] then 1 else 0
  {
    hide Pow2;
    var n := |s| - 1;
    if i < n {
      ValueBit(s[..n], i);
      Doubles(n - 1 - i);
      HalfQuotient(Value(s), Pow2(n - 1 - i));
      assert Value(s) / 2 == Value(s[..n]);
    } else {
      PowerOfEight();
      ByOne(Value(s));
    }
  }

  lemma HalfQuotient(v: nat, p: nat)
    requires p > 0
    ensures v / (2 * p) == v / 2 / p
  {
    var q, r := v / (2 * p), v % (2 * p);
    assert v == 2 * p * q + r;
    assert v / 2 == p * q + r / 2 by { assert v == 2 * (p * q) + r; }
    assert r / 2 < p;
    QuotientUnique(v / 2, p, q, r / 2);
  }

  lemma QuotientUnique(n: nat, p: nat, q: nat, r: nat)
    requires p > 0 && n == p * q + r && r < p
    ensures n / p == q
  {
    var d := n / p - q;
    assert n == p * (n / p) + n % p;
    assert p * d == r - n % p by { assert p * d == p * (n / p) - p * q; }
  }

  /** Every bit string of whole bytes is the content of some payload. */
  lemma {:induction false} PackedBits(bits: seq<bool>)
    requires |bits| % 8 == 0
    ensures BitsOf(Pack(bits)) == bits
    decreases |bits|
  {
    hide Bit, Value, BitsOf;
    if bits != [] {
      var first, tail := bits[..8], bits[8..];
      PackedBits(tail);
      PackStep(bits);
      BitsSize(Pack(bits));
      BitsSize(Pack(tail));
      forall k | 0 <= k < |bits| ensures BitsOf(Pack(bits))[k] == bits[k] {
        BitsAt(Pack(bits), k);
        if k < 8 {
          ByteBit(first, k);
        } else {
          BitsAt(Pack(tail), k - 8);
          assert bits[k] == tail[k - 8];
        }
      }
    } else {
      BitsSize(Pack(bits));
    }
  }

  lemma BitsSize(bytes: seq<Byte>)
    ensures |BitsOf(bytes)| == 8 * |bytes|
  {
  }

  lemma BitsAt(bytes: seq<Byte>, k: nat)
    requires k < 8 * |bytes|
    ensures |BitsOf(bytes)| == 8 * |bytes| && BitsOf(bytes)[k] == Bit(bytes[k / 8], k % 8)
  {
  }

  lemma ByteBit(s: seq<bool>, k: nat)
    requires |s| == 8 && k < 8
    ensures Value(s) < 256 && Bit(Value(s), k) == s[k]
  {
    ValueBound(s);
    PowerOfEight();
    ValueBit(s, k);
  }

  lemma PackStep(bits: seq<bool>)
    requires |bits| % 8 == 0 && bits != []
    ensures |Pack(bits)| == 1 + |Pack(bits[8..])| && Pack(bits)[0] == Value(bits[..8])
    ensures forall k :: 1 <= k < |Pack(bits)| ==> Pack(bits)[k] == Pack(bits[8..])[k - 1]
    ensures 8 * |Pack(bits)| == |bits|
    decreases |bits|
  {
    hide Value, Pow2;
    var rest := bits[8..];
    if rest != [] { PackStep(rest); }
    assert Pack(bits)[1..] == Pack(rest);
  }
}
