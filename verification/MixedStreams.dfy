/** Byte streams with start codes of both lengths (annex B of ITU-T H.264 and
    of ITU-T H.265).  The scan looks for the four-byte form only. */
module MixedStreams {
  import opened EmulationPrevention
  import opened ExpGolomb
  import opened SpsParser
  import opened SpsRoundTrip
  import opened NalStreams

  /** The short form of a start code, which parameter sets and the first unit
      of an access unit must not use (section B.1.2 of H.264, B.2.2 of H.265). */
  const SHORT_CODE: seq<Byte> := [0, 0, 1]

  datatype Unit = Unit(long: bool, nal: seq<Byte>) {
    /** A unit never ends in a zero byte (section 7.4.1 of H.264). */
    predicate Valid() { nal != [] && StartFree(nal) && nal[|nal| - 1] != 0 }
    predicate Sps(hevc: bool) requires Valid() { IsSps(nal[0], hevc) }
  }

  function MixedStream(us: seq<Unit>): seq<Byte> {
    if us == [] then [] else (if us[0].long then START_CODE else SHORT_CODE) + us[0].nal + MixedStream(us[1..])
  }

  /** What stands before the next long start code. */
  function Tail(us: seq<Unit>): seq<Byte> {
    if us == [] || us[0].long then [] else SHORT_CODE + us[0].nal + Tail(us[1..])
  }

  /** The units as the scan sees them: units with a short start code look like
      a part of the unit before them. */
  function Merged(us: seq<Unit>): seq<seq<Byte>> {
    if us == [] then [] else (if us[0].long then [us[0].nal + Tail(us[1..])] else []) + Merged(us[1..])
  }

  lemma MergedStep(us: seq<Unit>)
    requires us != []
    ensures !us[0].long ==> Merged(us) == Merged(us[1..])
    ensures us[0].long ==> Merged(us) != [] && Merged(us)[0] == us[0].nal + Tail(us[1..]) && Merged(us)[1..] == Merged(us[1..])
  {
    var first := us[0].nal + Tail(us[1..]);
    if us[0].long { assert Merged(us) == [first] + Merged(us[1..]); }
  }

  lemma {:induction false} MixedIsMerged(us: seq<Unit>)
    ensures MixedStream(us) == Tail(us) + Stream(Merged(us))
  {
    if us != [] {
      var rest := us[1..];
      MixedIsMerged(rest);
      MergedStep(us);
    }
  }

  /** A short start code between two units is not a long one. */
  lemma JoinedStartFree(a: seq<Byte>, b: seq<Byte>)
    requires StartFree(a) && StartFree(b) && (a == [] || a[|a| - 1] != 0)
    ensures StartFree(a + SHORT_CODE + b)
  {
    hide StartAt;
    var c := a + SHORT_CODE + b;
    forall k | 0 <= k < |c| ensures !StartAt(c, k) {
      StartIs(c, k);
      if k + 4 <= |a| {
        StartIs(a, k);
        assert !StartAt(a, k);
      } else if k + 4 <= |c| && k >= |a| + 3 {
        StartIs(b, k - |a| - 3);
        assert !StartAt(b, k - |a| - 3);
      }
    }
  }

  lemma {:induction false} TailStartFree(first: seq<Byte>, us: seq<Unit>)
    requires StartFree(first) && (first == [] || first[|first| - 1] != 0) && forall u :: u in us ==> u.Valid()
    ensures StartFree(first + Tail(us))
    decreases |us|
  {
    if us == [] || us[0].long {
      assert first + Tail(us) == first;
    } else {
      var joined := first + SHORT_CODE + us[0].nal;
      assert us[0] in us;
      JoinedStartFree(first, us[0].nal);
      TailStartFree(joined, us[1..]);
      assert first + Tail(us) == joined + Tail(us[1..]);
    }
  }

  lemma {:induction false} MergedStartFree(us: seq<Unit>)
    requires forall u :: u in us ==> u.Valid()
    ensures forall k :: 0 <= k < |Merged(us)| ==> StartFree(Merged(us)[k])
  {
    if us != [] {
      assert us[0] in us;
      MergedStartFree(us[1..]);
      TailStartFree(us[0].nal, us[1..]);
    }
  }

  /** What comes before the first start code is skipped. */
  lemma {:induction false} ScanSkips(junk: seq<Byte>, rest: seq<Byte>, k: nat, hevc: bool)
    requires StartFree(junk) && k <= |junk| && (rest == [] || (|rest| >= 4 && rest[..4] == START_CODE))
    ensures ScanFrom(junk + rest, k, hevc) == ScanFrom(junk + rest, |junk|, hevc)
    decreases |junk| - k
  {
    hide DimensionsOf, StartAt, UnitEnd;
    if k < |junk| {
      assert [] + junk + rest == junk + rest;
      NoStartInside([], junk, rest, k);
      ScanSkips(junk, rest, k + 1, hevc);
    }
  }

  /** The answer for a stream with start codes of both lengths. */
  lemma ScanOfMixed(us: seq<Unit>, hevc: bool)
    requires forall u :: u in us ==> u.Valid()
    ensures ScanFrom(MixedStream(us), 0, hevc) == FirstSps(Merged(us), hevc)
  {
    var junk, m := Tail(us), Merged(us);
    MixedIsMerged(us);
    TailStartFree([], us);
    assert [] + junk == junk;
    MergedStartFree(us);
    StreamHead(m);
    ScanSkips(junk, Stream(m), 0, hevc);
    ScanFindsFirstSps(junk, m, hevc);
  }

  /** No parameter set before unit `n` has a long start code. */
  lemma {:induction false} FirstLongSps(us: seq<Unit>, n: nat, hevc: bool)
    requires n < |us| && forall u :: u in us ==> u.Valid()
    requires us[n].long && us[n].Sps(hevc) && forall k :: 0 <= k < n ==> !us[k].long || !us[k].Sps(hevc)
    ensures FirstSps(Merged(us), hevc) == DimensionsOf(us[n].nal + Tail(us[n + 1..]), hevc)
    decreases n
  {
    hide DimensionsOf, StartFree, Tail, Merged, IsSps;
    MergedStep(us);
    assert us[0] in us;
    if n > 0 {
      FirstLongSps(us[1..], n - 1, hevc);
      assert us[1..][n..] == us[n + 1..];
    }
  }

  lemma {:induction false} NoLongSps(us: seq<Unit>, hevc: bool)
    requires forall u :: u in us ==> u.Valid() && (!u.long || !u.Sps(hevc))
    ensures FirstSps(Merged(us), hevc) == NoDimensions
  {
    hide DimensionsOf, StartFree, Tail;
    if us != [] {
      MergedStep(us);
      NoLongSps(us[1..], hevc);
    }
  }

  /** In a stream with start codes of both lengths the first parameter set that
      has a long one is found, and its record is answered for: the units with
      short start codes that follow it change nothing. */
  lemma AnswerFor264(us: seq<Unit>, n: nat, r: Sps264, header: Byte, rbsp: seq<Byte>)
    requires n < |us| && (forall u :: u in us ==> u.Valid())
    requires us[n].long && us[n].Sps(false) && forall k :: 0 <= k < n ==> !us[k].long || !us[k].Sps(false)
    requires r.Valid() && us[n].nal == [header] + Escape(rbsp, 0) && At(BitsOf(rbsp), 0, Printed(Elements264(r)))
    ensures ScanFrom(MixedStream(us), 0, false) == Answer264(r)
  {
    ScanOfMixed(us, false);
    FirstLongSps(us, n, false);
    DimensionsOf264(r, header, rbsp, Tail(us[n + 1..]));
  }

  lemma AnswerFor265(us: seq<Unit>, n: nat, r: Sps265, header: seq<Byte>, rbsp: seq<Byte>)
    requires n < |us| && (forall u :: u in us ==> u.Valid())
    requires us[n].long && us[n].Sps(true) && forall k :: 0 <= k < n ==> !us[k].long || !us[k].Sps(true)
    requires r.Valid() && |header| == 2 && us[n].nal == header + Escape(rbsp, 0) && At(BitsOf(rbsp), 0, Printed(Elements265(r)))
    ensures ScanFrom(MixedStream(us), 0, true) == Answer265(r)
  {
    ScanOfMixed(us, true);
    FirstLongSps(us, n, true);
    DimensionsOf265(r, header, rbsp, Tail(us[n + 1..]));
  }

  /** A parameter set behind a short start code is missed, whatever it holds,
      when no other has a long one. */
  lemma ShortSpsMissed(us: seq<Unit>, hevc: bool)
    requires forall u :: u in us ==> u.Valid() && (u.Sps(hevc) ==> !u.long)
    ensures ScanFrom(MixedStream(us), 0, hevc) == NoDimensions
  {
    ScanOfMixed(us, hevc);
    NoLongSps(us, hevc);
  }
}
