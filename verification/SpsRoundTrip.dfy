/** Parameter records, the bits that the syntax of the standards prints for
    them, and what the parser makes of those bits. */
module SpsRoundTrip {
  import opened EmulationPrevention
  import opened ExpGolomb
  import opened SpsParser

  predicate AllWellformed(es: seq<Element>) { forall e :: e in es ==> Wellformed(e) }

  predicate AllShort(es: seq<Element>) { forall e :: e in es ==> Short(e) }

  function Flag(b: bool): Element { U(if b then 1 else 0, 1) }

  /** The position of element `k` behind the start of `es`. */
  function Off(es: seq<Element>, k: nat): nat
    requires k <= |es|
  {
    |Printed(es[..k])|
  }

  /** Reading element `k` of a printed list. */
  lemma ReadAt(s: seq<bool>, at: nat, es: seq<Element>, k: nat)
    requires At(s, at, Printed(es)) && k < |es| && Wellformed(es[k])
    ensures Off(es, 0) == 0 && Off(es, |es|) == |Printed(es)|
    ensures var e := es[k]; var here, next := at + Off(es, k), at + Off(es, k + 1);
            && (e.U? ==> GetBits(s, here, e.width) == Got(e.value, next))
            && (e.UE? ==> GetUe(s, here) == if Short(e) then Got(e.code, next) else Fail)
            && (e.SE? ==> GetSe(s, here) == if Short(e) then Got(e.number, next) else Fail)
  {
    hide Coded, At, GetBits, GetUe, GetSe, Wellformed;
    assert es == es[..k] + es[k..] && es[..|es|] == es;
    PrintedJoin(es[..k], es[k..]);
    AtSplit(s, at, Printed(es[..k]), Printed(es[k..]));
    ReadElement(s, at + Off(es, k), es[k..]);
    assert es[..k + 1] == es[..k] + [es[k]];
    PrintedJoin(es[..k], [es[k]]);
    PrintedOne(es[k]);
  }

  lemma PrintedOne(e: Element)
    ensures Printed([e]) == Coded(e)
  {
    assert [e][1..] == [];
    assert Printed([e]) == Coded(e) + [];
  }

  /** Two consecutive parts. */
  lemma Parts(s: seq<bool>, at: nat, a: seq<Element>, b: seq<Element>)
    requires At(s, at, Printed(a + b))
    ensures At(s, at, Printed(a)) && At(s, at + |Printed(a)|, Printed(b))
    ensures |Printed(a + b)| == |Printed(a)| + |Printed(b)|
    ensures AllShort(a + b) <==> AllShort(a) && AllShort(b)
    ensures AllWellformed(a + b) <==> AllWellformed(a) && AllWellformed(b)
  {
    hide Printed, Coded;
    PrintedJoin(a, b);
    AtSplit(s, at, Printed(a), Printed(b));
    assert forall e :: e in a + b <==> e in a || e in b;
  }

  // -------------------------------------------------------------- scaling lists

  function Ses(xs: seq<int>): (es: seq<Element>)
    ensures |es| == |xs|
  {
    if xs == [] then [] else [SE(xs[0])] + Ses(xs[1..])
  }

  /** The first of some signed values. */
  lemma SesStep(s: seq<bool>, at: nat, xs: seq<int>)
    requires xs != [] && At(s, at, Printed(Ses(xs)))
    ensures var one := [SE(xs[0])];
            && GetSe(s, at) == (if Short(SE(xs[0])) then Got(xs[0], at + |Printed(one)|) else Fail)
            && At(s, at + |Printed(one)|, Printed(Ses(xs[1..])))
            && |Printed(Ses(xs))| == |Printed(one)| + |Printed(Ses(xs[1..]))|
            && (AllShort(Ses(xs)) <==> Short(SE(xs[0])) && AllShort(Ses(xs[1..])))
  {
    hide Coded, GetSe, AllShort, AllWellformed, Short, Wellformed, At, Printed;
    var e := SE(xs[0]);
    Parts(s, at, [e], Ses(xs[1..]));
    One(e);
    ReadOneSigned(s, at, xs[0]);
  }

  lemma ReadOneSigned(s: seq<bool>, at: nat, x: int)
    requires At(s, at, Printed([SE(x)]))
    ensures GetSe(s, at) == if Short(SE(x)) then Got(x, at + |Printed([SE(x)])|) else Fail
  {
    hide Coded, GetSe, Short, At, Printed;
    One(SE(x));
    ReadAt(s, at, [SE(x)], 0);
  }

  lemma SignedWellformed(x: int)
    ensures Wellformed(SE(x))
  {
  }

  lemma One(e: Element)
    ensures AllShort([e]) <==> Short(e)
    ensures Off([e], 0) == 0 && Off([e], 1) == |Printed([e])|
    ensures AllShort([]) && AllWellformed([]) && Printed([]) == []
  {
    assert [e][..1] == [e] && [e][..0] == [] && e in [e];
  }

  lemma {:induction false} ReadSesBack(s: seq<bool>, at: nat, xs: seq<int>)
    requires At(s, at, Printed(Ses(xs)))
    ensures GetSes(s, at, |xs|) == if AllShort(Ses(xs)) then Got(0, at + |Printed(Ses(xs))|) else Fail
    decreases |xs|
  {
    hide GetSe, Short, At, Printed, Coded, AllShort;
    One(SE(0));
    if xs != [] {
      SesStep(s, at, xs);
      ReadSesBack(s, at + |Printed([SE(xs[0])])|, xs[1..]);
    }
  }

  /** The deltas that the syntax prints for a list: they end with the list, or
      with the one that makes the next scale zero. */
  predicate Complete(deltas: seq<int>, j: nat, size: nat, last: nat, next: nat)
    decreases size - j
  {
    if j >= size || next == 0 then deltas == []
    else deltas != [] && var n := (last + deltas[0]) % 256; Complete(deltas[1..], j + 1, size, if n != 0 then n else last, n)
  }

  lemma {:induction false} ReadListBack(s: seq<bool>, at: nat, deltas: seq<int>, j: nat, size: nat, last: nat, next: nat)
    requires At(s, at, Printed(Ses(deltas))) && Complete(deltas, j, size, last, next)
    ensures GetList(s, at, j, size, last, next) == if AllShort(Ses(deltas)) then Got(0, at + |Printed(Ses(deltas))|) else Fail
    decreases size - j
  {
    hide GetSe, Short, At, Printed, Coded, AllShort;
    One(SE(0));
    if j < size {
      if next == 0 {
        ReadListBack(s, at, deltas, j + 1, size, last, 0);
      } else {
        var n := (last + deltas[0]) % 256;
        SesStep(s, at, deltas);
        ReadListBack(s, at + |Printed([SE(deltas[0])])|, deltas[1..], j + 1, size, if n != 0 then n else last, n);
      }
    }
  }

  datatype ScalingList = Default | Deltas(deltas: seq<int>)

  function ListElements(l: ScalingList): seq<Element> {
    match l case Default => [Flag(false)] case Deltas(ds) => [Flag(true)] + Ses(ds)
  }

  predicate ListValid(l: ScalingList, i: nat) { l.Deltas? ==> Complete(l.deltas, 0, ListSize(i), 8, 8) }

  function ListsElements(ls: seq<ScalingList>): seq<Element> {
    if ls == [] then [] else ListElements(ls[0]) + ListsElements(ls[1..])
  }

  lemma FlagValue(s: seq<bool>, at: nat, b: bool)
    requires At(s, at, Printed([Flag(b)]))
    ensures GetBits(s, at, 1) == Got(if b then 1 else 0, at + |Printed([Flag(b)])|)
  {
    assert Pow2(1) == 2;
    ReadAt(s, at, [Flag(b)], 0);
  }

  lemma {:induction false} ReadListsBack(s: seq<bool>, at: nat, ls: seq<ScalingList>, i: nat)
    requires At(s, at, Printed(ListsElements(ls))) && forall k :: 0 <= k < |ls| ==> ListValid(ls[k], i + k)
    ensures GetLists(s, at, i, i + |ls|) == if AllShort(ListsElements(ls)) then Got(0, at + |Printed(ListsElements(ls))|) else Fail
    decreases |ls|
  {
    hide GetBits, GetList, Short, At, Printed, Coded, Complete, AllShort, AllWellformed;
    One(Flag(true));
    One(Flag(false));
    if ls != [] {
      var l, rest := ls[0], ls[1..];
      Parts(s, at, ListElements(l), ListsElements(rest));
      assert ListValid(ls[0], i + 0);
      forall k | 0 <= k < |rest| ensures ListValid(rest[k], i + 1 + k) { assert rest[k] == ls[k + 1]; }
      ReadListsBack(s, at + |Printed(ListElements(l))|, rest, i + 1);
      match l
      case Default =>
        FlagValue(s, at, false);
        ShortFlag(false);
      case Deltas(ds) =>
        Parts(s, at, [Flag(true)], Ses(ds));
        FlagValue(s, at, true);
        ShortFlag(true);
        ReadListBack(s, at + |Printed([Flag(true)])|, ds, 0, ListSize(i), 8, 8);
    }
  }

  lemma ShortFlag(b: bool)
    ensures Short(Flag(b)) && Wellformed(Flag(b))
  {
    assert Pow2(1) == 2;
  }

  // -------------------------------------------------------------------- H.264

  lemma ShortByIndex(es: seq<Element>)
    ensures AllShort(es) <==> forall k :: 0 <= k < |es| ==> Short(es[k])
  {
  }

  function IfElements(present: bool, b: bool): seq<Element> { if present then [Flag(b)] else [] }

  lemma ReadIfBack(s: seq<bool>, at: nat, present: bool, b: bool)
    requires At(s, at, Printed(IfElements(present, b))) && (!present ==> !b)
    ensures GetIf(s, at, present) == Got(if b then 1 else 0, at + |Printed(IfElements(present, b))|)
    ensures AllShort(IfElements(present, b))
  {
    One(Flag(b));
    ShortFlag(b);
    if present { FlagValue(s, at, b); }
  }

  datatype Matrix = NoMatrix | Matrix(lists: seq<ScalingList>)

  datatype High = High(chroma: nat, separate: bool, luma: nat, depth: nat, bypass: bool, matrix: Matrix) {
    predicate Valid() {
      && (chroma != 3 ==> !separate)
      && (matrix.Matrix? ==> |matrix.lists| == ListCount(chroma) && forall k :: 0 <= k < |matrix.lists| ==> ListValid(matrix.lists[k], k))
    }
  }

  function DepthElements(h: High): seq<Element> { [UE(h.luma), UE(h.depth), Flag(h.bypass), Flag(h.matrix.Matrix?)] }

  function MatrixElements(h: High): seq<Element> { if h.matrix.Matrix? then ListsElements(h.matrix.lists) else [] }

  function HighElements(h: High): seq<Element> {
    [UE(h.chroma)] + (IfElements(h.chroma == 3, h.separate) + (DepthElements(h) + MatrixElements(h)))
  }

  lemma ReadUeBack(s: seq<bool>, at: nat, v: nat)
    requires At(s, at, Printed([UE(v)]))
    ensures GetUe(s, at) == if AllShort([UE(v)]) then Got(v, at + |Printed([UE(v)])|) else Fail
  {
    hide GetUe, Printed, At, Coded, AllShort;
    ReadAt(s, at, [UE(v)], 0);
    One(UE(v));
  }

  lemma ReadDepthBack(s: seq<bool>, at: nat, h: High)
    requires At(s, at, Printed(DepthElements(h)))
    ensures var es := DepthElements(h); var end := at + |Printed(es)|;
            && (AllShort(es) ==> exists a, b, c :: GetUe(s, at) == Got(h.luma, a) && GetUe(s, a) == Got(h.depth, b)
                                                && GetBits(s, b, 1) == Got(if h.bypass then 1 else 0, c)
                                                && GetBits(s, c, 1) == Got(if h.matrix.Matrix? then 1 else 0, end))
            && (!AllShort(es) ==> GetUe(s, at).Fail? || GetUe(s, GetUe(s, at).next).Fail?)
  {
    hide GetUe, GetBits, Printed, At;
    var es := DepthElements(h);
    ShortByIndex(es);
    ShortFlag(h.bypass);
    ShortFlag(h.matrix.Matrix?);
    ReadAt(s, at, es, 0);
    ReadAt(s, at, es, 1);
    ReadAt(s, at, es, 2);
    ReadAt(s, at, es, 3);
  }

  lemma ReadHighBack(s: seq<bool>, at: nat, h: High)
    requires At(s, at, Printed(HighElements(h))) && h.Valid()
    ensures GetHigh(s, at) == if AllShort(HighElements(h)) then Got(Format(h.chroma, h.separate), at + |Printed(HighElements(h))|) else Fail
  {
    hide GetUe, GetBits, GetIf, GetLists, Printed, At, AllShort, AllWellformed, DepthElements;
    var a, b, c, d := [UE(h.chroma)], IfElements(h.chroma == 3, h.separate), DepthElements(h), MatrixElements(h);
    Parts(s, at, a, b + (c + d));
    var p := at + |Printed(a)|;
    Parts(s, p, b, c + d);
    var q := p + |Printed(b)|;
    Parts(s, q, c, d);
    var r := q + |Printed(c)|;
    ReadUeBack(s, at, h.chroma);
    ReadIfBack(s, p, h.chroma == 3, h.separate);
    ReadDepthBack(s, q, h);
    One(UE(0));
    if h.matrix.Matrix? { ReadListsBack(s, r, h.matrix.lists, 0); }
  }

  datatype Poc = Poc0(log2: nat) | Poc1(always: bool, nonRef: int, topBottom: int, cycle: seq<int>) | Poc2

  function PocHead(p: Poc): seq<Element> {
    match p
    case Poc0(log2) => [UE(0), UE(log2)]
    case Poc1(always, nonRef, topBottom, cycle) => [UE(1), Flag(always), SE(nonRef), SE(topBottom), UE(|cycle|)]
    case Poc2 => [UE(2)]
  }

  function PocElements(p: Poc): seq<Element> {
    PocHead(p) + if p.Poc1? then Ses(p.cycle) else []
  }

  lemma SmallCodes()
    ensures Short(UE(0)) && Short(UE(1)) && Short(UE(2)) && forall n: nat :: n <= MAX_CYCLE ==> Short(UE(n))
  {
  }

  lemma ReadPocBack(s: seq<bool>, at: nat, p: Poc)
    requires At(s, at, Printed(PocElements(p))) && (p.Poc1? ==> |p.cycle| <= MAX_CYCLE)
    ensures AllShort(PocElements(p)) ==> GetPoc(s, at).Got? && GetPoc(s, at).next == at + |Printed(PocElements(p))|
    ensures !AllShort(PocElements(p)) ==> GetPoc(s, at).Fail?
  {
    hide GetUe, GetBits, GetSe, GetSes, Printed, At, AllWellformed, Coded;
    var es := PocHead(p);
    Parts(s, at, es, if p.Poc1? then Ses(p.cycle) else []);
    ShortByIndex(es);
    SmallCodes();
    One(UE(0));
    ReadAt(s, at, es, 0);
    match p
    case Poc0(log2) => ReadAt(s, at, es, 1);
    case Poc1(always, nonRef, topBottom, cycle) => ReadCycleBack(s, at, p);
    case Poc2 =>
  }

  lemma ReadCycleBack(s: seq<bool>, at: nat, p: Poc)
    requires p.Poc1? && |p.cycle| <= MAX_CYCLE && At(s, at, Printed(PocElements(p)))
    ensures AllShort(PocElements(p)) ==> GetPoc(s, at).Got? && GetPoc(s, at).next == at + |Printed(PocElements(p))|
    ensures !AllShort(PocElements(p)) ==> GetPoc(s, at).Fail?
  {
    hide GetUe, GetBits, GetSe, GetSes, Printed, At, AllWellformed, Coded, AllShort, Short, Wellformed, Ses;
    var es := PocHead(p);
    Parts(s, at, es, Ses(p.cycle));
    HeadShort(p);
    SmallCodes();
    ShortFlag(p.always);
    SignedWellformed(p.nonRef);
    SignedWellformed(p.topBottom);
    CodeWellformed(1);
    CodeWellformed(|p.cycle|);
    ReadAt(s, at, es, 0);
    ReadAt(s, at, es, 1);
    ReadAt(s, at, es, 2);
    ReadAt(s, at, es, 3);
    ReadAt(s, at, es, 4);
    ReadSesBack(s, at + |Printed(es)|, p.cycle);
  }

  lemma HeadShort(p: Poc)
    requires p.Poc1? && |p.cycle| <= MAX_CYCLE
    ensures AllShort(PocHead(p)) <==> Short(SE(p.nonRef)) && Short(SE(p.topBottom))
  {
    var es := PocHead(p);
    ShortByIndex(es);
    assert es[2] == SE(p.nonRef) && es[3] == SE(p.topBottom);
  }

  lemma CodeWellformed(v: nat)
    ensures Wellformed(UE(v))
  {
  }

  /** Order-count cycles longer than the standard allows are refused. */
  lemma LongCycleRejected(s: seq<bool>, at: nat, p: Poc)
    requires p.Poc1? && |p.cycle| > 255 && At(s, at, Printed(PocHead(p)))
    ensures GetPoc(s, at) == Fail
  {
    hide GetUe, GetBits, GetSe, Printed, At, Coded;
    var es := PocHead(p);
    ShortFlag(p.always);
    One(UE(1));
    SmallCodes();
    ReadAt(s, at, es, 0);
    ReadAt(s, at, es, 1);
    ReadAt(s, at, es, 2);
    ReadAt(s, at, es, 3);
    ReadAt(s, at, es, 4);
  }

  datatype FrameFields = FrameFields(refs: nat, gaps: bool, widthUnits: nat, heightUnits: nat, mbsOnly: bool, adaptive: bool, direct: bool)

  function FrameHead(f: FrameFields): seq<Element> { [UE(f.refs), Flag(f.gaps), UE(f.widthUnits), UE(f.heightUnits), Flag(f.mbsOnly)] }

  function FrameElements(f: FrameFields): seq<Element> {
    FrameHead(f) + (IfElements(!f.mbsOnly, f.adaptive) + [Flag(f.direct)])
  }

  function CodedSize(f: FrameFields): Size {
    Size((f.widthUnits + 1) * 16, (f.heightUnits + 1) * 16 * if f.mbsOnly then 1 else 2)
  }

  predicate InUnits(f: FrameFields) { f.widthUnits <= MAX_UNITS && f.heightUnits <= MAX_UNITS }

  lemma ReadFrameBack(s: seq<bool>, at: nat, f: FrameFields)
    requires At(s, at, Printed(FrameElements(f))) && (f.mbsOnly ==> !f.adaptive)
    ensures GetFrame(s, at) == if AllShort(FrameElements(f)) && InUnits(f) then Got(Frame(CodedSize(f), f.mbsOnly), at + |Printed(FrameElements(f))|) else Fail
  {
    hide GetUe, GetBits, GetIf, Printed, At, AllWellformed, Coded;
    var es, b, c := FrameHead(f), IfElements(!f.mbsOnly, f.adaptive), [Flag(f.direct)];
    Parts(s, at, es, b + c);
    var p := at + |Printed(es)|;
    Parts(s, p, b, c);
    ShortByIndex(es);
    ShortFlag(f.gaps);
    ShortFlag(f.mbsOnly);
    ShortFlag(f.direct);
    ReadAt(s, at, es, 0);
    ReadAt(s, at, es, 1);
    ReadAt(s, at, es, 2);
    ReadAt(s, at, es, 3);
    ReadAt(s, at, es, 4);
    ReadIfBack(s, p, !f.mbsOnly, f.adaptive);
    FlagValue(s, p + |Printed(b)|, f.direct);
    One(Flag(f.direct));
  }

  datatype Crop = NoCrop | Crop(left: nat, right: nat, top: nat, bottom: nat)

  function CropElements(c: Crop): seq<Element> {
    match c case NoCrop => [Flag(false)] case Crop(l, r, t, b) => [Flag(true), UE(l), UE(r), UE(t), UE(b)]
  }

  function CropValues(c: Crop): (v: seq<nat>)
    ensures |v| == 4
  {
    match c case NoCrop => [0, 0, 0, 0] case Crop(l, r, t, b) => [l, r, t, b]
  }

  lemma ReadCropBack(s: seq<bool>, at: nat, c: Crop)
    requires At(s, at, Printed(CropElements(c)))
    ensures GetCrop(s, at) == if AllShort(CropElements(c)) then Got(CropValues(c), at + |Printed(CropElements(c))|) else Fail
  {
    hide GetUe, GetBits, Printed, At, Coded;
    var es := CropElements(c);
    ShortByIndex(es);
    ShortFlag(c.Crop?);
    ReadAt(s, at, es, 0);
    if c.Crop? {
      ReadAt(s, at, es, 1);
      ReadAt(s, at, es, 2);
      ReadAt(s, at, es, 3);
      ReadAt(s, at, es, 4);
    }
  }

  datatype Sps264 = Sps264(profile: nat, level: nat, id: nat, high: High, frameNum: nat, poc: Poc, frame: FrameFields, crop: Crop) {
    /** What the syntax can express at all. */
    predicate Valid() {
      && profile < 256 && level < 65536 && high.Valid()
      && (!HighProfile(profile) ==> high == High(1, false, 0, 0, false, NoMatrix))
      && (poc.Poc1? ==> |poc.cycle| <= 255) && (frame.mbsOnly ==> !frame.adaptive)
    }
  }

  function ProfileHead(r: Sps264): seq<Element> { [U(r.profile, 8), U(r.level, 16), UE(r.id)] }

  function ProfileElements(r: Sps264): seq<Element> {
    ProfileHead(r) + if HighProfile(r.profile) then HighElements(r.high) else []
  }

  lemma ReadProfileBack(s: seq<bool>, at: nat, r: Sps264)
    requires At(s, at, Printed(ProfileElements(r))) && r.Valid()
    ensures GetProfile(s, at) == if AllShort(ProfileElements(r)) then Got(Format(r.high.chroma, r.high.separate), at + |Printed(ProfileElements(r))|) else Fail
  {
    hide GetUe, GetBits, GetHigh, Printed, At, Coded, HighProfile, HighElements;
    Widths();
    var es := ProfileHead(r);
    Parts(s, at, es, if HighProfile(r.profile) then HighElements(r.high) else []);
    ShortByIndex(es);
    One(UE(0));
    ReadAt(s, at, es, 0);
    ReadAt(s, at, es, 1);
    ReadAt(s, at, es, 2);
    if HighProfile(r.profile) { ReadHighBack(s, at + |Printed(es)|, r.high); }
  }

  lemma Widths()
    ensures Pow2(8) == 256 && Pow2(16) == 65536
  {
    assert Pow2(12) == 4096;
  }

  function Elements264(r: Sps264): seq<Element> {
    ProfileElements(r) + ([UE(r.frameNum)] + (PocElements(r.poc) + (FrameElements(r.frame) + CropElements(r.crop))))
  }

  function PictureOf264(r: Sps264): Picture {
    Picture(Format(r.high.chroma, r.high.separate), CodedSize(r.frame), r.frame.mbsOnly, CropValues(r.crop))
  }

  lemma ReadPicture264Back(s: seq<bool>, at: nat, r: Sps264)
    requires At(s, at, Printed(Elements264(r))) && r.Valid()
    ensures AllShort(Elements264(r)) && InUnits(r.frame) ==> GetPicture264(s, at).Got? && GetPicture264(s, at).value == PictureOf264(r)
    ensures !(AllShort(Elements264(r)) && InUnits(r.frame)) ==> GetPicture264(s, at).Fail?
  {
    hide GetUe, GetProfile, GetPoc, GetFrame, GetCrop, Printed, At, AllShort, AllWellformed;
    var a, b, c, d, e := ProfileElements(r), [UE(r.frameNum)], PocElements(r.poc), FrameElements(r.frame), CropElements(r.crop);
    Parts(s, at, a, b + (c + (d + e)));
    var p := at + |Printed(a)|;
    Parts(s, p, b, c + (d + e));
    var q := p + |Printed(b)|;
    Parts(s, q, c, d + e);
    var t := q + |Printed(c)|;
    Parts(s, t, d, e);
    ReadProfileBack(s, at, r);
    ReadUeBack(s, p, r.frameNum);
    ReadPocBack(s, q, r.poc);
    ReadFrameBack(s, t, r.frame);
    ReadCropBack(s, t + |Printed(d)|, r.crop);
  }

  /** Pictures outside the parser's unit limit exceed its dimension limit too. */
  lemma OutOfUnits(r: Sps264)
    requires !InUnits(r.frame)
    ensures Cropped(PictureOf264(r)) == NoDimensions
  {
  }

  /** Bytes after a record do not change what is read from it. */
  lemma RecordStays(rbsp: seq<Byte>, tail: seq<Byte>, header: seq<Byte>, p: seq<bool>, hevc: bool)
    requires |header| == (if hevc then 2 else 1) && At(BitsOf(rbsp), 0, p)
    ensures At(Rbsp(header + Escape(rbsp, 0) + tail, hevc), 0, p)
  {
    var nal := header + Escape(rbsp, 0) + tail;
    assert nal[|header|..] == Escape(rbsp, 0) + tail;
    UnescapeEscapeThen(rbsp, 0, tail);
    MoreBits(rbsp, Unescape(Escape(rbsp, 0) + tail, 0));
  }

  lemma MoreBits(a: seq<Byte>, b: seq<Byte>)
    requires a <= b
    ensures BitsOf(a) <= BitsOf(b)
  {
    forall k | 0 <= k < |BitsOf(a)| ensures BitsOf(a)[k] == BitsOf(b)[k] { assert a[k / 8] == b[k / 8]; }
  }

  /** What the parser should answer for an H.264 record: the cropped size that
      the standard defines, unless a code of the record exceeds 2^31 - 2. */
  function Answer264(r: Sps264): Dimensions
    requires r.Valid()
  {
    if AllShort(Elements264(r)) then Cropped(PictureOf264(r)) else NoDimensions
  }

  /** For every H.264 parameter record that the syntax can express, the parser
      returns the cropped size that the standard defines exactly when no
      exponential code in the record exceeds 2^31 - 2; otherwise nothing.
      Nothing that follows the record changes that. */
  lemma DimensionsOf264(r: Sps264, header: Byte, rbsp: seq<Byte>, tail: seq<Byte>)
    requires r.Valid() && At(BitsOf(rbsp), 0, Printed(Elements264(r)))
    ensures DimensionsOf([header] + Escape(rbsp, 0) + tail, false) == Answer264(r)
  {
    hide GetPicture264, BitsOf, AllShort, Printed, Elements264, At, Rbsp;
    RecordStays(rbsp, tail, [header], Printed(Elements264(r)), false);
    ReadPicture264Back(Rbsp([header] + Escape(rbsp, 0) + tail, false), 0, r);
    if !InUnits(r.frame) { OutOfUnits(r); }
  }

  lemma UeFits(s: seq<bool>, at: nat)
    ensures GetUe(s, at).Got? ==> GetUe(s, at).value <= MAX_CODE
  {
    var zeros := LeadingZeros(s, at, MAX_ZEROS);
    if GetUe(s, at).Got? {
      FewZeros(s, at, MAX_ZEROS);
      ValueBound(s[zeros.next..zeros.next + zeros.value]);
      Pow2Grows(zeros.value, MAX_ZEROS);
      assert Pow2(MAX_ZEROS) == 0x4000_0000 by { Pow2Of30(); }
    }
  }

  lemma {:induction false} FewZeros(s: seq<bool>, at: nat, limit: nat)
    ensures LeadingZeros(s, at, limit).Got? ==> LeadingZeros(s, at, limit).value <= limit
    decreases limit
  {
    if limit > 0 { FewZeros(s, at + 1, limit - 1); }
  }

  lemma {:induction false} Pow2Grows(m: nat, n: nat)
    requires m <= n
    ensures Pow2(m) <= Pow2(n)
    decreases n
  {
    if m < n { Pow2Grows(m, n - 1); }
  }

  lemma Pow2Of30()
    ensures Pow2(30) == 0x4000_0000
  {
    assert Pow2(10) == 1024;
    assert Pow2(20) == 1024 * 1024;
  }

  lemma CropFits(s: seq<bool>, at: nat)
    ensures GetCrop(s, at).Got? ==> forall c :: c in GetCrop(s, at).value ==> c <= MAX_CODE
  {
    hide GetUe, GetBits;
    forall i: nat ensures GetUe(s, i).Got? ==> GetUe(s, i).value <= MAX_CODE { UeFits(s, i); }
  }

  /** What a decoded picture needs of its integers: 32 bits for the coded size,
      64 for the cropped samples. */
  predicate Fits(p: Picture)
    requires |p.crop| == 4
  {
    && p.coded.width < 0x1_0000_0000 && p.coded.height < 0x1_0000_0000
    && (p.crop[0] + p.crop[1]) * CropUnits(p).width < 0x1_0000_0000_0000_0000
    && (p.crop[2] + p.crop[3]) * CropUnits(p).height < 0x1_0000_0000_0000_0000
  }

  lemma ShortCropFits(p: Picture)
    requires |p.crop| == 4 && forall c :: c in p.crop ==> c <= MAX_CODE
    requires p.coded.width < 0x1_0000_0000 && p.coded.height < 0x1_0000_0000
    ensures Fits(p)
  {
    assert p.crop[0] in p.crop && p.crop[1] in p.crop && p.crop[2] in p.crop && p.crop[3] in p.crop;
  }

  lemma FrameFits(s: seq<bool>, at: nat)
    ensures var f := GetFrame(s, at); f.Got? ==> f.value.coded.width < 0x1_0000_0000 && f.value.coded.height < 0x1_0000_0000
  {
    hide GetUe, GetBits, GetIf;
  }

  lemma Picture264Fits(s: seq<bool>)
    ensures var p := GetPicture264(s, 0); p.Got? ==> Fits(p.value)
  {
    hide GetUe, GetProfile, GetPoc, GetFrame, GetCrop, Fits;
    forall i: nat ensures GetCrop(s, i).Got? ==> forall c :: c in GetCrop(s, i).value ==> c <= MAX_CODE { CropFits(s, i); }
    forall i: nat ensures var f := GetFrame(s, i); f.Got? ==> f.value.coded.width < 0x1_0000_0000 && f.value.coded.height < 0x1_0000_0000 { FrameFits(s, i); }
    var p := GetPicture264(s, 0);
    if p.Got? { ShortCropFits(p.value); }
  }

  lemma Picture265Fits(s: seq<bool>)
    ensures var p := GetPicture265(s, 0); p.Got? ==> Fits(p.value)
  {
    hide GetUe, GetTiers, GetIf, GetCrop, Fits;
    forall i: nat ensures GetCrop(s, i).Got? ==> forall c :: c in GetCrop(s, i).value ==> c <= MAX_CODE { CropFits(s, i); }
    forall i: nat ensures GetUe(s, i).Got? ==> GetUe(s, i).value <= MAX_CODE { UeFits(s, i); }
    var p := GetPicture265(s, 0);
    if p.Got? { ShortCropFits(p.value); }
  }

  /** Whatever bytes a parameter set holds, a returned size is between 1 and
      16384, and computing it did not wrap around. */
  lemma DimensionsInRange(nal: seq<Byte>, hevc: bool)
    ensures var d := DimensionsOf(nal, hevc);
            d.Dimensions? ==> 1 <= d.size.width <= MAX_DIMENSION && 1 <= d.size.height <= MAX_DIMENSION
    ensures var p := if hevc then GetPicture265(Rbsp(nal, hevc), 0) else GetPicture264(Rbsp(nal, hevc), 0);
            p.Got? ==> Fits(p.value)
  {
    hide GetPicture264, GetPicture265, Rbsp, Fits;
    if hevc { Picture265Fits(Rbsp(nal, hevc)); } else { Picture264Fits(Rbsp(nal, hevc)); }
  }

  /** The standards' chroma subsampling (table 6-1 of both). */
  function SubWidthC(chroma: nat): nat { if chroma == 1 || chroma == 2 then 2 else 1 }
  function SubHeightC(chroma: nat): nat { if chroma == 1 then 2 else 1 }

  /** The parser's cropping units are those of equations 7-19 to 7-22 of H.264:
      one sample without chroma arrays, else one chroma sample. */
  lemma CropUnitsAreStandard(p: Picture)
    requires p.format.chroma <= 3
    ensures var arrays := if p.format.separate then 0 else p.format.chroma;
            CropUnits(p) == Size(if arrays == 0 then 1 else SubWidthC(arrays),
                                 (if arrays == 0 then 1 else SubHeightC(arrays)) * if p.frameMbsOnly then 1 else 2)
  {
  }

  /** The size that section 7.4.2.1.1 of H.264 gives a record, within the
      limits of the decoder: the coded size in macroblocks of 16 samples (two
      rows of them for fields) less the cropped samples. */
  lemma Size264(r: Sps264)
    requires r.Valid() && r.high.chroma <= 3
    ensures var arrays, fields := if r.high.separate then 0 else r.high.chroma, if r.frame.mbsOnly then 1 else 2;
            var unitX := if arrays == 0 then 1 else SubWidthC(arrays);
            var unitY := (if arrays == 0 then 1 else SubHeightC(arrays)) * fields;
            var width, height := 16 * (r.frame.widthUnits + 1), 16 * fields * (r.frame.heightUnits + 1);
            var x := match r.crop case NoCrop => 0 case Crop(left, right, _, _) => unitX * (left + right);
            var y := match r.crop case NoCrop => 0 case Crop(_, _, top, bottom) => unitY * (top + bottom);
            Cropped(PictureOf264(r)) == if x < width <= 16384 && y < height <= 16384 then Dimensions(Size(width - x, height - y)) else NoDimensions
  {
    var p := PictureOf264(r);
    CropUnitsAreStandard(p);
    Commuted(p.crop[0] + p.crop[1], CropUnits(p).width);
    Commuted(p.crop[2] + p.crop[3], CropUnits(p).height);
  }

  lemma NoSize264(r: Sps264)
    requires r.Valid() && r.high.chroma > 3
    ensures Cropped(PictureOf264(r)) == NoDimensions
  {
  }

  /** The profiles whose records have chroma and bit-depth fields, by section
      7.3.2.1.1 of H.264: High, the High and CAVLC 4:4:4 intra profiles, and
      the scalable, multiview and 3D ones. */
  lemma HighProfiles(p: nat)
    ensures HighProfile(p) <==> p in {100, 110, 122, 244, 44} || p in {83, 86} || p in {118, 128, 134} || p in {138, 139, 135}
  {
  }

  /** Six lists of 4x4 coefficients, then 8x8 ones: two, or six for 4:4:4. */
  lemma ScalingListSizes(chroma: nat, i: nat)
    requires i < ListCount(chroma)
    ensures ListCount(chroma) == 6 + if chroma == 3 then 6 else 2
    ensures ListSize(i) == if i < 6 then 4 * 4 else 8 * 8
  {
  }

  /** The record that shows the limit matters: the standard allows offsets up
      to 2^31 - 1, but an offset of 2^30 already has a code the parser rejects. */
  const FAR_OFFSET := Sps264(66, 30, 0, High(1, false, 0, 0, false, NoMatrix), 0, Poc1(false, 0x4000_0000, 0, []),
                             FrameFields(1, false, 39, 29, true, false, true), NoCrop)

  lemma FarOffsetRejected(header: Byte, rbsp: seq<Byte>, tail: seq<Byte>)
    requires At(BitsOf(rbsp), 0, Printed(Elements264(FAR_OFFSET)))
    ensures FAR_OFFSET.Valid() && Cropped(PictureOf264(FAR_OFFSET)) == Dimensions(Size(640, 480))
    ensures DimensionsOf([header] + Escape(rbsp, 0) + tail, false) == NoDimensions
  {
    hide AllShort, DimensionsOf, At, BitsOf, Printed, Escape;
    var r := FAR_OFFSET;
    FarOffsetTooLong();
    var d, e := FrameElements(r.frame), CropElements(r.crop);
    ShortJoin(PocElements(r.poc), d + e);
    ShortJoin([UE(r.frameNum)], PocElements(r.poc) + (d + e));
    ShortJoin(ProfileElements(r), [UE(r.frameNum)] + (PocElements(r.poc) + (d + e)));
    DimensionsOf264(r, header, rbsp, tail);
  }

  lemma ShortJoin(a: seq<Element>, b: seq<Element>)
    ensures AllShort(a + b) <==> AllShort(a) && AllShort(b)
  {
    assert forall e :: e in a + b <==> e in a || e in b;
  }

  lemma FarOffsetTooLong()
    ensures !AllShort(PocElements(FAR_OFFSET.poc))
  {
    var es := PocHead(FAR_OFFSET.poc);
    ShortJoin(es, Ses([]));
    ShortByIndex(es);
    assert es[2] == SE(0x4000_0000) && !Short(es[2]);
  }

  // -------------------------------------------------------------------- H.265

  datatype ProfileBits = ProfileBits(a: nat, b: nat, c: nat)

  /** The optional profile and level of a sub-layer. */
  datatype SubLayer = SubLayer(hasProfile: bool, profile: ProfileBits, hasLevel: bool, level: nat) {
    predicate Valid() { profile.a < Pow2(32) && profile.b < Pow2(32) && profile.c < Pow2(24) && level < Pow2(8) }
  }

  function LayerOf(l: SubLayer): Layer { Layer(l.hasProfile, l.hasLevel) }

  function LayersOf(ls: seq<SubLayer>): seq<Layer> {
    if ls == [] then [] else [LayerOf(ls[0])] + LayersOf(ls[1..])
  }

  function PresenceElements(ls: seq<SubLayer>): seq<Element> {
    if ls == [] then [] else [Flag(ls[0].hasProfile), Flag(ls[0].hasLevel)] + PresenceElements(ls[1..])
  }

  lemma {:induction false} ReadLayersBack(s: seq<bool>, at: nat, ls: seq<SubLayer>)
    requires At(s, at, Printed(PresenceElements(ls)))
    ensures GetLayers(s, at, |ls|) == Got(LayersOf(ls), at + |Printed(PresenceElements(ls))|) && AllShort(PresenceElements(ls))
    decreases |ls|
  {
    hide GetBits, At, Printed, Coded, AllWellformed;
    One(UE(0));
    if ls != [] {
      var es := [Flag(ls[0].hasProfile), Flag(ls[0].hasLevel)];
      Parts(s, at, es, PresenceElements(ls[1..]));
      ShortByIndex(es);
      ShortFlag(ls[0].hasProfile);
      ShortFlag(ls[0].hasLevel);
      ReadAt(s, at, es, 0);
      ReadAt(s, at, es, 1);
      ReadLayersBack(s, at + |Printed(es)|, ls[1..]);
    }
  }

  function PaddingElements(values: seq<nat>): seq<Element> {
    if values == [] then [] else [U(values[0], 2)] + PaddingElements(values[1..])
  }

  lemma {:induction false} ReadPaddingBack(s: seq<bool>, at: nat, values: seq<nat>)
    requires At(s, at, Printed(PaddingElements(values))) && forall v :: v in values ==> v < 4
    ensures SkipPairs(s, at, |values|) == Got(0, at + |Printed(PaddingElements(values))|) && AllShort(PaddingElements(values))
    decreases |values|
  {
    hide GetBits, At, Printed, Coded, AllWellformed;
    One(UE(0));
    if values != [] {
      var e := U(values[0], 2);
      Parts(s, at, [e], PaddingElements(values[1..]));
      One(e);
      assert Pow2(2) == 4 && values[0] in values;
      ReadAt(s, at, [e], 0);
      assert forall v :: v in values[1..] ==> v in values;
      ReadPaddingBack(s, at + |Printed([e])|, values[1..]);
    }
  }

  function ProfileBody(l: SubLayer): seq<Element> {
    if l.hasProfile then [U(l.profile.a, 32), U(l.profile.b, 32), U(l.profile.c, 24)] else []
  }

  function LevelBody(l: SubLayer): seq<Element> { if l.hasLevel then [U(l.level, 8)] else [] }

  function BodyElements(ls: seq<SubLayer>): seq<Element> {
    if ls == [] then [] else ProfileBody(ls[0]) + (LevelBody(ls[0]) + BodyElements(ls[1..]))
  }

  lemma ReadBodyBack(s: seq<bool>, at: nat, l: SubLayer)
    requires At(s, at, Printed(ProfileBody(l))) && l.Valid()
    ensures SkipProfile(s, at, l.hasProfile).Got? && SkipProfile(s, at, l.hasProfile).next == at + |Printed(ProfileBody(l))| && AllShort(ProfileBody(l))
  {
    hide GetBits, At, Printed, Coded, AllWellformed, Pow2;
    One(UE(0));
    var es := ProfileBody(l);
    ShortByIndex(es);
    if l.hasProfile {
      ReadAt(s, at, es, 0);
      ReadAt(s, at, es, 1);
      ReadAt(s, at, es, 2);
    }
  }

  lemma ReadLevelBack(s: seq<bool>, at: nat, l: SubLayer)
    requires At(s, at, Printed(LevelBody(l))) && l.Valid()
    ensures SkipLevel(s, at, l.hasLevel).Got? && SkipLevel(s, at, l.hasLevel).next == at + |Printed(LevelBody(l))| && AllShort(LevelBody(l))
  {
    hide GetBits, At, Printed, Coded, AllWellformed, Pow2;
    One(U(l.level, 8));
    One(UE(0));
    if l.hasLevel { ReadAt(s, at, LevelBody(l), 0); }
  }

  lemma {:induction false} ReadBodiesBack(s: seq<bool>, at: nat, ls: seq<SubLayer>)
    requires At(s, at, Printed(BodyElements(ls))) && forall l :: l in ls ==> l.Valid()
    ensures SkipLayers(s, at, LayersOf(ls)) == Got(0, at + |Printed(BodyElements(ls))|) && AllShort(BodyElements(ls))
    decreases |ls|
  {
    hide GetBits, At, Printed, Coded, AllWellformed, AllShort, SkipProfile, SkipLevel, ProfileBody, LevelBody;
    One(UE(0));
    if ls != [] {
      var a, b, c := ProfileBody(ls[0]), LevelBody(ls[0]), BodyElements(ls[1..]);
      Parts(s, at, a, b + c);
      Parts(s, at + |Printed(a)|, b, c);
      assert ls[0] in ls;
      ReadBodyBack(s, at, ls[0]);
      ReadLevelBack(s, at + |Printed(a)|, ls[0]);
      ReadBodiesBack(s, at + |Printed(a)| + |Printed(b)|, ls[1..]);
      assert LayersOf(ls)[1..] == LayersOf(ls[1..]);
    }
  }

  datatype Tiers = Tiers(vps: nat, nesting: bool, a: nat, b: nat, c: nat, layers: seq<SubLayer>, padding: seq<nat>) {
    predicate Valid() {
      && vps < Pow2(4) && a < Pow2(32) && b < Pow2(32) && c < Pow2(32) && |layers| < 8
      && (forall l :: l in layers ==> l.Valid()) && |padding| == Padding(|layers|) && (forall v :: v in padding ==> v < 4)
    }
  }

  function TiersHead(t: Tiers): seq<Element> { [U(t.vps, 4), U(|t.layers|, 3), Flag(t.nesting), U(t.a, 32), U(t.b, 32), U(t.c, 32)] }

  function TiersElements(t: Tiers): seq<Element> {
    TiersHead(t) + (PresenceElements(t.layers) + (PaddingElements(t.padding) + BodyElements(t.layers)))
  }

  lemma ReadTiersHead(s: seq<bool>, at: nat, t: Tiers)
    requires At(s, at, Printed(TiersHead(t))) && t.Valid()
    ensures AllShort(TiersHead(t))
    ensures exists o: seq<nat> :: |o| == 5
              && GetBits(s, at, 4) == Got(t.vps, o[0]) && GetBits(s, o[0], 3) == Got(|t.layers|, o[1])
              && GetBits(s, o[1], 1) == Got(if t.nesting then 1 else 0, o[2]) && GetBits(s, o[2], 32) == Got(t.a, o[3])
              && GetBits(s, o[3], 32) == Got(t.b, o[4]) && GetBits(s, o[4], 32) == Got(t.c, at + |Printed(TiersHead(t))|)
  {
    hide GetBits, Printed, At, Coded, AllWellformed, Pow2;
    var es := TiersHead(t);
    ShortByIndex(es);
    ThreeBits();
    ShortFlag(t.nesting);
    ReadAt(s, at, es, 0);
    ReadAt(s, at, es, 1);
    ReadAt(s, at, es, 2);
    ReadAt(s, at, es, 3);
    ReadAt(s, at, es, 4);
    ReadAt(s, at, es, 5);
    var o := [at + Off(es, 1), at + Off(es, 2), at + Off(es, 3), at + Off(es, 4), at + Off(es, 5)];
    assert GetBits(s, o[4], 32) == Got(t.c, at + |Printed(es)|);
  }

  lemma ReadTiersBack(s: seq<bool>, at: nat, t: Tiers)
    requires At(s, at, Printed(TiersElements(t))) && t.Valid()
    ensures GetTiers(s, at).Got? && GetTiers(s, at).next == at + |Printed(TiersElements(t))| && AllShort(TiersElements(t))
  {
    hide GetBits, GetLayers, SkipPairs, SkipLayers, Printed, At, Coded, AllShort, AllWellformed, Pow2, TiersHead, PresenceElements, PaddingElements, BodyElements;
    var es, b, c, d := TiersHead(t), PresenceElements(t.layers), PaddingElements(t.padding), BodyElements(t.layers);
    Parts(s, at, es, b + (c + d));
    var p := at + |Printed(es)|;
    Parts(s, p, b, c + d);
    var q := p + |Printed(b)|;
    Parts(s, q, c, d);
    ReadTiersHead(s, at, t);
    ReadLayersBack(s, p, t.layers);
    ReadPaddingBack(s, q, t.padding);
    ReadBodiesBack(s, q + |Printed(c)|, t.layers);
  }

  lemma ThreeBits()
    ensures Pow2(3) == 8
  {
  }

  datatype Sps265 = Sps265(tiers: Tiers, id: nat, chroma: nat, separate: bool, width: nat, height: nat, crop: Crop) {
    predicate Valid() { tiers.Valid() && (chroma != 3 ==> !separate) }
  }

  function Elements265(r: Sps265): seq<Element> {
    TiersElements(r.tiers) + ([UE(r.id)] + ([UE(r.chroma)] + (IfElements(r.chroma == 3, r.separate)
                           + ([UE(r.width)] + ([UE(r.height)] + CropElements(r.crop))))))
  }

  function PictureOf265(r: Sps265): Picture {
    Picture(Format(r.chroma, r.separate), Size(r.width, r.height), true, CropValues(r.crop))
  }

  lemma ReadPicture265Back(s: seq<bool>, at: nat, r: Sps265)
    requires At(s, at, Printed(Elements265(r))) && r.Valid()
    ensures AllShort(Elements265(r)) ==> GetPicture265(s, at).Got? && GetPicture265(s, at).value == PictureOf265(r)
    ensures !AllShort(Elements265(r)) ==> GetPicture265(s, at).Fail?
  {
    hide GetUe, GetTiers, GetIf, GetCrop, Printed, At, AllShort, AllWellformed, TiersElements, IfElements, CropElements;
    var a, b, c, d := TiersElements(r.tiers), [UE(r.id)], [UE(r.chroma)], IfElements(r.chroma == 3, r.separate);
    var e, f, g := [UE(r.width)], [UE(r.height)], CropElements(r.crop);
    Parts(s, at, a, b + (c + (d + (e + (f + g)))));
    var p := at + |Printed(a)|;
    Parts(s, p, b, c + (d + (e + (f + g))));
    var q := p + |Printed(b)|;
    Parts(s, q, c, d + (e + (f + g)));
    var t := q + |Printed(c)|;
    Parts(s, t, d, e + (f + g));
    var u := t + |Printed(d)|;
    Parts(s, u, e, f + g);
    var v := u + |Printed(e)|;
    Parts(s, v, f, g);
    ReadTiersBack(s, at, r.tiers);
    ReadUeBack(s, p, r.id);
    ReadUeBack(s, q, r.chroma);
    ReadIfBack(s, t, r.chroma == 3, r.separate);
    ReadUeBack(s, u, r.width);
    ReadUeBack(s, v, r.height);
    ReadCropBack(s, v + |Printed(f)|, r.crop);
  }

  /** The size by section 7.4.3.2.1 of H.265: picture width
      and height less the conformance window, in chroma units. */
  lemma Size265(r: Sps265)
    requires r.Valid()
    ensures var arrays := if r.separate then 0 else r.chroma;
            var unitX, unitY := if arrays == 0 then 1 else SubWidthC(arrays), if arrays == 0 then 1 else SubHeightC(arrays);
            var x := match r.crop case NoCrop => 0 case Crop(left, right, _, _) => unitX * (left + right);
            var y := match r.crop case NoCrop => 0 case Crop(_, _, top, bottom) => unitY * (top + bottom);
            Cropped(PictureOf265(r)) == if r.chroma <= 3 && x < r.width <= 16384 && y < r.height <= 16384
                                        then Dimensions(Size(r.width - x, r.height - y)) else NoDimensions
  {
    if r.chroma <= 3 {
      var p := PictureOf265(r);
      CropUnitsAreStandard(p);
      Commuted(p.crop[0] + p.crop[1], CropUnits(p).width);
      Commuted(p.crop[2] + p.crop[3], CropUnits(p).height);
    }
  }

  lemma Commuted(a: nat, b: nat)
    ensures a * b == b * a
  {
  }

  function Answer265(r: Sps265): Dimensions
    requires r.Valid()
  {
    if AllShort(Elements265(r)) then Cropped(PictureOf265(r)) else NoDimensions
  }

  /** The same for every H.265 parameter record. */
  lemma DimensionsOf265(r: Sps265, header: seq<Byte>, rbsp: seq<Byte>, tail: seq<Byte>)
    requires r.Valid() && |header| == 2 && At(BitsOf(rbsp), 0, Printed(Elements265(r)))
    ensures DimensionsOf(header + Escape(rbsp, 0) + tail, true) == Answer265(r)
  {
    hide GetPicture265, BitsOf, AllShort, Printed, Elements265, At, Rbsp;
    RecordStays(rbsp, tail, header, Printed(Elements265(r)), true);
    ReadPicture265Back(Rbsp(header + Escape(rbsp, 0) + tail, true), 0, r);
  }

  /** For pictures the parser accepts at all, no code of an H.265 record that
      the dimensions depend on is too long, so only the id could fail. */
  lemma SmallPicturesAreShort(r: Sps265)
    requires r.Valid() && Cropped(PictureOf265(r)).Dimensions? && r.id <= MAX_CODE
    ensures AllShort(Elements265(r))
  {
    ShortTiers(r.tiers);
    var d, g := IfElements(r.chroma == 3, r.separate), CropElements(r.crop);
    ShortByIndex(d);
    ShortByIndex(g);
    ShortByIndex([UE(r.id)]);
    ShortByIndex([UE(r.chroma)]);
    ShortByIndex([UE(r.width)]);
    ShortByIndex([UE(r.height)]);
    if r.crop.Crop? { CropSmall(r); }
  }

  lemma CropSmall(r: Sps265)
    requires Cropped(PictureOf265(r)).Dimensions? && r.crop.Crop?
    ensures r.crop.left <= MAX_DIMENSION && r.crop.right <= MAX_DIMENSION && r.crop.top <= MAX_DIMENSION && r.crop.bottom <= MAX_DIMENSION
  {
    var units := CropUnits(PictureOf265(r));
    assert (r.crop.left + r.crop.right) * units.width < r.width;
    assert (r.crop.top + r.crop.bottom) * units.height < r.height;
  }

  lemma ShortTiers(t: Tiers)
    ensures AllShort(TiersElements(t))
  {
    ShortByIndex(TiersHead(t));
    ShortPresence(t.layers);
    ShortPadding(t.padding);
    ShortBodies(t.layers);
  }

  lemma {:induction false} ShortPresence(ls: seq<SubLayer>)
    ensures AllShort(PresenceElements(ls))
  {
    if ls != [] { ShortPresence(ls[1..]); }
  }

  lemma {:induction false} ShortPadding(values: seq<nat>)
    ensures AllShort(PaddingElements(values))
  {
    if values != [] { ShortPadding(values[1..]); }
  }

  lemma {:induction false} ShortBodies(ls: seq<SubLayer>)
    ensures AllShort(BodyElements(ls))
  {
    if ls != [] { ShortBodies(ls[1..]); }
  }
}
