/** Picture dimensions from a sequence parameter set (sections 7.3.2.1.1 and
    7.4.2.1.1 of ITU-T H.264, sections 7.3.2.2 and 7.3.3 of ITU-T H.265). */
module SpsParser {
  import opened EmulationPrevention
  import opened ExpGolomb

  /** What the dimensions depend on. */
  datatype Format = Format(chroma: nat, separate: bool)

  datatype Size = Size(width: nat, height: nat)

  datatype Picture = Picture(format: Format, coded: Size, frameMbsOnly: bool, crop: seq<nat>)

  datatype Dimensions = NoDimensions | Dimensions(size: Size)

  const MAX_DIMENSION: nat := 16384

  /** The cropping units of the standards, from ChromaArrayType. */
  function CropUnits(p: Picture): Size {
    var kind := if p.format.separate then 0 else p.format.chroma;
    Size(if kind == 1 || kind == 2 then 2 else 1, (if kind == 1 then 2 else 1) * if p.frameMbsOnly then 1 else 2)
  }

  function Cropped(p: Picture): Dimensions
    requires |p.crop| == 4
  {
    var units := CropUnits(p);
    var x, y := (p.crop[0] + p.crop[1]) * units.width, (p.crop[2] + p.crop[3]) * units.height;
    if p.format.chroma <= 3 && p.coded.width > x && p.coded.height > y && p.coded.width <= MAX_DIMENSION && p.coded.height <= MAX_DIMENSION
    then Dimensions(Size(p.coded.width - x, p.coded.height - y)) else NoDimensions
  }

  // ------------------------------------------------------------ syntax elements

  /** u(n), ue(v) and se(v). */
  datatype Element = U(value: nat, width: nat) | UE(code: nat) | SE(number: int)

  predicate Wellformed(e: Element) { e.U? ==> e.width <= 32 && e.value < Pow2(e.width) }

  function Coded(e: Element): seq<bool> {
    match e case U(v, n) => ToBits(v, n) case UE(v) => UeBits(v) case SE(x) => UeBits(SeCode(x))
  }

  /** Whether the reader can decode the element. */
  predicate Short(e: Element) {
    match e case U(_, _) => true case UE(v) => v <= MAX_CODE case SE(x) => SeCode(x) <= MAX_CODE
  }

  function Printed(es: seq<Element>): seq<bool> {
    if es == [] then [] else Coded(es[0]) + Printed(es[1..])
  }

  lemma {:induction false} PrintedJoin(a: seq<Element>, b: seq<Element>)
    ensures Printed(a + b) == Printed(a) + Printed(b)
  {
    hide Coded;
    if a == [] {
      assert a + b == b;
    } else {
      PrintedJoin(a[1..], b);
      assert (a + b)[0] == a[0] && (a + b)[1..] == a[1..] + b;
      assert Coded(a[0]) + (Printed(a[1..]) + Printed(b)) == Coded(a[0]) + Printed(a[1..]) + Printed(b);
    }
  }

  /** `es` stands printed at `at`; reading its first element leaves the rest. */
  lemma ReadElement(s: seq<bool>, at: nat, es: seq<Element>)
    requires es != [] && At(s, at, Printed(es)) && Wellformed(es[0])
    ensures var e := es[0]; var next := at + |Coded(e)|;
            && At(s, next, Printed(es[1..]))
            && (e.U? ==> GetBits(s, at, e.width) == Got(e.value, next))
            && (e.UE? ==> GetUe(s, at) == if Short(e) then Got(e.code, next) else Fail)
            && (e.SE? ==> GetSe(s, at) == if Short(e) then Got(e.number, next) else Fail)
  {
    var e := es[0];
    AtSplit(s, at, Coded(e), Printed(es[1..]));
    match e
    case U(v, n) => BitsDecode(s, at, v, n);
    case UE(v) => UeDecodes(s, at, v);
    case SE(x) => SeDecodes(s, at, x);
  }

  // -------------------------------------------------------- what is read, H.264

  function GetIf(s: seq<bool>, at: nat, present: bool): Parsed<nat> {
    if present then GetBits(s, at, 1) else Got(0, at)
  }

  /** A scaling list: deltas until one makes the next scale zero. */
  function GetList(s: seq<bool>, at: nat, j: nat, size: nat, last: nat, next: nat): Parsed<nat>
    decreases size - j
  {
    if j >= size then Got(0, at)
    else if next == 0 then GetList(s, at, j + 1, size, last, 0)
    else
      var d :- GetSe(s, at);
      var n := (last + d.value) % 256;
      GetList(s, d.next, j + 1, size, if n != 0 then n else last, n)
  }

  function ListSize(i: nat): nat { if i < 6 then 16 else 64 }

  function GetLists(s: seq<bool>, at: nat, i: nat, count: nat): Parsed<nat>
    decreases count - i
  {
    if i >= count then Got(0, at)
    else
      var present :- GetBits(s, at, 1);
      if present.value == 0 then GetLists(s, present.next, i + 1, count)
      else
        var list :- GetList(s, present.next, 0, ListSize(i), 8, 8);
        GetLists(s, list.next, i + 1, count)
  }

  function ListCount(chroma: nat): nat { if chroma == 3 then 12 else 8 }

  function GetListsIf(s: seq<bool>, at: nat, present: bool, chroma: nat): Parsed<nat> {
    if present then GetLists(s, at, 0, ListCount(chroma)) else Got(0, at)
  }

  function GetHigh(s: seq<bool>, at: nat): Parsed<Format> {
    var chroma :- GetUe(s, at);
    var separate :- GetIf(s, chroma.next, chroma.value == 3);
    var luma :- GetUe(s, separate.next);
    var depth :- GetUe(s, luma.next);
    var bypass :- GetBits(s, depth.next, 1);
    var matrix :- GetBits(s, bypass.next, 1);
    var lists :- GetListsIf(s, matrix.next, matrix.value == 1, chroma.value);
    Got(Format(chroma.value, separate.value == 1), lists.next)
  }

  predicate HighProfile(p: nat) {
    p == 100 || p == 110 || p == 122 || p == 244 || p == 44 || p == 83 || p == 86 || p == 118 || p == 128
    || p == 138 || p == 139 || p == 134 || p == 135
  }

  function GetProfile(s: seq<bool>, at: nat): Parsed<Format> {
    var profile :- GetBits(s, at, 8);
    var level :- GetBits(s, profile.next, 16);
    var id :- GetUe(s, level.next);
    if HighProfile(profile.value) then GetHigh(s, id.next) else Got(Format(1, false), id.next)
  }

  function GetSes(s: seq<bool>, at: nat, count: nat): Parsed<nat>
    decreases count
  {
    if count == 0 then Got(0, at)
    else
      var x :- GetSe(s, at);
      GetSes(s, x.next, count - 1)
  }

  const MAX_CYCLE: nat := 255

  function GetPoc(s: seq<bool>, at: nat): Parsed<nat> {
    var kind :- GetUe(s, at);
    if kind.value == 0 then GetUe(s, kind.next)
    else if kind.value == 1 then
      var always :- GetBits(s, kind.next, 1);
      var nonRef :- GetSe(s, always.next);
      var topBottom :- GetSe(s, nonRef.next);
      var count :- GetUe(s, topBottom.next);
      if count.value > MAX_CYCLE then Fail else GetSes(s, count.next, count.value)
    else if kind.value == 2 then Got(0, kind.next)
    else Fail
  }

  datatype Frame = Frame(coded: Size, mbsOnly: bool)

  const MAX_UNITS: nat := 1023

  function GetFrame(s: seq<bool>, at: nat): Parsed<Frame> {
    var refs :- GetUe(s, at);
    var gaps :- GetBits(s, refs.next, 1);
    var w :- GetUe(s, gaps.next);
    var h :- GetUe(s, w.next);
    if w.value > MAX_UNITS || h.value > MAX_UNITS then Fail
    else
      var only :- GetBits(s, h.next, 1);
      var adaptive :- GetIf(s, only.next, only.value == 0);
      var direct :- GetBits(s, adaptive.next, 1);
      Got(Frame(Size((w.value + 1) * 16, (h.value + 1) * 16 * if only.value != 0 then 1 else 2), only.value != 0), direct.next)
  }

  function GetCrop(s: seq<bool>, at: nat): (r: Parsed<seq<nat>>)
    ensures r.Got? ==> |r.value| == 4
  {
    var flag :- GetBits(s, at, 1);
    if flag.value == 0 then Got([0, 0, 0, 0], flag.next)
    else
      var a :- GetUe(s, flag.next);
      var b :- GetUe(s, a.next);
      var c :- GetUe(s, b.next);
      var d :- GetUe(s, c.next);
      Got([a.value, b.value, c.value, d.value], d.next)
  }

  function GetPicture264(s: seq<bool>, at: nat): (r: Parsed<Picture>)
    ensures r.Got? ==> |r.value.crop| == 4
  {
    var format :- GetProfile(s, at);
    var frameNum :- GetUe(s, format.next);
    var poc :- GetPoc(s, frameNum.next);
    var frame :- GetFrame(s, poc.next);
    var crop :- GetCrop(s, frame.next);
    Got(Picture(format.value, frame.value.coded, frame.value.mbsOnly, crop.value), crop.next)
  }

  // -------------------------------------------------------- what is read, H.265

  datatype Layer = Layer(profile: bool, level: bool)

  function GetLayers(s: seq<bool>, at: nat, count: nat): Parsed<seq<Layer>>
    decreases count
  {
    if count == 0 then Got([], at)
    else
      var profile :- GetBits(s, at, 1);
      var level :- GetBits(s, profile.next, 1);
      var rest :- GetLayers(s, level.next, count - 1);
      Got([Layer(profile.value == 1, level.value == 1)] + rest.value, rest.next)
  }

  function SkipPairs(s: seq<bool>, at: nat, count: nat): Parsed<nat>
    decreases count
  {
    if count == 0 then Got(0, at)
    else
      var pair :- GetBits(s, at, 2);
      SkipPairs(s, pair.next, count - 1)
  }

  function SkipProfile(s: seq<bool>, at: nat, present: bool): Parsed<nat> {
    if !present then Got(0, at)
    else
      var a :- GetBits(s, at, 32);
      var b :- GetBits(s, a.next, 32);
      GetBits(s, b.next, 24)
  }

  function SkipLevel(s: seq<bool>, at: nat, present: bool): Parsed<nat> {
    if present then GetBits(s, at, 8) else Got(0, at)
  }

  function SkipLayers(s: seq<bool>, at: nat, layers: seq<Layer>): Parsed<nat>
    decreases |layers|
  {
    if layers == [] then Got(0, at)
    else
      var profile :- SkipProfile(s, at, layers[0].profile);
      var level :- SkipLevel(s, profile.next, layers[0].level);
      SkipLayers(s, level.next, layers[1..])
  }

  function Padding(layers: nat): nat { if layers > 0 && layers <= 8 then 8 - layers else 0 }

  function GetTiers(s: seq<bool>, at: nat): Parsed<nat> {
    var vps :- GetBits(s, at, 4);
    var count :- GetBits(s, vps.next, 3);
    var nesting :- GetBits(s, count.next, 1);
    var a :- GetBits(s, nesting.next, 32);
    var b :- GetBits(s, a.next, 32);
    var c :- GetBits(s, b.next, 32);
    var layers :- GetLayers(s, c.next, count.value);
    var padding :- SkipPairs(s, layers.next, Padding(count.value));
    SkipLayers(s, padding.next, layers.value)
  }

  function GetPicture265(s: seq<bool>, at: nat): (r: Parsed<Picture>)
    ensures r.Got? ==> |r.value.crop| == 4
  {
    var tiers :- GetTiers(s, at);
    var id :- GetUe(s, tiers.next);
    var chroma :- GetUe(s, id.next);
    var separate :- GetIf(s, chroma.next, chroma.value == 3);
    var w :- GetUe(s, separate.next);
    var h :- GetUe(s, w.next);
    var crop :- GetCrop(s, h.next);
    Got(Picture(Format(chroma.value, separate.value == 1), Size(w.value, h.value), true, crop.value), crop.next)
  }

  function Outcome(p: Parsed<Picture>): Dimensions
    requires p.Got? ==> |p.value.crop| == 4
  {
    if p.Fail? then NoDimensions else Cropped(p.value)
  }

  // ------------------------------------------------------------- the parser

  method ReadIf(r: BitReader, present: bool) returns (v: nat)
    modifies r
    ensures r.error <==> old(r.error) || GetIf(r.Bits(), old(r.bit), present).Fail?
    ensures !r.error ==> GetIf(r.Bits(), old(r.bit), present) == Got(v, r.bit)
  {
    v := 0;
    if present { v := r.Read(1); }
  }

  method ReadList(r: BitReader, size: nat)
    modifies r
    ensures r.error <==> old(r.error) || GetList(r.Bits(), old(r.bit), 0, size, 8, 8).Fail?
    ensures !r.error ==> GetList(r.Bits(), old(r.bit), 0, size, 8, 8) == Got(0, r.bit)
  {
    hide GetSe;
    var last, next := 8, 8;
    for j := 0 to size
      invariant 0 <= last && 0 <= next
      invariant old(r.error) ==> r.error
      invariant r.error ==> old(r.error) || GetList(r.Bits(), old(r.bit), 0, size, 8, 8).Fail?
      invariant !r.error ==> GetList(r.Bits(), old(r.bit), 0, size, 8, 8) == GetList(r.Bits(), r.bit, j, size, last, next)
    {
      if next != 0 {
        var delta := r.Se();
        next := (last + delta) % 256;
        last := if next != 0 then next else last;
      }
    }
  }

  method ReadLists(r: BitReader, count: nat)
    modifies r
    ensures r.error <==> old(r.error) || GetLists(r.Bits(), old(r.bit), 0, count).Fail?
    ensures !r.error ==> GetLists(r.Bits(), old(r.bit), 0, count) == Got(0, r.bit)
  {
    hide GetList, GetBits;
    for i := 0 to count
      invariant old(r.error) ==> r.error
      invariant r.error ==> old(r.error) || GetLists(r.Bits(), old(r.bit), 0, count).Fail?
      invariant !r.error ==> GetLists(r.Bits(), old(r.bit), 0, count) == GetLists(r.Bits(), r.bit, i, count)
    {
      var present := r.Read(1);
      if present != 0 { ReadList(r, if i < 6 then 16 else 64); }
    }
  }

  method ReadHigh(r: BitReader) returns (f: Format)
    modifies r
    ensures r.error <==> old(r.error) || GetHigh(r.Bits(), old(r.bit)).Fail?
    ensures !r.error ==> GetHigh(r.Bits(), old(r.bit)) == Got(f, r.bit)
  {
    hide GetUe, GetBits, GetIf, GetLists;
    var chroma := r.Ue();
    var separate := ReadIf(r, chroma == 3);
    var luma := r.Ue();
    var depth := r.Ue();
    var bypass := r.Read(1);
    var matrix := r.Read(1);
    if matrix == 1 { ReadLists(r, if chroma == 3 then 12 else 8); }
    f := Format(chroma, separate == 1);
  }

  method ReadProfile(r: BitReader) returns (f: Format)
    modifies r
    ensures r.error <==> old(r.error) || GetProfile(r.Bits(), old(r.bit)).Fail?
    ensures !r.error ==> GetProfile(r.Bits(), old(r.bit)) == Got(f, r.bit)
  {
    hide GetUe, GetBits, GetHigh;
    f := Format(1, false);
    var profile := r.Read(8);
    var level := r.Read(16);
    var id := r.Ue();
    if HighProfile(profile) { f := ReadHigh(r); }
  }

  method ReadPoc(r: BitReader)
    modifies r
    ensures r.error <==> old(r.error) || GetPoc(r.Bits(), old(r.bit)).Fail?
    ensures !r.error ==> GetPoc(r.Bits(), old(r.bit)).next == r.bit
  {
    hide GetUe, GetBits, GetSe;
    var kind := r.Ue();
    if kind == 0 {
      var log2 := r.Ue();
    } else if kind == 1 {
      var always := r.Read(1);
      var nonRef := r.Se();
      var topBottom := r.Se();
      var count := r.Ue();
      if count > MAX_CYCLE { r.error := true; } else { ReadSes(r, count); }
    } else if kind > 2 {
      r.error := true;
    }
  }

  method ReadSes(r: BitReader, count: nat)
    modifies r
    ensures r.error <==> old(r.error) || GetSes(r.Bits(), old(r.bit), count).Fail?
    ensures !r.error ==> GetSes(r.Bits(), old(r.bit), count) == Got(0, r.bit)
  {
    hide GetSe;
    for i := 0 to count
      invariant old(r.error) ==> r.error
      invariant r.error ==> old(r.error) || GetSes(r.Bits(), old(r.bit), count).Fail?
      invariant !r.error ==> GetSes(r.Bits(), old(r.bit), count) == GetSes(r.Bits(), r.bit, count - i)
    {
      var x := r.Se();
    }
  }

  method ReadFrame(r: BitReader) returns (f: Frame)
    modifies r
    ensures r.error <==> old(r.error) || GetFrame(r.Bits(), old(r.bit)).Fail?
    ensures !r.error ==> GetFrame(r.Bits(), old(r.bit)) == Got(f, r.bit)
  {
    hide GetUe, GetBits, GetIf;
    var refs := r.Ue();
    var gaps := r.Read(1);
    var wm := r.Ue();
    var hm := r.Ue();
    if wm > MAX_UNITS || hm > MAX_UNITS { r.error := true; }
    var w, h := (wm + 1) * 16, (hm + 1) * 16;
    var only := r.Read(1);
    var adaptive := ReadIf(r, only == 0);
    h := h * if only != 0 then 1 else 2;
    var direct := r.Read(1);
    f := Frame(Size(w, h), only != 0);
  }

  method ReadCrop(r: BitReader) returns (crop: seq<nat>)
    modifies r
    ensures |crop| == 4
    ensures r.error <==> old(r.error) || GetCrop(r.Bits(), old(r.bit)).Fail?
    ensures !r.error ==> GetCrop(r.Bits(), old(r.bit)) == Got(crop, r.bit)
  {
    hide GetUe, GetBits;
    crop := [0, 0, 0, 0];
    var flag := r.Read(1);
    if flag != 0 {
      var a := r.Ue();
      var b := r.Ue();
      var c := r.Ue();
      var d := r.Ue();
      crop := [a, b, c, d];
    }
  }

  method ReadPicture264(r: BitReader) returns (p: Picture)
    modifies r
    ensures |p.crop| == 4
    ensures r.error <==> old(r.error) || GetPicture264(r.Bits(), old(r.bit)).Fail?
    ensures !r.error ==> GetPicture264(r.Bits(), old(r.bit)) == Got(p, r.bit)
  {
    hide GetUe, GetProfile, GetPoc, GetFrame, GetCrop;
    var format := ReadProfile(r);
    var frameNum := r.Ue();
    ReadPoc(r);
    var frame := ReadFrame(r);
    var crop := ReadCrop(r);
    p := Picture(format, frame.coded, frame.mbsOnly, crop);
  }

  method ReadTiers(r: BitReader)
    modifies r
    ensures r.error <==> old(r.error) || GetTiers(r.Bits(), old(r.bit)).Fail?
    ensures !r.error ==> GetTiers(r.Bits(), old(r.bit)).next == r.bit
  {
    hide GetBits, GetLayers, SkipPairs, SkipLayers;
    var vps := r.Read(4);
    var count := r.Read(3);
    var nesting := r.Read(1);
    var a := r.Read(32);
    var b := r.Read(32);
    var c := r.Read(32);
    var layers := ReadLayers(r, count);
    ReadPadding(r, if count > 0 && count <= 8 then 8 - count else 0);
    ReadSubLayers(r, layers);
  }

  function Prepend(layers: seq<Layer>, p: Parsed<seq<Layer>>): Parsed<seq<Layer>> {
    match p case Fail => Fail case Got(rest, next) => Got(layers + rest, next)
  }

  lemma PrependStep(layers: seq<Layer>, layer: Layer, p: Parsed<seq<Layer>>)
    ensures Prepend([], p) == p
    ensures Prepend(layers + [layer], p) == Prepend(layers, Prepend([layer], p))
    ensures forall at :: Prepend(layers, Got([], at)) == Got(layers, at)
  {
    if p.Got? {
      assert [] + p.value == p.value;
      assert layers + [layer] + p.value == layers + ([layer] + p.value);
    }
    assert layers + [] == layers;
  }

  method ReadLayers(r: BitReader, count: nat) returns (layers: seq<Layer>)
    modifies r
    ensures r.error <==> old(r.error) || GetLayers(r.Bits(), old(r.bit), count).Fail?
    ensures !r.error ==> GetLayers(r.Bits(), old(r.bit), count) == Got(layers, r.bit)
  {
    hide GetBits;
    layers := [];
    PrependStep([], Layer(false, false), GetLayers(r.Bits(), r.bit, count));
    for i := 0 to count
      invariant old(r.error) ==> r.error
      invariant r.error ==> old(r.error) || GetLayers(r.Bits(), old(r.bit), count).Fail?
      invariant !r.error ==> GetLayers(r.Bits(), old(r.bit), count) == Prepend(layers, GetLayers(r.Bits(), r.bit, count - i))
    {
      var profile := r.Read(1);
      var level := r.Read(1);
      PrependStep(layers, Layer(profile == 1, level == 1), GetLayers(r.Bits(), r.bit, count - i - 1));
      layers := layers + [Layer(profile == 1, level == 1)];
    }
    PrependStep(layers, Layer(false, false), Fail);
  }

  method ReadPadding(r: BitReader, count: nat)
    modifies r
    ensures r.error <==> old(r.error) || SkipPairs(r.Bits(), old(r.bit), count).Fail?
    ensures !r.error ==> SkipPairs(r.Bits(), old(r.bit), count) == Got(0, r.bit)
  {
    hide GetBits;
    for i := 0 to count
      invariant old(r.error) ==> r.error
      invariant r.error ==> old(r.error) || SkipPairs(r.Bits(), old(r.bit), count).Fail?
      invariant !r.error ==> SkipPairs(r.Bits(), old(r.bit), count) == SkipPairs(r.Bits(), r.bit, count - i)
    {
      var pair := r.Read(2);
    }
  }

  method ReadSubLayers(r: BitReader, layers: seq<Layer>)
    modifies r
    ensures r.error <==> old(r.error) || SkipLayers(r.Bits(), old(r.bit), layers).Fail?
    ensures !r.error ==> SkipLayers(r.Bits(), old(r.bit), layers) == Got(0, r.bit)
  {
    hide GetBits;
    assert layers[0..] == layers;
    for i := 0 to |layers|
      invariant old(r.error) ==> r.error
      invariant r.error ==> old(r.error) || SkipLayers(r.Bits(), old(r.bit), layers).Fail?
      invariant !r.error ==> SkipLayers(r.Bits(), old(r.bit), layers) == SkipLayers(r.Bits(), r.bit, layers[i..])
    {
      assert layers[i..][1..] == layers[i + 1..];
      if layers[i].profile {
        var a := r.Read(32);
        var b := r.Read(32);
        var c := r.Read(24);
      }
      if layers[i].level { var level := r.Read(8); }
    }
  }

  method ReadPicture265(r: BitReader) returns (p: Picture)
    modifies r
    ensures |p.crop| == 4
    ensures r.error <==> old(r.error) || GetPicture265(r.Bits(), old(r.bit)).Fail?
    ensures !r.error ==> GetPicture265(r.Bits(), old(r.bit)) == Got(p, r.bit)
  {
    hide GetUe, GetTiers, GetIf, GetCrop;
    ReadTiers(r);
    var id := r.Ue();
    var chroma := r.Ue();
    var separate := ReadIf(r, chroma == 3);
    var w := r.Ue();
    var h := r.Ue();
    var crop := ReadCrop(r);
    p := Picture(Format(chroma, separate == 1), Size(w, h), true, crop);
  }

  function Rbsp(nal: seq<Byte>, hevc: bool): seq<bool> {
    var header := if hevc then 2 else 1;
    BitsOf(if header <= |nal| then Unescape(nal[header..], 0) else [])
  }

  function DimensionsOf(nal: seq<Byte>, hevc: bool): Dimensions {
    if hevc then Outcome(GetPicture265(Rbsp(nal, hevc), 0)) else Outcome(GetPicture264(Rbsp(nal, hevc), 0))
  }

  /** spsDimensions. */
  method SpsDimensions(nal: seq<Byte>, hevc: bool) returns (d: Dimensions)
    ensures d == DimensionsOf(nal, hevc)
  {
    hide GetPicture264, GetPicture265, BitsOf;
    var rbsp := RemoveEmulationPrevention(nal, if hevc then 2 else 1);
    var r := new BitReader(rbsp);
    var p: Picture;
    if hevc { p := ReadPicture265(r); } else { p := ReadPicture264(r); }
    if r.error { return NoDimensions; }
    d := Cropped(p);
  }
}
