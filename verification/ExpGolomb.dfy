/** Reading fixed-length and Exp-Golomb codes from a bit string (section 9.1 of
    ITU-T H.264 and section 9.2 of ITU-T H.265). */
module ExpGolomb {
  import opened EmulationPrevention

  function Pow2(n: nat): (p: nat)
    ensures p > 0
  {
    if n == 0 then 1 else 2 * Pow2(n - 1)
  }

  /** Bit `i` of a byte, the most significant first. */
  function Bit(b: Byte, i: nat): bool
    requires i < 8
  {
    b / Pow2(7 - i) % 2 == 1
  }

  function BitsOf(bytes: seq<Byte>): seq<bool> {
    seq(8 * |bytes|, k requires 0 <= k < 8 * |bytes| => Bit(bytes[k / 8], k % 8))
  }

  function Value(s: seq<bool>): nat {
    if s == [] then 0 else 2 * Value(s[..|s| - 1]) + if s[|s| - 1] then 1 else 0
  }

  /** The `n` low bits of `v`, the most significant first. */
  function ToBits(v: nat, n: nat): (s: seq<bool>)
    ensures |s| == n
  {
    if n == 0 then [] else ToBits(v / 2, n - 1) + [v % 2 == 1]
  }

  lemma {:induction false} ValueOfBits(v: nat, n: nat)
    requires v < Pow2(n)
    ensures Value(ToBits(v, n)) == v
  {
    if n > 0 {
      ValueOfBits(v / 2, n - 1);
      assert ToBits(v, n)[..n - 1] == ToBits(v / 2, n - 1);
    }
  }

  lemma {:induction false} ValueBound(s: seq<bool>)
    ensures Value(s) < Pow2(|s|)
  {
    if s != [] { ValueBound(s[..|s| - 1]); }
  }

  lemma {:induction false} LeadingOne(v: nat, n: nat)
    requires Pow2(n) <= v < Pow2(n + 1)
    ensures ToBits(v, n + 1)[0] && Value(ToBits(v, n + 1)[1..]) == v - Pow2(n)
  {
    var s := ToBits(v, n + 1);
    if n == 0 {
      assert ToBits(v / 2, 0) == [] && s == [v % 2 == 1];
      assert s[1..] == [];
    } else {
      LeadingOne(v / 2, n - 1);
      var t := ToBits(v / 2, n);
      assert s == t + [v % 2 == 1];
      assert s[1..][..n - 1] == t[1..];
    }
  }

  function {:tailrecursion false} Log2(v: nat): (n: nat)
    requires v > 0
    ensures Pow2(n) <= v < Pow2(n + 1)
  {
    if v == 1 then 0 else Log2(v / 2) + 1
  }

  function Zeros(n: nat): (s: seq<bool>)
    ensures |s| == n && forall i :: 0 <= i < n ==> !s[i]
  {
    seq(n, _ => false)
  }

  /** The Exp-Golomb code of `v`. */
  function UeBits(v: nat): seq<bool> {
    var n := Log2(v + 1);
    Zeros(n) + ToBits(v + 1, n + 1)
  }

  /** The mapping of signed values to codes. */
  function SeCode(x: int): nat { if x > 0 then 2 * x - 1 else -2 * x }

  function SeValue(code: nat): int { if code % 2 == 1 then code / 2 + 1 else -(code / 2) }

  lemma SignedRoundTrip(x: int)
    ensures SeValue(SeCode(x)) == x
  {
  }

  const MAX_ZEROS: nat := 30
  const MAX_CODE: nat := 0x7FFF_FFFE

  // --------------------------------------------------------------- the decoder

  /** A value and the position after it, or the reader's error. */
  datatype Parsed<+T> = Fail | Got(value: T, next: nat) {
    predicate IsFailure() { Fail? }
    function PropagateFailure<U>(): Parsed<U>
      requires Fail?
    { Fail }
    function Extract(): Parsed<T> { this }
  }

  function GetBits(s: seq<bool>, at: nat, n: nat): Parsed<nat> {
    if n > 32 || at + n > |s| then Fail else Got(Value(s[at..at + n]), at + n)
  }

  /** How many zeros come before the next one; at most `limit` are looked at. */
  function LeadingZeros(s: seq<bool>, at: nat, limit: nat): Parsed<nat>
    decreases limit
  {
    if at >= |s| then Fail
    else if s[at] then Got(0, at + 1)
    else if limit == 0 then Fail
    else match LeadingZeros(s, at + 1, limit - 1)
      case Fail => Fail
      case Got(n, next) => Got(n + 1, next)
  }

  function GetUe(s: seq<bool>, at: nat): Parsed<nat> {
    match LeadingZeros(s, at, MAX_ZEROS)
    case Fail => Fail
    case Got(n, next) =>
      match GetBits(s, next, n)
      case Fail => Fail
      case Got(v, end) => Got(Pow2(n) - 1 + v, end)
  }

  function GetSe(s: seq<bool>, at: nat): Parsed<int> {
    match GetUe(s, at)
    case Fail => Fail
    case Got(v, next) => Got(SeValue(v), next)
  }

  /** `p` stands in `s` at position `at`. */
  predicate At(s: seq<bool>, at: nat, p: seq<bool>) {
    at + |p| <= |s| && s[at..at + |p|] == p
  }

  lemma AtSplit(s: seq<bool>, at: nat, p: seq<bool>, q: seq<bool>)
    requires At(s, at, p + q)
    ensures At(s, at, p) && At(s, at + |p|, q)
  {
    var r := s[at..at + |p + q|];
    assert r[..|p|] == p && r[|p|..] == q;
    assert s[at..at + |p|] == r[..|p|];
    assert s[at + |p|..at + |p| + |q|] == r[|p|..];
  }

  lemma {:induction false} ZerosCounted(s: seq<bool>, at: nat, n: nat, limit: nat)
    requires At(s, at, Zeros(n)) && at + n < |s| && s[at + n]
    ensures LeadingZeros(s, at, limit) == if n <= limit then Got(n, at + n + 1) else Fail
    decreases n
  {
    if n > 0 {
      assert s[at..at + n][0] == s[at];
      if limit > 0 {
        assert s[at + 1..at + n] == s[at..at + n][1..];
        assert Zeros(n)[1..] == Zeros(n - 1);
        ZerosCounted(s, at + 1, n - 1, limit - 1);
      }
    }
  }

  lemma {:induction false} Pow2Monotone(a: nat, b: nat)
    requires a <= b
    ensures Pow2(a) <= Pow2(b)
  {
    if a < b { Pow2Monotone(a, b - 1); }
  }

  lemma Pow2Values()
    ensures Pow2(31) == 0x8000_0000
  {
    assert Pow2(8) == 256;
    assert Pow2(12) == 4096;
    assert Pow2(16) == 65536;
    assert Pow2(20) == 0x10_0000;
    assert Pow2(24) == 0x100_0000;
    assert Pow2(28) == 0x1000_0000;
  }

  lemma CodeLimit(v: nat)
    ensures Log2(v + 1) <= MAX_ZEROS <==> v <= MAX_CODE
  {
    Pow2Values();
    if Log2(v + 1) <= MAX_ZEROS { Pow2Monotone(Log2(v + 1) + 1, 31); } else { Pow2Monotone(31, Log2(v + 1)); }
  }

  /** Every code up to 2^31 - 2 is decoded, and every longer one is an error. */
  lemma UeDecodes(s: seq<bool>, at: nat, v: nat)
    requires At(s, at, UeBits(v))
    ensures GetUe(s, at) == if v <= MAX_CODE then Got(v, at + |UeBits(v)|) else Fail
  {
    hide LeadingZeros, ToBits, Value, Pow2, At, GetBits, Zeros;
    var n := Log2(v + 1);
    AtSplit(s, at, Zeros(n), ToBits(v + 1, n + 1));
    MantissaDecodes(s, at + n, v, n);
    ZerosCounted(s, at, n, MAX_ZEROS);
    CodeLimit(v);
  }

  /** The one that ends the prefix, and the `n` bits after it. */
  lemma MantissaDecodes(s: seq<bool>, at: nat, v: nat, n: nat)
    requires At(s, at, ToBits(v + 1, n + 1)) && Pow2(n) <= v + 1 < Pow2(n + 1)
    ensures at < |s| && s[at]
    ensures n <= 32 ==> GetBits(s, at + 1, n) == Got(v + 1 - Pow2(n), at + 1 + n)
  {
    hide ToBits, Value, Pow2;
    LeadingOne(v + 1, n);
    CodeParts(s, at, ToBits(v + 1, n + 1));
  }

  lemma CodeParts(s: seq<bool>, at: nat, b: seq<bool>)
    requires At(s, at, b) && b != []
    ensures at < |s| && s[at] == b[0] && at + |b| <= |s| && s[at + 1..at + |b|] == b[1..]
  {
    assert s[at] == s[at..at + |b|][0];
    assert s[at + 1..at + |b|] == s[at..at + |b|][1..];
  }

  lemma SeDecodes(s: seq<bool>, at: nat, x: int)
    requires At(s, at, UeBits(SeCode(x)))
    ensures GetSe(s, at) == if SeCode(x) <= MAX_CODE then Got(x, at + |UeBits(SeCode(x))|) else Fail
  {
    UeDecodes(s, at, SeCode(x));
    SignedRoundTrip(x);
  }

  lemma BitsDecode(s: seq<bool>, at: nat, v: nat, n: nat)
    requires At(s, at, ToBits(v, n)) && v < Pow2(n) && n <= 32
    ensures GetBits(s, at, n) == Got(v, at + n)
  {
    ValueOfBits(v, n);
  }

  // ---------------------------------------------------------------- the reader

  lemma SizeOfBits(data: seq<Byte>)
    ensures |BitsOf(data)| == 8 * |data|
  {
  }

  lemma EmptyValue(s: seq<bool>, at: nat)
    ensures at <= |s| ==> Value(s[at..at]) == 0
  {
  }

  /** The next bit, taken from its byte by shifting and masking. */
  lemma OneMore(data: seq<Byte>, start: nat, bit: nat)
    requires start <= bit < 8 * |data|
    ensures |BitsOf(data)| == 8 * |data| && Pow2(7 - bit % 8) > 0
    ensures Value(BitsOf(data)[start..bit + 1]) == Value(BitsOf(data)[start..bit]) * 2 + data[bit / 8] / Pow2(7 - bit % 8) % 2
  {
    hide Bit, Value;
    SnocValue(BitsOf(data), start, bit);
    BitValue(data[bit / 8], bit % 8);
  }

  lemma SnocValue(s: seq<bool>, start: nat, at: nat)
    requires start <= at < |s|
    ensures Value(s[start..at + 1]) == Value(s[start..at]) * 2 + if s[at] then 1 else 0
  {
    var t := s[start..at + 1];
    assert t[..|t| - 1] == s[start..at] && t[|t| - 1] == s[at];
  }

  lemma BitValue(b: Byte, i: nat)
    requires i < 8
    ensures b / Pow2(7 - i) % 2 == if Bit(b, i) then 1 else 0
  {
  }

  class BitReader {
    const data: seq<Byte>
    var bit: nat
    var error: bool

    function Bits(): seq<bool> { BitsOf(data) }

    constructor (data: seq<Byte>)
      ensures this.data == data && bit == 0 && !error
    {
      this.data, bit, error := data, 0, false;
    }

    /** bits: reads up to 32 bits, or sets the error flag. */
    method Read(count: nat) returns (value: nat)
      modifies this
      ensures error <==> old(error) || GetBits(Bits(), old(bit), count).Fail?
      ensures GetBits(Bits(), old(bit), count).Got? ==> GetBits(Bits(), old(bit), count) == Got(value, bit)
      ensures GetBits(Bits(), old(bit), count).Fail? ==> value == 0 && bit == old(bit)
    {
      hide BitsOf, Value;
      SizeOfBits(data);
      EmptyValue(Bits(), bit);
      if count > 32 || bit > |data| * 8 || count > |data| * 8 - bit { error := true; return 0; }
      value := 0;
      ghost var start := bit;
      var left := count;
      while left > 0
        invariant 0 <= left <= count && bit == start + (count - left) && error == old(error)
        invariant start + count <= |data| * 8 && value == Value(Bits()[start..bit])
      {
        OneMore(data, start, bit);
        value := value * 2 + data[bit / 8] / Pow2(7 - bit % 8) % 2;
        bit := bit + 1;
        left := left - 1;
      }
    }

    /** ue. */
    method Ue() returns (v: nat)
      modifies this
      ensures error <==> old(error) || GetUe(Bits(), old(bit)).Fail?
      ensures !error ==> GetUe(Bits(), old(bit)) == Got(v, bit)
    {
      hide BitsOf, LeadingZeros, GetBits, Counted;
      var n, done := 0, false;
      ghost var s, start := Bits(), bit;
      CountStart(s, start);
      while !done && !error
        invariant 0 <= n <= MAX_ZEROS + 1
        invariant old(error) ==> error
        invariant error ==> old(error) || LeadingZeros(s, start, MAX_ZEROS).Fail?
        invariant done ==> !error && LeadingZeros(s, start, MAX_ZEROS) == Got(n, bit)
        invariant !done && !error ==> n <= MAX_ZEROS && Counted(s, start, bit, n)
        decreases if done || error then 0 else 1, MAX_ZEROS + 1 - n
      {
        OneBit(s, bit);
        CountOn(s, start, bit, n, MAX_ZEROS);
        var one := Read(1);
        if !error {
          if one == 1 {
            done := true;
          } else {
            n := n + 1;
            if n > MAX_ZEROS { TooMany(s, start, bit, n, MAX_ZEROS); error := true; }
          }
        }
      }
      if error { return 0; }
      var low := Read(n);
      v := Pow2(n) - 1 + low;
    }

    method Se() returns (x: int)
      modifies this
      ensures error <==> old(error) || GetSe(Bits(), old(bit)).Fail?
      ensures !error ==> GetSe(Bits(), old(bit)) == Got(x, bit)
    {
      var v := Ue();
      x := SeValue(v);
    }
  }

  /** The `n` bits from `at` up to `now` are zeros. */
  ghost predicate Counted(s: seq<bool>, at: nat, now: nat, n: nat) {
    now == at + n && (n > 0 ==> now <= |s|) && forall i :: at <= i < now && i < |s| ==> !s[i]
  }

  lemma CountStart(s: seq<bool>, at: nat)
    ensures Counted(s, at, at, 0)
  {
  }

  lemma OneBit(s: seq<bool>, at: nat)
    ensures at < |s| ==> GetBits(s, at, 1) == Got(if s[at] then 1 else 0, at + 1)
    ensures at >= |s| ==> GetBits(s, at, 1).Fail?
  {
    if at < |s| {
      var one := [s[at]];
      assert s[at..at + 1] == one && one[..0] == [];
      assert Value(one) == if s[at] then 1 else 0;
    }
  }

  lemma CountOn(s: seq<bool>, at: nat, now: nat, n: nat, limit: nat)
    requires Counted(s, at, now, n) && n <= limit
    ensures now < |s| && !s[now] ==> Counted(s, at, now + 1, n + 1)
    ensures now < |s| && s[now] ==> LeadingZeros(s, at, limit) == Got(n, now + 1)
    ensures now >= |s| ==> LeadingZeros(s, at, limit).Fail?
  {
    if now < |s| && s[now] {
      assert s[at..at + n] == Zeros(n);
      ZerosCounted(s, at, n, limit);
    }
    if now >= |s| { AllZeros(s, at, now, n, limit); }
  }

  lemma {:induction false} AllZeros(s: seq<bool>, at: nat, now: nat, n: nat, limit: nat)
    requires Counted(s, at, now, n) && now >= |s|
    ensures LeadingZeros(s, at, limit).Fail?
    decreases n
  {
    if n > 0 && limit > 0 { AllZeros(s, at + 1, now, n - 1, limit - 1); }
  }

  lemma {:induction false} TooMany(s: seq<bool>, at: nat, now: nat, n: nat, limit: nat)
    requires Counted(s, at, now, n) && n > limit
    ensures LeadingZeros(s, at, limit).Fail?
    decreases limit
  {
    if limit > 0 { TooMany(s, at + 1, now, n - 1, limit - 1); }
  }
}
