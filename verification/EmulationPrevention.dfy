/** NAL unit payloads: a 3 is inserted after two zero bytes whenever the next
    byte is at most 3, so that no start code can appear (section 7.3.1 of
    ITU-T H.264 and section 7.3.1.1 of ITU-T H.265). */
module EmulationPrevention {
  type Byte = b: nat | b < 256 witness 0

  function ZerosAfter(zeros: nat, b: Byte): nat { if b == 0 then zeros + 1 else 0 }

  /** The encoder's insertion; `zeros` zero bytes were just written. */
  function Escape(rbsp: seq<Byte>, zeros: nat): seq<Byte> {
    if rbsp == [] then []
    else if zeros == 2 && rbsp[0] <= 3 then [3, rbsp[0]] + Escape(rbsp[1..], ZerosAfter(0, rbsp[0]))
    else [rbsp[0]] + Escape(rbsp[1..], ZerosAfter(zeros, rbsp[0]))
  }

  /** What removing the inserted bytes leaves. */
  function Unescape(data: seq<Byte>, zeros: nat): seq<Byte> {
    if data == [] then []
    else if zeros == 2 && data[0] == 3 then Unescape(data[1..], 0)
    else [data[0]] + Unescape(data[1..], ZerosAfter(zeros, data[0]))
  }

  /** Removal undoes insertion for every byte string. */
  lemma {:induction false} UnescapeEscape(rbsp: seq<Byte>, zeros: nat)
    requires zeros <= 2
    ensures Unescape(Escape(rbsp, zeros), zeros) == rbsp
    decreases |rbsp|
  {
    if rbsp != [] {
      var b, rest := rbsp[0], rbsp[1..];
      if zeros == 2 && b <= 3 {
        var inner := Escape(rest, ZerosAfter(0, b));
        UnescapeEscape(rest, ZerosAfter(0, b));
        assert ([3, b] + inner)[1..] == [b] + inner && ([b] + inner)[1..] == inner;
        assert Unescape([b] + inner, 0) == [b] + rest;
      } else {
        UnescapeEscape(rest, ZerosAfter(zeros, b));
        assert ([b] + Escape(rest, ZerosAfter(zeros, b)))[1..] == Escape(rest, ZerosAfter(zeros, b));
      }
    }
  }

  /** Whatever follows an escaped payload, the payload is recovered first. */
  lemma {:induction false} UnescapeEscapeThen(rbsp: seq<Byte>, zeros: nat, tail: seq<Byte>)
    requires zeros <= 2
    ensures rbsp <= Unescape(Escape(rbsp, zeros) + tail, zeros)
    decreases |rbsp|
  {
    if rbsp != [] {
      var b, rest := rbsp[0], rbsp[1..];
      var escaped := zeros == 2 && b <= 3;
      var next := ZerosAfter(if escaped then 0 else zeros, b);
      var inner := Escape(rest, next) + tail;
      UnescapeEscapeThen(rest, next, tail);
      assert ([b] + inner)[1..] == inner;
      assert escaped ==> Unescape([b] + inner, 0) == [b] + Unescape(inner, next);
      if escaped {
        assert Escape(rbsp, zeros) + tail == [3, b] + inner && ([3, b] + inner)[1..] == [b] + inner;
      } else {
        assert Escape(rbsp, zeros) + tail == [b] + inner;
      }
    }
  }

  /** The first two bytes of a payload are never preceded by two zeros. */
  lemma EscapeStart(rbsp: seq<Byte>)
    ensures var e := Escape(rbsp, 0); |e| >= |rbsp| && (|e| >= 2 ==> |rbsp| >= 2 && e[..2] == rbsp[..2])
  {
    EscapeGrows(rbsp, 0);
    if rbsp != [] {
      var zeros := ZerosAfter(0, rbsp[0]);
      if |rbsp| >= 2 {
        assert Escape(rbsp[1..], zeros) == [rbsp[1]] + Escape(rbsp[1..][1..], ZerosAfter(zeros, rbsp[1]));
      }
    }
  }

  lemma {:induction false} EscapeGrows(rbsp: seq<Byte>, zeros: nat)
    ensures |Escape(rbsp, zeros)| >= |rbsp|
  {
    if rbsp != [] { EscapeGrows(rbsp[1..], ZerosAfter(if zeros == 2 && rbsp[0] <= 3 then 0 else zeros, rbsp[0])); }
  }

  /** An escaped payload holds no start code prefix: after two zero bytes never
      comes a byte below 3. */
  lemma {:induction false} EscapeHasNoStartCode(rbsp: seq<Byte>, zeros: nat, i: nat)
    requires zeros <= 2 && i + 2 < |Escape(rbsp, zeros)|
    ensures var e := Escape(rbsp, zeros); !(e[i] == 0 && e[i + 1] == 0 && e[i + 2] < 3)
    decreases |rbsp|, i
  {
    var e := Escape(rbsp, zeros);
    var b, rest := rbsp[0], rbsp[1..];
    if zeros == 2 && b <= 3 {
      var tail := Escape(rest, ZerosAfter(0, b));
      assert e == [3, b] + tail;
      if i >= 2 { EscapeHasNoStartCode(rest, ZerosAfter(0, b), i - 2); }
      else if i == 1 && b == 0 { OneZeroAhead(rest, 1); }
    } else {
      var tail := Escape(rest, ZerosAfter(zeros, b));
      assert e == [b] + tail;
      if i >= 1 { EscapeHasNoStartCode(rest, ZerosAfter(zeros, b), i - 1); }
      else if b == 0 { OneZeroAhead(rest, zeros + 1); }
    }
  }

  lemma OneZeroAhead(rest: seq<Byte>, zeros: nat)
    requires 1 <= zeros <= 2 && |Escape(rest, zeros)| >= 2
    ensures var e := Escape(rest, zeros); !(e[0] == 0 && e[1] < 3)
  {
    var b := rest[0];
    if zeros == 1 && b == 0 {
      var tail := Escape(rest[1..], 2);
      assert Escape(rest, zeros) == [b] + tail;
      assert tail == Escape(rest[1..], 2) && rest[1..] != [];
    }
  }

  /** The parser's loop over the payload. */
  method RemoveEmulationPrevention(data: seq<Byte>, header: nat) returns (rbsp: seq<Byte>)
    ensures rbsp == if header <= |data| then Unescape(data[header..], 0) else []
  {
    rbsp := [];
    var zeros := 0;
    var i := header;
    while i < |data|
      invariant i >= header
      invariant header <= |data| ==> i <= |data| && Unescape(data[header..], 0) == rbsp + Unescape(data[i..], zeros)
      invariant header > |data| ==> rbsp == []
    {
      assert data[i..][1..] == data[i + 1..];
      if zeros == 2 && data[i] == 3 {
        zeros := 0;
      } else {
        rbsp := rbsp + [data[i]];
        zeros := if data[i] == 0 then zeros + 1 else 0;
      }
      i := i + 1;
    }
  }
}
