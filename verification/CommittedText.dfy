/** Committed text, cut into pieces that fit an event's buffer. */
module CommittedText {
  newtype byte = x: int | 0 <= x < 256

  /** The text buffer of an event holds this many bytes before its NUL. */
  const TEXT_ROOM: nat := 255

  predicate Continuation(b: byte) { b / 64 == 2 }

  /** The bytes of the first character (section 4 of RFC 3629), or none. */
  function FirstLength(s: seq<byte>): (n: nat)
    requires s != []
    ensures n <= |s| && n <= 4
  {
    if s[0] < 0x80 then 1
    else if 0xC2 <= s[0] <= 0xDF && |s| >= 2 && Continuation(s[1]) then 2
    else if 0xE0 <= s[0] <= 0xEF && |s| >= 3 && Continuation(s[1]) && Continuation(s[2])
      && (s[0] == 0xE0 ==> s[1] >= 0xA0) && (s[0] == 0xED ==> s[1] <= 0x9F) then 3
    else if 0xF0 <= s[0] <= 0xF4 && |s| >= 4 && Continuation(s[1]) && Continuation(s[2]) && Continuation(s[3])
      && (s[0] == 0xF0 ==> s[1] >= 0x90) && (s[0] == 0xF4 ==> s[1] <= 0x8F) then 4
    else 0
  }

  predicate ValidUtf8(s: seq<byte>)
    decreases |s|
  {
    s == [] || (FirstLength(s) > 0 && ValidUtf8(s[FirstLength(s)..]))
  }

  // --------------------------------------------------------- what valid text is

  /** The characters: all code points but the surrogates. */
  predicate Character(c: nat) { c < 0xD800 || 0xE000 <= c < 0x11_0000 }

  /** The encoding table of section 3 of RFC 3629. */
  function Utf8(c: nat): (s: seq<byte>)
    requires Character(c)
    ensures 1 <= |s| <= 4
  {
    if c < 0x80 then [c as byte]
    else if c < 0x800 then [(0xC0 + c / 64) as byte, (0x80 + c % 64) as byte]
    else if c < 0x1_0000 then [(0xE0 + c / 4096) as byte, (0x80 + c / 64 % 64) as byte, (0x80 + c % 64) as byte]
    else [(0xF0 + c / 0x4_0000) as byte, (0x80 + c / 4096 % 64) as byte, (0x80 + c / 64 % 64) as byte, (0x80 + c % 64) as byte]
  }

  /** Every encoded character is recognized with its length. */
  lemma CharacterRead(c: nat, rest: seq<byte>)
    requires Character(c)
    ensures FirstLength(Utf8(c) + rest) == |Utf8(c)|
  {
    var s := Utf8(c) + rest;
    assert forall k :: 0 <= k < |Utf8(c)| ==> s[k] == Utf8(c)[k];
  }

  /** Nothing else is: what is recognized is the encoding of a character. */
  lemma CharacterFound(s: seq<byte>) returns (c: nat)
    requires s != [] && FirstLength(s) > 0
    ensures Character(c) && s[..FirstLength(s)] == Utf8(c)
  {
    match FirstLength(s)
    case 1 => c := s[0] as nat;
    case 2 => c := TwoBytes(s[0], s[1]);
    case 3 => c := ThreeBytes(s[0], s[1], s[2]);
    case _ => c := FourBytes(s[0], s[1], s[2], s[3]);
  }

  lemma TwoBytes(a: byte, b: byte) returns (c: nat)
    requires 0xC2 <= a <= 0xDF && Continuation(b)
    ensures 0x80 <= c < 0x800 && Utf8(c) == [a, b]
  {
    c := (a as nat - 0xC0) * 64 + (b as nat - 0x80);
  }

  lemma ThreeBytes(a: byte, b: byte, d: byte) returns (c: nat)
    requires 0xE0 <= a <= 0xEF && Continuation(b) && Continuation(d) && (a == 0xE0 ==> b >= 0xA0) && (a == 0xED ==> b <= 0x9F)
    ensures 0x800 <= c < 0x1_0000 && Character(c) && Utf8(c) == [a, b, d]
  {
    var x, y, z := a as nat - 0xE0, b as nat - 0x80, d as nat - 0x80;
    c := (x * 64 + y) * 64 + z;
    assert c / 64 == x * 64 + y && c % 64 == z;
  }

  lemma FourBytes(a: byte, b: byte, d: byte, e: byte) returns (c: nat)
    requires 0xF0 <= a <= 0xF4 && Continuation(b) && Continuation(d) && Continuation(e) && (a == 0xF0 ==> b >= 0x90) && (a == 0xF4 ==> b <= 0x8F)
    ensures 0x1_0000 <= c < 0x11_0000 && Utf8(c) == [a, b, d, e]
  {
    var w, x, y, z := a as nat - 0xF0, b as nat - 0x80, d as nat - 0x80, e as nat - 0x80;
    var high := (w * 64 + x) * 64 + y;
    c := high * 64 + z;
    assert c / 64 == high && c % 64 == z;
    assert high / 64 == w * 64 + x && high % 64 == y;
    assert c / 4096 == high / 64 && c / 0x4_0000 == w;
  }

  function Encoded(cs: seq<nat>): seq<byte>
    requires forall c :: c in cs ==> Character(c)
  {
    if cs == [] then [] else Utf8(cs[0]) + Encoded(cs[1..])
  }

  /** Valid text is encoded characters. */
  lemma {:induction false} EncodedIsValid(cs: seq<nat>)
    requires forall c :: c in cs ==> Character(c)
    ensures ValidUtf8(Encoded(cs))
  {
    hide Utf8, FirstLength;
    if cs != [] {
      EncodedIsValid(cs[1..]);
      CharacterRead(cs[0], Encoded(cs[1..]));
      assert Encoded(cs)[|Utf8(cs[0])|..] == Encoded(cs[1..]);
    }
  }

  lemma {:induction false} ValidIsEncoded(s: seq<byte>) returns (cs: seq<nat>)
    requires ValidUtf8(s)
    ensures (forall c :: c in cs ==> Character(c)) && Encoded(cs) == s
    decreases |s|
  {
    hide Utf8, FirstLength;
    if s == [] {
      cs := [];
    } else {
      var c := CharacterFound(s);
      var rest := ValidIsEncoded(s[FirstLength(s)..]);
      cs := [c] + rest;
      assert cs[1..] == rest && s == s[..FirstLength(s)] + s[FirstLength(s)..];
    }
  }

  /** A place between two characters. */
  predicate Boundary(s: seq<byte>, k: nat) {
    k == |s| || (k < |s| && !Continuation(s[k]))
  }

  lemma FirstFacts(s: seq<byte>)
    requires ValidUtf8(s) && s != []
    ensures !Continuation(s[0]) && forall k :: 0 < k < FirstLength(s) ==> Continuation(s[k])
  {
  }

  lemma {:induction false} SplitValid(s: seq<byte>, k: nat)
    requires ValidUtf8(s) && Boundary(s, k)
    ensures ValidUtf8(s[..k]) && ValidUtf8(s[k..])
    decreases |s|
  {
    if k == 0 {
      assert s[..0] == [] && s[0..] == s;
    } else {
      var n := FirstLength(s);
      FirstFacts(s);
      SplitValid(s[n..], k - n);
      FirstOfPrefix(s, k);
      assert s[..k][n..] == s[n..][..k - n] && s[k..] == s[n..][k - n..];
    }
  }

  lemma FirstOfPrefix(s: seq<byte>, k: nat)
    requires s != [] && 0 < FirstLength(s) <= k <= |s|
    ensures s[..k] != [] && FirstLength(s[..k]) == FirstLength(s)
  {
  }

  /** No character has four continuation bytes. */
  lemma {:induction false} NoLongRun(s: seq<byte>, k: nat)
    requires ValidUtf8(s) && k + 4 <= |s|
    ensures exists j :: k <= j < k + 4 && !Continuation(s[j])
    decreases |s|
  {
    var n := FirstLength(s);
    FirstFacts(s);
    if k >= n {
      NoLongRun(s[n..], k - n);
      var j :| k - n <= j < k - n + 4 && !Continuation(s[n..][j]);
      assert !Continuation(s[n + j]);
    } else if k > 0 {
      FirstFacts(s[n..]);
      assert !Continuation(s[n]);
    }
  }

  // ------------------------------------------------------------------- the cut

  /** The search for a place to cut, downwards; -1 stands for running off the
      start of the text. */
  function CutFrom(s: seq<byte>, count: int): (c: int)
    requires -1 <= count <= |s|
    ensures -1 <= c <= count
    ensures c == -1 || Boundary(s, c)
    ensures forall j :: c < j <= count && j < |s| ==> Continuation(s[j])
    decreases count + 1
  {
    if 0 <= count < |s| && Continuation(s[count]) then CutFrom(s, count - 1) else count
  }

  function Cut(s: seq<byte>): int {
    CutFrom(s, if |s| < TEXT_ROOM then |s| else TEXT_ROOM)
  }

  /** For every byte string: the piece is non-empty exactly when the text fits or
      one of the bytes behind its first can start a character. */
  lemma PieceExactly(s: seq<byte>)
    requires s != []
    ensures Cut(s) > 0 <==> |s| <= 255 || exists k :: 1 <= k <= 255 && k < |s| && !Continuation(s[k])
    ensures Cut(s) > 0 ==> Boundary(s, Cut(s)) && forall k :: Cut(s) < k <= 255 && k <= |s| ==> !Boundary(s, k)
  {
    if |s| > TEXT_ROOM && Cut(s) > 0 { assert !Continuation(s[Cut(s)]); }
  }

  /** Text that never leaves: an event without text is delivered again and again. */
  lemma StuckText()
    ensures var s := [0xC3 as byte] + seq(TEXT_ROOM, i => 0x80 as byte); Cut(s) == 0 && !ValidUtf8(s)
  {
    var s := [0xC3 as byte] + seq(TEXT_ROOM, i => 0x80 as byte);
    PieceExactly(s);
    assert forall k :: 1 <= k < |s| ==> s[k] == 0x80;
    assert Boundary(s, 0) && CutFrom(s, TEXT_ROOM) <= 0;
    if ValidUtf8(s) { NoLongRun(s, 1); }
  }

  /** Valid text always makes progress, in whole characters. */
  lemma PieceOfValid(s: seq<byte>)
    requires ValidUtf8(s) && s != []
    ensures 0 < Cut(s) <= |s| && Cut(s) <= TEXT_ROOM
    ensures ValidUtf8(s[..Cut(s)]) && ValidUtf8(s[Cut(s)..])
  {
    if |s| > TEXT_ROOM { NoLongRun(s, TEXT_ROOM - 3); }
    PieceExactly(s);
    SplitValid(s, Cut(s));
  }

  method FindCut(s: seq<byte>) returns (count: nat)
    requires ValidUtf8(s) && s != []
    ensures count == Cut(s)
  {
    hide ValidUtf8;
    PieceOfValid(s);
    count := if |s| < TEXT_ROOM then |s| else TEXT_ROOM;
    while count < |s| && Continuation(s[count])
      invariant count <= |s| && Cut(s) == CutFrom(s, count)
      decreases count
    {
      count := count - 1;
    }
  }
}
