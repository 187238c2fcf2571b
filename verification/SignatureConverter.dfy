/** The converter itself: it advances through the encoding, writes into a
    character buffer, and remembers conversions in a small table. */
module SignatureConverter {
  import opened TypeEncodings
  import opened Wrappers
  import opened MethodSignatures

  // -------------------------------------------------------------------- scanning

  method ReadQualifiers(s: string, at: nat) returns (p: nat)
    requires at <= |s|
    ensures p == SkipQualifiers(s, at)
  {
    p := at;
    while p < |s| && Qualifier(s[p])
      invariant at <= p <= |s| && SkipQualifiers(s, p) == SkipQualifiers(s, at)
    {
      p := p + 1;
    }
  }

  method ReadDigits(s: string, at: nat) returns (p: nat)
    requires at <= |s|
    ensures p == SkipDigits(s, at)
  {
    p := at;
    while p < |s| && Digit(s[p])
      invariant at <= p <= |s| && SkipDigits(s, p) == SkipDigits(s, at)
    {
      p := p + 1;
    }
  }

  method ReadQuoted(s: string, at: nat) returns (r: Option<nat>)
    requires at <= |s|
    ensures r == SkipQuoted(s, at)
  {
    var p := at;
    while p < |s| && s[p] != '"'
      invariant at <= p <= |s| && SkipQuoted(s, p) == SkipQuoted(s, at)
    {
      p := p + 1;
    }
    r := if p < |s| then Some(p + 1) else None;
  }

  method ReadObject(s: string, at: nat) returns (r: Option<nat>)
    requires at <= |s|
    ensures r == SkipObject(s, at)
  {
    r := Some(at);
    if Ch(s, at) == '"' { r := ReadQuoted(s, at + 1); }
  }

  method ReadGroup(s: string, at: nat, open: char, close: char, quotes: bool) returns (r: Option<nat>)
    requires at <= |s|
    ensures r == CloseGroup(s, at, open, close, 1, quotes)
  {
    var p: nat, nesting: nat := at, 1;
    while p < |s| && nesting > 0
      invariant at <= p <= |s|
      invariant CloseGroup(s, p, open, close, nesting, quotes) == CloseGroup(s, at, open, close, 1, quotes)
      decreases |s| - p
    {
      if quotes && s[p] == '"' {
        var q := ReadQuoted(s, p + 1);
        if q.None? { return None; }
        p := q.value;
      } else {
        if s[p] == open { nesting := nesting + 1; } else if s[p] == close { nesting := nesting - 1; }
        p := p + 1;
      }
    }
    r := if nesting > 0 then None else Some(p);
  }

  method ReadPointee(s: string, at: nat, depth: nat) returns (r: Option<nat>)
    requires at <= |s|
    ensures r == SkipPointee(s, at, depth)
    decreases |s| - at
  {
    if depth > MAX_INDIRECTIONS { return None; }
    var p := ReadQualifiers(s, at);
    if p >= |s| { return None; }
    var c := s[p];
    if c == '^' {
      r := ReadPointee(s, p + 1, depth + 1);
    } else if c == '{' || c == '(' || c == '[' {
      r := ReadGroup(s, p + 1, c, Closing(c), true);
    } else if c == '@' {
      if Ch(s, p + 1) == '?' { return Some(p + 2); }
      r := ReadObject(s, p + 1);
    } else {
      r := if PointeeCode(c) then Some(p + 1) else None;
    }
  }

  // -------------------------------------------------------------------- writing

  /** `after` is `before` with `text` written at `pos`. */
  predicate Wrote(before: seq<char>, after: seq<char>, pos: nat, text: string) {
    && pos + |text| <= |before| == |after|
    && after == before[..pos] + text + before[pos + |text|..]
  }

  /** A failed conversion may leave text between `pos` and `end`, nowhere else. */
  predicate Outside(before: seq<char>, after: seq<char>, pos: nat, end: nat) {
    && pos <= end <= |before| == |after|
    && after[..pos] == before[..pos] && after[end..] == before[end..]
  }

  lemma WroteNothing(before: seq<char>, pos: nat)
    requires pos <= |before|
    ensures Wrote(before, before, pos, "")
  {
  }

  lemma WroteTwice(a: seq<char>, b: seq<char>, c: seq<char>, pos: nat, first: string, second: string)
    requires Wrote(a, b, pos, first) && Wrote(b, c, pos + |first|, second)
    ensures Wrote(a, c, pos, first + second)
  {
    assert b[..pos + |first|] == a[..pos] + first;
    assert b[pos + |first| + |second|..] == a[pos + |first| + |second|..];
  }

  lemma WroteOutside(a: seq<char>, b: seq<char>, pos: nat, end: nat, text: string)
    requires Wrote(a, b, pos, text) && pos + |text| <= end <= |a|
    ensures Outside(a, b, pos, end)
  {
  }

  lemma WroteThenFailed(a: seq<char>, b: seq<char>, c: seq<char>, pos: nat, end: nat, text: string)
    requires Wrote(a, b, pos, text) && Outside(b, c, pos + |text|, end) && pos + |text| <= end <= |a|
    ensures Outside(a, c, pos, end)
  {
    assert c[..pos] == c[..pos + |text|][..pos] == b[..pos];
    WroteOutside(a, b, pos, end, text);
  }

  method Put(out: array<char>, pos: nat, c: char)
    requires pos < out.Length
    modifies out
    ensures Wrote(old(out[..]), out[..], pos, [c])
  {
    out[pos] := c;
  }

  method Copy(out: array<char>, pos: nat, text: string)
    requires pos + |text| <= out.Length
    modifies out
    ensures Wrote(old(out[..]), out[..], pos, text)
  {
    WroteNothing(out[..], pos);
    for i := 0 to |text|
      invariant Wrote(old(out[..]), out[..], pos, text[..i])
    {
      ghost var before := out[..];
      Put(out, pos + i, text[i]);
      WroteTwice(old(out[..]), before, out[..], pos, text[..i], [text[i]]);
      assert text[..i + 1] == text[..i] + [text[i]];
    }
    assert text[..|text|] == text;
  }

  datatype Cursor = Cursor(next: nat, pos: nat)

  /** What a conversion of one type must leave behind. */
  ghost predicate Converted(before: seq<char>, after: seq<char>, pos: nat, end: nat, want: Option<Step>, got: Option<Cursor>) {
    && pos <= end <= |before|
    && match want
       case None => got == None && Outside(before, after, pos, end)
       case Some(w) => pos + |w.text| <= end && got == Some(Cursor(w.next, pos + |w.text|)) && Wrote(before, after, pos, w.text)
  }

  lemma Refused(before: seq<char>, pos: nat, end: nat)
    requires pos <= end <= |before|
    ensures Converted(before, before, pos, end, None, None)
  {
  }

  function Prefixed(text: string, rest: Option<Step>): Option<Step> {
    match rest case None => None case Some(r) => Some(Step(r.next, text + r.text))
  }

  method WriteType(s: string, at: nat, out: array<char>, pos: nat, end: nat, depth: nat) returns (r: Option<Cursor>)
    requires at <= |s| && pos <= end <= out.Length
    modifies out
    ensures Converted(old(out[..]), out[..], pos, end, EncodeType(s, at, end - pos, depth), r)
    decreases |s| - at, 1
  {
    hide Wrote, Outside, CloseGroup, SkipQualifiers, SkipPointee, SkipObject, EncodeStruct, EncodeArray;
    if depth > MAX_DEPTH || pos == end { Refused(out[..], pos, end); return None; }
    var p := ReadQualifiers(s, at);
    if p >= |s| { Refused(out[..], pos, end); return None; }
    var c := s[p];
    if c == '{' && !CxxObject(s, p + 1) {
      r := WriteStruct(s, p + 1, out, pos, end, depth);
    } else if c == '[' {
      r := WriteArray(s, p + 1, out, pos, end, depth);
    } else {
      var next: Option<nat>, t := None, 'p';
      if c == '^' {
        if Ch(s, p + 1) != '?' { next := ReadPointee(s, p + 1, depth + 1); }
      } else if c == '{' {
        next := ReadGroup(s, p + 1, '{', '}', false);
      } else if c == '@' {
        if Ch(s, p + 1) != '?' { next := ReadObject(s, p + 1); }
      } else if ScalarCode(c).Some? {
        next, t := Some(p + 1), ScalarCode(c).value;
      }
      if next.None? { Refused(out[..], pos, end); return None; }
      Put(out, pos, t);
      r := Some(Cursor(next.value, pos + 1));
    }
  }

  method ReadTag(s: string, at: nat) returns (p: nat)
    requires at <= |s|
    ensures p == SkipTag(s, at)
  {
    p := at;
    while p < |s| && s[p] != '=' && s[p] != '}'
      invariant at <= p <= |s| && SkipTag(s, p) == SkipTag(s, at)
    {
      p := p + 1;
    }
  }

  method WriteStruct(s: string, at: nat, out: array<char>, pos: nat, end: nat, depth: nat) returns (r: Option<Cursor>)
    requires 0 < at <= |s| && pos < end <= out.Length
    modifies out
    ensures Converted(old(out[..]), out[..], pos, end, EncodeStruct(s, at, end - pos, depth), r)
    decreases |s| - at, 3
  {
    hide Wrote, Outside, EncodeFields, SkipTag;
    ghost var before := out[..];
    Put(out, pos, '{');
    ghost var braced := out[..];
    WroteOutside(before, braced, pos, end, "{");
    var p := ReadTag(s, at);
    if Ch(s, p) != '=' { return None; }
    var f := WriteFields(s, p + 1, out, pos + 1, end, depth + 1);
    if f.None? {
      WroteThenFailed(before, braced, out[..], pos, end, "{");
      return None;
    }
    ghost var fields := EncodeFields(s, p + 1, end - pos - 1, depth + 1).value;
    ghost var filled := out[..];
    WroteTwice(before, braced, filled, pos, "{", fields.text);
    if Ch(s, f.value.next) != '}' || f.value.pos >= end {
      WroteOutside(before, filled, pos, end, "{" + fields.text);
      return None;
    }
    Put(out, f.value.pos, '}');
    WroteTwice(before, filled, out[..], pos, "{" + fields.text, "}");
    r := Some(Cursor(f.value.next + 1, f.value.pos + 1));
  }

  method WriteFields(s: string, at: nat, out: array<char>, pos: nat, end: nat, depth: nat) returns (r: Option<Cursor>)
    requires at <= |s| && pos <= end <= out.Length
    modifies out
    ensures Converted(old(out[..]), out[..], pos, end, EncodeFields(s, at, end - pos, depth), r)
    decreases |s| - at, 2
  {
    hide Wrote, Outside, EncodeType, SkipObject;
    ghost var before := out[..];
    ghost var text := "";
    var p, w := at, pos;
    WroteNothing(before, pos);
    PrefixedNothing(EncodeFields(s, at, end - pos, depth));
    while p < |s| && s[p] != '}'
      invariant at <= p <= |s| && pos <= w <= end && w == pos + |text|
      invariant Wrote(before, out[..], pos, text)
      invariant EncodeFields(s, at, end - pos, depth) == Prefixed(text, EncodeFields(s, p, end - w, depth))
      decreases |s| - p
    {
      ghost var now := out[..];
      WroteOutside(before, now, pos, end, text);
      var q := ReadObject(s, p);
      if q.None? { return None; }
      var f := WriteType(s, q.value, out, w, end, depth);
      if f.None? {
        WroteThenFailed(before, now, out[..], pos, end, text);
        return None;
      }
      ghost var t := EncodeType(s, q.value, end - w, depth).value.text;
      WroteTwice(before, now, out[..], pos, text, t);
      PrefixedTwice(text, t, EncodeFields(s, f.value.next, end - f.value.pos, depth));
      text := text + t;
      p, w := f.value.next, f.value.pos;
    }
    r := Some(Cursor(p, w));
    assert text + "" == text;
  }

  lemma PrefixedNothing(rest: Option<Step>)
    ensures Prefixed("", rest) == rest
  {
    if rest.Some? { assert "" + rest.value.text == rest.value.text; }
  }

  lemma PrefixedTwice(a: string, b: string, rest: Option<Step>)
    ensures Prefixed(a, Prefixed(b, rest)) == Prefixed(a + b, rest)
  {
    if rest.Some? { assert a + (b + rest.value.text) == a + b + rest.value.text; }
  }

  /** An array length, as the C library's conversion reads it. */
  method ReadNumber(s: string, at: nat) returns (n: Number)
    requires at <= |s|
    ensures n == ParseNumber(s, at)
  {
    var p := at;
    while p < |s| && Space(s[p])
      invariant at <= p <= |s| && SkipSpaces(s, p) == SkipSpaces(s, at)
    {
      p := p + 1;
    }
    var negative := Ch(s, p) == '-';
    if negative || Ch(s, p) == '+' { p := p + 1; }
    var start, value: nat := p, 0;
    AllDigits(s, start);
    ghost var stop := SkipDigits(s, start);
    while p < |s| && Digit(s[p])
      invariant start <= p <= |s| && SkipDigits(s, p) == stop && p <= stop
      invariant Decimal(s, p, stop, value) == Decimal(s, start, stop, 0)
    {
      value := value * 10 + (s[p] as nat - '0' as nat);
      p := p + 1;
    }
    if p == start { return Number(0, at); }
    n := Number(if value > ULONG_MAX then ULONG_MAX else if negative && value > 0 then ULONG_MAX + 1 - value else value, p);
  }

  method WriteArray(s: string, at: nat, out: array<char>, pos: nat, end: nat, depth: nat) returns (r: Option<Cursor>)
    requires 0 < at <= |s| && pos < end <= out.Length
    modifies out
    ensures Converted(old(out[..]), out[..], pos, end, EncodeArray(s, at, end - pos, depth), r)
    decreases |s| - at, 3
  {
    hide Wrote, Outside, ParseNumber, EncodeType, Repeat;
    ghost var before := out[..];
    var n := ReadNumber(s, at);
    if n.value == 0 || n.value > MAX_ARRAY { Refused(out[..], pos, end); return None; }
    var element := new char[ELEMENT_ROOM + 1];
    ghost var blank := element[..];
    var e := WriteType(s, n.next, element, 0, ELEMENT_ROOM, depth + 1);
    if e.None? || Ch(s, e.value.next) != ']' { Refused(out[..], pos, end); return None; }
    ghost var text := EncodeType(s, n.next, ELEMENT_ROOM, depth + 1).value.text;
    StartOf(blank, element[..], text);
    var bytes := e.value.pos;
    if end - pos < n.value * bytes { Refused(out[..], pos, end); return None; }
    RepeatSize(n.value, bytes);
    CopyRepeated(out, pos, element, bytes, n.value);
    r := Some(Cursor(e.value.next + 1, pos + n.value * bytes));
  }

  method CopyRepeated(out: array<char>, pos: nat, element: array<char>, bytes: nat, n: nat)
    requires out != element && bytes <= element.Length && pos + |Repeat(element[..bytes], n)| <= out.Length
    modifies out
    ensures Wrote(old(out[..]), out[..], pos, Repeat(element[..bytes], n))
  {
    hide Wrote, Repeat;
    ghost var before, text := out[..], element[..bytes];
    var w := pos;
    WroteNothing(before, pos);
    RepeatNone(text);
    for k := 0 to n
      invariant element[..bytes] == text
      invariant w == pos + |Repeat(text, k)|
      invariant Wrote(before, out[..], pos, Repeat(text, k))
    {
      ghost var now := out[..];
      RepeatNext(text, k);
      RepeatBelow(text, k + 1, n);
      Copy(out, w, element[..bytes]);
      WroteTwice(before, now, out[..], pos, Repeat(text, k), text);
      w := w + bytes;
    }
  }

  lemma StartOf(blank: seq<char>, after: seq<char>, text: string)
    requires Wrote(blank, after, 0, text)
    ensures |text| <= |after| && after[..|text|] == text
  {
  }

  lemma RepeatNone(text: string)
    ensures Repeat(text, 0) == ""
  {
  }

  lemma {:induction false} RepeatNext(text: string, k: nat)
    ensures Repeat(text, k + 1) == Repeat(text, k) + text
  {
    if k > 0 {
      RepeatNext(text, k - 1);
      assert text + (Repeat(text, k - 1) + text) == text + Repeat(text, k - 1) + text;
    }
  }

  lemma RepeatBelow(text: string, k: nat, n: nat)
    requires k <= n
    ensures |Repeat(text, k)| <= |Repeat(text, n)|
    decreases n - k
  {
    if k < n {
      RepeatNext(text, n - 1);
      RepeatBelow(text, k, n - 1);
    }
  }

  // ----------------------------------------------------------------- signatures

  function WithText(text: string, rest: Option<string>): Option<string> {
    match rest case None => None case Some(r) => Some(text + r)
  }

  lemma WithNoText(rest: Option<string>)
    ensures WithText("", rest) == rest
  {
    if rest.Some? { assert "" + rest.value == rest.value; }
  }

  lemma WithTextTwice(a: string, b: string, rest: Option<string>)
    ensures WithText(a, WithText(b, rest)) == WithText(a + b, rest)
  {
    if rest.Some? { assert a + (b + rest.value) == a + b + rest.value; }
  }

  method WriteArguments(s: string, at: nat, out: array<char>, pos: nat, end: nat) returns (r: Option<nat>)
    requires at <= |s| && pos <= end <= out.Length
    modifies out
    ensures r.Some? == EncodeArguments(s, at, end - pos).Some?
    ensures r.Some? ==> var text := EncodeArguments(s, at, end - pos).value;
            r.value == pos + |text| && Wrote(old(out[..]), out[..], pos, text)
  {
    hide Wrote, Outside, EncodeType, SkipDigits;
    ghost var before := out[..];
    ghost var text := "";
    var p, w := at, pos;
    WroteNothing(before, pos);
    WithNoText(EncodeArguments(s, at, end - pos));
    while p < |s|
      invariant at <= p <= |s| && pos <= w <= end && w == pos + |text|
      invariant Wrote(before, out[..], pos, text)
      invariant EncodeArguments(s, at, end - pos) == WithText(text, EncodeArguments(s, p, end - w))
      decreases |s| - p
    {
      ghost var now := out[..];
      var f := WriteType(s, p, out, w, end, 0);
      if f.None? { return None; }
      ghost var t := EncodeType(s, p, end - w, 0).value.text;
      WroteTwice(before, now, out[..], pos, text, t);
      var next := ReadDigits(s, f.value.next);
      WithTextTwice(text, t, EncodeArguments(s, next, end - f.value.pos));
      text := text + t;
      p, w := next, f.value.pos;
    }
    assert text + "" == text;
    r := Some(w);
  }

  /** Converts a whole method encoding; the buffer's length is its capacity. */
  method WriteSignature(s: string, out: array<char>) returns (ok: bool)
    modifies out
    ensures ok == EncodeSignature(s, out.Length).Some?
    ensures ok ==> var text := EncodeSignature(s, out.Length).value; out[..|text|] == text && out[|text|] == NUL
  {
    hide Wrote, Outside, EncodeType, EncodeArguments, SkipDigits, CxxReturn;
    if out.Length == 0 { return false; }
    ghost var before := out[..];
    var end := out.Length - 1;
    var p, w := 0, 0;
    var start := CxxReturn(s);
    if start != "" {
      var ignored := new char[ELEMENT_ROOM + 1];
      var f := WriteType(s, 0, ignored, 0, ELEMENT_ROOM, 0);
      if f.None? || end < |start| { return false; }
      p := ReadDigits(s, f.value.next);
      w := |start|;
    }
    WithNoText(EncodeArguments(s, p, end - w));
    assert EncodeSignature(s, out.Length) == WithText(start, EncodeArguments(s, p, end - w));
    Copy(out, 0, start);
    ghost var now := out[..];
    var r := WriteArguments(s, p, out, w, end);
    if r.None? { return false; }
    ghost var rest := EncodeArguments(s, p, end - w).value;
    WroteTwice(before, now, out[..], 0, start, rest);
    StartOf(before, out[..], start + rest);
    out[r.value] := NUL;
    ok := true;
  }

  // ---------------------------------------------------------------------- cache

  const CACHE_LINES: nat := 64
  const SOURCE_ROOM: nat := 512
  const SIGNATURE_ROOM: nat := 2048

  datatype Line = Line(source: string, signature: string)

  /** The table of one thread.  A line is picked by the encoding's address, which
      may be reused; an empty source marks an unused line. */
  class SignatureCache {
    const lines: array<Line>

    ghost predicate Valid()
      reads this, lines
    {
      lines.Length == CACHE_LINES && forall i :: 0 <= i < lines.Length ==> LineValid(lines[i])
    }

    constructor ()
      ensures Valid() && fresh(lines)
    {
      lines := new Line[CACHE_LINES](i => Line("", ""));
    }

    /** Whatever was looked up before, and from whatever address: exactly what a
        fresh conversion yields. */
    method Lookup(address: nat, encoding: string, fallback: array<char>) returns (r: Option<string>)
      requires Valid() && fallback.Length == SIGNATURE_ROOM
      modifies lines, fallback
      ensures Valid()
      ensures r == EncodeSignature(encoding, 2048)
      ensures forall i :: 0 <= i < CACHE_LINES && i != Index(address) ==> lines[i] == old(lines[i])
      ensures lines[Index(address)] != old(lines[Index(address)]) ==>
        r.Some? && lines[Index(address)] == Line(encoding, r.value) && |encoding| < 512
      // a short encoding is converted once: its next lookup from here converts nothing
      ensures r.Some? && |encoding| < 512 ==> lines[Index(address)] == Line(encoding, r.value)
      ensures encoding != "" && old(lines[Index(address)]).source == encoding ==> fallback[..] == old(fallback[..])
    {
      hide EncodeSignature, Index;
      var index := Index(address);
      var line := lines[index];
      assert LineValid(line);
      if line.source != "" && line.source == encoding { return Some(line.signature); }
      var ok := WriteSignature(encoding, fallback);
      if !ok { return None; }
      var n := Length(fallback, encoding);
      r := Some(fallback[..n]);
      if |encoding| >= SOURCE_ROOM { return; }
      lines[index] := Line(encoding, fallback[..n]);
    }
  }

  ghost predicate LineValid(l: Line) {
    |l.source| < SOURCE_ROOM && (l.source != "" ==> EncodeSignature(l.source, SIGNATURE_ROOM) == Some(l.signature))
  }

  /** The exclusive or of the low `bits` bits. */
  function Xor(a: nat, b: nat, bits: nat): nat {
    if bits == 0 then 0 else 2 * Xor(a / 2, b / 2, bits - 1) + (if a % 2 == b % 2 then 0 else 1)
  }

  lemma {:induction false} XorBound(a: nat, b: nat, bits: nat)
    ensures Xor(a, b, bits) < Power(bits)
  {
    if bits > 0 { XorBound(a / 2, b / 2, bits - 1); }
  }

  lemma {:induction false} XorBit(a: nat, b: nat, bits: nat, k: nat)
    requires k < bits
    ensures Xor(a, b, bits) / Power(k) % 2 == 1 <==> a / Power(k) % 2 != b / Power(k) % 2
  {
    hide Xor, Power;
    XorStep(a, b, bits);
    PowerStep(k);
    var x := Xor(a, b, bits);
    if k > 0 {
      Halves(x, Power(k - 1));
      Halves(a, Power(k - 1));
      Halves(b, Power(k - 1));
      XorBit(a / 2, b / 2, bits - 1, k - 1);
    }
  }

  lemma XorStep(a: nat, b: nat, bits: nat)
    requires bits > 0
    ensures var x := Xor(a, b, bits); x / 2 == Xor(a / 2, b / 2, bits - 1) && (x % 2 == 1 <==> a % 2 != b % 2)
  {
  }

  lemma PowerStep(k: nat)
    ensures k == 0 ==> Power(k) == 1
    ensures k > 0 ==> Power(k) == 2 * Power(k - 1)
  {
  }

  lemma Halves(v: nat, p: nat)
    requires p > 0
    ensures v / (2 * p) == v / 2 / p
  {
    var q, r := v / (2 * p), v % (2 * p);
    assert v == 2 * (p * q) + r by { assert v == 2 * p * q + r; }
    var n, d := p * q + r / 2, v / 2 / p - q;
    assert v / 2 == n && r / 2 < p;
    assert n == p * (v / 2 / p) + v / 2 % p;
    assert p * d == r / 2 - v / 2 % p by { assert p * d == p * (v / 2 / p) - p * q; }
  }

  /** Bit `k` of the line's number is the exclusive or of bits 4 + k and 10 + k
      of the address. */
  lemma IndexBits(address: nat, k: nat)
    requires k < 6
    ensures Index(address) / Power(k) % 2 == 1 <==> address / 16 / Power(k) % 2 != address / 1024 / Power(k) % 2
  {
    XorBit(address / 16, address / 1024, 6, k);
  }

  function Power(bits: nat): (p: nat)
    ensures p > 0
  {
    if bits == 0 then 1 else 2 * Power(bits - 1)
  }

  /** Six bits of the address shifted by four, xor the address shifted by ten. */
  function Index(address: nat): (i: nat)
    ensures i < CACHE_LINES
  {
    XorBound(address / 16, address / 1024, 6);
    Xor(address / 16, address / 1024, 6)
  }

  /** The length of the text up to its NUL. */
  method Length(buffer: array<char>, ghost s: string) returns (n: nat)
    requires EncodeSignature(s, buffer.Length).Some?
    requires var text := EncodeSignature(s, buffer.Length).value; buffer[..|text|] == text && buffer[|text|] == NUL
    ensures n == |EncodeSignature(s, buffer.Length).value|
  {
    hide EncodeSignature;
    ghost var text := EncodeSignature(s, buffer.Length).value;
    NoNul(s, buffer.Length);
    assert forall k :: 0 <= k < |text| ==> buffer[..|text|][k] == text[k];
    n := 0;
    while buffer[n] != NUL
      invariant n <= |text| < buffer.Length
      decreases |text| - n
    {
      n := n + 1;
    }
  }
}
