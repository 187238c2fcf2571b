/** Objective-C runtime type encodings, translated into a fixed ABI signature
    by recursive descent.  Strings hold no NUL; reading past the end gives one. */
module TypeEncodings {
  import opened Wrappers

  const NUL: char := '\0'

  function Ch(s: string, i: nat): char { if i < |s| then s[i] else NUL }

  predicate Qualifier(c: char) { c in "rnNoORV" }

  predicate PointeeCode(c: char) { c in "?#:*vfdqQlLiIsScCB" }

  function HasPrefix(s: string, at: nat, p: string): bool {
    at + |p| <= |s| && s[at..at + |p|] == p
  }

  /** C++ objects with non-trivial copies are passed by invisible pointer. */
  predicate CxxObject(s: string, at: nat) {
    HasPrefix(s, at, "shared_ptr<") || HasPrefix(s, at, "function<") || HasPrefix(s, at, "basic_string<")
  }

  // --------------------------------------------------------------- the scanners

  function SkipQualifiers(s: string, at: nat): (p: nat)
    requires at <= |s|
    ensures at <= p <= |s| && !Qualifier(Ch(s, p))
    decreases |s| - at
  {
    if at < |s| && Qualifier(s[at]) then SkipQualifiers(s, at + 1) else at
  }

  /** The position after the closing quote. */
  function SkipQuoted(s: string, at: nat): (p: Option<nat>)
    requires at <= |s|
    ensures p.Some? ==> at < p.value <= |s|
    decreases |s| - at
  {
    if at >= |s| then None else if s[at] == '"' then Some(at + 1) else SkipQuoted(s, at + 1)
  }

  /** The position after the bracket that closes `nesting` open ones. */
  function CloseGroup(s: string, at: nat, open: char, close: char, nesting: nat, quotes: bool): (p: Option<nat>)
    requires at <= |s|
    ensures p.Some? ==> at <= p.value <= |s|
    decreases |s| - at
  {
    if nesting == 0 then Some(at)
    else if at >= |s| then None
    else if quotes && s[at] == '"' then
      match SkipQuoted(s, at + 1)
      case None => None
      case Some(k) => CloseGroup(s, k, open, close, nesting, quotes)
    else if s[at] == open then CloseGroup(s, at + 1, open, close, nesting + 1, quotes)
    else if s[at] == close then CloseGroup(s, at + 1, open, close, nesting - 1, quotes)
    else CloseGroup(s, at + 1, open, close, nesting, quotes)
  }

  function Closing(open: char): char { if open == '{' then '}' else if open == '(' then ')' else ']' }

  /** What may follow an `@`: a block mark or a class name. */
  function SkipObject(s: string, at: nat): (p: Option<nat>)
    requires at <= |s|
    ensures p.Some? ==> at <= p.value <= |s|
  {
    if Ch(s, at) == '"' then SkipQuoted(s, at + 1) else Some(at)
  }

  const MAX_INDIRECTIONS: nat := 16

  function SkipPointee(s: string, at: nat, depth: nat): (p: Option<nat>)
    requires at <= |s|
    ensures p.Some? ==> at < p.value <= |s|
    decreases |s| - at
  {
    var q := SkipQualifiers(s, at);
    var c := Ch(s, q);
    if depth > MAX_INDIRECTIONS || q >= |s| then None
    else if c == '^' then SkipPointee(s, q + 1, depth + 1)
    else if c == '{' || c == '(' || c == '[' then CloseGroup(s, q + 1, c, Closing(c), 1, true)
    else if c == '@' then (if Ch(s, q + 1) == '?' then Some(q + 2) else SkipObject(s, q + 1))
    else if PointeeCode(c) then Some(q + 1) else None
  }

  // ------------------------------------------------------------------- numbers

  const ULONG_MAX: nat := 0xFFFF_FFFF_FFFF_FFFF

  predicate Digit(c: char) { '0' <= c <= '9' }

  predicate Space(c: char) { c == ' ' || '\t' <= c <= '\r' }

  /** White space of the C locale. */
  lemma SpacesAre(c: char)
    ensures Space(c) <==> c in {' ', '\t', '\n', '\U{0B}', '\U{0C}', '\r'}
  {
  }

  function SkipDigits(s: string, at: nat): (p: nat)
    requires at <= |s|
    ensures at <= p <= |s| && !Digit(Ch(s, p))
    decreases |s| - at
  {
    if at < |s| && Digit(s[at]) then SkipDigits(s, at + 1) else at
  }

  function SkipSpaces(s: string, at: nat): (p: nat)
    requires at <= |s|
    ensures at <= p <= |s|
    decreases |s| - at
  {
    if at < |s| && Space(s[at]) then SkipSpaces(s, at + 1) else at
  }

  /** The digits from `at` up to `end`, after `value`. */
  function Decimal(s: string, at: nat, end: nat, value: nat): nat
    requires at <= end <= |s| && forall k :: at <= k < end ==> Digit(s[k])
    decreases end - at
  {
    if at == end then value else assert Digit(s[at]); Decimal(s, at + 1, end, value * 10 + (s[at] as nat - '0' as nat))
  }

  lemma {:induction false} AllDigits(s: string, at: nat)
    requires at <= |s|
    ensures forall k :: at <= k < SkipDigits(s, at) ==> Digit(s[k])
    decreases |s| - at
  {
    if at < |s| && Digit(s[at]) { AllDigits(s, at + 1); }
  }

  datatype Number = Number(value: nat, next: nat)

  /** The C library's conversion: white space, a sign, digits; values that do
      not fit saturate, negative ones wrap. */
  function ParseNumber(s: string, at: nat): (n: Number)
    requires at <= |s|
    ensures at <= n.next <= |s|
  {
    var p := SkipSpaces(s, at);
    var negative := Ch(s, p) == '-';
    var start := if negative || Ch(s, p) == '+' then p + 1 else p;
    var end := SkipDigits(s, start);
    AllDigits(s, start);
    if start == end then Number(0, at)
    else
      var v := Decimal(s, start, end, 0);
      Number(if v > ULONG_MAX then ULONG_MAX else if negative && v > 0 then ULONG_MAX + 1 - v else v, end)
  }

  // --------------------------------------------------------------- translation

  datatype Step = Step(next: nat, text: string)

  const MAX_DEPTH: nat := 8
  const MAX_ARRAY: nat := 64
  const ELEMENT_ROOM: nat := 2047

  function ScalarCode(c: char): Option<char> {
    match c
    case '#' => Some('p') case ':' => Some('p') case '*' => Some('p')
    case 'q' => Some('q') case 'Q' => Some('q') case 'l' => Some('q') case 'L' => Some('q')
    case 'i' => Some('i') case 'I' => Some('u') case 's' => Some('h') case 'S' => Some('H')
    case 'c' => Some('b') case 'C' => Some('B') case 'B' => Some('B')
    case 'v' => Some('v') case 'f' => Some('f') case 'd' => Some('d')
    case _ => None
  }

  function Repeat(text: string, n: nat): (r: string)
    ensures |r| == n * |text|
  {
    if n == 0 then "" else RepeatSize(n, |text|); text + Repeat(text, n - 1)
  }

  lemma RepeatSize(n: nat, m: nat)
    requires n > 0
    ensures n * m == m + (n - 1) * m
  {
  }

  /** One type; `room` characters are left in the output. */
  function EncodeType(s: string, at: nat, room: nat, depth: nat): (r: Option<Step>)
    requires at <= |s|
    ensures r.Some? ==> at < r.value.next <= |s| && |r.value.text| <= room
    decreases |s| - at, 1
  {
    if depth > MAX_DEPTH || room == 0 then None
    else
      var q := SkipQualifiers(s, at);
      var c := Ch(s, q);
      if q >= |s| then None
      else if c == '^' then
        if Ch(s, q + 1) == '?' then None
        else match SkipPointee(s, q + 1, depth + 1)
          case None => None
          case Some(p) => Some(Step(p, "p"))
      else if c == '{' then
        if CxxObject(s, q + 1) then
          match CloseGroup(s, q + 1, '{', '}', 1, false)
          case None => None
          case Some(p) => Some(Step(p, "p"))
        else EncodeStruct(s, q + 1, room, depth)
      else if c == '[' then EncodeArray(s, q + 1, room, depth)
      else if c == '@' then
        if Ch(s, q + 1) == '?' then None
        else match SkipObject(s, q + 1)
          case None => None
          case Some(p) => Some(Step(p, "p"))
      else match ScalarCode(c)
        case None => None
        case Some(t) => Some(Step(q + 1, [t]))
  }

  /** From behind the opening bracket of an array. */
  function EncodeArray(s: string, at: nat, room: nat, depth: nat): (r: Option<Step>)
    requires 0 < at <= |s| && room > 0
    ensures r.Some? ==> at < r.value.next <= |s| && |r.value.text| <= room
    decreases |s| - at, 2
  {
    var n := ParseNumber(s, at);
    if n.value == 0 || n.value > MAX_ARRAY then None
    else match EncodeType(s, n.next, ELEMENT_ROOM, depth + 1)
      case None => None
      case Some(e) =>
        if Ch(s, e.next) != ']' || room < n.value * |e.text| then None
        else Some(Step(e.next + 1, Repeat(e.text, n.value)))
  }

  function Magnitude(s: string, start: nat): nat
    requires start <= |s|
  {
    AllDigits(s, start);
    Decimal(s, start, SkipDigits(s, start), 0)
  }

  /** A count with a minus sign wraps; it is a supported one only for the 64
      largest magnitudes that 64 bits hold. */
  lemma NegativeCounts(s: string, at: nat)
    requires at <= |s| && Ch(s, SkipSpaces(s, at)) == '-'
    ensures var start := SkipSpaces(s, at) + 1;
            1 <= ParseNumber(s, at).value <= 64 <==> 0x1_0000_0000_0000_0000 - 64 <= Magnitude(s, start) < 0x1_0000_0000_0000_0000
  {
    var start := SkipSpaces(s, at) + 1;
    if SkipDigits(s, start) == start { assert Magnitude(s, start) == 0; }
  }

  /** The tag of a struct ends at its `=`. */
  function SkipTag(s: string, at: nat): (p: nat)
    requires at <= |s|
    ensures at <= p <= |s|
    decreases |s| - at
  {
    if at < |s| && s[at] != '=' && s[at] != '}' then SkipTag(s, at + 1) else at
  }

  /** From behind the opening brace of a struct. */
  function EncodeStruct(s: string, at: nat, room: nat, depth: nat): (r: Option<Step>)
    requires 0 < at <= |s| && room > 0
    ensures r.Some? ==> at < r.value.next <= |s| && |r.value.text| <= room
    decreases |s| - at, 2
  {
    var tag := SkipTag(s, at);
    if Ch(s, tag) != '=' then None
    else match EncodeFields(s, tag + 1, room - 1, depth + 1)
      case None => None
      case Some(f) =>
        if Ch(s, f.next) != '}' || |f.text| >= room - 1 then None
        else Some(Step(f.next + 1, "{" + f.text + "}"))
  }

  /** The fields up to the closing brace, each with an optional quoted name. */
  function EncodeFields(s: string, at: nat, room: nat, depth: nat): (r: Option<Step>)
    requires at <= |s|
    ensures r.Some? ==> at <= r.value.next <= |s| && |r.value.text| <= room
    decreases |s| - at, 3
  {
    if at >= |s| || s[at] == '}' then Some(Step(at, ""))
    else match SkipObject(s, at)
      case None => None
      case Some(p) =>
        match EncodeType(s, p, room, depth)
        case None => None
        case Some(f) =>
          match EncodeFields(s, f.next, room - |f.text|, depth)
          case None => None
          case Some(rest) => Some(Step(rest.next, f.text + rest.text))
  }
}
