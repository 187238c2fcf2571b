/** Type trees, the encodings that the runtime prints for them, and what the
    translator makes of those encodings. */
module TypeSignatures {
  import opened TypeEncodings
  import opened Wrappers

  /** Bracketed text that is skipped: names, quoted names, nested brackets. */
  datatype Text = End | Plain(c: char, rest: Text) | Quoted(name: string, rest: Text) | Nested(inner: Text, rest: Text)

  datatype Pointee =
    | Code(c: char)
    | To(qualifiers: string, pointee: Pointee)
    | Group(open: char, body: Text)
    | AnyObject
    | Block
    | Named(name: string)

  datatype Field = Field(quals: string, name: Option<string>, type_: Type)

  datatype Type =
    | Scalar(code: char)
    | Object(class_: Option<string>)
    | Pointer(qualifiers: string, pointee: Pointee)
    | Struct(tag: string, fields: seq<Field>)
    | Cxx(template: string, body: Text)
    | Array(count: nat, quals: string, element: Type)

  // ------------------------------------------------------------------- printing

  function PrintText(t: Text, open: char): string {
    match t
    case End => ""
    case Plain(c, rest) => [c] + PrintText(rest, open)
    case Quoted(name, rest) => "\"" + name + "\"" + PrintText(rest, open)
    case Nested(inner, rest) => [open] + PrintText(inner, open) + [Closing(open)] + PrintText(rest, open)
  }

  function PrintPointee(p: Pointee): string {
    match p
    case Code(c) => [c]
    case To(q, inner) => "^" + q + PrintPointee(inner)
    case Group(open, body) => [open] + PrintText(body, open) + [Closing(open)]
    case AnyObject => "@"
    case Block => "@?"
    case Named(name) => "@\"" + name + "\""
  }

  function PrintNumber(n: nat): (r: string)
    ensures |r| > 0
  {
    if n < 10 then [('0' as nat + n) as char] else PrintNumber(n / 10) + [('0' as nat + n % 10) as char]
  }

  function PrintName(name: Option<string>): string {
    match name case None => "" case Some(n) => "\"" + n + "\""
  }

  function Print(t: Type): string {
    match t
    case Scalar(c) => [c]
    case Object(class_) => "@" + PrintName(class_)
    case Pointer(q, p) => "^" + q + PrintPointee(p)
    case Struct(tag, fields) => "{" + tag + "=" + PrintFields(fields) + "}"
    case Cxx(template, body) => "{" + template + PrintText(body, '{') + "}"
    case Array(n, q, e) => "[" + PrintNumber(n) + q + Print(e) + "]"
  }

  function PrintFields(fs: seq<Field>): string {
    if fs == [] then "" else PrintName(fs[0].name) + fs[0].quals + Print(fs[0].type_) + PrintFields(fs[1..])
  }

  // ----------------------------------------------------- the flattened signature

  function Flat(t: Type): string {
    match t
    case Scalar(c) => if ScalarCode(c).Some? then [ScalarCode(c).value] else ""
    case Object(_) => "p"
    case Pointer(_, _) => "p"
    case Struct(_, fields) => "{" + FlatFields(fields) + "}"
    case Cxx(_, _) => "p"
    case Array(n, _, e) => Repeat(Flat(e), n)
  }

  function FlatFields(fs: seq<Field>): string {
    if fs == [] then "" else Flat(fs[0].type_) + FlatFields(fs[1..])
  }

  // ---------------------------------------------------------------- well-formed

  predicate Qualifiers(q: string) { forall c :: c in q ==> Qualifier(c) }

  predicate NoQuote(name: string) { '"' !in name }

  predicate TextValid(t: Text, open: char, quotes: bool) {
    match t
    case End => true
    case Plain(c, rest) => c != open && c != Closing(open) && (quotes ==> c != '"') && TextValid(rest, open, quotes)
    case Quoted(name, rest) => quotes && NoQuote(name) && TextValid(rest, open, quotes)
    case Nested(inner, rest) => TextValid(inner, open, quotes) && TextValid(rest, open, quotes)
  }

  predicate PointeeValid(p: Pointee, depth: nat) {
    && depth <= MAX_INDIRECTIONS
    && match p
       case Code(c) => PointeeCode(c)
       case To(q, inner) => Qualifiers(q) && PointeeValid(inner, depth + 1)
       case Group(open, body) => (open == '{' || open == '(' || open == '[') && TextValid(body, open, true)
       case AnyObject => true
       case Block => true
       case Named(name) => NoQuote(name)
  }

  predicate TagLetters(tag: string) { forall c :: c in tag ==> c != '=' && c != '}' }

  predicate TagValid(tag: string) { TagLetters(tag) && !CxxObject(tag + "=", 0) }

  predicate Template(t: string) { t == "shared_ptr<" || t == "function<" || t == "basic_string<" }

  /** The types that the translator supports, within its limits. */
  predicate Supported(t: Type, depth: nat) {
    && depth <= MAX_DEPTH
    && match t
       case Scalar(c) => ScalarCode(c).Some?
       case Object(class_) => class_.Some? ==> NoQuote(class_.value)
       case Pointer(q, p) => Qualifiers(q) && PointeeValid(p, depth + 1) && (q == "" ==> p != Code('?'))
       case Struct(tag, fields) => TagValid(tag) && FieldsSupported(fields, depth + 1)
       case Cxx(template, body) => Template(template) && TextValid(body, '{', false)
       case Array(n, q, e) => 1 <= n <= MAX_ARRAY && Qualifiers(q) && Supported(e, depth + 1) && |Flat(e)| <= ELEMENT_ROOM
  }

  predicate FieldsSupported(fs: seq<Field>, depth: nat) {
    fs == [] ||
    (Qualifiers(fs[0].quals) && (fs[0].name.Some? ==> NoQuote(fs[0].name.value)) && Supported(fs[0].type_, depth) && FieldsSupported(fs[1..], depth))
  }

  /** Does the printed form end with a bare `@`?  A quoted name right behind it
      is then taken for the class name, which does not change the signature. */
  predicate PointeeOpen(p: Pointee) {
    match p case AnyObject => true case To(_, inner) => PointeeOpen(inner) case _ => false
  }

  predicate Open(t: Type) {
    match t case Object(None) => true case Pointer(_, p) => PointeeOpen(p) case _ => false
  }

  // ----------------------------------------------------------- reading back

  predicate At(s: string, at: nat, p: string) {
    at + |p| <= |s| && s[at..at + |p|] == p
  }

  lemma AtSplit(s: string, at: nat, p: string, q: string)
    requires At(s, at, p + q)
    ensures At(s, at, p) && At(s, at + |p|, q)
  {
    var r := s[at..at + |p + q|];
    assert r[..|p|] == p && r[|p|..] == q;
    assert s[at..at + |p|] == r[..|p|];
    assert s[at + |p|..at + |p| + |q|] == r[|p|..];
  }

  lemma AtFirst(s: string, at: nat, p: string)
    requires At(s, at, p) && p != ""
    ensures at < |s| && s[at] == p[0] && Ch(s, at) == p[0] && At(s, at + 1, p[1..])
  {
    assert s[at] == s[at..at + |p|][0];
    assert s[at + 1..at + |p|] == s[at..at + |p|][1..];
  }

  lemma {:induction false} QualifiersSkipped(s: string, at: nat, q: string)
    requires At(s, at, q) && Qualifiers(q) && !Qualifier(Ch(s, at + |q|))
    ensures SkipQualifiers(s, at) == at + |q|
    decreases |q|
  {
    if q != "" {
      AtFirst(s, at, q);
      assert q[0] in q && forall c :: c in q[1..] ==> c in q;
      QualifiersSkipped(s, at + 1, q[1..]);
    }
  }

  lemma {:induction false} QuotedSkipped(s: string, at: nat, name: string)
    requires At(s, at, name + "\"") && NoQuote(name)
    ensures SkipQuoted(s, at) == Some(at + |name| + 1)
    decreases |name|
  {
    AtFirst(s, at, name + "\"");
    if name != "" {
      assert name[0] in name;
      assert (name + "\"")[1..] == name[1..] + "\"";
      QuotedSkipped(s, at + 1, name[1..]);
    }
  }

  lemma NameSkipped(s: string, at: nat, name: string)
    requires At(s, at, "\"" + name + "\"") && NoQuote(name)
    ensures SkipObject(s, at) == Some(at + |name| + 2)
  {
    assert "\"" + name + "\"" == "\"" + (name + "\"");
    AtSplit(s, at, "\"", name + "\"");
    AtFirst(s, at, "\"");
    QuotedSkipped(s, at + 1, name);
  }

  predicate Bracket(open: char) { open == '{' || open == '(' || open == '[' }

  lemma {:induction false} TextSkipped(s: string, at: nat, t: Text, open: char, nesting: nat, quotes: bool)
    requires At(s, at, PrintText(t, open)) && TextValid(t, open, quotes) && nesting > 0 && Bracket(open)
    ensures at + |PrintText(t, open)| <= |s|
    ensures CloseGroup(s, at, open, Closing(open), nesting, quotes) == CloseGroup(s, at + |PrintText(t, open)|, open, Closing(open), nesting, quotes)
    decreases t
  {
    hide CloseGroup, Bracket, NoQuote;
    AtInside(s, at, PrintText(t, open));
    match t
    case End =>
    case Plain(c, rest) =>
      PlainSkipped(s, at, c, PrintText(rest, open), open, nesting, quotes);
      TextSkipped(s, at + 1, rest, open, nesting, quotes);
    case Quoted(name, rest) =>
      QuoteInText(s, at, name, PrintText(rest, open), open, nesting);
      TextSkipped(s, at + |name| + 2, rest, open, nesting, quotes);
    case Nested(inner, rest) =>
      var i, r := PrintText(inner, open), PrintText(rest, open);
      NestedParts(s, at, open, i, r, nesting, quotes);
      TextSkipped(s, at + 1, inner, open, nesting + 1, quotes);
      TextSkipped(s, at + 2 + |i|, rest, open, nesting, quotes);
  }

  lemma AtInside(s: string, at: nat, p: string)
    requires At(s, at, p)
    ensures at + |p| <= |s|
  {
  }

  lemma PlainSkipped(s: string, at: nat, c: char, rest: string, open: char, nesting: nat, quotes: bool)
    requires At(s, at, [c] + rest) && nesting > 0 && c != open && c != Closing(open) && (quotes ==> c != '"')
    ensures at + 1 <= |s| && At(s, at + 1, rest)
    ensures CloseGroup(s, at, open, Closing(open), nesting, quotes) == CloseGroup(s, at + 1, open, Closing(open), nesting, quotes)
  {
    AtSplit(s, at, [c], rest);
    AtFirst(s, at, [c]);
  }

  lemma QuoteInText(s: string, at: nat, name: string, rest: string, open: char, nesting: nat)
    requires At(s, at, "\"" + name + "\"" + rest) && NoQuote(name) && nesting > 0
    ensures at + |name| + 2 <= |s| && At(s, at + |name| + 2, rest)
    ensures CloseGroup(s, at, open, Closing(open), nesting, true) == CloseGroup(s, at + |name| + 2, open, Closing(open), nesting, true)
  {
    var q := "\"" + name + "\"";
    AtSplit(s, at, q, rest);
    NameSkipped(s, at, name);
    AtFirst(s, at, q);
  }

  lemma NestedParts(s: string, at: nat, open: char, i: string, r: string, nesting: nat, quotes: bool)
    requires At(s, at, [open] + i + [Closing(open)] + r) && nesting > 0 && Bracket(open)
    ensures At(s, at + 1, i) && At(s, at + 2 + |i|, r) && at + 2 + |i| <= |s|
    ensures CloseGroup(s, at, open, Closing(open), nesting, quotes) == CloseGroup(s, at + 1, open, Closing(open), nesting + 1, quotes)
    ensures CloseGroup(s, at + 1 + |i|, open, Closing(open), nesting + 1, quotes) == CloseGroup(s, at + 2 + |i|, open, Closing(open), nesting, quotes)
  {
    AtSplit(s, at, [open] + i + [Closing(open)], r);
    AtSplit(s, at, [open] + i, [Closing(open)]);
    AtSplit(s, at, [open], i);
    AtFirst(s, at, [open]);
    AtFirst(s, at + 1 + |i|, [Closing(open)]);
  }

  /** A whole group, from behind its opening bracket. */
  lemma GroupSkipped(s: string, at: nat, t: Text, open: char, quotes: bool)
    requires At(s, at, PrintText(t, open) + [Closing(open)]) && TextValid(t, open, quotes) && Bracket(open)
    ensures CloseGroup(s, at, open, Closing(open), 1, quotes) == Some(at + |PrintText(t, open)| + 1)
  {
    hide At, PrintText, TextValid, CloseGroup, Bracket;
    AtSplit(s, at, PrintText(t, open), [Closing(open)]);
    TextSkipped(s, at, t, open, 1, quotes);
    AtFirst(s, at + |PrintText(t, open)|, [Closing(open)]);
    GroupClosed(s, at + |PrintText(t, open)|, open, quotes);
  }

  lemma GroupClosed(s: string, at: nat, open: char, quotes: bool)
    requires at < |s| && s[at] == Closing(open) && Bracket(open)
    ensures CloseGroup(s, at, open, Closing(open), 1, quotes) == Some(at + 1)
  {
  }

  lemma PointeeStart(p: Pointee, depth: nat)
    requires PointeeValid(p, depth)
    ensures PrintPointee(p) != "" && !Qualifier(PrintPointee(p)[0])
    ensures PrintPointee(p)[0] == '?' ==> p == Code('?')
  {
  }

  /** Behind a bare `@`, a quoted name belongs to it. */
  function Past(s: string, at: nat, open: bool): nat
    requires at <= |s|
  {
    if open && SkipObject(s, at).Some? then SkipObject(s, at).value else at
  }

  /** What may follow a printed form that ends with a bare `@`. */
  predicate FollowOk(s: string, at: nat, open: bool)
    requires at <= |s|
  {
    open ==> Ch(s, at) != '?' && SkipObject(s, at).Some?
  }

  lemma {:induction false} PointeeSkipped(s: string, at: nat, q: string, p: Pointee, depth: nat)
    requires At(s, at, q + PrintPointee(p)) && Qualifiers(q) && PointeeValid(p, depth)
    requires FollowOk(s, at + |q| + |PrintPointee(p)|, PointeeOpen(p))
    ensures SkipPointee(s, at, depth) == Some(Past(s, at + |q| + |PrintPointee(p)|, PointeeOpen(p)))
    decreases p
  {
    hide At, CloseGroup, SkipQualifiers, SkipObject, PrintText, PrintPointee, TextValid, Qualifier, Past, FollowOk, NoQuote;
    var here := at + |q|;
    AtSplit(s, at, q, PrintPointee(p));
    PointeeStart(p, depth);
    AtFirst(s, here, PrintPointee(p));
    QualifiersSkipped(s, at, q);
    if p.To? {
      PointerPrinted(p);
      AtSplit(s, here, "^", p.qualifiers + PrintPointee(p.pointee));
      PointeeSkipped(s, here + 1, p.qualifiers, p.pointee, depth + 1);
    } else {
      FlatPointee(s, at, p, depth);
    }
  }

  lemma PointerPrinted(p: Pointee)
    requires p.To?
    ensures PrintPointee(p) == "^" + (p.qualifiers + PrintPointee(p.pointee))
    ensures |PrintPointee(p)| == 1 + |p.qualifiers| + |PrintPointee(p.pointee)|
  {
  }

  /** Every pointee but a pointer. */
  lemma FlatPointee(s: string, at: nat, p: Pointee, depth: nat)
    requires !p.To? && PointeeValid(p, depth) && at <= |s| && At(s, SkipQualifiers(s, at), PrintPointee(p))
    requires FollowOk(s, SkipQualifiers(s, at) + |PrintPointee(p)|, PointeeOpen(p))
    ensures SkipPointee(s, at, depth) == Some(Past(s, SkipQualifiers(s, at) + |PrintPointee(p)|, PointeeOpen(p)))
  {
    hide At, CloseGroup, SkipQualifiers, SkipObject, PrintText, TextValid, Qualifier, Past, FollowOk, NoQuote;
    var here := SkipQualifiers(s, at);
    AtInside(s, here, PrintPointee(p));
    FollowFacts(s, here + |PrintPointee(p)|, PointeeOpen(p));
    PointeeStart(p, depth);
    AtFirst(s, here, PrintPointee(p));
    match p
    case Code(c) => CodeIsNoBracket(c);
    case Group(open, body) => GroupPointee(s, here, open, body);
    case AnyObject =>
    case Block => AtFirst(s, here + 1, "?");
    case Named(name) => NamedPointee(s, here, name);
  }

  lemma FollowFacts(s: string, at: nat, open: bool)
    requires at <= |s| && FollowOk(s, at, open)
    ensures !open ==> Past(s, at, open) == at
    ensures open ==> Ch(s, at) != '?' && SkipObject(s, at) == Some(Past(s, at, open))
  {
  }

  lemma GroupPointee(s: string, here: nat, open: char, body: Text)
    requires At(s, here, [open] + PrintText(body, open) + [Closing(open)]) && TextValid(body, open, true) && Bracket(open)
    ensures here < |s| && CloseGroup(s, here + 1, open, Closing(open), 1, true) == Some(here + 2 + |PrintText(body, open)|)
  {
    hide CloseGroup, PrintText, TextValid;
    assert [open] + PrintText(body, open) + [Closing(open)] == [open] + (PrintText(body, open) + [Closing(open)]);
    AtSplit(s, here, [open], PrintText(body, open) + [Closing(open)]);
    GroupSkipped(s, here + 1, body, open, true);
  }

  lemma NamedPointee(s: string, here: nat, name: string)
    requires At(s, here, "@\"" + name + "\"") && NoQuote(name)
    ensures here < |s| && Ch(s, here + 1) == '"' && SkipObject(s, here + 1) == Some(here + |name| + 3)
  {
    hide SkipObject;
    assert "@\"" + name + "\"" == "@" + ("\"" + name + "\"");
    AtSplit(s, here, "@", "\"" + name + "\"");
    NameSkipped(s, here + 1, name);
    AtFirst(s, here + 1, "\"" + name + "\"");
  }

  lemma CodeIsNoBracket(c: char)
    requires PointeeCode(c)
    ensures c != '^' && c != '{' && c != '(' && c != '[' && c != '@'
  {
  }

  lemma TypeStart(t: Type, depth: nat)
    requires Supported(t, depth)
    ensures Print(t) != "" && !Qualifier(Print(t)[0]) && Print(t)[0] !in "\"?}" && Print(t)[0] != NUL && !Digit(Print(t)[0])
  {
  }

  lemma QualifiedStart(q: string, t: Type, depth: nat)
    requires Supported(t, depth) && Qualifiers(q)
    ensures (q + Print(t)) != "" && (q + Print(t))[0] !in "\"?}" && (q + Print(t))[0] != NUL && !Digit((q + Print(t))[0])
  {
    TypeStart(t, depth);
    if q != "" { assert q[0] in q; }
  }

  // -------------------------------------------------------------------- numbers

  lemma {:induction false} DigitsSkipped(s: string, at: nat, digits: string)
    requires At(s, at, digits) && (forall c :: c in digits ==> Digit(c)) && !Digit(Ch(s, at + |digits|))
    ensures SkipDigits(s, at) == at + |digits|
    decreases |digits|
  {
    if digits != "" {
      AtFirst(s, at, digits);
      assert digits[0] in digits && forall c :: c in digits[1..] ==> c in digits;
      DigitsSkipped(s, at + 1, digits[1..]);
    }
  }

  function DigitChar(d: nat): char
    requires d < 10
  {
    ('0' as nat + d) as char
  }

  lemma DigitFacts(d: nat)
    requires d < 10
    ensures Digit(DigitChar(d)) && DigitChar(d) as nat - '0' as nat == d && !Space(DigitChar(d)) && DigitChar(d) != '-' && DigitChar(d) != '+'
  {
  }

  /** Array lengths have one or two digits. */
  lemma NumberRead(s: string, at: nat, n: nat)
    requires 1 <= n < 100 && At(s, at, PrintNumber(n)) && !Digit(Ch(s, at + |PrintNumber(n)|))
    ensures at <= |s| && ParseNumber(s, at) == Number(n, at + |PrintNumber(n)|)
  {
    var text := PrintNumber(n);
    if n < 10 { assert text == [DigitChar(n)]; DigitFacts(n); }
    else { assert text == [DigitChar(n / 10), DigitChar(n % 10)]; DigitFacts(n / 10); DigitFacts(n % 10); AtFirst(s, at, text); AtFirst(s, at + 1, text[1..]); }
    AtFirst(s, at, text);
    DigitsSkipped(s, at, text);
    AllDigits(s, at);
    NoSpace(s, at);
    var end := at + |text|;
    if n < 10 {
      assert Decimal(s, at, end, 0) == Decimal(s, at + 1, end, n);
    } else {
      assert Decimal(s, at, end, 0) == Decimal(s, at + 1, end, n / 10) == Decimal(s, at + 2, end, n / 10 * 10 + n % 10);
    }
  }

  lemma NoSpace(s: string, at: nat)
    requires at < |s| && !Space(s[at])
    ensures SkipSpaces(s, at) == at
  {
  }

  // ---------------------------------------------------------------- round trip

  lemma FlatSize(t: Type, depth: nat)
    requires Supported(t, depth)
    ensures Flat(t) != ""
  {
    if t.Array? {
      FlatSize(t.element, depth + 1);
      RepeatSize(t.count, |Flat(t.element)|);
    }
  }

  lemma {:induction false} TagSkipped(s: string, at: nat, tag: string)
    requires At(s, at, tag + "=") && TagLetters(tag)
    ensures at <= |s| && SkipTag(s, at) == at + |tag| && Ch(s, at + |tag|) == '='
    decreases |tag|
  {
    AtFirst(s, at, tag + "=");
    if tag != "" {
      assert tag[0] in tag && (tag + "=")[1..] == tag[1..] + "=" && forall c :: c in tag[1..] ==> c in tag;
      TagSkipped(s, at + 1, tag[1..]);
    }
  }

  /** No struct tag is mistaken for a C++ template. */
  lemma TagIsNoTemplate(s: string, at: nat, tag: string)
    requires At(s, at, tag + "=") && TagValid(tag)
    ensures !CxxObject(s, at)
  {
    NotPrefix(s, at, tag, "shared_ptr<");
    NotPrefix(s, at, tag, "function<");
    NotPrefix(s, at, tag, "basic_string<");
  }

  lemma NotPrefix(s: string, at: nat, tag: string, p: string)
    requires At(s, at, tag + "=") && '=' !in p && !HasPrefix(tag + "=", 0, p)
    ensures !HasPrefix(s, at, p)
  {
    if at + |p| <= |s| {
      if |p| <= |tag| {
        assert s[at..at + |p|] == s[at..at + |tag + "="|][..|p|] == (tag + "=")[0..|p|];
      } else {
        AtSplit(s, at, tag, "=");
        AtFirst(s, at + |tag|, "=");
        assert s[at..at + |p|][|tag|] == '=' && p[|tag|] in p;
      }
    }
  }

  lemma TemplateFound(s: string, at: nat, template: string)
    requires At(s, at, template) && Template(template)
    ensures CxxObject(s, at)
  {
  }

  lemma {:induction false} PlainRun(s: string, at: nat, text: string)
    requires At(s, at, text) && forall c :: c in text ==> c != '{' && c != '}'
    ensures at + |text| <= |s| && CloseGroup(s, at, '{', '}', 1, false) == CloseGroup(s, at + |text|, '{', '}', 1, false)
    decreases |text|
  {
    if text != "" {
      AtFirst(s, at, text);
      assert text[0] in text && forall c :: c in text[1..] ==> c in text;
      PlainRun(s, at + 1, text[1..]);
    }
  }

  lemma CxxRead(s: string, at: nat, template: string, body: Text)
    requires At(s, at, template + PrintText(body, '{') + "}") && Template(template) && TextValid(body, '{', false)
    ensures CxxObject(s, at) && at <= |s| && CloseGroup(s, at, '{', '}', 1, false) == Some(at + |template| + |PrintText(body, '{')| + 1)
  {
    hide CloseGroup, PrintText, TextValid;
    var text := PrintText(body, '{') + [Closing('{')];
    assert template + PrintText(body, '{') + "}" == template + text;
    AtSplit(s, at, template, text);
    TemplateFound(s, at, template);
    TemplatePlain(template);
    PlainRun(s, at, template);
    GroupSkipped(s, at + |template|, body, '{', false);
  }

  lemma TemplatePlain(template: string)
    requires Template(template)
    ensures forall c :: c in template ==> c != '{' && c != '}'
  {
  }

  /** Every supported type, whatever qualifiers come before it and whatever
      follows, is consumed exactly and becomes its flattened signature. */
  lemma {:induction false} TypeRoundTrip(s: string, at: nat, q: string, t: Type, room: nat, depth: nat)
    requires At(s, at, q + Print(t)) && Qualifiers(q) && Supported(t, depth) && |Flat(t)| <= room
    requires FollowOk(s, at + |q| + |Print(t)|, Open(t))
    ensures EncodeType(s, at, room, depth) == Some(Step(Past(s, at + |q| + |Print(t)|, Open(t)), Flat(t)))
    decreases t, 1
  {
    hide At, CloseGroup, SkipPointee, SkipQualifiers, SkipObject, ParseNumber, EncodeStruct, PrintText, PrintFields, PrintPointee, FlatFields, PrintNumber, TextValid, TagValid, Template, Qualifier, CxxObject, PointeeValid, EncodeFields, FollowOk, NoQuote, FieldsSupported;
    var here := at + |q|;
    AtSplit(s, at, q, Print(t));
    FlatSize(t, depth);
    TypeStart(t, depth);
    AtFirst(s, here, Print(t));
    QualifiersSkipped(s, at, q);
    match t
    case Scalar(c) => ScalarStart(c);
    case Object(class_) => ObjectRead(s, here, class_);
    case Pointer(r, p) => PointerRead(s, here, r, p, depth);
    case Struct(tag, fields) => StructRead(s, here, tag, fields, room, depth);
    case Cxx(template, body) => CxxStart(s, here, template, body);
    case Array(n, r, e) => ArrayRead(s, here, n, r, e, room, depth);
  }

  lemma ScalarStart(c: char)
    requires ScalarCode(c).Some?
    ensures c != '^' && c != '{' && c != '[' && c != '@'
  {
  }

  lemma ObjectRead(s: string, here: nat, class_: Option<string>)
    requires At(s, here, "@" + PrintName(class_)) && (class_.Some? ==> NoQuote(class_.value))
    requires FollowOk(s, here + 1 + |PrintName(class_)|, class_.None?)
    ensures here < |s| && Ch(s, here + 1) != '?' && SkipObject(s, here + 1) == Some(Past(s, here + 1 + |PrintName(class_)|, class_.None?))
  {
    if class_.Some? {
      assert "@" + PrintName(class_) == "@" + ("\"" + class_.value + "\"");
      AtSplit(s, here, "@", "\"" + class_.value + "\"");
      NameSkipped(s, here + 1, class_.value);
      AtFirst(s, here + 1, "\"" + class_.value + "\"");
    }
  }

  lemma PointerRead(s: string, here: nat, r: string, p: Pointee, depth: nat)
    requires At(s, here, "^" + r + PrintPointee(p)) && Qualifiers(r) && PointeeValid(p, depth + 1) && (r == "" ==> p != Code('?'))
    requires FollowOk(s, here + 1 + |r| + |PrintPointee(p)|, PointeeOpen(p))
    ensures here < |s| && Ch(s, here + 1) != '?'
    ensures SkipPointee(s, here + 1, depth + 1) == Some(Past(s, here + 1 + |r| + |PrintPointee(p)|, PointeeOpen(p)))
  {
    hide SkipPointee, SkipObject;
    assert "^" + r + PrintPointee(p) == "^" + (r + PrintPointee(p));
    AtSplit(s, here, "^", r + PrintPointee(p));
    PointeeStart(p, depth + 1);
    AtFirst(s, here + 1, r + PrintPointee(p));
    if r != "" { assert r[0] in r; }
    PointeeSkipped(s, here + 1, r, p, depth + 1);
  }

  lemma CxxStart(s: string, here: nat, template: string, body: Text)
    requires At(s, here, "{" + template + PrintText(body, '{') + "}") && Template(template) && TextValid(body, '{', false)
    ensures here < |s| && CxxObject(s, here + 1)
    ensures CloseGroup(s, here + 1, '{', '}', 1, false) == Some(here + |"{" + template + PrintText(body, '{') + "}"|)
  {
    hide CloseGroup, PrintText, TextValid, CxxObject;
    assert "{" + template + PrintText(body, '{') + "}" == "{" + (template + PrintText(body, '{') + "}");
    AtSplit(s, here, "{", template + PrintText(body, '{') + "}");
    CxxRead(s, here + 1, template, body);
  }

  lemma {:induction false} StructRead(s: string, here: nat, tag: string, fields: seq<Field>, room: nat, depth: nat)
    requires At(s, here, "{" + tag + "=" + PrintFields(fields) + "}") && TagValid(tag) && FieldsSupported(fields, depth + 1)
    requires |FlatFields(fields)| + 2 <= room
    ensures here < |s| && !CxxObject(s, here + 1)
    ensures EncodeStruct(s, here + 1, room, depth) == Some(Step(here + |"{" + tag + "=" + PrintFields(fields) + "}"|, "{" + FlatFields(fields) + "}"))
    decreases fields, 2
  {
    hide At, CxxObject, EncodeFields, PrintFields, FlatFields, FieldsSupported, SkipTag, TagLetters;
    var body := PrintFields(fields);
    assert "{" + tag + "=" + body + "}" == "{" + (tag + "=" + (body + "}"));
    AtSplit(s, here, "{", tag + "=" + (body + "}"));
    AtSplit(s, here + 1, tag + "=", body + "}");
    TagSkipped(s, here + 1, tag);
    TagIsNoTemplate(s, here + 1, tag);
    var start := here + 2 + |tag|;
    FieldsRoundTrip(s, start, start, fields, room - 1, depth + 1);
    AtSplit(s, start, body, "}");
    AtFirst(s, start + |body|, "}");
  }

  lemma {:induction false} ArrayRead(s: string, here: nat, n: nat, r: string, e: Type, room: nat, depth: nat)
    requires At(s, here, "[" + PrintNumber(n) + r + Print(e) + "]") && 1 <= n <= MAX_ARRAY && Qualifiers(r)
    requires Supported(e, depth + 1) && |Flat(e)| <= ELEMENT_ROOM && n * |Flat(e)| <= room
    ensures here < |s| && ParseNumber(s, here + 1).value == n
    ensures var start := ParseNumber(s, here + 1).next;
            && EncodeType(s, start, ELEMENT_ROOM, depth + 1) == Some(Step(here + |"[" + PrintNumber(n) + r + Print(e)|, Flat(e)))
            && Ch(s, here + |"[" + PrintNumber(n) + r + Print(e)|) == ']'
    decreases e, 2
  {
    hide At, ParseNumber, PrintNumber, EncodeType, Print, Flat, Supported, SkipObject;
    var number, element := PrintNumber(n), Print(e);
    assert "[" + number + r + element + "]" == "[" + (number + ((r + element) + "]"));
    AtSplit(s, here, "[", number + ((r + element) + "]"));
    AtSplit(s, here + 1, number, (r + element) + "]");
    var start := here + 1 + |number|;
    AtSplit(s, start, r + element, "]");
    QualifiedStart(r, e, depth + 1);
    AtFirst(s, start, r + element);
    NumberRead(s, here + 1, n);
    var end := start + |r + element|;
    AtFirst(s, end, "]");
    BracketFollows(s, end, Open(e));
    TypeRoundTrip(s, start, r, e, ELEMENT_ROOM, depth + 1);
  }

  lemma BracketFollows(s: string, end: nat, open: bool)
    requires end < |s| && s[end] == ']'
    ensures FollowOk(s, end, open) && Past(s, end, open) == end
  {
  }

  /** Where the parts of the first field stand. */
  lemma FieldParts(s: string, at: nat, fs: seq<Field>, depth: nat)
    requires fs != [] && At(s, at, PrintFields(fs) + "}") && FieldsSupported(fs, depth)
    ensures Supported(fs[0].type_, depth) && Qualifiers(fs[0].quals) && FieldsSupported(fs[1..], depth)
    ensures fs[0].name.Some? ==> NoQuote(fs[0].name.value)
    ensures var name, typed := PrintName(fs[0].name), fs[0].quals + Print(fs[0].type_);
            && |PrintFields(fs)| == |name| + |typed| + |PrintFields(fs[1..])|
            && At(s, at, name) && At(s, at + |name|, typed) && At(s, at + |name| + |typed|, PrintFields(fs[1..]) + "}")
            && at + |name| < |s| && s[at + |name|] !in "\"?}"
  {
    hide At, Print, Supported, Qualifiers, NoQuote, PrintName;
    var name, typed := PrintName(fs[0].name), fs[0].quals + Print(fs[0].type_);
    var rest := PrintFields(fs[1..]) + "}";
    assert PrintFields(fs) + "}" == name + (typed + rest);
    AtSplit(s, at, name, typed + rest);
    AtSplit(s, at + |name|, typed, rest);
    QualifiedStart(fs[0].quals, fs[0].type_, depth);
    AtFirst(s, at + |name|, typed);
  }

  /** The fields, from their start or, behind a bare `@`, from behind the first name. */
  lemma {:induction false} FieldsRoundTrip(s: string, at: nat, from: nat, fs: seq<Field>, room: nat, depth: nat)
    requires At(s, at, PrintFields(fs) + "}") && FieldsSupported(fs, depth) && |FlatFields(fs)| <= room
    requires at <= |s| && (from == at || from == Past(s, at, true))
    ensures from <= |s| && EncodeFields(s, from, room, depth) == Some(Step(at + |PrintFields(fs)|, FlatFields(fs)))
    decreases fs, 1
  {
    hide At, SkipObject, EncodeType, EncodeFields, Print, Flat, Supported, Past, FollowOk, PrintFields, FieldsSupported, Qualifiers, NoQuote, PrintName;
    if fs == [] {
      NoFields(s, at, from, room, depth);
    } else {
      var f, name, typed := fs[0], PrintName(fs[0].name), fs[0].quals + Print(fs[0].type_);
      FieldParts(s, at, fs, depth);
      FieldStart(s, at, from, f.name);
      var p, end := at + |name|, at + |name| + |typed|;
      RestFollows(s, end, fs[1..], depth);
      NotOpenFollows(s, end, Open(f.type_));
      TypeRoundTrip(s, p, f.quals, f.type_, room, depth);
      var next := Past(s, end, Open(f.type_));
      FieldsRoundTrip(s, end, next, fs[1..], room - |Flat(f.type_)|, depth);
      FieldsStep(s, from, p, room, depth, Step(next, Flat(f.type_)), Step(at + |PrintFields(fs)|, FlatFields(fs[1..])));
    }
  }

  lemma FieldsStep(s: string, from: nat, p: nat, room: nat, depth: nat, f: Step, rest: Step)
    requires from < |s| && s[from] != '}' && SkipObject(s, from) == Some(p) && EncodeType(s, p, room, depth) == Some(f)
    requires EncodeFields(s, f.next, room - |f.text|, depth) == Some(rest)
    ensures EncodeFields(s, from, room, depth) == Some(Step(rest.next, f.text + rest.text))
  {
    hide SkipObject, EncodeType;
  }

  lemma NoFields(s: string, at: nat, from: nat, room: nat, depth: nat)
    requires At(s, at, PrintFields([]) + "}") && at <= |s| && (from == at || from == Past(s, at, true))
    ensures PrintFields([]) == "" == FlatFields([]) && from == at < |s| && s[at] == '}'
    ensures EncodeFields(s, from, room, depth) == Some(Step(at, ""))
  {
    AtFirst(s, at, "}");
    PlainStart(s, at);
  }

  lemma NotOpenFollows(s: string, at: nat, open: bool)
    requires at <= |s| && FollowOk(s, at, true)
    ensures FollowOk(s, at, open) && (Past(s, at, open) == at || Past(s, at, open) == Past(s, at, true))
  {
  }

  lemma PlainStart(s: string, at: nat)
    requires at < |s| && s[at] != '"'
    ensures SkipObject(s, at) == Some(at)
  {
  }

  /** The parser finds the start of a field's type. */
  lemma FieldStart(s: string, at: nat, from: nat, name: Option<string>)
    requires At(s, at, PrintName(name)) && (name.Some? ==> NoQuote(name.value)) && at + |PrintName(name)| < |s|
    requires s[at + |PrintName(name)|] !in "\"?}"
    requires at <= |s| && (from == at || from == Past(s, at, true))
    ensures from < |s| && s[from] != '}' && SkipObject(s, from) == Some(at + |PrintName(name)|)
  {
    if name.Some? {
      assert PrintName(name) == "\"" + name.value + "\"";
      NameSkipped(s, at, name.value);
      AtFirst(s, at, PrintName(name));
    }
  }

  /** What comes behind a field may follow a bare `@`. */
  lemma RestFollows(s: string, at: nat, fs: seq<Field>, depth: nat)
    requires At(s, at, PrintFields(fs) + "}") && FieldsSupported(fs, depth)
    ensures at < |s| && FollowOk(s, at, true)
  {
    hide At, SkipObject, Print, Supported, FieldsSupported, Qualifiers, NoQuote, PrintFields;
    if fs == [] {
      AtInside(s, at, PrintFields(fs) + "}");
      NoFields(s, at, at, 0, 0);
      PlainFollows(s, at);
    } else {
      FieldParts(s, at, fs, depth);
      match fs[0].name
      case None =>
        assert |PrintName(None)| == 0;
        PlainFollows(s, at);
      case Some(n) =>
        NameSkipped(s, at, n);
        AtFirst(s, at, "\"" + n + "\"");
    }
  }

  lemma PlainFollows(s: string, at: nat)
    requires at < |s| && s[at] !in "\"?"
    ensures FollowOk(s, at, true)
  {
    PlainStart(s, at);
  }

  // ------------------------------------------------------------------- balance

  /** Scans braces: the depth never falls below zero and ends at `depth`. */
  predicate Balanced(text: string, depth: nat) {
    if text == "" then depth == 0
    else if text[0] == '{' then Balanced(text[1..], depth + 1)
    else if text[0] == '}' then depth > 0 && Balanced(text[1..], depth - 1)
    else Balanced(text[1..], depth)
  }

  lemma {:induction false} BalancedJoin(a: string, b: string, depth: nat, under: nat)
    requires Balanced(a, depth)
    ensures Balanced(a + b, depth + under) == Balanced(b, under)
    decreases |a|
  {
    if a == "" {
      assert a + b == b;
    } else {
      assert (a + b)[0] == a[0] && (a + b)[1..] == a[1..] + b;
      if a[0] == '{' { BalancedJoin(a[1..], b, depth + 1, under); }
      else if a[0] == '}' { BalancedJoin(a[1..], b, depth - 1, under); }
      else { BalancedJoin(a[1..], b, depth, under); }
    }
  }

  lemma BalancedBraces(a: string)
    requires Balanced(a, 0)
    ensures Balanced("{" + a + "}", 0)
  {
    assert ("{" + a + "}")[1..] == a + "}";
    BalancedJoin(a, "}", 0, 1);
    assert "}"[1..] == "";
  }

  lemma {:induction false} BalancedRepeat(a: string, n: nat)
    requires Balanced(a, 0)
    ensures Balanced(Repeat(a, n), 0)
  {
    if n > 0 {
      BalancedRepeat(a, n - 1);
      BalancedJoin(a, Repeat(a, n - 1), 0, 0);
    }
  }

  lemma NothingBalanced()
    ensures Balanced("", 0)
  {
  }

  lemma OneCharacter(c: char)
    requires c != '{' && c != '}'
    ensures Balanced([c], 0)
  {
    assert [c][1..] == "";
  }

  /** The texts that the translator can write for one type. */
  lemma TypeCases(s: string, at: nat, room: nat, depth: nat)
    requires at <= |s| && EncodeType(s, at, room, depth).Some?
    ensures var q := SkipQualifiers(s, at);
            var text := EncodeType(s, at, room, depth).value.text;
            || text == "p"
            || (ScalarCode(Ch(s, q)).Some? && text == [ScalarCode(Ch(s, q)).value])
            || (q < |s| && room > 0 && EncodeStruct(s, q + 1, room, depth).Some? && text == EncodeStruct(s, q + 1, room, depth).value.text)
            || (q < |s| && ParseNumber(s, q + 1).value > 0
                && EncodeType(s, ParseNumber(s, q + 1).next, ELEMENT_ROOM, depth + 1).Some?
                && text == Repeat(EncodeType(s, ParseNumber(s, q + 1).next, ELEMENT_ROOM, depth + 1).value.text, ParseNumber(s, q + 1).value))
  {
    hide SkipQualifiers, ParseNumber, EncodeStruct, SkipPointee, SkipObject, CloseGroup, CxxObject, Repeat, ScalarCode;
  }

  /** Whatever the input, a translation that succeeds is balanced and fits. */
  lemma {:induction false} OutputBalanced(s: string, at: nat, room: nat, depth: nat)
    requires at <= |s| && EncodeType(s, at, room, depth).Some?
    ensures var text := EncodeType(s, at, room, depth).value.text; Balanced(text, 0) && 0 < |text| <= room
    decreases |s| - at, 1
  {
    hide EncodeType, EncodeStruct, Balanced, Repeat, ParseNumber, SkipQualifiers;
    TypeCases(s, at, room, depth);
    var q := SkipQualifiers(s, at);
    OneCharacter('p');
    if ScalarCode(Ch(s, q)).Some? { OneCharacter(ScalarCode(Ch(s, q)).value); }
    if q < |s| && room > 0 && EncodeStruct(s, q + 1, room, depth).Some? { StructBalanced(s, q + 1, room, depth); }
    if q < |s| && EncodeType(s, ParseNumber(s, q + 1).next, ELEMENT_ROOM, depth + 1).Some? {
      var n := ParseNumber(s, q + 1);
      OutputBalanced(s, n.next, ELEMENT_ROOM, depth + 1);
      var e := EncodeType(s, n.next, ELEMENT_ROOM, depth + 1).value.text;
      BalancedRepeat(e, n.value);
      if n.value > 0 { RepeatSize(n.value, |e|); }
    }
  }

  lemma {:induction false} StructBalanced(s: string, at: nat, room: nat, depth: nat)
    requires 0 < at <= |s| && room > 0 && EncodeStruct(s, at, room, depth).Some?
    ensures var text := EncodeStruct(s, at, room, depth).value.text; Balanced(text, 0) && 0 < |text|
    decreases |s| - at, 2
  {
    hide EncodeFields, Balanced;
    var fields := EncodeFields(s, SkipTag(s, at) + 1, room - 1, depth + 1);
    FieldsBalanced(s, SkipTag(s, at) + 1, room - 1, depth + 1);
    BalancedBraces(fields.value.text);
  }

  lemma {:induction false} FieldsBalanced(s: string, at: nat, room: nat, depth: nat)
    requires at <= |s| && EncodeFields(s, at, room, depth).Some?
    ensures Balanced(EncodeFields(s, at, room, depth).value.text, 0)
    decreases |s| - at, 3
  {
    hide Balanced, SkipObject, EncodeType;
    if at >= |s| || s[at] == '}' {
      NothingBalanced();
    } else {
      var p := SkipObject(s, at).value;
      OutputBalanced(s, p, room, depth);
      var f := EncodeType(s, p, room, depth).value;
      FieldsBalanced(s, f.next, room - |f.text|, depth);
      BalancedJoin(f.text, EncodeFields(s, f.next, room - |f.text|, depth).value.text, 0, 0);
    }
  }

  // -------------------------------------------------------------------- limits

  /** The translator's limits: types nested deeper than 8, pointers deeper than
      16, and arrays of none or more than 64 elements are refused, and no less. */
  lemma NestingLimit(s: string, at: nat, room: nat, depth: nat)
    requires at <= |s|
    ensures depth > 8 ==> EncodeType(s, at, room, depth) == None
    ensures room > 0 && depth <= 8 ==> EncodeType("i", 0, room, depth) == Some(Step(1, "i"))
  {
  }

  lemma IndirectionLimit(s: string, at: nat, depth: nat)
    requires at <= |s|
    ensures depth > 16 ==> SkipPointee(s, at, depth) == None
    ensures depth <= 16 ==> SkipPointee("i", 0, depth) == Some(1)
  {
  }

  lemma ArrayLimit(s: string, at: nat, room: nat, depth: nat, t: Type, n: nat, q: string)
    requires 0 < at <= |s| && room > 0
    ensures !(1 <= ParseNumber(s, at).value <= 64) ==> EncodeArray(s, at, room, depth) == None
    ensures Supported(Array(n, q, t), depth) <==>
              depth <= 8 && 1 <= n <= 64 && Qualifiers(q) && Supported(t, depth + 1) && |Flat(t)| < 2048
  {
  }
}
