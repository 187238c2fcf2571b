/** Whole method encodings: a return type and arguments, each followed by its
    stack offset, become one signature. */
module MethodSignatures {
  import opened TypeEncodings
  import opened Wrappers
  import opened TypeSignatures

  /** How a C++ object that is returned through a hidden pointer is written. */
  function CxxReturn(s: string): string {
    if HasPrefix(s, 0, "{shared_ptr<") then "!{pp}"
    else if HasPrefix(s, 0, "{function<") then "!{qqqq}"
    else if HasPrefix(s, 0, "{basic_string<") then "!{qqq}" else ""
  }

  function EncodeArguments(s: string, at: nat, room: nat): (r: Option<string>)
    requires at <= |s|
    ensures r.Some? ==> |r.value| <= room
    decreases |s| - at
  {
    if at == |s| then Some("")
    else match EncodeType(s, at, room, 0)
      case None => None
      case Some(f) =>
        match EncodeArguments(s, SkipDigits(s, f.next), room - |f.text|)
        case None => None
        case Some(rest) => Some(f.text + rest)
  }

  /** The text, without the NUL that must also fit. */
  function EncodeSignature(s: string, capacity: nat): (r: Option<string>)
    ensures r.Some? ==> |r.value| < capacity
  {
    if capacity == 0 then None
    else
      var start := CxxReturn(s);
      if start == "" then EncodeArguments(s, 0, capacity - 1)
      else match EncodeType(s, 0, ELEMENT_ROOM, 0)
        case None => None
        case Some(f) =>
          if capacity - 1 < |start| then None
          else match EncodeArguments(s, SkipDigits(s, f.next), capacity - 1 - |start|)
            case None => None
            case Some(rest) => Some(start + rest)
  }

  // ---------------------------------------------------------------- round trip

  datatype Argument = Argument(quals: string, type_: Type, offset: string)

  predicate Digits(d: string) { forall c :: c in d ==> Digit(c) }

  predicate ArgumentsSupported(a: seq<Argument>) {
    forall i :: 0 <= i < |a| ==> Qualifiers(a[i].quals) && Supported(a[i].type_, 0) && Digits(a[i].offset)
  }

  function PrintArguments(a: seq<Argument>): string {
    if a == [] then "" else a[0].quals + Print(a[0].type_) + a[0].offset + PrintArguments(a[1..])
  }

  function FlatArguments(a: seq<Argument>): string {
    if a == [] then "" else Flat(a[0].type_) + FlatArguments(a[1..])
  }

  predicate ReturnsCxx(a: seq<Argument>) { a != [] && a[0].quals == "" && a[0].type_.Cxx? }

  function ReturnForm(template: string): string {
    if template == "shared_ptr<" then "!{pp}" else if template == "function<" then "!{qqqq}" else "!{qqq}"
  }

  /** The signature that a method with this return type and these arguments has. */
  function SignatureOf(a: seq<Argument>): string {
    if ReturnsCxx(a) then
      ReturnForm(a[0].type_.template) + FlatArguments(a[1..])
    else FlatArguments(a)
  }

  lemma WholeAt(s: string)
    ensures At(s, 0, s)
  {
    assert s[0..|s|] == s;
  }

  /** The parts of the first argument, and what follows it. */
  lemma ArgumentParts(s: string, at: nat, a: seq<Argument>)
    requires a != [] && At(s, at, PrintArguments(a)) && ArgumentsSupported(a) && at + |PrintArguments(a)| == |s|
    ensures var typed, end := a[0].quals + Print(a[0].type_), at + |a[0].quals| + |Print(a[0].type_)|;
            && Supported(a[0].type_, 0) && Qualifiers(a[0].quals) && ArgumentsSupported(a[1..])
            && At(s, at, typed) && at < end <= |s| && FollowOk(s, end, true) && Past(s, end, true) == end
            && SkipDigits(s, end) == end + |a[0].offset|
            && At(s, end + |a[0].offset|, PrintArguments(a[1..]))
            && end + |a[0].offset| + |PrintArguments(a[1..])| == |s|
  {
    hide At, Print, Supported, Qualifiers, Digits, SkipDigits, SkipObject, FollowOk, Past;
    var typed, rest := a[0].quals + Print(a[0].type_), PrintArguments(a[1..]);
    var end := at + |typed|;
    assert PrintArguments(a) == typed + (a[0].offset + rest);
    AtSplit(s, at, typed, a[0].offset + rest);
    AtSplit(s, end, a[0].offset, rest);
    QualifiedStart(a[0].quals, a[0].type_, 0);
    RestStart(s, end + |a[0].offset|, a[1..]);
    OffsetSkipped(s, end, a[0].offset);
  }

  lemma RestStart(s: string, at: nat, a: seq<Argument>)
    requires At(s, at, PrintArguments(a)) && ArgumentsSupported(a) && at + |PrintArguments(a)| == |s|
    ensures Ch(s, at) !in "\"?" && !Digit(Ch(s, at))
  {
    hide At, Print, Supported, Qualifiers, Digits;
    if a != [] {
      var typed := a[0].quals + Print(a[0].type_);
      QualifiedStart(a[0].quals, a[0].type_, 0);
      AtFirst(s, at, PrintArguments(a));
      assert PrintArguments(a)[0] == typed[0];
    }
  }

  lemma OffsetSkipped(s: string, at: nat, digits: string)
    requires At(s, at, digits) && Digits(digits) && Ch(s, at + |digits|) !in "\"?" && !Digit(Ch(s, at + |digits|))
    ensures at <= |s| && SkipDigits(s, at) == at + |digits| && FollowOk(s, at, true) && Past(s, at, true) == at
  {
    DigitsSkipped(s, at, digits);
    if digits != "" {
      AtFirst(s, at, digits);
      assert digits[0] in digits;
    }
  }

  lemma {:induction false} ArgumentsRoundTrip(s: string, at: nat, a: seq<Argument>, room: nat)
    requires At(s, at, PrintArguments(a)) && ArgumentsSupported(a) && at + |PrintArguments(a)| == |s| && |FlatArguments(a)| <= room
    ensures EncodeArguments(s, at, room) == Some(FlatArguments(a))
    decreases a
  {
    hide At, Print, Flat, Supported, Qualifiers, SkipDigits, FollowOk, Past, EncodeType, ArgumentsSupported;
    if a != [] {
      ArgumentParts(s, at, a);
      FirstArgument(s, at, a[0], room);
      ArgumentsRoundTrip(s, at + |a[0].quals| + |Print(a[0].type_)| + |a[0].offset|, a[1..], room - |Flat(a[0].type_)|);
    }
  }

  lemma FirstArgument(s: string, at: nat, f: Argument, room: nat)
    requires At(s, at, f.quals + Print(f.type_)) && Qualifiers(f.quals) && Supported(f.type_, 0) && |Flat(f.type_)| <= room
    requires var end := at + |f.quals| + |Print(f.type_)|; end <= |s| && FollowOk(s, end, true) && Past(s, end, true) == end
    ensures EncodeType(s, at, room, 0) == Some(Step(at + |f.quals| + |Print(f.type_)|, Flat(f.type_)))
  {
    hide At, Print, Flat, Supported, Qualifiers, FollowOk, Past, EncodeType;
    NotOpenFollows(s, at + |f.quals| + |Print(f.type_)|, Open(f.type_));
    TypeRoundTrip(s, at, f.quals, f.type_, room, 0);
  }

  /** The C++ return form is chosen for exactly the methods that return such an object. */
  lemma ReturnFound(a: seq<Argument>)
    requires ArgumentsSupported(a)
    ensures CxxReturn(PrintArguments(a)) == if ReturnsCxx(a) then ReturnForm(a[0].type_.template) else ""
  {
    hide At, Print, Supported, Qualifiers, ReturnForm;
    var s := PrintArguments(a);
    if a != [] {
      WholeAt(s);
      ArgumentParts(s, 0, a);
      FirstReturn(s, a[0]);
    }
  }

  lemma FirstReturn(s: string, f: Argument)
    requires At(s, 0, f.quals + Print(f.type_)) && Qualifiers(f.quals) && Supported(f.type_, 0)
    ensures CxxReturn(s) == if f.quals == "" && f.type_.Cxx? then ReturnForm(f.type_.template) else ""
  {
    hide At, Supported, Print, ReturnForm, CxxReturn;
    var typed := f.quals + Print(f.type_);
    QualifiedStart(f.quals, f.type_, 0);
    AtFirst(s, 0, typed);
    if f.quals != "" {
      assert f.quals[0] in f.quals;
      NoBrace(s);
    } else {
      assert typed == Print(f.type_);
      match f.type_
      case Struct(_, _) => StructIsNoReturn(s, f.type_);
      case Cxx(_, _) => CxxIsReturn(s, f.type_);
      case _ =>
        OtherStart(f.type_);
        NoBrace(s);
    }
  }

  lemma NoBrace(s: string)
    requires s != "" && s[0] != '{'
    ensures CxxReturn(s) == ""
  {
  }

  lemma OtherStart(t: Type)
    requires Supported(t, 0) && !t.Struct? && !t.Cxx?
    ensures Print(t) != "" && Print(t)[0] != '{'
  {
  }

  lemma StructIsNoReturn(s: string, t: Type)
    requires t.Struct? && Supported(t, 0) && At(s, 0, Print(t))
    ensures CxxReturn(s) == ""
  {
    hide At, CxxObject, PrintFields;
    var rest := PrintFields(t.fields) + "}";
    assert Print(t) == "{" + ((t.tag + "=") + rest);
    AtSplit(s, 0, "{", (t.tag + "=") + rest);
    AtSplit(s, 1, t.tag + "=", rest);
    TagIsNoTemplate(s, 1, t.tag);
    BehindBrace(s);
  }

  lemma BehindBrace(s: string)
    ensures CxxReturn(s) != "" ==> CxxObject(s, 1)
  {
    forall p: string | HasPrefix(s, 0, "{" + p)
      ensures HasPrefix(s, 1, p)
    {
      assert s[1..1 + |p|] == s[0..1 + |p|][1..];
      assert ("{" + p)[1..] == p;
    }
    assert "{shared_ptr<" == "{" + "shared_ptr<" && "{function<" == "{" + "function<" && "{basic_string<" == "{" + "basic_string<";
  }

  lemma CxxIsReturn(s: string, t: Type)
    requires t.Cxx? && Supported(t, 0) && At(s, 0, Print(t))
    ensures CxxReturn(s) == ReturnForm(t.template)
  {
    hide At, HasPrefix, PrintText, TextValid, ReturnForm, CxxReturn;
    var head, rest := "{" + t.template, PrintText(t.body, '{') + "}";
    assert Print(t) == head + rest;
    AtSplit(s, 0, head, rest);
    HeadIsPrefix(s, head);
    ReturnOfTemplate(s, t.template);
  }

  lemma HeadIsPrefix(s: string, head: string)
    requires At(s, 0, head)
    ensures HasPrefix(s, 0, head)
  {
  }

  lemma ReturnOfTemplate(s: string, template: string)
    requires Template(template) && HasPrefix(s, 0, "{" + template)
    ensures CxxReturn(s) == ReturnForm(template)
  {
    hide HasPrefix;
    assert "{shared_ptr<" == "{" + "shared_ptr<" && "{function<" == "{" + "function<" && "{basic_string<" == "{" + "basic_string<";
    OnlyPrefix(s, "{" + template, "{shared_ptr<");
    OnlyPrefix(s, "{" + template, "{function<");
    OnlyPrefix(s, "{" + template, "{basic_string<");
  }

  lemma OnlyPrefix(s: string, head: string, p: string)
    requires |head| > 1 && |p| > 1 && HasPrefix(s, 0, head)
    ensures HasPrefix(s, 0, p) ==> p[1] == head[1]
  {
    assert s[0..|head|][1] == s[1];
    assert |p| <= |s| ==> s[0..|p|][1] == s[1];
  }

  lemma PlainSignature(s: string, capacity: nat)
    requires CxxReturn(s) == "" && capacity > 0
    ensures EncodeSignature(s, capacity) == EncodeArguments(s, 0, capacity - 1)
  {
  }

  lemma CxxSignature(s: string, capacity: nat, f: Step, rest: string)
    requires CxxReturn(s) != "" && |CxxReturn(s)| < capacity && f.next <= |s| && EncodeType(s, 0, ELEMENT_ROOM, 0) == Some(f)
    requires EncodeArguments(s, SkipDigits(s, f.next), capacity - 1 - |CxxReturn(s)|) == Some(rest)
    ensures EncodeSignature(s, capacity) == Some(CxxReturn(s) + rest)
  {
    hide EncodeType, EncodeArguments, CxxReturn;
  }

  /** For every list of supported types, qualifiers and offsets, converting the
      printed method encoding yields its signature whenever that fits. */
  lemma SignatureRoundTrip(a: seq<Argument>, capacity: nat)
    requires ArgumentsSupported(a) && |SignatureOf(a)| < capacity
    ensures EncodeSignature(PrintArguments(a), capacity) == Some(SignatureOf(a))
  {
    hide At, Print, Supported, Qualifiers, SkipDigits, FollowOk, Past, EncodeType, EncodeSignature, EncodeArguments, FlatArguments, ArgumentsSupported, CxxReturn, PrintArguments;
    var s := PrintArguments(a);
    WholeAt(s);
    ReturnFound(a);
    if ReturnsCxx(a) {
      ArgumentParts(s, 0, a);
      FlatCxx(a[0].type_);
      FirstArgument(s, 0, a[0], ELEMENT_ROOM);
      var next := |a[0].quals| + |Print(a[0].type_)| + |a[0].offset|;
      ArgumentsRoundTrip(s, next, a[1..], capacity - 1 - |CxxReturn(s)|);
      CxxSignature(s, capacity, Step(|a[0].quals| + |Print(a[0].type_)|, Flat(a[0].type_)), FlatArguments(a[1..]));
    } else {
      ArgumentsRoundTrip(s, 0, a, capacity - 1);
      PlainSignature(s, capacity);
    }
  }

  lemma FlatCxx(t: Type)
    requires t.Cxx?
    ensures |Flat(t)| == 1
  {
  }

  // ------------------------------------------------------------------- more room

  lemma {:induction false} TypeMoreRoom(s: string, at: nat, room: nat, more: nat, depth: nat)
    requires at <= |s| && room <= more && EncodeType(s, at, room, depth).Some?
    ensures EncodeType(s, at, more, depth) == EncodeType(s, at, room, depth)
    decreases |s| - at, 1
  {
    hide EncodeStruct, SkipPointee, SkipObject, CloseGroup, CxxObject, ParseNumber, Repeat;
    var q := SkipQualifiers(s, at);
    if q < |s| && room > 0 && EncodeStruct(s, q + 1, room, depth).Some? { StructMoreRoom(s, q + 1, room, more, depth); }
  }

  lemma {:induction false} StructMoreRoom(s: string, at: nat, room: nat, more: nat, depth: nat)
    requires 0 < at <= |s| && 0 < room <= more && EncodeStruct(s, at, room, depth).Some?
    ensures EncodeStruct(s, at, more, depth) == EncodeStruct(s, at, room, depth)
    decreases |s| - at, 2
  {
    hide EncodeFields;
    FieldsMoreRoom(s, SkipTag(s, at) + 1, room - 1, more - 1, depth + 1);
  }

  lemma {:induction false} FieldsMoreRoom(s: string, at: nat, room: nat, more: nat, depth: nat)
    requires at <= |s| && room <= more && EncodeFields(s, at, room, depth).Some?
    ensures EncodeFields(s, at, more, depth) == EncodeFields(s, at, room, depth)
    decreases |s| - at, 3
  {
    hide SkipObject, EncodeType;
    if at < |s| && s[at] != '}' {
      var p := SkipObject(s, at).value;
      TypeMoreRoom(s, p, room, more, depth);
      var f := EncodeType(s, p, room, depth).value;
      FieldsMoreRoom(s, f.next, room - |f.text|, more - |f.text|, depth);
    }
  }

  lemma {:induction false} ArgumentsMoreRoom(s: string, at: nat, room: nat, more: nat)
    requires at <= |s| && room <= more && EncodeArguments(s, at, room).Some?
    ensures EncodeArguments(s, at, more) == EncodeArguments(s, at, room)
    decreases |s| - at
  {
    hide EncodeType;
    if at < |s| {
      var f := EncodeType(s, at, room, 0).value;
      TypeMoreRoom(s, at, room, more, 0);
      ArgumentsMoreRoom(s, SkipDigits(s, f.next), room - |f.text|, more - |f.text|);
    }
  }

  lemma SignatureMoreRoom(s: string, capacity: nat, more: nat)
    requires capacity <= more && EncodeSignature(s, capacity).Some?
    ensures EncodeSignature(s, more) == EncodeSignature(s, capacity)
  {
    hide EncodeType, EncodeArguments, CxxReturn;
    var start := CxxReturn(s);
    if start == "" {
      ArgumentsMoreRoom(s, 0, capacity - 1, more - 1);
    } else {
      var next := SkipDigits(s, EncodeType(s, 0, ELEMENT_ROOM, 0).value.next);
      ArgumentsMoreRoom(s, next, capacity - 1 - |start|, more - 1 - |start|);
    }
  }

  /** The conversion of a supported method fails exactly when its signature and
      the NUL do not fit. */
  lemma SignatureFitsOrFails(a: seq<Argument>, capacity: nat)
    requires ArgumentsSupported(a)
    ensures EncodeSignature(PrintArguments(a), capacity) == if |SignatureOf(a)| < capacity then Some(SignatureOf(a)) else None
  {
    hide EncodeSignature, ArgumentsSupported, SignatureOf, PrintArguments;
    if |SignatureOf(a)| < capacity {
      SignatureRoundTrip(a, capacity);
    } else if EncodeSignature(PrintArguments(a), capacity).Some? {
      SignatureRoundTrip(a, |SignatureOf(a)| + 1);
      SignatureMoreRoom(PrintArguments(a), capacity, |SignatureOf(a)| + 1);
    }
  }

  // ------------------------------------------------------------------- balance

  lemma {:induction false} ArgumentsBalanced(s: string, at: nat, room: nat)
    requires at <= |s| && EncodeArguments(s, at, room).Some?
    ensures Balanced(EncodeArguments(s, at, room).value, 0)
    decreases |s| - at
  {
    hide Balanced, EncodeType;
    if at == |s| {
      NothingBalanced();
    } else {
      var f := EncodeType(s, at, room, 0).value;
      OutputBalanced(s, at, room, 0);
      var next := SkipDigits(s, f.next);
      ArgumentsBalanced(s, next, room - |f.text|);
      BalancedJoin(f.text, EncodeArguments(s, next, room - |f.text|).value, 0, 0);
    }
  }

  /** Whatever the input, a conversion that succeeds is balanced, fits with its
      NUL, and says nothing only of the empty encoding. */
  lemma SignatureBalanced(s: string, capacity: nat)
    requires EncodeSignature(s, capacity).Some?
    ensures var text := EncodeSignature(s, capacity).value;
            Balanced(text, 0) && |text| < capacity && (text == "" <==> s == "")
  {
    hide Balanced, EncodeType, CxxReturn;
    var start := CxxReturn(s);
    if start == "" {
      ArgumentsBalanced(s, 0, capacity - 1);
      if s != "" { OutputBalanced(s, 0, capacity - 1, 0); }
    } else {
      NoReturnOfNothing(s);
      var next := SkipDigits(s, EncodeType(s, 0, ELEMENT_ROOM, 0).value.next);
      ArgumentsBalanced(s, next, capacity - 1 - |start|);
      ReturnsBalanced(s);
      BalancedJoin(start, EncodeArguments(s, next, capacity - 1 - |start|).value, 0, 0);
    }
  }

  lemma NoReturnOfNothing(s: string)
    requires CxxReturn(s) != ""
    ensures s != ""
  {
  }

  lemma ReturnsBalanced(s: string)
    ensures Balanced(CxxReturn(s), 0)
  {
    assert "!{pp}" == "!{" + "pp" + "}" && "!{qqqq}" == "!{" + "qqqq" + "}" && "!{qqq}" == "!{" + "qqq" + "}";
    PairBalanced("pp");
    PairBalanced("qqqq");
    PairBalanced("qqq");
    NothingBalanced();
  }

  lemma PairBalanced(inner: string)
    requires forall c :: c in inner ==> c != '{' && c != '}'
    ensures Balanced("!{" + inner + "}", 0)
  {
    PlainBalanced(inner);
    BalancedBraces(inner);
    assert ("!{" + inner + "}")[1..] == "{" + inner + "}";
  }

  lemma {:induction false} PlainBalanced(text: string)
    requires forall c :: c in text ==> c != '{' && c != '}'
    ensures Balanced(text, 0)
  {
    if text != "" {
      assert text[0] in text && forall c :: c in text[1..] ==> c in text;
      PlainBalanced(text[1..]);
    }
  }

  // ---------------------------------------------------- no NUL inside a signature

  predicate NulFree(text: string) { NUL !in text }

  lemma {:induction false} RepeatNulFree(text: string, n: nat)
    requires NulFree(text)
    ensures NulFree(Repeat(text, n))
  {
    if n > 0 { RepeatNulFree(text, n - 1); }
  }

  lemma ScalarNulFree(c: char)
    ensures ScalarCode(c).Some? ==> ScalarCode(c).value != NUL
  {
  }

  lemma {:induction false} TypeNulFree(s: string, at: nat, room: nat, depth: nat)
    requires at <= |s| && EncodeType(s, at, room, depth).Some?
    ensures NulFree(EncodeType(s, at, room, depth).value.text)
    decreases |s| - at, 1
  {
    hide EncodeType, EncodeStruct, Repeat, ParseNumber, SkipQualifiers;
    TypeCases(s, at, room, depth);
    var q := SkipQualifiers(s, at);
    ScalarNulFree(Ch(s, q));
    if q < |s| && room > 0 && EncodeStruct(s, q + 1, room, depth).Some? { StructNulFree(s, q + 1, room, depth); }
    if q < |s| && EncodeType(s, ParseNumber(s, q + 1).next, ELEMENT_ROOM, depth + 1).Some? {
      var n := ParseNumber(s, q + 1);
      TypeNulFree(s, n.next, ELEMENT_ROOM, depth + 1);
      RepeatNulFree(EncodeType(s, n.next, ELEMENT_ROOM, depth + 1).value.text, n.value);
    }
  }

  lemma {:induction false} StructNulFree(s: string, at: nat, room: nat, depth: nat)
    requires 0 < at <= |s| && room > 0 && EncodeStruct(s, at, room, depth).Some?
    ensures NulFree(EncodeStruct(s, at, room, depth).value.text)
    decreases |s| - at, 2
  {
    hide EncodeFields;
    FieldsNulFree(s, SkipTag(s, at) + 1, room - 1, depth + 1);
  }

  lemma {:induction false} FieldsNulFree(s: string, at: nat, room: nat, depth: nat)
    requires at <= |s| && EncodeFields(s, at, room, depth).Some?
    ensures NulFree(EncodeFields(s, at, room, depth).value.text)
    decreases |s| - at, 3
  {
    hide SkipObject, EncodeType;
    if at < |s| && s[at] != '}' {
      var p := SkipObject(s, at).value;
      TypeNulFree(s, p, room, depth);
      var f := EncodeType(s, p, room, depth).value;
      FieldsNulFree(s, f.next, room - |f.text|, depth);
    }
  }

  lemma {:induction false} ArgumentsNulFree(s: string, at: nat, room: nat)
    requires at <= |s| && EncodeArguments(s, at, room).Some?
    ensures NulFree(EncodeArguments(s, at, room).value)
    decreases |s| - at
  {
    hide EncodeType;
    if at < |s| {
      var f := EncodeType(s, at, room, 0).value;
      TypeNulFree(s, at, room, 0);
      ArgumentsNulFree(s, SkipDigits(s, f.next), room - |f.text|);
    }
  }

  /** So the text a caller reads up to the NUL is the whole signature. */
  lemma NoNul(s: string, capacity: nat)
    requires EncodeSignature(s, capacity).Some?
    ensures NulFree(EncodeSignature(s, capacity).value)
  {
    hide EncodeType, EncodeArguments;
    var start := CxxReturn(s);
    if start == "" {
      ArgumentsNulFree(s, 0, capacity - 1);
    } else {
      ArgumentsNulFree(s, SkipDigits(s, EncodeType(s, 0, ELEMENT_ROOM, 0).value.next), capacity - 1 - |start|);
    }
  }
}
