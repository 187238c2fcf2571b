/** What the codes of both alphabets mean: the runtime's type encodings, as
    the Objective-C compiler writes them for a 64-bit machine, and the fixed
    signatures that a native call is made with. */
module MachineTypes {
  import opened Wrappers
  import opened TypeEncodings
  import opened TypeSignatures
  import opened MethodSignatures

  datatype Machine = Nothing | Address | Integer(width: nat, signed: bool) | Floating(width: nat)

  /** A type encoding's scalar: char, short, int, long and long long, signed and
      unsigned, bool, float, double, void, class, selector and C string. */
  function ScalarMeaning(c: char): Option<Machine> {
    match c
    case 'c' => Some(Integer(8, true)) case 'C' => Some(Integer(8, false))
    case 's' => Some(Integer(16, true)) case 'S' => Some(Integer(16, false))
    case 'i' => Some(Integer(32, true)) case 'I' => Some(Integer(32, false))
    case 'l' => Some(Integer(64, true)) case 'L' => Some(Integer(64, false))
    case 'q' => Some(Integer(64, true)) case 'Q' => Some(Integer(64, false))
    case 'B' => Some(Integer(8, false))
    case 'f' => Some(Floating(32)) case 'd' => Some(Floating(64))
    case 'v' => Some(Nothing)
    case '#' => Some(Address) case ':' => Some(Address) case '*' => Some(Address)
    case _ => None
  }

  /** A signature's part; `!` announces a result in memory. */
  datatype Part = Value(machine: Machine) | StructBegin | StructEnd | InMemory

  function PartMeaning(t: char): Option<Part> {
    match t
    case 'b' => Some(Value(Integer(8, true))) case 'B' => Some(Value(Integer(8, false)))
    case 'h' => Some(Value(Integer(16, true))) case 'H' => Some(Value(Integer(16, false)))
    case 'i' => Some(Value(Integer(32, true))) case 'u' => Some(Value(Integer(32, false)))
    case 'q' => Some(Value(Integer(64, true)))
    case 'f' => Some(Value(Floating(32))) case 'd' => Some(Value(Floating(64)))
    case 'v' => Some(Value(Nothing)) case 'p' => Some(Value(Address))
    case '{' => Some(StructBegin) case '}' => Some(StructEnd) case '!' => Some(InMemory)
    case _ => None
  }

  /** A signature has one code for integers that fill a register: nothing is
      extended then, so their sign does not matter. */
  predicate Carries(p: Part, q: Part) {
    p == q || (p == Value(Integer(64, true)) && q == Value(Integer(64, false)))
  }

  /** Every scalar's code passes the scalar as what it is, and for all but the
      unsigned 64-bit ones it is the same machine type. */
  lemma ScalarsKeepMeaning(c: char)
    ensures ScalarCode(c).Some? <==> ScalarMeaning(c).Some?
    ensures ScalarCode(c).Some? ==>
              var p, m := PartMeaning(ScalarCode(c).value), ScalarMeaning(c).value;
              p.Some? && Carries(p.value, Value(m)) && (p.value == Value(m) <==> c != 'Q' && c != 'L')
  {
  }

  /** What may stand behind a pointer is any scalar, or `?` for a function. */
  lemma PointeesAreScalars(c: char)
    ensures PointeeCode(c) <==> ScalarMeaning(c).Some? || c == '?'
  {
  }

  /** The runtime's qualifiers. */
  function QualifierName(c: char): Option<string> {
    match c
    case 'r' => Some("const") case 'n' => Some("in") case 'N' => Some("inout") case 'o' => Some("out")
    case 'O' => Some("bycopy") case 'R' => Some("byref") case 'V' => Some("oneway")
    case _ => None
  }

  lemma QualifiersAreSkipped(c: char)
    ensures Qualifier(c) <==> QualifierName(c).Some?
    ensures Qualifier(c) ==> ScalarMeaning(c).None? && c !in "@^{[("
  {
  }

  /** What a type is passed as. */
  function Meaning(t: Type): seq<Part> {
    match t
    case Scalar(c) => if ScalarMeaning(c).Some? then [Value(ScalarMeaning(c).value)] else []
    case Object(_) => [Value(Address)]
    case Pointer(_, _) => [Value(Address)]
    case Struct(_, fields) => [StructBegin] + FieldMeanings(fields) + [StructEnd]
    case Cxx(_, _) => [Value(Address)]
    case Array(n, _, e) => Times(Meaning(e), n)
  }

  function FieldMeanings(fs: seq<Field>): seq<Part> {
    if fs == [] then [] else Meaning(fs[0].type_) + FieldMeanings(fs[1..])
  }

  function Times(parts: seq<Part>, n: nat): seq<Part> { if n == 0 then [] else parts + Times(parts, n - 1) }

  /** The signature's characters pass the parts, one for one and in order. */
  ghost predicate Passes(signature: string, parts: seq<Part>) {
    |signature| == |parts|
    && forall k :: 0 <= k < |parts| ==> PartMeaning(signature[k]).Some? && Carries(PartMeaning(signature[k]).value, parts[k])
  }

  lemma PassesJoin(s: string, t: string, p: seq<Part>, q: seq<Part>)
    requires Passes(s, p) && Passes(t, q)
    ensures Passes(s + t, p + q)
  {
    hide PartMeaning, Carries;
  }

  lemma {:induction false} PassesTimes(s: string, p: seq<Part>, n: nat)
    requires Passes(s, p)
    ensures Passes(Repeat(s, n), Times(p, n))
  {
    hide Passes;
    if n > 0 {
      PassesTimes(s, p, n - 1);
      PassesJoin(s, Repeat(s, n - 1), p, Times(p, n - 1));
    } else {
      PassesNothing();
    }
  }

  lemma PassesNothing()
    ensures Passes("", []) && Passes("{", [StructBegin]) && Passes("}", [StructEnd]) && Passes("p", [Value(Address)])
  {
  }

  /** The flattened signature of a type passes it as what it is. */
  lemma {:induction false} FlatKeepsMeaning(t: Type, depth: nat)
    requires Supported(t, depth)
    ensures Passes(Flat(t), Meaning(t))
    decreases t
  {
    hide Passes, Carries, PartMeaning;
    PassesNothing();
    match t
    case Scalar(c) => ScalarPasses(c);
    case Struct(_, fields) =>
      FieldsKeepMeaning(fields, depth + 1);
      PassesJoin("{", FlatFields(fields), [StructBegin], FieldMeanings(fields));
      PassesJoin("{" + FlatFields(fields), "}", [StructBegin] + FieldMeanings(fields), [StructEnd]);
    case Array(n, _, e) =>
      FlatKeepsMeaning(e, depth + 1);
      PassesTimes(Flat(e), Meaning(e), n);
    case _ =>
  }

  lemma ScalarPasses(c: char)
    requires ScalarCode(c).Some?
    ensures Passes(Flat(Scalar(c)), Meaning(Scalar(c)))
  {
    ScalarsKeepMeaning(c);
  }

  lemma {:induction false} FieldsKeepMeaning(fs: seq<Field>, depth: nat)
    requires FieldsSupported(fs, depth)
    ensures Passes(FlatFields(fs), FieldMeanings(fs))
    decreases fs
  {
    hide Passes;
    if fs == [] {
      PassesNothing();
    } else {
      FlatKeepsMeaning(fs[0].type_, depth);
      FieldsKeepMeaning(fs[1..], depth);
      PassesJoin(Flat(fs[0].type_), FlatFields(fs[1..]), Meaning(fs[0].type_), FieldMeanings(fs[1..]));
    }
  }

  // ------------------------------------------------------------ whole methods

  /** The words of a C++ object that is returned in memory: a shared pointer has
      two pointers, a function object four words, a string three. */
  function ObjectWords(template: string): seq<Part> {
    if template == "shared_ptr<" then [Value(Address), Value(Address)]
    else if template == "function<" then Times([Value(Integer(64, true))], 4)
    else if template == "basic_string<" then Times([Value(Integer(64, true))], 3) else []
  }

  function MethodMeaning(a: seq<Argument>): seq<Part> {
    if a == [] then []
    else if ReturnsCxx(a) then [InMemory, StructBegin] + ObjectWords(a[0].type_.template) + [StructEnd] + ArgumentMeanings(a[1..])
    else ArgumentMeanings(a)
  }

  function ArgumentMeanings(a: seq<Argument>): seq<Part> {
    if a == [] then [] else Meaning(a[0].type_) + ArgumentMeanings(a[1..])
  }

  lemma {:induction false} ArgumentsKeepMeaning(a: seq<Argument>)
    requires ArgumentsSupported(a)
    ensures Passes(FlatArguments(a), ArgumentMeanings(a))
  {
    hide Passes;
    if a == [] {
      PassesNothing();
    } else {
      FlatKeepsMeaning(a[0].type_, 0);
      ArgumentsKeepMeaning(a[1..]);
      PassesJoin(Flat(a[0].type_), FlatArguments(a[1..]), Meaning(a[0].type_), ArgumentMeanings(a[1..]));
    }
  }

  lemma ReturnKeepsMeaning(template: string)
    requires Template(template)
    ensures Passes(ReturnForm(template), [InMemory, StructBegin] + ObjectWords(template) + [StructEnd])
  {
    var word := Value(Integer(64, true));
    assert Times([word], 0) == [] && Times([word], 1) == [word] && Times([word], 2) == [word, word];
    assert Times([word], 3) == [word, word, word] && Times([word], 4) == [word, word, word, word];
    assert Passes("!{pp}", [InMemory, StructBegin, Value(Address), Value(Address), StructEnd]);
    assert Passes("!{qqq}", [InMemory, StructBegin, word, word, word, StructEnd]);
    assert Passes("!{qqqq}", [InMemory, StructBegin, word, word, word, word, StructEnd]);
  }

  /** Converting a printed method encoding yields a signature that passes the
      result and every argument as the machine types they have, in order. */
  lemma SignatureKeepsMeaning(a: seq<Argument>, capacity: nat)
    requires ArgumentsSupported(a) && EncodeSignature(PrintArguments(a), capacity).Some?
    ensures Passes(EncodeSignature(PrintArguments(a), capacity).value, MethodMeaning(a))
  {
    hide Passes, EncodeSignature;
    SignatureFitsOrFails(a, capacity);
    if ReturnsCxx(a) {
      assert Supported(a[0].type_, 0);
      ReturnKeepsMeaning(a[0].type_.template);
      ArgumentsKeepMeaning(a[1..]);
      PassesJoin(ReturnForm(a[0].type_.template), FlatArguments(a[1..]),
                 [InMemory, StructBegin] + ObjectWords(a[0].type_.template) + [StructEnd], ArgumentMeanings(a[1..]));
    } else {
      ArgumentsKeepMeaning(a);
    }
  }
}
