/** Modules as lists of instructions, and the words that the SPIR-V
    specification gives them (sections 2.3 and 3.42, tables of decorations in
    section 3.20). */
module SpirvAssembly {
  import opened Wrappers
  import opened SpirvModules

  datatype Instruction =
    | EntryPoint(operands: seq<Word>)
    | Variable(type_: Word, id: Word, class_: Word, init: seq<Word>)
    | DecorateLocation(id: Word, location: Word)
    | DecorateBinding(id: Word, binding: Word)
    | DecorateSet(id: Word, set_: Word)
    | DecorationGroup(which: nat, operands: seq<Word>)
    | Other(opcode: nat, operands: seq<Word>)
  {
    /** Any instruction of a stream is of one of these forms, in one way. */
    predicate Valid() {
      match this
      case EntryPoint(o) => |o| < 65535
      case Variable(_, _, _, init) => |init| < 65532
      case DecorationGroup(which, o) => which < 3 && |o| < 65535
      case Other(opcode, o) =>
        && opcode < 65536 && |o| < 65535 && opcode != 15 && !(73 <= opcode <= 75)
        && (opcode == 59 ==> |o| < 3)
        && (opcode == 71 && |o| == 3 ==> o[1] != 30 && o[1] != 33 && o[1] != 34)
      case _ => true
    }
  }

  predicate AllValid(is_: seq<Instruction>) { forall i :: i in is_ ==> i.Valid() }

  function Encode(i: Instruction): (r: seq<Word>)
    requires i.Valid()
    ensures |r| > 0 && Count(r[0]) == |r|
  {
    match i
    case EntryPoint(o) => [(|o| + 1) * 65536 + 15] + o
    case Variable(t, id, c, init) => [(|init| + 4) * 65536 + 59, t, id, c] + init
    case DecorateLocation(id, l) => [4 * 65536 + 71, id, 30, l]
    case DecorateBinding(id, b) => [4 * 65536 + 71, id, 33, b]
    case DecorateSet(id, s) => [4 * 65536 + 71, id, 34, s]
    case DecorationGroup(which, o) => [(|o| + 1) * 65536 + 73 + which] + o
    case Other(opcode, o) => [(|o| + 1) * 65536 + opcode] + o
  }

  function Assemble(is_: seq<Instruction>): seq<Word>
    requires AllValid(is_)
  {
    if is_ == [] then [] else Encode(is_[0]) + Assemble(is_[1..])
  }

  /** Where the instructions start if the first one starts at `at`. */
  function Starts(at: nat, is_: seq<Instruction>): (r: seq<nat>)
    requires AllValid(is_)
    ensures |r| == |is_|
    decreases |is_|
  {
    if is_ == [] then [] else [at] + Starts(at + |Encode(is_[0])|, is_[1..])
  }

  /** The words of an instruction. */
  predicate Stands(words: seq<Word>, s: nat, i: Instruction)
    requires i.Valid()
  {
    s + |Encode(i)| <= |words| && words[s..s + |Encode(i)|] == Encode(i)
  }

  lemma Parts<T>(words: seq<T>, at: nat, first: seq<T>, rest: seq<T>)
    requires at <= |words| && words[at..] == first + rest
    ensures at + |first| <= |words| && words[at..at + |first|] == first && words[at + |first|..] == rest
    ensures first != [] ==> words[at] == first[0]
  {
    var w := words[at..];
    assert w[..|first|] == first && w[|first|..] == rest;
  }

  lemma {:induction false} ParseAssembled(words: seq<Word>, at: nat, is_: seq<Instruction>)
    requires AllValid(is_) && at <= |words| && words[at..] == Assemble(is_)
    ensures Parse(words, at) == Some(Starts(at, is_))
    ensures forall k :: 0 <= k < |is_| ==> Stands(words, Starts(at, is_)[k], is_[k])
    decreases |is_|
  {
    hide Encode;
    if is_ != [] {
      var e, rest := Encode(is_[0]), is_[1..];
      Parts(words, at, e, Assemble(rest));
      ParseAssembled(words, at + |e|, rest);
      forall k | 0 <= k < |is_| ensures Stands(words, Starts(at, is_)[k], is_[k]) {
        if k > 0 { assert rest[k - 1] == is_[k] && Starts(at, is_)[k] == Starts(at + |e|, rest)[k - 1]; }
      }
    }
  }

  lemma Glue<T>(words: seq<T>, i: nat, j: nat)
    requires i <= j <= |words|
    ensures words[i..] == words[i..j] + words[j..]
  {
  }

  /** Words in which every instruction stands at its place are the assembly. */
  lemma {:induction false} StandingIsAssembled(words: seq<Word>, at: nat, is_: seq<Instruction>)
    requires AllValid(is_) && |words| == at + |Assemble(is_)|
    requires forall k :: 0 <= k < |is_| ==> Stands(words, Starts(at, is_)[k], is_[k])
    ensures words[at..] == Assemble(is_)
    decreases |is_|
  {
    hide Encode;
    if is_ != [] {
      var e, rest := Encode(is_[0]), is_[1..];
      assert Stands(words, Starts(at, is_)[0], is_[0]);
      forall k | 0 <= k < |rest| ensures Stands(words, Starts(at + |e|, rest)[k], rest[k]) {
        assert rest[k] == is_[k + 1];
        assert Starts(at, is_) == [at] + Starts(at + |e|, rest);
      }
      StandingIsAssembled(words, at + |e|, rest);
      Glue(words, at, at + |e|);
    }
  }

  /** Instructions of the same sizes stand at the same places. */
  lemma {:induction false} SameStarts(at: nat, a: seq<Instruction>, b: seq<Instruction>)
    requires AllValid(a) && AllValid(b) && |a| == |b|
    requires forall k :: 0 <= k < |a| ==> |Encode(a[k])| == |Encode(b[k])|
    ensures Starts(at, a) == Starts(at, b) && |Assemble(a)| == |Assemble(b)|
    decreases |a|
  {
    hide Encode;
    if a != [] {
      assert forall k :: 0 <= k < |a| - 1 ==> a[1..][k] == a[k + 1] && b[1..][k] == b[k + 1];
      SameStarts(at + |Encode(a[0])|, a[1..], b[1..]);
    }
  }

  /** What the passes look for in an instruction's words. */
  lemma Recognized(words: seq<Word>, s: nat, i: Instruction)
    requires i.Valid() && Stands(words, s, i)
    ensures s < |words| && Count(words[s]) == |Encode(i)|
    ensures Opcode(words[s]) == OP_ENTRY_POINT <==> i.EntryPoint?
    ensures 73 <= Opcode(words[s]) <= 75 <==> i.DecorationGroup?
    ensures Opcode(words[s]) == OP_VARIABLE && Count(words[s]) >= 4 <==> i.Variable?
    ensures i.Variable? ==> s + 3 < |words| && words[s + 2] == i.id && words[s + 3] == i.class_
    ensures Decorates(words, s, DECORATE_LOCATION) <==> i.DecorateLocation?
    ensures Decorates(words, s, DECORATE_BINDING) <==> i.DecorateBinding?
    ensures Decorates(words, s, DECORATE_SET) <==> i.DecorateSet?
    ensures i.DecorateLocation? ==> words[s + 1] == i.id && words[s + 3] == i.location
    ensures i.DecorateBinding? ==> words[s + 1] == i.id && words[s + 3] == i.binding
    ensures i.DecorateSet? ==> words[s + 1] == i.id && words[s + 3] == i.set_
  {
    var e := words[s..s + |Encode(i)|];
    assert e[0] == words[s];
    if |e| >= 4 { assert words[s + 1] == e[1] && words[s + 2] == e[2] && words[s + 3] == e[3]; }
  }

  ghost predicate Same(words: seq<Word>, out: seq<Word>, s: nat, n: nat) {
    s + n <= |words| == |out| && forall k :: s <= k < s + n ==> out[k] == words[k]
  }

  lemma StandsStill(words: seq<Word>, out: seq<Word>, s: nat, i: Instruction)
    requires i.Valid() && Stands(words, s, i) && Same(words, out, s, |Encode(i)|)
    ensures Stands(out, s, i)
  {
    assert out[s..s + |Encode(i)|] == words[s..s + |Encode(i)|];
  }

  /** A rewritten decoration. */
  lemma Rewritten(words: seq<Word>, out: seq<Word>, s: nat, i: Instruction, j: Instruction)
    requires i.Valid() && Stands(words, s, i) && Same(words, out, s, 3) && s + 3 < |words|
    requires (i.DecorateLocation? && j == DecorateLocation(i.id, out[s + 3]))
             || (i.DecorateBinding? && j == DecorateBinding(i.id, out[s + 3]))
             || (i.DecorateSet? && j == DecorateSet(i.id, out[s + 3]))
    ensures Stands(out, s, j)
  {
    var e := words[s..s + 4];
    assert e[0] == words[s] == out[s] && e[1] == words[s + 1] == out[s + 1] && e[2] == words[s + 2] == out[s + 2];
    assert out[s..s + 4] == [out[s], out[s + 1], out[s + 2], out[s + 3]];
  }

  // ----------------------------------------------------- every stream is one

  function Disassembled(w: seq<Word>): (i: Instruction)
    requires w != [] && Count(w[0]) == |w|
    ensures i.Valid() && Encode(i) == w
  {
    var opcode, rest := Opcode(w[0]), w[1..];
    assert w == [w[0]] + rest && w[0] == |w| * 65536 + opcode;
    if opcode == 15 then EntryPoint(rest)
    else if opcode == 59 && |rest| >= 3 then
      assert rest == [rest[0], rest[1], rest[2]] + rest[3..];
      Variable(rest[0], rest[1], rest[2], rest[3..])
    else if opcode == 71 && |rest| == 3 && rest[1] == 30 then DecorateLocation(rest[0], rest[2])
    else if opcode == 71 && |rest| == 3 && rest[1] == 33 then DecorateBinding(rest[0], rest[2])
    else if opcode == 71 && |rest| == 3 && rest[1] == 34 then DecorateSet(rest[0], rest[2])
    else if 73 <= opcode <= 75 then DecorationGroup(opcode - 73, rest)
    else Other(opcode, rest)
  }

  /** Every stream that parses is the assembly of some instructions. */
  lemma {:induction false} EveryStreamAssembled(words: seq<Word>, at: nat) returns (is_: seq<Instruction>)
    requires at <= |words| && Parse(words, at).Some?
    ensures AllValid(is_) && words[at..] == Assemble(is_)
    decreases |words| - at
  {
    hide Disassembled, Encode;
    if at == |words| {
      is_ := [];
    } else {
      var n := Count(words[at]);
      var rest := EveryStreamAssembled(words, at + n);
      var i := Disassembled(words[at..at + n]);
      is_ := [i] + rest;
      assert is_[1..] == rest;
      Glue(words, at, at + n);
    }
  }
}
