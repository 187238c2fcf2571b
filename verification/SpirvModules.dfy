/** SPIR-V word streams: a five-word header followed by instructions whose
    first word holds the word count and the opcode (section 2.3 of the SPIR-V
    specification). */
module SpirvModules {
  import opened Wrappers

  type Word = w: nat | w < 0x1_0000_0000 witness 0

  const MAGIC: Word := 0x0723_0203
  const HEADER: nat := 5

  function Opcode(w: Word): nat { w % 0x1_0000 }

  function Count(w: Word): nat { w / 0x1_0000 }

  /** The starts of the instructions from word `i` on, if they fit exactly. */
  function Parse(words: seq<Word>, i: nat): Option<seq<nat>>
    decreases |words| - i
  {
    if i >= |words| then Some([])
    else
      var n := Count(words[i]);
      if n == 0 || i + n > |words| then None
      else match Parse(words, i + n)
        case None => None
        case Some(rest) => Some([i] + rest)
  }

  /** Consecutive instructions do not overlap and stay inside the module. */
  ghost predicate Spaced(words: seq<Word>, starts: seq<nat>) {
    && (forall k :: 0 <= k < |starts| ==> HEADER <= starts[k] && starts[k] < |words| && starts[k] + Count(words[starts[k]]) <= |words|)
    && (forall j, k :: 0 <= j < k < |starts| ==> starts[j] < |words| && starts[j] + Count(words[starts[j]]) <= starts[k])
  }

  lemma {:induction false} ParseSpaced(words: seq<Word>, i: nat)
    requires Parse(words, i).Some? && i >= HEADER
    ensures Spaced(words, Parse(words, i).value)
    ensures forall k :: 0 <= k < |Parse(words, i).value| ==> i <= Parse(words, i).value[k]
    decreases |words| - i
  {
    if i < |words| {
      ParseSpaced(words, i + Count(words[i]));
      var rest := Parse(words, i + Count(words[i])).value;
      assert Parse(words, i).value == [i] + rest;
    }
  }

  /** Words that agree on every instruction start parse alike. */
  lemma {:induction false} ParseSame(a: seq<Word>, b: seq<Word>, i: nat)
    requires |a| == |b| && Parse(a, i).Some?
    requires forall k :: 0 <= k < |Parse(a, i).value| ==> Parse(a, i).value[k] < |a| && a[Parse(a, i).value[k]] == b[Parse(a, i).value[k]]
    ensures Parse(b, i) == Parse(a, i)
    decreases |a| - i
  {
    if i < |a| {
      var n := Count(a[i]);
      var starts, rest := Parse(a, i).value, Parse(a, i + n).value;
      assert starts == [i] + rest;
      assert starts[0] == i;
      forall k | 0 <= k < |rest| ensures rest[k] < |a| && a[rest[k]] == b[rest[k]] { assert starts[k + 1] == rest[k]; }
      ParseSame(a, b, i + n);
    }
  }

  lemma Regroup(done: seq<nat>, i: nat, rest: seq<nat>)
    ensures done + ([i] + rest) == done + [i] + rest && (done + ([i] + rest))[|done|] == i
  {
  }

  const OP_ENTRY_POINT: nat := 15
  const OP_VARIABLE: nat := 59
  const OP_DECORATE: nat := 71
  const DECORATE_LOCATION: nat := 30
  const DECORATE_BINDING: nat := 33
  const DECORATE_SET: nat := 34

  /** `s` starts a four-word decoration of kind `kind`. */
  predicate Decorates(words: seq<Word>, s: nat, kind: nat) {
    s < |words| && Opcode(words[s]) == OP_DECORATE && Count(words[s]) == 4 && s + 3 < |words| && words[s + 2] == kind
  }

  /** The literal of one instruction is no part of any other. */
  lemma LiteralApart(words: seq<Word>, starts: seq<nat>, j: nat, k: nat, at: nat)
    requires Spaced(words, starts) && j < |starts| && k < |starts| && j != k
    requires Count(words[starts[j]]) == 4 && starts[k] <= at < starts[k] + Count(words[starts[k]])
    ensures at != starts[j] + 3
  {
    if j < k { assert starts[j] + 4 <= starts[k]; } else { assert starts[k] + Count(words[starts[k]]) <= starts[j]; }
  }
}
