/** What the two passes over SPIR-V modules do to the instructions, in the
    specification's own numbers.  Every accepted module is covered
    (`SpirvAssembly.EveryStreamAssembled`). */
module PreparedModules {
  import opened ShaderBindings
  import opened Wrappers
  import opened SpirvModules
  import opened SpirvAssembly
  import opened StageInterfaces

  /** The storage class that the last declaration gives an identifier. */
  function ClassOf(is_: seq<Instruction>, id: Word): Option<Word> {
    if is_ == [] then None
    else
      var last := is_[|is_| - 1];
      if last.Variable? && last.id == id then Some(last.class_) else ClassOf(is_[..|is_| - 1], id)
  }

  /** Storage class 3 is Output, 1 is Input. */
  predicate Interface(is_: seq<Instruction>, stage: Stage, id: Word) {
    match stage
    case Vertex => ClassOf(is_, id) == Some(3)
    case Fragment => ClassOf(is_, id) == Some(1)
    case Kernel => ClassOf(is_, id) == None
  }

  function PreparedInstruction(i: Instruction, is_: seq<Instruction>, stage: Stage, locations: map<Word, Word>): Instruction {
    match i
    case DecorateLocation(id, l) => if Interface(is_, stage, id) && l in locations then DecorateLocation(id, locations[l]) else i
    case DecorateSet(id, _) => DecorateSet(id, if stage == Fragment then 1 else 0)
    case _ => i
  }

  function PreparedInstructions(is_: seq<Instruction>, stage: Stage, locations: map<Word, Word>): (r: seq<Instruction>)
    requires AllValid(is_)
    ensures AllValid(r) && |r| == |is_|
  {
    seq(|is_|, k requires 0 <= k < |is_| => PreparedInstruction(is_[k], is_, stage, locations))
  }

  lemma {:induction false} StorageIsClass(words: seq<Word>, starts: seq<nat>, is_: seq<Instruction>, id: Word)
    requires AllValid(is_) && |starts| == |is_| && forall k :: 0 <= k < |is_| ==> Stands(words, starts[k], is_[k])
    ensures StorageOf(Storage(words, starts), id) == ClassOf(is_, id)
    decreases |is_|
  {
    if is_ != [] {
      var n := |is_| - 1;
      StorageIsClass(words, starts[..n], is_[..n], id);
      Recognized(words, starts[n], is_[n]);
    }
  }

  lemma InterfaceMeans(words: seq<Word>, starts: seq<nat>, is_: seq<Instruction>, stage: Stage, k: nat)
    requires AllValid(is_) && |starts| == |is_| && forall j :: 0 <= j < |is_| ==> Stands(words, starts[j], is_[j])
    requires k < |is_|
    ensures InterfaceLocation(words, Storage(words, starts), stage, starts[k]) <==> is_[k].DecorateLocation? && Interface(is_, stage, is_[k].id)
  {
    Recognized(words, starts[k], is_[k]);
    if is_[k].DecorateLocation? { StorageIsClass(words, starts, is_, is_[k].id); }
  }

  lemma Assembled(header: seq<Word>, is_: seq<Instruction>) returns (starts: seq<nat>)
    requires |header| == 5 && AllValid(is_)
    ensures starts == Starts(5, is_) && Parse(header + Assemble(is_), HEADER) == Some(starts)
    ensures forall k :: 0 <= k < |is_| ==> Stands(header + Assemble(is_), starts[k], is_[k])
  {
    var words := header + Assemble(is_);
    assert words[5..] == Assemble(is_);
    ParseAssembled(words, 5, is_);
    starts := Starts(5, is_);
  }

  /** The preparation accepts a module exactly if every semantic is supported
      and different, interface locations are reflected, and descriptors are in
      set 0. */
  lemma AcceptedModules(header: seq<Word>, is_: seq<Instruction>, stage: Stage, varyings: seq<Varying>)
    requires |header| == 5 && AllValid(is_)
    ensures Accepts(header + Assemble(is_), stage, varyings) <==>
              && header[0] == 0x0723_0203
              && (forall v :: v in varyings ==> v.semantic.Some?) && Injective(Locations(varyings))
              && forall k :: 0 <= k < |is_| ==> InstructionAccepted(is_[k], is_, stage, Locations(varyings))
  {
    hide Interface, InterfaceLocation, Storage, Injective, Stands, Encode, Assemble, Starts, Decorates, Locations, StepAccepts;
    var words := header + Assemble(is_);
    var starts := Assembled(header, is_);
    assert words[0] == header[0];
    if forall v :: v in varyings ==> v.semantic.Some? {
      forall k | 0 <= k < |is_|
        ensures StepAccepts(words, Storage(words, starts), stage, Locations(varyings), starts[k]) <==> InstructionAccepted(is_[k], is_, stage, Locations(varyings))
      {
        StepMeans(words, starts, is_, stage, Locations(varyings), k);
      }
    }
  }

  predicate InstructionAccepted(i: Instruction, is_: seq<Instruction>, stage: Stage, locations: map<Word, Word>) {
    && (i.DecorateLocation? && Interface(is_, stage, i.id) ==> i.location in locations)
    && (i.DecorateSet? ==> i.set_ == 0)
  }

  lemma StepMeans(words: seq<Word>, starts: seq<nat>, is_: seq<Instruction>, stage: Stage, locations: map<Word, Word>, k: nat)
    requires AllValid(is_) && |starts| == |is_| && forall j :: 0 <= j < |is_| ==> Stands(words, starts[j], is_[j])
    requires k < |is_|
    ensures StepAccepts(words, Storage(words, starts), stage, locations, starts[k]) <==> InstructionAccepted(is_[k], is_, stage, locations)
  {
    hide Interface, InterfaceLocation, Storage, Stands, Encode, Decorates;
    InterfaceMeans(words, starts, is_, stage, k);
    Recognized(words, starts[k], is_[k]);
  }

  /** The preparation of an accepted module: the interface locations become
      semantics, the descriptors of a fragment module move to set 1, and nothing
      else changes, neither vertex attributes nor render-target locations. */
  lemma PreparedAssembly(header: seq<Word>, is_: seq<Instruction>, stage: Stage, varyings: seq<Varying>, out: seq<Word>)
    requires |header| == 5 && AllValid(is_)
    requires var words := header + Assemble(is_);
             && Accepts(words, stage, varyings)
             && var starts := Parse(words, HEADER).value;
                Prepared(words, out, starts, Storage(words, starts), stage, Locations(varyings))
    ensures out == header + Assemble(PreparedInstructions(is_, stage, Locations(varyings)))
  {
    hide Interface, InterfaceLocation, Storage, Stands, Encode, Assemble, Starts, Decorates, Locations, StepAccepts, PreparedInstruction;
    var words, locations := header + Assemble(is_), Locations(varyings);
    var starts := Assembled(header, is_);
    var after := PreparedInstructions(is_, stage, locations);
    ParseSpaced(words, HEADER);
    forall k | 0 <= k < |is_| ensures |Encode(after[k])| == |Encode(is_[k])| && Stands(out, starts[k], after[k]) {
      PreparedOne(words, out, starts, is_, stage, varyings, k);
    }
    SameStarts(5, is_, after);
    PreparedHeader(words, out, starts, stage, varyings);
    StandingIsAssembled(out, 5, after);
    HeaderFirst(header, Assemble(is_), out);
  }

  lemma PreparedHeader(words: seq<Word>, out: seq<Word>, starts: seq<nat>, stage: Stage, varyings: seq<Varying>)
    requires |words| >= 5 && Spaced(words, starts) && forall v :: v in varyings ==> v.semantic.Some?
    requires Prepared(words, out, starts, Storage(words, starts), stage, Locations(varyings))
    ensures |out| == |words| && out[..5] == words[..5]
  {
    hide StepDone, Storage, Locations;
    forall at | 0 <= at < 5 ensures out[at] == words[at] { assert !LiteralIn(words, starts, at); }
  }

  lemma HeaderFirst(header: seq<Word>, rest: seq<Word>, out: seq<Word>)
    requires |header| == 5 <= |out| && out[..5] == (header + rest)[..5]
    ensures out == header + out[5..]
  {
    assert out == out[..5] + out[5..];
  }

  lemma PreparedOne(words: seq<Word>, out: seq<Word>, starts: seq<nat>, is_: seq<Instruction>, stage: Stage, varyings: seq<Varying>, k: nat)
    requires Accepts(words, stage, varyings) && Parse(words, HEADER) == Some(starts) && Spaced(words, starts)
    requires Prepared(words, out, starts, Storage(words, starts), stage, Locations(varyings))
    requires AllValid(is_) && |starts| == |is_| && k < |is_| && forall j :: 0 <= j < |is_| ==> Stands(words, starts[j], is_[j])
    ensures var i := PreparedInstruction(is_[k], is_, stage, Locations(varyings));
            i.Valid() && |Encode(i)| == |Encode(is_[k])| && Stands(out, starts[k], i)
  {
    hide Interface, InterfaceLocation, Storage, Stands, Decorates, Locations;
    var locations := Locations(varyings);
    var i, j := is_[k], PreparedInstruction(is_[k], is_, stage, locations);
    var s, n := starts[k], |Encode(i)|;
    assert i in is_;
    Recognized(words, s, i);
    InterfaceMeans(words, starts, is_, stage, k);
    forall at | s <= at < s + n && !(n == 4 && at == s + 3) ensures out[at] == words[at] {
      forall m | 0 <= m < |starts| && Count(words[starts[m]]) == 4 ensures at != starts[m] + 3 {
        if m != k { LiteralApart(words, starts, m, k, at); }
      }
      assert !LiteralIn(words, starts, at);
    }
    assert StepAccepts(words, Storage(words, starts), stage, locations, starts[k]);
    assert StepDone(words, out, Storage(words, starts), stage, locations, starts[k]);
    if n == 4 && j != i { Rewritten(words, out, s, i, j); } else { StandsStill(words, out, s, i); }
  }

  /** Two stages link: a vertex output and a fragment input have one location
      after the preparation exactly if Metal gave them one semantic; a vertex
      attribute and a render target keep theirs. */
  lemma LinkedStages(v: seq<Instruction>, vVaryings: seq<Varying>, x: Varying, vId: Word,
                     f: seq<Instruction>, fVaryings: seq<Varying>, y: Varying, fId: Word)
    requires (forall w :: w in vVaryings || w in fVaryings ==> w.semantic.Some?) && x in vVaryings && y in fVaryings
    requires forall i, j :: 0 <= i < j < |vVaryings| ==> vVaryings[i].location != vVaryings[j].location
    requires forall i, j :: 0 <= i < j < |fVaryings| ==> fVaryings[i].location != fVaryings[j].location
    ensures ClassOf(v, vId) == Some(3) && ClassOf(f, fId) == Some(1) ==>
              (PreparedInstruction(DecorateLocation(vId, x.location), v, Vertex, Locations(vVaryings)).location ==
               PreparedInstruction(DecorateLocation(fId, y.location), f, Fragment, Locations(fVaryings)).location
               <==> x.semantic == y.semantic)
    ensures ClassOf(v, vId) == Some(1) ==>
              PreparedInstruction(DecorateLocation(vId, x.location), v, Vertex, Locations(vVaryings)) == DecorateLocation(vId, x.location)
    ensures ClassOf(f, fId) == Some(3) ==>
              PreparedInstruction(DecorateLocation(fId, y.location), f, Fragment, Locations(fVaryings)) == DecorateLocation(fId, y.location)
  {
    LocationsMeanSemantics(vVaryings, x);
    LocationsMeanSemantics(fVaryings, y);
  }
}

/** The move of descriptor decorations when a module is loaded. */
module RemappedModules {
  import opened ShaderBindings
  import opened Wrappers
  import opened SpirvModules
  import opened SpirvAssembly
  import opened SpirvRemap

  /** Which decoration sets the identifier's set: the last one. */
  function LastSet(is_: seq<Instruction>, id: Word): (k: Option<nat>)
    ensures k.Some? ==> k.value < |is_| && is_[k.value].DecorateSet? && is_[k.value].id == id
  {
    if is_ == [] then None
    else
      var last := is_[|is_| - 1];
      if last.DecorateSet? && last.id == id then Some(|is_| - 1) else LastSet(is_[..|is_| - 1], id)
  }

  function LastBinding(is_: seq<Instruction>, id: Word): (k: Option<nat>)
    ensures k.Some? ==> k.value < |is_| && is_[k.value].DecorateBinding? && is_[k.value].id == id
  {
    if is_ == [] then None
    else
      var last := is_[|is_| - 1];
      if last.DecorateBinding? && last.id == id then Some(|is_| - 1) else LastBinding(is_[..|is_| - 1], id)
  }

  /** Where an identifier that has a set and a binding is. */
  function Place(is_: seq<Instruction>, id: Word): Option<Location> {
    var s, b := LastSet(is_, id), LastBinding(is_, id);
    if s.Some? && b.Some? then Some(Location(is_[s.value].set_, is_[b.value].binding)) else None
  }

  /** A number as a literal; the locations all are. */
  function Literal(n: nat): Word { if n < 0x1_0000_0000 then n else 0 }

  function RemappedInstruction(is_: seq<Instruction>, k: nat, info: FunctionInfo, dev: Device): Instruction
    requires k < |is_|
  {
    match is_[k]
    case DecorateSet(id, _) =>
      if LastSet(is_, id) == Some(k) && Place(is_, id).Some? then DecorateSet(id, Literal(After(Place(is_, id).value, info, dev).set_)) else is_[k]
    case DecorateBinding(id, _) =>
      if LastBinding(is_, id) == Some(k) && Place(is_, id).Some? then DecorateBinding(id, Literal(After(Place(is_, id).value, info, dev).binding)) else is_[k]
    case i => i
  }

  function RemappedInstructions(is_: seq<Instruction>, info: FunctionInfo, dev: Device): (r: seq<Instruction>)
    requires AllValid(is_)
    ensures AllValid(r) && |r| == |is_|
  {
    seq(|is_|, k requires 0 <= k < |is_| => RemappedInstruction(is_, k, info, dev))
  }

  function EntryPointCount(is_: seq<Instruction>): nat {
    if is_ == [] then 0 else EntryPointCount(is_[..|is_| - 1]) + if is_[|is_| - 1].EntryPoint? then 1 else 0
  }

  lemma {:induction false} EntryPointsCounted(words: seq<Word>, starts: seq<nat>, is_: seq<Instruction>)
    requires AllValid(is_) && |starts| == |is_| && forall k :: 0 <= k < |is_| ==> Stands(words, starts[k], is_[k])
    ensures EntryPoints(words, starts) == EntryPointCount(is_)
    decreases |is_|
  {
    if is_ != [] {
      var n := |is_| - 1;
      EntryPointsCounted(words, starts[..n], is_[..n]);
      Recognized(words, starts[n], is_[n]);
    }
  }

  /** The literal's word of an instruction, if there is one. */
  function At(starts: seq<nat>, k: Option<nat>): Option<nat>
    requires k.Some? ==> k.value < |starts|
  {
    if k.Some? then Some(starts[k.value] + 3) else None
  }

  /** What one instruction does to the target of an identifier. */
  lemma NoteMeans(words: seq<Word>, targets: map<Word, Target>, s: nat, i: Instruction, id: Word)
    requires i.Valid() && Stands(words, s, i)
    ensures var was, is_ := Lookup(targets, id), Lookup(Note(words, targets, s), id);
            is_ == if i.DecorateSet? && i.id == id then was.(setAt := Some(s + 3))
                   else if i.DecorateBinding? && i.id == id then was.(bindingAt := Some(s + 3)) else was
  {
    hide Encode, Stands, Decorates;
    Recognized(words, s, i);
  }

  lemma {:induction false} TargetsArePlaces(words: seq<Word>, starts: seq<nat>, is_: seq<Instruction>, id: Word)
    requires AllValid(is_) && |starts| == |is_| && forall k :: 0 <= k < |is_| ==> Stands(words, starts[k], is_[k])
    ensures Lookup(Targets(words, starts), id) == Target(At(starts, LastSet(is_, id)), At(starts, LastBinding(is_, id)))
    decreases |is_|
  {
    hide Encode, Stands, Decorates, Note;
    if is_ != [] {
      var n := |is_| - 1;
      TargetsArePlaces(words, starts[..n], is_[..n], id);
      NoteMeans(words, Targets(words, starts[..n]), starts[n], is_[n], id);
    }
  }

  /** A module is accepted exactly if it has one entry point and no decoration
      groups. */
  lemma AcceptedModules(header: seq<Word>, is_: seq<Instruction>)
    requires |header| == 5 && AllValid(is_)
    ensures Acceptable(header + Assemble(is_)) <==>
              header[0] == 0x0723_0203 && EntryPointCount(is_) == 1 && forall k :: 0 <= k < |is_| ==> !is_[k].DecorationGroup?
  {
    hide Stands, Encode, Assemble, Starts, EntryPoints, EntryPointCount;
    var words := header + Assemble(is_);
    assert words[5..] == Assemble(is_) && words[0] == header[0];
    ParseAssembled(words, 5, is_);
    var starts := Starts(5, is_);
    EntryPointsCounted(words, starts, is_);
    forall k | 0 <= k < |is_| ensures starts[k] < |words| && (GroupDecoration(words[starts[k]]) <==> is_[k].DecorationGroup?) {
      assert is_[k] in is_;
      Recognized(words, starts[k], is_[k]);
    }
  }

  /** Instructions are `is_`, and start at `starts`. */
  ghost predicate Laid(words: seq<Word>, starts: seq<nat>, is_: seq<Instruction>) {
    && Parse(words, HEADER) == Some(starts) && Spaced(words, starts) && AllValid(is_) && |starts| == |is_|
    && forall k :: 0 <= k < |is_| ==> Stands(words, starts[k], is_[k])
  }

  /** Whether instruction `k` has a literal that moves. */
  predicate Moves(is_: seq<Instruction>, k: nat)
    requires k < |is_|
  {
    || (is_[k].DecorateSet? && LastSet(is_, is_[k].id) == Some(k) && Place(is_, is_[k].id).Some?)
    || (is_[k].DecorateBinding? && LastBinding(is_, is_[k].id) == Some(k) && Place(is_, is_[k].id).Some?)
  }

  lemma StartsApart(words: seq<Word>, starts: seq<nat>, is_: seq<Instruction>, j: nat, k: nat)
    requires Laid(words, starts, is_) && j < |is_| && k < |is_| && starts[j] == starts[k]
    ensures j == k
  {
    hide Encode;
    Recognized(words, starts[j], is_[j]);
    Recognized(words, starts[k], is_[k]);
  }

  lemma OnlyMovers(words: seq<Word>, starts: seq<nat>, is_: seq<Instruction>, k: nat)
    requires Laid(words, starts, is_) && k < |is_| && !Moves(is_, k)
    ensures !LiteralOf(Targets(words, starts), Targets(words, starts).Keys, starts[k] + 3)
  {
    hide Stands, Encode, Targets, Laid;
    var targets := Targets(words, starts);
    LaidFacts(words, starts, is_);
    forall id | id in targets && targets[id].Complete() ensures starts[k] + 3 != targets[id].setAt.value && starts[k] + 3 != targets[id].bindingAt.value {
      TargetsArePlaces(words, starts, is_, id);
      var s, b := LastSet(is_, id).value, LastBinding(is_, id).value;
      if starts[s] == starts[k] { StartsApart(words, starts, is_, s, k); }
      if starts[b] == starts[k] { StartsApart(words, starts, is_, b, k); }
    }
  }

  lemma LaidFacts(words: seq<Word>, starts: seq<nat>, is_: seq<Instruction>)
    requires Laid(words, starts, is_)
    ensures AllValid(is_) && |starts| == |is_| && forall k :: 0 <= k < |is_| ==> Stands(words, starts[k], is_[k])
    ensures Parse(words, HEADER) == Some(starts) && Spaced(words, starts)
  {
  }

  /** A mover's identifier is a complete target, where it was and where it goes. */
  lemma MoverMoves(words: seq<Word>, out: seq<Word>, starts: seq<nat>, is_: seq<Instruction>, info: FunctionInfo, dev: Device, k: nat)
    requires Laid(words, starts, is_) && k < |is_| && Moves(is_, k)
    requires InRange(words, Targets(words, starts)) && Moved(words, out, Targets(words, starts), Targets(words, starts).Keys, info, dev)
    ensures starts[k] + 3 < |out|
    ensures var to := After(Place(is_, is_[k].id).value, info, dev);
            out[starts[k] + 3] == if is_[k].DecorateSet? then to.set_ else to.binding
  {
    hide Encode, Targets, Stands, Spaced, After, Moved, InRange, Laid, LastSet, LastBinding;
    LaidFacts(words, starts, is_);
    var id := is_[k].id;
    var s, b := LastSet(is_, id).value, LastBinding(is_, id).value;
    TargetsArePlaces(words, starts, is_, id);
    Recognized(words, starts[s], is_[s]);
    Recognized(words, starts[b], is_[b]);
    TargetMoved(words, out, Targets(words, starts), id, info, dev);
    assert Before(words, Targets(words, starts)[id]) == Place(is_, id).value;
  }

  lemma TargetMoved(words: seq<Word>, out: seq<Word>, targets: map<Word, Target>, id: Word, info: FunctionInfo, dev: Device)
    requires InRange(words, targets) && Moved(words, out, targets, targets.Keys, info, dev) && id in targets && targets[id].Complete()
    ensures |out| == |words| && targets[id].setAt.value < |words| && targets[id].bindingAt.value < |words|
    ensures Before(out, targets[id]) == After(Before(words, targets[id]), info, dev)
  {
  }

  lemma RemappedOne(words: seq<Word>, out: seq<Word>, starts: seq<nat>, is_: seq<Instruction>, info: FunctionInfo, dev: Device, k: nat)
    requires Laid(words, starts, is_) && k < |is_|
    requires InRange(words, Targets(words, starts)) && Moved(words, out, Targets(words, starts), Targets(words, starts).Keys, info, dev)
    ensures var i := RemappedInstruction(is_, k, info, dev);
            i.Valid() && |Encode(i)| == |Encode(is_[k])| && Stands(out, starts[k], i)
  {
    hide Targets, Stands, Moved, InRange, LiteralOf, Laid, After, Place, LastSet, LastBinding;
    LaidFacts(words, starts, is_);
    var i, j := is_[k], RemappedInstruction(is_, k, info, dev);
    var s, n := starts[k], |Encode(i)|;
    assert i in is_;
    Recognized(words, s, i);
    SameSize(words, out, starts, info, dev);
    forall at | s <= at < s + n && at != s + 3 ensures out[at] == words[at] { NotALiteral(words, out, starts, info, dev, k, at); }
    if Moves(is_, k) {
      MoverMoves(words, out, starts, is_, info, dev, k);
      Rewritten(words, out, s, i, j);
    } else {
      OnlyMovers(words, starts, is_, k);
      Still(words, out, starts, info, dev, s + 3);
      StandsStill(words, out, s, i);
    }
  }

  lemma SameSize(words: seq<Word>, out: seq<Word>, starts: seq<nat>, info: FunctionInfo, dev: Device)
    requires InRange(words, Targets(words, starts)) && Moved(words, out, Targets(words, starts), Targets(words, starts).Keys, info, dev)
    ensures |out| == |words|
  {
  }

  lemma Still(words: seq<Word>, out: seq<Word>, starts: seq<nat>, info: FunctionInfo, dev: Device, at: nat)
    requires InRange(words, Targets(words, starts)) && Moved(words, out, Targets(words, starts), Targets(words, starts).Keys, info, dev)
    requires !LiteralOf(Targets(words, starts), Targets(words, starts).Keys, at)
    ensures |out| == |words| && (at < |words| ==> out[at] == words[at])
  {
  }

  /** The rewrite of an accepted module, instruction by instruction: the last
      set and binding decorations of an identifier that has both move to the
      location of its resource, and nothing else changes. */
  lemma RemappedAssembly(header: seq<Word>, is_: seq<Instruction>, info: FunctionInfo, dev: Device, out: seq<Word>)
    requires |header| == 5 && AllValid(is_)
    requires var words := header + Assemble(is_);
             && Acceptable(words)
             && var targets := Targets(words, Parse(words, HEADER).value);
                InRange(words, targets) && Moved(words, out, targets, targets.Keys, info, dev)
    ensures out == header + Assemble(RemappedInstructions(is_, info, dev))
  {
    hide Targets, Stands, Moved, InRange, LiteralOf, Encode, Assemble, Starts, RemappedInstruction;
    var words := header + Assemble(is_);
    assert words[5..] == Assemble(is_);
    ParseAssembled(words, 5, is_);
    ParseSpaced(words, HEADER);
    var starts, after := Starts(5, is_), RemappedInstructions(is_, info, dev);
    SameSize(words, out, starts, info, dev);
    forall k | 0 <= k < |is_| ensures |Encode(after[k])| == |Encode(is_[k])| && Stands(out, starts[k], after[k]) {
      RemappedOne(words, out, starts, is_, info, dev, k);
    }
    SameStarts(5, is_, after);
    StandingIsAssembled(out, 5, after);
    forall at | 0 <= at < 5 ensures out[at] == header[at] { HeaderStays(words, out, starts, info, dev, at); }
    assert out == out[..5] + out[5..] && out[..5] == header;
  }

  lemma HeaderStays(words: seq<Word>, out: seq<Word>, starts: seq<nat>, info: FunctionInfo, dev: Device, at: nat)
    requires Spaced(words, starts) && at < 5 <= |words|
    requires InRange(words, Targets(words, starts)) && Moved(words, out, Targets(words, starts), Targets(words, starts).Keys, info, dev)
    ensures |out| == |words| && out[at] == words[at]
  {
    TargetsFrom(words, starts);
    assert !LiteralOf(Targets(words, starts), Targets(words, starts).Keys, at);
  }
}
