/** The device's idle descriptor arenas.  An encoder takes one when it begins,
    is its only user while it records, and gives it back when its command
    completed and released it. */
module ArenaPools {
  import opened ShaderBindings
  import opened Wrappers
  import opened ObjectLifetimes
  import opened DescriptorArenas
  import opened RenderEncoders
  import opened InlineData

  const MAX_IDLE: nat := 160
  const MAX_ENTRIES: nat := 2048

  type Target = nat

  /** An idle arena and the render target, held weakly, that it served last. */
  datatype Idle = Idle(arena: DescriptorArena, target: Target)

  function Arenas(idle: seq<Idle>): set<DescriptorArena> { set i | 0 <= i < |idle| :: idle[i].arena }

  ghost predicate DistinctArenas(idle: seq<Idle>) {
    forall i, j :: 0 <= i < j < |idle| ==> idle[i].arena != idle[j].arena
  }

  /** The arena for a pass: the one that served the target; else the first whose
      target is gone; else, when the list is full, the oldest. */
  ghost predicate Chosen(idle: seq<Idle>, target: Target, alive: set<Target>, choice: Option<nat>) {
    match choice
    case None => |idle| < MAX_IDLE && forall i :: 0 <= i < |idle| ==> idle[i].target != target && idle[i].target in alive
    case Some(k) =>
      && k < |idle|
      && (forall i :: 0 <= i < k ==> idle[i].target != target)
      && (idle[k].target == target || (forall i :: 0 <= i < |idle| ==> idle[i].target != target))
      && (idle[k].target == target || idle[k].target !in alive || (k == 0 && |idle| >= MAX_IDLE && forall i :: 0 <= i < |idle| ==> idle[i].target in alive))
      && (idle[k].target != target ==> forall i :: 0 <= i < k ==> idle[i].target in alive)
  }

  lemma Removed(idle: seq<Idle>, k: nat)
    requires DistinctArenas(idle) && k < |idle|
    ensures var rest := idle[..k] + idle[k + 1..];
            DistinctArenas(rest) && Arenas(rest) == Arenas(idle) - {idle[k].arena} && idle[k].arena in Arenas(idle)
  {
    var rest := idle[..k] + idle[k + 1..];
    forall a | a in Arenas(idle) && a != idle[k].arena ensures a in Arenas(rest) {
      var i :| 0 <= i < |idle| && idle[i].arena == a;
      assert rest[if i < k then i else i - 1].arena == a;
    }
    forall i | 0 <= i < |rest| ensures rest[i].arena in Arenas(idle) && rest[i].arena != idle[k].arena {
      assert rest[i] == idle[if i < k then i else i + 1];
    }
  }

  lemma Added(idle: seq<Idle>, a: DescriptorArena, target: Target)
    requires DistinctArenas(idle) && a !in Arenas(idle)
    ensures DistinctArenas(idle + [Idle(a, target)]) && Arenas(idle + [Idle(a, target)]) == Arenas(idle) + {a}
  {
    var more := idle + [Idle(a, target)];
    assert more[|idle|].arena == a;
    forall i | 0 <= i < |idle| ensures idle[i].arena in Arenas(idle) && more[i] == idle[i] {}
  }

  class ArenaPool {
    const dev: Device
    const keyHash: (nat, seq<nat>) -> nat
    var idle: seq<Idle>
    /** The arenas of encoders that have not been released yet. */
    ghost var owned: set<DescriptorArena>

    ghost predicate Valid(h: Heap)
      reads this, Arenas(idle)
    {
      && |idle| <= MAX_IDLE && DistinctArenas(idle) && Arenas(idle) !! owned
      && forall a :: a in Arenas(idle) ==> a.dev == dev && a.Coherent(h)
    }

    constructor (dev: Device, keyHash: (nat, seq<nat>) -> nat)
      ensures idle == [] && owned == {} && this.dev == dev && forall h: Heap :: Valid(h)
    {
      this.dev, this.keyHash, idle, owned := dev, keyHash, [], {};
    }

    method Choose(target: Target, alive: set<Target>) returns (choice: Option<nat>)
      ensures Chosen(idle, target, alive, choice)
    {
      for i := 0 to |idle|
        invariant forall j :: 0 <= j < i ==> idle[j].target != target
      {
        if idle[i].target == target { return Some(i); }
      }
      for i := 0 to |idle|
        invariant forall j :: 0 <= j < i ==> idle[j].target in alive
      {
        if idle[i].target !in alive { return Some(i); }
      }
      choice := if |idle| >= MAX_IDLE then Some(0) else None;
    }

    /** The arena of a new encoder.  An arena that grew too large is given up. */
    method Take(h: Heap, target: Target, alive: set<Target>) returns (a: DescriptorArena, ghost choice: Option<nat>)
      requires Valid(h)
      modifies this`idle, this`owned
      ensures Valid(h) && a.dev == dev && a.Coherent(h)
      ensures a !in old(owned) && owned == old(owned) + {a} && a !in Arenas(idle)
      ensures fresh(a) || a in old(Arenas(idle))
      ensures Chosen(old(idle), target, alive, choice)
      ensures choice.None? ==> idle == old(idle) && fresh(a)
      ensures choice.Some? ==> idle == old(idle)[..choice.value] + old(idle)[choice.value + 1..]
      ensures choice.Some? ==> if |old(idle)[choice.value].arena.entries| > 2048 then fresh(a) else a == old(idle)[choice.value].arena
    {
      hide DescriptorArena.Coherent, CoherentState, Chosen;
      var c := Choose(target, alive);
      choice := c;
      ChosenInside(idle, target, alive, c);
      if c.Some? {
        a := idle[c.value].arena;
        Removed(idle, c.value);
        idle := idle[..c.value] + idle[c.value + 1..];
      }
      if c.None? || |a.entries| > MAX_ENTRIES {
        a := new DescriptorArena(dev, keyHash);
      }
      owned := owned + {a};
    }

    /** The encoder was released: its arena serves the next pass, with everything
        it has cached, unless enough arenas are idle. */
    method GiveBack(h: Heap, a: DescriptorArena, target: Target)
      requires Valid(h) && a in owned && a.dev == dev && a.Coherent(h)
      modifies this`idle, this`owned
      ensures Valid(h) && owned == old(owned) - {a}
      ensures idle == if |old(idle)| < 160 then old(idle) + [Idle(a, target)] else old(idle)
    {
      hide DescriptorArena.Coherent, CoherentState;
      owned := owned - {a};
      if |idle| < MAX_IDLE {
        Added(idle, a, target);
        idle := idle + [Idle(a, target)];
      }
    }

    /** Idle arenas stay coherent whatever the program does meanwhile. */
    lemma Rests(h: Heap, k: Heap, held: set<Id>)
      requires Valid(h) && Evolves(h, k, held)
      ensures Valid(k)
    {
      forall a | a in Arenas(idle) ensures a.Coherent(k) {
        IdleKeepsCache(h, k, held, a.dev, a.keyHash, a.entries, a.plans, a.contents, a.lookup, a.available, a.nextSet);
      }
    }

    /** Beginning a pass: the encoder is the only user of its arena. */
    method Begin(h: Heap, target: Target, alive: set<Target>, retain: bool, storageAlignment: nat, uniformAlignment: nat) returns (e: RenderEncoder)
      requires Valid(h) && h.Valid() && dev.offsetAlignment > 0 && storageAlignment > 0
      modifies this`idle, this`owned, Arenas(idle)
      ensures Valid(h) && e.Valid(h) && fresh(e) && e.retain == retain && e.draws == [] && e.calls == []
      ensures e.arena !in old(owned) && owned == old(owned) + {e.arena}
    {
      hide DescriptorArena.Coherent, CoherentState, Chosen, InlineAllocator.Valid, RenderEncoder.Valid;
      ghost var choice;
      var a;
      a, choice := Take(h, target, alive);
      var inline := new InlineAllocator(storageAlignment, uniformAlignment);
      e := new RenderEncoder(h, dev, retain, a, inline);
    }

    /** The encoder's destructor. */
    method End(h: Heap, e: RenderEncoder, target: Target)
      requires Valid(h) && e.Valid(h) && e.arena in owned && e.dev == dev
      modifies this`idle, this`owned
      ensures Valid(h) && owned == old(owned) - {e.arena}
    {
      hide DescriptorArena.Coherent, CoherentState;
      GiveBack(h, e.arena, target);
    }
  }

  lemma ChosenInside(idle: seq<Idle>, target: Target, alive: set<Target>, choice: Option<nat>)
    requires Chosen(idle, target, alive, choice)
    ensures choice.Some? ==> choice.value < |idle|
  {
  }
}
