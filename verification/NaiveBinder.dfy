/** The binder that the incremental one replaces: before every draw it pushes
    every buffer, writes every descriptor into new sets, and binds everything. */
module NaiveBinder {
  import opened ShaderBindings
  import opened Wrappers
  import opened DescriptorPlans
  import opened DescriptorArenas
  import opened CommandStreams
  import opened BindingUpdates

  function Offsets(a: Args): seq<nat> { Values(SortOffsets(a.Offsets(a.info.bindings))) }

  ghost function BindStage(stream: Stream, p: Id, s: nat, a: Args, set_: SetId): (r: Stream)
    requires a.Complete() && s < 2 && StreamOk(stream)
    ensures StreamOk(r)
  {
    var pushed := if PushesBuffers(a.info, a.dev) then stream.Push(p, a.Pushes(a.info.bindings)) else stream;
    pushed.BindSet(p, s, set_, Offsets(a))
  }

  /** What the command buffer holds after binding everything for a draw; the two
      stages' sets are the new sets 0 and 1. */
  ghost function BindEverything(d: Draw): Stream
    requires |d.args| == 2 && d.args[0].Complete() && d.args[1].Complete()
  {
    BindStage(BindStage(EMPTY_STREAM, d.pso, 0, d.args[0], 0), d.pso, 1, d.args[1], 1).BindVertex(VertexArgs(d.args[0].tables, d.inputs))
  }

  ghost function NewSets(d: Draw): map<SetId, SetContents>
    requires |d.args| == 2 && d.args[0].Complete() && d.args[1].Complete()
  {
    map[0 := ContentsOf(d.args[0].Plan(d.args[0].info.bindings)), 1 := ContentsOf(d.args[1].Plan(d.args[1].info.bindings))]
  }

  /** What a shader of stage `s` reads through a binding. */
  ghost function Seen(bound: Stream, contents: map<SetId, SetContents>, s: nat, a: Args, b: Binding): Option<View>
    requires s < 2 && StreamOk(bound)
  {
    var at := LocationOf(a.info, b, a.dev);
    if at.set_ == 0 then (if at.binding in bound.pushed then Some(bound.pushed[at.binding]) else None)
    else if bound.sets[s].Some? && bound.sets[s].value in contents then EffectiveView(contents[bound.sets[s].value], bound.offsets[s], at.binding)
    else None
  }

  ghost predicate WellTyped(d: Draw) {
    && |d.args| == 2 && d.args[0].info.Valid() && d.args[1].info.Valid()
    && d.args[0].info.stage == Vertex && d.args[1].info.stage == Fragment
  }

  lemma {:induction false} PushesStay(pushed: map<nat, View>, a: Args, bs: seq<Binding>)
    requires forall b :: b in bs && b.Buffer? ==> a.Bindable(b)
    ensures forall at :: at in pushed && (forall b :: b in bs && b.Buffer? ==> at != PushedBinding(a.info.stage, b.slot)) ==>
              at in PushAll(pushed, a.Pushes(bs)) && PushAll(pushed, a.Pushes(bs))[at] == pushed[at]
  {
    forall at | at in pushed && (forall b :: b in bs && b.Buffer? ==> at != PushedBinding(a.info.stage, b.slot))
      ensures at in PushAll(pushed, a.Pushes(bs)) && PushAll(pushed, a.Pushes(bs))[at] == pushed[at]
    {
      PushedElsewhere(a, bs, pushed, at);
    }
  }

  /** One stage bound shows that stage, and keeps the pushed buffers of the other. */
  lemma StageShows(stream: Stream, p: Id, s: nat, a: Args, set_: SetId, b: Binding, contents: map<SetId, SetContents>)
    requires a.Complete() && a.info.Valid() && s < 2 && StreamOk(stream) && b in a.info.bindings && !b.VertexInput?
    requires set_ in contents && contents[set_] == ContentsOf(a.Plan(a.info.bindings))
    ensures Seen(BindStage(stream, p, s, a, set_), contents, s, a, b) == Some(a.ViewOf(b))
  {
    if b.Buffer? && PushesBuffers(a.info, a.dev) {
      PushedValue(a, a.info.bindings, stream.Rebase(p).pushed, b);
    } else {
      PlanShows(a, b);
    }
  }

  /** Binding the second stage leaves the first stage as it was. */
  lemma OtherStageStays(stream: Stream, p: Id, v: Args, f: Args, set_: SetId, b: Binding, contents: map<SetId, SetContents>)
    requires f.Complete() && StreamOk(stream) && stream.owner == Some(p)
    requires v.info.stage == Vertex && f.info.stage == Fragment && b in v.info.bindings && !b.VertexInput?
    requires Seen(stream, contents, 0, v, b).Some?
    ensures Seen(BindStage(stream, p, 1, f, set_), contents, 0, v, b) == Seen(stream, contents, 0, v, b)
  {
    if b.Buffer? && PushesBuffers(v.info, v.dev) {
      PushesStay(stream.pushed, f, f.info.bindings);
    }
  }

  /** Binding everything shows every resource exactly its argument. */
  lemma EverythingShows(d: Draw)
    requires WellTyped(d) && d.args[0].Complete() && d.args[1].Complete()
    ensures DrawShows(d.(bound := BindEverything(d)), NewSets(d))
  {
    hide Seen;
    var v, f, contents := d.args[0], d.args[1], NewSets(d);
    var one := BindStage(EMPTY_STREAM, d.pso, 0, v, 0);
    var two := BindStage(one, d.pso, 1, f, 1);
    var n := d.(bound := BindEverything(d));
    forall s, b | 0 <= s < 2 && b in n.args[s].info.bindings && !b.VertexInput?
      ensures BindingShown(n, s, b, contents)
    {
      if s == 0 {
        StageShows(EMPTY_STREAM, d.pso, 0, v, 0, b, contents);
        OtherStageStays(one, d.pso, v, f, 1, b, contents);
      } else {
        StageShows(one, d.pso, 1, f, 1, b, contents);
      }
      SeenIsShown(n, two, s, b, contents);
    }
    VertexBound(two, d);
  }

  lemma SeenIsShown(d: Draw, bound: Stream, s: nat, b: Binding, contents: map<SetId, SetContents>)
    requires s < 2 && |d.args| == 2 && StreamOk(d.bound) && StreamOk(bound) && d.bound == bound.(vertex := d.bound.vertex)
    requires !b.VertexInput? && d.args[s].Complete() && b in d.args[s].info.bindings && d.args[s].info.stage == (if s == 0 then Vertex else Fragment)
    ensures BindingShown(d, s, b, contents) <==> Seen(bound, contents, s, d.args[s], b) == Some(d.args[s].ViewOf(b))
    ensures Seen(d.bound, contents, s, d.args[s], b) == Seen(bound, contents, s, d.args[s], b)
  {
  }

  lemma VertexBound(stream: Stream, d: Draw)
    requires |d.args| == 2
    ensures VertexShown(d.args[0].tables, d.inputs, stream.BindVertex(VertexArgs(d.args[0].tables, d.inputs)).vertex)
  {
  }

  /** The refinement: a draw that the incremental binder recorded reads through
      every binding, and from every vertex input, exactly what it would read had
      everything been bound anew. */
  lemma SameAsNaive(d: Draw, contents: map<SetId, SetContents>)
    requires WellTyped(d) && DrawShows(d, contents)
    ensures d.args[0].Complete() && d.args[1].Complete()
    ensures var naive := BindEverything(d);
            && (forall s, b :: 0 <= s < 2 && b in d.args[s].info.bindings && !b.VertexInput? ==>
                  Seen(d.bound, contents, s, d.args[s], b) == Seen(naive, NewSets(d), s, d.args[s], b) == Some(d.args[s].ViewOf(b)))
            && |d.inputs| <= |naive.vertex| && |d.inputs| <= |d.bound.vertex| && d.bound.vertex[..|d.inputs|] == naive.vertex[..|d.inputs|]
  {
    hide Seen;
    forall s, b | 0 <= s < 2 && b in d.args[s].info.bindings
      ensures d.args[s].Bindable(b)
    {
      if !b.VertexInput? { assert BindingShown(d, s, b, contents); }
    }
    EverythingShows(d);
    var n := d.(bound := BindEverything(d));
    forall s, b | 0 <= s < 2 && b in d.args[s].info.bindings && !b.VertexInput?
      ensures Seen(d.bound, contents, s, d.args[s], b) == Seen(n.bound, NewSets(d), s, d.args[s], b) == Some(d.args[s].ViewOf(b))
    {
      assert BindingShown(d, s, b, contents) && BindingShown(n, s, b, NewSets(d));
      SeenIsShown(d, d.bound, s, b, contents);
      SeenIsShown(n, n.bound, s, b, NewSets(d));
    }
  }
}
