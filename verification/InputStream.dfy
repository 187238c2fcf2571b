/** Input events on their way from the window system to the guest: the bridge
    merges committed text into them on the window thread, batches them, and
    hands one batch at a time across. */
module InputStreams {
  import opened CommittedText
  import opened Wrappers

  datatype Kind = Motion | Down | Up | Scroll | KeyDown | KeyUp | Text | Resize | Focus | Blur | Close

  datatype Detail = Detail(button: nat, key: nat, modifiers: nat, repeat: nat, clicks: nat, x: real, y: real, dx: real, dy: real)

  const NO_DETAIL := Detail(0, 0, 0, 0, 0, 0.0, 0.0, 0.0, 0.0)

  /** The text is what stands before the NUL; behind it the buffer is zero. */
  datatype Event = Event(kind: Kind, detail: Detail, text: seq<byte>)

  const BATCH_ROOM: nat := 64

  predicate Turning(e: Event) { e.kind == Focus || e.kind == Blur }

  // ------------------------------------------------------------------ text first

  /** Does pending text leave with what the window system reported? */
  predicate TakesText(ready: Option<Event>) {
    ready.None? || (ready.value.kind == KeyDown && ready.value.text == [])
  }

  function WithText(ready: Option<Event>, piece: seq<byte>): Event {
    match ready
    case None => Event(Text, NO_DETAIL, piece)
    case Some(e) => e.(text := piece)
  }

  /** One event as reported: its origin in the window system's queue, if any,
      and the piece of committed text that it carries, if any. */
  datatype Polled = Polled(origin: Option<Event>, piece: seq<byte>) {
    function Shown(): Event {
      if piece == [] && origin.Some? then origin.value else WithText(origin, piece)
    }

    ghost predicate Sound() {
      && (piece == [] ==> origin.Some?)
      && (piece != [] ==> TakesText(origin) && ValidUtf8(piece) && |piece| <= TEXT_ROOM)
    }
  }

  function Origins(p: seq<Polled>): seq<Event> {
    if p == [] then [] else Origins(p[..|p| - 1]) + (if p[|p| - 1].origin.Some? then [p[|p| - 1].origin.value] else [])
  }

  function Pieces(p: seq<Polled>): seq<byte> {
    if p == [] then [] else Pieces(p[..|p| - 1]) + p[|p| - 1].piece
  }

  function Shown(p: seq<Polled>): (s: seq<Event>)
    ensures |s| == |p|
  {
    if p == [] then [] else Shown(p[..|p| - 1]) + [p[|p| - 1].Shown()]
  }

  function Joined(c: seq<seq<byte>>): seq<byte> {
    if c == [] then [] else c[0] + Joined(c[1..])
  }

  lemma {:induction false} JoinedMore(c: seq<seq<byte>>, text: seq<byte>)
    ensures Joined(c + [text]) == Joined(c) + text
  {
    if c == [] {
      assert [text][1..] == [] && c + [text] == [text];
    } else {
      JoinedMore(c[1..], text);
      assert (c + [text])[1..] == c[1..] + [text];
      assert c[0] + (Joined(c[1..]) + text) == c[0] + Joined(c[1..]) + text;
    }
  }

  lemma OneMore(p: seq<Polled>, q: Polled)
    ensures Origins(p + [q]) == Origins(p) + (if q.origin.Some? then [q.origin.value] else [])
    ensures Pieces(p + [q]) == Pieces(p) + q.piece
    ensures Shown(p + [q]) == Shown(p) + [q.Shown()]
  {
    assert (p + [q])[..|p|] == p;
  }

  lemma {:induction false} ShownAt(p: seq<Polled>, i: nat)
    requires i < |p|
    ensures Shown(p)[i] == p[i].Shown()
  {
    if i < |p| - 1 { ShownAt(p[..|p| - 1], i); }
  }

  ghost predicate CommitsValid(c: seq<seq<byte>>) {
    forall i :: 0 <= i < |c| ==> c[i] != [] && ValidUtf8(c[i])
  }

  // ---------------------------------------------------------------- window thread

  /** What the window thread still holds, and what it has reported so far. */
  datatype Window = Window(queue: seq<Event>, committed: seq<seq<byte>>, polled: seq<Polled>)

  ghost predicate WindowValid(w: Window) {
    && CommitsValid(w.committed)
    && forall i :: 0 <= i < |w.polled| ==> w.polled[i].Sound()
  }

  function Taken(w: Window): Option<Event> { if w.queue == [] then None else Some(w.queue[0]) }

  /** One poll: the window system's next event, then the pending text. */
  ghost function Polling(w: Window): (r: Option<Polled>)
    requires CommitsValid(w.committed)
  {
    var ready := Taken(w);
    if w.committed == [] || !TakesText(ready) then
      (if ready.None? then None else Some(Polled(ready, [])))
    else
      PieceOfValid(w.committed[0]);
      Some(Polled(ready, w.committed[0][..Cut(w.committed[0])]))
  }

  ghost function AfterPoll(w: Window): Window
    requires CommitsValid(w.committed)
  {
    var p := Polling(w);
    if p.None? then w
    else
      var rest := if p.value.piece == [] then w.committed else CutFront(w.committed);
      Window(if w.queue == [] then [] else w.queue[1..], rest, w.polled + [p.value])
  }

  ghost function CutFront(c: seq<seq<byte>>): seq<seq<byte>>
    requires CommitsValid(c) && c != []
  {
    PieceOfValid(c[0]);
    var rest := c[0][Cut(c[0])..];
    if rest == [] then c[1..] else [rest] + c[1..]
  }

  lemma JoinedFront(first: seq<byte>, tail: seq<seq<byte>>)
    ensures Joined([first] + tail) == first + Joined(tail)
  {
    assert ([first] + tail)[1..] == tail;
  }

  lemma FrontCutValid(c: seq<seq<byte>>)
    requires CommitsValid(c) && c != []
    ensures CommitsValid(CutFront(c))
  {
    hide ValidUtf8, Cut;
    PieceOfValid(c[0]);
    var next := CutFront(c);
    forall i | 0 <= i < |next|
      ensures next[i] != [] && ValidUtf8(next[i])
    {
      assert i > 0 && |next| == |c| ==> next[i] == c[i];
      assert |next| < |c| ==> next[i] == c[i + 1];
    }
  }

  lemma FrontCut(c: seq<seq<byte>>)
    requires CommitsValid(c) && c != []
    ensures 0 < Cut(c[0]) <= |c[0]|
    ensures c[0][..Cut(c[0])] + Joined(CutFront(c)) == Joined(c)
  {
    hide ValidUtf8, Cut, Joined;
    PieceOfValid(c[0]);
    var tail := c[1..];
    var piece, rest := c[0][..Cut(c[0])], c[0][Cut(c[0])..];
    assert c == [c[0]] + tail;
    JoinedFront(c[0], tail);
    if rest == [] {
      assert piece == c[0];
    } else {
      JoinedFront(rest, tail);
      Regrouped(piece, rest, Joined(tail));
      assert c[0] == piece + rest;
    }
  }

  lemma Regrouped(a: seq<byte>, b: seq<byte>, c: seq<byte>)
    ensures a + (b + c) == a + b + c
  {
  }

  lemma PollSound(w: Window)
    requires CommitsValid(w.committed)
    ensures Polling(w).None? <==> w.queue == [] && w.committed == []
    ensures Polling(w).Some? ==> Polling(w).value.Sound() && Polling(w).value.origin == Taken(w)
    ensures Polling(w).Some? && Polling(w).value.piece != [] ==> w.committed != [] && Polling(w).value.piece == w.committed[0][..Cut(w.committed[0])]
  {
    hide ValidUtf8, Cut;
    if w.committed != [] { PieceOfValid(w.committed[0]); }
  }

  /** A poll loses nothing: the events still follow their order, the text its. */
  lemma PollConserves(w: Window)
    requires WindowValid(w)
    ensures WindowValid(AfterPoll(w))
    ensures Origins(AfterPoll(w).polled) + AfterPoll(w).queue == Origins(w.polled) + w.queue
    ensures Pieces(AfterPoll(w).polled) + Joined(AfterPoll(w).committed) == Pieces(w.polled) + Joined(w.committed)
  {
    hide ValidUtf8, Cut, Joined, CutFront, TakesText, Polling, CommitsValid, Origins, Pieces;
    PollSound(w);
    var p := Polling(w);
    if p.Some? {
      var a := AfterPoll(w);
      OneMore(w.polled, p.value);
      if w.queue != [] { assert w.queue == [w.queue[0]] + w.queue[1..]; }
      assert Origins(a.polled) + a.queue == Origins(w.polled) + w.queue;
      assert forall i :: 0 <= i < |a.polled| ==> a.polled[i] == if i < |w.polled| then w.polled[i] else p.value;
      if p.value.piece == [] {
        assert Pieces(a.polled) == Pieces(w.polled) + [] == Pieces(w.polled);
      } else {
        FrontCutValid(w.committed);
        FrontCut(w.committed);
        assert Pieces(w.polled) + p.value.piece + Joined(a.committed) == Pieces(w.polled) + (p.value.piece + Joined(a.committed));
      }
    }
  }

  // ----------------------------------------------------------------------- batches

  /** At most one request is outstanding: asked for, or answered with a batch. */
  datatype Pending = NoRequest | Waiting | Done(batch: seq<Event>)

  function InFlight(p: Pending): seq<Event> { if p.Done? then p.batch else [] }

  /** Whatever was fetched behind a focus or blur event, the guest saw that event first. */
  ghost predicate TurnsSeen(p: seq<Polled>, delivered: nat) {
    forall i :: 0 <= i < |p| - 1 && Turning(p[i].Shown()) ==> i < delivered
  }

  ghost predicate BatchEnds(b: seq<Event>) {
    |b| <= BATCH_ROOM && forall i :: 0 <= i < |b| - 1 ==> !Turning(b[i])
  }

  lemma {:induction false} ShownJoin(p: seq<Polled>, q: seq<Polled>)
    ensures Shown(p + q) == Shown(p) + Shown(q)
  {
    if q == [] {
      assert p + q == p;
    } else {
      var m := |q| - 1;
      assert (p + q)[..|p| + m] == p + q[..m];
      ShownJoin(p, q[..m]);
    }
  }

  /** A batch fetched when the guest had seen everything. */
  lemma BatchFetched(before: seq<Polled>, more: seq<Polled>)
    requires BatchEnds(Shown(more))
    ensures TurnsSeen(before + more, |before|)
  {
    var p := before + more;
    forall i | |before| <= i < |p| - 1
      ensures !Turning(p[i].Shown())
    {
      ShownAt(more, i - |before|);
    }
  }

  lemma ShowMore(more: seq<Polled>, q: Polled, shown: seq<Event>)
    requires |more| < BATCH_ROOM && shown == Shown(more) && BatchEnds(shown) && (shown != [] ==> !Turning(shown[|shown| - 1]))
    ensures Shown(more + [q]) == shown + [q.Shown()] && BatchEnds(Shown(more + [q]))
  {
    OneMore(more, q);
  }

  lemma PiecesPrefix(w: Window, accepted: seq<byte>)
    requires Pieces(w.polled) + Joined(w.committed) == accepted
    ensures Pieces(w.polled) <= accepted
  {
  }

  lemma NoCommits()
    ensures Joined([]) == [] && CommitsValid([])
  {
  }

  lemma NoneShown()
    ensures Shown([]) == [] && BatchEnds([])
  {
  }

  lemma SeenMore(p: seq<Polled>, d: nat, e: nat)
    requires TurnsSeen(p, d) && d <= e
    ensures TurnsSeen(p, e)
  {
  }

  class InputBridge {
    // the window thread
    var queue: seq<Event>
    var committed: seq<seq<byte>>
    ghost var polled: seq<Polled>
    /** Every event that the window system reports, in its order. */
    ghost var sequence: seq<Event>
    /** Every byte committed, but for what a lost focus discarded. */
    ghost var accepted: seq<byte>
    // between the threads
    var pending: Pending
    // the guest
    const events: array<Event>
    var next: nat
    var count: nat
    ghost var delivered: seq<Event>

    ghost function Held(): Window
      reads this
    {
      Window(queue, committed, polled)
    }

    ghost predicate WindowOk()
      reads this
    {
      && WindowValid(Held())
      && Origins(polled) + queue == sequence
      && Pieces(polled) + Joined(committed) == accepted
    }

    ghost predicate GuestOk()
      reads this, events
    {
      && events.Length == BATCH_ROOM && next <= count <= BATCH_ROOM
      && (pending != NoRequest ==> next == count == 0)
      && (pending.Done? ==> BatchEnds(pending.batch))
      && Shown(polled) == delivered + events[next..count] + InFlight(pending)
      && TurnsSeen(polled, |delivered|)
    }

    /** Delivered events, the rest of the batch, the outstanding request and the
        queue are the whole sequence; pieces and pending commits are the whole text. */
    ghost predicate Valid()
      reads this, events
    {
      WindowOk() && GuestOk()
    }

    constructor ()
      ensures Valid() && fresh(events) && queue == [] && committed == [] && delivered == [] && pending == NoRequest
    {
      queue, committed, polled, sequence, accepted := [], [], [], [], [];
      pending, next, count, delivered := NoRequest, 0, 0, [];
      events := new Event[BATCH_ROOM](i => Event(Motion, NO_DETAIL, []));
    }

    /** The window system reports `e` behind `at` events that nobody polled yet. */
    method Arrive(e: Event, at: nat)
      requires Valid() && at <= |queue|
      modifies `queue, `sequence
      ensures Valid()
      ensures queue == old(queue[..at] + [e] + queue[at..])
      ensures sequence == old(sequence[..|Origins(polled)| + at] + [e] + sequence[|Origins(polled)| + at..])
    {
      hide CommitsValid, Origins, Pieces, Joined, Shown, TurnsSeen;
      queue := queue[..at] + [e] + queue[at..];
      sequence := Origins(polled) + queue;
    }

    method Commit(text: seq<byte>, focused: bool)
      requires Valid() && ValidUtf8(text)
      modifies `committed, `accepted
      ensures Valid() && accepted == old(accepted) + (if focused then text else [])
    {
      hide ValidUtf8, Origins, Pieces, Joined, Shown, TurnsSeen;
      if focused && text != [] {
        JoinedMore(committed, text);
        assert Pieces(polled) + (Joined(committed) + text) == Pieces(polled) + Joined(committed) + text;
        committed := committed + [text];
        accepted := accepted + text;
      }
    }

    /** Losing the text focus discards what was not yet reported, nothing else. */
    method ClearText()
      requires WindowOk()
      modifies `committed, `accepted
      ensures WindowOk() && committed == [] && accepted == Pieces(polled) && accepted <= old(accepted)
    {
      hide CommitsValid, Origins, Pieces;
      PiecesPrefix(Held(), accepted);
      committed := [];
      accepted := Pieces(polled);
      NoCommits();
    }

    method TakeEvent() returns (r: Option<Event>)
      modifies `queue
      ensures r == old(Taken(Held())) && queue == if old(queue) == [] then [] else old(queue)[1..]
    {
      r := None;
      if queue != [] {
        r := Some(queue[0]);
        queue := queue[1..];
      }
    }

    method DeliverText(ready: Option<Event>) returns (r: Option<Event>, ghost piece: seq<byte>)
      requires CommitsValid(committed)
      modifies `committed
      ensures committed == if piece == [] then old(committed) else if old(committed) != [] then CutFront(old(committed)) else []
      ensures if old(committed) == [] || !TakesText(ready) then r == ready && piece == []
              else 0 < Cut(old(committed)[0]) <= |old(committed)[0]| && piece == old(committed)[0][..Cut(old(committed)[0])] && r == Some(WithText(ready, piece))
    {
      hide ValidUtf8, Cut;
      piece := [];
      if committed == [] { return ready, []; }
      if ready.Some? && (ready.value.kind != KeyDown || ready.value.text != []) { return ready, []; }
      var text := committed[0];
      PieceOfValid(text);
      var n := FindCut(text);
      var e := if ready.Some? then ready.value else Event(Text, NO_DETAIL, []);
      r := Some(e.(text := text[..n]));
      piece := text[..n];
      var rest := text[n..];
      committed := if rest == [] then committed[1..] else [rest] + committed[1..];
    }

    method PollWithText(lost: bool) returns (r: Option<Event>, ghost p: Option<Polled>)
      requires WindowOk()
      modifies `queue, `committed, `polled, `accepted
      ensures WindowOk()
      ensures p.Some? ==> polled == old(polled) + [p.value] && r == Some(p.value.Shown())
      ensures p.None? ==> r == None && polled == old(polled) && queue == [] && committed == []
      ensures accepted <= old(accepted) && (!lost ==> accepted == old(accepted))
    {
      hide ValidUtf8, Origins, Pieces, Joined, Cut, CutFront;
      if lost { ClearText(); }
      ghost var before := Held();
      PollSound(before);
      PollConserves(before);
      p := Polling(before);
      var ready := TakeEvent();
      ghost var piece;
      r, piece := DeliverText(ready);
      if p.Some? { polled := polled + [p.value]; }
      assert Held() == AfterPoll(before);
    }

    /** Up to a batch of events; a focus or blur event ends it. */
    method FillBatch(batch: array<Event>, lost: seq<bool>) returns (n: nat, ghost more: seq<Polled>)
      requires WindowOk() && batch.Length == BATCH_ROOM == |lost|
      modifies `queue, `committed, `polled, `accepted, batch
      ensures WindowOk() && n == |more| <= BATCH_ROOM && polled == old(polled) + more && batch[..n] == Shown(more) && BatchEnds(Shown(more))
      ensures n <= 64
      ensures n < 64 && (n == 0 || !Turning(batch[n - 1])) ==> queue == [] && committed == []
      ensures accepted <= old(accepted) && (true !in lost ==> accepted == old(accepted))
    {
      hide ValidUtf8, WindowValid, Origins, Pieces, Joined, Shown, BatchEnds;
      ghost var before := polled;
      n, more := 0, [];
      NoneShown();
      var turned := false;
      while n < BATCH_ROOM && !turned
        invariant WindowOk() && n == |more| <= BATCH_ROOM
        invariant polled == before + more && batch[..n] == Shown(more) && BatchEnds(Shown(more))
        invariant turned == (n > 0 && Turning(batch[n - 1]))
        invariant accepted <= old(accepted) && (true !in lost ==> accepted == old(accepted))
        invariant unchanged(`sequence)
        decreases BATCH_ROOM - n
      {
        ghost var p;
        var r;
        r, p := PollWithText(lost[n]);
        if r.None? { break; }
        ShowMore(more, p.value, batch[..n]);
        batch[n] := r.value;
        assert batch[..n + 1] == batch[..n] + [r.value];
        n := n + 1;
        more := more + [p.value];
        turned := r.value.kind == Blur || r.value.kind == Focus;
      }
    }

    /** The window thread answers the request. */
    method RunRequest(lost: seq<bool>)
      requires Valid() && pending == Waiting && |lost| == BATCH_ROOM
      modifies `queue, `committed, `polled, `accepted, `pending
      ensures Valid() && pending.Done? && Shown(polled) == old(Shown(polled)) + pending.batch
      ensures |polled| == |old(polled)| + |pending.batch| && (pending.batch == [] ==> polled == old(polled))
      ensures |pending.batch| < BATCH_ROOM && (pending.batch == [] || !Turning(pending.batch[|pending.batch| - 1])) ==>
        queue == [] && committed == []
      ensures accepted <= old(accepted) && (true !in lost ==> accepted == old(accepted))
    {
      hide ValidUtf8, WindowValid, Origins, Pieces, Joined, Shown, TurnsSeen, BatchEnds;
      ghost var before := polled;
      var batch := new Event[BATCH_ROOM](i => Event(Motion, NO_DETAIL, []));
      ghost var more;
      var n;
      n, more := FillBatch(batch, lost);
      pending := Done(batch[..n]);
      ShownJoin(before, more);
      BatchFetched(before, more);
      assert Shown(before) == delivered + events[next..count] + [];
      assert |Shown(before)| == |before|;
    }

    method Receive()
      requires Valid() && pending.Done?
      modifies `pending, `next, `count, events
      ensures Valid() && pending == NoRequest && next == 0 && count == |old(pending.batch)|
    {
      hide WindowValid, Origins, Pieces, Joined, Shown, TurnsSeen;
      var batch := pending.batch;
      for i := 0 to |batch|
        invariant events[..i] == batch[..i]
        invariant unchanged(this)
      {
        events[i] := batch[i];
      }
      pending, next, count := NoRequest, 0, |batch|;
      assert events[0..count] == batch;
    }

    method TakeNext() returns (r: Event)
      requires Valid() && next < count && pending == NoRequest
      modifies `next, `delivered
      ensures Valid() && next == old(next) + 1 && r == events[old(next)] && delivered == old(delivered) + [r]
    {
      hide WindowValid, Origins, Pieces, Joined, Shown;
      r := events[next];
      assert events[next..count] == [r] + events[next + 1..count];
      assert delivered + events[next..count] + [] == delivered + [r] + events[next + 1..count] + [];
      SeenMore(polled, |delivered|, |delivered| + 1);
      next := next + 1;
      delivered := delivered + [r];
    }

    /** The guest's poll; `prompt` says whether the window thread answers a new
        request before the guest looks. */
    method PollBatch(prompt: bool, lost: seq<bool>) returns (r: Option<Event>)
      requires Valid() && |lost| == BATCH_ROOM
      modifies this, events
      ensures Valid() && sequence == old(sequence)
      ensures accepted <= old(accepted)
      ensures delivered == old(delivered) + (if r.Some? then [r.value] else [])
      ensures old(next < count) ==> r == Some(old(events[next])) && pending == NoRequest && polled == old(polled)
      ensures old(next == count && 0 < count < BATCH_ROOM) ==> r == None && count == 0 && pending == NoRequest && polled == old(polled)
      ensures old(pending == NoRequest && next == count && (count == 0 || count >= BATCH_ROOM)) ==>
        if prompt then pending == NoRequest && (r.None? <==> polled == old(polled))
        else r == None && pending == Waiting && polled == old(polled)
      ensures old(pending == Waiting) ==> r == None && pending == Waiting && polled == old(polled)
      ensures old(pending.Done?) ==> pending == NoRequest && polled == old(polled) && (r.None? <==> old(pending.batch == []))
    {
      hide WindowValid, Origins, Pieces, Joined, Shown, TurnsSeen, BatchEnds;
      r := None;
      if next == count {
        if 0 < count < BATCH_ROOM {
          count, next := 0, 0;
          return;
        }
        next, count := 0, 0;
        if pending == NoRequest {
          pending := Waiting;
          if prompt { RunRequest(lost); }
        }
        if pending == Waiting { return; }
        Receive();
        if count == 0 { return; }
      }
      var e := TakeNext();
      r := Some(e);
    }
  }
}
