/** Sampled program counters: a bounded history of timed samples, and the tally
    of one time window over it. */
module SampleHistories {
  import opened FiniteSets

  datatype TimedIp = TimedIp(time: nat, ip: nat, core: nat)

  datatype IpReading = IpReading(count: nat, cores: map<nat, nat>)

  const MAX_ADDRESSES: nat := 8192
  const MAX_CORES: nat := 256
  const CAPACITY: nat := 131072

  datatype Tally = Tally(ips: map<nat, IpReading>, samples: nat, overflow: nat)

  const NO_TALLY := Tally(map[], 0, 0)

  // ------------------------------------------------------------------ one sample

  function Counted(r: IpReading, core: nat): IpReading {
    IpReading(r.count + 1, if core >= MAX_CORES then r.cores else r.cores[core := (if core in r.cores then r.cores[core] else 0) + 1])
  }

  function Sampled(t: Tally, ip: nat, core: nat): Tally {
    if ip !in t.ips && |t.ips| >= MAX_ADDRESSES then t.(samples := t.samples + 1, overflow := t.overflow + 1)
    else
      var r := if ip in t.ips then t.ips[ip] else IpReading(0, map[]);
      t.(samples := t.samples + 1, ips := t.ips[ip := Counted(r, core)])
  }

  /** The tally of some samples in order. */
  function TallyOf(w: seq<TimedIp>): Tally {
    if w == [] then NO_TALLY else Sampled(TallyOf(w[..|w| - 1]), w[|w| - 1].ip, w[|w| - 1].core)
  }

  // --------------------------------------------------------------- what it means

  function Occurrences(w: seq<TimedIp>, ip: nat): nat {
    if w == [] then 0 else Occurrences(w[..|w| - 1], ip) + (if w[|w| - 1].ip == ip then 1 else 0)
  }

  function OccurrencesOn(w: seq<TimedIp>, ip: nat, core: nat): nat {
    if w == [] then 0 else OccurrencesOn(w[..|w| - 1], ip, core) + (if w[|w| - 1].ip == ip && w[|w| - 1].core == core then 1 else 0)
  }

  function Addresses(w: seq<TimedIp>): set<nat> { set e | e in w :: e.ip }

  /** Samples of addresses that the tally has no room for. */
  function Others(w: seq<TimedIp>, kept: set<nat>): nat {
    if w == [] then 0 else Others(w[..|w| - 1], kept) + (if w[|w| - 1].ip in kept then 0 else 1)
  }

  ghost function Total(ips: map<nat, IpReading>): nat
    decreases |ips|
  {
    if ips == map[] then 0
    else var k :| k in ips; assert |ips - {k}| < |ips| by { Smaller(ips, k); } ips[k].count + Total(ips - {k})
  }

  lemma Smaller(ips: map<nat, IpReading>, k: nat)
    requires k in ips
    ensures |ips - {k}| < |ips|
  {
    assert (ips - {k}).Keys == ips.Keys - {k};
  }

  /** Any address may be taken out of the sum first. */
  lemma {:induction false} TotalWithout(ips: map<nat, IpReading>, k: nat)
    requires k in ips
    ensures Total(ips) == ips[k].count + Total(ips - {k})
    decreases |ips|
  {
    assert ips != map[];
    var j :| j in ips && Total(ips) == ips[j].count + Total(ips - {j});
    if j != k {
      Smaller(ips, j);
      Smaller(ips, k);
      TotalWithout(ips - {j}, k);
      TotalWithout(ips - {k}, j);
      assert ips - {j} - {k} == ips - {k} - {j};
    }
  }

  lemma TotalSampled(t: Tally, ip: nat, core: nat)
    ensures Total(Sampled(t, ip, core).ips) + Sampled(t, ip, core).overflow == Total(t.ips) + t.overflow + 1
  {
    var n := Sampled(t, ip, core);
    if ip in t.ips || |t.ips| < MAX_ADDRESSES {
      TotalWithout(n.ips, ip);
      assert n.ips - {ip} == t.ips - {ip};
      if ip in t.ips { TotalWithout(t.ips, ip); } else { assert t.ips - {ip} == t.ips; }
    }
  }

  /** Always: samples are the sum of the retained counts and the overflow. */
  lemma {:induction false} SamplesAreAccounted(w: seq<TimedIp>)
    ensures TallyOf(w).samples == |w| == Total(TallyOf(w).ips) + TallyOf(w).overflow
  {
    if w != [] {
      var l := w[|w| - 1];
      SamplesAreAccounted(w[..|w| - 1]);
      TotalSampled(TallyOf(w[..|w| - 1]), l.ip, l.core);
    }
  }

  /** A retained address has every one of its samples counted, by core too. */
  lemma {:induction false} RetainedCountsExact(w: seq<TimedIp>, ip: nat, core: nat)
    requires core < 256
    ensures ip in TallyOf(w).ips ==> TallyOf(w).ips[ip].count == Occurrences(w, ip) > 0
    ensures ip in TallyOf(w).ips ==>
      (if core in TallyOf(w).ips[ip].cores then TallyOf(w).ips[ip].cores[core] else 0) == OccurrencesOn(w, ip, core)
    ensures ip !in TallyOf(w).ips && |TallyOf(w).ips| < 8192 ==> Occurrences(w, ip) == 0 && OccurrencesOn(w, ip, core) == 0
  {
    if w != [] {
      RetainedCountsExact(w[..|w| - 1], ip, core);
      RoomShrinks(TallyOf(w[..|w| - 1]), w[|w| - 1].ip, w[|w| - 1].core);
    }
  }

  lemma RoomShrinks(t: Tally, ip: nat, core: nat)
    ensures |t.ips| <= |Sampled(t, ip, core).ips| <= |t.ips| + 1
  {
    var n := Sampled(t, ip, core);
    if ip in t.ips { assert n.ips.Keys == t.ips.Keys; } else if |t.ips| < MAX_ADDRESSES { assert n.ips.Keys == t.ips.Keys + {ip}; }
  }

  /** A tally keeps the first 8192 distinct addresses of `w` and nothing else; its
      overflow is exactly the samples of the others. */
  ghost predicate KeepsFirst(w: seq<TimedIp>, t: Tally) {
    && t.ips.Keys <= Addresses(w) && |t.ips| <= MAX_ADDRESSES
    && (|t.ips| < MAX_ADDRESSES ==> t.ips.Keys == Addresses(w))
    && (forall k :: 0 <= k <= |w| && |Addresses(w[..k])| <= MAX_ADDRESSES ==> Addresses(w[..k]) <= t.ips.Keys)
    && t.overflow == Others(w, t.ips.Keys)
  }

  lemma {:induction false} FirstAddressesKept(w: seq<TimedIp>)
    ensures KeepsFirst(w, TallyOf(w))
  {
    hide KeepsFirst;
    if w == [] {
      NoneKept();
    } else {
      var v, l := w[..|w| - 1], w[|w| - 1];
      FirstAddressesKept(v);
      KeptStep(v, TallyOf(v), l);
      assert w == v + [l];
    }
  }

  lemma NoneKept()
    ensures KeepsFirst([], NO_TALLY)
  {
    assert Addresses([]) == {};
  }

  lemma KeptStep(v: seq<TimedIp>, t: Tally, l: TimedIp)
    requires KeepsFirst(v, t)
    ensures KeepsFirst(v + [l], Sampled(t, l.ip, l.core))
  {
    hide Others, Sampled;
    var w, n := v + [l], Sampled(t, l.ip, l.core);
    SampledKeys(t, l.ip, l.core);
    assert Addresses(w) == Addresses(v) + {l.ip};
    RoomShrinks(t, l.ip, l.core);
    OthersKept(v, t, l);
    KeptPrefixes(v, t, l);
    assert n.ips.Keys <= Addresses(w);
    assert |n.ips| < MAX_ADDRESSES ==> n.ips.Keys == Addresses(w);
    assert forall k :: 0 <= k <= |w| && |Addresses(w[..k])| <= MAX_ADDRESSES ==> Addresses(w[..k]) <= n.ips.Keys;
  }

  lemma KeptPrefixes(v: seq<TimedIp>, t: Tally, l: TimedIp)
    requires KeepsFirst(v, t)
    ensures forall k :: 0 <= k <= |v| + 1 && |Addresses((v + [l])[..k])| <= MAX_ADDRESSES ==>
      Addresses((v + [l])[..k]) <= Sampled(t, l.ip, l.core).ips.Keys
  {
    hide Others, Sampled;
    SampledKeys(t, l.ip, l.core);
    var w := v + [l];
    forall k | 0 <= k <= |w| && |Addresses(w[..k])| <= MAX_ADDRESSES
      ensures Addresses(w[..k]) <= Sampled(t, l.ip, l.core).ips.Keys
    {
      if k < |w| {
        assert w[..k] == v[..k];
      } else {
        assert w[..k] == w && Addresses(w) == Addresses(v) + {l.ip};
        WholeKept(v, t, l);
      }
    }
  }

  lemma SampledKeys(t: Tally, ip: nat, core: nat)
    ensures Sampled(t, ip, core).ips.Keys == if ip in t.ips || |t.ips| < MAX_ADDRESSES then t.ips.Keys + {ip} else t.ips.Keys
    ensures |t.ips| <= MAX_ADDRESSES ==> |Sampled(t, ip, core).ips| <= MAX_ADDRESSES
  {
    RoomShrinks(t, ip, core);
  }

  /** If all addresses fit, the last one is retained as well. */
  lemma WholeKept(v: seq<TimedIp>, t: Tally, l: TimedIp)
    requires KeepsFirst(v, t) && |Addresses(v) + {l.ip}| <= MAX_ADDRESSES
    ensures Addresses(v) + {l.ip} <= Sampled(t, l.ip, l.core).ips.Keys
  {
    hide Others;
    assert v[..|v|] == v;
    SubsetCard(Addresses(v), Addresses(v) + {l.ip});
    assert Addresses(v) <= t.ips.Keys && t.ips.Keys == Addresses(v);
    if l.ip !in Addresses(v) { assert |Addresses(v) + {l.ip}| == |Addresses(v)| + 1 == |t.ips.Keys| + 1; }
  }

  /** A new address adds no overflow to what came before: it never came before. */
  lemma OthersKept(v: seq<TimedIp>, t: Tally, l: TimedIp)
    requires t.overflow == Others(v, t.ips.Keys) && (|t.ips| < MAX_ADDRESSES ==> t.ips.Keys == Addresses(v))
    ensures Sampled(t, l.ip, l.core).overflow == Others(v + [l], Sampled(t, l.ip, l.core).ips.Keys)
  {
    assert (v + [l])[..|v|] == v;
    var n := Sampled(t, l.ip, l.core);
    if l.ip in t.ips {
      assert n.ips.Keys == t.ips.Keys;
    } else if |t.ips| < MAX_ADDRESSES {
      assert n.ips.Keys == t.ips.Keys + {l.ip};
      NoOthers(v, t.ips.Keys);
      NoOthers(v, n.ips.Keys);
    }
  }

  lemma {:induction false} NoOthers(v: seq<TimedIp>, kept: set<nat>)
    requires Addresses(v) <= kept
    ensures Others(v, kept) == 0
  {
    if v != [] {
      assert v[|v| - 1] in v && v[|v| - 1].ip in Addresses(v);
      NoOthers(v[..|v| - 1], kept);
    }
  }

  // -------------------------------------------------------------------- windows

  predicate InWindow(e: TimedIp, begin: nat, end: nat) { begin < e.time <= end }

  function Within(s: seq<TimedIp>, begin: nat, end: nat): seq<TimedIp> {
    if s == [] then [] else Within(s[..|s| - 1], begin, end) + (if InWindow(s[|s| - 1], begin, end) then [s[|s| - 1]] else [])
  }

  lemma {:induction false} WindowJoin(a: seq<TimedIp>, b: seq<TimedIp>, begin: nat, end: nat)
    ensures Within(a + b, begin, end) == Within(a, begin, end) + Within(b, begin, end)
  {
    if b == [] {
      assert a + b == a;
    } else {
      assert (a + b)[..|a + b| - 1] == a + b[..|b| - 1];
      WindowJoin(a, b[..|b| - 1], begin, end);
    }
  }

  ghost predicate OlderThan(s: seq<TimedIp>, through: nat) {
    forall i :: 0 <= i < |s| ==> s[i].time <= through
  }

  lemma {:induction false} WindowOfOld(s: seq<TimedIp>, through: nat, begin: nat, end: nat)
    requires OlderThan(s, through) && through <= begin
    ensures Within(s, begin, end) == []
  {
    if s != [] { WindowOfOld(s[..|s| - 1], through, begin, end); }
  }

  lemma {:induction false} WindowEmptyExactly(s: seq<TimedIp>, begin: nat, end: nat)
    ensures Within(s, begin, end) == [] <==> forall i :: 0 <= i < |s| ==> !InWindow(s[i], begin, end)
  {
    if s != [] {
      WindowEmptyExactly(s[..|s| - 1], begin, end);
      assert forall i :: 0 <= i < |s| - 1 ==> s[..|s| - 1][i] == s[i];
    }
  }

  /** Adjacent windows share no sample and miss none: a sample at the border
      belongs to the earlier one. */
  lemma {:induction false} WindowsPartition(s: seq<TimedIp>, begin: nat, middle: nat, end: nat)
    requires begin <= middle <= end
    ensures multiset(Within(s, begin, end)) == multiset(Within(s, begin, middle)) + multiset(Within(s, middle, end))
    ensures forall e :: e in Within(s, begin, middle) ==> e !in Within(s, middle, end)
  {
    WindowOnly(s, begin, middle);
    WindowOnly(s, middle, end);
    if s != [] {
      var init, e := s[..|s| - 1], s[|s| - 1];
      WindowsPartition(init, begin, middle, end);
    }
  }

  lemma {:induction false} WindowOnly(s: seq<TimedIp>, begin: nat, end: nat)
    ensures forall e :: e in Within(s, begin, end) <==> e in s && begin < e.time && e.time <= end
  {
    if s != [] {
      var init, last := s[..|s| - 1], s[|s| - 1];
      WindowOnly(init, begin, end);
      assert s == init + [last];
    }
  }

  class SamplingSnapshot {
    var ips: map<nat, IpReading>
    var samples: nat
    var overflow: nat
    var frameBegin: nat
    var frameEnd: nat
    var truncated: bool

    constructor ()
      ensures Counts() == NO_TALLY && !truncated
    {
      ips, samples, overflow, frameBegin, frameEnd, truncated := map[], 0, 0, 0, 0, false;
    }

    function Counts(): Tally
      reads this
    {
      Tally(ips, samples, overflow)
    }

    method SampleIp(ip: nat, core: nat)
      modifies `ips, `samples, `overflow
      ensures Counts() == Sampled(old(Counts()), ip, core)
    {
      samples := samples + 1;
      if ip !in ips && |ips| >= MAX_ADDRESSES {
        overflow := overflow + 1;
        return;
      }
      ghost var r := if ip in ips then ips[ip] else IpReading(0, map[]);
      if ip !in ips { ips := ips[ip := IpReading(0, map[])]; }
      var v := ips[ip];
      v := v.(count := v.count + 1);
      if core < MAX_CORES {
        if core !in v.cores { v := v.(cores := v.cores[core := 0]); }
        v := v.(cores := v.cores[core := v.cores[core] + 1]);
      }
      if core < MAX_CORES { assert v.cores == r.cores[core := v.cores[core]]; }
      assert v == Counted(r, core);
      ips := ips[ip := v];
      assert ips == old(ips)[ip := v];
    }
  }

  class SampleHistory {
    var events: seq<TimedIp>
    var evictedThrough: nat
    /** Every sample ever added. */
    ghost var log: seq<TimedIp>
    /** The latest begin of the windows so far. */
    ghost var trimmedThrough: nat

    /** How many samples of the log are gone, always the oldest additions. */
    ghost function Gone(): nat
      reads this
      requires |events| <= |log|
    {
      |log| - |events|
    }

    ghost predicate Valid()
      reads this
    {
      && |events| <= |log| && |events| <= CAPACITY
      && events == log[Gone()..]
      && OlderThan(log[..Gone()], Latest(evictedThrough, trimmedThrough))
    }

    constructor ()
      ensures Valid() && log == [] && trimmedThrough == 0 && evictedThrough == 0
    {
      hide OlderThan;
      events, evictedThrough, log, trimmedThrough := [], 0, [], 0;
      NothingOlder();
    }

    method Add(event: TimedIp)
      requires Valid()
      modifies this
      ensures Valid() && log == old(log) + [event] && trimmedThrough == old(trimmedThrough)
      ensures old(|events|) < 131072 ==> events == old(events) + [event] && evictedThrough == old(evictedThrough)
      ensures old(|events|) == 131072 ==>
        events == old(events)[1..] + [event] && evictedThrough == Latest(old(evictedThrough), old(events)[0].time)
    {
      ghost var gone := Gone();
      events := events + [event];
      log := log + [event];
      assert events == log[gone..] && log[..gone] == old(log)[..gone];
      if |events| > CAPACITY {
        GoneMore(log, gone, Latest(evictedThrough, trimmedThrough), Latest(Latest(evictedThrough, events[0].time), trimmedThrough));
        evictedThrough := Latest(evictedThrough, events[0].time);
        events := events[1..];
      }
    }

    method Scan(out: SamplingSnapshot, begin: nat, end: nat)
      modifies out
      ensures out.Counts() == TallyOf(Within(events, begin, end))
      ensures out.frameBegin == begin && out.frameEnd == end && out.truncated == (begin < evictedThrough)
    {
      hide TallyOf, Within, Sampled;
      out.ips, out.samples, out.overflow := map[], 0, 0;
      out.frameBegin, out.frameEnd := begin, end;
      out.truncated := begin < evictedThrough;
      NothingTallied(begin, end);
      for i := 0 to |events|
        invariant out.Counts() == TallyOf(Within(events[..i], begin, end))
        invariant out.frameBegin == begin && out.frameEnd == end && out.truncated == (begin < evictedThrough)
      {
        var e := events[i];
        OneMoreEvent(events[..i], e, begin, end);
        assert events[..i + 1] == events[..i] + [e];
        if e.time > begin && e.time <= end { out.SampleIp(e.ip, e.core); }
      }
      assert events[..|events|] == events;
    }

    /** Tallies what the history still holds of the window, then drops the oldest
        additions up to the window's begin. */
    method Window(out: SamplingSnapshot, begin: nat, end: nat)
      requires Valid()
      modifies this, out
      ensures Valid() && log == old(log) && evictedThrough == old(evictedThrough) && trimmedThrough == Latest(old(trimmedThrough), begin)
      ensures out.Counts() == TallyOf(Within(old(events), begin, end))
      ensures out.frameBegin == begin && out.frameEnd == end && out.truncated == (begin < evictedThrough)
      // the promise: a window that is not truncated, with begins that do not go back, is exact
      ensures !out.truncated && old(trimmedThrough) <= begin ==>
        out.Counts() == TallyOf(Within(log, begin, end)) && out.samples == |Within(log, begin, end)|
      // in general it is exact when no sample that is gone lies in the window
      ensures out.samples == |Within(log, begin, end)| <==>
        forall i :: 0 <= i < old(Gone()) ==> !InWindow(log[i], begin, end)
      ensures out.samples == Total(out.ips) + out.overflow
      ensures events == old(events)[Stale(old(events), begin)..]
    {
      hide OlderThan, TallyOf, Total, Within, Stale;
      ghost var was, gone := events, Gone();
      Scan(out, begin, end);
      SamplesAreAccounted(Within(was, begin, end));
      Exactness(log, gone, begin, end);
      WindowEmptyExactly(log[..gone], begin, end);
      assert forall i :: 0 <= i < gone ==> log[..gone][i] == log[i];
      if !out.truncated && trimmedThrough <= begin {
        WindowOfOld(log[..gone], Latest(evictedThrough, trimmedThrough), begin, end);
        assert [] + Within(was, begin, end) == Within(was, begin, end);
      }
      trimmedThrough := Latest(trimmedThrough, begin);
      OlderStill(log[..gone], Latest(evictedThrough, old(trimmedThrough)), Latest(evictedThrough, trimmedThrough));
      Trim(begin);
    }

    method Trim(begin: nat)
      requires Valid() && begin <= trimmedThrough
      modifies `events
      ensures Valid() && events == old(events)[Stale(old(events), begin)..]
    {
      hide OlderThan;
      ghost var dropped: nat := 0;
      while events != [] && events[0].time <= begin
        invariant Valid() && dropped + |events| == |old(events)| && events == old(events)[dropped..]
        invariant Stale(old(events), begin) == dropped + Stale(events, begin)
        decreases |events|
      {
        GoneMore(log, Gone(), Latest(evictedThrough, trimmedThrough), Latest(evictedThrough, trimmedThrough));
        events := events[1..];
        dropped := dropped + 1;
      }
    }
  }

  /** The samples at the front that are not behind `begin`. */
  function Stale(s: seq<TimedIp>, begin: nat): (n: nat)
    ensures n <= |s|
  {
    if s != [] && s[0].time <= begin then 1 + Stale(s[1..], begin) else 0
  }

  function Latest(a: nat, b: nat): nat { if a < b then b else a }

  lemma GoneMore(log: seq<TimedIp>, gone: nat, through: nat, later: nat)
    requires gone < |log| && OlderThan(log[..gone], through) && through <= later && log[gone].time <= later
    ensures OlderThan(log[..gone + 1], later)
  {
    assert forall i :: 0 <= i < gone ==> log[..gone][i] == log[..gone + 1][i];
  }

  lemma OlderStill(s: seq<TimedIp>, through: nat, later: nat)
    requires OlderThan(s, through) && through <= later
    ensures OlderThan(s, later)
  {
  }

  lemma NothingOlder()
    ensures OlderThan([], 0)
  {
  }

  lemma NothingTallied(begin: nat, end: nat)
    ensures TallyOf(Within([], begin, end)) == NO_TALLY
  {
  }

  lemma OneMoreEvent(s: seq<TimedIp>, e: TimedIp, begin: nat, end: nat)
    ensures TallyOf(Within(s + [e], begin, end)) ==
      if InWindow(e, begin, end) then Sampled(TallyOf(Within(s, begin, end)), e.ip, e.core) else TallyOf(Within(s, begin, end))
  {
    assert (s + [e])[..|s|] == s;
    assert InWindow(e, begin, end) ==> (Within(s, begin, end) + [e])[..|Within(s, begin, end)|] == Within(s, begin, end);
    assert Within(s, begin, end) + [] == Within(s, begin, end);
  }

  lemma Exactness(log: seq<TimedIp>, gone: nat, begin: nat, end: nat)
    requires gone <= |log|
    ensures Within(log, begin, end) == Within(log[..gone], begin, end) + Within(log[gone..], begin, end)
  {
    assert log == log[..gone] + log[gone..];
    WindowJoin(log[..gone], log[gone..], begin, end);
  }

  /** Begins that go back: the sample at 5 was dropped by the first window and is
      missing from the second, which is not marked as truncated. */
  method GoingBackLosesSamples() returns (out: SamplingSnapshot)
    ensures !out.truncated && out.samples == 0 && |Within([TimedIp(5, 1, 0)], 0, 20)| == 1
  {
    hide OlderThan, Total, TallyOf, Within, Stale;
    var h := new SampleHistory();
    out := new SamplingSnapshot();
    h.Add(TimedIp(5, 1, 0));
    assert h.log == [TimedIp(5, 1, 0)] && h.events == h.log;
    h.Window(out, 10, 20);
    OneStale();
    assert h.events == [];
    h.Window(out, 0, 20);
    NothingTallied(0, 20);
    OneInWindow();
  }

  lemma OneStale()
    ensures Stale([TimedIp(5, 1, 0)], 10) == 1
  {
    assert [TimedIp(5, 1, 0)][1..] == [];
  }

  lemma OneInWindow()
    ensures |Within([TimedIp(5, 1, 0)], 0, 20)| == 1
  {
    assert [TimedIp(5, 1, 0)] == [] + [TimedIp(5, 1, 0)];
    assert Within([], 0, 20) == [];
  }
}
