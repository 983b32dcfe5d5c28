/** Merging the message streams of all connections into one list of flows:
    generate_flow_qp_mode_poisson of scratch/third.cc. Random intervals and sizes are left to chance. */
module FlowSchedule {
  import opened Basics
  import opened Topology
  import opened Connections

  const WORD := 0x1_0000_0000
  const SLOTS := 1_000_000
  const OFFSET := 2_000_000_000

  /** The next message of the connection with this key is due at `time`. */
  datatype Event = Event(time: nat, key: nat)

  datatype Flow = Flow(id: nat, src: nat, dst: nat, size: nat, start: nat, qp: nat, num: nat)

  datatype Schedule = Generated(flows: seq<Flow>) | NoConnections | Overrun(flows: seq<Flow>)

  /** The order of the priority queue: by time, then by key. */
  predicate AtMost(e: Event, f: Event) {
    e.time < f.time || (e.time == f.time && e.key <= f.key)
  }

  function Key(p: Pair): nat {
    (p.0 * 1000 + p.1) % WORD
  }

  function Slot(c: nat): nat {
    c * SLOTS % WORD
  }

  /** The event a flow was made from. */
  function Cause(f: Flow): Event {
    Event(if f.start >= OFFSET then f.start - OFFSET else 0, f.src * 1000 + f.dst)
  }

  /** Flows in the order of their events, none later than an event still in the queue. */
  ghost predicate InOrder(flows: seq<Flow>, q: multiset<Event>) {
    && (forall i, j | 0 <= i < j < |flows| :: AtMost(Cause(flows[i]), Cause(flows[j])))
    && (forall i, e | 0 <= i < |flows| && e in q :: AtMost(Cause(flows[i]), e))
    && (forall i | 0 <= i < |flows| :: flows[i].start >= OFFSET && flows[i].id == i)
  }

  /** What keeps the numbers within 32 bits and the keys apart. */
  ghost predicate Limits(qps: seq<Pair>) {
    && NoDuplicates(qps) && |qps| <= 4294
    && forall c | 0 <= c < |qps| :: qps[c].0 < 1000 && qps[c].1 < 1000
  }

  function Sent(flows: seq<Flow>, c: nat): (n: nat)
    ensures n <= |flows|
  {
    if flows == [] then 0 else Sent(flows[..|flows| - 1], c) + if flows[|flows| - 1].qp == c then 1 else 0
  }

  /** Every flow belongs to its connection and carries the next number of it, counting from 0. */
  ghost predicate Numbered(qps: seq<Pair>, flows: seq<Flow>) {
    forall i | 0 <= i < |flows| ::
      flows[i].qp < |qps| && (flows[i].src, flows[i].dst) == qps[flows[i].qp]
        && flows[i].num == Sent(flows[..i], flows[i].qp)
  }

  ghost predicate Known(qps: seq<Pair>, k: nat) {
    exists c :: 0 <= c < |qps| && Key(qps[c]) == k
  }

  /** `next` gives the time of the one pending event of each connection, and `q` holds exactly these. */
  ghost predicate OnePending(qps: seq<Pair>, q: multiset<Event>, next: map<nat, nat>) {
    && (forall k :: k in next <==> Known(qps, k))
    && (forall e :: q[e] == if e.key in next && next[e.key] == e.time then 1 else 0)
  }

  ghost predicate Indexed(qps: seq<Pair>, flows: seq<Flow>, index: map<nat, nat>) {
    forall c | 0 <= c < |qps| ::
      Key(qps[c]) in index && index[Key(qps[c])] == c * SLOTS + Sent(flows, c) && Sent(flows, c) < SLOTS
  }

  /** `arrivals` lists for each connection when its messages are due, up to the pending one; every
      flow starts when its message was due. */
  ghost predicate Timed(qps: seq<Pair>, shift: nat, flows: seq<Flow>, next: map<nat, nat>, arrivals: seq<seq<nat>>) {
    && |arrivals| == |qps|
    && (forall c | 0 <= c < |qps| :: Stream(arrivals[c], shift, Sent(flows, c), Key(qps[c]), next))
    && (forall i | 0 <= i < |flows| :: StartsAt(flows[i], arrivals))
  }

  ghost predicate Stream(times: seq<nat>, shift: nat, n: nat, k: nat, next: map<nat, nat>) {
    && |times| == n + 1 && times[0] >= shift && (forall i, j | 0 <= i < j < |times| :: times[i] <= times[j])
    && k in next && next[k] == times[n]
  }

  ghost predicate StartsAt(f: Flow, arrivals: seq<seq<nat>>) {
    f.qp < |arrivals| && f.num < |arrivals[f.qp]| && f.start == OFFSET + arrivals[f.qp][f.num]
  }

  ghost predicate Tracked(qps: seq<Pair>, shift: nat, q: multiset<Event>, index: map<nat, nat>, flows: seq<Flow>,
                          next: map<nat, nat>, arrivals: seq<seq<nat>>)
  {
    OnePending(qps, q, next) && Indexed(qps, flows, index) && Numbered(qps, flows)
      && Timed(qps, shift, flows, next, arrivals)
  }

  ghost predicate OnTrack(qps: seq<Pair>, shift: nat, q: multiset<Event>, index: map<nat, nat>, flows: seq<Flow>) {
    exists next, arrivals :: Tracked(qps, shift, q, index, flows, next, arrivals)
  }

  lemma KeyParts(p: Pair)
    requires p.0 < 1000 && p.1 < 1000
    ensures Key(p) == p.0 * 1000 + p.1 && Key(p) / 1000 == p.0 && Key(p) % 1000 == p.1
  {}

  lemma KeysApart(qps: seq<Pair>, c: nat, d: nat)
    requires Limits(qps) && c < |qps| && d < |qps|
    ensures Key(qps[c]) == Key(qps[d]) <==> c == d
  {
    KeyParts(qps[c]);
    KeyParts(qps[d]);
  }

  lemma Least(q: multiset<Event>) returns (e: Event)
    requires |q| > 0
    ensures e in q && forall f | f in q :: AtMost(e, f)
    decreases |q|
  {
    var x :| x in q;
    var rest := q - multiset{x};
    if |rest| == 0 {
      e := x;
    } else {
      var y := Least(rest);
      e := if AtMost(x, y) then x else y;
    }
    forall f | f in q ensures AtMost(e, f) {
      assert f == x || f in rest;
    }
  }

  /** A connection has used up its message numbers but the last. */
  ghost predicate Full(qps: seq<Pair>, flows: seq<Flow>) {
    exists c :: 0 <= c < |qps| && Sent(flows, c) == SLOTS - 1
  }

  /** What the main loop keeps. */
  ghost predicate Going(qps: seq<Pair>, shift: nat, q: multiset<Event>, index: map<nat, nat>, flows: seq<Flow>) {
    && (forall e | e in q :: e.key in index && e.key < WORD)
    && InOrder(flows, q)
    && (Limits(qps) ==> OnTrack(qps, shift, q, index, flows))
  }

  /** The body of the main loop; the assertion in it fails if `ok` is false. */
  method Emit(qps: seq<Pair>, ghost shift: nat, q0: multiset<Event>, index0: map<nat, nat>, flows0: seq<Flow>)
    returns (q: multiset<Event>, index: map<nat, nat>, flows: seq<Flow>, ok: bool)
    requires |q0| > 0 && Going(qps, shift, q0, index0, flows0)
    ensures ok ==> |q| == |q0| && |flows| == |flows0| + 1 && Going(qps, shift, q, index, flows)
    ensures ok ==> flows[..|flows0|] == flows0
    ensures ok ==>
      var f := flows[|flows0|];
      exists e :: e in q0 && f.start == 2_000_000_000 + e.time && f.src * 1000 + f.dst == e.key
    ensures ok ==> forall e | e in q0 :: flows[|flows0|].start <= 2_000_000_000 + e.time
    ensures !ok ==> flows == flows0 && q <= q0
    ensures !ok && Limits(qps) ==> Full(qps, flows0)
  {
    ghost var least := Least(q0);
    var p :| p in q0 && forall f | f in q0 :: AtMost(p, f);
    var qp, num := index0[p.key] / SLOTS, index0[p.key] % SLOTS;
    q := q0 - multiset{p};
    index := index0[p.key := (index0[p.key] + 1) % WORD];
    if index[p.key] % SLOTS == 0 {
      if Limits(qps) {
        ThenFull(qps, shift, q0, index0, flows0, p);
      }
      return q, index, flows0, false;
    }
    var i, j := p.key / 1000, p.key % 1000;
    var size: nat :| true;
    var t: nat :| t >= p.time;
    var flow := Flow(|flows0|, i, j, size, OFFSET + p.time, qp, num);
    var e := Event(t, (i * 1000 + j) % WORD);
    GoingStep(qps, shift, q0, index0, flows0, p, e, flow);
    q := q + multiset{e};
    flows, ok := flows0 + [flow], true;
  }

  lemma GoingStep(qps: seq<Pair>, shift: nat, q: multiset<Event>, index: map<nat, nat>, flows: seq<Flow>, p: Event,
                  e: Event, f: Flow)
    requires Going(qps, shift, q, index, flows) && p in q && (forall x | x in q :: AtMost(p, x)) && AtMost(p, e)
      && e.key == p.key
    requires (index[p.key] + 1) % WORD % SLOTS != 0
    requires f.src == p.key / 1000 && f.dst == p.key % 1000 && f.qp == index[p.key] / SLOTS
      && f.num == index[p.key] % SLOTS
    requires f.start == OFFSET + p.time && f.id == |flows|
    ensures Going(qps, shift, q - multiset{p} + multiset{e}, index[p.key := (index[p.key] + 1) % WORD], flows + [f])
  {
    if Limits(qps) {
      TrackedStep(qps, shift, q, index, flows, p, e.time, f);
    }
  }

  lemma Pending(qps: seq<Pair>, shift: nat, q: multiset<Event>, index: map<nat, nat>, flows: seq<Flow>)
    returns (next: map<nat, nat>)
    requires OnTrack(qps, shift, q, index, flows)
    ensures OnePending(qps, q, next) && Indexed(qps, flows, index)
  {
    var arrivals;
    next, arrivals :| Tracked(qps, shift, q, index, flows, next, arrivals);
  }

  lemma BackOnTrack(qps: seq<Pair>, shift: nat, q: multiset<Event>, index: map<nat, nat>, flows: seq<Flow>,
                    next: map<nat, nat>, arrivals: seq<seq<nat>>)
    requires OnePending(qps, q, next) && Indexed(qps, flows, index) && Numbered(qps, flows)
      && Timed(qps, shift, flows, next, arrivals)
    ensures OnTrack(qps, shift, q, index, flows)
  {
    assert Tracked(qps, shift, q, index, flows, next, arrivals);
  }

  /** The connection whose message is due, found through the index of its key. */
  lemma Due(qps: seq<Pair>, q: multiset<Event>, index: map<nat, nat>, flows: seq<Flow>, next: map<nat, nat>, p: Event)
    returns (c: nat)
    requires Limits(qps) && OnePending(qps, q, next) && Indexed(qps, flows, index) && p in q && p.key in index
    ensures c < |qps| && Key(qps[c]) == p.key
    ensures p.key / 1000 == qps[c].0 && p.key % 1000 == qps[c].1
    ensures index[p.key] / SLOTS == c && index[p.key] % SLOTS == Sent(flows, c) < SLOTS
    ensures (index[p.key] + 1) % WORD == index[p.key] + 1
    ensures (index[p.key] + 1) % SLOTS == 0 <==> Sent(flows, c) == SLOTS - 1
  {
    assert Known(qps, p.key);
    c :| 0 <= c < |qps| && Key(qps[c]) == p.key;
    KeyParts(qps[c]);
    Digits(c, Sent(flows, c));
  }

  lemma Digits(c: nat, n: nat)
    requires c < 4294 && n < SLOTS
    ensures (c * SLOTS + n) / SLOTS == c && (c * SLOTS + n) % SLOTS == n && c * SLOTS + n + 1 < WORD
    ensures (c * SLOTS + n + 1) % SLOTS == 0 <==> n == SLOTS - 1
  {}

  lemma TrackedStep(qps: seq<Pair>, shift: nat, q: multiset<Event>, index: map<nat, nat>, flows: seq<Flow>, p: Event,
                    t: nat, f: Flow)
    requires Limits(qps) && OnTrack(qps, shift, q, index, flows) && p in q && p.key in index
    requires (index[p.key] + 1) % WORD % SLOTS != 0
    requires f.src == p.key / 1000 && f.dst == p.key % 1000 && f.qp == index[p.key] / SLOTS
      && f.num == index[p.key] % SLOTS
    requires f.start == OFFSET + p.time && p.time <= t
    ensures OnTrack(qps, shift, q - multiset{p} + multiset{Event(t, p.key)}, index[p.key := (index[p.key] + 1) % WORD],
                    flows + [f])
  {
    var next := Pending(qps, shift, q, index, flows);
    var c := Due(qps, q, index, flows, next, p);
    NextTracked(qps, shift, q, index, flows, p, t, f, c);
  }

  lemma NextTracked(qps: seq<Pair>, shift: nat, q: multiset<Event>, index: map<nat, nat>, flows: seq<Flow>, p: Event,
                    t: nat, f: Flow, c: nat)
    requires Limits(qps) && OnTrack(qps, shift, q, index, flows) && p in q && p.time <= t
    requires c < |qps| && Key(qps[c]) == p.key && Sent(flows, c) + 1 < SLOTS
    requires (f.src, f.dst) == qps[c] && f.qp == c && f.num == Sent(flows, c) && f.start == OFFSET + p.time
    ensures OnTrack(qps, shift, q - multiset{p} + multiset{Event(t, p.key)},
                    index[p.key := c * SLOTS + Sent(flows, c) + 1], flows + [f])
  {
    var next, arrivals :| Tracked(qps, shift, q, index, flows, next, arrivals);
    PendingStep(qps, q, next, p, t);
    NumberedStep(qps, flows, f);
    IndexStep(qps, index, flows, c, f);
    TimedStep(qps, shift, flows, next, arrivals, c, t, f);
    BackOnTrack(qps, shift, q - multiset{p} + multiset{Event(t, p.key)}, index[p.key := c * SLOTS + Sent(flows, c) + 1],
                flows + [f], next[p.key := t],
                arrivals[c := arrivals[c] + [t]]);
  }

  lemma TimedStep(qps: seq<Pair>, shift: nat, flows: seq<Flow>, next: map<nat, nat>, arrivals: seq<seq<nat>>, c: nat,
                  t: nat, f: Flow)
    requires Limits(qps) && Timed(qps, shift, flows, next, arrivals)
    requires c < |qps| && f.qp == c && f.num == Sent(flows, c)
    requires Key(qps[c]) in next && f.start == OFFSET + next[Key(qps[c])] && next[Key(qps[c])] <= t
    ensures Timed(qps, shift, flows + [f], next[Key(qps[c]) := t], arrivals[c := arrivals[c] + [t]])
  {
    var next', arrivals' := next[Key(qps[c]) := t], arrivals[c := arrivals[c] + [t]];
    forall d: nat | d < |qps| ensures Stream(arrivals'[d], shift, Sent(flows + [f], d), Key(qps[d]), next') {
      KeysApart(qps, c, d);
      assert Stream(arrivals[d], shift, Sent(flows, d), Key(qps[d]), next);
    }
    forall i | 0 <= i < |flows| + 1 ensures StartsAt((flows + [f])[i], arrivals') {
      assert Stream(arrivals[c], shift, Sent(flows, c), Key(qps[c]), next);
      assert i < |flows| ==> StartsAt(flows[i], arrivals);
    }
  }

  lemma IndexStep(qps: seq<Pair>, index: map<nat, nat>, flows: seq<Flow>, c: nat, f: Flow)
    requires Limits(qps) && Indexed(qps, flows, index)
    requires c < |qps| && f.qp == c && Sent(flows, c) + 1 < SLOTS
    ensures Indexed(qps, flows + [f], index[Key(qps[c]) := c * SLOTS + Sent(flows, c) + 1])
  {
    forall d: nat | d < |qps| ensures Key(qps[d]) == Key(qps[c]) <==> d == c {
      KeysApart(qps, c, d);
    }
    forall d: nat ensures Sent(flows + [f], d) == Sent(flows, d) + if d == c then 1 else 0 {
    }
  }

  lemma ThenFull(qps: seq<Pair>, shift: nat, q: multiset<Event>, index: map<nat, nat>, flows: seq<Flow>, p: Event)
    requires Limits(qps) && OnTrack(qps, shift, q, index, flows) && p in q && p.key in index
    requires (index[p.key] + 1) % WORD % SLOTS == 0
    ensures Full(qps, flows)
  {
    var next := Pending(qps, shift, q, index, flows);
    var c := Due(qps, q, index, flows, next, p);
  }

  lemma PendingStep(qps: seq<Pair>, q: multiset<Event>, next: map<nat, nat>, p: Event, t: nat)
    requires OnePending(qps, q, next) && p in q
    ensures OnePending(qps, q - multiset{p} + multiset{Event(t, p.key)}, next[p.key := t])
  {
    var q' := q - multiset{p} + multiset{Event(t, p.key)};
    assert q[p] == 1;
    forall e ensures q'[e] == if e.key in next && next[p.key := t][e.key] == e.time then 1 else 0 {
      assert q[e] == if e.key in next && next[e.key] == e.time then 1 else 0;
    }
  }

  lemma NumberedStep(qps: seq<Pair>, flows: seq<Flow>, f: Flow)
    requires Numbered(qps, flows) && f.qp < |qps| && (f.src, f.dst) == qps[f.qp] && f.num == Sent(flows, f.qp)
    ensures Numbered(qps, flows + [f])
  {
    var all := flows + [f];
    forall i | 0 <= i < |all|
      ensures all[i].qp < |qps| && (all[i].src, all[i].dst) == qps[all[i].qp]
      && all[i].num == Sent(all[..i], all[i].qp) {
      assert all[..i] == flows[..i];
      if i < |flows| {
        assert all[i] == flows[i];
      }
    }
  }

  /** One event per connection to begin with, at a random time. */
  method Begin(qps: seq<Pair>, shift: nat) returns (q: multiset<Event>, index: map<nat, nat>)
    ensures |q| == |qps| && forall e | e in q :: e.key in index && e.key < WORD
    ensures Limits(qps) ==> OnTrack(qps, shift, q, index, [])
  {
    q, index := multiset{}, map[];
    assert Tracked(qps[..0], shift, q, index, [], map[], []);
    for i := 0 to |qps|
      invariant |q| == i && forall e | e in q :: e.key in index && e.key < WORD
      invariant Limits(qps) ==> OnTrack(qps[..i], shift, q, index, [])
    {
      q, index := Enrol(qps, i, shift, q, index);
    }
    assert qps[..|qps|] == qps;
  }

  method Enrol(qps: seq<Pair>, i: nat, shift: nat, q0: multiset<Event>, index0: map<nat, nat>)
    returns (q: multiset<Event>, index: map<nat, nat>)
    requires i < |qps| && forall e | e in q0 :: e.key in index0 && e.key < WORD
    ensures |q| == |q0| + 1 && forall e | e in q :: e.key in index && e.key < WORD
    ensures Limits(qps) && OnTrack(qps[..i], shift, q0, index0, []) ==> OnTrack(qps[..i + 1], shift, q, index, [])
  {
    var t: nat :| t >= shift;
    q := q0 + multiset{Event(t, Key(qps[i]))};
    index := index0[Key(qps[i]) := Slot(i)];
    if Limits(qps) && OnTrack(qps[..i], shift, q0, index0, []) {
      Enrolled(qps, i, shift, q0, index0, t);
    }
  }

  lemma Enrolled(qps: seq<Pair>, i: nat, shift: nat, q: multiset<Event>, index: map<nat, nat>, t: nat)
    requires Limits(qps) && i < |qps| && OnTrack(qps[..i], shift, q, index, []) && t >= shift
    ensures var k := Key(qps[i]); OnTrack(qps[..i + 1], shift, q + multiset{Event(t, k)}, index[k := Slot(i)], [])
  {
    var k := Key(qps[i]);
    var next, arrivals :| Tracked(qps[..i], shift, q, index, [], next, arrivals);
    forall c: nat | c < i ensures Key(qps[..i][c]) != k {
      KeysApart(qps, c, i);
    }
    IndexGrows(qps, i, index);
    BackOnTrack(qps[..i + 1], shift, q + multiset{Event(t, k)}, index[k := Slot(i)], [], next[k := t],
                arrivals + [[t]]);
  }

  lemma IndexGrows(qps: seq<Pair>, i: nat, index: map<nat, nat>)
    requires i < |qps| <= 4294 && Indexed(qps[..i], [], index)
    requires forall c: nat | c < i :: Key(qps[..i][c]) != Key(qps[i])
    ensures Indexed(qps[..i + 1], [], index[Key(qps[i]) := Slot(i)])
  {
    forall c: nat | c < i ensures qps[..i + 1][c] == qps[..i][c] {}
  }

  /** The flows are the merged message streams of the connections: each flow starts at its own arrival
      time, and exactly the next arrival of each connection is still in the queue. */
  ghost predicate Merged(qps: seq<Pair>, shift: nat, flows: seq<Flow>, q: multiset<Event>) {
    exists next, arrivals :: OnePending(qps, q, next) && Timed(qps, shift, flows, next, arrivals)
  }

  /** The flows start one after the other, none later than an event still in the queue is due; at equal times the
      smaller pair of hosts comes first. */
  ghost predicate ByTime(flows: seq<Flow>, q: multiset<Event>) {
    && (forall i, j | 0 <= i < j < |flows| :: flows[i].start <= flows[j].start)
    && (forall i, j | 0 <= i < j < |flows| && flows[i].start == flows[j].start ::
          flows[i].src * 1000 + flows[i].dst <= flows[j].src * 1000 + flows[j].dst)
    && (forall i, e | 0 <= i < |flows| && e in q :: flows[i].start <= 2_000_000_000 + e.time)
    && (forall i, e | 0 <= i < |flows| && e in q && flows[i].start == 2_000_000_000 + e.time ::
          flows[i].src * 1000 + flows[i].dst <= e.key)
  }

  lemma OrderMeans(flows: seq<Flow>, q: multiset<Event>)
    requires InOrder(flows, q)
    ensures ByTime(flows, q)
  {
    forall i, j | 0 <= i < j < |flows|
      ensures flows[i].start <= flows[j].start
      ensures flows[i].start == flows[j].start ==>
        flows[i].src * 1000 + flows[i].dst <= flows[j].src * 1000 + flows[j].dst {
      assert AtMost(Cause(flows[i]), Cause(flows[j]));
    }
    forall i, e | 0 <= i < |flows| && e in q
      ensures flows[i].start <= 2_000_000_000 + e.time
      ensures flows[i].start == 2_000_000_000 + e.time ==> flows[i].src * 1000 + flows[i].dst <= e.key {
      assert AtMost(Cause(flows[i]), e);
    }
  }

  /** The flows of connection `c` among the first `n`. */
  function Of(flows: seq<Flow>, n: nat, c: nat): set<nat>
    requires n <= |flows|
  {
    set i: nat | i < n && flows[i].qp == c
  }

  lemma {:induction false} SentCounts(flows: seq<Flow>, n: nat, c: nat)
    requires n <= |flows|
    ensures Sent(flows[..n], c) == |Of(flows, n, c)|
  {
    if n == 0 {
      assert Of(flows, 0, c) == {};
    } else {
      SentCounts(flows, n - 1, c);
      assert flows[..n][..n - 1] == flows[..n - 1];
      assert Of(flows, n, c) == Of(flows, n - 1, c) + if flows[n - 1].qp == c then {n - 1} else {};
    }
  }

  /** Every flow leads from and to the hosts of its connection and carries as number how many came before it there. */
  ghost predicate Counting(qps: seq<Pair>, flows: seq<Flow>) {
    forall i | 0 <= i < |flows| ::
      flows[i].qp < |qps| && flows[i].src == qps[flows[i].qp].0 && flows[i].dst == qps[flows[i].qp].1
        && flows[i].num == |Of(flows, i, flows[i].qp)|
  }

  lemma NumbersCount(qps: seq<Pair>, flows: seq<Flow>)
    requires Numbered(qps, flows)
    ensures Counting(qps, flows)
  {
    forall i | 0 <= i < |flows| ensures flows[i].num == |Of(flows, i, flows[i].qp)| {
      SentCounts(flows, i, flows[i].qp);
    }
  }

  /** Some connection has sent 999 999 messages. */
  ghost predicate UsedUp(qps: seq<Pair>, flows: seq<Flow>) {
    exists c :: 0 <= c < |qps| && |Of(flows, |flows|, c)| == 999_999
  }

  lemma Overflowed(qps: seq<Pair>, shift: nat, flows: seq<Flow>)
    requires Limits(qps) ==> Full(qps, flows)
    ensures Limits(qps) ==> UsedUp(qps, flows) && |flows| >= 999_999
  {
    if Limits(qps) {
      FullUsedUp(qps, flows);
    }
  }

  lemma FullUsedUp(qps: seq<Pair>, flows: seq<Flow>)
    requires Full(qps, flows)
    ensures UsedUp(qps, flows)
  {
    var c :| 0 <= c < |qps| && Sent(flows, c) == SLOTS - 1;
    SentCounts(flows, |flows|, c);
    assert flows[..|flows|] == flows;
  }

  /** What has been generated so far, said without the program's own order, keys and counters. */
  ghost predicate Generation(qps: seq<Pair>, shift: nat, flows: seq<Flow>, q: multiset<Event>) {
    && ByTime(flows, q) && (forall i | 0 <= i < |flows| :: flows[i].id == i)
    && (Limits(qps) ==> Counting(qps, flows) && forall i | 0 <= i < |flows| :: flows[i].start >= 2_000_000_000 + shift)
  }

  /** Exactly one event of each connection is in the queue. */
  ghost predicate OneEach(qps: seq<Pair>, q: multiset<Event>) {
    && (forall c | 0 <= c < |qps| :: Waits(qps[c], q))
    && (forall e | e in q :: exists c :: 0 <= c < |qps| && e.key == qps[c].0 * 1000 + qps[c].1)
  }

  ghost predicate Waits(p: Pair, q: multiset<Event>) {
    exists t: nat :: Awaited(p, q, t)
  }

  ghost predicate Awaited(p: Pair, q: multiset<Event>, t: nat) {
    forall e: Event :: e.key == p.0 * 1000 + p.1 ==> q[e] == if e.time == t then 1 else 0
  }

  lemma PendingOneEach(qps: seq<Pair>, q: multiset<Event>, next: map<nat, nat>)
    requires Limits(qps) && OnePending(qps, q, next)
    ensures OneEach(qps, q)
  {
    forall c | 0 <= c < |qps| ensures Waits(qps[c], q) {
      KeyParts(qps[c]);
      assert Known(qps, Key(qps[c]));
      var t := next[Key(qps[c])];
      forall e: Event | e.key == qps[c].0 * 1000 + qps[c].1 ensures q[e] == if e.time == t then 1 else 0 {
        assert next[e.key] == t;
      }
      assert Awaited(qps[c], q, t);
    }
    forall e | e in q ensures exists c :: 0 <= c < |qps| && e.key == qps[c].0 * 1000 + qps[c].1 {
      assert q[e] == 1 && Known(qps, e.key);
      var c :| 0 <= c < |qps| && Key(qps[c]) == e.key;
      KeyParts(qps[c]);
    }
  }

  lemma NotBeforeShift(qps: seq<Pair>, shift: nat, flows: seq<Flow>, next: map<nat, nat>, arrivals: seq<seq<nat>>)
    requires Timed(qps, shift, flows, next, arrivals)
    ensures forall i | 0 <= i < |flows| :: flows[i].start >= 2_000_000_000 + shift
  {
    forall i | 0 <= i < |flows| ensures flows[i].start >= 2_000_000_000 + shift {
      assert StartsAt(flows[i], arrivals);
      var c := flows[i].qp;
      assert Stream(arrivals[c], shift, Sent(flows, c), Key(qps[c]), next);
    }
  }

  lemma GoingMeans(qps: seq<Pair>, shift: nat, q: multiset<Event>, index: map<nat, nat>, flows: seq<Flow>,
                   q': multiset<Event>)
    requires Going(qps, shift, q, index, flows) && q' <= q
    ensures InOrder(flows, q') && Generation(qps, shift, flows, q')
    ensures Limits(qps) ==>
      Numbered(qps, flows) && Merged(qps, shift, flows, q) && OneEach(qps, q) && Unfilled(qps, flows)
  {
    OrderMeans(flows, q');
    if Limits(qps) {
      var next, arrivals :| Tracked(qps, shift, q, index, flows, next, arrivals);
      NumbersCount(qps, flows);
      PendingOneEach(qps, q, next);
      NotBeforeShift(qps, shift, flows, next, arrivals);
    }
  }

  /** Generates `flowNum` flows, unless there is no connection, or one connection would have to send its
      millionth message. `q` is what is left in the queue. */
  method Generate(qps: seq<Pair>, shift: nat, flowNum: nat) returns (r: Schedule, ghost q: multiset<Event>)
    ensures r == NoConnections <==> qps == []
    ensures r.Generated? ==> |r.flows| == flowNum && |q| == |qps|
    ensures r.Generated? || r.Overrun? ==> InOrder(r.flows, q) && Generation(qps, shift, r.flows, q)
    ensures (r.Generated? || r.Overrun?) && Limits(qps) ==> Numbered(qps, r.flows)
    ensures r.Generated? && Limits(qps) ==>
      Merged(qps, shift, r.flows, q) && OneEach(qps, q) && Unfilled(qps, r.flows)
    ensures r.Overrun? && Limits(qps) ==> UsedUp(qps, r.flows)
    ensures Limits(qps) && flowNum < 1_000_000 ==> !r.Overrun?
    ensures Limits(qps) && qps != [] && flowNum > |qps| * 999_999 ==> r.Overrun?
  {
    var queue, index := Begin(qps, shift);
    if |queue| == 0 {
      return NoConnections, queue;
    }
    var flows := [];
    while |flows| != flowNum
      invariant |flows| <= flowNum && |queue| == |qps|
      invariant Going(qps, shift, queue, index, flows)
      decreases flowNum - |flows|
    {
      ghost var queue0, index0 := queue, index;
      var ok;
      queue, index, flows, ok := Emit(qps, shift, queue, index, flows);
      if !ok {
        GoingMeans(qps, shift, queue0, index0, flows, queue);
        Overflowed(qps, shift, flows);
        return Overrun(flows), queue;
      }
    }
    GoingMeans(qps, shift, queue, index, flows, queue);
    if Limits(qps) {
      Capacity(qps, flows);
    }
    return Generated(flows), queue;
  }

  /** No connection has sent its millionth message. */
  ghost predicate Unfilled(qps: seq<Pair>, flows: seq<Flow>) {
    forall c | 0 <= c < |qps| :: Sent(flows, c) < SLOTS
  }

  /** How many flows belong to the first `n` connections. */
  function SentBy(flows: seq<Flow>, n: nat): nat {
    if n == 0 then 0 else SentBy(flows, n - 1) + Sent(flows, n - 1)
  }

  lemma {:induction false} SentByMore(flows: seq<Flow>, f: Flow, n: nat)
    ensures SentBy(flows + [f], n) == SentBy(flows, n) + if f.qp < n then 1 else 0
  {
    if n > 0 {
      SentByMore(flows, f, n - 1);
    }
  }

  lemma {:induction false} AllSent(flows: seq<Flow>, n: nat)
    requires forall i | 0 <= i < |flows| :: flows[i].qp < n
    ensures SentBy(flows, n) == |flows|
  {
    if flows == [] {
      NoneSent(n);
    } else {
      var front, last := flows[..|flows| - 1], flows[|flows| - 1];
      AllSent(front, n);
      SentByMore(front, last, n);
      assert flows == front + [last];
    }
  }

  lemma {:induction false} NoneSent(n: nat)
    ensures SentBy([], n) == 0
  {
    if n > 0 {
      NoneSent(n - 1);
    }
  }

  lemma {:induction false} SentByBound(flows: seq<Flow>, n: nat)
    requires forall c | 0 <= c < n :: Sent(flows, c) < SLOTS
    ensures SentBy(flows, n) <= n * (SLOTS - 1)
  {
    if n > 0 {
      SentByBound(flows, n - 1);
    }
  }

  /** All connections together have room for 999 999 messages each. */
  lemma Capacity(qps: seq<Pair>, flows: seq<Flow>)
    requires Numbered(qps, flows) && Unfilled(qps, flows)
    ensures |flows| <= |qps| * (SLOTS - 1)
  {
    AllSent(flows, |qps|);
    SentByBound(flows, |qps|);
  }

  /** Drawn connections keep the limits as long as there are at most 1000 hosts and 4294 connections. */
  lemma DrawnWithinLimits(hosts: nat, rack: nat, qps: seq<Pair>)
    requires NoDuplicates(qps) && forall p | p in qps :: InterRack(hosts, rack, p)
    requires hosts <= 1000 && |qps| <= 4294
    ensures Limits(qps)
  {
    forall c | 0 <= c < |qps| ensures qps[c].0 < 1000 && qps[c].1 < 1000 {
      assert qps[c] in qps;
    }
  }
}
