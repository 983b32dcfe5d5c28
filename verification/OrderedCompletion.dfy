/** How long messages take when each connection must finish them in order, measured and ideal:
    printOrderedMCTForQPMode of scratch/third.cc. Times are nanoseconds. */
module OrderedCompletion {

  /** `transmit` is how long the message alone keeps its host's link busy, `oracle` how long it takes in an empty
      network. */
  datatype Sender = Sender(test: bool, qp: nat, num: nat, start: nat, finish: nat, transmit: nat, oracle: nat)

  type Senders = map<nat, Sender>

  /** A message in the priority queue of its connection: message number and sender index. */
  type Entry = (nat, nat)

  datatype Row = Row(index: nat, completion: int, ideal: int)

  predicate Before(a: Entry, b: Entry) {
    a.0 < b.0 || (a.0 == b.0 && a.1 < b.1)
  }

  /** The messages of connection `qp` among those with (or without) the test mark. */
  predicate Belongs(senders: Senders, test: bool, qp: nat, e: Entry) {
    e.1 in senders && senders[e.1].test == test && senders[e.1].qp == qp && senders[e.1].num == e.0
  }

  ghost predicate Grouped(senders: Senders, seen: set<nat>, test: bool, qps: map<nat, set<Entry>>) {
    forall qp, e :: (qp in qps && e in qps[qp]) <==> e.1 in seen && Belongs(senders, test, qp, e)
  }

  /** The first loop: one queue per connection that has a message. */
  method Group(senders: Senders, test: bool) returns (qps: map<nat, set<Entry>>)
    ensures Grouped(senders, senders.Keys, test, qps)
    ensures forall qp | qp in qps :: qps[qp] != {}
  {
    qps := map[];
    var left := senders.Keys;
    while left != {}
      invariant left <= senders.Keys
      invariant Grouped(senders, senders.Keys - left, test, qps)
      invariant forall qp | qp in qps :: qps[qp] != {}
    {
      var i :| i in left;
      var s := senders[i];
      if s.test == test {
        qps := qps[s.qp := (if s.qp in qps then qps[s.qp] else {}) + {(s.num, i)}];
      }
      left := left - {i};
    }
  }

  /** `order` lists exactly the messages of the queue, in message order. */
  ghost predicate InOrder(queue: set<Entry>, order: seq<Entry>) {
    && (forall e :: e in order <==> e in queue)
    && (forall i, j | 0 <= i < j < |order| :: Before(order[i], order[j]))
  }

  /** Nanoseconds of transmission that messages i .. n - 1 need together. */
  function Work(senders: Senders, order: seq<Entry>, i: nat, n: nat): nat
    requires i <= n <= |order| && forall e | e in order :: e.1 in senders
  {
    if i == n then 0 else Work(senders, order, i, n - 1) + senders[order[n - 1].1].transmit
  }

  /** `f` is the latest finish among the first `n` messages. */
  ghost predicate Latest(senders: Senders, order: seq<Entry>, n: nat, f: nat)
    requires n <= |order| && forall e | e in order :: e.1 in senders
  {
    && (forall i | 0 <= i < n :: senders[order[i].1].finish <= f)
    && (if n == 0 then f == 0 else exists i :: 0 <= i < n && senders[order[i].1].finish == f)
  }

  /** When the work from message `i` on would be done if it started with that message. */
  function From(senders: Senders, order: seq<Entry>, i: nat, n: nat): nat
    requires i < n <= |order| && forall e | e in order :: e.1 in senders
  {
    senders[order[i].1].start + Work(senders, order, i, n)
  }

  /** `b` is when a link that serves the first `n` messages in order, never idle while there is work,
      is done with them: the largest sum of a start and the work from that message on. */
  ghost predicate DoneAt(senders: Senders, order: seq<Entry>, n: nat, b: nat)
    requires n <= |order| && forall e | e in order :: e.1 in senders
  {
    && (forall i | 0 <= i < n :: From(senders, order, i, n) <= b)
    && (if n == 0 then b == 0 else exists i :: 0 <= i < n && From(senders, order, i, n) == b)
  }

  function Max(a: nat, b: nat): nat {
    if a < b then b else a
  }

  ghost predicate Measured(senders: Senders, order: seq<Entry>, n: nat, time: int)
    requires n <= |order| && forall e | e in order :: e.1 in senders
  {
    time >= 0 && Latest(senders, order, n, time)
  }

  /** What is reported about message number `m` of the order. */
  ghost predicate RowFor(senders: Senders, order: seq<Entry>, m: nat, row: Row)
    requires m < |order| && forall e | e in order :: e.1 in senders
  {
    var s := senders[order[m].1];
    && row.index == order[m].1
    && Measured(senders, order, m + 1, row.completion + s.start)
    && (exists b: nat :: DoneAt(senders, order, m, b) && row.ideal == Max(b, s.start) + s.oracle - s.start)
  }

  ghost predicate RowsFor(senders: Senders, order: seq<Entry>, rows: seq<Row>)
    requires forall e | e in order :: e.1 in senders
  {
    |rows| == |order| && forall m | 0 <= m < |rows| :: RowFor(senders, order, m, rows[m])
  }

  lemma First(queue: set<Entry>) returns (e: Entry)
    requires queue != {}
    ensures e in queue && forall x | x in queue && x != e :: Before(e, x)
  {
    var y :| y in queue;
    var rest := queue - {y};
    if rest == {} {
      e := y;
    } else {
      var z := First(rest);
      e := if Before(y, z) then y else z;
    }
    forall x | x in queue && x != e ensures Before(e, x) {
      assert x == y || x in rest;
    }
  }

  /** The rows of all messages of a queue, in message order. */
  ghost predicate InMessageRows(senders: Senders, queue: set<Entry>, rows: seq<Row>)
    requires forall e | e in queue :: e.1 in senders
  {
    exists order :: InOrder(queue, order) && RowsFor(senders, order, rows)
  }

  ghost predicate Known(senders: Senders, order: seq<Entry>) {
    forall e | e in order :: e.1 in senders
  }

  lemma {:induction false} WorkPrefix(senders: Senders, order: seq<Entry>, e: Entry, i: nat, n: nat)
    requires i <= n <= |order| && Known(senders, order + [e]) && Known(senders, order)
    ensures Work(senders, order + [e], i, n) == Work(senders, order, i, n)
  {
    if i < n {
      WorkPrefix(senders, order, e, i, n - 1);
    }
  }

  lemma LatestPrefix(senders: Senders, order: seq<Entry>, e: Entry, n: nat, f: nat)
    requires n <= |order| && Known(senders, order + [e]) && Known(senders, order) && Latest(senders, order, n, f)
    ensures Latest(senders, order + [e], n, f)
  {
    if n > 0 {
      var i :| 0 <= i < n && senders[order[i].1].finish == f;
      assert senders[(order + [e])[i].1].finish == f;
    }
  }

  lemma LatestStep(senders: Senders, order: seq<Entry>, n: nat, f: nat)
    requires n < |order| && Known(senders, order) && Latest(senders, order, n, f)
    ensures var g := senders[order[n].1].finish; Latest(senders, order, n + 1, Max(f, g))
  {
    var g := senders[order[n].1].finish;
    if f < g || n == 0 {
      assert senders[order[n].1].finish == Max(f, g);
    } else {
      var i :| 0 <= i < n && senders[order[i].1].finish == f;
    }
  }

  lemma DonePrefix(senders: Senders, order: seq<Entry>, e: Entry, n: nat, b: nat)
    requires n <= |order| && Known(senders, order + [e]) && Known(senders, order) && DoneAt(senders, order, n, b)
    ensures DoneAt(senders, order + [e], n, b)
  {
    var all := order + [e];
    forall i | 0 <= i < n ensures From(senders, all, i, n) == From(senders, order, i, n) {
      WorkPrefix(senders, order, e, i, n);
    }
    if n > 0 {
      var i :| 0 <= i < n && From(senders, order, i, n) == b;
      assert From(senders, all, i, n) == b;
    }
  }

  /** The closed form keeps step with the program: the link turns to the next message when it is done
      with those before and the message is there. */
  lemma DoneStep(senders: Senders, order: seq<Entry>, n: nat, b: nat)
    requires n < |order| && Known(senders, order) && DoneAt(senders, order, n, b)
    ensures var s := senders[order[n].1]; DoneAt(senders, order, n + 1, Max(b, s.start) + s.transmit)
  {
    var s := senders[order[n].1];
    var b', n' := Max(b, s.start) + s.transmit, n + 1;
    assert Work(senders, order, n, n) == 0;
    forall i | 0 <= i < n' ensures From(senders, order, i, n') <= b' {
      assert i < n ==> From(senders, order, i, n') == From(senders, order, i, n) + s.transmit;
    }
    if s.start < b {
      var i :| 0 <= i < n && From(senders, order, i, n) == b;
      assert From(senders, order, i, n') == b';
    } else {
      assert From(senders, order, n, n') == b';
    }
  }

  lemma RowPrefix(senders: Senders, order: seq<Entry>, e: Entry, m: nat, row: Row)
    requires m < |order| && Known(senders, order + [e]) && Known(senders, order) && RowFor(senders, order, m, row)
    ensures RowFor(senders, order + [e], m, row)
  {
    var s := senders[order[m].1];
    LatestPrefix(senders, order, e, m + 1, row.completion + s.start);
    var b: nat :| DoneAt(senders, order, m, b) && row.ideal == Max(b, s.start) + s.oracle - s.start;
    DonePrefix(senders, order, e, m, b);
  }

  /** What the inner loop keeps. */
  ghost predicate Drained(senders: Senders, order: seq<Entry>, rows: seq<Row>, finishAbove: nat, busyUntil: nat) {
    && Known(senders, order) && RowsFor(senders, order, rows)
    && Latest(senders, order, |order|, finishAbove) && DoneAt(senders, order, |order|, busyUntil)
  }

  lemma OneMoreMessage(senders: Senders, order: seq<Entry>, rows: seq<Row>, e: Entry, f: nat, b: nat)
    requires Drained(senders, order, rows, f, b) && e.1 in senders
    ensures var s := senders[e.1];
      Drained(senders, order + [e], rows + [Row(e.1, Max(f, s.finish) - s.start, Max(b, s.start) + s.oracle - s.start)],
              Max(f, s.finish), Max(b, s.start) + s.transmit)
  {
    ClockStep(senders, order, e, f, b);
    RowsStep(senders, order, rows, e, f, b);
  }

  lemma ClockStep(senders: Senders, order: seq<Entry>, e: Entry, f: nat, b: nat)
    requires Known(senders, order) && e.1 in senders
    requires Latest(senders, order, |order|, f) && DoneAt(senders, order, |order|, b)
    ensures var s, n, all := senders[e.1], |order|, order + [e];
      && Known(senders, all) && Latest(senders, all, n + 1, Max(f, s.finish))
      && DoneAt(senders, all, n, b) && DoneAt(senders, all, n + 1, Max(b, s.start) + s.transmit)
  {
    LatestPrefix(senders, order, e, |order|, f);
    LatestStep(senders, order + [e], |order|, f);
    DonePrefix(senders, order, e, |order|, b);
    DoneStep(senders, order + [e], |order|, b);
  }

  lemma RowsStep(senders: Senders, order: seq<Entry>, rows: seq<Row>, e: Entry, f: nat, b: nat)
    requires Known(senders, order) && Known(senders, order + [e]) && RowsFor(senders, order, rows)
    requires var s, n, all := senders[e.1], |order|, order + [e];
      Latest(senders, all, n + 1, Max(f, s.finish)) && DoneAt(senders, all, n, b)
    ensures var s := senders[e.1];
      RowsFor(senders, order + [e], rows + [Row(e.1, Max(f, s.finish) - s.start, Max(b, s.start) + s.oracle - s.start)])
  {
    forall m | 0 <= m < |order| ensures RowFor(senders, order + [e], m, rows[m]) {
      RowPrefix(senders, order, e, m, rows[m]);
    }
  }

  /** The inner loop: takes the messages of one connection in order. */
  method Drain(senders: Senders, queue: set<Entry>) returns (rows: seq<Row>)
    requires forall e | e in queue :: e.1 in senders
    ensures InMessageRows(senders, queue, rows)
  {
    rows := [];
    ghost var order := [];
    var left := queue;
    var finishAbove: nat, busyUntil: nat := 0, 0;
    while left != {}
      invariant left <= queue && InOrder(queue - left, order)
      invariant forall a, b | a in order && b in left :: Before(a, b)
      invariant Drained(senders, order, rows, finishAbove, busyUntil)
    {
      ghost var first := First(left);
      var e :| e in left && forall x | x in left && x != e :: Before(e, x);
      rows, finishAbove, busyUntil := Finish(senders, order, rows, e, finishAbove, busyUntil);
      Taken(queue, left, order, e);
      left, order := left - {e}, order + [e];
    }
    assert queue - left == queue;
  }

  lemma Taken(queue: set<Entry>, left: set<Entry>, order: seq<Entry>, e: Entry)
    requires left <= queue && InOrder(queue - left, order) && e in left
    requires forall a, b | a in order && b in left :: Before(a, b)
    requires forall x | x in left && x != e :: Before(e, x)
    ensures InOrder(queue - (left - {e}), order + [e])
    ensures forall a, b | a in order + [e] && b in left - {e} :: Before(a, b)
  {
    assert forall a :: a in order + [e] <==> a in order || a == e;
  }

  /** When an ideal network has the message finished, and until when it keeps the link busy. */
  method Serve(s: Sender, busyUntil: nat) returns (ideal: nat, busy: nat)
    ensures ideal == Max(busyUntil, s.start) + s.oracle && busy == Max(busyUntil, s.start) + s.transmit
  {
    if s.start < busyUntil {
      ideal := busyUntil + s.oracle;
      busy := busyUntil + s.transmit;
    } else {
      ideal := s.start + s.oracle;
      busy := s.start + s.transmit;
    }
  }

  /** The body of the inner loop. */
  method Finish(senders: Senders, ghost order: seq<Entry>, rows0: seq<Row>, e: Entry, finishAbove: nat, busyUntil: nat)
    returns (rows: seq<Row>, finish: nat, busy: nat)
    requires Drained(senders, order, rows0, finishAbove, busyUntil) && e.1 in senders
    ensures Drained(senders, order + [e], rows, finish, busy)
  {
    var s := senders[e.1];
    finish := Max(finishAbove, s.finish);
    var ideal;
    ideal, busy := Serve(s, busyUntil);
    OneMoreMessage(senders, order, rows0, e, finishAbove, busyUntil);
    rows := rows0 + [Row(e.1, finish - s.start, ideal - s.start)];
  }

  /** The rows of connection `qp`: all its messages, in order. */
  ghost predicate Reported(senders: Senders, test: bool, qp: nat, rows: seq<Row>) {
    exists order :: Ordered(senders, test, qp, order) && RowsFor(senders, order, rows)
  }

  ghost predicate Ordered(senders: Senders, test: bool, qp: nat, order: seq<Entry>) {
    && (forall e :: e in order <==> Belongs(senders, test, qp, e))
    && (forall i, j | 0 <= i < j < |order| :: Before(order[i], order[j]))
  }

  lemma Smallest(s: set<nat>) returns (x: nat)
    requires s != {}
    ensures x in s && forall y | y in s :: x <= y
  {
    var y :| y in s;
    var rest := s - {y};
    if rest == {} {
      x := y;
    } else {
      var z := Smallest(rest);
      x := if y <= z then y else z;
    }
    forall w | w in s ensures x <= w {
      assert w == y || w in rest;
    }
  }

  ghost predicate Listed(report: seq<(nat, seq<Row>)>, qp: nat) {
    exists a :: 0 <= a < |report| && report[a].0 == qp
  }

  /** The ids ascend, and those in `left` are still to come. */
  ghost predicate Ascending(report: seq<(nat, seq<Row>)>, left: set<nat>) {
    && (forall a, b | 0 <= a < b < |report| :: report[a].0 < report[b].0)
    && (forall a, qp | 0 <= a < |report| && qp in left :: report[a].0 < qp)
  }

  ghost predicate AllReported(senders: Senders, test: bool, report: seq<(nat, seq<Row>)>) {
    forall a | 0 <= a < |report| :: Reported(senders, test, report[a].0, report[a].1) && report[a].1 != []
  }

  lemma StillListed(report: seq<(nat, seq<Row>)>, qp: nat, rows: seq<Row>)
    ensures Listed(report + [(qp, rows)], qp)
    ensures forall x | Listed(report, x) :: Listed(report + [(qp, rows)], x)
  {
    var longer := report + [(qp, rows)];
    assert longer[|report|].0 == qp;
    forall x | Listed(report, x) ensures Listed(longer, x) {
      var a :| 0 <= a < |report| && report[a].0 == x;
      assert longer[a].0 == x;
    }
  }

  /** The order is that of the message numbers, and of the sender indices where numbers are equal. */
  lemma OrderedByNumber(senders: Senders, test: bool, qp: nat, order: seq<Entry>, i: nat, j: nat)
    requires Ordered(senders, test, qp, order) && i < j < |order|
    ensures order[i].1 in senders && order[j].1 in senders
    ensures var a, b := order[i].1, order[j].1;
      senders[a].num <= senders[b].num && (senders[a].num == senders[b].num ==> a < b)
  {
    assert order[i] in order && order[j] in order;
    assert Before(order[i], order[j]);
  }

  /** The rows are about exactly the messages of connection `qp` with (or without) the test mark, by message number,
      and by sender index where numbers are equal. */
  ghost predicate ByNumber(senders: Senders, test: bool, qp: nat, rows: seq<Row>) {
    && (forall m | 0 <= m < |rows| ::
          rows[m].index in senders && senders[rows[m].index].test == test && senders[rows[m].index].qp == qp)
    && (forall x | x in senders && senders[x].test == test && senders[x].qp == qp ::
          exists m :: 0 <= m < |rows| && rows[m].index == x)
    && (forall m, n | 0 <= m < n < |rows| ::
          var a, b := senders[rows[m].index].num, senders[rows[n].index].num;
          a < b || (a == b && rows[m].index < rows[n].index))
  }

  lemma ReportedByNumber(senders: Senders, test: bool, qp: nat, rows: seq<Row>)
    requires Reported(senders, test, qp, rows)
    ensures ByNumber(senders, test, qp, rows)
  {
    var order: seq<Entry> :| Ordered(senders, test, qp, order) && RowsFor(senders, order, rows);
    RowsAbout(senders, order, rows);
    RowsBelong(senders, test, qp, order, rows);
    RowsComplete(senders, test, qp, order, rows);
    NumbersAscend(senders, test, qp, order, rows);
  }

  lemma RowsAbout(senders: Senders, order: seq<Entry>, rows: seq<Row>)
    requires Known(senders, order) && RowsFor(senders, order, rows)
    ensures forall m | 0 <= m < |rows| :: rows[m].index == order[m].1
  {
    forall m | 0 <= m < |rows| ensures rows[m].index == order[m].1 {
      assert RowFor(senders, order, m, rows[m]);
    }
  }

  lemma RowsBelong(senders: Senders, test: bool, qp: nat, order: seq<Entry>, rows: seq<Row>)
    requires Ordered(senders, test, qp, order) && |rows| == |order|
    requires forall m | 0 <= m < |rows| :: rows[m].index == order[m].1
    ensures forall m | 0 <= m < |rows| ::
      rows[m].index in senders && senders[rows[m].index].test == test && senders[rows[m].index].qp == qp
  {
    forall m | 0 <= m < |rows| ensures Belongs(senders, test, qp, order[m]) {
      assert order[m] in order;
    }
  }

  lemma RowsComplete(senders: Senders, test: bool, qp: nat, order: seq<Entry>, rows: seq<Row>)
    requires Ordered(senders, test, qp, order) && |rows| == |order|
    requires forall m | 0 <= m < |rows| :: rows[m].index == order[m].1
    ensures forall x | x in senders && senders[x].test == test && senders[x].qp == qp ::
      exists m :: 0 <= m < |rows| && rows[m].index == x
  {
    forall x | x in senders && senders[x].test == test && senders[x].qp == qp
      ensures exists m :: 0 <= m < |rows| && rows[m].index == x {
      assert Belongs(senders, test, qp, (senders[x].num, x));
      var m :| 0 <= m < |order| && order[m] == (senders[x].num, x);
      assert rows[m].index == x;
    }
  }

  lemma NumbersAscend(senders: Senders, test: bool, qp: nat, order: seq<Entry>, rows: seq<Row>)
    requires Ordered(senders, test, qp, order) && |rows| == |order|
    requires forall m | 0 <= m < |rows| :: rows[m].index == order[m].1 && rows[m].index in senders
    ensures forall m, n | 0 <= m < n < |rows| ::
      var a, b := senders[rows[m].index].num, senders[rows[n].index].num;
      a < b || (a == b && rows[m].index < rows[n].index)
  {
    forall m, n | 0 <= m < n < |rows|
      ensures var a, b := senders[rows[m].index].num, senders[rows[n].index].num;
        a < b || (a == b && rows[m].index < rows[n].index) {
      OrderedByNumber(senders, test, qp, order, m, n);
    }
  }

  /** Every connection reported has its rows by message number. */
  ghost predicate AllByNumber(senders: Senders, test: bool, report: seq<(nat, seq<Row>)>) {
    forall a | 0 <= a < |report| :: ByNumber(senders, test, report[a].0, report[a].1)
  }

  lemma OneMoreReport(senders: Senders, test: bool, report: seq<(nat, seq<Row>)>, left: set<nat>, qp: nat,
                      rows: seq<Row>)
    requires Ascending(report, left) && AllReported(senders, test, report)
    requires qp in left && (forall x | x in left :: qp <= x) && Reported(senders, test, qp, rows) && rows != []
    ensures Ascending(report + [(qp, rows)], left - {qp}) && AllReported(senders, test, report + [(qp, rows)])
  {}

  lemma AllNumbered(senders: Senders, test: bool, report: seq<(nat, seq<Row>)>)
    requires AllReported(senders, test, report)
    requires forall qp, e | Belongs(senders, test, qp, e) :: Listed(report, qp)
    ensures AllByNumber(senders, test, report)
    ensures forall x | x in senders && senders[x].test == test :: Listed(report, senders[x].qp)
  {
    forall a | 0 <= a < |report| ensures ByNumber(senders, test, report[a].0, report[a].1) {
      ReportedByNumber(senders, test, report[a].0, report[a].1);
    }
    forall x | x in senders && senders[x].test == test ensures Listed(report, senders[x].qp) {
      assert Belongs(senders, test, senders[x].qp, (senders[x].num, x));
    }
  }

  /** Reports on every connection that has a message, in the order of their ids. */
  method Report(senders: Senders, test: bool) returns (report: seq<(nat, seq<Row>)>)
    ensures Ascending(report, {}) && AllReported(senders, test, report) && AllByNumber(senders, test, report)
    ensures forall x | x in senders && senders[x].test == test :: Listed(report, senders[x].qp)
  {
    var qps := Group(senders, test);
    var left := qps.Keys;
    report := [];
    while left != {}
      invariant left <= qps.Keys && Ascending(report, left) && AllReported(senders, test, report)
      invariant forall qp | qp in qps && qp !in left :: Listed(report, qp)
    {
      ghost var least := Smallest(left);
      var qp :| qp in left && forall x | x in left :: qp <= x;
      var rows := Drain(senders, qps[qp]);
      StillListed(report, qp, rows);
      OneMoreReport(senders, test, report, left, qp, rows);
      report := report + [(qp, rows)];
      left := left - {qp};
    }
    AllNumbered(senders, test, report);
  }

  /** The rules fix the report: the order of the messages and every number in it. */
  lemma OneReport(senders: Senders, test: bool, qp: nat, rows: seq<Row>, rows': seq<Row>)
    requires Reported(senders, test, qp, rows) && Reported(senders, test, qp, rows')
    ensures rows == rows'
  {
    var order :| Ordered(senders, test, qp, order) && RowsFor(senders, order, rows);
    var order' :| Ordered(senders, test, qp, order') && RowsFor(senders, order', rows');
    OneOrder(order, order');
    forall m | 0 <= m < |rows| ensures rows[m] == rows'[m] {
      OneRow(senders, order, m, rows[m], rows'[m]);
    }
  }

  lemma HasMember(t: seq<Entry>)
    ensures t == [] || exists e :: e in t
  {
    if t != [] {
      assert t[0] in t;
    }
  }

  lemma {:induction false} OneOrder(s: seq<Entry>, t: seq<Entry>)
    requires forall e :: e in s <==> e in t
    requires forall i, j | 0 <= i < j < |s| :: Before(s[i], s[j])
    requires forall i, j | 0 <= i < j < |t| :: Before(t[i], t[j])
    ensures s == t
  {
    if s == [] {
      HasMember(t);
    } else {
      assert s[|s| - 1] in t && t[|t| - 1] in s;
      var s', t' := s[..|s| - 1], t[..|t| - 1];
      assert s[|s| - 1] == t[|t| - 1];
      forall e ensures e in s' <==> e in t' {
        assert e in s' <==> e in s && e != s[|s| - 1];
        assert e in t' <==> e in t && e != t[|t| - 1];
      }
      OneOrder(s', t');
      assert s == s' + [s[|s| - 1]] && t == t' + [t[|t| - 1]];
    }
  }

  lemma OneRow(senders: Senders, order: seq<Entry>, m: nat, row: Row, row': Row)
    requires m < |order| && Known(senders, order) && RowFor(senders, order, m, row) && RowFor(senders, order, m, row')
    ensures row == row'
  {}

  /** Neither time is ever below that of the message alone: it is not complete before it finished, and
      the ideal network is no faster than an empty one. */
  lemma NeverFaster(senders: Senders, order: seq<Entry>, m: nat, row: Row)
    requires m < |order| && Known(senders, order) && RowFor(senders, order, m, row)
    ensures var s := senders[order[m].1]; row.ideal >= s.oracle && row.completion >= s.finish - s.start
  {}

  /** Completion is in message order: a message with a higher number is never complete earlier on its connection. */
  lemma InMessageOrder(senders: Senders, test: bool, qp: nat, order: seq<Entry>, m: nat, n: nat, row: Row, row': Row)
    requires Ordered(senders, test, qp, order) && Known(senders, order) && m < |order| && n < |order|
    requires RowFor(senders, order, m, row) && RowFor(senders, order, n, row')
    requires senders[row.index].num < senders[row'.index].num
    ensures senders[row.index].start + row.completion <= senders[row'.index].start + row'.completion
  {
    if n < m {
      OrderedByNumber(senders, test, qp, order, n, m);
    }
    var i :| 0 <= i < m + 1 && senders[order[i].1].finish == senders[order[m].1].start + row.completion;
  }
}
