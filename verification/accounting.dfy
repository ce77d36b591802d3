/** The records an exchange moves between two archives that do not conflict, counted
    against the replication lag the health report shows. */
module Accounting {
  import opened Records
  import opened Sets
  import opened Digests
  import opened Store
  import opened Exchange
  import opened Liveness
  import opened Delivery
  import opened Convergence

  // ---- Lag ----

  function Excess(mine: map<Origin, int>, theirs: map<Origin, int>, o: Origin): int {
    if Told(theirs, o) < Told(mine, o) then Told(mine, o) - Told(theirs, o) else 0
  }

  /** How many records the holder of `mine` has that the holder of `theirs` lacks,
      going by the two vectors. */
  ghost function Ahead(mine: map<Origin, int>, theirs: map<Origin, int>): int {
    Sum(mine.Keys, o => Excess(mine, theirs, o))
  }

  /** `lag`. A peer that never announced a readable vector is neither ahead nor behind. */
  method Lag(mine: map<Origin, int>, peer: Option<map<Origin, int>>) returns (behind: int, ahead: int)
    ensures peer.None? ==> behind == 0 && ahead == 0
    ensures peer.Some? ==> behind == Ahead(peer.value, mine) && ahead == Ahead(mine, peer.value)
  {
    behind, ahead := 0, 0;
    if peer.None? {
      return;
    }
    behind := LagOneWay(peer.value, mine);
    ahead := LagOneWay(mine, peer.value);
  }

  /** One of the two loops, over the origins in any order. */
  method LagOneWay(more: map<Origin, int>, less: map<Origin, int>) returns (n: int)
    ensures n == Ahead(more, less)
  {
    n := 0;
    var left := more.Keys;
    while left != {}
      invariant left <= more.Keys
      invariant n + Sum(left, o => Excess(more, less, o)) == Ahead(more, less)
      decreases |left|
    {
      var o := Take(left);
      SumTakesOut(left, o => Excess(more, less, o), o);
      var d := Told(more, o) - Told(less, o);
      if d > 0 {
        n := n + d;
      }
      left := left - {o};
    }
  }

  lemma {:induction false} NothingAhead(mine: map<Origin, int>, theirs: map<Origin, int>)
    requires forall o :: o in mine ==> mine[o] <= Told(theirs, o)
    ensures Ahead(mine, theirs) == 0
  {
    SumAgrees(mine.Keys, o => Excess(mine, theirs, o), o => 0);
    SumOfZeros(mine.Keys);
  }

  lemma {:induction false} SumOfZeros<T>(s: set<T>)
    ensures Sum(s, (x: T) => 0) == 0
    decreases |s|
  {
    if s != {} {
      var x := Pick(s);
      SumTakesOut(s, (x: T) => 0, x);
      SumOfZeros(s - {x});
    }
  }

  // ---- What is missing, counted ----

  /** The rows of `a` for these origins that `b` lacks. */
  ghost function Lacking(a: Table, b: Table, origins: set<Origin>): set<Id> {
    set id | id in a && id.origin in origins && id !in b
  }

  ghost function Positions(o: Origin, n: int, m: int): set<Id>
    decreases m - n
  {
    if m <= n then {} else Positions(o, n, m - 1) + {Id(o, m)}
  }

  lemma {:induction false} SpanSize(o: Origin, n: int, m: int)
    requires n <= m
    ensures |Positions(o, n, m)| == m - n
    ensures forall id :: id in Positions(o, n, m) <==> id.origin == o && n < id.num <= m
    decreases m - n
  {
    if n < m {
      SpanSize(o, n, m - 1);
    }
  }

  lemma {:induction false} LackingCount(a: Table, b: Table, origins: set<Origin>, f: Origin -> int)
    requires forall o :: o in origins ==> |Lacking(a, b, {o})| == f(o)
    ensures |Lacking(a, b, origins)| == Sum(origins, f)
    decreases |origins|
  {
    if origins == {} {
      assert Lacking(a, b, origins) == {};
    } else {
      var o := Pick(origins);
      SumTakesOut(origins, f, o);
      LackingCount(a, b, origins - {o}, f);
      LackingSplits(a, b, origins, o);
    }
  }

  lemma LackingSplits(a: Table, b: Table, origins: set<Origin>, o: Origin)
    requires o in origins
    ensures |Lacking(a, b, origins)| == |Lacking(a, b, origins - {o})| + |Lacking(a, b, {o})|
  {
    var rest, one := Lacking(a, b, origins - {o}), Lacking(a, b, {o});
    assert Lacking(a, b, origins) == rest + one;
    assert rest !! one;
  }

  lemma LackingOne(a: Table, b: Table, o: Origin)
    requires Dense(a) && Dense(b)
    ensures |Lacking(a, b, {o})| == (if Watermark(b, o) < Watermark(a, o) then Watermark(a, o) - Watermark(b, o) else 0)
  {
    var n, m := Watermark(b, o), Watermark(a, o);
    assert Prefix(a, o, m) && Prefix(b, o, n);
    var lacking := Lacking(a, b, {o});
    forall id ensures id in lacking <==> id.origin == o && n < id.num <= m {
      assert id == Id(id.origin, id.num);
    }
    if n <= m {
      SpanSize(o, n, m);
      assert lacking == Positions(o, n, m);
    } else {
      assert lacking == {};
    }
  }

  /** Everything one archive lacks of another is what the vectors say. */
  lemma AheadCountsRows(a: Table, b: Table, selfA: Origin, selfB: Origin)
    requires Dense(a) && Dense(b)
    ensures |a.Keys - b.Keys| == Ahead(Vector(a, selfA), Vector(b, selfB))
  {
    var va, vb := Vector(a, selfA), Vector(b, selfB);
    forall o | o in va ensures |Lacking(a, b, {o})| == Excess(va, vb, o) {
      VectorAt(a, selfA, o);
      VectorAt(b, selfB, o);
      LackingOne(a, b, o);
    }
    LackingCount(a, b, va.Keys, o => Excess(va, vb, o));
    forall id | id in a ensures id.origin in va {
      InVector(a, selfA, id);
    }
    assert a.Keys - b.Keys == Lacking(a, b, va.Keys);
  }

  // ---- Counting along a run ----

  ghost predicate Agree(a: Table, b: Table) {
    forall id :: !Disagree(a, b, id)
  }

  /** What the sender has sent, and what it still owes, always make up the lag. */
  ghost predicate Owes(e: End, theirs: map<Origin, int>) {
    var mine, all := e.mine.vector, Ahead(e.mine.vector, theirs);
    match e.sender
    case Walking(todo) => e.sent + Sum(todo, o => Excess(mine, theirs, o)) == all
    case Streaming(o, after, todo) =>
      && Told(theirs, o) <= after <= Told(mine, o) && Told(theirs, o) < Told(mine, o)
      && e.sent + (Told(mine, o) - after) + Sum(todo, o => Excess(mine, theirs, o)) == all
    case Closed => e.sent == all
    case _ => e.sent == 0
  }

  lemma AgreeMeansNoMismatch(a: Table, b: Table, o: Origin, n: int, m: int)
    requires Prefix(a, o, n) && Prefix(b, o, m) && Agree(a, b)
    ensures FirstMismatch(DigestsOf(a, o), DigestsOf(b, o)) == -1
  {
    var log := if n <= m then b else a;
    forall id: Id | id.origin == o && (id in a || id in b)
      ensures id in log && (id in a ==> log[id].line.hash == a[id].line.hash) && (id in b ==> log[id].line.hash == b[id].line.hash)
    {
      assert id == Id(o, id.num);
      assert !Disagree(a, b, id);
    }
    forall k | k in DigestsOf(a, o) ensures exists i :: OfLog(log, o, k, DigestsOf(a, o)[k], i) {
      DigestsOfReplica(a, log, o, n, k);
    }
    forall k | k in DigestsOf(b, o) ensures exists i :: OfLog(log, o, k, DigestsOf(b, o)[k], i) {
      DigestsOfReplica(b, log, o, m, k);
    }
    NoMismatch(log, o, DigestsOf(a, o), DigestsOf(b, o));
  }

  /** Without a conflict the watermark decides: from the peer's, or not at all. */
  lemma StartsAtWatermark(x: Side, y: Side, o: Origin)
    requires Opening(x) && Opening(y) && Dense(x.rows) && Dense(y.rows) && Agree(x.rows, y.rows)
    ensures StartAfter(x.end.mine, y.end.mine, o) ==
              (if Watermark(y.rows, o) < Watermark(x.rows, o) then Watermark(y.rows, o) else -1)
  {
    AnnounceTells(x, o);
    AnnounceTells(y, o);
    assert Prefix(x.rows, o, Watermark(x.rows, o)) && Prefix(y.rows, o, Watermark(y.rows, o));
    AgreeMeansNoMismatch(x.rows, y.rows, o, Watermark(x.rows, o), Watermark(y.rows, o));
  }

  /** An origin being sent does not change under the sender. */
  lemma SentOriginIsStill(own: Table, peers: Table, t: Table, o: Origin)
    requires Dense(own) && Dense(peers) && Inherits(t, own, peers)
    requires Watermark(peers, o) <= Watermark(own, o)
    ensures Prefix(t, o, Watermark(own, o))
  {
    assert Prefix(own, o, Watermark(own, o)) && Prefix(peers, o, Watermark(peers, o));
  }

  lemma ChooseOwes(x0: Side, y0: Side, e: End, o: Origin)
    requires Opening(x0) && Opening(y0) && Dense(x0.rows) && Dense(y0.rows) && Agree(x0.rows, y0.rows)
    requires e.mine == x0.end.mine && e.sender.Walking? && o in e.sender.todo
    requires Owes(e, y0.end.mine.vector)
    ensures Owes(Choose(e, y0.end.mine, o), y0.end.mine.vector)
  {
    SumTakesOut(e.sender.todo, q => Excess(e.mine.vector, y0.end.mine.vector, q), o);
    StartsAtWatermark(x0, y0, o);
    AnnounceTells(x0, o);
    AnnounceTells(y0, o);
    assert Prefix(y0.rows, o, Watermark(y0.rows, o));
  }

  lemma BatchOwes(t: Table, e: End, theirs: map<Origin, int>)
    requires e.sender.Streaming? && Owes(e, theirs) && 0 <= e.sender.after
    requires WellKeyed(t) && Prefix(t, e.sender.origin, Told(e.mine.vector, e.sender.origin))
    ensures Owes(SendBatch(t, e), theirs)
  {
    var o, after := e.sender.origin, e.sender.after;
    SinceDense(t, o, Told(e.mine.vector, o), after, BATCH_SIZE);
    var batch := Since(t, o, after, BATCH_SIZE);
    if batch != [] {
      assert IdOf(batch[|batch| - 1]) == Id(o, after + |batch|);
    }
  }

  lemma SendKeepsOwing(x0: Side, y0: Side, x: Side, e': End)
    requires Opening(x0) && Opening(y0) && Dense(x0.rows) && Dense(y0.rows) && Agree(x0.rows, y0.rows)
    requires WellKeyed(x.rows) && Inherits(x.rows, x0.rows, y0.rows)
    requires x.end.mine == x0.end.mine && (x.end.theirs.Some? ==> x.end.theirs.value == y0.end.mine)
    requires Owes(x.end, y0.end.mine.vector) && SenderStep(x.rows, x.end, e') && !x.end.sender.Surveying?
    ensures Owes(e', y0.end.mine.vector)
  {
    var e := x.end;
    match e.sender
    case Walking(todo) =>
      if todo != {} {
        var o :| o in todo && e' == Choose(e, e.theirs.value, o);
        ChooseOwes(x0, y0, e, o);
      }
    case Streaming(o, after, todo) =>
      AnnounceTells(x0, o);
      AnnounceTells(y0, o);
      assert Prefix(y0.rows, o, Watermark(y0.rows, o));
      SentOriginIsStill(x0.rows, y0.rows, x.rows, o);
      BatchOwes(x.rows, e, y0.end.mine.vector);
    case _ =>
  }

  /** Records in the frames not yet read. */
  ghost function Unread(q: seq<Frame>): nat {
    if q == [] then 0 else Unread(q[1..]) + if q[0].RecordsFrame? then |q[0].records| else 0
  }

  lemma {:induction false} UnreadAfterWrite(q: seq<Frame>, f: Frame)
    ensures Unread(q + [f]) == Unread(q) + if f.RecordsFrame? then |f.records| else 0
    decreases |q|
  {
    if q == [] {
      assert q + [f] == [f] && [f][1..] == [];
    } else {
      UnreadAfterWrite(q[1..], f);
      assert (q + [f])[1..] == q[1..] + [f];
    }
  }

  /** Nothing is lost or made up on the way: sent, received, counted, stored. */
  ghost predicate Balances(e: End, y0: Side, y: Side) {
    && y.end.received + Unread(e.outbox) == e.sent
    && y.end.got.stored + y.end.got.duplicates + y.end.got.forked == y.end.received
    && y.end.got.stored == |y.rows| - |y0.rows|
    && y.end.got.forked == |y.quarantine| - |y0.quarantine|
    && 0 <= y.end.got.duplicates && 0 <= y.end.got.forked
  }

  lemma SendBalances(t: Table, e: End, e': End, y0: Side, y: Side)
    requires Balances(e, y0, y) && SenderStep(t, e, e') && !e.sender.Surveying?
    ensures Balances(e', y0, y)
  {
    match e.sender
    case Announcing => UnreadAfterWrite(e.outbox, VectorFrame(e.mine));
    case Walking(_) => UnreadAfterWrite(e.outbox, DoneFrame);
    case Streaming(_, _, _) =>
      UnreadAfterWrite(e.outbox, RecordsFrame(Since(t, e.sender.origin, e.sender.after, BATCH_SIZE)));
    case _ =>
  }

  lemma ReadBalances(e: End, y0: Side, y: Side)
    requires Balances(e, y0, y) && e.outbox != [] && Sound(y.rows) && Flow(e, y.end)
    ensures Balances(e.(outbox := e.outbox[1..]), y0, Receive(y, e.outbox[0]))
  {
    assert InPlace(e, y.end, 0);
    if e.outbox[0].RecordsFrame? {
      RemoteAppendMerges(y.rows, y.quarantine, e.outbox[0].records);
    }
  }

  ghost predicate BothBalance(p0: Pair, p: Pair) {
    Balances(p.left.end, p0.right, p.right) && Balances(p.right.end, p0.left, p.left)
  }

  lemma MoveBalances(capacity: nat, p0: Pair, p: Pair, p': Pair)
    requires Running(p) && BothBalance(p0, p) && LeftMoves(capacity, p, p')
    ensures BothBalance(p0, p')
  {
    if LeftSends(capacity, p, p') {
      SendBalances(p.left.rows, p.left.end, p'.left.end, p0.right, p.right);
      SendKeepsReceipts(p.left.rows, p.left.end, p'.left.end);
    } else {
      ReceiveKeepsCounts(p.left, p.right.end.outbox[0]);
      ReadBalances(p.right.end, p0.left, p.left);
    }
  }

  lemma StepBalances(capacity: nat, p0: Pair, p: Pair, p': Pair)
    requires Running(p) && BothBalance(p0, p) && Step(capacity, p, p')
    ensures Running(p') && BothBalance(p0, p')
  {
    hide Balances, Running, LeftMoves;
    StepKeepsRunning(capacity, p, p');
    if LeftMoves(capacity, p, p') {
      MoveBalances(capacity, p0, p, p');
    } else {
      assert Running(Swap(p)) by { SwapRunning(p); }
      MoveBalances(capacity, Swap(p0), Swap(p), Swap(p'));
    }
  }

  lemma SwapRunning(p: Pair)
    requires Running(p)
    ensures Running(Swap(p))
  {}

  lemma StartBalances(p: Pair)
    requires Start(p)
    ensures BothBalance(p, p)
  {}

  lemma {:induction false} RunBalances(capacity: nat, run: seq<Pair>)
    requires IsRun(capacity, run) && Sound(run[0].left.rows) && Sound(run[0].right.rows)
    ensures Running(run[|run| - 1]) && BothBalance(run[0], run[|run| - 1])
    decreases |run|
  {
    hide BothBalance, Running, Step;
    if |run| == 1 {
      StartRuns(run[0]);
      StartBalances(run[0]);
    } else {
      hide Start;
      var before, i := run[..|run| - 1], |run| - 2;
      RunBalances(capacity, before);
      assert Step(capacity, run[i], run[i + 1]);
      StepBalances(capacity, run[0], run[i], run[i + 1]);
    }
  }

  /** What one side has counted of what it received. */
  ghost predicate CountsTruly(y0: Side, y: Side) {
    && y.end.got.stored == |y.rows| - |y0.rows|
    && y.end.got.forked == |y.quarantine| - |y0.quarantine|
    && y.end.got.duplicates == y.end.received - (|y.rows| - |y0.rows|) - (|y.quarantine| - |y0.quarantine|)
  }

  /** At any moment of any exchange, forked archives included: what a side counts as
      stored is by how much its table has grown, what it counts as forked by how much
      its quarantine has, and what it counts as duplicates is all else it received. At
      the end that is all the other side sent. */
  lemma EveryExchangeCounts(capacity: nat, run: seq<Pair>)
    requires IsRun(capacity, run) && Sound(run[0].left.rows) && Sound(run[0].right.rows)
    ensures var p0, p := run[0], run[|run| - 1];
            && CountsTruly(p0.left, p.left) && CountsTruly(p0.right, p.right)
            && (Finished(p) ==> p.left.end.received == p.right.end.sent && p.right.end.received == p.left.end.sent)
  {
    RunBalances(capacity, run);
  }

  ghost predicate Counted(p0: Pair, p: Pair) {
    && Owes(p.left.end, p0.right.end.mine.vector) && Owes(p.right.end, p0.left.end.mine.vector)
    && Balances(p.left.end, p0.right, p.right) && Balances(p.right.end, p0.left, p.left)
  }

  ghost predicate Peaceful(world: set<Record>, p0: Pair) {
    && Meeting(world, p0) && Dense(p0.left.rows) && Dense(p0.right.rows) && Agree(p0.left.rows, p0.right.rows)
  }

  lemma ReceiveKeepsCounts(s: Side, f: Frame)
    ensures var e := Receive(s, f).end;
            e.mine == s.end.mine && e.sender == s.end.sender && e.sent == s.end.sent && e.outbox == s.end.outbox
  {}

  lemma MoveKeepsCount(world: set<Record>, capacity: nat, p0: Pair, p: Pair, p': Pair)
    requires Peaceful(world, p0) && Exchanging(world, p0, p) && Counted(p0, p) && LeftMoves(capacity, p, p')
    ensures Counted(p0, p')
  {
    if LeftSends(capacity, p, p') {
      SendKeepsOwing(p0.left, p0.right, p.left, p'.left.end);
      SendBalances(p.left.rows, p.left.end, p'.left.end, p0.right, p.right);
      SendKeepsReceipts(p.left.rows, p.left.end, p'.left.end);
    } else {
      ReceiveKeepsCounts(p.left, p.right.end.outbox[0]);
      ReadBalances(p.right.end, p0.left, p.left);
    }
  }

  lemma SendKeepsReceipts(t: Table, e: End, e': End)
    requires SenderStep(t, e, e')
    ensures e'.received == e.received && e'.got == e.got
  {}

  lemma StepKeepsCount(world: set<Record>, capacity: nat, p0: Pair, p: Pair, p': Pair)
    requires Peaceful(world, p0) && Exchanging(world, p0, p) && Counted(p0, p) && Step(capacity, p, p')
    ensures Counted(p0, p')
  {
    if LeftMoves(capacity, p, p') {
      MoveKeepsCount(world, capacity, p0, p, p');
    } else {
      SwapPeaceful(world, p0);
      SwapExchanging(world, p0, p);
      MoveKeepsCount(world, capacity, Swap(p0), Swap(p), Swap(p'));
    }
  }

  lemma SwapPeaceful(world: set<Record>, p0: Pair)
    requires Peaceful(world, p0)
    ensures Peaceful(world, Swap(p0))
  {
    AgreeSwaps(p0.left.rows, p0.right.rows);
  }

  lemma SwapExchanging(world: set<Record>, p0: Pair, p: Pair)
    requires Exchanging(world, p0, p)
    ensures Exchanging(world, Swap(p0), Swap(p))
  {}

  lemma AgreeSwaps(a: Table, b: Table)
    requires Agree(a, b)
    ensures Agree(b, a)
  {
    forall id ensures !Disagree(b, a, id) {
      assert !Disagree(a, b, id);
    }
  }

  lemma StartCounts(p: Pair)
    requires Start(p)
    ensures Counted(p, p)
  {}

  lemma PeacefulMeets(world: set<Record>, p0: Pair)
    requires Peaceful(world, p0)
    ensures Meeting(world, p0)
  {}

  lemma {:induction false} RunKeepsCount(world: set<Record>, capacity: nat, run: seq<Pair>)
    requires IsRun(capacity, run) && Peaceful(world, run[0])
    ensures Counted(run[0], run[|run| - 1])
    decreases |run|
  {
    hide Counted, Peaceful, Step, Exchanging;
    if |run| == 1 {
      StartCounts(run[0]);
    } else {
      var before, i := run[..|run| - 1], |run| - 2;
      RunKeepsCount(world, capacity, before);
      PeacefulMeets(world, run[0]);
      hide Meeting, Start;
      RunDelivers(world, capacity, before);
      assert Step(capacity, run[i], run[i + 1]);
      StepKeepsCount(world, capacity, run[0], run[i], run[i + 1]);
    }
  }

  /** What one side did and gained. */
  ghost predicate Settles(own0: Side, peer0: Side, own: Side, peer: Side) {
    && own.end.sent == Ahead(own0.end.mine.vector, peer0.end.mine.vector)
    && peer.end.received == own.end.sent && peer.end.got.stored == own.end.sent
    && peer.end.got.duplicates == 0 && peer.end.got.forked == 0
    && own.quarantine == own0.quarantine
    && Ahead(Vector(own.rows, own.origin), Vector(peer.rows, peer.origin)) == 0
  }

  /** Both gap-free at the higher watermark of every origin, with the same rows. */
  ghost predicate Level(p0: Pair, p: Pair) {
    && p.left.rows.Keys == p.right.rows.Keys == p0.left.rows.Keys + p0.right.rows.Keys
    && Dense(p.left.rows) && Dense(p.right.rows) && Agree(p.left.rows, p.right.rows)
    && forall o :: Watermark(p.left.rows, o) == Larger(Watermark(p0.left.rows, o), Watermark(p0.right.rows, o)) == Watermark(p.right.rows, o)
  }

  /** Between archives that do not conflict, a finished exchange leaves both
      gap-free at the higher watermark of every origin with nothing quarantined.
      Each side has sent exactly the records it was reported ahead by, the other
      has stored exactly those, and neither is ahead of the other any more. */
  lemma PeacefulExchange(world: set<Record>, capacity: nat, run: seq<Pair>)
    requires IsRun(capacity, run) && Peaceful(world, run[0]) && Finished(run[|run| - 1])
    ensures Level(run[0], run[|run| - 1])
    ensures Settles(run[0].left, run[0].right, run[|run| - 1].left, run[|run| - 1].right)
    ensures Settles(run[0].right, run[0].left, run[|run| - 1].right, run[|run| - 1].left)
  {
    var p0, p := run[0], run[|run| - 1];
    RunKeepsCount(world, capacity, run);
    RunDelivers(world, capacity, run);
    ExchangeOutcome(world, capacity, run);
    PeacefulEnd(world, p0, p);
  }

  lemma PeacefulEnd(world: set<Record>, p0: Pair, p: Pair)
    requires Peaceful(world, p0) && Exchanging(world, p0, p) && Counted(p0, p) && Completed(p0, p) && Finished(p)
    ensures Level(p0, p) && Settles(p0.left, p0.right, p.left, p.right) && Settles(p0.right, p0.left, p.right, p.left)
  {
    EndsLevel(p0, p);
    EndSettles(world, p0, p);
    SwapPeaceful(world, p0);
    SwapExchanging(world, p0, p);
    EndSettles(world, Swap(p0), Swap(p));
  }

  lemma EndsLevel(p0: Pair, p: Pair)
    requires Start(p0) && Dense(p0.left.rows) && Dense(p0.right.rows) && Sound(p0.left.rows) && Sound(p0.right.rows)
    requires Agree(p0.left.rows, p0.right.rows) && Completed(p0, p)
    ensures Level(p0, p)
  {
    BothReachTheMaximum(p0, p);
    StillAgree(p0.left.rows, p0.right.rows, p.left.rows, p.right.rows);
  }

  lemma EndSettles(world: set<Record>, p0: Pair, p: Pair)
    requires Peaceful(world, p0) && Exchanging(world, p0, p) && Counted(p0, p) && Completed(p0, p) && Finished(p)
    requires p.left.rows.Keys == p.right.rows.Keys == p0.left.rows.Keys + p0.right.rows.Keys
    ensures Settles(p0.left, p0.right, p.left, p.right)
  {
    NothingNoted(p0.left.rows, p0.right.rows, p0.left.quarantine, p.left.quarantine);
    RowsGained(p0.left, p0.right, p.right.rows);
    LevelVectors(p.left, p.right);
    SumsUp(p0.left, p0.right, p.left, p.right);
  }

  lemma RowsGained(own0: Side, peer0: Side, b: Table)
    requires Opening(own0) && Opening(peer0) && Dense(own0.rows) && Dense(peer0.rows)
    requires b.Keys == own0.rows.Keys + peer0.rows.Keys
    ensures |b| - |peer0.rows| == Ahead(own0.end.mine.vector, peer0.end.mine.vector)
  {
    AheadCountsRows(own0.rows, peer0.rows, own0.origin, peer0.origin);
    GainIsLack(own0.rows, peer0.rows, b);
  }

  lemma SumsUp(own0: Side, peer0: Side, own: Side, peer: Side)
    requires own.end.mine == own0.end.mine && own.end.sender.Closed? && own.end.outbox == []
    requires Owes(own.end, peer0.end.mine.vector) && Balances(own.end, peer0, peer)
    requires |peer.rows| - |peer0.rows| == Ahead(own0.end.mine.vector, peer0.end.mine.vector)
    requires own.quarantine == own0.quarantine
    requires Ahead(Vector(own.rows, own.origin), Vector(peer.rows, peer.origin)) == 0
    ensures Settles(own0, peer0, own, peer)
  {}

  lemma GainIsLack(a0: Table, b0: Table, b: Table)
    requires b.Keys == a0.Keys + b0.Keys
    ensures |b| - |b0| == |a0.Keys - b0.Keys|
  {
    assert b.Keys == b0.Keys + (a0.Keys - b0.Keys);
    assert |b| == |b.Keys| && |b0| == |b0.Keys|;
  }

  lemma StillAgree(a0: Table, b0: Table, a: Table, b: Table)
    requires Agree(a0, b0) && Inherits(a, a0, b0) && Inherits(b, b0, a0)
    ensures Agree(a, b)
  {
    forall id ensures !Disagree(a, b, id) {
      assert !Disagree(a0, b0, id);
    }
  }

  lemma NothingNoted(own: Table, peers: Table, before: seq<Record>, quarantine: seq<Record>)
    requires Agree(own, peers) && Noted(own, peers, before, quarantine)
    ensures quarantine == before
  {
    if |before| < |quarantine| {
      assert Conflicts(peers, own, quarantine[|before|]);
      assert Disagree(own, peers, IdOf(quarantine[|before|]));
    }
  }

  lemma LevelVectors(own: Side, peer: Side)
    requires own.rows.Keys == peer.rows.Keys
    ensures Ahead(Vector(own.rows, own.origin), Vector(peer.rows, peer.origin)) == 0
  {
    var va, vb := Vector(own.rows, own.origin), Vector(peer.rows, peer.origin);
    forall o | o in va ensures va[o] <= Told(vb, o) {
      VectorAt(own.rows, own.origin, o);
      VectorAt(peer.rows, peer.origin, o);
      assert Held(own.rows, o) == Held(peer.rows, o);
    }
    NothingAhead(va, vb);
  }

  // ---- Afterwards ----

  /** Until the next exchange the health report still goes by the vector the peer
      announced at the start of this one: it shows this side behind by nothing and
      ahead by exactly what it has just sent. */
  lemma StaleLag(world: set<Record>, capacity: nat, run: seq<Pair>)
    requires IsRun(capacity, run) && Peaceful(world, run[0]) && Finished(run[|run| - 1])
    ensures var mine, told := Vector(run[|run| - 1].left.rows, run[|run| - 1].left.origin), run[0].right.end.mine.vector;
            Ahead(told, mine) == 0 && Ahead(mine, told) == run[|run| - 1].left.end.sent
  {
    PeacefulExchange(world, capacity, run);
    RunDelivers(world, capacity, run);
    var p0, p := run[0], run[|run| - 1];
    AheadCountsRows(p0.right.rows, p.left.rows, p0.right.origin, p.left.origin);
    AheadCountsRows(p.left.rows, p0.right.rows, p.left.origin, p0.right.origin);
    AheadCountsRows(p0.left.rows, p0.right.rows, p0.left.origin, p0.right.origin);
    assert p0.right.rows.Keys - p.left.rows.Keys == {};
    assert p.left.rows.Keys - p0.right.rows.Keys == p0.left.rows.Keys - p0.right.rows.Keys;
  }

  /** A second exchange with nothing collected in between sends nothing, either
      way, and changes neither archive. */
  lemma SecondExchangeIsSilent(world: set<Record>, c1: nat, first: seq<Pair>, c2: nat, second: seq<Pair>)
    requires IsRun(c1, first) && Peaceful(world, first[0]) && Finished(first[|first| - 1])
    requires IsRun(c2, second) && Follows(first[|first| - 1], second[0]) && Finished(second[|second| - 1])
    ensures var p, q := first[|first| - 1], second[|second| - 1];
            && q.left.end.sent == 0 && q.right.end.sent == 0
            && q.left.rows == p.left.rows && q.right.rows == p.right.rows
            && q.left.quarantine == p.left.quarantine && q.right.quarantine == p.right.quarantine
  {
    PeacefulExchange(world, c1, first);
    StillPeaceful(world, c1, first, second[0]);
    PeacefulExchange(world, c2, second);
    ExchangeOutcome(world, c2, second);
    SameKeysSameRows(second[0].left.rows, second[0].right.rows, second[|second| - 1].left.rows);
    SameKeysSameRows(second[0].right.rows, second[0].left.rows, second[|second| - 1].right.rows);
    LevelVectors(second[0].left, second[0].right);
    LevelVectors(second[0].right, second[0].left);
  }

  lemma StillPeaceful(world: set<Record>, capacity: nat, run: seq<Pair>, q0: Pair)
    requires IsRun(capacity, run) && Peaceful(world, run[0]) && Finished(run[|run| - 1])
    requires Start(q0) && Follows(run[|run| - 1], q0)
    ensures Peaceful(world, q0)
  {
    var p0, p := run[0], run[|run| - 1];
    PeacefulExchange(world, capacity, run);
    ExchangeOutcome(world, capacity, run);
    InheritedFrom(world, p0.left.rows, p0.right.rows, p.left.rows);
    InheritedFrom(world, p0.right.rows, p0.left.rows, p.right.rows);
    ValuesWithin(world, q0.left.rows, q0.right.rows);
  }

  lemma SameKeysSameRows(own: Table, peers: Table, t: Table)
    requires Inherits(t, own, peers) && own.Keys == peers.Keys && t.Keys == own.Keys + peers.Keys
    ensures t == own
  {}
}
