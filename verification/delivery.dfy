/** What a finished exchange has delivered, for any two archives, forked or not. */
module Delivery {
  import opened Records
  import opened Sets
  import opened Digests
  import opened Store
  import opened Exchange
  import opened Liveness

  /** No line sits at two positions, within either archive or across them. */
  ghost predicate OnePlace(world: set<Record>) {
    forall a, b {:trigger SameLine(a, b)} :: a in world && b in world && SameLine(a, b) ==> IdOf(a) == IdOf(b)
  }

  /** The archive kept every row it started with, and anything else is the peer's. */
  ghost predicate Inherits(t: Table, own: Table, peers: Table) {
    && (forall id :: id in own ==> id in t && t[id] == own[id])
    && (forall id :: id in t && id !in own ==> id in peers && t[id] == peers[id])
  }

  /** The position is held with this content, or this very record is kept as
      evidence against what is held there. */
  ghost predicate Arrived(t: Table, quarantine: seq<Record>, r: Record) {
    IdOf(r) in t && (t[IdOf(r)].line.hash == r.line.hash || r in quarantine)
  }

  ghost predicate OnTheWire(q: seq<Frame>, r: Record) {
    exists i :: 0 <= i < |q| && q[i].RecordsFrame? && r in q[i].records
  }

  /** The sender is to send this position at all. */
  ghost predicate Due(mine: Announcement, theirs: Announcement, id: Id) {
    0 <= StartAfter(mine, theirs, id.origin) < id.num
  }

  /** The sender's walk has gone past this position. */
  ghost predicate Passed(s: Sender, id: Id) {
    match s
    case Walking(todo) => id.origin !in todo
    case Streaming(o, after, todo) => if id.origin == o then id.num <= after else id.origin !in todo
    case Closed => true
    case _ => false
  }

  ghost predicate Genuine(t: Table, q: seq<Frame>) {
    forall i :: 0 <= i < |q| && q[i].RecordsFrame? ==>
      forall r :: r in q[i].records ==> IdOf(r) in t && t[IdOf(r)] == r
  }

  ghost predicate DeliversSoFar(own: Table, e: End, t: Table, quarantine: seq<Record>) {
    forall id :: id in own && e.theirs.Some? && Due(e.mine, e.theirs.value, id) && Passed(e.sender, id) ==>
      Arrived(t, quarantine, own[id]) || OnTheWire(e.outbox, own[id])
  }

  /** All the evidence a side gathers is of positions where the two archives it
      comes from disagreed to begin with. */
  ghost predicate Noted(own: Table, peers: Table, before: seq<Record>, quarantine: seq<Record>) {
    && before <= quarantine
    && forall i :: |before| <= i < |quarantine| ==> Conflicts(peers, own, quarantine[i])
  }

  /** `r` is a row of `theirs`, and `mine` holds something else there. */
  ghost predicate Conflicts(theirs: Table, mine: Table, r: Record) {
    IdOf(r) in theirs && theirs[IdOf(r)] == r && Evidence(mine, r)
  }

  /** The direction from `x`, which started with `own`, to `y`. */
  ghost predicate Delivers(own: Table, peers: Table, before: seq<Record>, x: Side, y: Side) {
    && Inherits(x.rows, own, peers)
    && Noted(peers, own, before, y.quarantine)
    && x.end.mine == Announce(own, x.origin)
    && Genuine(x.rows, x.end.outbox)
    && DeliversSoFar(own, x.end, y.rows, y.quarantine)
  }

  // ---- Applying a batch ----

  lemma PlaceArrives(world: set<Record>, run: RemoteRun, r: Record)
    requires OnePlace(world) && r in world && Sound(run.rows)
    requires forall id :: id in run.rows ==> run.rows[id] in world
    ensures var done := PlaceRemote(run, r);
            && Arrived(done.rows, done.quarantine, r)
            && (forall id :: id in done.rows ==> done.rows[id] in world)
            && (forall id :: id in run.rows ==> id in done.rows && done.rows[id] == run.rows[id])
            && run.quarantine <= done.quarantine
  {
    forall id | id in run.rows && SameLine(run.rows[id], r) ensures id == IdOf(r) {
      assert IdOf(run.rows[id]) == IdOf(r);
    }
    var done := PlaceRemote(run, r);
    assert done.quarantine == run.quarantine || done.quarantine == run.quarantine + [r];
  }

  lemma ArrivedStays(t: Table, q: seq<Record>, t': Table, q': seq<Record>, r: Record)
    requires Arrived(t, q, r) && q <= q'
    requires forall id :: id in t ==> id in t' && t'[id] == t[id]
    ensures Arrived(t', q', r)
  {
    if r in q {
      var i :| 0 <= i < |q| && q[i] == r;
      assert q'[i] == r;
    }
  }

  lemma {:induction false} BatchArrives(world: set<Record>, t: Table, quarantine: seq<Record>, recs: seq<Record>)
    requires OnePlace(world) && Sound(t) && (forall r :: r in recs ==> r in world && Addressed(r))
    requires forall id :: id in t ==> t[id] in world
    ensures var run := RemoteBatch(t, quarantine, recs);
            && (forall r :: r in recs ==> Arrived(run.rows, run.quarantine, r))
            && (forall id :: id in run.rows ==> run.rows[id] in world)
            && (forall id :: id in t ==> id in run.rows && run.rows[id] == t[id])
            && quarantine <= run.quarantine
    decreases |recs|
  {
    if recs != [] {
      var before, last := recs[..|recs| - 1], recs[|recs| - 1];
      BatchArrives(world, t, quarantine, before);
      var run := RemoteBatch(t, quarantine, before);
      RemoteAppendMerges(t, quarantine, before);
      PlaceArrives(world, run, last);
      var done := PlaceRemote(run, last);
      forall r | r in recs ensures Arrived(done.rows, done.quarantine, r) {
        if r in before {
          ArrivedStays(run.rows, run.quarantine, done.rows, done.quarantine, r);
        }
      }
    }
  }

  // ---- One step of either goroutine ----

  lemma SendDelivers(own: Table, peers: Table, before: seq<Record>, x: Side, e': End, y: Side)
    requires Sound(x.rows) && Flow(x.end, y.end)
    requires Delivers(own, peers, before, x, y) && SenderStep(x.rows, x.end, e')
    ensures Delivers(own, peers, before, x.(end := e'), y)
  {
    var e := x.end;
    if e.sender.Streaming? {
      SinceIsNextStretch(x.rows, e.sender.origin, e.sender.after, BATCH_SIZE);
    }
    forall id | id in own && e'.theirs.Some? && Due(e'.mine, e'.theirs.value, id) && Passed(e'.sender, id)
      ensures Arrived(y.rows, y.quarantine, own[id]) || OnTheWire(e'.outbox, own[id])
    {
      PassedDelivers(own, x, e', y, id);
    }
  }

  lemma PassedDelivers(own: Table, x: Side, e': End, y: Side, id: Id)
    requires Sound(x.rows) && Flow(x.end, y.end) && SenderStep(x.rows, x.end, e')
    requires DeliversSoFar(own, x.end, y.rows, y.quarantine) && x.end.mine == Announce(own, x.origin)
    requires id in own && id in x.rows && x.rows[id] == own[id]
    requires e'.theirs.Some? && Due(e'.mine, e'.theirs.value, id) && Passed(e'.sender, id)
    ensures Arrived(y.rows, y.quarantine, own[id]) || OnTheWire(e'.outbox, own[id])
  {
    var e := x.end;
    if Passed(e.sender, id) {
      if OnTheWire(e.outbox, own[id]) {
        PendingStays(e.outbox, e'.outbox, own[id]);
      }
    } else if e.sender.Streaming? {
      assert id == Id(e.sender.origin, id.num);
      SinceIsNextStretch(x.rows, e.sender.origin, e.sender.after, BATCH_SIZE);
      assert e'.outbox[|e.outbox|].RecordsFrame?;
      assert own[id] in e'.outbox[|e.outbox|].records;
    } else {
      InVector(own, x.origin, id);
    }
  }

  lemma PendingStays(q: seq<Frame>, q': seq<Frame>, r: Record)
    requires OnTheWire(q, r) && q <= q'
    ensures OnTheWire(q', r)
  {
    var i :| 0 <= i < |q| && q[i].RecordsFrame? && r in q[i].records;
    assert q'[i] == q[i];
  }

  /** The reader of a direction takes its oldest frame. */
  lemma ReadDelivers(world: set<Record>, own: Table, peers: Table, before: seq<Record>, x: Side, y: Side)
    requires OnePlace(world) && own.Values + peers.Values <= world
    requires Sound(x.rows) && Sound(y.rows) && Flow(x.end, y.end) && y.end.reading && x.end.outbox != []
    requires Delivers(own, peers, before, x, y) && Inherits(y.rows, peers, own)
    ensures var y' := Receive(y, x.end.outbox[0]);
            Delivers(own, peers, before, x.(end := x.end.(outbox := x.end.outbox[1..])), y') && Inherits(y'.rows, peers, own)
  {
    var f := x.end.outbox[0];
    var y' := Receive(y, f);
    assert InPlace(x.end, y.end, 0);
    InheritedFrom(world, own, peers, x.rows);
    InheritedFrom(world, peers, own, y.rows);
    if f.RecordsFrame? {
      BatchArrives(world, y.rows, y.quarantine, f.records);
      RemoteAppendMerges(y.rows, y.quarantine, f.records);
    }
    ReadDeliversSoFar(own, x.end, y, y');
    GenuineRest(x.rows, x.end.outbox);
    if f.RecordsFrame? {
      EvidenceIsConflict(own, peers, before, x.rows, f.records, y, y');
    }
    NewRowsAreThePeers(own, peers, x.rows, y.rows, f, y'.rows);
  }

  lemma EvidenceIsConflict(own: Table, peers: Table, before: seq<Record>, xrows: Table, recs: seq<Record>, y: Side, y': Side)
    requires Inherits(xrows, own, peers) && Inherits(y.rows, peers, own) && Noted(peers, own, before, y.quarantine)
    requires forall r :: r in recs ==> IdOf(r) in xrows && xrows[IdOf(r)] == r
    requires Grown(y.rows, recs, y'.rows) && Noticed(y'.rows, y.quarantine, recs, y'.quarantine)
    requires WellKeyed(xrows)
    ensures Noted(peers, own, before, y'.quarantine)
  {
    forall i | |before| <= i < |y'.quarantine| ensures Conflicts(own, peers, y'.quarantine[i]) {
      var r := y'.quarantine[i];
      if i < |y.quarantine| {
        assert r == y.quarantine[i];
      } else {
        assert Evidence(y'.rows, r) && r in recs;
      }
    }
  }

  lemma GenuineRest(t: Table, q: seq<Frame>)
    requires Genuine(t, q) && q != []
    ensures Genuine(t, q[1..])
  {
    forall i | 0 <= i < |q[1..]| && q[1..][i].RecordsFrame?
      ensures forall r :: r in q[1..][i].records ==> IdOf(r) in t && t[IdOf(r)] == r
    {
      assert q[1..][i] == q[i + 1];
    }
  }

  lemma ReadDeliversSoFar(own: Table, e: End, y: Side, y': Side)
    requires e.outbox != [] && DeliversSoFar(own, e, y.rows, y.quarantine)
    requires y.quarantine <= y'.quarantine
    requires forall id :: id in y.rows ==> id in y'.rows && y'.rows[id] == y.rows[id]
    requires e.outbox[0].RecordsFrame? ==> forall r :: r in e.outbox[0].records ==> Arrived(y'.rows, y'.quarantine, r)
    ensures DeliversSoFar(own, e.(outbox := e.outbox[1..]), y'.rows, y'.quarantine)
  {
    var rest := e.outbox[1..];
    forall id | id in own && e.theirs.Some? && Due(e.mine, e.theirs.value, id) && Passed(e.sender, id)
      ensures Arrived(y'.rows, y'.quarantine, own[id]) || OnTheWire(rest, own[id])
    {
      if Arrived(y.rows, y.quarantine, own[id]) {
        ArrivedStays(y.rows, y.quarantine, y'.rows, y'.quarantine, own[id]);
      } else {
        var i :| 0 <= i < |e.outbox| && e.outbox[i].RecordsFrame? && own[id] in e.outbox[i].records;
        if i > 0 {
          assert rest[i - 1] == e.outbox[i];
        }
      }
    }
  }

  lemma InheritedFrom(world: set<Record>, own: Table, peers: Table, t: Table)
    requires Inherits(t, own, peers) && own.Values + peers.Values <= world
    ensures forall id :: id in t ==> t[id] in world
  {
    forall id | id in t ensures t[id] in world {
      if id in own {
        assert own[id] in own.Values;
      } else {
        assert peers[id] in peers.Values;
      }
    }
  }

  lemma NewRowsAreThePeers(own: Table, peers: Table, xrows: Table, yrows: Table, f: Frame, t: Table)
    requires Inherits(xrows, own, peers) && Inherits(yrows, peers, own)
    requires WellKeyed(xrows) && WellKeyed(t)
    requires f.RecordsFrame? ==> forall r :: r in f.records ==> IdOf(r) in xrows && xrows[IdOf(r)] == r
    requires forall id :: id in yrows ==> id in t && t[id] == yrows[id]
    requires forall id :: id in t && id !in yrows ==> f.RecordsFrame? && t[id] in f.records
    ensures Inherits(t, peers, own)
  {
    forall id | id in t && id !in peers ensures id in own && t[id] == own[id] {
      if id !in yrows {
        assert IdOf(t[id]) == id;
      }
    }
  }

  /** What the other direction does while the reader's archive grows. */
  lemma GrowthKeepsDelivers(own: Table, peers: Table, before: seq<Record>, x: Side, x': Side, y: Side, y': Side)
    requires Delivers(own, peers, before, x, y) && Inherits(x'.rows, own, peers)
    requires x'.origin == x.origin && x'.end.mine == x.end.mine && x'.end.sender == x.end.sender && x'.end.outbox == x.end.outbox
    requires x.end.theirs.Some? ==> x'.end.theirs == x.end.theirs
    requires x.end.theirs.None? ==> x.end.sender.Surveying? || x.end.sender.Announcing? || x.end.sender.Waiting?
    requires forall id :: id in x.rows ==> id in x'.rows && x'.rows[id] == x.rows[id]
    requires y'.rows == y.rows && y'.quarantine == y.quarantine
    ensures Delivers(own, peers, before, x', y')
  {}

  // ---- Whole runs ----

  ghost predicate Exchanging(world: set<Record>, p0: Pair, p: Pair) {
    && Running(p)
    && Delivers(p0.left.rows, p0.right.rows, p0.right.quarantine, p.left, p.right)
    && Delivers(p0.right.rows, p0.left.rows, p0.left.quarantine, p.right, p.left)
    && p.left.origin == p0.left.origin && p.right.origin == p0.right.origin
  }

  ghost predicate Meeting(world: set<Record>, p0: Pair) {
    && Start(p0) && Sound(p0.left.rows) && Sound(p0.right.rows)
    && OnePlace(world) && p0.left.rows.Values + p0.right.rows.Values <= world
  }

  lemma MoveDelivers(world: set<Record>, capacity: nat, p0: Pair, p: Pair, p': Pair)
    requires Meeting(world, p0) && Exchanging(world, p0, p) && LeftMoves(capacity, p, p')
    ensures Exchanging(world, p0, p')
  {
    MovesKeepRunning(capacity, p, p');
    var a, b := p0.left.rows, p0.right.rows;
    if LeftSends(capacity, p, p') {
      SendDelivers(a, b, p0.right.quarantine, p.left, p'.left.end, p.right);
      GrowthKeepsDelivers(b, a, p0.left.quarantine, p.right, p'.right, p.left, p'.left);
    } else {
      ReadDelivers(world, b, a, p0.left.quarantine, p.right, p.left);
      RemoteKeeps(p.left, p.right.end.outbox[0]);
      GrowthKeepsDelivers(a, b, p0.right.quarantine, p.left, p'.left, p.right, p'.right);
    }
  }

  lemma RemoteKeeps(s: Side, f: Frame)
    requires Sound(s.rows)
    ensures var s' := Receive(s, f);
            && s'.origin == s.origin && s'.end.mine == s.end.mine && s'.end.sender == s.end.sender && s'.end.outbox == s.end.outbox
            && (s.end.theirs.Some? ==> s'.end.theirs == s.end.theirs)
            && (forall id :: id in s.rows ==> id in s'.rows && s'.rows[id] == s.rows[id])
  {
    if f.RecordsFrame? && forall r :: r in f.records ==> Addressed(r) {
      RemoteAppendMerges(s.rows, s.quarantine, f.records);
    }
  }

  lemma StepDelivers(world: set<Record>, capacity: nat, p0: Pair, p: Pair, p': Pair)
    requires Meeting(world, p0) && Exchanging(world, p0, p) && Step(capacity, p, p')
    ensures Exchanging(world, p0, p')
  {
    if LeftMoves(capacity, p, p') {
      MoveDelivers(world, capacity, p0, p, p');
    } else {
      MoveDelivers(world, capacity, Swap(p0), Swap(p), Swap(p'));
    }
  }

  lemma {:induction false} RunDelivers(world: set<Record>, capacity: nat, run: seq<Pair>)
    requires IsRun(capacity, run) && Meeting(world, run[0])
    ensures Exchanging(world, run[0], run[|run| - 1])
    decreases |run|
  {
    if |run| == 1 {
      StartRuns(run[0]);
    } else {
      RunDelivers(world, capacity, run[..|run| - 1]);
      var i := |run| - 2;
      assert Step(capacity, run[i], run[i + 1]);
      StepDelivers(world, capacity, run[0], run[i], run[i + 1]);
    }
  }

  /** What one side ends with, given what both started with. */
  ghost predicate Outcome(own: Side, peer: Side, t: Table, quarantine: seq<Record>) {
    && Sound(t)
    && Inherits(t, own.rows, peer.rows)
    && Noted(own.rows, peer.rows, own.quarantine, quarantine)
    && forall id :: id in peer.rows && Due(peer.end.mine, own.end.mine, id) ==> Arrived(t, quarantine, peer.rows[id])
  }

  ghost predicate Completed(p0: Pair, p: Pair) {
    && Outcome(p0.left, p0.right, p.left.rows, p.left.quarantine)
    && Outcome(p0.right, p0.left, p.right.rows, p.right.quarantine)
  }

  /** After a finished exchange each side still holds everything it held, anything
      new is the peer's, and every record the peer was to send has arrived: stored,
      recognised, or kept as evidence. */
  lemma ExchangeOutcome(world: set<Record>, capacity: nat, run: seq<Pair>)
    requires IsRun(capacity, run) && Meeting(world, run[0]) && Finished(run[|run| - 1])
    ensures Completed(run[0], run[|run| - 1])
  {
    RunDelivers(world, capacity, run);
    var p0, p := run[0], run[|run| - 1];
    AllDelivered(p0.left, p0.right, p.left, p.right);
    AllDelivered(p0.right, p0.left, p.right, p.left);
  }

  lemma AllDelivered(x0: Side, y0: Side, x: Side, y: Side)
    requires Opening(x0) && Opening(y0) && x.origin == x0.origin && y.origin == y0.origin
    requires Flow(x.end, y.end) && Flow(y.end, x.end) && Delivers(x0.rows, y0.rows, y0.quarantine, x, y) && Delivers(y0.rows, x0.rows, x0.quarantine, y, x)
    requires x.end.sender.Closed? && !y.end.reading
    ensures forall id :: id in x0.rows && Due(x0.end.mine, y0.end.mine, id) ==> Arrived(y.rows, y.quarantine, x0.rows[id])
  {
    assert x.end.theirs.value == y.end.mine == y0.end.mine;
    assert x.end.outbox == [];
  }
}
