/** A fault-free exchange, over a channel of any capacity, is never stuck and
    always ends with both senders and both receivers finished. */
module Liveness {
  import opened Records
  import opened Sets
  import opened Store
  import opened Exchange

  // ---- What is on the wire ----

  ghost predicate Announced(e: End) {
    !e.sender.Surveying? && !e.sender.Announcing?
  }

  /** Frame `i` of what `x` has written stands where it may: the vector first and
      unread, the done frame last, well-formed records in between. */
  ghost predicate InPlace(x: End, y: End, i: nat)
    requires i < |x.outbox|
  {
    match x.outbox[i]
    case VectorFrame(said) => i == 0 && y.theirs.None? && said == x.mine
    case RecordsFrame(records) => forall r :: r in records ==> Addressed(r)
    case DoneFrame => x.sender.Closed? && i == |x.outbox| - 1
  }

  /** The direction from `x` to `y`: the vector is either waiting in front or has
      been read, and `y` stops reading exactly when the done frame has been read. */
  ghost predicate Flow(x: End, y: End) {
    && !x.sender.Surveying?
    && (!Announced(x) ==> x.outbox == [] && y.theirs.None?)
    && (Announced(x) && y.theirs.None? ==> x.outbox != [] && x.outbox[0].VectorFrame?)
    && (y.theirs.Some? ==> y.theirs.value == x.mine)
    && (forall i :: 0 <= i < |x.outbox| ==> InPlace(x, y, i))
    && (!y.reading <==> x.sender.Closed? && x.outbox == [])
    && (x.sender.Closed? && x.outbox != [] ==> x.outbox[|x.outbox| - 1].DoneFrame?)
    && (x.sender.Walking? || x.sender.Streaming? || x.sender.Closed? ==> x.theirs.Some?)
  }

  ghost predicate Running(p: Pair) {
    && Sound(p.left.rows) && Sound(p.right.rows)
    && Flow(p.left.end, p.right.end) && Flow(p.right.end, p.left.end)
  }

  lemma SendKeepsFlow(t: Table, x: End, x': End, y: End)
    requires WellKeyed(t) && Flow(x, y) && SenderStep(t, x, x')
    ensures Flow(x', y)
    ensures x'.theirs == x.theirs && x'.reading == x.reading
  {
    if x.sender.Streaming? {
      SinceIsNextStretch(t, x.sender.origin, x.sender.after, BATCH_SIZE);
    }
    forall i | 0 <= i < |x'.outbox| ensures InPlace(x', y, i) {
      if i < |x.outbox| {
        assert InPlace(x, y, i);
      }
    }
  }

  lemma ReceiveKeepsFlow(x: End, s: Side)
    requires Sound(s.rows) && Flow(x, s.end) && s.end.reading && x.outbox != []
    ensures var s' := Receive(s, x.outbox[0]);
            && Sound(s'.rows)
            && Flow(x.(outbox := x.outbox[1..]), s'.end)
            && s'.end.mine == s.end.mine && s'.end.sender == s.end.sender && s'.end.outbox == s.end.outbox
            && (s.end.theirs.Some? ==> s'.end.theirs == s.end.theirs)
  {
    assert InPlace(x, s.end, 0);
    var s', x' := Receive(s, x.outbox[0]), x.(outbox := x.outbox[1..]);
    if x.outbox[0].RecordsFrame? {
      RemoteAppendMerges(s.rows, s.quarantine, x.outbox[0].records);
    }
    forall i | 0 <= i < |x'.outbox| ensures InPlace(x', s'.end, i) {
      assert InPlace(x, s.end, i + 1);
    }
    if |x.outbox| == 1 && x.sender.Closed? {
      assert x.outbox[0] == x.outbox[|x.outbox| - 1];
    }
  }

  /** A direction does not depend on what its reader writes or its writer reads,
      except that a vector once read stays read. */
  lemma FlowFrame(x: End, y: End, x': End, y': End)
    requires Flow(x, y)
    requires x'.mine == x.mine && x'.sender == x.sender && x'.outbox == x.outbox && (x.theirs.Some? ==> x'.theirs.Some?)
    requires y'.theirs == y.theirs && y'.reading == y.reading
    ensures Flow(x', y')
  {
    forall i | 0 <= i < |x'.outbox| ensures InPlace(x', y', i) {
      assert InPlace(x, y, i);
    }
  }

  lemma MovesKeepRunning(capacity: nat, p: Pair, p': Pair)
    requires Running(p) && LeftMoves(capacity, p, p')
    ensures Running(p')
  {
    if LeftSends(capacity, p, p') {
      SendKeepsFlow(p.left.rows, p.left.end, p'.left.end, p.right.end);
      FlowFrame(p.right.end, p.left.end, p'.right.end, p'.left.end);
    } else {
      ReceiveKeepsFlow(p.right.end, p.left);
      FlowFrame(p.left.end, p.right.end, p'.left.end, p'.right.end);
    }
  }

  lemma StepKeepsRunning(capacity: nat, p: Pair, p': Pair)
    requires Running(p) && Step(capacity, p, p')
    ensures Running(p')
  {
    if LeftMoves(capacity, p, p') {
      MovesKeepRunning(capacity, p, p');
    } else {
      MovesKeepRunning(capacity, Swap(p), Swap(p'));
    }
  }

  // ---- No stuck state ----

  /** With nothing of its own unread, a sender that is not closed can move, unless
      it waits for a vector that the peer has yet to write. */
  lemma SenderCanMove(s: Side, y: End, capacity: nat)
    requires Flow(s.end, y) && Flow(y, s.end) && !s.end.sender.Closed?
    requires s.end.outbox == [] && y.outbox == []
    requires s.end.sender.Waiting? ==> Announced(y)
    ensures exists e' :: SenderStep(s.rows, s.end, e')
  {
    var e := s.end;
    match e.sender
    case Announcing =>
      assert SenderStep(s.rows, e, Write(e, VectorFrame(e.mine), Waiting));
    case Waiting =>
      assert SenderStep(s.rows, e, Begin(e));
    case Walking(todo) =>
      if todo == {} {
        assert SenderStep(s.rows, e, Write(e, DoneFrame, Closed));
      } else {
        var o :| o in todo;
        assert SenderStep(s.rows, e, Choose(e, e.theirs.value, o));
      }
    case Streaming(_, _, _) =>
      assert SenderStep(s.rows, e, SendBatch(s.rows, e));
  }

  lemma LeftProgress(capacity: nat, p: Pair)
    requires Running(p)
    requires p.right.end.outbox != [] ||
             (p.left.end.outbox == [] && !p.left.end.sender.Closed? && (p.left.end.sender.Waiting? ==> Announced(p.right.end)))
    ensures exists p' :: LeftMoves(capacity, p, p')
  {
    if p.right.end.outbox != [] {
      var p' := Pair(Receive(p.left, p.right.end.outbox[0]),
                     p.right.(end := p.right.end.(outbox := p.right.end.outbox[1..])));
      assert LeftMoves(capacity, p, p');
    } else {
      SenderCanMove(p.left, p.right.end, capacity);
      var e' :| SenderStep(p.left.rows, p.left.end, e');
      var p' := p.(left := p.left.(end := e'));
      assert LeftMoves(capacity, p, p');
    }
  }

  /** Some goroutine can always move until all four are finished. */
  lemma NeverStuck(capacity: nat, p: Pair)
    requires Running(p) && !Finished(p)
    ensures exists p' :: Step(capacity, p, p')
  {
    var l, r := p.left.end, p.right.end;
    if r.outbox != [] || (l.outbox == [] && !l.sender.Closed? && (l.sender.Waiting? ==> Announced(r))) {
      LeftProgress(capacity, p);
      var p' :| LeftMoves(capacity, p, p');
      assert Step(capacity, p, p');
    } else {
      LeftProgress(capacity, Swap(p));
      var q :| LeftMoves(capacity, Swap(p), q);
      assert Swap(Swap(q)) == q;
      assert Step(capacity, p, Swap(q));
    }
  }

  // ---- The end comes ----

  /** Every position either archive can ever hold in this exchange. */
  ghost predicate Within(world: set<Id>, p: Pair) {
    && p.left.rows.Keys <= world && p.right.rows.Keys <= world
    && Carries(world, p.left.end.outbox) && Carries(world, p.right.end.outbox)
  }

  ghost predicate Carries(world: set<Id>, q: seq<Frame>) {
    forall i :: 0 <= i < |q| && q[i].RecordsFrame? ==> forall r :: r in q[i].records ==> IdOf(r) in world
  }

  ghost function Beyond(world: set<Id>, o: Origin, after: int): set<Id> {
    set id | id in world && id.origin == o && after < id.num
  }

  /** An upper bound on the steps a sender has left. */
  ghost function Work(world: set<Id>, e: End): nat {
    var whole := (|world| + 2) * |e.mine.vector|;
    match e.sender
    case Surveying(_) => 4 + whole
    case Announcing => 3 + whole
    case Waiting => 2 + whole
    case Walking(todo) => 1 + (|world| + 2) * |todo|
    case Streaming(o, after, todo) => 2 + (|world| + 2) * |todo| + |Beyond(world, o, after)|
    case Closed => 0
  }

  ghost function Rank(world: set<Id>, p: Pair): nat {
    2 * Work(world, p.left.end) + |p.left.end.outbox| + 2 * Work(world, p.right.end) + |p.right.end.outbox|
  }

  lemma OneFewer(n: nat, todo: set<Origin>, o: Origin)
    requires o in todo
    ensures n * |todo| == n * |todo - {o}| + n
  {
    assert todo == (todo - {o}) + {o};
    assert |todo| == |todo - {o}| + 1;
  }

  lemma BeyondShrinks(world: set<Id>, o: Origin, after: int, id: Id)
    requires id in world && id.origin == o && after < id.num
    ensures |Beyond(world, o, id.num)| < |Beyond(world, o, after)|
  {
    assert id in Beyond(world, o, after) && id !in Beyond(world, o, id.num);
    ProperSubsetIsSmaller(Beyond(world, o, id.num), Beyond(world, o, after));
  }

  lemma ChoosingIsWork(world: set<Id>, x: End, theirs: Announcement, o: Origin)
    requires x.sender.Walking? && o in x.sender.todo
    ensures Work(world, Choose(x, theirs, o)) < Work(world, x)
  {
    OneFewer(|world| + 2, x.sender.todo, o);
    var x' := Choose(x, theirs, o);
    if x'.sender.Streaming? {
      SubsetIsNoLarger(Beyond(world, o, x'.sender.after), world);
    }
  }

  lemma StreamingIsWork(world: set<Id>, t: Table, x: End)
    requires WellKeyed(t) && t.Keys <= world && x.sender.Streaming? && Carries(world, x.outbox)
    ensures var x' := SendBatch(t, x);
            Carries(world, x'.outbox) && Work(world, x') < Work(world, x) && |x'.outbox| <= |x.outbox| + 1
  {
    var o, after := x.sender.origin, x.sender.after;
    SinceIsNextStretch(t, o, after, BATCH_SIZE);
    var batch := Since(t, o, after, BATCH_SIZE);
    if batch != [] {
      var last := batch[|batch| - 1];
      assert last in batch;
      BeyondShrinks(world, o, after, IdOf(last));
    }
  }

  lemma SendingIsWork(world: set<Id>, t: Table, x: End, x': End)
    requires WellKeyed(t) && t.Keys <= world && SenderStep(t, x, x') && !x.sender.Surveying?
    requires Carries(world, x.outbox)
    ensures Carries(world, x'.outbox)
    ensures Work(world, x') < Work(world, x) && |x'.outbox| <= |x.outbox| + 1
  {
    match x.sender
    case Walking(todo) =>
      if todo != {} {
        var o :| o in todo && x' == Choose(x, x.theirs.value, o);
        ChoosingIsWork(world, x, x.theirs.value, o);
      }
    case Streaming(_, _, _) =>
      StreamingIsWork(world, t, x);
    case Waiting =>
      assert |x.mine.vector| == |x.mine.vector.Keys|;
    case _ =>
  }

  lemma ReadRowsWithin(world: set<Id>, s: Side, recs: seq<Record>)
    requires Sound(s.rows) && s.rows.Keys <= world
    requires forall r :: r in recs ==> Addressed(r) && IdOf(r) in world
    ensures RemoteBatch(s.rows, s.quarantine, recs).rows.Keys <= world
  {
    RemoteAppendMerges(s.rows, s.quarantine, recs);
    var t := RemoteBatch(s.rows, s.quarantine, recs).rows;
    forall id | id in t ensures id in world {
      if id !in s.rows {
        assert t[id] in recs && IdOf(t[id]) == id;
      } else {
        assert id in s.rows.Keys;
      }
    }
  }

  lemma EndWorks(world: set<Id>, e: End, e': End)
    requires e'.sender == e.sender && e'.mine == e.mine
    ensures Work(world, e') == Work(world, e)
  {}

  lemma ReadingKeepsWithin(world: set<Id>, s: Side, q: seq<Frame>)
    requires Sound(s.rows) && s.rows.Keys <= world && q != [] && Carries(world, q)
    ensures var s' := Receive(s, q[0]);
            && s'.rows.Keys <= world && Carries(world, q[1..])
            && Work(world, s'.end) == Work(world, s.end) && s'.end.outbox == s.end.outbox
  {
    hide Work, Sound, RemoteBatch;
    if q[0].RecordsFrame? && forall r :: r in q[0].records ==> Addressed(r) {
      ReadRowsWithin(world, s, q[0].records);
    }
    EndWorks(world, s.end, Receive(s, q[0]).end);
    forall i | 0 <= i < |q[1..]| && q[1..][i].RecordsFrame?
      ensures forall r :: r in q[1..][i].records ==> IdOf(r) in world
    {
      assert q[1..][i] == q[i + 1];
    }
  }

  lemma MovesAreWork(world: set<Id>, capacity: nat, p: Pair, p': Pair)
    requires Running(p) && Within(world, p) && LeftMoves(capacity, p, p')
    ensures Within(world, p') && Rank(world, p') < Rank(world, p)
  {
    if LeftSends(capacity, p, p') {
      SendingIsWork(world, p.left.rows, p.left.end, p'.left.end);
    } else {
      ReadingKeepsWithin(world, p.left, p.right.end.outbox);
    }
  }

  /** Every step brings the end nearer. */
  lemma StepIsWork(world: set<Id>, capacity: nat, p: Pair, p': Pair)
    requires Running(p) && Within(world, p) && Step(capacity, p, p')
    ensures Running(p') && Within(world, p') && Rank(world, p') < Rank(world, p)
  {
    StepKeepsRunning(capacity, p, p');
    if LeftMoves(capacity, p, p') {
      MovesAreWork(world, capacity, p, p');
    } else {
      MovesAreWork(world, capacity, Swap(p), Swap(p'));
    }
  }

  lemma StartRuns(p: Pair)
    requires Start(p) && Sound(p.left.rows) && Sound(p.right.rows)
    ensures Running(p) && Within(p.left.rows.Keys + p.right.rows.Keys, p)
  {}

  lemma {:induction false} RunShrinks(capacity: nat, run: seq<Pair>, world: set<Id>)
    requires IsRun(capacity, run) && Sound(run[0].left.rows) && Sound(run[0].right.rows)
    requires world == run[0].left.rows.Keys + run[0].right.rows.Keys
    ensures var p := run[|run| - 1];
            Running(p) && Within(world, p) && Rank(world, p) + |run| - 1 <= Rank(world, run[0])
    decreases |run|
  {
    if |run| == 1 {
      StartRuns(run[0]);
    } else {
      var before := run[..|run| - 1];
      RunShrinks(capacity, before, world);
      var i := |run| - 2;
      assert Step(capacity, run[i], run[i + 1]);
      StepIsWork(world, capacity, run[i], run[i + 1]);
    }
  }

  ghost predicate Stuck(capacity: nat, p: Pair) {
    forall p' :: !Step(capacity, p, p')
  }

  /** Whatever the scheduling and whatever the capacity, zero included: no run is
      longer than a bound fixed at the start, and a run that cannot go on has
      finished on both sides. */
  lemma ExchangeTerminates(capacity: nat, run: seq<Pair>)
    requires IsRun(capacity, run) && Sound(run[0].left.rows) && Sound(run[0].right.rows)
    ensures |run| <= Rank(run[0].left.rows.Keys + run[0].right.rows.Keys, run[0]) + 1
    ensures Stuck(capacity, run[|run| - 1]) <==> Finished(run[|run| - 1])
  {
    var p := run[|run| - 1];
    RunShrinks(capacity, run, run[0].left.rows.Keys + run[0].right.rows.Keys);
    if !Finished(p) {
      NeverStuck(capacity, p);
    }
  }

  lemma Extend(capacity: nat, run: seq<Pair>, p': Pair)
    requires IsRun(capacity, run) && Step(capacity, run[|run| - 1], p')
    ensures IsRun(capacity, run + [p']) && run <= run + [p']
  {}

  /** Every run can be carried on until both sides have finished. */
  lemma {:induction false} RunCanFinish(capacity: nat, run: seq<Pair>, world: set<Id>) returns (whole: seq<Pair>)
    requires IsRun(capacity, run) && Sound(run[0].left.rows) && Sound(run[0].right.rows)
    requires world == run[0].left.rows.Keys + run[0].right.rows.Keys
    ensures run <= whole && IsRun(capacity, whole) && Finished(whole[|whole| - 1])
    decreases Rank(world, run[|run| - 1])
  {
    hide Step, Rank, Running, Within;
    var p := run[|run| - 1];
    RunShrinks(capacity, run, world);
    if Finished(p) {
      return run;
    }
    NeverStuck(capacity, p);
    var p' :| Step(capacity, p, p');
    StepIsWork(world, capacity, p, p');
    Extend(capacity, run, p');
    whole := RunCanFinish(capacity, run + [p'], world);
  }
}
