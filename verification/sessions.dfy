/** One end of one exchange in a mesh where anything may happen in between: what it
    has announced stays true, what it has written arrives in order. */
module Sessions {
  import opened Records
  import opened Sets
  import opened Digests
  import opened Store
  import opened Exchange
  import opened Replicas

  /** A new end surveys its archive before anything is written. */
  function Opened(t: Table, n: Origin): End {
    var vector := Vector(t, n);
    End(Announcement(vector, map[]), Surveying(vector.Keys), [], None, true, 0, 0, NOTHING)
  }

  /** An announcement its author still lives up to: no watermark above what the
      node holds, no digest that is not of the origin's log. */
  ghost predicate Honest(nodes: Nodes, n: Origin, a: Announcement) {
    && (forall o :: Told(a.vector, o) <= Watermark(Rows(nodes, n), o))
    && (forall o, b :: o in a.digests && b in a.digests[o] ==> exists k :: OfLog(Rows(nodes, o), o, b, a.digests[o][b], k))
  }

  ghost predicate Covers(f: Frame, o: Origin, num: int) {
    f.RecordsFrame? && f.records != [] && f.records[0].origin == o && num <= f.records[|f.records| - 1].num
  }

  /** The reader has everything up to `num`, or will once it has read `q`. */
  ghost predicate Reached(t: Table, q: seq<Frame>, o: Origin, num: int) {
    num <= Watermark(t, o) || exists j :: 0 <= j < |q| && Covers(q[j], o, num)
  }

  /** A frame that `writer` wrote for `reader` with `before` still unread ahead of it. */
  ghost predicate FrameOk(nodes: Nodes, writer: Origin, reader: Option<Origin>, before: seq<Frame>, f: Frame) {
    match f
    case VectorFrame(said) => Honest(nodes, writer, said)
    case DoneFrame => true
    case RecordsFrame(recs) =>
      && reader.Some? && Stretch(nodes, recs)
      && Reached(Rows(nodes, reader.value), before, recs[0].origin, recs[0].num - 1)
  }

  ghost predicate OutboxOk(nodes: Nodes, writer: Origin, reader: Option<Origin>, outbox: seq<Frame>) {
    forall i :: 0 <= i < |outbox| ==> FrameOk(nodes, writer, reader, outbox[..i], outbox[i])
  }

  ghost predicate SenderOk(nodes: Nodes, writer: Origin, reader: Option<Origin>, e: End) {
    && (e.theirs.Some? ==> reader.Some? && Honest(nodes, reader.value, e.theirs.value))
    && (e.sender.Walking? ==> e.theirs.Some?)
    && (e.sender.Streaming? ==>
          && e.theirs.Some?
          && 0 <= e.sender.after <= Watermark(Rows(nodes, writer), e.sender.origin)
          && Reached(Rows(nodes, reader.value), e.outbox, e.sender.origin, e.sender.after))
  }

  ghost predicate EndOk(nodes: Nodes, writer: Origin, reader: Option<Origin>, e: End) {
    && writer in nodes && (reader.Some? ==> reader.value in nodes)
    && Honest(nodes, writer, e.mine)
    && SenderOk(nodes, writer, reader, e)
    && OutboxOk(nodes, writer, reader, e.outbox)
  }

  // ---- In a mesh that grew ----

  lemma OfLogGrows(t: Table, t': Table, o: Origin, b: int, d: Digest, k: int)
    requires OfLog(t, o, b, d, k) && GrowsTo(t, t')
    ensures OfLog(t', o, b, d, k)
  {
    forall id | id in d.content ensures id in t' && t'[id].line.hash == d.content[id] {
      assert Core(t'[id]).line == Core(t[id]).line;
    }
  }

  lemma HonestGrows(nodes: Nodes, nodes': Nodes, n: Origin, a: Announcement)
    requires Grows(nodes, nodes') && ReplicasOk(nodes) && ReplicasOk(nodes') && n in nodes && Honest(nodes, n, a)
    ensures Honest(nodes', n, a)
  {
    forall o ensures Told(a.vector, o) <= Watermark(Rows(nodes', n), o) {
      WatermarkGrows(nodes, nodes', n, o);
    }
    forall o, b | o in a.digests && b in a.digests[o]
      ensures exists k :: OfLog(Rows(nodes', o), o, b, a.digests[o][b], k)
    {
      var k :| OfLog(Rows(nodes, o), o, b, a.digests[o][b], k);
      OfLogGrows(Rows(nodes, o), Rows(nodes', o), o, b, a.digests[o][b], k);
    }
  }

  lemma FrameGrows(nodes: Nodes, nodes': Nodes, writer: Origin, reader: Option<Origin>, before: seq<Frame>, f: Frame)
    requires Grows(nodes, nodes') && ReplicasOk(nodes) && ReplicasOk(nodes') && writer in nodes
    requires (reader.Some? ==> reader.value in nodes) && FrameOk(nodes, writer, reader, before, f)
    ensures FrameOk(nodes', writer, reader, before, f)
  {
    hide ReplicasOk, Grows, Watermark, Honest, Stretch;
    match f
    case VectorFrame(said) => HonestGrows(nodes, nodes', writer, said);
    case DoneFrame =>
    case RecordsFrame(recs) =>
      StretchGrows(nodes, nodes', recs);
      WatermarkGrows(nodes, nodes', reader.value, recs[0].origin);
  }

  /** An end that did not move is as it was, in a mesh that grew. */
  lemma EndGrows(nodes: Nodes, nodes': Nodes, writer: Origin, reader: Option<Origin>, e: End)
    requires Grows(nodes, nodes') && ReplicasOk(nodes) && ReplicasOk(nodes') && EndOk(nodes, writer, reader, e)
    ensures EndOk(nodes', writer, reader, e)
  {
    HonestGrows(nodes, nodes', writer, e.mine);
    if e.theirs.Some? {
      HonestGrows(nodes, nodes', reader.value, e.theirs.value);
    }
    if e.sender.Streaming? {
      WatermarkGrows(nodes, nodes', writer, e.sender.origin);
      WatermarkGrows(nodes, nodes', reader.value, e.sender.origin);
    }
    forall i | 0 <= i < |e.outbox| ensures FrameOk(nodes', writer, reader, e.outbox[..i], e.outbox[i]) {
      FrameGrows(nodes, nodes', writer, reader, e.outbox[..i], e.outbox[i]);
    }
  }

  // ---- Connecting ----

  lemma OpenedIsHonest(nodes: Nodes, n: Origin)
    requires n in nodes
    ensures Honest(nodes, n, Opened(nodes[n].rows, n).mine)
  {
    forall o ensures Told(Vector(nodes[n].rows, n), o) <= Watermark(Rows(nodes, n), o) {
      VectorAt(nodes[n].rows, n, o);
    }
  }

  /** Once the other end is there, an end that had no reader has one. */
  lemma ReaderArrives(nodes: Nodes, writer: Origin, reader: Origin, e: End)
    requires EndOk(nodes, writer, None, e) && reader in nodes
    ensures EndOk(nodes, writer, Some(reader), e)
  {
    forall i | 0 <= i < |e.outbox| ensures FrameOk(nodes, writer, Some(reader), e.outbox[..i], e.outbox[i]) {
      assert FrameOk(nodes, writer, None, e.outbox[..i], e.outbox[i]);
    }
  }

  lemma OpenedKeepsEnd(nodes: Nodes, n: Origin, reader: Option<Origin>)
    requires n in nodes && (reader.Some? ==> reader.value in nodes)
    ensures EndOk(nodes, n, reader, Opened(nodes[n].rows, n))
  {
    OpenedIsHonest(nodes, n);
  }

  // ---- Sending ----

  lemma SurveyIsHonest(nodes: Nodes, n: Origin, a: Announcement, o: Origin)
    requires ReplicasOk(nodes) && n in nodes && Honest(nodes, n, a)
    ensures Honest(nodes, n, a.(digests := a.digests[o := DigestsOf(nodes[n].rows, o)]))
  {
    var t := nodes[n].rows;
    assert ReplicaOk(nodes, n);
    assert Prefix(t, o, Watermark(t, o));
    forall b | b in DigestsOf(t, o) ensures exists k :: OfLog(Rows(nodes, o), o, b, DigestsOf(t, o)[b], k) {
      var id := ListedBucket(t, o, b);
      assert o in nodes && Copies(t, nodes[o].rows, o);
      forall i | i in t && i.origin == o ensures i in Rows(nodes, o) && Rows(nodes, o)[i].line.hash == t[i].line.hash {
        assert Core(t[i]).line == Core(Rows(nodes, o)[i]).line;
      }
      DigestsOfReplica(t, Rows(nodes, o), o, Watermark(t, o), b);
    }
  }

  /** Between honest announcements `send` starts at the peer's watermark or not at all. */
  lemma StartIsReached(nodes: Nodes, n: Origin, m: Origin, mine: Announcement, theirs: Announcement, o: Origin)
    requires Honest(nodes, n, mine) && Honest(nodes, m, theirs)
    ensures var after := StartAfter(mine, theirs, o);
            0 <= after ==> after <= Watermark(Rows(nodes, n), o) && after <= Watermark(Rows(nodes, m), o)
  {
    var dm, dt := DigestsFor(mine, o), DigestsFor(theirs, o);
    assert forall b :: b in dm ==> exists k :: OfLog(Rows(nodes, o), o, b, dm[b], k);
    assert forall b :: b in dt ==> exists k :: OfLog(Rows(nodes, o), o, b, dt[b], k);
    NoMismatch(Rows(nodes, o), o, dm, dt);
    assert Told(mine.vector, o) <= Watermark(Rows(nodes, n), o);
    assert Told(theirs.vector, o) <= Watermark(Rows(nodes, m), o);
  }

  lemma SurveyedIsHonest(nodes: Nodes, n: Origin, e: End, next: End)
    requires ReplicasOk(nodes) && n in nodes && Honest(nodes, n, e.mine) && e.sender.Surveying?
    requires SurveyStep(nodes[n].rows, e, next)
    ensures Honest(nodes, n, next.mine) && next.outbox == e.outbox && next.theirs == e.theirs
    ensures next.sender.Surveying? || next.sender.Announcing?
  {
    if e.sender.left != {} {
      var o :| o in e.sender.left && next == Survey(nodes[n].rows, e, o);
      SurveyIsHonest(nodes, n, e.mine, o);
    }
  }

  lemma SurveyKeepsEnd(nodes: Nodes, n: Origin, reader: Option<Origin>, e: End, next: End)
    requires ReplicasOk(nodes) && EndOk(nodes, n, reader, e) && SurveyStep(nodes[n].rows, e, next)
    ensures EndOk(nodes, n, reader, next)
  {
    SurveyedIsHonest(nodes, n, e, next);
  }

  /** A frame written at the back of a queue in order leaves it in order. */
  lemma WroteOne(nodes: Nodes, writer: Origin, reader: Option<Origin>, outbox: seq<Frame>, f: Frame)
    requires OutboxOk(nodes, writer, reader, outbox) && FrameOk(nodes, writer, reader, outbox, f)
    ensures OutboxOk(nodes, writer, reader, outbox + [f])
  {
    var all := outbox + [f];
    forall i | 0 <= i < |all| ensures FrameOk(nodes, writer, reader, all[..i], all[i]) {
      if i < |outbox| {
        assert all[..i] == outbox[..i];
      } else {
        assert all[..i] == outbox;
      }
    }
  }

  lemma BatchKeepsEnd(nodes: Nodes, n: Origin, reader: Option<Origin>, e: End)
    requires ReplicaOk(nodes, n) && EndOk(nodes, n, reader, e) && e.sender.Streaming?
    ensures EndOk(nodes, n, reader, SendBatch(nodes[n].rows, e))
  {
    assert ReplicaOk(nodes, n);
    var o, after := e.sender.origin, e.sender.after;
    var batch := Since(nodes[n].rows, o, after, BATCH_SIZE);
    SinceIsStretch(nodes, n, o, after, BATCH_SIZE);
    if batch != [] {
      var next := SendBatch(nodes[n].rows, e);
      assert FrameOk(nodes, n, reader, e.outbox, RecordsFrame(batch));
      WroteOne(nodes, n, reader, e.outbox, RecordsFrame(batch));
      assert next.outbox[|e.outbox|] == RecordsFrame(batch) && Covers(RecordsFrame(batch), o, next.sender.after);
    }
  }

  lemma ChooseKeepsEnd(nodes: Nodes, n: Origin, reader: Option<Origin>, e: End, o: Origin)
    requires EndOk(nodes, n, reader, e) && e.sender.Walking? && e.theirs.Some?
    ensures EndOk(nodes, n, reader, Choose(e, e.theirs.value, o))
  {
    StartIsReached(nodes, n, reader.value, e.mine, e.theirs.value, o);
  }

  lemma SendKeepsEnd(nodes: Nodes, n: Origin, reader: Option<Origin>, e: End, next: End)
    requires ReplicasOk(nodes) && EndOk(nodes, n, reader, e) && SenderStep(nodes[n].rows, e, next)
    ensures EndOk(nodes, n, reader, next)
  {
    match e.sender
    case Surveying(_) => SurveyKeepsEnd(nodes, n, reader, e, next);
    case Announcing => WroteOne(nodes, n, reader, e.outbox, VectorFrame(e.mine));
    case Waiting =>
    case Walking(todo) =>
      if todo == {} {
        WroteOne(nodes, n, reader, e.outbox, DoneFrame);
      } else {
        var o :| o in todo && next == Choose(e, e.theirs.value, o);
        ChooseKeepsEnd(nodes, n, reader, e, o);
      }
    case Streaming(_, _, _) => BatchKeepsEnd(nodes, n, reader, e);
    case Closed =>
  }

  // ---- Reading ----

  lemma ReachedAfterRead(t: Table, q: seq<Frame>, o: Origin, num: int)
    requires q != [] && Reached(t, q, o, num)
    requires Covers(q[0], o, num) ==> num <= Watermark(t, o)
    ensures Reached(t, q[1..], o, num)
  {
    if Watermark(t, o) < num {
      var j :| 0 <= j < |q| && Covers(q[j], o, num);
      assert q[1..][j - 1] == q[j];
    }
  }

  /** The reader has applied what the frame carried. */
  ghost predicate Heeded(nodes: Nodes, reader: Option<Origin>, f: Frame) {
    f.RecordsFrame? ==>
      reader.Some? && f.records != [] &&
      f.records[|f.records| - 1].num <= Watermark(Rows(nodes, reader.value), f.records[0].origin)
  }

  lemma FrameAfterRead(nodes: Nodes, writer: Origin, reader: Option<Origin>, before: seq<Frame>, f: Frame)
    requires before != [] && FrameOk(nodes, writer, reader, before, f) && Heeded(nodes, reader, before[0])
    ensures FrameOk(nodes, writer, reader, before[1..], f)
  {
    hide Honest, Watermark;
    if f.RecordsFrame? {
      ReachedAfterRead(Rows(nodes, reader.value), before, f.records[0].origin, f.records[0].num - 1);
    }
  }

  lemma SlicesShift<T>(q: seq<T>, i: nat)
    requires i + 1 < |q|
    ensures q[1..][..i] == q[..i + 1][1..] && q[1..][i] == q[i + 1] && q[..i + 1][0] == q[0]
  {}

  lemma PoppedFrame(nodes: Nodes, writer: Origin, reader: Option<Origin>, outbox: seq<Frame>, i: nat)
    requires OutboxOk(nodes, writer, reader, outbox) && i + 1 < |outbox| && Heeded(nodes, reader, outbox[0])
    ensures FrameOk(nodes, writer, reader, outbox[1..][..i], outbox[1..][i])
  {
    hide FrameOk, Heeded;
    assert FrameOk(nodes, writer, reader, outbox[..i + 1], outbox[i + 1]);
    SlicesShift(outbox, i);
    FrameAfterRead(nodes, writer, reader, outbox[..i + 1], outbox[i + 1]);
  }

  lemma PopKeepsEnd(nodes: Nodes, n: Origin, reader: Option<Origin>, e: End)
    requires EndOk(nodes, n, reader, e) && e.outbox != [] && Heeded(nodes, reader, e.outbox[0])
    ensures EndOk(nodes, n, reader, e.(outbox := e.outbox[1..]))
  {
    if e.sender.Streaming? {
      ReachedAfterRead(Rows(nodes, reader.value), e.outbox, e.sender.origin, e.sender.after);
    }
    forall i | 0 <= i < |e.outbox| - 1 ensures FrameOk(nodes, n, reader, e.outbox[1..][..i], e.outbox[1..][i]) {
      PoppedFrame(nodes, n, reader, e.outbox, i);
    }
  }

  lemma WriterIsThere(nodes: Nodes, n: Origin, reader: Option<Origin>, e: End)
    requires EndOk(nodes, n, reader, e)
    ensures n in nodes
  {}

  /** Hanging up loses frames from the back only; a reader that stops loses none. */
  lemma HangupKeepsEnd(nodes: Nodes, n: Origin, reader: Option<Origin>, e: End, delivered: nat)
    requires EndOk(nodes, n, reader, e) && delivered <= |e.outbox|
    ensures EndOk(nodes, n, reader, e.(outbox := e.outbox[..delivered], sender := Closed))
    ensures EndOk(nodes, n, reader, e.(reading := false))
  {
    CutOutbox(nodes, n, reader, e.outbox, delivered);
  }

  lemma CutOutbox(nodes: Nodes, writer: Origin, reader: Option<Origin>, outbox: seq<Frame>, upTo: nat)
    requires OutboxOk(nodes, writer, reader, outbox) && upTo <= |outbox|
    ensures OutboxOk(nodes, writer, reader, outbox[..upTo])
  {
    forall i | 0 <= i < upTo ensures FrameOk(nodes, writer, reader, outbox[..upTo][..i], outbox[..upTo][i]) {
      assert outbox[..upTo][..i] == outbox[..i];
    }
  }

  lemma ReceivedBatch(s: Side, recs: seq<Record>)
    requires forall r :: r in recs ==> Addressed(r)
    ensures var run, after := RemoteBatch(s.rows, s.quarantine, recs), Receive(s, RecordsFrame(recs));
            after.rows == run.rows && after.quarantine == run.quarantine
  {}

  lemma HeardKeepsEnd(nodes: Nodes, n: Origin, reader: Option<Origin>, s: Side, f: Frame)
    requires EndOk(nodes, n, reader, s.end) && reader.Some?
    requires f.VectorFrame? ==> Honest(nodes, reader.value, f.said)
    ensures EndOk(nodes, n, reader, Receive(s, f).end)
  {}
}
