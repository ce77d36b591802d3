/** The symmetric exchange: what each end announces, the goroutine that sends and
    the one that receives, one atomic step at a time. */
module Exchange {
  import opened Records
  import opened Sets
  import opened Digests
  import opened Store

  const BATCH_SIZE := 500

  datatype Announcement = Announcement(vector: map<Origin, int>, digests: map<Origin, Buckets>)

  datatype Frame =
    | VectorFrame(said: Announcement)
    | RecordsFrame(records: seq<Record>)
    | DoneFrame

  /** Where the sending goroutine is. `Surveying` is `announce` reading the
      digests, one query per origin; `Walking` is the loop over the vector and
      `Streaming` the loop over one origin's batches. */
  datatype Sender =
    | Surveying(left: set<Origin>)
    | Announcing
    | Waiting
    | Walking(todo: set<Origin>)
    | Streaming(origin: Origin, after: int, todo: set<Origin>)
    | Closed

  /** One side of an exchange. `outbox` is what it has written and the peer has
      not yet read. */
  datatype End = End(
    mine: Announcement, sender: Sender, outbox: seq<Frame>,
    theirs: Option<Announcement>, reading: bool,
    sent: int, received: int, got: Tally)

  // ---- Announcing ----

  function Origins(t: Table): set<Origin> {
    set id | id in t :: id.origin
  }

  /** `Vector`: the highest sequence per origin, and always an entry for oneself. */
  function Vector(t: Table, self: Origin): map<Origin, int> {
    map o | o in Origins(t) + {self} :: Watermark(t, o)
  }

  lemma VectorAt(t: Table, self: Origin, o: Origin)
    ensures Told(Vector(t, self), o) == Watermark(t, o)
    ensures o in Vector(t, self) <==> o == self || exists s :: Id(o, s) in t
  {
    forall id | id in t ensures Id(id.origin, id.num) in t {
      assert id == Id(id.origin, id.num);
    }
    if o !in Vector(t, self) {
      forall s ensures Id(o, s) !in t {
        if Id(o, s) in t { InVector(t, self, Id(o, s)); }
      }
      WatermarkEmpty(t, o);
    }
  }

  lemma InVector(t: Table, self: Origin, id: Id)
    requires id in t
    ensures id.origin in Vector(t, self)
  {}

  /** Reading an absent key of a Go map yields zero. */
  function Told(v: map<Origin, int>, o: Origin): int {
    if o in v then v[o] else 0
  }

  function DigestsFor(a: Announcement, o: Origin): Buckets {
    if o in a.digests then a.digests[o] else map[]
  }

  /** `announce` with nothing else writing. */
  function Announce(t: Table, self: Origin): Announcement {
    var vector := Vector(t, self);
    Announcement(vector, map o | o in vector && DigestsOf(t, o) != map[] :: DigestsOf(t, o))
  }

  // ---- Sending ----

  /** Where `send` starts for one origin of its vector; negative skips it. */
  function StartAfter(mine: Announcement, theirs: Announcement, o: Origin): int {
    ResendFrom(Told(mine.vector, o), Told(theirs.vector, o), DigestsFor(mine, o), DigestsFor(theirs, o))
  }

  function Write(e: End, f: Frame, next: Sender): End {
    e.(outbox := e.outbox + [f], sender := next)
  }

  ghost predicate SurveyStep(t: Table, e: End, e': End) {
    && e.sender.Surveying?
    && if e.sender.left == {} then e' == e.(sender := Announcing)
       else exists o :: o in e.sender.left && e' == Survey(t, e, o)
  }

  function Survey(t: Table, e: End, o: Origin): End
    requires e.sender.Surveying?
  {
    var digests := if DigestsOf(t, o) == map[] then e.mine.digests else e.mine.digests[o := DigestsOf(t, o)];
    e.(mine := e.mine.(digests := digests), sender := Surveying(e.sender.left - {o}))
  }

  /** `case theirs = <-peerVector`. */
  function Begin(e: End): End {
    e.(sender := Walking(e.mine.vector.Keys))
  }

  /** The next origin of the vector, in no particular order. */
  function Choose(e: End, theirs: Announcement, o: Origin): End
    requires e.sender.Walking?
  {
    var after := StartAfter(e.mine, theirs, o);
    var todo := e.sender.todo - {o};
    e.(sender := if after < 0 then Walking(todo) else Streaming(o, after, todo))
  }

  /** One `Since` and, unless it came back empty, one frame. */
  function SendBatch(t: Table, e: End): End
    requires e.sender.Streaming?
  {
    var s := e.sender;
    var batch := Since(t, s.origin, s.after, BATCH_SIZE);
    if batch == [] then e.(sender := Walking(s.todo))
    else Write(e, RecordsFrame(batch), s.(after := batch[|batch| - 1].num)).(sent := e.sent + |batch|)
  }

  ghost predicate SenderStep(t: Table, e: End, e': End) {
    match e.sender
    case Surveying(_) => SurveyStep(t, e, e')
    case Announcing => e' == Write(e, VectorFrame(e.mine), Waiting)
    case Waiting => e.theirs.Some? && e' == Begin(e)
    case Walking(todo) =>
      if todo == {} then e' == Write(e, DoneFrame, Closed)
      else e.theirs.Some? && exists o :: o in todo && e' == Choose(e, e.theirs.value, o)
    case Streaming(_, _, _) => e' == SendBatch(t, e)
    case Closed => false
  }

  // ---- Receiving ----

  /** One side together with the archive behind it. */
  datatype Side = Side(origin: Origin, rows: Table, quarantine: seq<Record>, end: End)

  function Merged(a: Tally, b: Tally): Tally {
    Tally(a.stored + b.stored, a.duplicates + b.duplicates, a.forked + b.forked, b.lastSeq)
  }

  /** One turn of `receive`: a second vector or a malformed record ends it. */
  function Receive(s: Side, f: Frame): Side {
    var e := s.end;
    match f
    case VectorFrame(said) =>
      s.(end := if e.theirs.Some? then e.(reading := false) else e.(theirs := Some(said)))
    case DoneFrame => s.(end := e.(reading := false))
    case RecordsFrame(records) =>
      if exists r :: r in records && !Addressed(r) then s.(end := e.(reading := false))
      else
        var run := RemoteBatch(s.rows, s.quarantine, records);
        s.(rows := run.rows, quarantine := run.quarantine,
           end := e.(received := e.received + |records|, got := Merged(e.got, run.tally)))
  }

  /** A second vector, a done frame, and a batch with a record that has no origin or
      sequence each end the reading and change nothing else. */
  lemma EndsReading(s: Side, f: Frame)
    requires f.VectorFrame? ==> s.end.theirs.Some?
    requires f.RecordsFrame? ==> exists r :: r in f.records && (r.origin == "" || r.num <= 0)
    ensures Receive(s, f) == s.(end := s.end.(reading := false))
  {
    if f.RecordsFrame? {
      var r :| r in f.records && (r.origin == "" || r.num <= 0);
      assert !Addressed(r);
    }
  }

  // ---- Two ends, a channel each way, and nothing else writing ----

  datatype Pair = Pair(left: Side, right: Side)

  function Swap(p: Pair): Pair {
    Pair(p.right, p.left)
  }

  /** A write returns once the channel has room for it, so the goroutine is at its
      next step only while at most `capacity` frames are unread. With capacity
      zero that is a rendezvous: the frame just written must have been read. */
  ghost predicate LeftSends(capacity: nat, p: Pair, p': Pair) {
    && |p.left.end.outbox| <= capacity
    && SenderStep(p.left.rows, p.left.end, p'.left.end)
    && p' == p.(left := p.left.(end := p'.left.end))
  }

  /** The left side reads the oldest frame the right side wrote. */
  ghost predicate LeftReceives(p: Pair, p': Pair) {
    && p.left.end.reading && p.right.end.outbox != []
    && p' == Pair(Receive(p.left, p.right.end.outbox[0]),
                  p.right.(end := p.right.end.(outbox := p.right.end.outbox[1..])))
  }

  ghost predicate LeftMoves(capacity: nat, p: Pair, p': Pair) {
    LeftSends(capacity, p, p') || LeftReceives(p, p')
  }

  ghost predicate Step(capacity: nat, p: Pair, p': Pair) {
    LeftMoves(capacity, p, p') || LeftMoves(capacity, Swap(p), Swap(p'))
  }

  /** A side about to announce. */
  predicate Opening(s: Side) {
    s.end == End(Announce(s.rows, s.origin), Announcing, [], None, true, 0, 0, NOTHING)
  }

  predicate Start(p: Pair) {
    Opening(p.left) && Opening(p.right)
  }

  /** Both senders have written their done frame and both receivers have read one. */
  predicate Finished(p: Pair) {
    && p.left.end.sender.Closed? && !p.left.end.reading
    && p.right.end.sender.Closed? && !p.right.end.reading
  }

  ghost predicate IsRun(capacity: nat, run: seq<Pair>) {
    && run != [] && Start(run[0])
    && forall i :: 0 <= i < |run| - 1 ==> Step(capacity, run[i], run[i + 1])
  }
}
