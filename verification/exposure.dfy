/** Which forks a single exchange exposes. */
module Exposure {
  import opened Records
  import opened Sets
  import opened Digests
  import opened Store
  import opened Exchange
  import opened Liveness
  import opened Delivery
  import opened Convergence

  ghost predicate IsDue(x: End, r: Record) {
    x.theirs.Some? && Due(x.mine, x.theirs.value, IdOf(r))
  }

  /** Nothing that was not due has been written, or gathered as evidence by the
      reader beyond what it had before. */
  ghost predicate OnlyDue(x: End, before: seq<Record>, quarantine: seq<Record>) {
    && before <= quarantine
    && (forall i :: |before| <= i < |quarantine| ==> IsDue(x, quarantine[i]))
    && AllDue(x, x.outbox)
    && (x.sender.Streaming? ==>
          x.theirs.Some? && 0 <= StartAfter(x.mine, x.theirs.value, x.sender.origin) <= x.sender.after)
  }

  ghost predicate AllDue(x: End, q: seq<Frame>) {
    forall i :: 0 <= i < |q| && q[i].RecordsFrame? ==> forall r :: r in q[i].records ==> IsDue(x, r)
  }

  lemma SendKeepsOnlyDue(t: Table, x: End, x': End, before: seq<Record>, quarantine: seq<Record>)
    requires WellKeyed(t) && OnlyDue(x, before, quarantine) && SenderStep(t, x, x')
    requires x.theirs.None? ==> x.sender.Surveying? || x.sender.Announcing? || x.sender.Waiting?
    requires !x.sender.Surveying?
    ensures OnlyDue(x', before, quarantine)
  {
    if x.sender.Streaming? {
      SinceIsNextStretch(t, x.sender.origin, x.sender.after, BATCH_SIZE);
      var batch := Since(t, x.sender.origin, x.sender.after, BATCH_SIZE);
      forall r | r in batch ensures IsDue(x, r) {}
    }
    forall i | 0 <= i < |x'.outbox| && x'.outbox[i].RecordsFrame? ensures forall r :: r in x'.outbox[i].records ==> IsDue(x', r) {
      if i < |x.outbox| {
        assert x'.outbox[i] == x.outbox[i];
        forall r | r in x.outbox[i].records ensures IsDue(x', r) { assert IsDue(x, r); }
      }
    }
    forall i | |before| <= i < |quarantine| ensures IsDue(x', quarantine[i]) { assert IsDue(x, quarantine[i]); }
  }

  /** The reader takes the oldest frame. */
  lemma ReadKeepsOnlyDue(x: End, before: seq<Record>, y: Side)
    requires Sound(y.rows) && x.outbox != [] && OnlyDue(x, before, y.quarantine)
    ensures OnlyDue(x.(outbox := x.outbox[1..]), before, Receive(y, x.outbox[0]).quarantine)
  {
    var f, x' := x.outbox[0], x.(outbox := x.outbox[1..]);
    var after := Receive(y, f).quarantine;
    if f.RecordsFrame? && forall r :: r in f.records ==> Addressed(r) {
      RemoteAppendMerges(y.rows, y.quarantine, f.records);
    }
    forall i | |before| <= i < |after| ensures IsDue(x', after[i]) {
      if i < |y.quarantine| {
        assert after[i] == y.quarantine[i];
        assert IsDue(x, y.quarantine[i]);
      } else {
        assert after[i] in f.records;
        assert IsDue(x, after[i]);
      }
    }
    forall i | 0 <= i < |x'.outbox| && x'.outbox[i].RecordsFrame? ensures forall r :: r in x'.outbox[i].records ==> IsDue(x', r) {
      assert x'.outbox[i] == x.outbox[i + 1];
      forall r | r in x.outbox[i + 1].records ensures IsDue(x', r) { assert IsDue(x, r); }
    }
  }

  /** Reading does not undo what the same side has written. */
  lemma HearingKeepsOnlyDue(s: Side, f: Frame, before: seq<Record>, quarantine: seq<Record>)
    requires OnlyDue(s.end, before, quarantine)
    ensures OnlyDue(Receive(s, f).end, before, quarantine)
  {
    var x, x' := s.end, Receive(s, f).end;
    assert x'.mine == x.mine && x'.sender == x.sender && x'.outbox == x.outbox && (x.theirs.Some? ==> x'.theirs == x.theirs);
    forall i | |before| <= i < |quarantine| ensures IsDue(x', quarantine[i]) { assert IsDue(x, quarantine[i]); }
    forall i | 0 <= i < |x'.outbox| && x'.outbox[i].RecordsFrame? ensures forall r :: r in x'.outbox[i].records ==> IsDue(x', r) {
      forall r | r in x.outbox[i].records ensures IsDue(x', r) { assert IsDue(x, r); }
    }
  }

  ghost predicate BothOnlyDue(p0: Pair, p: Pair) {
    && OnlyDue(p.left.end, p0.right.quarantine, p.right.quarantine)
    && OnlyDue(p.right.end, p0.left.quarantine, p.left.quarantine)
  }

  lemma MoveKeepsOnlyDue(capacity: nat, p0: Pair, p: Pair, p': Pair)
    requires Running(p) && BothOnlyDue(p0, p) && LeftMoves(capacity, p, p')
    ensures BothOnlyDue(p0, p')
  {
    hide OnlyDue, Receive, SenderStep;
    if LeftSends(capacity, p, p') {
      SendKeepsOnlyDue(p.left.rows, p.left.end, p'.left.end, p0.right.quarantine, p.right.quarantine);
    } else {
      var f := p.right.end.outbox[0];
      ReadKeepsOnlyDue(p.right.end, p0.left.quarantine, p.left);
      HearingKeepsOnlyDue(p.left, f, p0.right.quarantine, p.right.quarantine);
    }
  }

  lemma {:induction false} RunKeepsOnlyDue(capacity: nat, run: seq<Pair>)
    requires IsRun(capacity, run) && Sound(run[0].left.rows) && Sound(run[0].right.rows)
    ensures Running(run[|run| - 1]) && BothOnlyDue(run[0], run[|run| - 1])
    decreases |run|
  {
    if |run| == 1 {
      StartRuns(run[0]);
    } else {
      hide BothOnlyDue, Running, Step, LeftMoves;
      var i := |run| - 2;
      RunKeepsOnlyDue(capacity, run[..|run| - 1]);
      assert Step(capacity, run[i], run[i + 1]);
      StepKeepsOnlyDue(capacity, run[0], run[i], run[i + 1]);
    }
  }

  lemma StepKeepsOnlyDue(capacity: nat, p0: Pair, p: Pair, p': Pair)
    requires Running(p) && BothOnlyDue(p0, p) && Step(capacity, p, p')
    ensures Running(p') && BothOnlyDue(p0, p')
  {
    StepKeepsRunning(capacity, p, p');
    if LeftMoves(capacity, p, p') {
      MoveKeepsOnlyDue(capacity, p0, p, p');
    } else {
      MoveKeepsOnlyDue(capacity, Swap(p0), Swap(p), Swap(p'));
    }
  }

  /** One side ends a single exchange holding the other's record of a disagreement
      as evidence if and only if it held it before, or the two announcements make
      the other start sending below that sequence. */
  lemma ForkIsNoticedIff(world: set<Record>, capacity: nat, run: seq<Pair>, id: Id)
    requires IsRun(capacity, run) && Meeting(world, run[0]) && Finished(run[|run| - 1])
    requires Disagree(run[0].left.rows, run[0].right.rows, id)
    ensures var a, b, end := run[0].left, run[0].right, run[|run| - 1];
            b.rows[id] in end.left.quarantine <==>
              b.rows[id] in a.quarantine || 0 <= StartAfter(b.end.mine, a.end.mine, id.origin) < id.num
  {
    var a, b, end := run[0].left, run[0].right, run[|run| - 1];
    var r := b.rows[id];
    hide Sound, OnePlace, StartAfter, Step;
    LeftEnd(world, capacity, run);
    assert IdOf(r) == id by { KeptId(b.rows, id); }
    assert end.left.rows[id] == a.rows[id];
    PrefixMembers(a.quarantine, end.left.quarantine);
    if r !in a.quarantine && r in end.left.quarantine {
      assert IsDue(end.right.end, r);
    }
  }

  lemma KeptId(t: Table, id: Id)
    requires Sound(t) && id in t
    ensures IdOf(t[id]) == id
  {}

  lemma PrefixMembers(a: seq<Record>, b: seq<Record>)
    requires a <= b
    ensures forall r :: r in a ==> r in b
  {
    assert forall i :: 0 <= i < |a| ==> b[i] == a[i];
  }

  /** What the left side has at the end, and why. */
  lemma LeftEnd(world: set<Record>, capacity: nat, run: seq<Pair>)
    requires IsRun(capacity, run) && Meeting(world, run[0]) && Finished(run[|run| - 1])
    ensures var a, b, end := run[0].left, run[0].right, run[|run| - 1];
            && Outcome(a, b, end.left.rows, end.left.quarantine) && a.quarantine <= end.left.quarantine
            && end.right.end.mine == b.end.mine && end.right.end.theirs == Some(a.end.mine)
            && forall r :: r in end.left.quarantine ==> r in a.quarantine || IsDue(end.right.end, r)
  {
    hide Sound, OnePlace, StartAfter, Step, LeftMoves, IsDue;
    var a, end := run[0].left, run[|run| - 1];
    ExchangeOutcome(world, capacity, run);
    RunDelivers(world, capacity, run);
    RunKeepsOnlyDue(capacity, run);
    AddedAreDue(end.right.end, a.quarantine, end.left.quarantine);
  }

  lemma FrontMember(a: seq<Record>, b: seq<Record>, i: nat)
    requires a <= b
    ensures i < |a| ==> b[i] in a
  {}

  lemma AddedAreDue(x: End, before: seq<Record>, quarantine: seq<Record>)
    requires OnlyDue(x, before, quarantine)
    ensures forall r :: r in quarantine ==> r in before || IsDue(x, r)
  {
    forall r | r in quarantine && r !in before ensures IsDue(x, r) {
      var i :| 0 <= i < |quarantine| && quarantine[i] == r;
      FrontMember(before, quarantine, i);
    }
  }

  // ---- In terms of the archives ----

  /** A disagreement at or before the bucket of `num`, in a bucket where both logs
      have the same positions. */
  ghost predicate ShowsBy(a: Table, b: Table, o: Origin, num: int) {
    exists s :: Disagree(a, b, Id(o, s)) && BucketOf(s) <= BucketOf(num)
      && CoveredAlike(Watermark(a, o), Watermark(b, o), BucketOf(s))
  }

  /** The rewind reaches below a position both hold exactly when a bucket no later
      than its own is taken for a fork. */
  lemma RewindIff(mine: Buckets, theirs: Buckets, have: int, peerSeq: int, num: int)
    requires (forall b :: b in mine ==> 0 <= b) && 1 <= num <= peerSeq && num <= have
    ensures 0 <= ResendFrom(have, peerSeq, mine, theirs) < num <==> exists b :: Mismatched(mine, theirs, b) && b <= BucketOf(num)
  {
    var bad := set b | b in mine && Mismatched(mine, theirs, b);
    assert bad != {} ==> Min(bad) in bad;
    if b :| Mismatched(mine, theirs, b) && b <= BucketOf(num) {
      assert b in bad;
    }
  }

  lemma DueIff(x: Side, y: Side, id: Id)
    requires Opening(x) && Opening(y) && Dense(x.rows) && Dense(y.rows) && Disagree(x.rows, y.rows, id)
    ensures Due(x.end.mine, y.end.mine, id) <==> ShowsBy(x.rows, y.rows, id.origin, id.num)
  {
    hide ResendFrom, Mismatched, CoveredAlike;
    var o, n, m := id.origin, Watermark(x.rows, id.origin), Watermark(y.rows, id.origin);
    assert Prefix(x.rows, o, n) && Prefix(y.rows, o, m) && id == Id(o, id.num);
    AnnounceTells(x, o);
    AnnounceTells(y, o);
    var mine, theirs := DigestsOf(x.rows, o), DigestsOf(y.rows, o);
    forall b | b in mine ensures 0 <= b {
      var at := ListedBucket(x.rows, o, b);
      assert at == Id(o, at.num);
    }
    RewindIff(mine, theirs, n, m, id.num);
    SomeBucketIff(x.rows, y.rows, o, id.num);
  }

  lemma SomeBucketIff(a: Table, b: Table, o: Origin, num: int)
    requires Prefix(a, o, Watermark(a, o)) && Prefix(b, o, Watermark(b, o))
    ensures (exists k :: Mismatched(DigestsOf(a, o), DigestsOf(b, o), k) && k <= BucketOf(num)) <==> ShowsBy(a, b, o, num)
  {
    hide Mismatched, CoveredAlike, Watermark;
    var n, m := Watermark(a, o), Watermark(b, o);
    if k :| Mismatched(DigestsOf(a, o), DigestsOf(b, o), k) && k <= BucketOf(num) {
      MismatchedIff(a, b, o, n, m, k);
      var s :| Disagree(a, b, Id(o, s)) && BucketOf(s) == k;
      assert ShowsBy(a, b, o, num);
    }
    if ShowsBy(a, b, o, num) {
      var s :| Disagree(a, b, Id(o, s)) && BucketOf(s) <= BucketOf(num) && CoveredAlike(n, m, BucketOf(s));
      MismatchedIff(a, b, o, n, m, BucketOf(s));
    }
  }

  lemma ShowsEitherWay(a: Table, b: Table, o: Origin, num: int)
    requires ShowsBy(a, b, o, num)
    ensures ShowsBy(b, a, o, num)
  {
    var s :| Disagree(a, b, Id(o, s)) && BucketOf(s) <= BucketOf(num) && CoveredAlike(Watermark(a, o), Watermark(b, o), BucketOf(s));
    assert Disagree(b, a, Id(o, s));
  }

  /** Between gap-free archives a single exchange exposes a disagreement, on both
      sides at once, if and only if some disagreement lies in its bucket or an
      earlier one of which both sides hold the same positions. */
  lemma ForkShowsIff(world: set<Record>, capacity: nat, run: seq<Pair>, id: Id)
    requires IsRun(capacity, run) && Meeting(world, run[0]) && Finished(run[|run| - 1])
    requires Dense(run[0].left.rows) && Dense(run[0].right.rows) && Disagree(run[0].left.rows, run[0].right.rows, id)
    ensures var a, b, end := run[0].left, run[0].right, run[|run| - 1];
            var shows := ShowsBy(a.rows, b.rows, id.origin, id.num);
            && (b.rows[id] in end.left.quarantine <==> b.rows[id] in a.quarantine || shows)
            && (a.rows[id] in end.right.quarantine <==> a.rows[id] in b.quarantine || shows)
  {
    hide ShowsBy, Step, Sound, OnePlace, StartAfter, Finished, Dense;
    var a, b := run[0].left, run[0].right;
    LeftNotices(world, capacity, run, id);
    RightNotices(world, capacity, run, id);
    DueIff(a, b, id);
    DueIff(b, a, id);
    if ShowsBy(a.rows, b.rows, id.origin, id.num) {
      ShowsEitherWay(a.rows, b.rows, id.origin, id.num);
    }
    if ShowsBy(b.rows, a.rows, id.origin, id.num) {
      ShowsEitherWay(b.rows, a.rows, id.origin, id.num);
    }
  }

  lemma LeftNotices(world: set<Record>, capacity: nat, run: seq<Pair>, id: Id)
    requires IsRun(capacity, run) && Meeting(world, run[0]) && Finished(run[|run| - 1])
    requires Disagree(run[0].left.rows, run[0].right.rows, id)
    ensures var a, b, end := run[0].left, run[0].right, run[|run| - 1];
            b.rows[id] in end.left.quarantine <==> b.rows[id] in a.quarantine || Due(b.end.mine, a.end.mine, id)
  {
    ForkIsNoticedIff(world, capacity, run, id);
  }

  function Mirrored(run: seq<Pair>): seq<Pair> {
    seq(|run|, i requires 0 <= i < |run| => Swap(run[i]))
  }

  lemma MirroredRun(capacity: nat, run: seq<Pair>)
    requires IsRun(capacity, run)
    ensures IsRun(capacity, Mirrored(run))
  {
    hide LeftMoves;
    var m := Mirrored(run);
    forall i | 0 <= i < |m| - 1 ensures Step(capacity, m[i], m[i + 1]) {
      assert Step(capacity, run[i], run[i + 1]);
      assert Swap(Swap(run[i])) == run[i] && Swap(Swap(run[i + 1])) == run[i + 1];
    }
  }

  lemma RightNotices(world: set<Record>, capacity: nat, run: seq<Pair>, id: Id)
    requires IsRun(capacity, run) && Meeting(world, run[0]) && Finished(run[|run| - 1])
    requires Disagree(run[0].left.rows, run[0].right.rows, id)
    ensures var a, b, end := run[0].left, run[0].right, run[|run| - 1];
            a.rows[id] in end.right.quarantine <==> a.rows[id] in b.quarantine || Due(a.end.mine, b.end.mine, id)
  {
    hide Step, Sound, OnePlace, Due;
    var m := Mirrored(run);
    MirroredRun(capacity, run);
    assert m[0] == Swap(run[0]) && m[|m| - 1] == Swap(run[|run| - 1]);
    LeftNotices(world, capacity, m, id);
  }

  // ---- One exchange is not always enough ----

  /** While one side is ahead inside the bucket the other has only begun, the bucket
      is not compared: neither side learns of a disagreement in it, unless an earlier
      bucket shows one. */
  lemma PartialBucketHidesFork(world: set<Record>, capacity: nat, run: seq<Pair>, id: Id)
    requires IsRun(capacity, run) && Meeting(world, run[0]) && Finished(run[|run| - 1])
    requires Dense(run[0].left.rows) && Dense(run[0].right.rows) && Disagree(run[0].left.rows, run[0].right.rows, id)
    requires var n, m := Watermark(run[0].left.rows, id.origin), Watermark(run[0].right.rows, id.origin);
             n < m && BucketOf(id.num) == BucketOf(n) == BucketOf(n + 1)
    requires forall s :: BucketOf(s) < BucketOf(id.num) ==> !Disagree(run[0].left.rows, run[0].right.rows, Id(id.origin, s))
    ensures var a, b, end := run[0].left, run[0].right, run[|run| - 1];
            && (b.rows[id] in end.left.quarantine <==> b.rows[id] in a.quarantine)
            && (a.rows[id] in end.right.quarantine <==> a.rows[id] in b.quarantine)
  {
    ForkShowsIff(world, capacity, run, id);
    hide Disagree, Watermark, IsRun, Meeting, Finished, Dense;
    assert !ShowsBy(run[0].left.rows, run[0].right.rows, id.origin, id.num);
  }

  function Written(num: int, hash: string): Record {
    Record("twin", num, Line("s", "p", num, hash, "", "", "", "", "", Usage(0, 0, 0, 0, 0, 0), []), BLANK)
  }

  /** Two machines under one origin: one has written a line, the other two, and
      the first is not the same. */
  const ONE_LINE: Table := map[Id("twin", 1) := Written(1, "a")]
  const TWO_LINES: Table := map[Id("twin", 1) := Written(1, "b"), Id("twin", 2) := Written(2, "c")]

  lemma TwinArchives()
    ensures Sound(ONE_LINE) && Sound(TWO_LINES) && Disagree(ONE_LINE, TWO_LINES, Id("twin", 1))
    ensures Watermark(ONE_LINE, "twin") == 1 && Watermark(TWO_LINES, "twin") == 2
    ensures Dense(ONE_LINE) && Dense(TWO_LINES)
    ensures OnePlace(ONE_LINE.Values + TWO_LINES.Values)
  {
    assert Prefix(ONE_LINE, "twin", 1) && Prefix(TWO_LINES, "twin", 2);
    WatermarkOf(ONE_LINE, "twin", 1);
    WatermarkOf(TWO_LINES, "twin", 2);
    forall o ensures Prefix(ONE_LINE, o, Watermark(ONE_LINE, o)) && Prefix(TWO_LINES, o, Watermark(TWO_LINES, o)) {
      if o != "twin" {
        assert Prefix(ONE_LINE, o, 0) && Prefix(TWO_LINES, o, 0);
        WatermarkOf(ONE_LINE, o, 0);
        WatermarkOf(TWO_LINES, o, 0);
      }
    }
  }

  /** Between those two an exchange, however it runs, ends with no evidence anywhere,
      though they disagree about the first line. */
  lemma OneExchangeMisses(capacity: nat, run: seq<Pair>)
    requires IsRun(capacity, run) && Finished(run[|run| - 1])
    requires run[0].left.rows == ONE_LINE && run[0].right.rows == TWO_LINES
    requires run[0].left.quarantine == [] == run[0].right.quarantine
    ensures Disagree(ONE_LINE, TWO_LINES, Id("twin", 1))
    ensures run[|run| - 1].left.quarantine == [] == run[|run| - 1].right.quarantine
  {
    hide Step, Finished, OnePlace, Sound, Dense, Watermark, Disagree, Conflicts, Opening, Meeting, Inherits, Outcome;
    var world, id, end := ONE_LINE.Values + TWO_LINES.Values, Id("twin", 1), run[|run| - 1];
    TwinArchives();
    assert Meeting(world, run[0]) by { RunMeets(capacity, run); }
    EvidenceConflicts(world, capacity, run);
    forall s | BucketOf(s) < BucketOf(id.num) ensures !Disagree(ONE_LINE, TWO_LINES, Id("twin", s)) {
      OneDisagreement(Id("twin", s));
    }
    PartialBucketHidesFork(world, capacity, run, id);
    if end.left.quarantine != [] {
      OnlyEvidence(TWO_LINES, ONE_LINE, end.left.quarantine[0]);
    }
    if end.right.quarantine != [] {
      OnlyEvidence(ONE_LINE, TWO_LINES, end.right.quarantine[0]);
    }
  }

  lemma EvidenceConflicts(world: set<Record>, capacity: nat, run: seq<Pair>)
    requires IsRun(capacity, run) && Meeting(world, run[0]) && Finished(run[|run| - 1])
    requires run[0].left.quarantine == [] == run[0].right.quarantine
    ensures var a, b, end := run[0].left.rows, run[0].right.rows, run[|run| - 1];
            && (forall r :: r in end.left.quarantine ==> Conflicts(b, a, r))
            && (forall r :: r in end.right.quarantine ==> Conflicts(a, b, r))
  {
    ExchangeOutcome(world, capacity, run);
  }

  lemma RunMeets(capacity: nat, run: seq<Pair>)
    requires IsRun(capacity, run) && run[0].left.rows == ONE_LINE && run[0].right.rows == TWO_LINES
    ensures Meeting(ONE_LINE.Values + TWO_LINES.Values, run[0])
  {
    TwinArchives();
  }

  lemma OneDisagreement(id: Id)
    ensures Disagree(ONE_LINE, TWO_LINES, id) || Disagree(TWO_LINES, ONE_LINE, id) ==> id == Id("twin", 1)
  {}

  lemma OnlyEvidence(theirs: Table, mine: Table, r: Record)
    requires Conflicts(theirs, mine, r) && ((theirs == ONE_LINE && mine == TWO_LINES) || (theirs == TWO_LINES && mine == ONE_LINE))
    ensures r == theirs[Id("twin", 1)]
  {
    OneDisagreement(IdOf(r));
  }

  function AboutToExchange(t: Table): Side {
    Side("twin", t, [], End(Announce(t, "twin"), Announcing, [], None, true, 0, 0, NOTHING))
  }

  /** And such an exchange there is. */
  lemma TwinsCanExchange(capacity: nat) returns (run: seq<Pair>)
    ensures IsRun(capacity, run) && Finished(run[|run| - 1])
    ensures run[0] == Pair(AboutToExchange(ONE_LINE), AboutToExchange(TWO_LINES))
    ensures run[|run| - 1].left.quarantine == [] == run[|run| - 1].right.quarantine
  {
    hide Step, Finished, Dense, Disagree;
    var p0 := Pair(AboutToExchange(ONE_LINE), AboutToExchange(TWO_LINES));
    TwinArchives();
    run := RunCanFinish(capacity, [p0], ONE_LINE.Keys + TWO_LINES.Keys);
    assert run[0] == p0;
    OneExchangeMisses(capacity, run);
  }
}
