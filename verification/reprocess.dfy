/** Re-extraction as a resumable walk: any number of passes, each stopped anywhere,
    over an archive that is being appended to all the while. */
module Reprocess {
  import opened Records
  import opened Sets
  import opened Store
  import opened Exchange
  import opened Extraction

  // ---- Passes among everything else ----

  /** Where a pass is: it has read the vector; it is at `after` in the first origin
      of `todo`; it holds a batch it read and has not saved. */
  datatype Pass =
    | Planned(vector: map<Origin, int>)
    | Walking(vector: map<Origin, int>, start: Marks, todo: seq<Origin>, after: int)
    | Holding(vector: map<Origin, int>, start: Marks, todo: seq<Origin>, batch: seq<Record>)

  datatype State = State(rows: Table, marks: Marks, passes: map<nat, Pass>)

  datatype Setup = Setup(read: Reader, version: int, limit: nat, self: Origin)

  /** A pass enters the first of the origins left. */
  function Enter(c: Setup, vector: map<Origin, int>, start: Marks, todo: seq<Origin>): Pass {
    Pass.Walking(vector, start, todo, if todo == [] then 0 else Mark(start, todo[0], c.version))
  }

  function LookOn(c: Setup, t: Table, p: Pass): Pass
    requires p.Walking? && p.todo != []
  {
    var o := p.todo[0];
    var batch := Since(t, o, p.after, c.limit);
    if Told(p.vector, o) <= p.after || batch == [] then Enter(c, p.vector, p.start, p.todo[1..])
    else Holding(p.vector, p.start, p.todo, batch)
  }

  function UpTo(batch: seq<Record>): int
    requires batch != []
  {
    batch[|batch| - 1].num
  }

  ghost predicate Move(c: Setup, s: State, s': State) {
    || (exists t :: AppendsAbove(s.rows, t) && WellKeyed(t) && s' == s.(rows := t))
    || (exists j, p :: s' == s.(passes := s.passes[j := p]) && Turn(c, s, j, p))
    || (exists j :: j in s.passes && s.passes[j].Holding? && s.passes[j].batch != [] && s.passes[j].todo != [] && s' == Saved(c, s, j))
  }

  /** A pass begins, or goes on without writing. */
  ghost predicate Turn(c: Setup, s: State, j: nat, p: Pass) {
    if j !in s.passes then p == Planned(Vector(s.rows, c.self))
    else
      match s.passes[j]
      case Planned(vector) => exists todo :: p == Enter(c, vector, s.marks, todo)
      case Walking(_, _, todo, _) => todo != [] && p == LookOn(c, s.rows, s.passes[j])
      case Holding(_, _, _, _) => false
  }

  /** `SaveExtracted`: rows and mark in one transaction, and the pass is past it. */
  function Saved(c: Setup, s: State, j: nat): State
    requires j in s.passes && s.passes[j].Holding? && s.passes[j].batch != [] && s.passes[j].todo != []
  {
    var p := s.passes[j];
    State(Update(s.rows, Reextract(c.read, p.batch)), Advance(s.marks, p.todo[0], c.version, UpTo(p.batch)),
          s.passes[j := Pass.Walking(p.vector, p.start, p.todo, UpTo(p.batch))])
  }

  // ---- What every reachable state satisfies ----

  /** The record as it was read, or better. */
  ghost predicate Fresh(c: Setup, t: Table, r: Record) {
    IdOf(r) in t && Core(t[IdOf(r)]) == Core(r) && (t[IdOf(r)].columns == r.columns || Right(c.read, t[IdOf(r)]))
  }

  ghost predicate HeldBatchOk(c: Setup, t: Table, marks: Marks, o: Origin, batch: seq<Record>) {
    && batch != [] && UpTo(batch) <= Watermark(t, o)
    && (forall r :: r in batch ==> r.origin == o && Fresh(c, t, r))
    && (forall id :: id in t && id.origin == o && id.num <= UpTo(batch) ==>
          id.num <= Mark(marks, o, c.version) || exists r :: r in batch && IdOf(r) == id)
  }

  ghost predicate PassOk(c: Setup, t: Table, marks: Marks, p: Pass) {
    match p
    case Planned(_) => true
    case Walking(_, start, todo, after) =>
      Upward(start, marks, c.version) && (todo != [] ==> after <= Mark(marks, todo[0], c.version))
    case Holding(_, start, todo, batch) =>
      Upward(start, marks, c.version) && todo != [] && HeldBatchOk(c, t, marks, todo[0], batch)
  }

  ghost predicate StateOk(c: Setup, s: State) {
    && 0 < c.limit && WellKeyed(s.rows) && Truthful(s.rows, s.marks, c.version, c.read)
    && forall j :: j in s.passes ==> PassOk(c, s.rows, s.marks, s.passes[j])
  }

  lemma AppendKeepsPass(c: Setup, t: Table, t': Table, marks: Marks, p: Pass)
    requires PassOk(c, t, marks, p) && WellKeyed(t) && WellKeyed(t') && AppendsAbove(t, t')
    ensures PassOk(c, t', marks, p)
  {
    if p.Holding? {
      WatermarkRises(t, t', p.todo[0]);
    }
  }

  lemma SaveKeepsPass(c: Setup, t: Table, t': Table, marks: Marks, marks': Marks, p: Pass)
    requires PassOk(c, t, marks, p) && Improves(t, t', c.read) && Upward(marks, marks', c.version)
    ensures PassOk(c, t', marks', p)
  {
    if p.Holding? {
      ImprovesKeepsWatermarks(t, t', p.todo[0]);
      forall r | r in p.batch ensures Fresh(c, t', r) {
        assert Fresh(c, t, r);
        assert t'[IdOf(r)] == t[IdOf(r)] || Right(c.read, t'[IdOf(r)]);
      }
      assert forall id :: id in t' <==> id in t;
    }
  }

  lemma AdvancesOne(marks: Marks, o: Origin, version: int, upTo: int)
    ensures forall q :: Mark(Advance(marks, o, version, upTo), q, version) ==
              if q != o then Mark(marks, q, version)
              else if Walked(o, version) in marks && upTo < Mark(marks, o, version) then Mark(marks, o, version) else upTo
  {}

  /** Saving a batch makes every record it covers right before the mark says so. */
  lemma SaveKeepsTruth(c: Setup, t: Table, marks: Marks, o: Origin, batch: seq<Record>)
    requires WellKeyed(t) && Truthful(t, marks, c.version, c.read) && HeldBatchOk(c, t, marks, o, batch)
    ensures var t', marks' := Update(t, Reextract(c.read, batch)), Advance(marks, o, c.version, UpTo(batch));
            && Truthful(t', marks', c.version, c.read) && Improves(t, t', c.read) && Upward(marks, marks', c.version)
            && WellKeyed(t') && UpTo(batch) <= Mark(marks', o, c.version)
  {
    var rows := Reextract(c.read, batch);
    var t', marks' := Update(t, rows), Advance(marks, o, c.version, UpTo(batch));
    BatchIsSincere(c, t, marks, o, batch);
    UpdateImproves(t, rows, c.read);
    var last := batch[|batch| - 1];
    assert last in batch && Fresh(c, t, last) && IdOf(last) in t && 0 < IdOf(last).num;
    AdvancesOne(marks, o, c.version, UpTo(batch));
    forall id | id in t' && id.num <= Mark(marks', id.origin, c.version) ensures Right(c.read, t'[id]) {
      CoveredIsRight(c, t, marks, o, batch, id);
    }
    forall q ensures 0 <= Mark(marks', q, c.version) <= Watermark(t', q) {
      ImprovesKeepsWatermarks(t, t', q);
    }
    ImprovesKeepsKeys(t, t', c.read);
  }

  lemma ImprovesKeepsKeys(t: Table, t': Table, read: Reader)
    requires WellKeyed(t) && Improves(t, t', read)
    ensures WellKeyed(t')
  {
    forall id | id in t' ensures IdOf(t'[id]) == id && id.origin != "" && 0 < id.num {
      assert id in t && IdOf(Core(t'[id])) == IdOf(Core(t[id])) == id;
    }
  }

  lemma BatchIsSincere(c: Setup, t: Table, marks: Marks, o: Origin, batch: seq<Record>)
    requires HeldBatchOk(c, t, marks, o, batch)
    ensures Sincere(t, Reextract(c.read, batch), c.read)
  {
    var rows := Reextract(c.read, batch);
    ReextractIsRight(c.read, batch);
    forall e | e in rows && e.id in t ensures c.read(t[e.id].line.body) == Some(e.columns) {
      var r :| r in batch && e == Extracted(IdOf(r), e.columns) && c.read(r.line.body) == Some(e.columns);
      assert Fresh(c, t, r);
      assert Core(t[e.id]).line == Core(r).line;
    }
  }

  lemma CoveredIsRight(c: Setup, t: Table, marks: Marks, o: Origin, batch: seq<Record>, id: Id)
    requires Truthful(t, marks, c.version, c.read) && HeldBatchOk(c, t, marks, o, batch)
    requires var t' := Update(t, Reextract(c.read, batch));
             && Improves(t, t', c.read) && id in t'
             && (forall e :: e in Reextract(c.read, batch) && e.id in t ==> Right(c.read, t'[e.id]))
    requires id.num <= Mark(marks, id.origin, c.version) || (id.origin == o && id.num <= UpTo(batch))
    ensures Right(c.read, Update(t, Reextract(c.read, batch))[id])
  {
    assert id in t;
    if !(id.num <= Mark(marks, id.origin, c.version)) {
      var r :| r in batch && IdOf(r) == id;
      assert Fresh(c, t, r) && Core(t[id]).line == Core(r).line;
      ReextractIsRight(c.read, batch);
      if !Right(c.read, r) {
        var e := Extracted(id, c.read(r.line.body).value);
        assert e in Reextract(c.read, batch) && e.id in t;
      }
    }
  }

  lemma LookKeepsPass(c: Setup, t: Table, marks: Marks, p: Pass)
    requires 0 < c.limit && WellKeyed(t) && Truthful(t, marks, c.version, c.read)
    requires p.Walking? && p.todo != [] && PassOk(c, t, marks, p)
    ensures PassOk(c, t, marks, LookOn(c, t, p))
  {
    var o := p.todo[0];
    var batch := Since(t, o, p.after, c.limit);
    SinceIsNextStretch(t, o, p.after, c.limit);
    if batch != [] {
      WatermarkBounds(t, IdOf(batch[|batch| - 1]));
      forall r | r in batch ensures r.origin == o && Fresh(c, t, r) {}
      forall id | id in t && id.origin == o && id.num <= UpTo(batch)
        ensures id.num <= Mark(marks, o, c.version) || exists r :: r in batch && IdOf(r) == id
      {
        if p.after < id.num {
          assert id == Id(o, id.num) && t[id] in batch && IdOf(t[id]) == id;
        }
      }
    }
  }

  /** Whatever happens next, marks stay truthful and none retreats. */
  lemma MoveKeepsTruth(c: Setup, s: State, s': State)
    requires StateOk(c, s) && Move(c, s, s')
    ensures StateOk(c, s') && Upward(s.marks, s'.marks, c.version)
    ensures forall id :: id in s.rows ==> id in s'.rows && Core(s'.rows[id]) == Core(s.rows[id])
  {
    hide Update, Reextract, Advance;
    if exists t :: AppendsAbove(s.rows, t) && WellKeyed(t) && s' == s.(rows := t) {
      AppendKeepsState(c, s, s'.rows);
    } else if exists j, p :: s' == s.(passes := s.passes[j := p]) && Turn(c, s, j, p) {
      var j, p :| s' == s.(passes := s.passes[j := p]) && Turn(c, s, j, p);
      TurnKeepsState(c, s, j, p);
    } else {
      var j :| j in s.passes && s.passes[j].Holding? && s.passes[j].batch != [] && s.passes[j].todo != [] && s' == Saved(c, s, j);
      SaveKeepsState(c, s, j);
    }
  }

  lemma AppendKeepsState(c: Setup, s: State, t: Table)
    requires StateOk(c, s) && AppendsAbove(s.rows, t) && WellKeyed(t)
    ensures StateOk(c, s.(rows := t))
  {
    hide PassOk;
    AppendKeepsTruth(s.rows, t, s.marks, c.version, c.read);
    forall j | j in s.passes ensures PassOk(c, t, s.marks, s.passes[j]) {
      AppendKeepsPass(c, s.rows, t, s.marks, s.passes[j]);
    }
  }

  lemma TurnKeepsState(c: Setup, s: State, j: nat, p: Pass)
    requires StateOk(c, s) && Turn(c, s, j, p)
    ensures StateOk(c, s.(passes := s.passes[j := p]))
  {
    if j in s.passes && s.passes[j].Walking? {
      hide PassOk, Truthful, LookOn;
      LookKeepsPass(c, s.rows, s.marks, s.passes[j]);
    }
  }

  lemma SaveKeepsState(c: Setup, s: State, j: nat)
    requires StateOk(c, s) && j in s.passes && s.passes[j].Holding? && s.passes[j].batch != [] && s.passes[j].todo != []
    ensures StateOk(c, Saved(c, s, j)) && Upward(s.marks, Saved(c, s, j).marks, c.version)
    ensures Alike(s.rows, Saved(c, s, j).rows)
  {
    hide Update, Reextract, Advance, Truthful, HeldBatchOk;
    var p, s' := s.passes[j], Saved(c, s, j);
    assert PassOk(c, s.rows, s.marks, p);
    SaveKeepsTruth(c, s.rows, s.marks, p.todo[0], p.batch);
    forall i | i in s'.passes ensures PassOk(c, s'.rows, s'.marks, s'.passes[i]) {
      if i != j {
        SaveKeepsPass(c, s.rows, s'.rows, s.marks, s'.marks, s.passes[i]);
      }
    }
  }

  ghost predicate IsHistory(c: Setup, run: seq<State>) {
    && run != [] && 0 < c.limit && WellKeyed(run[0].rows) && run[0].marks == map[] && run[0].passes == map[]
    && forall i :: 0 <= i < |run| - 1 ==> Move(c, run[i], run[i + 1])
  }

  /** Over every run of appends and passes, started, interrupted and resumed in any
      way: an origin's mark is never above what is held of it, never moves down, and
      every record at or below it has the columns its body says, or cannot be read. */
  lemma {:induction false} MarksNeverOverstate(c: Setup, run: seq<State>, i: nat)
    requires IsHistory(c, run) && i < |run|
    ensures StateOk(c, run[i])
    ensures 0 < i ==> Upward(run[i - 1].marks, run[i].marks, c.version)
  {
    hide Move;
    if i == 0 {
      forall o ensures 0 <= Watermark(run[0].rows, o) {
        WatermarkRises(run[0].rows, run[0].rows, o);
      }
    } else {
      MarksNeverOverstate(c, run, i - 1);
      hide StateOk;
      assert Move(c, run[i - 1], run[i - 1 + 1]);
      MoveKeepsTruth(c, run[i - 1], run[i]);
    }
  }

  // ---- One pass, start to end ----

  lemma {:induction false} AscendingGoesOn(t: Table, o: Origin, after: int, k: nat)
    requires WellKeyed(t) && 0 < k <= |Ascending(t, o, after)|
    ensures Ascending(t, o, Ascending(t, o, after)[k - 1].num) == Ascending(t, o, after)[k..]
    decreases k
  {
    var all := Ascending(t, o, after);
    var s := Min(Above(t, o, after));
    AboveAt(t, o, after, s);
    AboveShrinks(t, o, after, s);
    assert all == [t[Id(o, s)]] + Ascending(t, o, s);
    assert IdOf(t[Id(o, s)]) == Id(o, s);
    if 1 < k {
      AscendingGoesOn(t, o, s, k - 1);
    }
  }

  lemma MoreToRead(t: Table, o: Origin, after: int, limit: nat)
    requires WellKeyed(t) && 0 < limit && 0 <= after < Watermark(t, o)
    ensures Since(t, o, after, limit) != []
  {
    SinceIsNextStretch(t, o, after, limit);
    var w := Watermark(t, o);
    assert w in Held(t, o);
    assert Id(o, w) in t;
  }

  lemma NothingAbove(t: Table, o: Origin, after: int)
    requires Watermark(t, o) <= after
    ensures |Above(t, o, after)| == 0
  {
    forall s ensures s !in Above(t, o, after) {
      AboveAt(t, o, after, s);
      if Id(o, s) in t { WatermarkBounds(t, Id(o, s)); }
    }
    assert Above(t, o, after) == {} by {
      if Above(t, o, after) != {} { var s := Min(Above(t, o, after)); }
    }
  }

  lemma ImprovesInPlace(t: Table, read: Reader)
    ensures Improves(t, t, read)
  {}

  lemma MarkIsNatural(t: Table, marks: Marks, version: int, read: Reader, o: Origin)
    requires Truthful(t, marks, version, read)
    ensures 0 <= Mark(marks, o, version) <= Watermark(t, o)
  {}

  lemma ImprovedWatermark(t: Table, t': Table, read: Reader, o: Origin)
    requires Improves(t, t', read)
    ensures Watermark(t', o) == Watermark(t, o)
  {
    ImprovesKeepsWatermarks(t, t', o);
  }

  datatype Stats = Stats(examined: int, updated: int, unreadable: int)

  function Plus(a: Stats, b: Stats): Stats {
    Stats(a.examined + b.examined, a.updated + b.updated, a.unreadable + b.unreadable)
  }

  /** What re-extracting these records comes to: all of them examined, those whose
      columns disagree with their body updated, those without a key counted. */
  function StatsOf(read: Reader, recs: seq<Record>): Stats {
    Stats(|recs|, |Reextract(read, recs)|, Unreadable(read, recs))
  }

  lemma NoStats(read: Reader)
    ensures StatsOf(read, []) == Stats(0, 0, 0)
  {}

  lemma OneMore(read: Reader, recs: seq<Record>, r: Record)
    ensures StatsOf(read, recs + [r]) == Plus(StatsOf(read, recs), StatsOf(read, [r]))
  {
    assert (recs + [r])[..|recs|] == recs && [r][..0] == [];
    assert |Reextract(read, [r])| == |Reextract(read, []) + Wants(read, r)|;
    assert Unreadable(read, [r]) == Unreadable(read, []) + if read(r.line.body).None? then 1 else 0;
    assert Unreadable(read, recs + [r]) == Unreadable(read, recs) + if read(r.line.body).None? then 1 else 0;
    assert |Reextract(read, recs + [r])| == |Reextract(read, recs) + Wants(read, r)|;
  }

  lemma {:induction false} StatsAdd(read: Reader, a: seq<Record>, b: seq<Record>)
    ensures StatsOf(read, a + b) == Plus(StatsOf(read, a), StatsOf(read, b))
    decreases |b|
  {
    hide StatsOf;
    if b == [] {
      assert a + b == a;
      NoStats(read);
    } else {
      var before, r := b[..|b| - 1], b[|b| - 1];
      StatsAdd(read, a, before);
      OneMore(read, a + before, r);
      OneMore(read, before, r);
      assert a + b == (a + before) + [r] && b == before + [r];
    }
  }

  /** What a pass over these origins still has to do. */
  function PassWork(c: Setup, t: Table, marks: Marks, origins: seq<Origin>): Stats {
    if origins == [] then Stats(0, 0, 0)
    else Plus(PassWork(c, t, marks, origins[1..]), StatsOf(c.read, Ascending(t, origins[0], Mark(marks, origins[0], c.version))))
  }

  // ---- The counts, told by the records ----

  /** The body can be read, and says something else than the columns. */
  predicate Differs(read: Reader, r: Record) {
    match read(r.line.body)
    case None => false
    case Some(want) => r.columns != want
  }

  function HowMany(recs: seq<Record>, p: Record -> bool): int {
    if recs == [] then 0 else HowMany(recs[..|recs| - 1], p) + if p(recs[|recs| - 1]) then 1 else 0
  }

  /** The counts of a stretch of records: all of them, the readable ones whose columns
      are not what their bodies say, and those that cannot be read. */
  ghost predicate CountsOf(read: Reader, recs: seq<Record>, stats: Stats) {
    && stats.examined == |recs|
    && stats.updated == HowMany(recs, (r: Record) => Differs(read, r))
    && stats.unreadable == HowMany(recs, (r: Record) => read(r.line.body).None?)
  }

  lemma {:induction false} StatsCount(read: Reader, recs: seq<Record>)
    ensures CountsOf(read, recs, StatsOf(read, recs))
    decreases |recs|
  {
    if recs != [] {
      StatsCount(read, recs[..|recs| - 1]);
    }
  }

  /** Every record above the marks, one origin after another. */
  ghost function AboveMarks(t: Table, marks: Marks, version: int, origins: seq<Origin>): seq<Record> {
    if origins == [] then []
    else AboveMarks(t, marks, version, origins[1..]) + Ascending(t, origins[0], Mark(marks, origins[0], version))
  }

  /** What a pass reports is counted over the records above the marks. */
  lemma {:induction false} PassWorkCounts(c: Setup, t: Table, marks: Marks, origins: seq<Origin>)
    ensures CountsOf(c.read, AboveMarks(t, marks, c.version, origins), PassWork(c, t, marks, origins))
    ensures PassWork(c, t, marks, origins) == StatsOf(c.read, AboveMarks(t, marks, c.version, origins))
    decreases |origins|
  {
    hide CountsOf, StatsOf;
    if origins == [] {
      NoStats(c.read);
    } else {
      PassWorkCounts(c, t, marks, origins[1..]);
      StatsAdd(c.read, AboveMarks(t, marks, c.version, origins[1..]), Ascending(t, origins[0], Mark(marks, origins[0], c.version)));
    }
    StatsCount(c.read, AboveMarks(t, marks, c.version, origins));
  }

  /** The rows of one origin above a sequence are the same in both. */
  ghost predicate SameAfter(t: Table, t': Table, o: Origin, after: int) {
    && t'.Keys == t.Keys
    && forall id :: id in t && id.origin == o && after < id.num ==> t'[id] == t[id]
  }

  lemma {:induction false} SameAscending(t: Table, t': Table, o: Origin, after: int)
    requires SameAfter(t, t', o, after)
    ensures Ascending(t', o, after) == Ascending(t, o, after)
    decreases |Above(t, o, after)|
  {
    assert forall id :: id in t' <==> id in t;
    assert Above(t', o, after) == Above(t, o, after);
    if Above(t, o, after) != {} {
      var s := Min(Above(t, o, after));
      AboveAt(t, o, after, s);
      AboveShrinks(t, o, after, s);
      SameAscending(t, t', o, s);
    }
  }

  /** The batch at `after` and the rows after it. */
  lemma BatchThenRest(t: Table, o: Origin, after: int, limit: nat)
    requires WellKeyed(t) && 0 < limit && Since(t, o, after, limit) != []
    ensures var batch := Since(t, o, after, limit);
            Ascending(t, o, after) == batch + Ascending(t, o, UpTo(batch))
  {
    var all, batch := Ascending(t, o, after), Since(t, o, after, limit);
    assert batch == all[..|batch|];
    AscendingGoesOn(t, o, after, |batch|);
    assert all == all[..|batch|] + all[|batch|..];
  }

  lemma NothingAscends(t: Table, o: Origin, after: int)
    requires Watermark(t, o) <= after
    ensures Ascending(t, o, after) == []
  {
    NothingAbove(t, o, after);
  }

  /** Saving a batch changes rows of its own origin only, none after the batch. */
  lemma SaveTouchesBatch(read: Reader, t: Table, o: Origin, batch: seq<Record>)
    requires batch != [] && forall r :: r in batch ==> r.origin == o && r.num <= UpTo(batch)
    ensures var t' := Update(t, Reextract(read, batch));
            && t'.Keys == t.Keys
            && forall id :: id in t && (id.origin != o || UpTo(batch) < id.num) ==> t'[id] == t[id]
  {
    ReextractIsRight(read, batch);
    forall e | e in Reextract(read, batch) ensures e.id.origin == o && e.id.num <= UpTo(batch) {
      var r :| r in batch && e == Extracted(IdOf(r), e.columns) && read(r.line.body) == Some(e.columns);
    }
    UpdateTouches(t, Reextract(read, batch), o, UpTo(batch));
  }

  lemma {:induction false} UpdateTouches(t: Table, rows: seq<Extracted>, o: Origin, upTo: int)
    requires forall e :: e in rows ==> e.id.origin == o && e.id.num <= upTo
    ensures Update(t, rows).Keys == t.Keys
    ensures forall id :: id in t && (id.origin != o || upTo < id.num) ==> Update(t, rows)[id] == t[id]
    decreases |rows|
  {
    if rows != [] {
      var before := rows[..|rows| - 1];
      assert rows[|rows| - 1] in rows && forall e :: e in before ==> e in rows;
      UpdateTouches(t, before, o, upTo);
    }
  }

  /** Rows of other origins, and of this one above `after`, are as they were. */
  ghost predicate Untouched(t: Table, t': Table, o: Origin, after: int) {
    SameAfter(t, t', o, after) && forall id :: id in t && id.origin != o ==> t'[id] == t[id]
  }

  /** The batch read at the mark is one that may be saved, and is the work that comes next. */
  lemma BatchIsReady(c: Setup, t0: Table, t: Table, marks: Marks, o: Origin, after: int)
    requires 0 < c.limit && WellKeyed(t0) && WellKeyed(t) && Truthful(t, marks, c.version, c.read)
    requires Untouched(t0, t, o, after) && after == Mark(marks, o, c.version) < Watermark(t, o)
    ensures var batch := Since(t, o, after, c.limit);
            && batch != [] && HeldBatchOk(c, t, marks, o, batch) && after < UpTo(batch) <= Watermark(t, o)
            && StatsOf(c.read, Ascending(t0, o, after)) == Plus(StatsOf(c.read, batch), StatsOf(c.read, Ascending(t0, o, UpTo(batch))))
  {
    var batch := Since(t, o, after, c.limit);
    MarkIsNatural(t, marks, c.version, c.read, o);
    MoreToRead(t, o, after, c.limit);
    LookKeepsPass(c, t, marks, Pass.Walking(map[o := Watermark(t, o)], marks, [o], after));
    SinceIsNextStretch(t, o, after, c.limit);
    hide StatsOf, Truthful, HeldBatchOk, Ascending;
    SameAscending(t0, t, o, after);
    BatchThenRest(t0, o, after, c.limit);
    StatsAdd(c.read, batch, Ascending(t0, o, UpTo(batch)));
  }

  /** After the batch is saved, what is above it is still untouched. */
  lemma StillUntouched(c: Setup, t0: Table, t: Table, o: Origin, after: int, batch: seq<Record>)
    requires Untouched(t0, t, o, after) && batch != [] && after <= UpTo(batch)
    requires forall r :: r in batch ==> r.origin == o && r.num <= UpTo(batch)
    ensures Untouched(t0, Update(t, Reextract(c.read, batch)), o, UpTo(batch))
  {
    SaveTouchesBatch(c.read, t, o, batch);
    var t' := Update(t, Reextract(c.read, batch));
    assert t0.Keys == t.Keys == t'.Keys;
    assert forall id :: id in t0 <==> id in t;
  }

  lemma BatchEndsAtUpTo(t: Table, o: Origin, after: int, limit: nat)
    requires WellKeyed(t)
    ensures var batch := Since(t, o, after, limit); forall r :: r in batch ==> r.origin == o && r.num <= UpTo(batch)
  {
    AscendingLists(t, o, after);
    var all, batch := Ascending(t, o, after), Since(t, o, after, limit);
    forall r | r in batch ensures r.origin == o && r.num <= UpTo(batch) {
      var i :| 0 <= i < |batch| && batch[i] == r;
      assert all[i] == batch[i] && all[|batch| - 1] == batch[|batch| - 1];
    }
  }

  lemma UntouchedInPlace(t: Table, o: Origin, from: int, high: int)
    ensures Untouched(t, t, o, from) && Untouched(t, t, o, high)
  {}

  lemma UntouchedAbove(t: Table, t': Table, o: Origin, after: int, high: int)
    requires Untouched(t, t', o, after) && after <= high
    ensures Untouched(t, t', o, high)
  {}

  lemma NothingOwed(c: Setup, t: Table, o: Origin, after: int)
    requires Watermark(t, o) <= after
    ensures StatsOf(c.read, Ascending(t, o, after)) == Stats(0, 0, 0)
  {
    NothingAscends(t, o, after);
  }

  /** A walk of one origin that began with `t0` and `was` has come to `after`. */
  ghost predicate WalkedTo(c: Setup, t0: Table, was: Marks, o: Origin, t: Table, marks: Marks, after: int, stats: Stats) {
    var from := Mark(was, o, c.version);
    && from <= after == Mark(marks, o, c.version) && WellKeyed(t0)
    && Improves(t0, t, c.read) && Untouched(t0, t, o, after)
    && (after == from ==> t == t0 && marks == was && stats == Stats(0, 0, 0))
    && (forall q :: q != o ==> Mark(marks, q, c.version) == Mark(was, q, c.version))
    && Plus(stats, StatsOf(c.read, Ascending(t0, o, after))) == StatsOf(c.read, Ascending(t0, o, from))
  }

  lemma WalkStarts(c: Setup, t: Table, marks: Marks, o: Origin)
    requires WellKeyed(t) && Truthful(t, marks, c.version, c.read)
    ensures WalkedTo(c, t, marks, o, t, marks, Mark(marks, o, c.version), Stats(0, 0, 0))
    ensures 0 <= Mark(marks, o, c.version) <= Watermark(t, o)
  {
    var from := Mark(marks, o, c.version);
    ImprovesInPlace(t, c.read);
    MarkIsNatural(t, marks, c.version, c.read, o);
    UntouchedInPlace(t, o, from, from);
  }

  /** There is a batch to be read, and it is what comes next. */
  lemma WalkReads(c: Setup, t0: Table, was: Marks, o: Origin, t: Table, marks: Marks, after: int, stats: Stats)
    requires 0 < c.limit && WellKeyed(t) && Truthful(t, marks, c.version, c.read)
    requires WalkedTo(c, t0, was, o, t, marks, after, stats) && after < Watermark(t, o)
    ensures var batch := Since(t, o, after, c.limit);
            && batch != [] && HeldBatchOk(c, t, marks, o, batch) && after < UpTo(batch) <= Watermark(t, o)
            && (forall r :: r in batch ==> r.origin == o && r.num <= UpTo(batch))
            && StatsOf(c.read, Ascending(t0, o, after)) == Plus(StatsOf(c.read, batch), StatsOf(c.read, Ascending(t0, o, UpTo(batch))))
  {
    hide Truthful, Ascending, Since, HeldBatchOk, Improves, Untouched, StatsOf;
    BatchIsReady(c, t0, t, marks, o, after);
    BatchEndsAtUpTo(t, o, after, c.limit);
  }

  /** Saving it takes the walk to its end. */
  lemma WalkSaves(c: Setup, t0: Table, was: Marks, o: Origin, t: Table, marks: Marks, after: int, stats: Stats, batch: seq<Record>)
    requires WellKeyed(t) && Truthful(t, marks, c.version, c.read) && WalkedTo(c, t0, was, o, t, marks, after, stats)
    requires batch != [] && HeldBatchOk(c, t, marks, o, batch) && after < UpTo(batch)
    requires forall r :: r in batch ==> r.origin == o && r.num <= UpTo(batch)
    requires StatsOf(c.read, Ascending(t0, o, after)) == Plus(StatsOf(c.read, batch), StatsOf(c.read, Ascending(t0, o, UpTo(batch))))
    ensures var rows := Reextract(c.read, batch);
            var t', marks' := Update(t, rows), Advance(marks, o, c.version, UpTo(batch));
            && WellKeyed(t') && Truthful(t', marks', c.version, c.read) && Watermark(t', o) == Watermark(t, o)
            && WalkedTo(c, t0, was, o, t', marks', UpTo(batch), Plus(stats, StatsOf(c.read, batch)))
  {
    hide Truthful, Ascending, HeldBatchOk, Improves, Untouched, StatsOf, Update, Reextract, Advance, Watermark, WellKeyed;
    var t' := Update(t, Reextract(c.read, batch));
    SaveKeepsTruth(c, t, marks, o, batch);
    StillUntouched(c, t0, t, o, after, batch);
    AdvancesOne(marks, o, c.version, UpTo(batch));
    ImprovesOn(t0, t, t', c.read);
    ImprovedWatermark(t, t', c.read, o);
  }

  /** What a walk that stops at `after` has done. */
  lemma WalkStops(c: Setup, t0: Table, was: Marks, o: Origin, t: Table, marks: Marks, after: int, stats: Stats, high: int)
    requires WalkedTo(c, t0, was, o, t, marks, after, stats) && after <= high == Watermark(t, o)
    ensures var from := Mark(was, o, c.version);
            && Improves(t0, t, c.read) && Untouched(t0, t, o, high)
            && (forall q :: q != o ==> Mark(marks, q, c.version) == Mark(was, q, c.version))
            && from <= after == Mark(marks, o, c.version) && high == Watermark(t0, o)
            && (after == high ==> stats == StatsOf(c.read, Ascending(t0, o, from)))
            && (from == high ==> stats == Stats(0, 0, 0) && t == t0 && marks == was)
  {
    hide Ascending, StatsOf, Improves, Untouched, Watermark;
    UntouchedAbove(t0, t, o, after, high);
    ImprovedWatermark(t0, t, c.read, o);
    if after == high {
      NothingOwed(c, t0, o, after);
    }
  }

  class Reprocessor {
    const archive: Archive
    const c: Setup
    var marks: Marks

    constructor (archive: Archive, read: Reader, version: int, limit: nat)
      ensures this.archive == archive && c.read == read && c.version == version && 0 < c.limit && marks == map[]
    {
      this.archive, marks := archive, map[];
      c := Setup(read, version, if limit == 0 then 1000 else limit, archive.origin);
    }

    ghost predicate Ok()
      reads this, archive
    {
      0 < c.limit && WellKeyed(archive.rows) && Truthful(archive.rows, marks, c.version, c.read)
    }

    method Reextract(batch: seq<Record>) returns (rows: seq<Extracted>, unreadable: nat)
      ensures rows == Extraction.Reextract(c.read, batch) && unreadable == Unreadable(c.read, batch)
    {
      rows, unreadable := [], 0;
      for i := 0 to |batch|
        invariant rows == Extraction.Reextract(c.read, batch[..i]) && unreadable == Unreadable(c.read, batch[..i])
      {
        assert batch[..i + 1][..i] == batch[..i];
        var r := batch[i];
        match c.read(r.line.body)
        case None => unreadable := unreadable + 1;
        case Some(want) =>
          if want != r.columns {
            rows := rows + [Extracted(IdOf(r), want)];
          }
      }
      assert batch[..|batch|] == batch;
    }

    /** `SaveExtracted`: everything, or on a failure nothing. */
    method SaveExtracted(o: Origin, upTo: int, rows: seq<Extracted>) returns (ok: bool)
      modifies archive`rows, this`marks
      ensures ok ==> archive.rows == Update(old(archive.rows), rows) && marks == Advance(old(marks), o, c.version, upTo)
      ensures !ok ==> archive.rows == old(archive.rows) && marks == old(marks)
    {
      var tx := archive.rows;
      for i := 0 to |rows|
        invariant tx == Update(archive.rows, rows[..i])
      {
        assert rows[..i + 1][..i] == rows[..i];
        var e := rows[i];
        if e.id in tx {
          tx := tx[e.id := tx[e.id].(columns := e.columns)];
        }
      }
      assert rows[..|rows|] == rows;
      ok := *;
      if ok {
        archive.rows, marks := tx, Advance(marks, o, c.version, upTo);
      }
    }

    /** One origin, from its mark to the end of what the vector said is held. */
    method WalkOrigin(o: Origin, from: int, high: int) returns (ok: bool, stats: Stats)
      requires Ok() && from == Mark(marks, o, c.version) && high == Watermark(archive.rows, o)
      modifies archive`rows, this`marks
      ensures Ok() && Improves(old(archive.rows), archive.rows, c.read) && Untouched(old(archive.rows), archive.rows, o, high)
      ensures forall q :: q != o ==> Mark(marks, q, c.version) == Mark(old(marks), q, c.version)
      ensures Mark(old(marks), o, c.version) <= Mark(marks, o, c.version)
      ensures ok ==> Mark(marks, o, c.version) == high && stats == StatsOf(c.read, Ascending(old(archive.rows), o, from))
      ensures from == high ==> ok && stats == Stats(0, 0, 0) && archive.rows == old(archive.rows) && marks == old(marks)
    {
      hide Truthful, Update, Advance, Extraction.Reextract, Unreadable, Ascending, Since, WalkedTo, WellKeyed;
      ghost var t0, was := archive.rows, marks;
      var after := from;
      stats := Stats(0, 0, 0);
      WalkStarts(c, t0, was, o);
      while after < high
        invariant Ok() && from <= after <= high && WalkedTo(c, t0, was, o, archive.rows, marks, after, stats)
        invariant high == Watermark(archive.rows, o)
        decreases high - after
      {
        WalkReads(c, t0, was, o, archive.rows, marks, after, stats);
        var batch := Since(archive.rows, o, after, c.limit);
        var upTo := batch[|batch| - 1].num;
        var rows, unreadable := Reextract(batch);
        WalkSaves(c, t0, was, o, archive.rows, marks, after, stats, batch);
        var saved := SaveExtracted(o, upTo, rows);
        if !saved {
          WalkStops(c, t0, was, o, archive.rows, marks, after, stats, high);
          return false, stats;
        }
        stats := Stats(stats.examined + |batch|, stats.updated + |rows|, stats.unreadable + unreadable);
        after := upTo;
        var cancelled: bool := *;
        if cancelled {
          WalkStops(c, t0, was, o, archive.rows, marks, after, stats, high);
          return false, stats;
        }
      }
      WalkStops(c, t0, was, o, archive.rows, marks, after, stats, high);
      ok := true;
    }

    /** `Pass`, over the origins of the vector in the order given. However it ends,
        the marks are truthful and no mark has moved down. One that runs to its end
        has done exactly the work above the marks, and leaves none: every mark is at
        its watermark and every record is right, so the next pass does nothing. */
    method RunPass(origins: seq<Origin>) returns (ok: bool, stats: Stats)
      requires Ok() && Distinctly(origins)
      requires forall o :: o in origins <==> o in Vector(archive.rows, archive.origin)
      modifies archive`rows, this`marks
      ensures Ok() && Improves(old(archive.rows), archive.rows, c.read) && Upward(old(marks), marks, c.version)
      ensures ok ==> stats == PassWork(c, old(archive.rows), old(marks), origins)
      ensures ok ==> CountsOf(c.read, AboveMarks(old(archive.rows), old(marks), c.version, origins), stats)
      ensures ok ==> AllRight(c.read, archive.rows)
      ensures ok ==> AtTheEnd(c, archive.rows, marks)
      ensures AtTheEnd(c, old(archive.rows), old(marks)) ==>
                ok && Idle(old(archive.rows), old(marks), archive.rows, marks, stats)
    {
      hide Truthful, PassedSoFar, Walk, Idle, AllRight, AtTheEnd, Watermark, Mark, StatsOf, PassWork, CountsOf, AboveMarks, Improves, Upward;
      var vector := Vector(archive.rows, archive.origin);
      var start := marks;
      ghost var t0 := archive.rows;
      stats := Stats(0, 0, 0);
      NothingPassed(c, t0, start, origins);
      for i := 0 to |origins|
        invariant Ok() && PassedSoFar(c, t0, start, origins, i, archive.rows, marks, stats)
      {
        var o := origins[i];
        ghost var t, was := archive.rows, marks;
        assert o in vector;
        ReadyForNext(c, t0, start, origins, i, t, was, stats);
        var walked, s := WalkOrigin(o, Mark(start, o, c.version), vector[o]);
        assert Walk(c, t, was, o, walked, archive.rows, marks, s) by {
          WalkedSo(c, t, was, o, walked, archive.rows, marks, s);
        }
        PassedOn(c, t0, start, origins, i, t, was, stats, o, walked, archive.rows, marks, s);
        stats := Plus(stats, s);
        if !walked {
          return false, stats;
        }
      }
      ok := true;
      PassWorkCounts(c, t0, start, origins);
      AllPassed(c, t0, start, origins, archive.rows, marks, stats, archive.origin);
    }
  }

  /** How far a pass has come after `i` origins: the rest is as it was, these are at
      their watermarks, and the work done and left is the work there was. */
  ghost predicate PassedSoFar(c: Setup, t0: Table, start: Marks, origins: seq<Origin>, i: nat, t: Table, marks: Marks, stats: Stats) {
    && i <= |origins|
    && Improves(t0, t, c.read) && LeftAlone(t0, t, origins[i..]) && Marked(c, t0, start, origins, i, marks)
    && Plus(stats, PassWork(c, t0, start, origins[i..])) == PassWork(c, t0, start, origins)
    && (AtTheEnd(c, t0, start) ==> Idle(t0, start, t, marks, stats))
  }

  /** The first `i` origins are marked at their watermarks, the others as they were. */
  ghost predicate Marked(c: Setup, t0: Table, start: Marks, origins: seq<Origin>, i: nat, marks: Marks)
    requires i <= |origins|
  {
    && Upward(start, marks, c.version)
    && (forall j :: i <= j < |origins| ==> Mark(marks, origins[j], c.version) == Mark(start, origins[j], c.version))
    && (forall j :: 0 <= j < i ==> Mark(marks, origins[j], c.version) == Watermark(t0, origins[j]))
  }

  lemma MarkedOn(c: Setup, t0: Table, start: Marks, origins: seq<Origin>, i: nat, marks: Marks, marks': Marks)
    requires i < |origins| && Distinctly(origins) && Marked(c, t0, start, origins, i, marks)
    requires forall q :: q != origins[i] ==> Mark(marks', q, c.version) == Mark(marks, q, c.version)
    requires Mark(marks, origins[i], c.version) <= Mark(marks', origins[i], c.version)
    ensures Upward(start, marks', c.version)
    ensures Mark(marks', origins[i], c.version) == Watermark(t0, origins[i]) ==> Marked(c, t0, start, origins, i + 1, marks')
  {
    hide Mark, Watermark;
    forall q ensures Mark(start, q, c.version) <= Mark(marks', q, c.version) {
      assert Mark(start, q, c.version) <= Mark(marks, q, c.version);
    }
  }

  lemma WorkOn(c: Setup, t0: Table, start: Marks, origins: seq<Origin>, i: nat)
    requires i < |origins|
    ensures PassWork(c, t0, start, origins[i..]) ==
              Plus(PassWork(c, t0, start, origins[i + 1..]), StatsOf(c.read, Ascending(t0, origins[i], Mark(start, origins[i], c.version))))
  {
    assert origins[i..][0] == origins[i] && origins[i..][1..] == origins[i + 1..];
  }

  ghost predicate AllRight(read: Reader, t: Table) {
    forall id :: id in t ==> Right(read, t[id])
  }

  /** Nothing was done. */
  ghost predicate Idle(t0: Table, start: Marks, t: Table, marks: Marks, stats: Stats) {
    stats == Stats(0, 0, 0) && t == t0 && marks == start
  }

  /** Every mark is at its watermark. */
  ghost predicate AtTheEnd(c: Setup, t: Table, marks: Marks) {
    forall o :: Mark(marks, o, c.version) == Watermark(t, o)
  }

  /** What walking one origin does. */
  ghost predicate Walk(c: Setup, t: Table, marks: Marks, o: Origin, ok: bool, t': Table, marks': Marks, s: Stats) {
    && Improves(t, t', c.read) && Untouched(t, t', o, Watermark(t, o))
    && (forall q :: q != o ==> Mark(marks', q, c.version) == Mark(marks, q, c.version))
    && Mark(marks, o, c.version) <= Mark(marks', o, c.version)
    && (ok ==> Mark(marks', o, c.version) == Watermark(t, o) && s == StatsOf(c.read, Ascending(t, o, Mark(marks, o, c.version))))
    && (Mark(marks, o, c.version) == Watermark(t, o) ==> ok && Idle(t, marks, t', marks', s))
  }

  lemma WalkedSo(c: Setup, t: Table, marks: Marks, o: Origin, ok: bool, t': Table, marks': Marks, s: Stats)
    requires Improves(t, t', c.read) && Untouched(t, t', o, Watermark(t, o))
    requires forall q :: q != o ==> Mark(marks', q, c.version) == Mark(marks, q, c.version)
    requires Mark(marks, o, c.version) <= Mark(marks', o, c.version)
    requires ok ==> Mark(marks', o, c.version) == Watermark(t, o) && s == StatsOf(c.read, Ascending(t, o, Mark(marks, o, c.version)))
    requires Mark(marks, o, c.version) == Watermark(t, o) ==> ok && s == Stats(0, 0, 0) && t' == t && marks' == marks
    ensures Walk(c, t, marks, o, ok, t', marks', s)
  {}

  lemma NothingPassed(c: Setup, t: Table, start: Marks, origins: seq<Origin>)
    ensures PassedSoFar(c, t, start, origins, 0, t, start, Stats(0, 0, 0))
  {
    assert origins[0..] == origins;
  }

  lemma ReadyForNext(c: Setup, t0: Table, start: Marks, origins: seq<Origin>, i: nat, t: Table, marks: Marks, stats: Stats)
    requires i < |origins| && PassedSoFar(c, t0, start, origins, i, t, marks, stats)
    ensures Mark(marks, origins[i], c.version) == Mark(start, origins[i], c.version)
    ensures Watermark(t, origins[i]) == Watermark(t0, origins[i])
  {
    ImprovedWatermark(t0, t, c.read, origins[i]);
  }

  lemma PassedOn(c: Setup, t0: Table, start: Marks, origins: seq<Origin>, i: nat, t: Table, marks: Marks, stats: Stats,
                 o: Origin, ok: bool, t': Table, marks': Marks, s: Stats)
    requires i < |origins| && o == origins[i] && Distinctly(origins) && PassedSoFar(c, t0, start, origins, i, t, marks, stats)
    requires Walk(c, t, marks, o, ok, t', marks', s)
    ensures Improves(t0, t', c.read) && Upward(start, marks', c.version)
    ensures AtTheEnd(c, t0, start) ==> ok && Idle(t0, start, t', marks', Plus(stats, s))
    ensures ok ==> PassedSoFar(c, t0, start, origins, i + 1, t', marks', Plus(stats, s))
  {
    hide Improves, LeftAlone, Untouched, StatsOf, Marked, PassWork, Mark, Watermark, Upward, Ascending, Distinctly, AtTheEnd;
    ReadyForNext(c, t0, start, origins, i, t, marks, stats);
    ImprovesOn(t0, t, t', c.read);
    LeftAloneStill(t0, t, t', origins, i, Watermark(t, origins[i]));
    MarkedOn(c, t0, start, origins, i, marks, marks');
    BookedOn(c, t0, start, origins, i, t, marks, stats);
    IdleOn(c, t0, start, origins, i, t, marks, stats);
  }

  lemma BookedOn(c: Setup, t0: Table, start: Marks, origins: seq<Origin>, i: nat, t: Table, marks: Marks, stats: Stats)
    requires i < |origins| && PassedSoFar(c, t0, start, origins, i, t, marks, stats)
    ensures var s := StatsOf(c.read, Ascending(t, origins[i], Mark(start, origins[i], c.version)));
            Plus(Plus(stats, s), PassWork(c, t0, start, origins[i + 1..])) == PassWork(c, t0, start, origins)
  {
    hide Improves, StatsOf, Marked, PassWork, Mark, Ascending, AtTheEnd;
    WorkOn(c, t0, start, origins, i);
    LeftAloneAscends(t0, t, origins[i..], Mark(start, origins[i], c.version));
  }

  lemma IdleOn(c: Setup, t0: Table, start: Marks, origins: seq<Origin>, i: nat, t: Table, marks: Marks, stats: Stats)
    requires i < |origins| && PassedSoFar(c, t0, start, origins, i, t, marks, stats)
    ensures AtTheEnd(c, t0, start) ==>
              Idle(t0, start, t, marks, stats) && Mark(marks, origins[i], c.version) == Watermark(t, origins[i])
  {
    hide Improves, LeftAlone, Marked, PassWork;
  }

  lemma AllPassed(c: Setup, t0: Table, start: Marks, origins: seq<Origin>, t: Table, marks: Marks, stats: Stats, self: Origin)
    requires PassedSoFar(c, t0, start, origins, |origins|, t, marks, stats) && Truthful(t, marks, c.version, c.read)
    requires forall o :: o in origins <==> o in Vector(t0, self)
    ensures stats == PassWork(c, t0, start, origins) && AtTheEnd(c, t, marks)
    ensures Improves(t0, t, c.read) && Upward(start, marks, c.version)
    ensures AllRight(c.read, t)
    ensures AtTheEnd(c, t0, start) ==> Idle(t0, start, t, marks, stats)
  {
    hide AtTheEnd, Idle, AllRight;
    AllBooked(c, t0, start, origins, t, marks, stats);
    hide PassedSoFar, Truthful, Improves, Upward, Watermark, Mark, Vector, Right, PassWork, Ascending;
    AllWalked(t0, t, marks, c, self, origins);
  }

  lemma NoWork(c: Setup, t: Table, marks: Marks, origins: seq<Origin>)
    requires origins == []
    ensures PassWork(c, t, marks, origins) == Stats(0, 0, 0)
  {}

  lemma AllBooked(c: Setup, t0: Table, start: Marks, origins: seq<Origin>, t: Table, marks: Marks, stats: Stats)
    requires PassedSoFar(c, t0, start, origins, |origins|, t, marks, stats)
    ensures stats == PassWork(c, t0, start, origins) && Improves(t0, t, c.read) && Upward(start, marks, c.version)
    ensures forall j :: 0 <= j < |origins| ==> Mark(marks, origins[j], c.version) == Watermark(t0, origins[j])
    ensures AtTheEnd(c, t0, start) ==> Idle(t0, start, t, marks, stats)
  {
    hide Improves, Upward, LeftAlone, Watermark, Mark, AtTheEnd, PassWork, Idle;
    NoWork(c, t0, start, origins[|origins|..]);
  }

  /** No row of these origins has changed yet. */
  ghost predicate LeftAlone(t: Table, t': Table, origins: seq<Origin>) {
    t'.Keys == t.Keys && forall id :: id in t && id.origin in origins ==> t'[id] == t[id]
  }

  lemma LeftAloneAscends(t: Table, t': Table, origins: seq<Origin>, after: int)
    requires LeftAlone(t, t', origins) && origins != []
    ensures Ascending(t', origins[0], after) == Ascending(t, origins[0], after)
  {
    SameAscending(t, t', origins[0], after);
  }

  lemma LeftAloneStill(t: Table, mid: Table, t': Table, origins: seq<Origin>, i: nat, high: int)
    requires i < |origins| && Distinctly(origins) && LeftAlone(t, mid, origins[i..]) && Untouched(mid, t', origins[i], high)
    ensures LeftAlone(t, t', origins[i + 1..])
  {
    assert t.Keys == mid.Keys == t'.Keys;
    forall id | id in t && id.origin in origins[i + 1..] ensures t'[id] == t[id] {
      var j :| i + 1 <= j < |origins| && origins[j] == id.origin;
      assert origins[i..][j - i] == id.origin && id in mid;
    }
  }

  ghost predicate Distinctly(origins: seq<Origin>) {
    forall i, j :: 0 <= i < j < |origins| ==> origins[i] != origins[j]
  }

  lemma AllWalked(t0: Table, t: Table, marks: Marks, c: Setup, self: Origin, origins: seq<Origin>)
    requires Truthful(t, marks, c.version, c.read) && Improves(t0, t, c.read)
    requires forall o :: o in origins <==> o in Vector(t0, self)
    requires forall j :: 0 <= j < |origins| ==> Mark(marks, origins[j], c.version) == Watermark(t0, origins[j])
    ensures AllRight(c.read, t)
    ensures AtTheEnd(c, t, marks)
  {
    forall o ensures Mark(marks, o, c.version) == Watermark(t, o) {
      ImprovesKeepsWatermarks(t0, t, o);
      if o in origins {
        var j :| 0 <= j < |origins| && origins[j] == o;
      } else {
        VectorAt(t0, self, o);
      }
    }
    forall id | id in t ensures Right(c.read, t[id]) {
      WatermarkBounds(t, id);
    }
  }

  // ---- What is pending ----

  /** How many records of these origins are still to be examined. */
  function Owed(t: Table, marks: Marks, version: int, origins: seq<Origin>): nat {
    if origins == [] then 0
    else Owed(t, marks, version, origins[1..]) + |Ascending(t, origins[0], Mark(marks, origins[0], version))|
  }

  lemma {:induction false} WorkExaminesWhatIsOwed(c: Setup, t: Table, marks: Marks, origins: seq<Origin>)
    ensures PassWork(c, t, marks, origins).examined == Owed(t, marks, c.version, origins)
    decreases |origins|
  {
    if origins != [] {
      WorkExaminesWhatIsOwed(c, t, marks, origins[1..]);
    }
  }

  /** `ExtractionPending`, over these origins. */
  function PendingRecords(t: Table, marks: Marks, version: int, origins: seq<Origin>): int {
    if origins == [] then 0
    else PendingRecords(t, marks, version, origins[1..]) + Watermark(t, origins[0]) - Mark(marks, origins[0], version)
  }

  /** Over gap-free origins the reported number is the number of records the next
      pass examines, and it is zero exactly when every mark is at its watermark. */
  lemma {:induction false} PendingIsOwed(t: Table, marks: Marks, version: int, read: Reader, origins: seq<Origin>)
    requires Truthful(t, marks, version, read) && Dense(t)
    ensures PendingRecords(t, marks, version, origins) == Owed(t, marks, version, origins)
    ensures PendingRecords(t, marks, version, origins) == 0 <==> forall o :: o in origins ==> Mark(marks, o, version) == Watermark(t, o)
    decreases |origins|
  {
    if origins != [] {
      var o := origins[0];
      PendingIsOwed(t, marks, version, read, origins[1..]);
      MarkIsNatural(t, marks, version, read, o);
      assert Prefix(t, o, Watermark(t, o));
      AscendingDense(t, o, Watermark(t, o), Mark(marks, o, version));
      assert forall q :: q in origins <==> q == o || q in origins[1..];
    }
  }
}
