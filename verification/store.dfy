/** One node's replica: the two append paths, as functions on the table and as
    the transactions that carry them out, and what appending promises. */
module Store {
  import opened Records
  import opened Sets
  import opened Digests

  /** `AppendResult`. */
  datatype Tally = Tally(stored: int, duplicates: int, forked: int, lastSeq: int)

  const NOTHING := Tally(0, 0, 0, 0)

  /** Both keys of the table hold. */
  ghost predicate Sound(t: Table) {
    WellKeyed(t) && Distinct(t)
  }

  /** `ON CONFLICT DO NOTHING`: the primary key or a semantic index refuses the row. */
  predicate Refused(t: Table, r: Record) {
    IdOf(r) in t || exists id :: id in t && SameLine(t[id], r)
  }

  predicate Addressed(r: Record) {
    r.origin != "" && 0 < r.num
  }

  lemma InsertKeepsSound(t: Table, r: Record)
    requires Sound(t) && Addressed(r) && !Refused(t, r)
    ensures Sound(t[IdOf(r) := r])
  {
    var t' := t[IdOf(r) := r];
    assert forall id :: id in t ==> !SameLine(t[id], r) && !SameLine(r, t[id]);
    assert Distinct(t');
  }

  // ---- Records this node collected ----

  datatype LocalRun = LocalRun(rows: Table, next: int, tally: Tally)

  function PlaceLocal(run: LocalRun, origin: Origin, r: Record): LocalRun {
    var placed := r.(origin := origin, num := run.next);
    if Refused(run.rows, placed) then
      run.(tally := run.tally.(duplicates := run.tally.duplicates + 1))
    else
      LocalRun(run.rows[IdOf(placed) := placed], run.next + 1,
               run.tally.(stored := run.tally.stored + 1, lastSeq := run.next))
  }

  function LocalBatch(t: Table, origin: Origin, recs: seq<Record>): LocalRun {
    if recs == [] then LocalRun(t, Watermark(t, origin) + 1, NOTHING)
    else PlaceLocal(LocalBatch(t, origin, recs[..|recs| - 1]), origin, recs[|recs| - 1])
  }

  // ---- Records a peer sent ----

  datatype RemoteRun = RemoteRun(rows: Table, quarantine: seq<Record>, tally: Tally)

  function PlaceRemote(run: RemoteRun, r: Record): RemoteRun {
    var tally := run.tally;
    if IdOf(r) in run.rows && run.rows[IdOf(r)].line.hash == r.line.hash then
      run.(tally := tally.(duplicates := tally.duplicates + 1))
    else if IdOf(r) in run.rows then
      run.(quarantine := run.quarantine + [r], tally := tally.(forked := tally.forked + 1))
    else if Refused(run.rows, r) then
      run.(tally := tally.(duplicates := tally.duplicates + 1))
    else
      RemoteRun(run.rows[IdOf(r) := r], run.quarantine,
                tally.(stored := tally.stored + 1,
                       lastSeq := if r.num > tally.lastSeq then r.num else tally.lastSeq))
  }

  function RemoteBatch(t: Table, quarantine: seq<Record>, recs: seq<Record>): RemoteRun {
    if recs == [] then RemoteRun(t, quarantine, NOTHING)
    else PlaceRemote(RemoteBatch(t, quarantine, recs[..|recs| - 1]), recs[|recs| - 1])
  }

  lemma NothingPlaced(t: Table, quarantine: seq<Record>)
    ensures RemoteBatch(t, quarantine, []) == RemoteRun(t, quarantine, NOTHING)
  {}

  lemma OneMorePlaced(t: Table, quarantine: seq<Record>, recs: seq<Record>, i: nat)
    requires i < |recs|
    ensures RemoteBatch(t, quarantine, recs[..i + 1]) == PlaceRemote(RemoteBatch(t, quarantine, recs[..i]), recs[i])
  {
    assert recs[..i + 1][..i] == recs[..i];
  }

  // ---- The transactions ----

  class Archive {
    const origin: Origin
    var rows: Table
    var quarantine: seq<Record>

    constructor (origin: Origin)
      ensures this.origin == origin && rows == map[] && quarantine == []
    {
      this.origin := origin;
      rows := map[];
      quarantine := [];
    }

    /** `AppendLocal`. The sequence is read and the rows are written in one
        transaction, so nothing can be appended in between. */
    method AppendLocal(recs: seq<Record>) returns (out: Tally)
      modifies this`rows
      ensures rows == LocalBatch(old(rows), origin, recs).rows
      ensures out == LocalBatch(old(rows), origin, recs).tally
    {
      out := NOTHING;
      if |recs| == 0 {
        return;
      }
      var tx := rows;
      var next := Watermark(tx, origin) + 1;
      for i := 0 to |recs|
        invariant LocalRun(tx, next, out) == LocalBatch(old(rows), origin, recs[..i])
      {
        assert recs[..i + 1][..i] == recs[..i];
        var r := recs[i].(origin := origin, num := next);
        if Refused(tx, r) {
          out := out.(duplicates := out.duplicates + 1);
          continue;
        }
        tx := tx[IdOf(r) := r];
        out := out.(stored := out.stored + 1, lastSeq := next);
        next := next + 1;
      }
      assert recs[..|recs|] == recs;
      rows := tx;
    }

    /** `AppendRemote`. A record without an origin or a sequence fails the
        transaction, which leaves the archive as it was. */
    method AppendRemote(recs: seq<Record>) returns (ok: bool, out: Tally)
      modifies this`rows, this`quarantine
      ensures ok <==> forall r :: r in recs ==> Addressed(r)
      ensures ok ==> RemoteRun(rows, quarantine, out) == RemoteBatch(old(rows), old(quarantine), recs)
      ensures !ok ==> rows == old(rows) && quarantine == old(quarantine)
    {
      hide RemoteBatch, Refused;
      NothingPlaced(rows, quarantine);
      out := NOTHING;
      if |recs| == 0 {
        return true, out;
      }
      var tx, evidence := rows, quarantine;
      assert recs[..0] == [];
      for i := 0 to |recs|
        invariant forall j :: 0 <= j < i ==> Addressed(recs[j])
        invariant rows == old(rows) && quarantine == old(quarantine)
        invariant RemoteRun(tx, evidence, out) == RemoteBatch(old(rows), old(quarantine), recs[..i])
      {
        OneMorePlaced(old(rows), old(quarantine), recs, i);
        var r := recs[i];
        if r.origin == "" || r.num <= 0 {
          assert r in recs && !Addressed(r);
          return false, out;
        }
        if IdOf(r) in tx && tx[IdOf(r)].line.hash == r.line.hash {
          out := out.(duplicates := out.duplicates + 1);
          continue;
        }
        if IdOf(r) in tx {
          evidence := evidence + [r];
          out := out.(forked := out.forked + 1);
          continue;
        }
        if Refused(tx, r) {
          out := out.(duplicates := out.duplicates + 1);
          continue;
        }
        tx := tx[IdOf(r) := r];
        out := out.(stored := out.stored + 1, lastSeq := if r.num > out.lastSeq then r.num else out.lastSeq);
      }
      assert recs[..|recs|] == recs;
      rows, quarantine := tx, evidence;
      ok := true;
    }

    /** `Digests`: one pass over the origin's rows in sequence order, feeding each
        bucket's hash and counting its lines. */
    method Digests(from: Origin) returns (out: Buckets)
      requires WellKeyed(rows)
      ensures forall b :: b in out <==> b in DigestsOf(rows, from)
      ensures forall b :: b in out ==> out[b] == DigestsOf(rows, from)[b]
    {
      hide Accumulated, DigestsOf, BucketOf;
      var all := Ascending(rows, from, 0);
      NothingAccumulated(all);
      var acc: map<int, map<Id, string>> := map[];
      var counts: map<int, int> := map[];
      for i := 0 to |all|
        invariant Accumulated(all[..i], acc, counts)
      {
        var r := all[i];
        var bucket := BucketOf(r.num);
        AccumulateNext(rows, from, i, acc, counts);
        var held, n := map[], 0;
        if bucket in acc {
          held, n := acc[bucket], counts[bucket];
        }
        acc, counts := acc[bucket := held[IdOf(r) := r.line.hash]], counts[bucket := n + 1];
      }
      assert all[..|all|] == all;
      out := map b | b in acc && b in counts :: Digest(counts[b], acc[b]);
      AccumulatedAll(rows, from, acc, counts);
    }
  }

  ghost predicate Visits(rows: seq<Record>, b: int) {
    exists r :: r in rows && BucketOf(r.num) == b
  }

  ghost predicate Accumulated(fed: seq<Record>, acc: map<int, map<Id, string>>, counts: map<int, int>) {
    forall b ::
      && (b in acc <==> b in counts)
      && (b in acc <==> Visits(fed, b))
      && (b in acc ==> acc[b] == Fed(fed, b) && counts[b] == |acc[b]|)
  }

  lemma NothingAccumulated(all: seq<Record>)
    ensures Accumulated(all[..0], map[], map[])
  {
    assert all[..0] == [];
  }

  lemma AccumulateNext(t: Table, from: Origin, i: nat, acc: map<int, map<Id, string>>, counts: map<int, int>)
    requires WellKeyed(t) && i < |Ascending(t, from, 0)| && Accumulated(Ascending(t, from, 0)[..i], acc, counts)
    ensures var all := Ascending(t, from, 0);
            var bucket := BucketOf(all[i].num);
            var before := if bucket in acc then acc[bucket] else map[];
            var n := if bucket in counts then counts[bucket] else 0;
            && (bucket in acc <==> bucket in counts)
            && Accumulated(all[..i + 1], acc[bucket := before[IdOf(all[i]) := all[i].line.hash]], counts[bucket := n + 1])
  {
    var all := Ascending(t, from, 0);
    assert (BucketOf(all[i].num) in acc) <==> (BucketOf(all[i].num) in counts);
    hide Accumulated, BucketOf;
    AscendingLists(t, from, 0);
    assert all[..i + 1] == all[..i] + [all[i]];
    AccumulateRow(all[..i], all[i], acc, counts);
  }

  lemma AccumulateRow(fed: seq<Record>, r: Record, acc: map<int, map<Id, string>>, counts: map<int, int>)
    requires Accumulated(fed, acc, counts)
    requires forall q :: q in fed ==> q.num < r.num
    ensures var bucket := BucketOf(r.num);
            var before := if bucket in acc then acc[bucket] else map[];
            var n := if bucket in counts then counts[bucket] else 0;
            Accumulated(fed + [r], acc[bucket := before[IdOf(r) := r.line.hash]], counts[bucket := n + 1])
  {
    var bucket, all := BucketOf(r.num), fed + [r];
    assert all[..|all| - 1] == fed;
    assert all[|fed|] == r;
    if bucket !in acc {
      FedNothing(fed, bucket);
    }
    if IdOf(r) in Fed(fed, bucket) {
      FedOnlyRows(fed, bucket, IdOf(r));
    }
    VisitsPlus(fed, r);
  }

  lemma VisitsPlus(fed: seq<Record>, r: Record)
    ensures forall b :: Visits(fed + [r], b) <==> b == BucketOf(r.num) || Visits(fed, b)
  {
    assert forall q :: q in fed + [r] <==> q in fed || q == r;
  }

  lemma {:induction false} FedNothing(fed: seq<Record>, bucket: int)
    requires !Visits(fed, bucket)
    ensures Fed(fed, bucket) == map[]
    decreases |fed|
  {
    if fed != [] {
      assert fed[|fed| - 1] in fed;
      FedNothing(fed[..|fed| - 1], bucket);
    }
  }

  lemma AccumulatedAll(t: Table, from: Origin, acc: map<int, map<Id, string>>, counts: map<int, int>)
    requires WellKeyed(t) && Accumulated(Ascending(t, from, 0), acc, counts)
    ensures forall b :: (b in acc <==> b in DigestsOf(t, from))
    ensures forall b :: b in acc ==> b in counts && DigestsOf(t, from)[b] == Digest(counts[b], acc[b])
  {
    forall b
      ensures b in acc <==> b in DigestsOf(t, from)
      ensures b in acc ==> b in counts && DigestsOf(t, from)[b] == Digest(counts[b], acc[b])
    {
      FedAll(t, from, b);
      BucketsVisited(t, from, b);
    }
  }

  lemma BucketsVisited(t: Table, from: Origin, b: int)
    requires WellKeyed(t)
    ensures b in DigestsOf(t, from) <==> Visits(Ascending(t, from, 0), b)
  {
    var all := Ascending(t, from, 0);
    AscendingLists(t, from, 0);
    if b in DigestsOf(t, from) {
      var id := ListedBucket(t, from, b);
      assert id == Id(from, id.num);
      assert t[id] in all;
    } else if Visits(all, b) {
      var r :| r in all && BucketOf(r.num) == b;
      BucketListed(t, from, IdOf(r));
    }
  }

  // ---- What a local append promises ----

  /** The line is in the table: under its semantic key, or as a row of its own. */
  ghost predicate Represented(t: Table, origin: Origin, r: Record) {
    exists id :: id in t && id.origin == origin &&
      (t[id].line == r.line || SameLine(t[id], r.(origin := origin)))
  }

  /** What holds between a table, a batch of collected lines and the run that
      appended them: the origin's sequences go on from `n` without a gap, nothing
      else moved, both keys hold, and every line is there. */
  ghost predicate Extends(t: Table, origin: Origin, recs: seq<Record>, n: int, run: LocalRun) {
    && Sound(run.rows)
    && Prefix(run.rows, origin, n + run.tally.stored)
    && run.next == n + run.tally.stored + 1
    && Accounted(recs, n, run.tally)
    && Preserved(t, origin, run.rows)
    && (forall r :: r in recs ==> Represented(run.rows, origin, r))
  }

  ghost predicate Accounted(recs: seq<Record>, n: int, tally: Tally) {
    && tally.stored + tally.duplicates == |recs| && 0 <= tally.stored <= |recs| && tally.forked == 0
    && tally.lastSeq == (if tally.stored == 0 then 0 else n + tally.stored)
  }

  ghost predicate Preserved(t: Table, origin: Origin, t': Table) {
    && (forall id :: id in t ==> id in t' && t'[id] == t[id])
    && (forall id :: id in t' && id !in t ==> id.origin == origin)
  }

  lemma PlaceLocalExtends(t: Table, origin: Origin, recs: seq<Record>, n: int, run: LocalRun, r: Record)
    requires origin != "" && 0 <= n && Extends(t, origin, recs, n, run)
    ensures Extends(t, origin, recs + [r], n, PlaceLocal(run, origin, r))
  {
    var placed := r.(origin := origin, num := run.next);
    assert Id(origin, run.next) !in run.rows;
    if Refused(run.rows, placed) {
      RefusedIsRepresented(run.rows, origin, r, placed);
    } else {
      InsertKeepsSound(run.rows, placed);
      InsertExtends(t, origin, n, run, placed);
      RepresentedStay(run.rows, run.rows[IdOf(placed) := placed], origin, recs);
      InsertedIsRepresented(run.rows, origin, r, placed);
    }
    hide Sound, Prefix, Preserved, Represented, Refused;
    assert forall q :: q in recs + [r] <==> q in recs || q == r;
  }

  lemma RefusedIsRepresented(t: Table, origin: Origin, r: Record, placed: Record)
    requires placed.line == r.line && placed.origin == origin && IdOf(placed) !in t && Refused(t, placed)
    requires WellKeyed(t)
    ensures Represented(t, origin, r)
  {
    var id :| id in t && SameLine(t[id], placed);
    assert IdOf(t[id]) == id && id.origin == origin;
  }

  lemma InsertedIsRepresented(t: Table, origin: Origin, r: Record, placed: Record)
    requires placed.line == r.line && placed.origin == origin
    ensures Represented(t[IdOf(placed) := placed], origin, r)
  {
    assert t[IdOf(placed) := placed][IdOf(placed)].line == r.line;
  }

  lemma InsertExtends(t: Table, origin: Origin, n: int, run: LocalRun, placed: Record)
    requires Prefix(run.rows, origin, n + run.tally.stored) && run.next == n + run.tally.stored + 1
    requires Preserved(t, origin, run.rows) && IdOf(placed) == Id(origin, run.next)
    ensures var t' := run.rows[IdOf(placed) := placed];
            Prefix(t', origin, run.next) && Preserved(t, origin, t')
  {}

  lemma RepresentedStay(t: Table, t': Table, origin: Origin, recs: seq<Record>)
    requires forall id :: id in t ==> id in t' && t'[id] == t[id]
    requires forall r :: r in recs ==> Represented(t, origin, r)
    ensures forall r :: r in recs ==> Represented(t', origin, r)
  {
    forall r | r in recs ensures Represented(t', origin, r) {
      RepresentedStays(t, t', origin, r);
    }
  }

  lemma RepresentedStays(t: Table, t': Table, origin: Origin, r: Record)
    requires Represented(t, origin, r)
    requires forall id :: id in t ==> id in t' && t'[id] == t[id]
    ensures Represented(t', origin, r)
  {
    var id :| id in t && id.origin == origin &&
      (t[id].line == r.line || SameLine(t[id], r.(origin := origin)));
    assert t'[id] == t[id];
  }

  /** Appending collected lines extends the origin's run of sequences without a
      gap, whatever duplicates the batch holds, leaves every other row as it
      was, keeps both keys, and leaves every line of the batch in the table. */
  lemma {:induction false} LocalAppendExtends(t: Table, origin: Origin, recs: seq<Record>, n: int)
    requires origin != "" && Sound(t) && Prefix(t, origin, n)
    ensures Extends(t, origin, recs, n, LocalBatch(t, origin, recs))
    decreases |recs|
  {
    WatermarkOf(t, origin, n);
    if recs != [] {
      var before, r := recs[..|recs| - 1], recs[|recs| - 1];
      LocalAppendExtends(t, origin, before, n);
      PlaceLocalExtends(t, origin, before, n, LocalBatch(t, origin, before), r);
      assert before + [r] == recs;
    }
  }

  /** How many lines of a batch no semantic index can recognise again. */
  function Unrecognisable(recs: seq<Record>): (n: nat)
  {
    if recs == [] then 0
    else Unrecognisable(recs[..|recs| - 1]) + if recs[|recs| - 1].line.uuid != "" && recs[|recs| - 1].line.session == "" then 1 else 0
  }

  /** Collecting the same batch again stores exactly the lines that carry a uuid
      but no session. */
  lemma {:induction false} LocalReplay(t: Table, origin: Origin, recs: seq<Record>, n: int)
    requires origin != "" && Sound(t) && Prefix(t, origin, n)
    requires forall r :: r in recs ==> Represented(t, origin, r)
    ensures LocalBatch(t, origin, recs).tally.stored == Unrecognisable(recs)
    decreases |recs|
  {
    if recs != [] {
      var before, r := recs[..|recs| - 1], recs[|recs| - 1];
      LocalReplay(t, origin, before, n);
      LocalAppendExtends(t, origin, before, n);
      var run := LocalBatch(t, origin, before);
      var placed := r.(origin := origin, num := run.next);
      assert r in recs;
      var id :| id in t && id.origin == origin &&
        (t[id].line == r.line || SameLine(t[id], r.(origin := origin)));
      assert run.rows[id] == t[id];
      if KeyOf(origin, r.line) != Unindexed {
        assert SameLine(run.rows[id], placed);
      }
    }
  }

  /** A re-collected batch stores nothing if and only if every line can be
      recognised: it has no uuid, or it has a session as well. */
  lemma LocalAppendIsIdempotent(t: Table, origin: Origin, recs: seq<Record>, n: int)
    requires origin != "" && Sound(t) && Prefix(t, origin, n)
    ensures var once := LocalBatch(t, origin, recs).rows;
            LocalBatch(once, origin, recs).rows == once <==>
              forall r :: r in recs ==> r.line.uuid == "" || r.line.session != ""
  {
    hide LocalBatch, Sound, Prefix, Represented;
    var once := LocalBatch(t, origin, recs);
    LocalAppendExtends(t, origin, recs, n);
    LocalReplay(once.rows, origin, recs, n + once.tally.stored);
    LocalAppendExtends(once.rows, origin, recs, n + once.tally.stored);
    UnrecognisableIsNone(recs);
    GrowsByStored(once.rows, origin, recs, n + once.tally.stored, LocalBatch(once.rows, origin, recs));
  }

  /** A line with a uuid and no session. */
  const NAMELESS: Record := Record("", 0, Line("s", "p", 0, "h", "", "u", "", "", "", Usage(0, 0, 0, 0, 0, 0), []), BLANK)

  /** Collected twice, it is stored twice. */
  lemma NamelessIsStoredTwice(origin: Origin)
    requires origin != ""
    ensures var once := LocalBatch(map[], origin, [NAMELESS]).rows;
            LocalBatch(once, origin, [NAMELESS]).rows != once && Unrecognisable([NAMELESS]) == 1
  {
    var t: Table := map[];
    WatermarkEmpty(t, origin);
    assert Prefix(t, origin, 0) && Sound(t);
    LocalAppendIsIdempotent(t, origin, [NAMELESS], 0);
    assert NAMELESS in [NAMELESS] && [NAMELESS][..0] == [];
  }

  lemma GrowsByStored(t: Table, origin: Origin, recs: seq<Record>, n: int, run: LocalRun)
    requires Prefix(t, origin, n) && Extends(t, origin, recs, n, run)
    ensures run.rows == t <==> run.tally.stored == 0
  {
    assert Id(origin, n + 1) !in t;
    if run.tally.stored == 0 {
      forall id ensures id in run.rows <==> id in t {
        assert id == Id(id.origin, id.num);
      }
    }
  }

  lemma {:induction false} UnrecognisableIsNone(recs: seq<Record>)
    ensures Unrecognisable(recs) == 0 <==> forall r :: r in recs ==> r.line.uuid == "" || r.line.session != ""
    decreases |recs|
  {
    if recs != [] {
      var before, r := recs[..|recs| - 1], recs[|recs| - 1];
      UnrecognisableIsNone(before);
      assert forall q :: q in recs <==> q in before || q == r;
    }
  }

  // ---- What a remote append promises ----

  /** What holds between an archive, a batch a peer sent and the run that applied
      it: every record is counted once, nothing held was overwritten, what is new
      was sent, and evidence only accumulates. */
  ghost predicate Merges(t: Table, quarantine: seq<Record>, recs: seq<Record>, run: RemoteRun) {
    && Balanced(|t|, |quarantine|, |recs|, run)
    && Grown(t, recs, run.rows)
    && Highest(t, run.rows, run.tally.lastSeq)
    && Noticed(run.rows, quarantine, recs, run.quarantine)
  }

  ghost predicate Balanced(rows: int, evidence: int, sent: int, run: RemoteRun) {
    && run.tally.stored + run.tally.duplicates + run.tally.forked == sent
    && |run.rows| == rows + run.tally.stored
    && |run.quarantine| == evidence + run.tally.forked
    && 0 <= run.tally.stored && 0 <= run.tally.duplicates && 0 <= run.tally.forked
  }

  /** The highest sequence that is new, or zero if none is. */
  ghost predicate Highest(t: Table, t': Table, last: int) {
    && 0 <= last
    && (forall id :: id in t' && id !in t ==> id.num <= last)
    && (last == 0 || exists id :: id in t' && id !in t && id.num == last)
  }

  ghost predicate Grown(t: Table, recs: seq<Record>, t': Table) {
    && Sound(t')
    && (forall id :: id in t ==> id in t' && t'[id] == t[id])
    && (forall id :: id in t' && id !in t ==> t'[id] in recs)
  }

  ghost predicate Noticed(t: Table, quarantine: seq<Record>, recs: seq<Record>, quarantine': seq<Record>) {
    && quarantine <= quarantine'
    && forall i :: |quarantine| <= i < |quarantine'| ==> Evidence(t, quarantine'[i]) && quarantine'[i] in recs
  }

  /** The record disagrees with the one held at its position. */
  ghost predicate Evidence(t: Table, r: Record) {
    IdOf(r) in t && t[IdOf(r)].line.hash != r.line.hash
  }

  lemma PlaceRemoteBalances(rows: int, evidence: int, sent: int, run: RemoteRun, r: Record)
    requires Balanced(rows, evidence, sent, run)
    ensures Balanced(rows, evidence, sent + 1, PlaceRemote(run, r))
  {}

  lemma PlaceRemoteGrows(t: Table, recs: seq<Record>, run: RemoteRun, r: Record)
    requires Grown(t, recs, run.rows) && Addressed(r)
    ensures Grown(t, recs + [r], PlaceRemote(run, r).rows)
  {
    if !Refused(run.rows, r) {
      InsertKeepsSound(run.rows, r);
    }
  }

  lemma PlaceRemoteReaches(t: Table, run: RemoteRun, r: Record)
    requires Highest(t, run.rows, run.tally.lastSeq) && Addressed(r) && forall id :: id in t ==> id in run.rows
    ensures var done := PlaceRemote(run, r); Highest(t, done.rows, done.tally.lastSeq)
  {
    var done := PlaceRemote(run, r);
    if done.tally.lastSeq == run.tally.lastSeq {
      if run.tally.lastSeq != 0 {
        var id :| id in run.rows && id !in t && id.num == run.tally.lastSeq;
        assert id in done.rows;
      }
    } else {
      assert IdOf(r) in done.rows && IdOf(r) !in t;
    }
  }

  lemma PlaceRemoteNotices(quarantine: seq<Record>, recs: seq<Record>, run: RemoteRun, r: Record)
    requires Noticed(run.rows, quarantine, recs, run.quarantine)
    ensures var done := PlaceRemote(run, r); Noticed(done.rows, quarantine, recs + [r], done.quarantine)
  {
    var done := PlaceRemote(run, r);
    forall i | |quarantine| <= i < |done.quarantine|
      ensures Evidence(done.rows, done.quarantine[i]) && done.quarantine[i] in recs + [r]
    {
      if i < |run.quarantine| {
        assert done.quarantine[i] == run.quarantine[i];
        assert Evidence(run.rows, run.quarantine[i]);
      }
    }
  }

  /** Every record of a batch is accounted for, and nothing held is lost. */
  lemma {:induction false} RemoteAppendMerges(t: Table, quarantine: seq<Record>, recs: seq<Record>)
    requires Sound(t)
    requires forall r :: r in recs ==> Addressed(r)
    ensures Merges(t, quarantine, recs, RemoteBatch(t, quarantine, recs))
    decreases |recs|
  {
    if recs != [] {
      var before, r := recs[..|recs| - 1], recs[|recs| - 1];
      RemoteAppendMerges(t, quarantine, before);
      assert before + [r] == recs;
      var run := RemoteBatch(t, quarantine, before);
      PlaceRemoteBalances(|t|, |quarantine|, |before|, run, r);
      PlaceRemoteGrows(t, before, run, r);
      PlaceRemoteReaches(t, run, r);
      PlaceRemoteNotices(quarantine, before, run, r);
    }
  }

  /** Replaying a batch a peer already sent stores nothing. */
  lemma {:induction false} RemoteReplayStoresNothing(t: Table, quarantine: seq<Record>, all: seq<Record>, recs: seq<Record>)
    requires Sound(t)
    requires forall r :: r in all ==> Addressed(r)
    requires forall r :: r in recs ==> r in all
    ensures var once := RemoteBatch(t, quarantine, all);
            var twice := RemoteBatch(once.rows, once.quarantine, recs);
            twice.rows == once.rows && twice.tally.stored == 0
    decreases |recs|
  {
    if recs != [] {
      var before, r := recs[..|recs| - 1], recs[|recs| - 1];
      RemoteReplayStoresNothing(t, quarantine, all, before);
      assert r in recs;
      RefusedAfterwards(t, quarantine, all, r);
    }
  }

  lemma {:induction false} RefusedAfterwards(t: Table, quarantine: seq<Record>, recs: seq<Record>, r: Record)
    requires r in recs
    ensures Refused(RemoteBatch(t, quarantine, recs).rows, r)
    decreases |recs|
  {
    var before, last := recs[..|recs| - 1], recs[|recs| - 1];
    var run := RemoteBatch(t, quarantine, before);
    var done := PlaceRemote(run, last);
    if r in before {
      RefusedAfterwards(t, quarantine, before, r);
      if IdOf(r) !in run.rows {
        var id :| id in run.rows && SameLine(run.rows[id], r);
        assert done.rows[id] == run.rows[id];
      }
    } else {
      assert r == last;
    }
  }

  /** Records that can live in one archive: no two disagree about a position and
      no line sits at two positions. Columns may differ, being re-extractable. */
  ghost predicate Compatible(rs: set<Record>) {
    forall a, b :: a in rs && b in rs ==>
      (IdOf(a) == IdOf(b) ==> Core(a) == Core(b)) && (SameLine(a, b) ==> IdOf(a) == IdOf(b))
  }

  /** The same archive up to the re-extractable columns. */
  ghost predicate Alike(a: Table, b: Table) {
    a.Keys == b.Keys && forall id :: id in a ==> Core(a[id]) == Core(b[id])
  }

  /** The table is the union of `t` and the batch, drawn from `world`. */
  ghost predicate IsUnion(t: Table, recs: seq<Record>, world: set<Record>, t': Table) {
    && (forall id :: id in t' ==> t'[id] in world && IdOf(t'[id]) == id)
    && (forall id :: id in t ==> id in t')
    && (forall r :: r in recs ==> IdOf(r) in t')
    && (forall id :: id in t' ==> id in t || exists r :: r in recs && IdOf(r) == id)
  }

  lemma PlaceRemoteUnites(t: Table, recs: seq<Record>, world: set<Record>, run: RemoteRun, r: Record)
    requires Compatible(world) && r in world && IsUnion(t, recs, world, run.rows)
    ensures IsUnion(t, recs + [r], world, PlaceRemote(run, r).rows)
    ensures PlaceRemote(run, r).quarantine == run.quarantine
  {
    assert forall q :: q in recs + [r] <==> q in recs || q == r;
    if IdOf(r) in run.rows {
      assert Core(run.rows[IdOf(r)]).line.hash == Core(r).line.hash;
    } else {
      assert forall id :: id in run.rows ==> !SameLine(run.rows[id], r);
    }
    var done := PlaceRemote(run, r);
    forall id | id in done.rows ensures id in t || exists q :: q in recs + [r] && IdOf(q) == id {
      if id in run.rows && id !in t {
        var q :| q in recs && IdOf(q) == id;
        assert q in recs + [r];
      }
    }
  }

  /** Compatible records are merged by union: every one is held afterwards and
      none is quarantined. */
  lemma {:induction false} CompatibleAppendIsUnion(t: Table, quarantine: seq<Record>, recs: seq<Record>, world: set<Record>)
    requires (forall id :: id in t ==> IdOf(t[id]) == id) && Compatible(world) && t.Values <= world
    requires forall r :: r in recs ==> r in world
    ensures IsUnion(t, recs, world, RemoteBatch(t, quarantine, recs).rows)
    ensures RemoteBatch(t, quarantine, recs).quarantine == quarantine
    decreases |recs|
  {
    if recs == [] {
      assert forall id :: id in t ==> t[id] in t.Values;
    } else {
      var before, r := recs[..|recs| - 1], recs[|recs| - 1];
      CompatibleAppendIsUnion(t, quarantine, before, world);
      PlaceRemoteUnites(t, before, world, RemoteBatch(t, quarantine, before), r);
      assert before + [r] == recs;
    }
  }

  lemma TwoUnions(t: Table, a: seq<Record>, b: seq<Record>, world: set<Record>, mid: Table, end: Table)
    requires IsUnion(t, a, world, mid) && IsUnion(mid, b, world, end)
    ensures forall id :: id in end <==> id in t || (exists r :: r in a && IdOf(r) == id) || (exists r :: r in b && IdOf(r) == id)
  {}

  /** Two batches drawn from compatible records commute: whichever arrives
      first, the archive ends the same, re-extractable columns aside. */
  lemma RemoteAppendsCommute(t: Table, quarantine: seq<Record>, a: seq<Record>, b: seq<Record>, world: set<Record>)
    requires WellKeyed(t) && Compatible(world) && t.Values <= world
    requires forall r :: r in a || r in b ==> r in world
    ensures var first := RemoteBatch(t, quarantine, a);
            var second := RemoteBatch(t, quarantine, b);
            Alike(RemoteBatch(first.rows, first.quarantine, b).rows,
                  RemoteBatch(second.rows, second.quarantine, a).rows)
  {
    var ab := AppendBoth(t, quarantine, a, b, world);
    var ba := AppendBoth(t, quarantine, b, a, world);
    AlikeWithin(world, ab, ba);
  }

  lemma AlikeWithin(world: set<Record>, a: Table, b: Table)
    requires Compatible(world)
    requires forall id :: id in a ==> a[id] in world && IdOf(a[id]) == id
    requires forall id :: id in b ==> b[id] in world && IdOf(b[id]) == id
    requires forall id :: id in a <==> id in b
    ensures Alike(a, b)
  {
    assert a.Keys == b.Keys;
    forall id | id in a ensures Core(a[id]) == Core(b[id]) {
      OnePosition(world, a[id], b[id]);
    }
  }

  lemma OnePosition(world: set<Record>, a: Record, b: Record)
    requires Compatible(world) && a in world && b in world && IdOf(a) == IdOf(b)
    ensures Core(a) == Core(b)
  {}

  lemma AppendBoth(t: Table, quarantine: seq<Record>, a: seq<Record>, b: seq<Record>, world: set<Record>) returns (end: Table)
    requires WellKeyed(t) && Compatible(world) && t.Values <= world
    requires forall r :: r in a || r in b ==> r in world
    ensures var first := RemoteBatch(t, quarantine, a);
            end == RemoteBatch(first.rows, first.quarantine, b).rows
    ensures forall id :: id in end ==> end[id] in world && IdOf(end[id]) == id
    ensures forall id :: id in end <==> id in t || (exists r :: r in a && IdOf(r) == id) || (exists r :: r in b && IdOf(r) == id)
  {
    CompatibleAppendIsUnion(t, quarantine, a, world);
    var first := RemoteBatch(t, quarantine, a);
    forall v | v in first.rows.Values ensures v in world {
      var id :| id in first.rows && first.rows[id] == v;
    }
    CompatibleAppendIsUnion(first.rows, first.quarantine, b, world);
    end := RemoteBatch(first.rows, first.quarantine, b).rows;
    TwoUnions(t, a, b, world, first.rows, end);
  }
}
