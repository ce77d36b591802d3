/** What the replicas of one mesh are to each other: every node is the only author
    of its own log, and holds copies of stretches of the others'. */
module Replicas {
  import opened Records
  import opened Sets
  import opened Digests
  import opened Store

  datatype Replica = Replica(rows: Table, quarantine: seq<Record>)

  /** A node is known by the origin id it collects under, which is its alone. */
  type Nodes = map<Origin, Replica>

  function Rows(nodes: Nodes, n: Origin): Table {
    if n in nodes then nodes[n].rows else map[]
  }

  function SetRows(nodes: Nodes, n: Origin, t: Table): Nodes
    requires n in nodes
  {
    nodes[n := nodes[n].(rows := t)]
  }

  // ---- In order ----

  /** The rows of `t` for one origin are rows of its log, re-extractable columns aside. */
  ghost predicate Copies(t: Table, log: Table, o: Origin) {
    forall id :: id in t && id.origin == o ==> id in log && Core(t[id]) == Core(log[id])
  }

  ghost predicate ReplicaOk(nodes: Nodes, n: Origin) {
    && n in nodes && n != ""
    && Sound(nodes[n].rows) && Dense(nodes[n].rows)
    && nodes[n].quarantine == []
    && (forall id :: id in nodes[n].rows ==> id.origin in nodes)
    && (forall o :: o in nodes ==> Copies(nodes[n].rows, nodes[o].rows, o))
  }

  ghost predicate ReplicasOk(nodes: Nodes) {
    forall n :: n in nodes ==> ReplicaOk(nodes, n)
  }

  /** A batch is a stretch of one origin's log. */
  ghost predicate Stretch(nodes: Nodes, recs: seq<Record>) {
    && recs != []
    && forall j :: 0 <= j < |recs| ==>
         var id := Id(recs[0].origin, recs[0].num + j);
         IdOf(recs[j]) == id && id in Rows(nodes, id.origin) && Core(recs[j]) == Core(Rows(nodes, id.origin)[id])
  }

  // ---- Growth ----

  /** Archives only ever gain rows and re-extracted columns. */
  ghost predicate Grows(nodes: Nodes, nodes': Nodes) {
    && nodes'.Keys == nodes.Keys
    && forall n :: n in nodes ==> GrowsTo(nodes[n].rows, nodes'[n].rows)
  }

  ghost predicate GrowsTo(t: Table, t': Table) {
    forall id :: id in t ==> id in t' && Core(t'[id]) == Core(t[id])
  }

  lemma WatermarkGrows(nodes: Nodes, nodes': Nodes, n: Origin, o: Origin)
    requires Grows(nodes, nodes') && ReplicasOk(nodes) && ReplicasOk(nodes') && n in nodes
    ensures Watermark(Rows(nodes, n), o) <= Watermark(Rows(nodes', n), o)
  {
    assert ReplicaOk(nodes, n) && ReplicaOk(nodes', n);
    var w := Watermark(Rows(nodes, n), o);
    assert Prefix(Rows(nodes, n), o, w) && Prefix(Rows(nodes', n), o, Watermark(Rows(nodes', n), o));
    if 1 <= w {
      assert Id(o, w) in Rows(nodes, n);
      assert Id(o, w) in Rows(nodes', n);
    }
  }

  lemma StretchGrows(nodes: Nodes, nodes': Nodes, recs: seq<Record>)
    requires Grows(nodes, nodes') && Stretch(nodes, recs)
    ensures Stretch(nodes', recs)
  {}

  // ---- Archives, step by step ----

  lemma AlikeSound(t: Table, t': Table)
    requires Sound(t) && Dense(t) && Alike(t, t')
    ensures Sound(t') && Dense(t')
  {
    assert forall id :: id in t' ==> Core(t'[id]) == Core(t[id]) && IdOf(t'[id]) == IdOf(Core(t[id])) && t'[id].line == Core(t[id]).line;
    forall i, j | i in t' && j in t' && SameLine(t'[i], t'[j]) ensures i == j {
      assert SameLine(t[i], t[j]);
    }
    forall o ensures Prefix(t', o, Watermark(t', o)) {
      assert Prefix(t, o, Watermark(t, o));
      assert Prefix(t', o, Watermark(t, o));
      WatermarkOf(t', o, Watermark(t, o));
    }
  }

  lemma CopiesGrow(t: Table, log: Table, log': Table, o: Origin)
    requires Copies(t, log, o) && GrowsTo(log, log')
    ensures Copies(t, log', o)
  {}

  /** One node's table changes; every replica is still in order. */
  lemma TableChanged(nodes: Nodes, n: Origin, t': Table)
    requires ReplicasOk(nodes) && n in nodes && Sound(t') && Dense(t') && GrowsTo(nodes[n].rows, t')
    requires forall id :: id in t' ==> id.origin in nodes
    requires forall o :: o in nodes && o != n ==> Copies(t', nodes[o].rows, o)
    ensures ReplicasOk(SetRows(nodes, n, t')) && Grows(nodes, SetRows(nodes, n, t'))
  {
    var nodes' := SetRows(nodes, n, t');
    assert ReplicaOk(nodes, n);
    forall m | m in nodes' ensures ReplicaOk(nodes', m) {
      assert ReplicaOk(nodes, m);
      forall o | o in nodes' ensures Copies(nodes'[m].rows, nodes'[o].rows, o) {
        LogChanged(nodes, n, t', m, o);
      }
    }
  }

  lemma LogChanged(nodes: Nodes, n: Origin, t': Table, m: Origin, o: Origin)
    requires n in nodes && m in nodes && o in nodes && GrowsTo(nodes[n].rows, t')
    requires ReplicaOk(nodes, m) && (o != n ==> Copies(t', nodes[o].rows, o))
    ensures Copies(SetRows(nodes, n, t')[m].rows, SetRows(nodes, n, t')[o].rows, o)
  {
    if m != n {
      assert Copies(nodes[m].rows, nodes[o].rows, o);
      if o == n {
        CopiesGrow(nodes[m].rows, nodes[n].rows, t', o);
      }
    }
  }

  lemma ReextractKeepsReplicas(nodes: Nodes, n: Origin, t: Table)
    requires ReplicasOk(nodes) && n in nodes && Alike(nodes[n].rows, t)
    ensures ReplicasOk(SetRows(nodes, n, t)) && Grows(nodes, SetRows(nodes, n, t))
  {
    assert ReplicaOk(nodes, n);
    AlikeSound(nodes[n].rows, t);
    forall o | o in nodes ensures Copies(t, nodes[o].rows, o) {
      assert Copies(nodes[n].rows, nodes[o].rows, o);
    }
    TableChanged(nodes, n, t);
  }

  lemma CollectedIsDense(t: Table, n: Origin, lines: seq<Record>)
    requires n != "" && Sound(t) && Dense(t)
    ensures var t' := LocalBatch(t, n, lines).rows;
            && Sound(t') && Dense(t') && Preserved(t, n, t')
  {
    var t' := LocalBatch(t, n, lines).rows;
    assert Prefix(t, n, Watermark(t, n));
    LocalAppendExtends(t, n, lines, Watermark(t, n));
    forall o ensures Prefix(t', o, Watermark(t', o)) {
      assert Prefix(t, o, Watermark(t, o));
      if o == n {
        WatermarkOf(t', n, Watermark(t, n) + LocalBatch(t, n, lines).tally.stored);
      } else {
        assert Prefix(t', o, Watermark(t, o));
        WatermarkOf(t', o, Watermark(t, o));
      }
    }
  }

  lemma CollectKeepsReplicas(nodes: Nodes, n: Origin, lines: seq<Record>)
    requires ReplicasOk(nodes) && n in nodes
    ensures var t' := LocalBatch(nodes[n].rows, n, lines).rows;
            ReplicasOk(SetRows(nodes, n, t')) && Grows(nodes, SetRows(nodes, n, t'))
  {
    var t' := LocalBatch(nodes[n].rows, n, lines).rows;
    assert ReplicaOk(nodes, n);
    CollectedIsDense(nodes[n].rows, n, lines);
    forall o | o in nodes && o != n ensures Copies(t', nodes[o].rows, o) {
      assert Copies(nodes[n].rows, nodes[o].rows, o);
    }
    TableChanged(nodes, n, t');
  }

  /** What a replica holds after part of a stretch of a log: what it held, and
      that part. */
  ghost predicate Appended(t: Table, log: Table, o: Origin, from: int, upTo: int, t': Table) {
    && Sound(t')
    && (forall id :: id in t ==> id in t' && t'[id] == t[id])
    && (forall id :: id in t' <==> id in t || (id.origin == o && from <= id.num < upTo))
    && Copies(t', log, o)
  }

  lemma PlaceLogRecord(t: Table, log: Table, o: Origin, from: int, run: RemoteRun, r: Record)
    requires Sound(log) && Appended(t, log, o, from, r.num, run.rows)
    requires r.origin == o && from <= r.num && IdOf(r) in log && Core(r) == Core(log[IdOf(r)])
    ensures var done := PlaceRemote(run, r);
            Appended(t, log, o, from, r.num + 1, done.rows) && done.quarantine == run.quarantine
  {
    assert r.line == Core(r).line == log[IdOf(r)].line;
    if IdOf(r) in run.rows {
      assert run.rows[IdOf(r)].line == Core(run.rows[IdOf(r)]).line == log[IdOf(r)].line;
    } else {
      forall id | id in run.rows ensures !SameLine(run.rows[id], r) {
        if id.origin == o {
          assert run.rows[id].line == Core(run.rows[id]).line == log[id].line;
          assert IdOf(log[id]) == id;
          assert !SameLine(log[id], log[IdOf(r)]);
        }
      }
      InsertKeepsSound(run.rows, r);
    }
  }

  /** A stretch of a log that starts no later than the reader's watermark is
      appended whole: nothing is refused, nothing quarantined. */
  lemma {:induction false} StretchAppends(t: Table, quarantine: seq<Record>, log: Table, o: Origin, from: int, recs: seq<Record>)
    requires Sound(t) && Sound(log) && Copies(t, log, o)
    requires forall j :: 0 <= j < |recs| ==>
               IdOf(recs[j]) == Id(o, from + j) && IdOf(recs[j]) in log && Core(recs[j]) == Core(log[IdOf(recs[j])])
    ensures var run := RemoteBatch(t, quarantine, recs);
            Appended(t, log, o, from, from + |recs|, run.rows) && run.quarantine == quarantine
    decreases |recs|
  {
    if recs != [] {
      var before, r := recs[..|recs| - 1], recs[|recs| - 1];
      StretchAppends(t, quarantine, log, o, from, before);
      assert IdOf(r) == Id(o, from + |recs| - 1);
      PlaceLogRecord(t, log, o, from, RemoteBatch(t, quarantine, before), r);
    }
  }

  lemma AppendedIsDense(t: Table, log: Table, o: Origin, from: int, upTo: int, t': Table)
    requires Dense(t) && Appended(t, log, o, from, upTo, t') && 1 <= from <= Watermark(t, o) + 1 && from <= upTo
    ensures Dense(t') && upTo - 1 <= Watermark(t', o)
  {
    forall q ensures Prefix(t', q, Watermark(t', q)) && (q == o ==> upTo - 1 <= Watermark(t', q)) {
      var w := Watermark(t, q);
      assert Prefix(t, q, w);
      var w' := if q == o && w < upTo - 1 then upTo - 1 else w;
      assert Prefix(t', q, w');
      WatermarkOf(t', q, w');
    }
  }

  /** Applying a stretch to one replica. */
  lemma AppendKeepsReplicas(nodes: Nodes, n: Origin, recs: seq<Record>)
    requires ReplicasOk(nodes) && n in nodes && Stretch(nodes, recs)
    requires recs[0].num - 1 <= Watermark(Rows(nodes, n), recs[0].origin)
    ensures var run := RemoteBatch(nodes[n].rows, nodes[n].quarantine, recs);
            && ReplicasOk(SetRows(nodes, n, run.rows)) && Grows(nodes, SetRows(nodes, n, run.rows))
            && run.quarantine == nodes[n].quarantine
            && recs[|recs| - 1].num <= Watermark(run.rows, recs[0].origin)
            && Taken(run.rows, recs)
  {
    var o, from := recs[0].origin, recs[0].num;
    assert IdOf(recs[0]) in Rows(nodes, o) && IdOf(recs[0]) == Id(o, from + 0);
    assert ReplicaOk(nodes, o);
    StretchAppendsWhole(nodes, n, recs);
    var run := RemoteBatch(nodes[n].rows, nodes[n].quarantine, recs);
    StretchTaken(nodes, nodes[n].rows, recs, run.rows);
    AppendedChanges(nodes, n, o, from, from + |recs|, run.rows);
  }

  lemma StretchAppendsWhole(nodes: Nodes, n: Origin, recs: seq<Record>)
    requires n in nodes && ReplicaOk(nodes, n) && Stretch(nodes, recs) && recs[0].origin in nodes && ReplicaOk(nodes, recs[0].origin)
    requires 1 <= recs[0].num <= Watermark(Rows(nodes, n), recs[0].origin) + 1
    ensures var run := RemoteBatch(nodes[n].rows, nodes[n].quarantine, recs);
            var o, from := recs[0].origin, recs[0].num;
            && Appended(nodes[n].rows, nodes[o].rows, o, from, from + |recs|, run.rows) && Dense(run.rows)
            && run.quarantine == nodes[n].quarantine
            && recs[|recs| - 1].num <= Watermark(run.rows, o)
  {
    var t, o, from := nodes[n].rows, recs[0].origin, recs[0].num;
    StretchAppends(t, nodes[n].quarantine, nodes[o].rows, o, from, recs);
    var run := RemoteBatch(t, nodes[n].quarantine, recs);
    AppendedIsDense(t, nodes[o].rows, o, from, from + |recs|, run.rows);
    assert IdOf(recs[|recs| - 1]) == Id(o, from + |recs| - 1);
  }

  lemma AppendedChanges(nodes: Nodes, n: Origin, o: Origin, from: int, upTo: int, t': Table)
    requires ReplicasOk(nodes) && n in nodes && o in nodes && Dense(t')
    requires Appended(nodes[n].rows, nodes[o].rows, o, from, upTo, t')
    ensures ReplicasOk(SetRows(nodes, n, t')) && Grows(nodes, SetRows(nodes, n, t'))
  {
    var t := nodes[n].rows;
    assert ReplicaOk(nodes, n);
    forall q | q in nodes && q != n ensures Copies(t', nodes[q].rows, q) {
      assert Copies(t, nodes[q].rows, q);
    }
    TableChanged(nodes, n, t');
  }

  /** Consecutive rows of a replica are a stretch of the log. */
  lemma RowsAreStretch(nodes: Nodes, n: Origin, o: Origin, from: int, batch: seq<Record>)
    requires n in nodes && ReplicaOk(nodes, n) && batch != []
    requires forall j :: 0 <= j < |batch| ==> Id(o, from + j) in nodes[n].rows && batch[j] == nodes[n].rows[Id(o, from + j)]
    ensures Stretch(nodes, batch) && IdOf(batch[0]) == Id(o, from)
  {
    var t := nodes[n].rows;
    var first := batch[0];
    assert first == t[Id(o, from + 0)];
    assert Copies(t, nodes[o].rows, o);
    forall j | 0 <= j < |batch|
      ensures IdOf(batch[j]) == Id(o, from + j) && Id(o, from + j) in Rows(nodes, o)
      ensures Core(batch[j]) == Core(Rows(nodes, o)[Id(o, from + j)])
    {
      var r := batch[j];
      assert r == t[Id(o, from + j)];
    }
  }

  /** A batch read above `after` is the next stretch of the log. */
  lemma SinceIsStretch(nodes: Nodes, n: Origin, o: Origin, after: int, limit: nat)
    requires n in nodes && ReplicaOk(nodes, n) && 0 <= after <= Watermark(nodes[n].rows, o)
    ensures var batch := Since(nodes[n].rows, o, after, limit);
            batch != [] ==>
              && Stretch(nodes, batch) && IdOf(batch[0]) == Id(o, after + 1)
              && after <= batch[|batch| - 1].num <= Watermark(nodes[n].rows, o)
  {
    var t := nodes[n].rows;
    var w := Watermark(t, o);
    assert Prefix(t, o, w);
    SinceDense(t, o, w, after, limit);
    var batch := Since(t, o, after, limit);
    if batch != [] {
      RowsAreStretch(nodes, n, o, after + 1, batch);
      var last := |batch| - 1;
      assert batch[last] == t[Id(o, after + 1 + last)] && Id(o, after + 1 + last) in t;
    }
  }

  /** Every record of the batch is held afterwards, as sent. */
  ghost predicate Taken(t: Table, recs: seq<Record>) {
    forall r :: r in recs ==> Addressed(r) && IdOf(r) in t && Core(t[IdOf(r)]) == Core(r)
  }

  lemma StretchTaken(nodes: Nodes, t: Table, recs: seq<Record>, t': Table)
    requires Stretch(nodes, recs) && recs[0].origin in nodes && ReplicaOk(nodes, recs[0].origin)
    requires Appended(t, nodes[recs[0].origin].rows, recs[0].origin, recs[0].num, recs[0].num + |recs|, t')
    ensures Taken(t', recs)
  {
    forall r | r in recs ensures Addressed(r) && IdOf(r) in t' && Core(t'[IdOf(r)]) == Core(r) {
      var j :| 0 <= j < |recs| && recs[j] == r;
      assert IdOf(r) == Id(recs[0].origin, recs[0].num + j);
    }
  }
}
