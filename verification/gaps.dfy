/** When the next stretch of an origin's sequences extends a replica without a
    gap, and what happens when it does not: a record whose line is already held
    under another sequence is dropped, the ones after it are not. */
module Gaps {
  import opened Records
  import opened Sets
  import opened Store

  /** The batch carries the sequences that follow `n`. */
  ghost predicate Continues(recs: seq<Record>, o: Origin, n: int) {
    forall j :: 0 <= j < |recs| ==> IdOf(recs[j]) == Id(o, n + 1 + j)
  }

  /** No line of the batch is already held, and none is in the batch twice. */
  ghost predicate AllNew(t: Table, recs: seq<Record>) {
    && (forall id, r :: id in t && r in recs ==> !SameLine(t[id], r))
    && (forall i, j :: 0 <= i < j < |recs| ==> !SameLine(recs[i], recs[j]))
  }

  /** The table holds exactly `t` and the batch. */
  ghost predicate Joined(t: Table, recs: seq<Record>, t': Table) {
    && (forall id :: id in t ==> id in t' && t'[id] == t[id])
    && (forall r :: r in recs ==> IdOf(r) in t' && t'[IdOf(r)] == r)
    && (forall id :: id in t' && id !in t ==> t'[id] in recs && IdOf(t'[id]) == id)
  }

  lemma {:induction false} NewLinesAllEnter(t: Table, quarantine: seq<Record>, o: Origin, n: int, recs: seq<Record>)
    requires Prefix(t, o, n) && o != "" && Continues(recs, o, n) && AllNew(t, recs)
    ensures Joined(t, recs, RemoteBatch(t, quarantine, recs).rows)
    decreases |recs|
  {
    if recs != [] {
      var before, r := recs[..|recs| - 1], recs[|recs| - 1];
      assert before + [r] == recs && forall q :: q in before ==> q in recs;
      NewLinesAllEnter(t, quarantine, o, n, before);
      var run := RemoteBatch(t, quarantine, before);
      LastIsNew(t, o, n, recs, run.rows);
      PlaceNew(t, before, run, r);
    }
  }

  lemma PlaceNew(t: Table, recs: seq<Record>, run: RemoteRun, r: Record)
    requires Joined(t, recs, run.rows) && IdOf(r) !in run.rows && forall id :: id in run.rows ==> !SameLine(run.rows[id], r)
    ensures Joined(t, recs + [r], PlaceRemote(run, r).rows)
  {
    assert forall q :: q in recs + [r] <==> q in recs || q == r;
  }

  lemma LastIsNew(t: Table, o: Origin, n: int, recs: seq<Record>, held: Table)
    requires Prefix(t, o, n) && recs != [] && Continues(recs, o, n) && AllNew(t, recs)
    requires Joined(t, recs[..|recs| - 1], held)
    ensures IdOf(recs[|recs| - 1]) !in held && forall id :: id in held ==> !SameLine(held[id], recs[|recs| - 1])
  {
    var r := recs[|recs| - 1];
    assert r in recs && IdOf(r) == Id(o, n + |recs|);
    forall id | id in held ensures id != IdOf(r) && !SameLine(held[id], r) {
      if id !in t {
        var j :| 0 <= j < |recs| - 1 && recs[j] == held[id];
        assert IdOf(recs[j]) == Id(o, n + 1 + j);
      }
    }
  }

  /** The next stretch keeps the replica gap-free if and only if none of its lines
      is held under another sequence or comes twice. */
  lemma AppendIsGapFreeIff(t: Table, quarantine: seq<Record>, o: Origin, n: int, recs: seq<Record>)
    requires Sound(t) && Prefix(t, o, n) && o != "" && Continues(recs, o, n)
    ensures Prefix(RemoteBatch(t, quarantine, recs).rows, o, n + |recs|) <==> AllNew(t, recs)
  {
    var t' := RemoteBatch(t, quarantine, recs).rows;
    if AllNew(t, recs) {
      NewLinesAllEnter(t, quarantine, o, n, recs);
      JoinedIsPrefix(t, o, n, recs, t');
    }
    if Prefix(t', o, n + |recs|) {
      RemoteAppendMerges(t, quarantine, recs);
      EnteredIsNew(t, o, n, recs, t');
    }
  }

  lemma JoinedIsPrefix(t: Table, o: Origin, n: int, recs: seq<Record>, t': Table)
    requires Prefix(t, o, n) && Continues(recs, o, n) && Joined(t, recs, t')
    ensures Prefix(t', o, n + |recs|)
  {
    forall s ensures Id(o, s) in t' <==> 1 <= s <= n + |recs| {
      if n < s <= n + |recs| {
        assert IdOf(recs[s - n - 1]) == Id(o, s);
      }
      if Id(o, s) in t' && Id(o, s) !in t {
        var j :| 0 <= j < |recs| && recs[j] == t'[Id(o, s)];
        assert IdOf(recs[j]) == Id(o, n + 1 + j);
      }
    }
  }

  lemma EnteredIsNew(t: Table, o: Origin, n: int, recs: seq<Record>, t': Table)
    requires Prefix(t, o, n) && Continues(recs, o, n) && Grown(t, recs, t') && Prefix(t', o, n + |recs|)
    ensures AllNew(t, recs)
  {
    forall j | 0 <= j < |recs|
      ensures IdOf(recs[j]) in t' && IdOf(recs[j]) !in t && t'[IdOf(recs[j])] == recs[j]
    {
      var id := IdOf(recs[j]);
      assert id == Id(o, n + 1 + j);
      var k :| 0 <= k < |recs| && recs[k] == t'[id];
      assert IdOf(recs[k]) == Id(o, n + 1 + k) && IdOf(t'[id]) == id;
    }
    forall id, r | id in t && r in recs ensures !SameLine(t[id], r) {
      var j :| 0 <= j < |recs| && recs[j] == r;
      assert t'[id] == t[id] && t'[IdOf(r)] == r;
    }
    forall i, j | 0 <= i < j < |recs| ensures !SameLine(recs[i], recs[j]) {
      assert IdOf(recs[i]) != IdOf(recs[j]);
      assert t'[IdOf(recs[i])] == recs[i] && t'[IdOf(recs[j])] == recs[j];
    }
  }

  /** Two clones of one database collected the same line at different sequences:
      the reader's watermark passes a sequence it does not hold, and since a peer
      resends only above the watermark, it never will by that alone. */
  lemma CollisionLeavesGap(o: Origin, line: Line, other: Line)
    requires o != "" && KeyOf(o, line) != Unindexed && KeyOf(o, other) != KeyOf(o, line)
    ensures var t: Table := map[Id(o, 1) := Record(o, 1, line, BLANK)];
            var t' := RemoteBatch(t, [], [Record(o, 2, line, BLANK), Record(o, 3, other, BLANK)]).rows;
            && Prefix(t, o, 1) && Watermark(t', o) == 3 && Id(o, 2) !in t' && !Prefix(t', o, 3)
  {
    var first, second, third := Record(o, 1, line, BLANK), Record(o, 2, line, BLANK), Record(o, 3, other, BLANK);
    var t: Table := map[Id(o, 1) := first];
    assert SameLine(t[Id(o, 1)], second);
    assert [second, third][..1] == [second] && [second][..0] == [];
    var none := RemoteBatch(t, [], []);
    var one := RemoteBatch(t, [], [second]);
    assert one == PlaceRemote(none, second);
    assert IdOf(second) !in t && Refused(t, second);
    assert one.rows == t;
    assert forall id :: id in t ==> !SameLine(t[id], third);
    var t' := RemoteBatch(t, [], [second, third]).rows;
    assert t' == t[Id(o, 3) := third];
    assert 3 in Held(t', o) by { assert Id(o, 3) in t'; }
    assert forall s :: s in Held(t', o) ==> Id(o, s) in t';
  }
}
