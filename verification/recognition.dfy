/** Which lines an append stores, told by the fields of the lines: what is held of
    the origin, or came earlier in the batch, recognises a line or does not. */
module Recognition {
  import opened Records
  import opened Store

  /** A row of the origin is taken for this line. */
  ghost predicate HeldAlready(t: Table, o: Origin, line: Line) {
    exists id :: id in t && id.origin == o && Recognises(t[id].line, line)
  }

  lemma RefusedIff(t: Table, r: Record)
    requires WellKeyed(t)
    ensures Refused(t, r) <==> IdOf(r) in t || HeldAlready(t, r.origin, r.line)
  {
    forall id | id in t ensures SameLine(t[id], r) <==> id.origin == r.origin && Recognises(t[id].line, r.line) {
      SameLineIff(t[id], r);
    }
  }

  // ---- Collected lines ----

  /** The line left out, or put in a row of its own under the next sequence. */
  ghost predicate Places(before: LocalRun, o: Origin, r: Record, after: LocalRun) {
    var num := before.next;
    if HeldAlready(before.rows, o, r.line) then
      after == before.(tally := before.tally.(duplicates := before.tally.duplicates + 1))
    else
      && Id(o, num) !in before.rows
      && after.rows == before.rows[Id(o, num) := Record(o, num, r.line, r.columns)]
      && after.next == num + 1 && after.tally == before.tally.(stored := before.tally.stored + 1, lastSeq := num)
  }

  /** A line of a batch is left out if and only if a row of the origin, held before or
      stored earlier in the batch, recognises it. */
  lemma LocalStoresIff(t: Table, o: Origin, recs: seq<Record>, n: int, i: nat)
    requires o != "" && Sound(t) && Prefix(t, o, n) && i < |recs|
    ensures var before := LocalBatch(t, o, recs[..i]);
            before.next == n + before.tally.stored + 1 && Places(before, o, recs[i], LocalBatch(t, o, recs[..i + 1]))
  {
    hide Sound;
    assert recs[..i + 1][..i] == recs[..i];
    LocalAppendExtends(t, o, recs[..i], n);
    PlacedSo(LocalBatch(t, o, recs[..i]), o, n, recs[i]);
  }

  lemma PlacedSo(run: LocalRun, o: Origin, n: int, r: Record)
    requires Sound(run.rows) && Prefix(run.rows, o, n + run.tally.stored) && run.next == n + run.tally.stored + 1
    ensures Places(run, o, r, PlaceLocal(run, o, r))
  {
    RefusedIff(run.rows, r.(origin := o, num := run.next));
    assert r.(origin := o, num := run.next) == Record(o, run.next, r.line, r.columns);
  }

  /** Nothing held recognises a line of the batch, nor does one of its lines another. */
  ghost predicate AllApart(t: Table, o: Origin, recs: seq<Record>) {
    && (forall r :: r in recs ==> !HeldAlready(t, o, r.line))
    && (forall i, j :: 0 <= i < j < |recs| ==> !Recognises(recs[i].line, recs[j].line))
  }

  /** A line of the batch in a new row, as it was collected. */
  ghost predicate InItsRow(t: Table, o: Origin, recs: seq<Record>, n: int, t': Table, i: nat)
    requires i < |recs|
  {
    var id := Id(o, n + 1 + i);
    id in t' && id !in t && t'[id] == Record(o, n + 1 + i, recs[i].line, recs[i].columns)
  }

  /** Each line of the batch in a row of its own, in order, and nothing else new. */
  ghost predicate EachInItsRow(t: Table, o: Origin, recs: seq<Record>, n: int, t': Table) {
    && (forall id :: id in t ==> id in t' && t'[id] == t[id])
    && (forall i :: 0 <= i < |recs| ==> InItsRow(t, o, recs, n, t', i))
    && (forall id :: id in t' && id !in t ==> id.origin == o && n < id.num <= n + |recs|)
  }

  /** What was stored before does not recognise the last line either. */
  lemma LastIsApart(t: Table, o: Origin, recs: seq<Record>, n: int, held: Table)
    requires recs != [] && AllApart(t, o, recs) && EachInItsRow(t, o, recs[..|recs| - 1], n, held)
    ensures !HeldAlready(held, o, recs[|recs| - 1].line)
  {
    hide Recognises;
    var k := |recs| - 1;
    assert recs[k] in recs;
    forall id | id in held && id.origin == o ensures !Recognises(held[id].line, recs[k].line) {
      if id !in t {
        var i := id.num - n - 1;
        assert InItsRow(t, o, recs[..k], n, held, i);
        assert id == Id(o, n + 1 + i) && held[id].line == recs[..k][i].line == recs[i].line;
      }
    }
  }

  lemma OneMoreInItsRow(t: Table, o: Origin, recs: seq<Record>, n: int, held: Table)
    requires recs != [] && EachInItsRow(t, o, recs[..|recs| - 1], n, held) && Id(o, n + |recs|) !in held
    ensures var r := recs[|recs| - 1];
            EachInItsRow(t, o, recs, n, held[Id(o, n + |recs|) := Record(o, n + |recs|, r.line, r.columns)])
  {
    var k := |recs| - 1;
    var held' := held[Id(o, n + |recs|) := Record(o, n + |recs|, recs[k].line, recs[k].columns)];
    forall i | 0 <= i < |recs| ensures InItsRow(t, o, recs, n, held', i) {
      if i < k {
        assert InItsRow(t, o, recs[..k], n, held, i);
      }
    }
  }

  lemma FrontApart(t: Table, o: Origin, recs: seq<Record>)
    requires recs != [] && AllApart(t, o, recs)
    ensures AllApart(t, o, recs[..|recs| - 1])
  {
    hide Recognises, HeldAlready;
    assert forall r :: r in recs[..|recs| - 1] ==> r in recs;
  }

  lemma ApartStep(t: Table, o: Origin, recs: seq<Record>, n: int, was: LocalRun, now: LocalRun)
    requires recs != [] && AllApart(t, o, recs) && EachInItsRow(t, o, recs[..|recs| - 1], n, was.rows)
    requires was.tally.stored == |recs| - 1 && was.next == n + was.tally.stored + 1 && Places(was, o, recs[|recs| - 1], now)
    ensures now.tally.stored == |recs| && EachInItsRow(t, o, recs, n, now.rows)
  {
    LastIsApart(t, o, recs, n, was.rows);
    hide AllApart, EachInItsRow, HeldAlready;
    OneMoreInItsRow(t, o, recs, n, was.rows);
  }

  lemma {:induction false} ApartAreStored(t: Table, o: Origin, recs: seq<Record>, n: int)
    requires o != "" && Sound(t) && Prefix(t, o, n) && AllApart(t, o, recs)
    ensures var run := LocalBatch(t, o, recs); run.tally.stored == |recs| && EachInItsRow(t, o, recs, n, run.rows)
    decreases |recs|
  {
    hide Sound, Prefix, AllApart, HeldAlready;
    if recs == [] {
      assert LocalBatch(t, o, []).rows == t;
    } else {
      hide LocalBatch, EachInItsRow, Places;
      var k := |recs| - 1;
      FrontApart(t, o, recs);
      ApartAreStored(t, o, recs[..k], n);
      assert recs[..k + 1] == recs;
      LocalStoresIff(t, o, recs, n, k);
      ApartStep(t, o, recs, n, LocalBatch(t, o, recs[..k]), LocalBatch(t, o, recs));
    }
  }

  lemma RowOfLine(t: Table, o: Origin, recs: seq<Record>, n: int, held: Table, i: nat)
    requires EachInItsRow(t, o, recs, n, held) && i < |recs|
    ensures Id(o, n + 1 + i) in held && held[Id(o, n + 1 + i)].line == recs[i].line
  {
    assert InItsRow(t, o, recs, n, held, i);
  }

  lemma StoredLastIsApart(t: Table, o: Origin, recs: seq<Record>, n: int, held: Table)
    requires recs != [] && AllApart(t, o, recs[..|recs| - 1]) && EachInItsRow(t, o, recs[..|recs| - 1], n, held)
    requires !HeldAlready(held, o, recs[|recs| - 1].line)
    ensures AllApart(t, o, recs)
  {
    hide Recognises;
    var k := |recs| - 1;
    forall i | 0 <= i < k ensures !Recognises(recs[i].line, recs[k].line) {
      RowOfLine(t, o, recs[..k], n, held, i);
      assert recs[..k][i] == recs[i];
    }
    forall id | id in t && id.origin == o ensures !Recognises(t[id].line, recs[k].line) {
      assert held[id] == t[id];
    }
    assert forall r :: r in recs <==> r in recs[..k] || r == recs[k];
  }

  lemma {:induction false} StoredAreApart(t: Table, o: Origin, recs: seq<Record>, n: int)
    requires o != "" && Sound(t) && Prefix(t, o, n) && LocalBatch(t, o, recs).tally.stored == |recs|
    ensures AllApart(t, o, recs)
    decreases |recs|
  {
    hide Sound, Prefix, HeldAlready;
    if recs != [] {
      hide LocalBatch, EachInItsRow, AllApart;
      var k := |recs| - 1;
      assert recs[..k + 1] == recs;
      LocalStoresIff(t, o, recs, n, k);
      LocalAppendExtends(t, o, recs[..k], n);
      StoredAreApart(t, o, recs[..k], n);
      ApartAreStored(t, o, recs[..k], n);
      StoredLastIsApart(t, o, recs, n, LocalBatch(t, o, recs[..k]).rows);
    }
  }

  /** A batch is stored whole if and only if nothing held recognises a line of it and
      no line of it an earlier one's; then each line is in a row of its own. */
  lemma WholeBatchStoredIff(t: Table, o: Origin, recs: seq<Record>, n: int)
    requires o != "" && Sound(t) && Prefix(t, o, n)
    ensures LocalBatch(t, o, recs).tally.stored == |recs| <==> AllApart(t, o, recs)
    ensures AllApart(t, o, recs) ==> EachInItsRow(t, o, recs, n, LocalBatch(t, o, recs).rows)
  {
    hide Sound, AllApart, EachInItsRow, LocalBatch;
    if LocalBatch(t, o, recs).tally.stored == |recs| {
      StoredAreApart(t, o, recs, n);
    }
    if AllApart(t, o, recs) {
      ApartAreStored(t, o, recs, n);
    }
  }

  /** Lines whose uuids differ from each other's and from every uuid held of the
      origin are all stored, whatever else they have in common. */
  lemma DistinctUuidsAllStored(t: Table, o: Origin, recs: seq<Record>, n: int)
    requires o != "" && Sound(t) && Prefix(t, o, n)
    requires forall r :: r in recs ==> r.line.uuid != ""
    requires forall i, j :: 0 <= i < j < |recs| ==> recs[i].line.uuid != recs[j].line.uuid
    requires forall id, r :: id in t && id.origin == o && r in recs ==> t[id].line.uuid != r.line.uuid
    ensures LocalBatch(t, o, recs).tally == Tally(|recs|, 0, 0, if recs == [] then 0 else n + |recs|)
    ensures EachInItsRow(t, o, recs, n, LocalBatch(t, o, recs).rows)
  {
    forall i, j | 0 <= i < j < |recs| ensures !Recognises(recs[i].line, recs[j].line) {
      assert recs[i] in recs;
    }
    hide Sound, EachInItsRow, LocalBatch;
    assert AllApart(t, o, recs);
    WholeBatchStoredIff(t, o, recs, n);
    LocalAppendExtends(t, o, recs, n);
  }

  /** So are lines without a uuid that were read at different offsets. */
  lemma DistinctOffsetsAllStored(t: Table, o: Origin, recs: seq<Record>, n: int)
    requires o != "" && Sound(t) && Prefix(t, o, n)
    requires forall r :: r in recs ==> r.line.uuid == ""
    requires forall i, j :: 0 <= i < j < |recs| ==> recs[i].line.offset != recs[j].line.offset
    requires forall id, r :: id in t && id.origin == o && r in recs ==> t[id].line.offset != r.line.offset
    ensures LocalBatch(t, o, recs).tally.stored == |recs| && EachInItsRow(t, o, recs, n, LocalBatch(t, o, recs).rows)
  {
    forall i, j | 0 <= i < j < |recs| ensures !Recognises(recs[i].line, recs[j].line) {
      assert recs[i] in recs;
    }
    hide Sound, EachInItsRow, LocalBatch;
    assert AllApart(t, o, recs);
    WholeBatchStoredIff(t, o, recs, n);
  }

  // ---- A peer's records ----

  /** At a position that is held a record only ever counts, as evidence if it says
      something else; at a free one it is stored if and only if no row of its origin
      recognises its line. */
  lemma RemoteStoresIff(t: Table, quarantine: seq<Record>, recs: seq<Record>, i: nat)
    requires Sound(t) && i < |recs| && forall r :: r in recs ==> Addressed(r)
    ensures var before, after, r := RemoteBatch(t, quarantine, recs[..i]), RemoteBatch(t, quarantine, recs[..i + 1]), recs[i];
            if IdOf(r) in before.rows then
              && after.rows == before.rows
              && after.quarantine == if before.rows[IdOf(r)].line.hash == r.line.hash then before.quarantine else before.quarantine + [r]
            else
              && after.quarantine == before.quarantine
              && after.rows == if HeldAlready(before.rows, r.origin, r.line) then before.rows else before.rows[IdOf(r) := r]
  {
    hide Refused;
    assert forall r :: r in recs[..i] ==> r in recs;
    OneMorePlaced(t, quarantine, recs, i);
    RemoteAppendMerges(t, quarantine, recs[..i]);
    RefusedIff(RemoteBatch(t, quarantine, recs[..i]).rows, recs[i]);
  }
}
