/** Re-derived columns and the marks that say how far re-derivation has come. */
module Extraction {
  import opened Records
  import opened Sets
  import opened Store
  import opened Exchange

  /** What the body says the columns are, or nothing if it cannot be unsealed. */
  type Reader = Payload -> Option<Columns>

  datatype Extracted = Extracted(id: Id, columns: Columns)

  datatype Walked = Walked(origin: Origin, version: int)

  type Marks = map<Walked, int>

  function Mark(marks: Marks, o: Origin, version: int): int {
    if Walked(o, version) in marks then marks[Walked(o, version)] else 0
  }

  /** `UPDATE records ... WHERE origin_id = ? AND seq = ?`. */
  function UpdateRow(t: Table, e: Extracted): Table {
    if e.id in t then t[e.id := t[e.id].(columns := e.columns)] else t
  }

  function Update(t: Table, rows: seq<Extracted>): Table {
    if rows == [] then t else UpdateRow(Update(t, rows[..|rows| - 1]), rows[|rows| - 1])
  }

  /** `seq = max(seq, excluded.seq)`. */
  function Advance(marks: Marks, o: Origin, version: int, upTo: int): Marks {
    if Walked(o, version) in marks && upTo < marks[Walked(o, version)] then marks
    else marks[Walked(o, version) := upTo]
  }

  function Wants(read: Reader, r: Record): seq<Extracted> {
    match read(r.line.body)
    case None => []
    case Some(want) => if want == r.columns then [] else [Extracted(IdOf(r), want)]
  }

  /** `reextract`: only the rows whose columns disagree with their body. */
  function Reextract(read: Reader, batch: seq<Record>): seq<Extracted> {
    if batch == [] then []
    else Reextract(read, batch[..|batch| - 1]) + Wants(read, batch[|batch| - 1])
  }

  function Unreadable(read: Reader, batch: seq<Record>): nat {
    if batch == [] then 0
    else Unreadable(read, batch[..|batch| - 1]) + if read(batch[|batch| - 1].line.body).None? then 1 else 0
  }

  // ---- What the marks promise ----

  /** The columns are what the body says, or the body cannot be read. */
  predicate Right(read: Reader, r: Record) {
    read(r.line.body) == None || read(r.line.body) == Some(r.columns)
  }

  /** No mark overstates: it is not above what is held, and every record at or below
      it is right. */
  ghost predicate Truthful(t: Table, marks: Marks, version: int, read: Reader) {
    && (forall o :: 0 <= Mark(marks, o, version) <= Watermark(t, o))
    && (forall id :: id in t && id.num <= Mark(marks, id.origin, version) ==> Right(read, t[id]))
  }

  /** Marks only move up. */
  ghost predicate Upward(marks: Marks, marks': Marks, version: int) {
    forall o :: Mark(marks, o, version) <= Mark(marks', o, version)
  }

  // ---- Updating ----

  /** `t'` is `t` with some columns made right. */
  ghost predicate Improves(t: Table, t': Table, read: Reader) {
    && Alike(t, t')
    && forall id :: id in t ==> t'[id] == t[id] || Right(read, t'[id])
  }

  lemma ImprovesOn(a: Table, b: Table, c: Table, read: Reader)
    requires Improves(a, b, read) && Improves(b, c, read)
    ensures Improves(a, c, read)
  {}

  lemma {:induction false} ReextractIsRight(read: Reader, batch: seq<Record>)
    ensures forall e :: e in Reextract(read, batch) ==>
              exists r :: r in batch && e == Extracted(IdOf(r), e.columns) && read(r.line.body) == Some(e.columns)
    ensures forall r :: r in batch ==> Right(read, r) || Extracted(IdOf(r), read(r.line.body).value) in Reextract(read, batch)
    decreases |batch|
  {
    if batch != [] {
      var before, last := batch[..|batch| - 1], batch[|batch| - 1];
      ReextractIsRight(read, before);
      assert forall r :: r in batch <==> r in before || r == last;
    }
  }

  /** Every update is of a held row and says what that row's body says. */
  ghost predicate Sincere(t: Table, rows: seq<Extracted>, read: Reader) {
    forall e :: e in rows && e.id in t ==> read(t[e.id].line.body) == Some(e.columns)
  }

  lemma {:induction false} UpdateImproves(t: Table, rows: seq<Extracted>, read: Reader)
    requires Sincere(t, rows, read)
    ensures Improves(t, Update(t, rows), read)
    ensures forall e :: e in rows && e.id in t ==> Right(read, Update(t, rows)[e.id])
    decreases |rows|
  {
    if rows != [] {
      var before, last := rows[..|rows| - 1], rows[|rows| - 1];
      UpdateImproves(t, before, read);
      UpdateRowImproves(t, Update(t, before), last, read);
      assert forall e :: e in rows <==> e in before || e == last;
    }
  }

  lemma UpdateRowImproves(t: Table, mid: Table, e: Extracted, read: Reader)
    requires Improves(t, mid, read) && (e.id in t ==> read(t[e.id].line.body) == Some(e.columns))
    ensures Improves(t, UpdateRow(mid, e), read)
    ensures e.id in t ==> Right(read, UpdateRow(mid, e)[e.id])
    ensures forall id :: id in mid ==> UpdateRow(mid, e)[id] == mid[id] || Right(read, UpdateRow(mid, e)[id])
  {
    if e.id in t {
      assert Core(mid[e.id]).line == Core(t[e.id]).line;
    }
  }

  /** Rewriting columns moves no watermark. */
  lemma ImprovesKeepsWatermarks(t: Table, t': Table, o: Origin)
    requires t'.Keys == t.Keys
    ensures Watermark(t', o) == Watermark(t, o)
  {
    assert forall id :: id in t' <==> id in t;
    assert Held(t', o) == Held(t, o);
  }

  // ---- Appending above ----

  /** Rows were added, none at or below a sequence already reached. */
  ghost predicate AppendsAbove(t: Table, t': Table) {
    && (forall id :: id in t ==> id in t' && t'[id] == t[id])
    && (forall id :: id in t' && id !in t ==> Watermark(t, id.origin) < id.num)
  }

  /** Collected lines go above. */
  lemma LocalAppendsAbove(t: Table, o: Origin, recs: seq<Record>, n: int)
    requires o != "" && Sound(t) && Prefix(t, o, n)
    ensures AppendsAbove(t, LocalBatch(t, o, recs).rows)
  {
    LocalAppendExtends(t, o, recs, n);
    WatermarkOf(t, o, n);
    var t' := LocalBatch(t, o, recs).rows;
    forall id | id in t' && id !in t ensures Watermark(t, id.origin) < id.num {
      assert id == Id(o, id.num);
    }
  }

  lemma WatermarkRises(t: Table, t': Table, o: Origin)
    requires WellKeyed(t) && WellKeyed(t') && AppendsAbove(t, t')
    ensures 0 <= Watermark(t, o) <= Watermark(t', o)
  {
    if Held(t, o) != {} {
      var n := Watermark(t, o);
      assert n in Held(t, o);
      assert Id(o, n) in t && 0 < n;
      WatermarkBounds(t', Id(o, n));
    } else if Held(t', o) != {} {
      var n := Watermark(t', o);
      assert n in Held(t', o) && Id(o, n) in t';
    }
  }

  lemma AppendKeepsTruth(t: Table, t': Table, marks: Marks, version: int, read: Reader)
    requires Truthful(t, marks, version, read) && WellKeyed(t) && WellKeyed(t') && AppendsAbove(t, t')
    ensures Truthful(t', marks, version, read)
  {
    forall o ensures 0 <= Mark(marks, o, version) <= Watermark(t', o) {
      WatermarkRises(t, t', o);
    }
  }

  /** A record that fills a gap at or below the mark is not looked at again: appending
      `r` keeps the marks truthful if and only if `r` is above the mark or right
      as it arrived. */
  lemma GapKeepsTruthIff(t: Table, r: Record, marks: Marks, version: int, read: Reader)
    requires Truthful(t, marks, version, read) && IdOf(r) !in t && 0 < r.num
    ensures Truthful(t[IdOf(r) := r], marks, version, read) <==>
              Mark(marks, r.origin, version) < r.num || Right(read, r)
  {
    var t' := t[IdOf(r) := r];
    forall o ensures Watermark(t, o) <= Watermark(t', o) {
      if Held(t, o) != {} {
        var n := Watermark(t, o);
        assert n in Held(t, o) && Id(o, n) in t;
        WatermarkBounds(t', Id(o, n));
      } else if Held(t', o) != {} {
        var n := Watermark(t', o);
        assert n in Held(t', o) && Id(o, n) in t';
        assert Id(o, n) in t ==> n in Held(t, o);
        assert Id(o, n) == IdOf(r);
      }
    }
    assert IdOf(r) in t' && t'[IdOf(r)] == r;
  }

  function Extractable(num: int, columns: Columns): Record {
    Record("o", num, Line("s", "p", num, "h", "", "", "", "", "", Usage(0, 0, 0, 0, 0, 0), []), columns)
  }

  /** The mark is at 2, where 2 is all that is held; a record of sequence 1 arrives
      with columns its body does not bear out, and the mark overstates. */
  lemma LateRecordIsOverstated(version: int, read: Reader)
    requires read([]) == Some(BLANK)
    ensures var t, marks := map[Id("o", 2) := Extractable(2, BLANK)], map[Walked("o", version) := 2];
            var r := Extractable(1, Columns("elsewhere", "", "", 0));
            Truthful(t, marks, version, read) && IdOf(r) !in t && !Truthful(t[IdOf(r) := r], marks, version, read)
  {
    var t, marks := map[Id("o", 2) := Extractable(2, BLANK)], map[Walked("o", version) := 2];
    var r := Extractable(1, Columns("elsewhere", "", "", 0));
    assert Id("o", 2) in t;
    WatermarkBounds(t, Id("o", 2));
    forall o ensures 0 <= Mark(marks, o, version) <= Watermark(t, o) {
      if o != "o" {
        WatermarkEmpty(t, o);
      }
    }
    GapKeepsTruthIff(t, r, marks, version, read);
  }
}
