/** One pass over every stream: read what is new, upload it, and only then advance
    the cursors. A pass may be cut off between any two durable writes, which is what
    returning `false` from there stands for. */
module Collector {
  import opened Records
  import opened Sets
  import opened Store
  import opened Tail
  import opened Collection

  const MAX_BATCH_RECORDS: nat := 50_000

  class Cursors {
    var saved: map<Key, Cursor>

    constructor ()
      ensures saved == map[]
    {
      saved := map[];
    }

    method Load(k: Key) returns (ok: bool, c: Cursor)
      ensures ok ==> c == if k in saved then saved[k] else FRESH
    {
      c := if k in saved then saved[k] else FRESH;
      ok := *;
    }

    method Save(k: Key, c: Cursor) returns (ok: bool)
      modifies this
      ensures saved == if ok then old(saved)[k := c] else old(saved)
    {
      ok := *;
      if ok {
        saved := saved[k := c];
      }
    }
  }

  /** A batch of lines with the cursors they justify advancing. */
  class Pending {
    var records: seq<Wire>
    var cursors: map<Key, Cursor>

    constructor ()
      ensures records == [] && cursors == map[]
    {
      records, cursors := [], map[];
    }
  }

  // ---- Cursors of the file that is there ----

  /** Since `d0` no other file took the path over. */
  ghost predicate Watched(d0: Disk, d: Disk, k: Key) {
    k.path in d0.files && Known(d0.files[k.path].identity) && Moves(d0, k.path) == Moves(d, k.path)
  }

  /** The cursor is of the file that is there, or still the one that was saved. */
  ghost predicate Loyal(d0: Disk, saved0: map<Key, Cursor>, d: Disk, k: Key, c: Cursor) {
    Watched(d0, d, k) ==>
      c == FRESH || c.identity == d0.files[k.path].identity || (k in saved0 && c == saved0[k])
  }

  ghost predicate AllLoyal(d0: Disk, saved0: map<Key, Cursor>, d: Disk, cursors: map<Key, Cursor>) {
    forall k :: k in cursors ==> Loyal(d0, saved0, d, k, cursors[k])
  }

  /** Each state of the files is one the state before can turn into. */
  ghost predicate Unfolds(d: Disk, ahead: seq<Disk>)
    decreases |ahead|
  {
    ahead == [] || (Evolves(d, ahead[0]) && Unfolds(ahead[0], ahead[1..]))
  }

  lemma EvolvesOn(a: Disk, b: Disk, c: Disk)
    requires Evolves(a, b) && Evolves(b, c)
    ensures Evolves(a, c)
  {
    forall i | i in a.past ensures i in c.past && a.past[i] <= c.past[i] {
      assert a.past[i] <= b.past[i] <= c.past[i];
    }
    forall p | p in a.files ensures Unmoved(a, c, p) || Moves(a, p) < Moves(c, p) {
      assert Moves(a, p) <= Moves(b, p) <= Moves(c, p);
    }
  }

  lemma LoyalOn(d0: Disk, saved0: map<Key, Cursor>, d: Disk, d': Disk, cursors: map<Key, Cursor>)
    requires AllLoyal(d0, saved0, d, cursors) && Evolves(d0, d) && Evolves(d, d')
    ensures AllLoyal(d0, saved0, d', cursors)
  {
    forall k | k in cursors ensures Loyal(d0, saved0, d', k, cursors[k]) {
      assert Moves(d0, k.path) <= Moves(d, k.path) <= Moves(d', k.path);
      assert Loyal(d0, saved0, d, k, cursors[k]);
    }
  }

  lemma ReadIsLoyal(d0: Disk, saved0: map<Key, Cursor>, d: Disk, hash: Hash, bound: nat, k: Key, from: Cursor)
    requires Evolves(d0, d) && k.path in d.files
    ensures Loyal(d0, saved0, d, k, Read(hash, bound, d.files[k.path], from).next)
  {}

  /** A read that brought nothing further, of a file watched since `d0`, means every
      complete line that fits a read and was there at `d0` is accounted for, unless
      the read began again and stopped short where the old cursor was. */
  lemma DrainedDelivers(d0: Disk, saved0: map<Key, Cursor>, d: Disk, hash: Hash, bound: nat,
                        t0: Table, batch0: seq<Wire>, t: Table, o: Origin, ex: Extractor, batch: seq<Wire>, k: Key, from: Cursor)
    requires DiskOk(d) && Evolves(d0, d) && DiskOk(d0) && k.path in d.files && Watched(d0, d, k)
    requires Loyal(d0, saved0, d, k, from) && Safe(d.past, t0, o, ex, batch0, k, from)
    requires AllLinesFit(d0, k, bound) && !CutShort(d0, saved0, k, bound)
    requires var r := Read(hash, bound, d.files[k.path], from);
             Over(r, from) && Safe(d.past, t, o, ex, batch, k, r.next)
    ensures Delivered(t, o, ex, batch, k, d0.files[k.path].content)
  {
    hide AllAccounted, LinesFit, LinesIn, LinesEnd, StopsShort, Reach, Fingerprint;
    var f, was := d.files[k.path], d0.files[k.path].content;
    var r, s := Read(hash, bound, f, from), ResolveStart(hash, f, from);
    var i := Incarnation(k.path, f.identity);
    assert Unmoved(d0, d, k.path) && f.identity == d0.files[k.path].identity;
    assert i in d0.past && d0.past[i] == was && i in d.past && d.past[i] == f.content && was <= f.content;
    NoLineNoEnd(f.content, s.offset, Reach(f.content, s.offset, bound));
    if r.next.offset == s.offset {
      NothingLeft(was, f.content, r.next.offset, bound);
    } else {
      if 0 < s.offset {
        ResumesOwnFile(d, hash, k, from);
      }
      assert s.offset == 0 && r.next.offset == from.offset && from.identity != f.identity;
      NothingLeftOfOther(was, f.content, bound, from.offset);
    }
    AccountedWithin(t, o, ex, batch, k, LinesIn(was, 0, |was|), LinesIn(f.content, 0, r.next.offset));
  }

  lemma NoLineNoEnd(c: Bytes, from: nat, end: nat)
    requires from <= end <= |c|
    ensures LinesIn(c, from, end) == [] ==> LinesEnd(c, from, end) == from
  {}

  lemma AccountedWithin(t: Table, o: Origin, ex: Extractor, batch: seq<Wire>, k: Key, a: seq<RawLine>, b: seq<RawLine>)
    requires AllAccounted(t, o, ex, batch, k, b) && forall line :: line in a ==> line in b
    ensures AllAccounted(t, o, ex, batch, k, a)
  {}

  /** The read brought nothing further, which ends the loop over a stream. */
  predicate Over(r: ReadResult, from: Cursor) {
    |r.lines| == 0 || r.next.offset == from.offset
  }

  // ---- Where a restarted read stops ----

  /** The first bounded read of the content ends at this offset, and a line is left. */
  ghost predicate StopsShort(c: Bytes, offset: nat, bound: nat) {
    var end := Reach(c, 0, bound);
    && 0 < offset <= end && c[offset - 1] == NEWLINE && (forall j :: offset <= j < end ==> c[j] != NEWLINE)
    && exists j :: end <= j < |c| && c[j] == NEWLINE
  }

  /** The cursor saved at `d0` was of another file, and the first read of the one
      that is there ends just where that cursor was. */
  ghost predicate CutShort(d0: Disk, saved0: map<Key, Cursor>, k: Key, bound: nat)
    requires k.path in d0.files
  {
    && k in saved0 && saved0[k].identity != d0.files[k.path].identity
    && StopsShort(d0.files[k.path].content, saved0[k].offset, bound)
  }

  lemma {:induction false} EndsAt(c: Bytes, from: nat, end: nat, at: nat)
    requires from <= at <= end <= |c| && (at == from || c[at - 1] == NEWLINE)
    requires forall j :: at <= j < end ==> c[j] != NEWLINE
    ensures LinesEnd(c, from, end) == at
  {
    LinesSplit(c, from, at, end);
    NextNewlineIsNone(c, at, end);
  }

  lemma SomeLineIff(c: Bytes, from: nat, end: nat)
    requires from <= end <= |c|
    ensures LinesIn(c, from, end) != [] <==> exists j :: from <= j < end && c[j] == NEWLINE
  {
    var i := NextNewline(c, from, end);
    assert i < end ==> c[i] == NEWLINE;
  }

  /** A read that begins the file again ends the loop with complete lines left
      unread if and only if it stops short where the cursor was, given that every
      line fits a read. */
  lemma RestartEndsEarlyIff(hash: Hash, bound: nat, f: File, from: Cursor)
    requires ResolveStart(hash, f, from).offset == 0 < from.offset
    requires LinesFit(LinesIn(f.content, 0, |f.content|), bound)
    ensures var r := Read(hash, bound, f, from);
            Over(r, from) && LinesIn(f.content, r.next.offset, |f.content|) != [] <==> StopsShort(f.content, from.offset, bound)
  {
    hide LinesIn, LinesEnd, ResolveStart, NextNewline;
    var c := f.content;
    var end := Reach(c, 0, bound);
    var next := LinesEnd(c, 0, end);
    SomeLineIff(c, next, |c|);
    if StopsShort(c, from.offset, bound) {
      EndsAt(c, 0, end, from.offset);
    }
    if LinesIn(c, 0, end) == [] {
      NoLineNoEnd(c, 0, end);
      EmptyRead(c, 0, bound);
      FirstFits(LinesIn(c, 0, |c|), bound);
    }
  }

  lemma FirstFits(lines: seq<RawLine>, bound: nat)
    requires LinesFit(lines, bound)
    ensures lines == [] || |lines[0].data| < bound
  {
    assert lines != [] ==> lines[0] in lines;
  }

  /** What the file had at first is behind the end of its first read, unless that
      read stopped short of it. */
  lemma NothingLeftOfOther(was: Bytes, c: Bytes, bound: nat, offset: nat)
    requires was <= c && LinesEnd(c, 0, Reach(c, 0, bound)) == offset && 0 < offset && !StopsShort(was, offset, bound)
    ensures forall line :: line in LinesIn(was, 0, |was|) ==> line in LinesIn(c, 0, offset)
  {
    hide LinesIn, LinesEnd;
    var end := Reach(c, 0, bound);
    LinesStay(was, c, 0, |was|);
    if |was| <= offset {
      var e := LinesEnd(c, 0, |was|);
      LinesSplit(c, 0, e, |was|);
      NothingAfterEnd(c, 0, |was|);
      LinesSplit(c, 0, e, offset);
    } else {
      SomeLineIff(c, offset, |was|);
      assert end < |was| ==> end == Reach(was, 0, bound);
      LinesSplit(c, 0, offset, |was|);
    }
  }

  /** Every complete line the file had at `d0` fits one read. */
  ghost predicate AllLinesFit(d0: Disk, k: Key, bound: nat) {
    k.path in d0.files && LinesFit(LinesIn(d0.files[k.path].content, 0, |d0.files[k.path].content|), bound)
  }

  function Remaining(d: Disk, hash: Hash, k: Key, c: Cursor): nat {
    if k.path in d.files then |d.files[k.path].content| - ResolveStart(hash, d.files[k.path], c).offset else 0
  }

  lemma ReadAdvances(hash: Hash, bound: nat, d: Disk, k: Key, from: Cursor)
    requires k.path in d.files && !Over(Read(hash, bound, d.files[k.path], from), from)
    ensures Remaining(d, hash, k, Read(hash, bound, d.files[k.path], from).next) < Remaining(d, hash, k, from)
  {
    NextReadResumes(hash, bound, d.files[k.path], from);
  }

  /** One such file: its first read ends where the old cursor was, and a line is
      left for the next pass. */
  lemma RestartMayEndEarly(hash: Hash)
    ensures var f := File(FileIdentity(1, 2), [97, NEWLINE, 98, NEWLINE]);
            var from := Cursor(2, 0, FileIdentity(1, 1));
            var r := Read(hash, 2, f, from);
            && r.continuity == Replaced && Over(r, from) && r.lines == [RawLine(0, [97])]
            && LinesIn(f.content, r.next.offset, |f.content|) == [RawLine(2, [98])]
  {
    var c := [97, NEWLINE, 98, NEWLINE];
    NextNewlineIs(c, 0, 2, 1);
    NextNewlineIs(c, 2, 4, 3);
    assert LinesIn(c, 2, 2) == [] && LinesIn(c, 4, 4) == [];
    assert c[0..1] == [97] && c[2..3] == [98];
  }

  lemma GoneIsNotWatched(d0: Disk, d: Disk, k: Key)
    requires Evolves(d0, d) && k.path !in d.files
    ensures !Watched(d0, d, k)
  {}

  /** If the stream's file stayed the one it was, its lines fit, and its first read
      is not cut short, then what it had at `d0` is accounted for. */
  ghost predicate CaughtUp(stream: FileStream, t: Table, o: Origin, ex: Extractor, ws: seq<Wire>, d: Disk, d0: Disk, saved0: map<Key, Cursor>) {
    var k := Key(stream.source, stream.path);
    Watched(d0, d, k) && AllLinesFit(d0, k, stream.maxBytesPerRead) && !CutShort(d0, saved0, k, stream.maxBytesPerRead) ==>
      Delivered(t, o, ex, ws, k, d0.files[k.path].content)
  }

  ghost predicate AllCaughtUp(streams: seq<FileStream>, n: nat, t: Table, o: Origin, ex: Extractor, ws: seq<Wire>, d: Disk, d0: Disk, saved0: map<Key, Cursor>)
    requires n <= |streams|
  {
    forall j :: 0 <= j < n ==> CaughtUp(streams[j], t, o, ex, ws, d, d0, saved0)
  }

  lemma CaughtUpStays(stream: FileStream, t: Table, t': Table, o: Origin, ex: Extractor, ws: seq<Wire>, ws': seq<Wire>,
                      d: Disk, d': Disk, d0: Disk, saved0: map<Key, Cursor>)
    requires CaughtUp(stream, t, o, ex, ws, d, d0, saved0) && Extended(t, t') && Evolves(d0, d) && Evolves(d, d')
    requires forall w :: w in ws ==> w in ws' || Represented(t', o, ToRecord(ex, w))
    ensures CaughtUp(stream, t', o, ex, ws', d', d0, saved0)
  {
    hide AllAccounted, Represented;
    var k := Key(stream.source, stream.path);
    hide StopsShort;
    if Watched(d0, d', k) && AllLinesFit(d0, k, stream.maxBytesPerRead) && !CutShort(d0, saved0, k, stream.maxBytesPerRead) {
      assert Moves(d0, k.path) <= Moves(d, k.path) <= Moves(d', k.path);
      var was := d0.files[k.path].content;
      AccountedStays(t, t', o, ex, ws, ws', k, LinesIn(was, 0, |was|));
    }
  }

  lemma AllCaughtUpStays(streams: seq<FileStream>, n: nat, t: Table, t': Table, o: Origin, ex: Extractor, ws: seq<Wire>, ws': seq<Wire>,
                         d: Disk, d': Disk, d0: Disk, saved0: map<Key, Cursor>)
    requires n <= |streams| && AllCaughtUp(streams, n, t, o, ex, ws, d, d0, saved0) && Extended(t, t') && Evolves(d0, d) && Evolves(d, d')
    requires forall w :: w in ws ==> w in ws' || Represented(t', o, ToRecord(ex, w))
    ensures AllCaughtUp(streams, n, t', o, ex, ws', d', d0, saved0)
  {
    hide CaughtUp, Represented, Extended, Evolves;
    forall j | 0 <= j < n ensures CaughtUp(streams[j], t', o, ex, ws', d', d0, saved0) {
      CaughtUpStays(streams[j], t, t', o, ex, ws, ws', d, d', d0, saved0);
    }
  }

  lemma EvolvesInPlace(d: Disk)
    requires DiskOk(d)
    ensures Evolves(d, d)
  {}

  lemma NoneLoyal(d0: Disk, saved0: map<Key, Cursor>, d: Disk)
    ensures AllLoyal(d0, saved0, d, map[])
  {}

  // ---- The collector ----

  class Collector {
    const archive: Archive
    const cursors: Cursors
    const ex: Extractor
    const batchSize: nat
    var disk: Disk

    /** What the files will be, one change after another. */
    var ahead: seq<Disk>

    constructor (archive: Archive, cursors: Cursors, ex: Extractor, batchSize: nat, disk: Disk, ahead: seq<Disk>)
      ensures this.archive == archive && this.cursors == cursors && this.ex == ex
      ensures this.disk == disk && this.ahead == ahead
    {
      this.archive, this.cursors, this.ex := archive, cursors, ex;
      this.batchSize := if batchSize == 0 then 2000 else batchSize;
      this.disk, this.ahead := disk, ahead;
    }

    ghost predicate ArchiveOk()
      reads this, archive
    {
      && archive.origin != "" && Sound(archive.rows)
      && Prefix(archive.rows, archive.origin, Watermark(archive.rows, archive.origin))
    }

    /** What a crash leaves behind is always this. */
    ghost predicate Durable()
      reads this, archive, cursors
    {
      && ArchiveOk() && DiskOk(disk)
      && AllSafe(disk.past, archive.rows, archive.origin, ex, [], cursors.saved)
    }

    ghost predicate Justified(batch: Pending)
      reads this, archive, batch
    {
      AllSafe(disk.past, archive.rows, archive.origin, ex, batch.records, batch.cursors)
    }

    ghost predicate Archived(ws: seq<Wire>)
      reads this, archive
    {
      forall w :: w in ws ==> Represented(archive.rows, archive.origin, ToRecord(ex, w))
    }

    /** Files change, or do not. */
    method Evolve()
      requires DiskOk(disk) && Unfolds(disk, ahead)
      modifies this`disk, this`ahead
      ensures DiskOk(disk) && Unfolds(disk, ahead) && Evolves(old(disk), disk)
      ensures |ahead| < |old(ahead)| || (ahead == old(ahead) && disk == old(disk))
    {
      var now: bool := *;
      if now && ahead != [] {
        disk, ahead := ahead[0], ahead[1..];
      }
    }

    /** `Ingest`: an oversized batch is refused; an append may fail, or succeed with
        the answer lost. */
    method Ingest(ws: seq<Wire>) returns (ok: bool)
      requires ArchiveOk()
      modifies archive`rows
      ensures ArchiveOk() && Extended(old(archive.rows), archive.rows)
      ensures ok ==> Archived(ws) && forall w :: w in ws ==> HoldsLine(archive.rows, archive.origin, ex, w)
    {
      hide HoldsLine;
      if |ws| == 0 {
        return true;
      }
      if |ws| > MAX_BATCH_RECORDS {
        return false;
      }
      var failed: bool := *;
      if failed {
        return false;
      }
      ghost var t, n := archive.rows, Watermark(archive.rows, archive.origin);
      var recs := ToRecords(ex, ws);
      var res := archive.AppendLocal(recs);
      AppendArchives(t, archive.origin, recs, n);
      forall w | w in ws ensures Represented(archive.rows, archive.origin, ToRecord(ex, w)) {
        var i :| 0 <= i < |ws| && ws[i] == w;
        assert recs[i] in recs;
      }
      forall w | w in ws ensures HoldsLine(archive.rows, archive.origin, ex, w) {
        RepresentedIsHeld(archive.rows, archive.origin, ex, w);
      }
      ok := *;
    }

    /** `commit`: every cursor the acknowledged upload justified, in no particular
        order; it may stop between any two. */
    method Commit(batch: Pending, ghost d0: Disk, ghost saved0: map<Key, Cursor>) returns (ok: bool)
      requires Durable() && AllSafe(disk.past, archive.rows, archive.origin, ex, [], batch.cursors)
      requires AllLoyal(d0, saved0, disk, cursors.saved) && AllLoyal(d0, saved0, disk, batch.cursors)
      modifies cursors, batch`cursors
      ensures Durable() && AllSafe(disk.past, archive.rows, archive.origin, ex, [], batch.cursors)
      ensures AllLoyal(d0, saved0, disk, cursors.saved) && AllLoyal(d0, saved0, disk, batch.cursors)
      ensures ok ==> batch.cursors == map[] && cursors.saved == old(cursors.saved) + old(batch.cursors)
    {
      hide AllSafe, AllLoyal, DiskOk, Sound, Prefix, Both;
      ghost var all := Both(cursors.saved, batch.cursors);
      while batch.cursors != map[]
        invariant Durable() && AllSafe(disk.past, archive.rows, archive.origin, ex, [], batch.cursors)
        invariant AllLoyal(d0, saved0, disk, cursors.saved) && AllLoyal(d0, saved0, disk, batch.cursors)
        invariant Both(cursors.saved, batch.cursors) == all
        decreases |batch.cursors|
      {
        assert batch.cursors.Keys != {};
        var k := Take(batch.cursors.Keys);
        var c := batch.cursors[k];
        SaveOne(disk.past, archive.rows, archive.origin, ex, cursors.saved, batch.cursors, k);
        LoyalOne(d0, saved0, disk, cursors.saved, batch.cursors, k);
        KeyLeaves(batch.cursors, k);
        KeyMoves(cursors.saved, batch.cursors, k);
        var saved := cursors.Save(k, c);
        if !saved {
          return false;
        }
        batch.cursors := batch.cursors - {k};
      }
      BothAtEnd(old(cursors.saved), old(batch.cursors), cursors.saved);
      ok := true;
    }

    /** `flush`. */
    method Flush(batch: Pending, ghost d0: Disk, ghost saved0: map<Key, Cursor>) returns (ok: bool)
      requires Durable() && Justified(batch)
      requires AllLoyal(d0, saved0, disk, cursors.saved) && AllLoyal(d0, saved0, disk, batch.cursors)
      modifies archive`rows, cursors, batch
      ensures Durable() && Justified(batch) && Extended(old(archive.rows), archive.rows)
      ensures AllLoyal(d0, saved0, disk, cursors.saved) && AllLoyal(d0, saved0, disk, batch.cursors)
      ensures ok ==> batch.records == [] && batch.cursors == map[] && Archived(old(batch.records))
      ensures !ok ==> batch.records == old(batch.records)
    {
      hide Sound, Prefix, DiskOk, AllLoyal, Represented, Extended, Safe;
      ghost var t := archive.rows;
      var uploaded := Ingest(batch.records);
      RowsAdded(t, cursors.saved, [], []);
      if !uploaded {
        RowsAdded(t, batch.cursors, batch.records, batch.records);
        return false;
      }
      RowsAdded(t, batch.cursors, batch.records, []);
      ok := Commit(batch, d0, saved0);
      if ok {
        batch.records := [];
      } else {
        LongerBatch(batch.cursors, batch.records);
      }
    }

    /** Files changed and the archive did not: what was safe and loyal still is. */
    lemma StillSafe(before: Disk, batch: Pending, k: Key, from: Cursor, d0: Disk, saved0: map<Key, Cursor>)
      requires ArchiveOk() && DiskOk(disk) && Evolves(d0, before) && Evolves(before, disk)
      requires AllSafe(before.past, archive.rows, archive.origin, ex, [], cursors.saved)
      requires AllSafe(before.past, archive.rows, archive.origin, ex, batch.records, batch.cursors)
      requires Safe(before.past, archive.rows, archive.origin, ex, batch.records, k, from)
      requires AllLoyal(d0, saved0, before, cursors.saved) && AllLoyal(d0, saved0, before, batch.cursors) && Loyal(d0, saved0, before, k, from)
      ensures Durable() && Justified(batch) && Safe(disk.past, archive.rows, archive.origin, ex, batch.records, k, from)
      ensures Evolves(d0, disk)
      ensures AllLoyal(d0, saved0, disk, cursors.saved) && AllLoyal(d0, saved0, disk, batch.cursors) && Loyal(d0, saved0, disk, k, from)
    {
      hide Safe, AllSafe, Loyal, DiskOk, Sound, Prefix, Unmoved;
      EvolvesOn(d0, before, disk);
      LoyalOn(d0, saved0, before, disk, cursors.saved);
      LoyalOn(d0, saved0, before, disk, batch.cursors);
      LoyalOn(d0, saved0, before, disk, map[k := from]);
      assert Loyal(d0, saved0, disk, k, map[k := from][k]);
      var t := archive.rows;
      AllSafeStays(before.past, disk.past, t, t, archive.origin, ex, [], [], cursors.saved);
      AllSafeStays(before.past, disk.past, t, t, archive.origin, ex, batch.records, batch.records, batch.cursors);
      SafeStays(before.past, disk.past, t, t, archive.origin, ex, batch.records, batch.records, k, from);
    }

    /** Lines join the batch with the cursor they justify; a full batch is flushed. */
    method Add(batch: Pending, k: Key, ws: seq<Wire>, next: Cursor, ghost d0: Disk, ghost saved0: map<Key, Cursor>) returns (ok: bool)
      requires Durable() && AllSafe(disk.past, archive.rows, archive.origin, ex, batch.records + ws, batch.cursors[k := next])
      requires Safe(disk.past, archive.rows, archive.origin, ex, batch.records + ws, k, next)
      requires AllLoyal(d0, saved0, disk, cursors.saved) && AllLoyal(d0, saved0, disk, batch.cursors[k := next])
      modifies archive`rows, cursors, batch
      ensures Durable() && Justified(batch)
      ensures AllLoyal(d0, saved0, disk, cursors.saved) && AllLoyal(d0, saved0, disk, batch.cursors)
      ensures Extended(old(archive.rows), archive.rows) && Kept(old(batch.records) + ws, batch.records)
      ensures ok ==> Safe(disk.past, archive.rows, archive.origin, ex, batch.records, k, next)
    {
      hide Safe, AllSafe, AllLoyal, DiskOk, Sound, Prefix, Represented;
      ghost var all, t := batch.records + ws, archive.rows;
      batch.records := batch.records + ws;
      batch.cursors := batch.cursors[k := next];
      ok := true;
      if |batch.records| >= batchSize {
        ok := Flush(batch, d0, saved0);
        if ok {
          SafeStays(disk.past, disk.past, t, archive.rows, archive.origin, ex, all, [], k, next);
        }
      }
    }

    /** One turn of the loop over a stream: read, add to the batch, flush a full one. */
    method ReadOnce(stream: FileStream, batch: Pending, from: Cursor, ghost d0: Disk, ghost saved0: map<Key, Cursor>)
      returns (ok: bool, gone: bool, r: ReadResult)
      requires Durable() && Justified(batch) && Unfolds(disk, ahead)
      requires DiskOk(d0) && Evolves(d0, disk)
      requires AllLoyal(d0, saved0, disk, cursors.saved) && AllLoyal(d0, saved0, disk, batch.cursors)
      requires var k := Key(stream.source, stream.path);
               Safe(disk.past, archive.rows, archive.origin, ex, batch.records, k, from) && Loyal(d0, saved0, disk, k, from)
      modifies this`disk, this`ahead, archive`rows, cursors, batch
      ensures Durable() && Justified(batch) && Unfolds(disk, ahead) && Evolves(d0, disk)
      ensures AllLoyal(d0, saved0, disk, cursors.saved) && AllLoyal(d0, saved0, disk, batch.cursors)
      ensures Extended(old(archive.rows), archive.rows) && Kept(old(batch.records), batch.records)
      ensures Evolves(old(disk), disk)
      ensures |ahead| < |old(ahead)| || (ahead == old(ahead) && disk == old(disk))
      ensures var k := Key(stream.source, stream.path);
              && (gone ==> k.path !in disk.files)
              && (ok && !gone ==>
                    && k.path in disk.files && r == Read(stream.hash, stream.maxBytesPerRead, disk.files[k.path], from)
                    && Safe(disk.past, archive.rows, archive.origin, ex, batch.records, k, r.next) && Loyal(d0, saved0, disk, k, r.next)
                    && (Over(r, from) ==> CaughtUp(stream, archive.rows, archive.origin, ex, batch.records, disk, d0, saved0)))
    {
      hide Safe, AllSafe, Loyal, AllLoyal, DiskOk, Evolves, Watched, Sound, Prefix, Delivered, LinesFit, Read, Represented;
      var k := Key(stream.source, stream.path);
      ghost var before, t0 := disk, archive.rows;
      r := ReadResult([], from, Appended);
      Evolve();
      StillSafe(before, batch, k, from, d0, saved0);
      if k.path !in disk.files {
        return true, true, r;
      }
      var failed: bool := *;
      if failed {
        return false, false, r;
      }
      gone := false;
      r := stream.ReadFrom(disk.files[k.path], from);
      ghost var batch0 := batch.records;
      ReadJoinsBatch(stream, batch.records, batch.cursors, k, from, d0, saved0);
      ok := Add(batch, k, ToWires(k, r.lines), r.next, d0, saved0);
      if ok && Over(r, from) && Watched(d0, disk, k) && AllLinesFit(d0, k, stream.maxBytesPerRead)
         && !CutShort(d0, saved0, k, stream.maxBytesPerRead) {
        DrainedDelivers(d0, saved0, disk, stream.hash, stream.maxBytesPerRead, t0, batch0, archive.rows, archive.origin, ex, batch.records, k, from);
      }
    }

    lemma ReadJoinsBatch(stream: FileStream, ws: seq<Wire>, cs: map<Key, Cursor>, k: Key, from: Cursor, d0: Disk, saved0: map<Key, Cursor>)
      requires Durable() && AllSafe(disk.past, archive.rows, archive.origin, ex, ws, cs) && Evolves(d0, disk)
      requires AllLoyal(d0, saved0, disk, cs) && k.path in disk.files
      requires Safe(disk.past, archive.rows, archive.origin, ex, ws, k, from)
      ensures var r := Read(stream.hash, stream.maxBytesPerRead, disk.files[k.path], from);
              var ws' := ws + ToWires(k, r.lines);
              && Safe(disk.past, archive.rows, archive.origin, ex, ws', k, r.next) && Loyal(d0, saved0, disk, k, r.next)
              && AllSafe(disk.past, archive.rows, archive.origin, ex, ws', cs[k := r.next])
              && AllLoyal(d0, saved0, disk, cs[k := r.next])
    {
      hide Safe, Loyal, DiskOk, Sound, Prefix, Evolves, Read;
      var r := Read(stream.hash, stream.maxBytesPerRead, disk.files[k.path], from);
      var t, ws' := archive.rows, ws + ToWires(k, r.lines);
      ReadIsSafe(disk, stream.hash, stream.maxBytesPerRead, t, archive.origin, ex, ws, k, from);
      ReadIsLoyal(d0, saved0, disk, stream.hash, stream.maxBytesPerRead, k, from);
      AllSafeStays(disk.past, disk.past, t, t, archive.origin, ex, ws, ws', cs);
    }

    /** `drainStream`: reads on until a read brings nothing further. */
    method DrainStream(stream: FileStream, batch: Pending, ghost d0: Disk, ghost saved0: map<Key, Cursor>) returns (ok: bool)
      requires Durable() && Justified(batch) && Unfolds(disk, ahead)
      requires DiskOk(d0) && Evolves(d0, disk)
      requires AllLoyal(d0, saved0, disk, cursors.saved) && AllLoyal(d0, saved0, disk, batch.cursors)
      modifies this`disk, this`ahead, archive`rows, cursors, batch
      ensures Durable() && Justified(batch) && Unfolds(disk, ahead) && Evolves(d0, disk)
      ensures AllLoyal(d0, saved0, disk, cursors.saved) && AllLoyal(d0, saved0, disk, batch.cursors)
      ensures Extended(old(archive.rows), archive.rows) && Kept(old(batch.records), batch.records)
      ensures Evolves(old(disk), disk)
      ensures ok ==> CaughtUp(stream, archive.rows, archive.origin, ex, batch.records, disk, d0, saved0)
    {
      hide Safe, Loyal, DiskOk, Evolves, Watched, Sound, Prefix, Delivered, LinesFit, Read, Represented;
      var k := Key(stream.source, stream.path);
      EvolvesInPlace(disk);
      var loaded, from := cursors.Load(k);
      if !loaded {
        return false;
      }
      assert Safe(disk.past, archive.rows, archive.origin, ex, batch.records, k, from) && Loyal(d0, saved0, disk, k, from) by {
        LoadedIsSafe(batch.records, k, d0, saved0);
      }
      while true
        invariant Durable() && Justified(batch) && Unfolds(disk, ahead) && Evolves(d0, disk)
        invariant AllLoyal(d0, saved0, disk, cursors.saved) && AllLoyal(d0, saved0, disk, batch.cursors)
        invariant Safe(disk.past, archive.rows, archive.origin, ex, batch.records, k, from) && Loyal(d0, saved0, disk, k, from)
        invariant Extended(old(archive.rows), archive.rows) && Kept(old(batch.records), batch.records)
        invariant Evolves(old(disk), disk)
        decreases |ahead|, Remaining(disk, stream.hash, k, from)
      {
        ghost var ws, t, d := batch.records, archive.rows, disk;
        var gone, r;
        ok, gone, r := ReadOnce(stream, batch, from, d0, saved0);
        EvolvesOn(old(disk), d, disk);
        KeptOn(old(archive.rows), t, old(batch.records), ws, batch.records);
        if !ok {
          return;
        }
        if gone {
          assert !Watched(d0, disk, k) by { GoneIsNotWatched(d0, disk, k); }
          return;
        }
        if Over(r, from) {
          return;
        }
        ReadAdvances(stream.hash, stream.maxBytesPerRead, disk, k, from);
        from := r.next;
      }
    }

    /** `CollectOnce` over the streams that were discovered. Wherever it stops, no
        saved cursor is ahead of the archive. If it does not fail, every complete
        line that a file had when the pass began is in the archive, for every
        stream whose file is known by identity, was not replaced during the pass,
        has no line too long for one read and, where the saved cursor was of
        another file, is not cut short by its first read. */
    method CollectOnce(streams: seq<FileStream>) returns (ok: bool)
      requires Durable() && Unfolds(disk, ahead)
      modifies this`disk, this`ahead, archive`rows, cursors
      ensures Durable() && Unfolds(disk, ahead) && Evolves(old(disk), disk)
      ensures Extended(old(archive.rows), archive.rows)
      ensures ok ==> AllCaughtUp(streams, |streams|, archive.rows, archive.origin, ex, [], disk, old(disk), old(cursors.saved))
    {
      hide Safe, Loyal, AllLoyal, DiskOk, Evolves, Watched, AllLinesFit, Sound, Prefix, Delivered, CaughtUp, Represented;
      ghost var d0, saved0, t0 := disk, cursors.saved, archive.rows;
      EvolvesFromItself(d0, saved0);
      var batch := new Pending();
      NoneLoyal(d0, saved0, disk);
      for i := 0 to |streams|
        invariant fresh(batch) && Durable() && Justified(batch) && Unfolds(disk, ahead) && Evolves(d0, disk)
        invariant AllLoyal(d0, saved0, disk, cursors.saved) && AllLoyal(d0, saved0, disk, batch.cursors)
        invariant Extended(t0, archive.rows)
        invariant AllCaughtUp(streams, i, archive.rows, archive.origin, ex, batch.records, disk, d0, saved0)
      {
        ghost var d, ws, t := disk, batch.records, archive.rows;
        ok := DrainStream(streams[i], batch, d0, saved0);
        if !ok {
          return;
        }
        AllCaughtUpStays(streams, i, t, archive.rows, archive.origin, ex, ws, batch.records, d, disk, d0, saved0);
        assert CaughtUp(streams[i], archive.rows, archive.origin, ex, batch.records, disk, d0, saved0);
      }
      ghost var ws, t := batch.records, archive.rows;
      ok := Flush(batch, d0, saved0);
      if ok {
        EvolvesInPlace(disk);
        AllCaughtUpStays(streams, |streams|, t, archive.rows, archive.origin, ex, ws, [], disk, disk, d0, saved0);
      }
    }

    /** Any number of passes, each of them cut off anywhere or not at all. */
    method CollectRepeatedly(passes: seq<seq<FileStream>>)
      requires Durable() && Unfolds(disk, ahead)
      modifies this`disk, this`ahead, archive`rows, cursors
      ensures Durable() && Extended(old(archive.rows), archive.rows)
    {
      hide Durable, Unfolds, Evolves, AllCaughtUp;
      for i := 0 to |passes|
        invariant Durable() && Unfolds(disk, ahead) && Extended(old(archive.rows), archive.rows)
      {
        var _ := CollectOnce(passes[i]);
      }
    }

    lemma EvolvesFromItself(d0: Disk, saved0: map<Key, Cursor>)
      requires d0 == disk && saved0 == cursors.saved && DiskOk(disk)
      ensures Evolves(d0, disk) && AllLoyal(d0, saved0, disk, cursors.saved)
    {}

    lemma LoadedIsSafe(ws: seq<Wire>, k: Key, d0: Disk, saved0: map<Key, Cursor>)
      requires Durable() && AllLoyal(d0, saved0, disk, cursors.saved)
      ensures var c := if k in cursors.saved then cursors.saved[k] else FRESH;
              Safe(disk.past, archive.rows, archive.origin, ex, ws, k, c) && Loyal(d0, saved0, disk, k, c)
    {
      if k in cursors.saved {
        SafeStays(disk.past, disk.past, archive.rows, archive.rows, archive.origin, ex, [], ws, k, cursors.saved[k]);
      }
    }

    lemma KeptOn(t0: Table, t: Table, ws0: seq<Wire>, ws: seq<Wire>, ws': seq<Wire>)
      requires Extended(t0, t) && Extended(t, archive.rows) && Kept(ws, ws')
      requires forall w :: w in ws0 ==> w in ws || Represented(t, archive.origin, ToRecord(ex, w))
      ensures Extended(t0, archive.rows) && Kept(ws0, ws')
    {
      forall w | w in ws0 ensures w in ws' || Represented(archive.rows, archive.origin, ToRecord(ex, w)) {
        if w !in ws {
          RepresentedStays(t, archive.rows, archive.origin, ToRecord(ex, w));
        }
      }
    }

    /** Every line is archived or still in the batch. */
    ghost predicate Kept(ws: seq<Wire>, ws': seq<Wire>)
      reads this, archive
    {
      forall w :: w in ws ==> w in ws' || Represented(archive.rows, archive.origin, ToRecord(ex, w))
    }

    /** Cursors stay safe when the archive grew from `t`. */
    lemma RowsAdded(t: Table, cs: map<Key, Cursor>, ws: seq<Wire>, ws': seq<Wire>)
      requires AllSafe(disk.past, t, archive.origin, ex, ws, cs) && Extended(t, archive.rows)
      requires forall w :: w in ws ==> w in ws' || Represented(archive.rows, archive.origin, ToRecord(ex, w))
      ensures AllSafe(disk.past, archive.rows, archive.origin, ex, ws', cs)
    {
      AllSafeStays(disk.past, disk.past, t, archive.rows, archive.origin, ex, ws, ws', cs);
    }

    lemma LongerBatch(cs: map<Key, Cursor>, ws: seq<Wire>)
      requires AllSafe(disk.past, archive.rows, archive.origin, ex, [], cs)
      ensures AllSafe(disk.past, archive.rows, archive.origin, ex, ws, cs)
    {
      AllSafeStays(disk.past, disk.past, archive.rows, archive.rows, archive.origin, ex, [], ws, cs);
    }
  }

  lemma AppendArchives(t: Table, o: Origin, recs: seq<Record>, n: int)
    requires o != "" && Sound(t) && Prefix(t, o, n)
    ensures var t' := LocalBatch(t, o, recs).rows;
            && Sound(t') && Prefix(t', o, Watermark(t', o)) && Extended(t, t')
            && forall r :: r in recs ==> Represented(t', o, r)
  {
    LocalAppendExtends(t, o, recs, n);
    var run := LocalBatch(t, o, recs);
    WatermarkOf(run.rows, o, n + run.tally.stored);
  }

  lemma KeyLeaves(m: map<Key, Cursor>, k: Key)
    requires k in m
    ensures |m - {k}| < |m|
  {
    assert (m - {k}).Keys == m.Keys - {k};
  }

  /** What is saved once everything pending is. */
  ghost function Both(saved: map<Key, Cursor>, pending: map<Key, Cursor>): map<Key, Cursor> {
    saved + pending
  }

  lemma BothAtEnd(saved0: map<Key, Cursor>, pending0: map<Key, Cursor>, saved: map<Key, Cursor>)
    ensures Both(saved, map[]) == saved && Both(saved0, pending0) == saved0 + pending0
  {
    assert saved + map[] == saved;
  }

  lemma KeyMoves(saved: map<Key, Cursor>, m: map<Key, Cursor>, k: Key)
    requires k in m
    ensures Both(saved[k := m[k]], m - {k}) == Both(saved, m)
  {
    var a, b := saved[k := m[k]] + (m - {k}), saved + m;
    forall x ensures x in a <==> x in b {}
  }

  lemma SaveOne(past: map<Incarnation, Bytes>, t: Table, o: Origin, ex: Extractor, saved: map<Key, Cursor>, pending: map<Key, Cursor>, k: Key)
    requires AllSafe(past, t, o, ex, [], saved) && AllSafe(past, t, o, ex, [], pending) && k in pending
    ensures AllSafe(past, t, o, ex, [], saved[k := pending[k]]) && AllSafe(past, t, o, ex, [], pending - {k})
  {
    hide Safe;
  }

  lemma LoyalOne(d0: Disk, saved0: map<Key, Cursor>, d: Disk, saved: map<Key, Cursor>, pending: map<Key, Cursor>, k: Key)
    requires AllLoyal(d0, saved0, d, saved) && AllLoyal(d0, saved0, d, pending) && k in pending
    ensures AllLoyal(d0, saved0, d, saved[k := pending[k]]) && AllLoyal(d0, saved0, d, pending - {k})
  {
    hide Loyal;
  }
}
