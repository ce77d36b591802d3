/** What a collector may rely on and must keep: cursors that never run ahead of the
    archive, over files that change underneath it. */
module Collection {
  import opened Records
  import opened Sets
  import opened Store
  import opened Tail

  datatype Key = Key(source: string, path: string)

  /** A line on its way to the archive. */
  datatype Wire = Wire(key: Key, offset: nat, data: Bytes)

  /** What `Identify` makes of a line's bytes, and the hash of them; nothing is
      assumed of either. */
  datatype Extract = Extract(hash: string, session: string, uuid: string, capturedAt: string,
                             requestId: string, model: string, usage: Usage, columns: Columns)

  type Extractor = Bytes -> Extract

  function ToRecord(ex: Extractor, w: Wire): Record {
    var e := ex(w.data);
    Record("", 0, Line(w.key.source, w.key.path, w.offset, e.hash, e.session, e.uuid, e.capturedAt,
                       e.requestId, e.model, e.usage, w.data), e.columns)
  }

  function ToRecords(ex: Extractor, ws: seq<Wire>): seq<Record> {
    seq(|ws|, i requires 0 <= i < |ws| => ToRecord(ex, ws[i]))
  }

  function ToWires(k: Key, lines: seq<RawLine>): seq<Wire> {
    seq(|lines|, i requires 0 <= i < |lines| => Wire(k, lines[i].offset, lines[i].data))
  }

  lemma WireOfLine(k: Key, lines: seq<RawLine>, line: RawLine)
    requires line in lines
    ensures Wire(k, line.offset, line.data) in ToWires(k, lines)
  {
    var i :| 0 <= i < |lines| && lines[i] == line;
    assert ToWires(k, lines)[i] == Wire(k, line.offset, line.data);
  }

  // ---- Files over time ----

  /** One file that had a path for a while. */
  datatype Incarnation = Incarnation(path: string, identity: FileIdentity)

  /** The files there are, everything any of them ever held, and how often another
      file took over a path. */
  datatype Disk = Disk(files: map<string, File>, past: map<Incarnation, Bytes>, moves: map<string, nat>)

  function Moves(d: Disk, path: string): nat {
    if path in d.moves then d.moves[path] else 0
  }

  /** A platform that cannot identify files cannot do so at any time. */
  ghost predicate DiskOk(d: Disk) {
    && (forall p :: p in d.files ==>
          var i := Incarnation(p, d.files[p].identity); i in d.past && d.past[i] == d.files[p].content)
    && (forall i, j {:trigger i in d.past, j in d.past} :: i in d.past && j in d.past && i.path == j.path ==> (Known(i.identity) <==> Known(j.identity)))
  }

  /** Files are appended to, created, removed and replaced; a file that is still
      the same one only got longer. */
  ghost predicate Evolves(d: Disk, d': Disk) {
    && DiskOk(d')
    && (forall i :: i in d.past ==> i in d'.past && d.past[i] <= d'.past[i])
    && (forall p :: p in d.files ==> Unmoved(d, d', p) || Moves(d, p) < Moves(d', p))
    && (forall p :: Moves(d, p) <= Moves(d', p))
  }

  ghost predicate Unmoved(d: Disk, d': Disk, p: string)
    requires p in d.files
  {
    p in d'.files && d'.files[p].identity == d.files[p].identity
  }

  // ---- Cursors and the archive ----

  /** The line is archived, or about to be. */
  ghost predicate Accounted(t: Table, o: Origin, ex: Extractor, batch: seq<Wire>, k: Key, line: RawLine) {
    Wire(k, line.offset, line.data) in batch || Represented(t, o, ToRecord(ex, Wire(k, line.offset, line.data)))
  }

  ghost predicate AllAccounted(t: Table, o: Origin, ex: Extractor, batch: seq<Wire>, k: Key, lines: seq<RawLine>) {
    forall line :: line in lines ==> Accounted(t, o, ex, batch, k, line)
  }

  /** The cursor sits on a line boundary of the file it is about, and every complete
      line before it is accounted for. */
  ghost predicate Safe(past: map<Incarnation, Bytes>, t: Table, o: Origin, ex: Extractor, batch: seq<Wire>, k: Key, c: Cursor) {
    c == FRESH ||
    var i := Incarnation(k.path, c.identity);
    i in past && Boundary(past[i], c.offset) && AllAccounted(t, o, ex, batch, k, LinesIn(past[i], 0, c.offset))
  }

  ghost predicate AllSafe(past: map<Incarnation, Bytes>, t: Table, o: Origin, ex: Extractor, batch: seq<Wire>, cursors: map<Key, Cursor>) {
    forall k :: k in cursors ==> Safe(past, t, o, ex, batch, k, cursors[k])
  }

  /** The archive gained rows. */
  ghost predicate Extended(t: Table, t': Table) {
    forall id :: id in t ==> id in t' && t'[id] == t[id]
  }

  lemma AccountedStays(t: Table, t': Table, o: Origin, ex: Extractor, batch: seq<Wire>, batch': seq<Wire>, k: Key, lines: seq<RawLine>)
    requires AllAccounted(t, o, ex, batch, k, lines) && Extended(t, t')
    requires forall w :: w in batch ==> w in batch' || Represented(t', o, ToRecord(ex, w))
    ensures AllAccounted(t', o, ex, batch', k, lines)
  {
    hide Represented;
    forall line | line in lines ensures Accounted(t', o, ex, batch', k, line) {
      assert Accounted(t, o, ex, batch, k, line);
      var w := Wire(k, line.offset, line.data);
      if w !in batch {
        RepresentedStays(t, t', o, ToRecord(ex, w));
      }
    }
  }

  /** Nothing that can happen makes a safe cursor unsafe: files growing or being
      replaced, the archive growing, a batch getting longer or being archived. */
  lemma SafeStays(past: map<Incarnation, Bytes>, past': map<Incarnation, Bytes>, t: Table, t': Table, o: Origin, ex: Extractor,
                  batch: seq<Wire>, batch': seq<Wire>, k: Key, c: Cursor)
    requires Safe(past, t, o, ex, batch, k, c) && Extended(t, t')
    requires forall i :: i in past ==> i in past' && past[i] <= past'[i]
    requires forall w :: w in batch ==> w in batch' || Represented(t', o, ToRecord(ex, w))
    ensures Safe(past', t', o, ex, batch', k, c)
  {
    hide Represented, Accounted, AllAccounted;
    if c != FRESH {
      var i := Incarnation(k.path, c.identity);
      LinesStay(past[i], past'[i], 0, c.offset);
      AccountedStays(t, t', o, ex, batch, batch', k, LinesIn(past[i], 0, c.offset));
    }
  }

  lemma AllSafeStays(past: map<Incarnation, Bytes>, past': map<Incarnation, Bytes>, t: Table, t': Table, o: Origin, ex: Extractor,
                     batch: seq<Wire>, batch': seq<Wire>, cursors: map<Key, Cursor>)
    requires AllSafe(past, t, o, ex, batch, cursors) && Extended(t, t')
    requires forall i :: i in past ==> i in past' && past[i] <= past'[i]
    requires forall w :: w in batch ==> w in batch' || Represented(t', o, ToRecord(ex, w))
    ensures AllSafe(past', t', o, ex, batch', cursors)
  {
    hide Represented, Safe, Extended;
    forall k | k in cursors ensures Safe(past', t', o, ex, batch', k, cursors[k]) {
      SafeStays(past, past', t, t', o, ex, batch, batch', k, cursors[k]);
    }
  }

  // ---- One read ----

  /** A cursor a read resumes from is about the very file that is there. */
  lemma ResumesOwnFile(d: Disk, hash: Hash, k: Key, c: Cursor)
    requires DiskOk(d) && k.path in d.files && Incarnation(k.path, c.identity) in d.past
    requires 0 < ResolveStart(hash, d.files[k.path], c).offset
    ensures c.identity == d.files[k.path].identity && ResolveStart(hash, d.files[k.path], c).offset == c.offset
  {
    assert Incarnation(k.path, d.files[k.path].identity) in d.past;
  }

  lemma AccountedAdds(t: Table, o: Origin, ex: Extractor, batch: seq<Wire>, k: Key, a: seq<RawLine>, b: seq<RawLine>)
    requires AllAccounted(t, o, ex, batch, k, a)
    ensures AllAccounted(t, o, ex, batch + ToWires(k, b), k, a + b)
  {
    hide Represented;
    forall line | line in a + b ensures Accounted(t, o, ex, batch + ToWires(k, b), k, line) {
      if line in b {
        WireOfLine(k, b, line);
      } else {
        assert Accounted(t, o, ex, batch, k, line);
      }
    }
  }

  /** The cursor a read returns is safe once the lines it returned are in the batch. */
  lemma ReadIsSafe(d: Disk, hash: Hash, bound: nat, t: Table, o: Origin, ex: Extractor, batch: seq<Wire>, k: Key, from: Cursor)
    requires DiskOk(d) && k.path in d.files && Safe(d.past, t, o, ex, batch, k, from)
    ensures var r := Read(hash, bound, d.files[k.path], from);
            Safe(d.past, t, o, ex, batch + ToWires(k, r.lines), k, r.next)
  {
    hide AllAccounted, LinesIn, LinesEnd, DiskOk;
    var f := d.files[k.path];
    var r, s := Read(hash, bound, f, from), ResolveStart(hash, f, from);
    assert Incarnation(k.path, f.identity) in d.past && d.past[Incarnation(k.path, f.identity)] == f.content by { DiskHas(d, k.path); }
    ReadTakesFront(f.content, s.offset, bound);
    if 0 < s.offset {
      ResumesOwnFile(d, hash, k, from);
    } else {
      NothingBefore(t, o, ex, batch, k, f.content);
    }
    assert Boundary(f.content, s.offset) && AllAccounted(t, o, ex, batch, k, LinesIn(f.content, 0, s.offset));
    AccountedAdds(t, o, ex, batch, k, LinesIn(f.content, 0, s.offset), r.lines);
    LinesSplit(f.content, 0, s.offset, r.next.offset);
  }

  lemma DiskHas(d: Disk, p: string)
    requires DiskOk(d) && p in d.files
    ensures Incarnation(p, d.files[p].identity) in d.past && d.past[Incarnation(p, d.files[p].identity)] == d.files[p].content
  {}

  lemma NothingBefore(t: Table, o: Origin, ex: Extractor, batch: seq<Wire>, k: Key, content: Bytes)
    ensures AllAccounted(t, o, ex, batch, k, LinesIn(content, 0, 0))
  {}

  // ---- Nothing left to read ----

  /** Every complete line the file had is accounted for. */
  ghost predicate Delivered(t: Table, o: Origin, ex: Extractor, batch: seq<Wire>, k: Key, content: Bytes) {
    AllAccounted(t, o, ex, batch, k, LinesIn(content, 0, |content|))
  }

  /** A read that found no further line that fits means every complete line the file
      had earlier is behind the cursor, provided those lines fit. */
  lemma NothingLeft(was: Bytes, c: Bytes, at: nat, bound: nat)
    requires was <= c && Boundary(c, at) && LinesFit(LinesIn(was, 0, |was|), bound)
    requires LinesEnd(c, at, Reach(c, at, bound)) == at
    ensures forall line :: line in LinesIn(was, 0, |was|) ==> line in LinesIn(c, 0, at)
  {
    LinesStay(was, c, 0, |was|);
    if at <= |was| {
      EmptyRead(c, at, bound);
      LinesSplit(c, 0, at, |was|);
      NoneThatFits(c, at, |was|, bound);
    } else {
      var e := LinesEnd(c, 0, |was|);
      LinesSplit(c, 0, e, |was|);
      NothingAfterEnd(c, 0, |was|);
      LinesSplit(c, 0, e, at);
    }
  }

  lemma NothingAfterEnd(c: Bytes, from: nat, end: nat)
    requires from <= end <= |c|
    ensures LinesIn(c, LinesEnd(c, from, end), end) == []
  {
    NextNewlineIsNone(c, LinesEnd(c, from, end), end);
  }

  lemma NoneThatFits(c: Bytes, at: nat, upTo: nat, bound: nat)
    requires at <= upTo <= |c|
    requires LinesIn(c, at, |c|) == [] || bound <= |LinesIn(c, at, |c|)[0].data|
    requires LinesFit(LinesIn(c, at, upTo), bound)
    ensures LinesIn(c, at, upTo) == []
  {
    FirstIsFirst(c, at, upTo);
  }

  lemma FirstIsFirst(c: Bytes, at: nat, upTo: nat)
    requires at <= upTo <= |c|
    ensures LinesIn(c, at, upTo) != [] ==>
              && LinesIn(c, at, |c|) != [] && LinesIn(c, at, |c|)[0] == LinesIn(c, at, upTo)[0]
              && LinesIn(c, at, upTo)[0] in LinesIn(c, at, upTo)
  {
    var i := NextNewline(c, at, upTo);
    if i < upTo {
      NextNewlineIs(c, at, |c|, i);
    }
  }

  /** A line that some index can recognise is archived exactly once: in one row of
      the origin, with its uuid and session, or with its place and content. */
  lemma ArchivedOnce(t: Table, o: Origin, r: Record)
    requires Sound(t) && Represented(t, o, r) && (r.line.uuid == "" || r.line.session != "")
    ensures exists id :: id in t && id.origin == o && Recognises(t[id].line, r.line)
    ensures forall i, j :: i in t && j in t && i.origin == o == j.origin && Recognises(t[i].line, r.line) && Recognises(t[j].line, r.line) ==> i == j
  {
    var placed := r.(origin := o);
    var id :| id in t && id.origin == o && (t[id].line == r.line || SameLine(t[id], placed));
    SameLineIff(t[id], placed);
    assert Recognises(t[id].line, r.line);
    forall i, j | i in t && j in t && i.origin == o == j.origin && Recognises(t[i].line, r.line) && Recognises(t[j].line, r.line) ensures i == j {
      SameLineIff(t[i], t[j]);
    }
  }

  // ---- What is archived of a line ----

  /** A row of the origin holds the very bytes read, at the place they were read, with
      their hash; or a row with the line's session and uuid, or its place and hash, was
      taken for it. */
  ghost predicate HoldsLine(t: Table, o: Origin, ex: Extractor, w: Wire) {
    var e := ex(w.data);
    exists id :: id in t && id.origin == o &&
      var line := t[id].line;
      || (line.source == w.key.source && line.path == w.key.path && line.offset == w.offset
          && line.body == w.data && line.hash == e.hash && line.session == e.session && line.uuid == e.uuid
          && line.capturedAt == e.capturedAt && line.requestId == e.requestId && line.model == e.model && line.usage == e.usage)
      || (e.uuid != "" && e.session != "" && line.session == e.session && line.uuid == e.uuid)
      || (e.uuid == "" && line.uuid == "" && line.source == w.key.source && line.path == w.key.path
          && line.offset == w.offset && line.hash == e.hash)
  }

  lemma RepresentedIsHeld(t: Table, o: Origin, ex: Extractor, w: Wire)
    requires Represented(t, o, ToRecord(ex, w))
    ensures HoldsLine(t, o, ex, w)
  {
    var r := ToRecord(ex, w);
    var id :| id in t && id.origin == o && (t[id].line == r.line || SameLine(t[id], r.(origin := o)));
    SameLineIff(t[id], r.(origin := o));
  }

  /** Once a batch is archived, so are the bytes of every line accounted for by it. */
  lemma AccountedIsHeld(t: Table, o: Origin, ex: Extractor, k: Key, lines: seq<RawLine>)
    requires AllAccounted(t, o, ex, [], k, lines)
    ensures forall line :: line in lines ==> HoldsLine(t, o, ex, Wire(k, line.offset, line.data))
  {
    hide Represented, HoldsLine;
    forall line | line in lines ensures HoldsLine(t, o, ex, Wire(k, line.offset, line.data)) {
      assert Accounted(t, o, ex, [], k, line);
      RepresentedIsHeld(t, o, ex, Wire(k, line.offset, line.data));
    }
  }
}
