/** Tailing one append-only file: complete lines only, from where the cursor says
    or from the beginning when the file is not the one the cursor is about. */
module Tail {
  import opened Records

  type Bytes = Payload

  const NEWLINE := 10
  const FINGERPRINT_SIZE: nat := 4096

  datatype FileIdentity = FileIdentity(device: nat, serial: nat)

  const UNKNOWN := FileIdentity(0, 0)

  datatype File = File(identity: FileIdentity, content: Bytes)

  datatype RawLine = RawLine(offset: nat, data: Bytes)

  datatype Cursor = Cursor(offset: nat, fingerprint: nat, identity: FileIdentity)

  /** No position recorded yet. */
  const FRESH := Cursor(0, 0, UNKNOWN)

  datatype Continuity = Appended | Truncated | Replaced

  // ---- Lines ----

  /** The first newline from `from` on, or `to` if there is none before it. */
  function NextNewline(c: Bytes, from: nat, end: nat): (i: nat)
    requires from <= end <= |c|
    ensures from <= i <= end && (i < end ==> c[i] == NEWLINE)
    ensures forall j :: from <= j < i ==> c[j] != NEWLINE
    decreases end - from
  {
    if from == end || c[from] == NEWLINE then from else NextNewline(c, from + 1, end)
  }

  /** The complete lines between two offsets. */
  function LinesIn(c: Bytes, from: nat, end: nat): seq<RawLine>
    requires from <= end <= |c|
    decreases end - from
  {
    var i := NextNewline(c, from, end);
    if i == end then [] else [RawLine(from, c[from..i])] + LinesIn(c, i + 1, end)
  }

  /** Where the complete lines end. */
  function LinesEnd(c: Bytes, from: nat, end: nat): (n: nat)
    requires from <= end <= |c|
    ensures from <= n <= end && (n == from || c[n - 1] == NEWLINE)
    ensures forall j :: n <= j < end ==> c[j] != NEWLINE
    decreases end - from
  {
    var i := NextNewline(c, from, end);
    if i == end then from else LinesEnd(c, i + 1, end)
  }

  /** The lines written out again. */
  function Joined(lines: seq<RawLine>): Bytes {
    if lines == [] then [] else lines[0].data + [NEWLINE] + Joined(lines[1..])
  }

  ghost predicate Boundary(c: Bytes, offset: nat) {
    offset <= |c| && (offset == 0 || c[offset - 1] == NEWLINE)
  }

  /** A line as the file has it: its bytes at its offset, after a newline or at the
      start, with a newline behind it and none inside. */
  ghost predicate LineAt(c: Bytes, line: RawLine, end: nat) {
    && line.offset + |line.data| < end <= |c| && Boundary(c, line.offset)
    && c[line.offset..line.offset + |line.data|] == line.data && NEWLINE !in line.data
    && c[line.offset + |line.data|] == NEWLINE
  }

  lemma JoinedNothing()
    ensures Joined([]) == []
  {}

  lemma JoinedStep(first: RawLine, rest: seq<RawLine>)
    ensures Joined([first] + rest) == first.data + [NEWLINE] + Joined(rest)
  {
    assert ([first] + rest)[1..] == rest;
  }

  lemma CutAtNewline(c: Bytes, from: nat, i: nat, last: nat)
    requires from <= i < last <= |c| && c[i] == NEWLINE
    ensures c[from..last] == c[from..i] + [NEWLINE] + c[i + 1..last]
  {}

  lemma JoinOne(c: Bytes, from: nat, i: nat, last: nat, rest: seq<RawLine>)
    requires from <= i < last <= |c| && c[i] == NEWLINE && Joined(rest) == c[i + 1..last]
    ensures Joined([RawLine(from, c[from..i])] + rest) == c[from..last]
  {
    JoinedStep(RawLine(from, c[from..i]), rest);
    CutAtNewline(c, from, i, last);
  }

  /** Joined with newlines the lines are the content up to its last newline. */
  lemma {:induction false} LinesJoinBack(c: Bytes, from: nat, end: nat)
    requires from <= end <= |c|
    ensures Joined(LinesIn(c, from, end)) == c[from..LinesEnd(c, from, end)]
    decreases end - from
  {
    hide Joined;
    var i := NextNewline(c, from, end);
    if i == end {
      JoinedNothing();
    } else {
      LinesJoinBack(c, i + 1, end);
      JoinOne(c, from, i, LinesEnd(c, i + 1, end), LinesIn(c, i + 1, end));
    }
  }

  lemma {:induction false} LinesAreAt(c: Bytes, from: nat, end: nat)
    requires Boundary(c, from) && from <= end <= |c|
    ensures forall line :: line in LinesIn(c, from, end) ==> from <= line.offset && LineAt(c, line, end)
    decreases end - from
  {
    var i := NextNewline(c, from, end);
    if i < end {
      LinesAreAt(c, i + 1, end);
      var first := RawLine(from, c[from..i]);
      FirstLineAt(c, from, i, end);
      hide LineAt;
      assert forall line :: line in LinesIn(c, from, end) <==> line == first || line in LinesIn(c, i + 1, end);
    }
  }

  lemma FirstLineAt(c: Bytes, from: nat, i: nat, end: nat)
    requires Boundary(c, from) && from <= i < end <= |c| && c[i] == NEWLINE && forall j :: from <= j < i ==> c[j] != NEWLINE
    ensures LineAt(c, RawLine(from, c[from..i]), end)
  {}

  /** Lines up to a boundary, and the lines after it. */
  lemma LinesSplit(c: Bytes, from: nat, at: nat, end: nat)
    requires from <= at <= end <= |c| && (at == from || c[at - 1] == NEWLINE)
    ensures LinesIn(c, from, end) == LinesIn(c, from, at) + LinesIn(c, at, end)
    ensures LinesEnd(c, from, end) == LinesEnd(c, at, end)
    ensures LinesEnd(c, from, at) == at
  {
    LinesInSplit(c, from, at, end);
    LinesEndSplit(c, from, at, end);
  }

  lemma {:induction false} LinesInSplit(c: Bytes, from: nat, at: nat, end: nat)
    requires from <= at <= end <= |c| && (at == from || c[at - 1] == NEWLINE)
    ensures LinesIn(c, from, end) == LinesIn(c, from, at) + LinesIn(c, at, end)
    decreases end - from
  {
    if from < at {
      var i := NextNewline(c, from, end);
      NextNewlineIs(c, from, at, i);
      LinesInSplit(c, i + 1, at, end);
      Associate([RawLine(from, c[from..i])], LinesIn(c, i + 1, at), LinesIn(c, at, end));
    }
  }

  lemma {:induction false} LinesEndSplit(c: Bytes, from: nat, at: nat, end: nat)
    requires from <= at <= end <= |c| && (at == from || c[at - 1] == NEWLINE)
    ensures LinesEnd(c, from, end) == LinesEnd(c, at, end)
    ensures LinesEnd(c, from, at) == at
    decreases end - from
  {
    if from < at {
      var i := NextNewline(c, from, end);
      NextNewlineIs(c, from, at, i);
      LinesEndSplit(c, i + 1, at, end);
    }
  }

  lemma {:induction false} NextNewlineIs(c: Bytes, from: nat, end: nat, i: nat)
    requires from <= i < end <= |c| && c[i] == NEWLINE && forall j :: from <= j < i ==> c[j] != NEWLINE
    ensures NextNewline(c, from, end) == i
    decreases i - from
  {
    if from < i {
      NextNewlineIs(c, from + 1, end, i);
    }
  }

  /** What is appended later changes no line already complete. */
  lemma {:induction false} LinesStay(c: Bytes, more: Bytes, from: nat, end: nat)
    requires from <= end <= |c| && c <= more
    ensures LinesIn(more, from, end) == LinesIn(c, from, end)
    decreases end - from
  {
    var i := NextNewline(c, from, end);
    if i < end {
      NextNewlineIs(more, from, end, i);
      LinesStay(c, more, i + 1, end);
      assert more[from..i] == c[from..i];
    } else {
      NextNewlineIsNone(more, from, end);
    }
  }

  lemma {:induction false} NextNewlineIsNone(c: Bytes, from: nat, end: nat)
    requires from <= end <= |c| && forall j :: from <= j < end ==> c[j] != NEWLINE
    ensures NextNewline(c, from, end) == end
    decreases end - from
  {
    if from < end {
      NextNewlineIsNone(c, from + 1, end);
    }
  }

  // ---- Reading ----

  /** Where one bounded read at `start` ends. */
  function Reach(c: Bytes, start: nat, bound: nat): (end: nat)
    requires start <= |c|
    ensures start <= end <= |c|
  {
    if |c| - start <= bound then |c| else start + bound
  }

  datatype ReadResult = ReadResult(lines: seq<RawLine>, next: Cursor, continuity: Continuity)

  /** The content hash, of which nothing is assumed. */
  type Hash = Bytes -> nat

  function Fingerprint(hash: Hash, content: Bytes): nat {
    if content == [] then 0
    else if |content| < FINGERPRINT_SIZE then hash(content)
    else hash(content[..FINGERPRINT_SIZE])
  }

  predicate Known(id: FileIdentity) {
    id != UNKNOWN
  }

  datatype Start = Start(offset: nat, continuity: Continuity, fingerprint: nat)

  /** `resolveStart`. */
  function ResolveStart(hash: Hash, f: File, from: Cursor): (s: Start)
    ensures s.offset == 0 || s.offset == from.offset <= |f.content|
  {
    if |f.content| < from.offset then Start(0, Truncated, Fingerprint(hash, f.content))
    else if Known(from.identity) && Known(f.identity) && from.identity != f.identity then
      Start(0, Replaced, Fingerprint(hash, f.content))
    else if from.offset == 0 && from.fingerprint == 0 then Start(0, Appended, Fingerprint(hash, f.content))
    else if Known(from.identity) && Known(f.identity) then Start(from.offset, Appended, from.fingerprint)
    else if from.fingerprint != 0 && Fingerprint(hash, f.content) != from.fingerprint then
      Start(0, Replaced, Fingerprint(hash, f.content))
    else Start(from.offset, Appended, Fingerprint(hash, f.content))
  }

  function Read(hash: Hash, bound: nat, f: File, from: Cursor): ReadResult {
    var s := ResolveStart(hash, f, from);
    var end := Reach(f.content, s.offset, bound);
    ReadResult(LinesIn(f.content, s.offset, end),
               Cursor(LinesEnd(f.content, s.offset, end), s.fingerprint, f.identity), s.continuity)
  }

  /** `bytes.IndexByte`. */
  function IndexOfNewline(b: Bytes): (i: int)
    ensures -1 <= i < |b|
    ensures forall j :: 0 <= j < (if i < 0 then |b| else i) ==> b[j] != NEWLINE
    ensures 0 <= i ==> b[i] == NEWLINE
  {
    var i := NextNewline(b, 0, |b|);
    if i == |b| then -1 else i
  }

  lemma NoNewlineIn(c: Bytes, from: nat, end: nat)
    requires from <= end <= |c| && IndexOfNewline(c[from..end]) < 0
    ensures LinesIn(c, from, end) == [] && LinesEnd(c, from, end) == from
  {
    forall j | from <= j < end ensures c[j] != NEWLINE {
      assert c[from..end][j - from] == c[j];
    }
    NextNewlineIsNone(c, from, end);
  }

  lemma NothingIn(c: Bytes, n: nat)
    requires n <= |c|
    ensures LinesIn(c, n, n) == [] && LinesEnd(c, n, n) == n
  {}

  lemma Associate<T>(a: seq<T>, b: seq<T>, c: seq<T>)
    ensures (a + b) + c == a + (b + c)
  {}

  lemma SliceOn<T>(c: seq<T>, from: nat, end: nat, n: nat)
    requires from + n <= end <= |c|
    ensures c[from..end][n..] == c[from + n..end]
  {}

  /** One line goes from what is left to what was found. */
  lemma TakeLine(c: Bytes, start: nat, here: nat, end: nat, lines: seq<RawLine>, buf: Bytes, idx: nat)
    requires start <= here <= end <= |c| && buf == c[here..end] && IndexOfNewline(buf) == idx
    requires LinesIn(c, start, end) == lines + LinesIn(c, here, end) && LinesEnd(c, start, end) == LinesEnd(c, here, end)
    ensures here + idx + 1 <= end && buf[idx + 1..] == c[here + idx + 1..end]
    ensures LinesIn(c, start, end) == (lines + [RawLine(here, buf[..idx])]) + LinesIn(c, here + idx + 1, end)
    ensures LinesEnd(c, start, end) == LinesEnd(c, here + idx + 1, end)
  {
    assert idx < |buf|;
    NewlineIn(c, here, end, idx);
    hide LinesIn, LinesEnd, IndexOfNewline;
    Associate(lines, [RawLine(here, buf[..idx])], LinesIn(c, here + idx + 1, end));
    SliceOn(c, here, end, idx + 1);
  }

  lemma NewlineIn(c: Bytes, from: nat, end: nat, idx: nat)
    requires from <= end <= |c| && IndexOfNewline(c[from..end]) == idx
    ensures LinesIn(c, from, end) == [RawLine(from, c[from..end][..idx])] + LinesIn(c, from + idx + 1, end)
    ensures LinesEnd(c, from, end) == LinesEnd(c, from + idx + 1, end)
  {
    var buf := c[from..end];
    assert c[from + idx] == buf[idx];
    assert forall j :: from <= j < from + idx ==> c[j] == buf[j - from];
    NextNewlineIs(c, from, end, from + idx);
    assert c[from..from + idx] == buf[..idx];
  }

  class FileStream {
    const source: string
    const path: string
    const maxBytesPerRead: nat
    const hash: Hash

    constructor (source: string, path: string, maxBytesPerRead: nat, hash: Hash)
      ensures this.source == source && this.path == path && this.maxBytesPerRead == maxBytesPerRead && this.hash == hash
    {
      this.source, this.path, this.maxBytesPerRead, this.hash := source, path, maxBytesPerRead, hash;
    }

    method ReadLines(content: Bytes, start: nat, size: nat) returns (lines: seq<RawLine>, consumed: nat)
      requires size == |content|
      ensures size < start ==> lines == [] && consumed == 0
      ensures start <= size ==>
                && lines == LinesIn(content, start, Reach(content, start, maxBytesPerRead))
                && start + consumed == LinesEnd(content, start, Reach(content, start, maxBytesPerRead))
    {
      if size <= start {
        if size == start { NothingIn(content, start); }
        return [], 0;
      }
      var avail := if maxBytesPerRead < size - start then maxBytesPerRead else size - start;
      lines, consumed := SplitLines(content[start..start + avail], content, start);
    }

    /** The complete lines of what was read, and how far they go. */
    method SplitLines(read: Bytes, ghost content: Bytes, start: nat) returns (lines: seq<RawLine>, consumed: nat)
      requires start + |read| <= |content| && read == content[start..start + |read|]
      ensures lines == LinesIn(content, start, start + |read|)
      ensures start + consumed == LinesEnd(content, start, start + |read|)
    {
      hide LinesIn, LinesEnd, NextNewline, IndexOfNewline;
      var buf := read;
      lines, consumed := [], 0;
      ghost var end := start + |read|;
      while 0 < |buf|
        invariant start + consumed <= end && buf == content[start + consumed..end]
        invariant LinesIn(content, start, end) == lines + LinesIn(content, start + consumed, end)
        invariant LinesEnd(content, start, end) == LinesEnd(content, start + consumed, end)
        decreases |buf|
      {
        var idx := IndexOfNewline(buf);
        if idx < 0 {
          NoNewlineIn(content, start + consumed, end);
          return;
        }
        TakeLine(content, start, start + consumed, end, lines, buf, idx);
        lines := lines + [RawLine(start + consumed, buf[..idx])];
        consumed, buf := consumed + idx + 1, buf[idx + 1..];
      }
      NothingIn(content, end);
    }

    /** `Read`, of a file that is there. */
    method ReadFrom(f: File, from: Cursor) returns (r: ReadResult)
      ensures r == Read(hash, maxBytesPerRead, f, from)
    {
      var s := ResolveStart(hash, f, from);
      var lines, consumed := ReadLines(f.content, s.offset, |f.content|);
      r := ReadResult(lines, Cursor(s.offset + consumed, s.fingerprint, f.identity), s.continuity);
    }
  }

  // ---- Reading on until nothing comes ----

  ghost predicate LinesFit(lines: seq<RawLine>, bound: nat) {
    forall line :: line in lines ==> |line.data| < bound
  }

  /** Bounded reads from `start` until one yields no line. */
  function Drained(c: Bytes, start: nat, bound: nat): seq<RawLine>
    requires start <= |c|
    decreases |c| - start
  {
    var end := Reach(c, start, bound);
    var next := LinesEnd(c, start, end);
    if next == start then [] else LinesIn(c, start, end) + Drained(c, next, bound)
  }

  /** A read takes the lines it covers off the front of what is left. */
  lemma ReadTakesFront(c: Bytes, start: nat, bound: nat)
    requires start <= |c|
    ensures var end := Reach(c, start, bound);
            var next := LinesEnd(c, start, end);
            && LinesIn(c, start, end) == LinesIn(c, start, next)
            && LinesIn(c, start, |c|) == LinesIn(c, start, end) + LinesIn(c, next, |c|)
            && LinesEnd(c, start, |c|) == LinesEnd(c, next, |c|)
  {
    var end := Reach(c, start, bound);
    var next := LinesEnd(c, start, end);
    LinesSplit(c, start, next, end);
    LinesSplit(c, start, next, |c|);
    assert NextNewline(c, next, end) == end;
  }

  /** A read comes back empty exactly when the next line and its newline do not fit. */
  lemma EmptyRead(c: Bytes, start: nat, bound: nat)
    requires start <= |c|
    ensures LinesEnd(c, start, Reach(c, start, bound)) == start <==>
              LinesIn(c, start, |c|) == [] || bound <= |LinesIn(c, start, |c|)[0].data|
  {
    var end := Reach(c, start, bound);
    var i, k := NextNewline(c, start, |c|), NextNewline(c, start, end);
    if i < end {
      NextNewlineIs(c, start, end, i);
    } else {
      assert k == end;
    }
  }

  lemma LinesOfReadFit(c: Bytes, from: nat, end: nat, bound: nat)
    requires Boundary(c, from) && from <= end <= |c| && end - from <= bound
    ensures LinesFit(LinesIn(c, from, end), bound)
  {
    LinesAreAt(c, from, end);
  }

  /** Reading on yields every complete line, in order and at its offset, if and only
      if every line and its newline fit one read; beyond that the bound does not show. */
  lemma {:induction false} DrainedIsEverythingIff(c: Bytes, start: nat, bound: nat)
    requires Boundary(c, start)
    ensures Drained(c, start, bound) == LinesIn(c, start, |c|) <==> LinesFit(LinesIn(c, start, |c|), bound)
    decreases |c| - start
  {
    var end := Reach(c, start, bound);
    var next, all := LinesEnd(c, start, end), LinesIn(c, start, |c|);
    EmptyRead(c, start, bound);
    ReadTakesFront(c, start, bound);
    if next == start {
      assert all != [] ==> all[0] in all;
    } else {
      DrainedIsEverythingIff(c, next, bound);
      LinesOfReadFit(c, start, end, bound);
      var here := LinesIn(c, start, end);
      assert (here + Drained(c, next, bound))[|here|..] == Drained(c, next, bound);
      assert (here + LinesIn(c, next, |c|))[|here|..] == LinesIn(c, next, |c|);
    }
  }

  // ---- Restarts ----

  lemma FullHeadStays(hash: Hash, content: Bytes, more: Bytes)
    requires content <= more && FINGERPRINT_SIZE <= |content|
    ensures Fingerprint(hash, more) == Fingerprint(hash, content)
  {
    assert more[..FINGERPRINT_SIZE] == content[..FINGERPRINT_SIZE];
  }

  /** Known by its identity, or by a head that hashes as it did. */
  ghost predicate ReadsOn(hash: Hash, id: FileIdentity, content: Bytes, more: Bytes) {
    || Known(id) || FINGERPRINT_SIZE <= |content|
    || Fingerprint(hash, content) == 0 || Fingerprint(hash, more) == Fingerprint(hash, content)
  }

  /** A file that grew after a read is read on from where that read ended if and only
      if its identity is known, or it had filled the fingerprinted head, or the
      longer head hashes the same or to the value that stands for none. Below the
      head's size, without an identity, a growing file reads as a replaced one and
      is read again from the start. */
  lemma GrownFileResumesIff(hash: Hash, bound: nat, id: FileIdentity, content: Bytes, more: Bytes, from: Cursor)
    requires content <= more && 0 < Read(hash, bound, File(id, content), from).next.offset
    ensures var next := Read(hash, bound, File(id, content), from).next;
            var s := ResolveStart(hash, File(id, more), next);
            if ReadsOn(hash, id, content, more) then s.offset == next.offset && s.continuity == Appended
            else s == Start(0, Replaced, Fingerprint(hash, more))
  {
    if FINGERPRINT_SIZE <= |content| {
      FullHeadStays(hash, content, more);
    }
  }

  /** A first read that found lines and one after the file grew together give each
      complete line up to the last one's end once, none skipped and none twice, if
      and only if the second read goes on where the first one ended. */
  lemma ReadsJoinIff(hash: Hash, bound: nat, id: FileIdentity, content: Bytes, more: Bytes)
    requires content <= more && Read(hash, bound, File(id, content), FRESH).lines != []
    ensures var r := Read(hash, bound, File(id, content), FRESH);
            var r' := Read(hash, bound, File(id, more), r.next);
            r.lines + r'.lines == LinesIn(more, 0, r'.next.offset) <==> ReadsOn(hash, id, content, more)
  {
    hide LinesIn, LinesEnd, Fingerprint, ResolveStart;
    var r := Read(hash, bound, File(id, content), FRESH);
    var r' := Read(hash, bound, File(id, more), r.next);
    var end := Reach(content, 0, bound);
    FreshStart(hash, File(id, content));
    SomeLineEnds(content, 0, end);
    GrownFileResumesIff(hash, bound, id, content, more, FRESH);
    ReadTakesFront(content, 0, bound);
    LinesStay(content, more, 0, r.next.offset);
    var at := ResolveStart(hash, File(id, more), r.next).offset;
    ReadTakesFront(more, at, bound);
    if ReadsOn(hash, id, content, more) {
      LinesSplit(more, 0, r.next.offset, r'.next.offset);
    } else {
      LongerIsOther(r.lines, r'.lines);
    }
  }

  lemma FreshStart(hash: Hash, f: File)
    ensures ResolveStart(hash, f, FRESH).offset == 0
  {}

  lemma SomeLineEnds(c: Bytes, from: nat, end: nat)
    requires from <= end <= |c| && LinesIn(c, from, end) != []
    ensures from < LinesEnd(c, from, end)
  {}

  lemma LongerIsOther<T>(a: seq<T>, b: seq<T>)
    requires a != []
    ensures a + b != b
  {
    assert |a + b| == |a| + |b|;
  }

  /** With identities known the content plays no part: the same file, no shorter, is
      read on from the cursor; another file is read from its start and said to be. */
  lemma KnownIdentityDecides(hash: Hash, f: File, from: Cursor)
    requires Known(f.identity) && Known(from.identity) && from.offset <= |f.content|
    ensures var s := ResolveStart(hash, f, from);
            if f.identity == from.identity then s.offset == from.offset && s.continuity == Appended
            else s.offset == 0 && s.continuity == Replaced
  {}

  /** What a start is called: a shorter file is truncated, a start that is neither that
      nor where the cursor is has found another file, and all else goes on. The hash
      of the head is taken anew unless the file is known to be the cursor's. */
  lemma ContinuitySays(hash: Hash, f: File, from: Cursor)
    ensures var s := ResolveStart(hash, f, from);
            && (s.continuity == Truncated <==> |f.content| < from.offset)
            && (s.continuity == Appended ==> s.offset == from.offset)
            && (s.continuity == Replaced ==> s.offset == 0 && from != FRESH)
            && s.fingerprint ==
                 if s.continuity == Appended && from.identity == f.identity && Known(f.identity) && (from.offset != 0 || from.fingerprint != 0)
                 then from.fingerprint else Fingerprint(hash, f.content)
  {}

  /** Read again straight away, a file resumes where the last read ended. */
  lemma NextReadResumes(hash: Hash, bound: nat, f: File, from: Cursor)
    ensures var next := Read(hash, bound, f, from).next;
            next.offset <= |f.content| && ResolveStart(hash, f, next).offset == next.offset
  {}
}
