/** The archive's table of records, as a value.

    A row is keyed by (origin, sequence). Beside that primary key the table
    carries two partial unique indexes, which together are the semantic key: a
    line with a uuid is identified by (origin, session, uuid), any other line by
    where it was read and what it said. SQL treats NULLs as distinct, so a line
    with a uuid but no session is in an index that never refuses it. */
module Records {
  import opened Sets

  datatype Option<+T> = None | Some(value: T)

  type Origin = string
  type Payload = seq<int>

  /** The columns a re-extraction may rewrite. */
  datatype Columns = Columns(cwd: string, branch: string, prRepo: string, prNumber: int)

  const BLANK := Columns("", "", "", 0)

  datatype Usage = Usage(input: int, output: int, thinking: int,
                         cacheRead: int, cacheWrite5m: int, cacheWrite1h: int)

  /** What a line is and what was extracted from it for good. An empty string
      stands for SQL NULL, as `nullable` maps it. */
  datatype Line = Line(
    source: string, path: string, offset: int, hash: string,
    session: string, uuid: string, capturedAt: string,
    requestId: string, model: string, usage: Usage, body: Payload)

  datatype Record = Record(origin: Origin, num: int, line: Line, columns: Columns)

  datatype Id = Id(origin: Origin, num: int)

  type Table = map<Id, Record>

  datatype Semantic =
    | ByLine(origin: Origin, session: string, uuid: string)
    | ByPlace(origin: Origin, source: string, path: string, offset: int, hash: string)
    | Unindexed

  function IdOf(r: Record): Id {
    Id(r.origin, r.num)
  }

  function KeyOf(origin: Origin, line: Line): Semantic {
    if line.uuid == "" then ByPlace(origin, line.source, line.path, line.offset, line.hash)
    else if line.session == "" then Unindexed
    else ByLine(origin, line.session, line.uuid)
  }

  /** The two records are the same line as far as the unique indexes can tell. */
  predicate SameLine(a: Record, b: Record) {
    KeyOf(a.origin, a.line) == KeyOf(b.origin, b.line) && KeyOf(a.origin, a.line) != Unindexed
  }

  /** What the two indexes together take for one line of an origin: the same uuid in
      the same session, or, of lines without a uuid, the same place and content. */
  predicate Recognises(a: Line, b: Line) {
    || (a.session != "" && a.uuid != "" && a.session == b.session && a.uuid == b.uuid)
    || (a.uuid == "" && b.uuid == "" && a.source == b.source && a.path == b.path && a.offset == b.offset && a.hash == b.hash)
  }

  lemma SameLineIff(a: Record, b: Record)
    ensures SameLine(a, b) <==> a.origin == b.origin && Recognises(a.line, b.line)
  {}

  /** What a re-extraction leaves alone. */
  function Core(r: Record): Record {
    r.(columns := BLANK)
  }

  /** Rows sit under their own primary key and carry an origin and a sequence. */
  ghost predicate WellKeyed(t: Table) {
    forall id :: id in t ==> IdOf(t[id]) == id && id.origin != "" && 0 < id.num
  }

  /** The semantic indexes hold. */
  ghost predicate Distinct(t: Table) {
    forall i, j {:trigger SameLine(t[i], t[j])} :: i in t && j in t && SameLine(t[i], t[j]) ==> i == j
  }

  // ---- Watermarks ----

  function Held(t: Table, origin: Origin): set<int> {
    set id | id in t && id.origin == origin :: id.num
  }

  /** `SELECT max(seq)` for one origin, zero where there is no row. */
  function Watermark(t: Table, origin: Origin): int {
    var held := Held(t, origin);
    if held == {} then 0 else Max(held)
  }

  /** One origin's rows are exactly the sequences 1 to `n`. */
  ghost predicate Prefix(t: Table, origin: Origin, n: int) {
    0 <= n && forall s :: Id(origin, s) in t <==> 1 <= s <= n
  }

  /** Every origin's rows are gap-free from one. */
  ghost predicate Dense(t: Table) {
    forall o :: Prefix(t, o, Watermark(t, o))
  }

  lemma WatermarkOf(t: Table, origin: Origin, n: int)
    requires Prefix(t, origin, n)
    ensures Watermark(t, origin) == n
  {
    var held := Held(t, origin);
    assert forall s :: s in held <==> Id(origin, s) in t;
    if n == 0 {
      assert held == {};
    } else {
      assert n in held;
    }
  }

  lemma WatermarkBounds(t: Table, id: Id)
    requires id in t
    ensures id.num <= Watermark(t, id.origin)
    ensures Id(id.origin, Watermark(t, id.origin)) in t
  {
    assert id.num in Held(t, id.origin);
  }

  lemma WatermarkEmpty(t: Table, origin: Origin)
    requires forall s :: Id(origin, s) !in t
    ensures Watermark(t, origin) == 0
  {
    assert forall s :: s in Held(t, origin) ==> Id(origin, s) in t;
  }

  // ---- Ordered reads ----

  function Above(t: Table, origin: Origin, after: int): set<int> {
    set id | id in t && id.origin == origin && after < id.num :: id.num
  }

  lemma AboveAt(t: Table, origin: Origin, after: int, s: int)
    ensures s in Above(t, origin, after) <==> Id(origin, s) in t && after < s
  {
    if Id(origin, s) in t && after < s {
      assert Id(origin, s).num in Above(t, origin, after);
    }
  }

  /** One origin's rows above a sequence, `ORDER BY seq`. */
  function Ascending(t: Table, origin: Origin, after: int): seq<Record>
    decreases |Above(t, origin, after)|
  {
    var above := Above(t, origin, after);
    if above == {} then []
    else
      var s := Min(above);
      AboveAt(t, origin, after, s);
      AboveShrinks(t, origin, after, s);
      [t[Id(origin, s)]] + Ascending(t, origin, s)
  }

  lemma AboveShrinks(t: Table, origin: Origin, after: int, s: int)
    requires s in Above(t, origin, after)
    ensures |Above(t, origin, s)| < |Above(t, origin, after)|
  {
    var small, large := Above(t, origin, s), Above(t, origin, after);
    forall x | x in small ensures x in large {
      AboveAt(t, origin, s, x);
      AboveAt(t, origin, after, x);
      AboveAt(t, origin, after, s);
    }
    AboveAt(t, origin, s, s);
    assert s !in small;
    ProperSubsetIsSmaller(small, large);
  }

  /** `Since`: up to `limit` rows above a sequence, in order. */
  function Since(t: Table, origin: Origin, after: int, limit: nat): seq<Record> {
    var all := Ascending(t, origin, after);
    if |all| <= limit then all else all[..limit]
  }

  /** `Ascending` lists every row above `after` once, in increasing sequence. */
  lemma {:induction false} AscendingLists(t: Table, origin: Origin, after: int)
    requires WellKeyed(t)
    ensures forall i :: 0 <= i < |Ascending(t, origin, after)| ==>
              var r := Ascending(t, origin, after)[i];
              r.origin == origin && after < r.num && IdOf(r) in t && t[IdOf(r)] == r
    ensures forall i, j :: 0 <= i < j < |Ascending(t, origin, after)| ==>
              Ascending(t, origin, after)[i].num < Ascending(t, origin, after)[j].num
    ensures forall s :: Id(origin, s) in t && after < s ==>
              t[Id(origin, s)] in Ascending(t, origin, after)
    decreases |Above(t, origin, after)|
  {
    var above := Above(t, origin, after);
    forall s ensures s in above <==> Id(origin, s) in t && after < s {
      AboveAt(t, origin, after, s);
    }
    if above != {} {
      var s := Min(above);
      AboveShrinks(t, origin, after, s);
      AscendingLists(t, origin, s);
      var all, rest := Ascending(t, origin, after), Ascending(t, origin, s);
      assert all == [t[Id(origin, s)]] + rest;
      assert IdOf(t[Id(origin, s)]) == Id(origin, s);
    }
  }

  /** Over a gap-free origin, the rows above `after` are simply the next ones. */
  lemma {:induction false} AscendingDense(t: Table, origin: Origin, n: int, after: int)
    requires Prefix(t, origin, n) && 0 <= after <= n
    ensures |Ascending(t, origin, after)| == n - after
    ensures forall i :: 0 <= i < n - after ==> Ascending(t, origin, after)[i] == t[Id(origin, after + 1 + i)]
    decreases n - after
  {
    var above := Above(t, origin, after);
    forall s ensures s in above <==> after < s <= n {
      AboveAt(t, origin, after, s);
    }
    if after < n {
      assert after + 1 in above;
      assert Min(above) == after + 1;
      AscendingDense(t, origin, n, after + 1);
    } else {
      assert above == {};
    }
  }

  /** What the batch walk in `send` and `Pass` relies on: a batch is the next
      stretch of rows, nothing in between is skipped, and only an exhausted
      origin yields an empty one. */
  lemma SinceIsNextStretch(t: Table, origin: Origin, after: int, limit: nat)
    requires WellKeyed(t) && 0 < limit
    ensures var batch := Since(t, origin, after, limit);
            && |batch| <= limit
            && (forall r :: r in batch ==> r.origin == origin && after < r.num && IdOf(r) in t && t[IdOf(r)] == r)
            && (batch == [] ==> forall s :: Id(origin, s) in t ==> s <= after)
            && (batch != [] ==>
                  && after < batch[|batch| - 1].num
                  && forall s :: Id(origin, s) in t && after < s <= batch[|batch| - 1].num ==> t[Id(origin, s)] in batch)
  {
    AscendingLists(t, origin, after);
    var all := Ascending(t, origin, after);
    var batch := Since(t, origin, after, limit);
    if batch != [] {
      var last := batch[|batch| - 1];
      assert last == all[|batch| - 1];
      forall s | Id(origin, s) in t && after < s <= last.num
        ensures t[Id(origin, s)] in batch
      {
        var k :| 0 <= k < |all| && all[k] == t[Id(origin, s)];
        assert all[k].num == s;
        assert k < |batch|;
        assert batch[k] == all[k];
      }
    } else {
      assert all == batch;
    }
  }

  lemma SinceDense(t: Table, origin: Origin, n: int, after: int, limit: nat)
    requires Prefix(t, origin, n) && 0 <= after <= n
    ensures var batch := Since(t, origin, after, limit);
            && |batch| == (if n - after <= limit then n - after else limit)
            && forall i :: 0 <= i < |batch| ==> batch[i] == t[Id(origin, after + 1 + i)]
  {
    AscendingDense(t, origin, n, after);
  }
}
