/** One row per API request: the fold of an archive's lines. */
module Requests {
  import opened Records
  import opened Sets
  import opened Keys

  const PICK_WIDTH: nat := 20

  /** `origin_id || ':' || printf('%020d', seq)`. */
  function PickKey(r: Record): string
    requires 0 <= r.num
  {
    r.origin + ":" + Padded(r.num, PICK_WIDTH)
  }

  /** A row of the fold. */
  datatype Request = Request(session: string, model: string, origin: Origin, day: string,
                             cwd: string, branch: string, usage: Usage)

  function ToRequest(r: Record): Request {
    Request(r.line.session, r.line.model, r.origin,
            if |r.line.capturedAt| <= 10 then r.line.capturedAt else r.line.capturedAt[..10],
            r.columns.cwd, r.columns.branch, r.line.usage)
  }

  /** Sequences a 64-bit column can hold. */
  ghost predicate Numbered(rows: seq<Record>) {
    forall r :: r in rows ==> 0 <= r.num <= INT64_MAX
  }

  /** The row a `min()` over the rows of one request keeps, scanning them in turn. */
  function Picked(rows: seq<Record>, q: string): Option<Record>
    requires forall r :: r in rows ==> 0 <= r.num
  {
    if rows == [] then None
    else
      var r, best := rows[|rows| - 1], Picked(rows[..|rows| - 1], q);
      if r.line.requestId != q || q == "" then best
      else if best.None? || (0 <= best.value.num && Less(PickKey(r), PickKey(best.value))) then Some(r)
      else best
  }

  /** `r` is a line of the request and no other line of it comes before. */
  ghost predicate IsLeast(rows: seq<Record>, q: string, r: Record)
    requires forall x :: x in rows ==> 0 <= x.num
  {
    && r in rows && r.line.requestId == q
    && forall x :: x in rows && x.line.requestId == q ==> !Less(PickKey(x), PickKey(r))
  }

  lemma {:induction false} PickedIsLeast(rows: seq<Record>, q: string)
    requires Numbered(rows)
    ensures Picked(rows, q).None? <==> q == "" || forall r :: r in rows ==> r.line.requestId != q
    ensures Picked(rows, q).Some? ==> IsLeast(rows, q, Picked(rows, q).value)
    decreases |rows|
  {
    hide PickKey, Less;
    if rows != [] {
      var before, r := rows[..|rows| - 1], rows[|rows| - 1];
      PickedIsLeast(before, q);
      assert forall x :: x in rows <==> x in before || x == r;
      forall x | x in rows && Picked(rows, q).Some? && x.line.requestId == q
        ensures !Less(PickKey(x), PickKey(Picked(rows, q).value))
      {
        LessIsStrict(PickKey(r), PickKey(r), PickKey(r));
        if Picked(before, q).Some? {
          LessIsStrict(PickKey(x), PickKey(r), PickKey(Picked(before, q).value));
        }
      }
    }
  }

  /** Two rows never tie: the key names the row. */
  lemma PickKeyNamesTheRow(a: Record, b: Record)
    requires 0 <= a.num <= INT64_MAX && 0 <= b.num <= INT64_MAX
    ensures PickKey(a) == PickKey(b) <==> IdOf(a) == IdOf(b)
  {
    PowerOfTwenty();
    PaddedOrder(a.num, b.num, PICK_WIDTH);
    SplitAtWidth(a.origin, Padded(a.num, PICK_WIDTH), b.origin, Padded(b.num, PICK_WIDTH));
  }

  lemma {:induction false} ColonFirst(a: string, b: string, x: string, y: string)
    requires ':' !in a && ':' !in b && a != b
    ensures Less(a + ":" + x, b + ":" + y) <==> Less(a + ":", b + ":")
    decreases |a|
  {
    var s, t := a + ":" + x, b + ":" + y;
    if a == "" {
      assert b[0] in b && s[0] == ':' && t[0] == b[0] && (b + ":")[0] == b[0];
    } else if b == "" {
      assert a[0] in a && t[0] == ':' && s[0] == a[0] && (a + ":")[0] == a[0];
    } else {
      assert s[1..] == a[1..] + ":" + x && t[1..] == b[1..] + ":" + y;
      assert (a + ":")[1..] == a[1..] + ":" && (b + ":")[1..] == b[1..] + ":";
      assert s[0] == a[0] == (a + ":")[0] && t[0] == b[0] == (b + ":")[0];
      assert (forall c :: c in a[1..] ==> c in a) && forall c :: c in b[1..] ==> c in b;
      if a[0] == b[0] {
        assert a == [a[0]] + a[1..] && b == [b[0]] + b[1..];
        ColonFirst(a[1..], b[1..], x, y);
      }
    }
  }

  /** Of one origin's lines the one of the lowest sequence comes first; of two origins'
      the one whose origin does, wherever neither has a colon in it. */
  lemma PickOrder(a: Record, b: Record)
    requires 0 <= a.num <= INT64_MAX && 0 <= b.num <= INT64_MAX
    ensures a.origin == b.origin ==> (Less(PickKey(a), PickKey(b)) <==> a.num < b.num)
    ensures a.origin != b.origin && ':' !in a.origin && ':' !in b.origin ==>
              (Less(PickKey(a), PickKey(b)) <==> Less(a.origin + ":", b.origin + ":"))
  {
    hide Less;
    var x, y := Padded(a.num, PICK_WIDTH), Padded(b.num, PICK_WIDTH);
    PowerOfTwenty();
    PaddedOrder(a.num, b.num, PICK_WIDTH);
    if a.origin == b.origin {
      LessAfterPrefix(a.origin + ":", x, y);
    } else if ':' !in a.origin && ':' !in b.origin {
      ColonFirst(a.origin, b.origin, x, y);
    }
  }

  /** So what is kept of a request is, of the origin it is kept from, its earliest line. */
  lemma PickedIsEarliest(rows: seq<Record>, q: string, x: Record)
    requires Numbered(rows) && Picked(rows, q).Some? && x in rows && x.line.requestId == q
    ensures var r := Picked(rows, q).value;
            && r in rows && r.line.requestId == q
            && (x.origin == r.origin ==> r.num <= x.num)
            && (x.origin != r.origin && ':' !in x.origin && ':' !in r.origin ==> !Less(x.origin + ":", r.origin + ":"))
  {
    hide Less, PickKey;
    PickedIsLeast(rows, q);
    PickOrder(x, Picked(rows, q).value);
  }

  lemma PowerOfTwenty()
    ensures INT64_MAX < Power(PICK_WIDTH)
  {
    assert Power(10) == 1_00000_00000;
    assert Power(20) == 1_00000_00000_00000_00000;
  }

  lemma SplitAtWidth(o: string, d: string, p: string, e: string)
    requires |d| == |e|
    ensures o + ":" + d == p + ":" + e <==> o == p && d == e
  {
    if o + ":" + d == p + ":" + e {
      var s := o + ":" + d;
      assert |o| == |p|;
      assert o == s[..|o|] && p == s[..|o|];
      assert d == s[|o| + 1..] && e == s[|o| + 1..];
    }
  }

  /** Rows under their own primary keys, as any order of one archive's rows is. */
  ghost predicate OneRowEach(rows: seq<Record>) {
    forall a, b :: a in rows && b in rows && IdOf(a) == IdOf(b) ==> a == b
  }

  /** The order the rows come in does not show in the fold. */
  lemma FoldIgnoresOrder(a: seq<Record>, b: seq<Record>, q: string)
    requires Numbered(a) && OneRowEach(a) && forall r :: r in a <==> r in b
    ensures Picked(a, q) == Picked(b, q)
  {
    hide PickKey, Less;
    PickedIsLeast(a, q);
    PickedIsLeast(b, q);
    if Picked(a, q).Some? {
      var x, y := Picked(a, q).value, Picked(b, q).value;
      LessIsStrict(PickKey(x), PickKey(y), PickKey(x));
      PickKeyNamesTheRow(x, y);
    }
  }

  /** Further lines of a request that repeat its usage and model leave the request
      one, with that usage and model, whichever of its lines is then kept. */
  lemma RepeatedLinesKeepRequest(rows: seq<Record>, more: seq<Record>, q: string)
    requires Numbered(rows) && Numbered(more)
    requires forall r :: r in rows ==> r in more
    requires forall r :: r in more && r.line.requestId == q && q != "" ==>
               exists x :: x in rows && x.line.requestId == q
    requires forall x, y :: x in more && y in more && x.line.requestId == q == y.line.requestId ==>
               x.line.usage == y.line.usage && x.line.model == y.line.model
    ensures Picked(rows, q).Some? <==> Picked(more, q).Some?
    ensures Picked(rows, q).Some? ==>
              var was, now := ToRequest(Picked(rows, q).value), ToRequest(Picked(more, q).value);
              was.usage == now.usage && was.model == now.model
  {
    hide PickKey, Less;
    PickedIsLeast(rows, q);
    PickedIsLeast(more, q);
  }

  // ---- The whole fold ----

  ghost predicate NonNegative(rows: seq<Record>) {
    forall r :: r in rows ==> 0 <= r.num
  }

  /** `request_id IS NOT NULL`. */
  function IdSet(rows: seq<Record>): set<string> {
    set r | r in rows && r.line.requestId != "" :: r.line.requestId
  }

  ghost predicate NoRepeats<T>(s: seq<T>) {
    forall i, j :: 0 <= i < j < |s| ==> s[i] != s[j]
  }

  /** `GROUP BY request_id`: one row for each id there is, in whatever order the
      groups come out. */
  ghost predicate IsFold(rows: seq<Record>, ids: seq<string>, reqs: seq<Request>) {
    && NonNegative(rows) && NoRepeats(ids) && (forall q :: q in ids <==> q in IdSet(rows))
    && |reqs| == |ids|
    && forall i :: 0 <= i < |ids| ==> Picked(rows, ids[i]).Some? && reqs[i] == ToRequest(Picked(rows, ids[i]).value)
  }

  /** Ids in the order they first appear. */
  function IdsOf(rows: seq<Record>): seq<string> {
    if rows == [] then []
    else
      var before, q := IdsOf(rows[..|rows| - 1]), rows[|rows| - 1].line.requestId;
      if q == "" || q in before then before else before + [q]
  }

  lemma {:induction false} IdsOfLists(rows: seq<Record>)
    ensures NoRepeats(IdsOf(rows)) && forall q :: q in IdsOf(rows) <==> q in IdSet(rows)
    decreases |rows|
  {
    if rows != [] {
      var before, r := rows[..|rows| - 1], rows[|rows| - 1];
      IdsOfLists(before);
      assert forall x :: x in rows <==> x in before || x == r;
    }
  }

  /** There is such a table for any rows. */
  lemma FoldExists(rows: seq<Record>) returns (reqs: seq<Request>)
    requires Numbered(rows)
    ensures IsFold(rows, IdsOf(rows), reqs)
  {
    var ids := IdsOf(rows);
    IdsOfLists(rows);
    forall q | q in ids ensures Picked(rows, q).Some? {
      PickedIsLeast(rows, q);
    }
    reqs := seq(|ids|, i requires 0 <= i < |ids| => ToRequest(Picked(rows, ids[i]).value));
  }

  /** The fold has as many rows as there are distinct request ids. */
  lemma FoldCounts(rows: seq<Record>, ids: seq<string>, reqs: seq<Request>)
    requires IsFold(rows, ids, reqs)
    ensures |reqs| == |IdSet(rows)|
  {
    DistinctCount(ids);
    assert (set q | q in ids) == IdSet(rows);
  }

  /** A finite set in some order. */
  lemma {:induction false} Listing<T>(s: set<T>) returns (q: seq<T>)
    ensures NoRepeats(q) && forall x :: x in q <==> x in s
    decreases |s|
  {
    q := [];
    if s != {} {
      var x := Pick(s);
      var rest := Listing(s - {x});
      q := rest + [x];
      assert forall y :: y in s <==> y == x || y in s - {x};
    }
  }

  lemma {:induction false} DistinctCount<T>(s: seq<T>)
    requires NoRepeats(s)
    ensures |set x | x in s| == |s|
    decreases |s|
  {
    if s != [] {
      var before, x := s[..|s| - 1], s[|s| - 1];
      DistinctCount(before);
      assert (set y | y in s) == (set y | y in before) + {x};
    }
  }

  function Without<T>(s: seq<T>, j: nat): seq<T>
    requires j < |s|
  {
    s[..j] + s[j + 1..]
  }

  lemma FirstIsIn<T>(s: seq<T>)
    ensures s != [] ==> s[0] in s
  {}

  /** Where an element of a listing is in another listing of the same elements, and
      that both without it list the same elements again. */
  lemma FindSame<K>(a: seq<K>, b: seq<K>) returns (j: nat)
    requires a != [] && NoRepeats(a) && NoRepeats(b) && forall q :: q in a <==> q in b
    ensures j < |b| && b[j] == a[|a| - 1]
    ensures NoRepeats(a[..|a| - 1]) && NoRepeats(Without(b, j))
    ensures forall q :: q in a[..|a| - 1] <==> q in Without(b, j)
  {
    var last := a[|a| - 1];
    assert last in a;
    j :| 0 <= j < |b| && b[j] == last;
    assert forall q :: q in b <==> q in Without(b, j) || q == last;
    assert forall q :: q in a <==> q in a[..|a| - 1] || q == last;
  }

  lemma MultisetWithout<T>(s: seq<T>, j: nat)
    requires j < |s|
    ensures multiset(s) == multiset(Without(s, j)) + multiset{s[j]}
  {
    assert s == s[..j] + [s[j]] + s[j + 1..];
  }

  lemma AllButLast<T>(s: seq<T>)
    requires s != []
    ensures Without(s, |s| - 1) == s[..|s| - 1]
  {}

  /** What is said about corresponding places stays said without one of them. */
  ghost predicate Correspond<K, V>(a: seq<K>, x: seq<V>, b: seq<K>, y: seq<V>, same: (V, V) -> bool) {
    && |x| == |a| && |y| == |b|
    && forall i, j :: 0 <= i < |a| && 0 <= j < |b| && a[i] == b[j] ==> same(x[i], y[j])
  }

  lemma CorrespondWithout<K, V>(a: seq<K>, x: seq<V>, b: seq<K>, y: seq<V>, same: (V, V) -> bool, j: nat)
    requires a != [] && j < |b| && Correspond(a, x, b, y, same)
    ensures Correspond(a[..|a| - 1], x[..|x| - 1], Without(b, j), Without(y, j), same)
  {}

  lemma {:induction false} SameValues<K, V>(a: seq<K>, x: seq<V>, b: seq<K>, y: seq<V>, same: (V, V) -> bool)
    requires NoRepeats(a) && NoRepeats(b) && (forall q :: q in a <==> q in b)
    requires Correspond(a, x, b, y, same) && forall u, v :: same(u, v) ==> u == v
    ensures multiset(x) == multiset(y)
    decreases |a|
  {
    hide Without, NoRepeats;
    if a == [] {
      FirstIsIn(b);
    } else {
      var j := FindSame(a, b);
      CorrespondWithout(a, x, b, y, same, j);
      SameValues(a[..|a| - 1], x[..|x| - 1], Without(b, j), Without(y, j), same);
      MultisetWithout(x, |x| - 1);
      MultisetWithout(y, j);
      AllButLast(x);
    }
  }

  /** The rows may come in any order, and the groups may: the table is the same up
      to the order of its rows. */
  lemma FoldIsOrderless(a: seq<Record>, ids: seq<string>, reqs: seq<Request>, b: seq<Record>, ids': seq<string>, reqs': seq<Request>)
    requires IsFold(a, ids, reqs) && IsFold(b, ids', reqs')
    requires Numbered(a) && OneRowEach(a) && forall r :: r in a <==> r in b
    ensures multiset(reqs) == multiset(reqs')
  {
    hide Picked;
    assert IdSet(a) == IdSet(b);
    forall q ensures Picked(a, q) == Picked(b, q) {
      FoldIgnoresOrder(a, b, q);
    }
    SameValues(ids, reqs, ids', reqs', (x, y) => x == y);
  }
}
