/** What an exchange achieves between two gap-free archives: agreement where they
    do not conflict, and evidence on both sides where they do. */
module Convergence {
  import opened Records
  import opened Sets
  import opened Digests
  import opened Store
  import opened Exchange
  import opened Liveness
  import opened Delivery

  function Larger(x: int, y: int): int {
    if x < y then y else x
  }

  lemma AnnounceTells(s: Side, o: Origin)
    requires Opening(s)
    ensures Told(s.end.mine.vector, o) == Watermark(s.rows, o)
    ensures Prefix(s.rows, o, Watermark(s.rows, o)) ==> DigestsFor(s.end.mine, o) == DigestsOf(s.rows, o)
  {
    VectorAt(s.rows, s.origin, o);
    if o !in s.end.mine.vector && Prefix(s.rows, o, Watermark(s.rows, o)) {
      forall b ensures b !in DigestsOf(s.rows, o) {
        if b in DigestsOf(s.rows, o) {
          var id := ListedBucket(s.rows, o, b);
          InVector(s.rows, s.origin, id);
        }
      }
      assert DigestsOf(s.rows, o) == map[];
    }
  }

  /** What a peer lacks is always due: its watermark, or an earlier mismatch. */
  lemma MissingIsDue(x: Side, y: Side, id: Id)
    requires Opening(x) && Opening(y) && Dense(x.rows) && Dense(y.rows)
    requires id in x.rows && id !in y.rows
    ensures Due(x.end.mine, y.end.mine, id)
  {
    AnnounceTells(x, id.origin);
    AnnounceTells(y, id.origin);
    assert Prefix(x.rows, id.origin, Watermark(x.rows, id.origin));
    assert Prefix(y.rows, id.origin, Watermark(y.rows, id.origin));
    assert id == Id(id.origin, id.num);
  }

  lemma HoldsUnion(own: Side, peer: Side, t: Table, quarantine: seq<Record>)
    requires Opening(own) && Opening(peer) && Dense(own.rows) && Dense(peer.rows) && WellKeyed(peer.rows)
    requires Outcome(own, peer, t, quarantine)
    ensures forall id :: id in t <==> id in own.rows || id in peer.rows
  {
    forall id | id in peer.rows ensures id in t {
      if id !in own.rows {
        MissingIsDue(peer, own, id);
        assert Arrived(t, quarantine, peer.rows[id]);
      }
    }
  }

  lemma UnionIsDense(a: Table, b: Table, t: Table)
    requires Dense(a) && Dense(b)
    requires forall id :: id in t <==> id in a || id in b
    ensures Dense(t)
    ensures forall o :: Watermark(t, o) == Larger(Watermark(a, o), Watermark(b, o))
  {
    forall o ensures Prefix(t, o, Watermark(t, o)) && Watermark(t, o) == Larger(Watermark(a, o), Watermark(b, o)) {
      assert Prefix(a, o, Watermark(a, o)) && Prefix(b, o, Watermark(b, o));
      assert Prefix(t, o, Larger(Watermark(a, o), Watermark(b, o)));
      WatermarkOf(t, o, Larger(Watermark(a, o), Watermark(b, o)));
    }
  }

  /** Forked or not, both sides end gap-free at the higher watermark of each
      origin, holding the same positions. */
  lemma BothReachTheMaximum(p0: Pair, p: Pair)
    requires Start(p0) && Dense(p0.left.rows) && Dense(p0.right.rows) && Sound(p0.left.rows) && Sound(p0.right.rows)
    requires Completed(p0, p)
    ensures p.left.rows.Keys == p0.left.rows.Keys + p0.right.rows.Keys == p.right.rows.Keys
    ensures Dense(p.left.rows) && Dense(p.right.rows)
    ensures forall o :: Watermark(p.left.rows, o) == Larger(Watermark(p0.left.rows, o), Watermark(p0.right.rows, o)) == Watermark(p.right.rows, o)
  {
    HoldsUnion(p0.left, p0.right, p.left.rows, p.left.quarantine);
    HoldsUnion(p0.right, p0.left, p.right.rows, p.right.quarantine);
    UnionIsDense(p0.left.rows, p0.right.rows, p.left.rows);
    UnionIsDense(p0.left.rows, p0.right.rows, p.right.rows);
  }

  // ---- Forks ----

  /** Both hold the position, with different content. */
  predicate Disagree(a: Table, b: Table, id: Id) {
    id in a && id in b && a[id].line.hash != b[id].line.hash
  }

  /** With level watermarks every disagreement is due from both sides: the rewind
      starts no later than the bucket it lies in. */
  lemma LevelDisagreementIsDue(x: Side, y: Side, id: Id)
    requires Opening(x) && Opening(y) && Dense(x.rows) && Dense(y.rows)
    requires Watermark(x.rows, id.origin) == Watermark(y.rows, id.origin)
    requires Disagree(x.rows, y.rows, id)
    ensures Due(x.end.mine, y.end.mine, id)
  {
    var n := Watermark(x.rows, id.origin);
    assert Prefix(x.rows, id.origin, n) && Prefix(y.rows, id.origin, n);
    assert id == Id(id.origin, id.num);
    AnnounceTells(x, id.origin);
    AnnounceTells(y, id.origin);
    MismatchCovers(x.rows, y.rows, id.origin, n, id.num);
  }

  /** Each side has kept its own row and holds the other's as evidence. */
  ghost predicate Exposed(a0: Table, b0: Table, left: Side, right: Side, id: Id) {
    && id in a0 && id in b0
    && id in left.rows && left.rows[id] == a0[id] && b0[id] in left.quarantine
    && id in right.rows && right.rows[id] == b0[id] && a0[id] in right.quarantine
  }

  lemma LevelForkIsExposed(p0: Pair, p: Pair, id: Id)
    requires Start(p0) && Dense(p0.left.rows) && Dense(p0.right.rows) && Sound(p0.left.rows) && Sound(p0.right.rows)
    requires Completed(p0, p) && Disagree(p0.left.rows, p0.right.rows, id)
    requires Watermark(p0.left.rows, id.origin) == Watermark(p0.right.rows, id.origin)
    ensures Exposed(p0.left.rows, p0.right.rows, p.left, p.right, id)
  {
    LevelDisagreementIsDue(p0.left, p0.right, id);
    LevelDisagreementIsDue(p0.right, p0.left, id);
    assert Arrived(p.right.rows, p.right.quarantine, p0.left.rows[id]);
    assert Arrived(p.left.rows, p.left.quarantine, p0.right.rows[id]);
  }

  /** The second exchange starts from what the first one left. */
  ghost predicate Follows(p: Pair, q: Pair) {
    && q.left.rows == p.left.rows && q.left.quarantine == p.left.quarantine && q.left.origin == p.left.origin
    && q.right.rows == p.right.rows && q.right.quarantine == p.right.quarantine && q.right.origin == p.right.origin
  }

  /** A fork surfaces within two exchanges, whatever the interleaving of either:
      every disagreeing position ends exposed on both sides, no position is ever
      quarantined that did not disagree, and neither side loses a row. */
  lemma ForksSurface(world: set<Record>, c1: nat, first: seq<Pair>, c2: nat, second: seq<Pair>)
    requires IsRun(c1, first) && Meeting(world, first[0]) && Finished(first[|first| - 1])
    requires Dense(first[0].left.rows) && Dense(first[0].right.rows)
    requires IsRun(c2, second) && Follows(first[|first| - 1], second[0]) && Finished(second[|second| - 1])
    ensures var a, b, end := first[0].left, first[0].right, second[|second| - 1];
            && (forall id :: Disagree(a.rows, b.rows, id) ==> Exposed(a.rows, b.rows, end.left, end.right, id))
            && Inherits(end.left.rows, a.rows, b.rows) && Inherits(end.right.rows, b.rows, a.rows)
            && Noted(a.rows, b.rows, a.quarantine, end.left.quarantine)
            && Noted(b.rows, a.rows, b.quarantine, end.right.quarantine)
  {
    var p0, p1, q0, q1 := first[0], first[|first| - 1], second[0], second[|second| - 1];
    ExchangeOutcome(world, c1, first);
    BothReachTheMaximum(p0, p1);
    InheritedFrom(world, p0.left.rows, p0.right.rows, p1.left.rows);
    InheritedFrom(world, p0.right.rows, p0.left.rows, p1.right.rows);
    ValuesWithin(world, q0.left.rows, q0.right.rows);
    ExchangeOutcome(world, c2, second);
    forall id | Disagree(p0.left.rows, p0.right.rows, id)
      ensures Exposed(p0.left.rows, p0.right.rows, q1.left, q1.right, id)
    {
      LevelForkIsExposed(q0, q1, id);
    }
    StillInherits(p0.left.rows, p0.right.rows, q0.left.rows, q0.right.rows, q1.left.rows);
    StillInherits(p0.right.rows, p0.left.rows, q0.right.rows, q0.left.rows, q1.right.rows);
    StillNoted(p0.left, p0.right, q0.left, q0.right, q1.left.quarantine);
    StillNoted(p0.right, p0.left, q0.right, q0.left, q1.right.quarantine);
  }

  lemma ValuesWithin(world: set<Record>, a: Table, b: Table)
    requires forall id :: id in a ==> a[id] in world
    requires forall id :: id in b ==> b[id] in world
    ensures a.Values + b.Values <= world
  {}

  lemma StillInherits(a0: Table, b0: Table, a1: Table, b1: Table, t: Table)
    requires Inherits(a1, a0, b0) && Inherits(b1, b0, a0) && Inherits(t, a1, b1)
    ensures Inherits(t, a0, b0)
  {}

  lemma StillNoted(a0: Side, b0: Side, a1: Side, b1: Side, quarantine: seq<Record>)
    requires Inherits(a1.rows, a0.rows, b0.rows) && Inherits(b1.rows, b0.rows, a0.rows)
    requires Noted(a0.rows, b0.rows, a0.quarantine, a1.quarantine)
    requires Noted(a1.rows, b1.rows, a1.quarantine, quarantine)
    requires forall id :: id in a1.rows ==> id in a0.rows || id in b0.rows
    ensures Noted(a0.rows, b0.rows, a0.quarantine, quarantine)
  {
    forall i | |a0.quarantine| <= i < |quarantine| ensures Conflicts(b0.rows, a0.rows, quarantine[i]) {
      if i < |a1.quarantine| {
        assert quarantine[i] == a1.quarantine[i];
      }
    }
  }

  lemma MoreInBucket(a: Table, b: Table, o: Origin, n: int, m: int, bucket: int)
    requires Prefix(a, o, n) && Prefix(b, o, m) && n < m && bucket == BucketOf(n + 1)
    ensures |Content(a, o, bucket)| < |Content(b, o, bucket)|
  {
    var x, y := Content(a, o, bucket), Content(b, o, bucket);
    ContentOfPrefix(a, o, n, bucket);
    ContentOfPrefix(b, o, m, bucket);
    assert Id(o, n + 1) in y && Id(o, n + 1) !in x;
    ProperSubsetIsSmaller(x.Keys, y.Keys);
    assert |x| == |x.Keys| && |y| == |y.Keys|;
  }

  /** Two gap-free logs of `n` and `m` records have the same positions in the bucket:
      they are level, or both have filled it. */
  predicate CoveredAlike(n: int, m: int, bucket: int) {
    n == m || ((bucket + 1) * BUCKET_SIZE <= n && (bucket + 1) * BUCKET_SIZE <= m)
  }

  lemma CoveredHaveSameKeys(a: Table, b: Table, o: Origin, n: int, m: int, bucket: int)
    requires Prefix(a, o, n) && Prefix(b, o, m) && CoveredAlike(n, m, bucket)
    ensures Content(a, o, bucket).Keys == Content(b, o, bucket).Keys
    ensures |Content(a, o, bucket)| == |Content(b, o, bucket)|
  {
    var x, y := Content(a, o, bucket), Content(b, o, bucket);
    ContentOfPrefix(a, o, n, bucket);
    ContentOfPrefix(b, o, m, bucket);
    assert x.Keys == y.Keys;
    assert |x| == |x.Keys| && |y| == |y.Keys|;
  }

  lemma UncoveredHaveMore(a: Table, b: Table, o: Origin, n: int, m: int, bucket: int)
    requires Prefix(a, o, n) && Prefix(b, o, m) && n < m && !CoveredAlike(n, m, bucket) && bucket in DigestsOf(a, o)
    ensures |Content(a, o, bucket)| < |Content(b, o, bucket)|
  {
    var id := ListedBucket(a, o, bucket);
    assert id == Id(o, id.num);
    MoreInBucket(a, b, o, n, m, bucket);
  }

  /** A bucket is taken for a fork exactly when the two logs have the same positions
      in it and disagree about one of them. */
  lemma MismatchedIff(a: Table, b: Table, o: Origin, n: int, m: int, bucket: int)
    requires Prefix(a, o, n) && Prefix(b, o, m)
    ensures Mismatched(DigestsOf(a, o), DigestsOf(b, o), bucket) <==>
              CoveredAlike(n, m, bucket) && exists s :: Disagree(a, b, Id(o, s)) && BucketOf(s) == bucket
  {
    var x, y := Content(a, o, bucket), Content(b, o, bucket);
    if CoveredAlike(n, m, bucket) {
      CoveredHaveSameKeys(a, b, o, n, m, bucket);
      if s :| Disagree(a, b, Id(o, s)) && BucketOf(s) == bucket {
        BucketListed(a, o, Id(o, s));
        BucketListed(b, o, Id(o, s));
        assert x[Id(o, s)] != y[Id(o, s)];
      } else {
        forall id | id in x ensures x[id] == y[id] {
          assert !Disagree(a, b, Id(o, id.num));
        }
        assert x == y;
      }
    } else if bucket in DigestsOf(a, o) && bucket in DigestsOf(b, o) {
      if n < m {
        UncoveredHaveMore(a, b, o, n, m, bucket);
      } else {
        UncoveredHaveMore(b, a, o, m, n, bucket);
      }
    }
  }
}
