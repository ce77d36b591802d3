/** Content digests per bucket of sequence numbers, and where they tell a sender
    to start.

    A digest is a SHA-256 over the bucket's "sequence:hash" lines in sequence
    order, printed after the number of lines. SHA-256 is taken to be injective,
    so a digest is modelled by what it was fed: a finite map from position to
    content hash, which fixes the ordered list of lines, and its size. */
module Digests {
  import opened Records
  import opened Sets

  const BUCKET_SIZE := 1000

  datatype Digest = Digest(count: int, content: map<Id, string>)

  type Buckets = map<int, Digest>

  function BucketOf(num: int): int {
    (num - 1) / BUCKET_SIZE
  }

  /** One bucket's sequences and content hashes. */
  function Content(t: Table, origin: Origin, bucket: int): map<Id, string> {
    map id | id in t && id.origin == origin && BucketOf(id.num) == bucket :: t[id].line.hash
  }

  function DigestsOf(t: Table, origin: Origin): Buckets {
    map b | b in (set id | id in t && id.origin == origin :: BucketOf(id.num)) ::
      Digest(|Content(t, origin, b)|, Content(t, origin, b))
  }

  lemma BucketListed(t: Table, origin: Origin, id: Id)
    requires id in t && id.origin == origin
    ensures BucketOf(id.num) in DigestsOf(t, origin)
  {}

  lemma ListedBucket(t: Table, origin: Origin, bucket: int) returns (id: Id)
    requires bucket in DigestsOf(t, origin)
    ensures id in t && id.origin == origin && BucketOf(id.num) == bucket
  {
    id :| id in t && id.origin == origin && BucketOf(id.num) == bucket;
  }

  lemma ContentOfPrefix(t: Table, origin: Origin, n: int, bucket: int)
    requires Prefix(t, origin, n)
    ensures forall id :: id in Content(t, origin, bucket) <==> id.origin == origin && 1 <= id.num <= n && BucketOf(id.num) == bucket
  {
    forall id ensures id in Content(t, origin, bucket) <==> id.origin == origin && 1 <= id.num <= n && BucketOf(id.num) == bucket {
      assert id == Id(id.origin, id.num);
    }
  }

  /** What the hash of one bucket has been fed after a run of rows. */
  ghost function Fed(rows: seq<Record>, bucket: int): map<Id, string> {
    if rows == [] then map[]
    else
      var r := rows[|rows| - 1];
      var before := Fed(rows[..|rows| - 1], bucket);
      if BucketOf(r.num) == bucket then before[IdOf(r) := r.line.hash] else before
  }

  lemma {:induction false} FedOnlyRows(rows: seq<Record>, bucket: int, id: Id)
    requires id in Fed(rows, bucket)
    ensures BucketOf(id.num) == bucket && exists r :: r in rows && IdOf(r) == id
    decreases |rows|
  {
    var before, last := rows[..|rows| - 1], rows[|rows| - 1];
    if id == IdOf(last) && BucketOf(last.num) == bucket {
      assert last in rows;
    } else {
      FedOnlyRows(before, bucket, id);
      var r :| r in before && IdOf(r) == id;
      assert r in rows;
    }
  }

  lemma {:induction false} FedEachRow(rows: seq<Record>, bucket: int, i: nat)
    requires i < |rows| && BucketOf(rows[i].num) == bucket
    requires forall j :: i < j < |rows| ==> rows[i].num < rows[j].num
    ensures IdOf(rows[i]) in Fed(rows, bucket) && Fed(rows, bucket)[IdOf(rows[i])] == rows[i].line.hash
    decreases |rows|
  {
    if i < |rows| - 1 {
      FedEachRow(rows[..|rows| - 1], bucket, i);
    }
  }

  /** Feeding an origin's rows in order leaves each bucket with its content. */
  lemma FedAll(t: Table, origin: Origin, bucket: int)
    requires WellKeyed(t)
    ensures Fed(Ascending(t, origin, 0), bucket) == Content(t, origin, bucket)
  {
    hide Fed, Ascending;
    var rows := Ascending(t, origin, 0);
    AscendingLists(t, origin, 0);
    forall id | id in Content(t, origin, bucket)
      ensures id in Fed(rows, bucket) && Fed(rows, bucket)[id] == t[id].line.hash
    {
      assert Id(origin, id.num) == id;
      var i :| 0 <= i < |rows| && rows[i] == t[id];
      FedEachRow(rows, bucket, i);
    }
    forall id | id in Fed(rows, bucket) ensures id in Content(t, origin, bucket) {
      FedOnlyRows(rows, bucket, id);
    }
  }

  // ---- Comparing two sides ----

  /** Both sides hold the same number of records in the bucket, and not the same ones. */
  predicate Mismatched(mine: Buckets, theirs: Buckets, bucket: int) {
    bucket in mine && bucket in theirs && theirs[bucket] != mine[bucket] && mine[bucket].count == theirs[bucket].count
  }

  /** `firstMismatch`: the sequence before the lowest mismatched bucket, or -1. */
  function FirstMismatch(mine: Buckets, theirs: Buckets): int {
    var bad := set b | b in mine && Mismatched(mine, theirs, b);
    if bad == {} then -1 else Min(bad) * BUCKET_SIZE
  }

  /** `resendFrom`: the sequence to send from, or -1 to send nothing. */
  function ResendFrom(have: int, peerSeq: int, mine: Buckets, theirs: Buckets): int {
    var from := FirstMismatch(mine, theirs);
    if peerSeq < have then
      if 0 <= from < peerSeq then from else peerSeq
    else if 0 <= from then from
    else -1
  }

  ghost predicate StartsLowest(mine: Buckets, theirs: Buckets, seen: set<int>, b: int, start: int) {
    b in seen && Mismatched(mine, theirs, b) && start == b * BUCKET_SIZE &&
    forall c :: c in seen && Mismatched(mine, theirs, c) ==> b <= c
  }

  /** The loop visits the buckets in any order, as ranging over a map does. */
  method FindFirstMismatch(mine: Buckets, theirs: Buckets) returns (found: int)
    requires forall b :: b in mine ==> 0 <= b
    ensures found == FirstMismatch(mine, theirs)
  {
    found := -1;
    var left := mine.Keys;
    ghost var seen: set<int> := {};
    while left != {}
      invariant mine.Keys == left + seen
      invariant found == -1 ==> forall b :: b in seen ==> !Mismatched(mine, theirs, b)
      invariant found != -1 ==> 0 <= found && exists b :: StartsLowest(mine, theirs, seen, b, found)
      decreases |left|
    {
      var bucket := Take(left);
      ghost var lowest := 0;
      if found != -1 {
        lowest :| StartsLowest(mine, theirs, seen, lowest, found);
      }
      left, seen := left - {bucket}, seen + {bucket};
      assert !Mismatched(mine, theirs, bucket) && found != -1 ==> StartsLowest(mine, theirs, seen, lowest, found);
      if bucket !in theirs || theirs[bucket] == mine[bucket] {
        continue;
      }
      if mine[bucket].count != theirs[bucket].count {
        continue;
      }
      var start := bucket * BUCKET_SIZE;
      if found < 0 || start < found {
        found := start;
        assert StartsLowest(mine, theirs, seen, bucket, found);
      } else {
        assert StartsLowest(mine, theirs, seen, lowest, found);
      }
    }
    var bad := set b | b in mine && Mismatched(mine, theirs, b);
    if found != -1 {
      ghost var b :| StartsLowest(mine, theirs, seen, b, found);
      assert b in bad;
    }
  }

  /** Over the same sequences, a disagreement mismatches its bucket. */
  lemma DisagreementMismatches(a: Table, b: Table, origin: Origin, n: int, s: int)
    requires Prefix(a, origin, n) && Prefix(b, origin, n) && 1 <= s <= n
    requires a[Id(origin, s)].line.hash != b[Id(origin, s)].line.hash
    ensures Mismatched(DigestsOf(a, origin), DigestsOf(b, origin), BucketOf(s))
  {
    var id, bucket := Id(origin, s), BucketOf(s);
    BucketListed(a, origin, id);
    BucketListed(b, origin, id);
    var x, y := Content(a, origin, bucket), Content(b, origin, bucket);
    forall k ensures k in x <==> k in y {
      assert k == Id(k.origin, k.num);
    }
    assert x.Keys == y.Keys;
    assert |x| == |x.Keys| && |y| == |y.Keys|;
    assert x[id] != y[id];
  }

  /** The mismatch found lies before every position where the two sides, holding
      the same sequences, disagree. */
  lemma MismatchCovers(a: Table, b: Table, origin: Origin, n: int, s: int)
    requires Prefix(a, origin, n) && Prefix(b, origin, n) && 1 <= s <= n
    requires a[Id(origin, s)].line.hash != b[Id(origin, s)].line.hash
    ensures 0 <= FirstMismatch(DigestsOf(a, origin), DigestsOf(b, origin)) < s
  {
    DisagreementMismatches(a, b, origin, n, s);
    forall k | k in DigestsOf(a, origin) ensures 0 <= k {
      var id := ListedBucket(a, origin, k);
      assert id == Id(origin, id.num);
    }
    FirstMismatchIsLowest(DigestsOf(a, origin), DigestsOf(b, origin), BucketOf(s));
  }

  lemma FirstMismatchIsLowest(mine: Buckets, theirs: Buckets, bucket: int)
    requires Mismatched(mine, theirs, bucket)
    requires forall k :: k in mine ==> 0 <= k
    ensures 0 <= FirstMismatch(mine, theirs) <= bucket * BUCKET_SIZE
  {
    var bad := set k | k in mine && Mismatched(mine, theirs, k);
    assert bucket in bad;
  }

  /** A digest of some leading stretch of a log, which is all an honest replica
      of it can ever announce. */
  ghost predicate OfLog(log: Table, origin: Origin, bucket: int, d: Digest, upTo: int) {
    && d.count == |d.content|
    && (forall id :: id in d.content <==> id.origin == origin && 1 <= id.num <= upTo && BucketOf(id.num) == bucket)
    && (forall id :: id in d.content ==> id in log && log[id].line.hash == d.content[id])
  }

  /** Two digests of the same log that count the same records are the same
      digest, whenever each was taken. */
  lemma SameLogSameDigest(log: Table, origin: Origin, bucket: int, x: Digest, y: Digest, n: int, m: int)
    requires OfLog(log, origin, bucket, x, n) && OfLog(log, origin, bucket, y, m)
    requires x.count == y.count
    ensures x == y
  {
    if n <= m {
      SameSizeSubset(x.content, y.content);
    } else {
      SameSizeSubset(y.content, x.content);
    }
    assert x.content == y.content;
  }

  lemma SameSizeSubset(a: map<Id, string>, b: map<Id, string>)
    requires |a| == |b|
    requires forall k :: k in a ==> k in b
    ensures forall k :: k in b ==> k in a
  {
    assert |a| == |a.Keys| && |b| == |b.Keys|;
    assert b.Keys == a.Keys + (b.Keys - a.Keys);
  }

  /** A gap-free replica of a log announces digests of it. */
  lemma DigestsOfReplica(t: Table, log: Table, origin: Origin, n: int, bucket: int)
    requires Prefix(t, origin, n) && bucket in DigestsOf(t, origin)
    requires forall id :: id in t && id.origin == origin ==> id in log && log[id].line.hash == t[id].line.hash
    ensures OfLog(log, origin, bucket, DigestsOf(t, origin)[bucket], n)
  {
    ContentOfPrefix(t, origin, n, bucket);
  }

  /** Digests of one log never mismatch, so the watermark alone decides. */
  lemma {:induction false} NoMismatch(log: Table, origin: Origin, mine: Buckets, theirs: Buckets)
    requires forall b :: b in mine ==> exists n :: OfLog(log, origin, b, mine[b], n)
    requires forall b :: b in theirs ==> exists n :: OfLog(log, origin, b, theirs[b], n)
    ensures FirstMismatch(mine, theirs) == -1
  {
    forall b ensures !Mismatched(mine, theirs, b) {
      if b in mine && b in theirs && mine[b].count == theirs[b].count {
        var n :| OfLog(log, origin, b, mine[b], n);
        var m :| OfLog(log, origin, b, theirs[b], m);
        SameLogSameDigest(log, origin, b, mine[b], theirs[b], n, m);
      }
    }
  }
}
