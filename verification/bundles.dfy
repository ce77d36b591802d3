/** What a whole publication and a whole fetch achieve when nothing else writes. */
module Bundles {
  import opened Records
  import opened Sets
  import opened Store
  import opened Exchange
  import opened Keys
  import opened Bridge
  import opened Replicas
  import opened Storage

  function StartOf(k: nat): int {
    1 + k * BUNDLE_RECORDS
  }

  /** The range numbered `k`, as far as there are records for it, is in the store. */
  ghost predicate Covered(blobs: Blobs, o: Origin, have: int, k: nat) {
    StartOf(k) <= have ==> exists last :: RangeEnd(StartOf(k), have) <= last && Range(Span(o, StartOf(k), last)) in blobs
  }

  ghost predicate AllCovered(blobs: Blobs, o: Origin, have: int) {
    forall k: nat :: Covered(blobs, o, have, k)
  }

  // ---- Publishing ----

  lemma PresentIsCovered(blobs: Blobs, listing: seq<Name>, o: Origin, have: int, k: nat)
    requires Lists(listing, blobs) && StartOf(k) <= have
    ensures Present(RangesOf(listing, o), StartOf(k), have) <==> Covered(blobs, o, have, k)
  {
    var existing, first := RangesOf(listing, o), StartOf(k);
    if Present(existing, first, have) {
      RangeIsListed(listing, o, first);
      assert Range(Span(o, first, existing[first])) in blobs;
    }
    if Covered(blobs, o, have, k) {
      var last :| RangeEnd(first, have) <= last && Range(Span(o, first, last)) in blobs;
      var s := Span(o, first, last);
      assert Range(s) in listing;
      RangesAreFurthest(listing, s);
    }
  }

  /** How far a publication has come: it is at range `k`, every range before is in
      the store, and it has written exactly if one of them was not. */
  ghost predicate Progress(before: Blobs, o: Origin, have: int, p: Publication, k: nat) {
    && p.first == StartOf(k)
    && (forall j: nat :: j < k ==> Covered(p.objects, o, have, j))
    && Wrote(before, o, have, p, k)
    && (p.done ==> have < p.first)
  }

  ghost predicate Wrote(before: Blobs, o: Origin, have: int, p: Publication, k: nat) {
    && (forall name :: name in before ==> name in p.objects)
    && 0 <= p.published
    && (p.published == 0 ==> p.objects == before)
    && (0 < p.published ==> exists j: nat :: j < k && !Covered(before, o, have, j))
  }

  lemma CoveredStays(blobs: Blobs, blobs': Blobs, o: Origin, have: int, k: nat)
    requires Covered(blobs, o, have, k) && forall name :: name in blobs ==> name in blobs'
    ensures Covered(blobs', o, have, k)
  {}

  lemma UploadProgresses(before: Blobs, o: Origin, have: int, p: Publication, k: nat, recs: seq<Record>)
    requires Progress(before, o, have, p, k) && !Covered(before, o, have, k)
    requires recs != [] && RangeEnd(p.first, have) <= recs[|recs| - 1].num
    ensures Progress(before, o, have,
                     Publication(Put(p.objects, o, p.first, recs), p.first + BUNDLE_RECORDS, p.published + |recs|, false), k + 1)
  {
    var blobs' := Put(p.objects, o, p.first, recs);
    assert Range(Span(o, StartOf(k), recs[|recs| - 1].num)) in blobs';
    forall j: nat | j < k + 1 ensures Covered(blobs', o, have, j) {
      if j < k {
        CoveredStays(p.objects, blobs', o, have, j);
      }
    }
  }

  lemma WholeRangeRead(t: Table, o: Origin, have: int, first: int)
    requires Prefix(t, o, have) && WellKeyed(t) && 1 <= first <= have
    ensures var recs := Since(t, o, first - 1, BUNDLE_RECORDS);
            recs != [] && RangeEnd(first, have) <= recs[|recs| - 1].num
  {
    var recs := Since(t, o, first - 1, BUNDLE_RECORDS);
    SinceDense(t, o, have, first - 1, BUNDLE_RECORDS);
    assert recs[|recs| - 1] == t[Id(o, first + (|recs| - 1))] && Id(o, first + (|recs| - 1)) in t;
  }

  lemma TurnProgresses(t: Table, before: Blobs, listing: seq<Name>, o: Origin, have: int, p: Publication, k: nat)
    requires Prefix(t, o, have) && WellKeyed(t) && Lists(listing, before)
    requires Progress(before, o, have, p, k) && !p.done && p.first <= have
    ensures Progress(before, o, have, PublishRange(t, o, have, RangesOf(listing, o), p), k + 1)
  {
    PresentIsCovered(before, listing, o, have, k);
    if Present(RangesOf(listing, o), p.first, have) {
      CoveredStays(before, p.objects, o, have, k);
    } else {
      WholeRangeRead(t, o, have, p.first);
      UploadProgresses(before, o, have, p, k, Since(t, o, p.first - 1, BUNDLE_RECORDS));
    }
  }

  lemma {:induction false} TurnsProgress(t: Table, before: Blobs, listing: seq<Name>, o: Origin, have: int, n: nat)
    requires Prefix(t, o, have) && WellKeyed(t) && Lists(listing, before)
    ensures exists k: nat :: Progress(before, o, have, Turns(t, o, have, RangesOf(listing, o), before, n), k)
    decreases n
  {
    var p := Turns(t, o, have, RangesOf(listing, o), before, n);
    if n == 0 {
      assert Progress(before, o, have, p, 0);
    } else {
      TurnsProgress(t, before, listing, o, have, n - 1);
      var q := Turns(t, o, have, RangesOf(listing, o), before, n - 1);
      var k: nat :| Progress(before, o, have, q, k);
      if !q.done && q.first <= have {
        TurnProgresses(t, before, listing, o, have, q, k);
      } else {
        assert Progress(before, o, have, p, k);
      }
    }
  }

  /** Publishing keeps the store in order however far it got, so a failure part
      way leaves nothing a reader could trip over. */
  lemma {:induction false} PublishKeepsStore(nodes: Nodes, before: Blobs, listing: seq<Name>, o: Origin, n: nat)
    requires o in nodes && ReplicaOk(nodes, o) && BlobsOk(nodes, before) && Lists(listing, before)
    ensures var have := Watermark(nodes[o].rows, o);
            var p := Turns(nodes[o].rows, o, have, RangesOf(listing, o), before, n);
            BlobsOk(nodes, p.objects) && RangingOk(nodes, p.objects, o, have, RangesOf(listing, o), p.first)
    decreases n
  {
    hide BlobsOk, ReplicaOk, RangesOf, PublishRange, RangingOk, Watermark;
    var have, existing := Watermark(nodes[o].rows, o), RangesOf(listing, o);
    if n == 0 {
      NothingPublished(nodes, before, listing, o, have);
    } else {
      PublishKeepsStore(nodes, before, listing, o, n - 1);
      TurnKeepsStore(nodes, o, have, existing, Turns(nodes[o].rows, o, have, existing, before, n - 1));
    }
  }

  lemma NothingPublished(nodes: Nodes, before: Blobs, listing: seq<Name>, o: Origin, have: int)
    requires o in nodes && have == Watermark(nodes[o].rows, o) && Lists(listing, before)
    ensures RangingOk(nodes, before, o, have, RangesOf(listing, o), 1)
  {
    ListingKeepsPublisher(nodes, before, Counted(o, have), listing);
  }

  lemma TurnKeepsStore(nodes: Nodes, o: Origin, have: int, existing: Ranges, p: Publication)
    requires o in nodes && ReplicaOk(nodes, o) && RangingOk(nodes, p.objects, o, have, existing, p.first) && BlobsOk(nodes, p.objects)
    ensures var q := PublishRange(nodes[o].rows, o, have, existing, p);
            BlobsOk(nodes, q.objects) && RangingOk(nodes, q.objects, o, have, existing, q.first)
  {
    hide ReplicaOk, BlobsOk, RangingOk, Fills;
    TurnKeepsPublisher(nodes, p.objects, o, have, existing, p.first);
    var turn := NextTurn(nodes[o].rows, o, have, existing, p.first);
    if turn.Upload? {
      UploadKeepsStore(nodes, p.objects, o, have, existing, p.first, turn.records);
    }
  }

  lemma UploadKeepsStore(nodes: Nodes, objects: Blobs, o: Origin, have: int, existing: Ranges, first: int, recs: seq<Record>)
    requires BlobsOk(nodes, objects) && RangingOk(nodes, objects, o, have, existing, first) && Fills(nodes, o, have, first, recs)
    ensures var objects' := Put(objects, o, first, recs);
            BlobsOk(nodes, objects') && RangingOk(nodes, objects', o, have, existing, first + BUNDLE_RECORDS)
  {
    hide BlobsOk, Stretch;
    var p := Putting(o, have, existing, first, recs);
    assert PublisherOk(nodes, objects, p);
    PuttingKeepsPublisher(nodes, objects, p);
    if first != 1 { assert HasPredecessor(objects, o, first); }
    PuttingKeepsBlobs(nodes, objects, o, first, recs);
  }

  /** A publication that ran to its end leaves every range in the store, and wrote
      nothing if and only if every range was there before. */
  lemma PublishCovers(t: Table, before: Blobs, listing: seq<Name>, o: Origin, have: int, n: nat)
    requires Prefix(t, o, have) && WellKeyed(t) && Lists(listing, before)
    requires Complete(have, Turns(t, o, have, RangesOf(listing, o), before, n))
    ensures var p := Turns(t, o, have, RangesOf(listing, o), before, n);
            && AllCovered(p.objects, o, have)
            && (p.published == 0 <==> AllCovered(before, o, have))
            && (p.published == 0 ==> p.objects == before)
  {
    var p := Turns(t, o, have, RangesOf(listing, o), before, n);
    TurnsProgress(t, before, listing, o, have, n);
    var k: nat :| Progress(before, o, have, p, k);
    forall j: nat ensures Covered(p.objects, o, have, j) {
      assert k <= j ==> StartOf(k) <= StartOf(j);
    }
  }

  function Size(b: Blob): int {
    match b
    case Bundle(recs) => |recs|
    case Unreadable => 0
  }

  /** The objects that were not there before are ranges of the origin below `first`, and
      `published` is the number of records in them. */
  ghost predicate Adds(before: Blobs, o: Origin, p: Publication) {
    && (forall name :: name in before ==> name in p.objects && p.objects[name] == before[name])
    && (forall name :: name in p.objects && name !in before ==> name.Range? && name.span.origin == o && name.span.first < p.first)
    && p.published == RecordsIn(p.objects, p.objects.Keys - before.Keys)
  }

  ghost function RecordsIn(objects: Blobs, names: set<Name>): int {
    Sum(names, name => if name in objects then Size(objects[name]) else 0)
  }

  lemma PutAdds(before: Blobs, o: Origin, p: Publication, recs: seq<Record>)
    requires Adds(before, o, p) && recs != [] && Range(Span(o, p.first, recs[|recs| - 1].num)) !in before
    ensures Adds(before, o, Publication(Put(p.objects, o, p.first, recs), p.first + BUNDLE_RECORDS, p.published + |recs|, false))
  {
    var name := Range(Span(o, p.first, recs[|recs| - 1].num));
    var objects := Put(p.objects, o, p.first, recs);
    assert name !in p.objects;
    var was, now := p.objects.Keys - before.Keys, objects.Keys - before.Keys;
    assert now == was + {name} && now - {name} == was;
    hide Put, Size;
    var f := (x: Name) => if x in objects then Size(objects[x]) else 0;
    SumTakesOut(now, f, name);
    SumAgrees(was, f, x => if x in p.objects then Size(p.objects[x]) else 0);
    SumAgrees(now, f, x => if x in objects then Size(objects[x]) else 0);
  }

  /** However far a publication came, what it reports as published is the number of
      records in the objects it added, and it changed no object that was there. */
  lemma {:induction false} PublishedCountsRecords(t: Table, before: Blobs, listing: seq<Name>, o: Origin, have: int, n: nat)
    requires Prefix(t, o, have) && WellKeyed(t) && Lists(listing, before)
    ensures Adds(before, o, Turns(t, o, have, RangesOf(listing, o), before, n))
    decreases n
  {
    hide Adds, RangesOf, Put;
    if n == 0 {
      NothingAdds(before, o);
    } else {
      PublishedCountsRecords(t, before, listing, o, have, n - 1);
      TurnsProgress(t, before, listing, o, have, n - 1);
      var q := Turns(t, o, have, RangesOf(listing, o), before, n - 1);
      var k: nat :| Progress(before, o, have, q, k);
      hide Turns;
      TurnAdds(t, before, listing, o, have, q, k);
    }
  }

  lemma NothingAdds(before: Blobs, o: Origin)
    ensures Adds(before, o, Publication(before, 1, 0, false))
  {
    assert before.Keys - before.Keys == {};
  }

  lemma AddsOn(before: Blobs, o: Origin, p: Publication, q: Publication)
    requires Adds(before, o, p) && q.objects == p.objects && q.published == p.published && p.first <= q.first
    ensures Adds(before, o, q)
  {}

  lemma TurnAdds(t: Table, before: Blobs, listing: seq<Name>, o: Origin, have: int, p: Publication, k: nat)
    requires Prefix(t, o, have) && WellKeyed(t) && Lists(listing, before) && Adds(before, o, p) && Progress(before, o, have, p, k)
    ensures Adds(before, o, PublishRange(t, o, have, RangesOf(listing, o), p))
  {
    hide Adds, RangesOf, Put;
    var q := PublishRange(t, o, have, RangesOf(listing, o), p);
    var recs := Since(t, o, p.first - 1, BUNDLE_RECORDS);
    if p.done || p.first > have || Present(RangesOf(listing, o), p.first, have) || recs == [] {
      AddsOn(before, o, p, q);
    } else {
      PresentIsCovered(before, listing, o, have, k);
      WholeRangeRead(t, o, have, p.first);
      PutAdds(before, o, p, recs);
    }
  }

  /** Publishing again with no new records writes nothing. */
  lemma RepublishingIsQuiet(t: Table, before: Blobs, listing: seq<Name>, o: Origin, have: int, n: nat, again: seq<Name>, m: nat)
    requires Prefix(t, o, have) && WellKeyed(t) && Lists(listing, before)
    requires var p := Turns(t, o, have, RangesOf(listing, o), before, n);
             && Complete(have, p) && Lists(again, p.objects)
             && Complete(have, Turns(t, o, have, RangesOf(again, o), p.objects, m))
    ensures var p := Turns(t, o, have, RangesOf(listing, o), before, n);
            var q := Turns(t, o, have, RangesOf(again, o), p.objects, m);
            q.published == 0 && q.objects == p.objects
  {
    PublishCovers(t, before, listing, o, have, n);
    PublishCovers(t, Turns(t, o, have, RangesOf(listing, o), before, n).objects, again, o, have, m);
  }

  /** Some published bundle reaches the end of the log. */
  lemma CoveredReachesTheEnd(blobs: Blobs, o: Origin, have: int) returns (s: Span)
    requires AllCovered(blobs, o, have) && 0 < have
    ensures s.origin == o && have <= s.last && Range(s) in blobs
  {
    var k := (have - 1) / BUNDLE_RECORDS;
    assert StartOf(k) <= have < StartOf(k) + BUNDLE_RECORDS;
    assert Covered(blobs, o, have, k);
    var last :| RangeEnd(StartOf(k), have) <= last && Range(Span(o, StartOf(k), last)) in blobs;
    s := Span(o, StartOf(k), last);
  }

  // ---- Fetching ----

  /** The mesh once `n` holds the rows of `h`. */
  function After(nodes: Nodes, n: Origin, h: Haul): Nodes
    requires n in nodes
  {
    SetRows(nodes, n, h.rows)
  }

  /** The reader holds everything the object names. */
  ghost predicate Done(nodes: Nodes, n: Origin, name: Name)
    requires n in nodes
  {
    Concerns(nodes, n, name) ==> name.span.last <= Watermark(nodes[n].rows, name.span.origin)
  }

  /** Nothing failed, nothing was quarantined, and every row gained was fetched and counted. */
  ghost predicate Clean(r: Replica, h: Haul) {
    && !h.failed && h.forked == 0 && h.quarantine == r.quarantine
    && |h.rows| == |r.rows| + h.stored && 0 <= h.stored <= h.fetched
  }

  /** What one turn of a fetch makes of `h`: the mesh stays in order, the object is
      dealt with, and the rest of the queue still comes after what it builds on. */
  ghost predicate Takes(nodes: Nodes, blobs: Blobs, n: Origin, vector: map<Origin, int>, queue: seq<Name>, h: Haul)
    requires n in nodes && queue != []
  {
    var nodes' := After(nodes, n, h);
    && ReplicasOk(nodes') && Grows(nodes, nodes')
    && FetcherOk(nodes', blobs, Fetching(n, queue[1..], vector)) && Done(nodes', n, queue[0])
  }

  lemma TakeOne(nodes: Nodes, blobs: Blobs, n: Origin, vector: map<Origin, int>, queue: seq<Name>, r: Replica, h: Haul)
    requires n in nodes && ReplicasOk(nodes) && BlobsOk(nodes, blobs) && queue != []
    requires FetcherOk(nodes, blobs, Fetching(n, queue, vector)) && Clean(r, h)
    requires h.rows == nodes[n].rows && h.quarantine == nodes[n].quarantine
    ensures var h' := FetchOne(blobs, n, vector, h, queue[0]);
            Clean(r, h') && Takes(nodes, blobs, n, vector, queue, h')
  {
    hide ReplicasOk, BlobsOk, FetcherOk, Clean, Done, Wanted;
    var f := Fetching(n, queue, vector);
    OpeningKeepsFetcher(nodes, blobs, f);
    if Wanted(n, vector, queue[0]) && Opens(blobs, queue[0]) {
      TakeOpened(nodes, blobs, OpenedNext(blobs, f), r, h);
    } else {
      assert After(nodes, n, h) == nodes;
      HeadIsThere(nodes, blobs, f);
      StaysTheSame(nodes);
      SkippedIsDone(nodes, blobs, n, vector, queue[0]);
    }
  }

  lemma HeadIsThere(nodes: Nodes, blobs: Blobs, f: Fetcher)
    requires FetcherOk(nodes, blobs, f) && f.Fetching? && f.listing != []
    ensures f.listing[0] in blobs && VectorOk(nodes[f.node].rows, f.vector)
  {}

  lemma StaysTheSame(nodes: Nodes)
    ensures Grows(nodes, nodes)
  {}

  lemma SkippedIsDone(nodes: Nodes, blobs: Blobs, n: Origin, vector: map<Origin, int>, name: Name)
    requires n in nodes && BlobsOk(nodes, blobs) && name in blobs && VectorOk(nodes[n].rows, vector)
    requires !Wanted(n, vector, name) || !Opens(blobs, name)
    ensures Done(nodes, n, name)
  {
    if Concerns(nodes, n, name) {
      assert name == Range(name.span) && BundleOk(nodes, blobs, name.span);
    }
  }

  lemma TakeOpened(nodes: Nodes, blobs: Blobs, f: Fetcher, r: Replica, h: Haul)
    requires ReplicasOk(nodes) && FetcherOk(nodes, blobs, f) && f.Applying? && Opens(blobs, f.listing[0])
    requires f.records == blobs[f.listing[0]].records && Wanted(f.node, f.vector, f.listing[0]) && Clean(r, h)
    requires h.rows == nodes[f.node].rows && h.quarantine == nodes[f.node].quarantine
    ensures var h' := FetchOne(blobs, f.node, f.vector, h, f.listing[0]);
            Clean(r, h') && Takes(nodes, blobs, f.node, f.vector, f.listing, h')
  {
    ApplyingKeepsFetcher(nodes, blobs, f);
    AppliedIsDone(nodes, blobs, f);
    assert ReplicaOk(nodes, f.node);
    BundleCounts(blobs, f.node, f.vector, r, h, f.listing[0]);
  }

  lemma AppliedIsDone(nodes: Nodes, blobs: Blobs, f: Fetcher)
    requires ReplicasOk(nodes) && FetcherOk(nodes, blobs, f) && f.Applying?
    ensures Done(SetRows(nodes, f.node, RemoteBatch(nodes[f.node].rows, nodes[f.node].quarantine, f.records).rows), f.node, f.listing[0])
  {
    AppendKeepsReplicas(nodes, f.node, f.records);
  }

  lemma BundleCounts(blobs: Blobs, n: Origin, vector: map<Origin, int>, r: Replica, h: Haul, name: Name)
    requires Sound(h.rows) && Clean(r, h) && Wanted(n, vector, name) && Opens(blobs, name)
    requires forall q :: q in blobs[name].records ==> Addressed(q)
    requires RemoteBatch(h.rows, h.quarantine, blobs[name].records).quarantine == h.quarantine
    ensures var h' := FetchOne(blobs, n, vector, h, name);
            Clean(r, h') && h'.rows == RemoteBatch(h.rows, h.quarantine, blobs[name].records).rows
  {
    RemoteAppendMerges(h.rows, h.quarantine, blobs[name].records);
  }

  /** What holds after the first `i` objects of a listing were dealt with. */
  ghost predicate Taking(nodes: Nodes, blobs: Blobs, n: Origin, vector: map<Origin, int>, listing: seq<Name>, i: nat, h: Haul)
    requires i <= |listing| && n in nodes
  {
    && Clean(nodes[n], h)
    && ReplicasOk(After(nodes, n, h)) && Grows(nodes, After(nodes, n, h))
    && FetcherOk(After(nodes, n, h), blobs, Fetching(n, listing[i..], vector))
    && DoneUpTo(After(nodes, n, h), n, listing, i)
  }

  ghost predicate DoneUpTo(nodes: Nodes, n: Origin, listing: seq<Name>, i: nat)
    requires i <= |listing| && n in nodes
  {
    forall j :: 0 <= j < i ==> Done(nodes, n, listing[j])
  }

  lemma GrownKeys(nodes: Nodes, nodes': Nodes)
    requires Grows(nodes, nodes')
    ensures nodes'.Keys == nodes.Keys
  {}

  lemma DoneStays(nodes: Nodes, nodes': Nodes, n: Origin, listing: seq<Name>, i: nat)
    requires n in nodes && Grows(nodes, nodes') && ReplicasOk(nodes) && ReplicasOk(nodes')
    requires 0 < i <= |listing| && DoneUpTo(nodes, n, listing, i - 1) && Done(nodes', n, listing[i - 1])
    ensures DoneUpTo(nodes', n, listing, i)
  {
    hide ReplicasOk, Grows, Watermark;
    assert nodes'.Keys == nodes.Keys by { GrownKeys(nodes, nodes'); }
    forall j | 0 <= j < i - 1 && Concerns(nodes', n, listing[j])
      ensures listing[j].span.last <= Watermark(nodes'[n].rows, listing[j].span.origin)
    {
      assert Done(nodes, n, listing[j]);
      WatermarkGrows(nodes, nodes', n, listing[j].span.origin);
    }
  }

  lemma GrowthAddsUp(a: Nodes, b: Nodes, c: Nodes)
    requires Grows(a, b) && Grows(b, c)
    ensures Grows(a, c)
  {
    forall n | n in a ensures GrowsTo(a[n].rows, c[n].rows) {
      assert GrowsTo(a[n].rows, b[n].rows) && GrowsTo(b[n].rows, c[n].rows);
    }
  }

  lemma TakeNext(nodes: Nodes, blobs: Blobs, n: Origin, vector: map<Origin, int>, listing: seq<Name>, i: nat, h: Haul)
    requires n in nodes && 0 < i <= |listing| && BlobsOk(nodes, blobs) && Taking(nodes, blobs, n, vector, listing, i - 1, h)
    ensures Taking(nodes, blobs, n, vector, listing, i, FetchOne(blobs, n, vector, h, listing[i - 1]))
  {
    hide ReplicasOk, BlobsOk, FetcherOk, Grows, DoneUpTo, Takes, FetchOne;
    var mid, queue := After(nodes, n, h), listing[i - 1..];
    assert nodes.Keys == mid.Keys;
    BlobsGrow(nodes, mid, blobs);
    TakeOne(mid, blobs, n, vector, queue, nodes[n], h);
    assert queue[1..] == listing[i..];
    TakesOnTop(nodes, blobs, n, vector, listing, i, h, FetchOne(blobs, n, vector, h, queue[0]));
  }

  lemma TakesOnTop(nodes: Nodes, blobs: Blobs, n: Origin, vector: map<Origin, int>, listing: seq<Name>, i: nat, h: Haul, h': Haul)
    requires n in nodes && 0 < i <= |listing| && listing[i - 1..][1..] == listing[i..]
    requires Taking(nodes, blobs, n, vector, listing, i - 1, h) && Clean(nodes[n], h')
    requires Takes(After(nodes, n, h), blobs, n, vector, listing[i - 1..], h')
    ensures Taking(nodes, blobs, n, vector, listing, i, h')
  {
    hide ReplicasOk, FetcherOk, Grows, DoneUpTo, Done, Clean;
    assert After(After(nodes, n, h), n, h') == After(nodes, n, h');
    Onwards(nodes, After(nodes, n, h), After(nodes, n, h'), n, listing, i);
  }

  lemma Onwards(nodes: Nodes, mid: Nodes, end: Nodes, n: Origin, listing: seq<Name>, i: nat)
    requires n in nodes && Grows(nodes, mid) && Grows(mid, end) && ReplicasOk(mid) && ReplicasOk(end)
    requires 0 < i <= |listing| && DoneUpTo(mid, n, listing, i - 1) && Done(end, n, listing[i - 1])
    ensures Grows(nodes, end) && DoneUpTo(end, n, listing, i)
  {
    DoneStays(mid, end, n, listing, i);
    GrowthAddsUp(nodes, mid, end);
  }

  lemma NothingTaken(nodes: Nodes, blobs: Blobs, n: Origin, vector: map<Origin, int>, listing: seq<Name>)
    requires n in nodes && ReplicasOk(nodes) && FetcherOk(nodes, blobs, Fetching(n, listing, vector))
    ensures Taking(nodes, blobs, n, vector, listing, 0, Nothing(nodes[n].rows, nodes[n].quarantine))
  {
    hide ReplicasOk, FetcherOk;
    assert After(nodes, n, Nothing(nodes[n].rows, nodes[n].quarantine)) == nodes && listing[0..] == listing;
  }

  lemma {:induction false} FetchTakes(nodes: Nodes, blobs: Blobs, n: Origin, vector: map<Origin, int>, listing: seq<Name>, i: nat)
    requires n in nodes && BlobsOk(nodes, blobs) && i <= |listing|
    requires Taking(nodes, blobs, n, vector, listing, 0, Nothing(nodes[n].rows, nodes[n].quarantine))
    ensures Taking(nodes, blobs, n, vector, listing, i,
                   FetchAll(blobs, n, vector, listing[..i], Nothing(nodes[n].rows, nodes[n].quarantine)))
    decreases i
  {
    hide Taking, BlobsOk;
    var start := Nothing(nodes[n].rows, nodes[n].quarantine);
    if 0 < i {
      FetchTakes(nodes, blobs, n, vector, listing, i - 1);
      assert listing[..i][..i - 1] == listing[..i - 1];
      TakeNext(nodes, blobs, n, vector, listing, i, FetchAll(blobs, n, vector, listing[..i - 1], start));
    }
  }

  lemma FetchStartsInOrder(nodes: Nodes, blobs: Blobs, n: Origin, listing: seq<Name>)
    requires n in nodes && ReplicasOk(nodes) && BlobsOk(nodes, blobs) && Lists(listing, blobs)
    ensures Taking(nodes, blobs, n, Vector(nodes[n].rows, n), listing, 0, Nothing(nodes[n].rows, nodes[n].quarantine))
  {
    ListingIsInOrder(nodes, blobs, n, listing);
    forall o ensures Told(Vector(nodes[n].rows, n), o) <= Watermark(nodes[n].rows, o) {
      VectorAt(nodes[n].rows, n, o);
    }
    NothingTaken(nodes, blobs, n, Vector(nodes[n].rows, n), listing);
  }

  /** A fetch over a listing in sequence order keeps every replica gap-free after
      each object, quarantines nothing, counts every row it gained, and ends
      holding everything any readable object of the mesh names. */
  lemma FetchBringsEverything(nodes: Nodes, blobs: Blobs, n: Origin, listing: seq<Name>, i: nat)
    requires n in nodes && ReplicasOk(nodes) && BlobsOk(nodes, blobs) && Lists(listing, blobs) && i <= |listing|
    ensures var h := FetchAll(blobs, n, Vector(nodes[n].rows, n), listing[..i], Nothing(nodes[n].rows, nodes[n].quarantine));
            && Clean(nodes[n], h) && ReplicasOk(After(nodes, n, h))
            && (i == |listing| ==> forall s :: Range(s) in blobs && s.origin in nodes && s.origin != n ==> s.last <= Watermark(h.rows, s.origin))
  {
    FetchStartsInOrder(nodes, blobs, n, listing);
    FetchTakes(nodes, blobs, n, Vector(nodes[n].rows, n), listing, i);
    var h := FetchAll(blobs, n, Vector(nodes[n].rows, n), listing[..i], Nothing(nodes[n].rows, nodes[n].quarantine));
    if i == |listing| {
      NothingIsMissed(nodes, blobs, n, listing, After(nodes, n, h));
    }
  }

  lemma NothingIsMissed(nodes: Nodes, blobs: Blobs, n: Origin, listing: seq<Name>, end: Nodes)
    requires n in nodes && n in end && end.Keys == nodes.Keys && Lists(listing, blobs) && DoneUpTo(end, n, listing, |listing|)
    ensures forall s :: Range(s) in blobs && s.origin in nodes && s.origin != n ==> s.last <= Watermark(end[n].rows, s.origin)
  {
    forall s | Range(s) in blobs && s.origin in nodes && s.origin != n ensures s.last <= Watermark(end[n].rows, s.origin) {
      assert Range(s) in listing;
      var j :| 0 <= j < |listing| && listing[j] == Range(s);
      assert Done(end, n, listing[j]);
    }
  }

  /** A fetch takes an object if and only if it is a range of another origin that ends
      above what its vector says, and it opens. */
  lemma FetchTakesIff(objects: Blobs, self: Origin, vector: map<Origin, int>, h: Haul, name: Name)
    requires !h.failed
    ensures var h' := FetchOne(objects, self, vector, h, name);
            if name.Range? && name.span.origin != self && Told(vector, name.span.origin) < name.span.last
               && name in objects && objects[name].Bundle? && (forall r :: r in objects[name].records ==> r.origin != "" && 0 < r.num)
            then
              var run := RemoteBatch(h.rows, h.quarantine, objects[name].records);
              && h'.rows == run.rows && h'.quarantine == run.quarantine && !h'.failed
              && h'.fetched == h.fetched + |objects[name].records|
              && h'.stored == h.stored + run.tally.stored && h'.forked == h.forked + run.tally.forked
            else h'.(failed := false) == h
  {}

  /** Nothing in the listing is wanted, so nothing is taken. */
  lemma {:induction false} UnwantedIsLeft(blobs: Blobs, n: Origin, vector: map<Origin, int>, listing: seq<Name>, h: Haul)
    requires !h.failed && forall name :: name in listing ==> !Wanted(n, vector, name) || !Opens(blobs, name)
    ensures FetchAll(blobs, n, vector, listing, h) == h
    decreases |listing|
  {
    if listing != [] {
      var last := listing[|listing| - 1];
      assert last in listing && forall name :: name in listing[..|listing| - 1] ==> name in listing;
      UnwantedIsLeft(blobs, n, vector, listing[..|listing| - 1], h);
    }
  }

  lemma ForeignDoNotOpen(nodes: Nodes, blobs: Blobs)
    requires BlobsOk(nodes, blobs)
    ensures forall s :: Range(s) in blobs && s.origin !in nodes ==> !Opens(blobs, Range(s))
  {}

  /** Fetching again what has not changed fetches nothing and changes nothing. */
  lemma RefetchingIsQuiet(nodes: Nodes, blobs: Blobs, n: Origin, listing: seq<Name>, again: seq<Name>)
    requires n in nodes && ReplicasOk(nodes) && BlobsOk(nodes, blobs) && Lists(listing, blobs) && Lists(again, blobs)
    ensures var h := FetchAll(blobs, n, Vector(nodes[n].rows, n), listing, Nothing(nodes[n].rows, nodes[n].quarantine));
            FetchAll(blobs, n, Vector(h.rows, n), again, Nothing(h.rows, h.quarantine)) == Nothing(h.rows, h.quarantine)
  {
    hide ReplicasOk, BlobsOk, FetchAll, Clean, Vector;
    assert listing[..|listing|] == listing;
    ForeignDoNotOpen(nodes, blobs);
    FetchBringsEverything(nodes, blobs, n, listing, |listing|);
    var h := FetchAll(blobs, n, Vector(nodes[n].rows, n), listing, Nothing(nodes[n].rows, nodes[n].quarantine));
    forall name | name in again ensures !Wanted(n, Vector(h.rows, n), name) || !Opens(blobs, name) {
      if name.Range? {
        VectorAt(h.rows, n, name.span.origin);
      }
    }
    UnwantedIsLeft(blobs, n, Vector(h.rows, n), again, Nothing(h.rows, h.quarantine));
  }

  /** One node publishes, another fetches: the reader then holds all the publisher
      had of its own, and nothing else of it. */
  lemma BridgeDelivers(nodes: Nodes, before: Blobs, a: Origin, published: seq<Name>, turns: nat, b: Origin, fetched: seq<Name>)
    requires a in nodes && b in nodes && a != b && ReplicasOk(nodes) && BlobsOk(nodes, before) && Lists(published, before)
    requires var have := Watermark(nodes[a].rows, a);
             var p := Turns(nodes[a].rows, a, have, RangesOf(published, a), before, turns);
             Complete(have, p) && Lists(fetched, p.objects)
    ensures var have := Watermark(nodes[a].rows, a);
            var p := Turns(nodes[a].rows, a, have, RangesOf(published, a), before, turns);
            var h := FetchAll(p.objects, b, Vector(nodes[b].rows, b), fetched, Nothing(nodes[b].rows, nodes[b].quarantine));
            && Clean(nodes[b], h) && Watermark(h.rows, a) == have
            && SameLog(h.rows, nodes[a].rows, a)
  {
    hide FetchAll, Turns, BlobsOk, AllCovered, Clean;
    var t, have := nodes[a].rows, Watermark(nodes[a].rows, a);
    var p := Turns(t, a, have, RangesOf(published, a), before, turns);
    assert ReplicaOk(nodes, a) && Prefix(t, a, have);
    PublishCovers(t, before, published, a, have, turns);
    PublishKeepsStore(nodes, before, published, a, turns);
    assert fetched[..|fetched|] == fetched;
    FetchBringsEverything(nodes, p.objects, b, fetched, |fetched|);
    var h := FetchAll(p.objects, b, Vector(nodes[b].rows, b), fetched, Nothing(nodes[b].rows, nodes[b].quarantine));
    if 0 < have {
      var s := CoveredReachesTheEnd(p.objects, a, have);
      assert have <= Watermark(h.rows, a);
    }
    FetchedIsTheLog(After(nodes, b, h), a, b);
  }

  /** The two hold the same records of one origin, re-extractable columns aside. */
  ghost predicate SameLog(t: Table, log: Table, o: Origin) {
    forall id: Id :: id.origin == o ==>
      (id in t <==> id in log) && (id in t ==> Core(t[id]) == Core(log[id]))
  }

  lemma FetchedIsTheLog(nodes: Nodes, a: Origin, b: Origin)
    requires a in nodes && b in nodes && ReplicaOk(nodes, a) && ReplicaOk(nodes, b)
    requires Watermark(nodes[a].rows, a) <= Watermark(nodes[b].rows, a) || Watermark(nodes[a].rows, a) == 0
    ensures Watermark(nodes[b].rows, a) == Watermark(nodes[a].rows, a)
    ensures SameLog(nodes[b].rows, nodes[a].rows, a)
  {
    var mine, log := nodes[b].rows, nodes[a].rows;
    var v, w := Watermark(mine, a), Watermark(log, a);
    assert Prefix(mine, a, v) && Prefix(log, a, w) && Copies(mine, log, a);
    if 1 <= v {
      assert Id(a, v) in mine && Id(a, v) in log;
    }
    forall id: Id | id.origin == a ensures id in mine <==> id in log {
      assert id == Id(a, id.num);
    }
  }

  // ---- When a bundle is skipped ----

  /** A bundle leaves the reader gap-free if and only if it starts no later than
      the record after the reader's last. One that could not be opened is skipped
      and the ones after it are not, so an unreadable object that the reader
      needed leaves a gap for good. */
  lemma BundleKeepsPrefixIff(nodes: Nodes, n: Origin, recs: seq<Record>, o: Origin, first: int)
    requires n in nodes && o in nodes && ReplicaOk(nodes, n) && ReplicaOk(nodes, o) && StretchFrom(nodes, recs, o, first)
    ensures var t := RemoteBatch(nodes[n].rows, nodes[n].quarantine, recs).rows;
            Prefix(t, o, Watermark(t, o)) <==> first <= Watermark(nodes[n].rows, o) + 1
  {
    var held, log := nodes[n].rows, nodes[o].rows;
    var w := Watermark(held, o);
    var t := RemoteBatch(held, nodes[n].quarantine, recs).rows;
    assert Prefix(held, o, w) && Copies(held, log, o);
    StretchEnds(nodes, recs, o, first);
    StretchAppends(held, nodes[n].quarantine, log, o, first, recs);
    AppendedPrefixIff(held, log, o, w, first, first + |recs|, t);
  }

  lemma AppendedPrefixIff(t: Table, log: Table, o: Origin, w: int, from: int, upTo: int, t': Table)
    requires Prefix(t, o, w) && Appended(t, log, o, from, upTo, t') && 1 <= from < upTo
    ensures Prefix(t', o, Watermark(t', o)) <==> from <= w + 1
  {
    if from <= w + 1 {
      var w' := if w < upTo - 1 then upTo - 1 else w;
      assert Prefix(t', o, w');
      WatermarkOf(t', o, w');
    } else {
      WatermarkBounds(t', Id(o, from));
      assert Id(o, w + 1) !in t';
    }
  }
}
