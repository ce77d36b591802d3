/** What the shared store holds, and what publishing to it and fetching from it
    keep, in a mesh where anything may happen in between. */
module Storage {
  import opened Records
  import opened Sets
  import opened Store
  import opened Exchange
  import opened Keys
  import opened Bridge
  import opened Replicas

  // ---- The store in order ----

  /** The full bundle that ends just before `first`. */
  function Preceding(o: Origin, first: int): Name {
    Range(Span(o, first - BUNDLE_RECORDS, first - 1))
  }

  ghost predicate HasPredecessor(blobs: Blobs, o: Origin, first: int) {
    first == 1 || Preceding(o, first) in blobs
  }

  /** A bundle holds the stretch its key names, and the full one before it is there. */
  ghost predicate BundleOk(nodes: Nodes, blobs: Blobs, s: Span)
    requires Range(s) in blobs
  {
    && blobs[Range(s)].Bundle?
    && StretchFrom(nodes, blobs[Range(s)].records, s.origin, s.first)
    && s.last == s.first + |blobs[Range(s)].records| - 1
    && HasPredecessor(blobs, s.origin, s.first)
  }

  /** A bundle's worth of one origin's log, from `first` on. */
  ghost predicate StretchFrom(nodes: Nodes, recs: seq<Record>, o: Origin, first: int) {
    Stretch(nodes, recs) && IdOf(recs[0]) == Id(o, first) && |recs| <= BUNDLE_RECORDS
  }

  /** Objects named for an origin of another mesh do not open here. */
  ghost predicate BlobsOk(nodes: Nodes, blobs: Blobs) {
    forall s :: Range(s) in blobs ==>
      if s.origin in nodes then BundleOk(nodes, blobs, s) else blobs[Range(s)].Unreadable?
  }

  lemma StretchEnds(nodes: Nodes, recs: seq<Record>, o: Origin, first: int)
    requires StretchFrom(nodes, recs, o, first)
    ensures recs[|recs| - 1].num == first + |recs| - 1 && recs[0].origin == o && recs[0].num == first
  {
    assert IdOf(recs[|recs| - 1]) == Id(recs[0].origin, recs[0].num + (|recs| - 1));
  }

  // ---- A publisher part way ----

  datatype Publisher =
    | Counted(node: Origin, have: int)
    | Ranging(node: Origin, have: int, existing: Ranges, first: int)
    | Putting(node: Origin, have: int, existing: Ranges, first: int, records: seq<Record>)
    | Finished(node: Origin)

  ghost predicate RangingOk(nodes: Nodes, blobs: Blobs, n: Origin, have: int, existing: Ranges, first: int) {
    && n in nodes && have <= Watermark(nodes[n].rows, n) && 1 <= first
    && ExistingOk(blobs, n, existing)
    && (first <= have ==> HasPredecessor(blobs, n, first))
  }

  ghost predicate ExistingOk(blobs: Blobs, n: Origin, existing: Ranges) {
    forall f :: f in existing ==> Range(Span(n, f, existing[f])) in blobs
  }

  ghost predicate PublisherOk(nodes: Nodes, blobs: Blobs, p: Publisher) {
    match p
    case Counted(n, have) => n in nodes && have <= Watermark(nodes[n].rows, n)
    case Ranging(n, have, existing, first) => RangingOk(nodes, blobs, n, have, existing, first)
    case Putting(n, have, existing, first, recs) =>
      RangingOk(nodes, blobs, n, have, existing, first) && Fills(nodes, n, have, first, recs)
    case Finished(n) => n in nodes
  }

  function Listed(p: Publisher, listing: seq<Name>): Publisher
    requires p.Counted?
  {
    Ranging(p.node, p.have, RangesOf(listing, p.node), 1)
  }

  /** The publisher looks at its next range, and reads it if it is missing. */
  function Looked(t: Table, p: Publisher): Publisher
    requires p.Ranging?
  {
    Took(p, NextTurn(t, p.node, p.have, p.existing, p.first))
  }

  function Took(p: Publisher, turn: Turn): Publisher
    requires p.Ranging?
  {
    match turn
    case Stop => Finished(p.node)
    case Skip => Ranging(p.node, p.have, p.existing, p.first + BUNDLE_RECORDS)
    case Upload(recs) => Putting(p.node, p.have, p.existing, p.first, recs)
  }

  function Resumed(p: Publisher): Publisher
    requires p.Putting?
  {
    Ranging(p.node, p.have, p.existing, p.first + BUNDLE_RECORDS)
  }

  lemma ListingKeepsPublisher(nodes: Nodes, blobs: Blobs, p: Publisher, listing: seq<Name>)
    requires p.Counted? && PublisherOk(nodes, blobs, p) && forall name :: name in listing ==> name in blobs
    ensures PublisherOk(nodes, blobs, Listed(p, listing))
  {
    forall f | f in RangesOf(listing, p.node) ensures Range(Span(p.node, f, RangesOf(listing, p.node)[f])) in blobs {
      RangeIsListed(listing, p.node, f);
    }
  }

  lemma LookingKeepsPublisher(nodes: Nodes, blobs: Blobs, p: Publisher)
    requires p.Ranging? && BlobsOk(nodes, blobs) && PublisherOk(nodes, blobs, p) && ReplicaOk(nodes, p.node)
    ensures PublisherOk(nodes, blobs, Looked(nodes[p.node].rows, p))
  {
    var n, have, existing, first := p.node, p.have, p.existing, p.first;
    TurnKeepsPublisher(nodes, blobs, n, have, existing, first);
    TakingKeepsPublisher(nodes, blobs, p, NextTurn(nodes[n].rows, n, have, existing, first));
  }

  lemma TakingKeepsPublisher(nodes: Nodes, blobs: Blobs, p: Publisher, turn: Turn)
    requires p.Ranging? && PublisherOk(nodes, blobs, p)
    requires turn.Skip? ==> RangingOk(nodes, blobs, p.node, p.have, p.existing, p.first + BUNDLE_RECORDS)
    requires turn.Upload? ==> Fills(nodes, p.node, p.have, p.first, turn.records)
    ensures PublisherOk(nodes, blobs, Took(p, turn))
  {}

  lemma TurnKeepsPublisher(nodes: Nodes, blobs: Blobs, n: Origin, have: int, existing: Ranges, first: int)
    requires n in nodes && ReplicaOk(nodes, n) && BlobsOk(nodes, blobs) && RangingOk(nodes, blobs, n, have, existing, first)
    ensures var turn := NextTurn(nodes[n].rows, n, have, existing, first);
            && (turn.Skip? ==> RangingOk(nodes, blobs, n, have, existing, first + BUNDLE_RECORDS))
            && (turn.Upload? ==> Fills(nodes, n, have, first, turn.records))
  {
    if first <= have {
      if Present(existing, first, have) {
        SkipFollows(nodes, blobs, n, have, existing, first);
      } else {
        RangeRead(nodes, n, have, first);
      }
    }
  }

  /** What is to be put is the whole of its range, as far as there is more to publish. */
  ghost predicate Fills(nodes: Nodes, n: Origin, have: int, first: int, recs: seq<Record>) {
    && first <= have && StretchFrom(nodes, recs, n, first)
    && (first + BUNDLE_RECORDS <= have ==> |recs| == BUNDLE_RECORDS)
  }

  /** A range already there in full is what the next one builds on. */
  lemma SkipFollows(nodes: Nodes, blobs: Blobs, n: Origin, have: int, existing: Ranges, first: int)
    requires n in nodes && BlobsOk(nodes, blobs) && ExistingOk(blobs, n, existing) && Present(existing, first, have)
    ensures first + BUNDLE_RECORDS <= have ==> HasPredecessor(blobs, n, first + BUNDLE_RECORDS)
  {
    hide Stretch;
    var s := Span(n, first, existing[first]);
    assert Range(s) in blobs && BundleOk(nodes, blobs, s);
  }

  lemma RangeRead(nodes: Nodes, n: Origin, have: int, first: int)
    requires n in nodes && ReplicaOk(nodes, n) && 1 <= first <= have <= Watermark(nodes[n].rows, n)
    ensures var recs := Since(nodes[n].rows, n, first - 1, BUNDLE_RECORDS);
            recs != [] && Fills(nodes, n, have, first, recs)
  {
    hide Since, Watermark, Sound, Copies;
    var t := nodes[n].rows;
    assert Prefix(t, n, Watermark(t, n));
    SinceDense(t, n, Watermark(t, n), first - 1, BUNDLE_RECORDS);
    SinceIsStretch(nodes, n, n, first - 1, BUNDLE_RECORDS);
  }

  lemma PuttingKeepsBlobs(nodes: Nodes, blobs: Blobs, n: Origin, first: int, recs: seq<Record>)
    requires n in nodes && BlobsOk(nodes, blobs) && StretchFrom(nodes, recs, n, first) && HasPredecessor(blobs, n, first)
    ensures BlobsOk(nodes, Put(blobs, n, first, recs))
  {
    var blobs' := Put(blobs, n, first, recs);
    StretchEnds(nodes, recs, n, first);
    forall s | Range(s) in blobs' && s.origin in nodes ensures BundleOk(nodes, blobs', s) {
      assert Range(s) in blobs ==> BundleOk(nodes, blobs, s);
    }
  }

  lemma PuttingKeepsPublisher(nodes: Nodes, blobs: Blobs, p: Publisher)
    requires p.Putting? && PublisherOk(nodes, blobs, p)
    ensures PublisherOk(nodes, Put(blobs, p.node, p.first, p.records), Resumed(p))
  {
    StretchEnds(nodes, p.records, p.node, p.first);
  }

  // ---- A fetch part way ----

  datatype Fetcher =
    | Holding(node: Origin, listing: seq<Name>)
    | Fetching(node: Origin, listing: seq<Name>, vector: map<Origin, int>)
    | Applying(node: Origin, listing: seq<Name>, vector: map<Origin, int>, records: seq<Record>)

  ghost predicate Reaches(name: Name, o: Origin, num: int) {
    name.Range? && name.span.origin == o && num <= name.span.last
  }

  /** The reader has everything up to `num`, or will once it has taken `q`. */
  ghost predicate QueuedWithin(t: Table, q: seq<Name>, o: Origin, num: int) {
    num <= Watermark(t, o) || exists j :: 0 <= j < |q| && Reaches(q[j], o, num)
  }

  /** Each object still to be taken comes after what it builds on. */
  ghost predicate QueueOk(nodes: Nodes, n: Origin, listing: seq<Name>)
    requires n in nodes
  {
    forall i :: 0 <= i < |listing| && Concerns(nodes, n, listing[i]) ==> Ready(nodes[n].rows, listing[..i], listing[i].span)
  }

  /** The object is another node's bundle. */
  ghost predicate Concerns(nodes: Nodes, n: Origin, name: Name) {
    name.Range? && name.span.origin in nodes && name.span.origin != n
  }

  /** What comes before the bundle is held, or is to be taken before it. */
  ghost predicate Ready(t: Table, q: seq<Name>, s: Span) {
    QueuedWithin(t, q, s.origin, s.first - 1)
  }

  ghost predicate VectorOk(t: Table, vector: map<Origin, int>) {
    forall o :: Told(vector, o) <= Watermark(t, o)
  }

  /** The records read from the next object are the stretch its key names. */
  ghost predicate NextOk(nodes: Nodes, t: Table, listing: seq<Name>, recs: seq<Record>) {
    && listing != [] && listing[0].Range? && Stretch(nodes, recs)
    && recs[0].num - 1 <= Watermark(t, recs[0].origin)
    && recs[0].origin == listing[0].span.origin && recs[|recs| - 1].num == listing[0].span.last
  }

  ghost predicate FetcherOk(nodes: Nodes, blobs: Blobs, f: Fetcher) {
    && f.node in nodes
    && (forall name :: name in f.listing ==> name in blobs)
    && QueueOk(nodes, f.node, f.listing)
    && (!f.Holding? ==> VectorOk(nodes[f.node].rows, f.vector))
    && (f.Applying? ==> NextOk(nodes, nodes[f.node].rows, f.listing, f.records))
  }

  /** The fetch looks at its next object, and opens it if it is wanted. */
  function OpenedNext(blobs: Blobs, f: Fetcher): Fetcher
    requires f.Fetching? && f.listing != []
  {
    var name := f.listing[0];
    if Wanted(f.node, f.vector, name) && Opens(blobs, name) then Applying(f.node, f.listing, f.vector, blobs[name].records)
    else Fetching(f.node, f.listing[1..], f.vector)
  }

  function AppliedNext(f: Fetcher): Fetcher
    requires f.Applying? && f.listing != []
  {
    Fetching(f.node, f.listing[1..], f.vector)
  }

  /** A listing in sequence order is in order to be taken. */
  lemma ListingIsInOrder(nodes: Nodes, blobs: Blobs, n: Origin, listing: seq<Name>)
    requires ReplicasOk(nodes) && BlobsOk(nodes, blobs) && n in nodes && Lists(listing, blobs)
    ensures QueueOk(nodes, n, listing)
  {
    forall i | 0 <= i < |listing| && Concerns(nodes, n, listing[i])
      ensures Ready(nodes[n].rows, listing[..i], listing[i].span)
    {
      var s := listing[i].span;
      assert listing[i] in listing;
      assert BundleOk(nodes, blobs, s);
      assert ReplicaOk(nodes, n) && Prefix(nodes[n].rows, s.origin, Watermark(nodes[n].rows, s.origin));
      if s.first != 1 {
        PrecedingIsListed(blobs, listing, i);
      }
    }
  }

  lemma PrecedingIsListed(blobs: Blobs, listing: seq<Name>, i: nat)
    requires Lists(listing, blobs) && i < |listing| && listing[i].Range?
    requires Preceding(listing[i].span.origin, listing[i].span.first) in blobs
    ensures exists j :: 0 <= j < i && Reaches(listing[..i][j], listing[i].span.origin, listing[i].span.first - 1)
  {
    var s := listing[i].span;
    var before := Preceding(s.origin, s.first);
    assert before in listing;
    var j :| 0 <= j < |listing| && listing[j] == before;
    assert Precedes(before.span, s);
    assert j < i;
    assert listing[..i][j] == before;
  }

  lemma WithinAfter(t: Table, q: seq<Name>, o: Origin, num: int)
    requires q != [] && QueuedWithin(t, q, o, num)
    requires Reaches(q[0], o, num) ==> num <= Watermark(t, o)
    ensures QueuedWithin(t, q[1..], o, num)
  {
    if Watermark(t, o) < num {
      var j :| 0 <= j < |q| && Reaches(q[j], o, num);
      assert q[1..][j - 1] == q[j];
    }
  }

  /** The head of the queue has been dealt with. */
  lemma QueueAfter(nodes: Nodes, n: Origin, listing: seq<Name>)
    requires n in nodes && QueueOk(nodes, n, listing) && listing != []
    requires Concerns(nodes, n, listing[0]) ==> listing[0].span.last <= Watermark(nodes[n].rows, listing[0].span.origin)
    ensures QueueOk(nodes, n, listing[1..])
  {
    var rest := listing[1..];
    forall i | 0 <= i < |rest| && Concerns(nodes, n, rest[i])
      ensures Ready(nodes[n].rows, rest[..i], rest[i].span)
    {
      assert rest[i] == listing[i + 1];
      assert Ready(nodes[n].rows, listing[..i + 1], rest[i].span);
      WithinAfter(nodes[n].rows, listing[..i + 1], rest[i].span.origin, rest[i].span.first - 1);
      assert listing[..i + 1][1..] == rest[..i];
    }
  }

  lemma OpeningKeepsFetcher(nodes: Nodes, blobs: Blobs, f: Fetcher)
    requires BlobsOk(nodes, blobs) && FetcherOk(nodes, blobs, f) && f.Fetching? && f.listing != []
    ensures FetcherOk(nodes, blobs, OpenedNext(blobs, f))
  {
    var name := f.listing[0];
    if Wanted(f.node, f.vector, name) && Opens(blobs, name) {
      HeadOpens(nodes, blobs, f);
    } else {
      if name.Range? && name.span.origin in nodes {
        assert BundleOk(nodes, blobs, name.span);
      }
      QueueAfter(nodes, f.node, f.listing);
    }
  }

  lemma HeadOpens(nodes: Nodes, blobs: Blobs, f: Fetcher)
    requires BlobsOk(nodes, blobs) && FetcherOk(nodes, blobs, f) && f.Fetching? && f.listing != []
    requires Wanted(f.node, f.vector, f.listing[0]) && Opens(blobs, f.listing[0])
    ensures FetcherOk(nodes, blobs, OpenedNext(blobs, f))
  {
    var s := f.listing[0].span;
    assert f.listing[0] == Range(s) && s.origin in nodes && BundleOk(nodes, blobs, s);
    StretchEnds(nodes, blobs[Range(s)].records, s.origin, s.first);
    assert f.listing[..0] == [];
    assert Ready(nodes[f.node].rows, f.listing[..0], s);
  }

  lemma ApplyingKeepsFetcher(nodes: Nodes, blobs: Blobs, f: Fetcher)
    requires ReplicasOk(nodes) && FetcherOk(nodes, blobs, f) && f.Applying?
    ensures var r := nodes[f.node];
            var run := RemoteBatch(r.rows, r.quarantine, f.records);
            var nodes' := SetRows(nodes, f.node, run.rows);
            && ReplicasOk(nodes') && Grows(nodes, nodes') && run.quarantine == r.quarantine && Taken(run.rows, f.records)
            && FetcherOk(nodes', blobs, AppliedNext(f))
  {
    var r := nodes[f.node];
    var run := RemoteBatch(r.rows, r.quarantine, f.records);
    var nodes' := SetRows(nodes, f.node, run.rows);
    AppendKeepsReplicas(nodes, f.node, f.records);
    FetcherGrows(nodes, nodes', blobs, blobs, f);
    QueueAfter(nodes', f.node, f.listing);
  }

  // ---- In a mesh that grew, over a store that grew ----

  lemma BlobsGrow(nodes: Nodes, nodes': Nodes, blobs: Blobs)
    requires Grows(nodes, nodes') && BlobsOk(nodes, blobs)
    ensures BlobsOk(nodes', blobs)
  {
    forall s | Range(s) in blobs && s.origin in nodes' ensures BundleOk(nodes', blobs, s) {
      assert BundleOk(nodes, blobs, s);
      StretchGrows(nodes, nodes', blobs[Range(s)].records);
    }
  }

  lemma PublisherGrows(nodes: Nodes, nodes': Nodes, blobs: Blobs, blobs': Blobs, p: Publisher)
    requires Grows(nodes, nodes') && ReplicasOk(nodes) && ReplicasOk(nodes')
    requires PublisherOk(nodes, blobs, p) && forall name :: name in blobs ==> name in blobs'
    ensures PublisherOk(nodes', blobs', p)
  {
    WatermarkGrows(nodes, nodes', p.node, p.node);
    if p.Putting? {
      StretchGrows(nodes, nodes', p.records);
    }
  }

  lemma QueueGrows(nodes: Nodes, nodes': Nodes, n: Origin, listing: seq<Name>)
    requires nodes'.Keys == nodes.Keys && n in nodes && QueueOk(nodes, n, listing)
    requires forall o :: Watermark(nodes[n].rows, o) <= Watermark(nodes'[n].rows, o)
    ensures QueueOk(nodes', n, listing)
  {
    forall i | 0 <= i < |listing| && Concerns(nodes', n, listing[i])
      ensures Ready(nodes'[n].rows, listing[..i], listing[i].span)
    {
      assert Ready(nodes[n].rows, listing[..i], listing[i].span);
      assert Watermark(nodes[n].rows, listing[i].span.origin) <= Watermark(nodes'[n].rows, listing[i].span.origin);
    }
  }

  lemma FetcherGrows(nodes: Nodes, nodes': Nodes, blobs: Blobs, blobs': Blobs, f: Fetcher)
    requires Grows(nodes, nodes') && ReplicasOk(nodes) && ReplicasOk(nodes')
    requires FetcherOk(nodes, blobs, f) && forall name :: name in blobs ==> name in blobs'
    ensures FetcherOk(nodes', blobs', f)
  {
    forall o ensures Watermark(nodes[f.node].rows, o) <= Watermark(nodes'[f.node].rows, o) {
      WatermarkGrows(nodes, nodes', f.node, o);
    }
    if f.Applying? {
      StretchGrows(nodes, nodes', f.records);
    }
    FetcherFollows(nodes, nodes', blobs, blobs', f);
  }

  lemma FetcherFollows(nodes: Nodes, nodes': Nodes, blobs: Blobs, blobs': Blobs, f: Fetcher)
    requires nodes'.Keys == nodes.Keys && FetcherOk(nodes, blobs, f) && forall name :: name in blobs ==> name in blobs'
    requires forall o :: Watermark(nodes[f.node].rows, o) <= Watermark(nodes'[f.node].rows, o)
    requires f.Applying? ==> Stretch(nodes', f.records)
    ensures FetcherOk(nodes', blobs', f)
  {
    QueueGrows(nodes, nodes', f.node, f.listing);
  }
}
