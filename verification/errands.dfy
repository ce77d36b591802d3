/** Publications and fetches as steps that interleave with everything else the mesh
    does, and with each other. One that is never stepped again is one that failed. */
module Errands {
  import opened Records
  import opened Sets
  import opened Store
  import opened Exchange
  import opened Keys
  import opened Bridge
  import opened Replicas
  import opened Storage

  datatype Shared = Shared(blobs: Blobs, publishers: map<nat, Publisher>, fetchers: map<nat, Fetcher>)

  datatype Errand =
    | Count(job: nat, node: Origin)
    | ListRanges(job: nat, listing: seq<Name>)
    | LookAtRange(job: nat)
    | PutRange(job: nat)
    | List(job: nat, node: Origin, listing: seq<Name>)
    | ReadVector(job: nat)
    | OpenNext(job: nat)
    | ApplyNext(job: nat)

  ghost predicate CanRun(nodes: Nodes, sh: Shared, a: Errand) {
    match a
    case Count(j, n) => j !in sh.publishers && n in nodes
    case ListRanges(j, listing) => j in sh.publishers && sh.publishers[j].Counted? && Lists(listing, sh.blobs)
    case LookAtRange(j) => j in sh.publishers && sh.publishers[j].Ranging? && sh.publishers[j].node in nodes
    case PutRange(j) => j in sh.publishers && sh.publishers[j].Putting? && sh.publishers[j].records != []
    case List(j, n, listing) => j !in sh.fetchers && n in nodes && Lists(listing, sh.blobs)
    case ReadVector(j) => j in sh.fetchers && sh.fetchers[j].Holding? && sh.fetchers[j].node in nodes
    case OpenNext(j) => j in sh.fetchers && sh.fetchers[j].Fetching? && sh.fetchers[j].listing != []
    case ApplyNext(j) => j in sh.fetchers && sh.fetchers[j].Applying? && sh.fetchers[j].listing != [] && sh.fetchers[j].node in nodes
  }

  function SetPublisher(sh: Shared, j: nat, p: Publisher): Shared {
    sh.(publishers := sh.publishers[j := p])
  }

  function SetFetcher(sh: Shared, j: nat, f: Fetcher): Shared {
    sh.(fetchers := sh.fetchers[j := f])
  }

  ghost function Run(nodes: Nodes, sh: Shared, a: Errand): Shared
    requires CanRun(nodes, sh, a)
  {
    match a
    case Count(j, n) => SetPublisher(sh, j, Counted(n, Told(Vector(nodes[n].rows, n), n)))
    case ListRanges(j, listing) => SetPublisher(sh, j, Listed(sh.publishers[j], listing))
    case LookAtRange(j) => SetPublisher(sh, j, Looked(nodes[sh.publishers[j].node].rows, sh.publishers[j]))
    case PutRange(j) =>
      var p := sh.publishers[j];
      SetPublisher(sh.(blobs := Put(sh.blobs, p.node, p.first, p.records)), j, Resumed(p))
    case List(j, n, listing) => SetFetcher(sh, j, Holding(n, listing))
    case ReadVector(j) =>
      var f := sh.fetchers[j];
      SetFetcher(sh, j, Fetching(f.node, f.listing, Vector(nodes[f.node].rows, f.node)))
    case OpenNext(j) => SetFetcher(sh, j, OpenedNext(sh.blobs, sh.fetchers[j]))
    case ApplyNext(j) =>
      var f := sh.fetchers[j];
      if exists r :: r in f.records && !Addressed(r) then SetFetcher(sh, j, Fetching(f.node, [], f.vector))
      else SetFetcher(sh, j, AppliedNext(f))
  }

  /** Only a fetch applying a bundle touches an archive. */
  ghost function RunOn(nodes: Nodes, sh: Shared, a: Errand): Nodes
    requires CanRun(nodes, sh, a)
  {
    if !a.ApplyNext? || exists r :: r in sh.fetchers[a.job].records && !Addressed(r) then nodes
    else
      var f := sh.fetchers[a.job];
      var run := RemoteBatch(nodes[f.node].rows, nodes[f.node].quarantine, f.records);
      nodes[f.node := Replica(run.rows, run.quarantine)]
  }

  // ---- What every step keeps ----

  ghost predicate SharedOk(nodes: Nodes, sh: Shared) {
    && BlobsOk(nodes, sh.blobs)
    && (forall j :: j in sh.publishers ==> PublisherOk(nodes, sh.blobs, sh.publishers[j]))
    && (forall j :: j in sh.fetchers ==> FetcherOk(nodes, sh.blobs, sh.fetchers[j]))
  }

  lemma SharedGrows(nodes: Nodes, nodes': Nodes, sh: Shared)
    requires Grows(nodes, nodes') && ReplicasOk(nodes) && ReplicasOk(nodes') && SharedOk(nodes, sh)
    ensures SharedOk(nodes', sh)
  {
    hide ReplicasOk, Grows, PublisherOk, FetcherOk, BlobsOk;
    BlobsGrow(nodes, nodes', sh.blobs);
    forall j | j in sh.publishers ensures PublisherOk(nodes', sh.blobs, sh.publishers[j]) {
      PublisherGrows(nodes, nodes', sh.blobs, sh.blobs, sh.publishers[j]);
    }
    forall j | j in sh.fetchers ensures FetcherOk(nodes', sh.blobs, sh.fetchers[j]) {
      FetcherGrows(nodes, nodes', sh.blobs, sh.blobs, sh.fetchers[j]);
    }
  }

  lemma PublisherMoved(nodes: Nodes, sh: Shared, j: nat, p: Publisher)
    requires SharedOk(nodes, sh) && PublisherOk(nodes, sh.blobs, p)
    ensures SharedOk(nodes, SetPublisher(sh, j, p))
  {
    hide PublisherOk, FetcherOk, BlobsOk;
  }

  lemma FetcherMoved(nodes: Nodes, sh: Shared, j: nat, f: Fetcher)
    requires SharedOk(nodes, sh) && FetcherOk(nodes, sh.blobs, f)
    ensures SharedOk(nodes, SetFetcher(sh, j, f))
  {
    hide PublisherOk, FetcherOk, BlobsOk;
  }

  lemma PutKeepsShared(nodes: Nodes, sh: Shared, j: nat)
    requires ReplicasOk(nodes) && SharedOk(nodes, sh) && CanRun(nodes, sh, PutRange(j))
    ensures SharedOk(nodes, Run(nodes, sh, PutRange(j)))
  {
    var p := sh.publishers[j];
    assert PublisherOk(nodes, sh.blobs, p);
    PuttingKeepsBlobs(nodes, sh.blobs, p.node, p.first, p.records);
    PuttingKeepsPublisher(nodes, sh.blobs, p);
    BlobsAdded(nodes, sh, Put(sh.blobs, p.node, p.first, p.records));
    PublisherMoved(nodes, sh.(blobs := Put(sh.blobs, p.node, p.first, p.records)), j, Resumed(p));
  }

  lemma BlobsAdded(nodes: Nodes, sh: Shared, blobs': Blobs)
    requires ReplicasOk(nodes) && SharedOk(nodes, sh) && BlobsOk(nodes, blobs') && forall name :: name in sh.blobs ==> name in blobs'
    ensures SharedOk(nodes, sh.(blobs := blobs'))
  {
    hide ReplicasOk, PublisherOk, FetcherOk, BlobsOk;
    assert Grows(nodes, nodes);
    forall j | j in sh.publishers ensures PublisherOk(nodes, blobs', sh.publishers[j]) {
      PublisherGrows(nodes, nodes, sh.blobs, blobs', sh.publishers[j]);
    }
    forall j | j in sh.fetchers ensures FetcherOk(nodes, blobs', sh.fetchers[j]) {
      FetcherGrows(nodes, nodes, sh.blobs, blobs', sh.fetchers[j]);
    }
  }

  lemma ApplyKeepsShared(nodes: Nodes, sh: Shared, j: nat)
    requires ReplicasOk(nodes) && SharedOk(nodes, sh) && CanRun(nodes, sh, ApplyNext(j))
    ensures var nodes' := RunOn(nodes, sh, ApplyNext(j));
            ReplicasOk(nodes') && Grows(nodes, nodes') && SharedOk(nodes', Run(nodes, sh, ApplyNext(j)))
  {
    hide ReplicasOk, Grows, SharedOk, FetcherOk, NextOk;
    var f := sh.fetchers[j];
    assert FetcherOk(nodes, sh.blobs, f) by { FetcherIsOk(nodes, sh, j); }
    ApplyingKeepsFetcher(nodes, sh.blobs, f);
    var run := RemoteBatch(nodes[f.node].rows, nodes[f.node].quarantine, f.records);
    var nodes' := SetRows(nodes, f.node, run.rows);
    assert forall r :: r in f.records ==> Addressed(r);
    assert RunOn(nodes, sh, ApplyNext(j)) == nodes';
    SharedGrows(nodes, nodes', sh);
    FetcherMoved(nodes', sh, j, AppliedNext(f));
  }

  lemma FetcherIsOk(nodes: Nodes, sh: Shared, j: nat)
    requires SharedOk(nodes, sh) && j in sh.fetchers
    ensures FetcherOk(nodes, sh.blobs, sh.fetchers[j])
  {}

  lemma PublisherIsOk(nodes: Nodes, sh: Shared, j: nat)
    requires SharedOk(nodes, sh) && j in sh.publishers
    ensures PublisherOk(nodes, sh.blobs, sh.publishers[j]) && BlobsOk(nodes, sh.blobs)
  {}

  lemma FetchStepKeepsShared(nodes: Nodes, sh: Shared, a: Errand)
    requires ReplicasOk(nodes) && SharedOk(nodes, sh) && CanRun(nodes, sh, a) && (a.List? || a.ReadVector? || a.OpenNext?)
    ensures SharedOk(nodes, Run(nodes, sh, a))
  {
    hide ReplicasOk, SharedOk, BlobsOk;
    assert BlobsOk(nodes, sh.blobs) by { BlobsAreOk(nodes, sh); }
    match a
    case List(j, n, listing) =>
      ListingIsInOrder(nodes, sh.blobs, n, listing);
      FetcherMoved(nodes, sh, j, Holding(n, listing));
    case ReadVector(j) =>
      FetcherIsOk(nodes, sh, j);
      var f := sh.fetchers[j];
      forall o ensures Told(Vector(nodes[f.node].rows, f.node), o) <= Watermark(nodes[f.node].rows, o) {
        VectorAt(nodes[f.node].rows, f.node, o);
      }
      FetcherMoved(nodes, sh, j, Fetching(f.node, f.listing, Vector(nodes[f.node].rows, f.node)));
    case OpenNext(j) =>
      FetcherIsOk(nodes, sh, j);
      OpeningKeepsFetcher(nodes, sh.blobs, sh.fetchers[j]);
      FetcherMoved(nodes, sh, j, OpenedNext(sh.blobs, sh.fetchers[j]));
  }

  lemma BlobsAreOk(nodes: Nodes, sh: Shared)
    requires SharedOk(nodes, sh)
    ensures BlobsOk(nodes, sh.blobs)
  {}

  lemma PublishStepKeepsShared(nodes: Nodes, sh: Shared, a: Errand)
    requires ReplicasOk(nodes) && SharedOk(nodes, sh) && CanRun(nodes, sh, a) && (a.Count? || a.ListRanges? || a.LookAtRange?)
    ensures SharedOk(nodes, Run(nodes, sh, a))
  {
    hide SharedOk, BlobsOk;
    match a
    case Count(j, n) =>
      VectorAt(nodes[n].rows, n, n);
      PublisherMoved(nodes, sh, j, Counted(n, Told(Vector(nodes[n].rows, n), n)));
    case ListRanges(j, listing) =>
      PublisherIsOk(nodes, sh, j);
      ListingKeepsPublisher(nodes, sh.blobs, sh.publishers[j], listing);
      PublisherMoved(nodes, sh, j, Listed(sh.publishers[j], listing));
    case LookAtRange(j) =>
      PublisherIsOk(nodes, sh, j);
      assert ReplicaOk(nodes, sh.publishers[j].node);
      LookingKeepsPublisher(nodes, sh.blobs, sh.publishers[j]);
      PublisherMoved(nodes, sh, j, Looked(nodes[sh.publishers[j].node].rows, sh.publishers[j]));
  }

  /** Whatever a publication or a fetch does next, the mesh and the store stay in order. */
  lemma ErrandKeepsOrder(nodes: Nodes, sh: Shared, a: Errand)
    requires ReplicasOk(nodes) && SharedOk(nodes, sh) && CanRun(nodes, sh, a)
    ensures var nodes' := RunOn(nodes, sh, a);
            ReplicasOk(nodes') && Grows(nodes, nodes') && SharedOk(nodes', Run(nodes, sh, a))
  {
    hide ReplicasOk, SharedOk;
    match a
    case Count(_, _) => PublishStepKeepsShared(nodes, sh, a);
    case ListRanges(_, _) => PublishStepKeepsShared(nodes, sh, a);
    case LookAtRange(_) => PublishStepKeepsShared(nodes, sh, a);
    case PutRange(j) => PutKeepsShared(nodes, sh, j);
    case List(_, _, _) => FetchStepKeepsShared(nodes, sh, a);
    case ReadVector(_) => FetchStepKeepsShared(nodes, sh, a);
    case OpenNext(_) => FetchStepKeepsShared(nodes, sh, a);
    case ApplyNext(j) => ApplyKeepsShared(nodes, sh, j);
  }
}
