/** The mesh as one step system: any number of nodes, each collecting,
    re-extracting, publishing, fetching and talking to any others at once, over
    connections that may drop anywhere. */
module Network {
  import opened Records
  import opened Sets
  import opened Digests
  import opened Store
  import opened Exchange
  import opened Replicas
  import opened Sessions
  import opened Bridge
  import opened Errands

  /** One end of one connection. The other end is the same session's other side. */
  datatype Handle = Handle(session: nat, dialled: bool)

  function Peer(h: Handle): Handle {
    h.(dialled := !h.dialled)
  }

  datatype Party = Party(node: Origin, end: End)

  datatype Network = Network(nodes: Nodes, parties: map<Handle, Party>, shared: Shared)

  /** Who reads what `h` writes. */
  function Reader(net: Network, h: Handle): Option<Origin> {
    if Peer(h) in net.parties then Some(net.parties[Peer(h)].node) else None
  }

  // ---- Steps ----

  function SetEnd(net: Network, h: Handle, e: End): Network
    requires h in net.parties
  {
    net.(parties := net.parties[h := net.parties[h].(end := e)])
  }

  datatype Action =
    | Collect(node: Origin, lines: seq<Record>)
    | Reextract(node: Origin, rewritten: Table)
    | Connect(h: Handle, node: Origin)
    | Send(h: Handle, next: End)
    | Read(h: Handle)
    | Hangup(h: Handle, delivered: nat)
    | Abandon(h: Handle)
    | Perform(errand: Errand)

  ghost predicate Enabled(net: Network, a: Action) {
    match a
    case Collect(n, _) => n in net.nodes
    case Reextract(n, t) => n in net.nodes && Alike(net.nodes[n].rows, t)
    case Connect(h, n) => h !in net.parties && n in net.nodes
    case Send(h, next) => h in net.parties && SenderStep(Rows(net.nodes, net.parties[h].node), net.parties[h].end, next)
    case Read(h) =>
      && h in net.parties && Peer(h) in net.parties && net.parties[h].node in net.nodes
      && net.parties[h].end.reading && net.parties[Peer(h)].end.outbox != []
    case Hangup(h, delivered) => h in net.parties && delivered <= |net.parties[h].end.outbox|
    case Abandon(h) => h in net.parties
    case Perform(errand) => CanRun(net.nodes, net.shared, errand)
  }

  function SideOf(net: Network, h: Handle): Side
    requires h in net.parties && net.parties[h].node in net.nodes
  {
    var p := net.parties[h];
    Side(p.node, net.nodes[p.node].rows, net.nodes[p.node].quarantine, p.end)
  }

  /** `Hangup`: whatever the peer had not been handed yet is gone, and nothing more
      is written. `Abandon`: the reader stops. */
  ghost function Apply(net: Network, a: Action): Network
    requires Enabled(net, a)
  {
    match a
    case Collect(n, lines) => net.(nodes := SetRows(net.nodes, n, LocalBatch(net.nodes[n].rows, n, lines).rows))
    case Reextract(n, t) => net.(nodes := SetRows(net.nodes, n, t))
    case Connect(h, n) => net.(parties := net.parties[h := Party(n, Opened(net.nodes[n].rows, n))])
    case Send(h, next) => SetEnd(net, h, next)
    case Read(h) =>
      var n, out := net.parties[h].node, net.parties[Peer(h)].end.outbox;
      var s := Receive(SideOf(net, h), out[0]);
      var popped := SetEnd(net, Peer(h), net.parties[Peer(h)].end.(outbox := out[1..]));
      SetEnd(popped.(nodes := popped.nodes[n := Replica(s.rows, s.quarantine)]), h, s.end)
    case Hangup(h, delivered) =>
      var e := net.parties[h].end;
      SetEnd(net, h, e.(outbox := e.outbox[..delivered], sender := Closed))
    case Abandon(h) => SetEnd(net, h, net.parties[h].end.(reading := false))
    case Perform(errand) =>
      net.(nodes := RunOn(net.nodes, net.shared, errand), shared := Run(net.nodes, net.shared, errand))
  }

  ghost predicate NetStep(net: Network, net': Network) {
    exists a :: Enabled(net, a) && net' == Apply(net, a)
  }

  /** Nothing collected, nobody connected, and nothing in the store but what other
      meshes and people put there. */
  ghost predicate Initial(net: Network) {
    && net.parties == map[] && net.shared.publishers == map[] && net.shared.fetchers == map[]
    && (forall s :: Range(s) in net.shared.blobs ==> s.origin !in net.nodes && net.shared.blobs[Range(s)].Unreadable?)
    && forall n :: n in net.nodes ==> n != "" && net.nodes[n] == Replica(map[], [])
  }

  ghost predicate IsHistory(run: seq<Network>) {
    run != [] && Initial(run[0]) && forall i :: 0 <= i < |run| - 1 ==> NetStep(run[i], run[i + 1])
  }

  // ---- What every reachable state satisfies ----

  ghost predicate PartyOk(net: Network, h: Handle)
    requires h in net.parties
  {
    EndOk(net.nodes, net.parties[h].node, Reader(net, h), net.parties[h].end)
  }

  ghost predicate Inv(net: Network) {
    && ReplicasOk(net.nodes) && SharedOk(net.nodes, net.shared)
    && forall h :: h in net.parties ==> PartyOk(net, h)
  }

  /** The archives grew and the store moved on; no connection did. */
  lemma ReplicasGrew(net: Network, nodes': Nodes, shared': Shared)
    requires Inv(net) && ReplicasOk(nodes') && Grows(net.nodes, nodes') && SharedOk(nodes', shared')
    ensures Inv(net.(nodes := nodes', shared := shared'))
  {
    hide ReplicasOk, SharedOk, Grows, EndOk;
    var net' := net.(nodes := nodes', shared := shared');
    forall h | h in net'.parties ensures PartyOk(net', h) {
      assert PartyOk(net, h) && Reader(net', h) == Reader(net, h);
      EndGrows(net.nodes, nodes', net.parties[h].node, Reader(net, h), net.parties[h].end);
    }
  }

  lemma ArchiveGrew(net: Network, nodes': Nodes)
    requires Inv(net) && ReplicasOk(nodes') && Grows(net.nodes, nodes')
    ensures Inv(net.(nodes := nodes'))
  {
    hide ReplicasOk, SharedOk, Grows, EndOk;
    SharedGrows(net.nodes, nodes', net.shared);
    ReplicasGrew(net, nodes', net.shared);
  }

  // ---- Connecting ----

  lemma ConnectKeepsInv(net: Network, h: Handle, n: Origin)
    requires Inv(net) && h !in net.parties && n in net.nodes
    ensures Inv(net.(parties := net.parties[h := Party(n, Opened(net.nodes[n].rows, n))]))
  {
    var e := Opened(net.nodes[n].rows, n);
    var net' := net.(parties := net.parties[h := Party(n, e)]);
    forall k | k in net'.parties ensures PartyOk(net', k) {
      if k == h {
        assert Peer(h) in net.parties ==> PartyOk(net, Peer(h));
        OpenedKeepsEnd(net.nodes, n, Reader(net', h));
      } else {
        EarlierParty(net, net', h, k);
      }
    }
  }

  lemma EarlierParty(net: Network, net': Network, h: Handle, k: Handle)
    requires h !in net.parties && h in net'.parties && net'.nodes == net.nodes && net'.parties == net.parties[h := net'.parties[h]]
    requires k in net.parties && PartyOk(net, k) && net'.parties[h].node in net.nodes
    ensures PartyOk(net', k)
  {
    if Peer(k) == h {
      ReaderArrives(net.nodes, net.parties[k].node, net'.parties[h].node, net.parties[k].end);
    }
  }

  /** One party's own end moves; nothing else does. */
  lemma EndMoved(net: Network, h: Handle, e: End)
    requires Inv(net) && h in net.parties
    requires EndOk(net.nodes, net.parties[h].node, Reader(net, h), e)
    ensures Inv(SetEnd(net, h, e))
  {
    hide ReplicasOk, SharedOk, EndOk;
    var net' := SetEnd(net, h, e);
    forall k | k in net'.parties ensures PartyOk(net', k) {
      assert PartyOk(net, k) && Reader(net', k) == Reader(net, k);
    }
  }

  /** What `h` is about to read. */
  function Head(net: Network, h: Handle): Frame
    requires Peer(h) in net.parties && net.parties[Peer(h)].end.outbox != []
  {
    net.parties[Peer(h)].end.outbox[0]
  }

  lemma HeadIsOk(net: Network, h: Handle)
    requires Inv(net) && Enabled(net, Read(h))
    ensures FrameOk(net.nodes, net.parties[Peer(h)].node, Some(net.parties[h].node), [], Head(net, h))
  {
    var s := Peer(h);
    var outbox := net.parties[s].end.outbox;
    assert Peer(s) == h && PartyOk(net, s);
    assert OutboxOk(net.nodes, net.parties[s].node, Reader(net, s), outbox);
    assert outbox[..0] == [];
  }

  /** Reading a batch: every record of it is taken, in a mesh that only grew. */
  lemma RecordsTaken(net: Network, h: Handle)
    requires Inv(net) && Enabled(net, Read(h)) && Head(net, h).RecordsFrame?
    ensures var recs, n := Head(net, h).records, net.parties[h].node;
            var run := RemoteBatch(net.nodes[n].rows, net.nodes[n].quarantine, recs);
            && recs != []
            && ReplicasOk(SetRows(net.nodes, n, run.rows)) && Grows(net.nodes, SetRows(net.nodes, n, run.rows))
            && run.quarantine == net.nodes[n].quarantine
            && recs[|recs| - 1].num <= Watermark(run.rows, recs[0].origin)
            && Taken(run.rows, recs)
  {
    HeadIsOk(net, h);
    AppendKeepsReplicas(net.nodes, net.parties[h].node, Head(net, h).records);
  }

  /** The archives after `h` read, and the peer's queue without the frame. */
  ghost function Popped(net: Network, h: Handle): Network
    requires Enabled(net, Read(h))
  {
    var s, n := Peer(h), net.parties[h].node;
    var after := Receive(SideOf(net, h), Head(net, h));
    SetEnd(net.(nodes := net.nodes[n := Replica(after.rows, after.quarantine)]), s,
           net.parties[s].end.(outbox := net.parties[s].end.outbox[1..]))
  }

  /** What reading did to the archives: they are in order, they only grew, and the
      reader heeded the frame. */
  ghost predicate ReadWell(net: Network, h: Handle)
    requires Enabled(net, Read(h))
  {
    var n, nodes' := net.parties[h].node, Popped(net, h).nodes;
    && ReplicasOk(nodes') && Grows(net.nodes, nodes') && Heeded(nodes', Some(n), Head(net, h))
    && (Head(net, h).RecordsFrame? ==> Taken(nodes'[n].rows, Head(net, h).records))
  }

  lemma ReadAppends(net: Network, h: Handle)
    requires Inv(net) && Enabled(net, Read(h))
    ensures ReadWell(net, h)
  {
    hide ReplicasOk, SharedOk, EndOk, Stretch;
    var n := net.parties[h].node;
    if Head(net, h).RecordsFrame? {
      RecordsTaken(net, h);
      ReceivedBatch(SideOf(net, h), Head(net, h).records);
    } else {
      assert Popped(net, h).nodes == net.nodes;
    }
  }

  lemma PoppedKeepsInv(net: Network, h: Handle)
    requires Inv(net) && Enabled(net, Read(h))
    ensures Inv(Popped(net, h))
  {
    hide ReplicasOk, SharedOk, Grows, EndOk;
    var s, nodes' := Peer(h), Popped(net, h).nodes;
    ReadAppends(net, h);
    ArchiveGrew(net, nodes');
    var grown := net.(nodes := nodes');
    assert PartyOk(grown, s) && Peer(s) == h;
    PopKeepsEnd(nodes', net.parties[s].node, Reader(grown, s), net.parties[s].end);
    EndMoved(grown, s, net.parties[s].end.(outbox := net.parties[s].end.outbox[1..]));
  }

  lemma ReadIsPopThenHear(net: Network, h: Handle)
    requires Enabled(net, Read(h))
    ensures var p := Popped(net, h);
            && p.parties[h] == net.parties[h] && Reader(p, h) == Some(net.parties[Peer(h)].node)
            && Apply(net, Read(h)) == SetEnd(p, h, Receive(SideOf(net, h), Head(net, h)).end)
  {
    assert Peer(h) != h;
  }

  lemma VectorIsHonest(net: Network, h: Handle)
    requires Inv(net) && Enabled(net, Read(h)) && Head(net, h).VectorFrame?
    ensures Honest(Popped(net, h).nodes, net.parties[Peer(h)].node, Head(net, h).said)
  {
    HeadIsOk(net, h);
    assert Popped(net, h).nodes == net.nodes;
  }

  lemma ReadKeepsInv(net: Network, h: Handle)
    requires Inv(net) && Enabled(net, Read(h))
    ensures Inv(Apply(net, Read(h)))
  {
    PoppedKeepsInv(net, h);
    ReadIsPopThenHear(net, h);
    var p, s, f := Popped(net, h), SideOf(net, h), Head(net, h);
    assert PartyOk(p, h);
    if f.VectorFrame? { VectorIsHonest(net, h); }
    HeardKeepsEnd(p.nodes, net.parties[h].node, Reader(p, h), s, f);
    EndMoved(p, h, Receive(s, f).end);
  }

  // ---- Every run ----

  lemma StepKeepsInv(net: Network, a: Action)
    requires Inv(net) && Enabled(net, a)
    ensures Inv(Apply(net, a))
  {
    hide ReplicasOk, SharedOk, Grows, EndOk;
    match a
    case Collect(n, lines) =>
      CollectKeepsReplicas(net.nodes, n, lines);
      ArchiveGrew(net, SetRows(net.nodes, n, LocalBatch(net.nodes[n].rows, n, lines).rows));
    case Reextract(n, t) =>
      ReextractKeepsReplicas(net.nodes, n, t);
      ArchiveGrew(net, SetRows(net.nodes, n, t));
    case Connect(h, n) => ConnectKeepsInv(net, h, n);
    case Read(h) => ReadKeepsInv(net, h);
    case Send(h, next) => OwnMoveKeepsInv(net, a, h);
    case Hangup(h, delivered) => OwnMoveKeepsInv(net, a, h);
    case Abandon(h) => OwnMoveKeepsInv(net, a, h);
    case Perform(errand) =>
      ErrandKeepsOrder(net.nodes, net.shared, errand);
      ReplicasGrew(net, RunOn(net.nodes, net.shared, errand), Run(net.nodes, net.shared, errand));
  }

  lemma OwnMoveKeepsInv(net: Network, a: Action, h: Handle)
    requires Inv(net) && Enabled(net, a)
    requires (a.Send? && a.h == h) || (a.Hangup? && a.h == h) || (a.Abandon? && a.h == h)
    ensures Inv(Apply(net, a))
  {
    hide ReplicasOk, SharedOk, EndOk, SenderStep;
    var p := net.parties[h];
    assert PartyOk(net, h);
    var next := Apply(net, a).parties[h].end;
    if a.Send? {
      assert p.node in net.nodes by { WriterIsThere(net.nodes, p.node, Reader(net, h), p.end); }
      SendKeepsEnd(net.nodes, p.node, Reader(net, h), p.end, next);
    } else {
      HangupKeepsEnd(net.nodes, p.node, Reader(net, h), p.end, if a.Hangup? then a.delivered else |p.end.outbox|);
    }
    EndMoved(net, h, next);
  }

  lemma {:induction false} RunKeepsInv(run: seq<Network>)
    requires IsHistory(run)
    ensures Inv(run[|run| - 1])
    decreases |run|
  {
    if |run| == 1 {
      StartIsInOrder(run[0]);
    } else {
      hide Inv, Initial, Enabled, Apply;
      var i := |run| - 2;
      RunKeepsInv(run[..|run| - 1]);
      assert NetStep(run[i], run[i + 1]);
      var a :| Enabled(run[i], a) && run[i + 1] == Apply(run[i], a);
      StepKeepsInv(run[i], a);
    }
  }

  lemma StartIsInOrder(net: Network)
    requires Initial(net)
    ensures Inv(net)
  {
    forall n | n in net.nodes ensures ReplicaOk(net.nodes, n) {
      EmptyIsDense();
    }
  }

  lemma EmptyIsDense()
    ensures Dense(map[]) && Sound(map[])
  {
    var t: Table := map[];
    forall o ensures Prefix(t, o, Watermark(t, o)) {
      WatermarkEmpty(t, o);
    }
  }

  /** In every reachable state each replica's rows for each origin are exactly the
      first so many of that origin's log, so one number per origin tells a peer
      everything, and nothing has ever been quarantined. */
  lemma ReplicasArePrefixes(run: seq<Network>, n: Origin, o: Origin)
    requires IsHistory(run) && n in run[|run| - 1].nodes && o in run[|run| - 1].nodes
    ensures var net := run[|run| - 1];
            var mine, log := net.nodes[n].rows, net.nodes[o].rows;
            var upTo := Told(Vector(mine, n), o);
            && 0 <= upTo <= Told(Vector(log, o), o)
            && (forall s :: Id(o, s) in mine <==> 1 <= s <= upTo)
            && (forall s :: 1 <= s <= upTo ==> Id(o, s) in log && Core(mine[Id(o, s)]) == Core(log[Id(o, s)]))
            && net.nodes[n].quarantine == []
  {
    var net := run[|run| - 1];
    RunKeepsInv(run);
    assert ReplicaOk(net.nodes, n) && ReplicaOk(net.nodes, o);
    var mine, log := net.nodes[n].rows, net.nodes[o].rows;
    VectorAt(mine, n, o);
    VectorAt(log, o, o);
    var upTo := Watermark(mine, o);
    assert Prefix(mine, o, upTo) && Prefix(log, o, Watermark(log, o));
    assert Copies(mine, log, o);
    forall s | 1 <= s <= upTo ensures Id(o, s) in log && Core(mine[Id(o, s)]) == Core(log[Id(o, s)]) {
      assert Id(o, s) in mine;
    }
    if 1 <= upTo {
      assert Id(o, upTo) in log;
    }
  }

  /** No insert is ever lost: after any reachable state's node reads a batch, every
      record of it is held as sent, none of them as fork evidence. */
  lemma NoInsertIsLost(run: seq<Network>, h: Handle)
    requires IsHistory(run) && Enabled(run[|run| - 1], Read(h))
    requires Head(run[|run| - 1], h).RecordsFrame?
    ensures var net := run[|run| - 1];
            var n, recs := net.parties[h].node, Head(net, h).records;
            var after := Apply(net, Read(h)).nodes[n];
            Taken(after.rows, recs) && after.quarantine == []
  {
    var net := run[|run| - 1];
    RunKeepsInv(run);
    ReadAppends(net, h);
    ReadIsPopThenHear(net, h);
    assert ReplicaOk(Popped(net, h).nodes, net.parties[h].node);
  }
}
