/** What the reachable states of the mesh mean elsewhere: any two of its nodes meet
    the terms on which exchanges are peaceful and gossip converges, and every step
    is one that re-extraction is ready for. */
module Reachable {
  import opened Records
  import opened Store
  import opened Exchange
  import opened Replicas
  import Delivery
  import Accounting
  import Convergence
  import Gossip
  import Extraction
  import Reprocess
  import Storage
  import Bridge
  import Errands
  import Sessions
  import Network

  // ---- The mesh, as gossip sees it ----

  function MeshOf(nodes: Nodes): Gossip.Mesh {
    map n | n in nodes :: Gossip.Member(n, nodes[n].rows, nodes[n].quarantine)
  }

  ghost function World(nodes: Nodes): set<Record> {
    set n, id | n in nodes && id in nodes[n].rows :: nodes[n].rows[id]
  }

  /** A row says what the log of its origin says there. */
  lemma RowIsOfLog(nodes: Nodes, n: Origin, id: Id)
    requires ReplicasOk(nodes) && n in nodes && id in nodes[n].rows
    ensures id.origin in nodes && id in nodes[id.origin].rows && IdOf(nodes[n].rows[id]) == id == IdOf(nodes[id.origin].rows[id])
    ensures nodes[n].rows[id].line == nodes[id.origin].rows[id].line
    ensures Sound(nodes[id.origin].rows)
  {
    hide Dense, Distinct;
    assert ReplicaOk(nodes, n) && Copies(nodes[n].rows, nodes[id.origin].rows, id.origin);
    assert ReplicaOk(nodes, id.origin);
    var r, s := nodes[n].rows[id], nodes[id.origin].rows[id];
    assert r.line == Core(r).line == Core(s).line == s.line;
  }

  lemma SameLineSamePlace(nodes: Nodes, n: Origin, i: Id, m: Origin, j: Id)
    requires ReplicasOk(nodes) && n in nodes && m in nodes && i in nodes[n].rows && j in nodes[m].rows
    requires SameLine(nodes[n].rows[i], nodes[m].rows[j])
    ensures i == j && IdOf(nodes[n].rows[i]) == i && IdOf(nodes[m].rows[j]) == j
  {
    hide ReplicasOk;
    RowIsOfLog(nodes, n, i);
    RowIsOfLog(nodes, m, j);
    assert i.origin == j.origin;
    assert SameLine(nodes[i.origin].rows[i], nodes[i.origin].rows[j]);
  }

  lemma WorldIsOnePlace(nodes: Nodes)
    requires ReplicasOk(nodes)
    ensures Delivery.OnePlace(World(nodes))
  {
    hide ReplicasOk, SameLine;
    var world := World(nodes);
    forall a, b | a in world && b in world && SameLine(a, b) ensures IdOf(a) == IdOf(b) {
      var n, i :| n in nodes && i in nodes[n].rows && nodes[n].rows[i] == a;
      var m, j :| m in nodes && j in nodes[m].rows && nodes[m].rows[j] == b;
      SameLineSamePlace(nodes, n, i, m, j);
    }
  }

  lemma OrderedIsForkFree(nodes: Nodes)
    requires ReplicasOk(nodes)
    ensures Gossip.ForkFree(World(nodes), MeshOf(nodes))
  {
    hide ReplicaOk, Sound, Dense, Delivery.OnePlace, Accounting.Agree;
    var world, mesh := World(nodes), MeshOf(nodes);
    WorldIsOnePlace(nodes);
    forall n | n in mesh ensures Sound(mesh[n].rows) && Dense(mesh[n].rows) && mesh[n].rows.Values <= world {
      OrderedIsDense(nodes, n);
    }
    forall n, m | n in mesh && m in mesh ensures Accounting.Agree(mesh[n].rows, mesh[m].rows) {
      RowsAgree(nodes, n, m);
    }
  }

  lemma OrderedIsDense(nodes: Nodes, n: Origin)
    requires ReplicaOk(nodes, n)
    ensures Sound(nodes[n].rows) && Dense(nodes[n].rows)
  {}

  lemma RowsAgree(nodes: Nodes, n: Origin, m: Origin)
    requires ReplicasOk(nodes) && n in nodes && m in nodes
    ensures Accounting.Agree(nodes[n].rows, nodes[m].rows)
  {
    hide ReplicasOk;
    forall id ensures !Convergence.Disagree(nodes[n].rows, nodes[m].rows, id) {
      if id in nodes[n].rows && id in nodes[m].rows {
        RowIsOfLog(nodes, n, id);
        RowIsOfLog(nodes, m, id);
      }
    }
  }

  /** Every reachable mesh is fork-free, so what is proved of gossip holds of it. */
  lemma ReachableIsForkFree(run: seq<Network.Network>)
    requires Network.IsHistory(run)
    ensures Gossip.ForkFree(World(run[|run| - 1].nodes), MeshOf(run[|run| - 1].nodes))
  {
    Network.RunKeepsInv(run);
    OrderedIsForkFree(run[|run| - 1].nodes);
  }

  /** Any two of its nodes about to exchange are at peace, so what is proved of the
      lag and of what an exchange sends holds of them. */
  lemma ReachableIsPeaceful(run: seq<Network.Network>, p0: Pair)
    requires Network.IsHistory(run) && Start(p0)
    requires var mesh := MeshOf(run[|run| - 1].nodes);
             && p0.left.origin in mesh && Gossip.MemberOf(p0.left) == mesh[p0.left.origin]
             && p0.right.origin in mesh && Gossip.MemberOf(p0.right) == mesh[p0.right.origin]
    ensures Accounting.Peaceful(World(run[|run| - 1].nodes), p0)
  {
    ReachableIsForkFree(run);
    var nodes := run[|run| - 1].nodes;
    Gossip.PeacefulStart(World(nodes), MeshOf(nodes), p0.left.origin, p0.right.origin, p0);
  }

  /** From any reachable mesh over connected links: if every exchange over every link
      would change nothing, every node holds every record any node holds, and the
      other way round. */
  lemma ReachableRestsIffConverged(run: seq<Network.Network>, links: set<(Gossip.Node, Gossip.Node)>)
    requires Network.IsHistory(run)
    requires var mesh := MeshOf(run[|run| - 1].nodes);
             Gossip.Connected(links, mesh.Keys) && forall l :: l in links ==> l.0 in mesh && l.1 in mesh
    ensures var mesh := MeshOf(run[|run| - 1].nodes);
            Gossip.AtRest(mesh, links) <==> forall n :: n in mesh ==> mesh[n].rows.Keys == Gossip.Everything(mesh)
  {
    hide Gossip.ForkFree, Gossip.AtRest, Gossip.Connected, Gossip.Converged;
    var nodes := run[|run| - 1].nodes;
    ReachableIsForkFree(run);
    Gossip.RestMeansConverged(World(nodes), MeshOf(nodes), links);
    Gossip.ConvergedIff(World(nodes), MeshOf(nodes));
  }

  // ---- What each step does to an archive ----

  /** A stretch of another origin's log goes above what is held of it. */
  lemma StretchAppendsAbove(nodes: Nodes, n: Origin, recs: seq<Record>)
    requires ReplicasOk(nodes) && n in nodes && Stretch(nodes, recs)
    requires recs[0].num - 1 <= Watermark(Rows(nodes, n), recs[0].origin)
    ensures Extraction.AppendsAbove(nodes[n].rows, RemoteBatch(nodes[n].rows, nodes[n].quarantine, recs).rows)
  {
    hide Sound, Watermark, Dense, Copies, RemoteBatch, Extraction.AppendsAbove;
    var t, o := nodes[n].rows, recs[0].origin;
    assert IdOf(recs[0]) == Id(o, recs[0].num + 0) && IdOf(recs[0]) in Rows(nodes, o);
    assert ReplicaOk(nodes, n) && ReplicaOk(nodes, o);
    FirstIsPositive(nodes[o].rows, IdOf(recs[0]));
    StretchAppendsWhole(nodes, n, recs);
    AppendedIsAbove(t, nodes[o].rows, o, recs[0].num, recs[0].num + |recs|, RemoteBatch(t, nodes[n].quarantine, recs).rows);
  }

  lemma AppendedIsAbove(t: Table, log: Table, o: Origin, from: int, upTo: int, t': Table)
    requires Dense(t) && Appended(t, log, o, from, upTo, t') && 1 <= from
    ensures Extraction.AppendsAbove(t, t')
  {
    hide Sound, Watermark, Copies;
    assert Prefix(t, o, Watermark(t, o));
    forall id | id in t' && id !in t ensures Watermark(t, id.origin) < id.num {
      assert id == Id(o, id.num);
    }
  }

  lemma FirstIsPositive(t: Table, id: Id)
    requires Sound(t) && id in t
    ensures 1 <= id.num
  {}

  /** Nothing happens to the archive. */
  lemma NothingAppended(t: Table)
    ensures Extraction.AppendsAbove(t, t)
  {}

  lemma CollectingAppendsAbove(nodes: Nodes, n: Origin, lines: seq<Record>)
    requires ReplicasOk(nodes) && n in nodes
    ensures Extraction.AppendsAbove(nodes[n].rows, LocalBatch(nodes[n].rows, n, lines).rows)
  {
    assert ReplicaOk(nodes, n) && Prefix(nodes[n].rows, n, Watermark(nodes[n].rows, n));
    Extraction.LocalAppendsAbove(nodes[n].rows, n, lines, Watermark(nodes[n].rows, n));
  }

  lemma ReadingAppendsAbove(net: Network.Network, h: Network.Handle)
    requires Network.Inv(net) && Network.Enabled(net, Network.Read(h))
    ensures var n := net.parties[h].node;
            && Network.Apply(net, Network.Read(h)).nodes.Keys == net.nodes.Keys
            && Extraction.AppendsAbove(net.nodes[n].rows, Network.Apply(net, Network.Read(h)).nodes[n].rows)
  {
    hide Stretch, RemoteBatch, Extraction.AppendsAbove, ReplicasOk, Errands.SharedOk, Sessions.EndOk, Sessions.FrameOk;
    var n, f := net.parties[h].node, Network.Head(net, h);
    if f.RecordsFrame? {
      Network.RecordsTaken(net, h);
      Network.HeadIsOk(net, h);
      ReadableAbove(net.nodes, net.parties[Network.Peer(h)].node, n, f);
      Sessions.ReceivedBatch(Network.SideOf(net, h), f.records);
    } else {
      NothingAppended(net.nodes[n].rows);
    }
  }

  lemma ReadableAbove(nodes: Nodes, writer: Origin, n: Origin, f: Frame)
    requires ReplicasOk(nodes) && n in nodes && f.RecordsFrame? && Sessions.FrameOk(nodes, writer, Some(n), [], f)
    ensures Extraction.AppendsAbove(nodes[n].rows, RemoteBatch(nodes[n].rows, nodes[n].quarantine, f.records).rows)
  {
    StretchAppendsAbove(nodes, n, f.records);
  }

  lemma ErrandAppendsAbove(nodes: Nodes, sh: Errands.Shared, e: Errands.Errand, n: Origin)
    requires ReplicasOk(nodes) && Errands.SharedOk(nodes, sh) && Errands.CanRun(nodes, sh, e) && n in nodes
    ensures var nodes' := Errands.RunOn(nodes, sh, e);
            n in nodes' && Extraction.AppendsAbove(nodes[n].rows, nodes'[n].rows)
  {
    hide ReplicasOk, Stretch, RemoteBatch, Extraction.AppendsAbove;
    NothingAppended(nodes[n].rows);
    if e.ApplyNext? {
      var f := sh.fetchers[e.job];
      assert Storage.FetcherOk(nodes, sh.blobs, f);
      StretchAppendsAbove(nodes, f.node, f.records);
    }
  }

  /** Whatever the mesh does, a node's archive is appended to above everything held,
      its own lines and those of every other origin, unless it is re-extracted. */
  lemma StepAppendsAbove(net: Network.Network, a: Network.Action, n: Origin)
    requires Network.Inv(net) && Network.Enabled(net, a) && n in net.nodes && !(a.Reextract? && a.node == n)
    ensures var net' := Network.Apply(net, a);
            n in net'.nodes && Extraction.AppendsAbove(net.nodes[n].rows, net'.nodes[n].rows)
  {
    hide ReplicasOk, Errands.SharedOk, Extraction.AppendsAbove;
    NothingAppended(net.nodes[n].rows);
    match a
    case Collect(m, lines) => CollectingAppendsAbove(net.nodes, m, lines);
    case Read(h) =>
      ReadingAppendsAbove(net, h);
    case Perform(errand) => ErrandAppendsAbove(net.nodes, net.shared, errand, n);
    case _ =>
  }

  // ---- Re-extraction in the mesh ----

  /** The mesh, and the marks and passes of one of its nodes. */
  datatype Joint = Joint(net: Network.Network, marks: Extraction.Marks, passes: map<nat, Reprocess.Pass>)

  function StateOf(j: Joint, n: Origin): Reprocess.State {
    Reprocess.State(Rows(j.net.nodes, n), j.marks, j.passes)
  }

  ghost predicate MeshMoves(n: Origin, j: Joint, j': Joint) {
    && j'.marks == j.marks && j'.passes == j.passes
    && exists a :: Network.Enabled(j.net, a) && !(a.Reextract? && a.node == n) && j'.net == Network.Apply(j.net, a)
  }

  /** A pass begins or goes on without writing. */
  ghost predicate PassMoves(c: Reprocess.Setup, n: Origin, j: Joint, j': Joint) {
    && j'.net == j.net && j'.marks == j.marks
    && exists k, p :: j'.passes == j.passes[k := p] && Reprocess.Turn(c, StateOf(j, n), k, p)
  }

  /** A pass saves its batch, in the archive that everything else reads. */
  ghost predicate PassSaves(c: Reprocess.Setup, n: Origin, j: Joint, j': Joint) {
    && n in j.net.nodes
    && exists k :: SavesBatch(c, n, j, j', k)
  }

  ghost predicate SavesBatch(c: Reprocess.Setup, n: Origin, j: Joint, j': Joint, k: nat)
    requires n in j.net.nodes
  {
    && k in j.passes && j.passes[k].Holding? && j.passes[k].batch != [] && j.passes[k].todo != []
    && var s := Reprocess.Saved(c, StateOf(j, n), k);
       j' == Joint(j.net.(nodes := SetRows(j.net.nodes, n, s.rows)), s.marks, s.passes)
  }

  ghost predicate JointStep(c: Reprocess.Setup, n: Origin, j: Joint, j': Joint) {
    MeshMoves(n, j, j') || PassMoves(c, n, j, j') || PassSaves(c, n, j, j')
  }

  ghost predicate IsJointHistory(c: Reprocess.Setup, n: Origin, run: seq<Joint>) {
    && run != [] && Network.Initial(run[0].net) && n in run[0].net.nodes
    && 0 < c.limit && run[0].marks == map[] && run[0].passes == map[]
    && forall i :: 0 <= i < |run| - 1 ==> JointStep(c, n, run[i], run[i + 1])
  }

  ghost predicate JointOk(c: Reprocess.Setup, n: Origin, j: Joint) {
    Network.Inv(j.net) && n in j.net.nodes && Reprocess.StateOk(c, StateOf(j, n))
  }

  lemma {:induction false} UpdateIsAlike(t: Table, rows: seq<Extraction.Extracted>)
    ensures Alike(t, Extraction.Update(t, rows))
    decreases |rows|
  {
    if rows != [] {
      UpdateIsAlike(t, rows[..|rows| - 1]);
    }
  }

  lemma RowsAreKeyed(net: Network.Network, n: Origin)
    requires Network.Inv(net) && n in net.nodes
    ensures WellKeyed(net.nodes[n].rows)
  {
    assert ReplicaOk(net.nodes, n);
  }

  lemma MeshMoveIsMove(c: Reprocess.Setup, n: Origin, j: Joint, j': Joint)
    requires Network.Inv(j.net) && n in j.net.nodes && MeshMoves(n, j, j')
    ensures Network.Inv(j'.net) && n in j'.net.nodes && Reprocess.Move(c, StateOf(j, n), StateOf(j', n))
  {
    hide Network.Inv, Network.Enabled, Network.Apply, Extraction.AppendsAbove, WellKeyed;
    var a :| Network.Enabled(j.net, a) && !(a.Reextract? && a.node == n) && j'.net == Network.Apply(j.net, a);
    Network.StepKeepsInv(j.net, a);
    StepAppendsAbove(j.net, a, n);
    RowsAreKeyed(j'.net, n);
  }

  lemma SaveIsMove(c: Reprocess.Setup, n: Origin, j: Joint, j': Joint)
    requires Network.Inv(j.net) && PassSaves(c, n, j, j')
    ensures Network.Inv(j'.net) && n in j'.net.nodes && Reprocess.Move(c, StateOf(j, n), StateOf(j', n))
  {
    hide Network.Inv, Extraction.AppendsAbove, Extraction.Update, WellKeyed;
    var k :| SavesBatch(c, n, j, j', k);
    var t := StateOf(j', n).rows;
    UpdateIsAlike(j.net.nodes[n].rows, Extraction.Reextract(c.read, j.passes[k].batch));
    Network.StepKeepsInv(j.net, Network.Reextract(n, t));
    assert StateOf(j', n) == Reprocess.Saved(c, StateOf(j, n), k);
  }

  lemma TurnIsMove(c: Reprocess.Setup, n: Origin, j: Joint, j': Joint)
    requires PassMoves(c, n, j, j')
    ensures Reprocess.Move(c, StateOf(j, n), StateOf(j', n))
  {
    hide Reprocess.Turn;
    var k, p :| j'.passes == j.passes[k := p] && Reprocess.Turn(c, StateOf(j, n), k, p);
    assert StateOf(j', n) == StateOf(j, n).(passes := StateOf(j, n).passes[k := p]);
  }

  lemma JointStepKeeps(c: Reprocess.Setup, n: Origin, j: Joint, j': Joint)
    requires JointOk(c, n, j) && JointStep(c, n, j, j')
    ensures JointOk(c, n, j') && Extraction.Upward(j.marks, j'.marks, c.version)
  {
    hide Network.Inv, MeshMoves, PassMoves, PassSaves, Reprocess.StateOk, Reprocess.Move;
    if MeshMoves(n, j, j') {
      MeshMoveIsMove(c, n, j, j');
    } else if PassMoves(c, n, j, j') {
      TurnIsMove(c, n, j, j');
      SameNet(c, n, j, j');
    } else {
      SaveIsMove(c, n, j, j');
    }
    Reprocess.MoveKeepsTruth(c, StateOf(j, n), StateOf(j', n));
  }

  lemma SameNet(c: Reprocess.Setup, n: Origin, j: Joint, j': Joint)
    requires PassMoves(c, n, j, j')
    ensures j'.net == j.net
  {}

  /** In every run of the whole mesh, with passes of one node started, interrupted and
      resumed in any way while lines are collected, read from peers and fetched: the
      marks of that node never move down, none is above what is held, and every
      record at or below one, of any origin, is right or cannot be read. */
  lemma {:induction false} MarksHoldInTheMesh(c: Reprocess.Setup, n: Origin, run: seq<Joint>, i: nat)
    requires IsJointHistory(c, n, run) && i < |run|
    ensures Network.Inv(run[i].net) && n in run[i].net.nodes
    ensures Extraction.Truthful(run[i].net.nodes[n].rows, run[i].marks, c.version, c.read)
    ensures 0 < i ==> Extraction.Upward(run[i - 1].marks, run[i].marks, c.version)
  {
    RunIsOk(c, n, run, i);
    if 0 < i {
      RunIsOk(c, n, run, i - 1);
      assert JointStep(c, n, run[i - 1], run[i - 1 + 1]);
      hide JointOk, JointStep;
      JointStepKeeps(c, n, run[i - 1], run[i]);
    }
  }

  lemma {:induction false} RunIsOk(c: Reprocess.Setup, n: Origin, run: seq<Joint>, i: nat)
    requires IsJointHistory(c, n, run) && i < |run|
    ensures JointOk(c, n, run[i])
  {
    hide JointOk, JointStep, Network.Initial;
    if i == 0 {
      StartIsOk(c, n, run[0]);
    } else {
      RunIsOk(c, n, run, i - 1);
      assert JointStep(c, n, run[i - 1], run[i - 1 + 1]);
      JointStepKeeps(c, n, run[i - 1], run[i]);
    }
  }

  lemma StartIsOk(c: Reprocess.Setup, n: Origin, j: Joint)
    requires Network.Initial(j.net) && n in j.net.nodes && 0 < c.limit && j.marks == map[] && j.passes == map[]
    ensures JointOk(c, n, j)
  {
    Network.StartIsInOrder(j.net);
    var t := j.net.nodes[n].rows;
    forall o ensures Extraction.Mark(j.marks, o, c.version) == 0 == Watermark(t, o) {
      WatermarkEmpty(t, o);
    }
  }
}
