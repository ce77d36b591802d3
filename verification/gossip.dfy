/** Convergence of a whole mesh by pairwise exchanges. */
module Gossip {
  import opened Records
  import opened Sets
  import opened Store
  import opened Exchange
  import opened Liveness
  import opened Delivery
  import opened Convergence
  import opened Accounting

  type Node = string

  datatype Member = Member(origin: Origin, rows: Table, quarantine: seq<Record>)

  type Mesh = map<Node, Member>

  function MemberOf(s: Side): Member {
    Member(s.origin, s.rows, s.quarantine)
  }

  /** `run` is an exchange between nodes `a` and `b` as the mesh has them, carried
      to its end, and `after` is the mesh with both results. */
  ghost predicate ExchangeBetween(capacity: nat, run: seq<Pair>, mesh: Mesh, a: Node, b: Node, after: Mesh) {
    && IsRun(capacity, run) && Finished(run[|run| - 1])
    && a in mesh && b in mesh && a != b
    && MemberOf(run[0].left) == mesh[a] && MemberOf(run[0].right) == mesh[b]
    && after == mesh[a := MemberOf(run[|run| - 1].left)][b := MemberOf(run[|run| - 1].right)]
  }

  /** No replica conflicts with another, and all are gap-free. */
  ghost predicate ForkFree(world: set<Record>, mesh: Mesh) {
    && OnePlace(world)
    && (forall n :: n in mesh ==> Sound(mesh[n].rows) && Dense(mesh[n].rows))
    && (forall n :: n in mesh ==> mesh[n].rows.Values <= world)
    && (forall n, m :: n in mesh && m in mesh ==> Agree(mesh[n].rows, mesh[m].rows))
  }

  /** Every position some node holds. */
  ghost function Everything(mesh: Mesh): set<Id> {
    set n, id | n in mesh && id in mesh[n].rows :: id
  }

  ghost function MissingAt(mesh: Mesh, n: Node): int {
    if n in mesh then |Everything(mesh) - mesh[n].rows.Keys| else 0
  }

  ghost function Missing(mesh: Mesh): int {
    Sum(mesh.Keys, n => MissingAt(mesh, n))
  }

  lemma PeacefulStart(world: set<Record>, mesh: Mesh, a: Node, b: Node, p0: Pair)
    requires ForkFree(world, mesh) && a in mesh && b in mesh && Start(p0)
    requires MemberOf(p0.left) == mesh[a] && MemberOf(p0.right) == mesh[b]
    ensures Peaceful(world, p0)
  {
    assert Agree(mesh[a].rows, mesh[b].rows);
  }

  lemma UpdatedKeys(mesh: Mesh, a: Node, b: Node, after: Mesh)
    requires a in mesh && b in mesh && a != b && after.Keys == mesh.Keys
    requires after[a].rows.Keys == after[b].rows.Keys == mesh[a].rows.Keys + mesh[b].rows.Keys
    requires forall n :: n in mesh && n != a && n != b ==> after[n] == mesh[n]
    ensures Everything(after) == Everything(mesh)
  {
    forall id | id in Everything(mesh) ensures id in Everything(after) {
      var n :| n in mesh && id in mesh[n].rows;
      if n == a || n == b {
        assert id in after[a].rows;
      } else {
        assert id in after[n].rows;
      }
    }
    forall id | id in Everything(after) ensures id in Everything(mesh) {
      var n :| n in after && id in after[n].rows;
      if n == a || n == b {
        assert id in mesh[a].rows || id in mesh[b].rows;
      } else {
        assert id in mesh[n].rows;
      }
    }
  }

  /** What an exchange between `a` and `b` does to the mesh. */
  ghost predicate Shares(mesh: Mesh, a: Node, b: Node, after: Mesh) {
    && a in mesh && b in mesh && a != b && after.Keys == mesh.Keys
    && (forall n :: n in mesh && n != a && n != b ==> after[n] == mesh[n])
    && Gains(mesh[a].rows, mesh[b].rows, after[a].rows)
    && Gains(mesh[b].rows, mesh[a].rows, after[b].rows)
  }

  ghost predicate Gains(own: Table, peers: Table, t: Table) {
    && Sound(t) && Dense(t) && Inherits(t, own, peers) && t.Keys == own.Keys + peers.Keys
  }

  lemma EndGains(p0: Pair, p: Pair)
    requires Completed(p0, p) && Level(p0, p)
    ensures Gains(p0.left.rows, p0.right.rows, p.left.rows)
    ensures Gains(p0.right.rows, p0.left.rows, p.right.rows)
  {
    assert p.right.rows.Keys == p0.right.rows.Keys + p0.left.rows.Keys;
  }

  lemma RunGains(world: set<Record>, capacity: nat, run: seq<Pair>)
    requires IsRun(capacity, run) && Peaceful(world, run[0]) && Finished(run[|run| - 1])
    ensures Gains(run[0].left.rows, run[0].right.rows, run[|run| - 1].left.rows)
    ensures Gains(run[0].right.rows, run[0].left.rows, run[|run| - 1].right.rows)
  {
    PeacefulExchange(world, capacity, run);
    ExchangeOutcome(world, capacity, run);
    EndGains(run[0], run[|run| - 1]);
  }

  lemma ExchangeShares(world: set<Record>, capacity: nat, run: seq<Pair>, mesh: Mesh, a: Node, b: Node, after: Mesh)
    requires ForkFree(world, mesh) && ExchangeBetween(capacity, run, mesh, a, b, after)
    ensures Shares(mesh, a, b, after)
  {
    PeacefulStart(world, mesh, a, b, run[0]);
    RunGains(world, capacity, run);
  }

  /** An exchange keeps the mesh fork-free and gap-free. */
  lemma StaysForkFree(world: set<Record>, capacity: nat, run: seq<Pair>, mesh: Mesh, a: Node, b: Node, after: Mesh)
    requires ForkFree(world, mesh) && ExchangeBetween(capacity, run, mesh, a, b, after)
    ensures ForkFree(world, after)
  {
    ExchangeShares(world, capacity, run, mesh, a, b, after);
    SharingKeepsForkFree(world, mesh, a, b, after);
  }

  lemma SharingKeepsForkFree(world: set<Record>, mesh: Mesh, a: Node, b: Node, after: Mesh)
    requires ForkFree(world, mesh) && Shares(mesh, a, b, after)
    ensures ForkFree(world, after)
  {
    var ra, rb := mesh[a].rows, mesh[b].rows;
    InheritedFrom(world, ra, rb, after[a].rows);
    InheritedFrom(world, rb, ra, after[b].rows);
    ValuesWithin(world, after[a].rows, after[b].rows);
    forall n, m | n in after && m in after ensures Agree(after[n].rows, after[m].rows) {
      MixturesAgree(mesh, a, b, after, n, m);
    }
  }

  /** Each row of the new mesh is a row of the old one. */
  lemma MixturesAgree(mesh: Mesh, a: Node, b: Node, after: Mesh, n: Node, m: Node)
    requires a in mesh && b in mesh && a != b && after.Keys == mesh.Keys && n in mesh && m in mesh
    requires forall x, y :: x in mesh && y in mesh ==> Agree(mesh[x].rows, mesh[y].rows)
    requires forall x :: x in mesh && x != a && x != b ==> after[x] == mesh[x]
    requires Inherits(after[a].rows, mesh[a].rows, mesh[b].rows) && Inherits(after[b].rows, mesh[b].rows, mesh[a].rows)
    ensures Agree(after[n].rows, after[m].rows)
  {
    forall id ensures !Disagree(after[n].rows, after[m].rows, id) {
      if id in after[n].rows && id in after[m].rows {
        var x := HeldBefore(mesh, a, b, after, n, id);
        var y := HeldBefore(mesh, a, b, after, m, id);
        assert Agree(mesh[x].rows, mesh[y].rows);
        assert !Disagree(mesh[x].rows, mesh[y].rows, id);
      }
    }
  }

  lemma HeldBefore(mesh: Mesh, a: Node, b: Node, after: Mesh, n: Node, id: Id) returns (x: Node)
    requires a in mesh && b in mesh && after.Keys == mesh.Keys && n in mesh
    requires forall y :: y in mesh && y != a && y != b ==> after[y] == mesh[y]
    requires Inherits(after[a].rows, mesh[a].rows, mesh[b].rows) && Inherits(after[b].rows, mesh[b].rows, mesh[a].rows)
    requires id in after[n].rows
    ensures x in mesh && id in mesh[x].rows && mesh[x].rows[id] == after[n].rows[id]
  {
    x := if n == a then (if id in mesh[a].rows then a else b)
         else if n == b then (if id in mesh[b].rows then b else a)
         else n;
  }

  /** A completed exchange between replicas that hold different positions leaves
      strictly fewer records missing in the mesh; one between replicas that hold the
      same positions changes nothing at all. */
  lemma ExchangeMakesProgress(world: set<Record>, capacity: nat, run: seq<Pair>, mesh: Mesh, a: Node, b: Node, after: Mesh)
    requires ForkFree(world, mesh) && ExchangeBetween(capacity, run, mesh, a, b, after)
    ensures if mesh[a].rows.Keys == mesh[b].rows.Keys then after == mesh else Missing(after) < Missing(mesh)
    ensures Everything(after) == Everything(mesh)
  {
    ExchangeShares(world, capacity, run, mesh, a, b, after);
    UpdatedKeys(mesh, a, b, after);
    SharingMakesProgress(mesh, a, b, after);
    if mesh[a].rows.Keys == mesh[b].rows.Keys {
      EqualsStay(world, capacity, run, mesh, a, b, after);
    }
  }

  /** Replicas that hold the same positions come out of an exchange as they were. */
  lemma EqualsStay(world: set<Record>, capacity: nat, run: seq<Pair>, mesh: Mesh, a: Node, b: Node, after: Mesh)
    requires ForkFree(world, mesh) && ExchangeBetween(capacity, run, mesh, a, b, after)
    requires mesh[a].rows.Keys == mesh[b].rows.Keys
    ensures after == mesh
  {
    hide ForkFree;
    PeacefulStart(world, mesh, a, b, run[0]);
    EqualRunStays(world, capacity, run);
  }

  lemma EqualRunStays(world: set<Record>, capacity: nat, run: seq<Pair>)
    requires IsRun(capacity, run) && Peaceful(world, run[0]) && Finished(run[|run| - 1])
    requires run[0].left.rows.Keys == run[0].right.rows.Keys
    ensures var p0, p := run[0], run[|run| - 1];
            MemberOf(p.left) == MemberOf(p0.left) && MemberOf(p.right) == MemberOf(p0.right)
  {
    hide Level, Inherits, Delivers, Running, Peaceful, Start, Finished, Vector, Ahead;
    var p0, p := run[0], run[|run| - 1];
    RunGains(world, capacity, run);
    PeacefulExchange(world, capacity, run);
    OriginsStay(world, capacity, run);
    SameKeysSameRows(p0.left.rows, p0.right.rows, p.left.rows);
    SameKeysSameRows(p0.right.rows, p0.left.rows, p.right.rows);
  }

  lemma OriginsStay(world: set<Record>, capacity: nat, run: seq<Pair>)
    requires IsRun(capacity, run) && Peaceful(world, run[0])
    ensures run[|run| - 1].left.origin == run[0].left.origin && run[|run| - 1].right.origin == run[0].right.origin
  {
    RunDelivers(world, capacity, run);
  }

  lemma SharingMakesProgress(mesh: Mesh, a: Node, b: Node, after: Mesh)
    requires a in mesh && b in mesh && a != b && after.Keys == mesh.Keys && Everything(after) == Everything(mesh)
    requires after[a].rows.Keys == after[b].rows.Keys == mesh[a].rows.Keys + mesh[b].rows.Keys
    requires forall n :: n in mesh && n != a && n != b ==> after[n] == mesh[n]
    ensures if mesh[a].rows.Keys == mesh[b].rows.Keys then Missing(after) == Missing(mesh) else Missing(after) < Missing(mesh)
  {
    var f, g := (n: Node) => MissingAt(mesh, n), (n: Node) => MissingAt(after, n);
    forall n | n in mesh && n != a && n != b ensures f(n) == g(n) {}
    SumsDifferAt(mesh.Keys, f, g, a, b);
    TwoShare(Everything(mesh), mesh[a].rows.Keys, mesh[b].rows.Keys);
  }

  lemma TwoShare(all: set<Id>, x: set<Id>, y: set<Id>)
    requires forall id :: id in x || id in y ==> id in all
    ensures var left := 2 * |all - (x + y)|;
            if x == y then left == |all - x| + |all - y| else left < |all - x| + |all - y|
  {
    FewerMissing(all, x, y);
    FewerMissing(all, y, x);
    assert y + x == x + y;
  }

  lemma SumsDifferAt<T>(s: set<T>, f: T -> int, g: T -> int, a: T, b: T)
    requires a in s && b in s && a != b
    requires forall x :: x in s && x != a && x != b ==> f(x) == g(x)
    ensures Sum(s, g) - Sum(s, f) == g(a) + g(b) - f(a) - f(b)
  {
    SumTakesOut(s, f, a);
    SumTakesOut(s - {a}, f, b);
    SumTakesOut(s, g, a);
    SumTakesOut(s - {a}, g, b);
    SumAgrees(s - {a} - {b}, f, g);
  }

  lemma FewerMissing(all: set<Id>, own: set<Id>, peers: set<Id>)
    requires forall id :: id in own || id in peers ==> id in all
    ensures |all - (own + peers)| <= |all - own|
    ensures |all - (own + peers)| == |all - own| <==> peers <= own
  {
    SubsetIsNoLarger(all - (own + peers), all - own);
    if id :| id in peers && id !in own {
      assert id in all - own && id !in all - (own + peers);
      ProperSubsetIsSmaller(all - (own + peers), all - own);
    } else {
      assert all - (own + peers) == all - own;
    }
  }

  // ---- Connected meshes ----

  ghost predicate Path(links: set<(Node, Node)>, p: seq<Node>) {
    p != [] && forall i :: 0 <= i < |p| - 1 ==> (p[i], p[i + 1]) in links || (p[i + 1], p[i]) in links
  }

  ghost predicate Connected(links: set<(Node, Node)>, nodes: set<Node>) {
    forall x, y :: x in nodes && y in nodes ==> exists p :: Path(links, p) && p[0] == x && p[|p| - 1] == y
  }

  lemma {:induction false} EqualAlong(mesh: Mesh, links: set<(Node, Node)>, p: seq<Node>)
    requires forall l :: l in links ==> l.0 in mesh && l.1 in mesh && mesh[l.0].rows.Keys == mesh[l.1].rows.Keys
    requires Path(links, p) && p[0] in mesh
    ensures p[|p| - 1] in mesh && mesh[p[|p| - 1]].rows.Keys == mesh[p[0]].rows.Keys
    decreases |p|
  {
    if |p| > 1 {
      var i := |p| - 2;
      var front := p[..|p| - 1];
      assert (p[i], p[i + 1]) in links || (p[i + 1], p[i]) in links;
      EqualAlong(mesh, links, front);
    }
  }

  // ---- Rest ----

  function AtTheStart(r: Member): Side {
    Side(r.origin, r.rows, r.quarantine, End(Announce(r.rows, r.origin), Announcing, [], None, true, 0, 0, NOTHING))
  }

  /** Any two nodes can exchange, over any channel, and come to an end. */
  lemma ExchangeExists(mesh: Mesh, a: Node, b: Node, capacity: nat) returns (run: seq<Pair>, after: Mesh)
    requires a in mesh && b in mesh && a != b && Sound(mesh[a].rows) && Sound(mesh[b].rows)
    ensures ExchangeBetween(capacity, run, mesh, a, b, after)
  {
    var p0 := Pair(AtTheStart(mesh[a]), AtTheStart(mesh[b]));
    run := RunCanFinish(capacity, [p0], p0.left.rows.Keys + p0.right.rows.Keys);
    assert run[0] == p0;
    after := mesh[a := MemberOf(run[|run| - 1].left)][b := MemberOf(run[|run| - 1].right)];
  }

  /** No exchange between the two, however it goes, changes anything. */
  ghost predicate NothingMoves(mesh: Mesh, a: Node, b: Node) {
    forall capacity, run, after :: ExchangeBetween(capacity, run, mesh, a, b, after) ==> after == mesh
  }

  /** Exchanges between two nodes change nothing exactly when the two hold the same
      positions, and that already shows in the number of records missing. */
  lemma NothingMovesIff(world: set<Record>, mesh: Mesh, a: Node, b: Node)
    requires ForkFree(world, mesh) && a in mesh && b in mesh && a != b
    ensures NothingMoves(mesh, a, b) <==> mesh[a].rows.Keys == mesh[b].rows.Keys
    ensures NothingMoves(mesh, a, b) <==>
              forall capacity, run, after :: ExchangeBetween(capacity, run, mesh, a, b, after) ==> Missing(after) == Missing(mesh)
  {
    hide Missing, ExchangeBetween;
    if mesh[a].rows.Keys == mesh[b].rows.Keys {
      forall capacity, run, after | ExchangeBetween(capacity, run, mesh, a, b, after) ensures after == mesh {
        ExchangeMakesProgress(world, capacity, run, mesh, a, b, after);
      }
    } else {
      var run, after := ExchangeExists(mesh, a, b, 0);
      ExchangeMakesProgress(world, 0, run, mesh, a, b, after);
    }
  }

  /** No exchange over any link can change anything. */
  ghost predicate AtRest(mesh: Mesh, links: set<(Node, Node)>) {
    forall l :: l in links ==> NothingMoves(mesh, l.0, l.1)
  }

  ghost predicate HoldSame(a: Table, b: Table) {
    a.Keys == b.Keys && forall id :: id in a ==> a[id].line.hash == b[id].line.hash
  }

  ghost predicate Converged(mesh: Mesh) {
    forall n, m :: n in mesh && m in mesh ==> HoldSame(mesh[n].rows, mesh[m].rows)
  }

  /** Over connected links no exchange can change anything exactly when all nodes
      hold the same records, which is when no node lacks any. */
  lemma RestMeansConverged(world: set<Record>, mesh: Mesh, links: set<(Node, Node)>)
    requires ForkFree(world, mesh) && Connected(links, mesh.Keys)
    requires forall l :: l in links ==> l.0 in mesh && l.1 in mesh
    ensures AtRest(mesh, links) <==> Converged(mesh)
    ensures Converged(mesh) <==> Missing(mesh) == 0
  {
    hide Missing, NothingMoves;
    LinksAtRest(world, mesh, links);
    ConvergedIff(world, mesh);
    if AtRest(mesh, links) {
      EqualEverywhere(mesh, links);
    }
    NothingMissing(mesh);
  }

  lemma LinksAtRest(world: set<Record>, mesh: Mesh, links: set<(Node, Node)>)
    requires ForkFree(world, mesh)
    requires forall l :: l in links ==> l.0 in mesh && l.1 in mesh
    ensures AtRest(mesh, links) <==> forall l :: l in links ==> mesh[l.0].rows.Keys == mesh[l.1].rows.Keys
  {
    hide NothingMoves, ForkFree;
    forall l | l in links ensures NothingMoves(mesh, l.0, l.1) <==> mesh[l.0].rows.Keys == mesh[l.1].rows.Keys {
      if l.0 == l.1 {
        NothingMovesAlone(mesh, l.0);
      } else {
        NothingMovesIff(world, mesh, l.0, l.1);
      }
    }
  }

  lemma NothingMovesAlone(mesh: Mesh, a: Node)
    ensures NothingMoves(mesh, a, a)
  {}

  lemma AgreeingHoldSame(a: Table, b: Table)
    requires Agree(a, b)
    ensures HoldSame(a, b) <==> a.Keys == b.Keys
  {
    forall id | id in a && id in b ensures a[id].line.hash == b[id].line.hash {
      assert !Disagree(a, b, id);
    }
  }

  lemma ConvergedIff(world: set<Record>, mesh: Mesh)
    requires ForkFree(world, mesh)
    ensures Converged(mesh) <==> forall n :: n in mesh ==> mesh[n].rows.Keys == Everything(mesh)
  {
    hide HoldSame, Agree, Sound, Dense;
    forall n, m | n in mesh && m in mesh ensures HoldSame(mesh[n].rows, mesh[m].rows) <==> mesh[n].rows.Keys == mesh[m].rows.Keys {
      AgreeingHoldSame(mesh[n].rows, mesh[m].rows);
    }
    SameAsEverything(mesh);
  }

  lemma SameAsEverything(mesh: Mesh)
    ensures (forall n, m :: n in mesh && m in mesh ==> mesh[n].rows.Keys == mesh[m].rows.Keys) <==>
              forall n :: n in mesh ==> mesh[n].rows.Keys == Everything(mesh)
  {
    if forall n, m :: n in mesh && m in mesh ==> mesh[n].rows.Keys == mesh[m].rows.Keys {
      forall n | n in mesh ensures mesh[n].rows.Keys == Everything(mesh) {
        forall id | id in Everything(mesh) ensures id in mesh[n].rows {
          var m :| m in mesh && id in mesh[m].rows;
          assert id in mesh[m].rows.Keys;
        }
      }
    }
  }

  lemma EqualEverywhere(mesh: Mesh, links: set<(Node, Node)>)
    requires Connected(links, mesh.Keys)
    requires forall l :: l in links ==> l.0 in mesh && l.1 in mesh && mesh[l.0].rows.Keys == mesh[l.1].rows.Keys
    ensures forall n :: n in mesh ==> mesh[n].rows.Keys == Everything(mesh)
  {
    forall n | n in mesh ensures mesh[n].rows.Keys == Everything(mesh) {
      forall id | id in Everything(mesh) ensures id in mesh[n].rows {
        var m :| m in mesh && id in mesh[m].rows;
        var p :| Path(links, p) && p[0] == n && p[|p| - 1] == m;
        EqualAlong(mesh, links, p);
      }
    }
  }

  /** Exchanges over links, one after another, each of which changed something. */
  ghost predicate Busy(links: set<(Node, Node)>, meshes: seq<Mesh>) {
    meshes != [] && forall i :: 0 <= i < |meshes| - 1 ==> Changes(links, meshes[i], meshes[i + 1])
  }

  ghost predicate Changes(links: set<(Node, Node)>, mesh: Mesh, after: Mesh) {
    after != mesh && exists l, capacity, run :: l in links && ExchangeBetween(capacity, run, mesh, l.0, l.1, after)
  }

  /** However the exchanges are scheduled, no more of them can change anything than
      there are records missing, and when none over connected links can any more,
      every node holds every record any node began with. */
  lemma {:induction false} GossipConverges(world: set<Record>, links: set<(Node, Node)>, meshes: seq<Mesh>)
    requires Busy(links, meshes) && ForkFree(world, meshes[0])
    ensures var last := meshes[|meshes| - 1];
            && ForkFree(world, last) && last.Keys == meshes[0].Keys && Everything(last) == Everything(meshes[0])
            && 0 <= Missing(last) && Missing(last) + |meshes| - 1 <= Missing(meshes[0])
            && (Connected(links, last.Keys) && (forall l :: l in links ==> l.0 in last && l.1 in last) && AtRest(last, links) ==>
                  forall n :: n in last ==> last[n].rows.Keys == Everything(meshes[0]))
    decreases |meshes|
  {
    hide Missing, ExchangeBetween, ForkFree, Connected, AtRest, Converged, Everything;
    var last := meshes[|meshes| - 1];
    if |meshes| > 1 {
      var before := meshes[..|meshes| - 1];
      GossipConverges(world, links, before);
      var mesh := meshes[|meshes| - 2];
      assert before[|before| - 1] == mesh;
      assert Changes(links, mesh, meshes[|meshes| - 2 + 1]);
      var l, capacity, run :| l in links && ExchangeBetween(capacity, run, mesh, l.0, l.1, last);
      ExchangeShares(world, capacity, run, mesh, l.0, l.1, last);
      ExchangeMakesProgress(world, capacity, run, mesh, l.0, l.1, last);
      StaysForkFree(world, capacity, run, mesh, l.0, l.1, last);
    }
    MissingIsNatural(last);
    if Connected(links, last.Keys) && (forall l :: l in links ==> l.0 in last && l.1 in last) && AtRest(last, links) {
      RestMeansConverged(world, last, links);
      ConvergedIff(world, last);
    }
  }

  lemma MissingIsNatural(mesh: Mesh)
    ensures 0 <= Missing(mesh)
  {
    NonNegativeSum(mesh.Keys, (n: Node) => MissingAt(mesh, n));
  }

  lemma NothingMissing(mesh: Mesh)
    ensures (forall n :: n in mesh ==> mesh[n].rows.Keys == Everything(mesh)) <==> Missing(mesh) == 0
  {
    NonNegativeSum(mesh.Keys, (n: Node) => MissingAt(mesh, n));
    forall n | n in mesh ensures mesh[n].rows.Keys == Everything(mesh) <==> MissingAt(mesh, n) == 0 {
      NoneMissingAt(mesh, n);
    }
  }

  lemma NoneMissingAt(mesh: Mesh, n: Node)
    requires n in mesh
    ensures mesh[n].rows.Keys == Everything(mesh) <==> MissingAt(mesh, n) == 0
  {
    var own, all := mesh[n].rows.Keys, Everything(mesh);
    assert own <= all;
    assert all == own + (all - own);
  }

  lemma {:induction false} NonNegativeSum<T>(s: set<T>, f: T -> int)
    requires forall x :: x in s ==> 0 <= f(x)
    ensures 0 <= Sum(s, f)
    ensures Sum(s, f) == 0 <==> forall x :: x in s ==> f(x) == 0
    decreases |s|
  {
    if s != {} {
      var x := Pick(s);
      SumTakesOut(s, f, x);
      NonNegativeSum(s - {x}, f);
      assert forall y :: y in s <==> y == x || y in s - {x};
    }
  }
}
