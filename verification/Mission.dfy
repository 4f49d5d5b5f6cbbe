/** Missions: a graph of steps and what they depend on, its topological order, and what stands in the
    way where there is none. */
module Mission {
  import opened Text
  import opened Sorting

  datatype Node = Node(id: string, dependsOn: seq<string>)

  // ------------------------------------------------------------------- the order

  predicate HasId(nodes: seq<Node>, id: string) {
    exists i :: 0 <= i < |nodes| && nodes[i].id == id
  }

  predicate DistinctIds(nodes: seq<Node>) {
    forall i, j | 0 <= i < j < |nodes| :: nodes[i].id != nodes[j].id
  }

  /** What the planner checks of an executable plan's nodes. */
  predicate Sound(nodes: seq<Node>) {
    DistinctIds(nodes) && forall n, d | n in nodes && d in n.dependsOn :: HasId(nodes, d)
  }

  /** One entry of a dictionary keyed by id: a key keeps its place and takes the new value. */
  function Put(table: seq<Node>, n: Node): seq<Node> {
    if table == [] then [n]
    else if table[0].id == n.id then [n] + table[1..]
    else [table[0]] + Put(table[1..], n)
  }

  /** The nodes as the order sees them: of several with one id, the last. */
  function Table(nodes: seq<Node>): seq<Node>
    decreases |nodes|
  {
    if nodes == [] then [] else Put(Table(nodes[..|nodes| - 1]), nodes[|nodes| - 1])
  }

  lemma {:induction false} PutIds(table: seq<Node>, n: Node)
    requires DistinctIds(table)
    ensures DistinctIds(Put(table, n))
    ensures forall m :: m in Put(table, n) <==> m == n || (m in table && m.id != n.id)
  {
    if table != [] {
      assert forall m :: m in table <==> m == table[0] || m in table[1..];
      assert forall m | m in table[1..] :: m.id != table[0].id;
      if table[0].id == n.id {
        assert forall m :: m in [n] + table[1..] <==> m == n || m in table[1..];
      } else {
        PutIds(table[1..], n);
        var rest := Put(table[1..], n);
        assert forall m :: m in [table[0]] + rest <==> m == table[0] || m in rest;
        assert forall i | 0 <= i < |rest| :: rest[i] in rest;
      }
    }
  }

  lemma NodeHasId(nodes: seq<Node>, n: Node)
    requires n in nodes
    ensures HasId(nodes, n.id)
  {
    var i :| 0 <= i < |nodes| && nodes[i] == n;
  }

  /** The table has every id once, and no other. */
  lemma {:induction false} TableIds(nodes: seq<Node>)
    ensures DistinctIds(Table(nodes))
    ensures forall id :: HasId(Table(nodes), id) <==> HasId(nodes, id)
    decreases |nodes|
  {
    if nodes != [] {
      hide DistinctIds;
      var front, n := nodes[..|nodes| - 1], nodes[|nodes| - 1];
      TableIds(front);
      PutIds(Table(front), n);
      forall id ensures HasId(Table(nodes), id) <==> HasId(nodes, id) { IdsMore(nodes, id); }
    }
  }

  lemma IdsMore(nodes: seq<Node>, id: string)
    requires nodes != []
    requires var front, n := nodes[..|nodes| - 1], nodes[|nodes| - 1];
             && (HasId(Table(front), id) <==> HasId(front, id))
             && (forall m :: m in Table(nodes) <==> m == n || (m in Table(front) && m.id != n.id))
    ensures HasId(Table(nodes), id) <==> HasId(nodes, id)
  {
    hide Table;
    var front, n := nodes[..|nodes| - 1], nodes[|nodes| - 1];
    assert forall m :: m in nodes <==> m == n || m in front;
    HasIdIs(nodes, id);
    HasIdIs(front, id);
    HasIdIs(Table(nodes), id);
    HasIdIs(Table(front), id);
  }

  lemma HasIdIs(nodes: seq<Node>, id: string)
    ensures HasId(nodes, id) <==> exists n :: n in nodes && n.id == id
  {
    if n :| n in nodes && n.id == id { NodeHasId(nodes, n); }
  }

  lemma {:induction false} PutNew(table: seq<Node>, n: Node)
    requires forall m | m in table :: m.id != n.id
    ensures Put(table, n) == table + [n]
  {
    if table != [] { PutNew(table[1..], n); }
  }

  /** Of nodes with distinct ids the table is the nodes themselves. */
  lemma {:induction false} TableOfDistinct(nodes: seq<Node>)
    requires DistinctIds(nodes)
    ensures Table(nodes) == nodes
    decreases |nodes|
  {
    if nodes != [] {
      var front, n := nodes[..|nodes| - 1], nodes[|nodes| - 1];
      TableOfDistinct(front);
      PutNew(front, n);
    }
  }

  /** Every node once, each after everything it depends on. */
  ghost predicate Topological(nodes: seq<Node>, order: seq<string>) {
    && Distinct(order)
    && (forall id :: id in order <==> HasId(nodes, id))
    && (forall n, k | n in nodes && 0 <= k < |order| && order[k] == n.id ::
          forall d | d in n.dependsOn :: d in order[..k])
  }

  /** A set of nodes each of which waits for another of them, or for what is no node. */
  ghost predicate Stuck(nodes: seq<Node>, waiting: set<string>) {
    && waiting != {}
    && (forall id | id in waiting :: HasId(nodes, id))
    && (forall n | n in nodes && n.id in waiting ::
          exists d :: d in n.dependsOn && (d in waiting || !HasId(nodes, d)))
  }

  /** A plan has a topological order or a stuck set, never both. */
  lemma NotBoth(nodes: seq<Node>, order: seq<string>, waiting: set<string>)
    requires Topological(nodes, order)
    ensures !Stuck(nodes, waiting)
  {
    if waiting != {} && forall id | id in waiting :: HasId(nodes, id) {
      var first :| first in waiting;
      assert first in order;
      var k := FirstOf(order, waiting);
      var i :| 0 <= i < |nodes| && nodes[i].id == order[k];
      assert nodes[i] in nodes;
      assert forall d | d in nodes[i].dependsOn :: d in order[..k];
      assert forall d | d in order[..k] :: d in order;
    }
  }

  lemma {:induction false} FirstOf(order: seq<string>, waiting: set<string>) returns (k: nat)
    requires exists id :: id in waiting && id in order
    ensures k < |order| && order[k] in waiting
    ensures forall j | 0 <= j < k :: order[j] !in waiting
  {
    if order[0] in waiting {
      k := 0;
    } else {
      var rest := FirstOf(order[1..], waiting);
      k := rest + 1;
    }
  }

  /** A node and what it still waits for. */
  datatype Pending = Pending(id: string, deps: set<string>)

  function Ready(pending: seq<Pending>): seq<string> {
    if pending == [] then []
    else if pending[0].deps == {} then [pending[0].id] + Ready(pending[1..])
    else Ready(pending[1..])
  }

  function Blocked(pending: seq<Pending>, done: set<string>): seq<Pending> {
    if pending == [] then []
    else if pending[0].deps == {} then Blocked(pending[1..], done)
    else [pending[0].(deps := pending[0].deps - done)] + Blocked(pending[1..], done)
  }

  function Elements(s: seq<string>): set<string> { set x | x in s }

  /** The nodes not in `done`, each with what it still waits for. */
  function Waiting(nodes: seq<Node>, done: seq<string>): seq<Pending> {
    if nodes == [] then []
    else if nodes[0].id in done then Waiting(nodes[1..], done)
    else [Pending(nodes[0].id, Elements(nodes[0].dependsOn) - Elements(done))] + Waiting(nodes[1..], done)
  }

  lemma {:induction false} NothingDone(nodes: seq<Node>)
    ensures |Waiting(nodes, [])| == |nodes|
    ensures forall i | 0 <= i < |nodes| :: Waiting(nodes, [])[i] == Pending(nodes[i].id, Elements(nodes[i].dependsOn))
  {
    if nodes != [] {
      NothingDone(nodes[1..]);
      assert Elements(nodes[0].dependsOn) - Elements([]) == Elements(nodes[0].dependsOn);
    }
  }

  lemma {:induction false} WaitingIds(nodes: seq<Node>, done: seq<string>)
    ensures Waiting(nodes, done) == [] <==> forall n | n in nodes :: n.id in done
  {
    if nodes != [] {
      WaitingIds(nodes[1..], done);
      assert forall n :: n in nodes <==> n == nodes[0] || n in nodes[1..];
    }
  }

  predicate IsReady(n: Node, done: seq<string>) {
    n.id !in done && forall d | d in n.dependsOn :: d in done
  }

  lemma NothingLeft(deps: seq<string>, done: seq<string>)
    ensures Elements(deps) - Elements(done) == {} <==> forall d | d in deps :: d in done
  {
    if Elements(deps) - Elements(done) == {} {
      forall d | d in deps ensures d in done { assert d !in Elements(deps) - Elements(done); }
    }
  }

  lemma {:induction false} ReadyNodes(nodes: seq<Node>, done: seq<string>)
    ensures forall id :: id in Ready(Waiting(nodes, done)) <==> exists n :: n in nodes && n.id == id && IsReady(n, done)
  {
    if nodes != [] {
      ReadyNodes(nodes[1..], done);
      assert forall n :: n in nodes <==> n == nodes[0] || n in nodes[1..];
      NothingLeft(nodes[0].dependsOn, done);
      if nodes[0].id !in done {
        var first := Pending(nodes[0].id, Elements(nodes[0].dependsOn) - Elements(done));
        assert ([first] + Waiting(nodes[1..], done))[1..] == Waiting(nodes[1..], done);
      }
    }
  }

  lemma {:induction false} ReadyDistinct(nodes: seq<Node>, done: seq<string>)
    requires DistinctIds(nodes)
    ensures Distinct(Ready(Waiting(nodes, done)))
  {
    if nodes != [] {
      ReadyDistinct(nodes[1..], done);
      ReadyNodes(nodes[1..], done);
      assert forall n | n in nodes[1..] :: n.id != nodes[0].id;
      if nodes[0].id !in done {
        var first := Pending(nodes[0].id, Elements(nodes[0].dependsOn) - Elements(done));
        assert ([first] + Waiting(nodes[1..], done))[1..] == Waiting(nodes[1..], done);
        DistinctAppend([nodes[0].id], Ready(Waiting(nodes[1..], done)));
      }
    }
  }

  /** Removing the ready nodes leaves what waits once they are done. */
  lemma {:induction false} NextWaiting(nodes: seq<Node>, done: seq<string>, next: seq<string>, ready: set<string>)
    requires Elements(next) == Elements(done) + ready
    requires forall n | n in nodes && n.id !in done :: n.id in ready <==> IsReady(n, done)
    ensures Blocked(Waiting(nodes, done), ready) == Waiting(nodes, next)
  {
    if nodes != [] {
      var n := nodes[0];
      assert n in nodes;
      NextWaiting(nodes[1..], done, next, ready);
      NothingLeft(n.dependsOn, done);
      assert n.id in next <==> n.id in Elements(next);
      if n.id !in done {
        var left := Elements(n.dependsOn) - Elements(done);
        assert left - ready == Elements(n.dependsOn) - Elements(next);
        assert ([Pending(n.id, left)] + Waiting(nodes[1..], done))[1..] == Waiting(nodes[1..], done);
      }
    }
  }

  // ------------------------------------------------------------- the growing order

  /** A topological order as far as it goes. */
  ghost predicate Prefix(nodes: seq<Node>, order: seq<string>) {
    && Distinct(order)
    && (forall id | id in order :: HasId(nodes, id))
    && (forall n, k | n in nodes && 0 <= k < |order| && order[k] == n.id ::
          forall d | d in n.dependsOn :: d in order[..k])
  }

  lemma ReadyMore(nodes: seq<Node>, order: seq<string>, ready: seq<string>)
    requires DistinctIds(nodes) && Prefix(nodes, order) && Distinct(ready)
    requires forall id :: id in ready <==> exists n :: n in nodes && n.id == id && IsReady(n, order)
    ensures Prefix(nodes, order + ready)
  {
    var next := order + ready;
    forall id | id in ready ensures HasId(nodes, id) && id !in order {
      var n :| n in nodes && n.id == id && IsReady(n, order);
      var i :| 0 <= i < |nodes| && nodes[i] == n;
    }
    DistinctAppend(order, ready);
    forall n, k | n in nodes && 0 <= k < |next| && next[k] == n.id
      ensures forall d | d in n.dependsOn :: d in next[..k]
    {
      if k < |order| {
        assert next[..k] == order[..k];
      } else {
        assert n.id == ready[k - |order|] && ready[k - |order|] in ready;
        var m :| m in nodes && m.id == n.id && IsReady(m, order);
        SameNode(nodes, m, n);
        assert next[..k] == order + ready[..k - |order|];
      }
    }
  }

  lemma SameNode(nodes: seq<Node>, m: Node, n: Node)
    requires DistinctIds(nodes) && m in nodes && n in nodes && m.id == n.id
    ensures m == n
  {
    var i :| 0 <= i < |nodes| && nodes[i] == m;
    var j :| 0 <= j < |nodes| && nodes[j] == n;
  }

  lemma DistinctAppend(a: seq<string>, b: seq<string>)
    requires Distinct(a) && Distinct(b) && forall x | x in b :: x !in a
    ensures Distinct(a + b)
  {
    var s := a + b;
    forall i, j | 0 <= i < j < |s| ensures s[i] != s[j] {
      if i < |a| <= j { assert s[i] in a && s[j] in b; }
    }
  }

  lemma AllDone(nodes: seq<Node>, order: seq<string>)
    requires Prefix(nodes, order) && Waiting(nodes, order) == []
    ensures Topological(nodes, order)
  {
    WaitingIds(nodes, order);
    forall id | HasId(nodes, id) ensures id in order {
      var i :| 0 <= i < |nodes| && nodes[i].id == id;
      assert nodes[i] in nodes;
    }
  }

  lemma NoneReady(nodes: seq<Node>, order: seq<string>) returns (waiting: set<string>)
    requires Waiting(nodes, order) != []
    requires forall n | n in nodes :: !IsReady(n, order)
    ensures Stuck(nodes, waiting)
  {
    hide HasId;
    WaitingIds(nodes, order);
    waiting := set n | n in nodes && n.id !in order :: n.id;
    var some :| some in nodes && some.id !in order;
    assert some.id in waiting;
    forall id | id in waiting ensures HasId(nodes, id) { HasIdIs(nodes, id); }
    forall n | n in nodes && n.id in waiting
      ensures exists d :: d in n.dependsOn && (d in waiting || !HasId(nodes, d))
    {
      assert !IsReady(n, order);
      var d :| d in n.dependsOn && d !in order;
      HasIdIs(nodes, d);
    }
  }

  /** Kahn's algorithm, layer by layer, on any nodes; `None` is the cycle error. */
  method TopologicalOrder(nodes: seq<Node>) returns (order: Option<seq<string>>)
    ensures order.Some? ==> Topological(Table(nodes), order.value)
    ensures order.None? <==> exists waiting :: Stuck(Table(nodes), waiting)
  {
    hide DistinctIds, Prefix, Topological, Stuck, Waiting, Ready, Blocked, IsReady, Sort, Table;
    var table := Table(nodes);
    TableIds(nodes);
    var done: seq<string> := [];
    var remaining := Waiting(table, []);
    StartOfOrder(table);
    while remaining != []
      invariant remaining == Waiting(table, done)
      invariant Prefix(table, done)
      decreases |remaining|
    {
      var ready := Sort(Ready(remaining), StringLe);
      SortMembers(Ready(remaining), StringLe);
      ReadyNodes(table, done);
      if ready == [] {
        NoReady(table, done);
        ghost var waiting := NoneReady(table, done);
        return None;
      }
      SortedDistinct(table, done);
      ReadyMore(table, done, ready);
      Layer(table, done, ready);
      FewerLeft(remaining, Elements(ready));
      remaining := Blocked(remaining, Elements(ready));
      done := done + ready;
    }
    AllDone(table, done);
    forall waiting ensures !Stuck(table, waiting) { NotBoth(table, done, waiting); }
    return Some(done);
  }

  lemma StartOfOrder(nodes: seq<Node>)
    ensures Prefix(nodes, [])
  {
  }

  lemma NoReady(nodes: seq<Node>, done: seq<string>)
    requires Ready(Waiting(nodes, done)) == []
    ensures forall n | n in nodes :: !IsReady(n, done)
  {
    hide Ready, Waiting, IsReady;
    ReadyNodes(nodes, done);
    forall n | n in nodes ensures !IsReady(n, done) {
      assert n.id !in Ready(Waiting(nodes, done));
    }
  }

  lemma SortedDistinct(nodes: seq<Node>, done: seq<string>)
    requires DistinctIds(nodes)
    ensures Distinct(Sort(Ready(Waiting(nodes, done)), StringLe))
  {
    hide Distinct, Sort, Ready, Waiting;
    ReadyDistinct(nodes, done);
    DistinctPermuted(Sort(Ready(Waiting(nodes, done)), StringLe), Ready(Waiting(nodes, done)));
  }

  lemma Layer(nodes: seq<Node>, done: seq<string>, ready: seq<string>)
    requires DistinctIds(nodes)
    requires forall id :: id in ready <==> exists n :: n in nodes && n.id == id && IsReady(n, done)
    ensures Blocked(Waiting(nodes, done), Elements(ready)) == Waiting(nodes, done + ready)
  {
    hide Waiting, Blocked, IsReady, DistinctIds;
    forall n | n in nodes && n.id !in done ensures n.id in Elements(ready) <==> IsReady(n, done) {
      if n.id in ready {
        var m :| m in nodes && m.id == n.id && IsReady(m, done);
        SameNode(nodes, m, n);
      }
    }
    assert Elements(done + ready) == Elements(done) + Elements(ready);
    NextWaiting(nodes, done, done + ready, Elements(ready));
  }

  lemma {:induction false} FewerLeft(pending: seq<Pending>, done: set<string>)
    ensures |Blocked(pending, done)| <= |pending|
    ensures Ready(pending) != [] ==> |Blocked(pending, done)| < |pending|
  {
    if pending != [] { FewerLeft(pending[1..], done); }
  }
}
