/**
  The scenario editor's compiler: a graph of trigger, condition and action nodes becomes a list of
  rules, by walking the graph from every edge that leaves a trigger into a shared action list.
 */
module ScenarioGraph {
  import opened Common

  type Id = string

  datatype Op = Equals | Contains | Exists | Gt | Lt

  datatype Cond = Cond(field: string, op: Op, value: string)

  datatype Do = Do(action: string, params: map<string, string>)

  datatype Node =
    | Trigger(id: Id, trigger: string, intent: string)
    | Condition(id: Id, cond: Cond)
    | Action(id: Id, entry: Do)

  datatype Edge = Edge(source: Id, target: Id, handle: Option<string>)

  datatype Graph = Graph(nodes: seq<Node>, edges: seq<Edge>)

  datatype Rule = Rule(when: string, intent: Option<string>, conditions: seq<Cond>, actions: seq<Do>)

  /** `byId.get(id)`: of several nodes with one id the last counts. */
  function Lookup(nodes: seq<Node>, id: Id): Option<Node> {
    if nodes == [] then None
    else if nodes[|nodes|-1].id == id then Some(nodes[|nodes|-1])
    else Lookup(nodes[..|nodes|-1], id)
  }

  /** `edges.filter((e) => e.source === id)`, as edge numbers. */
  function OutsFrom(g: Graph, id: Id, k: nat): (r: seq<nat>)
    requires k <= |g.edges|
    ensures forall i | 0 <= i < |r| :: k <= r[i] < |g.edges| && g.edges[r[i]].source == id
    decreases |g.edges| - k
  {
    if k == |g.edges| then []
    else (if g.edges[k].source == id then [k] else []) + OutsFrom(g, id, k + 1)
  }

  function Outs(g: Graph, id: Id): (r: seq<nat>)
    ensures forall i | 0 <= i < |r| :: 0 <= r[i] < |g.edges| && g.edges[r[i]].source == id
  {
    OutsFrom(g, id, 0)
  }

  /** The walk goes on from conditions and actions; it stops at triggers and at ids that are no node. */
  predicate Active(g: Graph, id: Id) {
    var n := Lookup(g.nodes, id);
    n.Some? && !n.value.Trigger?
  }

  function ActionOf(g: Graph, id: Id): seq<Do> {
    match Lookup(g.nodes, id)
    case Some(Action(_, entry)) => [entry]
    case _ => []
  }

  /** `invert`. */
  function Invert(op: Op): Op {
    match op
    case Equals => Contains
    case Exists => Exists
    case Contains => Equals
    case Gt => Lt
    case Lt => Gt
  }

  /** Inverting is undone by inverting, so it is a pairing of operators; it leaves `exists` as it is. */
  lemma {:induction false} InvertIsAPairing(op: Op)
    ensures Invert(Invert(op)) == op && (Invert(op) == op <==> op == Exists)
    ensures Invert(Equals) == Contains && Invert(Gt) == Lt
  {
  }

  // ---------------------------------------------------------------------
  // The walk as a function of its depth
  // ---------------------------------------------------------------------

  /** The actions a walk from `id` collects if it nests less than `fuel` deep; None if it nests deeper. */
  function Preorder(g: Graph, id: Id, fuel: nat): Option<seq<Do>>
    decreases fuel, 0, 0
  {
    if fuel == 0 then None
    else if !Active(g, id) then Some([])
    else
      match PreorderAll(g, Outs(g, id), fuel - 1)
      case None => None
      case Some(below) => Some(ActionOf(g, id) + below)
  }

  function PreorderAll(g: Graph, outs: seq<nat>, fuel: nat): Option<seq<Do>>
    requires forall i | 0 <= i < |outs| :: outs[i] < |g.edges|
    decreases fuel, 1, |outs|
  {
    if outs == [] then Some([])
    else
      match Preorder(g, g.edges[outs[0]].target, fuel)
      case None => None
      case Some(first) =>
        match PreorderAll(g, outs[1..], fuel)
        case None => None
        case Some(rest) => Some(first + rest)
  }

  // ---------------------------------------------------------------------
  // Paths
  // ---------------------------------------------------------------------

  /** Node `i` is the last one with this id. */
  ghost predicate LastAt(nodes: seq<Node>, id: Id, i: nat) {
    i < |nodes| && nodes[i].id == id && forall j | i < j < |nodes| :: nodes[j].id != id
  }

  lemma {:induction false} LookupExactly(nodes: seq<Node>, id: Id)
    ensures forall i: nat :: LastAt(nodes, id, i) ==> Lookup(nodes, id) == Some(nodes[i])
    ensures Lookup(nodes, id).Some? ==> exists i: nat :: LastAt(nodes, id, i)
    ensures Lookup(nodes, id).None? ==> forall i | 0 <= i < |nodes| :: nodes[i].id != id
  {
    if nodes != [] {
      var init, last := nodes[..|nodes|-1], |nodes| - 1;
      LookupExactly(init, id);
      if nodes[last].id == id {
        assert LastAt(nodes, id, last);
      } else if Lookup(nodes, id).Some? {
        var i: nat :| LastAt(init, id, i);
        assert LastAt(nodes, id, i);
      }
      forall i: nat | LastAt(nodes, id, i)
        ensures Lookup(nodes, id) == Some(nodes[i])
      {
        if i < last {
          assert nodes[last].id != id;
          assert LastAt(init, id, i) && init[i] == nodes[i];
        }
      }
    }
  }

  /** The id names a condition or an action. */
  ghost predicate LeadsOn(g: Graph, id: Id) {
    exists i: nat :: LastAt(g.nodes, id, i) && !g.nodes[i].Trigger?
  }

  lemma {:induction false} ActiveExactly(g: Graph, id: Id)
    ensures Active(g, id) <==> LeadsOn(g, id)
  {
    LookupExactly(g.nodes, id);
  }

  /** A directed path, as the numbers of its edges; it can leave only conditions and actions. */
  ghost predicate IsPath(g: Graph, id: Id, p: seq<nat>)
    decreases |p|
  {
    p == [] || (&& LeadsOn(g, id) && p[0] < |g.edges| && g.edges[p[0]].source == id
                && IsPath(g, g.edges[p[0]].target, p[1..]))
  }

  ghost function EndOf(g: Graph, id: Id, p: seq<nat>): Id
    decreases |p|
  {
    if p == [] || p[0] >= |g.edges| then id else EndOf(g, g.edges[p[0]].target, p[1..])
  }

  /** A path that returns to where it started. */
  ghost predicate IsCycle(g: Graph, id: Id, c: seq<nat>) {
    c != [] && IsPath(g, id, c) && EndOf(g, id, c) == id
  }

  ghost predicate LeadsToCycle(g: Graph, id: Id, p: seq<nat>, c: seq<nat>) {
    IsPath(g, id, p) && IsCycle(g, EndOf(g, id, p), c)
  }

  ghost predicate ReachesCycle(g: Graph, id: Id) {
    exists p, c :: LeadsToCycle(g, id, p, c)
  }

  /** Order of paths: a path comes before its continuations, and edges in the order of the edge list. */
  predicate Before(p: seq<nat>, q: seq<nat>) {
    q != [] && (p == [] || p[0] < q[0] || (p[0] == q[0] && Before(p[1..], q[1..])))
  }

  ghost predicate InOrder(ps: seq<seq<nat>>) {
    forall i, j | 0 <= i < j < |ps| :: Before(ps[i], ps[j])
  }

  /** The entry of the action that an id names, if it names one. */
  ghost function EntryAt(g: Graph, id: Id): seq<Do> {
    if exists i: nat :: LastAt(g.nodes, id, i) && g.nodes[i].Action? then
      var i: nat :| LastAt(g.nodes, id, i) && g.nodes[i].Action?;
      [g.nodes[i].entry]
    else []
  }

  lemma {:induction false} ActionExactly(g: Graph, id: Id)
    ensures ActionOf(g, id) == EntryAt(g, id)
  {
    LookupExactly(g.nodes, id);
  }

  /** The actions at the ends of the given paths. */
  ghost function ActionsAt(g: Graph, id: Id, ps: seq<seq<nat>>): seq<Do> {
    if ps == [] then [] else ActionsAt(g, id, ps[..|ps|-1]) + EntryAt(g, EndOf(g, id, ps[|ps|-1]))
  }

  // ---------------------------------------------------------------------
  // The walk visits every path once, in order
  // ---------------------------------------------------------------------

  ghost function Prefixed(e: nat, ps: seq<seq<nat>>): seq<seq<nat>> {
    seq(|ps|, i requires 0 <= i < |ps| => [e] + ps[i])
  }

  /** The paths from `id` in the order in which the walk follows them. */
  ghost function Paths(g: Graph, id: Id, fuel: nat): seq<seq<nat>>
    decreases fuel, 0, 0
  {
    if fuel == 0 || !Active(g, id) then [[]] else [[]] + PathsAll(g, Outs(g, id), fuel - 1)
  }

  ghost function PathsAll(g: Graph, outs: seq<nat>, fuel: nat): seq<seq<nat>>
    requires forall i | 0 <= i < |outs| :: outs[i] < |g.edges|
    decreases fuel, 1, |outs|
  {
    if outs == [] then []
    else Prefixed(outs[0], Paths(g, g.edges[outs[0]].target, fuel)) + PathsAll(g, outs[1..], fuel)
  }

  lemma {:induction false} OutsComplete(g: Graph, id: Id, k: nat)
    requires k <= |g.edges|
    ensures forall e :: e in OutsFrom(g, id, k) <==> k <= e < |g.edges| && g.edges[e].source == id
    ensures forall i, j | 0 <= i < j < |OutsFrom(g, id, k)| :: OutsFrom(g, id, k)[i] < OutsFrom(g, id, k)[j]
    decreases |g.edges| - k
  {
    if k < |g.edges| {
      OutsComplete(g, id, k + 1);
    }
  }

  lemma {:induction false} InPrefixed(e: nat, ps: seq<seq<nat>>, p: seq<nat>)
    ensures p in Prefixed(e, ps) <==> p != [] && p[0] == e && p[1..] in ps
  {
    if p != [] && p[0] == e && p[1..] in ps {
      var i :| 0 <= i < |ps| && ps[i] == p[1..];
      assert p == [e] + p[1..];
      assert Prefixed(e, ps)[i] == p;
    }
    if p in Prefixed(e, ps) {
      var i :| 0 <= i < |ps| && Prefixed(e, ps)[i] == p;
      assert p[1..] == ps[i];
    }
  }

  lemma {:induction false} PathsComplete(g: Graph, id: Id, fuel: nat, p: seq<nat>)
    requires Preorder(g, id, fuel).Some?
    ensures p in Paths(g, id, fuel) <==> IsPath(g, id, p)
    decreases fuel, 0, 0
  {
    ActiveExactly(g, id);
    hide LeadsOn;
    if Active(g, id) {
      OutsComplete(g, id, 0);
      PathsAllComplete(g, Outs(g, id), fuel - 1, p);
    }
  }

  lemma {:induction false} PathsAllComplete(g: Graph, outs: seq<nat>, fuel: nat, p: seq<nat>)
    requires forall i | 0 <= i < |outs| :: outs[i] < |g.edges|
    requires PreorderAll(g, outs, fuel).Some?
    ensures p in PathsAll(g, outs, fuel) <==>
              p != [] && p[0] in outs && p[0] < |g.edges| && IsPath(g, g.edges[p[0]].target, p[1..])
    decreases fuel, 1, |outs|
  {
    if outs != [] {
      var t := g.edges[outs[0]].target;
      InPrefixed(outs[0], Paths(g, t, fuel), p);
      if p != [] {
        PathsComplete(g, t, fuel, p[1..]);
      }
      PathsAllComplete(g, outs[1..], fuel, p);
      hide IsPath, Paths, Preorder;
      assert outs == [outs[0]] + outs[1..];
    }
  }

  lemma {:induction false} PrefixedInOrder(e: nat, ps: seq<seq<nat>>)
    requires InOrder(ps)
    ensures InOrder(Prefixed(e, ps))
  {
    forall i, j | 0 <= i < j < |ps|
      ensures Before(Prefixed(e, ps)[i], Prefixed(e, ps)[j])
    {
      assert ([e] + ps[i])[1..] == ps[i] && ([e] + ps[j])[1..] == ps[j];
      assert Before(ps[i], ps[j]);
    }
  }

  lemma {:induction false} PathsInOrder(g: Graph, id: Id, fuel: nat)
    ensures InOrder(Paths(g, id, fuel))
    decreases fuel, 0, 0
  {
    if fuel > 0 && Active(g, id) {
      OutsComplete(g, id, 0);
      PathsAllInOrder(g, Outs(g, id), fuel - 1);
    }
  }

  lemma {:induction false} PathsAllInOrder(g: Graph, outs: seq<nat>, fuel: nat)
    requires forall i | 0 <= i < |outs| :: outs[i] < |g.edges|
    requires forall i, j | 0 <= i < j < |outs| :: outs[i] < outs[j]
    ensures InOrder(PathsAll(g, outs, fuel))
    ensures forall p <- PathsAll(g, outs, fuel) :: p != [] && p[0] in outs
    decreases fuel, 1, |outs|
  {
    if outs != [] {
      var first := Paths(g, g.edges[outs[0]].target, fuel);
      PathsInOrder(g, g.edges[outs[0]].target, fuel);
      PrefixedInOrder(outs[0], first);
      PathsAllInOrder(g, outs[1..], fuel);
      hide Paths, Prefixed;
      TwoRuns(outs, Prefixed(outs[0], first), PathsAll(g, outs[1..], fuel)) by {
        forall p | p in Prefixed(outs[0], first)
          ensures p != [] && p[0] == outs[0]
        {
          InPrefixed(outs[0], first, p);
        }
      }
    }
  }

  lemma {:induction false} TwoRuns(outs: seq<nat>, a: seq<seq<nat>>, b: seq<seq<nat>>)
    requires outs != [] && (forall i, j | 0 <= i < j < |outs| :: outs[i] < outs[j])
    requires InOrder(a) && InOrder(b)
    requires forall p <- a :: p != [] && p[0] == outs[0]
    requires forall p <- b :: p != [] && p[0] in outs[1..]
    ensures InOrder(a + b)
    ensures forall p <- a + b :: p != [] && p[0] in outs
  {
    forall i, j | 0 <= i < j < |a + b|
      ensures Before((a + b)[i], (a + b)[j])
    {
      if i < |a| <= j {
        assert a[i] in a && b[j - |a|] in b;
      }
    }
  }

  lemma {:induction false} ActionsAppend(g: Graph, id: Id, a: seq<seq<nat>>, b: seq<seq<nat>>)
    ensures ActionsAt(g, id, a + b) == ActionsAt(g, id, a) + ActionsAt(g, id, b)
  {
    hide EntryAt, EndOf;
    if b == [] {
      assert a + b == a;
    } else {
      ActionsAppend(g, id, a, b[..|b|-1]);
      assert (a + b)[..|a + b|-1] == a + b[..|b|-1];
    }
  }

  lemma {:induction false} ActionsPrefixed(g: Graph, id: Id, e: nat, ps: seq<seq<nat>>)
    requires e < |g.edges|
    ensures ActionsAt(g, id, Prefixed(e, ps)) == ActionsAt(g, g.edges[e].target, ps)
  {
    hide EntryAt;
    if ps != [] {
      var init, p := ps[..|ps|-1], ps[|ps|-1];
      ActionsPrefixed(g, id, e, init);
      assert Prefixed(e, ps)[..|ps|-1] == Prefixed(e, init);
      assert ([e] + p)[1..] == p;
    }
  }

  lemma {:induction false} PreorderIsActions(g: Graph, id: Id, fuel: nat)
    requires Preorder(g, id, fuel).Some?
    ensures Preorder(g, id, fuel).value == ActionsAt(g, id, Paths(g, id, fuel))
    decreases fuel, 0, 0
  {
    hide ActionsAt, PathsAll, PreorderAll, Outs, Lookup;
    OnlyRoot(g, id);
    if Active(g, id) {
      PreorderAllIsActions(g, id, Outs(g, id), fuel - 1);
      ActionsAppend(g, id, [[]], PathsAll(g, Outs(g, id), fuel - 1));
    }
  }

  lemma {:induction false} OnlyRoot(g: Graph, id: Id)
    ensures ActionsAt(g, id, [[]]) == ActionOf(g, id)
    ensures !Active(g, id) ==> ActionOf(g, id) == []
  {
    ActionExactly(g, id);
    hide EntryAt;
    var root: seq<seq<nat>> := [[]];
    assert root[..0] == [] && root[0] == [];
  }

  lemma {:induction false} PreorderAllIsActions(g: Graph, id: Id, outs: seq<nat>, fuel: nat)
    requires forall i | 0 <= i < |outs| :: outs[i] < |g.edges|
    requires PreorderAll(g, outs, fuel).Some?
    ensures PreorderAll(g, outs, fuel).value == ActionsAt(g, id, PathsAll(g, outs, fuel))
    decreases fuel, 1, |outs|
  {
    if outs != [] {
      var t := g.edges[outs[0]].target;
      PreorderIsActions(g, t, fuel);
      ActionsPrefixed(g, id, outs[0], Paths(g, t, fuel));
      PreorderAllIsActions(g, id, outs[1..], fuel);
      ActionsAppend(g, id, Prefixed(outs[0], Paths(g, t, fuel)), PathsAll(g, outs[1..], fuel));
    }
  }

  /**
    What the walk collects: there is a list of exactly the directed paths from `id`, each once, in the
    order of the edge list with every path before its continuations, and the collected actions are the
    actions at the ends of these paths, in that order. So an action occurs once per path to it.
   */
  lemma {:induction false} WalkFollowsPaths(g: Graph, id: Id, fuel: nat) returns (ps: seq<seq<nat>>)
    requires Preorder(g, id, fuel).Some?
    ensures forall p :: p in ps <==> IsPath(g, id, p)
    ensures InOrder(ps) && (forall i, j | 0 <= i < j < |ps| :: ps[i] != ps[j])
    ensures Preorder(g, id, fuel).value == ActionsAt(g, id, ps)
  {
    ps := Paths(g, id, fuel);
    forall p
      ensures p in ps <==> IsPath(g, id, p)
    {
      PathsComplete(g, id, fuel, p);
    }
    PathsInOrder(g, id, fuel);
    forall i, j | 0 <= i < j < |ps|
      ensures ps[i] != ps[j]
    {
      assert Before(ps[i], ps[j]);
      NotBeforeItself(ps[i]);
    }
    PreorderIsActions(g, id, fuel);
  }

  lemma {:induction false} NotBeforeItself(p: seq<nat>)
    ensures !Before(p, p)
  {
    if p != [] {
      NotBeforeItself(p[1..]);
    }
  }

  // ---------------------------------------------------------------------
  // The walk terminates exactly when no cycle can be reached
  // ---------------------------------------------------------------------

  /** A walk that nests at least `fuel` deep follows a path of that length. */
  lemma {:induction false} DeepWalk(g: Graph, id: Id, fuel: nat) returns (p: seq<nat>)
    requires Preorder(g, id, fuel).None?
    ensures |p| == fuel && IsPath(g, id, p)
    decreases fuel, 0
  {
    if fuel == 0 {
      p := [];
    } else {
      ActiveExactly(g, id);
      var outs := Outs(g, id);
      var i := DeepBranch(g, outs, fuel - 1);
      var rest := DeepWalk(g, g.edges[outs[i]].target, fuel - 1);
      p := [outs[i]] + rest;
      assert p[1..] == rest;
    }
  }

  lemma {:induction false} DeepBranch(g: Graph, outs: seq<nat>, fuel: nat) returns (i: nat)
    requires forall i | 0 <= i < |outs| :: outs[i] < |g.edges|
    requires PreorderAll(g, outs, fuel).None?
    ensures i < |outs| && Preorder(g, g.edges[outs[i]].target, fuel).None?
  {
    if Preorder(g, g.edges[outs[0]].target, fuel).None? {
      i := 0;
    } else {
      var j := DeepBranch(g, outs[1..], fuel);
      i := j + 1;
    }
  }

  lemma {:induction false} BranchDeep(g: Graph, outs: seq<nat>, fuel: nat, i: nat)
    requires forall i | 0 <= i < |outs| :: outs[i] < |g.edges|
    requires i < |outs| && Preorder(g, g.edges[outs[i]].target, fuel).None?
    ensures PreorderAll(g, outs, fuel).None?
  {
    if i > 0 {
      BranchDeep(g, outs[1..], fuel, i - 1);
    }
  }

  lemma {:induction false} PathSplit(g: Graph, id: Id, p: seq<nat>, k: nat)
    requires IsPath(g, id, p) && k <= |p|
    ensures IsPath(g, id, p[..k]) && IsPath(g, EndOf(g, id, p[..k]), p[k..])
    ensures EndOf(g, EndOf(g, id, p[..k]), p[k..]) == EndOf(g, id, p)
    decreases |p|
  {
    if k > 0 {
      PathSplit(g, g.edges[p[0]].target, p[1..], k - 1);
      assert p[..k][1..] == p[1..][..k - 1] && p[1..][k - 1..] == p[k..];
    } else {
      assert p[..0] == [] && p[0..] == p;
    }
  }

  /** Where there is a way into a cycle, one edge of it can be followed and there still is. */
  lemma {:induction false} StillReachesCycle(g: Graph, id: Id) returns (e: nat)
    requires ReachesCycle(g, id)
    ensures Active(g, id) && e < |g.edges| && g.edges[e].source == id && ReachesCycle(g, g.edges[e].target)
  {
    ActiveExactly(g, id);
    hide LeadsOn;
    var p, c :| LeadsToCycle(g, id, p, c);
    if p != [] {
      e := p[0];
      assert LeadsToCycle(g, g.edges[e].target, p[1..], c);
    } else {
      e := c[0];
      assert LeadsToCycle(g, g.edges[e].target, c[1..], c);
    }
  }

  lemma {:induction false} CycleNeverEnds(g: Graph, id: Id, fuel: nat)
    requires ReachesCycle(g, id)
    ensures Preorder(g, id, fuel).None?
    decreases fuel
  {
    hide ReachesCycle, LeadsOn, Lookup, PreorderAll, OutsFrom;
    if fuel > 0 {
      var e := StillReachesCycle(g, id);
      CycleNeverEnds(g, g.edges[e].target, fuel - 1);
      OutsComplete(g, id, 0);
      var i :| 0 <= i < |Outs(g, id)| && Outs(g, id)[i] == e;
      BranchDeep(g, Outs(g, id), fuel - 1, i);
    }
  }

  function Ids(nodes: seq<Node>): set<Id> {
    if nodes == [] then {} else Ids(nodes[..|nodes|-1]) + {nodes[|nodes|-1].id}
  }

  lemma {:induction false} IdsOfNodes(nodes: seq<Node>, id: Id)
    ensures |Ids(nodes)| <= |nodes|
    ensures Lookup(nodes, id).Some? ==> id in Ids(nodes)
  {
    if nodes != [] {
      IdsOfNodes(nodes[..|nodes|-1], id);
    }
  }

  /** Among more items than a set has members, two are the same. */
  lemma {:induction false} Pigeonhole(items: seq<Id>, s: set<Id>) returns (i: nat, j: nat)
    requires |items| > |s| && forall k | 0 <= k < |items| :: items[k] in s
    ensures i < j < |items| && items[i] == items[j]
    decreases |items|
  {
    var last := items[|items|-1];
    if k: nat :| k < |items| - 1 && items[k] == last {
      i, j := k, |items| - 1;
    } else {
      var init := items[..|items|-1];
      i, j := Pigeonhole(init, s - {last});
    }
  }

  /** A path with more edges than there are nodes runs through a cycle. */
  lemma {:induction false} LongPathHasCycle(g: Graph, id: Id, p: seq<nat>)
    requires IsPath(g, id, p) && |p| > |g.nodes|
    ensures ReachesCycle(g, id)
  {
    var visited: seq<Id> := seq(|p|, k requires 0 <= k < |p| => EndOf(g, id, p[..k]));
    forall k | 0 <= k < |p|
      ensures visited[k] in Ids(g.nodes)
    {
      PathSplit(g, id, p, k);
      ActiveExactly(g, visited[k]);
      IdsOfNodes(g.nodes, visited[k]);
    }
    IdsOfNodes(g.nodes, id);
    var i, j := Pigeonhole(visited, Ids(g.nodes));
    PathSplit(g, id, p, j);
    PathSplit(g, id, p[..j], i);
    assert p[..j][..i] == p[..i];
    assert LeadsToCycle(g, id, p[..i], p[..j][i..]);
  }

  /** The walk from a node ends if and only if no cycle can be reached from it, and then within |nodes| nested calls. */
  lemma {:induction false} WalkTerminatesExactly(g: Graph, id: Id)
    ensures (exists fuel: nat :: Preorder(g, id, fuel).Some?) <==> !ReachesCycle(g, id)
    ensures !ReachesCycle(g, id) ==> Preorder(g, id, |g.nodes| + 1).Some?
  {
    hide *;
    if ReachesCycle(g, id) {
      forall fuel: nat
        ensures Preorder(g, id, fuel).None?
      {
        CycleNeverEnds(g, id, fuel);
      }
    } else {
      var enough: nat := |g.nodes| + 1;
      if Preorder(g, id, enough).None? {
        var p := DeepWalk(g, id, enough);
        LongPathHasCycle(g, id, p);
      }
      assert Preorder(g, id, enough).Some?;
    }
  }

  // ---------------------------------------------------------------------
  // walk and compileGraph
  // ---------------------------------------------------------------------

  /** The `path` array shared by all calls of `walk` for one rule. */
  class ActionList {
    var items: seq<Do>

    constructor ()
      ensures items == []
    {
      items := [];
    }

    method Push(entry: Do)
      modifies this
      ensures items == old(items) + [entry]
    {
      items := items + [entry];
    }
  }

  lemma {:induction false} NextBranch(g: Graph, outs: seq<nat>, i: nat, fuel: nat)
    requires forall i | 0 <= i < |outs| :: outs[i] < |g.edges|
    requires i < |outs| && PreorderAll(g, outs[i..], fuel).Some?
    ensures Preorder(g, g.edges[outs[i]].target, fuel).Some? && PreorderAll(g, outs[i + 1..], fuel).Some?
    ensures PreorderAll(g, outs[i..], fuel).value
         == Preorder(g, g.edges[outs[i]].target, fuel).value + PreorderAll(g, outs[i + 1..], fuel).value
  {
    assert outs[i..][1..] == outs[i + 1..];
  }

  /** One branch of the walk moves its actions from what is still to come to what is collected. */
  lemma {:induction false} Collected(g: Graph, outs: seq<nat>, i: nat, fuel: nat, before: seq<Do>, after: seq<Do>)
    requires forall i | 0 <= i < |outs| :: outs[i] < |g.edges|
    requires i < |outs| && PreorderAll(g, outs[i..], fuel).Some?
    requires Preorder(g, g.edges[outs[i]].target, fuel).Some?
    requires after == before + Preorder(g, g.edges[outs[i]].target, fuel).value
    ensures PreorderAll(g, outs[i + 1..], fuel).Some?
    ensures after + PreorderAll(g, outs[i + 1..], fuel).value == before + PreorderAll(g, outs[i..], fuel).value
  {
    NextBranch(g, outs, i, fuel);
  }

  lemma {:induction false} Enter(g: Graph, id: Id, fuel: nat)
    requires Preorder(g, id, fuel).Some?
    ensures Active(g, id) ==> fuel > 0 && PreorderAll(g, Outs(g, id), fuel - 1).Some?
    ensures Preorder(g, id, fuel).value
         == if !Active(g, id) then []
            else if ActionOf(g, id) == [] then PreorderAll(g, Outs(g, id), fuel - 1).value
            else ActionOf(g, id) + PreorderAll(g, Outs(g, id), fuel - 1).value
  {
  }

  /** `walk`: appends to the shared list what lies below `id`. The branch conditions go down and are never read. */
  method Walk(g: Graph, id: Id, path: ActionList, conditions: seq<Cond>, ghost fuel: nat)
    requires Preorder(g, id, fuel).Some?
    modifies path
    ensures path.items == old(path.items) + Preorder(g, id, fuel).value
    decreases fuel
  {
    hide Lookup, Outs, PreorderAll, Preorder, Invert;
    Enter(g, id, fuel);
    var n := Lookup(g.nodes, id);
    if n.None? {
      return;
    }
    match n.value
    case Condition(_, c) =>
      var outs := Outs(g, id);
      assert outs[0..] == outs;
      var i := 0;
      while i < |outs|
        invariant i <= |outs| && PreorderAll(g, outs[i..], fuel - 1).Some?
        invariant path.items + PreorderAll(g, outs[i..], fuel - 1).value
               == old(path.items) + Preorder(g, id, fuel).value
      {
        var e := g.edges[outs[i]];
        var branch := if e.handle == Some("no") then c.(op := Invert(c.op)) else c;
        NextBranch(g, outs, i, fuel - 1);
        ghost var before := path.items;
        Walk(g, e.target, path, conditions + [branch], fuel - 1);
        Collected(g, outs, i, fuel - 1, before, path.items);
        i := i + 1;
      }
      NothingLeft(g, outs, fuel - 1);
    case Action(_, entry) =>
      path.Push(entry);
      var outs := Outs(g, id);
      assert outs[0..] == outs;
      var i := 0;
      while i < |outs|
        invariant i <= |outs| && PreorderAll(g, outs[i..], fuel - 1).Some?
        invariant path.items + PreorderAll(g, outs[i..], fuel - 1).value
               == old(path.items) + Preorder(g, id, fuel).value
      {
        var e := g.edges[outs[i]];
        NextBranch(g, outs, i, fuel - 1);
        ghost var before := path.items;
        Walk(g, e.target, path, conditions, fuel - 1);
        Collected(g, outs, i, fuel - 1, before, path.items);
        i := i + 1;
      }
      NothingLeft(g, outs, fuel - 1);
    case Trigger(_, _, _) =>
  }

  lemma {:induction false} NothingLeft(g: Graph, outs: seq<nat>, fuel: nat)
    requires forall i | 0 <= i < |outs| :: outs[i] < |g.edges|
    ensures PreorderAll(g, outs[|outs|..], fuel) == Some([])
  {
  }

  /** The pairs of a trigger node (by number) and an edge leaving it (by number), from node `t` on. */
  function TriggerEdgesFrom(g: Graph, t: nat): (r: seq<(nat, nat)>)
    requires t <= |g.nodes|
    decreases |g.nodes| - t
  {
    if t == |g.nodes| then []
    else
      (if g.nodes[t].Trigger? then Paired(t, Outs(g, g.nodes[t].id)) else []) + TriggerEdgesFrom(g, t + 1)
  }

  function Paired(t: nat, outs: seq<nat>): (r: seq<(nat, nat)>)
    ensures |r| == |outs| && forall i | 0 <= i < |r| :: r[i] == (t, outs[i])
  {
    if outs == [] then [] else [(t, outs[0])] + Paired(t, outs[1..])
  }

  predicate LeavesTrigger(g: Graph, t: nat, e: nat) {
    t < |g.nodes| && e < |g.edges| && g.nodes[t].Trigger? && g.edges[e].source == g.nodes[t].id
  }

  predicate PairBefore(a: (nat, nat), b: (nat, nat)) {
    a.0 < b.0 || (a.0 == b.0 && a.1 < b.1)
  }

  lemma {:induction false} PairedMembers(g: Graph, t: nat, n: nat, e: nat)
    requires t < |g.nodes| && g.nodes[t].Trigger?
    ensures (n, e) in Paired(t, Outs(g, g.nodes[t].id)) <==> n == t && LeavesTrigger(g, n, e)
  {
    var outs := Outs(g, g.nodes[t].id);
    OutsComplete(g, g.nodes[t].id, 0);
    if n == t && LeavesTrigger(g, t, e) {
      assert e in outs;
      var i :| 0 <= i < |outs| && outs[i] == e;
      assert Paired(t, outs)[i] == (t, e);
    }
  }

  lemma {:induction false} TriggerEdge(g: Graph, t: nat, n: nat, e: nat)
    requires t <= |g.nodes|
    ensures (n, e) in TriggerEdgesFrom(g, t) <==> t <= n && LeavesTrigger(g, n, e)
    decreases |g.nodes| - t
  {
    if t < |g.nodes| {
      TriggerEdge(g, t + 1, n, e);
      if g.nodes[t].Trigger? {
        PairedMembers(g, t, n, e);
      }
      hide Paired, Outs;
    }
  }

  ghost predicate PairsInOrder(pairs: seq<(nat, nat)>) {
    forall i, j | 0 <= i < j < |pairs| :: PairBefore(pairs[i], pairs[j])
  }

  lemma {:induction false} PairsJoin(a: seq<(nat, nat)>, b: seq<(nat, nat)>, t: nat)
    requires PairsInOrder(a) && PairsInOrder(b)
    requires (forall i | 0 <= i < |a| :: a[i].0 == t) && forall i | 0 <= i < |b| :: b[i].0 > t
    ensures PairsInOrder(a + b)
  {
  }

  lemma {:induction false} PairedInOrder(g: Graph, t: nat)
    requires t < |g.nodes|
    ensures PairsInOrder(Paired(t, Outs(g, g.nodes[t].id)))
  {
    OutsComplete(g, g.nodes[t].id, 0);
  }

  lemma {:induction false} TriggerEdgesOrdered(g: Graph, t: nat)
    requires t <= |g.nodes|
    ensures PairsInOrder(TriggerEdgesFrom(g, t))
    ensures forall i | 0 <= i < |TriggerEdgesFrom(g, t)| :: TriggerEdgesFrom(g, t)[i].0 >= t
    decreases |g.nodes| - t
  {
    if t < |g.nodes| {
      TriggerEdgesOrdered(g, t + 1);
      if g.nodes[t].Trigger? {
        PairedInOrder(g, t);
        hide PairsInOrder, Paired, Outs;
        PairsJoin(Paired(t, Outs(g, g.nodes[t].id)), TriggerEdgesFrom(g, t + 1), t);
      }
    }
  }

  /** Every edge leaving a trigger is listed exactly once: by node, then by edge. */
  lemma {:induction false} EveryTriggerEdgeOnce(g: Graph)
    ensures forall n: nat, e: nat :: (n, e) in TriggerEdgesFrom(g, 0) <==> LeavesTrigger(g, n, e)
    ensures PairsInOrder(TriggerEdgesFrom(g, 0))
  {
    forall n: nat, e: nat
      ensures (n, e) in TriggerEdgesFrom(g, 0) <==> LeavesTrigger(g, n, e)
    {
      TriggerEdge(g, 0, n, e);
    }
    TriggerEdgesOrdered(g, 0);
  }

  /** The rule of one edge leaving a trigger: `intent` only if not empty, the collected actions, no conditions. */
  function RuleOf(g: Graph, pair: (nat, nat)): Rule
    requires LeavesTrigger(g, pair.0, pair.1)
  {
    var t := g.nodes[pair.0];
    var walked := Preorder(g, g.edges[pair.1].target, |g.nodes| + 1);
    Rule(t.trigger, if t.intent == "" then None else Some(t.intent), [],
         if walked.Some? then walked.value else [])
  }

  /**
    `compileGraph`: the rules are those of the edges leaving triggers, one each, in order. On a graph
    where a trigger leads into a cycle the editor's recursion has no end; all others are accepted.
   */
  method CompileGraph(g: Graph) returns (out: seq<Rule>)
    requires forall t: nat, e: nat | LeavesTrigger(g, t, e) :: !ReachesCycle(g, g.edges[e].target)
    ensures RulesOf(g, TriggerEdgesFrom(g, 0), out)
    ensures forall i | 0 <= i < |out| :: RuleSays(g, TriggerEdgesFrom(g, 0)[i], out[i])
  {
    hide ReachesCycle, RuleOf, Paired, Outs, RuleSays;
    out := [];
    ghost var pairs: seq<(nat, nat)> := [];
    var t := 0;
    while t < |g.nodes|
      invariant t <= |g.nodes|
      invariant TriggerEdgesFrom(g, 0) == pairs + TriggerEdgesFrom(g, t)
      invariant RulesOf(g, pairs, out)
    {
      if g.nodes[t].Trigger? {
        var outs := Outs(g, g.nodes[t].id);
        out, pairs := CompileTrigger(g, t, outs, out, pairs);
      }
      hide RulesOf;
      t := t + 1;
    }
    RulesSay(g, pairs, out);
  }

  /** The actions are those at the ends of all directed paths from `id`, once for each path, in order. */
  ghost predicate FollowsAllPaths(g: Graph, id: Id, ps: seq<seq<nat>>, actions: seq<Do>) {
    && (forall p :: p in ps <==> IsPath(g, id, p))
    && InOrder(ps) && (forall i, j | 0 <= i < j < |ps| :: ps[i] != ps[j])
    && actions == ActionsAt(g, id, ps)
  }

  /** What the rule of an edge says: when its trigger fires, for the trigger's intent if it has one, unconditionally, do what all paths beginning with the edge do. */
  ghost predicate RuleSays(g: Graph, pair: (nat, nat), rule: Rule) {
    && LeavesTrigger(g, pair.0, pair.1)
    && rule.when == g.nodes[pair.0].trigger
    && (rule.intent.Some? <==> g.nodes[pair.0].intent != "")
    && (rule.intent.Some? ==> rule.intent.value == g.nodes[pair.0].intent)
    && rule.conditions == []
    && exists ps :: FollowsAllPaths(g, g.edges[pair.1].target, ps, rule.actions)
  }

  lemma {:induction false} RulesSay(g: Graph, pairs: seq<(nat, nat)>, out: seq<Rule>)
    requires forall t: nat, e: nat | LeavesTrigger(g, t, e) :: !ReachesCycle(g, g.edges[e].target)
    requires RulesOf(g, pairs, out)
    ensures forall i | 0 <= i < |out| :: RuleSays(g, pairs[i], out[i])
  {
    hide ReachesCycle, FollowsAllPaths, RuleOf;
    forall i | 0 <= i < |out|
      ensures RuleSays(g, pairs[i], out[i])
    {
      assert pairs[i] in pairs;
      OneRuleSays(g, pairs[i]);
    }
  }

  lemma {:induction false} OneRuleSays(g: Graph, pair: (nat, nat))
    requires LeavesTrigger(g, pair.0, pair.1) && !ReachesCycle(g, g.edges[pair.1].target)
    ensures RuleSays(g, pair, RuleOf(g, pair))
  {
    hide ReachesCycle, Preorder, IsPath, InOrder, ActionsAt;
    var ps := RuleFollowsPaths(g, pair);
    assert FollowsAllPaths(g, g.edges[pair.1].target, ps, RuleOf(g, pair).actions);
  }

  /** The rule of an edge does the actions at the ends of all directed paths that begin with the edge, once for each path, in order. */
  lemma {:induction false} RuleFollowsPaths(g: Graph, pair: (nat, nat)) returns (ps: seq<seq<nat>>)
    requires LeavesTrigger(g, pair.0, pair.1) && !ReachesCycle(g, g.edges[pair.1].target)
    ensures forall p :: p in ps <==> IsPath(g, g.edges[pair.1].target, p)
    ensures InOrder(ps) && (forall i, j | 0 <= i < j < |ps| :: ps[i] != ps[j])
    ensures RuleOf(g, pair).actions == ActionsAt(g, g.edges[pair.1].target, ps)
  {
    hide IsPath, InOrder, ReachesCycle, ActionsAt, Preorder;
    WalkTerminatesExactly(g, g.edges[pair.1].target);
    ps := WalkFollowsPaths(g, g.edges[pair.1].target, |g.nodes| + 1);
  }

  /** The rules are those of the listed edges, in order. */
  ghost predicate RulesOf(g: Graph, pairs: seq<(nat, nat)>, out: seq<Rule>) {
    && (forall pair <- pairs :: LeavesTrigger(g, pair.0, pair.1))
    && |out| == |pairs| && forall i | 0 <= i < |out| :: out[i] == RuleOf(g, pairs[i])
  }

  method CompileTrigger(g: Graph, t: nat, outs: seq<nat>, before: seq<Rule>, ghost pairsBefore: seq<(nat, nat)>)
    returns (out: seq<Rule>, ghost pairs: seq<(nat, nat)>)
    requires forall t: nat, e: nat | LeavesTrigger(g, t, e) :: !ReachesCycle(g, g.edges[e].target)
    requires t < |g.nodes| && g.nodes[t].Trigger? && outs == Outs(g, g.nodes[t].id)
    requires RulesOf(g, pairsBefore, before)
    ensures pairs == pairsBefore + Paired(t, outs)
    ensures RulesOf(g, pairs, out)
  {
    hide ReachesCycle, Preorder, IsPath, Outs, Paired;
    out, pairs := before, pairsBefore;
    var i := 0;
    while i < |outs|
      invariant i <= |outs|
      invariant pairs == pairsBefore + Paired(t, outs)[..i]
      invariant RulesOf(g, pairs, out)
    {
      var e := g.edges[outs[i]];
      assert LeavesTrigger(g, t, outs[i]);
      WalkTerminatesExactly(g, e.target);
      var acc := new ActionList();
      var conds: seq<Cond> := [];
      Walk(g, e.target, acc, conds, |g.nodes| + 1);
      var td := g.nodes[t];
      pairs := pairs + [(t, outs[i])];
      out := out + [Rule(td.trigger, if td.intent != "" then Some(td.intent) else None, conds, acc.items)];
      i := i + 1;
    }
  }

  // ---------------------------------------------------------------------
  // What the rules do not say
  // ---------------------------------------------------------------------

  /** The same graph up to what its conditions test and which branch (`yes`, `no`) an edge leaves by. */
  ghost predicate SameUpToConditions(g: Graph, h: Graph) {
    && |g.nodes| == |h.nodes| && |g.edges| == |h.edges|
    && (forall i | 0 <= i < |g.nodes| ::
          g.nodes[i] == h.nodes[i] || (g.nodes[i].Condition? && h.nodes[i].Condition? && g.nodes[i].id == h.nodes[i].id))
    && (forall i | 0 <= i < |g.edges| :: g.edges[i].source == h.edges[i].source && g.edges[i].target == h.edges[i].target)
  }

  lemma {:induction false} SameLookup(a: seq<Node>, b: seq<Node>, id: Id)
    requires |a| == |b|
    requires forall i | 0 <= i < |a| :: a[i] == b[i] || (a[i].Condition? && b[i].Condition? && a[i].id == b[i].id)
    ensures Lookup(a, id).Some? <==> Lookup(b, id).Some?
    ensures Lookup(a, id) == Lookup(b, id) || (Lookup(a, id).value.Condition? && Lookup(b, id).value.Condition?)
  {
    if a != [] {
      SameLookup(a[..|a|-1], b[..|b|-1], id);
    }
  }

  lemma {:induction false} SameOuts(g: Graph, h: Graph, id: Id, k: nat)
    requires SameUpToConditions(g, h) && k <= |g.edges|
    ensures OutsFrom(g, id, k) == OutsFrom(h, id, k)
    decreases |g.edges| - k
  {
    if k < |g.edges| {
      SameOuts(g, h, id, k + 1);
    }
  }

  lemma {:induction false} SameAllOuts(g: Graph, h: Graph, id: Id)
    requires SameUpToConditions(g, h)
    ensures Outs(g, id) == Outs(h, id)
  {
    SameOuts(g, h, id, 0);
  }

  lemma {:induction false} SamePreorder(g: Graph, h: Graph, id: Id, fuel: nat)
    requires SameUpToConditions(g, h)
    ensures Preorder(g, id, fuel) == Preorder(h, id, fuel)
    decreases fuel, 0, 0
  {
    hide Lookup, Outs, OutsFrom, PreorderAll;
    if fuel > 0 {
      SameLookup(g.nodes, h.nodes, id);
      SameAllOuts(g, h, id);
      hide SameUpToConditions;
      SamePreorderAll(g, h, Outs(g, id), fuel - 1);
    }
  }

  lemma {:induction false} SamePreorderAll(g: Graph, h: Graph, outs: seq<nat>, fuel: nat)
    requires SameUpToConditions(g, h) && forall i | 0 <= i < |outs| :: outs[i] < |g.edges|
    ensures PreorderAll(g, outs, fuel) == PreorderAll(h, outs, fuel)
    decreases fuel, 1, |outs|
  {
    if outs != [] {
      SamePreorder(g, h, g.edges[outs[0]].target, fuel);
      SamePreorderAll(g, h, outs[1..], fuel);
    }
  }

  /**
    No rule carries a condition, and the rule of an edge is the same whatever the conditions on its
    paths test and whichever branches the edges leave by: the `yes` and the `no` side are merged.
   */
  lemma {:induction false} BranchesAreMerged(g: Graph, h: Graph, pair: (nat, nat))
    requires SameUpToConditions(g, h) && LeavesTrigger(g, pair.0, pair.1)
    ensures LeavesTrigger(h, pair.0, pair.1)
    ensures RuleOf(g, pair) == RuleOf(h, pair) && RuleOf(g, pair).conditions == []
  {
    SamePreorder(g, h, g.edges[pair.1].target, |g.nodes| + 1);
  }
}
