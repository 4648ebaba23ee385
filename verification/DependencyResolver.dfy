/** The lexical topological sort of app/tasks/definitions/dependency_resolver. */
module DependencyResolver {
  import opened Core
  import opened Lexical

  /** A node and the list of its dependencies, as written: any order, duplicates allowed. */
  type Graph = map<string, seq<string>>

  /** Every node with the set of its dependencies; names that are only mentioned have none. */
  type Net = map<string, set<string>>

  predicate Closed(net: Net) { forall n :: n in net ==> net[n] <= net.Keys }

  function Elements(s: seq<string>): set<string> { set x | x in s }

  function Mentioned(graph: Graph): set<string> {
    set node, d | node in graph && d in graph[node] :: d
  }

  function Normalized(graph: Graph): (net: Net)
    ensures Closed(net)
  {
    var net := map n | n in graph.Keys + Mentioned(graph) ::
      if n in graph then Elements(graph[n]) else {};
    assert forall n, d :: n in graph && d in graph[n] ==> d in Mentioned(graph);
    net
  }

  predicate Distinct(s: seq<string>) {
    forall i, j :: 0 <= i < j < |s| ==> s[i] != s[j]
  }

  // ----- What the result must be -----

  predicate Topological(net: Net, order: seq<string>) {
    && Distinct(order)
    && Elements(order) == net.Keys
    && forall i :: 0 <= i < |order| ==> net[order[i]] <= Elements(order[..i])
  }

  /** A nonempty walk along dependencies that returns to where it started. */
  predicate Cycle(net: Net, path: seq<string>) {
    && |path| >= 2
    && path[0] == path[|path| - 1]
    && Walk(net, path)
  }

  /** Each node is followed by one of its dependencies. */
  predicate Walk(net: Net, path: seq<string>) {
    forall i :: 0 <= i < |path| - 1 ==> path[i] in net && path[i + 1] in net[path[i]]
  }

  predicate Before(a: seq<string>, b: seq<string>, k: nat) {
    k < |a| && k < |b| && a[..k] == b[..k] && Below(a[k], b[k])
  }

  /** `a` comes no later than `b` in lexicographic order. */
  ghost predicate NoLater(a: seq<string>, b: seq<string>) {
    a == b || exists k: nat :: Before(a, b, k)
  }

  ghost predicate Resolution(net: Net, order: seq<string>) {
    && Topological(net, order)
    && forall other :: Topological(net, other) ==> NoLater(order, other)
  }

  // ----- The same, said of the graph as it is written -----

  /** Every name once, declared or only mentioned, each dependency before its dependents. */
  ghost predicate Orders(graph: Graph, order: seq<string>) {
    && (forall i, j :: 0 <= i < j < |order| ==> order[i] != order[j])
    && (forall n :: n in order <==> n in graph || exists m :: m in graph && n in graph[m])
    && (forall i, d :: 0 <= i < |order| && order[i] in graph && d in graph[order[i]] ==> d in order[..i])
  }

  /** A walk along declared dependencies that returns to where it started. */
  ghost predicate GoesRound(graph: Graph, path: seq<string>) {
    && |path| >= 2 && path[0] == path[|path| - 1]
    && forall i :: 0 <= i < |path| - 1 ==> path[i] in graph && path[i + 1] in graph[path[i]]
  }

  lemma NormalizedMeans(graph: Graph)
    ensures var net := Normalized(graph);
      && (forall n :: n in net <==> n in graph || exists m :: m in graph && n in graph[m])
      && (forall n, d :: n in net ==> (d in net[n] <==> n in graph && d in graph[n]))
  {
    forall n ensures n in Mentioned(graph) <==> exists m :: m in graph && n in graph[m] {
      if m :| m in graph && n in graph[m] {
        assert n in Mentioned(graph);
      }
    }
  }

  lemma TopologicalMeans(graph: Graph, order: seq<string>)
    ensures Topological(Normalized(graph), order) <==> Orders(graph, order)
  {
    hide Normalized;
    NormalizedMeans(graph);
    var net := Normalized(graph);
    assert forall n :: n in Elements(order) <==> n in order;
    if Orders(graph, order) {
      assert Elements(order) == net.Keys;
      forall i | 0 <= i < |order| ensures net[order[i]] <= Elements(order[..i]) {
        assert order[i] in net;
      }
    }
    if Topological(net, order) {
      forall n ensures n in order <==> n in net {
        assert n in Elements(order) <==> n in net.Keys;
      }
      forall i, d | 0 <= i < |order| && order[i] in graph && d in graph[order[i]] ensures d in order[..i] {
        assert order[i] in net && d in net[order[i]];
        assert d in Elements(order[..i]);
      }
    }
  }

  lemma CycleMeans(graph: Graph, path: seq<string>)
    ensures Cycle(Normalized(graph), path) <==> GoesRound(graph, path)
  {
    hide Normalized;
    NormalizedMeans(graph);
    var net := Normalized(graph);
    if Cycle(net, path) {
      forall i | 0 <= i < |path| - 1 ensures path[i] in graph && path[i + 1] in graph[path[i]] {
        assert path[i] in net && path[i + 1] in net[path[i]];
      }
    }
    if GoesRound(graph, path) {
      forall i | 0 <= i < |path| - 1 ensures path[i] in net && path[i + 1] in net[path[i]] {
        assert path[i] in graph && path[i + 1] in graph[path[i]];
      }
    }
  }

  // ----- Greedy choice -----

  function Ready(net: Net, done: set<string>): set<string> {
    set n | n in net.Keys && n !in done && net[n] <= done
  }

  /** Whatever is resolved has its dependencies resolved. */
  predicate Settled(net: Net, done: set<string>) {
    forall n :: n in done && n in net ==> net[n] <= done
  }

  predicate Least(node: string, candidates: set<string>) {
    node in candidates && forall c :: c in candidates && c != node ==> Below(node, c)
  }

  predicate Greedy(net: Net, order: seq<string>) {
    forall i :: 0 <= i < |order| ==> Least(order[i], Ready(net, Elements(order[..i])))
  }

  lemma FirstDifference(a: seq<string>, b: seq<string>) returns (k: nat)
    requires |a| == |b| && a != b
    ensures k < |a| && a[..k] == b[..k] && a[k] != b[k]
  {
    assert a == a[..|a|] && b == b[..|a|];
    k := 0;
    while k < |a| && a[k] == b[k]
      invariant k <= |a| && a[..k] == b[..k]
    {
      k := k + 1;
    }
  }

  lemma GreedyIsTopological(net: Net, order: seq<string>)
    requires Greedy(net, order) && Elements(order) == net.Keys
    ensures Topological(net, order)
  {
    forall i, j | 0 <= i < j < |order| ensures order[i] != order[j] {
      assert order[..j][i] == order[i];
      assert order[j] in Ready(net, Elements(order[..j]));
    }
    forall i | 0 <= i < |order| ensures net[order[i]] <= Elements(order[..i]) {
      assert order[i] in Ready(net, Elements(order[..i]));
    }
  }

  lemma SameLength(a: seq<string>, b: seq<string>)
    requires Distinct(a) && Distinct(b) && Elements(a) == Elements(b)
    ensures |a| == |b|
  {
    DistinctCount(a);
    DistinctCount(b);
  }

  lemma {:induction false} DistinctCount(s: seq<string>)
    requires Distinct(s)
    ensures |Elements(s)| == |s|
  {
    if s == [] {
      assert Elements(s) == {};
    } else {
      var front := s[..|s| - 1];
      DistinctCount(front);
      assert s == front + [s[|s| - 1]];
      assert Elements(s) == Elements(front) + {s[|s| - 1]};
      assert s[|s| - 1] !in Elements(front);
    }
  }

  /** Taking the least ready node each time gives the least of all topological orders. */
  lemma GreedyIsLeast(net: Net, order: seq<string>, other: seq<string>)
    requires Greedy(net, order) && Topological(net, order) && Topological(net, other)
    ensures NoLater(order, other)
  {
    SameLength(order, other);
    if order != other {
      var k := FirstDifference(order, other);
      var done := Elements(order[..k]);
      assert other[k] in Ready(net, done) by {
        assert net[other[k]] <= Elements(other[..k]);
        assert other[k] in Elements(other);
        forall i | 0 <= i < k ensures order[..k][i] != other[k] {
          assert order[..k][i] == other[..k][i] == other[i];
        }
      }
      assert Least(order[k], Ready(net, done));
      assert Before(order, other, k);
    }
  }

  lemma ResolutionIsUnique(net: Net, a: seq<string>, b: seq<string>)
    requires Resolution(net, a) && Resolution(net, b)
    ensures a == b
  {
    if a != b {
      var j: nat :| Before(a, b, j);
      var k: nat :| Before(b, a, k);
      if j < k {
        assert a[j] == a[..k][j] == b[..k][j] == b[j];
        BelowAsymmetric(a[j], b[j]);
      } else if k < j {
        assert a[k] == a[..j][k] == b[..j][k] == b[k];
        BelowAsymmetric(b[k], a[k]);
      } else {
        BelowAsymmetric(a[j], b[j]);
      }
    }
  }

  /** Neither the order of a dependency list nor its duplicates matter. */
  lemma SpellingDoesNotMatter(g: Graph, h: Graph)
    requires g.Keys == h.Keys && forall n :: n in g ==> Elements(g[n]) == Elements(h[n])
    ensures Normalized(g) == Normalized(h)
  {
    forall n, d | n in g ensures d in g[n] <==> d in h[n] {
      assert d in Elements(g[n]) <==> d in Elements(h[n]);
    }
    assert Mentioned(g) == Mentioned(h);
  }

  // ----- Cycles -----

  function IndexOf(order: seq<string>, node: string): (i: nat)
    requires node in Elements(order)
    ensures i < |order| && order[i] == node
  {
    if order[0] == node then 0
    else
      assert node in Elements(order[1..]) by {
        var i :| 0 <= i < |order| && order[i] == node;
        assert order[1..][i - 1] == node;
      }
      1 + IndexOf(order[1..], node)
  }

  /** Along a walk the positions in a topological order strictly decrease. */
  lemma {:induction false} WalkDescends(net: Net, order: seq<string>, path: seq<string>, n: nat)
    requires Topological(net, order) && 0 < n < |path| && path[0] in Elements(order)
    requires Walk(net, path)
    ensures path[n] in Elements(order) && IndexOf(order, path[n]) < IndexOf(order, path[0])
  {
    if n > 1 {
      WalkDescends(net, order, path, n - 1);
    }
    var i := IndexOf(order, path[n - 1]);
    assert path[n] in net[order[i]];
    var j :| 0 <= j < i && order[..i][j] == path[n];
    assert order[j] == path[n];
    var k := IndexOf(order, path[n]);
    assert k == j;
  }

  lemma CyclesHaveNoOrder(net: Net, order: seq<string>, path: seq<string>)
    requires Topological(net, order)
    ensures !Cycle(net, path)
  {
    if Cycle(net, path) {
      assert path[0] in net;
      WalkDescends(net, order, path, |path| - 1);
      assert false;
    }
  }

  lemma AppendElement(path: seq<string>, next: string)
    requires Distinct(path) && next !in Elements(path)
    ensures Distinct(path + [next]) && Elements(path + [next]) == Elements(path) + {next}
  {
    assert forall i :: 0 <= i < |path| ==> path[i] in Elements(path);
  }

  lemma AppendStep(net: Net, path: seq<string>, next: string)
    requires path != [] && Walk(net, path)
    requires path[|path| - 1] in net && next in net[path[|path| - 1]]
    ensures Walk(net, path + [next])
  {
    forall i | 0 <= i < |path|
      ensures (path + [next])[i] in net && (path + [next])[i + 1] in net[(path + [next])[i]]
    {
      assert i < |path| - 1 ==> path[i] in net && path[i + 1] in net[path[i]];
    }
  }

  /** If every node of a finite set depends on another of the set, a walk must repeat itself. */
  lemma {:induction false} StuckMeansCycle(net: Net, stuck: set<string>, path: seq<string>)
    returns (cycle: seq<string>)
    requires forall n :: n in stuck ==> n in net && net[n] * stuck != {}
    requires path != [] && Distinct(path) && Elements(path) <= stuck
    requires Walk(net, path)
    ensures Cycle(net, cycle)
    decreases |stuck| - |path|
  {
    hide Distinct, Walk;
    var last := path[|path| - 1];
    assert last in Elements(path);
    var next :| next in net[last] * stuck;
    AppendStep(net, path, next);
    var longer := path + [next];
    if next in Elements(path) {
      var i := IndexOf(path, next);
      WalkSuffix(net, longer, i);
      cycle := longer[i..];
    } else {
      AppendElement(path, next);
      DistinctCount(longer);
      FitsIn(Elements(longer), stuck);
      cycle := StuckMeansCycle(net, stuck, longer);
    }
  }

  lemma WalkSuffix(net: Net, path: seq<string>, i: nat)
    requires Walk(net, path) && i <= |path|
    ensures Walk(net, path[i..])
  {
    forall j | 0 <= j < |path| - i - 1
      ensures path[i..][j] in net && path[i..][j + 1] in net[path[i..][j]]
    {
      assert path[i + j] in net && path[i + j + 1] in net[path[i + j]];
    }
  }

  lemma FitsIn(a: set<string>, b: set<string>)
    requires a <= b
    ensures |a| <= |b|
  {
    assert b == a + (b - a);
  }

  // ----- The algorithm -----

  /** `heappop` of a nonempty heap of distinct names. */
  method PopLeast(heap: set<string>) returns (least: string)
    requires heap != {}
    ensures Least(least, heap)
  {
    least :| least in heap;
    var rest := heap - {least};
    while rest != {}
      invariant rest <= heap - {least} && least in heap
      invariant forall c :: c in heap && c !in rest && c != least ==> Below(least, c)
    {
      var c :| c in rest;
      rest := rest - {c};
      BelowTrichotomy(c, least);
      if Below(c, least) {
        forall d | d in heap && d !in rest && d != least && d != c ensures Below(c, d) {
          BelowTransitive(c, least, d);
        }
        least := c;
      }
    }
  }

  /** The first loop of the source: dependencies without duplicates, and every name. */
  method Collect(graph: Graph) returns (dependencies: map<string, set<string>>, nodes: set<string>)
    ensures dependencies.Keys == graph.Keys <= nodes == Normalized(graph).Keys
    ensures forall n :: n in Normalized(graph) ==>
      Normalized(graph)[n] == if n in dependencies then dependencies[n] else {}
  {
    dependencies, nodes := map[], {};
    var rest := graph.Keys;
    while rest != {}
      invariant rest <= graph.Keys && dependencies.Keys == graph.Keys - rest <= nodes
      invariant forall n :: n in dependencies ==> dependencies[n] == Elements(graph[n]) <= nodes
      invariant nodes <= graph.Keys + Mentioned(graph)
    {
      var node :| node in rest;
      var unique := Unique(graph[node]);
      assert unique <= Mentioned(graph);
      dependencies := dependencies[node := unique];
      nodes := nodes + {node} + unique;
      rest := rest - {node};
    }
    forall n, d | n in graph && d in graph[n] ensures d in nodes {
      assert d in dependencies[n];
    }
  }

  method Unique(names: seq<string>) returns (unique: set<string>)
    ensures unique == Elements(names)
  {
    unique := {};
    for i := 0 to |names|
      invariant unique == Elements(names[..i])
    {
      assert names[..i + 1] == names[..i] + [names[i]];
      unique := unique + {names[i]};
    }
    assert names[..|names|] == names;
  }

  /** How many dependencies of each node are still open. */
  ghost predicate Counted(net: Net, done: set<string>, indegree: map<string, nat>) {
    indegree.Keys == net.Keys && forall n :: n in net ==> indegree[n] == |net[n] - done|
  }

  /** Who waits for whom. */
  ghost predicate Reversed(net: Net, dependents: map<string, set<string>>) {
    && dependents.Keys == net.Keys
    && forall d, n :: d in net ==> (n in dependents[d] <==> n in net && d in net[n])
  }

  /** The two maps while the nodes of `rest` are still to be entered. */
  ghost predicate Entered(dependencies: map<string, set<string>>, rest: set<string>,
                          dependents: map<string, set<string>>, indegree: map<string, nat>)
  {
    && (forall n :: n in indegree ==>
          indegree[n] == if n in dependencies && n !in rest then |dependencies[n]| else 0)
    && (forall d, n :: d in dependents ==>
          (n in dependents[d] <==> n in dependencies && n !in rest && d in dependencies[n]))
  }

  lemma EnterNode(dependencies: map<string, set<string>>, rest: set<string>,
                  dependents: map<string, set<string>>, indegree: map<string, nat>,
                  node: string, dependents': map<string, set<string>>)
    requires Entered(dependencies, rest, dependents, indegree) && node in rest && node in dependencies
    requires dependents'.Keys == dependents.Keys
    requires forall d, n :: d in dependents ==>
      (n in dependents'[d] <==> n in dependents[d] || (n == node && d in dependencies[node]))
    ensures Entered(dependencies, rest - {node}, dependents', indegree[node := |dependencies[node]|])
  {
  }

  method Invert(dependencies: map<string, set<string>>, nodes: set<string>, ghost net: Net)
    returns (dependents: map<string, set<string>>, indegree: map<string, nat>)
    requires Closed(net) && dependencies.Keys <= nodes == net.Keys
    requires forall n :: n in net ==> net[n] == if n in dependencies then dependencies[n] else {}
    ensures Reversed(net, dependents) && Counted(net, {}, indegree)
  {
    hide Entered, Reversed, Counted;
    dependents := map n | n in nodes :: {};
    indegree := map n | n in nodes :: 0;
    var rest := dependencies.Keys;
    NothingEntered(dependencies, dependents, indegree);
    while rest != {}
      invariant rest <= dependencies.Keys && dependents.Keys == indegree.Keys == nodes
      invariant Entered(dependencies, rest, dependents, indegree)
    {
      var node :| node in rest;
      assert dependencies[node] == net[node];
      var dependents' := AddDependent(dependents, node, dependencies[node]);
      EnterNode(dependencies, rest, dependents, indegree, node, dependents');
      dependents := dependents';
      indegree := indegree[node := |dependencies[node]|];
      rest := rest - {node};
    }
    AllEntered(net, dependencies, dependents, indegree);
  }

  lemma NothingEntered(dependencies: map<string, set<string>>, dependents: map<string, set<string>>,
                       indegree: map<string, nat>)
    requires forall n :: n in indegree ==> indegree[n] == 0
    requires forall d :: d in dependents ==> dependents[d] == {}
    ensures Entered(dependencies, dependencies.Keys, dependents, indegree)
  {
  }

  lemma AllEntered(net: Net, dependencies: map<string, set<string>>,
                   dependents: map<string, set<string>>, indegree: map<string, nat>)
    requires Entered(dependencies, {}, dependents, indegree)
    requires dependencies.Keys <= net.Keys == dependents.Keys == indegree.Keys
    requires forall n :: n in net ==> net[n] == if n in dependencies then dependencies[n] else {}
    ensures Reversed(net, dependents) && Counted(net, {}, indegree)
  {
    assert Reversed(net, dependents);
    CountsEntered(net, dependencies, dependents, indegree);
  }

  lemma CountsEntered(net: Net, dependencies: map<string, set<string>>,
                      dependents: map<string, set<string>>, indegree: map<string, nat>)
    requires Entered(dependencies, {}, dependents, indegree)
    requires dependencies.Keys <= net.Keys == indegree.Keys
    requires forall n :: n in net ==> net[n] == if n in dependencies then dependencies[n] else {}
    ensures Counted(net, {}, indegree)
  {
    forall n | n in net ensures indegree[n] == |net[n] - {}| {
      NothingDone(net[n]);
    }
  }

  lemma NothingDone(required: set<string>)
    ensures |required - {}| == |required|
    ensures |required| == 0 <==> required <= {}
  {
    assert required - {} == required;
  }

  method AddDependent(dependents: map<string, set<string>>, node: string, required: set<string>)
    returns (result: map<string, set<string>>)
    requires required <= dependents.Keys
    ensures result.Keys == dependents.Keys
    ensures forall d, n :: d in dependents ==>
      (n in result[d] <==> n in dependents[d] || (n == node && d in required))
  {
    result := dependents;
    var rest := required;
    while rest != {}
      invariant rest <= required && result.Keys == dependents.Keys
      invariant forall d, n :: d in dependents ==>
        (n in result[d] <==> n in dependents[d] || (n == node && d in required && d !in rest))
    {
      var d :| d in rest;
      result := result[d := result[d] + {node}];
      rest := rest - {d};
    }
  }

  lemma OneLess(required: set<string>, done: set<string>, node: string)
    ensures node in required && node !in done ==>
      |required - done| == |required - (done + {node})| + 1
    ensures node !in required ==> |required - done| == |required - (done + {node})|
    ensures |required - (done + {node})| == 0 <==> required <= done + {node}
  {
    if node in required && node !in done {
      assert required - done == (required - (done + {node})) + {node};
    }
    if node !in required {
      assert required - done == required - (done + {node});
    }
    if required <= done + {node} {
      assert required - (done + {node}) == {};
    }
  }

  /** The counts while the dependents in `rest` still wait for their share of resolving `node`. */
  ghost predicate PartlyCounted(net: Net, done: set<string>, node: string, rest: set<string>,
                                indegree: map<string, nat>)
  {
    && indegree.Keys == net.Keys
    && forall n :: n in net ==> indegree[n] == |net[n] - (if n in rest then done else done + {node})|
  }

  lemma BeginCounting(net: Net, done: set<string>, node: string, waiting: set<string>,
                      indegree: map<string, nat>)
    requires Counted(net, done, indegree) && node !in done
    requires forall n :: n in waiting <==> n in net && node in net[n]
    ensures PartlyCounted(net, done, node, waiting, indegree)
  {
    forall n | n in net && n !in waiting ensures |net[n] - done| == |net[n] - (done + {node})| {
      OneLess(net[n], done, node);
    }
  }

  lemma CountOne(net: Net, done: set<string>, node: string, rest: set<string>,
                 indegree: map<string, nat>, n: string)
    requires PartlyCounted(net, done, node, rest, indegree)
    requires n in rest && n in net && node in net[n] && node !in done
    ensures n in indegree && indegree[n] > 0
    ensures PartlyCounted(net, done, node, rest - {n}, indegree[n := indegree[n] - 1])
    ensures indegree[n] == 1 <==> net[n] <= done + {node}
  {
    OneLess(net[n], done, node);
  }

  /** The inner loop: resolving `node` closes one dependency of each of its dependents. */
  method Discount(node: string, waiting: set<string>, indegree: map<string, nat>,
                  available: set<string>, ghost net: Net, ghost done: set<string>)
    returns (indegree': map<string, nat>, available': set<string>)
    requires Counted(net, done, indegree) && node !in done
    requires forall n :: n in waiting <==> n in net && node in net[n]
    ensures Counted(net, done + {node}, indegree')
    ensures forall n :: n in available' <==>
      n in available || (n in waiting && net[n] <= done + {node})
  {
    hide PartlyCounted;
    indegree', available' := indegree, available;
    var rest := waiting;
    BeginCounting(net, done, node, waiting, indegree);
    while rest != {}
      invariant rest <= waiting && PartlyCounted(net, done, node, rest, indegree')
      invariant forall n :: n in available' <==>
        n in available || (n in waiting && n !in rest && net[n] <= done + {node})
    {
      var dependent :| dependent in rest;
      CountOne(net, done, node, rest, indegree', dependent);
      indegree' := indegree'[dependent := indegree'[dependent] - 1];
      if indegree'[dependent] == 0 {
        available' := available' + {dependent};
      }
      rest := rest - {dependent};
    }
    EndCounting(net, done, node, indegree');
  }

  lemma EndCounting(net: Net, done: set<string>, node: string, indegree: map<string, nat>)
    requires PartlyCounted(net, done, node, {}, indegree)
    ensures Counted(net, done + {node}, indegree)
  {
  }

  /** A topological order, the least one; or None, the cycle error, exactly when there is a cycle. */
  method Resolve(graph: Graph) returns (result: Option<seq<string>>)
    ensures result.Some? ==> Resolution(Normalized(graph), result.value)
    ensures result.None? <==> exists path :: Cycle(Normalized(graph), path)
    ensures result.Some? ==> Orders(graph, result.value)
    ensures result.Some? ==> forall other :: Orders(graph, other) ==> NoLater(result.value, other)
    ensures result.None? <==> exists path :: GoesRound(graph, path)
  {
    hide Orders, GoesRound, NoLater, Greedy, Distinct, Resolution, Cycle, Normalized, Elements, Below,
         Least, Counted, Reversed, Ready, Settled, Closed;
    ghost var net := Normalized(graph);
    var dependencies, nodes := Collect(graph);
    var dependents, indegree := Invert(dependencies, nodes, net);
    var available := set n | n in indegree && indegree[n] == 0;
    InitiallyReady(net, indegree);
    var resolved: seq<string> := [];
    while available != {}
      invariant Elements(resolved) <= net.Keys && Distinct(resolved) && Greedy(net, resolved)
      invariant Counted(net, Elements(resolved), indegree) && Settled(net, Elements(resolved))
      invariant available == Ready(net, Elements(resolved))
      decreases net.Keys - Elements(resolved)
    {
      var node := PopLeast(available);
      ghost var done := Elements(resolved);
      ReadyFacts(net, done, node, dependents);
      available := available - {node};
      indegree, available := Discount(node, dependents[node], indegree, available, net, done);
      AppendGreedy(net, resolved, node);
      resolved := resolved + [node];
      NextReady(net, done, node, available);
    }
    DistinctCount(resolved);
    SubsetBySize(Elements(resolved), nodes);
    if |resolved| != |nodes| {
      Unresolved(net, Elements(resolved));
      result := None;
    } else {
      AllResolved(net, resolved);
      result := Some(resolved);
      ResolutionMeans(graph, resolved);
    }
    forall path ensures Cycle(net, path) <==> GoesRound(graph, path) {
      CycleMeans(graph, path);
    }
  }

  lemma ResolutionMeans(graph: Graph, order: seq<string>)
    requires Resolution(Normalized(graph), order)
    ensures Orders(graph, order) && forall other :: Orders(graph, other) ==> NoLater(order, other)
  {
    hide Orders, Topological, Normalized, NoLater;
    TopologicalMeans(graph, order);
    forall other | Orders(graph, other) ensures NoLater(order, other) {
      TopologicalMeans(graph, other);
    }
  }

  lemma ReadyFacts(net: Net, done: set<string>, node: string, dependents: map<string, set<string>>)
    requires Least(node, Ready(net, done)) && Reversed(net, dependents)
    ensures node in Ready(net, done) && node in net && node !in done && node in dependents
    ensures forall n :: n in dependents[node] <==> n in net && node in net[n]
  {
    hide Below;
  }

  /** Resolving a node makes exactly the dependents ready that waited for it alone. */
  lemma NextReady(net: Net, done: set<string>, node: string, available: set<string>)
    requires node in Ready(net, done) && Settled(net, done)
    requires forall n :: n in available <==>
      || (n in Ready(net, done) && n != node)
      || (n in net && node in net[n] && net[n] <= done + {node})
    ensures available == Ready(net, done + {node}) && Settled(net, done + {node})
  {
  }

  lemma SubsetBySize(a: set<string>, b: set<string>)
    requires a <= b
    ensures |a| == |b| <==> a == b
  {
    assert b == a + (b - a);
  }

  lemma InitiallyReady(net: Net, indegree: map<string, nat>)
    requires Counted(net, {}, indegree)
    ensures Settled(net, {})
    ensures (set n | n in indegree && indegree[n] == 0) == Ready(net, {})
    ensures Elements([]) == {} && Distinct([]) && Greedy(net, [])
  {
    hide Least, Cycle;
    forall n | n in net ensures indegree[n] == 0 <==> net[n] <= {} {
      NothingDone(net[n]);
    }
    forall n ensures n in indegree && indegree[n] == 0 <==> n in Ready(net, {}) {
    }
  }

  lemma AppendGreedy(net: Net, resolved: seq<string>, node: string)
    requires Greedy(net, resolved) && Distinct(resolved)
    requires Least(node, Ready(net, Elements(resolved)))
    ensures Greedy(net, resolved + [node]) && Distinct(resolved + [node])
    ensures Elements(resolved + [node]) == Elements(resolved) + {node}
  {
    var longer := resolved + [node];
    forall i | 0 <= i < |longer| ensures Least(longer[i], Ready(net, Elements(longer[..i]))) {
      assert longer[..i] == resolved[..i];
      assert resolved[..|resolved|] == resolved;
    }
    assert forall i :: 0 <= i < |resolved| ==> resolved[i] in Elements(resolved);
  }

  lemma SingletonWalk(net: Net, start: string)
    ensures Elements([start]) == {start} && Distinct([start]) && Walk(net, [start])
  {
  }

  lemma StuckDepends(net: Net, done: set<string>, n: string)
    requires Closed(net) && n in net && n !in done && Ready(net, done) == {}
    ensures net[n] * (net.Keys - done) != {}
  {
    assert n !in Ready(net, done);
    var d :| d in net[n] && d !in done;
    assert d in net[n] * (net.Keys - done);
  }

  /** Nodes that never became ready wait for each other. */
  lemma Unresolved(net: Net, done: set<string>)
    requires Closed(net) && done <= net.Keys && done != net.Keys && Ready(net, done) == {}
    ensures exists path :: Cycle(net, path)
  {
    hide Cycle, Closed, Ready, Distinct, Walk;
    var stuck := net.Keys - done;
    assert forall n :: n in net && n !in done ==> n in stuck;
    var start :| start in stuck;
    forall n | n in stuck ensures net[n] * stuck != {} {
      StuckDepends(net, done, n);
    }
    SingletonWalk(net, start);
    var cycle := StuckMeansCycle(net, stuck, [start]);
  }

  lemma AllResolved(net: Net, resolved: seq<string>)
    requires Elements(resolved) == net.Keys && Greedy(net, resolved)
    ensures Resolution(net, resolved) && forall path :: !Cycle(net, path)
  {
    GreedyIsTopological(net, resolved);
    forall other | Topological(net, other) ensures NoLater(resolved, other) {
      GreedyIsLeast(net, resolved, other);
    }
    forall path ensures !Cycle(net, path) {
      CyclesHaveNoOrder(net, resolved, path);
    }
  }
}
