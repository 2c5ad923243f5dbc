// The order in which apps start again (compose.go): each after the apps it
// depends on. Apps on or behind a cycle of dependencies have no such place and
// come last, as they were.
module StartOrder {
  import opened Ordering

  // App i names the service of app j among what it depends on.
  predicate Needs(services: seq<string>, needs: seq<seq<string>>, i: nat, j: nat)
    requires |services| == |needs|
  {
    i < |services| && j < |services| && i != j && services[j] != "" && services[j] in needs[i]
  }

  // The graph has an edge for each such pair, once.
  ghost predicate IsGraph(services: seq<string>, needs: seq<seq<string>>, graph: seq<seq<nat>>)
    requires |services| == |needs|
  {
    |graph| == |services| && forall i :: 0 <= i < |graph| ==> EdgesOf(services, needs, graph[i], i)
  }

  ghost predicate EdgesOf(services: seq<string>, needs: seq<seq<string>>, edges: seq<nat>, i: nat)
    requires |services| == |needs|
  {
    Distinct(edges) && forall j: nat :: j in edges <==> Needs(services, needs, i, j)
  }

  // Which apps carry a service name.
  method ServiceIndex(services: seq<string>) returns (index: map<string, seq<nat>>)
    ensures forall svc :: svc in index ==> forall j: nat :: j in index[svc] <==> j < |services| && services[j] == svc
    ensures forall svc :: svc in index <==> svc != "" && svc in services
  {
    index := map[];
    for i := 0 to |services|
      invariant forall svc :: svc in index ==> forall j: nat :: j in index[svc] <==> j < i && services[j] == svc
      invariant forall svc :: svc in index <==> svc != "" && svc in services[..i]
    {
      var svc := services[i];
      if svc != "" {
        index := index[svc := (if svc in index then index[svc] else []) + [i]];
      }
    }
    assert services[..|services|] == services;
  }

  method DepGraph(services: seq<string>, needs: seq<seq<string>>) returns (graph: seq<seq<nat>>)
    requires |services| == |needs|
    ensures IsGraph(services, needs, graph)
  {
    var index := ServiceIndex(services);
    graph := [];
    for i := 0 to |services|
      invariant |graph| == i
      invariant forall k :: 0 <= k < i ==> EdgesOf(services, needs, graph[k], k)
    {
      var edges: seq<nat> := [];
      for d := 0 to |needs[i]|
        invariant Distinct(edges)
        invariant forall j: nat :: j in edges <==> Needs(services, needs, i, j) && services[j] in needs[i][..d]
      {
        var named: seq<nat> := if needs[i][d] in index then index[needs[i][d]] else [];
        edges := AddEdges(edges, named, i);
      }
      assert needs[i][..|needs[i]|] == needs[i];
      graph := graph + [edges];
    }
  }

  // An app is no dependency of its own, and no edge is repeated.
  method AddEdges(edges: seq<nat>, named: seq<nat>, i: nat) returns (r: seq<nat>)
    requires Distinct(edges)
    ensures Distinct(r) && forall j: nat :: j in r <==> j in edges || (j in named && j != i)
  {
    r := edges;
    for n := 0 to |named|
      invariant Distinct(r) && forall j: nat :: j in r <==> j in edges || (j in named[..n] && j != i)
    {
      if named[n] != i && named[n] !in r {
        r := r + [named[n]];
      }
    }
    assert named[..|named|] == named;
  }

  // How many of the edges lead to an app that is not in the list.
  function Open(edges: seq<nat>, done: seq<nat>): (r: nat)
    ensures r == 0 <==> forall j :: j in edges ==> j in done
  {
    if edges == [] then 0
    else
      assert forall j :: j in edges <==> j == edges[0] || j in edges[1..];
      Open(edges[1..], done) + if edges[0] in done then 0 else 1
  }

  lemma {:induction false} OpenOneMore(edges: seq<nat>, done: seq<nat>, i: nat)
    requires Distinct(edges) && i !in done
    ensures Open(edges, done + [i]) == Open(edges, done) - if i in edges then 1 else 0
  {
    if edges != [] {
      assert Distinct(edges[1..]);
      OpenOneMore(edges[1..], done, i);
      assert edges == [edges[0]] + edges[1..];
      if edges[0] == i {
        forall a | 0 <= a < |edges[1..]| ensures edges[1..][a] != i { assert edges[1..][a] == edges[a + 1]; }
      }
    }
  }

  // Each of the first n apps, once.
  ghost predicate EachOnce(order: seq<nat>, n: nat) {
    |order| == n && Distinct(order) && (forall k :: 0 <= k < n ==> order[k] < n) && forall i: nat :: i < n ==>
      i in order
  }

  predicate Ascending(xs: seq<nat>) { forall a, b :: 0 <= a < b < |xs| ==> xs[a] < xs[b] }

  // Up to the cut every app comes after all that it depends on. Behind it are,
  // as they were, apps that each wait for another of them.
  ghost predicate Follows(services: seq<string>, needs: seq<seq<string>>, order: seq<nat>, cut: nat) {
    && |services| == |needs| && EachOnce(order, |services|) && cut <= |order|
    && (forall p: nat, j: nat :: p < cut && Needs(services, needs, order[p], j) ==> j in order[..p])
    && (forall p: nat {:trigger WaitsFor(services, needs, order[p], order[cut..])} ::
          cut <= p < |order| ==> WaitsFor(services, needs, order[p], order[cut..]))
    && Ascending(order[cut..])
  }

  ghost predicate WaitsFor(services: seq<string>, needs: seq<seq<string>>, i: nat, among: seq<nat>)
    requires |services| == |needs|
  {
    exists j: nat :: j in among && Needs(services, needs, i, j)
  }

  // The list holds some apps, all of whose dependencies come before them.
  ghost predicate InOrder(services: seq<string>, needs: seq<seq<string>>, order: seq<nat>)
    requires |services| == |needs|
  {
    && Distinct(order) && (forall k :: 0 <= k < |order| ==> order[k] < |services|)
    && forall p: nat, j: nat :: p < |order| && Needs(services, needs, order[p], j) ==> j in order[..p]
  }

  // The counts are the dependencies still to come, and emitted marks the list.
  ghost predicate Counted(graph: seq<seq<nat>>, order: seq<nat>, indeg: seq<int>, emitted: seq<bool>) {
    && |indeg| == |emitted| == |graph|
    && forall k: nat :: k < |graph| ==>
         (emitted[k] <==> k in order) && (!emitted[k] ==> indeg[k] == Open(graph[k], order))
  }

  // One app is emitted, and the apps that depend on it have one less to wait
  // for.
  method Emit(graph: seq<seq<nat>>, ghost order: seq<nat>, indeg: seq<int>, emitted: seq<bool>, i: nat)
      returns (indeg1: seq<int>)
    requires Counted(graph, order, indeg, emitted) && i < |graph| && i !in order
    requires forall k: nat :: k < |graph| ==> Distinct(graph[k])
    ensures Counted(graph, order + [i], indeg1, emitted[i := true])
  {
    indeg1 := indeg;
    for k := 0 to |graph|
      invariant |indeg1| == |graph|
      invariant forall m: nat :: k <= m < |graph| ==> indeg1[m] == indeg[m]
      invariant forall m: nat :: m < k && m !in order && m != i ==> indeg1[m] == Open(graph[m], order + [i])
    {
      if emitted[k] || k == i { continue; }
      OpenOneMore(graph[k], order, i);
      var count := CountDown(indeg[k], graph[k], i);
      indeg1 := indeg1[k := count];
    }
  }

  // One less for each edge to the app.
  method CountDown(count: int, edges: seq<nat>, i: nat) returns (r: int)
    requires Distinct(edges)
    ensures r == count - if i in edges then 1 else 0
  {
    r := count;
    for d := 0 to |edges|
      invariant r == count - if i in edges[..d] then 1 else 0
    {
      if edges[d] == i {
        r := r - 1;
      }
    }
    assert edges[..|edges|] == edges;
  }

  method StartOrder(services: seq<string>, needs: seq<seq<string>>) returns (order: seq<nat>, ghost cut: nat)
    requires |services| == |needs|
    ensures Follows(services, needs, order, cut)
    ensures exists c: nat :: Follows(services, needs, order, c)
  {
    var graph := DepGraph(services, needs);
    var n := |services|;
    var indeg: seq<int> := seq(n, i requires 0 <= i < n => |graph[i]|);
    var emitted := seq(n, i => false);
    order := [];
    forall k: nat | k < n ensures indeg[k] == Open(graph[k], []) {
      NoneDone(graph[k]);
    }
    while |order| < n
      invariant Counted(graph, order, indeg, emitted) && InOrder(services, needs, order)
      invariant |order| <= n
      decreases n - |order|
    {
      var progressed := false;
      ghost var before := |order|;
      for i := 0 to n
        invariant Counted(graph, order, indeg, emitted) && InOrder(services, needs, order)
        invariant before <= |order| <= n && (progressed <==> before < |order|)
        invariant !progressed ==> forall k: nat :: k < i ==> emitted[k] || indeg[k] != 0
      {
        if emitted[i] || indeg[i] != 0 { continue; }
        indeg := Emit(graph, order, indeg, emitted, i);
        InOrderOneMore(services, needs, graph, order, i);
        order := order + [i];
        emitted := emitted[i := true];
        progressed := true;
        AtMost(order, n);
      }
      if !progressed {
        // A cycle remains.
        break;
      }
    }
    assert forall k: nat :: k < n && indeg[k] == 0 ==> emitted[k] by {
      if |order| == n {
        AllThere(order, n);
      }
    }
    cut := |order|;
    var head := order;
    order := AppendRest(head, emitted);
    Remaining(services, needs, graph, order, head, indeg, emitted);
  }

  // The apps that were not emitted follow as they were.
  method AppendRest(head: seq<nat>, emitted: seq<bool>) returns (order: seq<nat>)
    requires Distinct(head) && forall k :: 0 <= k < |head| ==> head[k] < |emitted|
    requires forall k: nat :: k < |emitted| ==> (emitted[k] <==> k in head)
    ensures EachOnce(order, |emitted|) && |head| <= |order| && order[..|head|] == head && Ascending(order[|head|..])
  {
    order := head;
    for i := 0 to |emitted|
      invariant |order| >= |head| && order[..|head|] == head && Distinct(order) && forall k :: 0 <= k < |order| ==>
        order[k] < |emitted|
      invariant Ascending(order[|head|..])
      invariant forall k: nat :: k in order <==> k in head || (k < i && k !in head)
      invariant forall k :: |head| <= k < |order| ==> order[k] < i
    {
      if !emitted[i] {
        assert i !in order;
        order := order + [i];
      }
    }
    AllCovered(order, |emitted|);
  }

  lemma {:induction false} NoneDone(edges: seq<nat>)
    ensures Open(edges, []) == |edges|
  {
    if edges != [] {
      NoneDone(edges[1..]);
    }
  }

  lemma InOrderOneMore(services: seq<string>, needs: seq<seq<string>>, graph: seq<seq<nat>>, order: seq<nat>, i: nat)
    requires |services| == |needs| && IsGraph(services, needs, graph) && InOrder(services, needs, order)
    requires i < |services| && i !in order && Open(graph[i], order) == 0
    ensures InOrder(services, needs, order + [i])
  {
    var more := order + [i];
    forall p: nat, j: nat | p < |more| && Needs(services, needs, more[p], j) ensures j in more[..p] {
      if p < |order| {
        assert more[..p] == order[..p];
      } else {
        assert EdgesOf(services, needs, graph[i], i) && j in graph[i];
        assert more[..p] == order;
      }
    }
  }

  // What is left when no app is free to start waits for one another.
  lemma Remaining(services: seq<string>, needs: seq<seq<string>>, graph: seq<seq<nat>>, order: seq<nat>,
      head: seq<nat>, indeg: seq<int>, emitted: seq<bool>)
    requires |services| == |needs| && IsGraph(services, needs, graph) && |head| <= |order| && order[..|head|] == head
    requires InOrder(services, needs, head) && EachOnce(order, |services|) && Ascending(order[|head|..])
    requires Counted(graph, head, indeg, emitted)
    requires forall k: nat :: k < |services| && indeg[k] == 0 ==> emitted[k]
    ensures Follows(services, needs, order, |head|)
  {
    hide Open, Needs, WaitsFor, EdgesOf;
    var cut := |head|;
    forall p: nat, j: nat | p < cut && Needs(services, needs, order[p], j) ensures j in order[..p] {
      assert head[p] == order[p] && head[..p] == order[..p];
    }
    forall p: nat | cut <= p < |order| ensures WaitsFor(services, needs, order[p], order[cut..]) {
      var k := order[p];
      assert k !in head && !emitted[k] && Open(graph[k], head) != 0 by {
        forall q | 0 <= q < cut ensures head[q] != k { assert head[q] == order[q]; }
      }
      StillWaits(services, needs, graph[k], head, k);
      WaitsBehind(services, needs, order, cut, k);
    }
  }

  lemma WaitsBehind(services: seq<string>, needs: seq<seq<string>>, order: seq<nat>, cut: nat, k: nat)
    requires |services| == |needs| && EachOnce(order, |services|) && cut <= |order|
    requires exists j: nat :: Needs(services, needs, k, j) && j !in order[..cut]
    ensures WaitsFor(services, needs, k, order[cut..])
  {
    var j: nat :| Needs(services, needs, k, j) && j !in order[..cut];
    assert j in order;
    var q :| 0 <= q < |order| && order[q] == j;
    forall m | 0 <= m < cut ensures order[m] != j { assert order[..cut][m] == order[m]; }
    assert order[cut..][q - cut] == j;
  }

  lemma StillWaits(services: seq<string>, needs: seq<seq<string>>, edges: seq<nat>, head: seq<nat>, k: nat)
    requires |services| == |needs| && EdgesOf(services, needs, edges, k) && Open(edges, head) != 0
    ensures exists j: nat :: Needs(services, needs, k, j) && j !in head
  {
    var j :| j in edges && j !in head;
    assert Needs(services, needs, k, j);
  }

  // ---- lists of distinct numbers below n --------------------------------------

  ghost function Below(n: nat): (s: set<nat>)
    ensures |s| == n && forall i: nat :: i in s <==> i < n
  {
    if n == 0 then {} else Below(n - 1) + {n - 1}
  }

  ghost function SetOf(xs: seq<nat>): (s: set<nat>)
    ensures forall x :: x in s <==> x in xs
  {
    set x: nat | x in xs
  }

  lemma {:induction false} Members(xs: seq<nat>)
    requires Distinct(xs)
    ensures |SetOf(xs)| == |xs|
  {
    if xs != [] {
      var rest := xs[..|xs| - 1];
      Members(rest);
      var last := xs[|xs| - 1];
      assert xs == rest + [last] && last !in rest;
      assert SetOf(xs) == SetOf(rest) + {last};
    }
  }

  lemma Fewer(a: set<nat>, b: set<nat>)
    requires a <= b
    ensures |a| <= |b| && (|a| == |b| ==> a == b)
  {
    assert b == a + (b - a);
  }

  lemma AtMost(xs: seq<nat>, n: nat)
    requires Distinct(xs) && forall k :: 0 <= k < |xs| ==> xs[k] < n
    ensures |xs| <= n
  {
    Members(xs);
    assert forall k :: 0 <= k < |xs| ==> xs[k] in Below(n);
    Fewer(SetOf(xs), Below(n));
  }

  lemma AllThere(xs: seq<nat>, n: nat)
    requires Distinct(xs) && |xs| == n && forall k :: 0 <= k < |xs| ==> xs[k] < n
    ensures forall i: nat :: i < n ==> i in xs
  {
    Members(xs);
    assert forall k :: 0 <= k < |xs| ==> xs[k] in Below(n);
    Fewer(SetOf(xs), Below(n));
    forall i: nat | i < n ensures i in xs { assert i in Below(n); }
  }

  lemma AllCovered(xs: seq<nat>, n: nat)
    requires Distinct(xs) && (forall k :: 0 <= k < |xs| ==> xs[k] < n) && forall i: nat :: i < n ==> i in xs
    ensures EachOnce(xs, n)
  {
    Members(xs);
    assert SetOf(xs) == Below(n);
  }

  // ---- what the order means -----------------------------------------------------

  // Apps that each depend on another of them, such as a cycle and what leads
  // into it.
  ghost predicate Knot(services: seq<string>, needs: seq<seq<string>>, apps: set<nat>)
    requires |services| == |needs|
  {
    forall i {:trigger WaitsIn(services, needs, apps, i)} :: i in apps ==> WaitsIn(services, needs, apps, i)
  }

  ghost predicate WaitsIn(services: seq<string>, needs: seq<seq<string>>, apps: set<nat>, i: nat)
    requires |services| == |needs|
  {
    exists j :: j in apps && Needs(services, needs, i, j)
  }

  // An app comes without all of its dependencies before it exactly when it is
  // in such a knot.
  lemma LateOnlyInKnots(services: seq<string>, needs: seq<seq<string>>, order: seq<nat>, cut: nat, p: nat)
    requires Follows(services, needs, order, cut) && p < |order|
    ensures cut <= p <==> exists apps :: order[p] in apps && Knot(services, needs, apps)
  {
    if cut <= p {
      var apps := set i | i in order[cut..];
      assert order[p] == order[cut..][p - cut];
      forall i | i in apps ensures WaitsIn(services, needs, apps, i) {
        var q :| 0 <= q < |order| - cut && order[cut..][q] == i;
        assert WaitsFor(services, needs, order[cut + q], order[cut..]);
        var j: nat :| j in order[cut..] && Needs(services, needs, i, j);
        assert j in apps;
      }
      assert Knot(services, needs, apps);
    } else {
      forall apps | Knot(services, needs, apps) ensures order[p] !in apps {
        NoKnotBefore(services, needs, order, cut, apps, p);
      }
    }
  }

  lemma {:induction false} NoKnotBefore(services: seq<string>, needs: seq<seq<string>>, order: seq<nat>, cut: nat,
      apps: set<nat>, p: nat)
    requires Follows(services, needs, order, cut) && p < cut && Knot(services, needs, apps)
    ensures order[p] !in apps
    decreases p
  {
    if order[p] in apps {
      assert WaitsIn(services, needs, apps, order[p]);
      var j :| j in apps && Needs(services, needs, order[p], j);
      assert j in order[..p];
      var q :| 0 <= q < p && order[..p][q] == j;
      NoKnotBefore(services, needs, order, cut, apps, q);
    }
  }

  // Without cycles, so that the apps can be ranked above what they depend on,
  // every app comes after all of its dependencies.
  lemma AcyclicStartsInOrder(services: seq<string>, needs: seq<seq<string>>, order: seq<nat>, cut: nat,
      rank: nat -> nat)
    requires Follows(services, needs, order, cut)
    requires forall i: nat, j: nat :: Needs(services, needs, i, j) ==> rank(j) < rank(i)
    ensures cut == |order|
  {
    if cut < |order| {
      LateOnlyInKnots(services, needs, order, cut, cut);
      var apps :| order[cut] in apps && Knot(services, needs, apps);
      NoRankedKnot(services, needs, apps, rank, order[cut]);
    }
  }

  lemma {:induction false} NoRankedKnot(services: seq<string>, needs: seq<seq<string>>, apps: set<nat>,
      rank: nat -> nat, i: nat)
    requires |services| == |needs| && Knot(services, needs, apps) && i in apps
    requires forall i: nat, j: nat :: Needs(services, needs, i, j) ==> rank(j) < rank(i)
    ensures false
    decreases rank(i)
  {
    assert WaitsIn(services, needs, apps, i);
    var j :| j in apps && Needs(services, needs, i, j);
    NoRankedKnot(services, needs, apps, rank, j);
  }

  // Read off the apps themselves: without cycles an app whose service another
  // one depends on starts before that one.
  lemma ProvidersFirst(services: seq<string>, needs: seq<seq<string>>, order: seq<nat>, cut: nat, rank: nat -> nat,
      i: nat, j: nat) returns (p: nat, q: nat)
    requires Follows(services, needs, order, cut) && i < |services| && j < |services|
    requires forall a: nat, b: nat ::
      (a < |services| && b < |services| && a != b && services[b] != "" && services[b] in needs[a]) ==> rank(b) < rank(a)
    requires i != j && services[j] != "" && services[j] in needs[i]
    ensures q < p < |order| && order[p] == i && order[q] == j
  {
    AcyclicStartsInOrder(services, needs, order, cut, rank);
    assert i in order;
    p :| p < |order| && order[p] == i;
    assert Needs(services, needs, order[p], j);
    q :| q < p && order[..p][q] == j;
  }
}
