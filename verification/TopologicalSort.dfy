/** Kahn's algorithm over the graph's nodes. */
module TopologicalSort {
  import opened Prelude
  import opened OnnxGraph

  // ----- orders and cycles -----

  ghost function Predecessors(g: Graph, j: nat): set<nat> {
    set i | 0 <= i < |g.nodes| && Depends(g, i, j)
  }

  ghost predicate IsPermutation(n: nat, order: seq<nat>) {
    |order| == n && Distinct(order) && forall k :: 0 <= k < |order| ==> order[k] < n
  }

  /** Everything an entry depends on stands before it. */
  ghost predicate ProducersFirst(g: Graph, order: seq<nat>) {
    forall k :: 0 <= k < |order| ==> Predecessors(g, order[k]) <= Elements(order[..k])
  }

  /** Each step of the walk is a dependency of the next. */
  ghost predicate Walk(g: Graph, path: seq<nat>) {
    forall k, l :: 0 <= k < l < |path| && l == k + 1 ==> Depends(g, path[k], path[l])
  }

  ghost predicate Cyclic(g: Graph) {
    exists path :: |path| > 1 && Walk(g, path) && path[0] == path[|path| - 1]
  }

  lemma {:induction false} DependsBounds(g: Graph, i: nat, j: nat)
    requires Depends(g, i, j)
    ensures i < |g.nodes| && i in Predecessors(g, j)
  {
  }

  /** What an entry depends on has an earlier position. */
  lemma {:induction false} ProducerBefore(g: Graph, order: seq<nat>, p: nat, k: nat)
    requires ProducersFirst(g, order) && k < |order|
    ensures Depends(g, p, order[k]) ==> exists l :: 0 <= l < k && order[l] == p
  {
    if Depends(g, p, order[k]) {
      DependsBounds(g, p, order[k]);
      assert Predecessors(g, order[k]) <= Elements(order[..k]);
      assert p in Elements(order[..k]);
    }
  }

  /** Along a walk, positions in a producers-first order increase. */
  lemma {:induction false} WalkAscends(g: Graph, order: seq<nat>, path: seq<nat>, position: seq<nat>, k: nat)
    requires ProducersFirst(g, order) && Distinct(order) && Walk(g, path) && 0 < k < |path| == |position|
    requires forall i :: 0 <= i < |path| ==> position[i] < |order| && order[position[i]] == path[i]
    ensures position[0] < position[k]
    decreases k
  {
    DependsBounds(g, path[k - 1], path[k]);
    assert Predecessors(g, order[position[k]]) <= Elements(order[..position[k]]);
    assert path[k - 1] in Elements(order[..position[k]]);
    var p :| 0 <= p < position[k] && order[p] == path[k - 1];
    assert p == position[k - 1];
    if k > 1 { WalkAscends(g, order, path, position, k - 1); }
  }

  lemma {:induction false} Positions(order: seq<nat>, n: nat, path: seq<nat>) returns (position: seq<nat>)
    requires IsPermutation(n, order) && forall i :: 0 <= i < |path| ==> path[i] < n
    ensures |position| == |path| && forall i :: 0 <= i < |path| ==>
      position[i] < |order| && order[position[i]] == path[i]
  {
    position := [];
    PermutationCovers(n, order);
    for k := 0 to |path|
      invariant |position| == k && forall i :: 0 <= i < k ==> position[i] < |order| && order[position[i]] == path[i]
    {
      assert path[k] in Elements(order);
      var p :| 0 <= p < |order| && order[p] == path[k];
      position := position + [p];
    }
  }

  function Below(n: nat): (s: set<nat>)
    ensures forall i: nat :: i in s <==> i < n
  {
    set i: nat | i < n && IsBelow(n, i)
  }

  predicate IsBelow(n: nat, i: nat) { i < n }

  lemma {:induction false} BelowSize(n: nat)
    ensures |Below(n)| == n
  {
    if n > 0 {
      BelowSize(n - 1);
      assert Below(n) == Below(n - 1) + {n - 1};
    } else {
      assert Below(0) == {};
    }
  }

  lemma {:induction false} PermutationCovers(n: nat, order: seq<nat>)
    requires IsPermutation(n, order)
    ensures Elements(order) == Below(n)
  {
    DistinctSize(order);
    BelowSize(n);
    forall i | i in Elements(order) ensures i in Below(n) {
      var k :| 0 <= k < |order| && order[k] == i;
    }
    SubsetSize(Elements(order), Below(n));
  }

  lemma {:induction false} WalkInside(g: Graph, path: seq<nat>)
    requires Walk(g, path) && |path| > 1
    ensures forall i :: 0 <= i < |path| ==> path[i] < |g.nodes|
  {
    forall i | 0 <= i < |path| ensures path[i] < |g.nodes| {
      if i + 1 < |path| {
        assert Depends(g, path[i], path[i + 1]);
        DependsBounds(g, path[i], path[i + 1]);
      } else {
        assert Depends(g, path[i - 1], path[i]);
      }
    }
  }

  /** A producers-first order of all nodes rules out cycles. */
  lemma {:induction false} OrderIsAcyclic(g: Graph, order: seq<nat>)
    requires IsPermutation(|g.nodes|, order) && ProducersFirst(g, order)
    ensures !Cyclic(g)
  {
    if Cyclic(g) {
      var path :| |path| > 1 && Walk(g, path) && path[0] == path[|path| - 1];
      WalkInside(g, path);
      var position := Positions(order, |g.nodes|, path);
      assert order[position[0]] == order[position[|path| - 1]];
      WalkAscends(g, order, path, position, |path| - 1);
    }
  }

  ghost predicate HasPredecessorIn(g: Graph, nodes: set<nat>, j: nat) {
    exists i :: i in nodes && Depends(g, i, j)
  }

  /** Everything in the set depends on something in the set. */
  ghost predicate Stuck(g: Graph, nodes: set<nat>) {
    forall j {:trigger HasPredecessorIn(g, nodes, j)} :: j in nodes ==> HasPredecessorIn(g, nodes, j)
  }

  /** From any node of a stuck set, walk backwards as far as wanted. */
  lemma {:induction false} WalkBack(g: Graph, stuck: set<nat>, start: nat, length: nat) returns (path: seq<nat>)
    requires start in stuck && Stuck(g, stuck)
    ensures |path| == length + 1 && Walk(g, path) && forall k :: 0 <= k < |path| ==> path[k] in stuck
    decreases length
  {
    if length == 0 {
      path := [start];
    } else {
      var rest := WalkBack(g, stuck, start, length - 1);
      assert HasPredecessorIn(g, stuck, rest[0]);
      var i :| i in stuck && Depends(g, i, rest[0]);
      WalkCons(g, i, rest);
      path := [i] + rest;
    }
  }

  lemma {:induction false} WalkCons(g: Graph, i: nat, path: seq<nat>)
    requires |path| > 0 && Walk(g, path) && Depends(g, i, path[0])
    ensures Walk(g, [i] + path)
  {
    var all := [i] + path;
    forall k, l | 0 <= k < l < |all| && l == k + 1 ensures Depends(g, all[k], all[l]) {
      if k > 0 { assert all[k] == path[k - 1] && all[l] == path[l - 1]; }
    }
  }

  /** A walk longer than the set it stays in visits some node twice. */
  lemma {:induction false} Revisit(path: seq<nat>, stuck: set<nat>)
    requires |path| > |stuck| && forall k :: 0 <= k < |path| ==> path[k] in stuck
    ensures !Distinct(path)
  {
    if Distinct(path) {
      DistinctSize(path);
      SubsetSize(Elements(path), stuck);
    }
  }

  /** A nonempty stuck set contains a cycle. */
  lemma {:induction false} StuckIsCyclic(g: Graph, stuck: set<nat>, start: nat)
    requires start in stuck && Stuck(g, stuck)
    ensures Cyclic(g)
  {
    var path := WalkBack(g, stuck, start, |stuck|);
    Revisit(path, stuck);
    var a, b :| 0 <= a < b < |path| && path[a] == path[b];
    WalkPart(g, path, a, b + 1);
    var loop := path[a..b + 1];
    assert |loop| > 1 && loop[0] == loop[|loop| - 1];
  }

  lemma {:induction false} WalkPart(g: Graph, path: seq<nat>, lo: nat, hi: nat)
    requires Walk(g, path) && lo <= hi <= |path|
    ensures Walk(g, path[lo..hi])
  {
    var part := path[lo..hi];
    forall k, l | 0 <= k < l < |part| && l == k + 1 ensures Depends(g, part[k], part[l]) {
      assert part[k] == path[lo + k] && part[l] == path[lo + l];
    }
  }

  // ----- dependency counts -----

  /** The producers among a node's first inputs, each once, the node itself left out. */
  ghost predicate ListsProducers(g: Graph, j: nat, inputs: seq<string>, producers: seq<nat>) {
    && Distinct(producers)
    && (forall i :: i in producers <==> i != j && exists name :: name in inputs && ProducerOf(g, name) == Some(i))
  }

  /** The distinct producers one node depends on, in the order its inputs name them. */
  method CountProducers(g: Graph, j: nat) returns (counted: seq<nat>)
    requires j < |g.nodes|
    ensures ListsProducers(g, j, g.nodes[j].inputs, counted)
  {
    counted := [];
    var inputs := g.nodes[j].inputs;
    for k := 0 to |inputs|
      invariant ListsProducers(g, j, inputs[..k], counted)
    {
      var producer := ProducerOf(g, inputs[k]);
      InputMore(g, j, inputs, k, counted);
      if producer.Some? && producer.value != j && producer.value !in counted {
        counted := counted + [producer.value];
      }
    }
    assert inputs[..|inputs|] == inputs;
  }

  lemma {:induction false} InputMore(g: Graph, j: nat, inputs: seq<string>, k: nat, counted: seq<nat>)
    requires k < |inputs| && ListsProducers(g, j, inputs[..k], counted)
    ensures var p := ProducerOf(g, inputs[k]);
      ListsProducers(g, j, inputs[..k + 1], if p.Some? && p.value != j && p.value !in counted then counted + [p.value]
        else counted)
  {
    var p := ProducerOf(g, inputs[k]);
    var more := if p.Some? && p.value != j && p.value !in counted then counted + [p.value] else counted;
    assert inputs[..k + 1] == inputs[..k] + [inputs[k]];
    forall i ensures i in more <==> i != j && exists name :: name in inputs[..k + 1] && ProducerOf(g, name) == Some(i) {
      if p == Some(i) { assert inputs[k] in inputs[..k + 1]; }
      assert i in counted ==> exists name :: name in inputs[..k + 1] && ProducerOf(g, name) == Some(i);
    }
  }

  /** The successors of node `i` among the first `n` nodes, each once. */
  ghost predicate ListsBelow(g: Graph, i: nat, n: nat, next: seq<nat>) {
    Distinct(next) && forall j: nat :: j in next <==> j < n && Depends(g, i, j)
  }

  ghost predicate AdjacencyBelow(g: Graph, n: nat, adjacency: seq<seq<nat>>) {
    |adjacency| == |g.nodes| && forall i :: 0 <= i < |adjacency| ==> ListsBelow(g, i, n, adjacency[i])
  }

  /** One edge from each counted producer to node `j`. */
  method PushEdges(j: nat, counted: seq<nat>, adjacency: seq<seq<nat>>) returns (pushed: seq<seq<nat>>)
    requires Distinct(counted) && forall i :: i in counted ==> i < |adjacency|
    ensures |pushed| == |adjacency|
    ensures forall i :: 0 <= i < |pushed| ==> pushed[i] == if i in counted then adjacency[i] + [j] else adjacency[i]
  {
    pushed := adjacency;
    for t := 0 to |counted|
      invariant |pushed| == |adjacency|
      invariant forall i :: 0 <= i < |pushed| ==>
        pushed[i] == if i in counted[..t] then adjacency[i] + [j] else adjacency[i]
    {
      assert counted[t] in counted && counted[t] !in counted[..t];
      pushed := pushed[counted[t] := pushed[counted[t]] + [j]];
      assert counted[..t + 1] == counted[..t] + [counted[t]];
    }
    assert counted[..|counted|] == counted;
  }

  lemma {:induction false} CountedArePredecessors(g: Graph, j: nat, counted: seq<nat>)
    requires j < |g.nodes| && ListsProducers(g, j, g.nodes[j].inputs, counted)
    ensures Elements(counted) == Predecessors(g, j) && |counted| == |Predecessors(g, j)|
    ensures forall i: nat :: i in counted <==> Depends(g, i, j)
  {
    forall i: nat ensures i in counted <==> Depends(g, i, j) {}
    forall i | i in counted ensures i in Predecessors(g, j) { DependsBounds(g, i, j); }
    DistinctSize(counted);
  }

  lemma {:induction false} PushedBelow(
      g: Graph, j: nat, counted: seq<nat>, adjacency: seq<seq<nat>>, pushed: seq<seq<nat>>)
    requires AdjacencyBelow(g, j, adjacency) && |pushed| == |adjacency|
    requires forall i: nat :: i in counted <==> Depends(g, i, j)
    requires forall i :: 0 <= i < |pushed| ==> pushed[i] == if i in counted then adjacency[i] + [j] else adjacency[i]
    ensures AdjacencyBelow(g, j + 1, pushed)
  {
    forall i: nat | i < |pushed| ensures ListsBelow(g, i, j + 1, pushed[i]) {
      assert ListsBelow(g, i, j, adjacency[i]);
    }
  }

  ghost predicate Counts(g: Graph, inDegree: seq<nat>, n: nat) {
    |inDegree| == |g.nodes| && forall j :: 0 <= j < n && j < |inDegree| ==> inDegree[j] == |Predecessors(g, j)|
  }

  method BuildAdjacency(g: Graph) returns (adjacency: seq<seq<nat>>, inDegree: seq<nat>)
    ensures AdjacencyBelow(g, |g.nodes|, adjacency) && Counts(g, inDegree, |g.nodes|)
  {
    adjacency, inDegree := seq(|g.nodes|, _ => []), seq(|g.nodes|, _ => 0);
    for j := 0 to |g.nodes|
      invariant AdjacencyBelow(g, j, adjacency) && Counts(g, inDegree, j)
    {
      var counted := CountProducers(g, j);
      CountedArePredecessors(g, j, counted);
      assert forall i :: i in counted ==> i in Elements(counted);
      var pushed := PushEdges(j, counted, adjacency);
      PushedBelow(g, j, counted, adjacency, pushed);
      adjacency, inDegree := pushed, inDegree[j := |counted|];
    }
  }

  // ----- the worklist -----

  ghost predicate OnceEach(g: Graph, order: seq<nat>, worklist: seq<nat>) {
    && Distinct(order + worklist)
    && (forall j :: j in order || j in worklist ==> j < |g.nodes|)
  }

  /** A node has been reached exactly when its count is down to zero. */
  ghost predicate ReachedAtZero(g: Graph, order: seq<nat>, worklist: seq<nat>, inDegree: seq<nat>) {
    |inDegree| == |g.nodes| && forall j :: 0 <= j < |inDegree| ==> (inDegree[j] == 0 <==> j in order || j in worklist)
  }

  /** Each count is the number of producers not yet in the order, plus one for each listed node. */
  ghost predicate Remaining(g: Graph, order: seq<nat>, pending: seq<nat>, inDegree: seq<nat>) {
    && |inDegree| == |g.nodes|
    && forall j :: 0 <= j < |inDegree| ==>
         inDegree[j] == |Predecessors(g, j) - Elements(order)| + (if j in pending then 1 else 0)
  }

  lemma {:induction false} PopRemaining(g: Graph, order: seq<nat>, idx: nat, next: seq<nat>, inDegree: seq<nat>)
    requires Remaining(g, order, [], inDegree) && idx !in order && ListsBelow(g, idx, |g.nodes|, next)
    ensures Remaining(g, order + [idx], next, inDegree)
  {
    forall j | 0 <= j < |inDegree|
      ensures inDegree[j] == |Predecessors(g, j) - Elements(order + [idx])| + (if j in next then 1 else 0)
    {
      assert Elements(order + [idx]) == Elements(order) + {idx};
      var before, after := Predecessors(g, j) - Elements(order), Predecessors(g, j) - Elements(order + [idx]);
      if j in next {
        DependsBounds(g, idx, j);
        assert before == after + {idx} && idx !in after;
      } else {
        assert idx !in Predecessors(g, j);
        assert before == after;
      }
    }
  }

  /** Lowers the counts of a dequeued node's successors, enqueueing those that reach zero. */
  method Relax(g: Graph, ghost order: seq<nat>, next: seq<nat>, worklist: seq<nat>, inDegree: seq<nat>)
    returns (worklist': seq<nat>, inDegree': seq<nat>)
    requires Distinct(next) && (forall j :: j in next ==> j < |g.nodes|)
    requires OnceEach(g, order, worklist) && ReachedAtZero(g, order, worklist, inDegree)
      && Remaining(g, order, next, inDegree)
    ensures OnceEach(g, order, worklist') && ReachedAtZero(g, order, worklist', inDegree')
      && Remaining(g, order, [], inDegree')
  {
    worklist', inDegree' := worklist, inDegree;
    for t := 0 to |next|
      invariant OnceEach(g, order, worklist') && ReachedAtZero(g, order, worklist', inDegree')
      invariant Remaining(g, order, next[t..], inDegree')
    {
      var j := next[t];
      NextOnly(next, t);
      RelaxOne(g, order, j, next[t + 1..], worklist', inDegree');
      inDegree' := inDegree'[j := inDegree'[j] - 1];
      if inDegree'[j] == 0 {
        worklist' := worklist' + [j];
      }
    }
  }

  lemma {:induction false} NextOnly(next: seq<nat>, t: nat)
    requires Distinct(next) && t < |next|
    ensures next[t] in next && next[t..] == [next[t]] + next[t + 1..] && next[t] !in next[t + 1..]
  {
  }

  lemma {:induction false} RelaxOne(
      g: Graph, order: seq<nat>, j: nat, rest: seq<nat>, worklist: seq<nat>, inDegree: seq<nat>)
    requires j < |g.nodes| && j !in rest && Remaining(g, order, [j] + rest, inDegree)
    requires OnceEach(g, order, worklist) && ReachedAtZero(g, order, worklist, inDegree)
    ensures inDegree[j] > 0 && Remaining(g, order, rest, inDegree[j := inDegree[j] - 1])
    ensures var after := if inDegree[j] == 1 then worklist + [j] else worklist;
      OnceEach(g, order, after) && ReachedAtZero(g, order, after, inDegree[j := inDegree[j] - 1])
  {
    RelaxCount(g, order, j, rest, inDegree);
    if inDegree[j] == 1 {
      PushDistinct(order, worklist, j);
      assert forall k :: k in worklist + [j] <==> k in worklist || k == j;
    }
  }

  lemma {:induction false} RelaxCount(g: Graph, order: seq<nat>, j: nat, rest: seq<nat>, inDegree: seq<nat>)
    requires j < |g.nodes| && j !in rest && Remaining(g, order, [j] + rest, inDegree)
    ensures inDegree[j] > 0 && Remaining(g, order, rest, inDegree[j := inDegree[j] - 1])
  {
    assert j in [j] + rest;
    var lowered := inDegree[j := inDegree[j] - 1];
    forall k | 0 <= k < |lowered|
      ensures lowered[k] == |Predecessors(g, k) - Elements(order)| + (if k in rest then 1 else 0)
    {
      assert k in [j] + rest <==> k == j || k in rest;
    }
  }

  lemma {:induction false} PushDistinct(order: seq<nat>, worklist: seq<nat>, j: nat)
    requires Distinct(order + worklist) && j !in order && j !in worklist
    ensures Distinct(order + (worklist + [j]))
  {
    assert order + (worklist + [j]) == order + worklist + [j];
    assert forall k :: k in order + worklist ==> k in order || k in worklist;
  }

  /** The state between two turns of the worklist loop. */
  ghost predicate KahnState(g: Graph, order: seq<nat>, worklist: seq<nat>, inDegree: seq<nat>) {
    && OnceEach(g, order, worklist) && ReachedAtZero(g, order, worklist, inDegree) && Remaining(g, order, [], inDegree)
    && ProducersFirst(g, order)
  }

  method Start(g: Graph, inDegree: seq<nat>) returns (worklist: seq<nat>)
    requires Counts(g, inDegree, |g.nodes|)
    ensures KahnState(g, [], worklist, inDegree)
  {
    worklist := [];
    for j := 0 to |inDegree|
      invariant Distinct(worklist) && forall i :: i in worklist <==> 0 <= i < j && inDegree[i] == 0
    {
      if inDegree[j] == 0 {
        worklist := worklist + [j];
      }
    }
    assert [] + worklist == worklist;
    forall j | 0 <= j < |inDegree| ensures inDegree[j] == |Predecessors(g, j) - Elements([])| {
      assert Predecessors(g, j) - Elements([]) == Predecessors(g, j);
    }
  }

  lemma {:induction false} ReadyToOrder(g: Graph, order: seq<nat>, worklist: seq<nat>, inDegree: seq<nat>)
    requires KahnState(g, order, worklist, inDegree) && |worklist| > 0
    ensures var idx := worklist[0];
      && idx < |g.nodes| && idx !in order && ProducersFirst(g, order + [idx])
      && OnceEach(g, order + [idx], worklist[1..]) && ReachedAtZero(g, order + [idx], worklist[1..], inDegree)
  {
    PopReached(g, order, worklist, inDegree);
    ReadyNow(g, order, worklist, inDegree);
    FirstsMore(g, order, worklist[0]);
  }

  lemma {:induction false} PopReached(g: Graph, order: seq<nat>, worklist: seq<nat>, inDegree: seq<nat>)
    requires OnceEach(g, order, worklist) && ReachedAtZero(g, order, worklist, inDegree) && |worklist| > 0
    ensures worklist[0] < |g.nodes| && worklist[0] !in order
    ensures OnceEach(g, order + [worklist[0]], worklist[1..])
      && ReachedAtZero(g, order + [worklist[0]], worklist[1..], inDegree)
  {
    PopFront(order, worklist);
    assert worklist[0] in worklist;
    assert forall j :: j in order + [worklist[0]] <==> j in order || j == worklist[0];
  }

  lemma {:induction false} ReadyNow(g: Graph, order: seq<nat>, worklist: seq<nat>, inDegree: seq<nat>)
    requires |worklist| > 0 && worklist[0] < |g.nodes|
    requires ReachedAtZero(g, order, worklist, inDegree) && Remaining(g, order, [], inDegree)
    ensures Predecessors(g, worklist[0]) <= Elements(order)
  {
    var idx := worklist[0];
    assert idx in worklist;
    EmptyDifference(Predecessors(g, idx), Elements(order));
  }

  lemma {:induction false} EmptyDifference<T>(a: set<T>, b: set<T>)
    ensures |a - b| == 0 ==> a <= b
  {
    forall x | x in a && |a - b| == 0 ensures x in b {
      assert x !in a - b;
    }
  }

  lemma {:induction false} PopFront(order: seq<nat>, worklist: seq<nat>)
    requires Distinct(order + worklist) && |worklist| > 0
    ensures worklist[0] !in order && Distinct(order + [worklist[0]] + worklist[1..])
    ensures forall j :: j in worklist <==> j == worklist[0] || j in worklist[1..]
  {
    var all := order + worklist;
    assert order + [worklist[0]] + worklist[1..] == all;
    assert all[|order|] == worklist[0] && forall k :: 0 <= k < |order| ==> all[k] == order[k];
    assert worklist == [worklist[0]] + worklist[1..];
  }

  lemma {:induction false} FirstsMore(g: Graph, order: seq<nat>, idx: nat)
    requires ProducersFirst(g, order) && Predecessors(g, idx) <= Elements(order)
    ensures ProducersFirst(g, order + [idx])
  {
    var longer := order + [idx];
    forall k | 0 <= k < |longer| ensures Predecessors(g, longer[k]) <= Elements(longer[..k]) {
      assert longer[..k] == order[..k];
      if k == |order| { assert order[..k] == order; }
    }
  }

  lemma {:induction false} LeftoverIsCyclic(g: Graph, order: seq<nat>, inDegree: seq<nat>)
    requires KahnState(g, order, [], inDegree) && |order| != |g.nodes|
    ensures Cyclic(g)
  {
    var start := LeftoverExists(g, order);
    LeftoverStuck(g, order, inDegree);
    StuckIsCyclic(g, Below(|g.nodes|) - Elements(order), start);
  }

  lemma {:induction false} LeftoverExists(g: Graph, order: seq<nat>) returns (start: nat)
    requires OnceEach(g, order, []) && |order| != |g.nodes|
    ensures start in Below(|g.nodes|) - Elements(order)
  {
    assert order + [] == order;
    DistinctSize(order);
    BelowSize(|g.nodes|);
    OrderShort(g, order, []);
    LargerHasMore(Below(|g.nodes|), Elements(order));
    start :| start in Below(|g.nodes|) - Elements(order);
  }

  lemma {:induction false} LargerHasMore<T>(a: set<T>, b: set<T>)
    requires |b| < |a|
    ensures exists x :: x in a - b
  {
    if a - b == {} {
      EmptyDifference(a, b);
      SubsetSize(a, b);
    }
  }

  lemma {:induction false} LeftoverStuck(g: Graph, order: seq<nat>, inDegree: seq<nat>)
    requires ReachedAtZero(g, order, [], inDegree) && Remaining(g, order, [], inDegree)
    ensures Stuck(g, Below(|g.nodes|) - Elements(order))
  {
    var stuck := Below(|g.nodes|) - Elements(order);
    forall j | j in stuck ensures HasPredecessorIn(g, stuck, j) {
      LeftoverWaits(g, order, inDegree, j);
    }
  }

  lemma {:induction false} LeftoverWaits(g: Graph, order: seq<nat>, inDegree: seq<nat>, j: nat)
    requires ReachedAtZero(g, order, [], inDegree) && Remaining(g, order, [], inDegree)
      && j in Below(|g.nodes|) - Elements(order)
    ensures HasPredecessorIn(g, Below(|g.nodes|) - Elements(order), j)
  {
    assert j !in order;
    assert inDegree[j] == |Predecessors(g, j) - Elements(order)|;
    var i :| i in Predecessors(g, j) - Elements(order);
    assert i in Below(|g.nodes|) - Elements(order) && Depends(g, i, j);
  }

  /** Orders the nodes with every producer first, or finds that the dependencies are cyclic. */
  method TopologicalOrder(g: Graph) returns (r: Option<seq<nat>>)
    ensures r.Some? <==> !Cyclic(g)
    ensures r.Some? ==> IsPermutation(|g.nodes|, r.value) && ProducersFirst(g, r.value)
  {
    var adjacency, inDegree := BuildAdjacency(g);
    var worklist := Start(g, inDegree);
    var order: seq<nat> := [];
    while worklist != []
      invariant AdjacencyBelow(g, |g.nodes|, adjacency)
      invariant KahnState(g, order, worklist, inDegree)
      decreases |g.nodes| - |order|
    {
      var idx := worklist[0];
      OrderShort(g, order, worklist);
      ReadyToOrder(g, order, worklist, inDegree);
      PopRemaining(g, order, idx, adjacency[idx], inDegree);
      order := order + [idx];
      worklist, inDegree := Relax(g, order, adjacency[idx], worklist[1..], inDegree);
    }
    if |order| != |g.nodes| {
      LeftoverIsCyclic(g, order, inDegree);
      return None;
    }
    assert order + [] == order;
    forall k | 0 <= k < |order| ensures order[k] < |g.nodes| { assert order[k] in order; }
    OrderIsAcyclic(g, order);
    r := Some(order);
  }

  /** The order never holds more than the nodes, so the loop ends. */
  lemma {:induction false} OrderShort(g: Graph, order: seq<nat>, worklist: seq<nat>)
    requires OnceEach(g, order, worklist)
    ensures |order| + |worklist| <= |g.nodes|
  {
    var all := order + worklist;
    DistinctSize(all);
    BelowSize(|g.nodes|);
    SubsetSize(Elements(all), Below(|g.nodes|));
  }
}
