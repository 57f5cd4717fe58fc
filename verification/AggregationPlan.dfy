/** The aggregation tree: leaves grouped level by level, a last single child promoted unchanged. */
module AggregationPlan {
  import opened Prelude
  import opened Partition

  const MIN_FAN_IN := 2
  const MAX_FAN_IN := 16
  const MAX_LEAVES: nat := 0x1_0000
  const MAX_EDGES: nat := 0x10_0000

  datatype ChildId = Leaf(shard: nat) | Node(level: nat, index: nat)

  datatype TreeNode = TreeNode(id: ChildId, children: seq<ChildId>)

  datatype AggregationTree = AggregationTree(fanIn: nat, leafCount: nat, levels: seq<seq<TreeNode>>, root: ChildId)

  datatype PlanError = InvalidFanIn(fanIn: nat) | InvalidPartition

  // ----- the tree, row by row -----

  /** A child waiting to be grouped, and the interval of shards below it. */
  datatype Entry = Entry(id: ChildId, lo: nat, hi: nat)

  function Ids(row: seq<Entry>): (ids: seq<ChildId>)
    ensures |ids| == |row| && forall k :: 0 <= k < |row| ==> ids[k] == row[k].id
  {
    seq(|row|, k requires 0 <= k < |row| => row[k].id)
  }

  function Head(row: seq<Entry>, fan: nat): seq<Entry> {
    if |row| <= fan then row else row[..fan]
  }

  function Tail(row: seq<Entry>, fan: nat): (t: seq<Entry>)
    ensures |row| > 0 && fan > 0 ==> |t| < |row|
  {
    if |row| <= fan then [] else row[fan..]
  }

  /** One group: a single child is promoted, several get a new node. */
  function Join(group: seq<Entry>, level: nat, index: nat): Entry
    requires |group| > 0
  {
    if |group| == 1 then group[0] else Entry(Node(level, index), group[0].lo, group[|group| - 1].hi)
  }

  function NodesOf(row: seq<Entry>, fan: nat, level: nat, index: nat): seq<TreeNode>
    requires fan > 0
    decreases |row|
  {
    if |row| == 0 then []
    else if |Head(row, fan)| == 1 then NodesOf(Tail(row, fan), fan, level, index)
    else [TreeNode(Node(level, index), Ids(Head(row, fan)))] + NodesOf(Tail(row, fan), fan, level, index + 1)
  }

  function NextRow(row: seq<Entry>, fan: nat, level: nat, index: nat): (next: seq<Entry>)
    requires fan > 1
    ensures 2 * |next| <= |row| + 1
    ensures |row| > 0 ==> |next| > 0
    decreases |row|
  {
    if |row| == 0 then []
    else
      [Join(Head(row, fan), level, index)]
      + NextRow(Tail(row, fan), fan, level, if |Head(row, fan)| == 1 then index else index + 1)
  }

  function LevelsFrom(row: seq<Entry>, fan: nat, level: nat): seq<seq<TreeNode>>
    requires fan > 1
    decreases |row|
  {
    if |row| <= 1 then [] else [NodesOf(row, fan, level, 0)] + LevelsFrom(NextRow(row, fan, level, 0), fan, level + 1)
  }

  function RootOf(row: seq<Entry>, fan: nat, level: nat): ChildId
    requires fan > 1 && |row| > 0
    decreases |row|
  {
    if |row| == 1 then row[0].id else RootOf(NextRow(row, fan, level, 0), fan, level + 1)
  }

  function LeafRow(n: nat): (row: seq<Entry>)
    ensures |row| == n && forall k :: 0 <= k < n ==> row[k] == Entry(Leaf(k), k, k + 1)
  {
    seq(n, k requires 0 <= k < n => Entry(Leaf(k), k, k + 1))
  }

  function TreeFor(n: nat, fan: nat): AggregationTree
    requires fan > 1 && n > 0
  {
    AggregationTree(fan, n, LevelsFrom(LeafRow(n), fan, 0), RootOf(LeafRow(n), fan, 0))
  }

  // ----- building it -----

  lemma {:induction false} AppendOne<T>(a: seq<T>, x: T, rest: seq<T>)
    ensures a + ([x] + rest) == a + [x] + rest
  {
  }

  lemma {:induction false} GroupStep(row: seq<Entry>, start: nat, end: nat, fan: nat, level: nat, index: nat)
    requires fan > 1 && start < |row| && end == if |row| - start <= fan then |row| else start + fan
    ensures var group := row[start..end];
      && NextRow(row[start..], fan, level, index)
         == [Join(group, level, index)] + NextRow(row[end..], fan, level, if |group| == 1 then index else index + 1)
      && NodesOf(row[start..], fan, level, index)
         == if |group| == 1 then NodesOf(row[end..], fan, level, index)
            else [TreeNode(Node(level, index), Ids(group))] + NodesOf(row[end..], fan, level, index + 1)
  {
    var rest := row[start..];
    assert Head(rest, fan) == row[start..end] && Tail(rest, fan) == row[end..];
  }

  /** What is grouped so far, followed by what grouping the rest gives, is what grouping the row gives. */
  ghost predicate Grouped(row: seq<Entry>, start: nat, fan: nat, level: nat, nodes: seq<TreeNode>, made: seq<Entry>)
    requires fan > 1
  {
    && start <= |row|
    && nodes + NodesOf(row[start..], fan, level, |nodes|) == NodesOf(row, fan, level, 0)
    && made + NextRow(row[start..], fan, level, |nodes|) == NextRow(row, fan, level, 0)
  }

  lemma {:induction false} GroupedMore(
      row: seq<Entry>, start: nat, end: nat, fan: nat, level: nat, nodes: seq<TreeNode>, made: seq<Entry>)
    requires fan > 1 && Grouped(row, start, fan, level, nodes, made)
    requires start < |row| && end == if |row| - start <= fan then |row| else start + fan
    ensures var group := row[start..end];
      Grouped(row, end, fan, level, if |group| == 1 then nodes
        else nodes + [TreeNode(Node(level, |nodes|), Ids(group))],
              made + [Join(group, level, |nodes|)])
  {
    var group := row[start..end];
    GroupStep(row, start, end, fan, level, |nodes|);
    AppendOne(made, Join(group, level, |nodes|),
      NextRow(row[end..], fan, level, if |group| == 1 then |nodes| else |nodes| + 1));
    AppendOne(nodes, TreeNode(Node(level, |nodes|), Ids(group)), NodesOf(row[end..], fan, level, |nodes| + 1));
  }

  lemma {:induction false} GroupedAll(row: seq<Entry>, fan: nat, level: nat, nodes: seq<TreeNode>, made: seq<Entry>)
    requires fan > 1 && Grouped(row, |row|, fan, level, nodes, made)
    ensures nodes == NodesOf(row, fan, level, 0) && made == NextRow(row, fan, level, 0)
  {
    assert row[|row|..] == [];
    assert nodes + [] == nodes && made + [] == made;
  }

  lemma {:induction false} IdsOfSlice(row: seq<Entry>, start: nat, end: nat)
    requires start <= end <= |row|
    ensures Ids(row)[start..end] == Ids(row[start..end])
  {
  }

  lemma {:induction false} IdsSnoc(row: seq<Entry>, e: Entry)
    ensures Ids(row + [e]) == Ids(row) + [e.id]
  {
  }

  lemma {:induction false} JoinedId(group: seq<Entry>, level: nat, index: nat)
    requires |group| > 0
    ensures Join(group, level, index).id == if |group| == 1 then Ids(group)[0] else Node(level, index)
  {
  }

  /** Cuts one row into groups, numbering the new nodes. */
  method GroupRow(
      current: seq<ChildId>, fan: nat, level: nat, ghost row: seq<Entry>)
    returns (nodes: seq<TreeNode>, next: seq<ChildId>)
    requires fan > 1 && current == Ids(row)
    ensures nodes == NodesOf(row, fan, level, 0) && next == Ids(NextRow(row, fan, level, 0))
  {
    nodes, next := [], [];
    var start := 0;
    ghost var made: seq<Entry> := [];
    assert row[0..] == row;
    while start < |current|
      invariant Grouped(row, start, fan, level, nodes, made)
      invariant next == Ids(made)
    {
      var end := if |current| - start <= fan then |current| else start + fan;
      var children := current[start..end];
      GroupedMore(row, start, end, fan, level, nodes, made);
      IdsOfSlice(row, start, end);
      JoinedId(row[start..end], level, |nodes|);
      IdsSnoc(made, Join(row[start..end], level, |nodes|));
      made := made + [Join(row[start..end], level, |nodes|)];
      if |children| == 1 {
        next := next + [children[0]];
      } else {
        var id := Node(level, |nodes|);
        nodes := nodes + [TreeNode(id, children)];
        next := next + [id];
      }
      start := end;
    }
    GroupedAll(row, fan, level, nodes, made);
  }

  predicate PartitionFits(plan: PartitionPlan) {
    && 0 < |plan.shards| <= MAX_LEAVES
    && |plan.dag.edges| <= MAX_EDGES
    && (forall k :: 0 <= k < |plan.shards| ==> plan.shards[k].id == k)
    && (forall e :: e in plan.dag.edges ==> e.producer < e.consumer < |plan.shards|)
  }

  /** The levels made so far, followed by those of the current row, are the levels of the first row. */
  ghost predicate Leveled(first: seq<Entry>, row: seq<Entry>, fan: nat, levels: seq<seq<TreeNode>>)
    requires fan > 1 && |first| > 0
  {
    && |row| > 0
    && levels + LevelsFrom(row, fan, |levels|) == LevelsFrom(first, fan, 0)
    && RootOf(row, fan, |levels|) == RootOf(first, fan, 0)
  }

  lemma {:induction false} LeveledMore(first: seq<Entry>, row: seq<Entry>, fan: nat, levels: seq<seq<TreeNode>>)
    requires fan > 1 && |first| > 0 && |row| > 1 && Leveled(first, row, fan, levels)
    ensures NodesOf(row, fan, |levels|, 0) != []
    ensures Leveled(first, NextRow(row, fan, |levels|, 0), fan, levels + [NodesOf(row, fan, |levels|, 0)])
  {
    AppendOne(levels, NodesOf(row, fan, |levels|, 0), LevelsFrom(NextRow(row, fan, |levels|, 0), fan, |levels| + 1));
  }

  /** Plans the tree; the level and progress limits of the loop are never reached. */
  method PlanAggregation(plan: PartitionPlan, fan: nat) returns (r: Result<AggregationTree, PlanError>)
    ensures r.Ok? <==> MIN_FAN_IN <= fan <= MAX_FAN_IN && PartitionFits(plan)
    ensures r.Ok? ==> r.value == TreeFor(|plan.shards|, fan)
    ensures r.Err? ==> r.error == if MIN_FAN_IN <= fan <= MAX_FAN_IN then InvalidPartition else InvalidFanIn(fan)
  {
    if fan < MIN_FAN_IN || fan > MAX_FAN_IN {
      return Err(InvalidFanIn(fan));
    }
    if !PartitionFits(plan) {
      return Err(InvalidPartition);
    }
    var n := |plan.shards|;
    ghost var row := LeafRow(n);
    var current := seq(n, k requires 0 <= k < n => Leaf(plan.shards[k].id));
    var levels: seq<seq<TreeNode>> := [];
    while |current| > 1
      invariant |current| > 0 && current == Ids(row)
      invariant Leveled(LeafRow(n), row, fan, levels)
      decreases |current|
    {
      LeveledMore(LeafRow(n), row, fan, levels);
      var level, next := GroupRow(current, fan, |levels|, row);
      assert level != [] && |next| < |current|;
      row := NextRow(row, fan, |levels|, 0);
      levels := levels + [level];
      current := next;
    }
    assert levels + [] == levels;
    r := Ok(AggregationTree(fan, n, levels, current[0]));
  }

  // ----- arities -----

  function ArityExcess(nodes: seq<TreeNode>): int {
    if |nodes| == 0 then 0 else |nodes[0].children| - 1 + ArityExcess(nodes[1..])
  }

  function TotalExcess(levels: seq<seq<TreeNode>>): int {
    if |levels| == 0 then 0 else ArityExcess(levels[0]) + TotalExcess(levels[1..])
  }

  lemma {:induction false} RowArities(row: seq<Entry>, fan: nat, level: nat, index: nat)
    requires fan > 1
    ensures forall k :: 0 <= k < |NodesOf(row, fan, level, index)| ==>
      2 <= |NodesOf(row, fan, level, index)[k].children| <= fan
    ensures ArityExcess(NodesOf(row, fan, level, index)) == |row| - |NextRow(row, fan, level, index)|
    decreases |row|
  {
    if |row| > 0 {
      RowArities(Tail(row, fan), fan, level, if |Head(row, fan)| == 1 then index else index + 1);
      if |Head(row, fan)| > 1 {
        var rest := NodesOf(Tail(row, fan), fan, level, index + 1);
        assert NodesOf(row, fan, level, index)[1..] == rest;
      }
    }
  }

  ghost predicate AritiesWithin(levels: seq<seq<TreeNode>>, fan: nat) {
    forall l, k :: 0 <= l < |levels| && 0 <= k < |levels[l]| ==> 2 <= |levels[l][k].children| <= fan
  }

  /** Every node has 2 to fan-in children, and merging saves exactly one claim per child beyond the first. */
  lemma {:induction false} TreeArities(row: seq<Entry>, fan: nat, level: nat)
    requires fan > 1 && |row| > 0
    ensures AritiesWithin(LevelsFrom(row, fan, level), fan)
    ensures TotalExcess(LevelsFrom(row, fan, level)) == |row| - 1
    decreases |row|
  {
    if |row| > 1 {
      var next := NextRow(row, fan, level, 0);
      RowArities(row, fan, level, 0);
      TreeArities(next, fan, level + 1);
      assert LevelsFrom(row, fan, level)[1..] == LevelsFrom(next, fan, level + 1);
    }
  }

  function Power2(k: nat): nat {
    if k == 0 then 1 else 2 * Power2(k - 1)
  }

  /** Each level at least halves the row. */
  lemma {:induction false} LevelsShallow(row: seq<Entry>, fan: nat, level: nat, k: nat)
    requires fan > 1 && |row| <= Power2(k)
    ensures |LevelsFrom(row, fan, level)| <= k
    decreases k
  {
    if |row| > 1 {
      LevelsShallow(NextRow(row, fan, level, 0), fan, level + 1, k - 1);
    }
  }

  lemma {:induction false} TreeHeight(n: nat, fan: nat)
    requires fan > 1 && 0 < n <= MAX_LEAVES
    ensures |TreeFor(n, fan).levels| <= 16
  {
    assert Power2(8) == 256 && Power2(16) == 256 * Power2(8) by {
      assert Power2(4) == 16 && Power2(12) == 16 * Power2(8);
    }
    LevelsShallow(LeafRow(n), fan, 0, 16);
  }

  // ----- reading the leaves -----

  function LeavesUnder(levels: seq<seq<TreeNode>>, id: ChildId): seq<nat>
    decreases |levels|, 0, 0
  {
    match id
    case Leaf(s) => [s]
    case Node(l, i) => if l < |levels| && i < |levels[l]| then LeavesUnderAll(levels[..l], levels[l][i].children)
      else []
  }

  function LeavesUnderAll(levels: seq<seq<TreeNode>>, ids: seq<ChildId>): seq<nat>
    decreases |levels|, 1, |ids|
  {
    if |ids| == 0 then [] else LeavesUnder(levels, ids[0]) + LeavesUnderAll(levels, ids[1..])
  }

  function Shards(lo: nat, hi: nat): (s: seq<nat>)
    requires lo <= hi
    ensures |s| == hi - lo && forall k :: 0 <= k < |s| ==> s[k] == lo + k
  {
    seq(hi - lo, k => lo + k)
  }

  /** Intervals that are nonempty, in order and without gaps, from `lo` to `hi`. */
  ghost predicate Spans(row: seq<Entry>, lo: nat, hi: nat)
    decreases |row|
  {
    if |row| == 0 then lo == hi else row[0].lo == lo < row[0].hi && Spans(row[1..], row[0].hi, hi)
  }

  predicate Below(id: ChildId, level: nat) {
    id.Node? ==> id.level < level
  }

  /** Every entry exists in the levels made so far, with exactly its interval of leaves below it. */
  ghost predicate Rooted(levels: seq<seq<TreeNode>>, row: seq<Entry>) {
    forall k :: 0 <= k < |row| ==> Below(row[k].id, |levels|) && RootedAt(levels, row[k])
  }

  ghost predicate RootedAt(levels: seq<seq<TreeNode>>, e: Entry) {
    e.lo <= e.hi && LeavesUnder(levels, e.id) == Shards(e.lo, e.hi)
  }

  lemma {:induction false} SpansSplit(row: seq<Entry>, lo: nat, hi: nat, k: nat)
    requires Spans(row, lo, hi) && 0 < k <= |row|
    ensures Spans(row[..k], lo, row[k - 1].hi) && Spans(row[k..], row[k - 1].hi, hi)
    ensures lo < row[k - 1].hi <= hi
    decreases |row|
  {
    SpansForward(row[1..], row[0].hi, hi);
    if k > 1 {
      SpansSplit(row[1..], row[0].hi, hi, k - 1);
      assert row[1..][..k - 1] == row[..k][1..] && row[1..][k - 1..] == row[k..];
    } else {
      assert row[..1][1..] == [];
    }
  }

  lemma {:induction false} SpansForward(row: seq<Entry>, lo: nat, hi: nat)
    requires Spans(row, lo, hi)
    ensures lo <= hi
    decreases |row|
  {
    if |row| > 0 { SpansForward(row[1..], row[0].hi, hi); }
  }

  lemma {:induction false} HeadAndTail(row: seq<Entry>, lo: nat, hi: nat, fan: nat) returns (mid: nat)
    requires Spans(row, lo, hi) && |row| > 0 && fan > 0
    ensures Spans(Head(row, fan), lo, mid) && Spans(Tail(row, fan), mid, hi) && lo < mid <= hi
    ensures Head(row, fan) + Tail(row, fan) == row && |Head(row, fan)| > 0
    ensures Head(row, fan)[|Head(row, fan)| - 1].hi == mid && row[0].lo == lo
  {
    var k := |Head(row, fan)|;
    assert Head(row, fan) == row[..k] && Tail(row, fan) == row[k..];
    SpansSplit(row, lo, hi, k);
    mid := row[k - 1].hi;
  }

  /** Grouping keeps the intervals in order and without gaps. */
  lemma {:induction false} NextRowSpans(row: seq<Entry>, lo: nat, hi: nat, fan: nat, level: nat, index: nat)
    requires fan > 1 && Spans(row, lo, hi)
    ensures Spans(NextRow(row, fan, level, index), lo, hi)
    decreases |row|
  {
    if |row| > 0 {
      var mid := HeadAndTail(row, lo, hi, fan);
      var index' := if |Head(row, fan)| == 1 then index else index + 1;
      NextRowSpans(Tail(row, fan), mid, hi, fan, level, index');
      assert NextRow(row, fan, level, index)[1..] == NextRow(Tail(row, fan), fan, level, index');
    }
  }

  lemma {:induction false} LeavesOfGroup(levels: seq<seq<TreeNode>>, group: seq<Entry>, lo: nat, hi: nat)
    requires Rooted(levels, group) && Spans(group, lo, hi) && lo <= hi
    ensures LeavesUnderAll(levels, Ids(group)) == Shards(lo, hi)
    decreases |group|
  {
    if |group| > 0 {
      SpansForward(group[1..], group[0].hi, hi);
      assert RootedAt(levels, group[0]);
      forall k | 0 <= k < |group[1..]| ensures Below(group[1..][k].id, |levels|) && RootedAt(levels, group[1..][k]) {
        assert RootedAt(levels, group[k + 1]);
      }
      LeavesOfGroup(levels, group[1..], group[0].hi, hi);
      assert Ids(group)[1..] == Ids(group[1..]);
      assert Shards(lo, group[0].hi) + Shards(group[0].hi, hi) == Shards(lo, hi);
    }
  }

  /** Adding a level does not change what is below an older entry. */
  lemma {:induction false} RootedKept(levels: seq<seq<TreeNode>>, nodes: seq<TreeNode>, e: Entry)
    requires Below(e.id, |levels|) && RootedAt(levels, e)
    ensures RootedAt(levels + [nodes], e)
  {
    if e.id.Node? {
      assert (levels + [nodes])[..e.id.level] == levels[..e.id.level];
    }
  }

  lemma {:induction false} NewNodeRooted(
      levels: seq<seq<TreeNode>>, nodes: seq<TreeNode>, group: seq<Entry>, index: nat, lo: nat, hi: nat)
    requires |group| > 1 && Rooted(levels, group) && Spans(group, lo, hi) && lo <= hi
    requires index < |nodes| && nodes[index] == TreeNode(Node(|levels|, index), Ids(group))
    ensures RootedAt(levels + [nodes], Join(group, |levels|, index))
  {
    assert (levels + [nodes])[..|levels|] == levels;
    SpansSplit(group, lo, hi, |group|);
    LeavesOfGroup(levels, group, lo, hi);
  }

  lemma {:induction false} NextRowRooted(
      levels: seq<seq<TreeNode>>, nodes: seq<TreeNode>, row: seq<Entry>, fan: nat, index: nat, lo: nat, hi: nat)
    requires fan > 1 && Rooted(levels, row) && Spans(row, lo, hi) && index <= |nodes|
    requires nodes[index..] == NodesOf(row, fan, |levels|, index)
    ensures Rooted(levels + [nodes], NextRow(row, fan, |levels|, index))
    decreases |row|
  {
    if |row| > 0 {
      var mid := HeadAndTail(row, lo, hi, fan);
      var head, tail := Head(row, fan), Tail(row, fan);
      RootedParts(levels, head, tail);
      if |head| == 1 {
        RootedKept(levels, nodes, head[0]);
        NextRowRooted(levels, nodes, tail, fan, index, mid, hi);
        RootedCons(levels + [nodes], head[0], NextRow(tail, fan, |levels|, index));
      } else {
        DropCons(nodes, index, TreeNode(Node(|levels|, index), Ids(head)), NodesOf(tail, fan, |levels|, index + 1));
        NewNodeRooted(levels, nodes, head, index, lo, mid);
        NextRowRooted(levels, nodes, tail, fan, index + 1, mid, hi);
        RootedCons(levels + [nodes], Join(head, |levels|, index), NextRow(tail, fan, |levels|, index + 1));
      }
    }
  }

  lemma {:induction false} RootedCons(levels: seq<seq<TreeNode>>, e: Entry, rest: seq<Entry>)
    requires Below(e.id, |levels|) && RootedAt(levels, e) && Rooted(levels, rest)
    ensures Rooted(levels, [e] + rest)
  {
    forall k | 0 <= k < |rest| + 1 ensures Below(([e] + rest)[k].id, |levels|) && RootedAt(levels, ([e] + rest)[k]) {
      if k > 0 { assert RootedAt(levels, rest[k - 1]); }
    }
  }

  lemma {:induction false} DropCons<T>(xs: seq<T>, index: nat, x: T, rest: seq<T>)
    requires index <= |xs| && xs[index..] == [x] + rest
    ensures index < |xs| && xs[index] == x && xs[index + 1..] == rest
  {
    assert xs[index..][0] == x && xs[index..][1..] == rest;
  }

  lemma {:induction false} RootedParts(levels: seq<seq<TreeNode>>, head: seq<Entry>, tail: seq<Entry>)
    requires Rooted(levels, head + tail)
    ensures Rooted(levels, head) && Rooted(levels, tail)
  {
    var all := head + tail;
    forall k | 0 <= k < |head| ensures Below(head[k].id, |levels|) && RootedAt(levels, head[k]) {
      assert RootedAt(levels, all[k]);
    }
    forall k | 0 <= k < |tail| ensures Below(tail[k].id, |levels|) && RootedAt(levels, tail[k]) {
      assert RootedAt(levels, all[|head| + k]);
    }
  }

  lemma {:induction false} RootCovers(levels: seq<seq<TreeNode>>, row: seq<Entry>, fan: nat, lo: nat, hi: nat)
    requires fan > 1 && |row| > 0 && Rooted(levels, row) && Spans(row, lo, hi) && lo <= hi
    ensures LeavesUnder(levels + LevelsFrom(row, fan, |levels|), RootOf(row, fan, |levels|)) == Shards(lo, hi)
    decreases |row|
  {
    if |row| == 1 {
      assert RootedAt(levels, row[0]);
      assert levels + [] == levels;
    } else {
      var nodes, next := NodesOf(row, fan, |levels|, 0), NextRow(row, fan, |levels|, 0);
      assert nodes[0..] == nodes;
      NextRowRooted(levels, nodes, row, fan, 0, lo, hi);
      NextRowSpans(row, lo, hi, fan, |levels|, 0);
      RootCovers(levels + [nodes], next, fan, lo, hi);
      AppendOne(levels, nodes, LevelsFrom(next, fan, |levels| + 1));
    }
  }

  lemma {:induction false} LeafRowRooted(n: nat)
    ensures Rooted([], LeafRow(n)) && Spans(LeafRow(n), 0, n)
  {
    forall k | 0 <= k < n ensures RootedAt([], LeafRow(n)[k]) {
      assert Shards(k, k + 1) == [k];
    }
    LeafSpans(LeafRow(n), 0, n);
  }

  lemma {:induction false} LeafSpans(row: seq<Entry>, lo: nat, hi: nat)
    requires lo <= hi && |row| == hi - lo && forall k :: 0 <= k < |row| ==>
      row[k].lo == lo + k && row[k].hi == lo + k + 1
    ensures Spans(row, lo, hi)
    decreases |row|
  {
    if |row| > 0 { LeafSpans(row[1..], lo + 1, hi); }
  }

  /** Read left to right, the leaves of the tree are exactly shards 0 to n - 1, whatever the fan-in. */
  lemma {:induction false} LeavesInOrder(n: nat, fan: nat)
    requires fan > 1 && n > 0
    ensures LeavesUnder(TreeFor(n, fan).levels, TreeFor(n, fan).root) == Shards(0, n)
  {
    LeafRowRooted(n);
    RootCovers([], LeafRow(n), fan, 0, n);
    assert [] + LevelsFrom(LeafRow(n), fan, 0) == LevelsFrom(LeafRow(n), fan, 0);
  }

  // ----- every id is used exactly once -----

  function ChildrenOf(nodes: seq<TreeNode>): seq<ChildId> {
    if |nodes| == 0 then [] else nodes[0].children + ChildrenOf(nodes[1..])
  }

  function AllChildren(levels: seq<seq<TreeNode>>): seq<ChildId> {
    if |levels| == 0 then [] else ChildrenOf(levels[0]) + AllChildren(levels[1..])
  }

  function NodeIds(nodes: seq<TreeNode>): (ids: seq<ChildId>)
    ensures |ids| == |nodes| && forall k :: 0 <= k < |nodes| ==> ids[k] == nodes[k].id
  {
    seq(|nodes|, k requires 0 <= k < |nodes| => nodes[k].id)
  }

  function AllNodeIds(levels: seq<seq<TreeNode>>): seq<ChildId> {
    if |levels| == 0 then [] else NodeIds(levels[0]) + AllNodeIds(levels[1..])
  }

  lemma {:induction false} ChildrenCons(node: TreeNode, nodes: seq<TreeNode>)
    ensures ChildrenOf([node] + nodes) == node.children + ChildrenOf(nodes)
    ensures NodeIds([node] + nodes) == [node.id] + NodeIds(nodes)
  {
    assert ([node] + nodes)[1..] == nodes;
  }

  lemma {:induction false} IdsCons(e: Entry, row: seq<Entry>)
    ensures Ids([e] + row) == [e.id] + Ids(row)
  {
  }

  lemma {:induction false} IdsConcat(a: seq<Entry>, b: seq<Entry>)
    ensures Ids(a + b) == Ids(a) + Ids(b)
  {
  }

  /** How often `x` occurs. */
  function Count<T(==)>(xs: seq<T>, x: T): nat {
    if |xs| == 0 then 0 else (if xs[0] == x then 1 else 0) + Count(xs[1..], x)
  }

  lemma {:induction false} CountConcat<T>(a: seq<T>, b: seq<T>, x: T)
    ensures Count(a + b, x) == Count(a, x) + Count(b, x)
    decreases |a|
  {
    if |a| == 0 {
      assert a + b == b;
    } else {
      CountConcat(a[1..], b, x);
      assert (a + b)[1..] == a[1..] + b;
    }
  }

  lemma {:induction false} CountOne<T>(y: T, x: T)
    ensures Count([y], x) == if y == x then 1 else 0
  {
  }

  /** Grouping a row uses up every id of it and hands on exactly the promoted ids and the new ones. */
  lemma {:induction false} RowConserved(row: seq<Entry>, fan: nat, level: nat, index: nat, id: ChildId)
    requires fan > 1
    ensures Count(ChildrenOf(NodesOf(row, fan, level, index)), id) + Count(Ids(NextRow(row, fan, level, index)), id)
         == Count(Ids(row), id) + Count(NodeIds(NodesOf(row, fan, level, index)), id)
    decreases |row|
  {
    if |row| > 0 {
      var head, tail := Head(row, fan), Tail(row, fan);
      var index' := if |head| == 1 then index else index + 1;
      RowConserved(tail, fan, level, index', id);
      HeadTail(row, fan);
      IdsConcat(head, tail);
      CountConcat(Ids(head), Ids(tail), id);
      IdsCons(Join(head, level, index), NextRow(tail, fan, level, index'));
      CountConcat([Join(head, level, index).id], Ids(NextRow(tail, fan, level, index')), id);
      GroupConserved(head, NodesOf(tail, fan, level, index'), level, index, id);
    }
  }

  lemma {:induction false} HeadTail(row: seq<Entry>, fan: nat)
    requires |row| > 0 && fan > 0
    ensures Head(row, fan) + Tail(row, fan) == row && |Head(row, fan)| > 0
  {
  }

  lemma {:induction false} GroupConserved(head: seq<Entry>, nodes: seq<TreeNode>, level: nat, index: nat, id: ChildId)
    requires |head| > 0
    ensures var joined := Join(head, level, index).id;
      if |head| == 1 then Count(Ids(head), id) == Count([joined], id)
      else var all := [TreeNode(Node(level, index), Ids(head))] + nodes;
           && Count(ChildrenOf(all), id) == Count(Ids(head), id) + Count(ChildrenOf(nodes), id)
           && Count(NodeIds(all), id) == Count([joined], id) + Count(NodeIds(nodes), id)
  {
    if |head| == 1 {
      assert Ids(head) == [head[0].id];
    } else {
      var node := TreeNode(Node(level, index), Ids(head));
      ChildrenCons(node, nodes);
      CountConcat(Ids(head), ChildrenOf(nodes), id);
      CountConcat([node.id], NodeIds(nodes), id);
    }
  }

  lemma {:induction false} LevelsCons(nodes: seq<TreeNode>, levels: seq<seq<TreeNode>>)
    ensures AllChildren([nodes] + levels) == ChildrenOf(nodes) + AllChildren(levels)
    ensures AllNodeIds([nodes] + levels) == NodeIds(nodes) + AllNodeIds(levels)
  {
    assert ([nodes] + levels)[1..] == levels;
  }

  lemma {:induction false} TreeConserved(row: seq<Entry>, fan: nat, level: nat, id: ChildId)
    requires fan > 1 && |row| > 0
    ensures Count(AllChildren(LevelsFrom(row, fan, level)), id) + (if RootOf(row, fan, level) == id then 1 else 0)
         == Count(Ids(row), id) + Count(AllNodeIds(LevelsFrom(row, fan, level)), id)
    decreases |row|
  {
    if |row| == 1 {
      assert Ids(row) == [row[0].id];
      CountOne(row[0].id, id);
    } else {
      var nodes, next := NodesOf(row, fan, level, 0), NextRow(row, fan, level, 0);
      var levels := LevelsFrom(next, fan, level + 1);
      RowConserved(row, fan, level, 0, id);
      TreeConserved(next, fan, level + 1, id);
      LevelsCons(nodes, levels);
      CountConcat(ChildrenOf(nodes), AllChildren(levels), id);
      CountConcat(NodeIds(nodes), AllNodeIds(levels), id);
    }
  }

  lemma {:induction false} CountDistinct<T>(xs: seq<T>, x: T)
    requires Distinct(xs)
    ensures Count(xs, x) == if x in xs then 1 else 0
    decreases |xs|
  {
    if |xs| > 0 {
      CountDistinct(xs[1..], x);
      assert xs == [xs[0]] + xs[1..];
    }
  }

  lemma {:induction false} NodesNumbered(row: seq<Entry>, fan: nat, level: nat, index: nat)
    requires fan > 0
    ensures forall k :: 0 <= k < |NodesOf(row, fan, level, index)| ==>
      NodesOf(row, fan, level, index)[k].id == Node(level, index + k)
    decreases |row|
  {
    if |row| > 0 {
      NodesNumbered(Tail(row, fan), fan, level, if |Head(row, fan)| == 1 then index else index + 1);
    }
  }

  /** Node ids are never reused, and those of a level onwards are new there. */
  lemma {:induction false} NodeIdsFresh(row: seq<Entry>, fan: nat, level: nat, id: ChildId)
    requires fan > 1
    ensures Count(AllNodeIds(LevelsFrom(row, fan, level)), id) <= if Below(id, level) then 0 else 1
    decreases |row|
  {
    if |row| > 1 {
      var nodes, next := NodesOf(row, fan, level, 0), NextRow(row, fan, level, 0);
      NodeIdsFresh(next, fan, level + 1, id);
      LevelsCons(nodes, LevelsFrom(next, fan, level + 1));
      CountConcat(NodeIds(nodes), AllNodeIds(LevelsFrom(next, fan, level + 1)), id);
      CountNumbered(row, fan, level, id);
    }
  }

  lemma {:induction false} CountNumbered(row: seq<Entry>, fan: nat, level: nat, id: ChildId)
    requires fan > 1
    ensures Count(NodeIds(NodesOf(row, fan, level, 0)), id) <= if id.Node? && id.level == level then 1 else 0
  {
    NodesNumbered(row, fan, level, 0);
    CountDistinct(NodeIds(NodesOf(row, fan, level, 0)), id);
  }

  predicate InTree(tree: AggregationTree, id: ChildId) {
    id in AllNodeIds(tree.levels) || (id.Leaf? && id.shard < tree.leafCount)
  }

  /** Every leaf and node except the root is a child exactly once; nothing else is a child. */
  lemma {:induction false} ChildExactlyOnce(n: nat, fan: nat, id: ChildId)
    requires fan > 1 && n > 0
    ensures var tree := TreeFor(n, fan);
      Count(AllChildren(tree.levels), id) == if InTree(tree, id) && id != tree.root then 1 else 0
  {
    var row, ids := LeafRow(n), AllNodeIds(LevelsFrom(LeafRow(n), fan, 0));
    TreeConserved(row, fan, 0, id);
    NodeIdsFresh(row, fan, 0, id);
    LeafIds(n, id);
    CountPresent(ids, id);
  }

  lemma {:induction false} CountPresent<T>(xs: seq<T>, x: T)
    ensures Count(xs, x) > 0 <==> x in xs
    decreases |xs|
  {
    if |xs| > 0 {
      CountPresent(xs[1..], x);
      assert xs == [xs[0]] + xs[1..];
    }
  }

  lemma {:induction false} LeafIds(n: nat, id: ChildId)
    ensures Count(Ids(LeafRow(n)), id) == if id.Leaf? && id.shard < n then 1 else 0
  {
    var ids := Ids(LeafRow(n));
    CountDistinct(ids, id);
    if id.Leaf? && id.shard < n { assert ids[id.shard] == id; }
  }

  ghost predicate AllBelow(row: seq<Entry>, level: nat) {
    forall k :: 0 <= k < |row| ==> Below(row[k].id, level)
  }

  ghost predicate ChildrenBelow(nodes: seq<TreeNode>, level: nat) {
    forall k, c :: 0 <= k < |nodes| && c in nodes[k].children ==> Below(c, level)
  }

  lemma {:induction false} RowBelow(row: seq<Entry>, fan: nat, level: nat, index: nat)
    requires fan > 1 && AllBelow(row, level)
    ensures ChildrenBelow(NodesOf(row, fan, level, index), level)
    ensures AllBelow(NextRow(row, fan, level, index), level + 1)
    decreases |row|
  {
    if |row| > 0 {
      var head, tail := Head(row, fan), Tail(row, fan);
      var index' := if |head| == 1 then index else index + 1;
      RowBelow(tail, fan, level, index');
      JoinedId(head, level, index);
      assert AllBelow([Join(head, level, index)] + NextRow(tail, fan, level, index'), level + 1);
      if |head| > 1 {
        assert ChildrenBelow([TreeNode(Node(level, index), Ids(head))] + NodesOf(tail, fan, level, index'), level);
      }
    }
  }

  ghost predicate LevelsBelow(levels: seq<seq<TreeNode>>, level: nat) {
    |levels| == 0 || (ChildrenBelow(levels[0], level) && LevelsBelow(levels[1..], level + 1))
  }

  lemma {:induction false} LevelsBelowCons(nodes: seq<TreeNode>, rest: seq<seq<TreeNode>>, level: nat)
    requires ChildrenBelow(nodes, level) && LevelsBelow(rest, level + 1)
    ensures LevelsBelow([nodes] + rest, level)
  {
    assert ([nodes] + rest)[1..] == rest;
  }

  lemma {:induction false} TreeBelow(row: seq<Entry>, fan: nat, level: nat)
    requires fan > 1 && AllBelow(row, level)
    ensures LevelsBelow(LevelsFrom(row, fan, level), level)
    decreases |row|
  {
    if |row| > 1 {
      var next := NextRow(row, fan, level, 0);
      RowBelow(row, fan, level, 0);
      TreeBelow(next, fan, level + 1);
      LevelsBelowCons(NodesOf(row, fan, level, 0), LevelsFrom(next, fan, level + 1), level);
    }
  }

  lemma {:induction false} LevelsBelowAt(levels: seq<seq<TreeNode>>, level: nat, l: nat)
    requires LevelsBelow(levels, level) && l < |levels|
    ensures ChildrenBelow(levels[l], level + l)
    decreases l
  {
    if l > 0 { LevelsBelowAt(levels[1..], level + 1, l - 1); }
  }

  /** A node's children were all made at earlier levels. */
  lemma {:induction false} ChildrenEarlier(n: nat, fan: nat, l: nat)
    requires fan > 1 && n > 0 && l < |TreeFor(n, fan).levels|
    ensures ChildrenBelow(TreeFor(n, fan).levels[l], l)
  {
    TreeBelow(LeafRow(n), fan, 0);
    LevelsBelowAt(TreeFor(n, fan).levels, 0, l);
  }
}
