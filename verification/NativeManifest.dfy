/** Building the native manifest: admit every leaf, merge up the tree, check the root. */
module NativeManifest {
  import opened Prelude
  import opened DagModel
  import opened AggregationPlan
  import opened PublicBoundary
  import opened Claims
  import opened ClaimMerge
  import opened LeafAdmission

  datatype ManifestError =
    | InvalidIndex
    | MissingLeaf
    | LeafOrder
    | NotAdmitted(shard: nat, admission: AdmitError)
    | NotMerged(node: ChildId, merge: MergeError)
    | OpenInternalEdge
    | IdentityMismatch
    | ResourceLimit

  // ----- the flat check -----

  /** Every edge's two ends agree, graph inputs agree, and output names are claimed once: nothing about the tree. */
  ghost predicate FlatAccepts(w: World) {
    EdgesAgree(w, 0, |w.leaves|) && PublicsAgree(w, 0, |w.leaves|)
  }

  lemma {:induction false} FlatAcceptsPart(w: World, lo: nat, hi: nat)
    requires FlatAccepts(w) && lo <= hi <= |w.leaves|
    ensures MergeSucceeds(w, lo, hi)
  {
    RelatePart(SameInput, Inputs(w), lo, hi);
    RelatePart(NamesApart, Outputs(w), lo, hi);
  }

  lemma {:induction false} RelatePart(rel: Relation, lists: seq<seq<Binding>>, lo: nat, hi: nat)
    requires lo <= hi <= |lists| && ShardsRelate(rel, lists, 0, |lists|)
    ensures ShardsRelate(rel, lists, lo, hi)
  {
  }

  // ----- claims by id -----

  ghost predicate EntryClaim(w: World, run: Run, claims: map<ChildId, VerifiedClaim>, e: Entry) {
    && e.id in claims && claims[e.id].id == e.id && claims[e.id].run == run
    && ClaimFor(w, claims[e.id], e.lo, e.hi)
    && (e.id.Node? ==> e.lo < e.hi <= |w.leaves| && ListsInOrder(w, claims[e.id], e.lo, e.hi))
    && (e.id.Leaf? ==> e.lo == e.id.shard && e.hi == e.lo + 1)
  }

  predicate UsedBefore(id: ChildId, level: nat, index: nat) {
    id.Node? ==> id.level < level || (id.level == level && id.index < index)
  }

  ghost predicate AllUsedBefore(row: seq<Entry>, level: nat, index: nat) {
    forall k :: 0 <= k < |row| ==> UsedBefore(row[k].id, level, index)
  }

  /** Entries over disjoint intervals have different ids, because their claims cover different shards. */
  lemma {:induction false} DifferentIds(w: World, run: Run, claims: map<ChildId, VerifiedClaim>, a: Entry, b: Entry)
    requires EntryClaim(w, run, claims, a) && EntryClaim(w, run, claims, b) && (a.hi <= b.lo || b.hi <= a.lo)
    ensures a.id != b.id
  {
    assert a.lo in Interval(a.lo, a.hi);
  }

  lemma {:induction false} SpansConcat(a: seq<Entry>, b: seq<Entry>, lo: nat, mid: nat, hi: nat)
    requires Spans(a, lo, mid) && Spans(b, mid, hi)
    ensures Spans(a + b, lo, hi)
    decreases |a|
  {
    if |a| == 0 {
      assert a + b == b;
    } else {
      SpansConcat(a[1..], b, a[0].hi, mid, hi);
      assert (a + b)[1..] == a[1..] + b;
    }
  }

  lemma {:induction false} SpansBounds(row: seq<Entry>, lo: nat, hi: nat, k: nat)
    requires Spans(row, lo, hi) && k < |row|
    ensures lo <= row[k].lo < row[k].hi <= hi
    decreases |row|
  {
    SpansForward(row[1..], row[0].hi, hi);
    if k > 0 { SpansBounds(row[1..], row[0].hi, hi, k - 1); }
  }

  ghost predicate EntryClaims(w: World, run: Run, claims: map<ChildId, VerifiedClaim>, row: seq<Entry>) {
    forall k :: 0 <= k < |row| ==> EntryClaim(w, run, claims, row[k])
  }

  function Regroup(
      claims: map<ChildId, VerifiedClaim>, group: seq<Entry>, merged: VerifiedClaim): map<ChildId, VerifiedClaim>
  {
    (claims - Elements(Ids(group)))[merged.id := merged]
  }

  /** Replacing a group's claims by their merged claim keeps the claims of entries elsewhere. */
  lemma {:induction false} OthersKept(
      w: World, run: Run, claims: map<ChildId, VerifiedClaim>, others: seq<Entry>, olo: nat, ohi: nat,
      group: seq<Entry>, lo: nat, hi: nat,
      merged: VerifiedClaim)
    requires EntryClaims(w, run, claims, others) && Spans(others, olo, ohi) && (ohi <= lo || hi <= olo)
    requires EntryClaims(w, run, claims, group) && Spans(group, lo, hi)
    requires forall k :: 0 <= k < |others| ==> others[k].id != merged.id
    ensures EntryClaims(w, run, Regroup(claims, group, merged), others)
  {
    forall k | 0 <= k < |others| ensures EntryClaim(w, run, Regroup(claims, group, merged), others[k]) {
      SpansBounds(others, olo, ohi, k);
      GroupElsewhere(w, run, claims, others[k], group, lo, hi);
    }
  }

  lemma {:induction false} GroupElsewhere(
      w: World, run: Run, claims: map<ChildId, VerifiedClaim>, e: Entry, group: seq<Entry>, lo: nat, hi: nat)
    requires EntryClaim(w, run, claims, e) && (e.hi <= lo || hi <= e.lo)
    requires Spans(group, lo, hi) && EntryClaims(w, run, claims, group)
    ensures e.id !in Ids(group)
  {
    forall k | 0 <= k < |group| ensures e.id != group[k].id {
      SpansBounds(group, lo, hi, k);
      DifferentIds(w, run, claims, e, group[k]);
    }
  }

  /** The pending claims are among those of two rows. */
  ghost predicate KeysAmong(claims: map<ChildId, VerifiedClaim>, made: seq<Entry>, rest: seq<Entry>) {
    forall id :: id in claims ==> id in Ids(made) || id in Ids(rest)
  }

  lemma {:induction false} KeysRegrouped(
      claims: map<ChildId, VerifiedClaim>, made: seq<Entry>, group: seq<Entry>, tail: seq<Entry>,
      merged: VerifiedClaim, joined: Entry)
    requires KeysAmong(claims, made, group + tail) && joined.id == merged.id
    ensures KeysAmong(Regroup(claims, group, merged), made + [joined], tail)
  {
    IdsSnoc(made, joined);
    IdsConcat(group, tail);
    forall x | x in Regroup(claims, group, merged) ensures x in Ids(made + [joined]) || x in Ids(tail) {
      if x == merged.id {
        assert (Ids(made) + [joined.id])[|Ids(made)|] == x;
      } else {
        assert x in claims && x !in Ids(group);
        assert x in Ids(made) ==> x in Ids(made) + [joined.id];
      }
    }
  }

  /** While one level is merged: groups made, then entries not grouped yet. */
  ghost predicate MidLevel(
      w: World, run: Run, claims: map<ChildId, VerifiedClaim>, made: seq<Entry>, rest: seq<Entry>, mid: nat,
      level: nat, index: nat)
  {
    && mid <= |w.leaves|
    && Spans(made, 0, mid) && Spans(rest, mid, |w.leaves|)
    && KeysAmong(claims, made, rest)
    && EntryClaims(w, run, claims, made) && EntryClaims(w, run, claims, rest)
    && AllUsedBefore(made, level, index) && AllBelow(rest, level)
  }

  lemma {:induction false} RestParts(
      w: World, run: Run, claims: map<ChildId, VerifiedClaim>, group: seq<Entry>, tail: seq<Entry>, level: nat)
    requires EntryClaims(w, run, claims, group + tail) && AllBelow(group + tail, level)
    ensures EntryClaims(w, run, claims, group) && EntryClaims(w, run, claims, tail) && AllBelow(tail, level)
  {
    var rest := group + tail;
    forall k | 0 <= k < |group| ensures EntryClaim(w, run, claims, group[k]) { assert rest[k] == group[k]; }
    forall k | 0 <= k < |tail|
      ensures EntryClaim(w, run, claims, tail[k]) && Below(tail[k].id, level)
    {
      assert rest[|group| + k] == tail[k];
    }
  }

  lemma {:induction false} MadeMore(
      w: World, run: Run, claims: map<ChildId, VerifiedClaim>, made: seq<Entry>, joined: Entry, mid: nat, next: nat,
      level: nat, index: nat)
    requires Spans(made, 0, mid) && EntryClaims(w, run, claims, made) && AllUsedBefore(made, level, index)
    requires EntryClaim(w, run, claims, joined) && joined.lo == mid < joined.hi == next
      && joined.id == Node(level, index)
    ensures Spans(made + [joined], 0, next) && EntryClaims(w, run, claims, made + [joined])
      && AllUsedBefore(made + [joined], level, index + 1)
  {
    assert [joined][1..] == [];
    SpansConcat(made, [joined], 0, mid, next);
  }

  lemma {:induction false} MidLevelMore(
      w: World, run: Run, claims: map<ChildId, VerifiedClaim>, made: seq<Entry>, group: seq<Entry>,
      tail: seq<Entry>, mid: nat, next: nat,
      level: nat, index: nat, merged: VerifiedClaim)
    requires MidLevel(w, run, claims, made, group + tail, mid, level, index)
    requires |group| > 1 && Spans(group, mid, next) && Spans(tail, next, |w.leaves|) && mid < next <= |w.leaves|
    requires group[0].lo == mid && group[|group| - 1].hi == next
    requires ClaimFor(w, merged, mid, next) && ListsInOrder(w, merged, mid, next) && merged.id == Node(level, index)
      && merged.run == run
    ensures MidLevel(w, run, Regroup(claims, group, merged), made + [Join(group, level, index)], tail, next, level,
      index + 1)
  {
    var after, joined := Regroup(claims, group, merged), Join(group, level, index);
    RestParts(w, run, claims, group, tail, level);
    OthersKept(w, run, claims, made, 0, mid, group, mid, next, merged);
    OthersKept(w, run, claims, tail, next, |w.leaves|, group, mid, next, merged);
    KeysRegrouped(claims, made, group, tail, merged, joined);
    assert EntryClaim(w, run, after, joined);
    MadeMore(w, run, after, made, joined, mid, next, level, index);
  }

  /** Takes a group's claims out of the pending claims, in child order. */
  method TakeClaims(claims: map<ChildId, VerifiedClaim>, ids: seq<ChildId>) returns (children: seq<VerifiedClaim>)
    requires forall k :: 0 <= k < |ids| ==> ids[k] in claims
    ensures |children| == |ids| && forall k :: 0 <= k < |ids| ==> children[k] == claims[ids[k]]
  {
    children := [];
    for k := 0 to |ids|
      invariant |children| == k && forall i :: 0 <= i < k ==> children[i] == claims[ids[i]]
    {
      children := children + [claims[ids[k]]];
    }
  }

  // ----- one node, one level, all levels -----

  /** What has been and what remains to be grouped at one level. */
  ghost predicate LevelProgress(
      row: seq<Entry>, fan: nat, level: nat, nodes: seq<TreeNode>, k: nat, made: seq<Entry>, rest: seq<Entry>)
    requires fan > 1
  {
    && k <= |nodes|
    && nodes[k..] == NodesOf(rest, fan, level, k)
    && made + NextRow(rest, fan, level, k) == NextRow(row, fan, level, 0)
  }

  lemma {:induction false} ProgressMore(
      row: seq<Entry>, fan: nat, level: nat, nodes: seq<TreeNode>, k: nat, made: seq<Entry>, rest: seq<Entry>)
    requires fan > 1 && LevelProgress(row, fan, level, nodes, k, made, rest) && k < |nodes|
    ensures |rest| > 1 && |Head(rest, fan)| > 1 && Head(rest, fan) + Tail(rest, fan) == rest
    ensures nodes[k] == TreeNode(Node(level, k), Ids(Head(rest, fan)))
    ensures LevelProgress(row, fan, level, nodes, k + 1, made + [Join(Head(rest, fan), level, k)], Tail(rest, fan))
  {
    assert |rest| > 0 by { assert |nodes[k..]| > 0; }
    HeadTail(rest, fan);
    SingleGivesNothing(rest, fan, level, k);
    DropCons(nodes, k, TreeNode(Node(level, k), Ids(Head(rest, fan))), NodesOf(Tail(rest, fan), fan, level, k + 1));
    AppendOne(made, Join(Head(rest, fan), level, k), NextRow(Tail(rest, fan), fan, level, k + 1));
  }

  lemma {:induction false} SingleGivesNothing(rest: seq<Entry>, fan: nat, level: nat, k: nat)
    requires fan > 1 && |rest| > 0 && |NodesOf(rest, fan, level, k)| > 0
    ensures |rest| > 1 && |Head(rest, fan)| > 1
  {
    assert |rest| == 1 ==> Tail(rest, fan) == [];
  }

  lemma {:induction false} ProgressDone(
      row: seq<Entry>, fan: nat, level: nat, nodes: seq<TreeNode>, made: seq<Entry>, rest: seq<Entry>)
    requires fan > 1 && LevelProgress(row, fan, level, nodes, |nodes|, made, rest)
    ensures made + rest == NextRow(row, fan, level, 0)
  {
    assert nodes[|nodes|..] == [];
    NothingLeft(rest, fan, level, |nodes|);
  }

  lemma {:induction false} NothingLeft(rest: seq<Entry>, fan: nat, level: nat, k: nat)
    requires fan > 1 && NodesOf(rest, fan, level, k) == []
    ensures NextRow(rest, fan, level, k) == rest
  {
    if |rest| > 0 {
      assert |Head(rest, fan)| == 1;
      assert Tail(rest, fan) == [] && NextRow([], fan, level, k) == [];
      assert [rest[0]] == rest;
    }
  }

  /** Takes the children's claims, merges them, and puts the node's claim in their place. */
  method MergeNode(
      ghost w: World, run: Run, index: map<string, Edge>, claims: map<ChildId, VerifiedClaim>, node: TreeNode,
      ghost group: seq<Entry>, ghost lo: nat, ghost hi: nat)
    returns (r: Result<map<ChildId, VerifiedClaim>, ManifestError>, ghost merged: VerifiedClaim)
    requires ValidWorld(w) && index == w.index && WithinBudget(w)
    requires node.children == Ids(group) && |group| > 0 && EntryClaims(w, run, claims, group) && Spans(group, lo, hi)
      && hi <= |w.leaves|
    requires lo <= hi
    ensures r.Ok? <==> MergeSucceeds(w, lo, hi)
    ensures r.Ok? ==>
      ClaimFor(w, merged, lo, hi) && ListsInOrder(w, merged, lo, hi) && merged.id == node.id && merged.run == run
    ensures r.Ok? ==> r.value == Regroup(claims, group, merged)
  {
    assert forall k :: 0 <= k < |group| ==> EntryClaim(w, run, claims, group[k]);
    var children := TakeClaims(claims, node.children);
    assert ClaimIds(children) == node.children;
    var claim := MergeVerifiedClaims(w, lo, hi, group, node, run, children, index);
    if claim.Err? {
      return Err(NotMerged(node.id, claim.error)), children[0];
    }
    merged := claim.value;
    r := Ok((claims - Elements(node.children))[node.id := claim.value]);
  }

  /** Merges the next group of a level. */
  method MergeNext(
      ghost w: World, run: Run, index: map<string, Edge>, claims: map<ChildId, VerifiedClaim>, node: TreeNode,
      ghost made: seq<Entry>, ghost rest: seq<Entry>, ghost mid: nat, ghost fan: nat, ghost level: nat, ghost k: nat)
    returns (r: Result<map<ChildId, VerifiedClaim>, ManifestError>, ghost next: nat)
    requires ValidWorld(w) && index == w.index && WithinBudget(w) && fan > 1
    requires MidLevel(w, run, claims, made, rest, mid, level, k)
    requires |rest| > 1 && |Head(rest, fan)| > 1 && node == TreeNode(Node(level, k), Ids(Head(rest, fan)))
    ensures r.Err? ==> !FlatAccepts(w)
    ensures r.Ok? ==>
      MidLevel(w, run, r.value, made + [Join(Head(rest, fan), level, k)], Tail(rest, fan), next, level, k + 1)
  {
    ghost var group, tail := Head(rest, fan), Tail(rest, fan);
    next := HeadAndTail(rest, mid, |w.leaves|, fan);
    SpansForward(tail, next, |w.leaves|);
    RestParts(w, run, claims, group, tail, level);
    ghost var merged;
    r, merged := MergeNode(w, run, index, claims, node, group, mid, next);
    if r.Err? {
      NotMergedNotFlat(w, mid, next);
      return;
    }
    HeadStarts(rest, fan, mid, |w.leaves|);
    MidLevelMore(w, run, claims, made, group, tail, mid, next, level, k, merged);
  }

  lemma {:induction false} NotMergedNotFlat(w: World, lo: nat, hi: nat)
    requires lo <= hi <= |w.leaves| && !MergeSucceeds(w, lo, hi)
    ensures !FlatAccepts(w)
  {
    if FlatAccepts(w) { FlatAcceptsPart(w, lo, hi); }
  }

  /** The first `k` nodes of a level are merged. */
  ghost predicate LevelState(
      w: World, run: Run, claims: map<ChildId, VerifiedClaim>, row: seq<Entry>, fan: nat, level: nat,
      nodes: seq<TreeNode>, k: nat,
      made: seq<Entry>, rest: seq<Entry>, mid: nat)
    requires fan > 1
  {
    LevelProgress(row, fan, level, nodes, k, made, rest) && MidLevel(w, run, claims, made, rest, mid, level, k)
  }

  lemma {:induction false} LevelStart(
      w: World, run: Run, claims: map<ChildId, VerifiedClaim>, row: seq<Entry>, fan: nat, level: nat)
    requires fan > 1 && MidLevel(w, run, claims, [], row, 0, level, 0)
    ensures LevelState(w, run, claims, row, fan, level, NodesOf(row, fan, level, 0), 0, [], row, 0)
  {
    assert NodesOf(row, fan, level, 0)[0..] == NodesOf(row, fan, level, 0);
    assert [] + NextRow(row, fan, level, 0) == NextRow(row, fan, level, 0);
  }

  lemma {:induction false} LevelEnd(
      w: World, run: Run, claims: map<ChildId, VerifiedClaim>, row: seq<Entry>, fan: nat, level: nat,
      nodes: seq<TreeNode>,
      made: seq<Entry>, rest: seq<Entry>, mid: nat)
    requires fan > 1 && LevelState(w, run, claims, row, fan, level, nodes, |nodes|, made, rest, mid)
    ensures MidLevel(w, run, claims, [], NextRow(row, fan, level, 0), 0, level + 1, 0)
  {
    ProgressDone(row, fan, level, nodes, made, rest);
    LevelDone(w, run, claims, made, rest, mid, level, |nodes|);
  }

  method MergeLevelNode(
      ghost w: World, run: Run, index: map<string, Edge>, claims: map<ChildId, VerifiedClaim>,
      ghost row: seq<Entry>, ghost fan: nat,
      ghost level: nat, nodes: seq<TreeNode>, k: nat, ghost made: seq<Entry>, ghost rest: seq<Entry>, ghost mid: nat)
    returns (r: Result<map<ChildId, VerifiedClaim>, ManifestError>, ghost made': seq<Entry>, ghost rest': seq<Entry>,
      ghost mid': nat)
    requires ValidWorld(w) && index == w.index && WithinBudget(w) && fan > 1
    requires k < |nodes| && LevelState(w, run, claims, row, fan, level, nodes, k, made, rest, mid)
    ensures r.Err? ==> !FlatAccepts(w)
    ensures r.Ok? ==> LevelState(w, run, r.value, row, fan, level, nodes, k + 1, made', rest', mid')
  {
    ProgressMore(row, fan, level, nodes, k, made, rest);
    made', rest' := made + [Join(Head(rest, fan), level, k)], Tail(rest, fan);
    r, mid' := MergeNext(w, run, index, claims, nodes[k], made, rest, mid, fan, level, k);
  }

  /** The world the merges rely on. */
  ghost predicate Trusted(w: World, index: map<string, Edge>) {
    ValidWorld(w) && index == w.index && WithinBudget(w)
  }

  method MergeLevel(
      ghost w: World, run: Run, index: map<string, Edge>, claims: map<ChildId, VerifiedClaim>, nodes: seq<TreeNode>,
      ghost row: seq<Entry>, ghost fan: nat, ghost level: nat)
    returns (r: Result<map<ChildId, VerifiedClaim>, ManifestError>)
    requires Trusted(w, index) && fan > 1 && nodes == NodesOf(row, fan, level, 0)
    requires MidLevel(w, run, claims, [], row, 0, level, 0)
    ensures r.Err? ==> !FlatAccepts(w)
    ensures r.Ok? ==> MidLevel(w, run, r.value, [], NextRow(row, fan, level, 0), 0, level + 1, 0)
  {
    var pending := claims;
    ghost var made: seq<Entry>, rest, mid: nat := [], row, 0;
    LevelStart(w, run, claims, row, fan, level);
    for k := 0 to |nodes|
      invariant LevelState(w, run, pending, row, fan, level, nodes, k, made, rest, mid)
    {
      var after;
      after, made, rest, mid := MergeLevelNode(w, run, index, pending, row, fan, level, nodes, k, made, rest, mid);
      if after.Err? {
        return Err(after.error);
      }
      pending := after.value;
    }
    LevelEnd(w, run, pending, row, fan, level, nodes, made, rest, mid);
    r := Ok(pending);
  }

  lemma {:induction false} HeadStarts(rest: seq<Entry>, fan: nat, lo: nat, hi: nat)
    requires |rest| > 0 && fan > 0 && Spans(rest, lo, hi)
    ensures |Head(rest, fan)| > 0 && Head(rest, fan)[0].lo == lo
  {
  }

  lemma {:induction false} LevelDone(
      w: World, run: Run, claims: map<ChildId, VerifiedClaim>, made: seq<Entry>, rest: seq<Entry>, mid: nat,
      level: nat, index: nat)
    requires MidLevel(w, run, claims, made, rest, mid, level, index)
    ensures MidLevel(w, run, claims, [], made + rest, 0, level + 1, 0)
  {
    SpansConcat(made, rest, 0, mid, |w.leaves|);
    IdsConcat(made, rest);
    var row := made + rest;
    forall k | 0 <= k < |row| ensures EntryClaim(w, run, claims, row[k]) && Below(row[k].id, level + 1) {
      if k < |made| {
        assert EntryClaim(w, run, claims, made[k]) && UsedBefore(made[k].id, level, index);
      } else {
        assert EntryClaim(w, run, claims, rest[k - |made|]) && Below(rest[k - |made|].id, level);
      }
    }
    assert forall id :: id in claims ==> id in Ids(row);
  }

  /** Merges the levels in order, down to one claim. */
  method MergeLevels(
      ghost w: World, run: Run, index: map<string, Edge>, claims: map<ChildId, VerifiedClaim>,
      levels: seq<seq<TreeNode>>,
      ghost first: seq<Entry>, ghost fan: nat)
    returns (r: Result<map<ChildId, VerifiedClaim>, ManifestError>, ghost row: seq<Entry>)
    requires ValidWorld(w) && index == w.index && WithinBudget(w) && fan > 1
    requires |first| > 0 && levels == LevelsFrom(first, fan, 0)
    requires MidLevel(w, run, claims, [], first, 0, 0, 0)
    ensures r.Err? ==> !FlatAccepts(w)
    ensures r.Ok? ==>
      |row| == 1 && row[0].id == RootOf(first, fan, 0) && MidLevel(w, run, r.value, [], row, 0, |levels|, 0)
  {
    var pending := claims;
    row := first;
    assert levels[..0] == [] && [] + levels == levels;
    for l := 0 to |levels|
      invariant Leveled(first, row, fan, levels[..l])
      invariant MidLevel(w, run, pending, [], row, 0, l, 0)
    {
      LevelAt(first, row, fan, levels, l);
      var merged := MergeLevel(w, run, index, pending, levels[l], row, fan, l);
      if merged.Err? {
        return Err(merged.error), row;
      }
      pending := merged.value;
      row := NextRow(row, fan, l, 0);
    }
    LastRow(first, row, fan, levels);
    r := Ok(pending);
  }

  lemma {:induction false} LevelAt(first: seq<Entry>, row: seq<Entry>, fan: nat, levels: seq<seq<TreeNode>>, l: nat)
    requires fan > 1 && |first| > 0 && levels == LevelsFrom(first, fan, 0) && l < |levels|
      && Leveled(first, row, fan, levels[..l])
    ensures levels[l] == NodesOf(row, fan, l, 0) && Leveled(first, NextRow(row, fan, l, 0), fan, levels[..l + 1])
  {
    var done, rest := levels[..l], LevelsFrom(row, fan, l);
    assert done + rest == levels && |rest| > 0;
    assert levels[l] == rest[0];
    LeveledMore(first, row, fan, done);
    assert levels[..l + 1] == done + [levels[l]];
  }

  lemma {:induction false} LastRow(first: seq<Entry>, row: seq<Entry>, fan: nat, levels: seq<seq<TreeNode>>)
    requires fan > 1 && |first| > 0 && levels == LevelsFrom(first, fan, 0)
      && Leveled(first, row, fan, levels[..|levels|])
    ensures |row| == 1 && row[0].id == RootOf(first, fan, 0)
  {
    assert levels[..|levels|] == levels;
    assert |levels + LevelsFrom(row, fan, |levels|)| == |levels|;
  }

  // ----- the root -----

  /** The final check of a root claim against the partition. */
  method FinalizeManifest(edges: seq<Edge>, shardCount: nat, root: ChildId, run: Run, claim: VerifiedClaim)
    returns (r: Result<VerifiedClaim, ManifestError>)
    ensures r.Ok? <==>
      && claim.id == root && claim.run == run
      && (forall s :: 0 <= s < shardCount ==> s in claim.covered)
      && (forall e :: e in edges ==> e.id in claim.closed)
      && claim.frontier == map[] && |claim.leaves| == shardCount
    ensures r.Ok? ==> r.value == claim
  {
    if claim.id != root || claim.run != run {
      return Err(IdentityMismatch);
    }
    if exists s :: 0 <= s < shardCount && s !in claim.covered {
      return Err(MissingLeaf);
    }
    if exists e :: e in edges && e.id !in claim.closed {
      return Err(OpenInternalEdge);
    }
    if claim.frontier.Keys != {} {
      return Err(OpenInternalEdge);
    }
    assert claim.frontier == map[];
    if |claim.leaves| != shardCount {
      return Err(IdentityMismatch);
    }
    r := Ok(claim);
  }

  /** A claim over all shards passes the final check. */
  lemma {:induction false} RootPasses(w: World, edges: seq<Edge>, c: VerifiedClaim)
    requires ValidWorld(w) && Indexes(w.index, edges) && ClaimFor(w, c, 0, |w.leaves|)
    ensures forall s :: 0 <= s < |w.leaves| ==> s in c.covered
    ensures forall e :: e in edges ==> e.id in c.closed
    ensures c.frontier == map[] && |c.leaves| == |w.leaves|
  {
    forall id | id in w.index
      ensures Inside(w.index[id], 0, |w.leaves|)
    {
      assert ForwardEdge(w.index[id], |w.leaves|);
    }
    assert forall id :: id !in c.frontier;
    assert c.leaves.Keys == Interval(0, |w.leaves|) by {
      forall s | 0 <= s < |w.leaves| ensures s in c.leaves { assert LeafClaim(w.index, s, w.leaves[s]); }
    }
    IntervalSize(0, |w.leaves|);
  }

  // ----- admitting all leaves -----

  ghost predicate AllAdmissible(
      index: map<string, Edge>, run: Run, expectations: seq<LeafExpectation>, proofs: seq<VerifiedProof>)
  {
    && |proofs| == |expectations|
    && forall s :: 0 <= s < |proofs| ==> Admissible(index, s, run, expectations[s], proofs[s])
  }

  /** The world's leaves are the claims these proofs were admitted with. */
  ghost predicate AdmittedFrom(w: World, run: Run, proofs: seq<VerifiedProof>) {
    && |w.leaves| == |proofs|
    && forall s :: 0 <= s < |proofs| ==> AdmittedAt(w.index, run, s, w.leaves[s], proofs[s])
  }

  ghost predicate AdmittedAt(index: map<string, Edge>, run: Run, s: nat, c: VerifiedClaim, p: VerifiedProof) {
    && p.statement.Some? && LeafClaim(index, s, c) && StatesClaims(c, p) && p.shard == s
    && c.run == run && p.statement.value.flavor == run.flavor
  }

  ghost predicate ValidProof(p: VerifiedProof) {
    p.statement.Some? ==> ValidClaims(p.statement.value.inputClaims) && ValidClaims(p.statement.value.outputClaims)
  }

  /** The pending claims are exactly these leaves, by id. */
  ghost predicate LeavesById(claims: map<ChildId, VerifiedClaim>, leaves: seq<VerifiedClaim>) {
    && (forall id :: id in claims <==> id.Leaf? && id.shard < |leaves|)
    && (forall s :: 0 <= s < |leaves| ==> claims[Leaf(s)] == leaves[s])
  }

  lemma {:induction false} OneMoreLeaf(
      claims: map<ChildId, VerifiedClaim>, leaves: seq<VerifiedClaim>, c: VerifiedClaim)
    requires LeavesById(claims, leaves) && c.id == Leaf(|leaves|)
    ensures LeavesById(claims[c.id := c], leaves + [c])
  {
  }

  ghost predicate AdmittedUpTo(
      index: map<string, Edge>, run: Run, expectations: seq<LeafExpectation>, proofs: seq<VerifiedProof>,
      leaves: seq<VerifiedClaim>)
  {
    && |leaves| <= |proofs| == |expectations|
    && forall s :: 0 <= s < |leaves| ==>
         Admissible(index, s, run, expectations[s], proofs[s]) && AdmittedAt(index, run, s, leaves[s], proofs[s])
  }

  method AdmitNext(
      index: map<string, Edge>, run: Run, ghost expectations: seq<LeafExpectation>,
      ghost proofs: seq<VerifiedProof>, s: nat,
      e: LeafExpectation, p: VerifiedProof, ghost leaves: seq<VerifiedClaim>)
    returns (r: Result<VerifiedClaim, ManifestError>)
    requires (forall id :: id in index ==> index[id].id == id) && ValidExpectation(e) && ValidProof(p)
    requires AdmittedUpTo(index, run, expectations, proofs, leaves) && s == |leaves| < |proofs| && e == expectations[s]
      && p == proofs[s]
    ensures r.Ok? <==> Admissible(index, s, run, e, p)
    ensures r.Ok? ==> r.value.id == Leaf(s) && AdmittedUpTo(index, run, expectations, proofs, leaves + [r.value])
  {
    if p.shard != s {
      return Err(LeafOrder);
    }
    var claim := AdmitVerifiedLeaf(index, s, run, e, p);
    if claim.Err? {
      return Err(NotAdmitted(s, claim.error));
    }
    assert AdmittedAt(index, run, s, claim.value, p);
    r := Ok(claim.value);
  }

  method AdmitAll(index: map<string, Edge>, run: Run, expectations: seq<LeafExpectation>, proofs: seq<VerifiedProof>)
    returns (r: Result<map<ChildId, VerifiedClaim>, ManifestError>, ghost leaves: seq<VerifiedClaim>)
    requires forall id :: id in index ==> index[id].id == id
    requires |proofs| == |expectations|
    requires forall s :: 0 <= s < |expectations| ==> ValidExpectation(expectations[s])
    requires forall s :: 0 <= s < |proofs| ==> ValidProof(proofs[s])
    ensures r.Ok? <==> AllAdmissible(index, run, expectations, proofs)
    ensures r.Ok? ==> AdmittedFrom(World(index, leaves), run, proofs) && LeavesById(r.value, leaves)
  {
    var claims: map<ChildId, VerifiedClaim> := map[];
    leaves := [];
    for s := 0 to |proofs|
      invariant |leaves| == s
      invariant AdmittedUpTo(index, run, expectations, proofs, leaves)
      invariant LeavesById(claims, leaves)
    {
      assert ValidProof(proofs[s]);
      var claim := AdmitNext(index, run, expectations, proofs, s, expectations[s], proofs[s], leaves);
      if claim.Err? {
        return Err(claim.error), leaves;
      }
      OneMoreLeaf(claims, leaves, claim.value);
      claims := claims[claim.value.id := claim.value];
      leaves := leaves + [claim.value];
    }
    r := Ok(claims);
  }

  // ----- the trusted budget -----

  function DescriptorsCost(g: Descriptor -> nat, expectations: seq<LeafExpectation>): nat {
    if |expectations| == 0 then 0
    else DescriptorsCost(g, expectations[..|expectations| - 1])
         + SumSeq(g, expectations[|expectations| - 1].publicInputs)
           + SumSeq(g, expectations[|expectations| - 1].publicOutputs)
  }

  /** What a trusted expectation set guarantees: valid declarations, within the public boundary budget. */
  ghost predicate ValidExpectations(expectations: seq<LeafExpectation>) {
    && 0 < |expectations|
    && (forall s :: 0 <= s < |expectations| ==> ValidExpectation(expectations[s]))
    && DescriptorsCost(OneDescriptor, expectations) <= MAX_PUBLIC_BOUNDARY_DECLARATIONS
    && DescriptorsCost(DescriptorBytes, expectations) <= MAX_PUBLIC_BOUNDARY_WIRE_BYTES
  }

  lemma {:induction false} DescribedCost(f: Cost, g: Descriptor -> nat, bindings: seq<Binding>)
    requires forall b: Binding :: f(b) == g(b.descriptor)
    ensures SumSeq(f, bindings) == SumSeq(g, Descriptors(bindings))
    decreases |bindings|
  {
    if |bindings| > 0 {
      DescribedCost(f, g, bindings[..|bindings| - 1]);
      assert Descriptors(bindings)[..|bindings| - 1] == Descriptors(bindings[..|bindings| - 1]);
    }
  }

  ghost predicate AsExpected(w: World, expectations: seq<LeafExpectation>) {
    && |w.leaves| == |expectations|
    && forall s :: 0 <= s < |expectations| ==> Expected(w.leaves[s], expectations[s])
  }

  ghost predicate Expected(c: VerifiedClaim, e: LeafExpectation) {
    Descriptors(c.publicInputs) == e.publicInputs && Descriptors(c.publicOutputs) == e.publicOutputs
  }

  lemma {:induction false} ExpectedCost(
      w: World, expectations: seq<LeafExpectation>, f: Cost, g: Descriptor -> nat, n: nat)
    requires AsExpected(w, expectations) && n <= |w.leaves| && forall b: Binding :: f(b) == g(b.descriptor)
    ensures ListsCost(f, Inputs(w), 0, n) + ListsCost(f, Outputs(w), 0, n) == DescriptorsCost(g, expectations[..n])
  {
    if n > 0 {
      ExpectedCost(w, expectations, f, g, n - 1);
      assert Expected(w.leaves[n - 1], expectations[n - 1]);
      DescribedCost(f, g, w.leaves[n - 1].publicInputs);
      DescribedCost(f, g, w.leaves[n - 1].publicOutputs);
      assert expectations[..n][..n - 1] == expectations[..n - 1];
    }
  }

  /** Leaves admitted under a trusted expectation set stay within budget. */
  lemma {:induction false} AdmittedWithinBudget(w: World, expectations: seq<LeafExpectation>)
    requires AsExpected(w, expectations) && ValidExpectations(expectations)
    ensures WithinBudget(w)
  {
    assert expectations[..|expectations|] == expectations;
    ExpectedCost(w, expectations, One, OneDescriptor, |expectations|);
    ExpectedCost(w, expectations, WireBytes, DescriptorBytes, |expectations|);
  }

  lemma {:induction false} AdmittedAsExpected(
      w: World, run: Run, expectations: seq<LeafExpectation>, proofs: seq<VerifiedProof>)
    requires AllAdmissible(w.index, run, expectations, proofs) && AdmittedFrom(w, run, proofs)
    ensures AsExpected(w, expectations)
  {
    forall s | 0 <= s < |expectations| ensures Expected(w.leaves[s], expectations[s]) {
      assert Admissible(w.index, s, run, expectations[s], proofs[s])
        && AdmittedAt(w.index, run, s, w.leaves[s], proofs[s]);
    }
  }

  lemma {:induction false} AdmittedWorld(w: World, edges: seq<Edge>, run: Run, proofs: seq<VerifiedProof>)
    requires Indexes(w.index, edges) && (forall e :: e in edges ==> ForwardEdge(e, |proofs|))
      && AdmittedFrom(w, run, proofs)
    ensures ValidWorld(w)
  {
    forall s | 0 <= s < |w.leaves| ensures LeafClaim(w.index, s, w.leaves[s]) {
      assert AdmittedAt(w.index, run, s, w.leaves[s], proofs[s]);
    }
  }

  lemma {:induction false} LeafEntry(w: World, run: Run, claims: map<ChildId, VerifiedClaim>, s: nat)
    requires ValidWorld(w) && s < |w.leaves| && w.leaves[s].run == run && Leaf(s) in claims
      && claims[Leaf(s)] == w.leaves[s]
    ensures EntryClaim(w, run, claims, Entry(Leaf(s), s, s + 1))
  {
    LeafSatisfies(w, s);
    assert w.leaves[s].id == Leaf(s) by { assert LeafClaim(w.index, s, w.leaves[s]); }
  }

  lemma {:induction false} LeafRowClaims(w: World, run: Run, claims: map<ChildId, VerifiedClaim>)
    requires ValidWorld(w) && forall s :: 0 <= s < |w.leaves| ==> w.leaves[s].run == run
    requires LeavesById(claims, w.leaves)
    ensures MidLevel(w, run, claims, [], LeafRow(|w.leaves|), 0, 0, 0)
  {
    var row := LeafRow(|w.leaves|);
    LeafSpans(row, 0, |w.leaves|);
    LeafEntries(w, run, claims);
    LeafKeys(claims, w.leaves);
  }

  lemma {:induction false} LeafEntries(w: World, run: Run, claims: map<ChildId, VerifiedClaim>)
    requires ValidWorld(w) && LeavesById(claims, w.leaves) && forall s :: 0 <= s < |w.leaves| ==> w.leaves[s].run == run
    ensures EntryClaims(w, run, claims, LeafRow(|w.leaves|))
  {
    forall k | 0 <= k < |w.leaves| ensures EntryClaim(w, run, claims, LeafRow(|w.leaves|)[k]) {
      LeafEntry(w, run, claims, k);
    }
  }

  lemma {:induction false} LeafKeys(claims: map<ChildId, VerifiedClaim>, leaves: seq<VerifiedClaim>)
    requires LeavesById(claims, leaves)
    ensures KeysAmong(claims, [], LeafRow(|leaves|))
  {
    forall id | id in claims ensures id in Ids(LeafRow(|leaves|)) {
      assert Ids(LeafRow(|leaves|))[id.shard] == id;
    }
  }

  // ----- the whole build -----

  ghost predicate IndexAccepts(edges: seq<Edge>, shardCount: nat) {
    && 0 < shardCount <= MAX_LEAVES && |edges| <= MAX_EDGES
    && (forall e :: e in edges ==> ForwardEdge(e, shardCount)) && UniqueIds(edges)
  }

  /**
   * Admits the proofs, merges them up the planned tree and checks the root. With every leaf admitted it succeeds
   * exactly when the flat check does, and then the root covers every shard.
   */
  method BuildNativeManifest(
      edges: seq<Edge>, fan: nat, tree: AggregationTree, run: Run, expectations: seq<LeafExpectation>,
      proofs: seq<VerifiedProof>)
    returns (r: Result<VerifiedClaim, ManifestError>, ghost w: World)
    requires ValidExpectations(expectations) && MIN_FAN_IN <= fan <= MAX_FAN_IN && tree == TreeFor(|expectations|, fan)
    requires forall s :: 0 <= s < |proofs| ==> ValidProof(proofs[s])
    ensures IndexAccepts(edges, |expectations|) ==> Indexes(w.index, edges)
    ensures r.Ok? ==> IndexAccepts(edges, |expectations|) && AllAdmissible(w.index, run, expectations, proofs)
    ensures IndexAccepts(edges, |expectations|) && AllAdmissible(w.index, run, expectations, proofs) ==>
      ValidWorld(w) && AdmittedFrom(w, run, proofs) && (r.Ok? <==> FlatAccepts(w))
    ensures r.Ok? ==> r.value.id == tree.root && r.value.run == run && ClaimFor(w, r.value, 0, |expectations|)
    ensures r.Ok? && |expectations| > 1 ==> ListsInOrder(w, r.value, 0, |expectations|)
  {
    var n := |expectations|;
    var index := NewDagIndex(edges, n);
    if index.None? {
      return Err(InvalidIndex), World(map[], []);
    }
    if |proofs| != n {
      return Err(MissingLeaf), World(index.value, []);
    }
    var admitted, leaves := AdmitAll(index.value, run, expectations, proofs);
    w := World(index.value, leaves);
    if admitted.Err? {
      return Err(admitted.error), w;
    }
    AdmittedReady(w, edges, run, expectations, proofs);
    r := MergeAdmitted(w, edges, fan, tree, run, index.value, admitted.value);
  }

  /** Admitted leaves can be merged within the budget. */
  lemma {:induction false} AdmittedReady(
      w: World, edges: seq<Edge>, run: Run, expectations: seq<LeafExpectation>, proofs: seq<VerifiedProof>)
    requires Indexes(w.index, edges) && (forall e :: e in edges ==> ForwardEdge(e, |proofs|))
    requires AllAdmissible(w.index, run, expectations, proofs) && AdmittedFrom(w, run, proofs)
    requires ValidExpectations(expectations)
    ensures ValidWorld(w) && WithinBudget(w) && |w.leaves| == |expectations|
    ensures forall s :: 0 <= s < |w.leaves| ==> w.leaves[s].run == run
  {
    AdmittedWorld(w, edges, run, proofs);
    AdmittedAsExpected(w, run, expectations, proofs);
    AdmittedWithinBudget(w, expectations);
    forall s | 0 <= s < |w.leaves| ensures w.leaves[s].run == run {
      assert AdmittedAt(w.index, run, s, w.leaves[s], proofs[s]);
    }
  }

  method MergeAdmitted(
      ghost w: World, edges: seq<Edge>, ghost fan: nat, tree: AggregationTree, run: Run, index: map<string, Edge>,
      claims: map<ChildId, VerifiedClaim>)
    returns (r: Result<VerifiedClaim, ManifestError>)
    requires ValidWorld(w) && index == w.index && Indexes(index, edges) && WithinBudget(w) && |w.leaves| > 0
    requires fan > 1 && tree == TreeFor(|w.leaves|, fan)
    requires forall s :: 0 <= s < |w.leaves| ==> w.leaves[s].run == run
    requires LeavesById(claims, w.leaves)
    ensures r.Ok? <==> FlatAccepts(w)
    ensures r.Ok? ==> r.value.id == tree.root && r.value.run == run && ClaimFor(w, r.value, 0, |w.leaves|)
    ensures r.Ok? && |w.leaves| > 1 ==> ListsInOrder(w, r.value, 0, |w.leaves|)
  {
    LeafRowClaims(w, run, claims);
    var merged, row := MergeLevels(w, run, index, claims, tree.levels, LeafRow(|w.leaves|), fan);
    if merged.Err? {
      return Err(merged.error);
    }
    OneClaimLeft(w, run, merged.value, row, |tree.levels|);
    var root := merged.value[tree.root];
    RootPasses(w, edges, root);
    r := FinalizeManifest(edges, tree.leafCount, tree.root, run, root);
  }

  lemma {:induction false} SingleSpan(row: seq<Entry>, lo: nat, hi: nat)
    requires |row| == 1 && Spans(row, lo, hi)
    ensures row[0].lo == lo && row[0].hi == hi
  {
    assert row[1..] == [];
  }

  /** At the end exactly one claim is pending: the root's, over every shard. */
  lemma {:induction false} OneClaimLeft(
      w: World, run: Run, claims: map<ChildId, VerifiedClaim>, row: seq<Entry>, level: nat)
    requires |row| == 1 && MidLevel(w, run, claims, [], row, 0, level, 0)
    ensures claims.Keys == {row[0].id}
    ensures EntryClaim(w, run, claims, row[0]) && row[0].lo == 0 && row[0].hi == |w.leaves|
    ensures FlatAccepts(w)
    ensures |w.leaves| > 1 ==> row[0].id.Node?
  {
    SingleSpan(row, 0, |w.leaves|);
    assert EntryClaim(w, run, claims, row[0]);
    forall id | id in claims ensures id == row[0].id { assert id in Ids(row); }
  }
}
