/** Admitting a verified leaf proof: its statement must name exactly its shard's ends of the DAG's edges. */
module LeafAdmission {
  import opened Prelude
  import opened DagModel
  import opened AggregationPlan
  import opened PublicBoundary
  import opened Claims

  /** The proof flavor and the boundary claims of a decoded leaf statement. */
  datatype Statement = Statement(flavor: string, inputClaims: seq<Binding>, outputClaims: seq<Binding>)

  /** `identity` stands for the digests and names compared with the trusted expectation. */
  datatype VerifiedProof = VerifiedProof(shard: nat, identity: Digest, statement: Option<Statement>, digest: Digest)

  datatype LeafExpectation = LeafExpectation(identity: Digest, publicInputs: seq<Descriptor>,
    publicOutputs: seq<Descriptor>)

  datatype AdmitError =
    | LeafIdentityMismatch
    | MalformedStatement
    | ExtraBoundary(edge: string)
    | EndpointMismatch(edge: string)
    | MissingBoundary

  /** What validated descriptors guarantee: no edge twice in one claim. */
  ghost predicate ValidClaims(claims: seq<Binding>) {
    forall k :: 0 <= k < |claims| ==> Distinct(claims[k].descriptor.edgeIds)
  }

  /** What a trusted expectation guarantees: inputs by register once, outputs named, no output name twice. */
  ghost predicate ValidExpectation(e: LeafExpectation) {
    && (forall i, j :: 0 <= i < j < |e.publicInputs| ==> e.publicInputs[i].registerId != e.publicInputs[j].registerId)
    && (forall i :: 0 <= i < |e.publicOutputs| ==> e.publicOutputs[i].graphOutputNames != [])
    && (forall i, j, name :: 0 <= i < j < |e.publicOutputs| && name in e.publicOutputs[i].graphOutputNames ==>
          name !in e.publicOutputs[j].graphOutputNames)
  }

  // ----- public claims -----

  function Publics(claims: seq<Binding>, role: Role): seq<Binding> {
    if |claims| == 0 then []
    else
      var n := |claims| - 1;
      Publics(claims[..n], role) + (if IsPublic(claims[n], role) then [claims[n]] else [])
  }

  function Descriptors(bindings: seq<Binding>): (d: seq<Descriptor>)
    ensures |d| == |bindings| && forall k :: 0 <= k < |d| ==> d[k] == bindings[k].descriptor
  {
    seq(|bindings|, k requires 0 <= k < |bindings| => bindings[k].descriptor)
  }

  predicate PublicsExpected(s: Statement, e: LeafExpectation) {
    && Descriptors(Publics(s.inputClaims, Input)) == e.publicInputs
    && Descriptors(Publics(s.outputClaims, Output)) == e.publicOutputs
  }

  lemma {:induction false} ExpectedPublicsListed(inputs: seq<Binding>, outputs: seq<Binding>, e: LeafExpectation)
    requires ValidExpectation(e) && Descriptors(inputs) == e.publicInputs && Descriptors(outputs) == e.publicOutputs
    ensures InputsListed(inputs) && OutputsListed(outputs)
  {
    forall i, j | 0 <= i < j < |inputs| ensures inputs[i].descriptor.registerId != inputs[j].descriptor.registerId {
      assert e.publicInputs[i] == inputs[i].descriptor && e.publicInputs[j] == inputs[j].descriptor;
    }
    forall i, j | 0 <= i < j < |outputs| ensures NamesApart(outputs[i], outputs[j]) {
      assert e.publicOutputs[i] == outputs[i].descriptor && e.publicOutputs[j] == outputs[j].descriptor;
    }
    forall i | 0 <= i < |outputs| ensures outputs[i].descriptor.graphOutputNames != [] {
      assert e.publicOutputs[i] == outputs[i].descriptor;
    }
  }

  // ----- edge slots -----

  function EndOf(e: Edge, role: Role): nat {
    if role == Output then e.producer else e.consumer
  }

  predicate EdgeFits(index: map<string, Edge>, s: nat, role: Role, c: Binding, id: string) {
    id in index && EndOf(index[id], role) == s && c.descriptor.registerId == RegisterId(index[id].register)
  }

  ghost predicate ClaimFits(index: map<string, Edge>, s: nat, role: Role, c: Binding) {
    && (c.descriptor.edgeIds != [] || IsPublic(c, role))
    && (forall id :: id in c.descriptor.edgeIds ==> EdgeFits(index, s, role, c, id))
  }

  ghost predicate Lists(claims: seq<Binding>, id: string) {
    exists k :: 0 <= k < |claims| && id in claims[k].descriptor.edgeIds
  }

  /** One side of a statement: every claim routed or public, every named edge really ends here, none named twice. */
  ghost predicate SideFits(index: map<string, Edge>, s: nat, role: Role, claims: seq<Binding>) {
    && (forall k :: 0 <= k < |claims| ==> ClaimFits(index, s, role, claims[k]))
    && (forall i, j, id :: 0 <= i < j < |claims| && id in claims[i].descriptor.edgeIds ==>
      id !in claims[j].descriptor.edgeIds)
  }

  ghost predicate Covers(index: map<string, Edge>, s: nat, role: Role, claims: seq<Binding>) {
    forall id :: id in index && EndOf(index[id], role) == s ==> Lists(claims, id)
  }

  function Slot(frontier: map<string, EdgeFrontier>, id: string, role: Role): Option<Commitment> {
    if id !in frontier then None else if role == Output then frontier[id].producer else frontier[id].consumer
  }

  function Other(role: Role): Role {
    if role == Output then Input else Output
  }

  /** The slots of one role hold exactly the commitments of the claims, each at the edges it names. */
  ghost predicate SlotsFor(frontier: map<string, EdgeFrontier>, role: Role, claims: seq<Binding>) {
    && (forall id :: Slot(frontier, id, role).Some? ==> Lists(claims, id))
    && (forall k, id :: 0 <= k < |claims| && id in claims[k].descriptor.edgeIds ==>
      Slot(frontier, id, role) == Some(claims[k].commitment))
  }

  ghost predicate SameOtherSlots(before: map<string, EdgeFrontier>, after: map<string, EdgeFrontier>, role: Role) {
    forall id :: Slot(after, id, Other(role)) == Slot(before, id, Other(role))
  }

  /** No empty entries: whatever is in the frontier has an end. */
  ghost predicate NoEmptyEntry(frontier: map<string, EdgeFrontier>) {
    forall id :: id in frontier ==> frontier[id].producer.Some? || frontier[id].consumer.Some?
  }

  function Fill(frontier: map<string, EdgeFrontier>, id: string, role: Role, v: Commitment): map<string, EdgeFrontier> {
    var entry := if id in frontier then frontier[id] else EdgeFrontier(None, None);
    frontier[id := if role == Output then entry.(producer := Some(v)) else entry.(consumer := Some(v))]
  }

  /** The first `n` edges a claim names are filled with its commitment, the rest of the frontier is as before. */
  ghost predicate FilledUpTo(
      before: map<string, EdgeFrontier>, after: map<string, EdgeFrontier>, role: Role, c: Binding, n: nat)
  {
    && n <= |c.descriptor.edgeIds|
    && (forall id :: Slot(after, id, role) == if id in c.descriptor.edgeIds[..n] then Some(c.commitment)
      else Slot(before, id, role))
    && SameOtherSlots(before, after, role)
    && NoEmptyEntry(after)
  }

  /** The first `n` edges a claim names end here, and their slots are still free. */
  ghost predicate RoomFor(
      index: map<string, Edge>, s: nat, role: Role, c: Binding, frontier: map<string, EdgeFrontier>, n: nat)
  {
    forall i :: 0 <= i < n && i < |c.descriptor.edgeIds| ==>
      EdgeFits(index, s, role, c, c.descriptor.edgeIds[i]) && Slot(frontier, c.descriptor.edgeIds[i], role).None?
  }

  /** Why one claim is refused: nothing to route it to, an edge that is not there or taken, or the wrong end of one. */
  ghost predicate ClaimRefused(
      index: map<string, Edge>, s: nat, role: Role, c: Binding, frontier: map<string, EdgeFrontier>, error: AdmitError)
  {
    || (error == ExtraBoundary(c.descriptor.registerId) && c.descriptor.edgeIds == [] && !IsPublic(c, role))
    || (&& error.ExtraBoundary? && error.edge in c.descriptor.edgeIds
        && (error.edge !in index || Slot(frontier, error.edge, role).Some?))
    || (&& error.EndpointMismatch? && error.edge in c.descriptor.edgeIds && error.edge in index
        && ((if role == Output then index[error.edge].producer else index[error.edge].consumer) != s
            || c.descriptor.registerId != RegisterId(index[error.edge].register)))
  }

  method AddClaim(index: map<string, Edge>, s: nat, role: Role, c: Binding, frontier: map<string, EdgeFrontier>)
    returns (r: Result<map<string, EdgeFrontier>, AdmitError>)
    requires Distinct(c.descriptor.edgeIds) && NoEmptyEntry(frontier)
    ensures r.Ok? <==>
      ClaimFits(index, s, role, c) && forall id :: id in c.descriptor.edgeIds ==> Slot(frontier, id, role).None?
    ensures r.Ok? ==> FilledUpTo(frontier, r.value, role, c, |c.descriptor.edgeIds|)
    ensures r.Err? ==> ClaimRefused(index, s, role, c, frontier, r.error)
  {
    if c.descriptor.edgeIds == [] && !IsPublic(c, role) {
      return Err(ExtraBoundary(c.descriptor.registerId));
    }
    var filled := frontier;
    for n := 0 to |c.descriptor.edgeIds|
      invariant FilledUpTo(frontier, filled, role, c, n)
      invariant RoomFor(index, s, role, c, frontier, n)
    {
      var id := c.descriptor.edgeIds[n];
      assert id in c.descriptor.edgeIds;
      if id !in index {
        return Err(ExtraBoundary(id));
      }
      if !EdgeFits(index, s, role, c, id) {
        return Err(EndpointMismatch(id));
      }
      if Slot(filled, id, role).Some? {
        return Err(ExtraBoundary(id));
      }
      FillOne(frontier, filled, role, c, n);
      filled := Fill(filled, id, role, c.commitment);
    }
    assert c.descriptor.edgeIds[..|c.descriptor.edgeIds|] == c.descriptor.edgeIds;
    r := Ok(filled);
  }

  lemma {:induction false} FillOne(
      before: map<string, EdgeFrontier>, filled: map<string, EdgeFrontier>, role: Role, c: Binding, n: nat)
    requires n < |c.descriptor.edgeIds| && FilledUpTo(before, filled, role, c, n)
    ensures FilledUpTo(before, Fill(filled, c.descriptor.edgeIds[n], role, c.commitment), role, c, n + 1)
  {
    var ids := c.descriptor.edgeIds;
    assert ids[..n + 1] == ids[..n] + [ids[n]];
  }

  lemma {:induction false} NotListedTwice(
      index: map<string, Edge>, s: nat, role: Role, seen: seq<Binding>, c: Binding, id: string)
    requires SideFits(index, s, role, seen + [c]) && id in c.descriptor.edgeIds
    ensures !Lists(seen, id)
  {
    forall k | 0 <= k < |seen| ensures id !in seen[k].descriptor.edgeIds {
      assert (seen + [c])[k] == seen[k] && (seen + [c])[|seen|] == c;
    }
  }

  lemma {:induction false} SideMore(
      index: map<string, Edge>, s: nat, role: Role, seen: seq<Binding>, c: Binding, before: map<string, EdgeFrontier>)
    requires SideFits(index, s, role, seen) && SlotsFor(before, role, seen)
    ensures SideFits(index, s, role, seen + [c]) <==>
      ClaimFits(index, s, role, c) && forall id :: id in c.descriptor.edgeIds ==> Slot(before, id, role).None?
  {
    var all := seen + [c];
    if ClaimFits(index, s, role, c) && forall id :: id in c.descriptor.edgeIds ==> Slot(before, id, role).None? {
      forall i, j, id | 0 <= i < j < |all| && id in all[i].descriptor.edgeIds ensures id !in all[j].descriptor.edgeIds {
        assert all[i] == seen[i];
      }
    }
    if SideFits(index, s, role, all) {
      assert all[|seen|] == c;
      forall id | id in c.descriptor.edgeIds ensures Slot(before, id, role).None? {
        NotListedTwice(index, s, role, seen, c, id);
      }
    }
  }

  lemma {:induction false} SlotsMore(
      role: Role, seen: seq<Binding>, c: Binding, before: map<string, EdgeFrontier>, after: map<string, EdgeFrontier>)
    requires SlotsFor(before, role, seen) && FilledUpTo(before, after, role, c, |c.descriptor.edgeIds|)
    requires forall id :: id in c.descriptor.edgeIds ==> Slot(before, id, role).None?
    ensures SlotsFor(after, role, seen + [c])
  {
    var all := seen + [c];
    assert c.descriptor.edgeIds[..|c.descriptor.edgeIds|] == c.descriptor.edgeIds;
    forall id | Slot(after, id, role).Some? ensures Lists(all, id) {
      if id in c.descriptor.edgeIds {
        assert all[|seen|] == c;
      } else {
        var k :| 0 <= k < |seen| && id in seen[k].descriptor.edgeIds;
        assert all[k] == seen[k];
      }
    }
    forall k, id | 0 <= k < |all| && id in all[k].descriptor.edgeIds
      ensures Slot(after, id, role) == Some(all[k].commitment)
    {
      if k < |seen| { assert all[k] == seen[k] && Slot(before, id, role) == Some(seen[k].commitment); }
    }
  }

  lemma {:induction false} SideStops(
      index: map<string, Edge>, s: nat, role: Role, seen: seq<Binding>, rest: seq<Binding>)
    requires !SideFits(index, s, role, seen)
    ensures !SideFits(index, s, role, seen + rest)
  {
    var all := seen + rest;
    assert forall k :: 0 <= k < |seen| ==> all[k] == seen[k];
  }

  /** The same of a side: a taken edge is one an earlier claim names too. */
  ghost predicate SideRefused(index: map<string, Edge>, s: nat, role: Role, claims: seq<Binding>, error: AdmitError) {
    exists k :: 0 <= k < |claims| && RefusedAt(index, s, role, claims, k, error)
  }

  ghost predicate RefusedAt(
      index: map<string, Edge>, s: nat, role: Role, claims: seq<Binding>, k: nat, error: AdmitError)
    requires k < |claims|
  {
    var d := claims[k].descriptor;
    || (error == ExtraBoundary(d.registerId) && d.edgeIds == [] && !IsPublic(claims[k], role))
    || (&& error.ExtraBoundary? && error.edge in d.edgeIds
        && (error.edge !in index || Lists(claims[..k], error.edge)))
    || (&& error.EndpointMismatch? && error.edge in d.edgeIds && error.edge in index
        && ((if role == Output then index[error.edge].producer else index[error.edge].consumer) != s
            || d.registerId != RegisterId(index[error.edge].register)))
  }

  lemma {:induction false} ClaimRefusedAt(
      index: map<string, Edge>, s: nat, role: Role, claims: seq<Binding>, k: nat, frontier: map<string, EdgeFrontier>,
      error: AdmitError)
    requires k < |claims| && ClaimRefused(index, s, role, claims[k], frontier, error)
    requires SlotsFor(frontier, role, claims[..k])
    ensures SideRefused(index, s, role, claims, error)
  {
    assert RefusedAt(index, s, role, claims, k, error);
  }

  /** Fills one role's slots from the statement's claims of that role. */
  method CollectSide(
      index: map<string, Edge>, s: nat, role: Role, claims: seq<Binding>, frontier: map<string, EdgeFrontier>)
    returns (r: Result<map<string, EdgeFrontier>, AdmitError>)
    requires ValidClaims(claims) && NoEmptyEntry(frontier) && forall id :: Slot(frontier, id, role).None?
    ensures r.Ok? <==> SideFits(index, s, role, claims)
    ensures r.Ok? ==>
      SlotsFor(r.value, role, claims) && SameOtherSlots(frontier, r.value, role) && NoEmptyEntry(r.value)
    ensures r.Err? ==> SideRefused(index, s, role, claims, r.error)
  {
    var filled := frontier;
    ghost var seen: seq<Binding> := [];
    for k := 0 to |claims|
      invariant seen == claims[..k]
      invariant SideFits(index, s, role, seen) && SlotsFor(filled, role, seen)
      invariant SameOtherSlots(frontier, filled, role) && NoEmptyEntry(filled)
    {
      SideMore(index, s, role, seen, claims[k], filled);
      assert seen + [claims[k]] + claims[k + 1..] == claims;
      var added := AddClaim(index, s, role, claims[k], filled);
      if added.Err? {
        SideStops(index, s, role, seen + [claims[k]], claims[k + 1..]);
        ClaimRefusedAt(index, s, role, claims, k, filled, added.error);
        return Err(added.error);
      }
      SlotsMore(role, seen, claims[k], filled, added.value);
      filled := added.value;
      seen := seen + [claims[k]];
    }
    assert claims[..|claims|] == claims;
    r := Ok(filled);
  }

  // ----- admission -----

  /** Exactly when a proof is admitted as the leaf of shard `s`. */
  ghost predicate Admissible(index: map<string, Edge>, s: nat, run: Run, e: LeafExpectation, p: VerifiedProof) {
    && p.shard == s && p.identity == e.identity && p.statement.Some? && p.statement.value.flavor == run.flavor
    && PublicsExpected(p.statement.value, e)
    && SideFits(index, s, Input, p.statement.value.inputClaims)
    && SideFits(index, s, Output, p.statement.value.outputClaims)
    && Covers(index, s, Input, p.statement.value.inputClaims)
    && Covers(index, s, Output, p.statement.value.outputClaims)
  }

  /** The admitted claim states the statement's commitments, edge by edge, and nothing else. */
  ghost predicate StatesClaims(c: VerifiedClaim, p: VerifiedProof)
    requires p.statement.Some?
  {
    && SlotsFor(c.frontier, Input, p.statement.value.inputClaims)
    && SlotsFor(c.frontier, Output, p.statement.value.outputClaims)
    && c.publicInputs == Publics(p.statement.value.inputClaims, Input)
    && c.publicOutputs == Publics(p.statement.value.outputClaims, Output)
    && c.leaves == map[p.shard := p.digest]
  }

  predicate IncidentPresent(frontier: map<string, EdgeFrontier>, e: Edge, s: nat) {
    (e.producer == s || e.consumer == s) ==>
      && e.id in frontier
      && (frontier[e.id].producer.Some? == (e.producer == s))
      && (frontier[e.id].consumer.Some? == (e.consumer == s))
  }

  lemma {:induction false} FrontierIsLeaf(
      index: map<string, Edge>, s: nat, inputs: seq<Binding>, outputs: seq<Binding>,
      frontier: map<string, EdgeFrontier>)
    requires forall id :: id in index ==> index[id].id == id
    requires SideFits(index, s, Input, inputs) && SideFits(index, s, Output, outputs)
    requires SlotsFor(frontier, Input, inputs) && SlotsFor(frontier, Output, outputs) && NoEmptyEntry(frontier)
    ensures forall id :: id in frontier ==> id in index && Touches(index[id], s, s + 1)
    ensures forall id :: id in frontier && frontier[id].producer.Some? ==> index[id].producer == s
    ensures forall id :: id in frontier && frontier[id].consumer.Some? ==> index[id].consumer == s
    ensures Covers(index, s, Input, inputs) && Covers(index, s, Output, outputs) <==>
      forall id :: id in index ==> IncidentPresent(frontier, index[id], s)
  {
    forall id | Slot(frontier, id, Output).Some? ensures id in index && index[id].producer == s {
      var k :| 0 <= k < |outputs| && id in outputs[k].descriptor.edgeIds;
      assert ClaimFits(index, s, Output, outputs[k]);
    }
    forall id | Slot(frontier, id, Input).Some? ensures id in index && index[id].consumer == s {
      var k :| 0 <= k < |inputs| && id in inputs[k].descriptor.edgeIds;
      assert ClaimFits(index, s, Input, inputs[k]);
    }
    assert forall id :: Lists(outputs, id) <==> Slot(frontier, id, Output).Some?;
    assert forall id :: Lists(inputs, id) <==> Slot(frontier, id, Input).Some?;
    forall id | id in index
      ensures IncidentPresent(frontier, index[id], s) <==>
        (index[id].producer == s ==> Lists(outputs, id)) && (index[id].consumer == s ==> Lists(inputs, id))
    {
    }
  }

  /** Every edge a claim names is one of this shard's, on the claim's side, and carries the register it claims. */
  ghost predicate NamesItsEdges(index: map<string, Edge>, s: nat, role: Role, claims: seq<Binding>) {
    forall k, id :: 0 <= k < |claims| && id in claims[k].descriptor.edgeIds ==>
      && id in index && (if role == Output then index[id].producer else index[id].consumer) == s
      && claims[k].descriptor.registerId == RegisterId(index[id].register)
  }

  lemma {:induction false} FittingNamesItsEdges(index: map<string, Edge>, s: nat, role: Role, claims: seq<Binding>)
    requires SideFits(index, s, role, claims)
    ensures NamesItsEdges(index, s, role, claims)
  {
    forall k, id | 0 <= k < |claims| && id in claims[k].descriptor.edgeIds
      ensures EdgeFits(index, s, role, claims[k], id)
    {
      assert ClaimFits(index, s, role, claims[k]);
    }
  }

  /** Why a proof is not admitted. */
  ghost predicate LeafRefused(
      index: map<string, Edge>, s: nat, run: Run, e: LeafExpectation, p: VerifiedProof, error: AdmitError)
  {
    match error
    case MalformedStatement => p.statement.None?
    case LeafIdentityMismatch =>
      p.shard != s || p.identity != e.identity
      || (p.statement.Some? && (p.statement.value.flavor != run.flavor || !PublicsExpected(p.statement.value, e)))
    case MissingBoundary =>
      p.statement.Some? && !(Covers(index, s, Input, p.statement.value.inputClaims)
        && Covers(index, s, Output, p.statement.value.outputClaims))
    case _ =>
      p.statement.Some? && (SideRefused(index, s, Input, p.statement.value.inputClaims, error)
        || SideRefused(index, s, Output, p.statement.value.outputClaims, error))
  }

  method AdmitVerifiedLeaf(index: map<string, Edge>, s: nat, run: Run, e: LeafExpectation, p: VerifiedProof)
    returns (r: Result<VerifiedClaim, AdmitError>)
    requires forall id :: id in index ==> index[id].id == id
    requires ValidExpectation(e)
    requires p.statement.Some? ==>
      ValidClaims(p.statement.value.inputClaims) && ValidClaims(p.statement.value.outputClaims)
    ensures r.Ok? <==> Admissible(index, s, run, e, p)
    ensures r.Err? ==> LeafRefused(index, s, run, e, p, r.error)
    ensures r.Ok? ==> LeafClaim(index, s, r.value) && StatesClaims(r.value, p) && r.value.run == run
    ensures r.Ok? ==> NamesItsEdges(index, s, Input, p.statement.value.inputClaims)
    ensures r.Ok? ==> NamesItsEdges(index, s, Output, p.statement.value.outputClaims)
  {
    if p.shard != s || p.identity != e.identity {
      return Err(LeafIdentityMismatch);
    }
    if p.statement.None? {
      return Err(MalformedStatement);
    }
    var statement := p.statement.value;
    if statement.flavor != run.flavor || !PublicsExpected(statement, e) {
      return Err(LeafIdentityMismatch);
    }
    var inputs := CollectSide(index, s, Input, statement.inputClaims, map[]);
    if inputs.Err? {
      return Err(inputs.error);
    }
    forall id ensures Slot(inputs.value, id, Output).None? {
      assert Other(Input) == Output && Slot(map[], id, Output).None?;
    }
    var both := CollectSide(index, s, Output, statement.outputClaims, inputs.value);
    if both.Err? {
      return Err(both.error);
    }
    var frontier := both.value;
    FittingNamesItsEdges(index, s, Input, statement.inputClaims);
    FittingNamesItsEdges(index, s, Output, statement.outputClaims);
    OtherSideKept(inputs.value, frontier, statement.inputClaims);
    FrontierIsLeaf(index, s, statement.inputClaims, statement.outputClaims, frontier);
    if exists id :: id in index && !IncidentPresent(frontier, index[id], s) {
      return Err(MissingBoundary);
    }
    ExpectedPublicsListed(Publics(statement.inputClaims, Input), Publics(statement.outputClaims, Output), e);
    r := Ok(VerifiedClaim(Leaf(s), run, {s}, frontier, {}, Publics(statement.inputClaims, Input),
      Publics(statement.outputClaims, Output), map[s := p.digest]));
  }

  lemma {:induction false} OtherSideKept(
      before: map<string, EdgeFrontier>, after: map<string, EdgeFrontier>, inputs: seq<Binding>)
    requires SlotsFor(before, Input, inputs) && SameOtherSlots(before, after, Output)
    ensures SlotsFor(after, Input, inputs)
  {
    forall id ensures Slot(after, id, Input) == Slot(before, id, Input) {
      assert Other(Output) == Input;
    }
  }
}
