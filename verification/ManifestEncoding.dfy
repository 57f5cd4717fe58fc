/** Building a manifest and writing it out: only a flavor that escapes to very many bytes can stop an accepted run. */
module ManifestEncoding {
  import opened Prelude
  import opened DagModel
  import opened AggregationPlan
  import opened PublicBoundary
  import opened Claims
  import opened ClaimMerge
  import opened LeafAdmission
  import opened NativeManifest
  import MT = ManifestText
  import MR = ManifestRoom
  import LS = LeafStatements
  import BC = ByteCodec

  // ----- what decoding guarantees -----

  /** The flavor and the claims of the statement some bytes encode, when they encode one. */
  function StatementFrom(utf8: LS.Utf8, bytes: BC.Bytes): Option<Statement> {
    match LS.Decode(utf8, bytes)
    case None => None
    case Some(s) => Some(Statement(s.proofFlavor, s.inputClaims, s.outputClaims))
  }

  ghost predicate FromBytes(utf8: LS.Utf8, p: VerifiedProof) {
    exists bytes :: p.statement == StatementFrom(utf8, bytes)
  }

  lemma {:induction false} DecodedIsValid(utf8: LS.Utf8, p: VerifiedProof)
    requires FromBytes(utf8, p) && p.statement.Some?
    ensures MR.ValidFlavor(p.statement.value.flavor) && ValidProof(p)
    ensures LS.ValidClaims(utf8, Role.Input, p.statement.value.inputClaims)
    ensures LS.ValidClaims(utf8, Role.Output, p.statement.value.outputClaims)
  {
    var bytes :| p.statement == StatementFrom(utf8, bytes);
    var s := LS.Decode(utf8, bytes).value;
    LS.DecodeExact(utf8, bytes, s);
    LS.DecodedEdgesOnce(utf8, bytes, s);
  }

  lemma {:induction false} PublicIsClaim(utf8: LS.Utf8, role: Role, claims: seq<Binding>, b: Binding)
    requires LS.ValidClaims(utf8, role, claims) && b in Publics(claims, role)
    ensures MR.PublicClaim(utf8, role, b)
  {
    if |claims| > 0 {
      var n := |claims| - 1;
      if b in Publics(claims[..n], role) {
        assert LS.ValidClaims(utf8, role, claims[..n]);
        PublicIsClaim(utf8, role, claims[..n], b);
      }
    }
  }

  /** What the leaves publish was decoded and is public. */
  lemma {:induction false} PublishedIsPublic(
      utf8: LS.Utf8, w: World, run: Run, proofs: seq<VerifiedProof>, role: Role, s: nat, b: Binding)
    requires AdmittedFrom(w, run, proofs) && forall t :: 0 <= t < |proofs| ==> FromBytes(utf8, proofs[t])
    requires s < |w.leaves| && b in (if role == Input then w.leaves[s].publicInputs else w.leaves[s].publicOutputs)
    ensures MR.PublicClaim(utf8, role, b)
  {
    assert AdmittedAt(w.index, run, s, w.leaves[s], proofs[s]) && FromBytes(utf8, proofs[s]);
    DecodedIsValid(utf8, proofs[s]);
    var statement := proofs[s].statement.value;
    PublicIsClaimOf(utf8, role, statement, b);
  }

  lemma {:induction false} PublicIsClaimOf(utf8: LS.Utf8, role: Role, statement: Statement, b: Binding)
    requires LS.ValidClaims(utf8, Role.Input, statement.inputClaims)
    requires LS.ValidClaims(utf8, Role.Output, statement.outputClaims)
    requires b in (if role == Input then Publics(statement.inputClaims, Input)
      else Publics(statement.outputClaims, Output))
    ensures MR.PublicClaim(utf8, role, b)
  {
    PublicIsClaim(utf8, role, if role == Input then statement.inputClaims else statement.outputClaims, b);
  }

  // ----- the finished manifest -----

  function ManifestOf(identity: MT.Identity, root: VerifiedClaim): MT.Manifest {
    MT.Manifest(identity, root.run.flavor, |root.leaves|, root.publicInputs, root.publicOutputs)
  }

  /** The root's lists are within the budget the expectations were trusted with. */
  lemma {:induction false} RootWithinBudget(w: World, identity: MT.Identity, root: VerifiedClaim)
    requires WithinBudget(w) && ClaimFor(w, root, 0, |w.leaves|)
    ensures MR.WithinWireBudget(ManifestOf(identity, root))
  {
    assert SumSeq(WireBytes, root.publicInputs) <= ListsCost(WireBytes, Inputs(w), 0, |w.leaves|);
    assert SumSeq(WireBytes, root.publicOutputs) <= ListsCost(WireBytes, Outputs(w), 0, |w.leaves|);
  }

  lemma {:induction false} RootIsPublic(
      utf8: LS.Utf8, w: World, run: Run, proofs: seq<VerifiedProof>, role: Role, lists: seq<seq<Binding>>,
      published: seq<Binding>)
    requires AdmittedFrom(w, run, proofs) && forall t :: 0 <= t < |proofs| ==> FromBytes(utf8, proofs[t])
    requires lists == (if role == Input then Inputs(w) else Outputs(w))
    requires Elements(published) == BindingsIn(lists, 0, |w.leaves|)
    ensures MR.PublicClaims(utf8, role, published)
  {
    forall k | 0 <= k < |published| ensures MR.PublicClaim(utf8, role, published[k]) {
      assert published[k] in Elements(published);
      var s :| 0 <= s < |w.leaves| && published[k] in lists[s];
      PublishedIsPublic(utf8, w, run, proofs, role, s, published[k]);
    }
  }

  lemma {:induction false} RunFlavorIsValid(utf8: LS.Utf8, w: World, run: Run, proofs: seq<VerifiedProof>)
    requires AdmittedFrom(w, run, proofs) && |proofs| > 0 && FromBytes(utf8, proofs[0])
    ensures MR.ValidFlavor(run.flavor)
  {
    assert AdmittedAt(w.index, run, 0, w.leaves[0], proofs[0]);
    DecodedIsValid(utf8, proofs[0]);
  }

  /** A root over admitted leaves makes a manifest of decoded statements within the budget. */
  lemma {:induction false} RootPublishable(
      utf8: LS.Utf8, w: World, run: Run, proofs: seq<VerifiedProof>, identity: MT.Identity, root: VerifiedClaim)
    requires AdmittedFrom(w, run, proofs) && forall t :: 0 <= t < |proofs| ==> FromBytes(utf8, proofs[t])
    requires 0 < |w.leaves| <= MAX_LEAVES && WithinBudget(w) && MT.FullDigests(identity)
    requires ClaimFor(w, root, 0, |w.leaves|) && |root.leaves| == |w.leaves| && root.run == run
    ensures MR.Publishable(utf8, ManifestOf(identity, root))
  {
    RunFlavorIsValid(utf8, w, run, proofs);
    RootIsPublic(utf8, w, run, proofs, Input, Inputs(w), root.publicInputs);
    RootIsPublic(utf8, w, run, proofs, Output, Outputs(w), root.publicOutputs);
    RootWithinBudget(w, identity, root);
  }

  // ----- building and writing -----

  predicate Encodable(m: MT.Manifest) {
    MT.Encode(m).Some?
  }

  /** Every leaf admitted, and the flat check passed. */
  ghost predicate Accepted(
      edges: seq<Edge>, run: Run, expectations: seq<LeafExpectation>, proofs: seq<VerifiedProof>, w: World)
  {
    && IndexAccepts(edges, |expectations|) && AllAdmissible(w.index, run, expectations, proofs)
    && FlatAccepts(w)
  }

  /** The manifest publishes what the leaves do, under the run's flavor. */
  ghost predicate Publishes(utf8: LS.Utf8, run: Run, w: World, m: MT.Manifest) {
    && MR.Publishable(utf8, m) && m.proofFlavor == run.flavor && m.leafCount == |w.leaves|
    && Elements(m.publicInputs) == BindingsIn(Inputs(w), 0, |w.leaves|)
    && Elements(m.publicOutputs) == BindingsIn(Outputs(w), 0, |w.leaves|)
  }

  /** What building and writing a manifest guarantees. */
  ghost predicate Encoded(
      utf8: LS.Utf8, edges: seq<Edge>, run: Run, expectations: seq<LeafExpectation>, proofs: seq<VerifiedProof>,
      r: Result<MT.Manifest, ManifestError>, w: World)
  {
    && (IndexAccepts(edges, |expectations|) ==> Indexes(w.index, edges))
    && (IndexAccepts(edges, |expectations|) && AllAdmissible(w.index, run, expectations, proofs) ==>
          ValidWorld(w) && AdmittedFrom(w, run, proofs))
    && (r.Ok? ==>
          Accepted(edges, run, expectations, proofs, w) && Publishes(utf8, run, w, r.value) && Encodable(r.value))
    && (Accepted(edges, run, expectations, proofs, w) && r.Err? ==>
          r.error == ResourceLimit && |MT.Escaped(run.flavor)| > MR.FLAVOR_ROOM)
  }

  /** What building the root guarantees. */
  ghost predicate Rooted(
      edges: seq<Edge>, run: Run, expectations: seq<LeafExpectation>, proofs: seq<VerifiedProof>,
      root: Result<VerifiedClaim, ManifestError>, w: World)
  {
    && (IndexAccepts(edges, |expectations|) ==> Indexes(w.index, edges))
    && (IndexAccepts(edges, |expectations|) && AllAdmissible(w.index, run, expectations, proofs) ==>
          ValidWorld(w) && AdmittedFrom(w, run, proofs))
    && (root.Ok? <==> Accepted(edges, run, expectations, proofs, w))
    && (root.Ok? ==> root.value.run == run && ClaimFor(w, root.value, 0, |expectations|))
  }

  method BuildRoot(
      ghost utf8: LS.Utf8, edges: seq<Edge>, fan: nat, tree: AggregationTree, run: Run,
      expectations: seq<LeafExpectation>, proofs: seq<VerifiedProof>)
    returns (root: Result<VerifiedClaim, ManifestError>, ghost w: World)
    requires ValidExpectations(expectations) && MIN_FAN_IN <= fan <= MAX_FAN_IN && tree == TreeFor(|expectations|, fan)
    requires forall s :: 0 <= s < |proofs| ==> FromBytes(utf8, proofs[s])
    ensures Rooted(edges, run, expectations, proofs, root, w)
  {
    forall s | 0 <= s < |proofs| ensures ValidProof(proofs[s]) {
      if proofs[s].statement.Some? { DecodedIsValid(utf8, proofs[s]); }
    }
    root, w := BuildNativeManifest(edges, fan, tree, run, expectations, proofs);
  }

  lemma {:induction false} RootPublishes(
      utf8: LS.Utf8, edges: seq<Edge>, run: Run, expectations: seq<LeafExpectation>, proofs: seq<VerifiedProof>,
      w: World, identity: MT.Identity, root: VerifiedClaim)
    requires ValidExpectations(expectations) && MT.FullDigests(identity)
    requires forall s :: 0 <= s < |proofs| ==> FromBytes(utf8, proofs[s])
    requires Rooted(edges, run, expectations, proofs, Ok(root), w)
    ensures Publishes(utf8, run, w, ManifestOf(identity, root))
  {
    AdmittedAsExpected(w, run, expectations, proofs);
    AdmittedWithinBudget(w, expectations);
    RootPasses(w, edges, root);
    RootPublishable(utf8, w, run, proofs, identity, root);
  }

  lemma {:induction false} RefusedIsTight(utf8: LS.Utf8, m: MT.Manifest)
    requires MR.Publishable(utf8, m) && !Encodable(m)
    ensures |MT.Escaped(m.proofFlavor)| > MR.FLAVOR_ROOM
  {
    if |MT.Escaped(m.proofFlavor)| <= MR.FLAVOR_ROOM { MR.RoomyFlavorFits(utf8, m); }
  }

  lemma {:induction false} TooLongEncoded(
      utf8: LS.Utf8, edges: seq<Edge>, run: Run, expectations: seq<LeafExpectation>, proofs: seq<VerifiedProof>,
      w: World, root: VerifiedClaim)
    requires Rooted(edges, run, expectations, proofs, Ok(root), w) && |MT.Escaped(run.flavor)| > MR.FLAVOR_ROOM
    ensures Encoded(utf8, edges, run, expectations, proofs, Err(ResourceLimit), w)
  {
  }

  lemma {:induction false} RefusedEncoded(
      utf8: LS.Utf8, edges: seq<Edge>, run: Run, expectations: seq<LeafExpectation>, proofs: seq<VerifiedProof>,
      w: World, error: ManifestError)
    requires Rooted(edges, run, expectations, proofs, Err(error), w)
    ensures Encoded(utf8, edges, run, expectations, proofs, Err(error), w)
  {
  }

  lemma {:induction false} WrittenEncoded(
      utf8: LS.Utf8, edges: seq<Edge>, run: Run, expectations: seq<LeafExpectation>, proofs: seq<VerifiedProof>,
      w: World, root: VerifiedClaim, m: MT.Manifest)
    requires Rooted(edges, run, expectations, proofs, Ok(root), w) && Publishes(utf8, run, w, m) && Encodable(m)
    ensures Encoded(utf8, edges, run, expectations, proofs, Ok(m), w)
  {
  }

  /**
   * Builds the manifest and writes it out. A run the flat check accepts is refused here only when its flavor escapes
   * to more than the room there always is.
   */
  method BuildEncodedManifest(
      ghost utf8: LS.Utf8, edges: seq<Edge>, fan: nat, tree: AggregationTree, run: Run,
      expectations: seq<LeafExpectation>, proofs: seq<VerifiedProof>, identityOf: VerifiedClaim -> MT.Identity)
    returns (r: Result<MT.Manifest, ManifestError>, ghost w: World)
    requires ValidExpectations(expectations) && MIN_FAN_IN <= fan <= MAX_FAN_IN && tree == TreeFor(|expectations|, fan)
    requires forall s :: 0 <= s < |proofs| ==> FromBytes(utf8, proofs[s])
    requires forall c :: MT.FullDigests(identityOf(c))
    ensures Encoded(utf8, edges, run, expectations, proofs, r, w)
  {
    var root;
    root, w := BuildRoot(utf8, edges, fan, tree, run, expectations, proofs);
    if root.Err? {
      RefusedEncoded(utf8, edges, run, expectations, proofs, w, root.error);
      return Err(root.error), w;
    }
    var manifest := ManifestOf(identityOf(root.value), root.value);
    RootPublishes(utf8, edges, run, expectations, proofs, w, identityOf(root.value), root.value);
    if !Encodable(manifest) {
      RefusedIsTight(utf8, manifest);
      TooLongEncoded(utf8, edges, run, expectations, proofs, w, root.value);
      return Err(ResourceLimit), w;
    }
    WrittenEncoded(utf8, edges, run, expectations, proofs, w, root.value, manifest);
    r := Ok(manifest);
  }
}
