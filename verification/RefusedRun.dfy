/** A run that is accepted and then refused its manifest: a flavor of control characters beside many output names. */
module RefusedRun {
  import opened Prelude
  import opened PublicBoundary
  import opened Claims
  import opened LeafAdmission
  import opened NativeManifest
  import opened ManifestEncoding
  import opened FullestManifest
  import MT = ManifestText
  import MR = ManifestRoom
  import LS = LeafStatements
  import DM = DagModel

  /** As long as a statement's text can be, and six times as long when written. */
  function ControlFlavor(): (s: string)
    ensures |s| == LS.MAX_TEXT_BYTES && AllLong(s)
  {
    Filler(LS.MAX_TEXT_BYTES)
  }

  lemma {:induction false} ControlFlavorLength()
    ensures MR.ValidFlavor(ControlFlavor()) && |MT.Escaped(ControlFlavor())| == 24_576
  {
    LongText(ControlFlavor());
  }

  // ----- one shard, whose statement publishes the fullest boundaries -----

  function Zeros(): LS.Digest32 { seq(32, _ => 0) }

  function ExampleStatement(): LS.LeafStatement {
    LS.LeafStatement(0, "s", Zeros(), Zeros(), Zeros(), Zeros(), ControlFlavor(), Zeros(), [], FullOutputs(), [])
  }

  lemma {:induction false} TextsBounded(xs: seq<string>)
    requires forall k :: 0 <= k < |xs| ==> |xs[k]| <= 256
    ensures LS.TextsLength(xs) <= 260 * |xs|
  {
    if |xs| > 0 { TextsBounded(xs[1..]); }
  }

  lemma {:induction false} ClaimBounded(utf8: LS.Utf8, role: Role, c: Binding)
    requires LS.ValidClaim(utf8, role, c)
    ensures LS.ClaimLength(c) <= 16_957 && LS.ClaimSized(c)
  {
    TextsBounded(c.descriptor.edgeIds);
    TextsBounded(c.descriptor.graphOutputNames);
  }

  lemma {:induction false} ClaimsBounded(utf8: LS.Utf8, role: Role, claims: seq<Binding>)
    requires forall k :: 0 <= k < |claims| ==> LS.ValidClaim(utf8, role, claims[k])
    ensures LS.ClaimsLength(claims) <= 16_957 * |claims| && LS.ClaimsSized(claims)
    decreases |claims|
  {
    if |claims| > 0 {
      ClaimsBounded(utf8, role, claims[1..]);
      ClaimBounded(utf8, role, claims[0]);
      forall k | 0 <= k < |claims| ensures LS.ClaimSized(claims[k]) {
        if k > 0 { assert claims[1..][k - 1] == claims[k]; }
      }
    }
  }

  lemma {:induction false} ExampleValid(utf8: LS.Utf8)
    requires AsciiIsWellFormed(utf8)
    ensures LS.Valid(utf8, ExampleStatement())
  {
    FullOutputsPublic(utf8);
    var outputs := FullOutputs();
    forall k | 0 <= k < |outputs| ensures LS.ValidClaim(utf8, Role.Output, outputs[k]) {
      assert MR.PublicClaim(utf8, Output, outputs[k]);
    }
    TextIsValid(utf8, "s");
    TextIsValid(utf8, ControlFlavor());
  }

  lemma {:induction false} TextIsValid(utf8: LS.Utf8, s: string)
    requires AsciiIsWellFormed(utf8) && MR.ValidFlavor(s)
    ensures LS.ValidText(utf8, s)
  {
  }

  lemma {:induction false} ExampleEncodable(utf8: LS.Utf8)
    requires LS.Valid(utf8, ExampleStatement())
    ensures LS.Encodable(ExampleStatement())
  {
    ClaimsBounded(utf8, Role.Output, FullOutputs());
  }

  function ExampleProof(): VerifiedProof {
    VerifiedProof(0, 0, Some(Statement(ControlFlavor(), [], FullOutputs())), 0)
  }

  lemma {:induction false} ExampleFromBytes(utf8: LS.Utf8)
    requires AsciiIsWellFormed(utf8)
    ensures FromBytes(utf8, ExampleProof())
  {
    ExampleValid(utf8);
    ExampleEncodable(utf8);
    ExampleParts();
    EncodedStatement(utf8, ExampleStatement(), ExampleProof());
  }

  lemma {:induction false} ExampleParts()
    ensures var s := ExampleStatement();
      ExampleProof().statement == Some(Statement(s.proofFlavor, s.inputClaims, s.outputClaims))
  {
  }

  lemma {:induction false} EncodedStatement(utf8: LS.Utf8, s: LS.LeafStatement, p: VerifiedProof)
    requires LS.Valid(utf8, s) && LS.Encodable(s)
    requires p.statement == Some(Statement(s.proofFlavor, s.inputClaims, s.outputClaims))
    ensures FromBytes(utf8, p)
  {
    var bytes := LS.Encode(s).value;
    LS.DecodeExact(utf8, bytes, s);
    assert p.statement == StatementFrom(utf8, bytes);
  }

  // ----- it is expected and admitted -----

  function ExampleExpectation(): LeafExpectation {
    LeafExpectation(0, [], Descriptors(FullOutputs()))
  }

  function ExampleRun(): Run { Run(0, ControlFlavor()) }

  lemma {:induction false} DescriptorsListed(outputs: seq<Binding>)
    requires OutputsListed(outputs)
    ensures ValidExpectation(LeafExpectation(0, [], Descriptors(outputs)))
  {
    forall i, j, name | 0 <= i < j < |outputs| && name in Descriptors(outputs)[i].graphOutputNames
      ensures name !in Descriptors(outputs)[j].graphOutputNames
    {
      assert NamesApart(outputs[i], outputs[j]);
    }
  }

  lemma {:induction false} OneExpectation(g: Descriptor -> nat, outputs: seq<Descriptor>)
    ensures DescriptorsCost(g, [LeafExpectation(0, [], outputs)]) == SumSeq(g, outputs)
  {
    var e := LeafExpectation(0, [], outputs);
    assert [e][..0] == [] && DescriptorsCost(g, []) == 0;
  }

  lemma {:induction false} WithinExpectation(outputs: seq<Binding>)
    requires OutputsListed(outputs) && |outputs| <= MAX_PUBLIC_BOUNDARY_DECLARATIONS
    requires SumSeq(WireBytes, outputs) <= MAX_PUBLIC_BOUNDARY_WIRE_BYTES
    ensures ValidExpectations([LeafExpectation(0, [], Descriptors(outputs))])
  {
    DescriptorsListed(outputs);
    DescribedCost(WireBytes, DescriptorBytes, outputs);
    OneExpectation(DescriptorBytes, Descriptors(outputs));
    OneExpectation(OneDescriptor, Descriptors(outputs));
    SumUniform(OneDescriptor, Descriptors(outputs), 1);
  }

  lemma {:induction false} ExampleExpected()
    ensures ValidExpectations([ExampleExpectation()])
  {
    FullOutputsListed();
    FullOutputsMeasured();
    WithinExpectation(FullOutputs());
  }

  lemma {:induction false} AllPublic(claims: seq<Binding>, role: Role)
    requires forall k :: 0 <= k < |claims| ==> IsPublic(claims[k], role)
    ensures Publics(claims, role) == claims
  {
    if |claims| > 0 {
      AllPublic(claims[..|claims| - 1], role);
      assert claims == claims[..|claims| - 1] + [claims[|claims| - 1]];
    }
  }

  lemma {:induction false} ExampleAdmitted()
    ensures AllAdmissible(map[], ExampleRun(), [ExampleExpectation()], [ExampleProof()])
  {
    FullOutputsListed();
    AllPublic(FullOutputs(), Output);
    UnroutedFits(FullOutputs());
    assert Admissible(map[], 0, ExampleRun(), ExampleExpectation(), ExampleProof());
  }

  /** Public outputs that no edge carries, in a DAG without edges. */
  lemma {:induction false} UnroutedFits(outputs: seq<Binding>)
    requires forall k :: 0 <= k < |outputs| ==> IsPublic(outputs[k], Output) && outputs[k].descriptor.edgeIds == []
    ensures SideFits(map[], 0, Output, outputs) && SideFits(map[], 0, Input, [])
    ensures Covers(map[], 0, Output, outputs) && Covers(map[], 0, Input, [])
  {
  }

  // ----- and refused -----

  lemma {:induction false} SumReordered<T>(f: T -> nat, xs: seq<T>, ys: seq<T>)
    requires multiset(xs) == multiset(ys)
    ensures SumSeq(f, xs) == SumSeq(f, ys)
    decreases |xs|
  {
    if |xs| == 0 {
      assert |multiset(ys)| == 0;
    } else {
      var n := |xs| - 1;
      assert xs == xs[..n] + [xs[n]];
      assert xs[n] in multiset(ys);
      var i :| 0 <= i < |ys| && ys[i] == xs[n];
      var before, after := ys[..i], ys[i + 1..];
      assert ys == before + [xs[n]] + after;
      WithoutOne(xs[..n], xs[n], before, after);
      SumReordered(f, xs[..n], before + after);
      SumInserted(f, before, xs[n], after);
    }
  }

  lemma {:induction false} WithoutOne<T>(xs: seq<T>, x: T, before: seq<T>, after: seq<T>)
    requires multiset(xs + [x]) == multiset(before + [x] + after)
    ensures multiset(xs) == multiset(before + after)
  {
    assert multiset(xs + [x]) == multiset(xs) + multiset{x};
    assert multiset(before + [x] + after) == multiset(before) + multiset{x} + multiset(after);
    assert multiset(before + after) == multiset(before) + multiset(after);
    forall y ensures multiset(xs)[y] == multiset(before + after)[y] {
      assert multiset(xs + [x])[y] == multiset(before + [x] + after)[y];
    }
  }

  lemma {:induction false} SumInserted<T>(f: T -> nat, before: seq<T>, x: T, after: seq<T>)
    ensures SumSeq(f, before + [x] + after) == SumSeq(f, before + after) + f(x)
    decreases |after|
  {
    if |after| == 0 {
      assert before + [x] + after == before + [x] && before + after == before;
      SumSnoc(f, before, x);
    } else {
      var n := |after| - 1;
      SumInserted(f, before, x, after[..n]);
      assert before + [x] + after == before + [x] + after[..n] + [after[n]];
      assert before + after == before + after[..n] + [after[n]];
      SumSnoc(f, before + [x] + after[..n], after[n]);
      SumSnoc(f, before + after[..n], after[n]);
    }
  }

  lemma {:induction false} ListedIsDistinct(outputs: seq<Binding>)
    requires OutputsListed(outputs)
    ensures Distinct(outputs)
  {
    forall i, j | 0 <= i < j < |outputs| ensures outputs[i] != outputs[j] {
      assert NamesApart(outputs[i], outputs[j]) && outputs[i].descriptor.graphOutputNames[0]
        in outputs[i].descriptor.graphOutputNames;
    }
  }

  /** However they are listed, these outputs leave no room for the flavor. */
  lemma {:induction false} NoRoom(m: MT.Manifest)
    requires OutputsListed(m.publicOutputs) && Elements(m.publicOutputs) == Elements(FullOutputs())
    requires m.proofFlavor == ControlFlavor()
    ensures !Encodable(m)
  {
    FullOutputsListed();
    ListedIsDistinct(FullOutputs());
    ListedIsDistinct(m.publicOutputs);
    DistinctMultiset(m.publicOutputs, FullOutputs());
    SumReordered(MT.EntryLength, m.publicOutputs, FullOutputs());
    FullOutputsMeasured();
    ControlFlavorLength();
    TooLong(m);
  }

  lemma {:induction false} TooLong(m: MT.Manifest)
    requires SumSeq(MT.EntryLength, m.publicOutputs) == 1_033_181 && |MT.Escaped(m.proofFlavor)| == 24_576
    ensures !Encodable(m)
  {
    MT.EncodesExactly(m);
  }

  /** One leaf without edges passes the flat check, and publishes what its statement does. */
  lemma {:induction false} LoneLeafAccepted(w: World, run: Run, p: VerifiedProof, outputs: seq<Binding>)
    requires w.index == map[] && AdmittedFrom(w, run, [p])
    requires p.statement.Some? && Publics(p.statement.value.outputClaims, Output) == outputs
    ensures FlatAccepts(w)
    ensures BindingsIn(Outputs(w), 0, |w.leaves|) == Elements(outputs)
  {
    assert AdmittedAt(w.index, run, 0, w.leaves[0], [p][0]);
    assert Outputs(w)[0] == outputs;
  }

  lemma {:induction false} ExampleAccepted(w: World)
    requires w.index == map[] && AdmittedFrom(w, ExampleRun(), [ExampleProof()])
    ensures FlatAccepts(w)
    ensures BindingsIn(Outputs(w), 0, |w.leaves|) == Elements(FullOutputs())
  {
    FullOutputsListed();
    AllPublic(FullOutputs(), Output);
    LoneLeafAccepted(w, ExampleRun(), ExampleProof(), FullOutputs());
  }

  lemma {:induction false} ExampleProven(utf8: LS.Utf8)
    requires AsciiIsWellFormed(utf8)
    ensures FromBytes(utf8, ExampleProof()) && ValidExpectations([ExampleExpectation()])
    ensures IndexAccepts([], 1)
    ensures AllAdmissible(map[], ExampleRun(), [ExampleExpectation()], [ExampleProof()])
  {
    ExampleFromBytes(utf8);
    ExampleExpected();
    ExampleAdmitted();
  }

  /**
   * Whatever the digests: the proof decodes, is expected, admitted and passes the flat check, and still the manifest
   * is not written.
   */
  lemma {:induction false} ControlFlavorRefused(
      utf8: LS.Utf8, r: Result<MT.Manifest, ManifestError>, w: World)
    requires AsciiIsWellFormed(utf8)
    requires Encoded(utf8, [], ExampleRun(), [ExampleExpectation()], [ExampleProof()], r, w)
    ensures FromBytes(utf8, ExampleProof()) && ValidExpectations([ExampleExpectation()])
    ensures Accepted([], ExampleRun(), [ExampleExpectation()], [ExampleProof()], w)
    ensures r == Err(ResourceLimit)
  {
    ExampleProven(utf8);
    NoIndex(w.index);
    ExampleAccepted(w);
    if r.Ok? { NoRoom(r.value); }
    NotWritten(utf8, [], ExampleRun(), [ExampleExpectation()], [ExampleProof()], r, w);
  }

  lemma {:induction false} NoIndex(index: map<string, DM.Edge>)
    requires Indexes(index, [])
    ensures index == map[]
  {
  }

  lemma {:induction false} NotWritten(
      utf8: LS.Utf8, edges: seq<DM.Edge>, run: Run, expectations: seq<LeafExpectation>, proofs: seq<VerifiedProof>,
      r: Result<MT.Manifest, ManifestError>, w: World)
    requires Encoded(utf8, edges, run, expectations, proofs, r, w)
    requires Accepted(edges, run, expectations, proofs, w) && (r.Ok? ==> !Encodable(r.value))
    ensures r == Err(ResourceLimit)
  {
  }
}
