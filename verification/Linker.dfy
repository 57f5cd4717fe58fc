/** The flat check over shard proofs: every proof valid, both ends of every edge committed alike. */
module Linker {
  import opened Prelude
  import opened Program
  import opened DagModel
  import opened PublicBoundary

  datatype ShardProof = ShardProof(
    shardId: nat, valid: bool, outputCommitments: map<Register, Commitment>,
    inputCommitments: map<Register, Commitment>)

  datatype LinkError =
    | InvalidShard(shardId: nat)
    | CommitmentMismatch(producer: nat, consumer: nat, register: Register)
    | MissingProof(shardId: nat)
    | ShardIdMismatch(expected: nat, found: nat)
    | MissingCommitment(shardId: nat, register: Register)

  function GetProof(proofs: seq<ShardProof>, shardId: nat): Result<ShardProof, LinkError> {
    if shardId >= |proofs| then Err(MissingProof(shardId))
    else if proofs[shardId].shardId != shardId then Err(ShardIdMismatch(shardId, proofs[shardId].shardId))
    else Ok(proofs[shardId])
  }

  /** The first shard whose proof is missing, misplaced or invalid. */
  function ShardFailure(shards: seq<Shard>, proofs: seq<ShardProof>): Option<LinkError> {
    if |shards| == 0 then None
    else
      match GetProof(proofs, shards[0].id)
      case Err(e) => Some(e)
      case Ok(p) => if !p.valid then Some(InvalidShard(shards[0].id)) else ShardFailure(shards[1..], proofs)
  }

  function EdgeFailure(e: Edge, proofs: seq<ShardProof>): Option<LinkError> {
    match (GetProof(proofs, e.producer), GetProof(proofs, e.consumer))
    case (Err(error), _) => Some(error)
    case (_, Err(error)) => Some(error)
    case (Ok(producer), Ok(consumer)) =>
      if e.register !in producer.outputCommitments then Some(MissingCommitment(e.producer, e.register))
      else if e.register !in consumer.inputCommitments then Some(MissingCommitment(e.consumer, e.register))
      else if producer.outputCommitments[e.register] != consumer.inputCommitments[e.register] then
        Some(CommitmentMismatch(e.producer, e.consumer, e.register))
      else None
  }

  function EdgesFailure(edges: seq<Edge>, proofs: seq<ShardProof>): Option<LinkError> {
    if |edges| == 0 then None
    else if EdgeFailure(edges[0], proofs).Some? then EdgeFailure(edges[0], proofs)
    else EdgesFailure(edges[1..], proofs)
  }

  /** Shards first, then edges; the first failure is reported. */
  function Link(dag: Dag, proofs: seq<ShardProof>): Option<LinkError> {
    var shard := ShardFailure(dag.shards, proofs);
    if shard.Some? then shard else EdgesFailure(dag.edges, proofs)
  }

  /** What an accepted set of proofs satisfies, and nothing more. */
  ghost predicate Linked(dag: Dag, proofs: seq<ShardProof>) {
    && (forall s :: s in dag.shards ==> InPlace(proofs, s.id) && proofs[s.id].valid)
    && (forall e :: e in dag.edges ==> EdgeLinked(e, proofs))
  }

  /** A shard's proof is there, at the shard's own position. */
  ghost predicate InPlace(proofs: seq<ShardProof>, shardId: nat) {
    shardId < |proofs| && proofs[shardId].shardId == shardId
  }

  ghost predicate EdgeLinked(e: Edge, proofs: seq<ShardProof>) {
    && InPlace(proofs, e.producer) && InPlace(proofs, e.consumer)
    && e.register in proofs[e.producer].outputCommitments && e.register in proofs[e.consumer].inputCommitments
    && proofs[e.producer].outputCommitments[e.register] == proofs[e.consumer].inputCommitments[e.register]
  }

  lemma {:induction false} ShardsLinked(shards: seq<Shard>, proofs: seq<ShardProof>)
    ensures ShardFailure(shards, proofs).None? <==>
      forall s :: s in shards ==> InPlace(proofs, s.id) && proofs[s.id].valid
    decreases |shards|
  {
    if |shards| > 0 {
      ShardsLinked(shards[1..], proofs);
      assert shards == [shards[0]] + shards[1..];
    }
  }

  lemma {:induction false} EdgesLinked(edges: seq<Edge>, proofs: seq<ShardProof>)
    ensures EdgesFailure(edges, proofs).None? <==> forall e :: e in edges ==> EdgeLinked(e, proofs)
    decreases |edges|
  {
    if |edges| > 0 {
      EdgesLinked(edges[1..], proofs);
      assert edges == [edges[0]] + edges[1..];
      assert EdgeFailure(edges[0], proofs).None? <==> EdgeLinked(edges[0], proofs);
    }
  }

  /** Linking succeeds exactly when every proof is valid and every edge's commitments agree. */
  lemma {:induction false} LinkExact(dag: Dag, proofs: seq<ShardProof>)
    ensures Link(dag, proofs).None? <==> Linked(dag, proofs)
  {
    ShardsLinked(dag.shards, proofs);
    EdgesLinked(dag.edges, proofs);
  }

  /**
   * A refusal names a proof that is missing, misplaced or invalid, or an edge whose commitments are not there or
   * differ.
   */
  ghost predicate Justified(dag: Dag, proofs: seq<ShardProof>, error: LinkError) {
    match error
    case MissingProof(s) => s >= |proofs|
    case ShardIdMismatch(expected, found) => expected < |proofs| && proofs[expected].shardId == found != expected
    case InvalidShard(s) =>
      InPlace(proofs, s) && !proofs[s].valid && exists shard :: shard in dag.shards && shard.id == s
    case MissingCommitment(s, register) => exists e :: e in dag.edges && EndMissing(e, proofs, s, register)
    case CommitmentMismatch(p, c, register) => exists e :: e in dag.edges && EndsDiffer(e, proofs, p, c, register)
  }

  ghost predicate EndMissing(e: Edge, proofs: seq<ShardProof>, s: nat, register: Register) {
    && InPlace(proofs, s) && e.register == register
    && ((e.producer == s && register !in proofs[s].outputCommitments)
        || (e.consumer == s && register !in proofs[s].inputCommitments))
  }

  ghost predicate EndsDiffer(e: Edge, proofs: seq<ShardProof>, producer: nat, consumer: nat, register: Register) {
    && e.producer == producer && e.consumer == consumer && e.register == register
    && InPlace(proofs, producer) && InPlace(proofs, consumer)
    && register in proofs[producer].outputCommitments && register in proofs[consumer].inputCommitments
    && proofs[producer].outputCommitments[register] != proofs[consumer].inputCommitments[register]
  }

  lemma {:induction false} ShardFailureJustified(dag: Dag, shards: seq<Shard>, proofs: seq<ShardProof>)
    requires forall s :: s in shards ==> s in dag.shards
    requires ShardFailure(shards, proofs).Some?
    ensures Justified(dag, proofs, ShardFailure(shards, proofs).value)
    decreases |shards|
  {
    assert shards[0] in dag.shards;
    if GetProof(proofs, shards[0].id).Ok? && proofs[shards[0].id].valid {
      ShardFailureJustified(dag, shards[1..], proofs);
    }
  }

  lemma {:induction false} EdgesFailureJustified(dag: Dag, edges: seq<Edge>, proofs: seq<ShardProof>)
    requires forall e :: e in edges ==> e in dag.edges
    requires EdgesFailure(edges, proofs).Some?
    ensures Justified(dag, proofs, EdgesFailure(edges, proofs).value)
    decreases |edges|
  {
    assert edges[0] in dag.edges;
    if EdgeFailure(edges[0], proofs).None? {
      EdgesFailureJustified(dag, edges[1..], proofs);
    }
  }

  /** Linking refuses for a reason it names. */
  lemma {:induction false} RefusalJustified(dag: Dag, proofs: seq<ShardProof>)
    requires Link(dag, proofs).Some?
    ensures Justified(dag, proofs, Link(dag, proofs).value)
  {
    if ShardFailure(dag.shards, proofs).Some? {
      ShardFailureJustified(dag, dag.shards, proofs);
    } else {
      EdgesFailureJustified(dag, dag.edges, proofs);
    }
  }
}
