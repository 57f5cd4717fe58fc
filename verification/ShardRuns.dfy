/** One shard run on its own: what came in, the program it was bound to, and what that computed. */
module ShardRuns {
  import opened Prelude
  import opened Program
  import opened Assembler
  import opened BoundaryLayouts
  import opened Partition
  import opened ShardBinding

  datatype ShardRun = ShardRun(graphInputs: map<string, Tensor>, incoming: map<Register, Tensor>,
    bound: BoundShardProgram, virtuals: seq<Tensor>)

  ghost function EnvOf(plan: PartitionPlan, run: ShardRun): Env {
    LocalEnv(plan.programSnapshot, run.graphInputs, run.incoming)
  }

  /** The shard was bound to its own values and its program ran. */
  ghost predicate RanAlone(sem: Semantics, plan: PartitionPlan, layout: BoundaryLayout, s: nat, run: ShardRun) {
    && InPlan(plan, s)
    && IsBound(plan, s, layout, run.graphInputs, run.incoming, run.bound)
    && Run(sem, run.bound.assemblerProgram) == Some(run.virtuals)
  }

  function Values(runs: seq<ShardRun>): (r: seq<seq<Tensor>>)
    ensures |r| == |runs| && forall s :: 0 <= s < |runs| ==> r[s] == runs[s].virtuals
  {
    seq(|runs|, s requires 0 <= s < |runs| => runs[s].virtuals)
  }

  ghost function Envs(plan: PartitionPlan, runs: seq<ShardRun>): (r: seq<Env>)
    ensures |r| == |runs| && forall s :: 0 <= s < |runs| ==> r[s] == EnvOf(plan, runs[s])
  {
    seq(|runs|, s requires 0 <= s < |runs| => EnvOf(plan, runs[s]))
  }

  /** What a shard run computed is what its range means in its environment. */
  lemma {:induction false} RunMeaning(
      sem: Semantics, plan: PartitionPlan, layout: BoundaryLayout, s: nat, run: ShardRun)
    requires RanAlone(sem, plan, layout, s, run)
    ensures Eval(sem, EnvOf(plan, run), plan.shards[s].start, InstructionsOf(plan, s)) == Some(run.virtuals)
    ensures plan.shards[s].start + |run.virtuals| == plan.shards[s].end
  {
    BoundMeaning(sem, plan, s, layout, run.graphInputs, run.incoming, run.bound);
  }
}
