/** The prover's whole check of a template: the rebuilt program, the public outputs and the RMSNorm domains. */
module TemplateCheck {
  import opened Prelude
  import opened Program
  import opened Assembler
  import opened WitnessTemplate
  import SB = ShapeBytes
  import SE = ShapeEncoder

  type Domains = map<(nat, nat), SB.RsqrtDomain>

  function Lengths(tensors: seq<Tensor>): (r: seq<nat>)
    ensures |r| == |tensors| && forall k :: 0 <= k < |r| ==> r[k] == |tensors[k]|
  {
    seq(|tensors|, k requires 0 <= k < |tensors| => |tensors[k]|)
  }

  /** A circuit's parameters without boundary commitments. */
  function ParamsOf(program: AssemblerProgram, domains: Domains, outputs: seq<nat>): SB.CircuitParams {
    SB.CircuitParams(program.instructions, domains, Lengths(program.inputValues), Lengths(program.weightValues),
      outputs, [], [], 0, [])
  }

  /** The public outputs ascend and are instructions of the program. */
  ghost predicate OutputsInRange(outputs: seq<nat>, count: nat) {
    && (forall i, j :: 0 <= i < j < |outputs| && j == i + 1 ==> outputs[i] < outputs[j])
    && (forall i :: 0 <= i < |outputs| ==> outputs[i] < count)
  }

  method CheckOutputs(outputs: seq<nat>, count: nat) returns (ok: bool)
    ensures ok <==> OutputsInRange(outputs, count)
  {
    for k := 0 to |outputs|
      invariant forall i, j :: 0 <= i < j < k && j == i + 1 ==> outputs[i] < outputs[j]
      invariant forall i :: 0 <= i < k ==> outputs[i] < count
    {
      if outputs[k] >= count {
        return false;
      }
      if k > 0 && outputs[k - 1] >= outputs[k] {
        return false;
      }
    }
    ok := true;
  }

  /** Two shapes of one program have the same bytes exactly when their domains are the same. */
  lemma {:induction false} SameShapeIff(program: AssemblerProgram, a: Domains, b: Domains, outputs: seq<nat>)
    requires SB.Sized(ParamsOf(program, a, outputs)) && SB.Sized(ParamsOf(program, b, outputs))
    ensures a == b <==>
      SB.CanonicalShapeBytes(ParamsOf(program, a, outputs)) == SB.CanonicalShapeBytes(ParamsOf(program, b, outputs))
  {
    if SB.CanonicalShapeBytes(ParamsOf(program, a, outputs)) == SB.CanonicalShapeBytes(ParamsOf(program, b, outputs)) {
      SB.CanonicalShapeBytesInjective(ParamsOf(program, a, outputs), ParamsOf(program, b, outputs));
    }
  }

  /** Digests are compared by what they digest. */
  method ValidateAssemblerTemplate(
      template: AssemblerProgram, domains: Domains, configured: Domains, outputs: seq<nat>,
      weights: map<string, Tensor>, shapes: map<Register, nat>, start: nat, instrs: seq<CompiledInstruction>)
    returns (ok: bool)
    requires SB.Sized(ParamsOf(template, domains, outputs)) && SB.Sized(ParamsOf(template, configured, outputs))
    ensures ok <==>
      && IsTemplate(template, weights, shapes, start, instrs)
      && OutputsInRange(outputs, |template.instructions|) && domains == configured
  {
    var matches := CompareTemplate(template, weights, shapes, start, instrs);
    if !matches {
      return false;
    }
    var inRange := CheckOutputs(outputs, |template.instructions|);
    if !inRange {
      return false;
    }
    var expected := SE.EncodeCanonicalShape(ParamsOf(template, configured, outputs));
    var supplied := SE.EncodeCanonicalShape(ParamsOf(template, domains, outputs));
    SameShapeIff(template, domains, configured, outputs);
    ok := expected == supplied;
  }
}
