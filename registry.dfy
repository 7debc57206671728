/**
 * The static catalogue of supported pipelines: each name maps to an ordered list of stages,
 * each stage a name, the protocol that runs it and an optional prefix for its output keys.
 */
module Registry {
  import opened Wrappers

  /** The stage protocols; what each computes is outside the model. */
  datatype Runner = Align | Couplings | Compare | Mutate | Fold | Complex

  datatype Stage = Stage(name: string, runner: Runner, keyPrefix: Option<string>)

  /** Suffix of the record that holds the final global state, appended to the global prefix. */
  const FinalConfigSuffix: string := "_final.outcfg"

  const MonomerName: string := "protein_monomer"
  const ComplexName: string := "protein_complex"

  const ProteinMonomer: seq<Stage> := [
    Stage("align", Align, None),
    Stage("couplings", Couplings, None),
    Stage("compare", Compare, None),
    Stage("mutate", Mutate, None),
    Stage("fold", Fold, None)
  ]

  const ProteinComplex: seq<Stage> := [
    Stage("align_1", Align, Some("first_")),
    Stage("align_2", Align, Some("second_")),
    Stage("concatenate", Complex, None),
    Stage("couplings", Couplings, None)
  ]

  function StageNames(pipeline: seq<Stage>): (r: seq<string>)
    ensures |r| == |pipeline|
    ensures forall j :: 0 <= j < |pipeline| ==> r[j] == pipeline[j].name
  {
    if pipeline == [] then [] else [pipeline[0].name] + StageNames(pipeline[1..])
  }

  /** No two stages of a pipeline share a name, so no two share a checkpoint record. */
  predicate DistinctNames(pipeline: seq<Stage>)
  {
    forall i, j :: 0 <= i < j < |pipeline| ==> pipeline[i].name != pipeline[j].name
  }

  /** The registry, keyed by pipeline name. */
  function Pipelines(): (r: map<string, seq<Stage>>)
    ensures r.Keys == {MonomerName, ComplexName}
    ensures forall name :: name in r ==> DistinctNames(r[name])
  {
    map[MonomerName := ProteinMonomer, ComplexName := ProteinComplex]
  }
}
