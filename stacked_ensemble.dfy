/** The stacked-ensemble graph builder: every input pipeline's nodes are
    copied under names prefixed by the model family of its estimator, and a
    stacked ensemble estimator reads every input pipeline's last node and the
    last pipeline's target. */
module StackedEnsemble {
  import opened Wrappers
  import opened Values
  import opened ProblemTypes
  import opened ComponentGraphs

  const CLASSIFIER: string := "Stacked Ensemble Classifier"
  const REGRESSOR: string := "Stacked Ensemble Regressor"
  const ENSEMBLE_Y_UNBOUND: string := "UnboundLocalError: ensemble_y"

  /** Only binary, multiclass and regression problems have a pipeline class here. */
  predicate HasEnsembleClass(pt: ProblemType)
  {
    pt.Binary? || pt.Multiclass? || pt.Regression?
  }

  function EstimatorName(pt: ProblemType): string
  {
    if IsClassification(pt) then CLASSIFIER else REGRESSOR
  }

  function EnsembleName(pt: ProblemType): string
  {
    if IsClassification(pt) then "Stacked Ensemble Classification Pipeline"
    else "Stacked Ensemble Regression Pipeline"
  }

  /** The parameters before any node is copied: for classification the label
      encoder's parameters (an empty map stands for none) plus the ensemble's
      `n_jobs`; for regression the ensemble's `n_jobs` alone. */
  function InitialParams(pt: ProblemType, labelEncoderParams: ParamsDict, nJobs: int): (p: ParamsDict)
    ensures p.Keys == (if IsClassification(pt) then labelEncoderParams.Keys else {}) + {EstimatorName(pt)}
    ensures p[EstimatorName(pt)] == map["n_jobs" := VInt(nJobs)]
    ensures IsClassification(pt) ==>
              forall key :: key in labelEncoderParams && key != CLASSIFIER ==> p[key] == labelEncoderParams[key]
  {
    if IsClassification(pt) then labelEncoderParams[CLASSIFIER := map["n_jobs" := VInt(nJobs)]]
    else map[REGRESSOR := map["n_jobs" := VInt(nJobs)]]
  }

  function InitialGraph(pt: ProblemType): Graph
  {
    if IsClassification(pt) then [(LABEL_ENCODER, LABEL_ENCODER_NODE)] else []
  }

  /** The component of the last node of the compute order, as
      `component_graph[-1]` finds it. */
  function LastComponent(p: SubPipeline): Option<string>
  {
    if |p.computeOrder| == 0 then None
    else match Lookup(p.graph, p.computeOrder[|p.computeOrder| - 1])
      case None => None
      case Some(node) => Some(node.component)
  }

  /** In a well-formed pipeline the last component is missing only when the
      compute order is empty. */
  lemma LastComponentFound(p: SubPipeline)
    requires WellFormedSub(p)
    ensures LastComponent(p).None? <==> |p.computeOrder| == 0
  {
    if |p.computeOrder| > 0 {
      assert p.computeOrder[|p.computeOrder| - 1] in p.computeOrder;
    }
  }

  /** No pipeline's estimator lookup raises. */
  predicate AllFound(subs: seq<SubPipeline>)
    decreases |subs|
  {
    |subs| == 0 || (AllFound(subs[..|subs| - 1]) && LastComponent(subs[|subs| - 1]).Some?)
  }

  lemma {:induction false} AllFoundSpec(subs: seq<SubPipeline>)
    ensures AllFound(subs) <==> forall k :: 0 <= k < |subs| ==> LastComponent(subs[k]).Some?
    decreases |subs|
  {
    if |subs| > 0 {
      var n := |subs| - 1;
      AllFoundSpec(subs[..n]);
      assert forall k :: 0 <= k < n ==> subs[..n][k] == subs[k];
    }
  }

  lemma AllFoundStep(subs: seq<SubPipeline>, k: nat)
    requires k < |subs|
    ensures AllFound(subs[..k + 1]) <==> AllFound(subs[..k]) && LastComponent(subs[k]).Some?
  {
    assert subs[..k + 1][..k] == subs[..k];
  }

  /** The model family of a pipeline's estimator, as text. */
  function Family(p: SubPipeline, familyOf: string -> string): string
  {
    match LastComponent(p)
    case None => ""
    case Some(c) => familyOf(c)
  }

  function Families(subs: seq<SubPipeline>, familyOf: string -> string): (fs: seq<string>)
    ensures |fs| == |subs| && forall k :: 0 <= k < |subs| ==> fs[k] == Family(subs[k], familyOf)
  {
    seq(|subs|, k requires 0 <= k < |subs| => Family(subs[k], familyOf))
  }

  /** The renaming of the `k`-th pipeline: the family as prefix, counted
      among the pipelines before it; the graph's `X` is never redirected. */
  function RenAt(pt: ProblemType, familyOf: string -> string, subs: seq<SubPipeline>, k: nat): Renaming
    requires k < |subs|
  {
    var family := Family(subs[k], familyOf);
    Renaming(family, OccurrenceIdx(Families(subs[..k], familyOf), family), IsClassification(pt), None, "")
  }

  lemma FamiliesStep(subs: seq<SubPipeline>, familyOf: string -> string, k: nat)
    requires k < |subs|
    ensures Families(subs[..k + 1], familyOf) == Families(subs[..k], familyOf) + [Family(subs[k], familyOf)]
  {
    var l, r := Families(subs[..k + 1], familyOf), Families(subs[..k], familyOf) + [Family(subs[k], familyOf)];
    forall i | 0 <= i < k + 1 ensures l[i] == r[i] {
      if i < k {
        assert subs[..k + 1][i] == subs[..k][i];
      }
    }
  }

  /** The rounds of the outer loop: each pipeline with its renaming. */
  function EnsembleCopies(pt: ProblemType, familyOf: string -> string, subs: seq<SubPipeline>): (cs: seq<Copy>)
    ensures |cs| == |subs|
  {
    seq(|subs|, k requires 0 <= k < |subs| => Copy(subs[k].graph, RenAt(pt, familyOf, subs, k), subs[k].parameters))
  }

  lemma EnsembleCopiesAt(pt: ProblemType, familyOf: string -> string, subs: seq<SubPipeline>, k: nat)
    requires k < |subs|
    ensures EnsembleCopies(pt, familyOf, subs)[k] == Copy(subs[k].graph, RenAt(pt, familyOf, subs, k), subs[k].parameters)
  {
  }

  /** `ensemble_y`, chosen by the last pipeline alone: the last `.y` input
      met while copying it, renamed. */
  function EnsembleY(pt: ProblemType, familyOf: string -> string, subs: seq<SubPipeline>): Ref
    requires |subs| > 0
  {
    LastYRef(subs[|subs| - 1].graph, RenAt(pt, familyOf, subs, |subs| - 1))
  }

  /** `_make_stacked_ensemble_pipeline`, or the exception it raises: the
      pipeline class lookup fails first for the other problem types, then
      the estimator lookup of a pipeline with an empty compute order, then
      the reference to `ensemble_y` when there is no pipeline. */
  function StackedEnsemblePipeline(pt: ProblemType, subs: seq<SubPipeline>, nJobs: int, seed: int,
                                   labelEncoderParams: ParamsDict, familyOf: string -> string)
    : (r: Result<Pipeline, string>)
    ensures r.Success? ==> r.value.problemType == pt && r.value.customName == Some(EnsembleName(pt))
                           && r.value.randomSeed == seed && |subs| > 0
    ensures r.Success? ==>
              Lookup(r.value.graph, EstimatorName(pt))
                == Some(Node(EstimatorName(pt), XOutputs(FinalsOf(EnsembleCopies(pt, familyOf, subs)))
                                                + [EnsembleY(pt, familyOf, subs)]))
  {
    if !HasEnsembleClass(pt) then Failure("KeyError: " + Name(pt))
    else if exists k :: 0 <= k < |subs| && LastComponent(subs[k]).None? then Failure(INDEX_ERROR)
    else if |subs| == 0 then Failure(ENSEMBLE_Y_UNBOUND)
    else
      var est := EstimatorName(pt);
      var cs := EnsembleCopies(pt, familyOf, subs);
      var g := GraphAfter(InitialGraph(pt), cs);
      Success(Pipeline(pt, Set(g, est, Node(est, XOutputs(FinalsOf(cs)) + [EnsembleY(pt, familyOf, subs)])),
                       ParamsAfter(InitialParams(pt, labelEncoderParams, nJobs), cs),
                       Some(EnsembleName(pt)), seed))
  }

  /* ---------------- Properties ---------------- */

  /** The construction fails exactly for the problem types without a
      pipeline class, for no input pipeline, and for an input pipeline with
      an empty compute order; in that order of precedence. */
  lemma StackedEnsembleFailsIff(pt: ProblemType, subs: seq<SubPipeline>, nJobs: int, seed: int,
                                labelEncoderParams: ParamsDict, familyOf: string -> string)
    requires forall k :: 0 <= k < |subs| ==> WellFormedSub(subs[k])
    ensures var r := StackedEnsemblePipeline(pt, subs, nJobs, seed, labelEncoderParams, familyOf);
            && (r.Failure? <==> !HasEnsembleClass(pt) || |subs| == 0
                                || exists k :: 0 <= k < |subs| && |subs[k].computeOrder| == 0)
            && (!HasEnsembleClass(pt) ==> r == Failure("KeyError: " + Name(pt)))
            && ((HasEnsembleClass(pt) && exists k :: 0 <= k < |subs| && |subs[k].computeOrder| == 0)
                  ==> r == Failure(INDEX_ERROR))
            && (HasEnsembleClass(pt) && |subs| == 0 ==> r == Failure(ENSEMBLE_Y_UNBOUND))
  {
    forall k | 0 <= k < |subs| ensures LastComponent(subs[k]).None? <==> |subs[k].computeOrder| == 0 {
      LastComponentFound(subs[k]);
    }
  }

  /** The ensemble graph holds the label encoder for classification, every
      renamed node and the estimator, each key once; the parameters hold the
      initial keys and the renamed nodes' keys and nothing else, and the
      ensemble's `n_jobs` unless a copied node took its name. */
  lemma StackedEnsembleNodes(pt: ProblemType, subs: seq<SubPipeline>, nJobs: int, seed: int,
                             labelEncoderParams: ParamsDict, familyOf: string -> string)
    requires StackedEnsemblePipeline(pt, subs, nJobs, seed, labelEncoderParams, familyOf).Success?
    ensures var r := StackedEnsemblePipeline(pt, subs, nJobs, seed, labelEncoderParams, familyOf).value;
            var p0 := InitialParams(pt, labelEncoderParams, nJobs);
            && KeysDistinct(r.graph) && EstimatorName(pt) in KeysOf(r.graph)
            && (IsClassification(pt) ==> LABEL_ENCODER in KeysOf(r.graph))
            && var copied := KeysAfter(EnsembleCopies(pt, familyOf, subs));
            && (forall key :: key in copied ==> key in KeysOf(r.graph))
            && r.parameters.Keys == p0.Keys + copied
            && (EstimatorName(pt) !in copied ==>
                  r.parameters[EstimatorName(pt)] == map["n_jobs" := VInt(nJobs)])
  {
    var g0 := InitialGraph(pt);
    var p0 := InitialParams(pt, labelEncoderParams, nJobs);
    var cs := EnsembleCopies(pt, familyOf, subs);
    var est := EstimatorName(pt);
    StackedEnsembleValue(pt, subs, nJobs, seed, labelEncoderParams, familyOf);
    EnsembleKeys(pt, g0, p0, cs, est, Node(est, XOutputs(FinalsOf(cs)) + [EnsembleY(pt, familyOf, subs)]));
  }

  /** The successful construction, written out. */
  lemma StackedEnsembleValue(pt: ProblemType, subs: seq<SubPipeline>, nJobs: int, seed: int,
                             labelEncoderParams: ParamsDict, familyOf: string -> string)
    requires StackedEnsemblePipeline(pt, subs, nJobs, seed, labelEncoderParams, familyOf).Success?
    ensures |subs| > 0
    ensures var cs := EnsembleCopies(pt, familyOf, subs);
            var est := EstimatorName(pt);
            StackedEnsemblePipeline(pt, subs, nJobs, seed, labelEncoderParams, familyOf).value
              == Pipeline(pt, Set(GraphAfter(InitialGraph(pt), cs), est,
                                  Node(est, XOutputs(FinalsOf(cs)) + [EnsembleY(pt, familyOf, subs)])),
                          ParamsAfter(InitialParams(pt, labelEncoderParams, nJobs), cs),
                          Some(EnsembleName(pt)), seed)
  {
  }

  /** The keys of the initial graph and parameters after the copies and the
      estimator's node are set. */
  lemma EnsembleKeys(pt: ProblemType, g0: Graph, p0: ParamsDict, cs: seq<Copy>, est: string, node: Node)
    requires g0 == InitialGraph(pt)
    ensures var g := Set(GraphAfter(g0, cs), est, node);
            var ps := ParamsAfter(p0, cs);
            && KeysDistinct(g) && est in KeysOf(g)
            && (IsClassification(pt) ==> LABEL_ENCODER in KeysOf(g))
            && (forall key :: key in KeysAfter(cs) ==> key in KeysOf(g))
            && ps.Keys == p0.Keys + KeysAfter(cs)
            && (forall key :: key in p0 && key !in KeysAfter(cs) ==> ps[key] == p0[key])
  {
    assert KeysOf(g0) == if IsClassification(pt) then [LABEL_ENCODER] else [];
    GraphAfterKeys(g0, cs);
    ParamsAfterSpec(p0, cs);
    SetKeysDistinct(GraphAfter(g0, cs), est, node);
  }

  /** Two pipelines of the same model family never have colliding node names. */
  lemma SameFamilyNoCollision(pt: ProblemType, familyOf: string -> string, subs: seq<SubPipeline>,
                              k1: nat, k2: nat, n1: string, n2: string)
    requires k1 < k2 < |subs| && Family(subs[k1], familyOf) == Family(subs[k2], familyOf)
    ensures RenamedName(RenAt(pt, familyOf, subs, k1).prefix, RenAt(pt, familyOf, subs, k1).idx, n1)
            != RenamedName(RenAt(pt, familyOf, subs, k2).prefix, RenAt(pt, familyOf, subs, k2).idx, n2)
  {
    var fs := Families(subs, familyOf);
    assert Families(subs[..k1], familyOf) == fs[..k1];
    assert Families(subs[..k2], familyOf) == fs[..k2];
    OccurrenceIdxDistinct(fs, k1, k2);
    if RenamedName(RenAt(pt, familyOf, subs, k1).prefix, RenAt(pt, familyOf, subs, k1).idx, n1)
       == RenamedName(RenAt(pt, familyOf, subs, k2).prefix, RenAt(pt, familyOf, subs, k2).idx, n2) {
      RenamedNameInjective(RenAt(pt, familyOf, subs, k1).prefix, RenAt(pt, familyOf, subs, k1).idx, n1,
                           RenAt(pt, familyOf, subs, k2).idx, n2);
    }
  }

  /** A copied node keeps reading the graph's `X` where its original did: the
      ensemble builder redirects nothing. */
  lemma CopiedNodesKeepX(pt: ProblemType, familyOf: string -> string, subs: seq<SubPipeline>, k: nat, j: nat, i: nat)
    requires k < |subs| && j < |subs[k].graph| && i < |subs[k].graph[j].1.inputs|
    ensures var copied := RenamedEntries(subs[k].graph, RenAt(pt, familyOf, subs, k))[j].1.inputs[i];
            subs[k].graph[j].1.inputs[i] == GraphX <==> copied == GraphX
  {
    var ren := RenAt(pt, familyOf, subs, k);
    var e := subs[k].graph[j];
    assert RenamedEntries(subs[k].graph, ren)[j] == RenameEntry(e, ren);
  }

  /* ---------------- The loops ---------------- */

  /** The model family lookup of one pipeline, as `component_graph[-1].model_family`. */
  method FamilyLookup(p: SubPipeline, familyOf: string -> string) returns (family: Option<string>)
    ensures family.None? <==> LastComponent(p).None?
    ensures family.Some? ==> family.value == Family(p, familyOf)
  {
    if |p.computeOrder| == 0 {
      return None;
    }
    var node := Lookup(p.graph, p.computeOrder[|p.computeOrder| - 1]);
    if node.None? {
      return None;
    }
    family := Some(familyOf(node.value.component));
  }

  /** The state after the first `k` rounds of the outer loop, in closed form. */
  ghost predicate RoundsDone(pt: ProblemType, familyOf: string -> string, g0: Graph, p0: ParamsDict,
                             subs: seq<SubPipeline>, cs: seq<Copy>, k: nat, used: seq<string>,
                             graph: Graph, params: ParamsDict, finals: seq<string>, ensembleY: Ref)
  {
    && k <= |subs| && k <= |cs|
    && AllFound(subs[..k]) && used == Families(subs[..k], familyOf)
    && graph == GraphAfter(g0, cs[..k]) && params == ParamsAfter(p0, cs[..k]) && finals == FinalsOf(cs[..k])
    && (k > 0 ==> ensembleY == LastYRef(subs[k - 1].graph, cs[k - 1].ren))
  }

  /** One round of the outer loop: the rounds before it done, the rounds up
      to and including it done unless the estimator lookup raises. */
  method EnsembleRound(pt: ProblemType, familyOf: string -> string, g0: Graph, p0: ParamsDict,
                       subs: seq<SubPipeline>, ghost cs: seq<Copy>, k: nat, used: seq<string>,
                       graph: Graph, params: ParamsDict, finals: seq<string>, ghost ensembleY: Ref)
    returns (found: bool, used': seq<string>, graph': Graph, params': ParamsDict, finals': seq<string>, ensembleY': Ref)
    requires k < |subs| && k < |cs| && cs[k] == Copy(subs[k].graph, RenAt(pt, familyOf, subs, k), subs[k].parameters)
    requires RoundsDone(pt, familyOf, g0, p0, subs, cs, k, used, graph, params, finals, ensembleY)
    ensures found <==> LastComponent(subs[k]).Some?
    ensures found ==> RoundsDone(pt, familyOf, g0, p0, subs, cs, k + 1, used', graph', params', finals', ensembleY')
  {
    used', graph', params', finals', ensembleY' := used, graph, params, finals, GraphY;
    var p := subs[k];
    var family := FamilyLookup(p, familyOf);
    found := family.Some?;
    if found {
      var idx := OccurrenceIdx(used, family.value);
      used' := used + [family.value];
      var ren := Renaming(family.value, idx, IsClassification(pt), None, "");
      graph', params', ensembleY' := CopySubPipeline(graph, params, p.graph, ren, p.parameters);
      finals' := finals + [RenamedName(ren.prefix, ren.idx, LastKey(p.graph))];
      FamiliesStep(subs, familyOf, k);
      AllFoundStep(subs, k);
      CopiesStep(g0, p0, cs, k);
      FinalsOfStep(cs, k);
    }
  }

  /** After the last round: every lookup succeeded and the state is that of all the rounds. */
  lemma AllRoundsDone(pt: ProblemType, familyOf: string -> string, g0: Graph, p0: ParamsDict,
                      subs: seq<SubPipeline>, used: seq<string>,
                      graph: Graph, params: ParamsDict, finals: seq<string>, ensembleY: Ref)
    requires RoundsDone(pt, familyOf, g0, p0, subs, EnsembleCopies(pt, familyOf, subs), |subs|, used, graph, params, finals, ensembleY)
    ensures forall k :: 0 <= k < |subs| ==> LastComponent(subs[k]).Some?
    ensures var cs := EnsembleCopies(pt, familyOf, subs);
            graph == GraphAfter(g0, cs) && params == ParamsAfter(p0, cs) && finals == FinalsOf(cs)
            && (|subs| > 0 ==> ensembleY == LastYRef(subs[|subs| - 1].graph, cs[|subs| - 1].ren))
  {
    var cs := EnsembleCopies(pt, familyOf, subs);
    assert subs[..|subs|] == subs && cs[..|subs|] == cs;
    AllFoundSpec(subs);
  }

  /** `_make_stacked_ensemble_pipeline`. */
  method MakeStackedEnsemblePipeline(pt: ProblemType, subs: seq<SubPipeline>, nJobs: int, seed: int,
                                     labelEncoderParams: ParamsDict, familyOf: string -> string)
    returns (r: Result<Pipeline, string>)
    ensures r == StackedEnsemblePipeline(pt, subs, nJobs, seed, labelEncoderParams, familyOf)
  {
    if !(pt.Binary? || pt.Multiclass? || pt.Regression?) {
      return Failure("KeyError: " + Name(pt));
    }
    var err, graph, params, finals, ensembleY := CopyEnsembleMembers(pt, familyOf, subs, InitialGraph(pt),
                                                                    InitialParams(pt, labelEncoderParams, nJobs));
    if err.Some? {
      return Failure(err.value);
    }
    if |subs| == 0 {
      return Failure(ENSEMBLE_Y_UNBOUND);
    }
    EnsembleCopiesAt(pt, familyOf, subs, |subs| - 1);
    var est := EstimatorName(pt);
    graph := Set(graph, est, Node(est, XOutputs(finals) + [ensembleY]));
    r := Success(Pipeline(pt, graph, params, Some(EnsembleName(pt)), seed));
  }

  /** The outer loop of `_make_stacked_ensemble_pipeline`: each pipeline
      copied into the graph in turn, stopping at the first whose estimator
      lookup raises. */
  method CopyEnsembleMembers(pt: ProblemType, familyOf: string -> string, subs: seq<SubPipeline>, g0: Graph, p0: ParamsDict)
    returns (err: Option<string>, graph: Graph, params: ParamsDict, finals: seq<string>, ensembleY: Ref)
    ensures err.Some? <==> exists k :: 0 <= k < |subs| && LastComponent(subs[k]).None?
    ensures err.Some? ==> err.value == INDEX_ERROR
    ensures err.None? ==> var cs := EnsembleCopies(pt, familyOf, subs);
                          graph == GraphAfter(g0, cs) && params == ParamsAfter(p0, cs) && finals == FinalsOf(cs)
    ensures err.None? && |subs| > 0 ==> ensembleY == LastYRef(subs[|subs| - 1].graph, EnsembleCopies(pt, familyOf, subs)[|subs| - 1].ren)
  {
    err, graph, params, finals, ensembleY := None, g0, p0, [], GraphY;
    ghost var cs := EnsembleCopies(pt, familyOf, subs);
    var used: seq<string> := [];
    var k := 0;
    while k < |subs|
      invariant RoundsDone(pt, familyOf, g0, p0, subs, cs, k, used, graph, params, finals, ensembleY)
    {
      var found;
      EnsembleCopiesAt(pt, familyOf, subs, k);
      found, used, graph, params, finals, ensembleY :=
        EnsembleRound(pt, familyOf, g0, p0, subs, cs, k, used, graph, params, finals, ensembleY);
      if !found {
        assert 0 <= k < |subs| && LastComponent(subs[k]).None?;
        return Some(INDEX_ERROR), graph, params, finals, ensembleY;
      }
      k := k + 1;
    }
    AllRoundsDone(pt, familyOf, g0, p0, subs, used, graph, params, finals, ensembleY);
  }
}
