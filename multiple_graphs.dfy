/** Building one pipeline out of several sub-pipelines and a final estimator:
    the sub-pipelines' nodes are copied under new names into one graph, fed
    by optional components before the split and followed by optional
    components before the estimator. */
module MultipleGraphs {
  import opened Wrappers
  import opened Values
  import opened ProblemTypes
  import opened ComponentGraphs

  const UNBOUND_ERROR: string := "UnboundLocalError: final_y_candidate"
  const MULTISERIES_KEY_ERROR: string := "KeyError: multiseries time series regression"

  /** What is fixed across the sub-pipelines: whether the problem is a
      classification, the renaming aliases (an empty map stands for none),
      the node the fed `X` is redirected to, and whether a component
      modifies the target. */
  datatype Config = Config(
    classification: bool,
    aliases: map<string, string>,
    priorX: Option<string>,
    modifiesTarget: string -> bool)

  /** The last key of the components before the split, when it is a
      non-empty name. */
  function PriorX(pre: Graph): (r: Option<string>)
    ensures r.Some? <==> |pre| > 0 && pre[|pre| - 1].0 != ""
    ensures r.Some? ==> r.value == KeysOf(pre)[|pre| - 1]
  {
    if |pre| > 0 && pre[|pre| - 1].0 != "" then Some(pre[|pre| - 1].0) else None
  }

  /** The exception one sub-pipeline raises, if any: a name missing from a
      non-empty alias map, an empty compute order, or a compute order holding
      only the label encoder. */
  function SubError(p: SubPipeline, aliases: map<string, string>): (e: Option<string>)
    ensures e.None? <==> (|aliases| > 0 ==> p.name in aliases) && |p.computeOrder| > 0
                         && (p.computeOrder[0] == LABEL_ENCODER ==> |p.computeOrder| > 1)
  {
    if |aliases| > 0 && p.name !in aliases then Some(KeyError(p.name))
    else if |p.computeOrder| == 0 then Some(INDEX_ERROR)
    else if p.computeOrder[0] == LABEL_ENCODER && |p.computeOrder| == 1 then Some(INDEX_ERROR)
    else None
  }

  /** The alias when one is given and non-empty, otherwise the pipeline's name. */
  function Prefix(p: SubPipeline, aliases: map<string, string>): (r: string)
    ensures r == p.name || (p.name in aliases && r == aliases[p.name] && r != "")
  {
    if |aliases| > 0 && p.name in aliases && aliases[p.name] != "" then aliases[p.name] else p.name
  }

  /** The node whose `X` input is redirected: the first of the compute order
      that is not the label encoder. */
  function FirstX(order: seq<string>): (r: string)
    ensures |order| > 0 && order[0] != LABEL_ENCODER ==> r == order[0]
    ensures |order| > 1 && order[0] == LABEL_ENCODER ==> r == order[1]
  {
    if |order| == 0 then ""
    else if order[0] != LABEL_ENCODER then order[0]
    else if |order| > 1 then order[1]
    else ""
  }

  function RenamingFor(cfg: Config, used: seq<string>, p: SubPipeline): Renaming
  {
    Renaming(Prefix(p, cfg.aliases), OccurrenceIdx(used, p.name), cfg.classification, cfg.priorX,
             FirstX(p.computeOrder))
  }

  /** `f"{renamed last of the compute order}.y"` when that component modifies the target. */
  function Candidate(cfg: Config, p: SubPipeline, ren: Renaming): Option<Ref>
    requires |p.computeOrder| > 0
  {
    var last := p.computeOrder[|p.computeOrder| - 1];
    if cfg.modifiesTarget(last) then Some(Out(RenamedName(ren.prefix, ren.idx, last), YSlot)) else None
  }

  /** The components after the split: the first gets the sub-pipelines' last
      outputs and `y`, in place; then they are merged into the graph. */
  function WithPost(g: Graph, post: Graph, finals: seq<string>, finalY: Ref): Graph
  {
    if |post| == 0 then g
    else SetAll(g, Set(post, post[0].0, Node(post[0].0, XOutputs(finals) + [finalY])))
  }

  /** The estimator reads the last post-split component when there is one
      with a non-empty name, otherwise every sub-pipeline's last output and `y`. */
  function EstimatorInputs(post: Graph, finals: seq<string>, finalY: Ref): (rs: seq<Ref>)
    ensures |post| > 0 && post[|post| - 1].0 != "" ==>
              rs == [Out(post[|post| - 1].0, XSlot), Out(post[|post| - 1].0, YSlot)]
    ensures !(|post| > 0 && post[|post| - 1].0 != "") ==>
              |rs| == |finals| + 1 && rs[|finals|] == finalY
              && forall k :: 0 <= k < |finals| ==> rs[k] == Out(finals[k], XSlot)
  {
    if |post| > 0 && post[|post| - 1].0 != "" then
      [Out(post[|post| - 1].0, XSlot), Out(post[|post| - 1].0, YSlot)]
    else XOutputs(finals) + [finalY]
  }

  /* ---------------- The outer loop in closed form ---------------- */

  /** The renaming of the `k`-th sub-pipeline: its counter counts the
      sub-pipelines before it with the same name. */
  function RenAt(cfg: Config, subs: seq<SubPipeline>, k: nat): Renaming
    requires k < |subs|
  {
    RenamingFor(cfg, NamesOf(subs[..k]), subs[k])
  }

  /** The exception of the first sub-pipeline that raises one. */
  function FirstSubError(subs: seq<SubPipeline>, aliases: map<string, string>): Option<string>
    decreases |subs|
  {
    if |subs| == 0 then None
    else
      var e := FirstSubError(subs[..|subs| - 1], aliases);
      if e.Some? then e else SubError(subs[|subs| - 1], aliases)
  }

  /** No exception exactly when no sub-pipeline raises one; otherwise it is
      the exception of a sub-pipeline all of whose predecessors pass. */
  lemma {:induction false} FirstSubErrorSpec(subs: seq<SubPipeline>, aliases: map<string, string>)
    ensures FirstSubError(subs, aliases).None? <==> forall k :: 0 <= k < |subs| ==> SubError(subs[k], aliases).None?
    ensures FirstSubError(subs, aliases).Some? ==>
              exists k :: 0 <= k < |subs| && SubError(subs[k], aliases) == FirstSubError(subs, aliases)
                       && forall k' :: 0 <= k' < k ==> SubError(subs[k'], aliases).None?
    decreases |subs|
  {
    if |subs| > 0 {
      var n := |subs| - 1;
      var init := subs[..n];
      FirstSubErrorSpec(init, aliases);
      assert forall k :: 0 <= k < n ==> init[k] == subs[k];
      if FirstSubError(init, aliases).Some? {
        var k :| 0 <= k < n && SubError(init[k], aliases) == FirstSubError(init, aliases)
                 && forall k' :: 0 <= k' < k ==> SubError(init[k'], aliases).None?;
        assert SubError(subs[k], aliases) == FirstSubError(subs, aliases);
      } else if SubError(subs[n], aliases).Some? {
        assert SubError(subs[n], aliases) == FirstSubError(subs, aliases);
      } else {
        forall k | 0 <= k < |subs| ensures SubError(subs[k], aliases).None? {
          if k < n {
            assert init[k] == subs[k];
          }
        }
      }
    }
  }

  lemma FirstSubErrorStep(subs: seq<SubPipeline>, aliases: map<string, string>, k: nat)
    requires k < |subs|
    ensures FirstSubError(subs[..k + 1], aliases)
            == if FirstSubError(subs[..k], aliases).Some? then FirstSubError(subs[..k], aliases) else SubError(subs[k], aliases)
  {
    assert subs[..k + 1][..k] == subs[..k];
  }

  lemma {:induction false} FirstSubErrorExtends(subs: seq<SubPipeline>, aliases: map<string, string>, k: nat)
    requires k <= |subs| && FirstSubError(subs[..k], aliases).Some?
    ensures FirstSubError(subs, aliases) == FirstSubError(subs[..k], aliases)
    decreases |subs| - k
  {
    if k < |subs| {
      assert subs[..k + 1][..k] == subs[..k];
      FirstSubErrorExtends(subs, aliases, k + 1);
    } else {
      assert subs[..k] == subs;
    }
  }

  /** A sub-pipeline that raises nothing has nodes. */
  lemma NoErrorHasNodes(p: SubPipeline, aliases: map<string, string>)
    requires WellFormedSub(p) && SubError(p, aliases).None?
    ensures |p.graph| > 0 && |p.computeOrder| > 0
  {
    assert p.computeOrder[0] in p.computeOrder;
  }

  lemma NoSubErrorHasNodes(subs: seq<SubPipeline>, aliases: map<string, string>)
    requires forall k :: 0 <= k < |subs| ==> WellFormedSub(subs[k])
    requires FirstSubError(subs, aliases).None?
    ensures forall k :: 0 <= k < |subs| ==> |subs[k].graph| > 0 && |subs[k].computeOrder| > 0
  {
    FirstSubErrorSpec(subs, aliases);
    forall k | 0 <= k < |subs| ensures |subs[k].graph| > 0 && |subs[k].computeOrder| > 0 {
      NoErrorHasNodes(subs[k], aliases);
    }
  }

  /** The rounds of the outer loop: each sub-pipeline with its renaming. */
  function Copies(cfg: Config, subs: seq<SubPipeline>): (cs: seq<Copy>)
    ensures |cs| == |subs|
  {
    seq(|subs|, k requires 0 <= k < |subs| => Copy(subs[k].graph, RenAt(cfg, subs, k), subs[k].parameters))
  }

  lemma CopiesAt(cfg: Config, subs: seq<SubPipeline>, k: nat)
    requires k < |subs|
    ensures Copies(cfg, subs)[k] == Copy(subs[k].graph, RenAt(cfg, subs, k), subs[k].parameters)
  {
  }

  /** `final_y` after copying `p` under `ren`: its target candidate if it
      has one, otherwise the last `.y` input met while copying it, renamed. */
  function FinalY(cfg: Config, p: SubPipeline, ren: Renaming): Ref
    requires |p.computeOrder| > 0
  {
    match Candidate(cfg, p, ren)
    case Some(c) => c
    case None => LastYRef(p.graph, ren)
  }

  /** `final_y` after the loop: chosen by the last sub-pipeline alone. */
  function LastFinalY(cfg: Config, subs: seq<SubPipeline>): Ref
    requires |subs| > 0 && |subs[|subs| - 1].computeOrder| > 0
  {
    FinalY(cfg, subs[|subs| - 1], RenAt(cfg, subs, |subs| - 1))
  }

  function InitialGraph(pt: ProblemType, pre: Graph): Graph
  {
    if IsClassification(pt) then Set(pre, LABEL_ENCODER, LABEL_ENCODER_NODE) else pre
  }

  function ConfigFor(pt: ProblemType, aliases: map<string, string>, pre: Graph,
                     modifiesTarget: string -> bool): Config
  {
    Config(IsClassification(pt), aliases, PriorX(pre), modifiesTarget)
  }

  /** The combined pipeline, or the exception the construction raises. The
      estimator is set last and reads either the last component after the
      split or every sub-pipeline's renamed last node in input order and
      `final_y`. */
  function MergeGraphs(pt: ProblemType, subs: seq<SubPipeline>, estimator: string,
                       parameters: ParamsDict, pipelineName: Option<string>,
                       aliases: map<string, string>, pre: Graph, post: Graph, seed: int,
                       modifiesTarget: string -> bool): (r: Result<Pipeline, string>)
    requires forall k :: 0 <= k < |subs| ==> WellFormedSub(subs[k])
    ensures r.Success? ==> r.value.problemType == pt && r.value.customName == pipelineName
                           && r.value.randomSeed == seed && !IsMultiseries(pt)
    ensures r.Success? ==> |subs| > 0 && forall k :: 0 <= k < |subs| ==> |subs[k].graph| > 0 && |subs[k].computeOrder| > 0
    ensures r.Success? ==>
              var cfg := ConfigFor(pt, aliases, pre, modifiesTarget);
              Lookup(r.value.graph, estimator)
                == Some(Node(estimator, EstimatorInputs(post, FinalsOf(Copies(cfg, subs)), LastFinalY(cfg, subs))))
  {
    var cfg := ConfigFor(pt, aliases, pre, modifiesTarget);
    match FirstSubError(subs, aliases)
    case Some(e) => Failure(e)
    case None =>
      if |subs| == 0 then Failure(UNBOUND_ERROR)
      else
        NoSubErrorHasNodes(subs, aliases);
        var cs := Copies(cfg, subs);
        Assembled(pt, estimator, pipelineName, post, seed, GraphAfter(InitialGraph(pt, pre), cs),
                  ParamsAfter(parameters, cs), FinalsOf(cs), LastFinalY(cfg, subs))
  }

  /** What follows the outer loop: the components after the split wired in,
      the estimator set, and the pipeline class chosen by the problem type. */
  function Assembled(pt: ProblemType, estimator: string, pipelineName: Option<string>, post: Graph, seed: int,
                     graph: Graph, params: ParamsDict, finals: seq<string>, finalY: Ref): Result<Pipeline, string>
  {
    if IsMultiseries(pt) then Failure(MULTISERIES_KEY_ERROR)
    else
      var g := WithPost(graph, post, finals, finalY);
      Success(Pipeline(pt, Set(g, estimator, Node(estimator, EstimatorInputs(post, finals, finalY))),
                       params, pipelineName, seed))
  }

  /* ---------------- Properties ---------------- */

  /** The construction fails exactly when there is no sub-pipeline, when one
      of them raises, or when the problem type has no pipeline class; an
      exception of a sub-pipeline wins over the others. */
  lemma MergeGraphsFailsIff(pt: ProblemType, subs: seq<SubPipeline>, estimator: string,
                            parameters: ParamsDict, pipelineName: Option<string>,
                            aliases: map<string, string>, pre: Graph, post: Graph, seed: int,
                            modifiesTarget: string -> bool)
    requires forall k :: 0 <= k < |subs| ==> WellFormedSub(subs[k])
    ensures var r := MergeGraphs(pt, subs, estimator, parameters, pipelineName, aliases, pre, post, seed, modifiesTarget);
            && (r.Failure? <==> |subs| == 0 || IsMultiseries(pt)
                                || exists k :: 0 <= k < |subs| && SubError(subs[k], aliases).Some?)
            && (|subs| == 0 ==> r == Failure(UNBOUND_ERROR))
            && ((exists k :: 0 <= k < |subs| && SubError(subs[k], aliases).Some?) ==>
                  exists k :: 0 <= k < |subs| && SubError(subs[k], aliases) == Some(r.error)
                           && forall k' :: 0 <= k' < k ==> SubError(subs[k'], aliases).None?)
  {
    FirstSubErrorSpec(subs, aliases);
  }

  /** Renamed nodes of two sub-pipelines with the same name never collide. */
  lemma SameNameNoCollision(cfg: Config, subs: seq<SubPipeline>, k1: nat, k2: nat, n1: string, n2: string)
    requires k1 < k2 < |subs| && subs[k1].name == subs[k2].name
    ensures RenamedName(RenAt(cfg, subs, k1).prefix, RenAt(cfg, subs, k1).idx, n1)
            != RenamedName(RenAt(cfg, subs, k2).prefix, RenAt(cfg, subs, k2).idx, n2)
  {
    var names := NamesOf(subs);
    assert NamesOf(subs[..k1]) == names[..k1];
    assert NamesOf(subs[..k2]) == names[..k2];
    OccurrenceIdxDistinct(names, k1, k2);
    if RenamedName(RenAt(cfg, subs, k1).prefix, RenAt(cfg, subs, k1).idx, n1)
       == RenamedName(RenAt(cfg, subs, k2).prefix, RenAt(cfg, subs, k2).idx, n2) {
      RenamedNameInjective(RenAt(cfg, subs, k1).prefix, RenAt(cfg, subs, k1).idx, n1,
                           RenAt(cfg, subs, k2).idx, n2);
    }
  }

  /** The combined graph keeps every node before and after the split and
      holds every renamed node, each key once; a classification graph holds
      the label encoder, which keeps its node `["Label Encoder", "X", "y"]`
      unless the estimator or a component after the split has its name; the
      parameters hold the caller's keys and the renamed nodes' keys and
      nothing else. */
  lemma MergeGraphsNodes(pt: ProblemType, subs: seq<SubPipeline>, estimator: string,
                         parameters: ParamsDict, pipelineName: Option<string>,
                         aliases: map<string, string>, pre: Graph, post: Graph, seed: int,
                         modifiesTarget: string -> bool)
    requires forall k :: 0 <= k < |subs| ==> WellFormedSub(subs[k])
    requires KeysDistinct(pre) && KeysDistinct(post)
    requires MergeGraphs(pt, subs, estimator, parameters, pipelineName, aliases, pre, post, seed, modifiesTarget).Success?
    ensures var r := MergeGraphs(pt, subs, estimator, parameters, pipelineName, aliases, pre, post, seed, modifiesTarget).value;
            var cfg := ConfigFor(pt, aliases, pre, modifiesTarget);
            && KeysDistinct(r.graph)
            && (forall key :: key in KeysOf(pre) ==> key in KeysOf(r.graph))
            && (forall key :: key in KeysOf(post) ==> key in KeysOf(r.graph))
            && (forall key :: key in KeysAfter(Copies(cfg, subs)) ==> key in KeysOf(r.graph))
            && (IsClassification(pt) ==> LABEL_ENCODER in KeysOf(r.graph))
            && (IsClassification(pt) && LABEL_ENCODER !in KeysOf(post) && LABEL_ENCODER != estimator ==>
                  Lookup(r.graph, LABEL_ENCODER) == Some(LABEL_ENCODER_NODE))
            && r.parameters.Keys == parameters.Keys + KeysAfter(Copies(cfg, subs))
            && forall key :: key in parameters && key !in KeysAfter(Copies(cfg, subs)) ==> r.parameters[key] == parameters[key]
  {
    var cfg := ConfigFor(pt, aliases, pre, modifiesTarget);
    var g0 := InitialGraph(pt, pre);
    if IsClassification(pt) {
      SetKeysDistinct(pre, LABEL_ENCODER, LABEL_ENCODER_NODE);
    }
    var cs := Copies(cfg, subs);
    GraphAfterKeys(g0, cs);
    ParamsAfterSpec(parameters, cs);
    AssembledKeys(pt, estimator, pipelineName, post, seed, GraphAfter(g0, cs),
                  ParamsAfter(parameters, cs), FinalsOf(cs), LastFinalY(cfg, subs));
    if IsClassification(pt) && LABEL_ENCODER !in KeysOf(post) && LABEL_ENCODER != estimator {
      KeysAfterNoLabelEncoder(cs);
      GraphAfterLookupUntouched(g0, cs, LABEL_ENCODER);
      var lg := GraphAfter(g0, cs);
      if |post| > 0 {
        var post' := Set(post, post[0].0, Node(post[0].0, XOutputs(FinalsOf(cs)) + [LastFinalY(cfg, subs)]));
        assert post[0].0 == KeysOf(post)[0];
        SetAllLookupUntouched(lg, post', LABEL_ENCODER);
      }
    }
  }

  /** The end of the construction keeps every key of the loop's graph and of
      the components after the split, and keeps the keys distinct. */
  lemma AssembledKeys(pt: ProblemType, estimator: string, pipelineName: Option<string>, post: Graph, seed: int,
                      graph: Graph, params: ParamsDict, finals: seq<string>, finalY: Ref)
    requires KeysDistinct(graph) && KeysDistinct(post)
    requires Assembled(pt, estimator, pipelineName, post, seed, graph, params, finals, finalY).Success?
    ensures var r := Assembled(pt, estimator, pipelineName, post, seed, graph, params, finals, finalY).value;
            && KeysDistinct(r.graph) && r.parameters == params
            && (forall key :: key in KeysOf(graph) ==> key in KeysOf(r.graph))
            && (forall key :: key in KeysOf(post) ==> key in KeysOf(r.graph))
  {
    var g := WithPost(graph, post, finals, finalY);
    if |post| > 0 {
      var node := Node(post[0].0, XOutputs(finals) + [finalY]);
      var post' := Set(post, post[0].0, node);
      assert post[0].0 == KeysOf(post)[0];
      SetKeysDistinct(post, post[0].0, node);
      SetAllKeepsKeys(graph, post');
    }
    SetKeysDistinct(g, estimator, Node(estimator, EstimatorInputs(post, finals, finalY)));
  }

  /** The first component after the split reads every sub-pipeline's renamed
      last node, in input order, and `final_y`, unless the estimator replaces it. */
  lemma MergeGraphsPostWiring(pt: ProblemType, subs: seq<SubPipeline>, estimator: string,
                              parameters: ParamsDict, pipelineName: Option<string>,
                              aliases: map<string, string>, pre: Graph, post: Graph, seed: int,
                              modifiesTarget: string -> bool)
    requires forall k :: 0 <= k < |subs| ==> WellFormedSub(subs[k])
    requires KeysDistinct(post) && |post| > 0 && post[0].0 != estimator
    requires MergeGraphs(pt, subs, estimator, parameters, pipelineName, aliases, pre, post, seed, modifiesTarget).Success?
    ensures |subs| > 0 && forall k :: 0 <= k < |subs| ==> |subs[k].graph| > 0 && |subs[k].computeOrder| > 0
    ensures var r := MergeGraphs(pt, subs, estimator, parameters, pipelineName, aliases, pre, post, seed, modifiesTarget).value;
            var cfg := ConfigFor(pt, aliases, pre, modifiesTarget);
            Lookup(r.graph, post[0].0)
              == Some(Node(post[0].0, XOutputs(FinalsOf(Copies(cfg, subs))) + [LastFinalY(cfg, subs)]))
  {
    var cfg := ConfigFor(pt, aliases, pre, modifiesTarget);
    var finals := FinalsOf(Copies(cfg, subs));
    var finalY := LastFinalY(cfg, subs);
    var lg := GraphAfter(InitialGraph(pt, pre), Copies(cfg, subs));
    var node := Node(post[0].0, XOutputs(finals) + [finalY]);
    var post' := Set(post, post[0].0, node);
    assert post'[0] == (post[0].0, node);
    SetKeysDistinct(post, post[0].0, node);
    SetAllLookup(lg, post', post[0].0, 0);
  }

  /** For classification no copied node reads the raw target: each `y`
      input becomes the label encoder's `y`. */
  lemma CopiedNodesReadEncodedTarget(cfg: Config, subs: seq<SubPipeline>, k: nat)
    requires k < |subs| && cfg.classification
    ensures forall j :: 0 <= j < |subs[k].graph| ==>
              GraphY !in RenamedEntries(subs[k].graph, RenAt(cfg, subs, k))[j].1.inputs
  {
    RenamedEntriesReadEncodedTarget(subs[k].graph, RenAt(cfg, subs, k));
  }

  /* ---------------- The loops ---------------- */

  /** The start of one round of the outer loop: the alias looked up, the
      counter and the prefix chosen, the target candidate and the fed node
      found in the compute order. */
  method PrepareRenaming(cfg: Config, used: seq<string>, p: SubPipeline)
    returns (err: Option<string>, ren: Renaming, candidate: Option<Ref>)
    requires WellFormedSub(p)
    ensures err == SubError(p, cfg.aliases)
    ensures err.None? ==> |p.graph| > 0 && |p.computeOrder| > 0
                          && ren == RenamingFor(cfg, used, p) && candidate == Candidate(cfg, p, ren)
  {
    ren, candidate := Renaming("", None, false, None, ""), None;
    var idx := OccurrenceIdx(used, p.name);
    var alias: Option<string> := None;
    if |cfg.aliases| > 0 {
      if p.name !in cfg.aliases {
        return Some(KeyError(p.name)), ren, candidate;
      }
      alias := Some(cfg.aliases[p.name]);
    }
    var prefix := if alias.Some? && alias.value != "" then alias.value else p.name;
    if |p.computeOrder| == 0 {
      return Some(INDEX_ERROR), ren, candidate;
    }
    var last := p.computeOrder[|p.computeOrder| - 1];
    candidate := if cfg.modifiesTarget(last) then Some(Out(RenamedName(prefix, idx, last), YSlot)) else None;
    var firstX := p.computeOrder[0];
    if firstX == LABEL_ENCODER {
      if |p.computeOrder| == 1 {
        return Some(INDEX_ERROR), ren, candidate;
      }
      firstX := p.computeOrder[1];
    }
    NoErrorHasNodes(p, cfg.aliases);
    err, ren := None, Renaming(prefix, idx, cfg.classification, cfg.priorX, firstX);
  }

  /** One round of the outer loop: one sub-pipeline copied into the graph. */
  method CopyOne(cfg: Config, used: seq<string>, p: SubPipeline, graph: Graph, params: ParamsDict, finals: seq<string>)
    returns (err: Option<string>, graph': Graph, params': ParamsDict, finals': seq<string>, finalY: Ref, candidate: Option<Ref>)
    requires WellFormedSub(p)
    ensures err == SubError(p, cfg.aliases)
    ensures err.None? ==>
              && |p.graph| > 0 && |p.computeOrder| > 0
              && var ren := RenamingFor(cfg, used, p);
              && graph' == SetAll(graph, RenamedEntries(p.graph, ren))
              && params' == CopiedParams(params, p.graph, ren, p.parameters)
              && finals' == finals + [RenamedName(ren.prefix, ren.idx, LastKey(p.graph))]
              && finalY == LastYRef(p.graph, ren)
              && candidate == Candidate(cfg, p, ren)
  {
    var ren;
    err, ren, candidate := PrepareRenaming(cfg, used, p);
    graph', params', finals', finalY := graph, params, finals, GraphY;
    if err.None? {
      graph', params', finalY := CopySubPipeline(graph, params, p.graph, ren, p.parameters);
      finals' := finals + [RenamedName(ren.prefix, ren.idx, LastKey(p.graph))];
    }
  }

  /** The state after the first `k` rounds of the outer loop, in closed
      form; `candidate` or else `finalY` is the last round's `final_y`. */
  ghost predicate SubsDone(cfg: Config, g0: Graph, parameters: ParamsDict, subs: seq<SubPipeline>, cs: seq<Copy>,
                           k: nat, used: seq<string>, graph: Graph, params: ParamsDict, finals: seq<string>,
                           finalY: Ref, candidate: Option<Ref>)
  {
    && k <= |subs| && k <= |cs|
    && FirstSubError(subs[..k], cfg.aliases).None? && used == NamesOf(subs[..k])
    && graph == GraphAfter(g0, cs[..k]) && params == ParamsAfter(parameters, cs[..k]) && finals == FinalsOf(cs[..k])
    && (k > 0 ==> |subs[k - 1].computeOrder| > 0
                  && (if candidate.Some? then candidate.value else finalY) == FinalY(cfg, subs[k - 1], cs[k - 1].ren))
  }

  /** One round of the outer loop: the rounds before it done, the rounds up
      to and including it done unless it raises, and then the exception is
      the first one over all the sub-pipelines. */
  method CopyRound(cfg: Config, g0: Graph, parameters: ParamsDict, subs: seq<SubPipeline>, ghost cs: seq<Copy>, k: nat,
                   used: seq<string>, graph: Graph, params: ParamsDict, finals: seq<string>,
                   ghost finalY: Ref, ghost candidate: Option<Ref>)
    returns (err: Option<string>, graph': Graph, params': ParamsDict, finals': seq<string>,
             finalY': Ref, candidate': Option<Ref>)
    requires k < |subs| && WellFormedSub(subs[k])
    requires k < |cs| && cs[k] == Copy(subs[k].graph, RenAt(cfg, subs, k), subs[k].parameters)
    requires SubsDone(cfg, g0, parameters, subs, cs, k, used, graph, params, finals, finalY, candidate)
    ensures err == SubError(subs[k], cfg.aliases)
    ensures err.Some? ==> err == FirstSubError(subs, cfg.aliases)
    ensures err.None? ==> SubsDone(cfg, g0, parameters, subs, cs, k + 1, used + [subs[k].name],
                                   graph', params', finals', finalY', candidate')
  {
    err, graph', params', finals', finalY', candidate' := CopyOne(cfg, used, subs[k], graph, params, finals);
    FirstSubErrorStep(subs, cfg.aliases, k);
    if err.Some? {
      FirstSubErrorExtends(subs, cfg.aliases, k + 1);
    } else {
      CopiesStep(g0, parameters, cs, k);
      FinalsOfStep(cs, k);
      NamesOfStep(subs, k);
    }
  }

  /** After the last round: no exception, and the state is that of all the rounds. */
  lemma AllSubsDone(cfg: Config, g0: Graph, parameters: ParamsDict, subs: seq<SubPipeline>,
                    used: seq<string>, graph: Graph, params: ParamsDict, finals: seq<string>,
                    finalY: Ref, candidate: Option<Ref>)
    requires SubsDone(cfg, g0, parameters, subs, Copies(cfg, subs), |subs|, used, graph, params, finals, finalY, candidate)
    ensures FirstSubError(subs, cfg.aliases).None?
    ensures var cs := Copies(cfg, subs);
            && graph == GraphAfter(g0, cs) && params == ParamsAfter(parameters, cs) && finals == FinalsOf(cs)
            && (|subs| > 0 ==> |subs[|subs| - 1].computeOrder| > 0
                               && (if candidate.Some? then candidate.value else finalY)
                                  == FinalY(cfg, subs[|subs| - 1], cs[|subs| - 1].ren))
  {
    var cs := Copies(cfg, subs);
    assert subs[..|subs|] == subs && cs[..|subs|] == cs;
  }

  /** The outer loop of `_make_pipeline_from_multiple_graphs`: each
      sub-pipeline copied into the graph in turn, stopping at the first
      exception. */
  method CopySubPipelines(cfg: Config, g0: Graph, parameters: ParamsDict, subs: seq<SubPipeline>)
    returns (err: Option<string>, graph: Graph, params: ParamsDict, finals: seq<string>, finalY: Ref)
    requires forall k :: 0 <= k < |subs| ==> WellFormedSub(subs[k])
    ensures err == FirstSubError(subs, cfg.aliases)
    ensures err.None? ==> var cs := Copies(cfg, subs);
                          graph == GraphAfter(g0, cs) && params == ParamsAfter(parameters, cs) && finals == FinalsOf(cs)
    ensures err.None? && |subs| > 0 ==>
              |subs[|subs| - 1].computeOrder| > 0 && finalY == FinalY(cfg, subs[|subs| - 1], Copies(cfg, subs)[|subs| - 1].ren)
  {
    err, graph, params, finals, finalY := None, g0, parameters, [], GraphY;
    ghost var cs := Copies(cfg, subs);
    var used: seq<string> := [];
    var candidate: Option<Ref> := None;
    var k := 0;
    while k < |subs|
      invariant SubsDone(cfg, g0, parameters, subs, cs, k, used, graph, params, finals, finalY, candidate)
    {
      var e;
      CopiesAt(cfg, subs, k);
      e, graph, params, finals, finalY, candidate :=
        CopyRound(cfg, g0, parameters, subs, cs, k, used, graph, params, finals, finalY, candidate);
      if e.Some? {
        return e, graph, params, finals, finalY;
      }
      used := used + [subs[k].name];
      k := k + 1;
    }
    AllSubsDone(cfg, g0, parameters, subs, used, graph, params, finals, finalY, candidate);
    if candidate.Some? {
      finalY := candidate.value;
    }
  }

  /** The components after the split wired to the sub-pipelines' outputs
      and merged into the graph, and the estimator's inputs chosen. */
  method AttachPost(graph: Graph, post: Graph, finals: seq<string>, finalY: Ref)
    returns (graph': Graph, estimatorInputs: seq<Ref>)
    ensures graph' == WithPost(graph, post, finals, finalY)
    ensures estimatorInputs == EstimatorInputs(post, finals, finalY)
  {
    graph' := graph;
    estimatorInputs := XOutputs(finals) + [finalY];
    if |post| > 0 {
      var first := post[0].0;
      var post' := Set(post, first, Node(first, XOutputs(finals) + [finalY]));
      graph' := Update(graph', post');
      var lastPre := post'[|post'| - 1].0;
      assert lastPre == post[|post| - 1].0 by {
        assert post[0].0 == KeysOf(post)[0];
        assert KeysOf(post') == KeysOf(post);
        assert lastPre == KeysOf(post')[|post'| - 1];
      }
      if lastPre != "" {
        estimatorInputs := [Out(lastPre, XSlot), Out(lastPre, YSlot)];
      }
    }
  }

  /** `_make_pipeline_from_multiple_graphs`. */
  method MakePipelineFromMultipleGraphs(pt: ProblemType, subs: seq<SubPipeline>, estimator: string,
                                        parameters: ParamsDict, pipelineName: Option<string>,
                                        aliases: map<string, string>, pre: Graph, post: Graph, seed: int,
                                        modifiesTarget: string -> bool)
    returns (r: Result<Pipeline, string>)
    requires forall k :: 0 <= k < |subs| ==> WellFormedSub(subs[k])
    ensures r == MergeGraphs(pt, subs, estimator, parameters, pipelineName, aliases, pre, post, seed, modifiesTarget)
  {
    var cfg := ConfigFor(pt, aliases, pre, modifiesTarget);
    var err, graph, params, finals, finalY := CopySubPipelines(cfg, InitialGraph(pt, pre), parameters, subs);
    if err.Some? {
      r := Failure(err.value);
    } else if |subs| == 0 {
      r := Failure(UNBOUND_ERROR);
    } else {
      CopiesAt(cfg, subs, |subs| - 1);
      r := Assemble(pt, estimator, pipelineName, post, seed, graph, params, finals, finalY);
    }
  }

  /** The end of `_make_pipeline_from_multiple_graphs`, after the outer loop. */
  method Assemble(pt: ProblemType, estimator: string, pipelineName: Option<string>, post: Graph, seed: int,
                  graph: Graph, params: ParamsDict, finals: seq<string>, finalY: Ref)
    returns (r: Result<Pipeline, string>)
    ensures r == Assembled(pt, estimator, pipelineName, post, seed, graph, params, finals, finalY)
  {
    var graph', estimatorInputs := AttachPost(graph, post, finals, finalY);
    graph' := Set(graph', estimator, Node(estimator, estimatorInputs));
    if pt.MultiseriesTimeSeriesRegression? {
      r := Failure(MULTISERIES_KEY_ERROR);
    } else {
      r := Success(Pipeline(pt, graph', params, pipelineName, seed));
    }
  }
}
