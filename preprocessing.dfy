/** The preprocessing selector: rule functions that each propose zero or one
    component, run in a fixed order chosen by the problem type, filtered by a
    list of excluded featurizer names. */
module Preprocessing {
  import opened Wrappers
  import opened ProblemTypes
  import opened Seqs

  /* ---------------- Inputs ---------------- */

  datatype LogicalType =
    | Age | AgeFractional | AgeNullable | Boolean | BooleanNullable | Categorical
    | CountryCode | Datetime | Double | EmailAddress | Integer | IntegerNullable
    | IPAddress | LatLong | NaturalLanguage | Ordinal | PersonFullName | PhoneNumber
    | PostalCode | SubRegionCode | Timedelta | URL | Unknown

  datatype SemanticTag = IndexTag | CategoryTag | NumericTag | TimeIndexTag | OtherTag(name: string)

  /** One column of the feature schema: its logical type, its semantic tags,
      and whether every value in it is null. */
  datatype Column = Column(logicalType: LogicalType, tags: set<SemanticTag>, allNull: bool)

  datatype ModelFamily =
    | Arima | BaselineFamily | CatBoost | DecisionTree | Ensemble | ExponentialSmoothing
    | ExtraTrees | KNeighbors | LightGBM | LinearModel | NoFamily | Prophet
    | RandomForest | SVM | VowpalWabbit | XGBoost

  /** The estimator class: its display name, model family and whether it
      cannot handle NaN values. */
  datatype Estimator = Estimator(name: string, family: ModelFamily, unableToHandleNaNs: bool)

  /** The frequency and periodicity inference the decomposer rule consults:
      the inferred frequency of the time index (if any), the decomposer's
      frequency-validity test, and its periodicity detector (given the
      relative maximum order, it yields a seasonal period or none). */
  datatype DecomposerOracle = DecomposerOracle(
    freq: Option<string>,
    isFreqValid: string -> bool,
    determinePeriodicity: nat -> Option<int>)

  datatype SelectInputs = SelectInputs(
    columns: seq<Column>,
    problemType: ProblemType,
    estimator: Estimator,
    sampler: Option<string>,
    decomposer: DecomposerOracle)

  const DECOMPOSER_PERIOD_CAP: int := 1000

  /* ---------------- Components and rules ---------------- */

  datatype Component =
    | LabelEncoder | DropNullColumns | DropColumns | URLFeaturizer | EmailFeaturizer
    | DateTimeFeaturizer | NaturalLanguageFeaturizer | Imputer | OneHotEncoder
    | OrdinalEncoder | Undersampler | Oversampler | StandardScaler
    | TimeSeriesFeaturizer | STLDecomposer | DropNaNRowsTransformer
    | SelectColumns | DFSTransformer | EstimatorStep(estimator: Estimator)

  /** One rule function per constructor. */
  datatype Rule =
    | LabelEncoderRule | DropAllNullRule | DropIndexUnknownRule | UrlRule | EmailRule
    | DatetimeRule | NaturalLanguageRule | ImputerRule | OrdinalEncoderRule
    | OneHotEncoderRule | SamplerRule | StandardScalerRule | TimeSeriesFeaturizerRule
    | DecomposerRule | DropNaNRowsRule

  predicate HasAllNullFeatureColumn(cols: seq<Column>)
  {
    exists c :: c in cols && IndexTag !in c.tags && c.logicalType != Unknown && c.allNull
  }

  predicate HasIndexOrUnknownColumn(cols: seq<Column>)
  {
    exists c :: c in cols && (IndexTag in c.tags || c.logicalType == Unknown)
  }

  predicate HasLogicalType(cols: seq<Column>, lt: LogicalType)
  {
    exists c :: c in cols && c.logicalType == lt
  }

  /** Columns the one-hot encoder handles: category-tagged, URL or email. */
  predicate HasCategoryLikeColumn(cols: seq<Column>)
  {
    exists c :: c in cols && (CategoryTag in c.tags || c.logicalType == URL || c.logicalType == EmailAddress)
  }

  const IMPUTABLE_TYPES: set<LogicalType> :=
    {AgeNullable, Boolean, BooleanNullable, Categorical, Double, Integer, IntegerNullable,
     URL, EmailAddress, Datetime}

  predicate NeedsImputer(cols: seq<Column>)
  {
    (exists c :: c in cols && c.logicalType in IMPUTABLE_TYPES) || HasLogicalType(cols, NaturalLanguage)
  }

  predicate IsCatBoost(e: Estimator)
  {
    e.name == "CatBoost Classifier" || e.name == "CatBoost Regressor"
  }

  /** Python truthiness of `sampler_name`: given and not empty. */
  predicate SamplerGiven(inp: SelectInputs)
  {
    inp.sampler.Some? && inp.sampler.value != ""
  }

  /** The relative maximum order handed to the periodicity detector. */
  function RelMaxOrder(freq: string): nat
  {
    if 'Q' in freq then 3 else 5
  }

  predicate DecomposerApplies(inp: SelectInputs)
  {
    var pt := inp.problemType;
    IsTimeSeries(pt) && IsRegression(pt) &&
    (IsMultiseries(pt) ||
     (inp.decomposer.freq.Some? &&
      inp.decomposer.isFreqValid(inp.decomposer.freq.value) &&
      var period := inp.decomposer.determinePeriodicity(RelMaxOrder(inp.decomposer.freq.value));
      period.Some? && period.value <= DECOMPOSER_PERIOD_CAP))
  }

  /** Which rule proposes a component (none for components added elsewhere). */
  function ProducerOf(c: Component): Option<Rule>
  {
    match c
    case LabelEncoder => Some(LabelEncoderRule)
    case DropNullColumns => Some(DropAllNullRule)
    case DropColumns => Some(DropIndexUnknownRule)
    case URLFeaturizer => Some(UrlRule)
    case EmailFeaturizer => Some(EmailRule)
    case DateTimeFeaturizer => Some(DatetimeRule)
    case NaturalLanguageFeaturizer => Some(NaturalLanguageRule)
    case Imputer => Some(ImputerRule)
    case OneHotEncoder => Some(OneHotEncoderRule)
    case OrdinalEncoder => Some(OrdinalEncoderRule)
    case Undersampler => Some(SamplerRule)
    case Oversampler => Some(SamplerRule)
    case StandardScaler => Some(StandardScalerRule)
    case TimeSeriesFeaturizer => Some(TimeSeriesFeaturizerRule)
    case STLDecomposer => Some(DecomposerRule)
    case DropNaNRowsTransformer => Some(DropNaNRowsRule)
    case SelectColumns => None
    case DFSTransformer => None
    case EstimatorStep(_) => None
  }

  function OneIf(b: bool, c: Component): seq<Component>
  {
    if b then [c] else []
  }

  /** The component a rule other than the sampler rule proposes. */
  function RuleComponent(rule: Rule): (c: Component)
    requires rule != SamplerRule
    ensures ProducerOf(c) == Some(rule)
  {
    match rule
    case LabelEncoderRule => LabelEncoder
    case DropAllNullRule => DropNullColumns
    case DropIndexUnknownRule => DropColumns
    case EmailRule => EmailFeaturizer
    case UrlRule => URLFeaturizer
    case DatetimeRule => DateTimeFeaturizer
    case NaturalLanguageRule => NaturalLanguageFeaturizer
    case ImputerRule => Imputer
    case OneHotEncoderRule => OneHotEncoder
    case OrdinalEncoderRule => OrdinalEncoder
    case StandardScalerRule => StandardScaler
    case TimeSeriesFeaturizerRule => TimeSeriesFeaturizer
    case DecomposerRule => STLDecomposer
    case DropNaNRowsRule => DropNaNRowsTransformer
  }

  /** When a rule other than the sampler rule proposes its component. */
  predicate RuleApplies(rule: Rule, inp: SelectInputs)
    requires rule != SamplerRule
  {
    var cols := inp.columns;
    match rule
    case LabelEncoderRule => IsClassification(inp.problemType)
    case DropAllNullRule => HasAllNullFeatureColumn(cols)
    case DropIndexUnknownRule => HasIndexOrUnknownColumn(cols)
    case EmailRule => HasLogicalType(cols, EmailAddress)
    case UrlRule => HasLogicalType(cols, URL)
    case DatetimeRule => HasLogicalType(cols, Datetime) && inp.estimator.family !in {Arima, Prophet}
    case NaturalLanguageRule => HasLogicalType(cols, NaturalLanguage)
    case ImputerRule => NeedsImputer(cols)
    case OneHotEncoderRule => HasCategoryLikeColumn(cols) && !IsCatBoost(inp.estimator)
    case OrdinalEncoderRule => HasLogicalType(cols, Ordinal)
    case StandardScalerRule => inp.estimator.family == LinearModel
    case TimeSeriesFeaturizerRule => IsTimeSeries(inp.problemType)
    case DecomposerRule => DecomposerApplies(inp)
    case DropNaNRowsRule => IsTimeSeries(inp.problemType) && (inp.estimator.unableToHandleNaNs || SamplerGiven(inp))
  }

  /** Run one rule. Only the sampler rule can fail: an unknown sampler name is
      a failed dictionary lookup. */
  function ApplyRule(rule: Rule, inp: SelectInputs): (r: Result<seq<Component>, string>)
    ensures r.Failure? <==> rule == SamplerRule && inp.sampler.Some?
                            && inp.sampler.value != "Undersampler" && inp.sampler.value != "Oversampler"
    ensures r.Success? ==> |r.value| <= 1 && forall c :: c in r.value ==> ProducerOf(c) == Some(rule)
  {
    if rule == SamplerRule then
      match inp.sampler
      case None => Success([])
      case Some(name) =>
        if name == "Undersampler" then Success([Undersampler])
        else if name == "Oversampler" then Success([Oversampler])
        else Failure(KeyError(name))
    else Success(OneIf(RuleApplies(rule, inp), RuleComponent(rule)))
  }

  /** The name under which a rule can be excluded, for the five featurizer rules. */
  function FeaturizerName(rule: Rule): Option<string>
  {
    match rule
    case DatetimeRule => Some("DatetimeFeaturizer")
    case EmailRule => Some("EmailFeaturizer")
    case UrlRule => Some("URLFeaturizer")
    case NaturalLanguageRule => Some("NaturalLanguageFeaturizer")
    case TimeSeriesFeaturizerRule => Some("TimeSeriesFeaturizer")
    case _ => None
  }

  predicate Excluded(rule: Rule, exclude: seq<string>)
  {
    FeaturizerName(rule).Some? && FeaturizerName(rule).value in exclude
  }

  /** The rule order of each problem-type branch. */
  function RuleOrder(pt: ProblemType, includeDecomposer: bool): seq<Rule>
  {
    if IsMultiseries(pt) then
      (if includeDecomposer then [DecomposerRule] else [])
    else if IsTimeSeries(pt) then
      [LabelEncoderRule, DropAllNullRule, DropIndexUnknownRule, UrlRule, EmailRule,
       NaturalLanguageRule, ImputerRule, TimeSeriesFeaturizerRule]
      + (if includeDecomposer then [DecomposerRule] else [])
      + [DatetimeRule, OrdinalEncoderRule, OneHotEncoderRule, DropNaNRowsRule, SamplerRule,
         StandardScalerRule]
    else
      [LabelEncoderRule, DropAllNullRule, DropIndexUnknownRule, UrlRule, EmailRule,
       DatetimeRule, NaturalLanguageRule, ImputerRule, OrdinalEncoderRule, OneHotEncoderRule,
       SamplerRule, StandardScalerRule]
  }

  /** What a rule adds when the selector reaches it (nothing if it is excluded). */
  function Contribution(rule: Rule, inp: SelectInputs, exclude: seq<string>): (cs: seq<Component>)
    ensures |cs| <= 1 && forall c :: c in cs ==> ProducerOf(c) == Some(rule)
  {
    if Excluded(rule, exclude) then []
    else match ApplyRule(rule, inp)
      case Success(cs) => cs
      case Failure(_) => []
  }

  /** A rule other than the sampler rule contributes its component exactly
      when it is not excluded and its condition holds. */
  lemma ContributionOf(rule: Rule, inp: SelectInputs, exclude: seq<string>)
    requires rule != SamplerRule
    ensures RuleComponent(rule) in Contribution(rule, inp, exclude) <==> !Excluded(rule, exclude) && RuleApplies(rule, inp)
  {
  }

  /** Running the rules left to right, extending the component list; the first
      failing rule aborts the selection. */
  function SelectOver(rules: seq<Rule>, inp: SelectInputs, exclude: seq<string>): Result<seq<Component>, string>
    decreases |rules|
  {
    if |rules| == 0 then Success([])
    else
      match SelectOver(rules[..|rules| - 1], inp, exclude)
      case Failure(e) => Failure(e)
      case Success(prev) =>
        var rule := rules[|rules| - 1];
        if Excluded(rule, exclude) then Success(prev)
        else match ApplyRule(rule, inp)
          case Failure(e) => Failure(e)
          case Success(cs) => Success(prev + cs)
  }

  /** `_get_preprocessing_components` as a function of its inputs. */
  function PreprocessingComponents(inp: SelectInputs, exclude: seq<string>, includeDecomposer: bool)
    : Result<seq<Component>, string>
  {
    if IsMultiseries(inp.problemType) && !includeDecomposer then Success([])
    else SelectOver(RuleOrder(inp.problemType, includeDecomposer), inp, exclude)
  }

  /* ---------------- The selector loop ---------------- */

  lemma {:induction false} FailureExtends(rules: seq<Rule>, k: nat, inp: SelectInputs, exclude: seq<string>)
    requires k <= |rules|
    requires SelectOver(rules[..k], inp, exclude).Failure?
    ensures SelectOver(rules, inp, exclude) == SelectOver(rules[..k], inp, exclude)
    decreases |rules| - k
  {
    if k < |rules| {
      assert rules[..k + 1][..k] == rules[..k];
      FailureExtends(rules, k + 1, inp, exclude);
    } else {
      assert rules[..k] == rules;
    }
  }

  method GetPreprocessingComponents(inp: SelectInputs, exclude: seq<string>, includeDecomposer: bool)
    returns (r: Result<seq<Component>, string>)
    ensures r == PreprocessingComponents(inp, exclude, includeDecomposer)
  {
    if IsMultiseries(inp.problemType) && !includeDecomposer {
      return Success([]);
    }
    var functions := RuleOrder(inp.problemType, includeDecomposer);
    var components: seq<Component> := [];
    var i := 0;
    while i < |functions|
      invariant 0 <= i <= |functions|
      invariant SelectOver(functions[..i], inp, exclude) == Success(components)
    {
      var rule := functions[i];
      assert functions[..i + 1][..i] == functions[..i];
      if !Excluded(rule, exclude) {
        var found := ApplyRule(rule, inp);
        if found.Failure? {
          FailureExtends(functions, i + 1, inp, exclude);
          return Failure(found.error);
        }
        components := components + found.value;
      }
      i := i + 1;
    }
    assert functions[..i] == functions;
    return Success(components);
  }

  /* ---------------- Properties of the selection ---------------- */

  /** The selection fails exactly when the sampler rule is reached with an
      unknown sampler name. */
  lemma {:induction false} SelectOverFailure(rules: seq<Rule>, inp: SelectInputs, exclude: seq<string>)
    ensures SelectOver(rules, inp, exclude).Failure? <==>
            exists k :: 0 <= k < |rules| && !Excluded(rules[k], exclude) && ApplyRule(rules[k], inp).Failure?
    decreases |rules|
  {
    if |rules| > 0 {
      var init := rules[..|rules| - 1];
      SelectOverFailure(init, inp, exclude);
      forall k | 0 <= k < |init| ensures init[k] == rules[k] { }
    }
  }

  /** Which components the selection contains: those that some reached rule adds. */
  lemma {:induction false} SelectOverMembers(rules: seq<Rule>, inp: SelectInputs, exclude: seq<string>)
    requires SelectOver(rules, inp, exclude).Success?
    ensures forall c :: c in SelectOver(rules, inp, exclude).value <==>
              exists k :: 0 <= k < |rules| && c in Contribution(rules[k], inp, exclude)
    decreases |rules|
  {
    if |rules| > 0 {
      var init := rules[..|rules| - 1];
      SelectOverMembers(init, inp, exclude);
      forall k | 0 <= k < |init| ensures init[k] == rules[k] { }
    }
  }

  predicate AllRuleComponents(cs: seq<Component>)
  {
    forall i :: 0 <= i < |cs| ==> ProducerOf(cs[i]).Some?
  }

  function Producers(cs: seq<Component>): (rs: seq<Rule>)
    requires AllRuleComponents(cs)
    ensures |rs| == |cs| && forall i :: 0 <= i < |cs| ==> rs[i] == ProducerOf(cs[i]).value
  {
    if |cs| == 0 then [] else Producers(cs[..|cs| - 1]) + [ProducerOf(cs[|cs| - 1]).value]
  }

  /** One step of the selection: a successful run over `rules` extends the
      run over all but the last rule by that rule's contribution. */
  lemma SelectOverStep(rules: seq<Rule>, inp: SelectInputs, exclude: seq<string>)
    requires |rules| > 0 && SelectOver(rules, inp, exclude).Success?
    ensures SelectOver(rules[..|rules| - 1], inp, exclude).Success?
    ensures SelectOver(rules, inp, exclude).value ==
            SelectOver(rules[..|rules| - 1], inp, exclude).value + Contribution(rules[|rules| - 1], inp, exclude)
  {
  }

  /** The rules that produced the selection appear in rule order. */
  lemma {:induction false} SelectOverInRuleOrder(rules: seq<Rule>, inp: SelectInputs, exclude: seq<string>)
    requires SelectOver(rules, inp, exclude).Success?
    ensures AllRuleComponents(SelectOver(rules, inp, exclude).value)
    ensures IsSubsequence(Producers(SelectOver(rules, inp, exclude).value), rules)
    decreases |rules|
  {
    if |rules| > 0 {
      var init := rules[..|rules| - 1];
      var rule := rules[|rules| - 1];
      SelectOverStep(rules, inp, exclude);
      SelectOverInRuleOrder(init, inp, exclude);
      var prev := SelectOver(init, inp, exclude).value;
      var added := Contribution(rule, inp, exclude);
      var cs := SelectOver(rules, inp, exclude).value;
      assert cs == prev + added;
      if |added| == 0 {
        assert cs == prev;
        assert IsSubsequence(Producers(cs), init);
      } else {
        assert cs[..|cs| - 1] == prev;
        assert ProducerOf(cs[|cs| - 1]) == Some(rule);
        assert Producers(cs) == Producers(prev) + [rule];
        assert Producers(cs)[..|cs| - 1] == Producers(prev);
      }
    }
  }

  lemma RuleOrderDistinct(pt: ProblemType, includeDecomposer: bool)
    ensures Distinct(RuleOrder(pt, includeDecomposer))
  {
  }

  /** The selector's output follows the fixed rule order of its problem-type
      branch and never lists a component twice. */
  lemma SelectionOrderedAndDistinct(inp: SelectInputs, exclude: seq<string>, includeDecomposer: bool)
    requires PreprocessingComponents(inp, exclude, includeDecomposer).Success?
    ensures var cs := PreprocessingComponents(inp, exclude, includeDecomposer).value;
            AllRuleComponents(cs)
            && IsSubsequence(Producers(cs), RuleOrder(inp.problemType, includeDecomposer))
            && Distinct(cs)
  {
    var order := RuleOrder(inp.problemType, includeDecomposer);
    var cs := PreprocessingComponents(inp, exclude, includeDecomposer).value;
    if IsMultiseries(inp.problemType) && !includeDecomposer {
      assert cs == [];
    } else {
      SelectOverInRuleOrder(order, inp, exclude);
      RuleOrderDistinct(inp.problemType, includeDecomposer);
      SubsequenceDistinct(Producers(cs), order);
      forall i, j | 0 <= i < j < |cs| ensures cs[i] != cs[j] {
        assert Producers(cs)[i] != Producers(cs)[j];
      }
    }
  }

  /** The selection fails only for an unknown sampler name outside the
      multiseries branch. */
  lemma SelectionFailsIff(inp: SelectInputs, exclude: seq<string>, includeDecomposer: bool)
    ensures PreprocessingComponents(inp, exclude, includeDecomposer).Failure? <==>
            !IsMultiseries(inp.problemType) && inp.sampler.Some?
            && inp.sampler.value != "Undersampler" && inp.sampler.value != "Oversampler"
  {
    var order := RuleOrder(inp.problemType, includeDecomposer);
    if !(IsMultiseries(inp.problemType) && !includeDecomposer) {
      SelectOverFailure(order, inp, exclude);
      if !IsMultiseries(inp.problemType) {
        assert SamplerRule in order;
      }
    }
  }

  /** Which rules each problem-type branch runs: the multiseries branch only
      the decomposer rule (when asked for), the time series branch every rule,
      the decomposer rule only when asked for, and the other branch every rule
      but the time series featurizer, decomposer and NaN-row rules. */
  lemma RuleOrderMembers(pt: ProblemType, includeDecomposer: bool, rule: Rule)
    ensures rule in RuleOrder(pt, includeDecomposer) <==>
            if IsMultiseries(pt) then includeDecomposer && rule == DecomposerRule
            else if rule == DecomposerRule then IsTimeSeries(pt) && includeDecomposer
            else if rule == TimeSeriesFeaturizerRule || rule == DropNaNRowsRule then IsTimeSeries(pt)
            else true
  {
  }

  /** A component with a producing rule is selected exactly when that rule is
      in the branch's order and adds it. */
  lemma SelectedIff(inp: SelectInputs, exclude: seq<string>, includeDecomposer: bool, c: Component)
    requires ProducerOf(c).Some?
    requires PreprocessingComponents(inp, exclude, includeDecomposer).Success?
    ensures c in PreprocessingComponents(inp, exclude, includeDecomposer).value <==>
            (!(IsMultiseries(inp.problemType) && !includeDecomposer)
             && ProducerOf(c).value in RuleOrder(inp.problemType, includeDecomposer)
             && c in Contribution(ProducerOf(c).value, inp, exclude))
  {
    var order := RuleOrder(inp.problemType, includeDecomposer);
    if !(IsMultiseries(inp.problemType) && !includeDecomposer) {
      SelectOverMembers(order, inp, exclude);
      var rule := ProducerOf(c).value;
      if c in PreprocessingComponents(inp, exclude, includeDecomposer).value {
        var k :| 0 <= k < |order| && c in Contribution(order[k], inp, exclude);
        assert order[k] == rule;
      }
    }
  }

  /** Multiseries without the decomposer selects nothing; a classification
      selection starts with the label encoder. */
  lemma LabelEncoderFirst(inp: SelectInputs, exclude: seq<string>, includeDecomposer: bool)
    ensures IsMultiseries(inp.problemType) && !includeDecomposer ==>
            PreprocessingComponents(inp, exclude, includeDecomposer) == Success([])
    ensures var r := PreprocessingComponents(inp, exclude, includeDecomposer);
            r.Success? && IsClassification(inp.problemType) ==> |r.value| > 0 && r.value[0] == LabelEncoder
  {
    var r := PreprocessingComponents(inp, exclude, includeDecomposer);
    if r.Success? && IsClassification(inp.problemType) {
      var order := RuleOrder(inp.problemType, includeDecomposer);
      assert order[0] == LabelEncoderRule;
      assert Contribution(LabelEncoderRule, inp, exclude) == [LabelEncoder];
      SelectedIff(inp, exclude, includeDecomposer, LabelEncoder);
      SelectionOrderedAndDistinct(inp, exclude, includeDecomposer);
      var cs := r.value;
      var k :| 0 <= k < |cs| && cs[k] == LabelEncoder;
      assert Producers(cs)[k] == order[0];
      RuleOrderDistinct(inp.problemType, includeDecomposer);
      HeadOfSubsequence(Producers(cs), order, k);
    }
  }

  /** Outside classification the label encoder never appears. */
  lemma NoLabelEncoderOutsideClassification(inp: SelectInputs, exclude: seq<string>, includeDecomposer: bool)
    requires !IsClassification(inp.problemType)
    requires PreprocessingComponents(inp, exclude, includeDecomposer).Success?
    ensures LabelEncoder !in PreprocessingComponents(inp, exclude, includeDecomposer).value
  {
    assert Contribution(LabelEncoderRule, inp, exclude) == [];
    SelectedIff(inp, exclude, includeDecomposer, LabelEncoder);
  }

  /** In a subsequence of a duplicate-free `b`, the first element of `b` can
      only occur first. */
  lemma {:induction false} HeadOfSubsequence(a: seq<Rule>, b: seq<Rule>, k: nat)
    requires IsSubsequence(a, b) && Distinct(b) && k < |a| && |b| > 0 && a[k] == b[0]
    ensures k == 0
    decreases |b|
  {
    var a', b' := a[..|a| - 1], b[..|b| - 1];
    assert Distinct(b');
    if a[|a| - 1] == b[|b| - 1] && IsSubsequence(a', b') {
      if k < |a| - 1 {
        assert |b'| > 0;
        assert a'[k] == b'[0];
        HeadOfSubsequence(a', b', k);
      } else {
        assert |b| == 1;
        assert |a'| == 0;
      }
    } else {
      assert |b'| > 0;
      HeadOfSubsequence(a, b', k);
    }
  }

  /* ---------------- Gating rules ---------------- */

  /** A rule other than the sampler rule gets its component selected exactly
      when its branch runs it, it is not excluded and its condition holds. */
  lemma RuleGate(inp: SelectInputs, exclude: seq<string>, includeDecomposer: bool, rule: Rule)
    requires rule != SamplerRule
    requires PreprocessingComponents(inp, exclude, includeDecomposer).Success?
    ensures RuleComponent(rule) in PreprocessingComponents(inp, exclude, includeDecomposer).value <==>
            !(IsMultiseries(inp.problemType) && !includeDecomposer)
            && rule in RuleOrder(inp.problemType, includeDecomposer)
            && !Excluded(rule, exclude) && RuleApplies(rule, inp)
  {
    SelectedIff(inp, exclude, includeDecomposer, RuleComponent(rule));
    ContributionOf(rule, inp, exclude);
  }

  /** The one-hot encoder is selected exactly when category-like columns exist
      and the estimator is not CatBoost (outside the multiseries branch). */
  lemma OneHotEncoderGate(inp: SelectInputs, exclude: seq<string>, includeDecomposer: bool)
    requires PreprocessingComponents(inp, exclude, includeDecomposer).Success?
    ensures OneHotEncoder in PreprocessingComponents(inp, exclude, includeDecomposer).value <==>
            !IsMultiseries(inp.problemType) && HasCategoryLikeColumn(inp.columns) && !IsCatBoost(inp.estimator)
  {
    RuleOrderMembers(inp.problemType, includeDecomposer, OneHotEncoderRule);
    RuleGate(inp, exclude, includeDecomposer, OneHotEncoderRule);
  }

  /** ARIMA and Prophet estimators never get the datetime featurizer, and
      excluding "DatetimeFeaturizer" removes it. */
  lemma DateTimeFeaturizerGate(inp: SelectInputs, exclude: seq<string>, includeDecomposer: bool)
    requires PreprocessingComponents(inp, exclude, includeDecomposer).Success?
    ensures DateTimeFeaturizer in PreprocessingComponents(inp, exclude, includeDecomposer).value <==>
            !IsMultiseries(inp.problemType) && "DatetimeFeaturizer" !in exclude
            && HasLogicalType(inp.columns, Datetime) && inp.estimator.family != Arima
            && inp.estimator.family != Prophet
  {
    RuleOrderMembers(inp.problemType, includeDecomposer, DatetimeRule);
    RuleGate(inp, exclude, includeDecomposer, DatetimeRule);
  }

  /** The standard scaler is selected exactly for linear-model estimators
      (outside the multiseries branch). */
  lemma StandardScalerGate(inp: SelectInputs, exclude: seq<string>, includeDecomposer: bool)
    requires PreprocessingComponents(inp, exclude, includeDecomposer).Success?
    ensures StandardScaler in PreprocessingComponents(inp, exclude, includeDecomposer).value <==>
            !IsMultiseries(inp.problemType) && inp.estimator.family == LinearModel
  {
    RuleOrderMembers(inp.problemType, includeDecomposer, StandardScalerRule);
    RuleGate(inp, exclude, includeDecomposer, StandardScalerRule);
  }

  /** NaN rows are dropped only in single-series time series problems, and only
      when the estimator cannot handle NaNs or a sampler is named. */
  lemma DropNaNRowsGate(inp: SelectInputs, exclude: seq<string>, includeDecomposer: bool)
    requires PreprocessingComponents(inp, exclude, includeDecomposer).Success?
    ensures DropNaNRowsTransformer in PreprocessingComponents(inp, exclude, includeDecomposer).value <==>
            IsTimeSeries(inp.problemType) && !IsMultiseries(inp.problemType)
            && (inp.estimator.unableToHandleNaNs || SamplerGiven(inp))
  {
    RuleOrderMembers(inp.problemType, includeDecomposer, DropNaNRowsRule);
    RuleGate(inp, exclude, includeDecomposer, DropNaNRowsRule);
  }

  /** The decomposer is selected exactly when it is asked for and the problem
      is a multiseries regression, or a time series regression whose inferred
      frequency is valid and whose seasonal period is at most the cap. */
  lemma DecomposerGate(inp: SelectInputs, exclude: seq<string>, includeDecomposer: bool)
    requires PreprocessingComponents(inp, exclude, includeDecomposer).Success?
    ensures STLDecomposer in PreprocessingComponents(inp, exclude, includeDecomposer).value <==>
            includeDecomposer && DecomposerApplies(inp)
  {
    RuleOrderMembers(inp.problemType, includeDecomposer, DecomposerRule);
    RuleGate(inp, exclude, includeDecomposer, DecomposerRule);
  }

  /** The sampler rule adds the sampler it names. */
  lemma SamplerContribution(inp: SelectInputs, exclude: seq<string>)
    ensures Undersampler in Contribution(SamplerRule, inp, exclude) <==> inp.sampler == Some("Undersampler")
    ensures Oversampler in Contribution(SamplerRule, inp, exclude) <==> inp.sampler == Some("Oversampler")
  {
    assert !Excluded(SamplerRule, exclude);
  }

  /** A sampler is selected exactly when it is named (outside the multiseries branch). */
  lemma SamplerGate(inp: SelectInputs, exclude: seq<string>, includeDecomposer: bool)
    requires PreprocessingComponents(inp, exclude, includeDecomposer).Success?
    ensures Undersampler in PreprocessingComponents(inp, exclude, includeDecomposer).value <==>
            !IsMultiseries(inp.problemType) && inp.sampler == Some("Undersampler")
    ensures Oversampler in PreprocessingComponents(inp, exclude, includeDecomposer).value <==>
            !IsMultiseries(inp.problemType) && inp.sampler == Some("Oversampler")
  {
    RuleOrderMembers(inp.problemType, includeDecomposer, SamplerRule);
    SamplerContribution(inp, exclude);
    SelectedIff(inp, exclude, includeDecomposer, Undersampler);
    SelectedIff(inp, exclude, includeDecomposer, Oversampler);
  }

  /** The column-driven cleaning steps. */
  lemma DropColumnGates(inp: SelectInputs, exclude: seq<string>, includeDecomposer: bool)
    requires PreprocessingComponents(inp, exclude, includeDecomposer).Success?
    ensures var cs := PreprocessingComponents(inp, exclude, includeDecomposer).value;
            var single := !IsMultiseries(inp.problemType);
            && (DropNullColumns in cs <==> single && HasAllNullFeatureColumn(inp.columns))
            && (DropColumns in cs <==> single && HasIndexOrUnknownColumn(inp.columns))
  {
    RuleOrderMembers(inp.problemType, includeDecomposer, DropAllNullRule);
    RuleOrderMembers(inp.problemType, includeDecomposer, DropIndexUnknownRule);
    RuleGate(inp, exclude, includeDecomposer, DropAllNullRule);
    RuleGate(inp, exclude, includeDecomposer, DropIndexUnknownRule);
  }

  lemma ImputerAndOrdinalGates(inp: SelectInputs, exclude: seq<string>, includeDecomposer: bool)
    requires PreprocessingComponents(inp, exclude, includeDecomposer).Success?
    ensures var cs := PreprocessingComponents(inp, exclude, includeDecomposer).value;
            var single := !IsMultiseries(inp.problemType);
            && (Imputer in cs <==> single && NeedsImputer(inp.columns))
            && (OrdinalEncoder in cs <==> single && HasLogicalType(inp.columns, Ordinal))
  {
    RuleOrderMembers(inp.problemType, includeDecomposer, ImputerRule);
    RuleOrderMembers(inp.problemType, includeDecomposer, OrdinalEncoderRule);
    RuleGate(inp, exclude, includeDecomposer, ImputerRule);
    RuleGate(inp, exclude, includeDecomposer, OrdinalEncoderRule);
  }

  /** The featurizers that the exclusion list can switch off (besides the
      datetime featurizer). */
  lemma FeaturizerGates(inp: SelectInputs, exclude: seq<string>, includeDecomposer: bool)
    requires PreprocessingComponents(inp, exclude, includeDecomposer).Success?
    ensures var cs := PreprocessingComponents(inp, exclude, includeDecomposer).value;
            var single := !IsMultiseries(inp.problemType);
            && (EmailFeaturizer in cs <==>
                  single && "EmailFeaturizer" !in exclude && HasLogicalType(inp.columns, EmailAddress))
            && (URLFeaturizer in cs <==>
                  single && "URLFeaturizer" !in exclude && HasLogicalType(inp.columns, URL))
  {
    RuleOrderMembers(inp.problemType, includeDecomposer, EmailRule);
    RuleOrderMembers(inp.problemType, includeDecomposer, UrlRule);
    RuleGate(inp, exclude, includeDecomposer, EmailRule);
    RuleGate(inp, exclude, includeDecomposer, UrlRule);
  }

  lemma TextAndTimeSeriesFeaturizerGates(inp: SelectInputs, exclude: seq<string>, includeDecomposer: bool)
    requires PreprocessingComponents(inp, exclude, includeDecomposer).Success?
    ensures var cs := PreprocessingComponents(inp, exclude, includeDecomposer).value;
            var single := !IsMultiseries(inp.problemType);
            && (NaturalLanguageFeaturizer in cs <==>
                  single && "NaturalLanguageFeaturizer" !in exclude
                  && HasLogicalType(inp.columns, NaturalLanguage))
            && (TimeSeriesFeaturizer in cs <==>
                  single && IsTimeSeries(inp.problemType) && "TimeSeriesFeaturizer" !in exclude)
  {
    RuleOrderMembers(inp.problemType, includeDecomposer, NaturalLanguageRule);
    RuleOrderMembers(inp.problemType, includeDecomposer, TimeSeriesFeaturizerRule);
    RuleGate(inp, exclude, includeDecomposer, NaturalLanguageRule);
    RuleGate(inp, exclude, includeDecomposer, TimeSeriesFeaturizerRule);
  }

  /* ---------------- The exclusion list ---------------- */

  /** The rule that an exclusion name switches off. */
  function RuleExcludedBy(name: string): (r: Option<Rule>)
    ensures forall rule :: FeaturizerName(rule) == Some(name) <==> r == Some(rule)
  {
    if name == "DatetimeFeaturizer" then Some(DatetimeRule)
    else if name == "EmailFeaturizer" then Some(EmailRule)
    else if name == "URLFeaturizer" then Some(UrlRule)
    else if name == "NaturalLanguageFeaturizer" then Some(NaturalLanguageRule)
    else if name == "TimeSeriesFeaturizer" then Some(TimeSeriesFeaturizerRule)
    else None
  }

  /** `cs` without the components that `rule` produces. */
  function WithoutProducer(cs: seq<Component>, rule: Rule): seq<Component>
  {
    if |cs| == 0 then []
    else WithoutProducer(cs[..|cs| - 1], rule)
         + (if ProducerOf(cs[|cs| - 1]) == Some(rule) then [] else [cs[|cs| - 1]])
  }

  function ResultWithoutProducer(r: Result<seq<Component>, string>, rule: Rule): Result<seq<Component>, string>
  {
    match r
    case Success(cs) => Success(WithoutProducer(cs, rule))
    case Failure(e) => Failure(e)
  }

  lemma {:induction false} WithoutProducerAppend(a: seq<Component>, b: seq<Component>, rule: Rule)
    ensures WithoutProducer(a + b, rule) == WithoutProducer(a, rule) + WithoutProducer(b, rule)
    decreases |b|
  {
    if |b| > 0 {
      assert (a + b)[..|a + b| - 1] == a + b[..|b| - 1];
      WithoutProducerAppend(a, b[..|b| - 1], rule);
    } else {
      assert a + b == a;
    }
  }

  lemma WithoutProducerOfOne(cs: seq<Component>, producer: Rule, rule: Rule)
    requires |cs| <= 1 && forall c :: c in cs ==> ProducerOf(c) == Some(producer)
    ensures WithoutProducer(cs, rule) == if producer == rule then [] else cs
  {
    if |cs| == 1 {
      assert cs[..0] == [];
    }
  }

  lemma {:induction false} SelectOverExcludeOneMore(rules: seq<Rule>, inp: SelectInputs, exclude: seq<string>, name: string)
    requires RuleExcludedBy(name).Some?
    ensures SelectOver(rules, inp, exclude + [name]) ==
            ResultWithoutProducer(SelectOver(rules, inp, exclude), RuleExcludedBy(name).value)
    decreases |rules|
  {
    if |rules| > 0 {
      var init, rule := rules[..|rules| - 1], rules[|rules| - 1];
      var banned := RuleExcludedBy(name).value;
      SelectOverExcludeOneMore(init, inp, exclude, name);
      assert Excluded(rule, exclude + [name]) <==> Excluded(rule, exclude) || rule == banned;
      match SelectOver(init, inp, exclude)
      case Failure(e) =>
      case Success(prev) =>
        if !Excluded(rule, exclude) {
          match ApplyRule(rule, inp)
          case Failure(e) =>
          case Success(cs) =>
            WithoutProducerAppend(prev, cs, banned);
            WithoutProducerOfOne(cs, rule, banned);
            assert SelectOver(rules, inp, exclude) == Success(prev + cs);
            if rule == banned {
              assert WithoutProducer(prev, banned) + [] == WithoutProducer(prev, banned);
              assert SelectOver(rules, inp, exclude + [name]) == Success(WithoutProducer(prev, banned));
            } else {
              assert SelectOver(rules, inp, exclude + [name]) == Success(WithoutProducer(prev, banned) + cs);
            }
        }
    }
  }

  /** Naming a featurizer in the exclusion list removes exactly the components
      its rule would add and leaves the rest of the selection unchanged. */
  lemma ExclusionRemovesOnlyThatFeaturizer(inp: SelectInputs, exclude: seq<string>, includeDecomposer: bool, name: string)
    requires RuleExcludedBy(name).Some?
    ensures PreprocessingComponents(inp, exclude + [name], includeDecomposer) ==
            ResultWithoutProducer(PreprocessingComponents(inp, exclude, includeDecomposer), RuleExcludedBy(name).value)
  {
    if !(IsMultiseries(inp.problemType) && !includeDecomposer) {
      SelectOverExcludeOneMore(RuleOrder(inp.problemType, includeDecomposer), inp, exclude, name);
    }
  }
}
