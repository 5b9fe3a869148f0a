# evalml pipeline construction utilities, modelled in Dafny

This project models the pipeline-construction core of evalml's
`evalml/pipelines/utils.py` and proves properties of that model. It covers:

- **Preprocessing selector**: the rule-based choice of preprocessing components
  (`_get_preprocessing_components` and its fifteen rule helpers). It also covers
  how the time series component list is adjusted when features are known in
  advance.
- **Data-check action translator**: `_make_component_list_from_actions`,
  `make_pipeline_from_data_check_output` and
  `get_actions_from_option_defaults`.
- **Graph builders**: `_make_pipeline_from_multiple_graphs` and
  `_make_stacked_ensemble_pipeline`. These rename and copy every sub-pipeline's
  component graph into one graph.
- **Baseline pipeline**: `make_timeseries_baseline_pipeline`.
- **Multiseries reshaping**, on column names: `unstack_multiseries`,
  `stack_data` and `stack_X`.

Modules, one per file:

| module | file | what it holds |
|---|---|---|
| `Wrappers` | wrappers.dfy | `Option`, `Result` |
| `Values` | values.dfy | parameter values |
| `Strings` | strings.dfy | decimal rendering of counters, split and join on a separator, string order |
| `Sorting` | sorting.dfy | `sorted(set(...))` as a strictly increasing sequence |
| `Seqs` | seqs.dfy | distinctness, subsequences |
| `ProblemTypes` | problem_types.dfy | problem types and the `is_*` predicates |
| `Preprocessing` | preprocessing.dfy | the selector |
| `TimeSeriesPipelines` | time_series_pipelines.dfy | known-in-advance adjustment, baseline pipeline |
| `DataCheckActions` | data_check_actions.dfy | the action translator |
| `ComponentGraphs` | component_graphs.dfy | component dictionaries (insertion-ordered), node renaming, the shared copy loop |
| `MultipleGraphs` | multiple_graphs.dfy | `_make_pipeline_from_multiple_graphs` |
| `StackedEnsemble` | stacked_ensemble.dfy | `_make_stacked_ensemble_pipeline` |
| `Multiseries` | multiseries.dfy | the multiseries reshaping |

How the model is built:

- The source code works step by step: loops appending to lists and writing
  dictionary entries. Each such function is a `method` with its loops. It is
  proved to return exactly what a specification `function` gives, and the
  source's guarantees are proved as lemmas about that function.
- A Python dictionary of the graphs is a sequence of `(key, node)` pairs with
  Python's assignment semantics: an existing key keeps its place, a new key is
  appended.
- An exception the source raises is a `Failure` carrying the exception's text.

Where the documentation and the code disagree, the model follows the code.

- The selector adds the sampler component whenever a sampler name is given.
  It does so whatever the problem type is, although the sampler is documented
  as classification-only.
- `stack_X` selects each original column's group with a substring test on the
  whole column name (utils.py line 1544). The model keeps that code:
  `Multiseries.StackX` takes a `Selection`, and `Multiseries.RestackColumns`,
  the model of `stack_X`, computes `StackX(BySubstring, ...)`. The base-name
  match that restacking evidently intends is `StackX(ByBaseName, ...)`. The
  unstack-then-stack round trip is proved for the intended selection, and for
  the code as written when no feature occurs inside an unstacked column name
  other than its own; otherwise `stack_X` as written raises. See "## Findings".
- `stack_X` ends by giving the time index column the index of the
  concatenated parts (utils.py line 1555). The time index column has one row
  per row of the frame and series id. The concatenation has one row per row
  and column of the widest group. When these counts differ, pandas raises
  "ValueError: Length mismatch", and the model fails with that error.

## Model

| member | source | states |
|---|---|---|
| Preprocessing.RuleComponent | evalml/pipelines/utils.py:81-272 | every rule other than the sampler rule proposes one component, whose producing rule is that rule |
| Preprocessing.ApplyRule | evalml/pipelines/utils.py:207-216 | running one rule fails exactly for an unknown sampler name (a failed dictionary lookup); otherwise it adds at most one component, produced by that rule |
| Preprocessing.Contribution | evalml/pipelines/utils.py:343-362 | what a rule adds when the selector reaches it is at most one component, produced by that rule |
| Preprocessing.ContributionOf | evalml/pipelines/utils.py:81-272 | a non-sampler rule adds its component exactly when the rule is not excluded and its condition on the columns, estimator and problem type holds |
| Preprocessing.GetPreprocessingComponents | evalml/pipelines/utils.py:275-362 | the selector's loop over the rule functions of the problem-type branch returns what the specification of the selection gives |
| Preprocessing.SelectOverFailure | evalml/pipelines/utils.py:355-362 | running a list of rules fails exactly when the sampler rule is among them and the sampler name is unknown |
| Preprocessing.SelectOverMembers | evalml/pipelines/utils.py:355-362 | a component is selected exactly when some rule in the list adds it |
| Preprocessing.SelectOverInRuleOrder | evalml/pipelines/utils.py:355-362 | the rules that produced the selected components appear in rule order |
| Preprocessing.RuleOrderDistinct | evalml/pipelines/utils.py:300-341 | no problem-type branch lists a rule twice |
| Preprocessing.SelectionOrderedAndDistinct | evalml/pipelines/utils.py:300-362 | the selection follows the branch's rule order and never holds a component twice |
| Preprocessing.SelectionFailsIff | evalml/pipelines/utils.py:300-362 | the selection fails exactly for an unknown sampler name outside the multiseries branch |
| Preprocessing.RuleOrderMembers | evalml/pipelines/utils.py:300-341 | which rules each branch runs: the multiseries branch only the decomposer, when asked for; the time series branch every rule, with the decomposer only when asked for; the other branch every rule except the time series featurizer, the decomposer and the NaN-row dropper |
| Preprocessing.SelectedIff | evalml/pipelines/utils.py:300-362 | a component is selected exactly when its producing rule is in the branch and adds it |
| Preprocessing.LabelEncoderFirst | evalml/pipelines/utils.py:81-85 | a classification selection starts with the label encoder; multiseries without the decomposer selects nothing |
| Preprocessing.NoLabelEncoderOutsideClassification | evalml/pipelines/utils.py:81-85 | outside classification the label encoder is never selected |
| Preprocessing.RuleGate | evalml/pipelines/utils.py:300-362 | a non-sampler rule's component is selected exactly when its branch runs the rule, the rule is not excluded and its condition holds |
| Preprocessing.OneHotEncoderGate | evalml/pipelines/utils.py:174-189 | the one-hot encoder is selected exactly when category, URL or email columns exist, the estimator is not CatBoost and the problem is not multiseries |
| Preprocessing.DateTimeFeaturizerGate | evalml/pipelines/utils.py:126-136 | the datetime featurizer is selected exactly for datetime columns, an estimator other than ARIMA or Prophet, no exclusion and a non-multiseries problem |
| Preprocessing.StandardScalerGate | evalml/pipelines/utils.py:219-223 | the standard scaler is selected exactly for a linear-model estimator outside multiseries |
| Preprocessing.DropNaNRowsGate | evalml/pipelines/utils.py:260-272 | NaN rows are dropped only in single-series time series problems, and there exactly when the estimator cannot handle NaNs or a sampler is named |
| Preprocessing.DecomposerGate | evalml/pipelines/utils.py:233-257 | the decomposer is selected exactly when it is asked for and the problem is multiseries regression, or time series regression whose inferred frequency is valid and whose detected period is at most 1000 |
| Preprocessing.SamplerContribution | evalml/pipelines/utils.py:207-216 | the sampler rule adds the undersampler or the oversampler exactly when that name is given |
| Preprocessing.SamplerGate | evalml/pipelines/utils.py:207-216 | a sampler is selected exactly when it is named, outside multiseries |
| Preprocessing.DropColumnGates | evalml/pipelines/utils.py:88-104 | the all-null dropper is selected exactly for an all-null column, and the index/unknown dropper exactly for an index or unknown column (outside multiseries) |
| Preprocessing.ImputerAndOrdinalGates | evalml/pipelines/utils.py:147-171 | the imputer is selected exactly when some column has a logical type the imputer handles or is natural language, and the ordinal encoder exactly for ordinal columns (outside multiseries) |
| Preprocessing.FeaturizerGates | evalml/pipelines/utils.py:107-123 | the email and URL featurizers are selected exactly for their column types, unless excluded by name |
| Preprocessing.TextAndTimeSeriesFeaturizerGates | evalml/pipelines/utils.py:139-144 | the natural-language featurizer exactly for text columns, and the time series featurizer exactly in the time series branch, unless excluded |
| Preprocessing.RuleExcludedBy | evalml/pipelines/utils.py:343-353 | the exclusion name of a featurizer rule determines that rule, and no other name switches a rule off |
| Preprocessing.SelectOverExcludeOneMore | evalml/pipelines/utils.py:343-362 | excluding one more featurizer name changes a run of rules only by removing that featurizer's components |
| Preprocessing.ExclusionRemovesOnlyThatFeaturizer | evalml/pipelines/utils.py:343-362 | naming a featurizer in the exclusion list removes exactly its component from the selection and leaves the rest unchanged |
| TimeSeriesPipelines.TimeSeriesComponentList | evalml/pipelines/utils.py:429-451 | without known-in-advance features the list ends with the estimator; with them it starts with the column selector |
| TimeSeriesPipelines.AdjustForKnownInAdvance | evalml/pipelines/utils.py:441-447 | the in-place adjustment (prepend the column selector; remove the NaN-row dropper unless an oversampler is present) computes the adjusted list |
| TimeSeriesPipelines.KnownInAdvanceAdjustedShape | evalml/pipelines/utils.py:441-447 | the adjusted list starts with the column selector, keeps the selection's order, and differs from it by at most one removed NaN-row dropper |
| TimeSeriesPipelines.KnownInAdvanceKeepsDropNaNOnlyWithOversampler | evalml/pipelines/utils.py:441-447 | on a duplicate-free selection, the NaN-row dropper survives exactly when the oversampler is selected, and every other component survives |
| TimeSeriesPipelines.KnownInAdvanceOverSelection | evalml/pipelines/utils.py:429-447 | on the selector's own output, nothing but the NaN-row dropper is ever removed |
| TimeSeriesPipelines.BaselineParams | evalml/pipelines/utils.py:1264-1287 | the parameter dictionary has the pipeline entry, the estimator entry and, unless excluded, the featurizer entry |
| TimeSeriesPipelines.TimeSeriesBaselinePipeline | evalml/pipelines/utils.py:1217-1293 | a baseline exists exactly for the time series problem types (otherwise a KeyError); its graph ends with the baseline estimator, preceded by the featurizer unless excluded, and every node has parameters |
| TimeSeriesPipelines.BaselineParameters | evalml/pipelines/utils.py:1264-1287 | the built pipeline's entries hold the pipeline's, the estimator's and the featurizer's parameters |
| TimeSeriesPipelines.BaselineParamsEntries | evalml/pipelines/utils.py:1264-1287 | the dictionary's entries, key by key, and no other key |
| TimeSeriesPipelines.BaselineParametersConsistent | evalml/pipelines/utils.py:1264-1287 | every entry agrees on the gap and the forecast horizon, and the featurizer has an entry exactly when it is not excluded |
| DataCheckActions.Emit | evalml/pipelines/utils.py:1131-1156 | an action fails exactly when it lacks a metadata key it needs; a regularize action gives the regularizer and then an imputer, an impute-column action gives one target or per-column imputer, and other actions give nothing on the spot; no drops are emitted here. The payloads are the parameters': the regularizer gets `frequency_payload` and `time_index`, or `None` when that key is missing; the target imputer gets `impute_strategy`; the per-column imputer gets `impute_strategies` |
| DataCheckActions.SortedColumns | evalml/pipelines/utils.py:1157-1159 | `sorted(set(cols))`: strictly increasing, with the same members |
| DataCheckActions.SortedRows | evalml/pipelines/utils.py:1160-1162 | `sorted(set(rows))`: strictly increasing, with the same members |
| DataCheckActions.MakeComponentListFromActions | evalml/pipelines/utils.py:1117-1164 | the loop over the actions computes the specification of the translation |
| DataCheckActions.EmittedHasNoDrops | evalml/pipelines/utils.py:1126-1156 | components emitted while the actions are read are never drops |
| DataCheckActions.DropComponentsLast | evalml/pipelines/utils.py:1157-1164 | at most one column dropper and one row dropper come after every other component, the column dropper first |
| DataCheckActions.DroppedColumnsMembers | evalml/pipelines/utils.py:1143-1144 | a column is collected for dropping exactly when some drop-column action names it |
| DataCheckActions.DroppedRowsMembers | evalml/pipelines/utils.py:1155-1156 | a row is collected for dropping exactly when some drop-rows action names it |
| DataCheckActions.DropsComeFromTail | evalml/pipelines/utils.py:1157-1164 | every drop component of the result is one of the coalesced droppers |
| DataCheckActions.DropTailPayloads | evalml/pipelines/utils.py:1157-1162 | a column dropper exists exactly when there are columns to drop, and a row dropper exactly when there are rows; each holds its sorted union |
| DataCheckActions.DropColumnsPayload | evalml/pipelines/utils.py:1157-1159 | the column dropper holds the sorted, duplicate-free union of every drop-column action's columns, and exists exactly when that union is non-empty |
| DataCheckActions.DropRowsPayload | evalml/pipelines/utils.py:1160-1162 | the same for rows |
| DataCheckActions.EmittedOverAppend | evalml/pipelines/utils.py:1130-1156 | translating `a + b` gives the components of `a` followed by those of `b` |
| DataCheckActions.EmittedFailsOnFirstIllFormed | evalml/pipelines/utils.py:1130-1156 | the translation fails exactly when some action is ill-formed, and then with the error of the first one |
| DataCheckActions.NoActionsNoComponents | evalml/pipelines/utils.py:1117-1164 | no actions give no components |
| DataCheckActions.DropExample | evalml/pipelines/utils.py:1143-1164 | dropping "a", then "b" and "a", then row 3 gives one column dropper for ["a", "b"] followed by one row dropper for [3] |
| DataCheckActions.CollectActionOptions | evalml/pipelines/utils.py:1185-1187 | the loop collects every message's options, message by message |
| DataCheckActions.FlattenOptionsAppend | evalml/pipelines/utils.py:1185-1187 | flattening distributes over concatenated message lists |
| DataCheckActions.FlattenOptionsMembers | evalml/pipelines/utils.py:1185-1187 | an option is collected exactly when some message reports it |
| DataCheckActions.GetActionsFromOptionDefaults | evalml/pipelines/utils.py:1201-1214 | one default action per option, in order |
| DataCheckActions.MakeComponentsFromDataCheckOutput | evalml/pipelines/utils.py:1167-1199 | collecting the options, rejecting an invalid time series configuration with its message, converting and translating computes the specification of the whole pipeline |
| ComponentGraphs.Lookup | evalml/pipelines/utils.py:1025 | `dict.get`: a key is found exactly when the dictionary holds it |
| ComponentGraphs.Set | evalml/pipelines/utils.py:1052 | dictionary assignment: an existing key keeps its place, a new key is appended, the key then holds the new node and every other key keeps its node |
| ComponentGraphs.SetKeysDistinct | evalml/pipelines/utils.py:910 | assignment keeps every key once |
| ComponentGraphs.Update | evalml/pipelines/utils.py:1065 | `dict.update` sets the entries one after another |
| ComponentGraphs.SetAllKeepsKeys | evalml/pipelines/utils.py:1065 | an update removes no key, adds every entry's key and keeps the keys distinct |
| ComponentGraphs.SetAllLookup | evalml/pipelines/utils.py:1065 | after an update a key holds the node of its last entry |
| ComponentGraphs.SetAllLookupUntouched | evalml/pipelines/utils.py:1065 | keys no entry sets keep their node |
| ComponentGraphs.RenamedNameInjective | evalml/pipelines/utils.py:807-809 | within one prefix, different counters or node names never give the same renamed name |
| ComponentGraphs.RenamingPreservesEdges | evalml/pipelines/utils.py:888-903 | an input reading a slot of a node of the same sub-pipeline reads, after renaming, the same slot of that node's renamed copy, which is a key of the renamed entries |
| ComponentGraphs.RenamedEntriesDistinct | evalml/pipelines/utils.py:872-878 | renaming a dictionary keeps its keys distinct |
| ComponentGraphs.RenamedEntriesReadEncodedTarget | evalml/pipelines/utils.py:897-901 | in classification no renamed node reads the graph's `y` |
| ComponentGraphs.LastYIn | evalml/pipelines/utils.py:904-909 | the last `.y` input found is one of the inputs, and none means no input is a `.y` output |
| ComponentGraphs.CopiedParamsValues | evalml/pipelines/utils.py:892 | each renamed node gets the original node's parameters, or `{}` |
| ComponentGraphs.CopiedParamsKeys | evalml/pipelines/utils.py:892 | copying adds exactly the renamed names to the parameter keys and leaves every other key's value alone |
| ComponentGraphs.RenameInputs | evalml/pipelines/utils.py:888-909 | the loop over one node's inputs computes the renamed inputs and the last `.y` among them |
| ComponentGraphs.CopySubPipeline | evalml/pipelines/utils.py:872-911 | copying one sub-pipeline sets every renamed entry in the graph, writes each renamed node's parameters, and returns the renamed last `.y` input (or the graph's `y`) |
| ComponentGraphs.OccurrenceIdx | evalml/pipelines/utils.py:864-868 | there is no counter for the first use of a name, otherwise a counter of at least 2 |
| ComponentGraphs.OccurrenceIdxDistinct | evalml/pipelines/utils.py:983-988 | two uses of the same name get different counters |
| ComponentGraphs.GraphAfterKeys | evalml/pipelines/utils.py:862-912 | the copies remove no key, keep the keys distinct and add every copied name |
| ComponentGraphs.GraphAfterLookupUntouched | evalml/pipelines/utils.py:862-912 | a key that no copy writes keeps its node |
| ComponentGraphs.RenamedNameNotLabelEncoder | evalml/pipelines/utils.py:807-809 | a renamed node name holds " Pipeline", so it is never "Label Encoder" |
| ComponentGraphs.KeysAfterNoLabelEncoder | evalml/pipelines/utils.py:862-912 | no copy writes the label encoder's key |
| ComponentGraphs.FinalsInGraph | evalml/pipelines/utils.py:910-912 | each copy's final component is a node of the graph built from all the copies |
| ComponentGraphs.ParamsAfterSpec | evalml/pipelines/utils.py:862-912 | the parameters hold the initial keys and the copied names and nothing else; an initial key no copy writes keeps its value |
| MultipleGraphs.SubError | evalml/pipelines/utils.py:989-1020 | a sub-pipeline raises nothing exactly when its name is in a non-empty alias map (or the map is empty) and its compute order is not empty |
| MultipleGraphs.FirstSubErrorSpec | evalml/pipelines/utils.py:981-1020 | there is no exception exactly when no sub-pipeline raises one; otherwise it is that of a sub-pipeline whose predecessors all pass |
| MultipleGraphs.MergeGraphs | evalml/pipelines/utils.py:931-1090 | the combined pipeline has the given problem type and name, and exists only when every sub-pipeline has nodes |
| MultipleGraphs.MergeGraphsFailsIff | evalml/pipelines/utils.py:981-1084 | the construction fails exactly when a sub-pipeline raises or the problem type has no pipeline class, and a sub-pipeline's exception comes first |
| MultipleGraphs.SameNameNoCollision | evalml/pipelines/utils.py:983-1015 | the renamed nodes of two sub-pipelines with the same name never collide |
| MultipleGraphs.MergeGraphsNodes | evalml/pipelines/utils.py:971-1076 | the combined graph keeps every node before and after the split and every renamed node, each key once; a classification graph holds the label encoder, and the entry is still `["Label Encoder", "X", "y"]` unless the estimator or a post-split component has that name; the parameters hold the caller's keys and the renamed nodes' keys and nothing else |
| MultipleGraphs.AssembledKeys | evalml/pipelines/utils.py:1056-1076 | the end of the construction keeps every key and keeps the keys distinct |
| MultipleGraphs.MergeGraphsPostWiring | evalml/pipelines/utils.py:1058-1072 | the first post-split component reads, in input order, every sub-pipeline's renamed last node and `final_y`, and the estimator reads the last post-split component |
| MultipleGraphs.CopiedNodesReadEncodedTarget | evalml/pipelines/utils.py:1042-1046 | in classification no copied node reads the raw target |
| MultipleGraphs.PrepareRenaming | evalml/pipelines/utils.py:982-1020 | the start of a round raises exactly the sub-pipeline's exception, and a round that passes has nodes |
| MultipleGraphs.CopyOne | evalml/pipelines/utils.py:982-1054 | one round raises exactly the sub-pipeline's exception, and otherwise copies it |
| MultipleGraphs.CopyRound | evalml/pipelines/utils.py:981-1054 | one round of the outer loop raises exactly the sub-pipeline's exception, which is then the first over all sub-pipelines, and otherwise extends the closed form of the rounds so far by one copy |
| MultipleGraphs.AllSubsDone | evalml/pipelines/utils.py:981-1054 | after the last round none has raised, and the state is that of all the copies |
| MultipleGraphs.CopySubPipelines | evalml/pipelines/utils.py:981-1054 | the outer loop raises the first sub-pipeline exception, or gives the graph, parameters and final components of all the copies, and the last round's `final_y` |
| MultipleGraphs.AttachPost | evalml/pipelines/utils.py:1056-1076 | wiring the post-split components in and choosing the estimator's inputs computes their specification |
| MultipleGraphs.MakePipelineFromMultipleGraphs | evalml/pipelines/utils.py:931-1090 | the whole construction computes the specification of the combined pipeline |
| MultipleGraphs.Assemble | evalml/pipelines/utils.py:1056-1090 | the steps after the outer loop compute their specification |
| StackedEnsemble.InitialParams | evalml/pipelines/utils.py:834-853 | classification starts from the label encoder's parameters plus the ensemble's `n_jobs`; regression from the ensemble's `n_jobs` alone |
| StackedEnsemble.LastComponentFound | evalml/pipelines/utils.py:863 | the estimator lookup fails exactly for an empty compute order |
| StackedEnsemble.AllFoundSpec | evalml/pipelines/utils.py:862-863 | no lookup raises exactly when every pipeline's last component is found |
| StackedEnsemble.StackedEnsemblePipeline | evalml/pipelines/utils.py:827-928 | the ensemble pipeline has the problem type and the ensemble name, and reads every pipeline's renamed last node and the ensemble `y` |
| StackedEnsemble.StackedEnsembleFailsIff | evalml/pipelines/utils.py:855-863 | the construction fails exactly for the problem types other than binary, multiclass and regression, for no input pipeline, and for an empty compute order, in that order of precedence |
| StackedEnsemble.StackedEnsembleNodes | evalml/pipelines/utils.py:827-916 | the graph holds the label encoder for classification, every renamed node and the estimator, each key once; the parameters hold the initial and the renamed keys only, and `n_jobs` unless a copied node took the ensemble's name |
| StackedEnsemble.StackedEnsembleValue | evalml/pipelines/utils.py:862-928 | the successful construction is the closed form of all the copies followed by the estimator |
| StackedEnsemble.EnsembleKeys | evalml/pipelines/utils.py:910-916 | the keys of the graph and of the parameters after the copies and the estimator are set |
| StackedEnsemble.SameFamilyNoCollision | evalml/pipelines/utils.py:863-878 | the nodes of two pipelines of the same family never collide |
| StackedEnsemble.CopiedNodesKeepX | evalml/pipelines/utils.py:902-903 | a copied node reads the graph's `X` where its original did |
| StackedEnsemble.FamilyLookup | evalml/pipelines/utils.py:863 | the model-family lookup fails exactly when the last component is missing |
| StackedEnsemble.EnsembleRound | evalml/pipelines/utils.py:862-912 | one round keeps the closed form of the rounds so far, unless its lookup raises |
| StackedEnsemble.AllRoundsDone | evalml/pipelines/utils.py:862-912 | after the last round every lookup has succeeded, and the state is that of all the copies |
| StackedEnsemble.MakeStackedEnsemblePipeline | evalml/pipelines/utils.py:827-928 | the whole construction computes the specification of the ensemble pipeline |
| StackedEnsemble.CopyEnsembleMembers | evalml/pipelines/utils.py:862-912 | the loop raises an IndexError exactly when some compute order is empty; otherwise it gives the state of all the copies and the last pipeline's renamed `.y` |
| StackedEnsemble.EnsembleCopies | evalml/pipelines/utils.py:862-912 | one copy per pipeline |
| Multiseries.NamingRoundTrip | evalml/pipelines/utils.py:1421-1484 | a column name splits back into its column and its series id when the id holds no underscore |
| Multiseries.NameDecomposes | evalml/pipelines/utils.py:1467-1484 | every name with an underscore is rebuilt from its base name and series id; a series id never holds an underscore |
| Multiseries.UnderscoreInSeriesIdMisreads | evalml/pipelines/utils.py:1421-1484 | "a" in series "b_c" reads back as "a_b" in series "c" |
| Multiseries.Filter | evalml/pipelines/utils.py:1544 | a list comprehension keeps exactly the elements satisfying the test |
| Multiseries.FilterKeepsOrder | evalml/pipelines/utils.py:1544 | the comprehension keeps the input's order and every occurrence of each kept element |
| Multiseries.Unique | evalml/pipelines/utils.py:1408 | `unique()` gives the distinct values, each present value once |
| Multiseries.UniqueFirstAppearance | evalml/pipelines/utils.py:1408 | `unique()` lists the values in order of first appearance |
| Multiseries.BlocksMembers | evalml/pipelines/utils.py:1411-1426 | a name is unstacked exactly when it names some column in some series |
| Multiseries.BlocksSplitBack | evalml/pipelines/utils.py:1411-1426 | every unstacked name splits back into one of the columns and one of the series |
| Multiseries.UnstackSeries | evalml/pipelines/utils.py:1418-1426 | the inner loop appends one series' feature names and target names to their lists |
| Multiseries.UnstackColumnNames | evalml/pipelines/utils.py:1383-1439 | the loops of `unstack_multiseries` compute its specification, including its KeyErrors and the concatenation's ValueError |
| Multiseries.UnstackedNames | evalml/pipelines/utils.py:1411-1439 | after the time index, the unstacked features are exactly each feature in each series, both read back by splitting |
| Multiseries.StackedLabelsShape | evalml/pipelines/utils.py:1463 | nothing is stacked exactly when there are no rows or no columns; every label is one of the columns |
| Multiseries.StackDataCases | evalml/pipelines/utils.py:1442-1489 | `stack_data` fails exactly on an empty frame; otherwise it names the stacked column after the first column's base name, after the series id column when included, and every id is read off a column |
| Multiseries.StackDataRoundTrip | evalml/pipelines/utils.py:1442-1489 | stacking one column's unstacked columns gives that column's name back, and the series ids row after row |
| Multiseries.OtherColumnsMembers | evalml/pipelines/utils.py:1508-1516 | the collected base names and series ids are exactly those of columns other than the time index |
| Multiseries.StackGroups | evalml/pipelines/utils.py:1540-1552 | one `stack_data` result per original column |
| Multiseries.StackGroupsFailurePersists | evalml/pipelines/utils.py:1540-1552 | an exception in one `stack_data` call ends the loop |
| Multiseries.CollectOriginals | evalml/pipelines/utils.py:1508-1516 | the first loop of `stack_X` collects the base name and the series id of every column but the time index |
| Multiseries.StackEach | evalml/pipelines/utils.py:1540-1552 | the second loop calls `stack_data` on each original column's substring-selected group and stops at the first exception |
| Multiseries.RestackColumns | evalml/pipelines/utils.py:1492-1558 | `stack_X`, with its substring selection, computes the specification `StackX(BySubstring, ...)` |
| Multiseries.StackGroupsAt | evalml/pipelines/utils.py:1540-1552 | the list holds, position by position, each original column's `stack_data` result, and exists exactly when none of them raises |
| Multiseries.BaseNameIsSubstring | evalml/pipelines/utils.py:1514-1515 | a column name contains its base name |
| Multiseries.InGroup | evalml/pipelines/utils.py:1544 | under either selection, each column but the time index whose base name is the original column is in that column's group |
| Multiseries.GroupPartColumns | evalml/pipelines/utils.py:1543-1552 | under either selection, an original column's group is not empty and stacks into the base name of its first column, after the series id column for the first group; its ids are read off the group's columns |
| Multiseries.IntendedNames | evalml/pipelines/utils.py:1543-1552 | under the base-name selection each original column's group stacks back into that column |
| Multiseries.ConcatFirstThenSingles | evalml/pipelines/utils.py:1554 | concatenating the parts gives the first part's leading column and then one column per part |
| Multiseries.StackGroupsNames | evalml/pipelines/utils.py:1539-1554 | with rows, every call succeeds, and the concatenation names the series id column and then what each group stacks into, in order |
| Multiseries.StackXErrors | evalml/pipelines/utils.py:1518-1558 | under either selection, `stack_X` raises a ValueError without series ids, then a KeyError without the time index, then an IndexError without rows, then "ValueError: Length mismatch" when the widest group and the number of distinct series ids differ; otherwise it succeeds. Without given ids, there are none exactly when every column is the time index |
| Multiseries.StackXGrouped | evalml/pipelines/utils.py:1539-1558 | under either selection, `stack_X` raises the length mismatch exactly when the widest group and the number of distinct series ids differ; otherwise it gives the series id column, what each group stacks into, and the time index last unless already present; every id is read off a column of the first group |
| Multiseries.StackXGroupedIntended | evalml/pipelines/utils.py:1539-1558 | under the base-name selection, `stack_X` raises the length mismatch exactly when the widest group and the number of distinct series ids differ; otherwise it gives the series id column, each original column once, and the time index last unless already present; every id is read off a column other than the time index |
| Multiseries.StackXWithValues | evalml/pipelines/utils.py:1509-1538 | with series id values given, only the time index and the series id column remain; the id column lists the sorted distinct ids row after row |
| Multiseries.SelectionsAgree | evalml/pipelines/utils.py:1539-1558 | when no original column overlaps another column's name, the substring selection and the base-name selection give the same `stack_X` result |
| Multiseries.UnstackedOriginals | evalml/pipelines/utils.py:1411-1516 | the base names of the unstacked columns are exactly the unstacked features |
| Multiseries.UnstackedIds | evalml/pipelines/utils.py:1411-1516 | the series ids of the unstacked columns are exactly the series |
| Multiseries.UnstackedGroup | evalml/pipelines/utils.py:1411-1544 | the group of each unstacked feature is exactly that feature's column in each series |
| Multiseries.MaxWidthBounds | evalml/pipelines/utils.py:1539-1555 | no group is wider than the widest one, which is one of the groups |
| Multiseries.MaxRowsIsWidth | evalml/pipelines/utils.py:1539-1555 | when every `stack_data` call succeeds, the concatenation has one row for every row of the frame and column of the widest group |
| Multiseries.FeaturesDistinct | evalml/pipelines/utils.py:1418-1426 | a frame with distinct column labels has distinct features |
| Multiseries.UnstackedGroupWidth | evalml/pipelines/utils.py:1411-1544 | in a frame with distinct column labels, the base-name group of each unstacked feature has one column per series |
| Multiseries.UnstackedIdCount | evalml/pipelines/utils.py:1411-1516 | when some feature was unstacked, the distinct series ids read back are as many as the series |
| Multiseries.UnstackedFits | evalml/pipelines/utils.py:1411-1555 | after unstacking, the widest base-name group has as many columns as there are distinct series ids, so the time index fits |
| Multiseries.UnstackThenStack | evalml/pipelines/utils.py:1383-1558 | for a frame with distinct column labels, unstacking and then restacking by base name gives the series id column, every feature once and the time index last, and reads back only the original series; without features it raises the ValueError |
| Multiseries.UnstackThenStackAsWritten | evalml/pipelines/utils.py:1383-1558 | for a frame with distinct column labels, `stack_X` as written gives the same round trip when no feature occurs inside an unstacked column name other than its own |
| Multiseries.OverlapWidensGroup | evalml/pipelines/utils.py:1411-1544 | a feature that occurs inside an unstacked name other than its own columns has a substring group wider than the number of series |
| Multiseries.UnstackThenStackOverlapRaises | evalml/pipelines/utils.py:1383-1558 | when some feature does occur inside another unstacked name (another feature's column or the time index), `stack_X` as written raises "ValueError: Length mismatch" |
| Multiseries.GroupBySubstringOvercollects | evalml/pipelines/utils.py:1544 | for a feature and a longer feature starting with it (such as "a" and "ab") in one series, the substring selection puts both columns ("a_0", "ab_0") in the shorter feature's group, although the second stacks back into the longer feature |
| Multiseries.GroupByBaseNameExact | evalml/pipelines/utils.py:1544 | on the same columns, the base-name selection takes only the shorter feature's column |
| Multiseries.SubstringExamples | evalml/pipelines/utils.py:1544 | the example inputs meet those conditions: "a" does not occur in "t" and does occur in "date" |
| Multiseries.StackXCapturesTimeIndex | evalml/pipelines/utils.py:1539-1558 | when an original column occurs inside the time index's name (as "a" in "date"), `stack_X` as written puts the time index in that group. The group's `stack_data` call gives the columns `[series_id, ""]`, with the time index read as a series id, and two stacked rows against one time index row, so `stack_X` raises "ValueError: Length mismatch" |
| Multiseries.StackXIntendedKeepsTimeIndexOut | evalml/pipelines/utils.py:1539-1558 | on the same columns the base-name selection gives the series id column, the original column and the time index, with the one series id |

## Left out

- Frame contents are not modelled. Woodwork type inference becomes a list of columns, each with a logical type, semantic tags and an all-null flag. Imputation, encoding and dropping of values are not modelled.
- The decomposer's frequency inference and periodicity detection are oracle inputs (`DecomposerOracle`). The model keeps only how the selector uses their answers.
- The selector's rules accept `estimator_class=None` (for example utils.py lines 221 and 557). The model always takes an estimator record, so the `None` case is not modelled.
- Estimator classes are records with a name, a model family and the NaN flag. `handle_component_class(...).modifies_target` is an oracle function of the component name. Component classes and instances are their names.
- The pipeline classes and `ComponentGraph` are not constructed. The constructed pipeline is a record of problem type, graph, parameters, name and seed, and graph validation is not modelled.
- The `cached_data` bookkeeping of the stacked ensemble builder (utils.py lines 811-825 and 861-886) is not modelled.
- The caller's dictionaries are not aliased. `parameters` is deep-copied in the multiple-graph builder and treated as a value. The stacked ensemble builder's in-place update of `label_encoder_params` is not modelled.
- A sub-pipeline's compute order is taken as an input whose nodes are those of its component dictionary.
- `_make_pipeline_time_series` is modelled only for its component list and the known-in-advance adjustment. Its parameter dictionary and the DFS transformer flag are taken as inputs.
- `make_pipeline_from_actions` is modelled up to the component list. The configuration check `contains_all_ts_parameters` and the option-to-action conversion are oracle inputs.
- The multiseries functions work on column names and a row count (`nRows`), not on frame values.
  - `starting_index`, index resetting and the values themselves are left out.
  - The `data is None` and Series shortcuts of `stack_data` and `stack_X` are left out.
  - Series ids are their text.
- The multiseries model counts rows but does not hold values. `pd.concat` pads shorter groups with NaN; the model keeps only the resulting row count. That count is the largest part's, because every part's index starts at the same value. The series ids reported are those of the first group.
- Python's set iteration order in `stack_X` is an input `order` that enumerates the collected base names.
- `series_id_values` is modelled as a duplicate-free set of ids.
- Exception texts are the exception's class and, where the source spells it out, its message. A failed dictionary lookup carries the missing key, as `KeyError: '<key>'`. Two problem-type lookups have fixed texts: the multiple-graph builder's pipeline-class lookup for the multiseries problem type gives "KeyError: multiseries time series regression", and the baseline builder's lookup of a problem type without a baseline gives a plain "KeyError".
- Multiseries.StackXWithValues: with `series_id_values` given, `stack_X` collects no original columns and returns only the time index and the series ids. This is stated as written (utils.py lines 1509-1510 and 1525-1538), not as a finding.
- The pipeline-code generation helpers, the `make_pipeline` front ends, and the rest of the module outside the listed functions are not part of this model.

## Findings

| source | as written | input that shows it | evidently intended | confidence | as-written member | corrected member |
|---|---|---|---|---|---|---|
| evalml/pipelines/utils.py:1544 | the group of an original column is every column whose name contains that column's name as a substring | features "a" and "ab" in series "0" give the columns "t", "a_0", "ab_0"; the group of "a" is ["a_0", "ab_0"] (`Multiseries.GroupBySubstringOvercollects`), two columns against one series id, so `stack_X` raises "ValueError: Length mismatch" at line 1555; in general it raises whenever a feature occurs inside another unstacked name | the group of "a" holds only the columns whose base name is "a", i.e. ["a_0"]; the base-name selection `GroupColumns` gives exactly that (`Multiseries.GroupByBaseNameExact`), takes each feature's column in each series from any unstacked frame, and gives back the unstacked features (`Multiseries.UnstackThenStack`) | high, not executed | Multiseries.UnstackThenStackOverlapRaises | Multiseries.UnstackedGroup |
| evalml/pipelines/utils.py:1544 | the substring test also takes in the time index when its name contains an original column's name | time index "date" and the column "a_0" of feature "a" in series "0", one row: the group of "a" is ["date", "a_0"], whose `stack_data` call gives two stacked rows against one time index row, so `stack_X` raises "ValueError: Length mismatch" | the group of "a" is ["a_0"], giving the columns ["series_id", "a", "date"] and the series id ["0"]; with the base-name selection the unstack-then-stack round trip holds | high, not executed | Multiseries.StackXCapturesTimeIndex | Multiseries.UnstackThenStack |
