/** Turning data check actions into pipeline components: each action emits
    its components in order, while the columns and rows to drop are collected
    and coalesced into at most one drop component of each kind at the end. */
module DataCheckActions {
  import opened Wrappers
  import opened Values
  import opened ProblemTypes
  import Strings
  import opened Sorting

  datatype ActionCode =
    | DropCol | DropRows | ImputeCol | RegularizeAndImputeDataset | TransformTarget | SetFirstColId

  /** The metadata keys the translator reads; `None` is a missing key. */
  datatype Metadata = Metadata(
    columns: Option<seq<string>>,
    rows: Option<seq<int>>,
    isTarget: Option<bool>,
    parameters: Option<Params>)

  datatype Action = Action(code: ActionCode, metadata: Metadata)

  datatype ActionComponent =
    | TimeSeriesRegularizer(timeIndex: Value, frequencyPayload: Value)
    | TimeSeriesImputer
    | TargetImputer(imputeStrategy: Value)
    | PerColumnImputer(imputeStrategies: Value)
    | DropColumns(columns: seq<string>)
    | DropRowsTransformer(indicesToDrop: seq<int>)

  predicate IsDrop(c: ActionComponent)
  {
    c.DropColumns? || c.DropRowsTransformer?
  }

  /** `metadata.get("parameters", {})`. */
  function ParametersOf(m: Metadata): Params
  {
    if m.parameters.Some? then m.parameters.value else map[]
  }

  /** The keys each kind of action must carry for the translator to read it. */
  predicate ActionWellFormed(a: Action)
  {
    var p := ParametersOf(a.metadata);
    match a.code
    case RegularizeAndImputeDataset => "frequency_payload" in p
    case DropCol => a.metadata.columns.Some?
    case ImputeCol =>
      a.metadata.isTarget.Some?
      && (if a.metadata.isTarget.value then "impute_strategy" in p else "impute_strategies" in p)
    case DropRows => a.metadata.rows.Some?
    case _ => true
  }

  /** The components one action emits on the spot (drops are collected
      separately): a regularizer immediately followed by an imputer, one
      target or per-column imputer, or nothing. */
  function Emit(a: Action): (r: Result<seq<ActionComponent>, string>)
    ensures r.Failure? <==> !ActionWellFormed(a)
    ensures r.Success? ==> forall c :: c in r.value ==> !IsDrop(c)
    ensures r.Success? && a.code == RegularizeAndImputeDataset ==>
              |r.value| == 2 && r.value[0].TimeSeriesRegularizer? && r.value[1] == TimeSeriesImputer
              && r.value[0].frequencyPayload == ParametersOf(a.metadata)["frequency_payload"]
              && ("time_index" in ParametersOf(a.metadata) ==>
                    r.value[0].timeIndex == ParametersOf(a.metadata)["time_index"])
              && ("time_index" !in ParametersOf(a.metadata) ==> r.value[0].timeIndex == VNone)
    ensures r.Success? && a.code == ImputeCol ==>
              |r.value| == 1
              && (r.value[0].TargetImputer? <==> a.metadata.isTarget == Some(true))
              && (r.value[0].PerColumnImputer? <==> a.metadata.isTarget == Some(false))
    ensures r.Success? && a.code == ImputeCol && a.metadata.isTarget == Some(true) ==>
              r.value[0].imputeStrategy == ParametersOf(a.metadata)["impute_strategy"]
    ensures r.Success? && a.code == ImputeCol && a.metadata.isTarget == Some(false) ==>
              r.value[0].imputeStrategies == ParametersOf(a.metadata)["impute_strategies"]
    ensures r.Success? && a.code != RegularizeAndImputeDataset && a.code != ImputeCol ==> r.value == []
  {
    var p := ParametersOf(a.metadata);
    match a.code
    case RegularizeAndImputeDataset =>
      if "frequency_payload" !in p then Failure(KeyError("frequency_payload"))
      else
        var timeIndex := if "time_index" in p then p["time_index"] else VNone;
        Success([TimeSeriesRegularizer(timeIndex, p["frequency_payload"]), TimeSeriesImputer])
    case DropCol =>
      if a.metadata.columns.None? then Failure(KeyError("columns")) else Success([])
    case ImputeCol =>
      (match a.metadata.isTarget
       case None => Failure(KeyError("is_target"))
       case Some(isTarget) =>
         if isTarget then
           if "impute_strategy" in p then Success([TargetImputer(p["impute_strategy"])])
           else Failure(KeyError("impute_strategy"))
         else if "impute_strategies" in p then Success([PerColumnImputer(p["impute_strategies"])])
         else Failure(KeyError("impute_strategies")))
    case DropRows =>
      if a.metadata.rows.None? then Failure(KeyError("rows")) else Success([])
    case _ => Success([])
  }

  /** The components emitted by the actions in turn; the first action that
      cannot be read stops the translation with its error. */
  function EmittedOver(actions: seq<Action>): Result<seq<ActionComponent>, string>
    decreases |actions|
  {
    if |actions| == 0 then Success([])
    else
      match EmittedOver(actions[..|actions| - 1])
      case Failure(e) => Failure(e)
      case Success(prev) =>
        match Emit(actions[|actions| - 1])
        case Failure(e) => Failure(e)
        case Success(cs) => Success(prev + cs)
  }

  /** Every column named by a drop-column action, in action order. */
  function DroppedColumns(actions: seq<Action>): seq<string>
    decreases |actions|
  {
    if |actions| == 0 then []
    else
      var a := actions[|actions| - 1];
      DroppedColumns(actions[..|actions| - 1])
      + (if a.code == DropCol && a.metadata.columns.Some? then a.metadata.columns.value else [])
  }

  /** Every row named by a drop-rows action, in action order. */
  function DroppedRows(actions: seq<Action>): seq<int>
    decreases |actions|
  {
    if |actions| == 0 then []
    else
      var a := actions[|actions| - 1];
      DroppedRows(actions[..|actions| - 1])
      + (if a.code == DropRows && a.metadata.rows.Some? then a.metadata.rows.value else [])
  }

  function SortedColumns(cols: seq<string>): (r: seq<string>)
    ensures StrictlyIncreasing(r, Strings.LessThan) && forall c :: c in r <==> c in cols
  {
    StringLessIsStrictTotalOrder();
    SortedSet(cols, Strings.LessThan)
  }

  function SortedRows(rows: seq<int>): (r: seq<int>)
    ensures StrictlyIncreasing(r, IntLess) && forall k :: k in r <==> k in rows
  {
    IntLessIsStrictTotalOrder();
    SortedSet(rows, IntLess)
  }

  /** The coalesced drops: one column dropper, then one row dropper, each only
      when something is to be dropped. */
  function DropTail(cols: seq<string>, rows: seq<int>): seq<ActionComponent>
  {
    (if cols == [] then [] else [DropColumns(SortedColumns(cols))])
    + (if rows == [] then [] else [DropRowsTransformer(SortedRows(rows))])
  }

  /** `_make_component_list_from_actions` as a function of the action list. */
  function ComponentsFromActions(actions: seq<Action>): Result<seq<ActionComponent>, string>
  {
    match EmittedOver(actions)
    case Failure(e) => Failure(e)
    case Success(emitted) => Success(emitted + DropTail(DroppedColumns(actions), DroppedRows(actions)))
  }

  lemma {:induction false} EmittedFailureExtends(actions: seq<Action>, k: nat)
    requires k <= |actions| && EmittedOver(actions[..k]).Failure?
    ensures EmittedOver(actions) == EmittedOver(actions[..k])
    decreases |actions| - k
  {
    if k < |actions| {
      assert actions[..k + 1][..k] == actions[..k];
      EmittedFailureExtends(actions, k + 1);
    } else {
      assert actions[..k] == actions;
    }
  }

  /** The loop of the source: components are appended as actions are met,
      columns and rows are accumulated, and the drops are appended last. */
  method MakeComponentListFromActions(actions: seq<Action>) returns (r: Result<seq<ActionComponent>, string>)
    ensures r == ComponentsFromActions(actions)
  {
    var components: seq<ActionComponent> := [];
    var colsToDrop: seq<string> := [];
    var indicesToDrop: seq<int> := [];
    var i := 0;
    while i < |actions|
      invariant 0 <= i <= |actions|
      invariant EmittedOver(actions[..i]) == Success(components)
      invariant colsToDrop == DroppedColumns(actions[..i])
      invariant indicesToDrop == DroppedRows(actions[..i])
    {
      var action := actions[i];
      assert actions[..i + 1][..i] == actions[..i];
      assert actions[..i + 1][i] == action;
      ghost var before := components;
      var metadata := action.metadata;
      var parameters := ParametersOf(metadata);
      match action.code {
        case RegularizeAndImputeDataset =>
          if "frequency_payload" !in parameters {
            EmittedFailureExtends(actions, i + 1);
            return Failure(KeyError("frequency_payload"));
          }
          var timeIndex := if "time_index" in parameters then parameters["time_index"] else VNone;
          components := components + [TimeSeriesRegularizer(timeIndex, parameters["frequency_payload"]),
                                      TimeSeriesImputer];
        case DropCol =>
          if metadata.columns.None? {
            EmittedFailureExtends(actions, i + 1);
            return Failure(KeyError("columns"));
          }
          colsToDrop := colsToDrop + metadata.columns.value;
        case ImputeCol =>
          if metadata.isTarget.None? {
            EmittedFailureExtends(actions, i + 1);
            return Failure(KeyError("is_target"));
          }
          if metadata.isTarget.value {
            if "impute_strategy" !in parameters {
              EmittedFailureExtends(actions, i + 1);
              return Failure(KeyError("impute_strategy"));
            }
            components := components + [TargetImputer(parameters["impute_strategy"])];
          } else {
            if "impute_strategies" !in parameters {
              EmittedFailureExtends(actions, i + 1);
              return Failure(KeyError("impute_strategies"));
            }
            components := components + [PerColumnImputer(parameters["impute_strategies"])];
          }
        case DropRows =>
          if metadata.rows.None? {
            EmittedFailureExtends(actions, i + 1);
            return Failure(KeyError("rows"));
          }
          indicesToDrop := indicesToDrop + metadata.rows.value;
        case _ =>
      }
      assert components == before + Emit(action).value;
      i := i + 1;
    }
    assert actions[..i] == actions;
    ghost var emitted := components;
    if colsToDrop != [] {
      components := components + [DropColumns(SortedColumns(colsToDrop))];
    }
    if indicesToDrop != [] {
      components := components + [DropRowsTransformer(SortedRows(indicesToDrop))];
    }
    assert components == emitted + DropTail(colsToDrop, indicesToDrop);
    return Success(components);
  }

  /* ---------------- Properties ---------------- */

  lemma {:induction false} EmittedHasNoDrops(actions: seq<Action>)
    requires EmittedOver(actions).Success?
    ensures forall c :: c in EmittedOver(actions).value ==> !IsDrop(c)
    decreases |actions|
  {
    if |actions| > 0 {
      var init := actions[..|actions| - 1];
      if EmittedOver(init).Failure? {
      } else {
        EmittedHasNoDrops(init);
      }
    }
  }

  lemma DropTailShape(cols: seq<string>, rows: seq<int>)
    ensures var tail := DropTail(cols, rows);
            && |tail| <= 2
            && forall k :: 0 <= k < |tail| ==>
                 IsDrop(tail[k]) && (tail[k].DropColumns? ==> k == 0)
                 && (tail[k].DropRowsTransformer? ==> k == |tail| - 1)
  {
  }

  /** At most one column dropper and one row dropper are emitted, after every
      other component, the column dropper first. */
  lemma DropComponentsLast(actions: seq<Action>)
    requires ComponentsFromActions(actions).Success?
    ensures var cs := ComponentsFromActions(actions).value;
            && (forall i, j :: 0 <= i < j < |cs| && IsDrop(cs[i]) ==> IsDrop(cs[j]))
            && (forall i, j :: 0 <= i < j < |cs| && cs[j].DropColumns? ==> !IsDrop(cs[i]))
            && (forall i, j :: 0 <= i < j < |cs| && cs[j].DropRowsTransformer? ==> !cs[i].DropRowsTransformer?)
  {
    EmittedHasNoDrops(actions);
    var emitted := EmittedOver(actions).value;
    var tail := DropTail(DroppedColumns(actions), DroppedRows(actions));
    DropTailShape(DroppedColumns(actions), DroppedRows(actions));
    var cs := emitted + tail;
    forall i | 0 <= i < |cs|
      ensures i < |emitted| ==> !IsDrop(cs[i])
      ensures i >= |emitted| ==> cs[i] == tail[i - |emitted|]
    {
      if i < |emitted| {
        assert cs[i] == emitted[i] && emitted[i] in emitted;
      }
    }
  }

  /** A column is dropped exactly when some drop-column action names it. */
  lemma {:induction false} DroppedColumnsMembers(actions: seq<Action>, c: string)
    ensures c in DroppedColumns(actions) <==>
            exists k :: 0 <= k < |actions| && actions[k].code == DropCol
                        && actions[k].metadata.columns.Some? && c in actions[k].metadata.columns.value
    decreases |actions|
  {
    if |actions| > 0 {
      var init := actions[..|actions| - 1];
      DroppedColumnsMembers(init, c);
      if c in DroppedColumns(init) {
        var k :| 0 <= k < |init| && init[k].code == DropCol
                 && init[k].metadata.columns.Some? && c in init[k].metadata.columns.value;
        assert actions[k] == init[k];
      }
      forall k | 0 <= k < |init| ensures actions[k] == init[k] { }
    }
  }

  /** A row is dropped exactly when some drop-rows action names it. */
  lemma {:induction false} DroppedRowsMembers(actions: seq<Action>, row: int)
    ensures row in DroppedRows(actions) <==>
            exists k :: 0 <= k < |actions| && actions[k].code == DropRows
                        && actions[k].metadata.rows.Some? && row in actions[k].metadata.rows.value
    decreases |actions|
  {
    if |actions| > 0 {
      var init := actions[..|actions| - 1];
      DroppedRowsMembers(init, row);
      if row in DroppedRows(init) {
        var k :| 0 <= k < |init| && init[k].code == DropRows
                 && init[k].metadata.rows.Some? && row in init[k].metadata.rows.value;
        assert actions[k] == init[k];
      }
      forall k | 0 <= k < |init| ensures actions[k] == init[k] { }
    }
  }

  /** A drop component of the translation sits in the coalesced tail. */
  lemma DropsComeFromTail(actions: seq<Action>)
    requires ComponentsFromActions(actions).Success?
    ensures var cs := ComponentsFromActions(actions).value;
            var n := |EmittedOver(actions).value|;
            && cs[n..] == DropTail(DroppedColumns(actions), DroppedRows(actions))
            && forall i :: 0 <= i < |cs| && IsDrop(cs[i]) ==> i >= n
  {
    EmittedHasNoDrops(actions);
    var emitted := EmittedOver(actions).value;
    var cs := ComponentsFromActions(actions).value;
    forall i | 0 <= i < |emitted|
      ensures !IsDrop(cs[i])
    {
      assert cs[i] == emitted[i] && emitted[i] in emitted;
    }
  }

  /** The coalesced tail holds a column dropper exactly when there are
      columns to drop and a row dropper exactly when there are rows to drop,
      each with the sorted union as its payload. */
  lemma DropTailPayloads(cols: seq<string>, rows: seq<int>)
    ensures var t := DropTail(cols, rows);
            && ((exists c :: c in t && c.DropColumns?) <==> cols != [])
            && ((exists c :: c in t && c.DropRowsTransformer?) <==> rows != [])
            && (forall c :: c in t && c.DropColumns? ==> c == DropColumns(SortedColumns(cols)))
            && (forall c :: c in t && c.DropRowsTransformer? ==> c == DropRowsTransformer(SortedRows(rows)))
  {
    var t := DropTail(cols, rows);
    if cols != [] {
      assert t[0] == DropColumns(SortedColumns(cols));
    }
    if rows != [] {
      assert t[|t| - 1] == DropRowsTransformer(SortedRows(rows));
    }
  }

  /** A component of the translation in the coalesced tail is a tail component. */
  lemma TailMembers(actions: seq<Action>, i: nat)
    requires ComponentsFromActions(actions).Success? && i < |ComponentsFromActions(actions).value|
    requires i >= |EmittedOver(actions).value|
    ensures ComponentsFromActions(actions).value[i] in DropTail(DroppedColumns(actions), DroppedRows(actions))
  {
    var cs := ComponentsFromActions(actions).value;
    var n := |EmittedOver(actions).value|;
    assert cs[i] == cs[n..][i - n];
  }

  /** Every tail component is a component of the translation. */
  lemma TailIncluded(actions: seq<Action>, c: ActionComponent)
    requires ComponentsFromActions(actions).Success?
    requires c in DropTail(DroppedColumns(actions), DroppedRows(actions))
    ensures c in ComponentsFromActions(actions).value
  {
    var cs := ComponentsFromActions(actions).value;
    var n := |EmittedOver(actions).value|;
    var t := DropTail(DroppedColumns(actions), DroppedRows(actions));
    var j :| 0 <= j < |t| && t[j] == c;
    assert cs[n + j] == t[j];
  }

  /** The column dropper holds the sorted, duplicate-free union of every
      drop-column action's columns, and exists exactly when that union is
      non-empty. */
  lemma DropColumnsPayload(actions: seq<Action>)
    requires ComponentsFromActions(actions).Success?
    ensures var cs := ComponentsFromActions(actions).value;
            && ((exists i :: 0 <= i < |cs| && cs[i].DropColumns?) <==> DroppedColumns(actions) != [])
            && (forall i :: 0 <= i < |cs| && cs[i].DropColumns? ==>
                  StrictlyIncreasing(cs[i].columns, Strings.LessThan)
                  && forall c :: c in cs[i].columns <==> c in DroppedColumns(actions))
  {
    DropsComeFromTail(actions);
    var cs := ComponentsFromActions(actions).value;
    var cols, rows := DroppedColumns(actions), DroppedRows(actions);
    DropTailPayloads(cols, rows);
    forall i | 0 <= i < |cs| && cs[i].DropColumns?
      ensures cs[i] == DropColumns(SortedColumns(cols))
    {
      assert IsDrop(cs[i]);
      TailMembers(actions, i);
    }
    if cols != [] {
      var c :| c in DropTail(cols, rows) && c.DropColumns?;
      TailIncluded(actions, c);
    }
  }

  /** The row dropper holds the sorted, duplicate-free union of every
      drop-rows action's rows, and exists exactly when that union is
      non-empty. */
  lemma DropRowsPayload(actions: seq<Action>)
    requires ComponentsFromActions(actions).Success?
    ensures var cs := ComponentsFromActions(actions).value;
            && ((exists i :: 0 <= i < |cs| && cs[i].DropRowsTransformer?) <==> DroppedRows(actions) != [])
            && (forall i :: 0 <= i < |cs| && cs[i].DropRowsTransformer? ==>
                  StrictlyIncreasing(cs[i].indicesToDrop, IntLess)
                  && forall k :: k in cs[i].indicesToDrop <==> k in DroppedRows(actions))
  {
    DropsComeFromTail(actions);
    var cs := ComponentsFromActions(actions).value;
    var cols, rows := DroppedColumns(actions), DroppedRows(actions);
    DropTailPayloads(cols, rows);
    forall i | 0 <= i < |cs| && cs[i].DropRowsTransformer?
      ensures cs[i] == DropRowsTransformer(SortedRows(rows))
    {
      assert IsDrop(cs[i]);
      TailMembers(actions, i);
    }
    if rows != [] {
      var c :| c in DropTail(cols, rows) && c.DropRowsTransformer?;
      TailIncluded(actions, c);
    }
  }

  /** Translating the actions `a + b` gives the components of `a` followed by
      those of `b`, unless one of them fails. */
  lemma {:induction false} EmittedOverAppend(a: seq<Action>, b: seq<Action>)
    requires EmittedOver(a).Success? && EmittedOver(b).Success?
    ensures EmittedOver(a + b) == Success(EmittedOver(a).value + EmittedOver(b).value)
    decreases |b|
  {
    if |b| == 0 {
      assert a + b == a;
      assert EmittedOver(a).value + [] == EmittedOver(a).value;
    } else {
      var b' := b[..|b| - 1];
      var last := b[|b| - 1];
      assert (a + b)[..|a + b| - 1] == a + b';
      assert (a + b)[|a + b| - 1] == last;
      assert EmittedOver(b').Success? && Emit(last).Success?;
      EmittedOverAppend(a, b');
      var x, y, z := EmittedOver(a).value, EmittedOver(b').value, Emit(last).value;
      assert EmittedOver(a + b') == Success(x + y);
      assert EmittedOver(a + b) == Success((x + y) + z);
      assert EmittedOver(b) == Success(y + z);
      assert (x + y) + z == x + (y + z);
    }
  }

  /** The translation fails exactly when some action lacks a key it needs,
      and then with the error of the first such action. */
  lemma {:induction false} EmittedFailsOnFirstIllFormed(actions: seq<Action>)
    ensures EmittedOver(actions).Failure? <==> exists k :: 0 <= k < |actions| && !ActionWellFormed(actions[k])
    ensures EmittedOver(actions).Failure? ==>
              exists k :: 0 <= k < |actions| && (forall j :: 0 <= j < k ==> ActionWellFormed(actions[j]))
                          && Emit(actions[k]) == Failure(EmittedOver(actions).error)
    decreases |actions|
  {
    if |actions| > 0 {
      var init := actions[..|actions| - 1];
      EmittedFailsOnFirstIllFormed(init);
      forall k | 0 <= k < |init| ensures actions[k] == init[k] { }
      if EmittedOver(init).Failure? {
        var k :| 0 <= k < |init| && (forall j :: 0 <= j < k ==> ActionWellFormed(init[j]))
                 && Emit(init[k]) == Failure(EmittedOver(init).error);
        assert actions[k] == init[k];
      } else {
        var last := |actions| - 1;
        if !ActionWellFormed(actions[last]) {
          assert forall j :: 0 <= j < last ==> ActionWellFormed(actions[j]) by {
            forall j | 0 <= j < last ensures ActionWellFormed(actions[j]) {
              assert actions[j] == init[j];
            }
          }
        }
      }
    }
  }

  /** No actions, no components. */
  lemma NoActionsNoComponents()
    ensures ComponentsFromActions([]) == Success([])
  {
    assert DropTail([], []) == [];
  }

  const DROP_A: Action := Action(DropCol, Metadata(Some(["a"]), None, None, None))
  const DROP_BA: Action := Action(DropCol, Metadata(Some(["b", "a"]), None, None, None))
  const DROP_ROW_3: Action := Action(DropRows, Metadata(None, Some([3]), None, None))

  /** The three example actions as successive prefixes. */
  lemma ExamplePrefixes()
    ensures var l3 := [DROP_A, DROP_BA, DROP_ROW_3];
            && l3[..2] == [DROP_A, DROP_BA] && l3[2] == DROP_ROW_3
            && [DROP_A, DROP_BA][..1] == [DROP_A] && [DROP_A, DROP_BA][1] == DROP_BA
            && [DROP_A][..0] == [] && [DROP_A][0] == DROP_A
  {
  }

  lemma ExampleEmitsNothing()
    ensures EmittedOver([DROP_A, DROP_BA, DROP_ROW_3]) == Success([])
  {
    ExamplePrefixes();
    var empty: seq<ActionComponent> := [];
    assert Emit(DROP_A) == Success(empty) && Emit(DROP_BA) == Success(empty) && Emit(DROP_ROW_3) == Success(empty);
    var l1, l2 := [DROP_A], [DROP_A, DROP_BA];
    assert l1[..|l1| - 1] == [] && l2[..|l2| - 1] == l1 && l1[|l1| - 1] == DROP_A && l2[|l2| - 1] == DROP_BA;
    assert empty + empty == empty;
    assert EmittedOver(l1) == Success(empty);
    assert EmittedOver(l2) == Success(empty);
  }

  lemma ExampleDrops()
    ensures DroppedColumns([DROP_A, DROP_BA, DROP_ROW_3]) == ["a", "b", "a"]
    ensures DroppedRows([DROP_A, DROP_BA, DROP_ROW_3]) == [3]
  {
    ExamplePrefixes();
    assert DroppedColumns([DROP_A]) == ["a"];
    assert DroppedColumns([DROP_A, DROP_BA]) == ["a"] + ["b", "a"];
    assert DroppedRows([DROP_A]) == [];
    assert DroppedRows([DROP_A, DROP_BA]) == [];
  }

  lemma ExampleSorted()
    ensures SortedColumns(["a", "b", "a"]) == ["a", "b"]
    ensures SortedRows([3]) == [3]
  {
    StringLessIsStrictTotalOrder();
    IntLessIsStrictTotalOrder();
    assert Strings.LessThan("a", "b");
    StrictlyIncreasingUnique(SortedColumns(["a", "b", "a"]), ["a", "b"], Strings.LessThan);
    StrictlyIncreasingUnique(SortedRows([3]), [3], IntLess);
  }

  /** The worked example: dropping column "a", then "b" and "a", then row 3,
      yields one column dropper for ["a", "b"] followed by one row dropper. */
  lemma DropExample()
    ensures ComponentsFromActions([DROP_A, DROP_BA, DROP_ROW_3])
            == Success([DropColumns(["a", "b"]), DropRowsTransformer([3])])
  {
    ExampleEmitsNothing();
    ExampleDrops();
    ExampleSorted();
    var empty: seq<ActionComponent> := [];
    var tail := DropTail(["a", "b", "a"], [3]);
    assert tail == [DropColumns(["a", "b"])] + [DropRowsTransformer([3])];
    assert empty + tail == [DropColumns(["a", "b"]), DropRowsTransformer([3])];
  }

  /* ---------------- From data check output to actions ---------------- */

  /** An action option as the data checks report it; its conversion to an
      action with default parameters is external. */
  type OptionDict = map<string, Value>

  datatype Message = Message(actionOptions: seq<OptionDict>)

  /** Every message's action options, message by message. */
  function FlattenOptions(messages: seq<Message>): seq<OptionDict>
    decreases |messages|
  {
    if |messages| == 0 then []
    else FlattenOptions(messages[..|messages| - 1]) + messages[|messages| - 1].actionOptions
  }

  method CollectActionOptions(messages: seq<Message>) returns (options: seq<OptionDict>)
    ensures options == FlattenOptions(messages)
  {
    options := [];
    var i := 0;
    while i < |messages|
      invariant 0 <= i <= |messages|
      invariant options == FlattenOptions(messages[..i])
    {
      assert messages[..i + 1][..i] == messages[..i];
      options := options + messages[i].actionOptions;
      i := i + 1;
    }
    assert messages[..i] == messages;
  }

  lemma {:induction false} FlattenOptionsAppend(a: seq<Message>, b: seq<Message>)
    ensures FlattenOptions(a + b) == FlattenOptions(a) + FlattenOptions(b)
    decreases |b|
  {
    if |b| == 0 {
      assert a + b == a;
    } else {
      var init, last := b[..|b| - 1], b[|b| - 1];
      assert (a + b)[..|a + b| - 1] == a + init;
      assert (a + b)[|a + b| - 1] == last;
      FlattenOptionsAppend(a, init);
      calc {
        FlattenOptions(a + b);
        FlattenOptions(a + init) + last.actionOptions;
        (FlattenOptions(a) + FlattenOptions(init)) + last.actionOptions;
        FlattenOptions(a) + (FlattenOptions(init) + last.actionOptions);
      }
    }
  }

  /** An option is collected exactly when some message reports it. */
  lemma {:induction false} FlattenOptionsMembers(messages: seq<Message>, o: OptionDict)
    ensures o in FlattenOptions(messages) <==> exists i :: 0 <= i < |messages| && o in messages[i].actionOptions
    decreases |messages|
  {
    if |messages| > 0 {
      var init := messages[..|messages| - 1];
      FlattenOptionsMembers(init, o);
      forall i | 0 <= i < |init| ensures messages[i] == init[i] { }
      if o in FlattenOptions(init) {
        var i :| 0 <= i < |init| && o in init[i].actionOptions;
        assert messages[i] == init[i];
      }
    }
  }

  /** `get_actions_from_option_defaults`: one action per option, in order. */
  method GetActionsFromOptionDefaults(options: seq<OptionDict>, toAction: OptionDict -> Action)
    returns (actions: seq<Action>)
    ensures |actions| == |options|
    ensures forall i :: 0 <= i < |options| ==> actions[i] == toAction(options[i])
  {
    actions := [];
    var i := 0;
    while i < |options|
      invariant 0 <= i <= |options|
      invariant |actions| == i
      invariant forall j :: 0 <= j < i ==> actions[j] == toAction(options[j])
    {
      actions := actions + [toAction(options[i])];
      i := i + 1;
    }
  }

  function ActionsFromOptions(options: seq<OptionDict>, toAction: OptionDict -> Action): (actions: seq<Action>)
    ensures |actions| == |options|
    ensures forall i :: 0 <= i < |options| ==> actions[i] == toAction(options[i])
  {
    seq(|options|, i requires 0 <= i < |options| => toAction(options[i]))
  }

  /** `make_pipeline_from_data_check_output` up to the pipeline's component
      list: collect the options, reject a time series problem whose
      configuration check fails (its verdict and message are given), convert
      each option to its default action and translate the actions. */
  function ComponentsFromDataCheckOutput(pt: ProblemType, messages: seq<Message>,
                                         configValid: bool, configMessage: string,
                                         toAction: OptionDict -> Action)
    : Result<seq<ActionComponent>, string>
  {
    if IsTimeSeries(pt) && !configValid then Failure("ValueError: " + configMessage)
    else ComponentsFromActions(ActionsFromOptions(FlattenOptions(messages), toAction))
  }

  method MakeComponentsFromDataCheckOutput(pt: ProblemType, messages: seq<Message>,
                                           configValid: bool, configMessage: string,
                                           toAction: OptionDict -> Action)
    returns (r: Result<seq<ActionComponent>, string>)
    ensures r == ComponentsFromDataCheckOutput(pt, messages, configValid, configMessage, toAction)
  {
    var options := CollectActionOptions(messages);
    if IsTimeSeries(pt) && !configValid {
      return Failure("ValueError: " + configMessage);
    }
    var actions := GetActionsFromOptionDefaults(options, toAction);
    assert actions == ActionsFromOptions(options, toAction);
    r := MakeComponentListFromActions(actions);
  }
}
