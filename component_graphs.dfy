/** Component graphs in dictionary form: an insertion-ordered map from node
    name to the node's component and its input references, plus the renaming
    that the graph builders apply when they copy a sub-pipeline's nodes into
    a combined graph. */
module ComponentGraphs {
  import opened Wrappers
  import opened Values
  import opened Strings
  import opened ProblemTypes

  /** `"<node>.x"` and `"<node>.y"`. */
  datatype Slot = XSlot | YSlot

  /** An input of a node: the graph's own `"X"` or `"y"`, or an output of another node. */
  datatype Ref = GraphX | GraphY | Out(node: string, slot: Slot)

  /** `[component, input, input, ...]`. */
  datatype Node = Node(component: string, inputs: seq<Ref>)

  /** Python's dict from node name to node: its entries in insertion order. */
  type Graph = seq<(string, Node)>

  const LABEL_ENCODER: string := "Label Encoder"

  /** The node `{"Label Encoder": ["Label Encoder", "X", "y"]}`. */
  const LABEL_ENCODER_NODE: Node := Node(LABEL_ENCODER, [GraphX, GraphY])

  /* ---------------- The dictionary ---------------- */

  function KeysOf(g: Graph): (ks: seq<string>)
    ensures |ks| == |g| && forall i :: 0 <= i < |g| ==> ks[i] == g[i].0
  {
    if |g| == 0 then [] else [g[0].0] + KeysOf(g[1..])
  }

  predicate KeysDistinct(g: Graph)
  {
    forall i, j :: 0 <= i < j < |g| ==> g[i].0 != g[j].0
  }

  /** `g.get(k)`. */
  function Lookup(g: Graph, k: string): (r: Option<Node>)
    ensures r.Some? <==> k in KeysOf(g)
  {
    if |g| == 0 then None
    else if g[0].0 == k then Some(g[0].1)
    else Lookup(g[1..], k)
  }

  /** `g[k] = v`: an existing key keeps its place and gets the new node, a
      new key is appended; every other key keeps its node. */
  function Set(g: Graph, k: string, v: Node): (r: Graph)
    ensures k in KeysOf(g) ==> KeysOf(r) == KeysOf(g)
    ensures k !in KeysOf(g) ==> KeysOf(r) == KeysOf(g) + [k]
    ensures Lookup(r, k) == Some(v)
    ensures forall k' :: k' != k ==> Lookup(r, k') == Lookup(g, k')
  {
    if |g| == 0 then [(k, v)]
    else if g[0].0 == k then [(k, v)] + g[1..]
    else [g[0]] + Set(g[1..], k, v)
  }

  /** Whether or not the key was there, setting it keeps every key once. */
  lemma SetKeysDistinct(g: Graph, k: string, v: Node)
    requires KeysDistinct(g)
    ensures KeysDistinct(Set(g, k, v))
  {
    var r := Set(g, k, v);
    var ks := KeysOf(r);
    forall i, j | 0 <= i < j < |r| ensures r[i].0 != r[j].0 {
      assert ks[i] == r[i].0 && ks[j] == r[j].0;
      if k in KeysOf(g) {
        assert KeysOf(g)[i] == g[i].0;
      } else {
        assert KeysOf(g) + [k] == ks;
        if j < |g| {
          assert ks[i] == g[i].0 && ks[j] == g[j].0;
        } else {
          assert ks[i] == KeysOf(g)[i];
        }
      }
    }
  }

  /** `g.update(entries)`: the entries set one after the other. */
  function SetAll(g: Graph, entries: Graph): Graph
    decreases |entries|
  {
    if |entries| == 0 then g
    else
      var last := entries[|entries| - 1];
      Set(SetAll(g, entries[..|entries| - 1]), last.0, last.1)
  }

  /** `g.update(entries)`, one entry at a time. */
  method Update(g: Graph, entries: Graph) returns (g': Graph)
    ensures g' == SetAll(g, entries)
  {
    g' := g;
    var j := 0;
    while j < |entries|
      invariant 0 <= j <= |entries|
      invariant g' == SetAll(g, entries[..j])
    {
      assert entries[..j + 1][..j] == entries[..j];
      g' := Set(g', entries[j].0, entries[j].1);
      j := j + 1;
    }
    assert entries[..j] == entries;
  }

  /** Setting keys never removes one. */
  lemma {:induction false} SetAllKeepsKeys(g: Graph, entries: Graph)
    ensures forall k :: k in KeysOf(g) ==> k in KeysOf(SetAll(g, entries))
    ensures forall k :: k in KeysOf(entries) ==> k in KeysOf(SetAll(g, entries))
    ensures KeysDistinct(g) ==> KeysDistinct(SetAll(g, entries))
    decreases |entries|
  {
    if |entries| > 0 {
      var init := entries[..|entries| - 1];
      SetAllKeepsKeys(g, init);
      if KeysDistinct(g) {
        SetKeysDistinct(SetAll(g, init), entries[|entries| - 1].0, entries[|entries| - 1].1);
      }
      assert KeysOf(entries) == KeysOf(init) + [entries[|entries| - 1].0] by {
        assert entries == init + [entries[|entries| - 1]];
        KeysOfAppend(init, [entries[|entries| - 1]]);
      }
    }
  }

  lemma {:induction false} KeysOfAppend(a: Graph, b: Graph)
    ensures KeysOf(a + b) == KeysOf(a) + KeysOf(b)
  {
    assert |KeysOf(a + b)| == |KeysOf(a) + KeysOf(b)|;
    forall i | 0 <= i < |a + b| ensures KeysOf(a + b)[i] == (KeysOf(a) + KeysOf(b))[i] {
      if i < |a| {
        assert (a + b)[i] == a[i];
      } else {
        assert (a + b)[i] == b[i - |a|];
      }
    }
  }

  /** After `g.update(entries)` a key holds the node of its last entry. */
  lemma {:induction false} SetAllLookup(g: Graph, entries: Graph, k: string, j: nat)
    requires j < |entries| && entries[j].0 == k
    requires forall j' :: j < j' < |entries| ==> entries[j'].0 != k
    ensures Lookup(SetAll(g, entries), k) == Some(entries[j].1)
    decreases |entries|
  {
    if j < |entries| - 1 {
      SetAllLookup(g, entries[..|entries| - 1], k, j);
    }
  }

  /** Keys that no entry sets keep their node. */
  lemma {:induction false} SetAllLookupUntouched(g: Graph, entries: Graph, k: string)
    requires k !in KeysOf(entries)
    ensures Lookup(SetAll(g, entries), k) == Lookup(g, k)
    decreases |entries|
  {
    if |entries| > 0 {
      var init := entries[..|entries| - 1];
      assert entries[|entries| - 1].0 == KeysOf(entries)[|entries| - 1];
      assert k !in KeysOf(init) by {
        forall i | 0 <= i < |init| ensures KeysOf(init)[i] != k {
          assert KeysOf(init)[i] == KeysOf(entries)[i];
        }
      }
      SetAllLookupUntouched(g, init, k);
    }
  }

  /* ---------------- Renaming ---------------- */

  /** `" " + str(idx)` when a counter is given, otherwise nothing. */
  function IndexSuffix(idx: Option<nat>): string
  {
    match idx
    case None => ""
    case Some(k) => " " + NatToString(k)
  }

  /** `f"{prefix} Pipeline{idx} - {name}"`. */
  function RenamedName(prefix: string, idx: Option<nat>, name: string): string
  {
    Concat([prefix, " Pipeline", IndexSuffix(idx), " - ", name])
  }

  /** The pieces of a name, one after the other. */
  function Concat(parts: seq<string>): string
  {
    if |parts| == 0 then "" else parts[0] + Concat(parts[1..])
  }

  lemma RenamedNamePieces(prefix: string, idx: Option<nat>, name: string)
    ensures RenamedName(prefix, idx, name) == prefix + " Pipeline" + IndexSuffix(idx) + " - " + name
  {
    var suffix := IndexSuffix(idx);
    var p4: seq<string> := [name];
    assert p4[1..] == [];
    var p3: seq<string> := [" - ", name];
    assert p3[1..] == p4;
    var p2: seq<string> := [suffix, " - ", name];
    assert p2[1..] == p3;
    var p1: seq<string> := [" Pipeline", suffix, " - ", name];
    assert p1[1..] == p2;
    var p0: seq<string> := [prefix, " Pipeline", suffix, " - ", name];
    assert p0[1..] == p1;
    assert Concat(p4) == name;
    assert Concat(p3) == " - " + name;
    assert Concat(p2) == suffix + " - " + name;
    assert Concat(p1) == " Pipeline" + suffix + " - " + name;
    assert Concat(p0) == prefix + (" Pipeline" + suffix + " - " + name);
  }

  lemma SuffixParts(d: string, n: string)
    requires AllDigits(d) && |d| > 0
    ensures var t := " " + d + " - " + n;
            && t[1..1 + |d|] == d && t[1 + |d|] == ' ' && t[1 + |d| + 3..] == n
  {
  }

  function Tail(idx: Option<nat>, name: string): string
  {
    IndexSuffix(idx) + " - " + name
  }

  lemma TailNoneSome(n1: string, b: nat, n2: string)
    ensures Tail(None, n1) != Tail(Some(b), n2)
  {
    var db := NatToString(b);
    NatToStringDigits(b);
    assert Tail(None, n1)[1] == '-';
    assert Tail(Some(b), n2) == " " + db + " - " + n2;
    assert Tail(Some(b), n2)[1] == db[0];
    assert IsDigit(db[0]);
  }

  lemma TailSomeSome(a: nat, n1: string, b: nat, n2: string)
    requires Tail(Some(a), n1) == Tail(Some(b), n2)
    ensures a == b && n1 == n2
  {
    var da, db := NatToString(a), NatToString(b);
    NatToStringDigits(a);
    NatToStringDigits(b);
    var t1, t2 := Tail(Some(a), n1), Tail(Some(b), n2);
    assert t1 == " " + da + " - " + n1;
    assert t2 == " " + db + " - " + n2;
    SuffixParts(da, n1);
    SuffixParts(db, n2);
    if |da| == |db| {
      assert da == t1[1..1 + |da|] == db;
      NatToStringInjective(a, b);
    }
  }

  lemma StripHead(h: string, t1: string, t2: string)
    requires h + t1 == h + t2
    ensures t1 == t2
  {
    assert t1 == (h + t1)[|h|..];
    assert t2 == (h + t2)[|h|..];
  }

  lemma RenamedNameHeadTail(prefix: string, idx: Option<nat>, name: string)
    ensures RenamedName(prefix, idx, name) == (prefix + " Pipeline") + Tail(idx, name)
  {
    RenamedNamePieces(prefix, idx, name);
  }

  lemma TailInjective(i1: Option<nat>, n1: string, i2: Option<nat>, n2: string)
    requires Tail(i1, n1) == Tail(i2, n2)
    ensures i1 == i2 && n1 == n2
  {
    if i1.None? && i2.None? {
      assert n1 == Tail(i1, n1)[3..] && n2 == Tail(i2, n2)[3..];
    } else if i1.None? {
      TailNoneSome(n1, i2.value, n2);
    } else if i2.None? {
      TailNoneSome(n2, i1.value, n1);
    } else {
      TailSomeSome(i1.value, n1, i2.value, n2);
    }
  }

  /** Within one prefix, renaming is injective: distinct counters or distinct
      node names never produce the same name. */
  lemma RenamedNameInjective(prefix: string, i1: Option<nat>, n1: string, i2: Option<nat>, n2: string)
    requires RenamedName(prefix, i1, n1) == RenamedName(prefix, i2, n2)
    ensures i1 == i2 && n1 == n2
  {
    RenamedNameHeadTail(prefix, i1, n1);
    RenamedNameHeadTail(prefix, i2, n2);
    StripHead(prefix + " Pipeline", Tail(i1, n1), Tail(i2, n2));
    TailInjective(i1, n1, i2, n2);
  }

  /** A renamed input reference: another node's output is renamed with the
      same prefix and counter; the graph's `y` becomes the label encoder's
      `y` in classification problems; the graph's `X` is redirected when a
      redirection target is given. */
  function RenameRef(r: Ref, prefix: string, idx: Option<nat>, classification: bool,
                     redirectX: Option<string>): (r': Ref)
    ensures r.Out? ==> r' == Out(RenamedName(prefix, idx, r.node), r.slot)
    ensures r.GraphY? ==> (classification <==> r' == Out(LABEL_ENCODER, YSlot)) && (!classification <==> r' == GraphY)
    ensures r.GraphX? && redirectX.None? ==> r' == GraphX
    ensures r.GraphX? && redirectX.Some? ==> r' == Out(redirectX.value, XSlot)
  {
    match r
    case Out(n, s) => Out(RenamedName(prefix, idx, n), s)
    case GraphY => if classification then Out(LABEL_ENCODER, YSlot) else GraphY
    case GraphX => if redirectX.Some? then Out(redirectX.value, XSlot) else GraphX
  }

  /** The parameters that copy one sub-pipeline's renaming. */
  datatype Renaming = Renaming(
    prefix: string,
    idx: Option<nat>,
    classification: bool,
    priorX: Option<string>,
    firstX: string)

  /** The graph's `X` is redirected only in the fed node, the first one the
      sub-pipeline computes on `X`. */
  function RedirectFor(name: string, ren: Renaming): Option<string>
  {
    if name == ren.firstX then ren.priorX else None
  }

  /** A copied entry: the renamed node name, the component kept, each input renamed. */
  function RenameEntry(e: (string, Node), ren: Renaming): (r: (string, Node))
    ensures r.0 == RenamedName(ren.prefix, ren.idx, e.0) && r.1.component == e.1.component
    ensures |r.1.inputs| == |e.1.inputs|
    ensures forall i :: 0 <= i < |e.1.inputs| ==>
              r.1.inputs[i] == RenameRef(e.1.inputs[i], ren.prefix, ren.idx, ren.classification,
                                         RedirectFor(e.0, ren))
  {
    var redirect := RedirectFor(e.0, ren);
    (RenamedName(ren.prefix, ren.idx, e.0),
     Node(e.1.component,
          seq(|e.1.inputs|, i requires 0 <= i < |e.1.inputs| =>
                RenameRef(e.1.inputs[i], ren.prefix, ren.idx, ren.classification, redirect))))
  }

  function RenamedEntries(entries: Graph, ren: Renaming): (r: Graph)
    ensures |r| == |entries| && forall j :: 0 <= j < |entries| ==> r[j] == RenameEntry(entries[j], ren)
  {
    seq(|entries|, j requires 0 <= j < |entries| => RenameEntry(entries[j], ren))
  }

  /** Renaming a dictionary's entries keeps its keys distinct. */
  lemma RenamedEntriesDistinct(entries: Graph, ren: Renaming)
    requires KeysDistinct(entries)
    ensures KeysDistinct(RenamedEntries(entries, ren))
  {
    var r := RenamedEntries(entries, ren);
    forall i, j | 0 <= i < j < |r| ensures r[i].0 != r[j].0 {
      if r[i].0 == r[j].0 {
        RenamedNameInjective(ren.prefix, ren.idx, entries[i].0, ren.idx, entries[j].0);
      }
    }
  }

  /** Renaming keeps the edges inside a sub-pipeline: an input reading a
      slot of one of its own nodes reads, after renaming, the same slot of
      that node's copy. */
  lemma RenamingPreservesEdges(entries: Graph, ren: Renaming, j: nat, i: nat)
    requires j < |entries| && i < |entries[j].1.inputs|
    requires entries[j].1.inputs[i].Out? && entries[j].1.inputs[i].node in KeysOf(entries)
    ensures var r := RenamedEntries(entries, ren)[j].1.inputs[i];
            && r.Out? && r.slot == entries[j].1.inputs[i].slot
            && r.node in KeysOf(RenamedEntries(entries, ren))
            && r.node == RenamedName(ren.prefix, ren.idx, entries[j].1.inputs[i].node)
  {
    var renamed := RenamedEntries(entries, ren);
    var n := entries[j].1.inputs[i].node;
    var m :| 0 <= m < |entries| && KeysOf(entries)[m] == n;
    assert KeysOf(renamed)[m] == renamed[m].0;
  }

  /** A renamed graph never reads the graph's `y` in a classification problem. */
  lemma RenamedEntriesReadEncodedTarget(entries: Graph, ren: Renaming)
    requires ren.classification
    ensures forall j :: 0 <= j < |entries| ==> GraphY !in RenamedEntries(entries, ren)[j].1.inputs
  {
    forall j | 0 <= j < |entries| ensures GraphY !in RenamedEntries(entries, ren)[j].1.inputs {
      var e := entries[j];
      var r := RenamedEntries(entries, ren)[j];
      forall i | 0 <= i < |r.1.inputs| ensures r.1.inputs[i] != GraphY {
        assert r.1.inputs[i] == RenameRef(e.1.inputs[i], ren.prefix, ren.idx, ren.classification,
                                          RedirectFor(e.0, ren));
      }
    }
  }

  /** The node of the last `"<node>.y"` input among the entries, in dictionary order. */
  function LastYSource(entries: Graph): Option<string>
    decreases |entries|
  {
    if |entries| == 0 then None
    else
      match LastYIn(entries[|entries| - 1].1.inputs)
      case Some(n) => Some(n)
      case None => LastYSource(entries[..|entries| - 1])
  }

  function LastYIn(inputs: seq<Ref>): (r: Option<string>)
    ensures r.Some? ==> Out(r.value, YSlot) in inputs
    ensures r.None? ==> forall i :: 0 <= i < |inputs| ==> !(inputs[i].Out? && inputs[i].slot == YSlot)
    decreases |inputs|
  {
    if |inputs| == 0 then None
    else
      var last := inputs[|inputs| - 1];
      if last.Out? && last.slot == YSlot then Some(last.node)
      else
        var r := LastYIn(inputs[..|inputs| - 1]);
        assert r.Some? ==> Out(r.value, YSlot) in inputs by {
          if r.Some? {
            assert Out(r.value, YSlot) in inputs[..|inputs| - 1];
          }
        }
        r
  }

  /** The `y` the last copied node reading a `.y` gives, renamed, or the graph's `y`. */
  function LastYRef(entries: Graph, ren: Renaming): Ref
  {
    match LastYSource(entries)
    case None => GraphY
    case Some(n) => Out(RenamedName(ren.prefix, ren.idx, n), YSlot)
  }

  /** `sub.parameters.get(name, {})`. */
  function ParamsFor(subParams: ParamsDict, name: string): Params
  {
    if name in subParams then subParams[name] else map[]
  }

  /** The parameter entries written while copying: each renamed node gets the
      sub-pipeline's parameters for the original node. */
  function CopiedParams(params: ParamsDict, entries: Graph, ren: Renaming, subParams: ParamsDict): ParamsDict
    decreases |entries|
  {
    if |entries| == 0 then params
    else
      var n := entries[|entries| - 1].0;
      CopiedParams(params, entries[..|entries| - 1], ren, subParams)
        [RenamedName(ren.prefix, ren.idx, n) := ParamsFor(subParams, n)]
  }

  /** Each renamed node gets the original node's parameters. */
  lemma {:induction false} CopiedParamsValues(params: ParamsDict, entries: Graph, ren: Renaming, subParams: ParamsDict)
    requires KeysDistinct(entries)
    ensures var p := CopiedParams(params, entries, ren, subParams);
            forall j :: 0 <= j < |entries| ==>
              var k := RenamedName(ren.prefix, ren.idx, entries[j].0);
              k in p && p[k] == ParamsFor(subParams, entries[j].0)
    decreases |entries|
  {
    if |entries| > 0 {
      var init := entries[..|entries| - 1];
      var last := |entries| - 1;
      assert KeysDistinct(init);
      CopiedParamsValues(params, init, ren, subParams);
      forall j | 0 <= j < last
        ensures var k := RenamedName(ren.prefix, ren.idx, entries[j].0);
                k in CopiedParams(params, entries, ren, subParams)
                && CopiedParams(params, entries, ren, subParams)[k] == ParamsFor(subParams, entries[j].0)
      {
        assert entries[j] == init[j];
        if RenamedName(ren.prefix, ren.idx, entries[j].0) == RenamedName(ren.prefix, ren.idx, entries[last].0) {
          RenamedNameInjective(ren.prefix, ren.idx, entries[j].0, ren.idx, entries[last].0);
        }
      }
    }
  }

  /** The innermost loop: one node's inputs renamed, and the node of the
      last `.y` among them. */
  method RenameInputs(name: string, node: Node, ren: Renaming)
    returns (newInputs: seq<Ref>, lastY: Option<string>)
    ensures newInputs == RenameEntry((name, node), ren).1.inputs
    ensures lastY == LastYIn(node.inputs)
  {
    newInputs, lastY := [], None;
    ghost var redirect := RedirectFor(name, ren);
    var i := 0;
    while i < |node.inputs|
      invariant 0 <= i <= |node.inputs|
      invariant |newInputs| == i
      invariant forall i' :: 0 <= i' < i ==>
                  newInputs[i'] == RenameRef(node.inputs[i'], ren.prefix, ren.idx, ren.classification, redirect)
      invariant lastY == LastYIn(node.inputs[..i])
    {
      assert node.inputs[..i + 1][..i] == node.inputs[..i];
      match node.inputs[i] {
        case Out(n, s) =>
          newInputs := newInputs + [Out(RenamedName(ren.prefix, ren.idx, n), s)];
          if s == YSlot {
            lastY := Some(n);
          }
        case GraphY =>
          if ren.classification {
            newInputs := newInputs + [Out(LABEL_ENCODER, YSlot)];
          } else {
            newInputs := newInputs + [GraphY];
          }
        case GraphX =>
          if name == ren.firstX && ren.priorX.Some? {
            newInputs := newInputs + [Out(ren.priorX.value, XSlot)];
          } else {
            newInputs := newInputs + [GraphX];
          }
      }
      i := i + 1;
    }
    assert node.inputs[..i] == node.inputs;
  }

  lemma SnocSteps(graph: Graph, params: ParamsDict, entries: Graph, j: nat, ren: Renaming, subParams: ParamsDict)
    requires j < |entries|
    ensures var e := entries[j];
            var r := RenameEntry(e, ren);
            && SetAll(graph, RenamedEntries(entries[..j + 1], ren))
               == Set(SetAll(graph, RenamedEntries(entries[..j], ren)), r.0, r.1)
            && CopiedParams(params, entries[..j + 1], ren, subParams)
               == CopiedParams(params, entries[..j], ren, subParams)[r.0 := ParamsFor(subParams, e.0)]
            && LastYRef(entries[..j + 1], ren)
               == match LastYIn(e.1.inputs)
                  case Some(n) => Out(RenamedName(ren.prefix, ren.idx, n), YSlot)
                  case None => LastYRef(entries[..j], ren)
  {
    var pre := entries[..j + 1];
    assert pre[..j] == entries[..j];
    assert pre[j] == entries[j];
    var rs := RenamedEntries(pre, ren);
    assert rs[..j] == RenamedEntries(entries[..j], ren);
  }

  /** The names the renamed entries are written under. */
  function CopiedKeys(entries: Graph, ren: Renaming): set<string>
  {
    set j | 0 <= j < |entries| :: RenamedName(ren.prefix, ren.idx, entries[j].0)
  }

  /** Copying adds exactly the renamed names to the parameters' keys and
      leaves the value of every other key alone. */
  lemma {:induction false} CopiedParamsKeys(params: ParamsDict, entries: Graph, ren: Renaming, subParams: ParamsDict)
    ensures CopiedParams(params, entries, ren, subParams).Keys == params.Keys + CopiedKeys(entries, ren)
    ensures forall key :: key in params && key !in CopiedKeys(entries, ren) ==>
              CopiedParams(params, entries, ren, subParams)[key] == params[key]
    decreases |entries|
  {
    if |entries| > 0 {
      var n := |entries| - 1;
      var init := entries[..n];
      CopiedParamsKeys(params, init, ren, subParams);
      assert forall j :: 0 <= j < n ==> init[j] == entries[j];
      assert CopiedKeys(entries, ren) == CopiedKeys(init, ren) + {RenamedName(ren.prefix, ren.idx, entries[n].0)} by {
        forall key | key in CopiedKeys(entries, ren)
          ensures key in CopiedKeys(init, ren) + {RenamedName(ren.prefix, ren.idx, entries[n].0)}
        {
          var j :| 0 <= j < |entries| && key == RenamedName(ren.prefix, ren.idx, entries[j].0);
          if j < n {
            assert key == RenamedName(ren.prefix, ren.idx, init[j].0);
          }
        }
      }
    }
  }

  /** The state after copying the first `j` entries, in closed form. */
  ghost predicate EntriesCopied(graph: Graph, params: ParamsDict, entries: Graph, ren: Renaming, subParams: ParamsDict,
                                j: nat, graph': Graph, params': ParamsDict, lastY: Ref)
  {
    && j <= |entries|
    && graph' == SetAll(graph, RenamedEntries(entries[..j], ren))
    && params' == CopiedParams(params, entries[..j], ren, subParams)
    && lastY == LastYRef(entries[..j], ren)
  }

  /** One round of the inner loop: entry `j` renamed and written. */
  method CopyEntry(graph: Graph, params: ParamsDict, entries: Graph, ren: Renaming, subParams: ParamsDict,
                   j: nat, graph': Graph, params': ParamsDict, lastY: Ref)
    returns (graph'': Graph, params'': ParamsDict, lastY': Ref)
    requires j < |entries| && EntriesCopied(graph, params, entries, ren, subParams, j, graph', params', lastY)
    ensures EntriesCopied(graph, params, entries, ren, subParams, j + 1, graph'', params'', lastY')
  {
    var (name, node) := entries[j];
    var newName := RenamedName(ren.prefix, ren.idx, name);
    params'' := params'[newName := ParamsFor(subParams, name)];
    var newInputs, y := RenameInputs(name, node, ren);
    lastY' := lastY;
    if y.Some? {
      lastY' := Out(RenamedName(ren.prefix, ren.idx, y.value), YSlot);
    }
    SnocSteps(graph, params, entries, j, ren, subParams);
    graph'' := Set(graph', newName, Node(node.component, newInputs));
  }

  /** The inner loops of both graph builders: copy one sub-pipeline's entries
      into `graph`, renaming each node and each of its inputs, write each
      renamed node's parameters, and track the last `.y` input met. */
  method CopySubPipeline(graph: Graph, params: ParamsDict, entries: Graph, ren: Renaming, subParams: ParamsDict)
    returns (graph': Graph, params': ParamsDict, lastY: Ref)
    ensures graph' == SetAll(graph, RenamedEntries(entries, ren))
    ensures params' == CopiedParams(params, entries, ren, subParams)
    ensures lastY == LastYRef(entries, ren)
  {
    graph', params', lastY := graph, params, GraphY;
    var j := 0;
    while j < |entries|
      invariant EntriesCopied(graph, params, entries, ren, subParams, j, graph', params', lastY)
    {
      graph', params', lastY := CopyEntry(graph, params, entries, ren, subParams, j, graph', params', lastY);
      j := j + 1;
    }
    assert entries[..j] == entries;
  }

  /* ---------------- Sub-pipelines ---------------- */

  /** An input pipeline: its name, its graph, its compute order (an ordering
      of the graph's nodes) and its parameters. */
  datatype SubPipeline = SubPipeline(
    name: string,
    graph: Graph,
    computeOrder: seq<string>,
    parameters: ParamsDict)

  /** What a component graph guarantees: one entry per node and a compute
      order over exactly those nodes. */
  predicate WellFormedSub(p: SubPipeline)
  {
    KeysDistinct(p.graph) && |p.computeOrder| == |p.graph|
    && (forall n :: n in p.computeOrder ==> n in KeysOf(p.graph))
    && (forall n :: n in KeysOf(p.graph) ==> n in p.computeOrder)
  }

  function Count(names: seq<string>, name: string): nat
  {
    if |names| == 0 then 0
    else Count(names[..|names| - 1], name) + (if names[|names| - 1] == name then 1 else 0)
  }

  /** The duplicate counter: none for the first use of a name, otherwise the
      number of earlier uses plus one. */
  function OccurrenceIdx(used: seq<string>, name: string): (idx: Option<nat>)
    ensures idx.None? <==> name !in used
    ensures idx.Some? ==> idx.value >= 2
  {
    CountPositive(used, name);
    var c := Count(used, name);
    if c > 0 then Some(c + 1) else None
  }

  lemma {:induction false} CountPositive(names: seq<string>, name: string)
    ensures Count(names, name) > 0 <==> name in names
    decreases |names|
  {
    if |names| > 0 {
      var init := names[..|names| - 1];
      CountPositive(init, name);
      assert names == init + [names[|names| - 1]];
    }
  }

  lemma {:induction false} CountGrows(names: seq<string>, k1: nat, k2: nat, name: string)
    requires k1 < k2 <= |names| && names[k1] == name
    ensures Count(names[..k1], name) < Count(names[..k2], name)
    decreases k2
  {
    var a := names[..k2];
    assert a[..k2 - 1] == names[..k2 - 1];
    if k2 - 1 == k1 {
      assert a[k2 - 1] == name;
    } else {
      CountGrows(names, k1, k2 - 1, name);
    }
  }

  /** Two uses of the same name get different counters. */
  lemma OccurrenceIdxDistinct(names: seq<string>, k1: nat, k2: nat)
    requires k1 < k2 < |names| && names[k1] == names[k2]
    ensures OccurrenceIdx(names[..k1], names[k1]) != OccurrenceIdx(names[..k2], names[k2])
  {
    CountGrows(names, k1, k2, names[k1]);
    CountPositive(names[..k2], names[k2]);
    assert names[k1] in names[..k2];
  }

  /** Names of the pipelines, in order. */
  function NamesOf(subs: seq<SubPipeline>): (ns: seq<string>)
    ensures |ns| == |subs| && forall k :: 0 <= k < |subs| ==> ns[k] == subs[k].name
  {
    seq(|subs|, k requires 0 <= k < |subs| => subs[k].name)
  }

  lemma NamesOfStep(subs: seq<SubPipeline>, k: nat)
    requires k < |subs|
    ensures NamesOf(subs[..k + 1]) == NamesOf(subs[..k]) + [subs[k].name]
  {
    var l, r := NamesOf(subs[..k + 1]), NamesOf(subs[..k]) + [subs[k].name];
    forall i | 0 <= i < k + 1 ensures l[i] == r[i] {
      if i < k {
        assert subs[..k + 1][i] == subs[..k][i];
      }
    }
  }

  /** The key the copy loop of one sub-pipeline writes last (`final_component`);
      the empty name stands for a graph with no node, which raises before. */
  function LastKey(g: Graph): (r: string)
    ensures |g| > 0 ==> r == KeysOf(g)[|g| - 1]
  {
    if |g| == 0 then "" else g[|g| - 1].0
  }

  /* ---------------- Copying a sequence of sub-pipelines ---------------- */

  /** One round of a graph builder's outer loop: a sub-pipeline's entries and
      parameters, and the renaming they are copied under. */
  datatype Copy = Copy(entries: Graph, ren: Renaming, parameters: ParamsDict)

  /** The graph after the copies, one after the other, into `g0`. */
  function GraphAfter(g0: Graph, cs: seq<Copy>): Graph
    decreases |cs|
  {
    if |cs| == 0 then g0
    else
      var c := cs[|cs| - 1];
      SetAll(GraphAfter(g0, cs[..|cs| - 1]), RenamedEntries(c.entries, c.ren))
  }

  /** The parameters after the copies, one after the other, into `p0`. */
  function ParamsAfter(p0: ParamsDict, cs: seq<Copy>): ParamsDict
    decreases |cs|
  {
    if |cs| == 0 then p0
    else
      var c := cs[|cs| - 1];
      CopiedParams(ParamsAfter(p0, cs[..|cs| - 1]), c.entries, c.ren, c.parameters)
  }

  /** The names the copies write. */
  function KeysAfter(cs: seq<Copy>): set<string>
    decreases |cs|
  {
    if |cs| == 0 then {}
    else
      var c := cs[|cs| - 1];
      KeysAfter(cs[..|cs| - 1]) + CopiedKeys(c.entries, c.ren)
  }

  /** `final_components`: each copy's renamed last entry, in order. */
  function FinalsOf(cs: seq<Copy>): (fs: seq<string>)
    ensures |fs| == |cs|
    ensures forall k :: 0 <= k < |cs| ==> fs[k] == RenamedName(cs[k].ren.prefix, cs[k].ren.idx, LastKey(cs[k].entries))
  {
    seq(|cs|, k requires 0 <= k < |cs| => RenamedName(cs[k].ren.prefix, cs[k].ren.idx, LastKey(cs[k].entries)))
  }

  /** One more copy, in closed form. */
  lemma CopiesStep(g0: Graph, p0: ParamsDict, cs: seq<Copy>, k: nat)
    requires k < |cs|
    ensures var c := cs[k];
            && GraphAfter(g0, cs[..k + 1]) == SetAll(GraphAfter(g0, cs[..k]), RenamedEntries(c.entries, c.ren))
            && ParamsAfter(p0, cs[..k + 1]) == CopiedParams(ParamsAfter(p0, cs[..k]), c.entries, c.ren, c.parameters)
  {
    assert cs[..k + 1][..k] == cs[..k];
  }

  lemma FinalsOfStep(cs: seq<Copy>, k: nat)
    requires k < |cs|
    ensures FinalsOf(cs[..k + 1]) == FinalsOf(cs[..k]) + [RenamedName(cs[k].ren.prefix, cs[k].ren.idx, LastKey(cs[k].entries))]
  {
    var l, r := FinalsOf(cs[..k + 1]), FinalsOf(cs[..k]) + [RenamedName(cs[k].ren.prefix, cs[k].ren.idx, LastKey(cs[k].entries))];
    forall i | 0 <= i < k + 1 ensures l[i] == r[i] {
      if i < k {
        assert cs[..k + 1][i] == cs[..k][i];
      }
    }
  }

  /** Copying removes no key, keeps the keys distinct, and adds every copied name. */
  lemma {:induction false} GraphAfterKeys(g0: Graph, cs: seq<Copy>)
    ensures forall key :: key in KeysOf(g0) ==> key in KeysOf(GraphAfter(g0, cs))
    ensures KeysDistinct(g0) ==> KeysDistinct(GraphAfter(g0, cs))
    ensures forall key :: key in KeysAfter(cs) ==> key in KeysOf(GraphAfter(g0, cs))
    decreases |cs|
  {
    if |cs| > 0 {
      var c := cs[|cs| - 1];
      GraphAfterKeys(g0, cs[..|cs| - 1]);
      var entries := RenamedEntries(c.entries, c.ren);
      SetAllKeepsKeys(GraphAfter(g0, cs[..|cs| - 1]), entries);
      forall key | key in CopiedKeys(c.entries, c.ren) ensures key in KeysOf(GraphAfter(g0, cs)) {
        var j :| 0 <= j < |c.entries| && key == RenamedName(c.ren.prefix, c.ren.idx, c.entries[j].0);
        assert KeysOf(entries)[j] == entries[j].0;
      }
    }
  }

  /** A key no copy writes keeps its node. */
  lemma {:induction false} GraphAfterLookupUntouched(g0: Graph, cs: seq<Copy>, key: string)
    requires key !in KeysAfter(cs)
    ensures Lookup(GraphAfter(g0, cs), key) == Lookup(g0, key)
    decreases |cs|
  {
    if |cs| > 0 {
      var c := cs[|cs| - 1];
      var entries := RenamedEntries(c.entries, c.ren);
      assert key !in KeysOf(entries) by {
        forall j | 0 <= j < |entries| ensures KeysOf(entries)[j] != key {
          assert KeysOf(entries)[j] == RenamedName(c.ren.prefix, c.ren.idx, c.entries[j].0);
        }
      }
      SetAllLookupUntouched(GraphAfter(g0, cs[..|cs| - 1]), entries, key);
      GraphAfterLookupUntouched(g0, cs[..|cs| - 1], key);
    }
  }

  /** A renamed node is never the label encoder: its name holds " Pipeline". */
  lemma RenamedNameNotLabelEncoder(prefix: string, idx: Option<nat>, name: string)
    ensures RenamedName(prefix, idx, name) != LABEL_ENCODER
  {
    RenamedNamePieces(prefix, idx, name);
    var r := RenamedName(prefix, idx, name);
    assert r[|prefix| + 1] == 'P';
    assert forall i :: 0 <= i < |LABEL_ENCODER| ==> LABEL_ENCODER[i] != 'P';
  }

  /** No copy writes the label encoder's key. */
  lemma {:induction false} KeysAfterNoLabelEncoder(cs: seq<Copy>)
    ensures LABEL_ENCODER !in KeysAfter(cs)
    decreases |cs|
  {
    if |cs| > 0 {
      var c := cs[|cs| - 1];
      KeysAfterNoLabelEncoder(cs[..|cs| - 1]);
      forall j | 0 <= j < |c.entries| ensures RenamedName(c.ren.prefix, c.ren.idx, c.entries[j].0) != LABEL_ENCODER {
        RenamedNameNotLabelEncoder(c.ren.prefix, c.ren.idx, c.entries[j].0);
      }
    }
  }

  /** Each copy's final component is a node of the built graph, when that
      copy has a node at all. */
  lemma FinalsInGraph(g0: Graph, cs: seq<Copy>, k: nat)
    requires k < |cs| && |cs[k].entries| > 0
    ensures FinalsOf(cs)[k] in KeysOf(GraphAfter(g0, cs))
  {
    var c := cs[k];
    var j := |c.entries| - 1;
    assert FinalsOf(cs)[k] == RenamedName(c.ren.prefix, c.ren.idx, c.entries[j].0);
    assert FinalsOf(cs)[k] in CopiedKeys(c.entries, c.ren);
    KeysAfterCopied(cs, k);
    GraphAfterKeys(g0, cs);
  }

  lemma {:induction false} KeysAfterCopied(cs: seq<Copy>, k: nat)
    requires k < |cs|
    ensures CopiedKeys(cs[k].entries, cs[k].ren) <= KeysAfter(cs)
    decreases |cs|
  {
    if k < |cs| - 1 {
      var init := cs[..|cs| - 1];
      assert init[k] == cs[k];
      KeysAfterCopied(init, k);
    }
  }

  /** The parameters end up holding the initial keys and the copied names
      and nothing else; an initial key no copy writes keeps its value. */
  lemma {:induction false} ParamsAfterSpec(p0: ParamsDict, cs: seq<Copy>)
    ensures ParamsAfter(p0, cs).Keys == p0.Keys + KeysAfter(cs)
    ensures forall key :: key in p0 && key !in KeysAfter(cs) ==> ParamsAfter(p0, cs)[key] == p0[key]
    decreases |cs|
  {
    if |cs| > 0 {
      var c := cs[|cs| - 1];
      ParamsAfterSpec(p0, cs[..|cs| - 1]);
      CopiedParamsKeys(ParamsAfter(p0, cs[..|cs| - 1]), c.entries, c.ren, c.parameters);
    }
  }

  /** The pipeline handed to the pipeline class of the problem type by both graph builders. */
  datatype Pipeline = Pipeline(
    problemType: ProblemType,
    graph: Graph,
    parameters: ParamsDict,
    customName: Option<string>,
    randomSeed: int)

  /** `[comp + ".x" for comp in final_components]`. */
  function XOutputs(nodes: seq<string>): (rs: seq<Ref>)
    ensures |rs| == |nodes| && forall k :: 0 <= k < |nodes| ==> rs[k] == Out(nodes[k], XSlot)
  {
    seq(|nodes|, k requires 0 <= k < |nodes| => Out(nodes[k], XSlot))
  }
}
