/**
 * Prize-collecting Steiner tree pruning of a retrieved neighbourhood: node
 * texts for embedding, clamped similarity prizes, the boost of the top
 * prizes, the translation of edges into solver indices and of the solver's
 * answer back into node and edge records.
 *
 * The `pcst_fast` solver, numpy's `argsort` and the cosine ratio are
 * parameters; each is used only through what it promises.
 */
module Pcst {
  import opened Wrappers
  import opened Text
  import opened Rounding
  import opened PyValue

  // ---------------------------------------------------------------------------
  // node_text
  // ---------------------------------------------------------------------------

  const InternalKeys: set<string> := {"_id", "_labels", "embedding", "vector"}
  const PriorityKeys: seq<string> := ["name", "title", "description"]
  const MaxPropLen := 200

  /** What iterating a `_labels` value yields, shown with `str`; `None` when it is not iterable. */
  function LabelWords(v: Value): Option<seq<string>>
  {
    match v
    case List(items) => Some(seq(|items|, i requires 0 <= i < |items| => Show(items[i])))
    case Str(s) => Some(seq(|s|, i requires 0 <= i < |s| => [s[i]]))
    case Obj(fields) => Some(Keys(fields))
    case _ => None
  }

  /** The labels part: none when `_labels` is absent or falsy, `None` when iterating it raises. */
  function LabelPart(node: Dict): Option<seq<string>>
  {
    var v := Get(node, "_labels").GetOr(List([]));
    if !Truthy(v) then Some([])
    else match LabelWords(v)
      case None => None
      case Some(ws) => Some([Join(ws, " ")])
  }

  predicate NonEmptyStr(v: Option<Value>)
  {
    v.Some? && v.value.Str? && v.value.s != ""
  }

  /** name, title and description, each when it is a non-empty string. */
  function PriorityParts(node: Dict): seq<string>
  {
    (if NonEmptyStr(Get(node, "name")) then [Get(node, "name").value.s] else [])
    + (if NonEmptyStr(Get(node, "title")) then [Get(node, "title").value.s] else [])
    + (if NonEmptyStr(Get(node, "description")) then [Get(node, "description").value.s] else [])
  }

  /** A further property that joins the text: a short non-empty string under an ordinary key. */
  predicate IsOtherPart(entry: (string, Value))
  {
    && entry.0 !in InternalKeys
    && entry.0 !in PriorityKeys
    && entry.1.Str?
    && 0 < |entry.1.s| <= MaxPropLen
  }

  function OtherParts(entries: Dict): seq<string>
    decreases |entries|
  {
    if |entries| == 0 then []
    else
      var e := entries[|entries| - 1];
      OtherParts(entries[..|entries| - 1]) + (if IsOtherPart(e) then [e.1.s] else [])
  }

  function NodeTextOf(node: Dict): Option<string>
  {
    match LabelPart(node)
    case None => None
    case Some(lp) => Some(Join(lp + PriorityParts(node) + OtherParts(node), " "))
  }

  /** `node_text`: `None` stands for the TypeError of a non-iterable `_labels`. */
  method NodeText(node: Dict) returns (r: Option<string>)
    ensures r == NodeTextOf(node)
  {
    var parts: seq<string> := [];
    var labels := Get(node, "_labels").GetOr(List([]));
    if Truthy(labels) {
      var words := LabelWords(labels);
      if words.None? {
        return None;
      }
      parts := [Join(words.value, " ")];
    }
    assert LabelPart(node) == Some(parts);
    var k := 0;
    while k < 2
      invariant 0 <= k <= 2
      invariant parts == LabelPart(node).value + PriorityPartsUpTo(node, k)
    {
      var val := Get(node, PriorityKeys[k]);
      if val.Some? && val.value.Str? && val.value.s != "" {
        parts := parts + [val.value.s];
      }
      k := k + 1;
    }
    var desc := Get(node, "description");
    if desc.Some? && desc.value.Str? && desc.value.s != "" {
      parts := parts + [desc.value.s];
    }
    assert PriorityKeys[2] == "description";
    assert parts == LabelPart(node).value + PriorityPartsUpTo(node, 3);
    PriorityPartsAll(node);
    var others := CollectOtherParts(node);
    parts := parts + others;
    r := Some(Join(parts, " "));
  }

  function PriorityPartsUpTo(node: Dict, k: nat): seq<string>
    requires k <= |PriorityKeys|
  {
    if k == 0 then []
    else
      var v := Get(node, PriorityKeys[k - 1]);
      PriorityPartsUpTo(node, k - 1) + (if NonEmptyStr(v) then [v.value.s] else [])
  }

  lemma PriorityPartsAll(node: Dict)
    ensures PriorityPartsUpTo(node, 3) == PriorityParts(node)
  {
    assert PriorityKeys[0] == "name" && PriorityKeys[1] == "title" && PriorityKeys[2] == "description";
    var n := if NonEmptyStr(Get(node, "name")) then [Get(node, "name").value.s] else [];
    var t := if NonEmptyStr(Get(node, "title")) then [Get(node, "title").value.s] else [];
    var d := if NonEmptyStr(Get(node, "description")) then [Get(node, "description").value.s] else [];
    assert PriorityPartsUpTo(node, 1) == [] + n;
    assert PriorityPartsUpTo(node, 2) == [] + n + t;
    assert PriorityPartsUpTo(node, 3) == [] + n + t + d;
  }

  method CollectOtherParts(node: Dict) returns (parts: seq<string>)
    ensures parts == OtherParts(node)
  {
    parts := [];
    var i := 0;
    while i < |node|
      invariant 0 <= i <= |node|
      invariant parts == OtherParts(node[..i])
    {
      var (key, val) := node[i];
      if key !in InternalKeys && key !in PriorityKeys && val.Str? && 0 < |val.s| <= MaxPropLen {
        parts := parts + [val.s];
      }
      assert node[..i + 1][..i] == node[..i];
      i := i + 1;
    }
    assert node[..i] == node;
  }

  /** A further part is exactly a short non-empty string stored under a key that is neither internal nor a priority key. */
  lemma {:induction false} OtherPartsMeaning(entries: Dict, s: string)
    ensures s in OtherParts(entries) <==> exists k :: 0 <= k < |entries| && IsOtherPart(entries[k]) && entries[k].1.s == s
    decreases |entries|
  {
    if |entries| > 0 {
      var init := entries[..|entries| - 1];
      OtherPartsMeaning(init, s);
      if exists k :: 0 <= k < |entries| && IsOtherPart(entries[k]) && entries[k].1.s == s {
        var k :| 0 <= k < |entries| && IsOtherPart(entries[k]) && entries[k].1.s == s;
        if k < |entries| - 1 { assert init[k] == entries[k]; }
      }
      if s in OtherParts(init) {
        var k :| 0 <= k < |init| && IsOtherPart(init[k]) && init[k].1.s == s;
        assert entries[k] == init[k];
      }
    }
  }

  /** An empty node has the empty text; a node holding only a name is described by that name. */
  lemma NodeTextSmall(name: string)
    ensures NodeTextOf([]) == Some("")
    ensures name != "" ==> NodeTextOf([("name", Str(name))]) == Some(name)
  {
    var node := [("name", Str(name))];
    assert OtherParts(node) == OtherParts([]) by {
      assert node[..0] == [];
    }
  }

  // ---------------------------------------------------------------------------
  // Prizes
  // ---------------------------------------------------------------------------

  predicate IsZeroVector(v: seq<real>)
  {
    forall i :: 0 <= i < |v| ==> v[i] == 0.0
  }

  /**
   * `_cosine_similarity`: 0 when either vector has norm 0, else the ratio
   * the numeric library computes (a parameter here).
   */
  function Cosine(a: seq<real>, b: seq<real>, ratio: (seq<real>, seq<real>) -> real): real
  {
    if IsZeroVector(a) || IsZeroVector(b) then 0.0 else ratio(a, b)
  }

  function Prizes(embs: seq<seq<real>>, q: seq<real>, ratio: (seq<real>, seq<real>) -> real): (r: seq<real>)
    ensures |r| == |embs|
  {
    seq(|embs|, i requires 0 <= i < |embs| => Clamp01(Cosine(embs[i], q, ratio)))
  }

  /** `compute_node_prizes`. */
  method ComputeNodePrizes(embs: seq<seq<real>>, q: seq<real>, ratio: (seq<real>, seq<real>) -> real)
    returns (prizes: seq<real>)
    ensures prizes == Prizes(embs, q, ratio)
  {
    prizes := [];
    var i := 0;
    while i < |embs|
      invariant 0 <= i <= |embs|
      invariant |prizes| == i
      invariant forall j :: 0 <= j < i ==> prizes[j] == Clamp01(Cosine(embs[j], q, ratio))
    {
      var sim := Cosine(embs[i], q, ratio);
      prizes := prizes + [Clamp01(sim)];
      i := i + 1;
    }
    assert forall j :: 0 <= j < |embs| ==> prizes[j] == Prizes(embs, q, ratio)[j];
  }

  /** One prize per embedding, each in [0, 1]; a zero vector or a negative similarity earns 0. */
  lemma PrizesMeaning(embs: seq<seq<real>>, q: seq<real>, ratio: (seq<real>, seq<real>) -> real, i: nat)
    requires i < |embs|
    ensures |Prizes(embs, q, ratio)| == |embs|
    ensures InUnit(Prizes(embs, q, ratio)[i])
    ensures IsZeroVector(embs[i]) || IsZeroVector(q) ==> Prizes(embs, q, ratio)[i] == 0.0
    ensures !IsZeroVector(embs[i]) && !IsZeroVector(q) && ratio(embs[i], q) < 0.0 ==> Prizes(embs, q, ratio)[i] == 0.0
    ensures InUnit(Cosine(embs[i], q, ratio)) ==> Prizes(embs, q, ratio)[i] == Cosine(embs[i], q, ratio)
  {
  }

  // ---------------------------------------------------------------------------
  // Top-K boost
  // ---------------------------------------------------------------------------

  /** `np.argsort(p)`: a permutation of the indices that lists the prizes in ascending order. */
  predicate IsArgsort(order: seq<nat>, p: seq<real>)
  {
    && |order| == |p|
    && (forall i :: 0 <= i < |order| ==> order[i] < |p|)
    && (forall i, j :: 0 <= i < j < |order| ==> order[i] != order[j])
    && (forall i, j :: 0 <= i < j < |order| ==> p[order[i]] <= p[order[j]])
  }

  /** `xs[start:]` for a Python int `start`. */
  function SliceFrom<T>(xs: seq<T>, start: int): (r: seq<T>)
    ensures |r| <= |xs| && r == xs[|xs| - |r|..]
  {
    if start < 0 then (if |xs| + start <= 0 then xs else xs[|xs| + start..])
    else if start >= |xs| then []
    else xs[start..]
  }

  /** `argsort(p)[-max_nodes:]`: the indices of the highest prizes. */
  function TopK(order: seq<nat>, maxNodes: int): seq<nat>
  {
    SliceFrom(order, -maxNodes)
  }

  function Sum(xs: seq<real>): real
    decreases |xs|
  {
    if |xs| == 0 then 0.0 else Sum(xs[..|xs| - 1]) + xs[|xs| - 1]
  }

  function At(p: seq<real>, top: seq<nat>): (r: seq<real>)
    requires forall i :: 0 <= i < |top| ==> top[i] < |p|
    ensures |r| == |top|
  {
    seq(|top|, i requires 0 <= i < |top| => p[top[i]])
  }

  /**
   * `mean(prizes[top]) + 1`. With no top index numpy's mean is not a
   * number, but then no prize is multiplied by it.
   */
  function BoostFactor(p: seq<real>, top: seq<nat>): real
    requires forall i :: 0 <= i < |top| ==> top[i] < |p|
  {
    if |top| == 0 then 1.0 else Sum(At(p, top)) / |top| as real + 1.0
  }

  function Scaled(p: seq<real>, top: seq<nat>, boost: real): (r: seq<real>)
    ensures |r| == |p|
  {
    seq(|p|, i requires 0 <= i < |p| => if i in top then p[i] * boost else p[i])
  }

  /** The prizes handed to the solver. */
  function BoostedPrizes(p: seq<real>, order: seq<nat>, maxNodes: int): (r: seq<real>)
    requires forall i :: 0 <= i < |order| ==> order[i] < |p|
    ensures |r| == |p|
  {
    if |p| > maxNodes then
      var top := TopK(order, maxNodes);
      Scaled(p, top, BoostFactor(p, top))
    else p
  }

  /** The in-place multiplication loop over the top indices. */
  method BoostTop(a: array<real>, top: seq<nat>, boost: real)
    requires forall i :: 0 <= i < |top| ==> top[i] < a.Length
    requires forall i, j :: 0 <= i < j < |top| ==> top[i] != top[j]
    modifies a
    ensures a[..] == Scaled(old(a[..]), top, boost)
  {
    var k := 0;
    while k < |top|
      invariant 0 <= k <= |top|
      invariant forall j :: 0 <= j < a.Length ==>
        a[j] == if j in top[..k] then old(a[j]) * boost else old(a[j])
    {
      var i := top[k];
      assert i !in top[..k];
      a[i] := a[i] * boost;
      assert top[..k + 1] == top[..k] + [i];
      k := k + 1;
    }
    assert top[..k] == top;
  }

  lemma {:induction false} SumBounds(xs: seq<real>)
    requires forall i :: 0 <= i < |xs| ==> InUnit(xs[i])
    ensures 0.0 <= Sum(xs) <= |xs| as real
    decreases |xs|
  {
    if |xs| > 0 {
      SumBounds(xs[..|xs| - 1]);
    }
  }

  /** With prizes in [0, 1] the boost factor is between 1 and 2. */
  lemma BoostFactorBounds(p: seq<real>, top: seq<nat>)
    requires forall i :: 0 <= i < |top| ==> top[i] < |p|
    requires forall k :: 0 <= k < |p| ==> InUnit(p[k])
    ensures 1.0 <= BoostFactor(p, top) <= 2.0
  {
    if |top| > 0 {
      var xs := At(p, top);
      SumBounds(xs);
      var n := |top| as real;
      var s := Sum(xs);
      assert s / n <= 1.0 by {
        assert s / n * n == s;
      }
      assert s / n >= 0.0;
    }
  }

  /**
   * Boosting multiplies exactly the top prizes, only when the subgraph is
   * over the limit, and never shrinks a prize in [0, 1].
   */
  lemma BoostMeaning(p: seq<real>, order: seq<nat>, maxNodes: int, i: nat)
    requires forall k :: 0 <= k < |order| ==> order[k] < |p|
    requires forall k :: 0 <= k < |p| ==> InUnit(p[k])
    requires i < |p|
    ensures i !in TopK(order, maxNodes) || |p| <= maxNodes ==> BoostedPrizes(p, order, maxNodes)[i] == p[i]
    ensures i in TopK(order, maxNodes) && |p| > maxNodes ==>
      BoostedPrizes(p, order, maxNodes)[i] == p[i] * BoostFactor(p, TopK(order, maxNodes))
    ensures BoostedPrizes(p, order, maxNodes)[i] >= p[i]
  {
    var top := TopK(order, maxNodes);
    BoostFactorBounds(p, top);
    var b := BoostFactor(p, top);
    if |p| > maxNodes {
      var sc := Scaled(p, top, b);
      assert BoostedPrizes(p, order, maxNodes) == sc;
      if i in top {
        assert sc[i] == p[i] * b;
        ScaleUp(p[i], b);
      } else {
        assert sc[i] == p[i];
      }
    }
  }

  /** A non-negative prize times a factor of at least one does not shrink. */
  lemma ScaleUp(x: real, b: real)
    requires x >= 0.0 && b >= 1.0
    ensures x * b >= x
  {
    assert x * b - x == x * (b - 1.0);
  }

  // ---------------------------------------------------------------------------
  // Node and edge indices
  // ---------------------------------------------------------------------------

  /** `str(node.get("_id"))`, or `None` when the id is absent or `None`. */
  function NodeKey(node: Dict): Option<string>
  {
    match Get(node, "_id")
    case None => None
    case Some(v) => if v.Null? then None else Some(Show(v))
  }

  /** `node_id_to_idx`: a later node with the same id overwrites an earlier one. */
  function IdIndex(nodes: seq<Dict>): map<string, nat>
    decreases |nodes|
  {
    if |nodes| == 0 then map[]
    else
      var m := IdIndex(nodes[..|nodes| - 1]);
      var key := NodeKey(nodes[|nodes| - 1]);
      if key.Some? then m[key.value := |nodes| - 1] else m
  }

  /** Every id in the index names the node it points to, and every node with an id is indexed. */
  lemma {:induction false} IdIndexMeaning(nodes: seq<Dict>)
    ensures forall k :: k in IdIndex(nodes) ==> IdIndex(nodes)[k] < |nodes| && NodeKey(nodes[IdIndex(nodes)[k]]) == Some(k)
    ensures forall i :: 0 <= i < |nodes| && NodeKey(nodes[i]).Some? ==> NodeKey(nodes[i]).value in IdIndex(nodes)
    decreases |nodes|
  {
    if |nodes| > 0 {
      var init := nodes[..|nodes| - 1];
      IdIndexMeaning(init);
      assert forall i :: 0 <= i < |init| ==> init[i] == nodes[i];
    }
  }

  /** The key an edge end is looked up under: its string, "" when absent, none for other values. */
  function EndKey(e: Dict, end: string): Option<string>
  {
    match Get(e, end)
    case None => Some("")
    case Some(v) => if v.Str? then Some(v.s) else None
  }

  function Resolve(e: Dict, end: string, m: map<string, nat>): Option<nat>
  {
    var k := EndKey(e, end);
    if k.Some? && k.value in m then Some(m[k.value]) else None
  }

  predicate ValidEdge(e: Dict, m: map<string, nat>)
  {
    Resolve(e, "start", m).Some? && Resolve(e, "end", m).Some?
  }

  /** The original indices of the edges whose two ends are indexed, in order. */
  function ValidOrig(edges: seq<Dict>, m: map<string, nat>, n: nat): (r: seq<nat>)
    requires n <= |edges|
    ensures forall p :: 0 <= p < |r| ==> r[p] < n && ValidEdge(edges[r[p]], m)
    decreases n
  {
    if n == 0 then []
    else ValidOrig(edges, m, n - 1) + (if ValidEdge(edges[n - 1], m) then [n - 1] else [])
  }

  function EndpointsOf(e: Dict, m: map<string, nat>): (int, int)
    requires ValidEdge(e, m)
  {
    (Resolve(e, "start", m).value, Resolve(e, "end", m).value)
  }

  /** `edge_list` for the edges listed in `vo`. */
  function EdgeList(edges: seq<Dict>, m: map<string, nat>, vo: seq<nat>): (r: seq<(int, int)>)
    requires forall p :: 0 <= p < |vo| ==> vo[p] < |edges| && ValidEdge(edges[vo[p]], m)
    ensures |r| == |vo|
  {
    seq(|vo|, p requires 0 <= p < |vo| => EndpointsOf(edges[vo[p]], m))
  }

  /** `orig_to_pcst` as its entries in insertion order: the p-th valid edge goes to p. */
  function OrigToPcst(vo: seq<nat>): (r: seq<(nat, nat)>)
    ensures |r| == |vo|
  {
    seq(|vo|, p requires 0 <= p < |vo| => (vo[p], p))
  }

  /** The edge loop of `pcst_prune`. */
  method BuildEdgeList(edges: seq<Dict>, m: map<string, nat>)
    returns (edgeList: seq<(int, int)>, origToPcst: seq<(nat, nat)>)
    ensures var vo := ValidOrig(edges, m, |edges|);
      edgeList == EdgeList(edges, m, vo) && origToPcst == OrigToPcst(vo)
  {
    edgeList, origToPcst := [], [];
    var i := 0;
    while i < |edges|
      invariant 0 <= i <= |edges|
      invariant edgeList == EdgeList(edges, m, ValidOrig(edges, m, i))
      invariant origToPcst == OrigToPcst(ValidOrig(edges, m, i))
    {
      var e := edges[i];
      var src := Resolve(e, "start", m);
      var dst := Resolve(e, "end", m);
      if src.Some? && dst.Some? {
        origToPcst := origToPcst + [(i, |edgeList|)];
        edgeList := edgeList + [(src.value, dst.value)];
      }
      i := i + 1;
    }
  }

  /** The valid list holds exactly the edges with both ends indexed, in strictly increasing order. */
  lemma {:induction false} ValidOrigMeaning(edges: seq<Dict>, m: map<string, nat>, n: nat)
    requires n <= |edges|
    ensures forall p, q :: 0 <= p < q < |ValidOrig(edges, m, n)| ==> ValidOrig(edges, m, n)[p] < ValidOrig(edges, m, n)[q]
    ensures forall o :: 0 <= o < n ==> (o in ValidOrig(edges, m, n) <==> ValidEdge(edges[o], m))
  {
    ValidOrigSorted(edges, m, n);
    ValidOrigMembers(edges, m, n);
  }

  lemma {:induction false} ValidOrigSorted(edges: seq<Dict>, m: map<string, nat>, n: nat)
    requires n <= |edges|
    ensures forall p, q :: 0 <= p < q < |ValidOrig(edges, m, n)| ==> ValidOrig(edges, m, n)[p] < ValidOrig(edges, m, n)[q]
    decreases n
  {
    if n > 0 {
      ValidOrigSorted(edges, m, n - 1);
    }
  }

  lemma {:induction false} ValidOrigMembers(edges: seq<Dict>, m: map<string, nat>, n: nat)
    requires n <= |edges|
    ensures forall o :: 0 <= o < n ==> (o in ValidOrig(edges, m, n) <==> ValidEdge(edges[o], m))
    decreases n
  {
    if n > 0 {
      ValidOrigMembers(edges, m, n - 1);
    }
  }

  // ---------------------------------------------------------------------------
  // Solver and result
  // ---------------------------------------------------------------------------

  /** The arguments of `pcst_fast.pcst_fast`. */
  datatype PcstCall = PcstCall(
    edges: seq<(int, int)>, prizes: seq<real>, costs: seq<real>,
    root: int, numClusters: nat, pruning: string, verbosity: nat)

  /** The solver's answer: the selected node indices and the selected edge indices. */
  type Solver = PcstCall -> (seq<int>, seq<int>)

  /** What the solver promises: a selected edge joins two selected nodes. */
  predicate SolverSound(call: PcstCall, answer: (seq<int>, seq<int>))
  {
    forall k :: 0 <= k < |answer.1| && 0 <= answer.1[k] < |call.edges| ==>
      call.edges[answer.1[k]].0 in answer.0 && call.edges[answer.1[k]].1 in answer.0
  }

  /** `[n for i, n in enumerate(nodes) if i in selected]`. */
  function SelectByIndex<T>(xs: seq<T>, selected: set<int>, n: nat): (r: seq<T>)
    requires n <= |xs|
    ensures |r| <= n
    decreases n
  {
    if n == 0 then []
    else SelectByIndex(xs, selected, n - 1) + (if n - 1 in selected then [xs[n - 1]] else [])
  }

  lemma {:induction false} SelectByIndexMeaning<T>(xs: seq<T>, selected: set<int>, n: nat, x: T)
    requires n <= |xs|
    ensures x in SelectByIndex(xs, selected, n) <==> exists i :: 0 <= i < n && i in selected && xs[i] == x
    decreases n
  {
    if n > 0 {
      SelectByIndexMeaning(xs, selected, n - 1, x);
    }
  }

  /** The original edge records whose solver index was selected, in original order. */
  function MapBack(edges: seq<Dict>, origToPcst: seq<(nat, nat)>, selectedEdges: set<int>): seq<Dict>
    requires forall k :: 0 <= k < |origToPcst| ==> origToPcst[k].0 < |edges|
    decreases |origToPcst|
  {
    if |origToPcst| == 0 then []
    else
      var last := origToPcst[|origToPcst| - 1];
      MapBack(edges, origToPcst[..|origToPcst| - 1], selectedEdges)
      + (if last.1 in selectedEdges then [edges[last.0]] else [])
  }

  function Costs(n: nat, edgeCost: real): (r: seq<real>)
    ensures |r| == n
  {
    seq(n, _ => edgeCost)
  }

  /** The call `pcst_prune` makes: unrooted, one cluster, "gw" pruning, uniform edge cost. */
  function CallFor(edgeList: seq<(int, int)>, prizes: seq<real>, edgeCost: real): PcstCall
  {
    PcstCall(edgeList, prizes, Costs(|edgeList|, edgeCost), -1, 1, "gw", 0)
  }

  /** Everything `pcst_prune` reads besides the subgraph. */
  datatype PruneEnv = PruneEnv(
    embeddings: seq<seq<real>>,
    query: seq<real>,
    maxNodes: int,
    edgeCost: real,
    solverInstalled: bool,
    ratio: (seq<real>, seq<real>) -> real,
    argsort: seq<real> -> seq<nat>,
    solver: Solver)

  /** numpy's `argsort` sorts whatever it is given. */
  ghost predicate ArgsortSorts(env: PruneEnv)
  {
    forall p :: IsArgsort(env.argsort(p), p)
  }

  /** The prizes after the boost. */
  function SolverPrizes(env: PruneEnv): seq<real>
    requires ArgsortSorts(env)
  {
    var p := Prizes(env.embeddings, env.query, env.ratio);
    BoostedPrizes(p, env.argsort(p), env.maxNodes)
  }

  /** What `pcst_prune` returns. */
  function Pruned(g: Subgraph, env: PruneEnv): Subgraph
    requires ArgsortSorts(env)
  {
    if |g.nodes| <= env.maxNodes || !env.solverInstalled then g
    else
      var m := IdIndex(g.nodes);
      var vo := ValidOrig(g.edges, m, |g.edges|);
      var prizes := SolverPrizes(env);
      if |vo| == 0 then
        var top := TopK(env.argsort(prizes), env.maxNodes);
        Subgraph(SelectByIndex(g.nodes, set i | i in top :: i as int, |g.nodes|), [])
      else
        var answer := env.solver(CallFor(EdgeList(g.edges, m, vo), prizes, env.edgeCost));
        Subgraph(SelectByIndex(g.nodes, set i | i in answer.0, |g.nodes|),
                 MapBack(g.edges, OrigToPcst(vo), set i | i in answer.1))
  }

  /** `pcst_prune`. */
  method PcstPrune(g: Subgraph, env: PruneEnv) returns (r: Subgraph)
    requires ArgsortSorts(env)
    ensures r == Pruned(g, env)
  {
    if |g.nodes| <= env.maxNodes || !env.solverInstalled {
      return g;
    }
    var m := BuildIdIndex(g.nodes);
    var prizes := ComputeNodePrizes(env.embeddings, env.query, env.ratio);
    var a := new real[|prizes|](i requires 0 <= i < |prizes| => prizes[i]);
    assert a[..] == prizes;
    if |prizes| > env.maxNodes {
      var order := env.argsort(a[..]);
      var top := TopK(order, env.maxNodes);
      var boost := BoostFactor(a[..], top);
      BoostTop(a, top, boost);
    }
    assert a[..] == SolverPrizes(env);
    var edgeList, origToPcst := BuildEdgeList(g.edges, m);
    if |edgeList| == 0 {
      var top := TopK(env.argsort(a[..]), env.maxNodes);
      return Subgraph(SelectByIndex(g.nodes, set i | i in top :: i as int, |g.nodes|), []);
    }
    var answer := env.solver(CallFor(edgeList, a[..], env.edgeCost));
    var nodes := SelectByIndex(g.nodes, set i | i in answer.0, |g.nodes|);
    var kept := MapBack(g.edges, origToPcst, set i | i in answer.1);
    r := Subgraph(nodes, kept);
  }

  method BuildIdIndex(nodes: seq<Dict>) returns (m: map<string, nat>)
    ensures m == IdIndex(nodes)
  {
    m := map[];
    var i := 0;
    while i < |nodes|
      invariant 0 <= i <= |nodes|
      invariant m == IdIndex(nodes[..i])
    {
      var key := NodeKey(nodes[i]);
      if key.Some? {
        m := m[key.value := i];
      }
      assert nodes[..i + 1][..i] == nodes[..i];
      i := i + 1;
    }
    assert nodes[..i] == nodes;
  }

  // ---------------------------------------------------------------------------
  // Properties of the result
  // ---------------------------------------------------------------------------

  /** A small subgraph, or a missing solver, leaves the input as it is. */
  lemma ShortCircuit(g: Subgraph, env: PruneEnv)
    requires ArgsortSorts(env)
    requires |g.nodes| <= env.maxNodes || !env.solverInstalled
    ensures Pruned(g, env) == g
  {
  }

  /** Every kept edge is an original edge record whose solver index was selected. */
  lemma {:induction false} MapBackMeaning(edges: seq<Dict>, vo: seq<nat>, sel: set<int>, e: Dict)
    requires forall p :: 0 <= p < |vo| ==> vo[p] < |edges|
    ensures e in MapBack(edges, OrigToPcst(vo), sel) <==> exists p :: 0 <= p < |vo| && p in sel && edges[vo[p]] == e
    decreases |vo|
  {
    if |vo| > 0 {
      var init := vo[..|vo| - 1];
      assert OrigToPcst(vo)[..|vo| - 1] == OrigToPcst(init);
      MapBackMeaning(edges, init, sel, e);
      if exists p :: 0 <= p < |vo| && p in sel && edges[vo[p]] == e {
        var p :| 0 <= p < |vo| && p in sel && edges[vo[p]] == e;
        if p < |vo| - 1 { assert init[p] == vo[p]; }
      }
      if e in MapBack(edges, OrigToPcst(init), sel) {
        var p :| 0 <= p < |init| && p in sel && edges[init[p]] == e;
        assert vo[p] == init[p];
      }
    }
  }

  /**
   * No kept edge dangles: when the solver keeps its promise, both ends of
   * every kept edge name the id of a kept node.
   */
  lemma NoDanglingEdge(g: Subgraph, env: PruneEnv, e: Dict)
    requires ArgsortSorts(env)
    requires |g.nodes| > env.maxNodes && env.solverInstalled
    requires var m := IdIndex(g.nodes);
      var vo := ValidOrig(g.edges, m, |g.edges|);
      var call := CallFor(EdgeList(g.edges, m, vo), SolverPrizes(env), env.edgeCost);
      SolverSound(call, env.solver(call))
    requires e in Pruned(g, env).edges
    ensures exists a :: a in Pruned(g, env).nodes && NodeKey(a) == EndKey(e, "start")
    ensures exists b :: b in Pruned(g, env).nodes && NodeKey(b) == EndKey(e, "end")
  {
    var m := IdIndex(g.nodes);
    var vo := ValidOrig(g.edges, m, |g.edges|);
    var call := CallFor(EdgeList(g.edges, m, vo), SolverPrizes(env), env.edgeCost);
    var answer := env.solver(call);
    assert |vo| > 0;
    var el := EdgeList(g.edges, m, vo);
    var selN := set i | i in answer.0;
    var selE := set i | i in answer.1;
    assert Pruned(g, env) == Subgraph(SelectByIndex(g.nodes, selN, |g.nodes|), MapBack(g.edges, OrigToPcst(vo), selE));
    forall p | p in selE && 0 <= p < |el| ensures el[p].0 in selN && el[p].1 in selN {
      var k :| 0 <= k < |answer.1| && answer.1[k] == p;
    }
    KeptEdgeEnd(g.nodes, g.edges, el, selN, selE, e, "start");
    KeptEdgeEnd(g.nodes, g.edges, el, selN, selE, e, "end");
  }

  /** One end of a kept edge names the id of a kept node. */
  lemma KeptEdgeEnd(nodes: seq<Dict>, edges: seq<Dict>, el: seq<(int, int)>, selN: set<int>, selE: set<int>,
                    e: Dict, end: string)
    requires end == "start" || end == "end"
    requires el == EdgeList(edges, IdIndex(nodes), ValidOrig(edges, IdIndex(nodes), |edges|))
    requires forall p :: p in selE && 0 <= p < |el| ==> el[p].0 in selN && el[p].1 in selN
    requires e in MapBack(edges, OrigToPcst(ValidOrig(edges, IdIndex(nodes), |edges|)), selE)
    ensures exists a :: a in SelectByIndex(nodes, selN, |nodes|) && NodeKey(a) == EndKey(e, end)
  {
    var m := IdIndex(nodes);
    var vo := ValidOrig(edges, m, |edges|);
    MapBackMeaning(edges, vo, selE, e);
    var p :| 0 <= p < |vo| && p in selE && edges[vo[p]] == e;
    assert el[p] == EndpointsOf(e, m);
    var x := Resolve(e, end, m).value;
    assert x in selN;
    IdIndexMeaning(nodes);
    SelectByIndexMeaning(nodes, selN, |nodes|, nodes[x]);
    assert NodeKey(nodes[x]) == EndKey(e, end);
  }

  /**
   * Without any valid edge the result keeps the nodes at the top-prize
   * indices, in input order, and no edge.
   */
  lemma NoEdgeFallback(g: Subgraph, env: PruneEnv, x: Dict)
    requires ArgsortSorts(env)
    requires |g.nodes| > env.maxNodes && env.solverInstalled
    requires ValidOrig(g.edges, IdIndex(g.nodes), |g.edges|) == []
    ensures Pruned(g, env).edges == []
    ensures x in Pruned(g, env).nodes <==>
      exists i :: 0 <= i < |g.nodes| && i in TopK(env.argsort(SolverPrizes(env)), env.maxNodes) && g.nodes[i] == x
  {
    var top := TopK(env.argsort(SolverPrizes(env)), env.maxNodes);
    SelectByIndexMeaning(g.nodes, set i | i in top :: i as int, |g.nodes|, x);
  }
}
