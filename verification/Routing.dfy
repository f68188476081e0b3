/** Which decoder layers run where: routing groups, the decoders built for them, and weighted totals. */
module Routing {
  import opened PimTypes

  // ---- names -----------------------------------------------------------------------------

  const DIGITS: string := "0123456789"

  function Decimal(n: nat): (s: string)
    ensures s != []
  {
    if n < 10 then [DIGITS[n]] else Decimal(n / 10) + [DIGITS[n % 10]]
  }

  lemma DigitsDiffer(a: nat, b: nat)
    requires a < 10 && b < 10 && DIGITS[a] == DIGITS[b]
    ensures a == b
  {
  }

  /** Different numbers are written differently. */
  lemma {:induction false} DecimalInjective(a: nat, b: nat)
    requires Decimal(a) == Decimal(b)
    ensures a == b
  {
    var s, t := Decimal(a), Decimal(b);
    assert s[|s| - 1] == DIGITS[a % 10] && t[|t| - 1] == DIGITS[b % 10];
    DigitsDiffer(a % 10, b % 10);
    if a < 10 || b < 10 {
    } else {
      assert s[..|s| - 1] == Decimal(a / 10) && t[..|t| - 1] == Decimal(b / 10);
      DecimalInjective(a / 10, b / 10);
    }
  }

  // ---- routing ---------------------------------------------------------------------------

  datatype Mode = Conservative | Optimistic | ByList | Unknown

  /** `indices` names the layers of a group when it stands for particular ones. */
  datatype Group = Group(name: string, device: string, count: int, indices: Option<seq<int>>)

  datatype Model = Model(ndec: nat, hasDeepstack: bool, deepstackLayers: seq<int>)

  const DEFAULT_LAYER_LIST: seq<int> := [
    0, 8, 12, 13, 14, 15, 16, 17, 18, 19, 20, 21, 22, 23, 24, 25, 26, 27, 28, 29, 31, 33]

  /** A configured routing; the layer list may repeat layers and name layers that do not exist. */
  datatype Routing = Routing(mode: Mode, layerList: seq<int>, accDevice: string)

  /** DeepStack needs to know the layers, so it forces the mode; an empty list means the default one. */
  function MakeRouting(model: Model, mode: Mode, layerList: seq<int>, accDevice: string): Routing {
    Routing(if model.hasDeepstack then ByList else mode,
            if layerList == [] then DEFAULT_LAYER_LIST else layerList, accDevice)
  }

  function LayerSet(list: seq<int>, ndec: nat): set<int> {
    set idx | idx in list && 0 <= idx < ndec
  }

  /** One group per layer. */
  function LayerGroups(r: Routing, ndec: nat, n: nat): (s: seq<Group>)
    ensures |s| == n
  {
    if n == 0 then []
    else
      LayerGroups(r, ndec, n - 1) +
      [Group("l" + Decimal(n - 1), if n - 1 in LayerSet(r.layerList, ndec) then r.accDevice else "gpu", 1, Some([n - 1]))]
  }

  /** None is the failed assertion of an unknown mode. */
  function ToGroups(r: Routing, ndec: nat): Option<seq<Group>> {
    match r.mode
    case Conservative => Some([Group("all", r.accDevice, ndec, None)])
    case Optimistic =>
      var acc := |LayerSet(r.layerList, ndec)|;
      Some((if acc > 0 then [Group("acc", r.accDevice, acc, None)] else []) +
           (if ndec - acc > 0 then [Group("gpu", "gpu", ndec - acc, None)] else []))
    case ByList => Some(LayerGroups(r, ndec, ndec))
    case Unknown => None
  }

  // ---- counts and names ------------------------------------------------------------------

  function CountSum(groups: seq<Group>): int {
    if groups == [] then 0 else CountSum(groups[..|groups| - 1]) + groups[|groups| - 1].count
  }

  ghost predicate DistinctNames(groups: seq<Group>) {
    forall i, j :: 0 <= i < j < |groups| ==> groups[i].name != groups[j].name
  }

  ghost predicate AllPositive(groups: seq<Group>) {
    forall i :: 0 <= i < |groups| ==> groups[i].count > 0
  }

  lemma {:induction false} LayerGroupAt(r: Routing, ndec: nat, n: nat, i: nat)
    requires i < n
    ensures LayerGroups(r, ndec, n)[i] ==
            Group("l" + Decimal(i), if i in LayerSet(r.layerList, ndec) then r.accDevice else "gpu", 1, Some([i]))
  {
    if i >= n - 1 {
    } else {
      LayerGroupAt(r, ndec, n - 1, i);
    }
  }

  lemma {:induction false} LayerGroupsCount(r: Routing, ndec: nat, n: nat)
    ensures CountSum(LayerGroups(r, ndec, n)) == n
  {
    if n == 0 {
    } else {
      LayerGroupsCount(r, ndec, n - 1);
    }
  }

  lemma LayerNamesDiffer(r: Routing, ndec: nat)
    ensures DistinctNames(LayerGroups(r, ndec, ndec))
  {
    var groups := LayerGroups(r, ndec, ndec);
    forall i, j | 0 <= i < j < |groups|
      ensures groups[i].name != groups[j].name
    {
      LayerGroupAt(r, ndec, ndec, i);
      LayerGroupAt(r, ndec, ndec, j);
      if groups[i].name == groups[j].name {
        assert Decimal(i) == groups[i].name[1..] == groups[j].name[1..] == Decimal(j);
        DecimalInjective(i, j);
        assert false;
      }
    }
  }

  lemma {:induction false} AccLayersBelow(list: seq<int>, ndec: nat)
    ensures |LayerSet(list, ndec)| <= ndec
    ensures ndec > 0 ==>
              |LayerSet(list, ndec)| == |LayerSet(list, ndec - 1)| + if ndec - 1 in LayerSet(list, ndec) then 1 else 0
  {
    if ndec == 0 {
      assert LayerSet(list, 0) == {};
    } else {
      AccLayersBelow(list, ndec - 1);
      if ndec - 1 in LayerSet(list, ndec) {
        assert LayerSet(list, ndec) == LayerSet(list, ndec - 1) + {ndec - 1};
      } else {
        assert LayerSet(list, ndec) == LayerSet(list, ndec - 1);
      }
    }
  }

  /** In every mode the groups hold all layers, under different names. */
  lemma GroupsCoverAllLayers(r: Routing, ndec: nat)
    requires r.mode != Unknown
    ensures var groups := ToGroups(r, ndec).value;
            CountSum(groups) == ndec && DistinctNames(groups) && (r.mode != Conservative ==> AllPositive(groups))
  {
    hide LayerGroups, LayerSet, CountSum;
    var groups := ToGroups(r, ndec).value;
    match r.mode
    case Conservative =>
      SumOfTwo(groups[0], groups[0]);
    case Optimistic =>
      AccLayersBelow(r.layerList, ndec);
      var acc := |LayerSet(r.layerList, ndec)|;
      var a, b := Group("acc", r.accDevice, acc, None), Group("gpu", "gpu", ndec - acc, None);
      assert groups == if acc == 0 then (if ndec == 0 then [] else [b]) else if acc == ndec then [a] else [a, b];
      SumOfTwo(a, b);
      SumOfTwo(b, b);
      assert a.name[0] == 'a' && b.name[0] == 'g';
    case ByList =>
      LayerGroupsCount(r, ndec, ndec);
      LayerNamesDiffer(r, ndec);
      forall i | 0 <= i < |groups|
        ensures groups[i].count > 0
      {
        LayerGroupAt(r, ndec, ndec, i);
      }
  }

  lemma SumOfTwo(a: Group, b: Group)
    ensures CountSum([]) == 0 && CountSum([a]) == a.count && CountSum([a, b]) == a.count + b.count
  {
    assert [a][..0] == [] && [a, b][..1] == [a];
  }

  // ---- weighted totals -------------------------------------------------------------------

  /** Any quantity of one layer's decoder: it depends on the device, and on whether DeepStack adds to the layer. */
  type Cost = (string, bool) -> real

  /** Whether the decoder of a group contains the DeepStack addition: only its first index counts. */
  predicate Deep(model: Model, indices: Option<seq<int>>) {
    indices.Some? && indices.value != [] && indices.value[0] in model.deepstackLayers
  }

  function Times(n: int, x: real): real {
    n as real * x
  }

  lemma TimesAdd(n: int, m: int, x: real)
    ensures Times(n + m, x) == Times(n, x) + Times(m, x) && Times(0, x) == 0.0 && Times(1, x) == x
  {
    assert (n + m) as real == n as real + m as real;
  }

  function GroupCost(model: Model, g: Group, cost: Cost): real {
    Times(g.count, cost(g.device, Deep(model, g.indices)))
  }

  /** What all groups cost together, by their weights. */
  function Total(model: Model, groups: seq<Group>, cost: Cost): real {
    if groups == [] then 0.0
    else Total(model, groups[..|groups| - 1], cost) + GroupCost(model, groups[|groups| - 1], cost)
  }

  lemma {:induction false} ListTotal(model: Model, r: Routing, n: nat, cost: Cost)
    requires model.deepstackLayers == [] && n <= model.ndec
    ensures var acc := |LayerSet(r.layerList, n)|;
            Total(model, LayerGroups(r, model.ndec, n), cost) ==
            Times(acc, cost(r.accDevice, false)) + Times(n - acc, cost("gpu", false))
  {
    hide LayerSet, Times, Total, LayerGroups, GroupCost;
    AccLayersBelow(r.layerList, n);
    var x, y := cost(r.accDevice, false), cost("gpu", false);
    if n == 0 {
      NoTotal(model, r, x, y, cost);
    } else {
      ListTotal(model, r, n - 1, cost);
      OneMoreTotal(model, r, n, cost);
      OneMore(|LayerSet(r.layerList, n - 1)|, n - 1, x, y);
    }
  }

  lemma NoTotal(model: Model, r: Routing, x: real, y: real, cost: Cost)
    ensures Total(model, LayerGroups(r, model.ndec, 0), cost) == 0.0 == Times(0, x) + Times(0, y)
  {
  }

  lemma OneMoreTotal(model: Model, r: Routing, n: nat, cost: Cost)
    requires model.deepstackLayers == [] && 0 < n <= model.ndec
    ensures Total(model, LayerGroups(r, model.ndec, n), cost) ==
            Total(model, LayerGroups(r, model.ndec, n - 1), cost) +
            if n - 1 in LayerSet(r.layerList, n) then cost(r.accDevice, false) else cost("gpu", false)
  {
    hide LayerSet, Times, Total;
    SameMember(r.layerList, n - 1, n, model.ndec);
    LayerGroupAt(r, model.ndec, n, n - 1);
    var groups, g := LayerGroups(r, model.ndec, n - 1), LayerGroups(r, model.ndec, n)[n - 1];
    TotalLast(model, groups, g, cost);
    TimesAdd(0, 0, cost(r.accDevice, false));
    TimesAdd(0, 0, cost("gpu", false));
    assert g.count == 1 && !Deep(model, g.indices);
  }

  /** One more layer, on either device. */
  lemma OneMore(acc: int, n: int, x: real, y: real)
    ensures Times(acc + 1, x) + Times(n + 1 - (acc + 1), y) == Times(acc, x) + Times(n - acc, y) + x
    ensures Times(acc, x) + Times(n + 1 - acc, y) == Times(acc, x) + Times(n - acc, y) + y
  {
    hide Times;
    TimesAdd(acc, 1, x);
    TimesAdd(n - acc, 1, y);
  }

  lemma TotalLast(model: Model, groups: seq<Group>, g: Group, cost: Cost)
    ensures Total(model, groups + [g], cost) == Total(model, groups, cost) + GroupCost(model, g, cost)
  {
    assert (groups + [g])[..|groups + [g]| - 1] == groups;
  }

  lemma SameMember(list: seq<int>, idx: nat, n: nat, ndec: nat)
    requires idx < n <= ndec
    ensures idx in LayerSet(list, n) <==> idx in LayerSet(list, ndec)
  {
  }

  lemma TotalOfTwo(model: Model, a: Group, b: Group, cost: Cost)
    ensures Total(model, [a], cost) == GroupCost(model, a, cost)
    ensures Total(model, [a, b], cost) == GroupCost(model, a, cost) + GroupCost(model, b, cost)
    ensures Total(model, [], cost) == 0.0
  {
    assert [a][..0] == [] && [a, b][..1] == [a];
  }

  /**
   * Without DeepStack, counting layers per device costs the same as listing them one by
   * one, also when the list repeats layers or names layers out of range.
   */
  lemma OptimisticEqualsList(model: Model, list: seq<int>, accDevice: string, cost: Cost)
    requires !model.hasDeepstack && model.deepstackLayers == []
    ensures var fast := ToGroups(MakeRouting(model, Optimistic, list, accDevice), model.ndec).value;
            var slow := ToGroups(MakeRouting(model, ByList, list, accDevice), model.ndec).value;
            Total(model, fast, cost) == Total(model, slow, cost)
  {
    hide Times, LayerSet, LayerGroups, Total;
    var r := MakeRouting(model, ByList, list, accDevice);
    ListTotal(model, r, model.ndec, cost);
    AccLayersBelow(r.layerList, model.ndec);
    var acc := |LayerSet(r.layerList, model.ndec)|;
    var a, b := Group("acc", accDevice, acc, None), Group("gpu", "gpu", model.ndec - acc, None);
    TotalOfTwo(model, a, b, cost);
    TotalOfTwo(model, b, b, cost);
    TimesAdd(0, 0, cost(accDevice, false));
    TimesAdd(0, 0, cost("gpu", false));
    var fast := ToGroups(MakeRouting(model, Optimistic, list, accDevice), model.ndec).value;
    assert fast == if acc == 0 then (if model.ndec == 0 then [] else [b]) else if acc == model.ndec then [a] else [a, b];
    assert GroupCost(model, a, cost) == Times(acc, cost(accDevice, false));
    assert GroupCost(model, b, cost) == Times(model.ndec - acc, cost("gpu", false));
  }

  // ---- building the decoders -------------------------------------------------------------

  /** What is built for a group: the dictionary in insertion order. */
  function AddGroup(built: seq<Group>, g: Group): seq<Group> {
    if g.count <= 0 then built
    else if exists i :: 0 <= i < |built| && built[i].name == g.name then Replace(built, g)
    else built + [g]
  }

  /** Overwriting an entry keeps its place. */
  function Replace(built: seq<Group>, g: Group): (s: seq<Group>)
    ensures |s| == |built|
    ensures forall i :: 0 <= i < |s| ==> s[i] == if built[i].name == g.name then g else built[i]
  {
    if built == [] then []
    else Replace(built[..|built| - 1], g) + [if built[|built| - 1].name == g.name then g else built[|built| - 1]]
  }

  function AddGroups(routing: seq<Group>): seq<Group> {
    if routing == [] then [] else AddGroup(AddGroups(routing[..|routing| - 1]), routing[|routing| - 1])
  }

  function Positive(groups: seq<Group>): seq<Group> {
    if groups == [] then []
    else Positive(groups[..|groups| - 1]) + if groups[|groups| - 1].count > 0 then [groups[|groups| - 1]] else []
  }

  lemma {:induction false} PositiveMember(groups: seq<Group>, g: Group)
    ensures g in Positive(groups) ==> g in groups
  {
    if groups == [] {
    } else {
      PositiveMember(groups[..|groups| - 1], g);
    }
  }

  /** Under different names no group overwrites another. */
  lemma {:induction false} NothingOverwritten(routing: seq<Group>)
    requires DistinctNames(routing)
    ensures AddGroups(routing) == Positive(routing)
  {
    if routing == [] {
    } else {
      var n := |routing| - 1;
      NothingOverwritten(routing[..n]);
      var built := AddGroups(routing[..n]);
      forall i | 0 <= i < |built|
        ensures built[i].name != routing[n].name
      {
        PositiveMember(routing[..n], built[i]);
        assert built[i] in routing[..n];
      }
    }
  }

  lemma {:induction false} PositiveTotal(model: Model, groups: seq<Group>, cost: Cost)
    requires forall i :: 0 <= i < |groups| ==> groups[i].count >= 0
    ensures Total(model, Positive(groups), cost) == Total(model, groups, cost)
    ensures CountSum(Positive(groups)) == CountSum(groups)
  {
    hide GroupCost;
    if groups == [] {
    } else {
      var n := |groups| - 1;
      PositiveTotal(model, groups[..n], cost);
      if groups[n].count > 0 {
        assert Positive(groups)[..|Positive(groups)| - 1] == Positive(groups[..n]);
      } else {
        NoLayers(model, groups[n], cost);
        assert Positive(groups) == Positive(groups[..n]);
      }
    }
  }

  lemma NoLayers(model: Model, g: Group, cost: Cost)
    requires g.count == 0
    ensures GroupCost(model, g, cost) == 0.0
  {
    TimesAdd(0, 0, cost(g.device, Deep(model, g.indices)));
  }

  /** Group `i` has layers, and no later group with layers has its name. */
  ghost predicate LastOfName(routing: seq<Group>, i: nat) {
    && i < |routing| && routing[i].count > 0
    && forall j :: i < j < |routing| && routing[j].count > 0 ==> routing[j].name != routing[i].name
  }

  ghost predicate IsLast(routing: seq<Group>, x: Group) {
    exists i: nat :: i < |routing| && LastOfName(routing, i) && routing[i] == x
  }

  /** One more group overwrites those of its name. */
  lemma IsLastStep(routing: seq<Group>, x: Group)
    requires routing != []
    ensures var front, g := routing[..|routing| - 1], routing[|routing| - 1];
            IsLast(routing, x) <==> (g.count > 0 && x == g) || (IsLast(front, x) && (g.count > 0 ==> g.name != x.name))
  {
    var n := |routing| - 1;
    var front, g := routing[..n], routing[n];
    assert forall j :: 0 <= j < n ==> front[j] == routing[j];
    if g.count > 0 && x == g {
      assert LastOfName(routing, n);
    }
    if IsLast(front, x) && (g.count > 0 ==> g.name != x.name) {
      var i: nat :| i < n && LastOfName(front, i) && front[i] == x;
      assert LastOfName(routing, i);
    }
    if IsLast(routing, x) {
      var i: nat :| i < |routing| && LastOfName(routing, i) && routing[i] == x;
      if i < n {
        assert LastOfName(front, i);
      }
    }
  }

  lemma AddGroupMember(built: seq<Group>, g: Group, x: Group)
    ensures x in AddGroup(built, g) <==> (g.count > 0 && x == g) || (x in built && (g.count > 0 ==> g.name != x.name))
  {
    if g.count > 0 && exists i :: 0 <= i < |built| && built[i].name == g.name {
      var i :| 0 <= i < |built| && built[i].name == g.name;
      var s := Replace(built, g);
      assert s[i] == g;
      if x in built && g.name != x.name {
        var k :| 0 <= k < |built| && built[k] == x;
        assert s[k] == x;
      }
    }
  }

  /** Under any names, exactly the last group of each name is built. */
  lemma {:induction false} LastGroupsAreBuilt(routing: seq<Group>, x: Group)
    ensures x in AddGroups(routing) <==> IsLast(routing, x)
  {
    hide IsLast, AddGroup;
    if routing == [] {
      NoneIsLast(x);
    } else {
      LastGroupsAreBuilt(routing[..|routing| - 1], x);
      AddGroupMember(AddGroups(routing[..|routing| - 1]), routing[|routing| - 1], x);
      IsLastStep(routing, x);
    }
  }

  lemma NoneIsLast(x: Group)
    ensures !IsLast([], x)
  {
  }

  /** No name is built twice. */
  lemma {:induction false} BuiltNamesDiffer(routing: seq<Group>)
    ensures DistinctNames(AddGroups(routing))
  {
    if routing == [] {
    } else {
      BuiltNamesDiffer(routing[..|routing| - 1]);
    }
  }

  // ---- layer by layer --------------------------------------------------------------------

  /** What the first `n` layers cost one by one, each on its own device, and with the DeepStack addition where there is one. */
  ghost function LayerSum(model: Model, accLayers: seq<int>, accDevice: string, cost: Cost, n: nat): real {
    if n == 0 then 0.0
    else
      LayerSum(model, accLayers, accDevice, cost, n - 1) +
      cost(if n - 1 in accLayers then accDevice else "gpu", n - 1 in model.deepstackLayers)
  }

  lemma {:induction false} ListIsLayerSum(model: Model, r: Routing, n: nat, cost: Cost)
    requires n <= model.ndec
    ensures Total(model, LayerGroups(r, model.ndec, n), cost) ==
            LayerSum(model, r.layerList, r.accDevice, cost, n)
  {
    hide Total;
    if n == 0 {
      TotalOfTwo(model, Group("", "", 0, None), Group("", "", 0, None), cost);
    } else {
      ListIsLayerSum(model, r, n - 1, cost);
      LayerGroupAt(r, model.ndec, n, n - 1);
      var groups, g := LayerGroups(r, model.ndec, n - 1), LayerGroups(r, model.ndec, n)[n - 1];
      TotalLast(model, groups, g, cost);
      assert g.indices == Some([n - 1]) && [n - 1][0] == n - 1;
      assert Deep(model, g.indices) <==> n - 1 in model.deepstackLayers;
      TimesAdd(0, 0, cost(g.device, Deep(model, g.indices)));
    }
  }

  /**
   * With DeepStack, whatever the configured mode, the routing costs what its layers cost one by
   * one, with the DeepStack addition in the layers that have it; so does routing by list.
   */
  lemma ListChargesEveryLayer(model: Model, mode: Mode, list: seq<int>, accDevice: string, cost: Cost)
    requires model.hasDeepstack || mode == ByList
    ensures var used := if list == [] then DEFAULT_LAYER_LIST else list;
            var groups := ToGroups(MakeRouting(model, mode, list, accDevice), model.ndec);
            groups.Some? &&
            Total(model, groups.value, cost) == LayerSum(model, used, accDevice, cost, model.ndec)
  {
    hide Total, LayerGroups, LayerSum;
    ListIsLayerSum(model, MakeRouting(model, mode, list, accDevice), model.ndec, cost);
  }

  /** The conservative mode runs every layer on the accelerator. */
  lemma ConservativeChargesAccelerator(model: Model, list: seq<int>, accDevice: string, cost: Cost)
    requires !model.hasDeepstack
    ensures var groups := ToGroups(MakeRouting(model, Conservative, list, accDevice), model.ndec);
            groups.Some? && Total(model, groups.value, cost) == Times(model.ndec, cost(accDevice, false))
  {
    hide Total, Times;
    var all := Group("all", accDevice, model.ndec, None);
    TotalOfTwo(model, all, all, cost);
  }

  /** Without a routing, all layers run on one device; with DeepStack they are charged one by one. */
  lemma DefaultChargesEveryLayer(model: Model, onHetero: bool, cost: Cost)
    ensures var device, groups := if onHetero then "pim" else "gpu", DefaultRouting(model, onHetero);
            if model.hasDeepstack then
              Total(model, groups, cost) == LayerSum(model, seq(model.ndec, i => i), device, cost, model.ndec)
            else Total(model, groups, cost) == Times(model.ndec, cost(device, false))
  {
    hide Total, LayerGroups, LayerSum, Times;
    var device := if onHetero then "pim" else "gpu";
    var all := Group("all", device, model.ndec, None);
    TotalOfTwo(model, all, all, cost);
    var r := Routing(ByList, AllLayers(model.ndec), device);
    ListIsLayerSum(model, r, model.ndec, cost);
  }

  function DefaultRouting(model: Model, onHetero: bool): seq<Group> {
    var device := if onHetero then "pim" else "gpu";
    if model.hasDeepstack then LayerGroups(Routing(ByList, AllLayers(model.ndec), device), model.ndec, model.ndec)
    else [Group("all", device, model.ndec, None)]
  }

  function AllLayers(n: nat): seq<int> {
    seq(n, i => i)
  }

  class Transformer {
    const model: Model
    var groups: seq<Group>

    constructor (model: Model)
      ensures this.model == model && groups == []
    {
      this.model := model;
      groups := [];
    }

    /** Builds the decoders of every group that has layers. */
    method Build(routing: Option<seq<Group>>, onHetero: bool)
      modifies this
      ensures groups == AddGroups(if routing.None? then DefaultRouting(model, onHetero) else routing.value)
    {
      hide DefaultRouting, AddGroup;
      var entries := if routing.None? then DefaultRouting(model, onHetero) else routing.value;
      groups := [];
      for i := 0 to |entries|
        invariant groups == AddGroups(entries[..i])
      {
        assert entries[..i + 1][..i] == entries[..i];
        groups := AddGroup(groups, entries[i]);
      }
      assert entries[..|entries|] == entries;
    }

    /** The accumulation over all groups, weighted by their counts. */
    method Simulate(cost: Cost) returns (total: real)
      ensures total == Total(model, groups, cost)
    {
      total := 0.0;
      for i := 0 to |groups|
        invariant total == Total(model, groups[..i], cost)
      {
        assert groups[..i + 1][..i] == groups[..i];
        total := total + GroupCost(model, groups[i], cost);
      }
      assert groups[..|groups|] == groups;
    }
  }

  /** Whatever the mode, the decoders that are built weigh as many layers as the model has, and cost as much. */
  lemma BuiltGroupsCoverAllLayers(model: Model, r: Routing, cost: Cost)
    requires r.mode != Unknown
    ensures var groups := ToGroups(r, model.ndec).value;
            CountSum(AddGroups(groups)) == model.ndec && Total(model, AddGroups(groups), cost) == Total(model, groups, cost)
  {
    hide LayerGroups, LayerSet, Total, AddGroups, Positive, CountSum;
    var groups := ToGroups(r, model.ndec).value;
    GroupsCoverAllLayers(r, model.ndec);
    NothingOverwritten(groups);
    CountsNotNegative(r, model.ndec);
    PositiveTotal(model, groups, cost);
  }

  lemma CountsNotNegative(r: Routing, ndec: nat)
    requires r.mode != Unknown
    ensures forall i :: 0 <= i < |ToGroups(r, ndec).value| ==> ToGroups(r, ndec).value[i].count >= 0
  {
    hide LayerGroups, LayerSet;
    GroupsCoverAllLayers(r, ndec);
  }
}
