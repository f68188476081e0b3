/** Overlapping a decoder block: how pipelining rewrites the execution times of its layers. */
module Pipelining {

  datatype Kind = Qkv | Proj | X2g | Score | Context | Softmax | Other

  function StartsWith(s: string, prefix: string): bool {
    |prefix| <= |s| && s[..|prefix|] == prefix
  }

  function KindOf(name: string): Kind {
    if name == "qkv" then Qkv
    else if name == "proj" then Proj
    else if StartsWith(name, "comm_x2g") then X2g
    else if name == "score" then Score
    else if name == "context" then Context
    else if name == "softmax" then Softmax
    else Other
  }

  /** A layer as far as pipelining is concerned. */
  datatype Item = Item(kind: Kind, time: real)

  /** The time of all layers of one kind. */
  function Total(items: seq<Item>, kind: Kind): real {
    if items == [] then 0.0
    else
      var last := items[|items| - 1];
      Total(items[..|items| - 1], kind) + if last.kind == kind then last.time else 0.0
  }

  function Count(items: seq<Item>, kind: Kind): nat {
    if items == [] then 0
    else Count(items[..|items| - 1], kind) + if items[|items| - 1].kind == kind then 1 else 0
  }

  /** Time of attention: score, context and softmax together. */
  function Attention(items: seq<Item>): real {
    Total(items, Score) + Total(items, Context) + Total(items, Softmax)
  }

  function MaxReal(a: real, b: real): real { if a > b then a else b }

  function MinReal(a: real, b: real): real { if a < b then a else b }

  /** One head's share of a device; at least one head per device. */
  function Ratio(kvHeads: nat, devices: nat): (r: real)
    requires devices > 0
    ensures 0.0 < r <= 1.0
  {
    1.0 / MaxReal(1.0, kvHeads as real / devices as real)
  }

  /** The times that are written back. */
  datatype Times = Times(qkv: real, prj: real, x2g: real)

  /** Transfers overlap with attention, except for one head's share. */
  function Overlapped(x2g: real, attn: real, r: real): real {
    if attn > x2g then Scaled(x2g, r) else x2g - Saved(attn, r)
  }

  function Scaled(time: real, r: real): real { time * r }

  function Saved(attn: real, r: real): real { attn * (1.0 - r) }

  function NewTimes(items: seq<Item>, r: real, level: bool): Times {
    Overlap(Total(items, Qkv), Total(items, Proj), Total(items, X2g), Attention(items), r, level)
  }

  function Overlap(qkv: real, prj: real, x2g: real, attn: real, r: real, level: bool): Times {
    var fc := qkv + prj;
    if !level then Times(qkv, prj, Overlapped(x2g, attn, r))
    else if attn > fc then Times(Scaled(qkv, r), Scaled(prj, r), Overlapped(x2g, attn, r))
    else if fc > x2g then
      Times(qkv - Saved(attn, r) * 0.75, prj - Saved(attn, r) * 0.25, Scaled(x2g, r))
    else Times(Scaled(qkv, r), Scaled(prj, r), x2g - Saved(attn, r))
  }

  /** What is written to a layer; every transfer gets an equal part. */
  function Rewritten(item: Item, t: Times, transfers: nat): real {
    match item.kind
    case Qkv => t.qkv
    case Proj => t.prj
    case X2g => t.x2g / MaxReal(1.0, transfers as real)
    case Softmax => 0.0
    case _ => item.time
  }

  function WriteBack(items: seq<Item>, t: Times, transfers: nat): (after: seq<Item>)
    ensures |after| == |items|
    ensures forall i :: 0 <= i < |items| ==> after[i] == items[i].(time := Rewritten(items[i], t, transfers))
  {
    seq(|items|, i requires 0 <= i < |items| => items[i].(time := Rewritten(items[i], t, transfers)))
  }

  function Pipelined(items: seq<Item>, r: real, level: bool): seq<Item> {
    WriteBack(items, NewTimes(items, r, level), Count(items, X2g))
  }

  // ---- properties ------------------------------------------------------------------------

  function Fold(n: nat, v: real): real {
    n as real * v
  }

  lemma FoldStep(n: nat, v: real)
    ensures Fold(n + 1, v) == Fold(n, v) + v && Fold(0, v) == 0.0 && Fold(1, v) == v && Fold(n, 0.0) == 0.0
  {
    assert (n + 1) as real == n as real + 1.0;
  }

  /** If all layers of a kind take the same time, their total is that many times it. */
  lemma {:induction false} EvenTotal(items: seq<Item>, kind: Kind, v: real)
    requires forall i :: 0 <= i < |items| && items[i].kind == kind ==> items[i].time == v
    ensures Total(items, kind) == Fold(Count(items, kind), v)
  {
    hide Fold;
    FoldStep(if items == [] then 0 else Count(items[..|items| - 1], kind), v);
    if items == [] {
    } else {
      EvenTotal(items[..|items| - 1], kind, v);
    }
  }

  lemma {:induction false} SameKinds(a: seq<Item>, b: seq<Item>, kind: Kind)
    requires |a| == |b| && forall i :: 0 <= i < |a| ==> a[i].kind == b[i].kind
    ensures Count(a, kind) == Count(b, kind)
    ensures (forall i :: 0 <= i < |a| && a[i].kind == kind ==> a[i] == b[i]) ==> Total(a, kind) == Total(b, kind)
  {
    if a == [] {
    } else {
      var n := |a| - 1;
      SameKinds(a[..n], b[..n], kind);
      if forall i :: 0 <= i < |a| && a[i].kind == kind ==> a[i] == b[i] {
        forall i | 0 <= i < n && a[..n][i].kind == kind
          ensures a[..n][i] == b[..n][i]
        {
          assert a[i] == b[i];
        }
      }
    }
  }

  /** Writing back distributes the transfer time without loss, and changes nothing but the four kinds. */
  lemma WriteBackTotals(items: seq<Item>, t: Times)
    requires Count(items, X2g) > 0
    ensures var after := WriteBack(items, t, Count(items, X2g));
            && Total(after, X2g) == t.x2g
            && Total(after, Softmax) == 0.0
            && (Count(items, Qkv) == 1 ==> Total(after, Qkv) == t.qkv)
            && (Count(items, Proj) == 1 ==> Total(after, Proj) == t.prj)
            && Total(after, Score) == Total(items, Score)
            && Total(after, Context) == Total(items, Context)
            && forall i :: 0 <= i < |items| && items[i].kind in {Score, Context, Other} ==> after[i] == items[i]
  {
    hide Total, Count, WriteBack, Fold;
    var n := Count(items, X2g);
    WrittenTotal(items, t, n, X2g, t.x2g / MaxReal(1.0, n as real));
    WrittenTotal(items, t, n, Softmax, 0.0);
    WrittenTotal(items, t, n, Qkv, t.qkv);
    WrittenTotal(items, t, n, Proj, t.prj);
    KeptTotal(items, t, n, Score);
    KeptTotal(items, t, n, Context);
    FoldStep(Count(items, Softmax), t.qkv);
    FoldStep(0, t.prj);
    Share(t.x2g, n);
  }

  lemma WrittenTotal(items: seq<Item>, t: Times, n: nat, kind: Kind, v: real)
    requires kind in {Qkv, Proj, X2g, Softmax} && forall time :: Rewritten(Item(kind, time), t, n) == v
    ensures Total(WriteBack(items, t, n), kind) == Fold(Count(items, kind), v)
  {
    hide Total, Count, Fold, Rewritten;
    var after := WriteBack(items, t, n);
    SameKinds(after, items, kind);
    forall i | 0 <= i < |after| && after[i].kind == kind
      ensures after[i].time == v
    {
      assert items[i] == Item(kind, items[i].time);
    }
    EvenTotal(after, kind, v);
  }

  lemma KeptTotal(items: seq<Item>, t: Times, n: nat, kind: Kind)
    requires kind in {Score, Context, Other}
    ensures Total(WriteBack(items, t, n), kind) == Total(items, kind)
  {
    hide Total, Count;
    SameKinds(WriteBack(items, t, n), items, kind);
  }

  lemma Share(x: real, n: nat)
    requires n > 0
    ensures Fold(n, x / MaxReal(1.0, n as real)) == x
  {
  }

  /** A decoder block: one qkv, one proj and some transfers. */
  ghost predicate Shaped(items: seq<Item>) {
    Count(items, Qkv) == 1 && Count(items, Proj) == 1 && Count(items, X2g) > 0
  }

  /** A decoder block whose times make sense. */
  ghost predicate Block(items: seq<Item>) {
    && Shaped(items)
    && forall i :: 0 <= i < |items| ==> items[i].time >= 0.0
  }

  lemma {:induction false} TotalPositive(items: seq<Item>, kind: Kind)
    requires forall i :: 0 <= i < |items| ==> items[i].time >= 0.0
    ensures Total(items, kind) >= 0.0
  {
    if items == [] {
    } else {
      TotalPositive(items[..|items| - 1], kind);
    }
  }

  lemma SplitShare(x: real, r: real)
    ensures Scaled(x, r) == x - Saved(x, r)
  {
  }

  lemma SavedGrows(x: real, y: real, r: real)
    requires 0.0 <= x <= y && 0.0 < r <= 1.0
    ensures 0.0 <= Saved(x, r) <= Saved(y, r) <= y
  {
    ShareBelow(y, 1.0 - r);
    ShareBelow(x, 1.0 - r);
    ShareBelow(y - x, 1.0 - r);
    assert (y - x) * (1.0 - r) == y * (1.0 - r) - x * (1.0 - r);
  }

  /** What overlapping saves: all but one head's share of the shorter of both times. */
  lemma OverlapIsMinimum(x2g: real, attn: real, r: real)
    ensures Overlapped(x2g, attn, r) == x2g - Saved(MinReal(attn, x2g), r)
  {
    hide Scaled, Saved;
    SplitShare(x2g, r);
  }

  lemma OverlapSaves(x2g: real, attn: real, r: real)
    requires 0.0 <= x2g && 0.0 <= attn && 0.0 < r <= 1.0
    ensures Scaled(x2g, r) <= Overlapped(x2g, attn, r) <= x2g
    ensures Scaled(x2g, r) <= x2g
  {
    hide Scaled, Saved;
    SplitShare(x2g, r);
    OverlapIsMinimum(x2g, attn, r);
    SavedGrows(MinReal(attn, x2g), x2g, r);
  }

  lemma ShareBelow(x: real, r: real)
    requires 0.0 <= x && 0.0 <= r <= 1.0
    ensures 0.0 <= x * r <= x
  {
  }

  /** Without levels, only the transfers and the softmax change, by exactly the overlap. */
  lemma PlainPipelining(items: seq<Item>, r: real)
    requires Shaped(items)
    ensures var after, x2g, attn := Pipelined(items, r, false), Total(items, X2g), Attention(items);
            && Total(after, X2g) == x2g - Saved(MinReal(attn, x2g), r)
            && Total(after, Qkv) == Total(items, Qkv) && Total(after, Proj) == Total(items, Proj)
            && Total(after, Softmax) == 0.0
            && forall i :: 0 <= i < |items| && items[i].kind in {Score, Context, Other} ==> after[i] == items[i]
  {
    hide Total, Count, Attention, Overlapped, Saved;
    OverlapIsMinimum(Total(items, X2g), Attention(items), r);
    WriteBackTotals(items, NewTimes(items, r, false));
  }

  /** How many key-value heads a device has; at least one. */
  function HeadsPerDevice(kvHeads: nat, devices: nat): real
    requires devices > 0
  {
    if kvHeads <= devices then 1.0 else kvHeads as real / devices as real
  }

  lemma RatioIsShare(kvHeads: nat, devices: nat)
    requires devices > 0
    ensures HeadsPerDevice(kvHeads, devices) >= 1.0
    ensures HeadsPerDevice(kvHeads, devices) * Ratio(kvHeads, devices) == 1.0
  {
    if kvHeads <= devices {
      assert kvHeads as real / devices as real <= 1.0;
    } else {
      assert kvHeads as real / devices as real >= 1.0;
    }
  }

  /**
   * With h heads per device, overlapping saves (h - 1) / h of the shorter of attention and
   * transfers; with one head nothing overlaps.
   */
  lemma PlainSavesAllButOneHead(items: seq<Item>, kvHeads: nat, devices: nat)
    requires Shaped(items) && devices > 0
    ensures var h, x2g, attn := HeadsPerDevice(kvHeads, devices), Total(items, X2g), Attention(items);
            var saved := x2g - Total(Pipelined(items, Ratio(kvHeads, devices), false), X2g);
            && (attn <= x2g ==> h * saved == (h - 1.0) * attn)
            && (x2g <= attn ==> h * saved == (h - 1.0) * x2g)
  {
    hide Total, Attention, Pipelined, Saved, Ratio, HeadsPerDevice;
    RatioIsShare(kvHeads, devices);
    PlainPipelining(items, Ratio(kvHeads, devices));
    SavedByHeads(Total(items, X2g), HeadsPerDevice(kvHeads, devices), Ratio(kvHeads, devices));
    SavedByHeads(Attention(items), HeadsPerDevice(kvHeads, devices), Ratio(kvHeads, devices));
  }

  lemma SavedByHeads(time: real, h: real, r: real)
    requires h * r == 1.0
    ensures h * Saved(time, r) == (h - 1.0) * time
  {
    calc {
      h * (time * (1.0 - r));
      time * (h * (1.0 - r));
      time * (h - h * r);
      (h - 1.0) * time;
    }
  }

  /**
   * With levels, all but one head's share is saved of the following. Where the matrix layers take
   * longest, they are shortened by attention and the transfers by themselves; otherwise the matrix
   * layers are shortened by themselves, and the transfers by the shorter of attention and transfers.
   */
  lemma LevelSaves(items: seq<Item>, r: real)
    requires Shaped(items)
    ensures var after := Pipelined(items, r, true);
            var fc, fc', x, x' := Total(items, Qkv) + Total(items, Proj), Total(after, Qkv) + Total(after, Proj),
                                  Total(items, X2g), Total(after, X2g);
            var attn := Attention(items);
            var hidden := attn <= fc && x < fc;
            && fc - fc' == Saved(if hidden then attn else fc, r)
            && x - x' == Saved(if hidden then x else MinReal(attn, x), r)
  {
    hide Total, Count, Attention, Scaled, Saved;
    var qkv, prj, x, attn := Total(items, Qkv), Total(items, Proj), Total(items, X2g), Attention(items);
    WriteBackTotals(items, NewTimes(items, r, true));
    hide WriteBack, Shaped;
    SplitShare(qkv, r);
    SplitShare(prj, r);
    SplitShare(x, r);
    SplitShare(qkv + prj, r);
    ScaledSum(qkv, prj, r);
    OverlapIsMinimum(x, attn, r);
  }

  /** With levels, neither the matrix layers nor the transfers get faster than one head's share, nor slower. */
  lemma LevelPipelining(items: seq<Item>, r: real)
    requires Block(items) && 0.0 < r <= 1.0
    ensures var after := Pipelined(items, r, true);
            var fc, fc', x, x' := Total(items, Qkv) + Total(items, Proj), Total(after, Qkv) + Total(after, Proj),
                                  Total(items, X2g), Total(after, X2g);
            && Scaled(fc, r) <= fc' <= fc && Scaled(x, r) <= x' <= x
            && Total(after, Softmax) == 0.0
            && forall i :: 0 <= i < |items| && items[i].kind in {Score, Context, Other} ==> after[i] == items[i]
  {
    hide Total, Count, Overlap, Scaled;
    TotalPositive(items, X2g);
    TotalPositive(items, Score);
    TotalPositive(items, Context);
    TotalPositive(items, Softmax);
    TotalPositive(items, Qkv);
    TotalPositive(items, Proj);
    LevelBounds(Total(items, Qkv), Total(items, Proj), Total(items, X2g), Attention(items), r);
    WriteBackTotals(items, NewTimes(items, r, true));
  }

  lemma LevelBounds(qkv: real, prj: real, x2g: real, attn: real, r: real)
    requires 0.0 < r <= 1.0 && attn >= 0.0 && qkv >= 0.0 && prj >= 0.0 && x2g >= 0.0
    ensures var t := Overlap(qkv, prj, x2g, attn, r, true);
            && Scaled(qkv + prj, r) <= t.qkv + t.prj <= qkv + prj
            && Scaled(x2g, r) <= t.x2g <= x2g
  {
    hide Scaled, Saved;
    OverlapSaves(x2g, attn, r);
    OverlapSaves(qkv + prj, attn, r);
    ScaledSum(qkv, prj, r);
  }

  lemma ScaledSum(x: real, y: real, r: real)
    ensures Scaled(x, r) + Scaled(y, r) == Scaled(x + y, r)
  {
    assert (x + y) * r == x * r + y * r;
  }

  /** In the branch that splits the overlap three to one, a short qkv or proj layer ends up with a negative time. */
  lemma TimesMayTurnNegative(items: seq<Item>, r: real)
    requires Block(items) && 0.0 < r <= 1.0
    ensures var qkv, prj, attn, new0 := Total(items, Qkv), Total(items, Proj), Attention(items), NewTimes(items, r, true);
            var splits := attn <= qkv + prj && qkv + prj > Total(items, X2g);
            && (new0.qkv < 0.0 <==> splits && qkv < Saved(attn, r) * 0.75)
            && (new0.prj < 0.0 <==> splits && prj < Saved(attn, r) * 0.25)
            && new0.x2g >= 0.0
  {
    hide Total, Attention, Scaled, Saved;
    TotalPositive(items, Qkv);
    TotalPositive(items, Proj);
    TotalPositive(items, X2g);
    TotalPositive(items, Score);
    TotalPositive(items, Context);
    TotalPositive(items, Softmax);
    AttentionPositive(items);
    ScaledPositive(Total(items, Qkv), r);
    ScaledPositive(Total(items, Proj), r);
    ScaledPositive(Total(items, X2g), r);
    LevelBounds(Total(items, Qkv), Total(items, Proj), Total(items, X2g), Attention(items), r);
  }

  lemma AttentionPositive(items: seq<Item>)
    requires Total(items, Score) >= 0.0 && Total(items, Context) >= 0.0 && Total(items, Softmax) >= 0.0
    ensures Attention(items) >= 0.0
  {
  }

  lemma ScaledPositive(x: real, r: real)
    requires x >= 0.0 && r > 0.0
    ensures Scaled(x, r) >= 0.0
  {
  }

  /** Such blocks exist. */
  lemma NegativeTimesExamples()
    ensures var items := [Item(Qkv, 0.0), Item(Proj, 8.0), Item(X2g, 1.0), Item(Score, 4.0)];
            Block(items) && NewTimes(items, 0.5, true).qkv == -1.5
    ensures var items := [Item(Qkv, 8.0), Item(Proj, 0.0), Item(X2g, 1.0), Item(Score, 4.0)];
            Block(items) && NewTimes(items, 0.5, true).prj == -0.5
  {
    TotalOfFour(Item(Qkv, 0.0), Item(Proj, 8.0), Item(X2g, 1.0), Item(Score, 4.0));
    TotalOfFour(Item(Qkv, 8.0), Item(Proj, 0.0), Item(X2g, 1.0), Item(Score, 4.0));
    hide Total, Count;
  }

  /** The time of a layer if it is of that kind. */
  function Part(item: Item, kind: Kind): real {
    if item.kind == kind then item.time else 0.0
  }

  lemma TotalOfFour(a: Item, b: Item, c: Item, d: Item)
    ensures forall kind :: Total([a, b, c, d], kind) == Part(a, kind) + Part(b, kind) + Part(c, kind) + Part(d, kind)
    ensures forall kind :: Count([a, b, c, d], kind) ==
                           (if a.kind == kind then 1 else 0) + (if b.kind == kind then 1 else 0) +
                           (if c.kind == kind then 1 else 0) + (if d.kind == kind then 1 else 0)
  {
    hide Total, Count;
    assert [] + [a] == [a] && [a] + [b] == [a, b] && [a, b] + [c] == [a, b, c] && [a, b, c] + [d] == [a, b, c, d];
    forall kind: Kind
      ensures Total([a, b, c, d], kind) == Part(a, kind) + Part(b, kind) + Part(c, kind) + Part(d, kind)
      ensures Count([a, b, c, d], kind) ==
              (if a.kind == kind then 1 else 0) + (if b.kind == kind then 1 else 0) +
              (if c.kind == kind then 1 else 0) + (if d.kind == kind then 1 else 0)
    {
      TotalStep([], a, kind);
      TotalStep([a], b, kind);
      TotalStep([a, b], c, kind);
      TotalStep([a, b, c], d, kind);
    }
  }

  lemma TotalStep(items: seq<Item>, last: Item, kind: Kind)
    ensures Total(items + [last], kind) == Total(items, kind) + Part(last, kind)
    ensures Count(items + [last], kind) == Count(items, kind) + if last.kind == kind then 1 else 0
    ensures Total([], kind) == 0.0 && Count([], kind) == 0
  {
    assert (items + [last])[..|items + [last]| - 1] == items;
  }

  // ---- as it runs ------------------------------------------------------------------------

  class Layer {
    const name: string
    var execTime: real

    constructor (name: string, execTime: real)
      ensures this.name == name && this.execTime == execTime
    {
      this.name, this.execTime := name, execTime;
    }
  }

  ghost function Items(layers: seq<Layer>): (items: seq<Item>)
    reads layers
    ensures |items| == |layers|
    ensures forall i :: 0 <= i < |layers| ==> items[i] == Item(KindOf(layers[i].name), layers[i].execTime)
  {
    seq(|layers|, i requires 0 <= i < |layers| reads layers => Item(KindOf(layers[i].name), layers[i].execTime))
  }

  /** The accumulators of the first loop. */
  datatype Sums = Sums(qkv: real, prj: real, x2g: real, score: real, context: real, softmax: real)

  ghost predicate SumsOf(t: Sums, items: seq<Item>) {
    && t.qkv == Total(items, Qkv) && t.prj == Total(items, Proj) && t.x2g == Total(items, X2g)
    && t.score == Total(items, Score) && t.context == Total(items, Context) && t.softmax == Total(items, Softmax)
  }

  method SumUp(layers: seq<Layer>) returns (t: Sums)
    ensures SumsOf(t, Items(layers))
  {
    t := Sums(0.0, 0.0, 0.0, 0.0, 0.0, 0.0);
    ghost var items := Items(layers);
    for i := 0 to |layers|
      invariant SumsOf(t, items[..i])
    {
      assert items[..i + 1][..i] == items[..i];
      var time := layers[i].execTime;
      match KindOf(layers[i].name) {
        case Qkv => t := t.(qkv := t.qkv + time);
        case Proj => t := t.(prj := t.prj + time);
        case X2g => t := t.(x2g := t.x2g + time);
        case Score => t := t.(score := t.score + time);
        case Context => t := t.(context := t.context + time);
        case Softmax => t := t.(softmax := t.softmax + time);
        case Other =>
      }
    }
    assert items[..|layers|] == items;
  }

  method CountTransfers(layers: seq<Layer>) returns (n: nat)
    ensures n == Count(Items(layers), X2g)
  {
    n := 0;
    ghost var items := Items(layers);
    for i := 0 to |layers|
      invariant n == Count(items[..i], X2g)
    {
      assert items[..i + 1][..i] == items[..i];
      if StartsWith(layers[i].name, "comm_x2g") {
        PrefixMeansTransfer(layers[i].name);
        n := n + 1;
      }
    }
    assert items[..|layers|] == items;
  }

  lemma PrefixMeansTransfer(name: string)
    requires StartsWith(name, "comm_x2g")
    ensures KindOf(name) == X2g
  {
    assert name[0] == name[..8][0] == 'c' && name[1] == name[..8][1] == 'o';
  }

  /** The branches between the two loops. */
  method ComputeTimes(t: Sums, r: real, level: bool) returns (qkv: real, prj: real, x2g: real)
    ensures Times(qkv, prj, x2g) == Overlap(t.qkv, t.prj, t.x2g, t.score + t.context + t.softmax, r, level)
  {
    qkv, prj, x2g := t.qkv, t.prj, t.x2g;
    var attn := t.score + t.context + t.softmax;
    if !level {
      if attn > x2g {
        x2g := x2g * r;
      } else {
        x2g := x2g - attn * (1.0 - r);
      }
    } else {
      var fc := qkv + prj;
      if attn > fc {
        qkv, prj := qkv * r, prj * r;
        if attn > x2g {
          x2g := x2g * r;
        } else {
          x2g := x2g - attn * (1.0 - r);
        }
      } else if fc > x2g {
        x2g := x2g * r;
        qkv := qkv - attn * (1.0 - r) * 0.75;
        prj := prj - attn * (1.0 - r) * 0.25;
      } else {
        x2g := x2g - attn * (1.0 - r);
        qkv, prj := qkv * r, prj * r;
      }
    }
  }

  /** Reads all times, then writes the new ones. A layer listed twice is read and written twice. */
  method Pipeline(layers: seq<Layer>, level: bool, kvHeads: nat, devices: nat)
    requires devices > 0
    modifies layers
    ensures Items(layers) == Pipelined(old(Items(layers)), Ratio(kvHeads, devices), level)
  {
    hide KindOf, Total, Count, Overlap, WriteBack, Ratio;
    var t := SumUp(layers);
    var transfers := CountTransfers(layers);
    var qkv, prj, x2g := ComputeTimes(t, Ratio(kvHeads, devices), level);
    Store(layers, qkv, prj, x2g, transfers);
  }

  /** The second loop. */
  method Store(layers: seq<Layer>, qkv: real, prj: real, x2g: real, transfers: nat)
    modifies layers
    ensures Items(layers) == WriteBack(old(Items(layers)), Times(qkv, prj, x2g), transfers)
  {
    hide KindOf;
    ghost var items, t := Items(layers), Times(qkv, prj, x2g);
    for i := 0 to |layers|
      invariant forall j :: 0 <= j < i ==> layers[j].execTime == Rewritten(items[j], t, transfers)
      invariant forall j :: i <= j < |layers| ==>
                  layers[j].execTime == items[j].time || layers[j].execTime == Rewritten(items[j], t, transfers)
    {
      match KindOf(layers[i].name) {
        case Qkv => layers[i].execTime := qkv;
        case Proj => layers[i].execTime := prj;
        case X2g => layers[i].execTime := x2g / MaxReal(1.0, transfers as real);
        case Softmax => layers[i].execTime := 0.0;
        case Score =>
        case Context =>
        case Other =>
      }
    }
  }
}
