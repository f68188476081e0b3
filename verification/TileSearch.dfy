/** The tile search of the accelerator cost model, its memo table, and the traffic it implies. */
module TileSearch {
  import opened Arith
  import opened PimTypes

  type Pos = n: nat | n > 0 witness 1

  /** A matrix layer: m x k times k x n, `numOp` times, with `dbyte` bytes per element. */
  datatype Layer = Layer(fc: bool, m: nat, n: nat, k: nat, numOp: nat, dbyte: Pos)

  /** What the memo table is keyed by: everything but the kind of layer. */
  datatype Key = Key(m: nat, n: nat, k: nat, numOp: nat, dbyte: Pos)

  function KeyOf(l: Layer): Key {
    Key(l.m, l.n, l.k, l.numOp, l.dbyte)
  }

  datatype Config = Config(cores: nat, l1Size: real, l2Size: real)

  datatype Tile = Tile(tm: Pos, tn: Pos)

  /** The level-one tile, whose depth is always 32, and the level-two tile, whose depth is k / 64. */
  datatype Tiles = Tiles(l1: Tile, l2: Tile)

  // ---- traffic ---------------------------------------------------------------------------

  /** Bytes moved for the two inputs and the output. */
  datatype Traffic = Traffic(in1: int, in2: int, out: int) {
    function Sum(): int { in1 + in2 + out }
  }

  function TrafficForTile(l: Layer, t: Tile): Traffic {
    Traffic(CeilDiv(l.n, t.tn) * l.m * l.k * l.dbyte * l.numOp,
            CeilDiv(l.m, t.tm) * l.n * l.k * l.dbyte * l.numOp,
            l.m * l.n * l.dbyte * l.numOp)
  }

  /** Layer.get_size of a matrix layer. */
  function SizeOf(l: Layer): Traffic {
    Traffic(l.numOp * l.m * l.k * l.dbyte, l.numOp * l.n * l.k * l.dbyte, l.numOp * l.m * l.n * l.dbyte)
  }

  /** Kinds of layers by traffic; the name of a gated activation contains "glu". */
  datatype Kind = Matrix | Elementwise | Gated | Norm

  /** Layer.get_size: elementwise layers read one operand and write it, gated ones and norms read two. */
  function LayerSize(kind: Kind, l: Layer): Traffic {
    var data := l.numOp * l.m * l.n * l.dbyte;
    match kind
    case Matrix => SizeOf(l)
    case Elementwise => Traffic(data, 0, data)
    case Gated => Traffic(data, data, data)
    case Norm => Traffic(data, data, data)
  }

  /** Traffic at the four levels of memory. */
  datatype Levels = Levels(off: Traffic, l2: Traffic, l1: Traffic, reg: Traffic)

  /** A matrix layer by its tiles, with 16 x 16 tiles from level one and one access per multiplication from registers. */
  function MatrixLevels(l: Layer, t: Tiles): Levels {
    var reg := l.m * l.n * l.k;
    Levels(TrafficForTile(l, t.l2), TrafficForTile(l, t.l1), TrafficForTile(l, Tile(16, 16)), Traffic(reg, reg, reg))
  }

  /** The traffic of any layer, through the memo. */
  function TrafficStep(cfg: Config, table: map<Key, Tiles>, kind: Kind, l: Layer): (map<Key, Tiles>, Option<Levels>) {
    var size := LayerSize(kind, l);
    if kind != Matrix then (table, Some(Levels(size, size, size, size)))
    else
      var (table', tiles) := Call(cfg, table, l);
      (table', if tiles.None? then None else Some(MatrixLevels(l, tiles.value)))
  }

  // ---- the two searches ------------------------------------------------------------------

  /** What is searched for: a level-one tile, or a level-two tile around a level-one tile. */
  datatype Goal = L1(l: Layer, cfg: Config) | L2(l: Layer, cfg: Config, l1: Tile)

  predicate Sensible(l: Layer, cfg: Config) {
    l.m > 0 && l.n > 0 && l.numOp > 0 && cfg.cores > 0
  }

  function L1Bytes(l: Layer, t: Tile): int {
    (t.tm + t.tn) * 32 * l.dbyte + t.tm * t.tn * l.dbyte
  }

  function L2Bytes(l: Layer, t: Tile): real {
    (t.tm + t.tn) as real * (l.k as real / 64.0) * l.dbyte as real + (t.tm * t.tn * l.dbyte) as real
  }

  predicate Fits(goal: Goal, t: Tile) {
    match goal
    case L1(l, cfg) => L1Bytes(l, t) as real <= cfg.l1Size
    case L2(l, cfg, _) => L2Bytes(l, t) <= cfg.l2Size
  }

  /** A level-two search never rejects the level-one tile. */
  predicate Accepts(goal: Goal, t: Tile) {
    Fits(goal, t) || (goal.L2? && t == goal.l1)
  }

  /** Thread blocks of a level-one tile. */
  function Blocks(l: Layer, t: Tile): nat {
    if l.fc then CeilDiv(l.m, t.tm) * CeilDiv(l.n, t.tn) * l.numOp else l.numOp
  }

  /** Level-two traffic, times the squared inverse of the core utilization. */
  function L1Cost(l: Layer, cfg: Config, t: Tile): real
    requires Sensible(l, cfg)
  {
    BlocksPositive(l, t);
    var slots := CeilDiv(Blocks(l, t), cfg.cores) * cfg.cores;
    var inverse := slots as real / Blocks(l, t) as real;
    TrafficForTile(l, t).Sum() as real * (inverse * inverse)
  }

  function Access(l: Layer, t: Tile): int {
    CeilDiv(l.m, t.tm) * l.n * l.k * l.dbyte + CeilDiv(l.n, t.tn) * l.m * l.k * l.dbyte + l.m * l.n * l.dbyte
  }

  function Cost(goal: Goal, t: Tile): real
    requires Sensible(goal.l, goal.cfg)
  {
    match goal
    case L1(l, cfg) => L1Cost(l, cfg, t)
    case L2(l, cfg, _) => Access(l, t) as real
  }

  lemma CeilPositive(a: nat, b: Pos)
    requires a > 0
    ensures CeilDiv(a, b) > 0
  {
    DivMod(a + b - 1, b);
  }

  lemma BlocksPositive(l: Layer, t: Tile)
    requires l.m > 0 && l.n > 0 && l.numOp > 0
    ensures Blocks(l, t) > 0
  {
    CeilPositive(l.m, t.tm);
    CeilPositive(l.n, t.tn);
    MulAtLeast(CeilDiv(l.m, t.tm), CeilDiv(l.n, t.tn));
    MulAtLeast(CeilDiv(l.m, t.tm) * CeilDiv(l.n, t.tn), l.numOp);
  }

  /** Keep the better of the best so far and one more candidate. */
  function Improve(goal: Goal, best: Option<Tile>, t: Tile): Option<Tile>
    requires Sensible(goal.l, goal.cfg)
  {
    if Accepts(goal, t) && (best.None? || Cost(goal, t) < Cost(goal, best.value)) then Some(t) else best
  }

  function Row(goal: Goal, tm: Pos, tns: seq<Pos>, best: Option<Tile>): Option<Tile>
    requires Sensible(goal.l, goal.cfg)
  {
    if tns == [] then best
    else Improve(goal, Row(goal, tm, tns[..|tns| - 1], best), Tile(tm, tns[|tns| - 1]))
  }

  function Search(goal: Goal, tms: seq<Pos>, tns: seq<Pos>): Option<Tile>
    requires Sensible(goal.l, goal.cfg)
  {
    if tms == [] then None
    else Row(goal, tms[|tms| - 1], tns, Search(goal, tms[..|tms| - 1], tns))
  }

  const TRANGE: seq<Pos> := [8, 16, 32, 64, 128, 192, 256, 320, 384, 448, 512]

  function L1Sizes(size: Pos): (s: seq<Pos>)
    ensures |s| == |TRANGE| && forall i :: 0 <= i < |s| ==> s[i] == Min(TRANGE[i], size)
  {
    seq(|TRANGE|, i requires 0 <= i < |TRANGE| => Min(TRANGE[i], size))
  }

  /** All multiples of the level-one size, and the full size. */
  function L2Sizes(size: Pos, l1: Pos): (s: seq<Pos>)
    ensures |s| == size / l1 + 1 && s[size / l1] == size
    ensures forall i :: 0 <= i < size / l1 ==> s[i] == Times(l1, i + 1)
  {
    seq(size / l1, i requires 0 <= i < size / l1 => Times(l1, i + 1)) + [size]
  }

  function Times(a: Pos, b: Pos): Pos {
    MulAtLeast(a, b);
    a * b
  }

  /** None stands for the division by zero that the search ends in when a size is zero or no tile fits. */
  function Optimal(l: Layer, cfg: Config): Option<Tiles> {
    if !Sensible(l, cfg) then None
    else
      match Search(L1(l, cfg), L1Sizes(l.m), L1Sizes(l.n))
      case None => None
      case Some(t) =>
        match Search(L2(l, cfg, t), L2Sizes(l.m, t.tm), L2Sizes(l.n, t.tn))
        case None => None
        case Some(u) => Some(Tiles(t, u))
  }

  // ---- what a search finds ---------------------------------------------------------------

  /** `best` is at least as good as `t`, if `t` is acceptable at all. */
  ghost predicate Beats(goal: Goal, best: Option<Tile>, t: Tile)
    requires Sensible(goal.l, goal.cfg)
  {
    Accepts(goal, t) ==> best.Some? && Cost(goal, best.value) <= Cost(goal, t)
  }

  ghost predicate Proper(goal: Goal, best: Option<Tile>, tms: seq<Pos>, tns: seq<Pos>) {
    best.Some? ==> Accepts(goal, best.value) && best.value.tm in tms && best.value.tn in tns
  }

  lemma {:induction false} RowBest(goal: Goal, tm: Pos, tns: seq<Pos>, best: Option<Tile>)
    requires Sensible(goal.l, goal.cfg)
    ensures forall j :: 0 <= j < |tns| ==> Beats(goal, Row(goal, tm, tns, best), Tile(tm, tns[j]))
    ensures forall t :: Beats(goal, best, t) ==> Beats(goal, Row(goal, tm, tns, best), t)
    ensures var r := Row(goal, tm, tns, best);
            r == best || (r.Some? && Accepts(goal, r.value) && r.value.tm == tm && r.value.tn in tns)
  {
    hide Cost, Accepts;
    if tns == [] {
    } else {
      RowBest(goal, tm, tns[..|tns| - 1], best);
    }
  }

  /** The search returns a cheapest acceptable candidate, or nothing when none is acceptable. */
  lemma {:induction false} SearchBest(goal: Goal, tms: seq<Pos>, tns: seq<Pos>)
    requires Sensible(goal.l, goal.cfg)
    ensures forall i, j :: 0 <= i < |tms| && 0 <= j < |tns| ==>
              Beats(goal, Search(goal, tms, tns), Tile(tms[i], tns[j]))
    ensures Proper(goal, Search(goal, tms, tns), tms, tns)
  {
    hide Cost, Accepts, Row, Beats;
    if tms == [] {
    } else {
      var n := |tms| - 1;
      SearchBest(goal, tms[..n], tns);
      RowBest(goal, tms[n], tns, Search(goal, tms[..n], tns));
    }
  }

  lemma SmallestFits(l: Layer, t: Tile, u: Tile)
    requires t.tm <= u.tm && t.tn <= u.tn
    ensures L1Bytes(l, t) <= L1Bytes(l, u)
  {
    var a, b, c, d := (t.tm + t.tn) * 32, (u.tm + u.tn) * 32, t.tm * t.tn, u.tm * u.tn;
    MulBoth(t.tm, u.tm, t.tn);
    MulBoth(t.tn, u.tn, u.tm);
    MulBoth(a, b, l.dbyte);
    MulBoth(c, d, l.dbyte);
    assert L1Bytes(l, t) == a * l.dbyte + c * l.dbyte;
  }

  lemma MulBoth(a: int, b: int, c: nat)
    requires a <= b
    ensures a * c <= b * c && c * a <= c * b
  {
  }

  /** The level-one tile is found exactly when the smallest candidate fits. */
  lemma FoundIffSmallestFits(l: Layer, cfg: Config)
    requires Sensible(l, cfg)
    ensures Search(L1(l, cfg), L1Sizes(l.m), L1Sizes(l.n)).Some? <==> Fits(L1(l, cfg), Tile(Min(8, l.m), Min(8, l.n)))
  {
    hide Search, L1Bytes, L1Sizes, Cost;
    var goal, tms, tns := L1(l, cfg), L1Sizes(l.m), L1Sizes(l.n);
    SearchBest(goal, tms, tns);
    assert tms[0] == Min(8, l.m) && tns[0] == Min(8, l.n);
    assert Beats(goal, Search(goal, tms, tns), Tile(tms[0], tns[0]));
    var best := Search(goal, tms, tns);
    if best.Some? {
      SmallestFits(l, Tile(Min(8, l.m), Min(8, l.n)), best.value);
    }
  }

  /** The level-one tile itself is the first candidate of level two. */
  lemma L1IsCandidate(size: Pos, l1: Pos)
    requires l1 <= size
    ensures L2Sizes(size, l1)[0] == l1
  {
    DivMod(size, l1);
    assert size / l1 > 0;
    assert Times(l1, 1) == l1;
  }

  lemma SizesBounded(size: Pos, l1: Pos, s: Pos)
    requires s in L2Sizes(size, l1)
    ensures s <= size && (s == size || exists i: Pos :: s == Times(l1, i))
  {
    var sizes := L2Sizes(size, l1);
    var i :| 0 <= i < |sizes| && sizes[i] == s;
    if i < size / l1 {
      MulBoth(i + 1, size / l1, l1);
      DivMod(size, l1);
    }
  }

  /** What the tile search promises of its answer. */
  ghost predicate GoodTiles(l: Layer, cfg: Config, t: Tiles)
    requires Sensible(l, cfg)
  {
    && Fits(L1(l, cfg), t.l1)
    && (forall i, j :: 0 <= i < |TRANGE| && 0 <= j < |TRANGE| ==>
          Beats(L1(l, cfg), Some(t.l1), Tile(Min(TRANGE[i], l.m), Min(TRANGE[j], l.n))))
    && (Fits(L2(l, cfg, t.l1), t.l2) || t.l2 == t.l1)
    && (forall u: Tile :: u.tm in L2Sizes(l.m, t.l1.tm) && u.tn in L2Sizes(l.n, t.l1.tn) ==>
          Beats(L2(l, cfg, t.l1), Some(t.l2), u))
    && Access(l, t.l2) <= Access(l, t.l1)
  }

  /** The search answers exactly when all sizes are positive and the smallest tile fits, and then well. */
  lemma OptimalIsGood(l: Layer, cfg: Config)
    ensures Optimal(l, cfg).Some? <==>
            Sensible(l, cfg) && Fits(L1(l, cfg), Tile(Min(8, l.m), Min(8, l.n)))
    ensures Optimal(l, cfg).Some? ==> GoodTiles(l, cfg, Optimal(l, cfg).value)
  {
    if Sensible(l, cfg) {
      hide Search, Fits, L1Cost, Access;
      FoundIffSmallestFits(l, cfg);
      SearchBest(L1(l, cfg), L1Sizes(l.m), L1Sizes(l.n));
      var best := Search(L1(l, cfg), L1Sizes(l.m), L1Sizes(l.n));
      if best.Some? {
        SecondLevel(l, cfg, best.value);
        forall i, j | 0 <= i < |TRANGE| && 0 <= j < |TRANGE|
          ensures Beats(L1(l, cfg), best, Tile(Min(TRANGE[i], l.m), Min(TRANGE[j], l.n)))
        {
          assert L1Sizes(l.m)[i] == Min(TRANGE[i], l.m) && L1Sizes(l.n)[j] == Min(TRANGE[j], l.n);
        }
      }
    }
  }

  lemma SecondLevel(l: Layer, cfg: Config, t: Tile)
    requires Sensible(l, cfg) && t.tm <= l.m && t.tn <= l.n
    ensures var best := Search(L2(l, cfg, t), L2Sizes(l.m, t.tm), L2Sizes(l.n, t.tn));
            && best.Some? && Accepts(L2(l, cfg, t), best.value) && Access(l, best.value) <= Access(l, t)
            && (forall u: Tile :: u.tm in L2Sizes(l.m, t.tm) && u.tn in L2Sizes(l.n, t.tn) ==> Beats(L2(l, cfg, t), best, u))
  {
    hide Search, Fits, Access;
    var goal, tms, tns := L2(l, cfg, t), L2Sizes(l.m, t.tm), L2Sizes(l.n, t.tn);
    SearchBest(goal, tms, tns);
    L1IsCandidate(l.m, t.tm);
    L1IsCandidate(l.n, t.tn);
    var best := Search(goal, tms, tns);
    assert Beats(goal, best, Tile(tms[0], tns[0]));
    forall u: Tile | u.tm in tms && u.tn in tns
      ensures Beats(goal, best, u)
    {
      var i :| 0 <= i < |tms| && tms[i] == u.tm;
      var j :| 0 <= j < |tns| && tns[j] == u.tn;
      assert Beats(goal, best, Tile(tms[i], tns[j]));
    }
  }

  // ---- traffic bounds --------------------------------------------------------------------

  lemma TrafficIsAccess(l: Layer, t: Tile)
    ensures TrafficForTile(l, t).Sum() == Access(l, t) * l.numOp
  {
    var a, b, c := CeilDiv(l.n, t.tn) * l.m * l.k * l.dbyte, CeilDiv(l.m, t.tm) * l.n * l.k * l.dbyte, l.m * l.n * l.dbyte;
    MulSum(b, a, c, l.numOp);
  }

  lemma AtLeastOnce(c: nat, a: nat, k: nat, d: nat, ops: nat)
    requires c > 0
    ensures c * a * k * d * ops >= ops * a * k * d
  {
    var x := a * k * d * ops;
    assert c * a * k * d * ops == c * x;
    assert ops * a * k * d == x;
    MulAtLeast(c, x);
  }

  /** Any tile moves every operand at least once, and the output exactly once. */
  lemma TrafficAtLeastSize(l: Layer, t: Tile)
    requires l.m > 0 && l.n > 0
    ensures var traffic, size := TrafficForTile(l, t), SizeOf(l);
            traffic.in1 >= size.in1 && traffic.in2 >= size.in2 && traffic.out == size.out
  {
    CeilPositive(l.n, t.tn);
    CeilPositive(l.m, t.tm);
    AtLeastOnce(CeilDiv(l.n, t.tn), l.m, l.k, l.dbyte, l.numOp);
    AtLeastOnce(CeilDiv(l.m, t.tm), l.n, l.k, l.dbyte, l.numOp);
    calc {
      l.m * l.n * l.dbyte * l.numOp;
      l.numOp * (l.m * l.n * l.dbyte);
      l.numOp * l.m * l.n * l.dbyte;
    }
  }

  // ---- what capacity, traffic and cost count ---------------------------------------------

  /** The part of a layer that one tile of depth `k` computes. */
  function TileLayer(l: Layer, t: Tile, k: nat): Layer {
    Layer(l.fc, t.tm, t.tn, k, 1, l.dbyte)
  }

  /**
   * A level-one tile needs room for its own operands, of depth 32. A level-two tile needs room
   * for its own output and a 64th of its inputs: for its own operands, of depth k / 64.
   */
  lemma CapacityIsOperands(l: Layer, t: Tile)
    ensures L1Bytes(l, t) == SizeOf(TileLayer(l, t, 32)).Sum()
    ensures var whole := SizeOf(TileLayer(l, t, l.k));
            64.0 * L2Bytes(l, t) == (whole.in1 + whole.in2 + 64 * whole.out) as real
    ensures l.k % 64 == 0 ==> L2Bytes(l, t) == SizeOf(TileLayer(l, t, l.k / 64)).Sum() as real
  {
    InputBytes(t.tm, t.tn, 32, l.dbyte);
    InputBytes(t.tm, t.tn, l.k, l.dbyte);
    var a, out := (t.tm + t.tn) * l.k * l.dbyte, t.tm * t.tn * l.dbyte;
    InRealNumbers(t.tm + t.tn, l.k, l.dbyte);
    assert 64.0 * L2Bytes(l, t) == a as real + 64.0 * out as real;
    if l.k % 64 == 0 {
      var k := l.k / 64;
      InputBytes(t.tm, t.tn, k, l.dbyte);
      InRealNumbers(t.tm + t.tn, k, l.dbyte);
      assert l.k as real / 64.0 == k as real;
    }
  }

  lemma InputBytes(m: nat, n: nat, k: nat, d: nat)
    ensures m * k * d + n * k * d == (m + n) * k * d
  {
    assert (m + n) * k == m * k + n * k;
  }

  lemma InRealNumbers(a: nat, k: nat, d: nat)
    ensures a as real * k as real * d as real == (a * k * d) as real
    ensures 64.0 * (a as real * (k as real / 64.0) * d as real) == (a * k * d) as real
  {
    assert a as real * k as real == (a * k) as real;
    assert 64.0 * (a as real * (k as real / 64.0) * d as real) == a as real * k as real * d as real;
  }

  /**
   * Each input moves once for every tile along the other side of the output, with no tile too
   * many, and the output moves once.
   */
  lemma TrafficInPasses(l: Layer, t: Tile, across: nat, down: nat)
    requires JustCovers(across, t.tn, l.n) && JustCovers(down, t.tm, l.m)
    ensures var traffic, size := TrafficForTile(l, t), SizeOf(l);
            traffic.in1 == across * size.in1 && traffic.in2 == down * size.in2 && traffic.out == size.out
  {
    hide CeilDiv, JustCovers;
    CeilCovers(l.n, t.tn);
    CeilCovers(l.m, t.tm);
    SameCover(across, CeilDiv(l.n, t.tn), t.tn, l.n);
    SameCover(down, CeilDiv(l.m, t.tm), t.tm, l.m);
    Passes(across, l.numOp, l.m, l.k, l.dbyte);
    Passes(down, l.numOp, l.n, l.k, l.dbyte);
    Passes(1, l.numOp, l.m, l.n, l.dbyte);
  }

  lemma Passes(c: nat, ops: nat, a: nat, b: nat, d: nat)
    ensures c * a * b * d * ops == c * (ops * a * b * d)
    ensures a * b * d * ops == ops * a * b * d
  {
    var x := a * b * d;
    assert a * b * d * ops == ops * x && ops * a * b * d == ops * x;
    assert c * a * b * d == c * x;
    assert c * x * ops == c * (ops * x);
  }

  /** A tile that covers the whole output moves every operand exactly once. */
  lemma WholeTileIsSize(l: Layer, t: Tile)
    requires 0 < l.m <= t.tm && 0 < l.n <= t.tn
    ensures TrafficForTile(l, t) == SizeOf(l)
  {
    hide TrafficForTile, SizeOf;
    TrafficInPasses(l, t, 1, 1);
  }

  /**
   * A level-one tile costs its traffic times the square of slots per block, where the slots are
   * the cores of just enough rounds for all thread blocks; so it costs no less than its traffic.
   */
  lemma CostCountsIdleCores(l: Layer, cfg: Config, t: Tile, rounds: nat)
    requires Sensible(l, cfg) && JustCovers(rounds, cfg.cores, Blocks(l, t))
    ensures var slots, blocks := rounds * cfg.cores, Blocks(l, t);
            && slots >= blocks > 0
            && L1Cost(l, cfg, t) == Weighted(TrafficForTile(l, t).Sum(), slots, blocks)
            && L1Cost(l, cfg, t) >= TrafficForTile(l, t).Sum() as real
            && (slots == blocks ==> L1Cost(l, cfg, t) == TrafficForTile(l, t).Sum() as real)
  {
    BlocksPositive(l, t);
    TrafficPositive(l, t);
    hide CeilDiv, Blocks, TrafficForTile, JustCovers, Weighted;
    CeilCovers(Blocks(l, t), cfg.cores);
    SameCover(rounds, CeilDiv(Blocks(l, t), cfg.cores), cfg.cores, Blocks(l, t));
    var slots, blocks, traffic := rounds * cfg.cores, Blocks(l, t), TrafficForTile(l, t).Sum();
    CostIsWeighted(l, cfg, t);
    hide L1Cost;
    AtLeastSquare(traffic, slots, blocks);
  }

  /** Traffic times the square of slots per block. */
  function Weighted(traffic: int, slots: nat, blocks: nat): real
    requires blocks > 0
  {
    traffic as real * ((slots as real / blocks as real) * (slots as real / blocks as real))
  }

  lemma CostIsWeighted(l: Layer, cfg: Config, t: Tile)
    requires Sensible(l, cfg) && Blocks(l, t) > 0
    ensures L1Cost(l, cfg, t) == Weighted(TrafficForTile(l, t).Sum(), CeilDiv(Blocks(l, t), cfg.cores) * cfg.cores, Blocks(l, t))
  {
    hide CeilDiv, Blocks, TrafficForTile;
  }

  lemma SameCover(q: nat, r: nat, size: nat, n: nat)
    requires JustCovers(q, size, n) && JustCovers(r, size, n)
    ensures q == r && q * size >= n
  {
    JustCoversLeast(q, r, size, n);
    JustCoversLeast(r, q, size, n);
  }

  lemma TrafficPositive(l: Layer, t: Tile)
    requires l.m > 0 && l.n > 0
    ensures TrafficForTile(l, t).Sum() >= 0
  {
    hide TrafficForTile;
    TrafficAtLeastSize(l, t);
    ProductPositive(l.numOp, l.m, l.k, l.dbyte);
    ProductPositive(l.numOp, l.n, l.k, l.dbyte);
    ProductPositive(l.numOp, l.m, l.n, l.dbyte);
  }

  lemma ProductPositive(a: nat, b: nat, c: nat, d: nat)
    ensures a * b * c * d >= 0
  {
    var x := a * b;
    var y := x * c;
    assert y * d >= 0;
  }

  lemma AtLeastSquare(x: int, slots: nat, blocks: nat)
    requires x >= 0 && slots >= blocks > 0
    ensures Weighted(x, slots, blocks) >= x as real && (slots == blocks ==> Weighted(x, slots, blocks) == x as real)
  {
    var q := slots as real / blocks as real;
    assert q >= 1.0;
    AtLeastWhole(q, q);
    AtLeastWhole(q * q, x as real);
  }

  lemma AtLeastWhole(q: real, x: real)
    requires q >= 1.0 && x >= 0.0
    ensures x * q >= x && (q == 1.0 ==> x * q == x)
  {
  }

  /** Off-chip traffic lies between the operands' own size and the level-two traffic. */
  ghost predicate Ordered(l: Layer, t: Tiles) {
    SizeOf(l).Sum() <= TrafficForTile(l, t.l2).Sum() <= TrafficForTile(l, t.l1).Sum()
  }

  lemma OffChipAtMostL2(l: Layer, cfg: Config)
    requires Optimal(l, cfg).Some?
    ensures Ordered(l, Optimal(l, cfg).value)
  {
    hide Optimal, Access, TrafficForTile, SizeOf;
    OptimalIsGood(l, cfg);
    var t := Optimal(l, cfg).value;
    TrafficIsAccess(l, t.l1);
    TrafficIsAccess(l, t.l2);
    TrafficAtLeastSize(l, t.l2);
    MulBoth(Access(l, t.l2), Access(l, t.l1), l.numOp);
  }

  // ---- the search as it runs -------------------------------------------------------------

  class XPU {
    const cfg: Config
    var tableTiles: map<Key, Tiles>

    constructor (cfg: Config)
      ensures this.cfg == cfg && tableTiles == map[]
    {
      this.cfg := cfg;
      tableTiles := map[];
    }

    /** Fits, and is cheaper than the best so far. */
    method CompareL1(l: Layer, t: Tile, best: Option<Tile>) returns (best': Option<Tile>)
      requires Sensible(l, cfg)
      ensures best' == Improve(L1(l, cfg), best, t)
    {
      hide L1Cost, Fits;
      best' := best;
      if Fits(L1(l, cfg), t) && (best.None? || L1Cost(l, cfg, t) < L1Cost(l, cfg, best.value)) {
        best' := Some(t);
      }
    }

    /** Both nested loops over level-one candidates. */
    method FindL1(l: Layer) returns (best: Option<Tile>)
      requires Sensible(l, cfg)
      ensures best == Search(L1(l, cfg), L1Sizes(l.m), L1Sizes(l.n))
    {
      hide Improve;
      var tms, tns := L1Sizes(l.m), L1Sizes(l.n);
      best := None;
      for i := 0 to |TRANGE|
        invariant best == Search(L1(l, cfg), tms[..i], tns)
      {
        ghost var before := best;
        for j := 0 to |TRANGE|
          invariant best == Row(L1(l, cfg), tms[i], tns[..j], before)
        {
          best := CompareL1(l, Tile(Min(TRANGE[i], l.m), Min(TRANGE[j], l.n)), best);
          assert tns[..j + 1][..j] == tns[..j];
        }
        assert tns[..|TRANGE|] == tns && tms[..i + 1][..i] == tms[..i];
      }
      assert tms[..|TRANGE|] == tms;
    }

    /** Fits or is the level-one tile, and needs less access than the best so far. */
    method CompareL2(l: Layer, l1: Tile, t: Tile, best: Option<Tile>) returns (best': Option<Tile>)
      requires Sensible(l, cfg)
      ensures best' == Improve(L2(l, cfg, l1), best, t)
    {
      hide Fits, Access;
      best' := best;
      if Fits(L2(l, cfg, l1), t) || t == l1 {
        if best.None? || Access(l, t) < Access(l, best.value) {
          best' := Some(t);
        }
      }
    }

    /** Both nested loops over the multiples of the level-one tile. */
    method FindL2(l: Layer, l1: Tile) returns (best: Option<Tile>)
      requires Sensible(l, cfg)
      ensures best == Search(L2(l, cfg, l1), L2Sizes(l.m, l1.tm), L2Sizes(l.n, l1.tn))
    {
      hide Improve;
      var tms, tns := L2Sizes(l.m, l1.tm), L2Sizes(l.n, l1.tn);
      best := None;
      for i := 0 to |tms|
        invariant best == Search(L2(l, cfg, l1), tms[..i], tns)
      {
        ghost var before := best;
        for j := 0 to |tns|
          invariant best == Row(L2(l, cfg, l1), tms[i], tns[..j], before)
        {
          SizesBounded(l.m, l1.tm, tms[i]);
          SizesBounded(l.n, l1.tn, tns[j]);
          best := CompareL2(l, l1, Tile(Min(tms[i], l.m), Min(tns[j], l.n)), best);
          assert tns[..j + 1][..j] == tns[..j];
        }
        assert tns[..|tns|] == tns && tms[..i + 1][..i] == tms[..i];
      }
      assert tms[..|tms|] == tms;
    }

    /** The memoised search. */
    method GetOptimalTile(l: Layer) returns (r: Option<Tiles>)
      modifies this`tableTiles
      ensures (tableTiles, r) == Call(cfg, old(tableTiles), l)
    {
      hide Search;
      if KeyOf(l) in tableTiles {
        return Some(tableTiles[KeyOf(l)]);
      }
      if !Sensible(l, cfg) {
        return None;
      }
      var t := FindL1(l);
      if t.None? {
        return None;
      }
      var u := FindL2(l, t.value);
      if u.None? {
        return None;
      }
      r := Some(Tiles(t.value, u.value));
      tableTiles := tableTiles[KeyOf(l) := r.value];
    }

    /** The traffic of a layer; only matrix layers consult the table. */
    method GetTraffic(kind: Kind, l: Layer) returns (r: Option<Levels>)
      modifies this`tableTiles
      ensures (tableTiles, r) == TrafficStep(cfg, old(tableTiles), kind, l)
    {
      hide TrafficForTile, SizeOf, Call;
      if kind != Matrix {
        var data := LayerSize(kind, l);
        return Some(Levels(data, data, data, data));
      }
      var tiles := GetOptimalTile(l);
      if tiles.None? {
        return None;
      }
      var reg := l.m * l.n * l.k;
      r := Some(Levels(TrafficForTile(l, tiles.value.l2), TrafficForTile(l, tiles.value.l1),
                       TrafficForTile(l, Tile(16, 16)), Traffic(reg, reg, reg)));
    }
  }

  // ---- the memo table --------------------------------------------------------------------

  /** One call: the table afterwards and the answer. */
  function Call(cfg: Config, table: map<Key, Tiles>, l: Layer): (map<Key, Tiles>, Option<Tiles>) {
    if KeyOf(l) in table then (table, Some(table[KeyOf(l)]))
    else
      match Optimal(l, cfg)
      case None => (table, None)
      case Some(t) => (table[KeyOf(l) := t], Some(t))
  }

  /** The table after a sequence of calls. */
  function TableAfter(cfg: Config, layers: seq<Layer>): map<Key, Tiles> {
    if layers == [] then map[]
    else Call(cfg, TableAfter(cfg, layers[..|layers| - 1]), layers[|layers| - 1]).0
  }

  /** The answer to the next call. */
  function Answer(cfg: Config, layers: seq<Layer>, l: Layer): Option<Tiles> {
    Call(cfg, TableAfter(cfg, layers), l).1
  }

  /** Every entry was computed for some earlier layer with that key. */
  lemma {:induction false} TableComputed(cfg: Config, layers: seq<Layer>, key: Key)
    ensures key in TableAfter(cfg, layers) ==>
              exists i :: 0 <= i < |layers| && KeyOf(layers[i]) == key && Optimal(layers[i], cfg) == Some(TableAfter(cfg, layers)[key])
    ensures forall i :: 0 <= i < |layers| && KeyOf(layers[i]) == key && Optimal(layers[i], cfg).Some? ==> key in TableAfter(cfg, layers)
  {
    hide Optimal;
    if layers == [] {
    } else {
      var n := |layers| - 1;
      TableComputed(cfg, layers[..n], key);
      if key in TableAfter(cfg, layers[..n]) {
        var i :| 0 <= i < n && KeyOf(layers[..n][i]) == key && Optimal(layers[..n][i], cfg) == Some(TableAfter(cfg, layers[..n])[key]);
        assert layers[i] == layers[..n][i];
      }
    }
  }

  /** Whether the search finds tiles does not depend on the kind of layer. */
  lemma AnswersAlike(l: Layer, l': Layer, cfg: Config)
    requires KeyOf(l) == KeyOf(l')
    ensures Optimal(l, cfg).Some? == Optimal(l', cfg).Some?
  {
    hide Optimal;
    OptimalIsGood(l, cfg);
    OptimalIsGood(l', cfg);
  }

  /** The first layer that was asked for under a key. */
  function FirstUnder(layers: seq<Layer>, key: Key): Option<Layer> {
    if layers == [] then None
    else
      var first, last := FirstUnder(layers[..|layers| - 1], key), layers[|layers| - 1];
      if first.Some? then first else if KeyOf(last) == key then Some(last) else None
  }

  lemma {:induction false} FirstUnderMember(layers: seq<Layer>, key: Key)
    ensures FirstUnder(layers, key).Some? ==> FirstUnder(layers, key).value in layers && KeyOf(FirstUnder(layers, key).value) == key
    ensures FirstUnder(layers, key).None? ==> forall i :: 0 <= i < |layers| ==> KeyOf(layers[i]) != key
  {
    if layers == [] {
    } else {
      FirstUnderMember(layers[..|layers| - 1], key);
    }
  }

  /** The table holds what was found for the first layer under each key. */
  lemma {:induction false} TableOfFirst(cfg: Config, layers: seq<Layer>, key: Key)
    ensures var table, first := TableAfter(cfg, layers), FirstUnder(layers, key);
            (if key in table then Some(table[key]) else None) == (if first.Some? then Optimal(first.value, cfg) else None)
  {
    hide Optimal;
    if layers == [] {
    } else {
      var n := |layers| - 1;
      TableOfFirst(cfg, layers[..n], key);
      FirstUnderMember(layers[..n], key);
      var first := FirstUnder(layers[..n], key);
      if first.Some? && KeyOf(layers[n]) == key {
        AnswersAlike(first.value, layers[n], cfg);
      }
    }
  }

  /** Whether a layer gets the same tiles as a fully connected layer and as a matrix product. */
  predicate KindMatters(l: Layer, cfg: Config) {
    Optimal(l.(fc := true), cfg) != Optimal(l.(fc := false), cfg)
  }

  /**
   * The first call under a key decides all answers under it: an answer is right exactly when
   * there was no such call, when it was for the same kind of layer, or when the kind does not matter.
   */
  lemma FirstCallDecides(cfg: Config, layers: seq<Layer>, l: Layer)
    ensures var first := FirstUnder(layers, KeyOf(l));
            && Answer(cfg, layers, l) == Optimal(if first.Some? then first.value else l, cfg)
            && (Answer(cfg, layers, l) == Optimal(l, cfg) <==>
                first.None? || first.value.fc == l.fc || !KindMatters(l, cfg))
  {
    hide Optimal;
    var first := FirstUnder(layers, KeyOf(l));
    TableOfFirst(cfg, layers, KeyOf(l));
    FirstUnderMember(layers, KeyOf(l));
    if first.Some? {
      AnswersAlike(first.value, l, cfg);
      assert first.value == l.(fc := first.value.fc);
    }
  }

  /** While equal keys come with equal kinds, the memo is invisible. */
  lemma MemoIsExact(cfg: Config, layers: seq<Layer>, l: Layer)
    requires forall i :: 0 <= i < |layers| && KeyOf(layers[i]) == KeyOf(l) ==> layers[i].fc == l.fc
    ensures Answer(cfg, layers, l) == Optimal(l, cfg)
  {
    hide Optimal, Answer;
    FirstCallDecides(cfg, layers, l);
    FirstUnderMember(layers, KeyOf(l));
  }

  /** In any order of calls, fully connected or not, the traffic of an answer is ordered. */
  lemma EveryAnswerOrdered(cfg: Config, layers: seq<Layer>, l: Layer)
    ensures Answer(cfg, layers, l).Some? <==> Optimal(l, cfg).Some?
    ensures Answer(cfg, layers, l).Some? ==> Ordered(l, Answer(cfg, layers, l).value)
  {
    hide Optimal, TrafficForTile, SizeOf;
    TableComputed(cfg, layers, KeyOf(l));
    if KeyOf(l) in TableAfter(cfg, layers) {
      var i :| 0 <= i < |layers| && KeyOf(layers[i]) == KeyOf(l) && Optimal(layers[i], cfg) == Some(TableAfter(cfg, layers)[KeyOf(l)]);
      AnswersAlike(layers[i], l, cfg);
      OffChipAtMostL2(layers[i], cfg);
      SameTraffic(layers[i], l);
    } else if Optimal(l, cfg).Some? {
      OffChipAtMostL2(l, cfg);
    }
  }

  lemma SameTraffic(l: Layer, l': Layer)
    requires KeyOf(l) == KeyOf(l')
    ensures SizeOf(l) == SizeOf(l') && forall t :: TrafficForTile(l, t) == TrafficForTile(l', t)
  {
  }

  /**
   * After any calls, the traffic of any layer: none of off-chip, level-two and level-one
   * traffic is below the layer's own size, and off-chip traffic is at most level-two traffic.
   */
  lemma EveryTrafficOrdered(cfg: Config, layers: seq<Layer>, kind: Kind, l: Layer)
    ensures var r := TrafficStep(cfg, TableAfter(cfg, layers), kind, l).1;
            && (r.Some? <==> kind != Matrix || Optimal(l, cfg).Some?)
            && (r.Some? ==> LayerSize(kind, l).Sum() <= r.value.off.Sum() <= r.value.l2.Sum() &&
                            LayerSize(kind, l).Sum() <= r.value.l1.Sum())
  {
    hide Optimal, TrafficForTile, SizeOf, TableAfter;
    EveryAnswerOrdered(cfg, layers, l);
    if kind == Matrix && Optimal(l, cfg).Some? {
      OptimalIsSensible(l, cfg);
      TrafficAtLeastSize(l, Tile(16, 16));
    }
  }

  /** From level one, a matrix layer moves in tiles of 16 x 16; from registers, every operand once per multiplication. */
  lemma InnerTraffic(cfg: Config, table: map<Key, Tiles>, l: Layer, across: nat, down: nat)
    requires JustCovers(across, 16, l.n) && JustCovers(down, 16, l.m)
    ensures var r, size := TrafficStep(cfg, table, Matrix, l).1, SizeOf(l);
            r.Some? ==>
              && r.value.l1 == Traffic(across * size.in1, down * size.in2, size.out)
              && r.value.reg == Traffic(l.m * l.n * l.k, l.m * l.n * l.k, l.m * l.n * l.k)
  {
    hide Optimal, TrafficForTile, SizeOf;
    TrafficInPasses(l, Tile(16, 16), across, down);
  }

  /** Against the output of a matrix layer: an elementwise layer moves twice as much, a gated one and a norm three times. */
  lemma OtherKindsMoveOutputs(l: Layer)
    ensures LayerSize(Elementwise, l).Sum() == 2 * SizeOf(l).out
    ensures LayerSize(Gated, l).Sum() == LayerSize(Norm, l).Sum() == 3 * SizeOf(l).out
    ensures forall kind :: kind != Matrix ==> LayerSize(kind, l).out == SizeOf(l).out
  {
  }

  lemma OptimalIsSensible(l: Layer, cfg: Config)
    requires Optimal(l, cfg).Some?
    ensures Sensible(l, cfg)
  {
  }

  // ---- the memo can be wrong -------------------------------------------------------------

  const TWO_CORES: Config := Config(2, 100000.0, 100000.0)
  const AS_FC: Layer := Layer(true, 16, 8, 1, 1, 2)
  const AS_MATMUL: Layer := Layer(false, 16, 8, 1, 1, 2)

  /** The two candidate sizes of this example. */
  lemma EightOrSixteen(s: Pos)
    ensures s in L1Sizes(16) ==> s == 8 || s == 16
    ensures s in L1Sizes(8) ==> s == 8
    ensures L1Sizes(16)[0] == 8 && L1Sizes(16)[1] == 16 && L1Sizes(8)[0] == 8
  {
  }

  lemma ExampleCosts()
    ensures L1Cost(AS_FC, TWO_CORES, Tile(8, 8)) < L1Cost(AS_FC, TWO_CORES, Tile(16, 8))
    ensures L1Cost(AS_MATMUL, TWO_CORES, Tile(16, 8)) < L1Cost(AS_MATMUL, TWO_CORES, Tile(8, 8))
    ensures Fits(L1(AS_FC, TWO_CORES), Tile(8, 8)) && Fits(L1(AS_FC, TWO_CORES), Tile(16, 8))
    ensures Fits(L1(AS_MATMUL, TWO_CORES), Tile(8, 8)) && Fits(L1(AS_MATMUL, TWO_CORES), Tile(16, 8))
  {
  }

  lemma ExampleTile(l: Layer, tm: Pos, other: Pos)
    requires l == AS_FC || l == AS_MATMUL
    requires (tm == 8 && other == 16) || (tm == 16 && other == 8)
    requires Fits(L1(l, TWO_CORES), Tile(8, 8)) && Fits(L1(l, TWO_CORES), Tile(tm, 8))
    requires L1Cost(l, TWO_CORES, Tile(tm, 8)) < L1Cost(l, TWO_CORES, Tile(other, 8))
    ensures Optimal(l, TWO_CORES).Some? && Optimal(l, TWO_CORES).value.l1 == Tile(tm, 8)
  {
    hide L1Cost, Fits, Search, L1Sizes, L2Sizes;
    OptimalIsGood(l, TWO_CORES);
    var goal := L1(l, TWO_CORES);
    SearchBest(goal, L1Sizes(16), L1Sizes(8));
    var best := Search(goal, L1Sizes(16), L1Sizes(8)).value;
    EightOrSixteen(best.tm);
    EightOrSixteen(best.tn);
    var i := if tm == 8 then 0 else 1;
    assert Beats(goal, Some(best), Tile(L1Sizes(16)[i], L1Sizes(8)[0]));
  }

  /** A matrix product that follows a fully connected layer of the same size gets that layer's tile. */
  lemma MemoForgetsKind()
    ensures KeyOf(AS_FC) == KeyOf(AS_MATMUL)
    ensures Answer(TWO_CORES, [AS_FC], AS_MATMUL) == Optimal(AS_FC, TWO_CORES)
    ensures Answer(TWO_CORES, [AS_FC], AS_MATMUL) != Optimal(AS_MATMUL, TWO_CORES)
  {
    ExampleCosts();
    hide L1Cost, Fits, Optimal;
    ExampleTile(AS_FC, 8, 16);
    ExampleTile(AS_MATMUL, 16, 8);
    assert [AS_FC][..0] == [];
    assert TableAfter(TWO_CORES, []) == map[];
  }
}
