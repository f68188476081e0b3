/** Where the generators' addresses lie: decoding, and the key and value spans of the heads. */
module MemoryLayout {
  import opened Arith
  import opened PimTypes
  import opened AddrMapper
  import opened TraceLayout

  /** Sixteen channels of HBM3_8Gb_2R: 4 + 1 + 1 + 2 + 2 + 14 + 5 bits, in units of 32 bytes. */
  const HBM_BITS: Bits := [4, 1, 1, 2, 2, 14, 5]
  const HBM_TX: nat := 5

  lemma Powers()
    ensures Pow2(1) == 2 && Pow2(2) == 4 && Pow2(4) == 16 && Pow2(5) == 32 && Pow2(14) == 16384
  {
    assert Pow2(3) == 8 && Pow2(6) == 64 && Pow2(7) == 128 && Pow2(8) == 256 && Pow2(9) == 512;
    assert Pow2(10) == 1024 && Pow2(11) == 2048 && Pow2(12) == 4096 && Pow2(13) == 8192;
  }

  lemma ComposeStep(order: Order, k: nat, v: AddrVec)
    requires k < |order|
    ensures Compose(HBM_BITS, order[k..], v) ==
            v[order[k]] + Pow2(HBM_BITS[order[k]]) * Compose(HBM_BITS, order[k + 1..], v)
  {
    assert order[k..][1..] == order[k + 1..];
  }

  lemma ComposeAll(v: AddrVec)
    ensures Compose(HBM_BITS, HBM3_PIM_ORDER, v) ==
            v[6] + 32 * v[5] + 524288 * v[4] + 2097152 * v[3] + 8388608 * v[2] + 16777216 * v[1] + 33554432 * v[0]
  {
    hide Pow2, Compose;
    Powers();
    var o: Order := HBM3_PIM_ORDER;
    ComposeStep(o, 0, v);
    ComposeStep(o, 1, v);
    ComposeStep(o, 2, v);
    ComposeStep(o, 3, v);
    ComposeStep(o, 4, v);
    ComposeStep(o, 5, v);
    ComposeStep(o, 6, v);
    assert o[0..] == o;
    ComposeNone(o[7..], v);
  }

  lemma ComposeNone(order: Order, v: AddrVec)
    requires order == []
    ensures Compose(HBM_BITS, order, v) == 0
  {
  }

  /**
   * An address built from the strides and an offset inside a bank decodes to the channel,
   * rank, bank group and bank it was built from, pseudochannel 0, and the row and column
   * of the offset.
   */
  lemma StridesDecode(lch: nat, rank: nat, bg: nat, ba: nat, offset: nat)
    requires lch < N_CHANNEL && rank < 2 && bg < 4 && ba < 4 && offset < GS_BA
    ensures MapAddr(HBM_BITS, HBM_TX, HBM3_PIM_ORDER,
                    lch * GS_CH + rank * GS_RANK + bg * GS_BG + ba * GS_BA + offset) ==
            [lch, 0, rank, bg, ba, offset / GS_ROW, offset % GS_ROW / GS_COL]
  {
    hide MapAddr;
    var q, r := offset % GS_ROW / GS_COL, offset / GS_ROW;
    OffsetParts(offset, q, r);
    StridesFields(lch, rank, bg, ba, r, q, offset);
  }

  lemma StridesFields(lch: nat, rank: nat, bg: nat, ba: nat, r: nat, q: nat, offset: nat)
    requires lch < N_CHANNEL && rank < 2 && bg < 4 && ba < 4 && r < 16384 && q < 32
    requires 32 * q + 1024 * r <= offset < 32 * q + 1024 * r + 32
    ensures MapAddr(HBM_BITS, HBM_TX, HBM3_PIM_ORDER,
                    lch * GS_CH + rank * GS_RANK + bg * GS_BG + ba * GS_BA + offset) == [lch, 0, rank, bg, ba, r, q]
  {
    hide MapAddr;
    FieldsDecode([lch, 0, rank, bg, ba, r, q], offset - 32 * q - 1024 * r);
  }

  /** Every coordinate vector of the memory is decoded from its address, and from any byte of that column. */
  lemma FieldsDecode(v: AddrVec, byte: int)
    requires 0 <= v[0] < 16 && 0 <= v[1] < 2 && 0 <= v[2] < 2 && 0 <= v[3] < 4 && 0 <= v[4] < 4
    requires 0 <= v[5] < 16384 && 0 <= v[6] < 32 && 0 <= byte < 32
    ensures MapAddr(HBM_BITS, HBM_TX, HBM3_PIM_ORDER,
                    byte + 32 * v[6] + 1024 * v[5] + 16777216 * v[4] + 67108864 * v[3] + 268435456 * v[2] +
                    536870912 * v[1] + 1073741824 * v[0]) == v
  {
    hide Pow2, Compose, Slice, InRange, MapAddr;
    FieldsInRange(v);
    MapperOrders();
    MapUnmap(HBM_BITS, HBM_TX, HBM3_PIM_ORDER, v);
    UnmapFields(v);
    SameUnit(byte + UnmapAddr(HBM_BITS, HBM_TX, HBM3_PIM_ORDER, v), UnmapAddr(HBM_BITS, HBM_TX, HBM3_PIM_ORDER, v),
             v[6] + 32 * v[5] + 524288 * v[4] + 2097152 * v[3] + 8388608 * v[2] + 16777216 * v[1] + 33554432 * v[0]);
  }

  lemma FieldsInRange(v: AddrVec)
    requires 0 <= v[0] < 16 && 0 <= v[1] < 2 && 0 <= v[2] < 2 && 0 <= v[3] < 4 && 0 <= v[4] < 4
    requires 0 <= v[5] < 16384 && 0 <= v[6] < 32
    ensures InRange(HBM_BITS, HBM3_PIM_ORDER, v)
  {
    hide Pow2;
    Powers();
  }

  lemma UnmapFields(v: AddrVec)
    ensures UnmapAddr(HBM_BITS, HBM_TX, HBM3_PIM_ORDER, v) ==
            32 * v[6] + 1024 * v[5] + 16777216 * v[4] + 67108864 * v[3] + 268435456 * v[2] + 536870912 * v[1] + 1073741824 * v[0]
  {
    hide Pow2, Compose;
    Powers();
    ComposeAll(v);
  }

  /** The mapper ignores the position inside a column. */
  lemma SameUnit(a: int, b: int, u: int)
    requires b == 32 * u && b <= a < b + 32
    ensures MapAddr(HBM_BITS, HBM_TX, HBM3_PIM_ORDER, a) == MapAddr(HBM_BITS, HBM_TX, HBM3_PIM_ORDER, b)
  {
    hide Slice, Pow2;
    Powers();
  }

  lemma OffsetParts(offset: nat, q: nat, r: nat)
    requires q == offset % 1024 / 32 && r == offset / 1024
    ensures 32 * q + 1024 * r <= offset < 32 * q + 1024 * r + 32
    ensures 0 <= q < 32 && (offset < GS_BA ==> 0 <= r < 16384)
  {
  }

  /** What a part of a broadcast or a move decodes to, with `offset` bytes into a bank of channel `lch`. */
  ghost predicate Reaches(part: nat, offset: nat, lch: nat, rank: nat, bg: nat, ba: nat)
    requires offset < GS_BA && lch < N_CHANNEL
  {
    MapAddr(HBM_BITS, HBM_TX, HBM3_PIM_ORDER, part + offset + lch * GS_CH) ==
    [lch, 0, rank, bg, ba, offset / GS_ROW, offset % GS_ROW / GS_COL]
  }

  lemma PartReaches(part: nat, offset: nat, lch: nat, rank: nat, bg: nat, ba: nat)
    requires offset < GS_BA && lch < N_CHANNEL && rank < 2 && bg < 4 && ba < 4
    requires part == rank * GS_RANK + bg * GS_BG + ba * GS_BA
    ensures Reaches(part, offset, lch, rank, bg, ba)
  {
    hide MapAddr;
    StridesDecode(lch, rank, bg, ba, offset);
  }

  /**
   * Score inputs go to each bank, or to none in particular; score outputs come from each bank
   * group of each rank, context inputs go to each bank group of each rank, and context outputs
   * come from each bank of each rank. Where there is no such unit, one command does for all.
   */
  lemma PartsReach(mode: Mode, offset: nat, lch: nat, k: nat)
    requires offset < GS_BA && lch < N_CHANNEL
    ensures |ScoreInParts(mode)| == if mode == Bank then 4 else 1
    ensures |ScoreOutParts(mode)| == |ContextInParts(mode)| == if mode == Buffer then 1 else 8
    ensures |ContextOutParts(mode)| == match mode case Bank => 8 case BankGroup => 2 case Buffer => 1
    ensures k < |ScoreInParts(mode)| ==> Reaches(ScoreInParts(mode)[k], offset, lch, 0, 0, k)
    ensures k < |ScoreOutParts(mode)| ==> Reaches(ScoreOutParts(mode)[k], offset, lch, k % 2, k / 2, 0)
    ensures k < |ContextInParts(mode)| ==> Reaches(ContextInParts(mode)[k], offset, lch, k / 4, k % 4, 0)
    ensures k < |ContextOutParts(mode)| ==> Reaches(ContextOutParts(mode)[k], offset, lch, k % 2, 0, k / 2)
  {
    hide Reaches, ScoreInParts, ScoreOutParts, ContextInParts, ContextOutParts;
    PartSizes(mode);
    if k < |ScoreInParts(mode)| {
      ScorePart(mode, k);
      PartReaches(ScoreInParts(mode)[k], offset, lch, 0, 0, k);
    }
    if k < |ScoreOutParts(mode)| {
      OutPart(mode, k);
      RankPart(ScoreOutParts(mode)[k], offset, lch, k / 2, k % 2, GS_BG);
    }
    if k < |ContextInParts(mode)| {
      InPart(mode, k);
      RankPart(ContextInParts(mode)[k], offset, lch, k % 4, k / 4, GS_BG);
    }
    if k < |ContextOutParts(mode)| {
      ContextPart(mode, k);
      RankPart(ContextOutParts(mode)[k], offset, lch, k / 2, k % 2, GS_BA);
    }
  }

  lemma PartSizes(mode: Mode)
    ensures |ScoreInParts(mode)| == if mode == Bank then 4 else 1
    ensures |ScoreOutParts(mode)| == |ContextInParts(mode)| == if mode == Buffer then 1 else 8
    ensures |ContextOutParts(mode)| == match mode case Bank => 8 case BankGroup => 2 case Buffer => 1
  {
  }

  lemma ScorePart(mode: Mode, k: nat)
    requires k < |ScoreInParts(mode)|
    ensures k < 4 && ScoreInParts(mode)[k] == k * GS_BA
  {
  }

  lemma OutPart(mode: Mode, k: nat)
    requires k < |ScoreOutParts(mode)|
    ensures k < 8 && ScoreOutParts(mode)[k] == (k % 2) * GS_RANK + (k / 2) * GS_BG
  {
  }

  lemma InPart(mode: Mode, k: nat)
    requires k < |ContextInParts(mode)|
    ensures k < 8 && ContextInParts(mode)[k] == (k / 4) * GS_RANK + (k % 4) * GS_BG
  {
  }

  lemma ContextPart(mode: Mode, k: nat)
    requires k < |ContextOutParts(mode)|
    ensures k < 8 && ContextOutParts(mode)[k] == (k % 2) * GS_RANK + (k / 2) * GS_BA
  {
  }

  /** A part that consists of a rank and of a bank group or bank. */
  lemma RankPart(part: nat, offset: nat, lch: nat, x: nat, rank: nat, stride: nat)
    requires offset < GS_BA && lch < N_CHANNEL && rank < 2 && x < 4 && (stride == GS_BG || stride == GS_BA)
    requires part == rank * GS_RANK + if stride == GS_BG then x * GS_BG else x * GS_BA
    ensures stride == GS_BG ==> Reaches(part, offset, lch, rank, x, 0)
    ensures stride == GS_BA ==> Reaches(part, offset, lch, rank, 0, x)
  {
    hide Reaches;
    if stride == GS_BG {
      PartReaches(part, offset, lch, rank, x, 0);
    } else {
      PartReaches(part, offset, lch, rank, 0, x);
    }
  }

  // ---- the linear MAC index --------------------------------------------------------------

  /** How many banks of a channel one linear index runs over. */
  function Banks(mode: Mode): nat {
    match mode case Bank => 1 case BankGroup => 4 case Buffer => 32
  }

  /**
   * How many banks of a channel one MAC command works on: all of them, the same one in every bank
   * group of every rank and pseudochannel, or one that both pseudochannels are told of.
   */
  function BanksPerMac(kind: ReqType): nat {
    match kind case PimMacAb => 64 case PimMacSb => 16 case PimMacPb => 2 case _ => 0
  }

  /** Each placement has the kind of MAC with which one per index bank makes every bank of the channel work. */
  lemma SweepUsesEveryBank(mode: Mode)
    ensures BanksPerMac(MacKind(mode)) * Banks(mode) == GS_CH / GS_BA
  {
  }

  /** Which of those banks index `idx` lies in. */
  function BankNo(mode: Mode, idx: nat): nat {
    match mode case Bank => 0 case BankGroup => idx / 32 % 4 case Buffer => idx % 32
  }

  /** The column of that bank, counted through all rows. */
  function Unit(mode: Mode, idx: nat): nat {
    match mode case Bank => idx case BankGroup => idx / 128 * 32 + idx % 32 case Buffer => idx / 32
  }

  function Linear(mode: Mode, bank: nat, unit: nat): nat {
    match mode case Bank => unit case BankGroup => unit / 32 * 128 + bank * 32 + unit % 32 case Buffer => unit * 32 + bank
  }

  /** Bank group (beyond 3: of rank 1) and bank of a bank number. */
  function GroupOf(mode: Mode, bank: nat): nat {
    if mode == Buffer then bank % 8 else 0
  }

  function BaOf(mode: Mode, bank: nat): nat {
    match mode case Bank => 0 case BankGroup => bank case Buffer => bank / 8
  }

  /** The split of the index is a bijection: here and back. */
  lemma SplitJoins(mode: Mode, idx: nat)
    ensures BankNo(mode, idx) < Banks(mode) && Linear(mode, BankNo(mode, idx), Unit(mode, idx)) == idx
  {
    if mode == BankGroup {
      var q, r := idx / 128, idx % 32;
      assert (q * 32 + r) / 32 == q && (q * 32 + r) % 32 == r;
      assert idx / 32 / 4 == q;
    }
  }

  /** There and back. */
  lemma JoinSplits(mode: Mode, bank: nat, unit: nat)
    requires bank < Banks(mode)
    ensures BankNo(mode, Linear(mode, bank, unit)) == bank && Unit(mode, Linear(mode, bank, unit)) == unit
  {
    if mode == BankGroup {
      var q, r := unit / 32, unit % 32;
      var x := q * 128 + bank * 32 + r;
      DivUnique(x, 32, q * 4 + bank);
      DivUnique(x, 128, q);
    }
  }

  /** The generators' address of an index is its bank's stride and its column's offset. */
  lemma OffsetOfSplit(mode: Mode, idx: nat)
    ensures var b := BankNo(mode, idx);
            MacOffset(mode, idx) == GroupOf(mode, b) * GS_BG + BaOf(mode, b) * GS_BA + Unit(mode, idx) * GS_COL
  {
    if mode == Buffer {
      var u := idx / 32;
      assert idx / 8 / 4 == u && idx / 8 % 4 == idx % 32 / 8 && idx % 32 % 8 == idx % 8;
      assert (u / 32) * GS_ROW + (u % 32) * GS_COL == u * GS_COL;
    } else if mode == BankGroup {
      var c := idx / 32;
      assert c / 4 == idx / 128;
      assert (c / 4) * GS_ROW + (idx % 32) * GS_COL == (idx / 128 * 32 + idx % 32) * GS_COL;
    }
  }

  /** A MAC's address decodes to the channel, bank and column its index stands for. */
  lemma MacDecodes(mode: Mode, base: nat, idx: nat, lch: nat)
    requires lch < N_CHANNEL && base + Unit(mode, idx) * GS_COL < GS_BA
    ensures var b, offset := BankNo(mode, idx), base + Unit(mode, idx) * GS_COL;
            MapAddr(HBM_BITS, HBM_TX, HBM3_PIM_ORDER, base + MacOffset(mode, idx) + lch * GS_CH) ==
            [lch, 0, GroupOf(mode, b) / 4, GroupOf(mode, b) % 4, BaOf(mode, b), offset / GS_ROW, offset % GS_ROW / GS_COL]
  {
    hide MapAddr, MacOffset, BankNo, Unit, GroupOf, BaOf, Linear;
    SplitJoins(mode, idx);
    OffsetOfSplit(mode, idx);
    var b := BankNo(mode, idx);
    JoinFields(mode, b);
    GroupStride(GroupOf(mode, b));
    var g, offset := GroupOf(mode, b), base + Unit(mode, idx) * GS_COL;
    StridesDecode(lch, g / 4, g % 4, BaOf(mode, b), offset);
  }

  lemma GroupStride(g: nat)
    ensures g * GS_BG == (g / 4) * GS_RANK + (g % 4) * GS_BG
  {
  }

  /** Different indices within the banks have different addresses. */
  lemma MacOffsetInjective(mode: Mode, i: nat, j: nat)
    requires Unit(mode, i) * GS_COL < GS_BA && Unit(mode, j) * GS_COL < GS_BA
    requires MacOffset(mode, i) == MacOffset(mode, j)
    ensures i == j
  {
    SplitJoins(mode, i);
    SplitJoins(mode, j);
    OffsetOfSplit(mode, i);
    OffsetOfSplit(mode, j);
    hide *;
    SameFields(mode, BankNo(mode, i), BankNo(mode, j), Unit(mode, i), Unit(mode, j));
  }

  lemma SameFields(mode: Mode, b: nat, c: nat, u: nat, w: nat)
    requires b < Banks(mode) && c < Banks(mode) && u * GS_COL < GS_BA && w * GS_COL < GS_BA
    requires GroupOf(mode, b) * GS_BG + BaOf(mode, b) * GS_BA + u * GS_COL ==
             GroupOf(mode, c) * GS_BG + BaOf(mode, c) * GS_BA + w * GS_COL
    ensures b == c && u == w
  {
    var g, h := GroupOf(mode, b), GroupOf(mode, c);
    FieldsDiffer(g, BaOf(mode, b), u, h, BaOf(mode, c), w);
    JoinFields(mode, b);
    JoinFields(mode, c);
    hide GroupOf, BaOf;
  }

  lemma FieldsDiffer(g: nat, a: nat, u: nat, h: nat, c: nat, w: nat)
    requires a < 4 && c < 4 && u * GS_COL < GS_BA && w * GS_COL < GS_BA
    requires g * GS_BG + a * GS_BA + u * GS_COL == h * GS_BG + c * GS_BA + w * GS_COL
    ensures g == h && a == c && u == w
  {
    var x, y := g * 4 + a, h * 4 + c;
    assert x * GS_BA + u * GS_COL == y * GS_BA + w * GS_COL;
    assert x == y;
  }

  lemma JoinFields(mode: Mode, b: nat)
    requires b < Banks(mode)
    ensures BaOf(mode, b) < 4 && GroupOf(mode, b) < 8
    ensures b == match mode case Bank => 0 case BankGroup => BaOf(mode, b) case Buffer => GroupOf(mode, b) + 8 * BaOf(mode, b)
  {
  }

  /** Among eight consecutive indices of the buffer placement, all ranks and bank groups differ. */
  lemma EightGroups(i: nat, j: nat, lch: nat, base: nat)
    requires i < j < i + 8 && lch < N_CHANNEL
    requires base + Unit(Buffer, i) * GS_COL < GS_BA && base + Unit(Buffer, j) * GS_COL < GS_BA
    ensures var v := MapAddr(HBM_BITS, HBM_TX, HBM3_PIM_ORDER, base + MacOffset(Buffer, i) + lch * GS_CH);
            var w := MapAddr(HBM_BITS, HBM_TX, HBM3_PIM_ORDER, base + MacOffset(Buffer, j) + lch * GS_CH);
            v[2..4] != w[2..4]
  {
    hide MapAddr, MacOffset, Unit;
    MacDecodes(Buffer, base, i, lch);
    MacDecodes(Buffer, base, j, lch);
    var v := MapAddr(HBM_BITS, HBM_TX, HBM3_PIM_ORDER, base + MacOffset(Buffer, i) + lch * GS_CH);
    var w := MapAddr(HBM_BITS, HBM_TX, HBM3_PIM_ORDER, base + MacOffset(Buffer, j) + lch * GS_CH);
    ThirtyTwoByEight(i);
    ThirtyTwoByEight(j);
    DifferentGroups(i, j);
    assert v[2..4][0] == v[2] && v[2..4][1] == v[3] && w[2..4][0] == w[2] && w[2..4][1] == w[3];
  }

  lemma ThirtyTwoByEight(i: nat)
    ensures i % 32 % 8 == i % 8
  {
  }

  lemma DifferentGroups(i: nat, j: nat)
    requires i < j < i + 8
    ensures i % 8 / 4 != j % 8 / 4 || i % 8 % 4 != j % 8 % 4
  {
  }

  lemma UnitGrows(mode: Mode, i: nat, j: nat)
    requires i <= j && BankNo(mode, i) == BankNo(mode, j)
    ensures Unit(mode, i) <= Unit(mode, j)
  {
    if mode == BankGroup {
      GroupUnits(i);
      GroupUnits(j);
      InOrder(i / 128, i % 32, j / 128, j % 32, i / 32 % 4);
      hide *;
    }
  }

  lemma GroupUnits(i: nat)
    ensures i == i / 128 * 128 + i / 32 % 4 * 32 + i % 32 && i % 32 < 32
  {
    var q, r := i / 32, i % 32;
    assert i == q * 32 + r;
    DivUnique(i, 128, q / 4);
  }

  lemma InOrder(q: nat, r: nat, s: nat, t: nat, b: nat)
    requires r < 32 && t < 32 && q * 128 + b * 32 + r <= s * 128 + b * 32 + t
    ensures q * 32 + r <= s * 32 + t
  {
  }

  /** As the index grows, no bank returns to an earlier row. */
  lemma RowsNeverReturn(mode: Mode, base: nat, i: nat, j: nat, lch: nat)
    requires i <= j && lch < N_CHANNEL
    requires base + Unit(mode, i) * GS_COL < GS_BA && base + Unit(mode, j) * GS_COL < GS_BA
    ensures var v := MapAddr(HBM_BITS, HBM_TX, HBM3_PIM_ORDER, base + MacOffset(mode, i) + lch * GS_CH);
            var w := MapAddr(HBM_BITS, HBM_TX, HBM3_PIM_ORDER, base + MacOffset(mode, j) + lch * GS_CH);
            BankOf(v) == BankOf(w) ==> v[ROW_LEVEL] <= w[ROW_LEVEL]
  {
    hide MapAddr, MacOffset, BankNo, Unit, GroupOf, BaOf, Linear;
    MacDecodes(mode, base, i, lch);
    MacDecodes(mode, base, j, lch);
    SplitJoins(mode, i);
    SplitJoins(mode, j);
    var v := MapAddr(HBM_BITS, HBM_TX, HBM3_PIM_ORDER, base + MacOffset(mode, i) + lch * GS_CH);
    var w := MapAddr(HBM_BITS, HBM_TX, HBM3_PIM_ORDER, base + MacOffset(mode, j) + lch * GS_CH);
    if BankOf(v) == BankOf(w) {
      assert v[2] == BankOf(v)[2] == BankOf(w)[2] == w[2];
      assert v[3] == BankOf(v)[3] == BankOf(w)[3] == w[3];
      assert v[4] == BankOf(v)[4] == BankOf(w)[4] == w[4];
      SameBank(mode, BankNo(mode, i), BankNo(mode, j));
      UnitGrows(mode, i, j);
      DivMonotone(base + Unit(mode, i) * GS_COL, base + Unit(mode, j) * GS_COL);
    }
  }

  lemma SameBank(mode: Mode, b: nat, c: nat)
    requires b < Banks(mode) && c < Banks(mode)
    requires GroupOf(mode, b) / 4 == GroupOf(mode, c) / 4 && GroupOf(mode, b) % 4 == GroupOf(mode, c) % 4
    requires BaOf(mode, b) == BaOf(mode, c)
    ensures b == c
  {
  }

  lemma DivMonotone(a: nat, b: nat)
    requires a <= b
    ensures a / GS_ROW <= b / GS_ROW
  {
  }

  // ---- the memory of the heads -----------------------------------------------------------

  /** The linear index of column `k` in row `r`. */
  function Index(width: nat, r: nat, k: nat): nat {
    k + r * width
  }

  /** The command of column `k` and lane `l` in a row of MACs. */
  lemma {:induction false} MacRowAt(mode: Mode, itr: int, role: Role, base: nat, row: nat, width: nat, n: nat, valid: nat, k: nat, l: nat)
      returns (pos: nat)
    requires k < n && l < valid
    ensures var s := MacRow(mode, itr, role, base, row, width, n, valid);
            pos == k * valid + l && pos < |s| &&
            s[pos] == Cmd(MacKind(mode), base + MacOffset(mode, Index(width, row, k)) + l * GS_CH, itr, role)
  {
    hide Lanes, MacOffset;
    MacRowCount(mode, itr, role, base, row, width, n - 1, valid);
    if k == n - 1 {
      LanesAt(MacKind(mode), itr, role, base + MacOffset(mode, k + row * width), valid, l);
      pos := |MacRow(mode, itr, role, base, row, width, n - 1, valid)| + l;
    } else {
      pos := MacRowAt(mode, itr, role, base, row, width, n - 1, valid, k, l);
    }
  }

  /** How many columns of a channel the keys, and also the values, of one head take. */
  function Columns(p: Params): nat
    requires p.Valid()
  {
    p.Rows() * p.Cols()
  }

  lemma {:induction false} ScoreRowAt(p: Params, itr: nat, rows: nat, r: nat)
    requires p.Valid() && r < rows
    ensures ScoreMacs(p, itr, rows)[r] ==
            MacRow(p.mode, itr, ScoreMac(r), p.KeyAddr(itr), r, p.Cols(), p.Cols(), p.ValidChannels(itr))
  {
    hide MacRow, Params.Cols, Params.KeyAddr, Params.ValidChannels;
    if r >= rows - 1 {
    } else {
      ScoreRowAt(p, itr, rows - 1, r);
    }
  }

  /** Column `k` of score row `r` uses linear index k + r * Cols; these indices are the head's columns. */
  lemma ScoreMacAt(p: Params, itr: nat, r: nat, k: nat, l: nat) returns (pos: nat)
    requires p.Valid() && r < p.Rows() && k < p.Cols() && l < p.ValidChannels(itr)
    ensures Index(p.Cols(), r, k) < Columns(p)
    ensures var row := ScoreMacs(p, itr, p.Rows())[r];
            && |row| == p.Cols() * p.ValidChannels(itr) && pos == k * p.ValidChannels(itr) + l < |row|
            && row[pos] == Cmd(MacKind(p.mode), p.KeyAddr(itr) + MacOffset(p.mode, Index(p.Cols(), r, k)) + l * GS_CH, itr, ScoreMac(r))
  {
    hide MacRow, MacOffset, Params.Cols, Params.Rows, Params.KeyAddr, Params.ValidChannels;
    MulLess(k, p.Rows(), p.Cols(), r);
    ScoreRowAt(p, itr, p.Rows(), r);
    MacRowCount(p.mode, itr, ScoreMac(r), p.KeyAddr(itr), r, p.Cols(), p.Cols(), p.ValidChannels(itr));
    pos := MacRowAt(p.mode, itr, ScoreMac(r), p.KeyAddr(itr), r, p.Cols(), p.Cols(), p.ValidChannels(itr), k, l);
  }

  lemma {:induction false} ContextRowAt(p: Params, itr: nat, rows: nat, r: nat)
    requires p.Valid() && r < rows
    ensures ContextMacs(p, itr, rows)[r] ==
            MacRow(p.mode, itr, ContextMac(r), p.ValAddr(itr), r, p.Rows(), p.Rows(), p.ValidChannels(itr))
  {
    hide MacRow, Params.Rows, Params.ValAddr, Params.ValidChannels;
    if r == rows - 1 {
    } else {
      ContextRowAt(p, itr, rows - 1, r);
    }
  }

  /** Column `k` of context row `r` uses linear index k + r * Rows: as many columns as the keys, from the value address on. */
  lemma ContextMacAt(p: Params, itr: nat, r: nat, k: nat, l: nat) returns (pos: nat)
    requires p.Valid() && r < p.Cols() && k < p.Rows() && l < p.ValidChannels(itr)
    ensures Index(p.Rows(), r, k) < Columns(p)
    ensures var row := ContextMacs(p, itr, p.Cols())[r];
            && |row| == p.Rows() * p.ValidChannels(itr) && pos == k * p.ValidChannels(itr) + l < |row|
            && row[pos] == Cmd(MacKind(p.mode), p.ValAddr(itr) + MacOffset(p.mode, Index(p.Rows(), r, k)) + l * GS_CH, itr, ContextMac(r))
  {
    hide MacRow, MacOffset, Params.Cols, Params.Rows, Params.ValAddr, Params.ValidChannels;
    MulLess(k, p.Cols(), p.Rows(), r);
    ContextRowAt(p, itr, p.Cols(), r);
    MacRowCount(p.mode, itr, ContextMac(r), p.ValAddr(itr), r, p.Rows(), p.Rows(), p.ValidChannels(itr));
    pos := MacRowAt(p.mode, itr, ContextMac(r), p.ValAddr(itr), r, p.Rows(), p.Rows(), p.ValidChannels(itr), k, l);
  }

  /** Byte `a` of bank `bank` belongs to the columns of a head that starts at `base`. */
  ghost predicate Holds(p: Params, base: nat, bank: nat, a: nat)
    requires p.Valid()
  {
    exists idx: nat ::
      idx < Columns(p) && BankNo(p.mode, idx) == bank &&
      base + Unit(p.mode, idx) * GS_COL <= a < base + Unit(p.mode, idx) * GS_COL + GS_COL
  }

  /** How many of a head's columns lie in bank `bank`; the first bank has the most. */
  function Share(p: Params, bank: nat): nat
    requires p.Valid()
  {
    match p.mode
    case Bank => Columns(p)
    case BankGroup => Columns(p) / 128 * 32 + Max(0, Min(Columns(p) % 128 - 32 * bank, 32))
    case Buffer => Columns(p) / 32 + if bank < Columns(p) % 32 then 1 else 0
  }

  /** A head's bytes in a bank. */
  function BankBytes(p: Params, bank: nat): nat
    requires p.Valid()
  {
    Share(p, bank) * GS_COL
  }

  lemma UnitsOfBank(p: Params, bank: nat, unit: nat)
    requires p.Valid() && bank < Banks(p.mode)
    ensures Linear(p.mode, bank, unit) < Columns(p) <==> unit < Share(p, bank)
  {
    hide Columns;
  }

  lemma FirstBankHasMost(p: Params, bank: nat)
    requires p.Valid()
    ensures BankBytes(p, bank) <= BankBytes(p, 0)
  {
    hide Columns;
  }

  /** In every bank the columns of a head are one contiguous span. */
  lemma ContiguousSpan(p: Params, base: nat, bank: nat, a: nat)
    requires p.Valid() && bank < Banks(p.mode)
    ensures Holds(p, base, bank, a) <==> base <= a < base + BankBytes(p, bank)
  {
    hide Columns, Linear, BankNo, Unit, Banks, Share;
    if Holds(p, base, bank, a) {
      var idx: nat :| idx < Columns(p) && BankNo(p.mode, idx) == bank &&
        base + Unit(p.mode, idx) * GS_COL <= a < base + Unit(p.mode, idx) * GS_COL + GS_COL;
      SplitJoins(p.mode, idx);
      UnitsOfBank(p, bank, Unit(p.mode, idx));
    }
    if base <= a < base + BankBytes(p, bank) {
      var unit := (a - base) / GS_COL;
      JoinSplits(p.mode, bank, unit);
      UnitsOfBank(p, bank, unit);
      assert Unit(p.mode, Linear(p.mode, bank, unit)) == unit;
    }
  }

  /** Where an iteration's keys or values start. */
  function Start(p: Params, itr: nat, values: bool): nat {
    if values then p.ValAddr(itr) else p.KeyAddr(itr)
  }

  /** No byte belongs to the keys, or to the values, of two iterations. */
  ghost predicate Apart(p: Params, values: bool)
    requires p.Valid()
  {
    forall i: nat, j: nat, bank: nat, a: nat ::
      i < j < p.NumItr() && bank < Banks(p.mode) ==>
        !(Holds(p, Start(p, i, values), bank, a) && Holds(p, Start(p, j, values), bank, a))
  }

  /**
   * With two iterations or more, the keys of different iterations lie apart exactly when a
   * head's share of the first bank fits its partition, and so do the values.
   */
  lemma ApartIffFit(p: Params, values: bool)
    requires p.Valid()
    ensures Apart(p, values) <==> p.NumItr() < 2 || BankBytes(p, 0) <= p.PartitionSize()
  {
    hide Columns, Share, Holds, BankBytes, Params.PartitionSize, Params.NumItr;
    var size := p.PartitionSize();
    if BankBytes(p, 0) <= size {
      forall i: nat, j: nat, bank: nat, a: nat | i < j < p.NumItr() && bank < Banks(p.mode)
        ensures !(Holds(p, Start(p, i, values), bank, a) && Holds(p, Start(p, j, values), bank, a))
      {
        ContiguousSpan(p, Start(p, i, values), bank, a);
        ContiguousSpan(p, Start(p, j, values), bank, a);
        FirstBankHasMost(p, bank);
        PartitionsInOrder(i, j, size);
      }
    } else if p.NumItr() >= 2 {
      var a := Start(p, 1, values);
      FirstPartitions(p, values);
      ContiguousSpan(p, Start(p, 0, values), 0, a);
      ContiguousSpan(p, Start(p, 1, values), 0, a);
      assert Holds(p, Start(p, 0, values), 0, a) && Holds(p, Start(p, 1, values), 0, a);
    }
  }

  lemma FirstPartitions(p: Params, values: bool)
    ensures Start(p, 1, values) == Start(p, 0, values) + p.PartitionSize()
  {
    hide Params.PartitionSize;
  }

  lemma PartitionsInOrder(i: nat, j: nat, size: nat)
    requires i < j
    ensures i * size + size <= j * size
  {
    MulStep(i, size);
    assert (i + 1) * size <= j * size;
  }

  /** Keys and values of one iteration lie apart exactly when a head's share of the first bank is at most 2^23 bytes. */
  lemma KeyAndValueApart(p: Params, itr: nat)
    requires p.Valid()
    ensures (forall bank: nat, a: nat ::
              bank < Banks(p.mode) ==> !(Holds(p, p.KeyAddr(itr), bank, a) && Holds(p, p.ValAddr(itr), bank, a))) <==>
            BankBytes(p, 0) <= 0x80_0000
  {
    hide Columns, Share, Holds, BankBytes, Params.PartitionSize;
    var k, v := p.KeyAddr(itr), p.ValAddr(itr);
    forall bank: nat, a: nat | bank < Banks(p.mode)
      ensures Holds(p, k, bank, a) <==> k <= a < k + BankBytes(p, bank)
      ensures Holds(p, v, bank, a) <==> v <= a < v + BankBytes(p, bank)
      ensures BankBytes(p, bank) <= BankBytes(p, 0)
    {
      ContiguousSpan(p, k, bank, a);
      ContiguousSpan(p, v, bank, a);
      FirstBankHasMost(p, bank);
    }
    if BankBytes(p, 0) > V_OFFSET {
      assert Holds(p, k, 0, v) && Holds(p, v, 0, v);
    }
  }

  /**
   * Keys of iteration i meet values of iteration j in a bank exactly when their spans
   * overlap; so not while the keys of i end by 2^23.
   */
  lemma KeysMeetValues(p: Params, i: nat, j: nat, bank: nat)
    requires p.Valid() && bank < Banks(p.mode)
    ensures var k, v, n := p.KeyAddr(i), p.ValAddr(j), BankBytes(p, bank);
            && ((exists a: nat :: Holds(p, k, bank, a) && Holds(p, v, bank, a)) <==> v < k + n && k < v + n)
            && (k + n <= V_OFFSET ==> !exists a: nat :: Holds(p, k, bank, a) && Holds(p, v, bank, a))
  {
    hide Columns, Share, Holds, BankBytes, Params.PartitionSize;
    var k, v := p.KeyAddr(i), p.ValAddr(j);
    forall a: nat
      ensures Holds(p, k, bank, a) <==> k <= a < k + BankBytes(p, bank)
      ensures Holds(p, v, bank, a) <==> v <= a < v + BankBytes(p, bank)
    {
      ContiguousSpan(p, k, bank, a);
      ContiguousSpan(p, v, bank, a);
    }
    var most: nat := Max(k, v);
    assert v < k + BankBytes(p, bank) && k < v + BankBytes(p, bank) ==> Holds(p, k, bank, most) && Holds(p, v, bank, most);
  }

  // ---- which sequence lengths fit --------------------------------------------------------

  /** `dbyte` bytes per element, and every unit works on whole rows and columns. */
  predicate Regular(p: Params, dbyte: nat)
    requires p.Valid()
  {
    p.nMac * dbyte == 32 && p.len % p.RowUnits() == 0 && p.dhead % (p.ColUnits() * p.nMac) == 0
  }

  /** The columns of a head fill all banks evenly. */
  predicate Even(p: Params)
    requires p.Valid()
  {
    match p.mode case Bank => true case BankGroup => Columns(p) % 128 == 0 case Buffer => Columns(p) % 32 == 0
  }

  /** What the other banks hold less than the first, over all 64 banks of a channel. */
  function Padding(p: Params): int
    requires p.Valid()
  {
    match p.mode
    case Bank => 0
    case BankGroup => 512 * (4 * Share(p, 0) - Columns(p))
    case Buffer => 64 * (32 * Share(p, 0) - Columns(p))
  }

  lemma PaddingWhenUneven(p: Params)
    requires p.Valid()
    ensures Padding(p) >= 0 && (Padding(p) == 0 <==> Even(p))
  {
    hide Columns;
  }

  lemma ExactCeil(a: nat, b: nat)
    requires b > 0 && a % b == 0
    ensures CeilDiv(a, b) * b == a
  {
    DivMod(a, b);
    DivModUnique(b - 1, b, a / b);
    assert CeilDiv(a, b) == a / b;
  }

  /** A regular head has no bytes outside its columns. */
  lemma BytesOfColumns(p: Params, dbyte: nat)
    requires p.Valid() && Regular(p, dbyte)
    ensures dbyte * p.len * p.dhead == 32 * (p.RowUnits() * p.ColUnits() * Columns(p))
  {
    var m, x, y, ru, cu := p.nMac, p.Rows(), p.Cols(), p.RowUnits(), p.ColUnits();
    ExactCeil(p.len, ru);
    ExactCeil(p.dhead, cu * m);
    Regroup(dbyte, ru, x, cu, m, y);
    assert p.len == ru * x && p.dhead == (cu * m) * y;
    hide CeilDiv;
  }

  /** In all three placements the first bank takes a 64th of a head's bytes and of the padding. */
  lemma BytesPerBank(p: Params, dbyte: nat)
    requires p.Valid() && Regular(p, dbyte)
    ensures 64 * BankBytes(p, 0) == dbyte * p.len * p.dhead + Padding(p)
  {
    hide Share, Columns, Regular;
    BytesOfColumns(p, dbyte);
    FirstShare(p);
  }

  lemma FirstShare(p: Params)
    requires p.Valid()
    ensures p.mode == Bank ==> Share(p, 0) == Columns(p)
  {
    hide Columns;
  }

  lemma Regroup(d: nat, ru: nat, x: nat, cu: nat, m: nat, y: nat)
    requires m * d == 32
    ensures d * (ru * x) * ((cu * m) * y) == 32 * (ru * cu * (x * y))
  {
    calc {
      d * (ru * x) * ((cu * m) * y);
      (m * d) * ((ru * x) * (cu * y));
      32 * ((ru * x) * (cu * y));
      32 * (ru * cu * (x * y));
    }
  }

  /**
   * The keys lie apart exactly when a head's bytes and its padding fit 64 partitions. Without
   * padding it is enough that L times the element size is at most max_L, and with two
   * iterations and a head dimension of 64 or more that is necessary.
   */
  lemma FitsMaxL(p: Params, dbyte: nat)
    requires p.Valid() && Regular(p, dbyte)
    ensures Apart(p, false) <==> p.NumItr() < 2 || dbyte * p.len * p.dhead + Padding(p) <= 64 * p.PartitionSize()
    ensures dbyte * p.len <= p.maxL && Even(p) ==> Apart(p, false)
    ensures p.dhead >= 64 && p.NumItr() >= 2 && Apart(p, false) ==> dbyte * p.len <= p.maxL
  {
    hide *;
    ApartIffFit(p, false);
    BytesPerBank(p, dbyte);
    PaddingWhenUneven(p);
    PartitionBounds(p);
    ProductsCompare(dbyte * p.len, p.maxL, p.dhead);
    Rounded(p.PartitionSize(), dbyte * p.len * p.dhead, Padding(p), p.maxL * p.dhead, p.dhead, dbyte * p.len <= p.maxL);
  }

  lemma Rounded(size: nat, x: int, pad: int, y: int, d: nat, fits: bool)
    requires 64 * size - 63 <= y <= 64 * size && pad >= 0
    requires if fits then x <= y else x >= y + d
    ensures fits && pad == 0 ==> x + pad <= 64 * size
    ensures d >= 64 && x + pad <= 64 * size ==> fits
  {
  }

  lemma PartitionBounds(p: Params)
    ensures 64 * p.PartitionSize() - 63 <= p.maxL * p.dhead <= 64 * p.PartitionSize()
  {
  }

  lemma ProductsCompare(n: nat, m: nat, d: nat)
    ensures n <= m ==> n * d <= m * d
    ensures n > m ==> n * d >= m * d + d
  {
    if n > m {
      assert (m + 1) * d <= n * d;
      MulStep(m, d);
    }
  }

  /** With two bytes per element, L up to max_L is too much: the keys of the first two iterations overlap. */
  lemma TwoBytesOverlap()
    ensures var p := Params(Bank, 128, 16, 4096, 4096, 32); p.NumItr() == 2 && Regular(p, 2) && !Apart(p, false)
  {
    var p := Params(Bank, 128, 16, 4096, 4096, 32);
    FitsMaxL(p, 2);
  }

  /**
   * With one byte per element, L = max_L = 4000 fits per bank but not per bank group: a head's
   * 1000 columns put 256 into the first bank, 192 bytes more than a partition holds.
   */
  lemma UnevenOverlap()
    ensures var p := Params(BankGroup, 128, 32, 4000, 4000, 32);
            p.NumItr() == 2 && Regular(p, 1) && p.len == p.maxL && !Even(p) && !Apart(p, false)
    ensures Apart(Params(Bank, 128, 32, 4000, 4000, 32), false)
  {
    hide Apart, BankBytes, Params.PartitionSize, Params.NumItr, Regular, Even;
    UnevenNumbers();
    ApartIffFit(Params(BankGroup, 128, 32, 4000, 4000, 32), false);
    ApartIffFit(Params(Bank, 128, 32, 4000, 4000, 32), false);
  }

  lemma UnevenNumbers()
    ensures var p := Params(BankGroup, 128, 32, 4000, 4000, 32);
            p.NumItr() == 2 && Regular(p, 1) && !Even(p) && BankBytes(p, 0) == 8192 && p.PartitionSize() == 8000
    ensures var q := Params(Bank, 128, 32, 4000, 4000, 32); BankBytes(q, 0) == 8000 == q.PartitionSize()
  {
    assert Columns(Params(BankGroup, 128, 32, 4000, 4000, 32)) == 1000;
    assert Columns(Params(Bank, 128, 32, 4000, 4000, 32)) == 250;
  }
}
