/**
 * The commands one iteration of the trace generators produces, for the three placements of
 * the processing units: per bank, per bank group, and on the buffer die.
 */
module TraceLayout {
  import opened Arith
  import opened PimTypes

  const N_CHANNEL: nat := 16
  const GS_COL: nat := 32
  const GS_ROW: nat := 32 * GS_COL
  const GS_BA: nat := 16384 * GS_ROW
  const GS_BG: nat := 4 * GS_BA
  const GS_RANK: nat := 4 * GS_BG
  const GS_PCH: nat := 2 * GS_RANK
  const GS_CH: nat := 2 * GS_PCH
  const V_OFFSET: nat := 8388608

  datatype Mode = Bank | BankGroup | Buffer

  /** Command-line parameters; `nMac` is the number of elements in one column access. */
  datatype Params = Params(mode: Mode, dhead: nat, nMac: nat, maxL: nat, len: nat, nHead: nat) {

    predicate Valid() { nMac > 0 }

    /** Units that work on different key rows at the same time. */
    function RowUnits(): nat { if mode == Buffer then 2 else 16 }

    /** Units that work on different columns of one row at the same time. */
    function ColUnits(): nat { if mode == Bank then 4 else 1 }

    /** Score rows, and columns of a context row. */
    function Rows(): nat { CeilDiv(len, RowUnits()) }

    /** Columns of a score row, and context rows. */
    function Cols(): nat
      requires Valid()
    {
      CeilDiv(dhead, ColUnits() * nMac)
    }

    /** Groups of sixteen score rows, as the interleaving loops compute it. */
    function Length(): nat { CeilDiv(len, RowUnits() * 16) }

    /** Columns of the softmax result that a unit receives. */
    function MvgbCols(): nat
      requires Valid()
    {
      CeilDiv(len, RowUnits() * nMac)
    }

    function PartitionSize(): nat { CeilDiv(maxL * dhead, 64) }

    function NumItr(): nat { CeilDiv(nHead, N_CHANNEL) }

    /** How many channels hold a head in iteration `itr`. */
    function ValidChannels(itr: nat): nat {
      var remainder := if nHead < (itr + 1) * N_CHANNEL then nHead % N_CHANNEL else 0;
      if remainder == 0 then N_CHANNEL else remainder
    }

    function KeyAddr(itr: nat): nat { itr * PartitionSize() }

    function ValAddr(itr: nat): nat { KeyAddr(itr) + V_OFFSET }
  }

  /** What a command is for. Only proofs read this; it is not printed. */
  datatype Role =
    | ScoreIn | ScoreMac(row: nat) | ScoreOut(group: nat) | Softmax
    | ContextIn | ContextMac(row: nat) | ContextOut(row: nat)
    | DummyMac | ReplayMac(row: nat) | ReplayOut(row: nat) | Sync

  datatype Cmd = Cmd(kind: ReqType, addr: nat, itr: int, role: Role)

  // ---- bank, bank group and rank strides -------------------------------------------------

  function ScoreInParts(mode: Mode): seq<nat> {
    if mode == Bank then [0, GS_BA, 2 * GS_BA, 3 * GS_BA] else [0]
  }

  /** Bank groups, and in each the ranks. */
  function ScoreOutParts(mode: Mode): seq<nat> {
    if mode == Buffer then [0]
    else [0, GS_RANK, GS_BG, GS_BG + GS_RANK, 2 * GS_BG, 2 * GS_BG + GS_RANK, 3 * GS_BG, 3 * GS_BG + GS_RANK]
  }

  /** Ranks, and in each the bank groups. */
  function ContextInParts(mode: Mode): seq<nat> {
    if mode == Buffer then [0]
    else [0, GS_BG, 2 * GS_BG, 3 * GS_BG, GS_RANK, GS_RANK + GS_BG, GS_RANK + 2 * GS_BG, GS_RANK + 3 * GS_BG]
  }

  /** Banks, and in each the ranks; without the banks for bank-group units. */
  function ContextOutParts(mode: Mode): seq<nat> {
    match mode
    case Buffer => [0]
    case BankGroup => [0, GS_RANK]
    case Bank => [0, GS_RANK, GS_BA, GS_BA + GS_RANK, 2 * GS_BA, 2 * GS_BA + GS_RANK, 3 * GS_BA, 3 * GS_BA + GS_RANK]
  }

  function MacKind(mode: Mode): ReqType {
    match mode
    case Bank => PimMacAb
    case BankGroup => PimMacSb
    case Buffer => PimMacPb
  }

  /** Where the MAC with linear index `idx` lies inside a channel. */
  function MacOffset(mode: Mode, idx: nat): nat {
    match mode
    case Bank => idx * GS_COL
    case BankGroup =>
      var cols := idx / 32;
      (cols % 4) * GS_BA + (cols / 4) * GS_ROW + (idx % 32) * GS_COL
    case Buffer =>
      var bgs := idx / 8;
      var banks := bgs / 4;
      (idx % 8) * GS_BG + (bgs % 4) * GS_BA + (banks / 32) * GS_ROW + (banks % 32) * GS_COL
  }

  // ---- the command lists of one iteration ------------------------------------------------

  /** The same command on every valid channel. */
  function Lanes(kind: ReqType, itr: int, role: Role, addr: nat, valid: nat): (s: seq<Cmd>)
    ensures |s| == valid
  {
    if valid == 0 then [] else Lanes(kind, itr, role, addr, valid - 1) + [Cmd(kind, addr + (valid - 1) * GS_CH, itr, role)]
  }

  /** Buffer columns have an address granularity of one. */
  function ColumnLanes(kind: ReqType, itr: int, role: Role, addr: nat, cols: nat, valid: nat): seq<Cmd> {
    if cols == 0 then []
    else ColumnLanes(kind, itr, role, addr, cols - 1, valid) + Lanes(kind, itr, role, addr + cols - 1, valid)
  }

  function PartLanes(kind: ReqType, itr: int, role: Role, base: nat, parts: seq<nat>, cols: nat, valid: nat): seq<Cmd> {
    if parts == [] then []
    else
      PartLanes(kind, itr, role, base, parts[..|parts| - 1], cols, valid) +
      ColumnLanes(kind, itr, role, base + parts[|parts| - 1], cols, valid)
  }

  /** The first `k` MACs of row `row`, whose rows have `width` columns. */
  function MacRow(mode: Mode, itr: int, role: Role, base: nat, row: nat, width: nat, k: nat, valid: nat): seq<Cmd> {
    if k == 0 then []
    else
      MacRow(mode, itr, role, base, row, width, k - 1, valid) +
      Lanes(MacKind(mode), itr, role, base + MacOffset(mode, k - 1 + row * width), valid)
  }

  /** The seven command lists of one iteration. */
  datatype Head = Head(
    wrgb: seq<Cmd>, mac: seq<seq<Cmd>>, mvsb: seq<seq<Cmd>>, sfm: seq<Cmd>,
    mvgb: seq<Cmd>, cmac: seq<seq<Cmd>>, cmvsb: seq<seq<Cmd>>)

  function ScoreMacs(p: Params, itr: nat, rows: nat): (s: seq<seq<Cmd>>)
    requires p.Valid()
    ensures |s| == rows
  {
    if rows == 0 then []
    else
      ScoreMacs(p, itr, rows - 1) +
      [MacRow(p.mode, itr, ScoreMac(rows - 1), p.KeyAddr(itr), rows - 1, p.Cols(), p.Cols(), p.ValidChannels(itr))]
  }

  function ScoreOuts(p: Params, itr: nat, groups: nat): (s: seq<seq<Cmd>>)
    ensures |s| == groups
  {
    if groups == 0 then []
    else
      ScoreOuts(p, itr, groups - 1) +
      [PartLanes(PimMvSb, itr, ScoreOut(groups - 1), p.KeyAddr(itr), ScoreOutParts(p.mode), 1, p.ValidChannels(itr))]
  }

  function ContextMacs(p: Params, itr: nat, rows: nat): (s: seq<seq<Cmd>>)
    ensures |s| == rows
  {
    if rows == 0 then []
    else
      ContextMacs(p, itr, rows - 1) +
      [MacRow(p.mode, itr, ContextMac(rows - 1), p.ValAddr(itr), rows - 1, p.Rows(), p.Rows(), p.ValidChannels(itr))]
  }

  function ContextOuts(p: Params, itr: nat, rows: nat): (s: seq<seq<Cmd>>)
    ensures |s| == rows
  {
    if rows == 0 then []
    else
      ContextOuts(p, itr, rows - 1) +
      [PartLanes(PimMvSb, itr, ContextOut(rows - 1), p.ValAddr(itr), ContextOutParts(p.mode), 1, p.ValidChannels(itr))]
  }

  function HeadOf(p: Params, itr: nat): Head
    requires p.Valid()
  {
    var valid := p.ValidChannels(itr);
    Head(
      PartLanes(PimWrGb, itr, ScoreIn, p.KeyAddr(itr), ScoreInParts(p.mode), p.Cols(), valid),
      ScoreMacs(p, itr, p.Rows()),
      ScoreOuts(p, itr, p.Length()),
      Lanes(PimSfm, itr, Softmax, 0, valid),
      PartLanes(PimMvGb, itr, ContextIn, p.ValAddr(itr), ContextInParts(p.mode), p.MvgbCols(), valid),
      ContextMacs(p, itr, p.Cols()),
      ContextOuts(p, itr, p.Cols()))
  }

  lemma {:induction false} LanesAt(kind: ReqType, itr: int, role: Role, addr: nat, valid: nat, l: nat)
    requires l < valid
    ensures Lanes(kind, itr, role, addr, valid)[l] == Cmd(kind, addr + l * GS_CH, itr, role)
  {
    if l >= valid - 1 {
    } else {
      LanesAt(kind, itr, role, addr, valid - 1, l);
    }
  }

  // ---- how many commands -----------------------------------------------------------------

  lemma {:induction false} ColumnLanesCount(kind: ReqType, itr: int, role: Role, addr: nat, cols: nat, valid: nat)
    ensures |ColumnLanes(kind, itr, role, addr, cols, valid)| == cols * valid
  {
    if cols == 0 {
    } else {
      ColumnLanesCount(kind, itr, role, addr, cols - 1, valid);
      MulStep(cols - 1, valid);
    }
  }

  /** One command per partition, column and valid channel. */
  lemma {:induction false} PartLanesCount(kind: ReqType, itr: int, role: Role, base: nat, parts: seq<nat>, cols: nat, valid: nat)
    ensures |PartLanes(kind, itr, role, base, parts, cols, valid)| == |parts| * (cols * valid)
  {
    hide ColumnLanes;
    if parts == [] {
    } else {
      var n := |parts| - 1;
      PartLanesCount(kind, itr, role, base, parts[..n], cols, valid);
      ColumnLanesCount(kind, itr, role, base + parts[n], cols, valid);
      MulStep(n, cols * valid);
    }
  }

  lemma {:induction false} MacRowCount(mode: Mode, itr: int, role: Role, base: nat, row: nat, width: nat, k: nat, valid: nat)
    ensures |MacRow(mode, itr, role, base, row, width, k, valid)| == k * valid
  {
    if k == 0 {
    } else {
      MacRowCount(mode, itr, role, base, row, width, k - 1, valid);
      MulStep(k - 1, valid);
    }
  }

  // ---- what the numbers mean -------------------------------------------------------------

  /**
   * For every length and head dimension: the score rows, the columns of a row, the groups of
   * rows, the columns of the softmax result, the iterations and the partitions are just enough.
   */
  lemma SizesCover(p: Params)
    requires p.Valid()
    ensures JustCovers(p.Rows(), p.RowUnits(), p.len)
    ensures JustCovers(p.Cols(), p.ColUnits() * p.nMac, p.dhead)
    ensures JustCovers(p.Length(), 16 * p.RowUnits(), p.len)
    ensures JustCovers(p.MvgbCols(), p.RowUnits() * p.nMac, p.len)
    ensures JustCovers(p.NumItr(), N_CHANNEL, p.nHead)
    ensures JustCovers(p.PartitionSize(), 64, p.maxL * p.dhead)
  {
    hide CeilDiv, JustCovers;
    CeilCovers(p.len, p.RowUnits());
    CeilCovers(p.dhead, p.ColUnits() * p.nMac);
    CeilCovers(p.len, p.RowUnits() * 16);
    CeilCovers(p.len, p.RowUnits() * p.nMac);
    CeilCovers(p.nHead, N_CHANNEL);
    CeilCovers(p.maxL * p.dhead, 64);
  }

  /** Sixteen rows to a group: the loop's bound is the number of groups that the rows fill. */
  lemma NestedCeil(p: Params)
    ensures CeilDiv(p.Rows(), 16) == p.Length() && p.Length() * 16 >= p.Rows()
  {
  }

  /** Inputs are written once per column unit; the softmax result goes to all row units of both pseudochannels. */
  lemma UnitsAreParts(p: Params)
    ensures p.ColUnits() == |ScoreInParts(p.mode)| && p.RowUnits() == 2 * |ContextInParts(p.mode)|
  {
  }

  /** Channel `lch` takes part in iteration `itr` exactly when there is a head left for it. */
  lemma HeadOfChannel(p: Params, itr: nat, lch: nat)
    requires itr < p.NumItr() && lch < N_CHANNEL
    ensures lch < p.ValidChannels(itr) <==> itr * N_CHANNEL + lch < p.nHead
  {
  }
}
