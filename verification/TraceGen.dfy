/** The trace generators as they run: lists filled in nested loops, then interleaved into one trace. */
module TraceGen {
  import opened Arith
  import opened PimTypes
  import opened TraceLayout
  import opened TraceScript
  import opened TraceEmission
  import opened TraceHazards

  /** The same command on every valid channel. */
  method EmitLanes(kind: ReqType, itr: int, role: Role, addr: nat, valid: nat) returns (cmds: seq<Cmd>)
    ensures cmds == Lanes(kind, itr, role, addr, valid)
  {
    cmds := [];
    for lch := 0 to valid
      invariant cmds == Lanes(kind, itr, role, addr, lch)
    {
      cmds := cmds + [Cmd(kind, addr + lch * GS_CH, itr, role)];
    }
  }

  /** Loops over buffer columns and channels. */
  method EmitColumns(kind: ReqType, itr: int, role: Role, addr: nat, cols: nat, valid: nat) returns (cmds: seq<Cmd>)
    ensures cmds == ColumnLanes(kind, itr, role, addr, cols, valid)
  {
    hide Lanes;
    cmds := [];
    for col := 0 to cols
      invariant cmds == ColumnLanes(kind, itr, role, addr, col, valid)
    {
      var lanes := EmitLanes(kind, itr, role, addr + col, valid);
      cmds := cmds + lanes;
    }
  }

  /** Loops over partitions, buffer columns and channels, appending one command each. */
  method EmitParts(kind: ReqType, itr: int, role: Role, base: nat, parts: seq<nat>, cols: nat, valid: nat) returns (cmds: seq<Cmd>)
    ensures cmds == PartLanes(kind, itr, role, base, parts, cols, valid)
  {
    hide ColumnLanes;
    cmds := [];
    for k := 0 to |parts|
      invariant cmds == PartLanes(kind, itr, role, base, parts[..k], cols, valid)
    {
      var columns := EmitColumns(kind, itr, role, base + parts[k], cols, valid);
      cmds := cmds + columns;
      assert parts[..k + 1][..k] == parts[..k];
    }
    assert parts[..|parts|] == parts;
  }

  /** Splits a linear MAC index as the placement demands: bank group, bank, row and column. */
  method SplitIndex(mode: Mode, idx: nat) returns (offset: nat)
    ensures offset == MacOffset(mode, idx)
  {
    match mode {
      case Bank =>
        offset := idx * GS_COL;
      case BankGroup =>
        var col, numCols := idx % (GS_ROW / GS_COL), idx / (GS_ROW / GS_COL);
        var bank, dramRow := numCols % 4, numCols / 4;
        offset := bank * GS_BA + dramRow * GS_ROW + col * GS_COL;
      case Buffer =>
        var bg, numBgs := idx % 8, idx / 8;
        var bank, numBanks := numBgs % 4, numBgs / 4;
        var col, dramRow := numBanks % (GS_ROW / GS_COL), numBanks / (GS_ROW / GS_COL);
        offset := bg * GS_BG + bank * GS_BA + dramRow * GS_ROW + col * GS_COL;
    }
  }

  /** One row of MACs. */
  method EmitRow(mode: Mode, itr: int, role: Role, base: nat, row: nat, width: nat, valid: nat) returns (cmds: seq<Cmd>)
    ensures cmds == MacRow(mode, itr, role, base, row, width, width, valid)
  {
    hide Lanes, MacOffset, MacKind;
    cmds := [];
    for k := 0 to width
      invariant cmds == MacRow(mode, itr, role, base, row, width, k, valid)
    {
      var offset := SplitIndex(mode, k + row * width);
      var lanes := EmitLanes(MacKind(mode), itr, role, base + offset, valid);
      cmds := cmds + lanes;
    }
  }

  /** Score MACs, with an MV_SB group after every sixteenth row and after the last. */
  method EmitScore(p: Params, itr: nat, valid: nat) returns (mac: seq<seq<Cmd>>, mvsb: seq<seq<Cmd>>)
    requires p.Valid() && valid == p.ValidChannels(itr)
    ensures mac == ScoreMacs(p, itr, p.Rows())
    ensures mvsb == ScoreOuts(p, itr, p.Length())
  {
    hide Params.ValidChannels, Params.KeyAddr, PartLanes, MacRow, Params.Cols;
    mac, mvsb := [], [];
    var rows := CeilDiv(p.len, p.RowUnits());
    NestedCeil(p);
    for n := 0 to rows
      invariant mac == ScoreMacs(p, itr, n)
      invariant mvsb == ScoreOuts(p, itr, if n == rows then p.Length() else n / 16)
    {
      var row := EmitRow(p.mode, itr, ScoreMac(n), p.KeyAddr(itr), n, p.Cols(), valid);
      mac := mac + [row];
      if n % 16 == 15 || n == rows - 1 {
        var outs := EmitParts(PimMvSb, itr, ScoreOut(n / 16), p.KeyAddr(itr), ScoreOutParts(p.mode), 1, valid);
        mvsb := mvsb + [outs];
      }
    }
  }

  method EmitContext(p: Params, itr: nat, valid: nat) returns (mac: seq<seq<Cmd>>, mvsb: seq<seq<Cmd>>)
    requires p.Valid() && valid == p.ValidChannels(itr)
    ensures mac == ContextMacs(p, itr, p.Cols())
    ensures mvsb == ContextOuts(p, itr, p.Cols())
  {
    hide Params.ValidChannels, Params.ValAddr, PartLanes, MacRow, Params.Rows;
    mac, mvsb := [], [];
    for n := 0 to p.Cols()
      invariant mac == ContextMacs(p, itr, n)
      invariant mvsb == ContextOuts(p, itr, n)
    {
      var row := EmitRow(p.mode, itr, ContextMac(n), p.ValAddr(itr), n, p.Rows(), valid);
      var outs := EmitParts(PimMvSb, itr, ContextOut(n), p.ValAddr(itr), ContextOutParts(p.mode), 1, valid);
      mac, mvsb := mac + [row], mvsb + [outs];
    }
  }

  /** What a pass adds besides the MACs and outputs of its own head; `count` commands are spread over the passes. */
  datatype Extra = Nothing | Inputs(wrgb: seq<Cmd>, count: nat) | Back(sfm: seq<Cmd>, mvgb: seq<Cmd>, count: nat)

  /** What an extra amounts to, pass by pass. */
  function ExtraLists(extra: Extra, length: nat): seq<seq<Cmd>> {
    match extra
    case Nothing => []
    case Inputs(wrgb, _) => SpreadIn(wrgb, length, length)
    case Back(sfm, mvgb, _) => SpreadBack(sfm, mvgb, length, length + 1)
  }

  /** The source computes a list's size from the parameters, not from the list. */
  predicate CountOk(extra: Extra) {
    match extra
    case Nothing => true
    case Inputs(wrgb, count) => count == |wrgb|
    case Back(_, mvgb, count) => count == |mvgb|
  }

  /** How many WR_GB commands an iteration has. */
  function InputCount(p: Params, valid: nat): nat
    requires p.Valid()
  {
    |ScoreInParts(p.mode)| * (p.Cols() * valid)
  }

  /** How many MV_GB commands an iteration has. */
  function BackCount(p: Params, valid: nat): nat
    requires p.Valid()
  {
    |ContextInParts(p.mode)| * (p.MvgbCols() * valid)
  }

  class TraceGenerator {
    const p: Params
    var heads: seq<Head>
    var validChannels: seq<nat>
    var total: seq<Cmd>

    constructor (p: Params)
      requires p.Valid()
      ensures this.p == p && heads == [] && validChannels == [] && total == []
    {
      this.p := p;
      heads, validChannels, total := [], [], [];
    }

    /** The lists of iteration `itr`. */
    method Attention(itr: nat, valid: nat)
      requires p.Valid() && valid == p.ValidChannels(itr)
      modifies this
      ensures heads == old(heads) + [HeadOf(p, itr)]
      ensures validChannels == old(validChannels) + [valid]
      ensures total == old(total)
    {
      hide Params.ValidChannels, PartLanes, ScoreMacs, ScoreOuts, ContextMacs, ContextOuts, Lanes, Params.Cols, Params.Rows, Params.MvgbCols;
      validChannels := validChannels + [valid];
      var wrgb := EmitParts(PimWrGb, itr, ScoreIn, p.KeyAddr(itr), ScoreInParts(p.mode), p.Cols(), valid);
      var mac, mvsb := EmitScore(p, itr, valid);
      var sfm := EmitLanes(PimSfm, itr, Softmax, 0, valid);
      var mvgb := EmitParts(PimMvGb, itr, ContextIn, p.ValAddr(itr), ContextInParts(p.mode), p.MvgbCols(), valid);
      var cmac, cmvsb := EmitContext(p, itr, valid);
      heads := heads + [Head(wrgb, mac, mvsb, sfm, mvgb, cmac, cmvsb)];
    }

    /** Appends up to sixteen rows from `start` on, until the rows end. */
    method AppendRows(rows: seq<seq<Cmd>>, start: nat)
      modifies this`total
      ensures total == old(total) + Concat(From(rows, start, 16))
    {
      hide Concat;
      ghost var a := Min(start, |rows|);
      assert rows[a..a] == [];
      ConcatNone();
      var k := 0;
      while k < 16
        invariant 0 <= k <= 16 && (k == 0 || start + k <= |rows|)
        invariant total == old(total) + Concat(rows[a..Min(start + k, |rows|)])
      {
        if start + k >= |rows| {
          break;
        }
        total := total + rows[start + k];
        SliceGrows(rows, a, start + k);
        ConcatStep(rows[a..start + k], rows[start + k]);
        k := k + 1;
      }
      assert Min(start + k, |rows|) == Min(start + 16, |rows|);
    }

    method AppendGroup(rows: seq<seq<Cmd>>, j: nat)
      modifies this`total
      ensures total == old(total) + Concat(Chunk(rows, j, 16))
    {
      hide From, Concat;
      AppendRows(rows, j * 16);
    }

    /** Appends up to `stride` commands from `start` on, until the list ends. */
    method AppendRange(list: seq<Cmd>, start: nat, stride: nat)
      modifies this`total
      ensures total == old(total) + From(list, start, stride)
    {
      var k := 0;
      while k < stride
        invariant 0 <= k <= stride && (k == 0 || start + k <= |list|)
        invariant total == old(total) + list[Min(start, |list|)..Min(start + k, |list|)]
      {
        if start + k >= |list| {
          break;
        }
        SliceGrows(list, Min(start, |list|), start + k);
        total := total + [list[start + k]];
        k := k + 1;
      }
      assert Min(start + k, |list|) == Min(start + stride, |list|);
    }

    method AppendStride(list: seq<Cmd>, j: nat, stride: nat)
      modifies this`total
      ensures total == old(total) + Chunk(list, j, stride)
    {
      hide From;
      AppendRange(list, j * stride, stride);
    }

    /** All passes but the last share out a list. */
    method AppendEarly(list: seq<Cmd>, count: nat, j: nat, length: nat)
      requires count == |list| && j <= length
      modifies this`total
      ensures total == old(total) + EarlyChunk(list, length, j)
    {
      hide Chunk;
      if j != length {
        var stride := count / length;
        AppendStride(list, j, stride);
      }
    }

    /** The second half of the passes shares out a list. */
    method AppendLate(list: seq<Cmd>, count: nat, j: nat, length: nat)
      requires count == |list| && j <= length
      modifies this`total
      ensures total == old(total) + LateChunk(list, length, j)
    {
      CeilHalf(length);
      hide Chunk, CeilDiv;
      if j != length && j >= length / 2 {
        var stride := count / CeilDiv(length, 2);
        AppendStride(list, j - length / 2, stride);
      }
    }

    /** The part of a pass that belongs to the other head. */
    method AppendExtra(extra: Extra, j: nat, length: nat)
      requires CountOk(extra) && j <= length
      modifies this`total
      ensures total == old(total) + ListAt(ExtraLists(extra, length), j)
    {
      ExtraAt(extra, length, j);
      hide EarlyChunk, LateChunk, ListAt, ExtraLists;
      match extra {
        case Nothing =>
        case Inputs(wrgb, count) =>
          AppendEarly(wrgb, count, j, length);
        case Back(sfm, mvgb, count) =>
          ghost var t0, first := total, if j == 0 then sfm else [];
          if j == 0 {
            total := total + sfm;
          }
          AppendLate(mvgb, count, j, length);
          Regroup(t0, first, LateChunk(mvgb, length, j));
      }
    }

    /** Score rows in groups, each group drained in the next pass. */
    method ScoreLoop(h: Head, extra: Extra)
      requires CountOk(extra) && |h.mvsb| == p.Length()
      modifies this`total
      ensures var n := p.Length();
              total == old(total) + Flatten(Loop(Groups(h.mac, n), h.mvsb, ExtraLists(extra, n), n, n + 1))
    {
      hide Flatten, Pass, ExtraLists, Barriers, Params.Length, Concat, Chunk;
      var length := p.Length();
      ghost var ins, extras := Groups(h.mac, length), ExtraLists(extra, length);
      FlattenNothing();
      for j := 0 to length + 1
        invariant total == old(total) + Flatten(Loop(ins, h.mvsb, extras, length, j))
      {
        ghost var before := total;
        if j != length {
          AppendGroup(h.mac, j);
        }
        if j != 0 {
          total := total + h.mvsb[j - 1];
        }
        AppendExtra(extra, j, length);
        if j != length {
          AppendBarriers();
        }
        PassFlattens(ins, h.mvsb, extras, length, j);
        FlattenAppend(Loop(ins, h.mvsb, extras, length, j), Pass(ins, h.mvsb, extras, length, j));
      }
    }

    /** Context rows one at a time, each drained in the next pass. */
    method ContextLoop(macs: seq<seq<Cmd>>, outs: seq<seq<Cmd>>, extra: Extra)
      requires CountOk(extra) && |macs| == |outs|
      modifies this`total
      ensures var n := |macs|;
              total == old(total) + Flatten(Loop(macs, outs, ExtraLists(extra, n), n, n + 1))
    {
      hide Flatten, Pass, ExtraLists, Barriers;
      var length := |macs|;
      ghost var extras := ExtraLists(extra, length);
      FlattenNothing();
      for j := 0 to length + 1
        invariant total == old(total) + Flatten(Loop(macs, outs, extras, length, j))
      {
        if j != length {
          total := total + macs[j];
        }
        if j != 0 {
          total := total + outs[j - 1];
        }
        AppendExtra(extra, j, length);
        if j != length {
          AppendBarriers();
        }
        PassFlattens(macs, outs, extras, length, j);
        FlattenAppend(Loop(macs, outs, extras, length, j), Pass(macs, outs, extras, length, j));
      }
    }

    method AppendBarriers()
      modifies this`total
      ensures total == old(total) + Barriers()
    {
      var barrier := EmitLanes(PimBarrier, -1, Sync, 0, N_CHANNEL);
      total := total + barrier;
    }

    /** The first MAC on every channel; none is there to index when a length is zero. */
    method AppendDummy() returns (ok: bool)
      requires p.Valid() && |heads| > 0 && heads[0] == HeadOf(p, 0)
      requires |validChannels| > 0 && validChannels[0] == p.ValidChannels(0) > 0
      modifies this`total
      ensures ok == (p.len > 0 && p.dhead > 0)
      ensures ok ==> total == old(total) + DummyMacs(p, 0)
    {
      FirstRow(p);
      hide HeadOf, Params.ValidChannels, Relabel;
      if |heads[0].mac| == 0 {
        return false;
      }
      ok := AppendLanes(heads[0].mac[0], validChannels[0]);
    }

    /** Appends the first `n` commands of a row as dummies; false is an index out of range. */
    method AppendLanes(row: seq<Cmd>, n: nat) returns (ok: bool)
      modifies this`total
      ensures ok == (n <= |row|)
      ensures ok ==> total == old(total) + Relabel(row[..n], 0, DummyMac)
    {
      hide Relabel;
      RelabelNone();
      for j := 0 to n
        invariant j <= |row| && total == old(total) + Relabel(row[..j], 0, DummyMac)
      {
        if j >= |row| {
          return false;
        }
        PrefixStep(row, j, 0, DummyMac);
        total := total + [row[j].(itr := 0, role := DummyMac)];
      }
      ok := true;
    }

    /** The score phases of two heads: each loop also carries commands of the other head. */
    method AppendScores(h: Head, k: Head, ghost s: seq<Step>, valid0: nat, valid1: nat)
      requires p.Valid() && |h.mvsb| == |k.mvsb| == p.Length()
      requires |k.wrgb| == InputCount(p, valid1) && |h.mvgb| == BackCount(p, valid0)
      modifies this`total
      ensures var n := p.Length();
              forall before :: old(total) == before + Flatten(s) ==>
                total == before + Flatten(s +
                  Loop(Groups(h.mac, n), h.mvsb, SpreadIn(k.wrgb, n, n), n, n + 1) +
                  Loop(Groups(k.mac, n), k.mvsb, SpreadBack(h.sfm, h.mvgb, n, n + 1), n, n + 1))
    {
      hide Flatten, Loop, Groups, SpreadIn, SpreadBack, Params.Length, InputCount, BackCount;
      ghost var t0, n := total, p.Length();
      ghost var s1 := Loop(Groups(h.mac, n), h.mvsb, SpreadIn(k.wrgb, n, n), n, n + 1);
      ghost var s2 := Loop(Groups(k.mac, n), k.mvsb, SpreadBack(h.sfm, h.mvgb, n, n + 1), n, n + 1);
      ScoreLoop(h, Inputs(k.wrgb, InputCount(p, valid1)));
      ScoreLoop(k, Back(h.sfm, h.mvgb, BackCount(p, valid0)));
      forall before | t0 == before + Flatten(s)
        ensures total == before + Flatten(s + s1 + s2)
      {
        var u := Grow(before, s, s1);
        u := Grow(before, u, s2);
      }
    }

    /** WR_GB of the first head, and for the first pair the dummy MACs. */
    method AppendStart(i: nat) returns (ok: bool)
      requires p.Valid() && i < |heads| && heads[i] == HeadOf(p, i) && heads[0] == HeadOf(p, 0)
      requires |validChannels| > 0 && validChannels[0] == p.ValidChannels(0) > 0
      modifies this`total
      ensures ok == (i > 0 || (p.len > 0 && p.dhead > 0))
      ensures ok ==> total == old(total) + Flatten([Emit(HeadOf(p, i).wrgb), Emit(DummyMacs(p, i)), Bar])
    {
      NoDummy(p, i);
      hide HeadOf, Flatten, Barriers, DummyMacs, Params.ValidChannels;
      ghost var t0 := total;
      ok := true;
      total := total + heads[i].wrgb;
      if i == 0 {
        ok := AppendDummy();
        if !ok {
          return;
        }
      } else {
        Regroup(total, [], []);
      }
      assert total == t0 + heads[i].wrgb + DummyMacs(p, i);
      AppendBarriers();
      FlattenThree(t0, heads[i].wrgb, DummyMacs(p, i));
    }

    /** The context phases: the second head's turn repeats the lists of the first. */
    method AppendContexts(h: Head, k: Head, i: nat, ghost s: seq<Step>, valid1: nat)
      requires p.Valid() && |h.cmac| == |h.cmvsb| && |k.mvgb| == BackCount(p, valid1)
      modifies this`total
      ensures var c := |h.cmac|;
              forall before :: old(total) == before + Flatten(s) ==>
                total == before + Flatten(s +
                  Loop(h.cmac, h.cmvsb, SpreadBack(k.sfm, k.mvgb, c, c + 1), c, c + 1) +
                  Loop(ReplayMacs(h, i + 1, c), ReplayOuts(h, i + 1, c), [], c, c + 1))
    {
      hide Flatten, Loop, SpreadBack, ReplayMacs, ReplayOuts, BackCount;
      ghost var t0 := total;
      var c := |h.cmac|;
      ghost var s1 := Loop(h.cmac, h.cmvsb, SpreadBack(k.sfm, k.mvgb, c, c + 1), c, c + 1);
      ghost var s2 := Loop(ReplayMacs(h, i + 1, c), ReplayOuts(h, i + 1, c), [], c, c + 1);
      ContextLoop(h.cmac, h.cmvsb, Back(k.sfm, k.mvgb, BackCount(p, valid1)));
      ContextLoop(ReplayMacs(h, i + 1, c), ReplayOuts(h, i + 1, c), Nothing);
      forall before | t0 == before + Flatten(s)
        ensures total == before + Flatten(s + s1 + s2)
      {
        var u := Grow(before, s, s1);
        u := Grow(before, u, s2);
      }
    }

    /** Iterations `i` and `i` + 1, overlapped. */
    method AppendPair(i: nat) returns (ok: bool)
      requires p.Valid() && i + 1 < |heads| == |validChannels|
      requires heads[i] == HeadOf(p, i) && heads[i + 1] == HeadOf(p, i + 1) && heads[0] == HeadOf(p, 0)
      requires validChannels[i] == p.ValidChannels(i) && validChannels[i + 1] == p.ValidChannels(i + 1)
      requires validChannels[0] == p.ValidChannels(0) > 0
      modifies this`total
      ensures ok == (i > 0 || (p.len > 0 && p.dhead > 0))
      ensures ok ==>
                total == old(total) + Flatten(Pair(HeadOf(p, i), HeadOf(p, i + 1), i, DummyMacs(p, i), p.Length(), p.Cols()))
    {
      HeadSizes(p, i);
      HeadSizes(p, i + 1);
      Counts(p, i);
      Counts(p, i + 1);
      hide HeadOf, Flatten, Loop, Groups, ReplayMacs, ReplayOuts, SpreadIn, SpreadBack, DummyMacs,
           Params.Length, Params.Cols, Params.Rows, Params.ValidChannels, InputCount, BackCount;
      var h, k := heads[i], heads[i + 1];
      ghost var t0, n := total, p.Length();
      ghost var s := [Emit(h.wrgb), Emit(DummyMacs(p, i)), Bar];
      ok := AppendStart(i);
      if ok {
        AppendScores(h, k, s, validChannels[i], validChannels[i + 1]);
        s := s + Loop(Groups(h.mac, n), h.mvsb, SpreadIn(k.wrgb, n, n), n, n + 1) +
          Loop(Groups(k.mac, n), k.mvsb, SpreadBack(h.sfm, h.mvgb, n, n + 1), n, n + 1);
        assert total == t0 + Flatten(s);
        AppendContexts(h, k, i, s, validChannels[i + 1]);
      }
    }

    /** The last iteration of an odd number, alone. */
    method AppendSolo(i: nat)
      requires p.Valid() && i < |heads| && heads[i] == HeadOf(p, i)
      modifies this`total
      ensures total == old(total) + Flatten(Solo(HeadOf(p, i), p.Length(), p.Cols()))
    {
      HeadSizes(p, i);
      hide HeadOf, Flatten, Loop, Groups, Barriers, Params.Length, Params.Cols;
      var h := heads[i];
      ghost var t0, s, n, c := total, [Emit(h.wrgb), Bar], p.Length(), p.Cols();
      total := total + h.wrgb;
      AppendBarriers();
      FlattenThree(t0, h.wrgb, []);
      ScoreLoop(h, Nothing);
      s := Grow(t0, s, Loop(Groups(h.mac, n), h.mvsb, [], n, n + 1));
      ghost var t1 := total;
      total := total + h.sfm;
      total := total + h.mvgb;
      AppendBarriers();
      FlattenThree(t1, h.sfm, h.mvgb);
      s := Grow(t0, s, [Emit(h.sfm), Emit(h.mvgb), Bar]);
      ContextLoop(h.cmac, h.cmvsb, Nothing);
      s := Grow(t0, s, Loop(h.cmac, h.cmvsb, [], c, c + 1));
    }

    ghost predicate Generated()
      requires p.Valid()
      reads this
    {
      && |heads| == |validChannels| == p.NumItr()
      && forall i :: 0 <= i < |heads| ==> heads[i] == HeadOf(p, i) && validChannels[i] == p.ValidChannels(i)
    }

    /** The lists of every iteration. */
    method Generate()
      requires p.Valid() && heads == [] && validChannels == [] && total == []
      modifies this
      ensures Generated() && total == []
    {
      hide HeadOf;
      for itr := 0 to p.NumItr()
        invariant |heads| == |validChannels| == itr && total == []
        invariant forall i :: 0 <= i < itr ==> heads[i] == HeadOf(p, i) && validChannels[i] == p.ValidChannels(i)
      {
        var remainder := 0;
        if p.nHead < (itr + 1) * N_CHANNEL {
          remainder := p.nHead % N_CHANNEL;
        }
        Attention(itr, if remainder == 0 then N_CHANNEL else remainder);
      }
    }

    /** All pairs of iterations. */
    method AppendPairs() returns (ok: bool)
      requires p.Valid() && Generated() && total == []
      modifies this`total
      ensures ok == (p.NumItr() < 2 || (p.len > 0 && p.dhead > 0))
      ensures ok ==> total == Flatten(Pairs(p, p.NumItr() / 2))
    {
      FlattenNothing();
      SomeChannels(p);
      hide HeadOf, Flatten, Pair, DummyMacs, Params.NumItr, Params.ValidChannels, Params.Length, Params.Cols;
      var n := p.NumItr();
      ok := true;
      var i := 0;
      while i + 1 < n
        invariant i % 2 == 0 && i <= n
        invariant ok && (i > 0 ==> p.len > 0 && p.dhead > 0)
        invariant total == Flatten(Pairs(p, i / 2))
      {
        ok := AppendPair(i);
        if !ok {
          return;
        }
        HeadSizes(p, i);
        FlattenAppend(Pairs(p, i / 2),
                      Pair(HeadOf(p, i), HeadOf(p, i + 1), i, DummyMacs(p, i), p.Length(), p.Cols()));
        assert 2 * ((i + 2) / 2 - 1) == i;
        i := i + 2;
      }
    }

    /**
     * Generates every iteration, then the trace. With two iterations or more and an empty
     * sequence or head dimension the dummy MAC is missing, and the generator fails.
     */
    method RunAttention() returns (ok: bool)
      requires p.Valid() && heads == [] && validChannels == [] && total == []
      modifies this
      ensures ok == (p.NumItr() < 2 || (p.len > 0 && p.dhead > 0))
      ensures ok ==> total == Commands(p)
    {
      Generate();
      hide HeadOf, Flatten, Solo, Pairs, Params.NumItr, Params.Length, Params.Cols;
      ok := AppendPairs();
      var n := p.NumItr();
      if ok && n % 2 != 0 {
        AppendSolo(n - 1);
        FlattenAppend(Pairs(p, n / 2), Solo(HeadOf(p, n - 1), p.Length(), p.Cols()));
      }
      assert n % 2 == 0 ==> Script(p) == Pairs(p, n / 2);
    }
  }

  // ---- the steps of the interleaving, flattened ------------------------------------------

  lemma SliceGrows<T>(s: seq<T>, a: nat, b: nat)
    requires a <= b < |s|
    ensures s[a..b + 1] == s[a..b] + [s[b]]
  {
  }

  lemma ConcatStep(rows: seq<seq<Cmd>>, row: seq<Cmd>)
    ensures Concat(rows + [row]) == Concat(rows) + row
  {
    ConcatAppend(rows, [row]);
    ConcatOne(row);
  }

  lemma Regroup(a: seq<Cmd>, b: seq<Cmd>, c: seq<Cmd>)
    ensures a + b + c == a + (b + c) && a + [] == a
  {
  }

  lemma RelabelNone()
    ensures Relabel([], 0, DummyMac) == []
  {
  }

  lemma RelabelStep(cmds: seq<Cmd>, cmd: Cmd, itr: int, role: Role)
    ensures Relabel(cmds + [cmd], itr, role) == Relabel(cmds, itr, role) + [cmd.(itr := itr, role := role)]
  {
    assert (cmds + [cmd])[..|cmds|] == cmds;
  }

  lemma PrefixStep(row: seq<Cmd>, j: nat, itr: int, role: Role)
    requires j < |row|
    ensures Relabel(row[..j + 1], itr, role) == Relabel(row[..j], itr, role) + [row[j].(itr := itr, role := role)]
  {
    RelabelStep(row[..j], row[j], itr, role);
    assert row[..j + 1] == row[..j] + [row[j]];
  }

  lemma PassFlattens(ins: seq<seq<Cmd>>, outs: seq<seq<Cmd>>, extras: seq<seq<Cmd>>, length: nat, j: nat)
    ensures Flatten(Pass(ins, outs, extras, length, j)) ==
            (if j != length then ListAt(ins, j) else []) + (if j != 0 then ListAt(outs, j - 1) else []) +
            ListAt(extras, j) + (if j != length then Barriers() else [])
  {
    hide Flatten, Barriers, ListAt;
    var a, b, c, d := EmitIf(j != length, ListAt(ins, j)), EmitIf(j != 0, ListAt(outs, j - 1)),
                      [Emit(ListAt(extras, j))], BarIf(j != length);
    FlattenNothing();
    FlattenOne(Emit(ListAt(ins, j)));
    FlattenOne(Emit(ListAt(outs, j - 1)));
    FlattenOne(Emit(ListAt(extras, j)));
    FlattenOne(Bar);
    FlattenAppend(a, b);
    FlattenAppend(a + b, c);
    FlattenAppend(a + b + c, d);
  }

  lemma FlattenThree(before: seq<Cmd>, x: seq<Cmd>, y: seq<Cmd>)
    ensures before + Flatten([Emit(x), Emit(y), Bar]) == before + x + y + Barriers()
    ensures before + Flatten([Emit(x), Bar]) == before + x + Barriers()
  {
    hide Flatten, Barriers;
    FlattenOne(Emit(x));
    FlattenOne(Emit(y));
    FlattenOne(Bar);
    FlattenAppend([Emit(x)], [Emit(y)]);
    FlattenAppend([Emit(x)] + [Emit(y)], [Bar]);
    FlattenAppend([Emit(x)], [Bar]);
    assert [Emit(x)] + [Emit(y)] + [Bar] == [Emit(x), Emit(y), Bar];
    assert [Emit(x)] + [Bar] == [Emit(x), Bar];
  }

  /** Emitting one more part of a script. */
  lemma Grow(before: seq<Cmd>, s: seq<Step>, t: seq<Step>) returns (u: seq<Step>)
    ensures u == s + t && before + Flatten(u) == before + Flatten(s) + Flatten(t)
  {
    hide Flatten;
    u := s + t;
    FlattenAppend(s, t);
  }

  /** What pass j of `length` emits of a list that is spread over all passes. */
  function EarlyChunk(list: seq<Cmd>, length: nat, j: nat): seq<Cmd> {
    if j < length then Chunk(list, j, |list| / length) else []
  }

  lemma CeilHalf(n: nat)
    ensures n > 0 ==> CeilDiv(n, 2) > 0
  {
  }

  /** What pass j adds. */
  lemma ExtraAt(extra: Extra, length: nat, j: nat)
    requires j <= length
    ensures ListAt(ExtraLists(extra, length), j) ==
            match extra
            case Nothing => []
            case Inputs(wrgb, _) => EarlyChunk(wrgb, length, j)
            case Back(sfm, mvgb, _) => (if j == 0 then sfm else []) + LateChunk(mvgb, length, j)
  {
    hide Chunk, LateChunk;
  }

  // ---- sizes -----------------------------------------------------------------------------

  lemma Counts(p: Params, itr: nat)
    requires p.Valid()
    ensures |HeadOf(p, itr).wrgb| == InputCount(p, p.ValidChannels(itr))
    ensures |HeadOf(p, itr).mvgb| == BackCount(p, p.ValidChannels(itr))
  {
    PartLanesCount(PimWrGb, itr, ScoreIn, p.KeyAddr(itr), ScoreInParts(p.mode), p.Cols(), p.ValidChannels(itr));
    PartLanesCount(PimMvGb, itr, ContextIn, p.ValAddr(itr), ContextInParts(p.mode), p.MvgbCols(), p.ValidChannels(itr));
  }

  lemma NoDummy(p: Params, i: nat)
    requires p.Valid()
    ensures i > 0 ==> DummyMacs(p, i) == []
  {
  }

  lemma SomeChannels(p: Params)
    ensures p.ValidChannels(0) > 0
  {
  }

  /** There is a first MAC on every channel unless a dimension is zero. */
  lemma FirstRow(p: Params)
    requires p.Valid() && p.ValidChannels(0) > 0
    ensures var h, v := HeadOf(p, 0), p.ValidChannels(0);
            && (|h.mac| > 0 <==> p.len > 0)
            && (|h.mac| > 0 ==> (|h.mac[0]| >= v <==> p.dhead > 0) && (p.dhead == 0 ==> |h.mac[0]| == 0))
  {
    var v := p.ValidChannels(0);
    HeadSizes(p, 0);
    if p.Rows() > 0 {
      RowOfScoreMacs(p, p.Rows());
      MacRowCount(p.mode, 0, ScoreMac(0), p.KeyAddr(0), 0, p.Cols(), p.Cols(), v);
      ColsZero(p);
      if p.dhead > 0 {
        MulAtLeast(p.Cols(), v);
      }
    }
  }

  lemma ColsZero(p: Params)
    requires p.Valid()
    ensures p.Cols() == 0 <==> p.dhead == 0
  {
    var b := p.ColUnits() * p.nMac;
    MulAtLeast(p.ColUnits(), p.nMac);
    if p.dhead > 0 {
      DivUnique(b, b, 1);
      DivMod(p.dhead + b - 1, b);
      MulAtLeast(1, b);
      assert p.dhead + b - 1 >= b;
    } else {
      DivUnique(b - 1, b, 0);
    }
  }

  lemma {:induction false} RowOfScoreMacs(p: Params, rows: nat)
    requires p.Valid() && rows > 0
    ensures ScoreMacs(p, 0, rows)[0] ==
            MacRow(p.mode, 0, ScoreMac(0), p.KeyAddr(0), 0, p.Cols(), p.Cols(), p.ValidChannels(0))
  {
    hide MacRow, Params.Cols, Params.ValidChannels;
    if rows <= 1 {
    } else {
      RowOfScoreMacs(p, rows - 1);
    }
  }
}
