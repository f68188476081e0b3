/** What the command lists of an iteration hold, position by position. */
module CommandLists {
  import opened Arith
  import opened PimTypes
  import opened TraceLayout
  import opened TraceScript
  import MemoryLayout

  /** Where the command of part `i`, column `k` and lane `l` stands. */
  function PosOf(cols: nat, valid: nat, i: nat, k: nat, l: nat): nat {
    (i * cols + k) * valid + l
  }

  /**
   * One command for each part, column and lane, each at its own address, and no other: the
   * positions of all parts, columns and lanes are all positions.
   */
  ghost predicate OneEach(list: seq<Cmd>, kind: ReqType, itr: int, role: Role, base: nat, parts: seq<nat>, cols: nat, valid: nat) {
    && |list| == |parts| * (cols * valid)
    && (forall i, k, l :: 0 <= i < |parts| && 0 <= k < cols && 0 <= l < valid ==>
          PosOf(cols, valid, i, k, l) < |list| &&
          list[PosOf(cols, valid, i, k, l)] == Cmd(kind, base + parts[i] + k + l * GS_CH, itr, role))
    && forall pos :: 0 <= pos < |list| ==> Taken(|parts|, cols, valid, pos)
  }

  /** The position belongs to some part, column and lane. */
  ghost predicate Taken(parts: nat, cols: nat, valid: nat, pos: int) {
    exists i, k, l :: 0 <= i < parts && 0 <= k < cols && 0 <= l < valid && PosOf(cols, valid, i, k, l) == pos
  }

  lemma PosInRange(n: nat, cols: nat, valid: nat, i: nat, k: nat, l: nat)
    requires i < n && k < cols && l < valid
    ensures PosOf(cols, valid, i, k, l) < n * (cols * valid)
    ensures PosOf(cols, valid, i, k, l) == i * (cols * valid) + (k * valid + l)
    ensures k * valid + l < cols * valid
  {
    MulLess(l, cols, valid, k);
    MulLess(l + valid * k, n, valid * cols, i);
    Distribute(i, cols, k, valid);
  }

  lemma Distribute(i: nat, cols: nat, k: nat, valid: nat)
    ensures (i * cols + k) * valid == i * (cols * valid) + k * valid
  {
  }

  lemma AllTaken(n: nat, cols: nat, valid: nat, pos: nat)
    requires pos < n * (cols * valid)
    ensures Taken(n, cols, valid, pos)
  {
    var width := cols * valid;
    assert width > 0 && valid > 0;
    var i, rest := pos / width, pos % width;
    DivMod(pos, width);
    assert pos < width * n;
    DivLess(pos, width, n);
    var k, l := rest / valid, rest % valid;
    DivMod(rest, valid);
    assert rest < valid * cols;
    DivLess(rest, valid, cols);
    PosInRange(n, cols, valid, i, k, l);
    assert PosOf(cols, valid, i, k, l) == pos;
  }

  lemma {:induction false} ColumnAt(kind: ReqType, itr: int, role: Role, addr: nat, cols: nat, valid: nat, k: nat, l: nat)
    requires k < cols && l < valid
    ensures k * valid + l < |ColumnLanes(kind, itr, role, addr, cols, valid)|
    ensures ColumnLanes(kind, itr, role, addr, cols, valid)[k * valid + l] == Cmd(kind, addr + k + l * GS_CH, itr, role)
  {
    hide Lanes;
    ColumnLanesCount(kind, itr, role, addr, cols - 1, valid);
    if k >= cols - 1 {
      LanesAt(kind, itr, role, addr + cols - 1, valid, l);
    } else {
      ColumnAt(kind, itr, role, addr, cols - 1, valid, k, l);
    }
  }

  lemma {:induction false} PartAt(kind: ReqType, itr: int, role: Role, base: nat, parts: seq<nat>, cols: nat, valid: nat, i: nat, k: nat, l: nat)
    requires i < |parts| && k < cols && l < valid
    ensures var s := PartLanes(kind, itr, role, base, parts, cols, valid);
            i * (cols * valid) + (k * valid + l) < |s| &&
            s[i * (cols * valid) + (k * valid + l)] == Cmd(kind, base + parts[i] + k + l * GS_CH, itr, role)
  {
    hide ColumnLanes;
    var n := |parts| - 1;
    PartLanesCount(kind, itr, role, base, parts[..n], cols, valid);
    if i >= n {
      ColumnAt(kind, itr, role, base + parts[n], cols, valid, k, l);
    } else {
      PartAt(kind, itr, role, base, parts[..n], cols, valid, i, k, l);
    }
  }

  lemma PartLanesHold(kind: ReqType, itr: int, role: Role, base: nat, parts: seq<nat>, cols: nat, valid: nat)
    ensures OneEach(PartLanes(kind, itr, role, base, parts, cols, valid), kind, itr, role, base, parts, cols, valid)
  {
    hide PartLanes, PosOf, Taken;
    var list := PartLanes(kind, itr, role, base, parts, cols, valid);
    PartLanesCount(kind, itr, role, base, parts, cols, valid);
    forall i, k, l | 0 <= i < |parts| && 0 <= k < cols && 0 <= l < valid
      ensures PosOf(cols, valid, i, k, l) < |list| &&
              list[PosOf(cols, valid, i, k, l)] == Cmd(kind, base + parts[i] + k + l * GS_CH, itr, role)
    {
      PosInRange(|parts|, cols, valid, i, k, l);
      PartAt(kind, itr, role, base, parts, cols, valid, i, k, l);
    }
    forall pos | 0 <= pos < |list|
      ensures Taken(|parts|, cols, valid, pos)
    {
      AllTaken(|parts|, cols, valid, pos);
    }
  }

  /** One part and one column. */
  lemma LanesHold(kind: ReqType, itr: int, role: Role, addr: nat, valid: nat)
    ensures OneEach(Lanes(kind, itr, role, addr, valid), kind, itr, role, addr, [0], 1, valid)
  {
    PartLanesHold(kind, itr, role, addr, [0], 1, valid);
    hide OneEach;
    assert [0][..0] == [];
    assert PartLanes(kind, itr, role, addr, [], 1, valid) == [];
    assert ColumnLanes(kind, itr, role, addr, 0, valid) == [];
    assert ColumnLanes(kind, itr, role, addr, 1, valid) == Lanes(kind, itr, role, addr, valid);
  }

  lemma {:induction false} ScoreOutsAt(p: Params, itr: nat, groups: nat, g: nat)
    requires g < groups
    ensures ScoreOuts(p, itr, groups)[g] ==
            PartLanes(PimMvSb, itr, ScoreOut(g), p.KeyAddr(itr), ScoreOutParts(p.mode), 1, p.ValidChannels(itr))
  {
    hide PartLanes, Params.KeyAddr, Params.ValidChannels;
    if g >= groups - 1 {
    } else {
      ScoreOutsAt(p, itr, groups - 1, g);
    }
  }

  lemma {:induction false} ContextOutsAt(p: Params, itr: nat, rows: nat, r: nat)
    requires r < rows
    ensures ContextOuts(p, itr, rows)[r] ==
            PartLanes(PimMvSb, itr, ContextOut(r), p.ValAddr(itr), ContextOutParts(p.mode), 1, p.ValidChannels(itr))
  {
    hide PartLanes, Params.ValAddr, Params.ValidChannels;
    if r >= rows - 1 {
    } else {
      ContextOutsAt(p, itr, rows - 1, r);
    }
  }

  /**
   * The lists of an iteration other than the MACs: the query goes to every column of every input
   * part, results leave every output part once per group of score rows and per context row, the
   * softmax runs on every lane, and its result goes to every column of every input part.
   */
  lemma HeadHolds(p: Params, itr: nat)
    requires p.Valid()
    ensures var h, key, val, valid := HeadOf(p, itr), p.KeyAddr(itr), p.ValAddr(itr), p.ValidChannels(itr);
            && OneEach(h.wrgb, PimWrGb, itr, ScoreIn, key, ScoreInParts(p.mode), p.Cols(), valid)
            && OneEach(h.mvgb, PimMvGb, itr, ContextIn, val, ContextInParts(p.mode), p.MvgbCols(), valid)
            && OneEach(h.sfm, PimSfm, itr, Softmax, 0, [0], 1, valid)
            && |h.mvsb| == p.Length() && |h.cmvsb| == p.Cols()
            && (forall g :: 0 <= g < p.Length() ==>
                  OneEach(h.mvsb[g], PimMvSb, itr, ScoreOut(g), key, ScoreOutParts(p.mode), 1, valid))
            && (forall r :: 0 <= r < p.Cols() ==>
                  OneEach(h.cmvsb[r], PimMvSb, itr, ContextOut(r), val, ContextOutParts(p.mode), 1, valid))
  {
    hide OneEach, PartLanes, Lanes, ScoreMacs, ContextMacs, ScoreOuts, ContextOuts;
    hide Params.Cols, Params.Length, Params.MvgbCols, Params.KeyAddr, Params.ValAddr, Params.ValidChannels, Params.Rows;
    var h, key, val, valid := HeadOf(p, itr), p.KeyAddr(itr), p.ValAddr(itr), p.ValidChannels(itr);
    PartLanesHold(PimWrGb, itr, ScoreIn, key, ScoreInParts(p.mode), p.Cols(), valid);
    PartLanesHold(PimMvGb, itr, ContextIn, val, ContextInParts(p.mode), p.MvgbCols(), valid);
    LanesHold(PimSfm, itr, Softmax, 0, valid);
    forall g | 0 <= g < p.Length()
      ensures OneEach(h.mvsb[g], PimMvSb, itr, ScoreOut(g), key, ScoreOutParts(p.mode), 1, valid)
    {
      ScoreOutsAt(p, itr, p.Length(), g);
      PartLanesHold(PimMvSb, itr, ScoreOut(g), key, ScoreOutParts(p.mode), 1, valid);
    }
    forall r | 0 <= r < p.Cols()
      ensures OneEach(h.cmvsb[r], PimMvSb, itr, ContextOut(r), val, ContextOutParts(p.mode), 1, valid)
    {
      ContextOutsAt(p, itr, p.Cols(), r);
      PartLanesHold(PimMvSb, itr, ContextOut(r), val, ContextOutParts(p.mode), 1, valid);
    }
  }

  lemma {:induction false} RelabelAt(cmds: seq<Cmd>, itr: int, role: Role)
    ensures |Relabel(cmds, itr, role)| == |cmds|
    ensures forall k :: 0 <= k < |cmds| ==> Relabel(cmds, itr, role)[k] == cmds[k].(itr := itr, role := role)
  {
    if cmds == [] {
    } else {
      RelabelAt(cmds[..|cmds| - 1], itr, role);
    }
  }

  lemma FirstLanes(p: Params, l: nat)
    requires p.Valid() && p.Rows() > 0 && p.Cols() > 0 && l < p.ValidChannels(0)
    ensures var row := ScoreMacs(p, 0, p.Rows())[0];
            p.ValidChannels(0) <= |row| && row[l] == Cmd(MacKind(p.mode), l * GS_CH, 0, ScoreMac(0))
  {
    hide MacRow, MacKind, Params.Rows, Params.Cols, Params.ValidChannels;
    var pos := MemoryLayout.ScoreMacAt(p, 0, 0, 0, l);
    MulAtLeast(p.Cols(), p.ValidChannels(0));
    assert MemoryLayout.Index(p.Cols(), 0, 0) == 0 && MacOffset(p.mode, 0) == 0 && p.KeyAddr(0) == 0;
  }

  lemma DummiesOfFirstRow(p: Params)
    requires p.Valid() && p.Rows() > 0 && p.Cols() > 0
    ensures var row := ScoreMacs(p, 0, p.Rows())[0];
            p.ValidChannels(0) <= |row| && DummyMacs(p, 0) == Relabel(row[..p.ValidChannels(0)], 0, DummyMac)
  {
    ValidPositive(p);
    FirstLanes(p, 0);
    hide MacRow, ScoreMacs, Params.Rows, Params.Cols, Params.ValidChannels, ScoreOuts, ContextMacs, ContextOuts, PartLanes, Lanes,
         Params.MvgbCols, Relabel;
  }

  lemma ValidPositive(p: Params)
    ensures p.ValidChannels(0) > 0
  {
  }

  /** The dummy MACs of a generator that has some: one for every channel of the first iteration, at its first address. */
  lemma DummiesHold(p: Params)
    requires p.Valid() && p.Rows() > 0 && p.Cols() > 0
    ensures OneEach(DummyMacs(p, 0), MacKind(p.mode), 0, DummyMac, 0, [0], 1, p.ValidChannels(0))
  {
    hide DummyMacs, ScoreMacs, MacKind, Params.Rows, Params.Cols, Params.ValidChannels, OneEach, Relabel;
    var row, valid := ScoreMacs(p, 0, p.Rows())[0], p.ValidChannels(0);
    DummiesOfFirstRow(p);
    RelabelAt(row[..valid], 0, DummyMac);
    forall l: nat | l < valid
      ensures DummyMacs(p, 0)[l] == Cmd(MacKind(p.mode), l * GS_CH, 0, DummyMac)
    {
      FirstLanes(p, l);
    }
    LanesAgain(DummyMacs(p, 0), MacKind(p.mode), valid);
  }

  /** No other iteration has any. */
  lemma NoOtherDummies(p: Params, itr: nat)
    requires p.Valid() && itr > 0
    ensures DummyMacs(p, itr) == []
  {
    hide HeadOf;
  }

  /** A list that holds one command for each lane. */
  lemma LanesAgain(list: seq<Cmd>, kind: ReqType, valid: nat)
    requires |list| == valid && forall l: nat :: l < valid ==> list[l] == Cmd(kind, l * GS_CH, 0, DummyMac)
    ensures OneEach(list, kind, 0, DummyMac, 0, [0], 1, valid)
  {
    forall l: nat | l < valid
      ensures list[l] == Lanes(kind, 0, DummyMac, 0, valid)[l]
    {
      LanesAt(kind, 0, DummyMac, 0, valid, l);
    }
    assert list == Lanes(kind, 0, DummyMac, 0, valid);
    LanesHold(kind, 0, DummyMac, 0, valid);
  }
}
