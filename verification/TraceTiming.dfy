/** When each command of a trace is emitted, counted in barriers, and what that separates. */
module TraceTiming {
  import opened PimTypes
  import opened TraceLayout
  import opened TraceScript

  /** The number of barrier steps. */
  function Bars(s: seq<Step>): nat {
    if s == [] then 0 else Bars(s[..|s| - 1]) + if s[|s| - 1] == Bar then 1 else 0
  }

  lemma {:induction false} BarsAppend(s: seq<Step>, t: seq<Step>)
    ensures Bars(s + t) == Bars(s) + Bars(t)
  {
    if t == [] {
      assert s + t == s;
    } else {
      var n := |t| - 1;
      BarsAppend(s, t[..n]);
      assert (s + t)[..|s + t| - 1] == s + t[..n];
    }
  }

  // ---- the time windows ------------------------------------------------------------------

  /** A pair of iterations takes this many barriers. */
  function PairBars(p: Params): nat
    requires p.Valid()
  {
    1 + 2 * p.Length() + 2 * p.Cols()
  }

  /** Whether an iteration has no partner. */
  predicate IsSolo(p: Params, itr: nat) {
    p.NumItr() % 2 == 1 && itr == p.NumItr() - 1
  }

  function Base(p: Params, itr: nat): nat
    requires p.Valid()
  {
    (itr / 2) * PairBars(p)
  }

  /** The fewest and the most barriers before a command; `Never` when it is not emitted at all. */
  datatype Span = Between(lo: nat, hi: nat) | Any | Never

  function Window(p: Params, itr: nat, role: Role): Span
    requires p.Valid()
  {
    if itr % 2 == 1 then SecondWindow(p, Base(p, itr), role) else FirstWindow(p, Base(p, itr), IsSolo(p, itr), role)
  }

  /** The second iteration of a pair that starts after `b` barriers. */
  function SecondWindow(p: Params, b: nat, role: Role): Span
    requires p.Valid()
  {
    var n, c := p.Length(), p.Cols();
    match role
    case ScoreIn => Between(b + 1, b + n)
    case ScoreMac(r) => if r / 16 < n then At(b + 1 + n + r / 16) else Never
    case ScoreOut(g) => if g < n then At(b + 2 + n + g) else Never
    case Softmax => At(b + 1 + 2 * n)
    case ContextIn => Between(b + 1 + 2 * n + c / 2, b + 2 * n + c)
    case ReplayMac(r) => if r < c then At(b + 1 + 2 * n + c + r) else Never
    case ReplayOut(r) => At(b + 2 + 2 * n + c + r)
    case ContextMac(_) => Never
    case ContextOut(_) => Never
    case DummyMac => Any
    case Sync => Any
  }

  /** The first iteration of a pair, or one without a partner; without rows there is no context. */
  function FirstWindow(p: Params, b: nat, solo: bool, role: Role): Span
    requires p.Valid()
  {
    var n := p.Length();
    var d := if solo then 1 else n;
    match role
    case ScoreIn => At(b)
    case ScoreMac(r) => if r / 16 < n then At(b + 1 + r / 16) else Never
    case ScoreOut(g) => if g < n then At(b + 2 + g) else Never
    case Softmax => At(b + 1 + n)
    case ContextIn => Between(b + 1 + n + d / 2, b + n + d)
    case ContextMac(r) => if n > 0 then At(b + 1 + n + d + r) else Never
    case ContextOut(r) => At(b + 2 + n + d + r)
    case ReplayMac(_) => Never
    case ReplayOut(_) => Never
    case DummyMac => Any
    case Sync => Any
  }

  function At(e: nat): Span {
    Between(e, e)
  }

  predicate InWindow(p: Params, itr: int, role: Role, e: nat)
    requires p.Valid()
  {
    itr >= 0 ==>
      match Window(p, itr, role)
      case Between(lo, hi) => lo <= e <= hi
      case Any => true
      case Never => false
  }

  /** The request type that a role calls for. */
  predicate Serves(kind: ReqType, role: Role) {
    match role
    case ScoreIn => kind == PimWrGb
    case ScoreOut(_) => kind == PimMvSb
    case Softmax => kind == PimSfm
    case ContextIn => kind == PimMvGb
    case ContextOut(_) => kind == PimMvSb
    case ReplayOut(_) => kind == PimMvSb
    case Sync => kind == PimBarrier
    case _ => kind in {PimMacAb, PimMacSb, PimMacPb}
  }

  predicate Works(cmd: Cmd) {
    Serves(cmd.kind, cmd.role) && cmd.role != Sync
  }

  /** All commands are what their roles call for, not barriers, and may be emitted after `e` barriers. */
  ghost predicate AllIn(p: Params, cmds: seq<Cmd>, e: nat)
    requires p.Valid()
  {
    forall i :: 0 <= i < |cmds| ==> InWindow(p, cmds[i].itr, cmds[i].role, e) && Works(cmds[i])
  }

  /** Started after `e` barriers, the script emits every command in its window. */
  ghost predicate Timed(p: Params, s: seq<Step>, e: nat)
    requires p.Valid()
  {
    s == [] ||
    (Timed(p, s[..|s| - 1], e) &&
     (s[|s| - 1].Emit? ==> AllIn(p, s[|s| - 1].cmds, e + Bars(s[..|s| - 1]))))
  }

  lemma {:induction false} TimedAppend(p: Params, s: seq<Step>, t: seq<Step>, e: nat)
    requires p.Valid() && Timed(p, s, e) && Timed(p, t, e + Bars(s))
    ensures Timed(p, s + t, e) && Bars(s + t) == Bars(s) + Bars(t)
  {
    BarsAppend(s, t);
    if t == [] {
      assert s + t == s;
    } else {
      var n := |t| - 1;
      TimedAppend(p, s, t[..n], e);
      assert (s + t)[..|s + t| - 1] == s + t[..n];
    }
  }

  lemma TimedOne(p: Params, step: Step, e: nat)
    requires p.Valid() && (step.Emit? ==> AllIn(p, step.cmds, e))
    ensures Timed(p, [step], e) && Bars([step]) == if step == Bar then 1 else 0
  {
    assert [step][..0] == [];
    assert Timed(p, [], e) && Bars([]) == 0;
  }

  /** Four optional steps in a row. */
  lemma TimedStep(p: Params, a: bool, x: seq<Cmd>, b: bool, y: seq<Cmd>, z: seq<Cmd>, e: nat)
    requires p.Valid()
    requires a ==> AllIn(p, x, e)
    requires b ==> AllIn(p, y, e)
    requires AllIn(p, z, e)
    ensures var s := EmitIf(a, x) + EmitIf(b, y) + [Emit(z)] + BarIf(a);
            Timed(p, s, e) && Bars(s) == if a then 1 else 0
  {
    hide AllIn;
    if a {
      TimedOne(p, Emit(x), e);
    }
    if b {
      TimedOne(p, Emit(y), e);
    }
    TimedOne(p, Emit(z), e);
    TimedOne(p, Bar, e);
    assert Timed(p, [], e) && Bars([]) == 0;
    TimedAppend(p, EmitIf(a, x), EmitIf(b, y), e);
    TimedAppend(p, EmitIf(a, x) + EmitIf(b, y), [Emit(z)], e);
    TimedAppend(p, EmitIf(a, x) + EmitIf(b, y) + [Emit(z)], BarIf(a), e);
  }

  // ---- labels ----------------------------------------------------------------------------

  ghost predicate Labelled(cmds: seq<Cmd>, itr: int, role: Role) {
    forall i :: 0 <= i < |cmds| ==> cmds[i].itr == itr && cmds[i].role == role && Works(cmds[i])
  }

  lemma {:induction false} LanesLabelled(kind: ReqType, itr: int, role: Role, addr: nat, valid: nat)
    requires Serves(kind, role) && role != Sync
    ensures Labelled(Lanes(kind, itr, role, addr, valid), itr, role)
  {
    if valid == 0 {
    } else {
      LanesLabelled(kind, itr, role, addr, valid - 1);
    }
  }

  lemma {:induction false} ColumnsLabelled(kind: ReqType, itr: int, role: Role, addr: nat, cols: nat, valid: nat)
    requires Serves(kind, role) && role != Sync
    ensures Labelled(ColumnLanes(kind, itr, role, addr, cols, valid), itr, role)
  {
    if cols == 0 {
    } else {
      ColumnsLabelled(kind, itr, role, addr, cols - 1, valid);
      LanesLabelled(kind, itr, role, addr + cols - 1, valid);
    }
  }

  lemma {:induction false} PartsLabelled(kind: ReqType, itr: int, role: Role, base: nat, parts: seq<nat>, cols: nat, valid: nat)
    requires Serves(kind, role) && role != Sync
    ensures Labelled(PartLanes(kind, itr, role, base, parts, cols, valid), itr, role)
  {
    if parts == [] {
    } else {
      PartsLabelled(kind, itr, role, base, parts[..|parts| - 1], cols, valid);
      ColumnsLabelled(kind, itr, role, base + parts[|parts| - 1], cols, valid);
    }
  }

  lemma {:induction false} RowLabelled(mode: Mode, itr: int, role: Role, base: nat, row: nat, width: nat, k: nat, valid: nat)
    requires Serves(MacKind(mode), role) && role != Sync
    ensures Labelled(MacRow(mode, itr, role, base, row, width, k, valid), itr, role)
  {
    if k == 0 {
    } else {
      RowLabelled(mode, itr, role, base, row, width, k - 1, valid);
      LanesLabelled(MacKind(mode), itr, role, base + MacOffset(mode, k - 1 + row * width), valid);
    }
  }

  lemma {:induction false} RelabelLabelled(cmds: seq<Cmd>, itr: int, role: Role, itr0: int, role0: Role)
    requires Labelled(cmds, itr0, role0) && role != Sync
    requires forall kind :: Serves(kind, role0) ==> Serves(kind, role)
    ensures Labelled(Relabel(cmds, itr, role), itr, role)
  {
    if cmds == [] {
    } else {
      RelabelLabelled(cmds[..|cmds| - 1], itr, role, itr0, role0);
    }
  }

  /** The lists of an iteration carry its number and their roles. */
  ghost predicate HeadLabelled(h: Head, itr: int) {
    && Labelled(h.wrgb, itr, ScoreIn) && Labelled(h.sfm, itr, Softmax) && Labelled(h.mvgb, itr, ContextIn)
    && (forall n :: 0 <= n < |h.mac| ==> Labelled(h.mac[n], itr, ScoreMac(n)))
    && (forall n :: 0 <= n < |h.mvsb| ==> Labelled(h.mvsb[n], itr, ScoreOut(n)))
    && (forall n :: 0 <= n < |h.cmac| ==> Labelled(h.cmac[n], itr, ContextMac(n)))
    && (forall n :: 0 <= n < |h.cmvsb| ==> Labelled(h.cmvsb[n], itr, ContextOut(n)))
  }

  lemma {:induction false} ScoreMacsLabelled(p: Params, itr: nat, rows: nat)
    requires p.Valid()
    ensures forall n :: 0 <= n < rows ==> Labelled(ScoreMacs(p, itr, rows)[n], itr, ScoreMac(n))
  {
    hide Labelled, PartLanes, MacRow, Params.KeyAddr, Params.ValAddr, Params.ValidChannels;
    if rows == 0 {
    } else {
      ScoreMacsLabelled(p, itr, rows - 1);
      RowLabelled(p.mode, itr, ScoreMac(rows - 1), p.KeyAddr(itr), rows - 1, p.Cols(), p.Cols(), p.ValidChannels(itr));
    }
  }

  lemma {:induction false} ScoreOutsLabelled(p: Params, itr: nat, groups: nat)
    ensures forall n :: 0 <= n < groups ==> Labelled(ScoreOuts(p, itr, groups)[n], itr, ScoreOut(n))
  {
    hide Labelled, PartLanes, MacRow, Params.KeyAddr, Params.ValAddr, Params.ValidChannels;
    if groups == 0 {
    } else {
      ScoreOutsLabelled(p, itr, groups - 1);
      PartsLabelled(PimMvSb, itr, ScoreOut(groups - 1), p.KeyAddr(itr), ScoreOutParts(p.mode), 1, p.ValidChannels(itr));
    }
  }

  lemma {:induction false} ContextMacsLabelled(p: Params, itr: nat, rows: nat)
    ensures forall n :: 0 <= n < rows ==> Labelled(ContextMacs(p, itr, rows)[n], itr, ContextMac(n))
  {
    hide Labelled, PartLanes, MacRow, Params.KeyAddr, Params.ValAddr, Params.ValidChannels;
    if rows == 0 {
    } else {
      ContextMacsLabelled(p, itr, rows - 1);
      RowLabelled(p.mode, itr, ContextMac(rows - 1), p.ValAddr(itr), rows - 1, p.Rows(), p.Rows(), p.ValidChannels(itr));
    }
  }

  lemma {:induction false} ContextOutsLabelled(p: Params, itr: nat, rows: nat)
    ensures forall n :: 0 <= n < rows ==> Labelled(ContextOuts(p, itr, rows)[n], itr, ContextOut(n))
  {
    hide Labelled, PartLanes, MacRow, Params.KeyAddr, Params.ValAddr, Params.ValidChannels;
    if rows == 0 {
    } else {
      ContextOutsLabelled(p, itr, rows - 1);
      PartsLabelled(PimMvSb, itr, ContextOut(rows - 1), p.ValAddr(itr), ContextOutParts(p.mode), 1, p.ValidChannels(itr));
    }
  }

  lemma HeadOfLabelled(p: Params, itr: nat)
    requires p.Valid()
    ensures HeadLabelled(HeadOf(p, itr), itr)
  {
    hide Labelled;
    PartsLabelled(PimWrGb, itr, ScoreIn, p.KeyAddr(itr), ScoreInParts(p.mode), p.Cols(), p.ValidChannels(itr));
    ScoreMacsLabelled(p, itr, p.Rows());
    ScoreOutsLabelled(p, itr, p.Length());
    LanesLabelled(PimSfm, itr, Softmax, 0, p.ValidChannels(itr));
    PartsLabelled(PimMvGb, itr, ContextIn, p.ValAddr(itr), ContextInParts(p.mode), p.MvgbCols(), p.ValidChannels(itr));
    ContextMacsLabelled(p, itr, p.Cols());
    ContextOutsLabelled(p, itr, p.Cols());
  }

  lemma LabelledAllIn(p: Params, cmds: seq<Cmd>, itr: int, role: Role, e: nat)
    requires p.Valid() && Labelled(cmds, itr, role) && InWindow(p, itr, role, e)
    ensures AllIn(p, cmds, e)
  {
    hide InWindow;
  }

  lemma ChunkLabelled(cmds: seq<Cmd>, itr: int, role: Role, j: nat, stride: nat)
    requires Labelled(cmds, itr, role)
    ensures Labelled(Chunk(cmds, j, stride), itr, role)
  {
  }

  lemma PrefixLabelled(cmds: seq<Cmd>, itr: int, role: Role, n: nat)
    requires Labelled(cmds, itr, role) && n <= |cmds|
    ensures Labelled(cmds[..n], itr, role)
  {
  }

  lemma {:induction false} ConcatAllIn(p: Params, lists: seq<seq<Cmd>>, e: nat)
    requires p.Valid() && forall n :: 0 <= n < |lists| ==> AllIn(p, lists[n], e)
    ensures AllIn(p, Concat(lists), e)
  {
    hide InWindow;
    if lists == [] {
    } else {
      ConcatAllIn(p, lists[..|lists| - 1], e);
    }
  }
}
