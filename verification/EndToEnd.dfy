/** From the generator to the last DRAM command: a generated trace runs without hazards. */
module EndToEnd {
  import opened Arith
  import opened PimTypes
  import opened TraceText
  import opened TraceLayout
  import opened TraceScript
  import opened TraceTiming
  import opened TraceHazards
  import opened TraceEmission
  import TraceGen
  import opened MemoryLayout
  import opened ControllerState
  import opened ControllerSafety
  import opened PimOnlyRuns
  import opened SystemState
  import opened SystemSafety

  /** Every command has a name in the file format. */
  predicate AllNamed(cmds: seq<Cmd>) {
    forall i :: 0 <= i < |cmds| ==> Name(cmds[i].kind).Some?
  }

  lemma PimIsNamed(kind: ReqType)
    requires IsPim(kind)
    ensures Name(kind).Some?
  {
  }

  lemma GeneratedAreNamed(p: Params)
    requires p.Valid()
    ensures AllNamed(Commands(p))
  {
    hide Commands, IsPim, Name;
    var total := Commands(p);
    forall i | 0 <= i < |total|
      ensures Name(total[i].kind).Some?
    {
      OnlyPimCommands(p, total, i);
      PimIsNamed(total[i].kind);
    }
  }

  /** The lines of the trace file. */
  function TraceFile(cmds: seq<Cmd>): (lines: seq<string>)
    requires AllNamed(cmds)
    ensures |lines| == |cmds|
    ensures forall i :: 0 <= i < |cmds| ==> lines[i] == PrintLine(cmds[i].kind, cmds[i].addr)
  {
    if cmds == [] then []
    else
      var n := |cmds| - 1;
      TraceFile(cmds[..n]) + [PrintLine(cmds[n].kind, cmds[n].addr)]
  }

  /** The simulator is set up for the HBM of the generators and has read the file `cmds` were printed to. */
  ghost predicate Replays(sc: SysConfig, cmds: seq<Cmd>) {
    && sc.Valid() && sc.bits == HBM_BITS && sc.txOffset == HBM_TX
    && AllNamed(cmds) && ParseFile(TraceFile(cmds)) == Some(sc.trace)
  }

  /** The frontend reads exactly the commands that were generated. */
  lemma SameCommands(sc: SysConfig, cmds: seq<Cmd>)
    requires Replays(sc, cmds)
    ensures |sc.trace| == |cmds|
    ensures forall i :: 0 <= i < |cmds| ==> sc.trace[i] == Trace(cmds[i].kind, cmds[i].addr)
  {
    hide ParseLine, PrintLine, ParseFile, Name;
    var lines := TraceFile(cmds);
    ParseFileLines(lines);
    forall i | 0 <= i < |cmds|
      ensures sc.trace[i] == Trace(cmds[i].kind, cmds[i].addr)
    {
      assert ParseLine(lines[i]) == Some(sc.trace[i]);
      PrintParse(cmds[i].kind, cmds[i].addr);
    }
  }

  /** A file is accepted exactly when all its addresses fit 63 bits. */
  lemma FileAccepted(cmds: seq<Cmd>)
    requires AllNamed(cmds)
    ensures ParseFile(TraceFile(cmds)).Some? <==> forall i :: 0 <= i < |cmds| ==> cmds[i].addr < LLONG_LIMIT
  {
    hide ParseLine, PrintLine, ParseFile, Name, TraceFile;
    var lines := TraceFile(cmds);
    ParseFileLines(lines);
    forall i | 0 <= i < |cmds|
      ensures ParseLine(lines[i]).Some? <==> cmds[i].addr < LLONG_LIMIT
    {
      PrintParse(cmds[i].kind, cmds[i].addr);
    }
    if ParseFile(lines).Some? {
      forall i | 0 <= i < |cmds|
        ensures cmds[i].addr < LLONG_LIMIT
      {
        assert ParseLine(lines[i]).Some?;
      }
    }
  }

  lemma BarrierChannel(sc: SysConfig, c: nat)
    requires sc.bits == HBM_BITS && sc.txOffset == HBM_TX && c < N_CHANNEL
    ensures ChannelOf(sc, BarrierOf(c).addr) == c
  {
    StridesDecode(c, 0, 0, 0, 0);
  }

  lemma SixteenChannels(sc: SysConfig)
    requires sc.Valid() && sc.bits == HBM_BITS
    ensures |sc.ctrls| == N_CHANNEL
  {
    Powers();
  }

  /**
   * No hazard, end to end: for every placement, sequence length, head dimension and head
   * count, on every run and for every device, a command that must follow another one of its
   * channel is done only after it.
   */
  lemma NoHazard(p: Params, total: seq<Cmd>, sc: SysConfig, steps: seq<SystemState.Step>, c: nat, i: nat, j: nat)
    requires p.Valid() && total == Commands(p) && Replays(sc, total)
    requires i < |total| && j < |total| && MustFollow(total[i], total[j])
    requires c < N_CHANNEL && ChannelOf(sc, total[i].addr) == c && ChannelOf(sc, total[j].addr) == c
    ensures |sc.trace| == |total| && |Run(sc, steps).0.ctrls| == N_CHANNEL
    ensures DoneInOrder(sc, Run(sc, steps).0.ctrls[c], i, j)
  {
    hide Commands, Run, ParseFile, DoneInOrder, Decode;
    SameCommands(sc, total);
    SixteenChannels(sc);
    OnlyPimCommands(p, total, i);
    OnlyPimCommands(p, total, j);
    BarrierChannel(sc, c);
    var m := HazardFree(p, total, i, j, c);
    BarrierSafety(sc, steps, c, i, m, j);
  }

  /** When the run is over, both are done, exactly once and in that order. */
  lemma FinishedInOrder(p: Params, total: seq<Cmd>, sc: SysConfig, steps: seq<SystemState.Step>, c: nat, i: nat, j: nat)
      returns (x: nat, y: nat)
    requires p.Valid() && total == Commands(p) && Replays(sc, total)
    requires i < |total| && j < |total| && MustFollow(total[i], total[j])
    requires c < N_CHANNEL && ChannelOf(sc, total[i].addr) == c && ChannelOf(sc, total[j].addr) == c
    requires Finished(sc, Run(sc, steps).0)
    ensures |Run(sc, steps).0.ctrls| == N_CHANNEL
    ensures var s := Run(sc, steps).0.ctrls[c];
            && x < y < |s.done| && s.done[x] == Entry(i, total[i].kind) && s.done[y] == Entry(j, total[j].kind)
            && Times(s.done, s.done[x]) == 1 && Times(s.done, s.done[y]) == 1
  {
    hide Commands, Run, ParseFile, DoneInOrder, Decode, Finished;
    NoHazard(p, total, sc, steps, c, i, j);
    SameCommands(sc, total);
    OnlyPimCommands(p, total, i);
    OnlyPimCommands(p, total, j);
    FinishedMeansAllDone(sc, steps, c, i);
    FinishedMeansAllDone(sc, steps, c, j);
    var s := Run(sc, steps).0.ctrls[c];
    y := PlaceOf(s.done, Entry(j, total[j].kind));
    x := PlaceBefore(sc, s, i, j, y);
  }

  lemma PlaceOf(done: seq<Entry>, e: Entry) returns (y: nat)
    requires Times(done, e) == 1
    ensures y < |done| && done[y] == e
  {
    assert e in done;
    y :| 0 <= y < |done| && done[y] == e;
  }

  lemma PlaceBefore(sc: SysConfig, s: State, i: nat, j: nat, y: nat) returns (x: nat)
    requires i < |sc.trace| && j < |sc.trace| && DoneInOrder(sc, s, i, j)
    requires y < |s.done| && s.done[y] == Entry(j, sc.trace[j].kind)
    ensures x < y && s.done[x] == Entry(i, sc.trace[i].kind)
  {
    x :| 0 <= x < y && s.done[..y][x] == Entry(i, sc.trace[i].kind);
  }

  /** A generated trace never uses the active buffers, so nothing is ever lost. */
  lemma GeneratedRunsAreLean(p: Params, sc: SysConfig, steps: seq<SystemState.Step>)
    requires p.Valid() && Replays(sc, Commands(p))
    requires forall c :: 0 <= c < |sc.ctrls| ==> RefreshNeverOpens(sc.ctrls[c].dev)
    ensures AllLean(Run(sc, steps).0)
  {
    hide Commands, Run, ParseFile, RefreshNeverOpens, AllLean;
    var total := Commands(p);
    SameCommands(sc, total);
    forall i | 0 <= i < |total|
      ensures IsPim(sc.trace[i].kind)
    {
      OnlyPimCommands(p, total, i);
    }
    EveryPimRunIsLean(sc, steps);
  }

  // ---- the theorem is about something ----------------------------------------------------

  lemma {:induction false} InConcat(lists: seq<seq<Cmd>>, n: nat, x: Cmd)
    requires n < |lists| && x in lists[n]
    ensures x in Concat(lists)
  {
    if n == |lists| - 1 {
    } else {
      InConcat(lists[..|lists| - 1], n, x);
    }
  }

  lemma Emitted(p: Params, x: Cmd) returns (i: nat)
    requires p.Valid() && 0 <= x.itr < p.NumItr() && Own(x.role) && InHead(EmittedHead(p, x.itr), x) > 0
    ensures i < |Commands(p)| && Commands(p)[i] == x
  {
    hide Commands, InHead, EmittedHead;
    EachCommandOnce(p, x);
    assert x in Commands(p);
    i :| 0 <= i < |Commands(p)| && Commands(p)[i] == x;
  }

  /** Every trace whose addresses fit 63 bits is replayed by some simulator, with any controllers. */
  lemma SomeSimulator(p: Params, ctrls: seq<Config>) returns (sc: SysConfig)
    requires p.Valid() && |ctrls| == N_CHANNEL
    requires forall i :: 0 <= i < |Commands(p)| ==> Commands(p)[i].addr < LLONG_LIMIT
    ensures sc.ctrls == ctrls && Replays(sc, Commands(p))
  {
    hide Commands, ParseFile, AllNamed;
    GeneratedAreNamed(p);
    FileAccepted(Commands(p));
    Powers();
    sc := SysConfig(HBM_BITS, HBM_TX, ParseFile(TraceFile(Commands(p))).value, ctrls);
  }

  /** Every trace of a non-empty attention has commands that must follow others of the same channel. */
  lemma HazardsArise(p: Params, sc: SysConfig) returns (i: nat, j: nat)
    requires p.Valid() && p.len > 0 && p.dhead > 0 && p.nHead > 0
    requires sc.bits == HBM_BITS && sc.txOffset == HBM_TX
    ensures i < |Commands(p)| && j < |Commands(p)| && MustFollow(Commands(p)[i], Commands(p)[j])
    ensures ChannelOf(sc, Commands(p)[i].addr) == 0 == ChannelOf(sc, Commands(p)[j].addr)
  {
    hide HeadOf, Commands, InHead, EmittedHead, Concat, Params.NumItr, Decode;
    FirstCommands(p);
    var h := HeadOf(p, 0);
    var x, y := h.wrgb[0], h.mac[0][0];
    FirstLabels(p);
    FirstAddresses(p);
    InConcat(h.mac, 0, y);
    FirstIsKept(p, x);
    FirstIsKept(p, y);
    i := Emitted(p, x);
    j := Emitted(p, y);
    BarrierChannel(sc, 0);
    assert BarrierOf(0).addr == 0;
  }

  lemma FirstAddresses(p: Params)
    requires p.Valid() && p.len > 0 && p.dhead > 0 && p.nHead > 0
    ensures |HeadOf(p, 0).wrgb| > 0 && HeadOf(p, 0).wrgb[0].addr == 0
    ensures |HeadOf(p, 0).mac| > 0 && |HeadOf(p, 0).mac[0]| > 0 && HeadOf(p, 0).mac[0][0].addr == 0
  {
    hide HeadOf, Params.Cols, Params.ValidChannels, PartLanes, MacRow, MacOffset, Index;
    FirstCommands(p);
    TraceGen.SomeChannels(p);
    TraceGen.ColsZero(p);
    var v := p.ValidChannels(0);
    FirstOfParts(PimWrGb, 0, ScoreIn, 0, ScoreInParts(p.mode), p.Cols(), v);
    HeadLists(p);
    ScoreRowAt(p, 0, p.Rows(), 0);
    FirstOfRow(p.mode, 0, ScoreMac(0), 0, 0, p.Cols(), p.Cols(), v);
  }

  lemma HeadLists(p: Params)
    requires p.Valid()
    ensures HeadOf(p, 0).wrgb == PartLanes(PimWrGb, 0, ScoreIn, 0, ScoreInParts(p.mode), p.Cols(), p.ValidChannels(0))
    ensures HeadOf(p, 0).mac == ScoreMacs(p, 0, p.Rows())
    ensures p.KeyAddr(0) == 0
  {
    hide PartLanes, Params.Cols, Params.ValidChannels, ScoreMacs, Params.PartitionSize;
  }

  lemma {:induction false} FirstOfLanes(kind: ReqType, itr: int, role: Role, addr: nat, valid: nat)
    requires valid > 0
    ensures Lanes(kind, itr, role, addr, valid)[0].addr == addr
  {
    LanesAt(kind, itr, role, addr, valid, 0);
  }

  lemma {:induction false} FirstOfColumns(kind: ReqType, itr: int, role: Role, addr: nat, cols: nat, valid: nat)
    requires cols > 0 && valid > 0
    ensures var s := ColumnLanes(kind, itr, role, addr, cols, valid); s != [] && s[0].addr == addr
  {
    hide Lanes;
    if cols == 1 {
      FirstOfLanes(kind, itr, role, addr, valid);
    } else {
      FirstOfColumns(kind, itr, role, addr, cols - 1, valid);
    }
  }

  lemma {:induction false} FirstOfParts(kind: ReqType, itr: int, role: Role, base: nat, parts: seq<nat>, cols: nat, valid: nat)
    requires parts != [] && parts[0] == 0 && cols > 0 && valid > 0
    ensures var s := PartLanes(kind, itr, role, base, parts, cols, valid); s != [] && s[0].addr == base
  {
    hide ColumnLanes;
    if |parts| == 1 {
      assert parts[..0] == [];
      FirstOfColumns(kind, itr, role, base, cols, valid);
    } else {
      FirstOfParts(kind, itr, role, base, parts[..|parts| - 1], cols, valid);
    }
  }

  lemma {:induction false} FirstOfRow(mode: Mode, itr: int, role: Role, base: nat, row: nat, width: nat, n: nat, valid: nat)
    requires row == 0 && n > 0 && valid > 0
    ensures var s := MacRow(mode, itr, role, base, row, width, n, valid); s != [] && s[0].addr == base
  {
    hide Lanes;
    if n == 1 {
      FirstOfLanes(MacKind(mode), itr, role, base + MacOffset(mode, 0 + row * width), valid);
    } else {
      FirstOfRow(mode, itr, role, base, row, width, n - 1, valid);
    }
  }

  lemma FirstCommands(p: Params)
    requires p.Valid() && p.len > 0 && p.dhead > 0 && p.nHead > 0
    ensures p.NumItr() > 0 && |HeadOf(p, 0).wrgb| > 0 && |HeadOf(p, 0).mac| > 0 && |HeadOf(p, 0).mac[0]| > 0
  {
    TraceGen.SomeChannels(p);
    TraceGen.FirstRow(p);
    TraceGen.Counts(p, 0);
    TraceGen.ColsZero(p);
    hide HeadOf, Params.Cols, Params.ValidChannels;
    var n := p.Cols() * p.ValidChannels(0);
    MulAtLeast(p.Cols(), p.ValidChannels(0));
    MulAtLeast(|ScoreInParts(p.mode)|, n);
  }

  lemma FirstLabels(p: Params)
    requires p.Valid()
    ensures var h := HeadOf(p, 0);
            && (|h.wrgb| > 0 ==> h.wrgb[0].itr == 0 && h.wrgb[0].role == ScoreIn)
            && (|h.mac| > 0 && |h.mac[0]| > 0 ==> h.mac[0][0].itr == 0 && h.mac[0][0].role == ScoreMac(0))
  {
    hide HeadOf;
    HeadOfLabelled(p, 0);
  }

  lemma FirstIsKept(p: Params, x: Cmd)
    requires p.Valid() && (x in HeadOf(p, 0).wrgb || x in Concat(HeadOf(p, 0).mac))
    ensures InHead(EmittedHead(p, 0), x) > 0
  {
    hide HeadOf, Kept;
  }
}
