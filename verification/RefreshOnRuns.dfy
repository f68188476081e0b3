/** Refreshes on every run of the simulator: when they are queued, and what is served before them. */
module RefreshOnRuns {
  import opened PimTypes
  import opened PimScheduler
  import opened ControllerState
  import opened ControllerSafety
  import ControllerRuns
  import opened RefreshPriority
  import opened TraceText
  import opened AddrMapper
  import opened Arith
  import opened SystemState
  import opened SystemSafety
  import opened OneChannel

  // ---- what goes first -------------------------------------------------------------------

  lemma NoActiveBarriers(s: State)
    requires Good(s)
    ensures NoBarriers(s.activeQ)
  {
    hide Conserved;
  }

  /** On every run and in every channel, a cycle that finds a refresh queued follows the rule. */
  lemma EveryRunRefreshesFirst(sc: SysConfig, steps: seq<Step>, c: nat, stale: Command)
    requires sc.Valid() && c < |sc.ctrls|
    ensures |Run(sc, steps).0.ctrls| == |sc.ctrls|
    ensures var s := BeginTick(sc.ctrls[c], Run(sc, steps).0.ctrls[c]).0;
            s.priorityQ != [] ==> RefreshRule(sc.ctrls[c], s, stale)
  {
    hide Run, BeginTick, RefreshRule, Good, ControllerRuns.Refreshed;
    EveryRun(sc, steps);
    var cfg, s := sc.ctrls[c], Run(sc, steps).0.ctrls[c];
    NoActiveBarriers(s);
    ControllerRuns.BeginTickQueues(cfg, s);
    if BeginTick(cfg, s).0.priorityQ != [] {
      RefreshGoesFirst(cfg, BeginTick(cfg, s).0, stale);
    }
  }

  // ---- cadence ---------------------------------------------------------------------------

  ghost predicate AllOnSchedule(sc: SysConfig, sys: System) {
    && sys.clk >= 0 && |sys.ctrls| == |sc.ctrls|
    && forall c :: 0 <= c < |sc.ctrls| ==> ControllerRuns.OnSchedule(sc.ctrls[c], sys.ctrls[c], sys.clk)
  }

  lemma {:induction false} DeliverOnSchedule(sc: SysConfig, sys: System)
    requires WellFormed(sc, sys) && AllOnSchedule(sc, sys)
    ensures AllOnSchedule(sc, Deliver(sc, sys))
    decreases |sc.trace| - sys.count
  {
    hide ControllerRuns.OnSchedule, Send, Decode, ChannelOf;
    if sys.count >= |sc.trace| || !Forwardable(sc.trace[sys.idx].kind) {
    } else {
      var t := sc.trace[sys.idx];
      ChannelInRange(sc, t.addr);
      var c := ChannelOf(sc, t.addr);
      ControllerRuns.SendOnSchedule(sc.ctrls[c], sys.ctrls[c], MakeRequest(sc, t, sys.idx), sys.clk);
      var (sys', ok) := Offer(sc, sys);
      if ok {
        DeliverOnSchedule(sc, sys');
      }
    }
  }

  /** Controllers before `c` have had their cycle, the others not yet. */
  ghost predicate PartlyOnSchedule(sc: SysConfig, sys: System, t: nat, c: nat) {
    && |sys.ctrls| == |sc.ctrls|
    && forall d :: 0 <= d < |sc.ctrls| ==> ControllerRuns.OnSchedule(sc.ctrls[d], sys.ctrls[d], if d < c then t + 1 else t)
  }

  lemma {:induction false} TickFromOnSchedule(sc: SysConfig, sys: System, stale: seq<Command>, t: nat, c: nat)
    requires c <= |sc.ctrls| && PartlyOnSchedule(sc, sys, t, c)
    ensures var (sys', ok) := TickFrom(sc, sys, stale, c);
            ok ==> PartlyOnSchedule(sc, sys', t, |sc.ctrls|)
    decreases |sc.ctrls| - c
  {
    hide ControllerRuns.OnSchedule, Tick;
    if c == |sc.ctrls| {
    } else {
      ControllerRuns.TickOnSchedule(sc.ctrls[c], sys.ctrls[c], StaleFor(stale, c), t);
      var (s', ok) := Tick(sc.ctrls[c], sys.ctrls[c], StaleFor(stale, c));
      if ok {
        TickFromOnSchedule(sc, sys.(ctrls := sys.ctrls[c := s']), stale, t, c + 1);
      }
    }
  }

  lemma InitOnSchedule(cfg: Config)
    requires cfg.nREFI > 0
    ensures ControllerRuns.OnSchedule(cfg, Init(cfg), 0)
  {
    assert 0 / cfg.nREFI == 0;
  }

  /**
   * On every run that has not thrown, every controller has queued floor(clk / nREFI) refreshes
   * for each of its pseudochannels.
   */
  lemma {:induction false} EveryRunOnSchedule(sc: SysConfig, steps: seq<Step>)
    requires sc.Valid() && forall c :: 0 <= c < |sc.ctrls| ==> sc.ctrls[c].nREFI > 0
    ensures Run(sc, steps).1 ==> AllOnSchedule(sc, Run(sc, steps).0)
  {
    hide ControllerRuns.OnSchedule, Deliver, TickFrom;
    if steps == [] {
      forall c | 0 <= c < |sc.ctrls|
        ensures ControllerRuns.OnSchedule(sc.ctrls[c], Init(sc.ctrls[c]), 0)
      {
        InitOnSchedule(sc.ctrls[c]);
      }
    } else {
      EveryRunOnSchedule(sc, steps[..|steps| - 1]);
      var (sys, ok) := Run(sc, steps[..|steps| - 1]);
      if ok {
        match steps[|steps| - 1]
        case FrontendTick => DeliverOnSchedule(sc, sys);
        case MemoryTick(stale) => TickFromOnSchedule(sc, sys.(clk := sys.clk + 1), stale, sys.clk, 0);
      }
    }
  }

  // ---- a refresh that is overtaken -------------------------------------------------------

  /** A device whose banks are waiting to be precharged: refreshes need a precharge that is not ready yet. */
  ghost predicate Precharging(dev: Device) {
    && (forall issued, clk, c, v :: dev.preq(issued, clk, c, v) == if c == REFab then PREA else c)
    && (forall issued, clk, c, v :: dev.ready(issued, clk, c, v) <==> c != PREA)
  }

  lemma SomePrecharging() returns (dev: Device)
    ensures Precharging(dev)
  {
    dev := Device((issued, clk, c, v) => if c == REFab then PREA else c,
                  (issued, clk, c, v) => c != PREA,
                  (issued, clk, c, v) => false);
  }

  /** Nothing is queued but an MV_SB, perhaps. */
  ghost predicate Quiescent(cfg: Config, t: nat, s: State, pims: seq<Request>) {
    && s.clk == t && s.refresher == Refresher(t, cfg.nREFI) && s.issued == []
    && s.pending == [] && s.activeQ == [] && s.priorityQ == [] && s.readQ == [] && s.writeQ == [] && s.pimQ == pims
  }

  lemma NothingChosen(cfg: Config, s: State, first: Option<Command>) returns (s': State)
    requires s.activeQ == [] && s.priorityQ == [] && s.readQ == [] && s.writeQ == [] && s.pimQ == []
    ensures Choose(cfg, s, first) == (s', None) && s' == s.(isPim := false, writeMode := s'.writeMode)
  {
    hide Try;
    ControllerRuns.TryEmpty(cfg, s, ActiveBuf, first);
    var s1 := s.(isPim := false);
    ControllerRuns.TryEmpty(cfg, s1, PimBuf, first);
    s' := SetWriteMode(cfg, s1);
    ControllerRuns.TryEmpty(cfg, s', WriteBuf, first);
    ControllerRuns.TryEmpty(cfg, s', ReadBuf, first);
  }

  /** Before the first refresh is due, an idle cycle only passes the time. */
  lemma IdleCycle(cfg: Config, t: nat, s: State)
    requires Quiescent(cfg, t, s, []) && t + 1 < cfg.nREFI
    ensures var (s', ok) := Tick(cfg, s, Unset); ok && Quiescent(cfg, t + 1, s', [])
  {
    hide Choose, ExecuteIf, FirstCommand;
    var s0 := BeginTick(cfg, s).0;
    var s1 := NothingChosen(cfg, s0, None);
    ControllerRuns.ExecuteNothing(cfg, s1);
    var s2 := NothingChosen(cfg, s1, Some(FirstCommand(cfg, s0, Unset)));
    ControllerRuns.ExecuteNothing(cfg, s2);
  }

  ghost predicate AllRefreshes(q: seq<Request>) {
    forall i :: 0 <= i < |q| ==> q[i].finalCommand == REFab
  }

  /** The cycle in which the refreshes are due begins with queuing them. */
  lemma RefreshesDue(cfg: Config, t: nat, s: State, mv: Request)
    requires Quiescent(cfg, t, s, [mv]) && t + 1 == cfg.nREFI && 0 < cfg.numPch <= cfg.priorityCap
    ensures var (s', ok) := BeginTick(cfg, s);
            && ok && AllRefreshes(s'.priorityQ) && |s'.priorityQ| == cfg.numPch
            && s'.clk == cfg.nREFI && s'.issued == [] && s'.activeQ == [] && s'.pimQ == [mv]
  {
    hide BeginTick;
    ControllerRuns.BeginTickQueues(cfg, s);
  }

  /** The first slot finds the oldest refresh not ready, and is left at its precharge. */
  lemma RefreshWaits(cfg: Config, s: State) returns (s1: State)
    requires Precharging(cfg.dev) && s.activeQ == [] && s.priorityQ != [] && AllRefreshes(s.priorityQ)
    ensures Choose(cfg, s, None) == (s1, None) && Pointed(cfg, s) == Some(PREA)
    ensures s1 == s.(priorityQ := s.priorityQ[0 := s.priorityQ[0].(command := PREA)])
  {
    hide Try, TryQueues, Protect, Selected, PointedInQueues;
    ControllerRuns.TryEmpty(cfg, s, ActiveBuf, None);
    s1 := SetHeadCommand(cfg, s);
  }

  lemma MoveIsFound(cfg: Config, s: State, mv: Request)
    requires Precharging(cfg.dev) && mv.kind == PimMvSb && mv.finalCommand == MVSB && s.pimQ == [mv]
    ensures TryQueues(cfg, s, Some(PREA)) == (s.(isPim := true, pimQ := [mv.(command := MVSB)]), Some(Slot(PimBuf, 0)))
  {
    hide Try;
    var s0 := s.(isPim := false);
    ControllerRuns.TryHead(cfg, s0, PimBuf, Some(PREA));
    assert Prepare(DramOf(cfg, s0), [mv]) == [mv.(command := MVSB)];
  }

  /** The second slot compares with that precharge, and passes over the refresh. */
  lemma MoveOvertakes(cfg: Config, s: State, mv: Request)
    requires Precharging(cfg.dev) && mv.kind == PimMvSb && mv.finalCommand == MVSB
    requires s.activeQ == [] && s.priorityQ != [] && s.priorityQ[0].finalCommand == REFab && s.priorityQ[0].command == PREA
    requires s.pimQ == [mv]
    ensures Choose(cfg, s, Some(PREA)) == (s.(isPim := true, pimQ := [mv.(command := MVSB)]), Some(Slot(PimBuf, 0)))
  {
    hide Try, TryQueues;
    ControllerRuns.TryEmpty(cfg, s, ActiveBuf, Some(PREA));
    assert SetHeadCommand(cfg, s) == s;
    MoveIsFound(cfg, s, mv);
  }

  /** The MV_SB is issued in the cycle that queues the refreshes, and they all stay queued. */
  lemma OvertakingCycle(cfg: Config, t: nat, s: State, mv: Request)
    requires Precharging(cfg.dev) && mv.kind == PimMvSb && mv.finalCommand == MVSB
    requires Quiescent(cfg, t, s, [mv]) && t + 1 == cfg.nREFI && 0 < cfg.numPch <= cfg.priorityCap
    ensures var (s', ok) := Tick(cfg, s, Unset);
            ok && s'.issued == [Issue(cfg.nREFI, MVSB, mv.addrVec)] && |s'.priorityQ| == cfg.numPch && s'.clk == cfg.nREFI
  {
    hide Choose, ExecuteIf, Precharging, BeginTick, Pointed;
    RefreshesDue(cfg, t, s, mv);
    var s0 := BeginTick(cfg, s).0;
    var s1 := RefreshWaits(cfg, s0);
    ControllerRuns.ExecuteNothing(cfg, s1);
    MoveOvertakes(cfg, s1, mv);
    var s2 := s1.(isPim := true, pimQ := [mv.(command := MVSB)]);
    ControllerRuns.ExecuteIssues(cfg, s2, Some(Slot(PimBuf, 0)));
    MoveLeavesRefreshes(cfg, s2);
  }

  lemma MoveLeavesRefreshes(cfg: Config, s: State)
    requires InBuf(s, Slot(PimBuf, 0)) && s.isPim
    ensures ExecuteIf(cfg, s, Some(Slot(PimBuf, 0))).priorityQ == s.priorityQ
  {
  }

  /** A system of one channel with one MV_SB to replay. */
  function MoveSystem(cfg: Config): SysConfig {
    SysConfig([0, 0, 0, 0, 0, 0, 0], 0, [Trace(PimMvSb, 0)], [cfg])
  }

  /** `n` memory ticks. */
  function Idles(n: nat): seq<Step> {
    if n == 0 then [] else Idles(n - 1) + [MemoryTick([])]
  }

  ghost predicate Waits(cfg: Config, t: nat, sys: System) {
    sys.idx == 0 && sys.count == 0 && |sys.ctrls| == 1 && Quiescent(cfg, t, sys.ctrls[0], [])
  }

  lemma NoIdles(cfg: Config)
    ensures MoveSystem(cfg).Valid()
    ensures var (sys, ok) := Run(MoveSystem(cfg), Idles(0)); ok && Waits(cfg, 0, sys)
  {
    assert Pow2(0) == 1;
  }

  lemma {:induction false} IdleRun(cfg: Config, n: nat)
    requires n < cfg.nREFI
    ensures MoveSystem(cfg).Valid()
    ensures var (sys, ok) := Run(MoveSystem(cfg), Idles(n)); ok && Waits(cfg, n, sys)
  {
    hide Advance, Tick, Run, Quiescent;
    if n == 0 {
      NoIdles(cfg);
    } else {
      IdleRun(cfg, n - 1);
      var sc, sys := MoveSystem(cfg), Run(MoveSystem(cfg), Idles(n - 1)).0;
      IdleCycle(cfg, n - 1, sys.ctrls[0]);
      OnlyController(sc, sys);
      RunOne(sc, Idles(n - 1), MemoryTick([]));
    }
  }

  /** A frontend tick delivers the MV_SB. */
  lemma MoveDelivered(cfg: Config, t: nat, sys: System) returns (mv: Request)
    requires MoveSystem(cfg).Valid() && Waits(cfg, t, sys) && cfg.pimCap > 0
    ensures WellFormed(MoveSystem(cfg), sys)
    ensures mv.kind == PimMvSb && mv.finalCommand == MVSB
    ensures var sys' := Deliver(MoveSystem(cfg), sys);
            sys'.count == 1 && |sys'.ctrls| == 1 && Quiescent(cfg, t, sys'.ctrls[0], [mv])
  {
    hide Decode, ChannelOf;
    var sc, s := MoveSystem(cfg), sys.ctrls[0];
    ChannelInRange(sc, 0);
    mv := MakeRequest(sc, sc.trace[0], 0).(finalCommand := MVSB, arrive := s.clk);
    var s' := s.(pimQ := [mv], accepted := s.accepted + [Entry(0, PimMvSb)]);
    assert s.pimQ + [mv] == [mv];
    assert Send(cfg, s, MakeRequest(sc, sc.trace[0], 0)) == (s', Sent);
    assert sys.ctrls[0 := s'] == [s'];
    assert Offer(sc, sys).1 && Offer(sc, sys).0.ctrls == [s'] && Offer(sc, sys).0.count == 1;
  }

  /**
   * A refresh is overtaken on a run of every controller: with some device, the cycle in which
   * the first refreshes are due finds their precharge not ready, and issues an MV_SB instead.
   */
  lemma RefreshOvertaken(base: Config) returns (cfg: Config, steps: seq<Step>)
    requires base.nREFI > 0 && 0 < base.numPch <= base.priorityCap && base.pimCap > 0
    ensures cfg == base.(dev := cfg.dev) && MoveSystem(cfg).Valid()
    ensures var (sys, ok) := Run(MoveSystem(cfg), steps);
            && ok && |sys.ctrls| == 1 && |sys.ctrls[0].priorityQ| == cfg.numPch
            && |sys.ctrls[0].issued| == 1 && sys.ctrls[0].issued[0].command == MVSB
            && sys.ctrls[0].issued[0].clk == cfg.nREFI == sys.ctrls[0].clk
  {
    hide Run, Tick, Precharging, Deliver;
    var dev := SomePrecharging();
    cfg := base.(dev := dev);
    var n := cfg.nREFI - 1;
    IdleRun(cfg, n);
    var sc, sys := MoveSystem(cfg), Run(MoveSystem(cfg), Idles(n)).0;
    var mv := MoveDelivered(cfg, n, sys);
    OvertakingCycle(cfg, n, Deliver(sc, sys).ctrls[0], mv);
    RunRound(sc, Idles(n));
    steps := Idles(n) + [FrontendTick, MemoryTick([])];
  }
}
