/** Loads can be lost: for every controller with room for requests, a device and a run that overfill the active buffer. */
module LostLoads {
  import opened Arith
  import opened PimTypes
  import opened PimScheduler
  import opened ControllerState
  import ControllerRuns
  import opened AddrMapper
  import opened ArrivalOrder
  import opened TraceText
  import opened SystemState
  import opened OneChannel

  /** A device that opens rows 0, 1, 2, ... one after the other and takes long to read. */
  ghost predicate OpensInTurn(dev: Device) {
    && (forall issued, clk, c, v: AddrVec :: dev.preq(issued, clk, c, v) == if c == RD && v[ROW_LEVEL] >= |issued| then ACT else c)
    && (forall issued, clk, c, v :: dev.ready(issued, clk, c, v) <==> c == ACT)
  }

  lemma SomeOpensInTurn() returns (dev: Device)
    ensures OpensInTurn(dev)
  {
    dev := Device((issued, clk, c, v: AddrVec) => if c == RD && v[ROW_LEVEL] >= |issued| then ACT else c,
                  (issued, clk, c, v) => c == ACT,
                  (issued, clk, c, v) => false);
  }

  /**
   * Room for a read and for writes, sensible watermarks, and no refresh before the active buffer
   * can be full. All other parameters are arbitrary.
   */
  predicate Roomy(cfg: Config) {
    cfg.readCap > 0 && cfg.writeCap > 0 && 0.0 < cfg.lowWatermark && 0.0 <= cfg.highWatermark && cfg.nREFI > cfg.activeCap + 1
  }

  /** One load per row. */
  function Loads(n: nat): (trace: seq<Trace>)
    ensures |trace| == n && forall i :: 0 <= i < n ==> trace[i] == Trace(Read, i)
  {
    seq(n, i requires 0 <= i < n => Trace(Read, i))
  }

  /** One channel whose addresses are row numbers, and one load more than the active buffer takes. */
  function LoadSystem(cfg: Config): SysConfig {
    SysConfig([0, 0, 0, 0, 0, cfg.activeCap, 0], 0, Loads(cfg.activeCap + 1), [cfg])
  }

  lemma {:induction false} PowExceeds(n: nat)
    ensures Pow2(n) > n
  {
    if n == 0 {
    } else {
      PowExceeds(n - 1);
    }
  }

  /** Load `i` is for row `i` of the only channel. */
  lemma LoadDecodes(cfg: Config, i: nat)
    requires i <= cfg.activeCap
    ensures var sc := LoadSystem(cfg);
            sc.Valid() && ChannelOf(sc, i) == 0 && Decode(sc, i)[ROW_LEVEL] == i
  {
    var sc, cap := LoadSystem(cfg), cfg.activeCap;
    var o: Order := HBM3_PIM_ORDER;
    assert Pow2(0) == 1;
    hide Slice;
    PowExceeds(cap);
    ChannelInRange(sc, i);
    assert o[0..] == o;
    SliceStep(sc.bits, o, 0, i, UNMAPPED);
    var vec := UNMAPPED[6 := i % 1];
    SliceStep(sc.bits, o, 1, i, vec);
    SliceFrame(sc.bits, o[2..], i / Pow2(cap), vec[5 := i % Pow2(cap)], 5);
    Remainder(i, Pow2(cap));
  }

  lemma Remainder(i: nat, p: nat)
    requires i < p
    ensures i % p == i && i / 1 == i
  {
    DivModUnique(i, p, 0);
  }

  // ---- one controller --------------------------------------------------------------------

  /** A load that has been sent. */
  ghost predicate IsLoad(r: Request, row: int) {
    r.kind == Read && r.finalCommand == RD && r.addrVec[ROW_LEVEL] == row && r.id == row
  }

  /** Loads of consecutive rows. */
  ghost predicate AreLoads(q: seq<Request>, row: int) {
    forall j :: 0 <= j < |q| ==> IsLoad(q[j], row + j)
  }

  lemma PreparedLoads(d: Dram, q: seq<Request>, row: int)
    requires AreLoads(q, row)
    ensures AreLoads(Prepare(d, q), row) && NoBarriers(q)
  {
  }

  /** `k` loads have been activated, the next ones wait to be, and nothing else has happened. */
  ghost predicate Activated(cfg: Config, k: nat, s: State) {
    && s.clk == k && |s.issued| == k && |s.activeQ| == k && AreLoads(s.activeQ, 0) && s.lost == []
    && s.pending == [] && s.priorityQ == [] && s.writeQ == [] && s.pimQ == []
    && AreLoads(s.readQ, k) && Arrived(s.readQ, s.clk)
    && s.refresher == Refresher(k, cfg.nREFI)
  }

  /** The activated loads wait for their data. */
  lemma ActiveWaits(cfg: Config, s: State, first: Option<Command>) returns (q: seq<Request>)
    requires OpensInTurn(cfg.dev) && |s.activeQ| <= |s.issued| && AreLoads(s.activeQ, 0)
    ensures Try(cfg, s, ActiveBuf, first) == (s.(activeQ := q), None)
    ensures |q| == |s.activeQ| && AreLoads(q, 0)
  {
    hide Try;
    q := Prepare(DramOf(cfg, s), s.activeQ);
    PreparedLoads(DramOf(cfg, s), s.activeQ, 0);
    assert Buf(s, ActiveBuf) == s.activeQ;
    ControllerRuns.TryNothing(cfg, s, ActiveBuf, first);
  }

  /** With a read waiting and no writes, the read buffer is served. */
  lemma ReadsServed(cfg: Config, s: State)
    requires Roomy(cfg) && s.writeQ == [] && s.readQ != []
    ensures SetWriteMode(cfg, s) == s.(writeMode := false)
  {
    Positive(cfg.lowWatermark, cfg.writeCap);
    Positive(cfg.highWatermark + 1.0, cfg.writeCap);
    NotNegative(cfg.highWatermark, cfg.writeCap);
  }

  lemma Positive(x: real, n: nat)
    requires x > 0.0 && n > 0
    ensures x * n as real > 0.0
  {
  }

  lemma NotNegative(x: real, n: nat)
    requires x >= 0.0
    ensures x * n as real >= 0.0
  {
  }

  /** Loads that are not activated yet need an activate. */
  lemma NextActivates(cfg: Config, s: State, row: nat)
    requires OpensInTurn(cfg.dev) && AreLoads(s.readQ, row) && |s.issued| <= row
    ensures forall j :: 0 <= j < |s.readQ| ==> DramOf(cfg, s).Preq(s.readQ[j]) == ACT
    ensures forall r: Request :: r.command == ACT ==> DramOf(cfg, s).Ready(r)
  {
  }

  /** The first slot activates the first load that waits. */
  lemma LoadFound(cfg: Config, k: nat, s: State) returns (s': State)
    requires OpensInTurn(cfg.dev) && Roomy(cfg)
    requires |s.issued| == k == |s.activeQ| && AreLoads(s.activeQ, 0)
    requires s.priorityQ == [] && s.writeQ == [] && s.pimQ == []
    requires s.readQ != [] && AreLoads(s.readQ, k) && Arrived(s.readQ, s.clk)
    ensures Choose(cfg, s, None) == (s', Some(Slot(ReadBuf, 0)))
    ensures s' == s.(activeQ := s'.activeQ, readQ := Prepare(DramOf(cfg, s), s.readQ), isPim := false, writeMode := false)
    ensures |s'.activeQ| == k && AreLoads(s'.activeQ, 0)
    ensures s'.readQ[0].command == ACT && FirstCommand(cfg, s, Unset) == ACT
  {
    hide Try, SetWriteMode, OpensInTurn, Roomy;
    var q := ActiveWaits(cfg, s, None);
    var s1 := s.(activeQ := q, isPim := false);
    ControllerRuns.TryEmpty(cfg, s1, PimBuf, None);
    ReadsServed(cfg, s1);
    var s2 := s1.(writeMode := false);
    PreparedLoads(DramOf(cfg, s2), s2.readQ, k);
    NextActivates(cfg, s2, k);
    ControllerRuns.TryHead(cfg, s2, ReadBuf, None);
    s' := s2.(readQ := Prepare(DramOf(cfg, s), s.readQ));
    ControllerRuns.FirstCommandOfSlot(cfg, s, Unset);
  }

  /** The second slot finds nothing: a second activate does not complement the first. */
  lemma NothingElse(cfg: Config, k: nat, s: State) returns (s': State)
    requires OpensInTurn(cfg.dev) && Roomy(cfg)
    requires |s.activeQ| <= |s.issued| <= k && AreLoads(s.activeQ, 0)
    requires s.priorityQ == [] && s.writeQ == [] && s.pimQ == [] && AreLoads(s.readQ, k)
    ensures Choose(cfg, s, Some(ACT)) == (s', None)
    ensures s' == s.(activeQ := s'.activeQ, readQ := Prepare(DramOf(cfg, s), s.readQ), isPim := false, writeMode := s'.writeMode)
    ensures |s'.activeQ| == |s.activeQ| && AreLoads(s'.activeQ, 0)
  {
    hide Try, OpensInTurn, SetWriteMode, Roomy;
    var q := ActiveWaits(cfg, s, Some(ACT));
    var s1 := s.(activeQ := q, isPim := false);
    ControllerRuns.TryEmpty(cfg, s1, PimBuf, Some(ACT));
    if s.readQ == [] {
      assert Prepare(DramOf(cfg, s), s.readQ) == [];
      WriteModeOnly(cfg, s1);
      s' := SetWriteMode(cfg, s1);
      ControllerRuns.TryEmpty(cfg, s', WriteBuf, Some(ACT));
      ControllerRuns.TryEmpty(cfg, s', ReadBuf, Some(ACT));
    } else {
      ReadsServed(cfg, s1);
      var s2 := s1.(writeMode := false);
      PreparedLoads(DramOf(cfg, s2), s2.readQ, k);
      NextActivates(cfg, s2, k);
      ControllerRuns.TryNothing(cfg, s2, ReadBuf, Some(ACT));
      s' := s2.(readQ := Prepare(DramOf(cfg, s), s.readQ));
    }
  }

  lemma WriteModeOnly(cfg: Config, s: State)
    ensures SetWriteMode(cfg, s) == s.(writeMode := SetWriteMode(cfg, s).writeMode)
  {
  }

  /** Activating a load moves it to the active buffer, or loses it. */
  lemma LoadMoves(cfg: Config, s: State)
    requires s.readQ != [] && s.readQ[0].command == ACT && s.readQ[0].finalCommand == RD && !s.isPim
    ensures var load := s.readQ[0];
            var s1 := s.(issued := s.issued + [Issue(s.clk, ACT, load.addrVec)], readQ := s.readQ[1..]);
            ExecuteIf(cfg, s, Some(Slot(ReadBuf, 0))) ==
            if |s.activeQ| < cfg.activeCap then s1.(activeQ := s.activeQ + [load]) else s1.(lost := s.lost + [Key(load)])
  {
    assert RemoveAt(s.readQ, 0) == s.readQ[1..];
  }

  lemma NoRefreshYet(cfg: Config, k: nat, s: State)
    requires s.refresher == Refresher(k, cfg.nREFI) && k + 1 < cfg.nREFI && s.pending == []
    ensures BeginTick(cfg, s) == (s.(clk := s.clk + 1, refresher := Refresher(k + 1, cfg.nREFI)), true)
  {
  }

  /** The loads behind the first one. */
  lemma LoadsBehind(d: Dram, q: seq<Request>, row: int, clk: int)
    requires AreLoads(q, row) && Arrived(q, clk) && q != []
    ensures var rest := Prepare(d, q)[1..];
            AreLoads(rest, row + 1) && Arrived(rest, clk + 1)
    ensures IsLoad(Prepare(d, q)[0], row)
  {
    hide IsLoad;
    var p := Prepare(d, q);
    SameLoads(d, q, row);
    assert forall j :: 0 <= j < |p| ==> p[j].arrive == q[j].arrive;
  }

  lemma SameLoads(d: Dram, q: seq<Request>, row: int)
    requires AreLoads(q, row)
    ensures forall j :: 0 <= j < |q| ==> IsLoad(Prepare(d, q)[j], row + j)
  {
    PreparedLoads(d, q, row);
  }

  /** One cycle activates load `k`; when the active buffer is full, the load is lost. */
  lemma CycleActivates(cfg: Config, k: nat, s: State)
    requires OpensInTurn(cfg.dev) && Roomy(cfg) && k <= cfg.activeCap
    requires Activated(cfg, k, s) && s.readQ != []
    ensures Tick(cfg, s, Unset).1
    ensures var s' := Tick(cfg, s, Unset).0;
            if k < cfg.activeCap then Activated(cfg, k + 1, s') && |s'.readQ| == |s.readQ| - 1
            else s'.lost == [Entry(k, Read)]
  {
    hide Choose, ExecuteIf, BeginTick, OpensInTurn, FirstCommand, AreLoads, Arrived;
    NoRefreshYet(cfg, k, s);
    var s0 := BeginTick(cfg, s).0;
    LoadsBehind(DramOf(cfg, s0), s.readQ, k, s.clk);
    ArrivedLater(s.readQ, s.clk);
    hide Roomy;
    var s1 := LoadFound(cfg, k, s0);
    LoadMoves(cfg, s1);
    var s2 := ExecuteIf(cfg, s1, Some(Slot(ReadBuf, 0)));
    OneMoreLoad(s1.activeQ, s1.readQ[0]);
    var s3 := NothingElse(cfg, k + 1, s2);
    ControllerRuns.ExecuteNothing(cfg, s3);
    PreparedLoads(DramOf(cfg, s2), s2.readQ, k + 1);
    PreparedArrived(DramOf(cfg, s2), s2.readQ, s2.clk);
  }

  lemma PreparedArrived(d: Dram, q: seq<Request>, clk: int)
    requires Arrived(q, clk)
    ensures Arrived(Prepare(d, q), clk)
  {
    var p := Prepare(d, q);
    assert forall j :: 0 <= j < |p| ==> p[j].arrive == q[j].arrive;
  }

  lemma OneMoreLoad(q: seq<Request>, r: Request)
    requires AreLoads(q, 0) && IsLoad(r, |q|)
    ensures AreLoads(q + [r], 0) && Key(r) == Entry(|q|, Read) && r.finalCommand == RD
  {
  }

  // ---- the whole run ---------------------------------------------------------------------

  /** After `k` rounds, `k` loads are activated, and those delivered beyond them wait. */
  ghost predicate Stage(cfg: Config, k: nat, sys: System) {
    && |sys.ctrls| == 1 && Activated(cfg, k, sys.ctrls[0])
    && sys.count == k + |sys.ctrls[0].readQ| <= cfg.activeCap + 1
    && (sys.count <= cfg.activeCap ==> sys.idx == sys.count)
  }

  lemma StageWellFormed(cfg: Config, k: nat, sys: System)
    requires Stage(cfg, k, sys)
    ensures WellFormed(LoadSystem(cfg), sys)
  {
    hide Activated;
    LoadDecodes(cfg, 0);
  }

  /** A load that arrives now. */
  lemma LoadArrives(cfg: Config, k: nat, s: State, r: Request)
    requires Activated(cfg, k, s) && r.kind == Read && r.id == k + |s.readQ| == r.addrVec[ROW_LEVEL]
    ensures var (s', outcome) := Send(cfg, s, r);
            if |s.readQ| < cfg.readCap
            then outcome == Sent && Activated(cfg, k, s') && |s'.readQ| == |s.readQ| + 1
            else outcome == Full && s' == s
  {
    var r' := r.(finalCommand := RD, arrive := s.clk);
    ArriveLast(s.readQ, r', s.clk);
    hide Arrived;
    var s' := s.(readQ := s.readQ + [r'], accepted := s.accepted + [Key(r)]);
    assert Send(cfg, s, r) == if |s.readQ| < cfg.readCap then (s', Sent) else (s, Full);
  }

  /** The next load is accepted as long as there is room. */
  lemma OfferLoad(cfg: Config, k: nat, sys: System)
    requires Stage(cfg, k, sys) && sys.count <= cfg.activeCap
    ensures WellFormed(LoadSystem(cfg), sys)
    ensures var (sys', ok) := Offer(LoadSystem(cfg), sys);
            && Stage(cfg, k, sys') && (ok <==> |sys.ctrls[0].readQ| < cfg.readCap)
            && (ok ==> |sys'.ctrls[0].readQ| > 0) && (!ok ==> sys' == sys)
  {
    hide Decode, ChannelOf, Activated, Send;
    StageWellFormed(cfg, k, sys);
    LoadDecodes(cfg, sys.count);
    var sc, n := LoadSystem(cfg), sys.count;
    var r := MakeRequest(sc, sc.trace[n], n);
    LoadArrives(cfg, k, sys.ctrls[0], r);
    assert sys.ctrls[0 := sys.ctrls[0]] == sys.ctrls;
    if n < cfg.activeCap {
      NextIndex(n, cfg.activeCap);
    }
  }

  lemma NextIndex(k: nat, cap: nat)
    requires k < cap
    ensures (k + 1) % (cap + 1) == k + 1
  {
    DivModUnique(k + 1, cap + 1, 0);
  }

  /** A frontend tick fills the read buffer as far as the trace goes. */
  lemma {:induction false} LoadsDelivered(cfg: Config, k: nat, sys: System)
    requires Stage(cfg, k, sys) && cfg.readCap > 0 && k <= cfg.activeCap
    ensures WellFormed(LoadSystem(cfg), sys)
    ensures var sys' := Deliver(LoadSystem(cfg), sys);
            Stage(cfg, k, sys') && sys'.ctrls[0].readQ != []
    decreases cfg.activeCap + 1 - sys.count
  {
    hide Offer, Activated;
    StageWellFormed(cfg, k, sys);
    if sys.count > cfg.activeCap {
    } else {
      OfferLoad(cfg, k, sys);
      var (sys', ok) := Offer(LoadSystem(cfg), sys);
      if ok {
        LoadsDelivered(cfg, k, sys');
      }
    }
  }

  /** `n` rounds of one frontend and one memory tick. */
  function Rounds(n: nat): seq<Step> {
    if n == 0 then [] else Rounds(n - 1) + [FrontendTick, MemoryTick([])]
  }

  /** Round `k` activates load `k`, or loses it. */
  lemma OneRound(cfg: Config, k: nat, steps: seq<Step>)
    requires OpensInTurn(cfg.dev) && Roomy(cfg) && LoadSystem(cfg).Valid() && k <= cfg.activeCap
    requires Run(LoadSystem(cfg), steps).1 && Stage(cfg, k, Run(LoadSystem(cfg), steps).0)
    ensures var (sys, ok) := Run(LoadSystem(cfg), steps + [FrontendTick, MemoryTick([])]);
            && ok && |sys.ctrls| == 1
            && if k < cfg.activeCap then Stage(cfg, k + 1, sys) else sys.ctrls[0].lost == [Entry(k, Read)]
  {
    hide Run, Deliver, Tick, OpensInTurn, Activated;
    var sc, sys := LoadSystem(cfg), Run(LoadSystem(cfg), steps).0;
    LoadsDelivered(cfg, k, sys);
    CycleActivates(cfg, k, Deliver(sc, sys).ctrls[0]);
    RunRound(sc, steps);
  }

  lemma NoRounds(cfg: Config)
    ensures LoadSystem(cfg).Valid()
    ensures var (sys, ok) := Run(LoadSystem(cfg), Rounds(0)); ok && Stage(cfg, 0, sys)
  {
    LoadDecodes(cfg, 0);
  }

  lemma {:induction false} RoundsActivate(cfg: Config, k: nat)
    requires OpensInTurn(cfg.dev) && Roomy(cfg) && k <= cfg.activeCap
    ensures LoadSystem(cfg).Valid()
    ensures var (sys, ok) := Run(LoadSystem(cfg), Rounds(k)); ok && Stage(cfg, k, sys)
  {
    hide Run, OpensInTurn, Stage, Roomy;
    NoRounds(cfg);
    if k == 0 {
    } else {
      RoundsActivate(cfg, k - 1);
      OneRound(cfg, k - 1, Rounds(k - 1));
    }
  }

  /**
   * For every controller with room for requests, whatever its capacities, there are a device, a
   * trace of loads and a run on which the first load that does not fit the active buffer is lost.
   */
  lemma LoadsGetLost(base: Config) returns (cfg: Config, steps: seq<Step>)
    requires Roomy(base)
    ensures cfg == base.(dev := cfg.dev) && LoadSystem(cfg).Valid()
    ensures var (sys, ok) := Run(LoadSystem(cfg), steps);
            ok && |sys.ctrls| == 1 && sys.ctrls[0].lost == [Entry(cfg.activeCap, Read)]
  {
    hide Run, OpensInTurn, Stage;
    var dev := SomeOpensInTurn();
    cfg := base.(dev := dev);
    RoundsActivate(cfg, cfg.activeCap);
    OneRound(cfg, cfg.activeCap, Rounds(cfg.activeCap));
    steps := Rounds(cfg.activeCap + 1);
  }
}
