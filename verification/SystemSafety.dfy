/** Theorems about every run of the simulator: delivery, conservation and barrier safety. */
module SystemSafety {
  import opened PimTypes
  import opened ControllerState
  import opened BarrierLedger
  import opened ControllerSafety
  import ControllerRuns
  import opened PimOnlyRuns
  import opened TraceText
  import opened SystemState

  // ---- what a channel should have received -----------------------------------------------

  /** The entries that come from the trace, in the order of acceptance. */
  ghost function FromTrace(accepted: seq<Entry>): seq<Entry> {
    if accepted == [] then []
    else
      var last := accepted[|accepted| - 1];
      FromTrace(accepted[..|accepted| - 1]) + if last.id >= 0 then [last] else []
  }

  /** The first `n` trace records of channel `c`. */
  ghost function PrefixFor(sc: SysConfig, n: nat, c: int): seq<Entry>
    requires n <= |sc.trace|
  {
    if n == 0 then []
    else
      PrefixFor(sc, n - 1, c) +
      if ChannelOf(sc, sc.trace[n - 1].addr) == c then [Entry(n - 1, sc.trace[n - 1].kind)] else []
  }

  /** `e` is the record at position `e.id`, and it belongs to channel `c`. */
  ghost predicate RecordOf(sc: SysConfig, e: Entry, c: int) {
    0 <= e.id < |sc.trace| && sc.trace[e.id].kind == e.kind && ChannelOf(sc, sc.trace[e.id].addr) == c
  }

  lemma {:induction false} PrefixMember(sc: SysConfig, n: nat, c: int, e: Entry)
    requires n <= |sc.trace|
    ensures e in PrefixFor(sc, n, c) <==> RecordOf(sc, e, c) && e.id < n
  {
    if n == 0 {
    } else {
      PrefixMember(sc, n - 1, c, e);
    }
  }

  lemma {:induction false} FromTraceMember(accepted: seq<Entry>, e: Entry)
    ensures e in FromTrace(accepted) <==> e in accepted && e.id >= 0
  {
    if accepted == [] {
    } else {
      var n := |accepted| - 1;
      FromTraceMember(accepted[..n], e);
      assert accepted == accepted[..n] + [accepted[n]];
    }
  }

  lemma FromTraceAppend(accepted: seq<Entry>, e: Entry)
    ensures FromTrace(accepted + [e]) == FromTrace(accepted) + if e.id >= 0 then [e] else []
  {
    assert (accepted + [e])[..|accepted + [e]| - 1] == accepted;
  }

  /** Only refreshes are accepted without coming from the trace. */
  ghost predicate OthersAreRefreshes(accepted: seq<Entry>) {
    forall i :: 0 <= i < |accepted| && accepted[i].id < 0 ==> accepted[i].kind == AllBankRefresh
  }

  /** What holds of the controller of channel `c` after `n` records were delivered. */
  ghost predicate ChannelInv(sc: SysConfig, n: nat, c: int, s: State)
    requires n <= |sc.trace|
  {
    Good(s) && FromTrace(s.accepted) == PrefixFor(sc, n, c) && OthersAreRefreshes(s.accepted)
  }

  lemma AcceptedIsRecord(sc: SysConfig, n: nat, c: int, s: State, e: Entry)
    requires n <= |sc.trace| && ChannelInv(sc, n, c, s) && IsPim(e.kind)
    ensures e in s.accepted <==> RecordOf(sc, e, c) && e.id < n
  {
    FromTraceMember(s.accepted, e);
    PrefixMember(sc, n, c, e);
  }

  // ---- steps of one channel --------------------------------------------------------------

  lemma OthersAppend(accepted: seq<Entry>, e: Entry)
    requires OthersAreRefreshes(accepted) && (e.id >= 0 || e.kind == AllBankRefresh)
    ensures OthersAreRefreshes(accepted + [e])
  {
  }

  lemma RefreshAccepts(cfg: Config, s: State, pch: nat)
    ensures var a := PrioritySend(cfg, s, RefreshRequest(cfg, pch)).0.accepted;
            FromTrace(a) == FromTrace(s.accepted) && (OthersAreRefreshes(s.accepted) ==> OthersAreRefreshes(a))
  {
    hide OthersAreRefreshes, FromTrace;
    FromTraceAppend(s.accepted, Key(RefreshRequest(cfg, pch)));
    if OthersAreRefreshes(s.accepted) {
      OthersAppend(s.accepted, Key(RefreshRequest(cfg, pch)));
    }
  }

  lemma {:induction false} QueueRefreshesAccepts(cfg: Config, s: State, pch: nat)
    ensures var a := QueueRefreshes(cfg, s, pch).0.accepted;
            FromTrace(a) == FromTrace(s.accepted) && (OthersAreRefreshes(s.accepted) ==> OthersAreRefreshes(a))
    decreases cfg.numPch - pch
  {
    hide PrioritySend, FromTrace, OthersAreRefreshes, RefreshRequest;
    if pch >= cfg.numPch {
    } else {
      RefreshAccepts(cfg, s, pch);
      QueueRefreshesAccepts(cfg, PrioritySend(cfg, s, RefreshRequest(cfg, pch)).0, pch + 1);
    }
  }

  lemma TickAccepts(cfg: Config, s: State, stale: Command)
    ensures var a := Tick(cfg, s, stale).0.accepted;
            FromTrace(a) == FromTrace(s.accepted) && (OthersAreRefreshes(s.accepted) ==> OthersAreRefreshes(a))
  {
    hide IssueTwo, QueueRefreshes, FromTrace, OthersAreRefreshes, ControllerRuns.IssueDiscipline;
    var s1 := ServeCompletedReads(s.(clk := s.clk + 1));
    QueueRefreshesAccepts(cfg, s1.(refresher := Refresher(s1.refresher.clk + 1, s1.refresher.next + cfg.nREFI)), 0);
    ControllerRuns.IssueTwoIssues(cfg, BeginTick(cfg, s).0, stale);
  }

  lemma TickChannel(sc: SysConfig, n: nat, c: int, cfg: Config, s: State, stale: Command)
    requires n <= |sc.trace| && ChannelInv(sc, n, c, s)
    ensures ChannelInv(sc, n, c, Tick(cfg, s, stale).0)
  {
    hide Tick, Good;
    TickKeeps(cfg, s, stale);
    TickAccepts(cfg, s, stale);
  }

  lemma SendAccepts(cfg: Config, s: State, r: Request)
    ensures var (s', outcome) := Send(cfg, s, r);
            s'.accepted == if outcome == Sent then s.accepted + [Key(r)] else s.accepted
  {
  }

  lemma NextIsNewest(sc: SysConfig, n: nat, c: int, s: State, r: Request)
    requires n <= |sc.trace| && ChannelInv(sc, n, c, s) && r.id == n
    ensures Newest(s.accepted, Key(r))
  {
    forall e | e in s.accepted && IsPim(e.kind)
      ensures e.id < n
    {
      AcceptedIsRecord(sc, n, c, s, e);
    }
  }

  /** The record at position `n` arrives at its channel. */
  lemma SendChannel(sc: SysConfig, n: nat, c: int, cfg: Config, s: State)
    requires n < |sc.trace| && ChannelInv(sc, n, c, s) && ChannelOf(sc, sc.trace[n].addr) == c
    ensures var (s', outcome) := Send(cfg, s, MakeRequest(sc, sc.trace[n], n));
            ChannelInv(sc, if outcome == Sent then n + 1 else n, c, s')
  {
    var r := MakeRequest(sc, sc.trace[n], n);
    NextIsNewest(sc, n, c, s, r);
    FromTraceAppend(s.accepted, Key(r));
    SendAccepts(cfg, s, r);
    OthersAppend(s.accepted, Key(r));
    assert PrefixFor(sc, n + 1, c) == PrefixFor(sc, n, c) + [Key(r)];
    hide Send, Inv, Conserved, FromTrace, Newest, PrefixFor, OthersAreRefreshes;
    SendSafe(cfg, s, r);
    SendConserves(cfg, s, r);
  }

  // ---- the counters ----------------------------------------------------------------------

  /** How many of the first `n` records have type `kind`. */
  ghost function CountKind(trace: seq<Trace>, n: nat, kind: ReqType): nat
    requires n <= |trace|
  {
    if n == 0 then 0 else CountKind(trace, n - 1, kind) + if trace[n - 1].kind == kind then 1 else 0
  }

  /** Every counter equals the number of delivered records of its type. */
  ghost predicate CountersExact(k: Counters, trace: seq<Trace>, n: nat)
    requires n <= |trace|
  {
    && k.numRead == CountKind(trace, n, Read) && k.numWrite == CountKind(trace, n, Write)
    && k.numMacAb == CountKind(trace, n, PimMacAb) && k.numMacSb == CountKind(trace, n, PimMacSb)
    && k.numMacPb == CountKind(trace, n, PimMacPb) && k.numWrGb == CountKind(trace, n, PimWrGb)
    && k.numMvSb == CountKind(trace, n, PimMvSb) && k.numMvGb == CountKind(trace, n, PimMvGb)
    && k.numSfm == CountKind(trace, n, PimSfm) && k.numSetModel == CountKind(trace, n, PimSetModel)
    && k.numSetHead == CountKind(trace, n, PimSetHead) && k.numOther == 0
  }

  lemma CountOneMore(k: Counters, trace: seq<Trace>, n: nat)
    requires n < |trace| && CountersExact(k, trace, n) && Forwardable(trace[n].kind)
    ensures CountersExact(CountRequest(k, trace[n].kind), trace, n + 1)
  {
  }

  // ---- every run -------------------------------------------------------------------------

  ghost predicate SysInv(sc: SysConfig, sys: System) {
    && WellFormed(sc, sys)
    && CountersExact(sys.counters, sc.trace, sys.count)
    && forall c :: 0 <= c < |sys.ctrls| ==> ChannelInv(sc, sys.count, c, sys.ctrls[c])
  }

  lemma OtherChannel(sc: SysConfig, n: nat, c: int, s: State)
    requires n < |sc.trace| && ChannelInv(sc, n, c, s) && ChannelOf(sc, sc.trace[n].addr) != c
    ensures ChannelInv(sc, n + 1, c, s)
  {
  }

  /** Only channel `c` changed, the count grew by at most one, and the invariants of both hold. */
  ghost predicate Offered(sc: SysConfig, sys: System, sys': System, c: int) {
    && sys.count <= sys'.count <= sys.count + 1 && sys'.count <= |sc.trace|
    && 0 <= c < |sys.ctrls| == |sys'.ctrls|
    && (forall d :: 0 <= d < |sys.ctrls| && d != c ==> sys'.ctrls[d] == sys.ctrls[d])
    && ChannelInv(sc, sys'.count, c, sys'.ctrls[c])
    && CountersExact(sys'.counters, sc.trace, sys'.count)
  }

  /** An offer changes one channel, and advances when that channel accepts. */
  lemma OfferEffect(sc: SysConfig, sys: System)
    requires SysInv(sc, sys) && sys.count < |sc.trace| && Forwardable(sc.trace[sys.idx].kind)
    ensures Offered(sc, sys, Offer(sc, sys).0, ChannelOf(sc, sc.trace[sys.count].addr))
  {
    hide ChannelInv, CountersExact, ChannelOf, Decode, MakeRequest, Send, CountRequest;
    var n, t := sys.count, sc.trace[sys.idx];
    ChannelInRange(sc, t.addr);
    var c := ChannelOf(sc, t.addr);
    SendChannel(sc, n, c, sc.ctrls[c], sys.ctrls[c]);
    CountOneMore(sys.counters, sc.trace, n);
  }

  lemma OfferKeeps(sc: SysConfig, sys: System)
    requires SysInv(sc, sys) && sys.count < |sc.trace| && Forwardable(sc.trace[sys.idx].kind)
    ensures SysInv(sc, Offer(sc, sys).0)
  {
    hide Offer, ChannelInv, CountersExact, ChannelOf, Decode;
    OfferEffect(sc, sys);
    var c := ChannelOf(sc, sc.trace[sys.count].addr);
    var sys' := Offer(sc, sys).0;
    forall d | 0 <= d < |sys'.ctrls| && d != c
      ensures ChannelInv(sc, sys'.count, d, sys'.ctrls[d])
    {
      assert ChannelInv(sc, sys.count, d, sys.ctrls[d]);
      if sys'.count != sys.count {
        OtherChannel(sc, sys.count, d, sys.ctrls[d]);
      }
    }
  }

  lemma {:induction false} DeliverKeeps(sc: SysConfig, sys: System)
    requires SysInv(sc, sys)
    ensures SysInv(sc, Deliver(sc, sys))
    decreases |sc.trace| - sys.count
  {
    assert WellFormed(sc, sys);
    hide SysInv, Offer, Forwardable;
    if sys.count >= |sc.trace| || !Forwardable(sc.trace[sys.idx].kind) {
    } else {
      OfferKeeps(sc, sys);
      var (sys', ok) := Offer(sc, sys);
      if ok {
        DeliverKeeps(sc, sys');
      }
    }
  }

  /** The record to be delivered next is refused: its buffer is full, and no write forwards to it. */
  ghost predicate Refused(sc: SysConfig, sys: System)
    requires WellFormed(sc, sys) && sys.count < |sc.trace|
  {
    var t := sc.trace[sys.count];
    var c := ChannelOf(sc, t.addr);
    && 0 <= c < |sys.ctrls|
    && !(t.kind == Read && exists i :: 0 <= i < |sys.ctrls[c].writeQ| && sys.ctrls[c].writeQ[i].addr == t.addr)
    && if t.kind == Read then |sys.ctrls[c].readQ| >= sc.ctrls[c].readCap
       else if t.kind == Write then |sys.ctrls[c].writeQ| >= sc.ctrls[c].writeCap
       else |sys.ctrls[c].pimQ| >= sc.ctrls[c].pimCap
  }

  lemma OfferRefused(sc: SysConfig, sys: System)
    requires WellFormed(sc, sys) && sys.count < |sc.trace| && Forwardable(sc.trace[sys.idx].kind)
    ensures var (sys', ok) := Offer(sc, sys);
            !ok ==> sys' == sys && Refused(sc, sys)
  {
    hide Decode, ChannelOf;
    var t := sc.trace[sys.idx];
    ChannelInRange(sc, t.addr);
    var c := ChannelOf(sc, t.addr);
    assert sys.ctrls[c := sys.ctrls[c]] == sys.ctrls;
  }

  /** The frontend stops only at the end of the trace, at a type it never sends, or at a refusal; later offers change nothing. */
  lemma {:induction false} DeliverGoesOn(sc: SysConfig, sys: System)
    requires WellFormed(sc, sys)
    ensures var sys' := Deliver(sc, sys);
            && sys.count <= sys'.count
            && (sys'.count < |sc.trace| ==> !Forwardable(sc.trace[sys'.count].kind) || Refused(sc, sys'))
            && Deliver(sc, sys') == sys'
    decreases |sc.trace| - sys.count
  {
    hide Offer, Refused;
    if sys.count >= |sc.trace| || !Forwardable(sc.trace[sys.idx].kind) {
    } else {
      OfferRefused(sc, sys);
      var (sys', ok) := Offer(sc, sys);
      if ok {
        DeliverGoesOn(sc, sys');
      }
    }
  }

  /** The controller throws in this cycle. */
  ghost predicate Throws(sc: SysConfig, sys: System, stale: seq<Command>, d: nat)
    requires |sys.ctrls| == |sc.ctrls| && d < |sc.ctrls|
  {
    !Tick(sc.ctrls[d], sys.ctrls[d], StaleFor(stale, d)).1
  }

  /** No controller from `c` up to `d` throws in this cycle. */
  ghost predicate Reached(sc: SysConfig, sys: System, stale: seq<Command>, c: nat, d: nat)
    requires |sys.ctrls| == |sc.ctrls| && d <= |sc.ctrls|
  {
    forall e :: c <= e < d ==> !Throws(sc, sys, stale, e)
  }

  /** Every controller from `c` on has exactly one cycle, but none behind the first that throws. */
  lemma {:induction false} TickFromTicksAll(sc: SysConfig, sys: System, stale: seq<Command>, c: nat, d: nat)
    requires |sys.ctrls| == |sc.ctrls| && c <= |sc.ctrls| && d < |sc.ctrls|
    ensures var (sys', ok) := TickFrom(sc, sys, stale, c);
            && (ok <==> Reached(sc, sys, stale, c, |sc.ctrls|))
            && sys'.ctrls[d] == if c <= d && Reached(sc, sys, stale, c, d)
                                then Tick(sc.ctrls[d], sys.ctrls[d], StaleFor(stale, d)).0 else sys.ctrls[d]
    decreases |sc.ctrls| - c
  {
    hide Tick, Reached, Throws;
    if c >= |sc.ctrls| {
      ReachedStep(sc, sys, sys, stale, c, |sc.ctrls|);
    } else {
      var (s', ok) := Tick(sc.ctrls[c], sys.ctrls[c], StaleFor(stale, c));
      var sys1 := sys.(ctrls := sys.ctrls[c := s']);
      ReachedStep(sc, sys, sys1, stale, c, d);
      ReachedStep(sc, sys, sys1, stale, c, |sc.ctrls|);
      if ok {
        TickFromTicksAll(sc, sys1, stale, c + 1, d);
      }
    }
  }

  lemma ReachedStep(sc: SysConfig, sys: System, sys1: System, stale: seq<Command>, c: nat, d: nat)
    requires |sys.ctrls| == |sc.ctrls| == |sys1.ctrls| && d <= |sc.ctrls|
    requires forall e :: 0 <= e < |sc.ctrls| && e != c ==> sys1.ctrls[e] == sys.ctrls[e]
    ensures d <= c ==> Reached(sc, sys, stale, c, d)
    ensures c < d ==> (Reached(sc, sys, stale, c, d) <==>
                         Tick(sc.ctrls[c], sys.ctrls[c], StaleFor(stale, c)).1 && Reached(sc, sys1, stale, c + 1, d))
  {
    hide Tick;
    forall e: nat | e < |sc.ctrls| && e != c
      ensures Throws(sc, sys1, stale, e) <==> Throws(sc, sys, stale, e)
    {
    }
    if c < d {
      assert Throws(sc, sys, stale, c) <==> !Tick(sc.ctrls[c], sys.ctrls[c], StaleFor(stale, c)).1;
    }
  }

  lemma {:induction false} TickFromKeeps(sc: SysConfig, sys: System, stale: seq<Command>, c: nat)
    requires SysInv(sc, sys)
    ensures SysInv(sc, TickFrom(sc, sys, stale, c).0)
    decreases |sc.ctrls| - c
  {
    hide Tick, ChannelInv, CountersExact;
    if c >= |sc.ctrls| {
    } else {
      TickChannel(sc, sys.count, c, sc.ctrls[c], sys.ctrls[c], StaleFor(stale, c));
      var (s', ok) := Tick(sc.ctrls[c], sys.ctrls[c], StaleFor(stale, c));
      if ok {
        TickFromKeeps(sc, sys.(ctrls := sys.ctrls[c := s']), stale, c + 1);
      }
    }
  }

  lemma InitChannel(sc: SysConfig, c: int, cfg: Config)
    ensures ChannelInv(sc, 0, c, Init(cfg))
  {
  }

  /** On every run, for every device: exact delivery, exact counters, and both controller invariants. */
  lemma {:induction false} EveryRun(sc: SysConfig, steps: seq<Step>)
    requires sc.Valid()
    ensures SysInv(sc, Run(sc, steps).0)
  {
    hide SysInv, Deliver, TickFrom;
    if steps == [] {
      InitKeeps(sc);
    } else {
      EveryRun(sc, steps[..|steps| - 1]);
      var (sys, ok) := Run(sc, steps[..|steps| - 1]);
      if ok {
        match steps[|steps| - 1]
        case FrontendTick => DeliverKeeps(sc, sys);
        case MemoryTick(stale) =>
          ClockKeeps(sc, sys);
          TickFromKeeps(sc, sys.(clk := sys.clk + 1), stale, 0);
      }
    }
  }

  lemma InitKeeps(sc: SysConfig)
    requires sc.Valid()
    ensures SysInv(sc, InitSystem(sc))
  {
    hide ChannelInv;
    forall c | 0 <= c < |sc.ctrls|
      ensures ChannelInv(sc, 0, c, Init(sc.ctrls[c]))
    {
      InitChannel(sc, c, sc.ctrls[c]);
    }
  }

  lemma ClockKeeps(sc: SysConfig, sys: System)
    requires SysInv(sc, sys)
    ensures SysInv(sc, sys.(clk := sys.clk + 1))
  {
    hide ChannelInv, CountersExact;
  }

  /** The trace position `i` holds a PIM request, not a barrier, of channel `c`. */
  ghost predicate PimAt(sc: SysConfig, i: int, c: int) {
    0 <= i < |sc.trace| && IsPim(sc.trace[i].kind) && sc.trace[i].kind != PimBarrier &&
    ChannelOf(sc, sc.trace[i].addr) == c
  }

  ghost predicate BarrierAt(sc: SysConfig, b: int, c: int) {
    0 <= b < |sc.trace| && sc.trace[b].kind == PimBarrier && ChannelOf(sc, sc.trace[b].addr) == c
  }

  /** The controller finishes the record at `j` only after the record at `i`. */
  ghost predicate DoneInOrder(sc: SysConfig, s: State, i: int, j: int)
    requires 0 <= i < |sc.trace| && 0 <= j < |sc.trace|
  {
    forall y :: 0 <= y < |s.done| && s.done[y] == Entry(j, sc.trace[j].kind) ==>
      Entry(i, sc.trace[i].kind) in s.done[..y]
  }

  lemma ChannelBarrierSafety(sc: SysConfig, n: nat, c: int, s: State, i: int, b: int, j: int)
    requires n <= |sc.trace| && ChannelInv(sc, n, c, s)
    requires i < b < j && PimAt(sc, i, c) && BarrierAt(sc, b, c) && PimAt(sc, j, c)
    ensures DoneInOrder(sc, s, i, j)
  {
    hide Decode, ChannelInv, Safe, Typed;
    var e, bar, f := Entry(i, sc.trace[i].kind), Entry(b, PimBarrier), Entry(j, sc.trace[j].kind);
    forall y | 0 <= y < |s.done| && s.done[y] == f
      ensures e in s.done[..y]
    {
      DoneIsAccepted(sc, n, c, s, y);
      AcceptedIsRecord(sc, n, c, s, f);
      AcceptedIsRecord(sc, n, c, s, bar);
      AcceptedIsRecord(sc, n, c, s, e);
      DoneAfter(sc, n, c, s, y, e, bar);
    }
  }

  lemma DoneIsAccepted(sc: SysConfig, n: nat, c: int, s: State, y: nat)
    requires n <= |sc.trace| && ChannelInv(sc, n, c, s) && y < |s.done| && IsPim(s.done[y].kind)
    ensures s.done[y] in s.accepted
  {
    assert s.done[y] in s.done;
  }

  lemma DoneAfter(sc: SysConfig, n: nat, c: int, s: State, y: nat, e: Entry, b: Entry)
    requires n <= |sc.trace| && ChannelInv(sc, n, c, s)
    requires y < |s.done| && IsPim(s.done[y].kind) && MustPrecede(s.accepted, e, b, s.done[y])
    ensures e in s.done[..y]
  {
  }

  /**
   * Barrier safety of any trace on any device: on every run, a PIM request after a barrier
   * of its channel is done only after every PIM request of that channel before the barrier.
   */
  lemma BarrierSafety(sc: SysConfig, steps: seq<Step>, c: int, i: int, b: int, j: int)
    requires sc.Valid() && i < b < j && 0 <= c < |sc.ctrls|
    requires PimAt(sc, i, c) && BarrierAt(sc, b, c) && PimAt(sc, j, c)
    ensures DoneInOrder(sc, Run(sc, steps).0.ctrls[c], i, j)
  {
    hide ChannelInv, PimAt, BarrierAt, Run, DoneInOrder;
    EveryRun(sc, steps);
    var sys := Run(sc, steps).0;
    ChannelBarrierSafety(sc, sys.count, c, sys.ctrls[c], i, b, j);
  }

  /** When the simulation ends, every PIM request but the barriers is done exactly once, on its channel. */
  lemma FinishedMeansAllDone(sc: SysConfig, steps: seq<Step>, c: int, i: int)
    requires sc.Valid() && 0 <= c < |sc.ctrls| && PimAt(sc, i, c)
    requires Finished(sc, Run(sc, steps).0)
    ensures Times(Run(sc, steps).0.ctrls[c].done, Entry(i, sc.trace[i].kind)) == 1
  {
    EveryRun(sc, steps);
    var sys := Run(sc, steps).0;
    AcceptedIsRecord(sc, sys.count, c, sys.ctrls[c], Entry(i, sc.trace[i].kind));
    ControllerRuns.IdleMeansDone(sys.ctrls[c], Entry(i, sc.trace[i].kind));
  }

  // ---- records of any type ---------------------------------------------------------------

  /** Dropping what does not come from the trace changes no count of a trace record. */
  lemma {:induction false} FromTraceTimes(accepted: seq<Entry>, e: Entry)
    requires e.id >= 0
    ensures Times(FromTrace(accepted), e) == Times(accepted, e)
  {
    hide Times;
    if accepted == [] {
    } else {
      var n := |accepted| - 1;
      FromTraceTimes(accepted[..n], e);
      assert accepted == accepted[..n] + [accepted[n]];
      TimesAppend(accepted[..n], accepted[n], e);
      TimesAppend(FromTrace(accepted[..n]), accepted[n], e);
      assert FromTrace(accepted[..n]) + [] == FromTrace(accepted[..n]);
    }
  }

  lemma {:induction false} PrefixTimes(sc: SysConfig, n: nat, c: int, e: Entry)
    requires n <= |sc.trace|
    ensures Times(PrefixFor(sc, n, c), e) == if RecordOf(sc, e, c) && e.id < n then 1 else 0
  {
    hide ChannelOf, Times;
    if n == 0 {
      TimesNone(e);
    } else {
      PrefixTimes(sc, n - 1, c, e);
      TimesAppend(PrefixFor(sc, n - 1, c), Entry(n - 1, sc.trace[n - 1].kind), e);
      assert PrefixFor(sc, n - 1, c) + [] == PrefixFor(sc, n - 1, c);
    }
  }

  lemma TimesNone(e: Entry)
    ensures Times([], e) == 0
  {
  }

  lemma ChannelRecordInOnePlace(sc: SysConfig, n: nat, c: int, s: State, i: nat)
    requires n <= |sc.trace| && ChannelInv(sc, n, c, s) && i < |sc.trace|
    ensures var e := Entry(i, sc.trace[i].kind);
            Held(s, e) + Gone(s, e) == if i < n && ChannelOf(sc, sc.trace[i].addr) == c then 1 else 0
  {
    hide Held, Gone, Inv, ChannelOf, Times;
    var e := Entry(i, sc.trace[i].kind);
    FromTraceTimes(s.accepted, e);
    PrefixTimes(sc, n, c, e);
    assert Times(s.accepted, e) == Held(s, e) + Gone(s, e);
  }

  /**
   * Conservation of records of any type, on every run: a delivered record is in exactly one
   * place of its own channel and nowhere else; one that is not delivered yet is nowhere.
   */
  lemma EveryRecordInOnePlace(sc: SysConfig, steps: seq<Step>, c: int, i: nat)
    requires sc.Valid() && i < |sc.trace| && 0 <= c < |sc.ctrls|
    ensures var sys, e := Run(sc, steps).0, Entry(i, sc.trace[i].kind);
            Held(sys.ctrls[c], e) + Gone(sys.ctrls[c], e) ==
            if i < sys.count && ChannelOf(sc, sc.trace[i].addr) == c then 1 else 0
  {
    hide ChannelInv, Run, Held, Gone, ChannelOf;
    EveryRun(sc, steps);
    ChannelRecordInOnePlace(sc, Run(sc, steps).0.count, c, Run(sc, steps).0.ctrls[c], i);
  }

  lemma IdleHoldsNothing(s: State, e: Entry)
    requires Idle(s)
    ensures Held(s, e) == 0
  {
    assert Keys([]) == [];
  }

  /** When the simulation ends, every record of any type is done, dropped or lost, exactly once, on its channel. */
  lemma FinishedMeansNoneHeld(sc: SysConfig, steps: seq<Step>, c: int, i: nat)
    requires sc.Valid() && i < |sc.trace| && 0 <= c < |sc.ctrls| && ChannelOf(sc, sc.trace[i].addr) == c
    requires Finished(sc, Run(sc, steps).0)
    ensures Gone(Run(sc, steps).0.ctrls[c], Entry(i, sc.trace[i].kind)) == 1
  {
    hide Run, Held, Gone, ChannelOf;
    EveryRecordInOnePlace(sc, steps, c, i);
    IdleHoldsNothing(Run(sc, steps).0.ctrls[c], Entry(i, sc.trace[i].kind));
  }

  /** Once the frontend is finished, every record of the trace has arrived, once, at its channel. */
  lemma FinishedFrontendHasSentAll(sc: SysConfig, steps: seq<Step>, i: nat)
    requires sc.Valid() && i < |sc.trace| && Run(sc, steps).0.count >= |sc.trace|
    ensures var c, e := ChannelOf(sc, sc.trace[i].addr), Entry(i, sc.trace[i].kind);
            0 <= c < |sc.ctrls| && Held(Run(sc, steps).0.ctrls[c], e) + Gone(Run(sc, steps).0.ctrls[c], e) == 1
  {
    hide Run, Held, Gone, ChannelOf;
    ChannelInRange(sc, sc.trace[i].addr);
    EveryRecordInOnePlace(sc, steps, ChannelOf(sc, sc.trace[i].addr), i);
  }

  // ---- traces without loads and stores ---------------------------------------------------

  ghost predicate PimTrace(sc: SysConfig) {
    && (forall i :: 0 <= i < |sc.trace| ==> IsPim(sc.trace[i].kind))
    && (forall c :: 0 <= c < |sc.ctrls| ==> RefreshNeverOpens(sc.ctrls[c].dev))
  }

  ghost predicate AllLean(sys: System) {
    forall c :: 0 <= c < |sys.ctrls| ==> Lean(sys.ctrls[c])
  }

  lemma {:induction false} DeliverLean(sc: SysConfig, sys: System)
    requires WellFormed(sc, sys) && PimTrace(sc) && AllLean(sys)
    ensures AllLean(Deliver(sc, sys))
    decreases |sc.trace| - sys.count
  {
    hide Lean, Send, Decode, ChannelOf;
    if sys.count >= |sc.trace| || !Forwardable(sc.trace[sys.idx].kind) {
    } else {
      var t := sc.trace[sys.idx];
      ChannelInRange(sc, t.addr);
      var c := ChannelOf(sc, t.addr);
      SendLean(sc.ctrls[c], sys.ctrls[c], MakeRequest(sc, t, sys.idx));
      var (sys', ok) := Offer(sc, sys);
      if ok {
        DeliverLean(sc, sys');
      }
    }
  }

  lemma {:induction false} TickFromLean(sc: SysConfig, sys: System, stale: seq<Command>, c: nat)
    requires |sys.ctrls| == |sc.ctrls| && PimTrace(sc) && AllLean(sys)
    ensures AllLean(TickFrom(sc, sys, stale, c).0)
    decreases |sc.ctrls| - c
  {
    hide Lean, Tick, RefreshNeverOpens;
    if c >= |sc.ctrls| {
    } else {
      TickLean(sc.ctrls[c], sys.ctrls[c], StaleFor(stale, c));
      var (s', ok) := Tick(sc.ctrls[c], sys.ctrls[c], StaleFor(stale, c));
      if ok {
        TickFromLean(sc, sys.(ctrls := sys.ctrls[c := s']), stale, c + 1);
      }
    }
  }

  /** On every run of a PIM-only trace the active buffers stay empty and nothing is ever lost. */
  lemma {:induction false} EveryPimRunIsLean(sc: SysConfig, steps: seq<Step>)
    requires sc.Valid() && PimTrace(sc)
    ensures AllLean(Run(sc, steps).0)
  {
    hide PimTrace, Deliver, TickFrom;
    if steps == [] {
    } else {
      EveryPimRunIsLean(sc, steps[..|steps| - 1]);
      var (sys, ok) := Run(sc, steps[..|steps| - 1]);
      if ok {
        match steps[|steps| - 1]
        case FrontendTick => DeliverLean(sc, sys);
        case MemoryTick(stale) => TickFromLean(sc, sys.(clk := sys.clk + 1), stale, 0);
      }
    }
  }
}
