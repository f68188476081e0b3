/** The active buffer holds requests whose row was opened, in the order of opening. */
module ActivationOrder {
  import opened PimTypes
  import opened PimScheduler
  import opened ControllerState
  import ControllerRuns
  import RefreshPriority
  import opened SystemState

  /** A command that opens the row of `v` was issued at position `k`. */
  ghost predicate OpenedAt(issued: seq<Issue>, v: AddrVec, k: int) {
    0 <= k < |issued| && issued[k].addrVec == v && IsOpening(issued[k].command)
  }

  /** Request `i` of the buffer had its row opened at position `ks[i]`, one after the other. */
  ghost predicate OpenedInTurn(issued: seq<Issue>, q: seq<Request>, ks: seq<int>) {
    && |ks| == |q|
    && (forall i :: 0 <= i < |q| ==> OpenedAt(issued, q[i].addrVec, ks[i]))
    && forall i, j :: 0 <= i < j < |q| ==> ks[i] < ks[j]
  }

  ghost predicate Opened(issued: seq<Issue>, q: seq<Request>) {
    exists ks :: OpenedInTurn(issued, q, ks)
  }

  lemma OpenedLater(issued: seq<Issue>, q: seq<Request>, x: Issue)
    requires Opened(issued, q)
    ensures Opened(issued + [x], q)
  {
    var ks :| OpenedInTurn(issued, q, ks);
    assert OpenedInTurn(issued + [x], q, ks);
  }

  lemma OpenedNow(issued: seq<Issue>, q: seq<Request>, r: Request, x: Issue)
    requires Opened(issued, q) && x.addrVec == r.addrVec && IsOpening(x.command)
    ensures Opened(issued + [x], q + [r])
  {
    hide IsOpening;
    var ks :| OpenedInTurn(issued, q, ks);
    assert OpenedInTurn(issued + [x], q + [r], ks + [|issued|]);
  }

  lemma OpenedRemoved(issued: seq<Issue>, q: seq<Request>, k: nat)
    requires Opened(issued, q) && k < |q|
    ensures Opened(issued, RemoveAt(q, k))
  {
    var ks :| OpenedInTurn(issued, q, ks);
    assert OpenedInTurn(issued, RemoveAt(q, k), RemoveAt(ks, k));
  }

  lemma OpenedBest(issued: seq<Issue>, d: Dram, q: seq<Request>)
    requires Opened(issued, q)
    ensures Opened(issued, Best(d, q).0)
  {
    var p := Prepare(d, q);
    var ks :| OpenedInTurn(issued, q, ks);
    assert OpenedInTurn(issued, p, ks);
    if LeadingBarrier(p) {
      OpenedRemoved(issued, p, 0);
      assert RemoveAt(p, 0) == p[1..];
    }
  }

  lemma ChooseOpened(cfg: Config, s: State, first: Option<Command>)
    requires Opened(s.issued, s.activeQ)
    ensures var s' := Choose(cfg, s, first).0; Opened(s'.issued, s'.activeQ)
  {
    hide Opened, Try, TryQueues, Complementary;
    ControllerRuns.ChooseIsQuiet(cfg, s, first);
    TryOpened(cfg, s, first);
    var s1 := Try(cfg, s, ActiveBuf, first).0;
    if s1.priorityQ == [] {
      RefreshPriority.TryQueuesSource(cfg, s1, first);
    } else {
      RefreshPriority.TryQueuesSource(cfg, SetHeadCommand(cfg, s1), first);
    }
  }

  lemma TryOpened(cfg: Config, s: State, first: Option<Command>)
    requires Opened(s.issued, s.activeQ)
    ensures Opened(s.issued, Try(cfg, s, ActiveBuf, first).0.activeQ)
  {
    hide Opened, Best, Complementary;
    OpenedBest(s.issued, DramOf(cfg, s), s.activeQ);
    assert Buf(s, ActiveBuf) == s.activeQ;
  }

  lemma ExecuteOpened(cfg: Config, s: State, t: Slot)
    requires InBuf(s, t) && Opened(s.issued, s.activeQ)
    ensures var s' := Execute(cfg, s, t); Opened(s'.issued, s'.activeQ)
  {
    hide Opened, IsOpening;
    var r := At(s, t);
    var x := Issue(s.clk, r.command, r.addrVec);
    OpenedLater(s.issued, s.activeQ, x);
    if t.buf == ActiveBuf {
      OpenedRemoved(s.issued + [x], s.activeQ, t.index);
    }
    if IsOpening(r.command) {
      OpenedNow(s.issued, s.activeQ, r, x);
      if t.buf == ActiveBuf {
        OpenedRemoved(s.issued + [x], s.activeQ + [r], t.index);
      }
    }
  }

  lemma SlotOpened(cfg: Config, s: State, first: Option<Command>)
    requires Opened(s.issued, s.activeQ)
    ensures var (s1, t) := Choose(cfg, s, first);
            var s' := ExecuteIf(cfg, s1, t);
            Opened(s'.issued, s'.activeQ)
  {
    hide Opened, Choose, Execute;
    ChooseOpened(cfg, s, first);
    var (s1, t) := Choose(cfg, s, first);
    if t.Some? {
      ExecuteOpened(cfg, s1, t.value);
    }
  }

  lemma TickOpened(cfg: Config, s: State, stale: Command)
    requires Opened(s.issued, s.activeQ)
    ensures var s' := Tick(cfg, s, stale).0; Opened(s'.issued, s'.activeQ)
  {
    hide Opened, Choose, ExecuteIf, BeginTick, FirstCommand, ControllerRuns.Refreshed;
    ControllerRuns.BeginTickQueues(cfg, s);
    var s0 := BeginTick(cfg, s).0;
    SlotOpened(cfg, s0, None);
    var (s1, t1) := Choose(cfg, s0, None);
    SlotOpened(cfg, ExecuteIf(cfg, s1, t1), Some(FirstCommand(cfg, s0, stale)));
  }

  // ---- every run -------------------------------------------------------------------------

  ghost predicate AllOpened(sys: System) {
    forall c :: 0 <= c < |sys.ctrls| ==> Opened(sys.ctrls[c].issued, sys.ctrls[c].activeQ)
  }

  lemma SendKeepsActive(cfg: Config, s: State, req: Request)
    ensures var s' := Send(cfg, s, req).0; s'.issued == s.issued && s'.activeQ == s.activeQ
  {
  }

  lemma {:induction false} DeliverOpened(sc: SysConfig, sys: System)
    requires WellFormed(sc, sys) && AllOpened(sys)
    ensures AllOpened(Deliver(sc, sys))
    decreases |sc.trace| - sys.count
  {
    hide Opened, Send, Decode, ChannelOf;
    if sys.count >= |sc.trace| || !Forwardable(sc.trace[sys.idx].kind) {
    } else {
      var t := sc.trace[sys.idx];
      ChannelInRange(sc, t.addr);
      var c := ChannelOf(sc, t.addr);
      SendKeepsActive(sc.ctrls[c], sys.ctrls[c], MakeRequest(sc, t, sys.idx));
      var (sys', ok) := Offer(sc, sys);
      if ok {
        DeliverOpened(sc, sys');
      }
    }
  }

  lemma {:induction false} TickFromOpened(sc: SysConfig, sys: System, stale: seq<Command>, c: nat)
    requires |sys.ctrls| == |sc.ctrls| && AllOpened(sys)
    ensures AllOpened(TickFrom(sc, sys, stale, c).0)
    decreases |sc.ctrls| - c
  {
    hide Opened, Tick;
    if c >= |sc.ctrls| {
    } else {
      TickOpened(sc.ctrls[c], sys.ctrls[c], StaleFor(stale, c));
      var (s', ok) := Tick(sc.ctrls[c], sys.ctrls[c], StaleFor(stale, c));
      if ok {
        TickFromOpened(sc, sys.(ctrls := sys.ctrls[c := s']), stale, c + 1);
      }
    }
  }

  /**
   * On every run, an opening command was issued for every request of every active buffer, and
   * the buffer is in the order in which that happened.
   */
  lemma {:induction false} EveryActiveWasOpened(sc: SysConfig, steps: seq<Step>)
    requires sc.Valid()
    ensures AllOpened(Run(sc, steps).0)
  {
    hide Deliver, TickFrom, Opened;
    if steps == [] {
      NoneOpened();
    } else {
      EveryActiveWasOpened(sc, steps[..|steps| - 1]);
      var (sys, ok) := Run(sc, steps[..|steps| - 1]);
      if ok {
        match steps[|steps| - 1]
        case FrontendTick => DeliverOpened(sc, sys);
        case MemoryTick(stale) => TickFromOpened(sc, sys.(clk := sys.clk + 1), stale, 0);
      }
    }
  }

  lemma NoneOpened()
    ensures Opened([], [])
  {
    assert OpenedInTurn([], [], []);
  }
}
