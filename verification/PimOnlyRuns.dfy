/** Traces without loads and stores: only the PIM and priority buffers are used, nothing is lost. */
module PimOnlyRuns {
  import opened PimTypes
  import opened PimScheduler
  import opened ControllerState

  /** A refresh needs precharges, never an activate; the device's only prerequisite of REFab closes banks. */
  ghost predicate RefreshNeverOpens(dev: Device) {
    forall issued, clk, v :: !IsOpening(dev.preq(issued, clk, REFab, v))
  }

  ghost predicate Refreshes(q: seq<Request>) {
    forall i :: 0 <= i < |q| ==> q[i].kind == AllBankRefresh && q[i].finalCommand == REFab
  }

  ghost predicate NoLoadsOrStores(q: seq<Request>) {
    forall i :: 0 <= i < |q| ==> q[i].kind != Read
  }

  /** Everything the controller holds is a PIM request or a refresh, and nothing was lost. */
  ghost predicate Lean(s: State) {
    && s.activeQ == [] && s.readQ == [] && s.writeQ == [] && s.pending == [] && s.lost == []
    && Refreshes(s.priorityQ) && NoLoadsOrStores(s.pimQ)
  }

  /** The slot can only complete its request or leave it where it is. */
  ghost predicate Stays(s: State, t: Slot) {
    InBuf(s, t) && (t.buf == PimBuf || t.buf == PriorityBuf) && (s.isPim || !IsOpening(At(s, t).command))
  }

  lemma BestNoLoads(d: Dram, q: seq<Request>)
    requires NoLoadsOrStores(q)
    ensures NoLoadsOrStores(Best(d, q).0)
  {
    assert forall i :: 0 <= i < |q| ==> Prepare(d, q)[i].kind == q[i].kind;
  }

  lemma TryLean(cfg: Config, s: State, b: BufId, first: Option<Command>)
    requires Lean(s) && b != PriorityBuf
    ensures var (s', t) := Try(cfg, s, b, first);
            Lean(s') && (t.Some? ==> b == PimBuf) && s'.priorityQ == s.priorityQ
  {
    hide Best, NoLoadsOrStores, Refreshes, Complementary;
    if b == PimBuf {
      BestNoLoads(DramOf(cfg, s), s.pimQ);
    } else {
      BestOfNone(DramOf(cfg, s));
      assert Buf(s, b) == [];
    }
  }

  lemma TryQueuesLean(cfg: Config, s: State, first: Option<Command>)
    requires Lean(s)
    ensures var (s', t) := TryQueues(cfg, s, first);
            Lean(s') && (t.Some? ==> Stays(s', t.value))
  {
    hide Try;
    var s0 := s.(isPim := false);
    TryLean(cfg, s0, PimBuf, first);
    var s2 := SetWriteMode(cfg, Try(cfg, s0, PimBuf, first).0);
    TryLean(cfg, s2, if s2.writeMode then WriteBuf else ReadBuf, first);
  }

  lemma ChooseLean(cfg: Config, s: State, first: Option<Command>)
    requires Lean(s) && RefreshNeverOpens(cfg.dev)
    ensures var (s', t) := Choose(cfg, s, first);
            Lean(s') && (t.Some? ==> Stays(s', t.value))
  {
    hide Try, TryQueues;
    TryLean(cfg, s, ActiveBuf, first);
    var s1 := Try(cfg, s, ActiveBuf, first).0;
    if s1.priorityQ != [] {
      var s2 := SetHeadCommand(cfg, s1);
      assert s2.priorityQ[0].command == cfg.dev.preq(s1.issued, s1.clk, REFab, s1.priorityQ[0].addrVec);
      TryQueuesLean(cfg, s2, first);
    } else {
      TryQueuesLean(cfg, s1, first);
    }
  }

  lemma RemoveKeeps(q: seq<Request>, k: nat)
    requires k < |q|
    ensures Refreshes(q) ==> Refreshes(RemoveAt(q, k)) && q[k].kind != Read
    ensures NoLoadsOrStores(q) ==> NoLoadsOrStores(RemoveAt(q, k)) && q[k].kind != Read
  {
  }

  lemma CompleteLean(cfg: Config, s: State, t: Slot)
    requires Lean(s) && InBuf(s, t) && (t.buf == PimBuf || t.buf == PriorityBuf)
    ensures Lean(Complete(cfg, s, t))
  {
    hide Refreshes, NoLoadsOrStores;
    RemoveKeeps(Buf(s, t.buf), t.index);
  }

  lemma ExecuteLean(cfg: Config, s: State, t: Option<Slot>)
    requires Lean(s) && (t.Some? ==> Stays(s, t.value))
    ensures Lean(ExecuteIf(cfg, s, t))
  {
    hide Refreshes, NoLoadsOrStores, Complete, MoveToActive, IsOpening;
    if t.Some? {
      var r := At(s, t.value);
      CompleteLean(cfg, s.(issued := s.issued + [Issue(s.clk, r.command, r.addrVec)]), t.value);
    }
  }

  lemma {:induction false} QueueRefreshesLean(cfg: Config, s: State, pch: nat)
    requires Lean(s)
    ensures Lean(QueueRefreshes(cfg, s, pch).0)
    decreases cfg.numPch - pch
  {
    if pch >= cfg.numPch || !PrioritySend(cfg, s, RefreshRequest(cfg, pch)).1 {
    } else {
      QueueRefreshesLean(cfg, PrioritySend(cfg, s, RefreshRequest(cfg, pch)).0, pch + 1);
    }
  }

  lemma TickLean(cfg: Config, s: State, stale: Command)
    requires Lean(s) && RefreshNeverOpens(cfg.dev)
    ensures Lean(Tick(cfg, s, stale).0)
  {
    hide Choose, ExecuteIf, QueueRefreshes, FirstCommand;
    var s1 := ServeCompletedReads(s.(clk := s.clk + 1));
    QueueRefreshesLean(cfg, s1.(refresher := Refresher(s1.refresher.clk + 1, s1.refresher.next + cfg.nREFI)), 0);
    var (s2, ok) := BeginTick(cfg, s);
    ChooseLean(cfg, s2, None);
    var (s3, t3) := Choose(cfg, s2, None);
    ExecuteLean(cfg, s3, t3);
    var s4, first := ExecuteIf(cfg, s3, t3), Some(FirstCommand(cfg, s2, stale));
    ChooseLean(cfg, s4, first);
    var (s5, t5) := Choose(cfg, s4, first);
    ExecuteLean(cfg, s5, t5);
  }

  lemma SendLean(cfg: Config, s: State, req: Request)
    requires Lean(s) && IsPim(req.kind)
    ensures Lean(Send(cfg, s, req).0)
  {
  }

  /** With loads and stores a request is lost exactly when it moves to a full active buffer. */
  lemma LostExactlyWhenActiveFull(cfg: Config, s: State, t: Option<Slot>)
    requires t.Some? ==> InBuf(s, t.value)
    ensures ExecuteIf(cfg, s, t).lost != s.lost <==>
              t.Some? && !s.isPim && |s.activeQ| >= cfg.activeCap &&
              IsOpening(At(s, t.value).command) && At(s, t.value).command != At(s, t.value).finalCommand
  {
  }
}
