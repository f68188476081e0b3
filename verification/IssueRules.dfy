/** What a controller issues: commands that the device asks for and reports as ready, for requests in its buffers. */
module IssueRules {
  import opened PimTypes
  import opened PimScheduler
  import opened ControllerState
  import ControllerRuns

  // ---- what becomes of the buffers -------------------------------------------------------

  /** What no step rewrites in a request. */
  function Job(r: Request): Request {
    r.(arrive := 0, depart := 0, command := Unset)
  }

  ghost predicate HasJob(q: seq<Request>, j: Request) {
    exists i :: 0 <= i < |q| && Job(q[i]) == j
  }

  /** `q'` holds no job that `q` does not hold. */
  ghost predicate Inside(q': seq<Request>, q: seq<Request>) {
    forall k :: 0 <= k < |q'| ==> HasJob(q, Job(q'[k]))
  }

  /** Some buffer holds the job. */
  ghost predicate Waits(s: State, j: Request) {
    HasJob(s.activeQ, j) || HasJob(s.priorityQ, j) || HasJob(s.readQ, j) || HasJob(s.writeQ, j) || HasJob(s.pimQ, j)
  }

  /** No buffer holds a new job, but requests may have moved to the active buffer. */
  ghost predicate Within(s: State, s': State) {
    && Inside(s'.priorityQ, s.priorityQ) && Inside(s'.readQ, s.readQ)
    && Inside(s'.writeQ, s.writeQ) && Inside(s'.pimQ, s.pimQ)
    && forall k :: 0 <= k < |s'.activeQ| ==> Waits(s, Job(s'.activeQ[k]))
  }

  /** The buffers may have been rewritten, and that is all. */
  ghost predicate Calm(s: State, s': State) {
    Within(s, s') && s'.issued == s.issued && s'.clk == s.clk && s'.pending == s.pending && s'.done == s.done
  }

  lemma InsideSelf(q: seq<Request>)
    ensures Inside(q, q)
  {
  }

  lemma HasJobAt(q: seq<Request>, k: nat)
    requires k < |q|
    ensures HasJob(q, Job(q[k]))
  {
  }

  lemma InsideHas(q': seq<Request>, q: seq<Request>, j: Request)
    requires Inside(q', q) && HasJob(q', j)
    ensures HasJob(q, j)
  {
  }

  lemma InsideTrans(q'': seq<Request>, q': seq<Request>, q: seq<Request>)
    requires Inside(q'', q') && Inside(q', q)
    ensures Inside(q'', q)
  {
    hide HasJob;
    forall k | 0 <= k < |q''|
      ensures HasJob(q, Job(q''[k]))
    {
      InsideHas(q', q, Job(q''[k]));
    }
  }

  lemma WaitsWithin(s: State, s': State, j: Request)
    requires Within(s, s') && Waits(s', j)
    ensures Waits(s, j)
  {
    if !HasJob(s'.activeQ, j) {
      hide HasJob;
      forall q', q | Inside(q', q) && HasJob(q', j)
        ensures HasJob(q, j)
      {
        InsideHas(q', q, j);
      }
    }
  }

  lemma WithinTrans(s: State, s': State, s'': State)
    requires Within(s, s') && Within(s', s'')
    ensures Within(s, s'')
  {
    hide Inside, Waits;
    InsideTrans(s''.priorityQ, s'.priorityQ, s.priorityQ);
    InsideTrans(s''.readQ, s'.readQ, s.readQ);
    InsideTrans(s''.writeQ, s'.writeQ, s.writeQ);
    InsideTrans(s''.pimQ, s'.pimQ, s.pimQ);
    forall k | 0 <= k < |s''.activeQ|
      ensures Waits(s, Job(s''.activeQ[k]))
    {
      WaitsWithin(s, s', Job(s''.activeQ[k]));
    }
  }

  lemma CalmTrans(s: State, s': State, s'': State)
    requires Calm(s, s') && Calm(s', s'')
    ensures Calm(s, s'')
  {
    hide Within;
    WithinTrans(s, s', s'');
  }

  lemma SetBufWithin(s: State, b: BufId, q: seq<Request>)
    requires Inside(q, Buf(s, b))
    ensures Calm(s, SetBuf(s, b, q))
  {
    hide HasJob;
    InsideSelf(s.activeQ);
    InsideSelf(s.priorityQ);
    InsideSelf(s.readQ);
    InsideSelf(s.writeQ);
    InsideSelf(s.pimQ);
  }

  lemma SameBuffersCalm(s: State, s': State)
    requires s' == s.(isPim := s'.isPim, writeMode := s'.writeMode, dropped := s'.dropped)
    ensures Calm(s, s')
  {
    assert SetBuf(s, ActiveBuf, s.activeQ) == s;
    InsideSelf(s.activeQ);
    SetBufWithin(s, ActiveBuf, s.activeQ);
  }

  lemma BestInside(d: Dram, q: seq<Request>)
    ensures Inside(Best(d, q).0, q)
  {
    hide Best;
    BestPrepares(d, q);
    forall k | 0 <= k < |Best(d, q).0|
      ensures HasJob(q, Job(Best(d, q).0[k]))
    {
      var i :| 0 <= i < |q| && Best(d, q).0[k] == q[i].(command := d.Preq(q[i]));
      assert Job(q[i]) == Job(Best(d, q).0[k]);
    }
  }

  lemma BestOfCalm(cfg: Config, s: State, b: BufId)
    ensures Calm(s, BestOf(cfg, s, b).0)
  {
    hide Best, SetBuf, Inside, Within;
    var q := Buf(s, b);
    BestInside(DramOf(cfg, s), q);
    var s1 := if LeadingBarrier(q) then s.(dropped := s.dropped + [Key(q[0])]) else s;
    SameBuffersCalm(s, s1);
    SetBufWithin(s1, b, Best(DramOf(cfg, s), q).0);
    CalmTrans(s, s1, BestOf(cfg, s, b).0);
  }

  lemma TryCalm(cfg: Config, s: State, b: BufId, first: Option<Command>)
    ensures Calm(s, Try(cfg, s, b, first).0)
  {
    hide BestOf, Calm, Complementary;
    BestOfCalm(cfg, s, b);
  }

  lemma TryQueuesCalm(cfg: Config, s: State, first: Option<Command>)
    ensures Calm(s, TryQueues(cfg, s, first).0)
  {
    hide Try, Calm;
    var s0 := s.(isPim := false);
    SameBuffersCalm(s, s0);
    var (s1, p) := Try(cfg, s0, PimBuf, first);
    TryCalm(cfg, s0, PimBuf, first);
    CalmTrans(s, s0, s1);
    SameBuffersCalm(s1, s1.(isPim := true));
    CalmTrans(s, s1, s1.(isPim := true));
    var s2 := SetWriteMode(cfg, s1);
    SameBuffersCalm(s1, s2);
    CalmTrans(s, s1, s2);
    var b := if s2.writeMode then WriteBuf else ReadBuf;
    TryCalm(cfg, s2, b, first);
    CalmTrans(s, s2, Try(cfg, s2, b, first).0);
  }

  lemma SetHeadCalm(cfg: Config, s: State)
    requires s.priorityQ != []
    ensures Calm(s, SetHeadCommand(cfg, s))
  {
    var q := SetHeadCommand(cfg, s).priorityQ;
    assert forall k :: 0 <= k < |q| ==> Job(q[k]) == Job(s.priorityQ[k]);
    SetBufWithin(s, PriorityBuf, q);
  }

  /** Choosing adds nothing to any buffer. */
  lemma ChooseCalm(cfg: Config, s: State, first: Option<Command>)
    ensures Calm(s, Choose(cfg, s, first).0)
  {
    hide Try, TryQueues, Calm, SetHeadCommand, Complementary;
    TryCalm(cfg, s, ActiveBuf, first);
    var s1 := Try(cfg, s, ActiveBuf, first).0;
    if s1.priorityQ == [] {
      TryQueuesCalm(cfg, s1, first);
      CalmTrans(s, s1, TryQueues(cfg, s1, first).0);
    } else {
      var s2 := SetHeadCommand(cfg, s1);
      SetHeadCalm(cfg, s1);
      CalmTrans(s, s1, s2);
      SameBuffersCalm(s2, s2.(isPim := false));
      CalmTrans(s, s2, s2.(isPim := false));
      TryQueuesCalm(cfg, s2, first);
      CalmTrans(s, s2, TryQueues(cfg, s2, first).0);
    }
  }

  lemma RemoveInside(q: seq<Request>, k: nat)
    requires k < |q|
    ensures Inside(RemoveAt(q, k), q)
  {
    forall i | 0 <= i < |q| - 1
      ensures HasJob(q, Job(RemoveAt(q, k)[i]))
    {
      HasJobAt(q, if i < k then i else i + 1);
    }
  }

  ghost predicate SameBuffers(s: State, s': State) {
    && s'.activeQ == s.activeQ && s'.priorityQ == s.priorityQ && s'.readQ == s.readQ
    && s'.writeQ == s.writeQ && s'.pimQ == s.pimQ
  }

  lemma SameWithin(s: State, s': State)
    requires SameBuffers(s, s')
    ensures Within(s, s')
  {
    hide HasJob;
    InsideSelf(s.activeQ);
    InsideSelf(s.priorityQ);
    InsideSelf(s.readQ);
    InsideSelf(s.writeQ);
    InsideSelf(s.pimQ);
  }

  lemma RemoveWithin(s: State, t: Slot)
    requires InBuf(s, t)
    ensures Within(s, SetBuf(s, t.buf, RemoveAt(Buf(s, t.buf), t.index)))
  {
    hide Inside;
    RemoveInside(Buf(s, t.buf), t.index);
    SetBufWithin(s, t.buf, RemoveAt(Buf(s, t.buf), t.index));
  }

  lemma AtWaits(s: State, t: Slot)
    requires InBuf(s, t)
    ensures Waits(s, Job(At(s, t)))
  {
    hide HasJob;
    HasJobAt(Buf(s, t.buf), t.index);
  }

  lemma MoveWithin(cfg: Config, s: State, t: Slot)
    requires InBuf(s, t)
    ensures Within(s, MoveToActive(cfg, s, t))
  {
    hide SetBuf, Inside, HasJob;
    var r := At(s, t);
    var s1 := if |s.activeQ| < cfg.activeCap then s.(activeQ := s.activeQ + [r]) else s.(lost := s.lost + [Key(r)]);
    AtWaits(s, t);
    SameWithin(s, s);
    SameWithin(s, s.(lost := s.lost + [Key(r)]));
    assert Within(s, s1);
    RemoveWithin(s1, t);
    WithinTrans(s, s1, MoveToActive(cfg, s, t));
  }

  lemma CompleteWithin(cfg: Config, s: State, t: Slot)
    requires InBuf(s, t)
    ensures Within(s, Complete(cfg, s, t))
  {
    hide SetBuf, Within;
    var s1 := Settle(cfg, s, At(s, t));
    SameWithin(s, s1);
    RemoveWithin(s1, t);
    WithinTrans(s, s1, Complete(cfg, s, t));
  }

  /** Executing a slot adds no job either. */
  lemma ExecuteWithin(cfg: Config, s: State, t: Option<Slot>)
    requires t.Some? ==> InBuf(s, t.value)
    ensures Within(s, ExecuteIf(cfg, s, t))
  {
    hide Within, Complete, MoveToActive;
    SameWithin(s, s);
    if t.Some? {
      var r := At(s, t.value);
      var s1 := s.(issued := s.issued + [Issue(s.clk, r.command, r.addrVec)]);
      SameWithin(s, s1);
      SameWithin(s1, s1);
      CompleteWithin(cfg, s1, t.value);
      MoveWithin(cfg, s1, t.value);
      WithinTrans(s, s1, ExecuteIf(cfg, s, t));
    }
  }

  /** Addresses that agree on all levels above the row. */
  ghost predicate SameBank(v: AddrVec, w: AddrVec) {
    v[0] == w[0] && v[1] == w[1] && v[2] == w[2] && v[3] == w[3] && v[4] == w[4]
  }

  lemma SameBankIsBankOf(v: AddrVec, w: AddrVec)
    ensures SameBank(v, w) <==> BankOf(v) == BankOf(w)
  {
    assert forall i :: 0 <= i < ROW_LEVEL ==> BankOf(v)[i] == v[i] && BankOf(w)[i] == w[i];
  }

  // ---- what a slot serves ----------------------------------------------------------------

  /** The command is the one the device asks for next, it is ready, and it closes no row of an activated request. */
  ghost predicate Fit(cfg: Config, s: State, r: Request) {
    && cfg.dev.ready(s.issued, s.clk, r.command, r.addrVec)
    && r.command == cfg.dev.preq(s.issued, s.clk, r.finalCommand, r.addrVec)
    && (IsClosing(r.command) ==> forall i :: 0 <= i < |s.activeQ| ==> !SameBank(s.activeQ[i].addrVec, r.addrVec))
  }

  /** The check for closing commands keeps back exactly those for the bank of an activated request. */
  lemma ClosesMeans(s: State, r: Request)
    ensures ClosesActiveRow(s, r) <==>
            IsClosing(r.command) && exists i :: 0 <= i < |s.activeQ| && SameBank(s.activeQ[i].addrVec, r.addrVec)
  {
    hide BankOf, SameBank;
    forall i | 0 <= i < |s.activeQ|
      ensures SameBank(s.activeQ[i].addrVec, r.addrVec) <==> BankOf(s.activeQ[i].addrVec) == BankOf(r.addrVec)
    {
      SameBankIsBankOf(s.activeQ[i].addrVec, r.addrVec);
    }
  }

  lemma TryFit(cfg: Config, s: State, b: BufId, first: Option<Command>)
    ensures var (s', t) := Try(cfg, s, b, first);
            t.Some? ==> DramOf(cfg, s').Ready(At(s', t.value)) && At(s', t.value).command == DramOf(cfg, s').Preq(At(s', t.value))
  {
    hide Best, SetBuf, Complementary;
    ControllerRuns.TryIsQuiet(cfg, s, b, first);
    BestPrepares(DramOf(cfg, s), Buf(s, b));
    var (s', t) := Try(cfg, s, b, first);
    if t.Some? {
      assert At(s', t.value) == Best(DramOf(cfg, s), Buf(s, b)).0[t.value.index];
    }
  }

  lemma TryQueuesFit(cfg: Config, s: State, first: Option<Command>)
    ensures var (s', t) := TryQueues(cfg, s, first);
            t.Some? ==> DramOf(cfg, s').Ready(At(s', t.value)) && At(s', t.value).command == DramOf(cfg, s').Preq(At(s', t.value))
  {
    hide Try;
    var s1 := Try(cfg, s.(isPim := false), PimBuf, first).0;
    TryFit(cfg, s.(isPim := false), PimBuf, first);
    var s2 := SetWriteMode(cfg, s1);
    TryFit(cfg, s2, if s2.writeMode then WriteBuf else ReadBuf, first);
    assert forall t :: InBuf(s1, t) ==> At(s1.(isPim := true), t) == At(s1, t);
  }

  /** Either slot serves only requests whose next command is ready, and never closes the row of an activated one. */
  lemma ChooseFit(cfg: Config, s: State, first: Option<Command>)
    ensures var (s', t) := Choose(cfg, s, first);
            t.Some? ==> Fit(cfg, s', At(s', t.value)) && Waits(s, Job(At(s', t.value)))
  {
    hide Choose, Within, Waits, SameBank;
    var (s', t) := Choose(cfg, s, first);
    ChooseReady(cfg, s, first);
    ChooseCalm(cfg, s, first);
    if t.Some? {
      AtWaits(s', t.value);
      WaitsWithin(s, s', Job(At(s', t.value)));
      ClosesMeans(s', At(s', t.value));
    }
  }

  lemma ChooseReady(cfg: Config, s: State, first: Option<Command>)
    ensures var (s', t) := Choose(cfg, s, first);
            t.Some? ==>
              var r := At(s', t.value);
              DramOf(cfg, s').Ready(r) && r.command == DramOf(cfg, s').Preq(r) && !ClosesActiveRow(s', r)
  {
    hide Try, TryQueues, Complementary;
    TryFit(cfg, s, ActiveBuf, first);
    var s1 := Try(cfg, s, ActiveBuf, first).0;
    if s1.priorityQ == [] {
      TryQueuesFit(cfg, s1, first);
    } else {
      TryQueuesFit(cfg, SetHeadCommand(cfg, s1), first);
    }
  }

  // ---- what a cycle issues ---------------------------------------------------------------

  /**
   * The command at position `k` is ready after those before it, and it is what the device then
   * asks for next to serve a request that waited in `s`.
   */
  ghost predicate Serves(dev: Device, s: State, issued: seq<Issue>, k: nat)
    requires k < |issued|
  {
    var x := issued[k];
    && x.clk == s.clk
    && dev.ready(issued[..k], x.clk, x.command, x.addrVec)
    && exists j ::
         Waits(s, j) && j.addrVec == x.addrVec && x.command == dev.preq(issued[..k], x.clk, j.finalCommand, j.addrVec)
  }

  ghost predicate AllServe(dev: Device, s: State, issued: seq<Issue>) {
    && |s.issued| <= |issued| && issued[..|s.issued|] == s.issued
    && forall k :: |s.issued| <= k < |issued| ==> Serves(dev, s, issued, k)
  }

  /** One slot: it issues what it chose. */
  lemma SlotServes(cfg: Config, s0: State, s: State, first: Option<Command>)
    requires Within(s0, s) && s.clk == s0.clk && AllServe(cfg.dev, s0, s.issued)
    ensures var (s1, t) := Choose(cfg, s, first);
            var s' := ExecuteIf(cfg, s1, t);
            Within(s0, s') && s'.clk == s0.clk && AllServe(cfg.dev, s0, s'.issued)
  {
    hide Choose, ExecuteIf, Within, Waits, SameBank;
    ChooseCalm(cfg, s, first);
    ChooseFit(cfg, s, first);
    var (s1, t) := Choose(cfg, s, first);
    ControllerRuns.ExecuteIssues(cfg, s1, t);
    ControllerRuns.ExecuteNothing(cfg, s1);
    ExecuteWithin(cfg, s1, t);
    var s' := ExecuteIf(cfg, s1, t);
    WithinTrans(s0, s, s1);
    WithinTrans(s0, s1, s');
    if t.Some? {
      var r := At(s1, t.value);
      WaitsWithin(s0, s, Job(r));
      ServesNext(cfg, s0, s1, r, s'.issued);
    }
  }

  lemma ServesNext(cfg: Config, s0: State, s: State, r: Request, issued: seq<Issue>)
    requires Waits(s0, Job(r)) && s.clk == s0.clk && Fit(cfg, s, r) && AllServe(cfg.dev, s0, s.issued)
    requires issued == s.issued + [Issue(s.clk, r.command, r.addrVec)]
    ensures AllServe(cfg.dev, s0, issued)
  {
    hide Waits, SameBank;
    var n := |s.issued|;
    assert issued[..n] == s.issued;
    assert Job(r).finalCommand == r.finalCommand && Job(r).addrVec == r.addrVec;
    assert Serves(cfg.dev, s0, issued, n);
    forall k | |s0.issued| <= k < n
      ensures Serves(cfg.dev, s0, issued, k)
    {
      assert Serves(cfg.dev, s0, s.issued, k);
      assert issued[..k] == s.issued[..k];
    }
    assert issued[..|s0.issued|] == s.issued[..|s0.issued|];
  }

  /**
   * Every command of a cycle is ready on the device when it is issued, and is what the device
   * asks for to serve a request in one of the five buffers.
   */
  lemma TickServes(cfg: Config, s: State, stale: Command)
    ensures var s', ok := Tick(cfg, s, stale).0, Tick(cfg, s, stale).1;
            && (!ok ==> s'.issued == s.issued)
            && s.issued <= s'.issued
            && AllServe(cfg.dev, BeginTick(cfg, s).0, s'.issued)
            && Within(BeginTick(cfg, s).0, s')
            && BeginTick(cfg, s).0.clk == s.clk + 1 == s'.clk
  {
    hide Choose, ExecuteIf, BeginTick, Within, FirstCommand, Serves, ControllerRuns.Refreshed;
    ControllerRuns.BeginTickQueues(cfg, s);
    var s0 := BeginTick(cfg, s).0;
    SameWithin(s0, s0);
    SlotServes(cfg, s0, s0, None);
    var (s1, t1) := Choose(cfg, s0, None);
    SlotServes(cfg, s0, ExecuteIf(cfg, s1, t1), Some(FirstCommand(cfg, s0, stale)));
  }
}
