/** Issue discipline, refresh cadence and loss of requests, over whole controller runs. */
module ControllerRuns {
  import opened PimTypes
  import opened PimScheduler
  import opened ControllerState
  import opened BarrierLedger
  import opened ControllerSafety
  import opened Arith

  // ---- one place per request -------------------------------------------------------------

  lemma {:induction false} OnceInOrder(accepted: seq<Entry>, e: Entry)
    requires InTraceOrder(accepted) && IsPim(e.kind)
    ensures Times(accepted, e) == if e in accepted then 1 else 0
  {
    if accepted == [] {
    } else {
      var n := |accepted| - 1;
      var front := accepted[..n];
      assert accepted == front + [accepted[n]];
      assert InTraceOrder(front);
      OnceInOrder(front, e);
      assert forall i :: 0 <= i < n ==> front[i] == accepted[i];
    }
  }

  /** An accepted PIM request is in exactly one place, and it was accepted exactly once. */
  lemma ExactlyOnePlace(s: State, e: Entry)
    requires Good(s) && IsPim(e.kind)
    ensures Held(s, e) + Gone(s, e) == if e in s.accepted then 1 else 0
  {
    OnceInOrder(s.accepted, e);
    assert Times(s.accepted, e) == Held(s, e) + Gone(s, e);
  }

  /** When the controller is idle, every accepted PIM request but a dropped barrier is done, once. */
  lemma IdleMeansDone(s: State, e: Entry)
    requires Good(s) && Idle(s) && e in s.accepted && IsPim(e.kind) && e.kind != PimBarrier
    ensures Times(s.done, e) == 1 && e !in s.dropped && e !in s.lost
  {
    ExactlyOnePlace(s, e);
    WaitsOrDone(Keys(s.pimQ), s.accepted, s.done, s.dropped, e);
    assert e in s.done;
  }

  // ---- write mode ------------------------------------------------------------------------

  lemma WatermarksOrdered(low: real, high: real, cap: nat)
    requires low <= high
    ensures low * cap as real <= high * cap as real
  {
  }

  /**
   * Read mode never serves an empty read buffer. The mode changes exactly past a watermark or
   * when the reads run out, and with ordered watermarks it then stays: deciding twice is
   * deciding once.
   */
  lemma WriteModeSettles(cfg: Config, s: State)
    ensures var s' := SetWriteMode(cfg, s);
            && s' == s.(writeMode := s'.writeMode)
            && (!s'.writeMode ==> s'.readQ != [])
            && (s.writeMode && !s'.writeMode <==>
                  s.writeMode && s.readQ != [] && (|s.writeQ| as real) < cfg.lowWatermark * cfg.writeCap as real)
            && (!s.writeMode && s'.writeMode <==>
                  !s.writeMode && (s.readQ == [] || |s.writeQ| as real > cfg.highWatermark * cfg.writeCap as real))
            && (cfg.lowWatermark <= cfg.highWatermark ==> SetWriteMode(cfg, s') == s')
  {
    if cfg.lowWatermark <= cfg.highWatermark {
      WatermarksOrdered(cfg.lowWatermark, cfg.highWatermark, cfg.writeCap);
    }
  }

  // ---- issue discipline ------------------------------------------------------------------

  /** What one slot adds to the commands issued. */
  function Issued(s: State, t: Option<Slot>): seq<Issue>
    requires t.Some? ==> InBuf(s, t.value)
  {
    if t.Some? then [Issue(s.clk, At(s, t.value).command, At(s, t.value).addrVec)] else []
  }

  /** Nothing was issued or accepted, and no time passed. */
  ghost predicate Quiet(s: State, s': State) {
    s'.issued == s.issued && s'.clk == s.clk && s'.accepted == s.accepted && s'.refresher == s.refresher
  }

  lemma SetBufIsQuiet(s: State, b: BufId, q: seq<Request>)
    ensures Quiet(s, SetBuf(s, b, q))
  {
  }

  lemma TryIsQuiet(cfg: Config, s: State, b: BufId, first: Option<Command>)
    ensures Quiet(s, Try(cfg, s, b, first).0)
  {
    hide Best, SetBuf, Complementary;
    var q := Best(DramOf(cfg, s), Buf(s, b)).0;
    SetBufIsQuiet(s, b, q);
    if LeadingBarrier(Buf(s, b)) {
      SetBufIsQuiet(s.(dropped := s.dropped + [Key(Buf(s, b)[0])]), b, q);
    }
  }

  lemma TryEmpty(cfg: Config, s: State, b: BufId, first: Option<Command>)
    requires Buf(s, b) == []
    ensures Try(cfg, s, b, first) == (s, None)
  {
    hide Best;
    BestOfNone(DramOf(cfg, s));
  }

  /** In the order of arrival, a head that is fit to serve is found. */
  lemma TryHead(cfg: Config, s: State, b: BufId, first: Option<Command>)
    requires Buf(s, b) != [] && NoBarriers(Buf(s, b)) && ArrivalOrdered(Buf(s, b))
    requires var r := Buf(s, b)[0].(command := DramOf(cfg, s).Preq(Buf(s, b)[0]));
             DramOf(cfg, s).Ready(r) && (first.Some? ==> Complementary(first.value, r.command))
    ensures Try(cfg, s, b, first) == (SetBuf(s, b, Prepare(DramOf(cfg, s), Buf(s, b))), Some(Slot(b, 0)))
  {
    hide Best, Complementary, Dram.Preq, Dram.Ready;
    ReadyHeadIsBest(DramOf(cfg, s), Buf(s, b));
    assert DramOf(cfg, SetBuf(s, b, Prepare(DramOf(cfg, s), Buf(s, b)))) == DramOf(cfg, s);
  }

  /** Nothing is found where no request is both ready and of the right type. */
  lemma TryNothing(cfg: Config, s: State, b: BufId, first: Option<Command>)
    requires NoBarriers(Buf(s, b))
    requires forall i :: 0 <= i < |Buf(s, b)| ==>
               var r := Buf(s, b)[i].(command := DramOf(cfg, s).Preq(Buf(s, b)[i]));
               !DramOf(cfg, s).Ready(r) || (first.Some? && !Complementary(first.value, r.command))
    ensures Try(cfg, s, b, first) == (SetBuf(s, b, Prepare(DramOf(cfg, s), Buf(s, b))), None)
  {
    hide Candidate, HitBanks, Complementary, Dram.Ready, Dram.Preq;
    var q := Buf(s, b);
    var p := Prepare(DramOf(cfg, s), q);
    assert p != [] ==> p[0].kind == q[0].kind;
    assert Best(DramOf(cfg, s), q).0 == p;
    assert DramOf(cfg, SetBuf(s, b, p)) == DramOf(cfg, s);
  }

  lemma TryQueuesIsQuiet(cfg: Config, s: State, first: Option<Command>)
    ensures Quiet(s, TryQueues(cfg, s, first).0)
  {
    hide Try;
    var s1 := Try(cfg, s.(isPim := false), PimBuf, first).0;
    TryIsQuiet(cfg, s.(isPim := false), PimBuf, first);
    var s2 := SetWriteMode(cfg, s1);
    TryIsQuiet(cfg, s2, if s2.writeMode then WriteBuf else ReadBuf, first);
  }

  /** Choosing a request is quiet. */
  lemma ChooseIsQuiet(cfg: Config, s: State, first: Option<Command>)
    ensures Quiet(s, Choose(cfg, s, first).0)
  {
    hide Try, TryQueues;
    TryIsQuiet(cfg, s, ActiveBuf, first);
    var s1 := Try(cfg, s, ActiveBuf, first).0;
    if s1.priorityQ != [] {
      TryQueuesIsQuiet(cfg, SetHeadCommand(cfg, s1), first);
    } else {
      TryQueuesIsQuiet(cfg, s1, first);
    }
  }

  /** Executing a slot issues its command and nothing else. */
  lemma ExecuteIssues(cfg: Config, s: State, t: Option<Slot>)
    requires t.Some? ==> InBuf(s, t.value)
    ensures var s' := ExecuteIf(cfg, s, t);
            s'.issued == s.issued + Issued(s, t) && Quiet(s, s'.(issued := s.issued))
  {
    if t.Some? {
      var r := At(s, t.value);
      var s1 := s.(issued := s.issued + [Issue(s.clk, r.command, r.addrVec)]);
      CompleteIsQuiet(cfg, s1, t.value);
      MoveIsQuiet(cfg, s1, t.value);
    }
  }

  lemma ExecuteNothing(cfg: Config, s: State)
    ensures ExecuteIf(cfg, s, None) == s
  {
  }

  lemma CompleteIsQuiet(cfg: Config, s: State, t: Slot)
    requires InBuf(s, t)
    ensures Quiet(s, Complete(cfg, s, t))
  {
  }

  lemma MoveIsQuiet(cfg: Config, s: State, t: Slot)
    requires InBuf(s, t)
    ensures Quiet(s, MoveToActive(cfg, s, t))
  {
  }

  /** Commands that move or process data: the final commands of all requests but refreshes and barriers. */
  ghost predicate ServesData(c: Command) {
    exists t: ReqType :: t !in {AllBankRefresh, PerBankRefresh, PimBarrier} && c == Translate(t)
  }

  /** Commands that open, close or refresh rows. Precharges of one side or bank of a channel are not paired with anything. */
  ghost predicate ServesRows(c: Command) {
    c !in {PRESB, PREPB} && (IsOpening(c) || IsClosing(c) || c == Translate(AllBankRefresh) || c == Translate(PerBankRefresh))
  }

  /** Column commands are those that serve data, row commands those that serve rows. */
  lemma TypesMean(c: Command)
    ensures CommandType(c) == 1 <==> ServesData(c)
    ensures CommandType(c) == 0 <==> ServesRows(c)
  {
    if CommandType(c) == 1 {
      assert c == Translate(ServedBy(c));
    }
  }

  /** The request type that a column command serves. */
  ghost function ServedBy(c: Command): ReqType
    requires CommandType(c) == 1
  {
    match c
    case RD => Read
    case WR => Write
    case MACAB => PimMacAb
    case MACSB => PimMacSb
    case MACPB => PimMacPb
    case WRGB => PimWrGb
    case MVSB => PimMvSb
    case MVGB => PimMvGb
    case SFM => PimSfm
    case SETM => PimSetModel
    case SETH => PimSetHead
  }

  /** Of two commands issued in one cycle, one serves rows and one serves data. */
  ghost predicate OneRowOneColumn(issued: seq<Issue>) {
    |issued| == 2 ==>
      var a, b := issued[0].command, issued[1].command;
      (ServesRows(a) && ServesData(b)) || (ServesData(a) && ServesRows(b))
  }

  lemma PairOfTypes(a: Issue, b: Issue)
    requires Complementary(a.command, b.command)
    ensures OneRowOneColumn([a, b])
  {
    hide ServesRows, ServesData;
    TypesMean(a.command);
    TypesMean(b.command);
  }

  /** `issued` extends `before` by at most two commands, and by two only as above. */
  ghost predicate IssueDiscipline(before: seq<Issue>, issued: seq<Issue>) {
    |before| <= |issued| <= |before| + 2 && before == issued[..|before|] && OneRowOneColumn(issued[|before|..])
  }

  /** The iterator points to the request that is served, if one is. */
  lemma FirstCommandOfSlot(cfg: Config, s: State, stale: Command)
    ensures var (s', t) := Choose(cfg, s, None);
            t.Some? ==> FirstCommand(cfg, s, stale) == At(s', t.value).command
  {
    hide BestOf;
  }

  lemma IssueTwoIssues(cfg: Config, s: State, stale: Command)
    ensures IssueDiscipline(s.issued, IssueTwo(cfg, s, stale).issued)
    ensures Quiet(s, IssueTwo(cfg, s, stale).(issued := s.issued))
  {
    hide Choose, ExecuteIf, FirstCommand, Complementary, ServesRows, ServesData;
    ChooseIsQuiet(cfg, s, None);
    var (s1, t1) := Choose(cfg, s, None);
    ExecuteIssues(cfg, s1, t1);
    var first := FirstCommand(cfg, s, stale);
    FirstCommandOfSlot(cfg, s, stale);
    var s2 := ExecuteIf(cfg, s1, t1);
    ChooseIsQuiet(cfg, s2, Some(first));
    var (s3, t3) := Choose(cfg, s2, Some(first));
    ExecuteIssues(cfg, s3, t3);
    var added := Issued(s1, t1) + Issued(s3, t3);
    assert ExecuteIf(cfg, s3, t3).issued == s.issued + added;
    assert (s.issued + added)[|s.issued|..] == added;
    if |added| == 2 {
      PairOfTypes(added[0], added[1]);
      assert added == [added[0], added[1]];
    }
  }

  // ---- the first part of a cycle ---------------------------------------------------------

  /** An all-bank refresh of pseudochannel `p` of the controller's own channel. */
  ghost predicate OwnRefresh(cfg: Config, p: int, r: Request) {
    && r.kind == AllBankRefresh && r.finalCommand == REFab && r.id == -1 - p
    && r.addrVec[0] == cfg.channel && r.addrVec[1] == p && forall l :: 2 <= l < LEVELS ==> r.addrVec[l] == -1
  }

  /** `q'` is `q` and one refresh for each of the pseudochannels from `pch` on; all of them, if `all`. */
  ghost predicate Refreshed(cfg: Config, q: seq<Request>, q': seq<Request>, pch: nat, all: bool) {
    && q <= q' && (all ==> |q'| == |q| + cfg.numPch - pch)
    && forall k :: |q| <= k < |q'| ==> OwnRefresh(cfg, pch + k - |q|, q'[k]) && pch + k - |q| < cfg.numPch
  }

  /** One refresh for each pseudochannel from `pch` on, in order, behind what is queued already; nothing else changes. */
  lemma {:induction false} QueueRefreshesQueues(cfg: Config, s: State, pch: nat)
    requires pch <= cfg.numPch
    ensures var (s', ok) := QueueRefreshes(cfg, s, pch);
            && Refreshed(cfg, s.priorityQ, s'.priorityQ, pch, ok)
            && (ok <==> |s.priorityQ| + (cfg.numPch - pch) <= cfg.priorityCap || pch == cfg.numPch)
            && s' == s.(priorityQ := s'.priorityQ, accepted := s'.accepted)
    decreases cfg.numPch - pch
  {
    if pch >= cfg.numPch || |s.priorityQ| >= cfg.priorityCap {
    } else {
      QueueRefreshesQueues(cfg, PrioritySend(cfg, s, RefreshRequest(cfg, pch)).0, pch + 1);
    }
  }

  /**
   * The first part of a cycle queues a refresh for each pseudochannel when one is due, and none
   * otherwise. It returns at most one read and leaves the other buffers as they were.
   */
  lemma BeginTickQueues(cfg: Config, s: State)
    ensures var (s', ok) := BeginTick(cfg, s);
            && (if s.refresher.clk + 1 == s.refresher.next then
                  Refreshed(cfg, s.priorityQ, s'.priorityQ, 0, ok) &&
                  (ok <==> |s.priorityQ| + cfg.numPch <= cfg.priorityCap || cfg.numPch == 0)
                else ok && s'.priorityQ == s.priorityQ)
            && s'.activeQ == s.activeQ && s'.readQ == s.readQ && s'.writeQ == s.writeQ && s'.pimQ == s.pimQ
            && s'.issued == s.issued && s'.clk == s.clk + 1
            && if s.pending != [] && s.pending[0].depart <= s.clk + 1
               then s'.pending == s.pending[1..] && s'.done == s.done + [Key(s.pending[0])]
               else s'.pending == s.pending && s'.done == s.done
  {
    hide RefreshTick, Refreshed;
    RefreshTickQueues(cfg, ServeCompletedReads(s.(clk := s.clk + 1)));
  }

  lemma RefreshTickQueues(cfg: Config, s: State)
    ensures var (s', ok) := RefreshTick(cfg, s);
            && s' == s.(priorityQ := s'.priorityQ, accepted := s'.accepted, refresher := s'.refresher)
            && (if s.refresher.clk + 1 == s.refresher.next then
                  Refreshed(cfg, s.priorityQ, s'.priorityQ, 0, ok) &&
                  (ok <==> |s.priorityQ| + cfg.numPch <= cfg.priorityCap || cfg.numPch == 0)
                else ok && s'.priorityQ == s.priorityQ)
  {
    hide QueueRefreshes, Refreshed;
    QueueRefreshesQueues(cfg, s.(refresher := Refresher(s.refresher.clk + 1, s.refresher.next + cfg.nREFI)), 0);
  }

  /** Every cycle issues at most two commands and, if two, one of each type. */
  lemma TickIssues(cfg: Config, s: State, stale: Command)
    ensures IssueDiscipline(s.issued, Tick(cfg, s, stale).0.issued)
  {
    hide IssueTwo, BeginTick, Refreshed;
    BeginTickQueues(cfg, s);
    IssueTwoIssues(cfg, BeginTick(cfg, s).0, stale);
  }

  // ---- refresh cadence -------------------------------------------------------------------

  datatype Event = Arrive(req: Request) | Cycle(stale: Command)

  /** The state after the events, and whether no cycle threw. */
  function Run(cfg: Config, s: State, evs: seq<Event>): (State, bool) {
    if evs == [] then (s, true)
    else
      var (s', ok) := Run(cfg, s, evs[..|evs| - 1]);
      if !ok then (s', false)
      else match evs[|evs| - 1]
        case Arrive(req) => (Send(cfg, s', req).0, true)
        case Cycle(stale) => Tick(cfg, s', stale)
  }

  function Cycles(evs: seq<Event>): nat {
    if evs == [] then 0 else Cycles(evs[..|evs| - 1]) + if evs[|evs| - 1].Cycle? then 1 else 0
  }

  function Refresh(pch: nat): Entry {
    Entry(-1 - pch, AllBankRefresh)
  }

  /** After `t` cycles the refresh manager has queued t / nREFI refreshes per pseudochannel. */
  ghost predicate OnSchedule(cfg: Config, s: State, t: nat) {
    && cfg.nREFI > 0
    && s.refresher == Refresher(t, (t / cfg.nREFI + 1) * cfg.nREFI)
    && forall p: nat :: p < cfg.numPch ==> Times(s.accepted, Refresh(p)) == t / cfg.nREFI
  }

  /** Only `priority_send` accepts refreshes. */
  lemma SendOnSchedule(cfg: Config, s: State, req: Request, t: nat)
    requires OnSchedule(cfg, s, t)
    ensures OnSchedule(cfg, Send(cfg, s, req).0, t)
  {
    var s' := Send(cfg, s, req).0;
    forall p: nat | p < cfg.numPch
      ensures Times(s'.accepted, Refresh(p)) == t / cfg.nREFI
    {
      TimesAppend(s.accepted, Key(req), Refresh(p));
    }
  }

  /** The refreshes from `pch` on are queued once each, exactly when there is room for all of them. */
  lemma {:induction false} QueueRefreshesCounts(cfg: Config, s: State, pch: nat)
    requires pch <= cfg.numPch
    ensures var (s', ok) := QueueRefreshes(cfg, s, pch);
            && (ok <==> |s.priorityQ| + (cfg.numPch - pch) <= cfg.priorityCap || pch == cfg.numPch)
            && s'.refresher == s.refresher
            && (ok ==> forall p: nat :: p < cfg.numPch ==>
                  Times(s'.accepted, Refresh(p)) == Times(s.accepted, Refresh(p)) + if pch <= p then 1 else 0)
    decreases cfg.numPch - pch
  {
    hide Times;
    if pch >= cfg.numPch || |s.priorityQ| >= cfg.priorityCap {
    } else {
      var s1 := PrioritySend(cfg, s, RefreshRequest(cfg, pch)).0;
      QueueRefreshesCounts(cfg, s1, pch + 1);
      forall p: nat | p < cfg.numPch
        ensures Times(s1.accepted, Refresh(p)) == Times(s.accepted, Refresh(p)) + if pch == p then 1 else 0
      {
        TimesAppend(s.accepted, Refresh(pch), Refresh(p));
      }
    }
  }

  lemma NextRefresh(t: nat, n: int)
    requires n > 0
    ensures t + 1 == (t / n + 1) * n ==> (t + 1) / n == t / n + 1
    ensures t + 1 != (t / n + 1) * n ==> (t + 1) / n == t / n
    ensures t + 1 == (t / n + 1) * n <==> (t + 1) % n == 0
  {
    var q := t / n;
    assert q * n <= t < (q + 1) * n;
    if t + 1 == (q + 1) * n {
      DivUnique(t + 1, n, q + 1);
    } else {
      DivUnique(t + 1, n, q);
    }
  }

  /** A cycle throws exactly when refreshes are due and the priority buffer cannot take them all. */
  lemma TickOnSchedule(cfg: Config, s: State, stale: Command, t: nat)
    requires OnSchedule(cfg, s, t)
    ensures var (s', ok) := Tick(cfg, s, stale);
            && (ok ==> OnSchedule(cfg, s', t + 1))
            && (!ok <==> (t + 1) % cfg.nREFI == 0 && cfg.numPch > 0 && |s.priorityQ| + cfg.numPch > cfg.priorityCap)
  {
    hide IssueTwo, BeginTick, IssueDiscipline, OnSchedule;
    BeginOnSchedule(cfg, s, t);
    var (s1, ok) := BeginTick(cfg, s);
    if ok {
      IssueTwoIssues(cfg, s1, stale);
      QuietOnSchedule(cfg, s1, IssueTwo(cfg, s1, stale), t + 1);
    }
  }

  lemma QuietOnSchedule(cfg: Config, s: State, s': State, t: nat)
    requires OnSchedule(cfg, s, t) && s'.accepted == s.accepted && s'.refresher == s.refresher
    ensures OnSchedule(cfg, s', t)
  {
    hide Times;
  }

  /** The first part of a cycle, which queues the refreshes. */
  lemma BeginOnSchedule(cfg: Config, s: State, t: nat)
    requires OnSchedule(cfg, s, t)
    ensures var (s', ok) := BeginTick(cfg, s);
            && (ok ==> OnSchedule(cfg, s', t + 1))
            && (!ok <==> (t + 1) % cfg.nREFI == 0 && cfg.numPch > 0 && |s.priorityQ| + cfg.numPch > cfg.priorityCap)
  {
    hide QueueRefreshes, Times;
    var s1 := ServeCompletedReads(s.(clk := s.clk + 1));
    var s2 := s1.(refresher := Refresher(t + 1, s.refresher.next + cfg.nREFI));
    QueueRefreshesCounts(cfg, s2, 0);
    NextRefresh(t, cfg.nREFI);
  }

  lemma {:induction false} RefreshCadence(cfg: Config, evs: seq<Event>)
    requires cfg.nREFI > 0
    ensures var (s, ok) := Run(cfg, Init(cfg), evs);
            ok ==> OnSchedule(cfg, s, Cycles(evs))
  {
    hide Tick, Send;
    if evs == [] {
    } else {
      var front := evs[..|evs| - 1];
      RefreshCadence(cfg, front);
      var (s, ok) := Run(cfg, Init(cfg), front);
      if ok {
        match evs[|evs| - 1]
        case Arrive(req) => SendOnSchedule(cfg, s, req, Cycles(front));
        case Cycle(stale) => TickOnSchedule(cfg, s, stale, Cycles(front));
      }
    }
  }
}
