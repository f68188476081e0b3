/** The read, write and PIM buffers stay in the order of arrival, so the simple selection rule applies to them on every run. */
module ArrivalOrder {
  import opened PimTypes
  import opened PimScheduler
  import opened ControllerState
  import opened SystemState

  /** In the order of arrival, and nothing from the future. */
  ghost predicate Arrived(q: seq<Request>, clk: int) {
    ArrivalOrdered(q) && forall i :: 0 <= i < |q| ==> q[i].arrive <= clk
  }

  /** Buffers that `send` appends to; the active buffer is in the order of activation instead. */
  predicate IsQueue(b: BufId) {
    b == ReadBuf || b == WriteBuf || b == PimBuf
  }

  ghost predicate InOrder(s: State) {
    Arrived(s.readQ, s.clk) && Arrived(s.writeQ, s.clk) && Arrived(s.pimQ, s.clk)
  }

  lemma BestArrived(d: Dram, q: seq<Request>, clk: int)
    requires Arrived(q, clk)
    ensures Arrived(Best(d, q).0, clk)
  {
    var p := Prepare(d, q);
    assert forall i :: 0 <= i < |p| ==> p[i].arrive == q[i].arrive;
  }

  lemma RemoveArrived(q: seq<Request>, k: nat, clk: int)
    requires k < |q| && Arrived(q, clk)
    ensures Arrived(RemoveAt(q, k), clk)
  {
  }

  lemma SetBufInOrder(s: State, b: BufId, q: seq<Request>)
    requires InOrder(s) && (IsQueue(b) ==> Arrived(q, s.clk))
    ensures InOrder(SetBuf(s, b, q))
  {
    hide Arrived;
  }

  lemma BufArrived(s: State, b: BufId)
    requires InOrder(s) && IsQueue(b)
    ensures Arrived(Buf(s, b), s.clk)
  {
    hide Arrived;
  }

  lemma TryInOrder(cfg: Config, s: State, b: BufId, first: Option<Command>)
    requires InOrder(s)
    ensures InOrder(Try(cfg, s, b, first).0)
  {
    hide Best, SetBuf, Arrived, Complementary;
    var d, q := DramOf(cfg, s), Buf(s, b);
    if IsQueue(b) {
      BufArrived(s, b);
      BestArrived(d, q, s.clk);
    }
    var s' := if LeadingBarrier(q) then s.(dropped := s.dropped + [Key(q[0])]) else s;
    SetBufInOrder(s', b, Best(d, q).0);
  }

  lemma TryQueuesInOrder(cfg: Config, s: State, first: Option<Command>)
    requires InOrder(s)
    ensures InOrder(TryQueues(cfg, s, first).0)
  {
    hide Try, Arrived;
    var s1 := Try(cfg, s.(isPim := false), PimBuf, first).0;
    TryInOrder(cfg, s.(isPim := false), PimBuf, first);
    var s2 := SetWriteMode(cfg, s1);
    TryInOrder(cfg, s2, if s2.writeMode then WriteBuf else ReadBuf, first);
  }

  lemma ChooseInOrder(cfg: Config, s: State, first: Option<Command>)
    requires InOrder(s)
    ensures InOrder(Choose(cfg, s, first).0)
  {
    hide Try, TryQueues, Arrived, Complementary, Protect;
    TryInOrder(cfg, s, ActiveBuf, first);
    var s1 := Try(cfg, s, ActiveBuf, first).0;
    if s1.priorityQ != [] {
      TryQueuesInOrder(cfg, SetHeadCommand(cfg, s1), first);
    } else {
      TryQueuesInOrder(cfg, s1, first);
    }
  }

  lemma RemoveInOrder(s: State, s': State, t: Slot)
    requires InOrder(s) && InBuf(s', t)
    requires s'.readQ == s.readQ && s'.writeQ == s.writeQ && s'.pimQ == s.pimQ && s'.clk == s.clk
    ensures InOrder(SetBuf(s', t.buf, RemoveAt(Buf(s', t.buf), t.index)))
  {
    hide Arrived;
    if IsQueue(t.buf) {
      BufArrived(s', t.buf);
      RemoveArrived(Buf(s', t.buf), t.index, s'.clk);
    }
    SetBufInOrder(s', t.buf, RemoveAt(Buf(s', t.buf), t.index));
  }

  lemma SameQueues(s: State, s': State)
    requires InOrder(s)
    requires s'.readQ == s.readQ && s'.writeQ == s.writeQ && s'.pimQ == s.pimQ && s'.clk == s.clk
    ensures InOrder(s')
  {
    hide Arrived;
  }

  lemma StillIn(s: State, s': State, t: Slot)
    requires InBuf(s, t) && |s.activeQ| <= |s'.activeQ| && s'.priorityQ == s.priorityQ
    requires s'.readQ == s.readQ && s'.writeQ == s.writeQ && s'.pimQ == s.pimQ
    ensures InBuf(s', t)
  {
  }

  lemma CompleteInOrder(cfg: Config, s: State, t: Slot)
    requires InOrder(s) && InBuf(s, t)
    ensures InOrder(Complete(cfg, s, t))
  {
    hide Arrived, SetBuf, InBuf, InOrder;
    StillIn(s, Settle(cfg, s, At(s, t)), t);
    RemoveInOrder(s, Settle(cfg, s, At(s, t)), t);
  }

  lemma MoveInOrder(cfg: Config, s: State, t: Slot)
    requires InOrder(s) && InBuf(s, t)
    ensures InOrder(MoveToActive(cfg, s, t))
  {
    hide Arrived, SetBuf, InBuf, InOrder;
    var r := At(s, t);
    var moved := if |s.activeQ| < cfg.activeCap then s.(activeQ := s.activeQ + [r]) else s.(lost := s.lost + [Key(r)]);
    StillIn(s, moved, t);
    RemoveInOrder(s, moved, t);
  }

  lemma ExecuteInOrder(cfg: Config, s: State, t: Option<Slot>)
    requires InOrder(s) && (t.Some? ==> InBuf(s, t.value))
    ensures InOrder(ExecuteIf(cfg, s, t))
  {
    hide Arrived, InOrder, InBuf, Complete, MoveToActive, IsOpening;
    if t.Some? {
      var r := At(s, t.value);
      var s1 := s.(issued := s.issued + [Issue(s.clk, r.command, r.addrVec)]);
      SameQueues(s, s1);
      StillIn(s, s1, t.value);
      CompleteInOrder(cfg, s1, t.value);
      MoveInOrder(cfg, s1, t.value);
    }
  }

  lemma {:induction false} QueueRefreshesInOrder(cfg: Config, s: State, pch: nat)
    requires InOrder(s)
    ensures InOrder(QueueRefreshes(cfg, s, pch).0)
    decreases cfg.numPch - pch
  {
    hide Arrived;
    if pch >= cfg.numPch || !PrioritySend(cfg, s, RefreshRequest(cfg, pch)).1 {
    } else {
      QueueRefreshesInOrder(cfg, PrioritySend(cfg, s, RefreshRequest(cfg, pch)).0, pch + 1);
    }
  }

  lemma ArrivedLater(q: seq<Request>, clk: int)
    requires Arrived(q, clk)
    ensures Arrived(q, clk + 1)
  {
  }

  lemma BeginTickInOrder(cfg: Config, s: State)
    requires InOrder(s)
    ensures InOrder(BeginTick(cfg, s).0)
  {
    ArrivedLater(s.readQ, s.clk);
    ArrivedLater(s.writeQ, s.clk);
    ArrivedLater(s.pimQ, s.clk);
    hide Arrived, QueueRefreshes;
    var s1 := ServeCompletedReads(s.(clk := s.clk + 1));
    QueueRefreshesInOrder(cfg, s1.(refresher := Refresher(s1.refresher.clk + 1, s1.refresher.next + cfg.nREFI)), 0);
  }

  lemma TickInOrder(cfg: Config, s: State, stale: Command)
    requires InOrder(s)
    ensures InOrder(Tick(cfg, s, stale).0)
  {
    hide InOrder, Choose, ExecuteIf, BeginTick, FirstCommand;
    BeginTickInOrder(cfg, s);
    var s1 := BeginTick(cfg, s).0;
    ChooseInOrder(cfg, s1, None);
    var (s2, t2) := Choose(cfg, s1, None);
    ExecuteInOrder(cfg, s2, t2);
    var s3, first := ExecuteIf(cfg, s2, t2), Some(FirstCommand(cfg, s1, stale));
    ChooseInOrder(cfg, s3, first);
    var (s4, t4) := Choose(cfg, s3, first);
    ExecuteInOrder(cfg, s4, t4);
  }

  lemma ArriveLast(q: seq<Request>, r: Request, clk: int)
    requires Arrived(q, clk) && r.arrive == clk
    ensures Arrived(q + [r], clk)
  {
  }

  lemma SendInOrder(cfg: Config, s: State, req: Request)
    requires InOrder(s)
    ensures InOrder(Send(cfg, s, req).0)
  {
    hide Arrived, SetBuf, Forwarded;
    var r := req.(finalCommand := Translate(req.kind));
    var target := Target(cfg, r.kind);
    if target.Some? {
      var b := target.value.0;
      BufArrived(s, b);
      ArriveLast(Buf(s, b), r.(arrive := s.clk), s.clk);
      SetBufInOrder(s.(accepted := s.accepted + [Key(r)]), b, Buf(s, b) + [r.(arrive := s.clk)]);
    }
  }

  // ---- every run -------------------------------------------------------------------------

  ghost predicate AllInOrder(sys: System) {
    forall c :: 0 <= c < |sys.ctrls| ==> InOrder(sys.ctrls[c])
  }

  lemma {:induction false} DeliverInOrder(sc: SysConfig, sys: System)
    requires WellFormed(sc, sys) && AllInOrder(sys)
    ensures AllInOrder(Deliver(sc, sys))
    decreases |sc.trace| - sys.count
  {
    hide InOrder, Send, Decode, ChannelOf;
    if sys.count >= |sc.trace| || !Forwardable(sc.trace[sys.idx].kind) {
    } else {
      var t := sc.trace[sys.idx];
      ChannelInRange(sc, t.addr);
      var c := ChannelOf(sc, t.addr);
      SendInOrder(sc.ctrls[c], sys.ctrls[c], MakeRequest(sc, t, sys.idx));
      var (sys', ok) := Offer(sc, sys);
      if ok {
        DeliverInOrder(sc, sys');
      }
    }
  }

  lemma {:induction false} TickFromInOrder(sc: SysConfig, sys: System, stale: seq<Command>, c: nat)
    requires |sys.ctrls| == |sc.ctrls| && AllInOrder(sys)
    ensures AllInOrder(TickFrom(sc, sys, stale, c).0)
    decreases |sc.ctrls| - c
  {
    hide InOrder, Tick;
    if c >= |sc.ctrls| {
    } else {
      TickInOrder(sc.ctrls[c], sys.ctrls[c], StaleFor(stale, c));
      var (s', ok) := Tick(sc.ctrls[c], sys.ctrls[c], StaleFor(stale, c));
      if ok {
        TickFromInOrder(sc, sys.(ctrls := sys.ctrls[c := s']), stale, c + 1);
      }
    }
  }

  lemma {:induction false} EveryRunInOrder(sc: SysConfig, steps: seq<Step>)
    requires sc.Valid()
    ensures AllInOrder(Run(sc, steps).0)
  {
    hide Deliver, TickFrom;
    if steps == [] {
    } else {
      EveryRunInOrder(sc, steps[..|steps| - 1]);
      var (sys, ok) := Run(sc, steps[..|steps| - 1]);
      if ok {
        match steps[|steps| - 1]
        case FrontendTick => DeliverInOrder(sc, sys);
        case MemoryTick(stale) => TickFromInOrder(sc, sys.(clk := sys.clk + 1), stale, 0);
      }
    }
  }

  // ---- selections inside a cycle ---------------------------------------------------------

  /** Asked in state `s`, the scheduler selects the first pickable request of the buffer. */
  ghost predicate FollowsRule(cfg: Config, s: State, b: BufId) {
    var d, q := DramOf(cfg, s), Buf(s, b);
    var (rest, best) := Best(d, q);
    rest != [] ==> best.Some? && FirstPickable(d, HitBanks(d, Prepare(d, q)), rest, |rest|, best.value)
  }

  /** The state in which a slot asks the PIM buffer. */
  function BeforePim(cfg: Config, s: State, first: Option<Command>): State {
    var s1 := Try(cfg, s, ActiveBuf, first).0;
    (if s1.priorityQ != [] then SetHeadCommand(cfg, s1) else s1).(isPim := false)
  }

  /** The state in which a slot then asks the read or the write buffer. */
  function BeforeData(cfg: Config, s: State, first: Option<Command>): State {
    SetWriteMode(cfg, Try(cfg, BeforePim(cfg, s, first), PimBuf, first).0)
  }

  function DataBuf(s: State): BufId {
    if s.writeMode then WriteBuf else ReadBuf
  }

  /** The state in which a slot asks the buffer that it serves. */
  function AskedIn(cfg: Config, s: State, first: Option<Command>, b: BufId): State {
    if b == PimBuf then BeforePim(cfg, s, first) else BeforeData(cfg, s, first)
  }

  /**
   * A slot asks the PIM buffer, and then the read or the write buffer, by the simple rule; what
   * it serves from one of them is what was selected there.
   */
  ghost predicate SlotFollowsRule(cfg: Config, s: State, first: Option<Command>) {
    && FollowsRule(cfg, BeforePim(cfg, s, first), PimBuf)
    && FollowsRule(cfg, BeforeData(cfg, s, first), DataBuf(BeforeData(cfg, s, first)))
    && var (s', t) := Choose(cfg, s, first);
       t.Some? && IsQueue(t.value.buf) ==>
         var asked := AskedIn(cfg, s, first, t.value.buf);
         var (rest, best) := Best(DramOf(cfg, asked), Buf(asked, t.value.buf));
         (t.value.buf == PimBuf || t.value.buf == DataBuf(asked)) && best == Some(t.value.index)
  }

  lemma QueueFollowsRule(cfg: Config, s: State, b: BufId)
    requires InOrder(s) && IsQueue(b)
    ensures FollowsRule(cfg, s, b)
  {
    hide Best, FirstPickable;
    BufArrived(s, b);
    BestIsFirstPickable(DramOf(cfg, s), Buf(s, b));
  }

  lemma BeforePimInOrder(cfg: Config, s: State, first: Option<Command>)
    requires InOrder(s)
    ensures InOrder(BeforePim(cfg, s, first))
  {
    hide Try, Arrived;
    TryInOrder(cfg, s, ActiveBuf, first);
  }

  lemma SlotSelects(cfg: Config, s: State, first: Option<Command>)
    requires InOrder(s)
    ensures SlotFollowsRule(cfg, s, first)
  {
    hide InOrder, FollowsRule, Choose, BeforePim, Best;
    BeforePimInOrder(cfg, s, first);
    QueueFollowsRule(cfg, BeforePim(cfg, s, first), PimBuf);
    TryInOrder(cfg, BeforePim(cfg, s, first), PimBuf, first);
    WriteModeInOrder(cfg, Try(cfg, BeforePim(cfg, s, first), PimBuf, first).0);
    var s2 := BeforeData(cfg, s, first);
    QueueFollowsRule(cfg, s2, DataBuf(s2));
    ServesSelected(cfg, s, first);
  }

  lemma WriteModeInOrder(cfg: Config, s: State)
    requires InOrder(s)
    ensures InOrder(SetWriteMode(cfg, s))
  {
    hide Arrived;
  }

  /** What a slot serves from a queue was selected in the state in which it asked. */
  lemma ServesSelected(cfg: Config, s: State, first: Option<Command>)
    ensures var (s', t) := Choose(cfg, s, first);
            t.Some? && IsQueue(t.value.buf) ==>
              var asked := AskedIn(cfg, s, first, t.value.buf);
              (t.value.buf == PimBuf || t.value.buf == DataBuf(asked)) &&
              Best(DramOf(cfg, asked), Buf(asked, t.value.buf)).1 == Some(t.value.index)
  {
    hide Try, TryQueues, Best;
    var (s', t) := Choose(cfg, s, first);
    if t.Some? && IsQueue(t.value.buf) {
      var s0 := Try(cfg, s, ActiveBuf, first).0;
      QueuesServe(cfg, if s0.priorityQ != [] then SetHeadCommand(cfg, s0) else s0, first);
    }
  }

  lemma QueuesServe(cfg: Config, s: State, first: Option<Command>)
    ensures var (s', t) := TryQueues(cfg, s, first);
            var s0 := s.(isPim := false);
            var s2 := SetWriteMode(cfg, Try(cfg, s0, PimBuf, first).0);
            t.Some? ==>
              if t.value.buf == PimBuf then Best(DramOf(cfg, s0), Buf(s0, PimBuf)).1 == Some(t.value.index)
              else t.value.buf == DataBuf(s2) && Best(DramOf(cfg, s2), Buf(s2, DataBuf(s2))).1 == Some(t.value.index)
  {
    hide Best, SetWriteMode, Complementary;
  }

  // ---- in which order the buffers are asked ----------------------------------------------

  /** What the scheduler selects in buffer `b` is ready and of the right type. */
  predicate Servable(cfg: Config, s: State, b: BufId, first: Option<Command>) {
    var d := DramOf(cfg, s);
    var (q, best) := Best(d, Buf(s, b));
    best.Some? && d.Ready(q[best.value]) && (first.Some? ==> Complementary(first.value, q[best.value].command))
  }

  /** What the scheduler selects there would close a row. */
  predicate SelectsClosing(cfg: Config, s: State, b: BufId) {
    var (q, best) := Best(DramOf(cfg, s), Buf(s, b));
    best.Some? && IsClosing(q[best.value].command)
  }

  /**
   * A slot serves the active buffer if it can, else the PIM buffer, else the read or the write
   * buffer. While no refresh is queued it serves nothing only if none of them can be served, or
   * the first that can would close a row.
   */
  ghost predicate InTurn(cfg: Config, s: State, first: Option<Command>) {
    var t, sp, sd := Choose(cfg, s, first).1, BeforePim(cfg, s, first), BeforeData(cfg, s, first);
    var a, p, d := Servable(cfg, s, ActiveBuf, first), Servable(cfg, sp, PimBuf, first), Servable(cfg, sd, DataBuf(sd), first);
    && (t.Some? && t.value.buf == ActiveBuf ==> a)
    && (t.Some? && t.value.buf == PriorityBuf ==> !a && s.priorityQ != [])
    && (t.Some? && t.value.buf == PimBuf ==> !a && p)
    && (t.Some? && (t.value.buf == ReadBuf || t.value.buf == WriteBuf) ==> !a && !p && d && t.value.buf == DataBuf(sd))
    && (t.None? && s.priorityQ == [] ==>
          if a then SelectsClosing(cfg, s, ActiveBuf)
          else if p then SelectsClosing(cfg, sp, PimBuf)
          else d ==> SelectsClosing(cfg, sd, DataBuf(sd)))
  }

  lemma TryServes(cfg: Config, s: State, b: BufId, first: Option<Command>)
    ensures var (s', t) := Try(cfg, s, b, first);
            && (t.Some? <==> Servable(cfg, s, b, first))
            && (t.Some? && IsClosing(At(s', t.value).command) ==> SelectsClosing(cfg, s, b))
            && (b == ActiveBuf ==> s'.priorityQ == s.priorityQ)
  {
    hide Best, Complementary;
    var (q, best) := Best(DramOf(cfg, s), Buf(s, b));
    assert Buf(BestOf(cfg, s, b).0, b) == q && DramOf(cfg, BestOf(cfg, s, b).0) == DramOf(cfg, s);
  }

  lemma TryQueuesInTurn(cfg: Config, s: State, first: Option<Command>)
    ensures var (s', t) := TryQueues(cfg, s, first);
            var s0 := s.(isPim := false);
            var s2 := SetWriteMode(cfg, Try(cfg, s0, PimBuf, first).0);
            var p, d := Servable(cfg, s0, PimBuf, first), Servable(cfg, s2, DataBuf(s2), first);
            && (t.Some? <==> p || d)
            && (t.Some? ==> t.value.buf == if p then PimBuf else DataBuf(s2))
            && (t.Some? && IsClosing(At(s', t.value).command) ==>
                  if p then SelectsClosing(cfg, s0, PimBuf) else SelectsClosing(cfg, s2, DataBuf(s2)))
  {
    hide Try, Servable, SelectsClosing, SetWriteMode;
    var s0 := s.(isPim := false);
    TryServes(cfg, s0, PimBuf, first);
    var (s1, p) := Try(cfg, s0, PimBuf, first);
    var s2 := SetWriteMode(cfg, s1);
    TryServes(cfg, s2, DataBuf(s2), first);
    if p.Some? {
      assert At(s1.(isPim := true), p.value) == At(s1, p.value);
    }
  }

  lemma ChooseInTurn(cfg: Config, s: State, first: Option<Command>)
    ensures InTurn(cfg, s, first)
  {
    hide Try, TryQueues, Servable, SelectsClosing, Complementary, SetWriteMode;
    TryServes(cfg, s, ActiveBuf, first);
    var (s1, a) := Try(cfg, s, ActiveBuf, first);
    if a.None? {
      TryQueuesInTurn(cfg, if s1.priorityQ != [] then SetHeadCommand(cfg, s1) else s1, first);
    }
  }

  /**
   * While no refresh is queued, the iterator of the first slot is left at what was selected in the
   * first buffer that can be served, or else in the read or write buffer, asked last.
   */
  lemma PointedAtSelected(cfg: Config, s: State)
    requires s.priorityQ == []
    ensures var sp, sd := BeforePim(cfg, s, None), BeforeData(cfg, s, None);
            Pointed(cfg, s) ==
              if Servable(cfg, s, ActiveBuf, None) then Selected(cfg, s, ActiveBuf)
              else if Servable(cfg, sp, PimBuf, None) then Selected(cfg, sp, PimBuf)
              else Selected(cfg, sd, DataBuf(sd))
  {
    hide Try, Servable, SetWriteMode, BestOf, Best;
    var s1 := Try(cfg, s, ActiveBuf, None).0;
    TryServes(cfg, s, ActiveBuf, None);
    var s0 := s1.(isPim := false);
    TryServes(cfg, s0, PimBuf, None);
    var s2 := SetWriteMode(cfg, Try(cfg, s0, PimBuf, None).0);
  }

  /**
   * On every run, in the next cycle of every controller, both slots select in the PIM, read and
   * write buffers by the simple rule.
   */
  lemma EverySelectionIsFirstPickable(sc: SysConfig, steps: seq<Step>, c: nat, stale: Command)
    requires sc.Valid() && c < |sc.ctrls|
    ensures |Run(sc, steps).0.ctrls| == |sc.ctrls|
    ensures var cfg, s := sc.ctrls[c], BeginTick(sc.ctrls[c], Run(sc, steps).0.ctrls[c]).0;
            var (s1, t1) := Choose(cfg, s, None);
            && SlotFollowsRule(cfg, s, None)
            && SlotFollowsRule(cfg, ExecuteIf(cfg, s1, t1), Some(FirstCommand(cfg, s, stale)))
  {
    hide Run, BeginTick, Choose, ExecuteIf, FirstCommand, InOrder, SlotFollowsRule;
    EveryRunInOrder(sc, steps);
    var cfg, s0 := sc.ctrls[c], Run(sc, steps).0.ctrls[c];
    BeginTickInOrder(cfg, s0);
    var s := BeginTick(cfg, s0).0;
    SlotSelects(cfg, s, None);
    var (s1, t1) := Choose(cfg, s, None);
    ChooseInOrder(cfg, s, None);
    ExecuteInOrder(cfg, s1, t1);
    SlotSelects(cfg, ExecuteIf(cfg, s1, t1), Some(FirstCommand(cfg, s, stale)));
  }
}
