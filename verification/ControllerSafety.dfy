/** What every operation of the controller keeps: barrier safety and request conservation. */
module ControllerSafety {
  import opened PimTypes
  import opened PimScheduler
  import opened ControllerState
  import opened BarrierLedger

  ghost predicate PimOnly(q: seq<Request>) {
    forall i :: 0 <= i < |q| ==> IsPim(q[i].kind) && q[i].finalCommand == Translate(q[i].kind)
  }

  ghost predicate NoPim(q: seq<Request>) {
    forall i :: 0 <= i < |q| ==> !IsPim(q[i].kind)
  }

  /** PIM requests wait in the PIM buffer and nowhere else. */
  ghost predicate Typed(s: State) {
    && PimOnly(s.pimQ) && NoPim(s.activeQ) && NoPim(s.priorityQ) && NoPim(s.readQ) && NoPim(s.writeQ)
    && NoPim(s.pending)
  }

  ghost predicate Inv(s: State) {
    Typed(s) && Safe(Keys(s.pimQ), s.accepted, s.done, s.dropped)
  }

  /** How often an entry occurs. */
  ghost function Times(ks: seq<Entry>, e: Entry): nat {
    multiset(ks)[e]
  }

  ghost function In(q: seq<Request>, e: Entry): nat {
    Times(Keys(q), e)
  }

  /** How often the five buffers and the pending queue hold an entry. */
  ghost function Held(s: State, e: Entry): nat {
    In(s.pending, e) + In(s.activeQ, e) + In(s.priorityQ, e) + In(s.readQ, e) + In(s.writeQ, e) + In(s.pimQ, e)
  }

  ghost function Gone(s: State, e: Entry): nat {
    Times(s.done, e) + Times(s.dropped, e) + Times(s.lost, e)
  }

  /** Every accepted request is in exactly one place. */
  ghost predicate Conserved(s: State) {
    forall e :: Times(s.accepted, e) == Held(s, e) + Gone(s, e)
  }

  // ---- selection -----------------------------------------------------------------------

  /** If the slot serves a PIM request with its final command, no barrier bars that request. */
  ghost predicate Unbarred(s: State, t: Slot) {
    InBuf(s, t) &&
    (t.buf == PimBuf && At(s, t).command == At(s, t).finalCommand ==> !Barred(s.pimQ, t.index))
  }

  ghost function Is(x: Entry, e: Entry): nat {
    if x == e then 1 else 0
  }

  lemma TimesAppend(ks: seq<Entry>, x: Entry, e: Entry)
    ensures Times(ks + [x], e) == Times(ks, e) + Is(x, e)
  {
  }

  lemma InAppend(q: seq<Request>, r: Request, e: Entry)
    ensures In(q + [r], e) == In(q, e) + Is(Key(r), e)
  {
    KeysAppend(q, r);
  }

  lemma InRemoved(q: seq<Request>, k: nat, e: Entry)
    requires k < |q|
    ensures In(q, e) == In(RemoveAt(q, k), e) + Is(Key(q[k]), e)
  {
    KeysRemoveAt(q, k);
  }

  lemma KeysPrepare(d: Dram, q: seq<Request>)
    ensures Keys(Prepare(d, q)) == Keys(q)
    ensures LeadingBarrier(Prepare(d, q)) == LeadingBarrier(q)
    ensures PimOnly(q) ==> PimOnly(Prepare(d, q))
    ensures NoPim(q) ==> NoPim(Prepare(d, q))
  {
    assert Keys(Prepare(d, q)) == Keys(q);
  }

  lemma KeysDrop(q: seq<Request>)
    ensures Keys(DropBarrier(q)) == if LeadingBarrier(q) then Keys(q)[1..] else Keys(q)
    ensures forall e :: In(q, e) == In(DropBarrier(q), e) + if LeadingBarrier(q) then Is(Key(q[0]), e) else 0
    ensures PimOnly(q) ==> PimOnly(DropBarrier(q))
    ensures NoPim(q) ==> NoPim(DropBarrier(q)) && !LeadingBarrier(q)
  {
    if LeadingBarrier(q) {
      assert Keys(q[1..]) == Keys(q)[1..];
      assert Keys(q) == [Key(q[0])] + Keys(q)[1..];
    }
  }

  /** What the scheduler leaves of a buffer. */
  lemma KeysBest(d: Dram, q: seq<Request>)
    ensures var q' := Best(d, q).0;
            && Keys(q') == (if LeadingBarrier(q) then Keys(q)[1..] else Keys(q))
            && (forall e :: In(q, e) == In(q', e) + if LeadingBarrier(q) then Is(Key(q[0]), e) else 0)
            && (PimOnly(q) ==> PimOnly(q')) && (NoPim(q) ==> NoPim(q') && !LeadingBarrier(q))
  {
    hide Best, PimOnly, NoPim, DropBarrier;
    KeysPrepare(d, q);
    KeysDrop(Prepare(d, q));
  }

  lemma HeldSetBuf(s: State, b: BufId, q: seq<Request>)
    ensures forall e :: Held(SetBuf(s, b, q), e) + In(Buf(s, b), e) == Held(s, e) + In(q, e)
  {
    hide In;
    match b
    case ActiveBuf =>
    case PriorityBuf =>
    case ReadBuf =>
    case WriteBuf =>
    case PimBuf =>
  }

  /** Replacing one buffer balances the books if it makes up for what they miss. */
  lemma PutConserves(s: State, b: BufId, q: seq<Request>)
    requires forall e :: Times(s.accepted, e) + In(Buf(s, b), e) == Held(s, e) + Gone(s, e) + In(q, e)
    ensures Conserved(SetBuf(s, b, q))
  {
    hide In, Times;
    HeldSetBuf(s, b, q);
  }

  lemma BestOfConserves(cfg: Config, s: State, b: BufId)
    requires Conserved(s)
    ensures Conserved(BestOf(cfg, s, b).0)
  {
    hide Best, SetBuf, In, Times;
    var q := Buf(s, b);
    var q' := Best(DramOf(cfg, s), q).0;
    KeysBest(DramOf(cfg, s), q);
    if LeadingBarrier(q) {
      var s' := s.(dropped := s.dropped + [Key(q[0])]);
      forall e ensures Times(s'.accepted, e) + In(q, e) == Held(s', e) + Gone(s', e) + In(q', e) {
        TimesAppend(s.dropped, Key(q[0]), e);
      }
      PutConserves(s', b, q');
    } else {
      PutConserves(s, b, q');
    }
  }

  lemma BestOfPims(cfg: Config, s: State)
    requires Inv(s)
    ensures Inv(BestOf(cfg, s, PimBuf).0)
  {
    hide Best, Safe, PimOnly, NoPim;
    KeysBest(DramOf(cfg, s), s.pimQ);
    if LeadingBarrier(s.pimQ) {
      DropLeadingBarrier(Keys(s.pimQ), s.accepted, s.done, s.dropped);
    }
  }

  lemma BestOfOther(cfg: Config, s: State, b: BufId)
    requires Inv(s) && b != PimBuf
    ensures Inv(BestOf(cfg, s, b).0)
  {
    hide Best, Safe, PimOnly, NoPim;
    KeysBest(DramOf(cfg, s), Buf(s, b));
  }

  /** Everything that every operation keeps. */
  ghost predicate Good(s: State) {
    Inv(s) && Conserved(s)
  }

  lemma TryKeeps(cfg: Config, s: State, b: BufId, first: Option<Command>)
    requires Good(s)
    ensures var (s', t) := Try(cfg, s, b, first);
            Good(s') && (t.Some? ==> Unbarred(s', t.value))
  {
    hide BestOf, Inv, Conserved, Barred, Complementary;
    BestOfConserves(cfg, s, b);
    if b == PimBuf {
      BestOfPims(cfg, s);
      BestOfUnbarred(cfg, s);
    } else {
      BestOfOther(cfg, s, b);
    }
  }

  lemma PimsAreTranslated(s: State)
    requires Inv(s)
    ensures forall i :: 0 <= i < |s.pimQ| ==> s.pimQ[i].finalCommand == Translate(s.pimQ[i].kind)
  {
    hide Safe;
  }

  /** What the scheduler selects in the PIM buffer for its final command is not barred. */
  lemma BestOfUnbarred(cfg: Config, s: State)
    requires Inv(s)
    ensures var (s', best) := BestOf(cfg, s, PimBuf);
            best.Some? && s'.pimQ[best.value].command == s'.pimQ[best.value].finalCommand ==> !Barred(s'.pimQ, best.value)
  {
    hide Best, Inv, Barred, SetBuf, Safe;
    PimsAreTranslated(s);
    BarrierHoldsBack(DramOf(cfg, s), s.pimQ);
    assert Buf(BestOf(cfg, s, PimBuf).0, PimBuf) == Best(DramOf(cfg, s), s.pimQ).0;
  }

  /** Clock, modes, refresh manager and device state do not matter to the books. */
  ghost predicate SameQueues(s: State, s': State) {
    && s'.pending == s.pending && s'.activeQ == s.activeQ && s'.priorityQ == s.priorityQ
    && s'.readQ == s.readQ && s'.writeQ == s.writeQ && s'.pimQ == s.pimQ
    && s'.accepted == s.accepted && s'.done == s.done && s'.dropped == s.dropped && s'.lost == s.lost
  }

  lemma SameQueuesKeep(s: State, s': State)
    requires Good(s) && SameQueues(s, s')
    ensures Good(s')
  {
    hide Safe, PimOnly, NoPim, In, Times;
  }

  lemma SetHeadCommandKeeps(cfg: Config, s: State)
    requires Good(s) && s.priorityQ != []
    ensures Good(SetHeadCommand(cfg, s))
  {
    hide Safe, Times;
    assert Keys(SetHeadCommand(cfg, s).priorityQ) == Keys(s.priorityQ);
    assert forall e :: In(SetHeadCommand(cfg, s).priorityQ, e) == In(s.priorityQ, e);
  }

  lemma TryQueuesKeep(cfg: Config, s: State, first: Option<Command>)
    requires Good(s)
    ensures var (s', t) := TryQueues(cfg, s, first);
            Good(s') && (t.Some? ==> Unbarred(s', t.value))
  {
    hide Try, Good;
    var s0 := s.(isPim := false);
    SameQueuesKeep(s, s0);
    TryKeeps(cfg, s0, PimBuf, first);
    var (s1, p) := Try(cfg, s0, PimBuf, first);
    SameQueuesKeep(s1, s1.(isPim := true));
    var s2 := SetWriteMode(cfg, s1);
    SameQueuesKeep(s1, s2);
    TryKeeps(cfg, s2, if s2.writeMode then WriteBuf else ReadBuf, first);
  }

  lemma ChooseKeeps(cfg: Config, s: State, first: Option<Command>)
    requires Good(s)
    ensures var (s', t) := Choose(cfg, s, first);
            Good(s') && (t.Some? ==> Unbarred(s', t.value))
  {
    hide Try, TryQueues, Good, Protect, SetHeadCommand;
    TryKeeps(cfg, s, ActiveBuf, first);
    var (s1, a) := Try(cfg, s, ActiveBuf, first);
    if s1.priorityQ != [] {
      SetHeadCommandKeeps(cfg, s1);
      var s2 := SetHeadCommand(cfg, s1);
      TryQueuesKeep(cfg, s2, first);
      SameQueuesKeep(s2, s2.(isPim := false));
    } else {
      TryQueuesKeep(cfg, s1, first);
    }
  }

  lemma RemoveTyped(q: seq<Request>, k: nat)
    requires k < |q|
    ensures PimOnly(q) ==> PimOnly(RemoveAt(q, k))
    ensures NoPim(q) ==> NoPim(RemoveAt(q, k)) && !IsPim(q[k].kind)
  {
  }

  lemma CompleteConserves(cfg: Config, s: State, t: Slot)
    requires Conserved(s) && InBuf(s, t)
    ensures Conserved(Complete(cfg, s, t))
  {
    hide SetBuf, In, Times;
    var r := At(s, t);
    var s' := Settle(cfg, s, r);
    assert Buf(s', t.buf) == Buf(s, t.buf);
    var q' := RemoveAt(Buf(s', t.buf), t.index);
    forall e ensures Times(s'.accepted, e) + In(Buf(s', t.buf), e) == Held(s', e) + Gone(s', e) + In(q', e) {
      InRemoved(Buf(s, t.buf), t.index, e);
      TimesAppend(s.done, Key(r), e);
      InAppend(s.pending, r.(depart := s.clk + cfg.readLatency), e);
    }
    PutConserves(s', t.buf, q');
  }

  lemma MoveConserves(cfg: Config, s: State, t: Slot)
    requires Conserved(s) && InBuf(s, t)
    ensures Conserved(MoveToActive(cfg, s, t))
  {
    hide SetBuf, In, Times;
    var r := At(s, t);
    var s' := if |s.activeQ| < cfg.activeCap then s.(activeQ := s.activeQ + [r])
              else s.(lost := s.lost + [Key(r)]);
    var q := Buf(s', t.buf);
    var q' := RemoveAt(q, t.index);
    assert q[t.index] == r;
    forall e ensures Times(s'.accepted, e) + In(q, e) == Held(s', e) + Gone(s', e) + In(q', e) {
      InRemoved(q, t.index, e);
      TimesAppend(s.lost, Key(r), e);
      InAppend(s.activeQ, r, e);
    }
    PutConserves(s', t.buf, q');
  }

  lemma CompletePim(cfg: Config, s: State, t: Slot)
    requires Inv(s) && InBuf(s, t) && t.buf == PimBuf && !Barred(s.pimQ, t.index)
    ensures Inv(Complete(cfg, s, t))
  {
    hide Safe;
    FinishUnbarred(Keys(s.pimQ), s.accepted, s.done, s.dropped, t.index);
    KeysRemoveAt(s.pimQ, t.index);
    RemoveTyped(s.pimQ, t.index);
  }

  lemma CompleteOther(cfg: Config, s: State, t: Slot)
    requires Inv(s) && InBuf(s, t) && t.buf != PimBuf
    ensures Inv(Complete(cfg, s, t))
  {
    hide Safe, PimOnly;
    var r := At(s, t);
    RemoveTyped(Buf(s, t.buf), t.index);
    if r.kind != Read {
      FinishOther(Keys(s.pimQ), s.accepted, s.done, s.dropped, Key(r));
    }
  }

  lemma MoveOther(cfg: Config, s: State, t: Slot)
    requires Inv(s) && InBuf(s, t) && t.buf != PimBuf
    ensures Inv(MoveToActive(cfg, s, t))
  {
    hide Safe, PimOnly;
    RemoveTyped(Buf(s, t.buf), t.index);
  }

  /** The slot was chosen for execution in state `s`. */
  ghost predicate Chosen(s: State, t: Slot) {
    Unbarred(s, t) && (t.buf == PimBuf ==> s.isPim)
  }

  lemma ExecuteKeeps(cfg: Config, s: State, t: Option<Slot>)
    requires Good(s) && (t.Some? ==> Chosen(s, t.value))
    ensures Good(ExecuteIf(cfg, s, t))
  {
    if t.Some? {
      hide Inv, Conserved, Complete, MoveToActive;
      var r := At(s, t.value);
      var s1 := s.(issued := s.issued + [Issue(s.clk, r.command, r.addrVec)]);
      SameQueuesKeep(s, s1);
      assert At(s1, t.value) == r;
      if r.command == r.finalCommand {
        CompleteConserves(cfg, s1, t.value);
        if t.value.buf == PimBuf {
          CompletePim(cfg, s1, t.value);
        } else {
          CompleteOther(cfg, s1, t.value);
        }
      } else if !s1.isPim && IsOpening(r.command) {
        MoveConserves(cfg, s1, t.value);
        MoveOther(cfg, s1, t.value);
      }
    }
  }

  lemma IssueTwoKeeps(cfg: Config, s: State, stale: Command)
    requires Good(s)
    ensures Good(IssueTwo(cfg, s, stale))
  {
    hide Good, Choose, ExecuteIf, FirstCommand;
    ChooseKeeps(cfg, s, None);
    var (s1, t1) := Choose(cfg, s, None);
    ExecuteKeeps(cfg, s1, t1);
    var s2, first := ExecuteIf(cfg, s1, t1), Some(FirstCommand(cfg, s, stale));
    ChooseKeeps(cfg, s2, first);
    var (s3, t3) := Choose(cfg, s2, first);
    ExecuteKeeps(cfg, s3, t3);
  }

  lemma ServeKeeps(s: State)
    requires Good(s)
    ensures Good(ServeCompletedReads(s))
  {
    hide Safe, PimOnly, In, Times;
    if s.pending != [] && s.pending[0].depart <= s.clk {
      var s' := ServeCompletedReads(s);
      assert s.pending[1..] == RemoveAt(s.pending, 0);
      forall e ensures Times(s'.accepted, e) == Held(s', e) + Gone(s', e) {
        InRemoved(s.pending, 0, e);
        TimesAppend(s.done, Key(s.pending[0]), e);
      }
      FinishOther(Keys(s.pimQ), s.accepted, s.done, s.dropped, Key(s.pending[0]));
    }
  }

  lemma PrioritySendKeeps(cfg: Config, s: State, req: Request)
    requires Good(s) && !IsPim(req.kind)
    ensures Good(PrioritySend(cfg, s, req).0)
  {
    hide Safe, PimOnly, In, Times;
    var r := req.(finalCommand := Translate(req.kind));
    var s' := PrioritySend(cfg, s, req).0;
    forall e ensures Times(s'.accepted, e) == Held(s', e) + Gone(s', e) {
      InAppend(s.priorityQ, r, e);
      TimesAppend(s.accepted, Key(r), e);
    }
    AcceptOther(Keys(s.pimQ), s.accepted, s.done, s.dropped, Key(r));
  }

  lemma {:induction false} QueueRefreshesKeeps(cfg: Config, s: State, pch: nat)
    requires Good(s)
    ensures Good(QueueRefreshes(cfg, s, pch).0)
    decreases cfg.numPch - pch
  {
    hide Good, PrioritySend;
    if pch >= cfg.numPch {
    } else {
      PrioritySendKeeps(cfg, s, RefreshRequest(cfg, pch));
      if PrioritySend(cfg, s, RefreshRequest(cfg, pch)).1 {
        QueueRefreshesKeeps(cfg, PrioritySend(cfg, s, RefreshRequest(cfg, pch)).0, pch + 1);
      }
    }
  }

  /** A controller cycle, of any device and whatever the second slot compares with. */
  lemma TickKeeps(cfg: Config, s: State, stale: Command)
    requires Good(s)
    ensures Good(Tick(cfg, s, stale).0)
  {
    hide Good, IssueTwo, QueueRefreshes, ServeCompletedReads;
    var s0 := s.(clk := s.clk + 1);
    SameQueuesKeep(s, s0);
    ServeKeeps(s0);
    var s1 := ServeCompletedReads(s0);
    var clk := s1.refresher.clk + 1;
    var s2 := s1.(refresher := Refresher(clk, s1.refresher.next + cfg.nREFI));
    SameQueuesKeep(s1, s2);
    SameQueuesKeep(s1, s1.(refresher := Refresher(clk, s1.refresher.next)));
    QueueRefreshesKeeps(cfg, s2, 0);
    var s3 := BeginTick(cfg, s).0;
    IssueTwoKeeps(cfg, s3, stale);
  }

  lemma SendConserves(cfg: Config, s: State, req: Request)
    requires Conserved(s)
    ensures Conserved(Send(cfg, s, req).0)
  {
    hide In, Times, SetBuf;
    var r := req.(finalCommand := Translate(req.kind));
    forall e ensures Times(s.accepted + [Key(r)], e) == Times(s.accepted, e) + Is(Key(r), e) {
      TimesAppend(s.accepted, Key(r), e);
    }
    var s' := s.(accepted := s.accepted + [Key(r)]);
    if Forwarded(s, r) {
      forall e ensures In(s.pending + [r.(depart := s.clk + 1)], e) == In(s.pending, e) + Is(Key(r), e) {
        InAppend(s.pending, r.(depart := s.clk + 1), e);
      }
    } else if Target(cfg, r.kind).Some? {
      var (b, cap) := Target(cfg, r.kind).value;
      var q' := Buf(s, b) + [r.(arrive := s.clk)];
      forall e ensures In(q', e) == In(Buf(s, b), e) + Is(Key(r), e) {
        InAppend(Buf(s, b), r.(arrive := s.clk), e);
      }
      PutConserves(s', b, q');
    }
  }

  lemma SendSafe(cfg: Config, s: State, req: Request)
    requires Inv(s) && Newest(s.accepted, Key(req))
    ensures Inv(Send(cfg, s, req).0)
  {
    hide Safe, Newest;
    if IsPim(req.kind) {
      AcceptPim(Keys(s.pimQ), s.accepted, s.done, s.dropped, Key(req));
      KeysAppend(s.pimQ, req.(finalCommand := Translate(req.kind), arrive := s.clk));
    } else {
      AcceptOther(Keys(s.pimQ), s.accepted, s.done, s.dropped, Key(req));
    }
  }
}
