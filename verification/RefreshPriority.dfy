/** While a refresh is queued: which request a cycle serves first. */
module RefreshPriority {
  import opened PimTypes
  import opened PimScheduler
  import opened ControllerState
  import opened ControllerRuns

  /** Asking about a buffer leaves the others alone, and leaves nothing in it that was not there. */
  ghost predicate OnlyPrepares(cfg: Config, s: State, b: BufId, s': State) {
    && (b != PriorityBuf ==> s'.priorityQ == s.priorityQ)
    && (b != ActiveBuf ==> s'.activeQ == s.activeQ)
    && (forall k :: 0 <= k < |Buf(s', b)| ==> Prepared(DramOf(cfg, s), Buf(s, b), Buf(s', b)[k]))
  }

  lemma SetBufPrepares(cfg: Config, s: State, b: BufId, q: seq<Request>, gone: seq<Entry>)
    requires forall k :: 0 <= k < |q| ==> Prepared(DramOf(cfg, s), Buf(s, b), q[k])
    ensures OnlyPrepares(cfg, s, b, SetBuf(s.(dropped := gone), b, q))
  {
    hide Prepared;
  }

  /** Trying a buffer leaves the others alone; what is found was there. */
  lemma TrySource(cfg: Config, s: State, b: BufId, first: Option<Command>)
    ensures var (s', t) := Try(cfg, s, b, first);
            OnlyPrepares(cfg, s, b, s') && (t.Some? ==> Prepared(DramOf(cfg, s), Buf(s, b), At(s', t.value)))
  {
    BestPrepares(DramOf(cfg, s), Buf(s, b));
    hide Best, Prepared, Complementary, SetBuf, OnlyPrepares;
    var q := Best(DramOf(cfg, s), Buf(s, b)).0;
    var gone := if LeadingBarrier(Buf(s, b)) then s.dropped + [Key(Buf(s, b)[0])] else s.dropped;
    SetBufPrepares(cfg, s, b, q, gone);
    assert BestOf(cfg, s, b).0 == SetBuf(s.(dropped := gone), b, q);
  }

  lemma TryQueuesSource(cfg: Config, s: State, first: Option<Command>)
    ensures var s' := TryQueues(cfg, s, first).0;
            s'.priorityQ == s.priorityQ && s'.activeQ == s.activeQ
  {
    hide Try, Prepared;
    var s1 := Try(cfg, s.(isPim := false), PimBuf, first).0;
    TrySource(cfg, s.(isPim := false), PimBuf, first);
    var s2 := SetWriteMode(cfg, s1);
    TrySource(cfg, s2, if s2.writeMode then WriteBuf else ReadBuf, first);
  }

  /** The oldest refresh, with the command it needs next. */
  function OldestRefresh(cfg: Config, s: State): Request
    requires s.priorityQ != []
  {
    s.priorityQ[0].(command := DramOf(cfg, s).Preq(s.priorityQ[0]))
  }

  /** The request of an active row, or the oldest refresh. */
  ghost predicate ActiveOrRefresh(cfg: Config, s: State, r: Request)
    requires s.priorityQ != []
  {
    Prepared(DramOf(cfg, s), s.activeQ, r) || r == OldestRefresh(cfg, s)
  }

  /** `s'` has the same requests in the active buffer, and the same oldest refresh, up to commands. */
  ghost predicate SameFront(cfg: Config, s: State, s': State)
    requires s.priorityQ != []
  {
    && DramOf(cfg, s') == DramOf(cfg, s)
    && (forall k :: 0 <= k < |s'.activeQ| ==> Prepared(DramOf(cfg, s), s.activeQ, s'.activeQ[k]))
    && s'.priorityQ != [] && OldestRefresh(cfg, s') == OldestRefresh(cfg, s)
  }

  lemma TryActiveFront(cfg: Config, s: State, first: Option<Command>)
    requires s.priorityQ != []
    ensures var (s', t) := Try(cfg, s, ActiveBuf, first);
            SameFront(cfg, s, s') && s'.priorityQ == s.priorityQ &&
            (t.Some? ==> ActiveOrRefresh(cfg, s, At(s', t.value)))
  {
    hide Try, Prepared;
    TryIsQuiet(cfg, s, ActiveBuf, first);
    TrySource(cfg, s, ActiveBuf, first);
    var (s', t) := Try(cfg, s, ActiveBuf, first);
    assert Buf(s, ActiveBuf) == s.activeQ && Buf(s', ActiveBuf) == s'.activeQ;
    assert t.Some? ==> Prepared(DramOf(cfg, s), s.activeQ, At(s', t.value));
  }

  /** Updating the command of the oldest refresh, and whatever leaves the front alone. */
  lemma FrontKept(cfg: Config, s: State, s1: State, s': State)
    requires s.priorityQ != [] && SameFront(cfg, s, s1) && s'.activeQ == s1.activeQ && Quiet(s1, s')
    requires s'.priorityQ == s1.priorityQ || s'.priorityQ == SetHeadCommand(cfg, s1).priorityQ
    ensures SameFront(cfg, s, s')
  {
    hide Prepared;
  }

  lemma TryQueuesFront(cfg: Config, s: State, s1: State, first: Option<Command>)
    requires s.priorityQ != [] && SameFront(cfg, s, s1)
    ensures SameFront(cfg, s, TryQueues(cfg, s1, first).0)
  {
    hide TryQueues, SameFront;
    TryQueuesIsQuiet(cfg, s1, first);
    TryQueuesSource(cfg, s1, first);
    FrontKept(cfg, s, s1, TryQueues(cfg, s1, first).0);
  }

  /** While a refresh is queued, a slot serves that, an activated request, or passes over a refresh of its own type. */
  lemma ChooseSource(cfg: Config, s: State, first: Option<Command>)
    requires s.priorityQ != []
    ensures var (s', t) := Choose(cfg, s, first);
            && SameFront(cfg, s, s')
            && (t.Some? ==> ActiveOrRefresh(cfg, s, At(s', t.value)) ||
                            (first.Some? && !Complementary(first.value, OldestRefresh(cfg, s).command)))
  {
    hide Try, TryQueues, Prepared, Complementary, SameFront;
    TryActiveFront(cfg, s, first);
    var (s1, a) := Try(cfg, s, ActiveBuf, first);
    if a.None? {
      var s2 := SetHeadCommand(cfg, s1);
      FrontKept(cfg, s, s1, s2);
      FrontKept(cfg, s, s2, s2.(isPim := false));
      TryQueuesFront(cfg, s, s2, first);
      SameFrontQueued(cfg, s, s1);
      assert s2.priorityQ[0] == OldestRefresh(cfg, s);
    }
  }

  lemma SameFrontServes(cfg: Config, s: State, s': State, r: Request)
    requires s.priorityQ != [] && SameFront(cfg, s, s') && ActiveOrRefresh(cfg, s', r)
    ensures ActiveOrRefresh(cfg, s, r)
  {
    hide Prepared;
    if Prepared(DramOf(cfg, s'), s'.activeQ, r) {
      PreparedTwice(DramOf(cfg, s), s.activeQ, s'.activeQ, r);
    }
  }

  lemma SameFrontQueued(cfg: Config, s: State, s': State)
    requires s.priorityQ != [] && SameFront(cfg, s, s')
    ensures s'.priorityQ != [] && OldestRefresh(cfg, s') == OldestRefresh(cfg, s) && DramOf(cfg, s') == DramOf(cfg, s)
  {
    hide Prepared;
  }

  // ---- the first slot --------------------------------------------------------------------

  /**
   * The first slot finds nothing exactly when an activated request is ready but would close its
   * own row, or when none is ready and the oldest refresh is not ready or would close an active row.
   */
  lemma FirstSlotFindsNothing(cfg: Config, s: State)
    requires s.priorityQ != []
    ensures var (s1, a) := Try(cfg, s, ActiveBuf, None);
            var refresh := OldestRefresh(cfg, s);
            Choose(cfg, s, None).1.None? <==>
            if a.Some? then IsClosing(At(s1, a.value).command)
            else !DramOf(cfg, s).Ready(refresh) || ClosesActiveRow(s1, refresh)
  {
    hide Try, TryQueues;
    var (s1, a) := Try(cfg, s, ActiveBuf, None);
    TryActiveFront(cfg, s, None);
    SameFrontQueued(cfg, s, s1);
    if a.Some? {
      assert Buf(s1, ActiveBuf) == s1.activeQ;
    } else {
      assert SetHeadCommand(cfg, s1).priorityQ[0] == OldestRefresh(cfg, s);
    }
  }

  /** Where the iterator is left while a refresh is queued: at the activated request that is ready, or at the refresh. */
  lemma PointedAtFront(cfg: Config, s: State)
    requires s.priorityQ != []
    ensures var (s1, a) := Try(cfg, s, ActiveBuf, None);
            Pointed(cfg, s) == Some(if a.Some? then At(s1, a.value).command else OldestRefresh(cfg, s).command)
  {
    hide BestOf;
    var (s1, a) := Try(cfg, s, ActiveBuf, None);
    if a.None? {
      TryActiveFront(cfg, s, None);
      SameFrontQueued(cfg, s, s1);
      assert SetHeadCommand(cfg, s1).priorityQ[0] == OldestRefresh(cfg, s);
    }
  }

  // ---- the second slot, when the first found nothing -------------------------------------

  /** The active buffer after it was asked is asked again with the same result. */
  lemma SelectedTwice(cfg: Config, s: State, s1: State)
    requires NoBarriers(s.activeQ) && DramOf(cfg, s1) == DramOf(cfg, s)
    requires s1.activeQ == Best(DramOf(cfg, s), s.activeQ).0
    ensures BestOf(cfg, s1, ActiveBuf).1 == BestOf(cfg, s, ActiveBuf).1
    ensures BestOf(cfg, s1, ActiveBuf).0.activeQ == BestOf(cfg, s, ActiveBuf).0.activeQ
  {
    hide Best;
    BestTwice(DramOf(cfg, s), s.activeQ);
    assert Buf(s, ActiveBuf) == s.activeQ && Buf(s1, ActiveBuf) == s1.activeQ;
    assert Buf(BestOf(cfg, s, ActiveBuf).0, ActiveBuf) == Best(DramOf(cfg, s), s.activeQ).0;
    assert Buf(BestOf(cfg, s1, ActiveBuf).0, ActiveBuf) == Best(DramOf(cfg, s), s1.activeQ).0;
  }

  /** Choosing leaves the active buffer as the scheduler did. */
  lemma ChooseActive(cfg: Config, s: State)
    requires s.priorityQ != []
    ensures Choose(cfg, s, None).0.activeQ == Best(DramOf(cfg, s), s.activeQ).0
    ensures DramOf(cfg, Choose(cfg, s, None).0) == DramOf(cfg, s)
  {
    hide Best;
    ChooseIsQuiet(cfg, s, None);
    assert Buf(s, ActiveBuf) == s.activeQ;
    assert Buf(BestOf(cfg, s, ActiveBuf).0, ActiveBuf) == Best(DramOf(cfg, s), s.activeQ).0;
  }

  /** No activated request complements what the iterator of the first slot was left at. */
  lemma ActiveAgain(cfg: Config, s: State)
    requires s.priorityQ != [] && NoBarriers(s.activeQ) && Choose(cfg, s, None).1.None?
    ensures Pointed(cfg, s).Some?
    ensures Try(cfg, Choose(cfg, s, None).0, ActiveBuf, Pointed(cfg, s)).1.None?
  {
    var s1 := Choose(cfg, s, None).0;
    ChooseActive(cfg, s);
    PointedAtFront(cfg, s);
    hide Choose, Best, Pointed, BestOf;
    SelectedTwice(cfg, s, s1);
    QuietBest(cfg, s);
    QuietBest(cfg, s1);
    assert BestOf(cfg, s1, ActiveBuf).0.activeQ == Buf(BestOf(cfg, s1, ActiveBuf).0, ActiveBuf);
    assert BestOf(cfg, s, ActiveBuf).0.activeQ == Buf(BestOf(cfg, s, ActiveBuf).0, ActiveBuf);
  }

  lemma QuietBest(cfg: Config, s: State)
    ensures DramOf(cfg, BestOf(cfg, s, ActiveBuf).0) == DramOf(cfg, s)
  {
    hide Best;
  }

  /** What the first command of a cycle serves, and the buffer it comes from. */
  function FirstServed(cfg: Config, s: State, stale: Command): Option<(BufId, Request)> {
    var (s1, t1) := Choose(cfg, s, None);
    if t1.Some? then Some((t1.value.buf, At(s1, t1.value)))
    else
      var (s2, t2) := Choose(cfg, s1, Some(FirstCommand(cfg, s, stale)));
      if t2.Some? then Some((t2.value.buf, At(s2, t2.value))) else None
  }

  predicate IsFront(b: BufId) {
    b == ActiveBuf || b == PriorityBuf
  }

  /** A slot that finds something while a refresh is queued serves the active buffer, the refresh, or passes over it. */
  lemma ChooseBuffer(cfg: Config, s: State, first: Option<Command>)
    requires s.priorityQ != []
    ensures var (s', t) := Choose(cfg, s, first);
            var passes := first.Some? && !Complementary(first.value, OldestRefresh(cfg, s).command);
            && (t.Some? && Try(cfg, s, ActiveBuf, first).1.Some? ==>
                  t.value.buf == ActiveBuf && Prepared(DramOf(cfg, s), s.activeQ, At(s', t.value)))
            && (t.Some? && Try(cfg, s, ActiveBuf, first).1.None? ==>
                  if passes then !IsFront(t.value.buf)
                  else t.value == Slot(PriorityBuf, 0) && At(s', t.value) == OldestRefresh(cfg, s))
  {
    hide Try, TryQueues, Complementary, Prepared;
    var (s1, a) := Try(cfg, s, ActiveBuf, first);
    TryActiveFront(cfg, s, first);
    TrySource(cfg, s, ActiveBuf, first);
    SameFrontQueued(cfg, s, s1);
    assert Buf(s, ActiveBuf) == s.activeQ;
    assert SetHeadCommand(cfg, s1).priorityQ[0] == OldestRefresh(cfg, s);
  }

  /** The first command of both slots is that of the request served first. */
  lemma FirstServedIssues(cfg: Config, s: State, stale: Command)
    ensures var s', served := IssueTwo(cfg, s, stale), FirstServed(cfg, s, stale);
            if served.None? then s'.issued == s.issued
            else |s.issued| < |s'.issued| && s.issued <= s'.issued &&
                 s'.issued[|s.issued|] == Issue(s.clk, served.value.1.command, served.value.1.addrVec)
  {
    hide Choose, ExecuteIf, FirstCommand;
    var (s1, t1) := Choose(cfg, s, None);
    ChooseIsQuiet(cfg, s, None);
    ExecuteIssues(cfg, s1, t1);
    var s2, first := ExecuteIf(cfg, s1, t1), FirstCommand(cfg, s, stale);
    var (s3, t3) := Choose(cfg, s2, Some(first));
    ChooseIsQuiet(cfg, s2, Some(first));
    ExecuteIssues(cfg, s3, t3);
    ExecuteNothing(cfg, s1);
  }

  /**
   * The first command of a cycle serves an activated request or the oldest refresh exactly when
   * the first slot found one of them, or when what it was left at complements the refresh. The
   * latter needs a refresh that waits for a column command behind an activated request that
   * would close its own row; otherwise the second slot passes over the refresh.
   */
  ghost predicate RefreshRule(cfg: Config, s: State, stale: Command)
    requires s.priorityQ != []
  {
    var served, found := FirstServed(cfg, s, stale), Choose(cfg, s, None).1.Some?;
    var refresh := OldestRefresh(cfg, s);
    && Pointed(cfg, s).Some?
    && (served.Some? ==>
          && (IsFront(served.value.0) <==> found || Complementary(Pointed(cfg, s).value, refresh.command))
          && (CommandType(refresh.command) != 1 || Try(cfg, s, ActiveBuf, None).1.None? ==>
                (IsFront(served.value.0) <==> found))
          && (served.value.0 == ActiveBuf ==> Prepared(DramOf(cfg, s), s.activeQ, served.value.1))
          && (served.value.0 == PriorityBuf ==> served.value.1 == refresh))
  }

  lemma RefreshGoesFirst(cfg: Config, s: State, stale: Command)
    requires s.priorityQ != [] && NoBarriers(s.activeQ)
    ensures RefreshRule(cfg, s, stale)
  {
    hide Choose, Try, Pointed, Complementary, Prepared, SameFront;
    PointedAtFront(cfg, s);
    ChooseBuffer(cfg, s, None);
    ChooseSource(cfg, s, None);
    var (s1, t1) := Choose(cfg, s, None);
    SameFrontQueued(cfg, s, s1);
    var c := Pointed(cfg, s).value;
    if t1.None? {
      SecondSlotServes(cfg, s);
      FirstSlotFindsNothing(cfg, s);
      ClosingComplements(c, OldestRefresh(cfg, s).command);
    }
  }

  /** After a first slot that found nothing, the second serves the refresh or neither that nor an activated request. */
  lemma SecondSlotServes(cfg: Config, s: State)
    requires s.priorityQ != [] && NoBarriers(s.activeQ) && Choose(cfg, s, None).1.None? && Pointed(cfg, s).Some?
    ensures var s1, c := Choose(cfg, s, None).0, Pointed(cfg, s);
            var (s2, t2) := Choose(cfg, s1, c);
            t2.Some? ==>
              if Complementary(c.value, OldestRefresh(cfg, s).command)
              then t2.value.buf == PriorityBuf && At(s2, t2.value) == OldestRefresh(cfg, s)
              else !IsFront(t2.value.buf)
  {
    hide Choose, Try, Pointed, Complementary, Prepared, SameFront;
    ChooseSource(cfg, s, None);
    SameFrontQueued(cfg, s, Choose(cfg, s, None).0);
    ActiveAgain(cfg, s);
    ChooseBuffer(cfg, Choose(cfg, s, None).0, Pointed(cfg, s));
  }

  /** A command never complements itself; a closing command complements column commands at most. */
  lemma ClosingComplements(c: Command, refresh: Command)
    ensures !Complementary(c, c)
    ensures IsClosing(c) && Complementary(c, refresh) ==> CommandType(refresh) == 1
  {
  }
}
