/**
 * Barrier safety as a property of four lists of entries: what waits in the PIM buffer, what
 * was accepted, what is done and what was dropped. Each event of the controller that
 * touches PIM requests is one lemma here.
 */
module BarrierLedger {
  import opened PimTypes

  /** PIM requests were accepted in increasing trace order. */
  ghost predicate InTraceOrder(accepted: seq<Entry>) {
    forall i, j :: 0 <= i < j < |accepted| && IsPim(accepted[i].kind) && IsPim(accepted[j].kind) ==>
      accepted[i].id < accepted[j].id
  }

  /** What waits is PIM, was accepted, and still stands in trace order. */
  ghost predicate Waiting(pims: seq<Entry>, accepted: seq<Entry>) {
    && (forall i :: 0 <= i < |pims| ==> IsPim(pims[i].kind) && pims[i] in accepted)
    && (forall i, j :: 0 <= i < j < |pims| ==> pims[i].id < pims[j].id)
  }

  /** Every accepted PIM request waits or is done, or is a dropped barrier. */
  ghost predicate Covered(pims: seq<Entry>, accepted: seq<Entry>, done: seq<Entry>, dropped: seq<Entry>) {
    && (forall e :: e in accepted && IsPim(e.kind) ==> e in pims || e in done || e in dropped)
    && (forall e :: e in dropped ==> e.kind == PimBarrier)
    && (forall e :: e in done && IsPim(e.kind) ==> e in accepted)
  }

  /** A barrier leaves the buffer only after everything before it. */
  ghost predicate BarriersLeaveLast(pims: seq<Entry>, accepted: seq<Entry>) {
    forall b, e :: b in accepted && b.kind == PimBarrier && b !in pims && e in pims ==> b.id < e.id
  }

  /** `b` is a barrier between `e` and `f` in the accepted order. */
  ghost predicate Separates(accepted: seq<Entry>, e: Entry, b: Entry, f: Entry) {
    b in accepted && b.kind == PimBarrier && e.id < b.id < f.id
  }

  /** `e` is a PIM request that has to be done before `f` because of the barrier `b`. */
  ghost predicate MustPrecede(accepted: seq<Entry>, e: Entry, b: Entry, f: Entry) {
    e in accepted && IsPim(e.kind) && e.kind != PimBarrier && Separates(accepted, e, b, f)
  }

  /**
   * Barrier safety: when a PIM request is done, every PIM request that a barrier separates
   * from it was done before it.
   */
  ghost predicate BarriersRespected(accepted: seq<Entry>, done: seq<Entry>) {
    forall y, e, b ::
      (0 <= y < |done| && IsPim(done[y].kind) && MustPrecede(accepted, e, b, done[y])) ==> e in done[..y]
  }

  ghost predicate Safe(pims: seq<Entry>, accepted: seq<Entry>, done: seq<Entry>, dropped: seq<Entry>) {
    && InTraceOrder(accepted)
    && Waiting(pims, accepted)
    && Covered(pims, accepted, done, dropped)
    && BarriersLeaveLast(pims, accepted)
    && BarriersRespected(accepted, done)
  }

  /** The scheduler drops the barrier at the head. */
  lemma DropLeadingBarrier(pims: seq<Entry>, accepted: seq<Entry>, done: seq<Entry>, dropped: seq<Entry>)
    requires Safe(pims, accepted, done, dropped) && pims != [] && pims[0].kind == PimBarrier
    ensures Safe(pims[1..], accepted, done, dropped + [pims[0]])
  {
    assert pims == [pims[0]] + pims[1..];
  }

  lemma InRemoveAt(pims: seq<Entry>, k: nat, e: Entry)
    requires k < |pims|
    ensures e in RemoveAt(pims, k) ==> e in pims
    ensures e in pims ==> e in RemoveAt(pims, k) || e == pims[k]
  {
    assert pims == pims[..k] + [pims[k]] + pims[k + 1..];
  }

  /** If nothing bars position `k`, nothing that a barrier separates from it still waits. */
  lemma NothingBarredWaits(pims: seq<Entry>, accepted: seq<Entry>, k: nat, e: Entry, b: Entry)
    requires InTraceOrder(accepted) && Waiting(pims, accepted) && BarriersLeaveLast(pims, accepted) && k < |pims|
    requires forall j :: 0 < j <= k ==> pims[j].kind != PimBarrier
    requires Separates(accepted, e, b, pims[k])
    ensures e !in pims
  {
    assert e in pims ==> b in pims;
  }

  lemma WaitingRemoved(pims: seq<Entry>, accepted: seq<Entry>, k: nat)
    requires Waiting(pims, accepted) && k < |pims|
    ensures Waiting(RemoveAt(pims, k), accepted)
  {
  }

  /** A removal from an unbarred position removes a barrier only from the head. */
  lemma RemoveUnbarred(pims: seq<Entry>, accepted: seq<Entry>, k: nat)
    requires Waiting(pims, accepted) && BarriersLeaveLast(pims, accepted) && k < |pims|
    requires forall j :: 0 < j <= k ==> pims[j].kind != PimBarrier
    ensures BarriersLeaveLast(RemoveAt(pims, k), accepted)
  {
    var rest := RemoveAt(pims, k);
    forall b, e | b in accepted && b.kind == PimBarrier && b !in rest && e in rest
      ensures b.id < e.id
    {
      InRemoveAt(pims, k, b);
      InRemoveAt(pims, k, e);
      if b in pims {
        assert b == pims[0] && k == 0;
        var i :| 0 <= i < |rest| && rest[i] == e;
        assert e == pims[i + 1];
      }
    }
  }

  lemma CoverRemoved(pims: seq<Entry>, accepted: seq<Entry>, done: seq<Entry>, dropped: seq<Entry>, k: nat)
    requires Covered(pims, accepted, done, dropped) && k < |pims| && pims[k] in accepted
    ensures Covered(RemoveAt(pims, k), accepted, done + [pims[k]], dropped)
  {
    forall e | e in accepted && IsPim(e.kind)
      ensures e in RemoveAt(pims, k) || e in done + [pims[k]] || e in dropped
    {
      InRemoveAt(pims, k, e);
    }
  }

  /** One more completion keeps barrier safety if what it had to wait for is done. */
  lemma RespectOneMore(accepted: seq<Entry>, done: seq<Entry>, n: Entry)
    requires BarriersRespected(accepted, done)
    requires IsPim(n.kind) ==> forall e, b :: MustPrecede(accepted, e, b, n) ==> e in done
    ensures BarriersRespected(accepted, done + [n])
  {
    var done' := done + [n];
    forall y, e, b | 0 <= y < |done'| && IsPim(done'[y].kind) && MustPrecede(accepted, e, b, done'[y])
      ensures e in done'[..y]
    {
      if y < |done| {
        assert done'[..y] == done[..y] && done'[y] == done[y];
      } else {
        assert done'[..y] == done;
      }
    }
  }

  /** A request that no barrier separates from the head of the buffer is done. */
  lemma FinishUnbarred(pims: seq<Entry>, accepted: seq<Entry>, done: seq<Entry>, dropped: seq<Entry>, k: nat)
    requires Safe(pims, accepted, done, dropped) && k < |pims|
    requires forall j :: 0 < j <= k ==> pims[j].kind != PimBarrier
    ensures Safe(RemoveAt(pims, k), accepted, done + [pims[k]], dropped)
  {
    hide InTraceOrder, BarriersLeaveLast, BarriersRespected, Covered;
    WaitingRemoved(pims, accepted, k);
    RemoveUnbarred(pims, accepted, k);
    CoverRemoved(pims, accepted, done, dropped, k);
    forall e, b | MustPrecede(accepted, e, b, pims[k])
      ensures e in done
    {
      NothingBarredWaits(pims, accepted, k, e, b);
      WaitsOrDone(pims, accepted, done, dropped, e);
    }
    RespectOneMore(accepted, done, pims[k]);
  }

  lemma WaitsOrDone(pims: seq<Entry>, accepted: seq<Entry>, done: seq<Entry>, dropped: seq<Entry>, e: Entry)
    requires Covered(pims, accepted, done, dropped) && e in accepted && IsPim(e.kind) && e.kind != PimBarrier
    ensures e in pims || e in done
  {
  }

  /** A new request that is later in the trace than every PIM request accepted before it. */
  ghost predicate Newest(accepted: seq<Entry>, n: Entry) {
    IsPim(n.kind) ==> forall e :: e in accepted && IsPim(e.kind) ==> e.id < n.id
  }

  /** No completed request is affected by one that is accepted now. */
  lemma RespectNewest(pims: seq<Entry>, accepted: seq<Entry>, done: seq<Entry>, dropped: seq<Entry>, n: Entry)
    requires BarriersRespected(accepted, done) && Covered(pims, accepted, done, dropped) && Newest(accepted, n)
    ensures BarriersRespected(accepted + [n], done)
  {
    forall y, e, b | 0 <= y < |done| && IsPim(done[y].kind) && MustPrecede(accepted + [n], e, b, done[y])
      ensures e in done[..y]
    {
      assert done[y] in done;
      assert MustPrecede(accepted, e, b, done[y]);
    }
  }

  /** A new PIM request is accepted. */
  lemma AcceptPim(pims: seq<Entry>, accepted: seq<Entry>, done: seq<Entry>, dropped: seq<Entry>, n: Entry)
    requires Safe(pims, accepted, done, dropped) && IsPim(n.kind) && Newest(accepted, n)
    ensures Safe(pims + [n], accepted + [n], done, dropped)
  {
    hide BarriersRespected;
    assert forall e :: e in accepted + [n] <==> e in accepted || e == n;
    assert forall e :: e in pims + [n] <==> e in pims || e == n;
    RespectNewest(pims, accepted, done, dropped, n);
  }

  /** Requests of other types come and go without touching barrier safety. */
  lemma AcceptOther(pims: seq<Entry>, accepted: seq<Entry>, done: seq<Entry>, dropped: seq<Entry>, n: Entry)
    requires Safe(pims, accepted, done, dropped) && !IsPim(n.kind)
    ensures Safe(pims, accepted + [n], done, dropped)
  {
    hide BarriersRespected;
    assert forall e :: e in accepted + [n] <==> e in accepted || e == n;
    RespectNewest(pims, accepted, done, dropped, n);
  }

  lemma FinishOther(pims: seq<Entry>, accepted: seq<Entry>, done: seq<Entry>, dropped: seq<Entry>, n: Entry)
    requires Safe(pims, accepted, done, dropped) && !IsPim(n.kind)
    ensures Safe(pims, accepted, done + [n], dropped)
  {
    hide BarriersRespected;
    RespectOneMore(accepted, done, n);
  }
}
