/** The PIM scheduler: which request of a buffer is served next. */
module PimScheduler {
  import opened PimTypes

  /** The device together with the state it is asked about. */
  datatype Dram = Dram(dev: Device, issued: seq<Issue>, clk: int) {
    function Preq(r: Request): Command { dev.preq(issued, clk, r.finalCommand, r.addrVec) }
    predicate Ready(r: Request) { dev.ready(issued, clk, r.command, r.addrVec) }
    predicate RowHit(r: Request) { dev.rowHit(issued, clk, r.command, r.addrVec) }
  }

  /** Every request with the command it needs next. */
  function Prepare(d: Dram, buf: seq<Request>): (p: seq<Request>)
    ensures |p| == |buf|
    ensures forall i :: 0 <= i < |buf| ==> p[i] == buf[i].(command := d.Preq(buf[i]))
  {
    seq(|buf|, i requires 0 <= i < |buf| => buf[i].(command := d.Preq(buf[i])))
  }

  /** The banks for which some buffered request is a row hit. */
  function HitBanks(d: Dram, p: seq<Request>): (banks: seq<seq<int>>)
    ensures forall b :: b in banks <==> exists i :: 0 <= i < |p| && d.RowHit(p[i]) && BankOf(p[i].addrVec) == b
  {
    if p == [] then []
    else
      var r := p[|p| - 1];
      HitBanks(d, p[..|p| - 1]) + if d.RowHit(r) then [BankOf(r.addrVec)] else []
  }

  /** Whether the comparison of candidate `r1` with `r2` prefers `r2`. */
  predicate Prefers(d: Dram, hits: seq<seq<int>>, r1: Request, r2: Request) {
    if d.Ready(r1) != d.Ready(r2) then
      !d.Ready(r1) && (d.RowHit(r2) || BankOf(r2.addrVec) !in hits)
    else
      r1.arrive > r2.arrive
  }

  /** A barrier stands at a position in (0, j]. */
  predicate Barred(buf: seq<Request>, j: nat)
    requires j < |buf|
  {
    exists k :: 0 < k <= j && buf[k].kind == PimBarrier
  }

  /** Only opening and closing commands may overtake a barrier. */
  predicate Eligible(buf: seq<Request>, j: nat)
    requires j < |buf|
  {
    !Barred(buf, j) || IsOpening(buf[j].command) || IsClosing(buf[j].command)
  }

  /** The candidate after the requests before position `n` have been compared. */
  function Candidate(d: Dram, hits: seq<seq<int>>, buf: seq<Request>, n: nat): (c: nat)
    requires 0 < n <= |buf|
    ensures c < n
    ensures c > 0 ==> Eligible(buf, c)
  {
    if n == 1 then 0
    else
      var c := Candidate(d, hits, buf, n - 1);
      if Eligible(buf, n - 1) && Prefers(d, hits, buf[c], buf[n - 1]) then n - 1 else c
  }

  predicate LeadingBarrier(buf: seq<Request>) {
    buf != [] && buf[0].kind == PimBarrier
  }

  function DropBarrier(buf: seq<Request>): seq<Request> {
    if LeadingBarrier(buf) then buf[1..] else buf
  }

  /** The buffer that selection leaves behind, and the position selected in it. */
  function Best(d: Dram, buf: seq<Request>): (r: (seq<Request>, Option<nat>))
    ensures r.0 == DropBarrier(Prepare(d, buf))
    ensures r.1.None? <==> r.0 == []
    ensures r.1.Some? ==> r.1.value < |r.0| && (r.1.value > 0 ==> Eligible(r.0, r.1.value))
  {
    var p := Prepare(d, buf);
    var rest := DropBarrier(p);
    if rest == [] then (rest, None)
    else (rest, Some(Candidate(d, HitBanks(d, p), rest, |rest|)))
  }

  ghost predicate ArrivalOrdered(buf: seq<Request>) {
    forall i, j :: 0 <= i < j < |buf| ==> buf[i].arrive <= buf[j].arrive
  }

  /** A later request that may take the turn of a head that is not ready. */
  predicate Pickable(d: Dram, hits: seq<seq<int>>, buf: seq<Request>, j: nat)
    requires j < |buf|
  {
    Eligible(buf, j) && d.Ready(buf[j]) && (d.RowHit(buf[j]) || BankOf(buf[j].addrVec) !in hits)
  }

  /** The simple rule: the head if ready, else the first pickable request, else the head. */
  ghost predicate FirstPickable(d: Dram, hits: seq<seq<int>>, buf: seq<Request>, n: nat, c: nat)
    requires c < n <= |buf|
  {
    if d.Ready(buf[0]) then c == 0
    else if exists j :: 0 < j < n && Pickable(d, hits, buf, j) then
      0 < c && Pickable(d, hits, buf, c) && forall j :: 0 < j < c ==> !Pickable(d, hits, buf, j)
    else c == 0
  }

  lemma {:induction false} CandidateIsFirstPickable(d: Dram, hits: seq<seq<int>>, buf: seq<Request>, n: nat)
    requires 0 < n <= |buf| && ArrivalOrdered(buf)
    ensures FirstPickable(d, hits, buf, n, Candidate(d, hits, buf, n))
  {
    if n <= 1 {
    } else {
      CandidateIsFirstPickable(d, hits, buf, n - 1);
      FirstPickableNext(d, hits, buf, n, Candidate(d, hits, buf, n - 1));
    }
  }

  /** One more comparison, with the request at position n - 1. */
  lemma FirstPickableNext(d: Dram, hits: seq<seq<int>>, buf: seq<Request>, n: nat, c: nat)
    requires 1 < n <= |buf| && ArrivalOrdered(buf) && c < n - 1
    requires FirstPickable(d, hits, buf, n - 1, c)
    ensures var c' := if Eligible(buf, n - 1) && Prefers(d, hits, buf[c], buf[n - 1]) then n - 1 else c;
            FirstPickable(d, hits, buf, n, c')
  {
    assert buf[c].arrive <= buf[n - 1].arrive;
    if !d.Ready(buf[0]) {
      hide Eligible;
      if exists j :: 0 < j < n - 1 && Pickable(d, hits, buf, j) {
        assert d.Ready(buf[c]) && 0 < c < n && Pickable(d, hits, buf, c);
        assert !Prefers(d, hits, buf[c], buf[n - 1]);
      } else if Pickable(d, hits, buf, n - 1) {
        assert c == 0 && Prefers(d, hits, buf[c], buf[n - 1]);
      } else {
        assert c == 0 && !(Eligible(buf, n - 1) && Prefers(d, hits, buf[c], buf[n - 1]));
      }
    }
  }

  /** The fold of pairwise comparisons is the simple rule, on any arrival-ordered buffer. */
  lemma BestIsFirstPickable(d: Dram, buf: seq<Request>)
    requires ArrivalOrdered(buf)
    ensures var (rest, best) := Best(d, buf);
            rest != [] ==> best.Some? &&
                           FirstPickable(d, HitBanks(d, Prepare(d, buf)), rest, |rest|, best.value)
  {
    var rest := Best(d, buf).0;
    if rest != [] {
      CandidateIsFirstPickable(d, HitBanks(d, Prepare(d, buf)), rest, |rest|);
    }
  }

  /** `r` is a request of `q` with the command it needs next. */
  ghost predicate Prepared(d: Dram, q: seq<Request>, r: Request) {
    exists i :: 0 <= i < |q| && r == q[i].(command := d.Preq(q[i]))
  }

  /** Selection leaves nothing behind that was not there, and prepares all of it. */
  lemma BestPrepares(d: Dram, q: seq<Request>)
    ensures forall k :: 0 <= k < |Best(d, q).0| ==> Prepared(d, q, Best(d, q).0[k])
  {
    var p := Prepare(d, q);
    forall k | 0 <= k < |Best(d, q).0|
      ensures Prepared(d, q, Best(d, q).0[k])
    {
      var i := if LeadingBarrier(p) then k + 1 else k;
      assert Best(d, q).0[k] == p[i] == q[i].(command := d.Preq(q[i]));
    }
  }

  lemma PreparedTwice(d: Dram, q: seq<Request>, q': seq<Request>, r: Request)
    requires forall k :: 0 <= k < |q'| ==> Prepared(d, q, q'[k])
    requires Prepared(d, q', r)
    ensures Prepared(d, q, r)
  {
    var k :| 0 <= k < |q'| && r == q'[k].(command := d.Preq(q'[k]));
    var i :| 0 <= i < |q| && q'[k] == q[i].(command := d.Preq(q[i]));
    assert r == q[i].(command := d.Preq(q[i]));
  }

  ghost predicate NoBarriers(q: seq<Request>) {
    forall i :: 0 <= i < |q| ==> q[i].kind != PimBarrier
  }

  /** Asking twice gives the same answer, unless a barrier is dropped on the way. */
  lemma BestTwice(d: Dram, q: seq<Request>)
    requires NoBarriers(q)
    ensures Best(d, Best(d, q).0) == Best(d, q)
    ensures NoBarriers(Best(d, q).0)
  {
    var p := Prepare(d, q);
    assert p != [] ==> p[0].kind == q[0].kind;
    assert Prepare(d, p) == p;
  }

  /** In the order of arrival, a head that is ready is selected. */
  lemma ReadyHeadIsBest(d: Dram, q: seq<Request>)
    requires NoBarriers(q) && ArrivalOrdered(q) && q != []
    requires d.Ready(q[0].(command := d.Preq(q[0])))
    ensures Best(d, q) == (Prepare(d, q), Some(0))
  {
    var p := Prepare(d, q);
    assert p[0].kind == q[0].kind;
    hide Candidate, HitBanks, Prefers, Eligible, Pickable;
    BestIsFirstPickable(d, q);
  }

  /** A single request that is no barrier is selected. */
  lemma BestOfOne(d: Dram, r: Request)
    requires r.kind != PimBarrier
    ensures Best(d, [r]) == ([r.(command := d.Preq(r))], Some(0))
  {
    assert Prepare(d, [r]) == [r.(command := d.Preq(r))];
  }

  lemma BestOfNone(d: Dram)
    ensures Best(d, []) == ([], None)
  {
    assert Prepare(d, []) == [];
  }

  lemma FinalNeitherOpensNorCloses(t: ReqType)
    ensures !IsOpening(Translate(t)) && !IsClosing(Translate(t))
  {
  }

  /**
   * The barrier rule, on any buffer: a request that a barrier separates from the head is
   * selected only to open or close a row, never for the command that serves it.
   */
  lemma BarrierHoldsBack(d: Dram, buf: seq<Request>)
    requires forall i :: 0 <= i < |buf| ==> buf[i].finalCommand == Translate(buf[i].kind)
    ensures var (rest, best) := Best(d, buf);
            best.Some? && rest[best.value].command == rest[best.value].finalCommand ==>
              !Barred(rest, best.value)
  {
    var (rest, best) := Best(d, buf);
    if best.Some? {
      var k := best.value;
      var p := Prepare(d, buf);
      var i := if LeadingBarrier(p) then k + 1 else k;
      assert rest[k] == p[i];
      FinalNeitherOpensNorCloses(rest[k].kind);
      if k > 0 {
        assert Eligible(rest, k);
      }
    }
  }

  class PIM {
    var rowhitList: seq<seq<int>>

    constructor () {
      rowhitList := [];
    }

    /** Whether the second request wins. */
    method Compare(d: Dram, r1: Request, r2: Request) returns (second: bool)
      ensures second == Prefers(d, rowhitList, r1, r2)
    {
      var ready1, ready2 := d.Ready(r1), d.Ready(r2);
      if ready1 != ready2 {
        if ready1 {
          return false;
        } else {
          if !d.RowHit(r2) {
            if BankOf(r2.addrVec) in rowhitList {
              return false;
            }
          }
          return true;
        }
      }
      // fall back to first come, first served
      if r1.arrive <= r2.arrive {
        return false;
      } else {
        return true;
      }
    }

    /** Every request learns the command it needs next. */
    method SetCommands(d: Dram, buffer: seq<Request>) returns (buffer': seq<Request>)
      ensures buffer' == Prepare(d, buffer)
    {
      buffer' := buffer;
      for i := 0 to |buffer|
        invariant |buffer'| == |buffer|
        invariant forall j :: 0 <= j < i ==> buffer'[j] == Prepare(d, buffer)[j]
        invariant forall j :: i <= j < |buffer| ==> buffer'[j] == buffer[j]
      {
        buffer' := buffer'[i := buffer'[i].(command := d.Preq(buffer'[i]))];
      }
    }

    /** Store row buffer hit history. */
    method StoreRowHits(d: Dram, buffer: seq<Request>)
      modifies this
      ensures rowhitList == HitBanks(d, buffer)
    {
      rowhitList := [];
      for i := 0 to |buffer|
        invariant rowhitList == HitBanks(d, buffer[..i])
      {
        assert buffer[..i + 1][..i] == buffer[..i];
        if d.RowHit(buffer[i]) {
          rowhitList := rowhitList + [BankOf(buffer[i].addrVec)];
        }
      }
      assert buffer[..|buffer|] == buffer;
    }

    /** First-come-first-served fold behind the barrier rule. */
    method FoldCandidates(d: Dram, buffer: seq<Request>) returns (candidate: nat)
      requires buffer != []
      ensures candidate == Candidate(d, rowhitList, buffer, |buffer|)
    {
      candidate := 0;
      var barrier := false;
      for next := 1 to |buffer|
        invariant barrier == Barred(buffer, next - 1)
        invariant candidate == Candidate(d, rowhitList, buffer, next)
      {
        if buffer[next].kind == PimBarrier {
          barrier := true;
        }
        if barrier == false || IsOpening(buffer[next].command) || IsClosing(buffer[next].command) {
          var second := Compare(d, buffer[candidate], buffer[next]);
          if second {
            candidate := next;
          }
        }
      }
    }

    /** `buffer` is rewritten in place by the original; here it comes back as a result. */
    method GetBestRequest(d: Dram, buffer: seq<Request>) returns (buffer': seq<Request>, best: Option<nat>)
      modifies this
      ensures (buffer', best) == Best(d, buffer)
    {
      if |buffer| == 0 {
        return buffer, None;
      }
      buffer' := SetCommands(d, buffer);
      StoreRowHits(d, buffer');
      if buffer'[0].kind == PimBarrier {
        assert RemoveAt(buffer', 0) == buffer'[1..];
        buffer' := RemoveAt(buffer', 0);
        if |buffer'| == 0 {
          return buffer', None;
        }
      }
      var candidate := FoldCandidates(d, buffer');
      best := Some(candidate);
    }
  }
}
