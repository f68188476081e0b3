/**
 * What every run of the simulator issues, finishes and returns: commands only for delivered
 * records and due refreshes, and nothing is done for which the device was not given the command.
 */
module ServiceHistory {
  import opened PimTypes
  import opened PimScheduler
  import opened ControllerState
  import ControllerRuns
  import opened IssueRules
  import opened TraceText
  import opened SystemState
  import SystemSafety

  // ---- where requests come from ----------------------------------------------------------

  /** `r` asks for trace record `r.id`, one of the first `n`, which belongs to channel `c`. */
  ghost predicate OfRecord(sc: SysConfig, n: nat, c: nat, r: Request) {
    && 0 <= r.id < n <= |sc.trace|
    && var t := sc.trace[r.id];
       && ChannelOf(sc, t.addr) == c && r.kind == t.kind && r.addr == t.addr
       && r.addrVec == Decode(sc, t.addr) && r.finalCommand == Translate(t.kind)
  }

  /** `r` refreshes a pseudochannel of its own channel, the one its id names. */
  ghost predicate OfRefresh(cfg: Config, r: Request) {
    0 <= -1 - r.id < cfg.numPch && ControllerRuns.OwnRefresh(cfg, -1 - r.id, r)
  }

  ghost predicate Known(sc: SysConfig, n: nat, c: nat, r: Request)
    requires c < |sc.ctrls|
  {
    OfRecord(sc, n, c, r) || OfRefresh(sc.ctrls[c], r)
  }

  ghost predicate Records(sc: SysConfig, n: nat, c: nat, q: seq<Request>) {
    forall k :: 0 <= k < |q| ==> OfRecord(sc, n, c, q[k])
  }

  ghost predicate Refreshes(cfg: Config, q: seq<Request>) {
    forall k :: 0 <= k < |q| ==> OfRefresh(cfg, q[k])
  }

  /** Records wait in their buffers, refreshes in the priority buffer, and both in the active buffer. */
  ghost predicate Traced(sc: SysConfig, n: nat, c: nat, s: State)
    requires c < |sc.ctrls|
  {
    && Records(sc, n, c, s.readQ) && Records(sc, n, c, s.writeQ) && Records(sc, n, c, s.pimQ)
    && Refreshes(sc.ctrls[c], s.priorityQ)
    && (forall k :: 0 <= k < |s.writeQ| ==> s.writeQ[k].kind == Write)
    && forall k :: 0 <= k < |s.activeQ| ==> Known(sc, n, c, s.activeQ[k])
  }

  lemma RecordsInside(sc: SysConfig, n: nat, c: nat, q: seq<Request>, q': seq<Request>)
    requires Records(sc, n, c, q) && Inside(q', q)
    ensures Records(sc, n, c, q')
  {
    hide Decode, ChannelOf;
    forall k | 0 <= k < |q'|
      ensures OfRecord(sc, n, c, q'[k])
    {
      assert HasJob(q, Job(q'[k]));
      var i :| 0 <= i < |q| && Job(q[i]) == Job(q'[k]);
    }
  }

  lemma RefreshesInside(cfg: Config, q: seq<Request>, q': seq<Request>)
    requires Refreshes(cfg, q) && Inside(q', q)
    ensures Refreshes(cfg, q')
  {
    forall k | 0 <= k < |q'|
      ensures OfRefresh(cfg, q'[k])
    {
      assert HasJob(q, Job(q'[k]));
      var i :| 0 <= i < |q| && Job(q[i]) == Job(q'[k]);
    }
  }

  lemma WritesInside(q: seq<Request>, q': seq<Request>)
    requires Inside(q', q) && forall k :: 0 <= k < |q| ==> q[k].kind == Write
    ensures forall k :: 0 <= k < |q'| ==> q'[k].kind == Write
  {
    forall k | 0 <= k < |q'|
      ensures q'[k].kind == Write
    {
      assert HasJob(q, Job(q'[k]));
    }
  }

  /** Whatever waits in a buffer is known. */
  lemma WaitsKnown(sc: SysConfig, n: nat, c: nat, s: State, j: Request)
    requires c < |sc.ctrls| && Traced(sc, n, c, s) && Waits(s, j)
    ensures Known(sc, n, c, j)
  {
    hide Decode, ChannelOf;
    forall q: seq<Request>, k | 0 <= k < |q| && Job(q[k]) == j && Known(sc, n, c, q[k])
      ensures Known(sc, n, c, j)
    {
    }
  }

  lemma SameJobKnown(sc: SysConfig, n: nat, c: nat, r: Request)
    requires c < |sc.ctrls|
    ensures Known(sc, n, c, Job(r)) <==> Known(sc, n, c, r)
  {
    hide Decode, ChannelOf;
  }

  lemma TracedWithin(sc: SysConfig, n: nat, c: nat, s: State, s': State)
    requires c < |sc.ctrls| && Traced(sc, n, c, s) && Within(s, s')
    ensures Traced(sc, n, c, s')
  {
    hide Inside, Waits, Records, Refreshes, Known;
    RecordsInside(sc, n, c, s.readQ, s'.readQ);
    RecordsInside(sc, n, c, s.writeQ, s'.writeQ);
    RecordsInside(sc, n, c, s.pimQ, s'.pimQ);
    RefreshesInside(sc.ctrls[c], s.priorityQ, s'.priorityQ);
    WritesInside(s.writeQ, s'.writeQ);
    forall k | 0 <= k < |s'.activeQ|
      ensures Known(sc, n, c, s'.activeQ[k])
    {
      WaitsKnown(sc, n, c, s, Job(s'.activeQ[k]));
      SameJobKnown(sc, n, c, s'.activeQ[k]);
    }
  }

  /** The first part of a cycle queues only refreshes. */
  lemma BeginTickTraced(sc: SysConfig, n: nat, c: nat, s: State)
    requires c < |sc.ctrls| && Traced(sc, n, c, s)
    ensures Traced(sc, n, c, BeginTick(sc.ctrls[c], s).0)
  {
    hide BeginTick, Known, Records;
    ControllerRuns.BeginTickQueues(sc.ctrls[c], s);
  }

  /** Every delivered record is one of the first `n`, also when more are delivered. */
  lemma TracedMore(sc: SysConfig, n: nat, m: nat, c: nat, s: State)
    requires c < |sc.ctrls| && Traced(sc, n, c, s) && n <= m <= |sc.trace|
    ensures Traced(sc, m, c, s)
  {
    hide Decode, ChannelOf, OfRefresh;
  }

  /** What sending may change. */
  lemma SendQueues(cfg: Config, s: State, req: Request)
    ensures var s' := Send(cfg, s, req).0;
            var r := req.(finalCommand := Translate(req.kind));
            var waiting := r.(arrive := s.clk);
            && s'.activeQ == s.activeQ && s'.priorityQ == s.priorityQ
            && s'.issued == s.issued && s'.clk == s.clk && s'.done == s.done
            && (s'.readQ == s.readQ || s'.readQ == s.readQ + [waiting])
            && (s'.writeQ == s.writeQ || (r.kind == Write && s'.writeQ == s.writeQ + [waiting]))
            && (s'.pimQ == s.pimQ || s'.pimQ == s.pimQ + [waiting])
            && (s'.pending == s.pending || (Forwarded(s, r) && s'.pending == s.pending + [r.(depart := s.clk + 1)]))
  {
  }

  lemma RecordsAppend(sc: SysConfig, n: nat, c: nat, q: seq<Request>, r: Request)
    requires Records(sc, n, c, q) && OfRecord(sc, n, c, r)
    ensures Records(sc, n, c, q + [r])
  {
    hide OfRecord;
  }

  lemma RequestOfRecord(sc: SysConfig, n: nat, c: nat, clk: int, depart: int)
    requires n < |sc.trace| && ChannelOf(sc, sc.trace[n].addr) == c
    ensures var r := MakeRequest(sc, sc.trace[n], n);
            OfRecord(sc, n + 1, c, r.(finalCommand := Translate(r.kind), arrive := clk, depart := depart))
  {
    hide Decode, ChannelOf;
  }

  /** The record at position `n` arrives. */
  lemma SendTraced(sc: SysConfig, n: nat, c: nat, s: State)
    requires c < |sc.ctrls| && n < |sc.trace| && Traced(sc, n, c, s) && ChannelOf(sc, sc.trace[n].addr) == c
    ensures Traced(sc, n + 1, c, Send(sc.ctrls[c], s, MakeRequest(sc, sc.trace[n], n)).0)
  {
    hide Send, Known, Refreshes, OfRecord, ChannelOf, Records, Decode, Forwarded;
    TracedMore(sc, n, n + 1, c, s);
    var r := MakeRequest(sc, sc.trace[n], n);
    SendQueues(sc.ctrls[c], s, r);
    RequestOfRecord(sc, n, c, s.clk, r.depart);
    var waiting := r.(finalCommand := Translate(r.kind), arrive := s.clk);
    RecordsAppend(sc, n + 1, c, s.readQ, waiting);
    RecordsAppend(sc, n + 1, c, s.writeQ, waiting);
    RecordsAppend(sc, n + 1, c, s.pimQ, waiting);
  }

  // ---- reads behind writes ---------------------------------------------------------------

  /** No read waits in the read buffer behind an older write to its address in the write buffer. */
  ghost predicate NoneBehindWrite(s: State) {
    forall i, j :: 0 <= i < |s.readQ| && 0 <= j < |s.writeQ| && s.readQ[i].addr == s.writeQ[j].addr ==>
      s.readQ[i].id < s.writeQ[j].id
  }

  lemma NoneBehindWithin(s: State, s': State)
    requires NoneBehindWrite(s) && Within(s, s')
    ensures NoneBehindWrite(s')
  {
    forall i, j | 0 <= i < |s'.readQ| && 0 <= j < |s'.writeQ| && s'.readQ[i].addr == s'.writeQ[j].addr
      ensures s'.readQ[i].id < s'.writeQ[j].id
    {
      assert HasJob(s.readQ, Job(s'.readQ[i])) && HasJob(s.writeQ, Job(s'.writeQ[j]));
      var k :| 0 <= k < |s.readQ| && Job(s.readQ[k]) == Job(s'.readQ[i]);
      var m :| 0 <= m < |s.writeQ| && Job(s.writeQ[m]) == Job(s'.writeQ[j]);
      assert s.readQ[k].addr == s.writeQ[m].addr;
    }
  }

  /** A read that would wait behind a write is forwarded its data instead. */
  lemma SendNoneBehind(sc: SysConfig, n: nat, c: nat, s: State)
    requires c < |sc.ctrls| && n < |sc.trace| && Traced(sc, n, c, s) && NoneBehindWrite(s)
    ensures NoneBehindWrite(Send(sc.ctrls[c], s, MakeRequest(sc, sc.trace[n], n)).0)
  {
    hide Decode, ChannelOf, Known, Refreshes;
    var r := MakeRequest(sc, sc.trace[n], n);
    var final := r.(finalCommand := Translate(r.kind));
    SendQueues(sc.ctrls[c], s, r);
    ForwardedReadsDoNotQueue(sc.ctrls[c], s, r);
    OldIds(sc, n, c, s.readQ);
    hide Send;
    var s' := Send(sc.ctrls[c], s, r).0;
    forall i, j | 0 <= i < |s'.readQ| && 0 <= j < |s'.writeQ| && s'.readQ[i].addr == s'.writeQ[j].addr
      ensures s'.readQ[i].id < s'.writeQ[j].id
    {
      if s'.writeQ != s.writeQ {
        assert s'.readQ == s.readQ;
      }
    }
  }

  lemma OldIds(sc: SysConfig, n: nat, c: nat, q: seq<Request>)
    requires Records(sc, n, c, q)
    ensures forall i :: 0 <= i < |q| ==> q[i].id < n
  {
    hide Decode, ChannelOf;
  }

  lemma ForwardedReadsDoNotQueue(cfg: Config, s: State, req: Request)
    ensures var s' := Send(cfg, s, req).0;
            && (s'.writeQ != s.writeQ ==> s'.readQ == s.readQ)
            && (s'.readQ != s.readQ ==> forall j :: 0 <= j < |s.writeQ| ==> s.writeQ[j].addr != req.addr)
  {
  }

  // ---- what was issued -------------------------------------------------------------------

  /** The command at position `k` was ready, and the device asked for it to serve something known. */
  ghost predicate Purposeful(sc: SysConfig, n: nat, c: nat, issued: seq<Issue>, k: nat)
    requires c < |sc.ctrls| && k < |issued|
  {
    var x, dev := issued[k], sc.ctrls[c].dev;
    && dev.ready(issued[..k], x.clk, x.command, x.addrVec)
    && exists j ::
         Known(sc, n, c, j) && j.addrVec == x.addrVec && x.command == dev.preq(issued[..k], x.clk, j.finalCommand, j.addrVec)
  }

  ghost predicate AllPurposeful(sc: SysConfig, n: nat, c: nat, issued: seq<Issue>)
    requires c < |sc.ctrls|
  {
    forall k :: 0 <= k < |issued| ==> Purposeful(sc, n, c, issued, k)
  }

  /** In the order of time, none in the future, and two in the same cycle only as a row and a column command. */
  ghost predicate Timely(issued: seq<Issue>, clk: int) {
    && (forall k :: 0 <= k < |issued| ==> issued[k].clk <= clk)
    && (forall k :: 0 <= k < |issued| - 1 ==> issued[k].clk <= issued[k + 1].clk)
    && (forall k :: 0 <= k < |issued| - 2 ==> issued[k].clk < issued[k + 2].clk)
    && (forall k :: 0 <= k < |issued| - 1 && issued[k].clk == issued[k + 1].clk ==> ControllerRuns.OneRowOneColumn([issued[k], issued[k + 1]]))
  }

  lemma PurposefulMore(sc: SysConfig, n: nat, m: nat, c: nat, issued: seq<Issue>)
    requires c < |sc.ctrls| && AllPurposeful(sc, n, c, issued) && n <= m <= |sc.trace|
    ensures AllPurposeful(sc, m, c, issued)
  {
    hide Decode, ChannelOf, OfRefresh;
    forall k | 0 <= k < |issued|
      ensures Purposeful(sc, m, c, issued, k)
    {
      assert Purposeful(sc, n, c, issued, k);
      var x, dev := issued[k], sc.ctrls[c].dev;
      var j :| Known(sc, n, c, j) && j.addrVec == x.addrVec &&
               x.command == dev.preq(issued[..k], x.clk, j.finalCommand, j.addrVec);
      assert Known(sc, m, c, j);
    }
  }

  lemma ServesPurpose(sc: SysConfig, n: nat, c: nat, s: State, issued: seq<Issue>, k: nat)
    requires c < |sc.ctrls| && Traced(sc, n, c, s) && k < |issued| && Serves(sc.ctrls[c].dev, s, issued, k)
    ensures Purposeful(sc, n, c, issued, k)
  {
    hide Waits, Known, Traced;
    var x, dev := issued[k], sc.ctrls[c].dev;
    var j :| Waits(s, j) && j.addrVec == x.addrVec && x.command == dev.preq(issued[..k], x.clk, j.finalCommand, j.addrVec);
    WaitsKnown(sc, n, c, s, j);
  }

  lemma AllServePurpose(sc: SysConfig, n: nat, c: nat, s: State, issued: seq<Issue>)
    requires c < |sc.ctrls| && Traced(sc, n, c, s) && AllServe(sc.ctrls[c].dev, s, issued) && AllPurposeful(sc, n, c, s.issued)
    ensures AllPurposeful(sc, n, c, issued)
  {
    hide Traced, Known, Serves;
    forall k | 0 <= k < |issued|
      ensures Purposeful(sc, n, c, issued, k)
    {
      if k < |s.issued| {
        assert Purposeful(sc, n, c, s.issued, k);
        assert s.issued[..k] == issued[..k] && s.issued[k] == issued[k];
      } else {
        ServesPurpose(sc, n, c, s, issued, k);
      }
    }
  }

  lemma CycleTimely(dev: Device, s: State, issued: seq<Issue>)
    requires Timely(s.issued, s.clk - 1) && AllServe(dev, s, issued) && ControllerRuns.IssueDiscipline(s.issued, issued)
    ensures Timely(issued, s.clk)
  {
    hide Waits, ControllerRuns.ServesRows, ControllerRuns.ServesData;
    var n := |s.issued|;
    forall k | 0 <= k < |issued|
      ensures k < n ==> issued[k] == s.issued[k]
      ensures k >= n ==> issued[k].clk == s.clk
    {
      if k < n {
        assert issued[..n][k] == s.issued[k];
      } else {
        assert Serves(dev, s, issued, k);
      }
    }
    if |issued| == n + 2 {
      assert issued[n..] == [issued[n], issued[n + 1]];
    }
  }

  // ---- what was done and returned --------------------------------------------------------

  /** A command and where it goes. */
  datatype Order = Order(command: Command, addrVec: AddrVec)

  ghost function Orders(issued: seq<Issue>): (orders: seq<Order>)
    ensures |orders| == |issued|
    ensures forall k :: 0 <= k < |issued| ==> orders[k] == Order(issued[k].command, issued[k].addrVec)
  {
    seq(|issued|, k requires 0 <= k < |issued| => Order(issued[k].command, issued[k].addrVec))
  }

  /** The order that an entry stands for: that of its record, or the refresh of its pseudochannel. */
  ghost function Need(sc: SysConfig, c: nat, e: Entry): Order
    requires c < |sc.ctrls|
  {
    if 0 <= e.id < |sc.trace| then Order(Translate(e.kind), Decode(sc, sc.trace[e.id].addr))
    else Order(REFab, [sc.ctrls[c].channel, -1 - e.id, -1, -1, -1, -1, -1])
  }

  /** What all entries but the reads stand for. */
  ghost function Needs(sc: SysConfig, c: nat, done: seq<Entry>): seq<Order>
    requires c < |sc.ctrls|
  {
    if done == [] then []
    else
      var e := done[|done| - 1];
      Needs(sc, c, done[..|done| - 1]) + if e.kind == Read then [] else [Need(sc, c, e)]
  }

  /** Every write, refresh and PIM request that is done had its own final command issued to its own address. */
  ghost predicate DoneIsIssued(sc: SysConfig, c: nat, s: State)
    requires c < |sc.ctrls|
  {
    multiset(Needs(sc, c, s.done)) <= multiset(Orders(s.issued))
  }

  /** Record `i` reads what an earlier record writes. */
  ghost predicate ReadsBack(sc: SysConfig, i: int) {
    0 <= i < |sc.trace| && exists w :: 0 <= w < i && sc.trace[w].kind == Write && sc.trace[w].addr == sc.trace[i].addr
  }

  /** A read command was issued to the address of record `i`, and its latency is over at time `due`. */
  ghost predicate ReadIssued(sc: SysConfig, cfg: Config, issued: seq<Issue>, i: int, due: int) {
    && 0 <= i < |sc.trace|
    && exists k ::
         && 0 <= k < |issued| && issued[k].command == RD && issued[k].addrVec == Decode(sc, sc.trace[i].addr)
         && issued[k].clk + cfg.readLatency <= due
  }

  ghost predicate Served(sc: SysConfig, cfg: Config, issued: seq<Issue>, i: int, due: int) {
    ReadsBack(sc, i) || ReadIssued(sc, cfg, issued, i, due)
  }

  /** Reads in flight. */
  ghost predicate InFlight(sc: SysConfig, n: nat, c: nat, s: State)
    requires c < |sc.ctrls|
  {
    forall k :: 0 <= k < |s.pending| ==>
      && s.pending[k].kind == Read && OfRecord(sc, n, c, s.pending[k])
      && Served(sc, sc.ctrls[c], s.issued, s.pending[k].id, s.pending[k].depart)
  }

  /** Data came back only for reads whose latency is over, or that an earlier write was forwarded to. */
  ghost predicate Returned(sc: SysConfig, c: nat, s: State)
    requires c < |sc.ctrls|
  {
    forall k :: 0 <= k < |s.done| && s.done[k].kind == Read ==> Served(sc, sc.ctrls[c], s.issued, s.done[k].id, s.clk)
  }

  ghost predicate Accounted(sc: SysConfig, n: nat, c: nat, s: State)
    requires c < |sc.ctrls|
  {
    DoneIsIssued(sc, c, s) && InFlight(sc, n, c, s) && Returned(sc, c, s)
  }

  lemma ServedLater(sc: SysConfig, cfg: Config, issued: seq<Issue>, issued': seq<Issue>, i: int, due: int, due': int)
    requires Served(sc, cfg, issued, i, due) && issued <= issued' && due <= due'
    ensures Served(sc, cfg, issued', i, due')
  {
    hide Decode;
    if ReadIssued(sc, cfg, issued, i, due) {
      var k :| 0 <= k < |issued| && issued[k].command == RD && issued[k].addrVec == Decode(sc, sc.trace[i].addr) &&
               issued[k].clk + cfg.readLatency <= due;
      assert issued'[k] == issued[k];
    }
  }

  lemma NeedsAppend(sc: SysConfig, c: nat, done: seq<Entry>, e: Entry)
    requires c < |sc.ctrls|
    ensures Needs(sc, c, done + [e]) == Needs(sc, c, done) + if e.kind == Read then [] else [Need(sc, c, e)]
  {
    assert (done + [e])[..|done + [e]| - 1] == done;
  }

  lemma OrdersAppend(issued: seq<Issue>, x: Issue)
    ensures Orders(issued + [x]) == Orders(issued) + [Order(x.command, x.addrVec)]
  {
  }

  /** A known request stands for its final command at its own address. */
  lemma KnownNeed(sc: SysConfig, n: nat, c: nat, r: Request)
    requires c < |sc.ctrls| && Known(sc, n, c, r)
    ensures Need(sc, c, Key(r)) == Order(r.finalCommand, r.addrVec)
  {
    hide Decode, ChannelOf;
    if OfRefresh(sc.ctrls[c], r) {
      var v: AddrVec := [sc.ctrls[c].channel, -1 - r.id, -1, -1, -1, -1, -1];
      assert r.addrVec == v;
    }
  }

  /** What serving a slot adds to the records of the controller. */
  lemma ExecuteRecords(cfg: Config, s: State, t: Slot)
    requires InBuf(s, t)
    ensures var s', r := Execute(cfg, s, t), At(s, t);
            var final := r.command == r.finalCommand;
            && s'.issued == s.issued + [Issue(s.clk, r.command, r.addrVec)] && s'.clk == s.clk
            && s'.done == (if final && r.kind != Read then s.done + [Key(r)] else s.done)
            && s'.pending == if final && r.kind == Read then s.pending + [r.(depart := s.clk + cfg.readLatency)] else s.pending
  {
    hide Complete, MoveToActive, IsOpening;
    var r := At(s, t);
    var s1 := s.(issued := s.issued + [Issue(s.clk, r.command, r.addrVec)]);
    CompleteRecords(cfg, s1, t);
    MoveRecords(cfg, s1, t);
  }

  lemma CompleteRecords(cfg: Config, s: State, t: Slot)
    requires InBuf(s, t)
    ensures SameRecords(Complete(cfg, s, t), Settle(cfg, s, At(s, t)))
  {
    hide RemoveAt, Settle;
    var s' := Settle(cfg, s, At(s, t));
    assert Buf(s', t.buf) == Buf(s, t.buf) by {
      SettleKeepsBuffers(cfg, s, At(s, t), t.buf);
    }
    SetBufRecords(s', t.buf, RemoveAt(Buf(s', t.buf), t.index));
  }

  lemma SettleKeepsBuffers(cfg: Config, s: State, r: Request, b: BufId)
    ensures Buf(Settle(cfg, s, r), b) == Buf(s, b)
  {
  }

  lemma MoveRecords(cfg: Config, s: State, t: Slot)
    requires InBuf(s, t)
    ensures SameRecords(MoveToActive(cfg, s, t), s)
  {
    hide RemoveAt;
    var r := At(s, t);
    var s' := if |s.activeQ| < cfg.activeCap then s.(activeQ := s.activeQ + [r]) else s.(lost := s.lost + [Key(r)]);
    SetBufRecords(s', t.buf, RemoveAt(Buf(s', t.buf), t.index));
  }

  /** What was issued and done, what is pending, and the time. */
  ghost predicate SameRecords(s: State, s': State) {
    s'.issued == s.issued && s'.clk == s.clk && s'.done == s.done && s'.pending == s.pending
  }

  lemma SetBufRecords(s: State, b: BufId, q: seq<Request>)
    ensures SameRecords(s, SetBuf(s, b, q))
  {
  }

  /** Serving a known request keeps the account. */
  lemma ExecuteAccounted(sc: SysConfig, n: nat, c: nat, s: State, t: Slot)
    requires c < |sc.ctrls| && InBuf(s, t) && Accounted(sc, n, c, s) && Known(sc, n, c, At(s, t))
    ensures Accounted(sc, n, c, Execute(sc.ctrls[c], s, t))
  {
    hide Execute, Known, Need, DoneIsIssued, InFlight, Returned;
    var cfg, r := sc.ctrls[c], At(s, t);
    var s' := Execute(cfg, s, t);
    ExecuteRecords(cfg, s, t);
    KnownNeed(sc, n, c, r);
    IssueDone(sc, c, s, s', r);
    IssueReads(sc, n, c, s, s', r);
  }

  /** A command is issued; if it was the final one of a read, that is in flight. */
  lemma IssueReads(sc: SysConfig, n: nat, c: nat, s: State, s': State, r: Request)
    requires c < |sc.ctrls| && InFlight(sc, n, c, s) && Returned(sc, c, s) && Known(sc, n, c, r)
    requires s'.issued == s.issued + [Issue(s.clk, r.command, r.addrVec)] && s'.clk == s.clk
    requires s'.done == s.done || (r.kind != Read && s'.done == s.done + [Key(r)])
    requires s'.pending == s.pending || (r.kind == Read && r.command == r.finalCommand &&
                                         s'.pending == s.pending + [r.(depart := s.clk + sc.ctrls[c].readLatency)])
    ensures InFlight(sc, n, c, s') && Returned(sc, c, s')
  {
    hide Served, Known, Decode, ChannelOf;
    LaterAccounted(sc, n, c, s, s');
    if s'.pending != s.pending {
      KnownRead(sc, n, c, r);
      ReadWaits(sc, n, c, s'.issued, |s.issued|, r);
    }
  }

  /** A final command is issued, and its request done. */
  lemma IssueDone(sc: SysConfig, c: nat, s: State, s': State, r: Request)
    requires c < |sc.ctrls| && DoneIsIssued(sc, c, s) && Need(sc, c, Key(r)) == Order(r.finalCommand, r.addrVec)
    requires s'.issued == s.issued + [Issue(s.clk, r.command, r.addrVec)]
    requires s'.done == s.done || (s'.done == s.done + [Key(r)] && r.command == r.finalCommand)
    ensures DoneIsIssued(sc, c, s')
  {
    hide Need, Needs;
    OrdersAppend(s.issued, Issue(s.clk, r.command, r.addrVec));
    NeedsAppend(sc, c, s.done, Key(r));
  }

  lemma KnownRead(sc: SysConfig, n: nat, c: nat, r: Request)
    requires c < |sc.ctrls| && Known(sc, n, c, r) && r.kind == Read
    ensures OfRecord(sc, n, c, r)
  {
  }

  lemma ReadWaits(sc: SysConfig, n: nat, c: nat, issued: seq<Issue>, k: nat, r: Request)
    requires c < |sc.ctrls| && OfRecord(sc, n, c, r) && r.kind == Read
    requires k < |issued| && issued[k] == Issue(issued[k].clk, r.finalCommand, r.addrVec)
    ensures Served(sc, sc.ctrls[c], issued, r.id, issued[k].clk + sc.ctrls[c].readLatency)
  {
    hide Decode, ChannelOf;
  }

  /** Reads stay in flight and returned while commands are issued and time passes. */
  lemma LaterAccounted(sc: SysConfig, n: nat, c: nat, s: State, s': State)
    requires c < |sc.ctrls| && InFlight(sc, n, c, s) && Returned(sc, c, s)
    requires s.issued <= s'.issued && s.clk <= s'.clk
    ensures forall k :: 0 <= k < |s.pending| ==>
              Served(sc, sc.ctrls[c], s'.issued, s.pending[k].id, s.pending[k].depart)
    ensures forall k :: 0 <= k < |s.done| && s.done[k].kind == Read ==>
              Served(sc, sc.ctrls[c], s'.issued, s.done[k].id, s'.clk)
  {
    hide Served;
    forall k | 0 <= k < |s.pending|
      ensures Served(sc, sc.ctrls[c], s'.issued, s.pending[k].id, s.pending[k].depart)
    {
      ServedLater(sc, sc.ctrls[c], s.issued, s'.issued, s.pending[k].id, s.pending[k].depart, s.pending[k].depart);
    }
    forall k | 0 <= k < |s.done| && s.done[k].kind == Read
      ensures Served(sc, sc.ctrls[c], s'.issued, s.done[k].id, s'.clk)
    {
      ServedLater(sc, sc.ctrls[c], s.issued, s'.issued, s.done[k].id, s.clk, s'.clk);
    }
  }

  /** The first part of a cycle returns the oldest read, if its time has come. */
  lemma BeginTickAccounted(sc: SysConfig, n: nat, c: nat, s: State)
    requires c < |sc.ctrls| && Accounted(sc, n, c, s)
    ensures Accounted(sc, n, c, BeginTick(sc.ctrls[c], s).0)
  {
    hide BeginTick, ControllerRuns.Refreshed, DoneIsIssued, InFlight, Returned;
    var s' := BeginTick(sc.ctrls[c], s).0;
    ControllerRuns.BeginTickQueues(sc.ctrls[c], s);
    if s'.done != s.done {
      ReturnFirst(sc, n, c, s, s');
    } else {
      TimePasses(sc, n, c, s, s');
    }
  }

  lemma TimePasses(sc: SysConfig, n: nat, c: nat, s: State, s': State)
    requires c < |sc.ctrls| && Accounted(sc, n, c, s)
    requires s'.issued == s.issued && s'.done == s.done && s'.pending == s.pending && s.clk <= s'.clk
    ensures Accounted(sc, n, c, s')
  {
    hide Served, OfRecord, Needs;
    LaterAccounted(sc, n, c, s, s');
  }

  lemma ReturnFirst(sc: SysConfig, n: nat, c: nat, s: State, s': State)
    requires c < |sc.ctrls| && Accounted(sc, n, c, s) && s.pending != [] && s.pending[0].depart <= s'.clk
    requires s'.issued == s.issued && s'.done == s.done + [Key(s.pending[0])] && s'.pending == s.pending[1..] && s.clk <= s'.clk
    ensures Accounted(sc, n, c, s')
  {
    hide Served, OfRecord, Needs;
    var r := s.pending[0];
    NeedsAppend(sc, c, s.done, Key(r));
    LaterAccounted(sc, n, c, s, s');
    ServedLater(sc, sc.ctrls[c], s.issued, s'.issued, r.id, r.depart, s'.clk);
  }

  lemma SendAccounted(sc: SysConfig, n: nat, c: nat, s: State)
    requires c < |sc.ctrls| && n < |sc.trace| && ChannelOf(sc, sc.trace[n].addr) == c
    requires Traced(sc, n, c, s) && Accounted(sc, n, c, s)
    ensures Accounted(sc, n + 1, c, Send(sc.ctrls[c], s, MakeRequest(sc, sc.trace[n], n)).0)
  {
    hide Send, OfRecord, Decode, ChannelOf, Needs, ReadIssued, ReadsBack, Traced;
    var r := MakeRequest(sc, sc.trace[n], n);
    var s' := Send(sc.ctrls[c], s, r).0;
    SendQueues(sc.ctrls[c], s, r);
    RequestOfRecord(sc, n, c, r.arrive, s.clk + 1);
    InFlightMore(sc, n, n + 1, c, s);
    if s'.pending != s.pending {
      ForwardReadsBack(sc, n, c, s);
    }
  }

  lemma InFlightMore(sc: SysConfig, n: nat, m: nat, c: nat, s: State)
    requires c < |sc.ctrls| && InFlight(sc, n, c, s) && n <= m <= |sc.trace|
    ensures InFlight(sc, m, c, s)
  {
    hide Served, Decode, ChannelOf;
  }

  /** A read that finds its address in the write buffer reads what an earlier record writes. */
  lemma ForwardReadsBack(sc: SysConfig, n: nat, c: nat, s: State)
    requires c < |sc.ctrls| && n < |sc.trace| && Traced(sc, n, c, s)
    requires Forwarded(s, MakeRequest(sc, sc.trace[n], n).(finalCommand := Translate(sc.trace[n].kind)))
    ensures ReadsBack(sc, n)
  {
    hide Decode, ChannelOf, Known, Refreshes;
    var i :| 0 <= i < |s.writeQ| && s.writeQ[i].addr == sc.trace[n].addr;
    assert OfRecord(sc, n, c, s.writeQ[i]) && s.writeQ[i].kind == Write;
  }

  // ---- every run -------------------------------------------------------------------------

  ghost predicate History(sc: SysConfig, n: nat, c: nat, s: State)
    requires c < |sc.ctrls|
  {
    && Traced(sc, n, c, s) && Accounted(sc, n, c, s) && AllPurposeful(sc, n, c, s.issued)
    && Timely(s.issued, s.clk) && NoneBehindWrite(s)
  }

  /** One slot of a cycle. */
  lemma SlotAccounted(sc: SysConfig, n: nat, c: nat, s: State, first: Option<Command>)
    requires c < |sc.ctrls| && Traced(sc, n, c, s) && Accounted(sc, n, c, s)
    ensures var (s1, t) := Choose(sc.ctrls[c], s, first);
            var s' := ExecuteIf(sc.ctrls[c], s1, t);
            Traced(sc, n, c, s') && Accounted(sc, n, c, s')
  {
    hide Choose, Execute, Traced, Known, Within, Served, Needs, Waits, OfRecord;
    ChooseCalm(sc.ctrls[c], s, first);
    var (s1, t) := Choose(sc.ctrls[c], s, first);
    TracedWithin(sc, n, c, s, s1);
    assert Accounted(sc, n, c, s1);
    if t.Some? {
      AtWaits(s1, t.value);
      WaitsKnown(sc, n, c, s1, Job(At(s1, t.value)));
      SameJobKnown(sc, n, c, At(s1, t.value));
      ExecuteAccounted(sc, n, c, s1, t.value);
      ExecuteWithin(sc.ctrls[c], s1, t);
      TracedWithin(sc, n, c, s1, ExecuteIf(sc.ctrls[c], s1, t));
    }
  }

  lemma CycleAccounted(sc: SysConfig, n: nat, c: nat, s: State, stale: Command)
    requires c < |sc.ctrls| && Traced(sc, n, c, s) && Accounted(sc, n, c, s)
    ensures var s' := Tick(sc.ctrls[c], s, stale).0; Traced(sc, n, c, s') && Accounted(sc, n, c, s')
  {
    hide Choose, ExecuteIf, Traced, Accounted, BeginTick, FirstCommand;
    BeginTickTraced(sc, n, c, s);
    BeginTickAccounted(sc, n, c, s);
    var s0 := BeginTick(sc.ctrls[c], s).0;
    SlotAccounted(sc, n, c, s0, None);
    var (s1, t1) := Choose(sc.ctrls[c], s0, None);
    SlotAccounted(sc, n, c, ExecuteIf(sc.ctrls[c], s1, t1), Some(FirstCommand(sc.ctrls[c], s0, stale)));
  }

  lemma TickHistory(sc: SysConfig, n: nat, c: nat, s: State, stale: Command)
    requires c < |sc.ctrls| && History(sc, n, c, s)
    ensures History(sc, n, c, Tick(sc.ctrls[c], s, stale).0)
  {
    hide Tick, BeginTick, Traced, Accounted, Purposeful, Timely, AllServe, ControllerRuns.IssueDiscipline, ControllerRuns.Refreshed, Within;
    CycleAccounted(sc, n, c, s, stale);
    TickServes(sc.ctrls[c], s, stale);
    ControllerRuns.BeginTickQueues(sc.ctrls[c], s);
    BeginTickTraced(sc, n, c, s);
    var s0, s' := BeginTick(sc.ctrls[c], s).0, Tick(sc.ctrls[c], s, stale).0;
    AllServePurpose(sc, n, c, s0, s'.issued);
    ControllerRuns.TickIssues(sc.ctrls[c], s, stale);
    CycleTimely(sc.ctrls[c].dev, s0, s'.issued);
    assert NoneBehindWrite(s0);
    NoneBehindWithin(s0, s');
  }

  lemma SendHistory(sc: SysConfig, n: nat, c: nat, s: State)
    requires c < |sc.ctrls| && n < |sc.trace| && ChannelOf(sc, sc.trace[n].addr) == c && History(sc, n, c, s)
    ensures var (s', outcome) := Send(sc.ctrls[c], s, MakeRequest(sc, sc.trace[n], n));
            if outcome == Sent then History(sc, n + 1, c, s') else s' == s
  {
    hide Send, ChannelOf, Decode, Purposeful, Timely, Accounted, Traced, NoneBehindWrite;
    SendQueues(sc.ctrls[c], s, MakeRequest(sc, sc.trace[n], n));
    RefusedUnchanged(sc.ctrls[c], s, MakeRequest(sc, sc.trace[n], n));
    SendTraced(sc, n, c, s);
    SendAccounted(sc, n, c, s);
    SendNoneBehind(sc, n, c, s);
    PurposefulMore(sc, n, n + 1, c, s.issued);
  }

  lemma RefusedUnchanged(cfg: Config, s: State, req: Request)
    ensures Send(cfg, s, req).1 != Sent ==> Send(cfg, s, req).0 == s
  {
  }

  lemma MoreHistory(sc: SysConfig, n: nat, c: nat, s: State)
    requires c < |sc.ctrls| && n < |sc.trace| && History(sc, n, c, s)
    ensures History(sc, n + 1, c, s)
  {
    hide Traced, Purposeful, Timely, InFlight, NoneBehindWrite;
    TracedMore(sc, n, n + 1, c, s);
    InFlightMore(sc, n, n + 1, c, s);
    PurposefulMore(sc, n, n + 1, c, s.issued);
  }

  ghost predicate AllHistories(sc: SysConfig, sys: System) {
    |sys.ctrls| == |sc.ctrls| && forall c :: 0 <= c < |sc.ctrls| ==> History(sc, sys.count, c, sys.ctrls[c])
  }

  lemma OfferHistory(sc: SysConfig, sys: System)
    requires WellFormed(sc, sys) && AllHistories(sc, sys) && sys.count < |sc.trace|
    ensures AllHistories(sc, Offer(sc, sys).0)
  {
    hide History, Send, Decode, ChannelOf;
    var t := sc.trace[sys.idx];
    ChannelInRange(sc, t.addr);
    var c := ChannelOf(sc, t.addr);
    SendHistory(sc, sys.count, c, sys.ctrls[c]);
    var (sys', ok) := Offer(sc, sys);
    forall d | 0 <= d < |sc.ctrls|
      ensures History(sc, sys'.count, d, sys'.ctrls[d])
    {
      if d != c && ok {
        MoreHistory(sc, sys.count, d, sys.ctrls[d]);
      }
    }
  }

  lemma {:induction false} DeliverHistory(sc: SysConfig, sys: System)
    requires WellFormed(sc, sys) && AllHistories(sc, sys)
    ensures AllHistories(sc, Deliver(sc, sys))
    decreases |sc.trace| - sys.count
  {
    hide AllHistories, Offer;
    if sys.count >= |sc.trace| || !Forwardable(sc.trace[sys.idx].kind) {
    } else {
      OfferHistory(sc, sys);
      var (sys', ok) := Offer(sc, sys);
      if ok {
        DeliverHistory(sc, sys');
      }
    }
  }

  lemma {:induction false} TickFromHistory(sc: SysConfig, sys: System, stale: seq<Command>, c: nat)
    requires AllHistories(sc, sys)
    ensures AllHistories(sc, TickFrom(sc, sys, stale, c).0)
    decreases |sc.ctrls| - c
  {
    hide History, Tick;
    if c >= |sc.ctrls| {
    } else {
      TickHistory(sc, sys.count, c, sys.ctrls[c], StaleFor(stale, c));
      var (s', ok) := Tick(sc.ctrls[c], sys.ctrls[c], StaleFor(stale, c));
      if ok {
        TickFromHistory(sc, sys.(ctrls := sys.ctrls[c := s']), stale, c + 1);
      }
    }
  }

  lemma {:induction false} EveryRunHistory(sc: SysConfig, steps: seq<Step>)
    requires sc.Valid()
    ensures AllHistories(sc, Run(sc, steps).0)
  {
    hide Deliver, TickFrom, History;
    if steps == [] {
      forall c | 0 <= c < |sc.ctrls|
        ensures History(sc, 0, c, Init(sc.ctrls[c]))
      {
        InitHistory(sc, c);
      }
    } else {
      EveryRunHistory(sc, steps[..|steps| - 1]);
      var (sys, ok) := Run(sc, steps[..|steps| - 1]);
      if ok {
        match steps[|steps| - 1]
        case FrontendTick => DeliverHistory(sc, sys);
        case MemoryTick(stale) => TickFromHistory(sc, sys.(clk := sys.clk + 1), stale, 0);
      }
    }
  }

  lemma InitHistory(sc: SysConfig, c: nat)
    requires c < |sc.ctrls|
    ensures History(sc, 0, c, Init(sc.ctrls[c]))
  {
    hide Known, Purposeful;
  }

  /** On every run, every buffer of every channel holds delivered records of that channel, or its own refreshes. */
  lemma EveryRequestIsKnown(sc: SysConfig, steps: seq<Step>, c: nat)
    requires sc.Valid() && c < |sc.ctrls|
    ensures var sys := Run(sc, steps).0;
            |sys.ctrls| == |sc.ctrls| && Traced(sc, sys.count, c, sys.ctrls[c])
  {
    hide Run, Traced, Accounted;
    EveryRunHistory(sc, steps);
  }

  /** On every run, no read waits behind an older write to its address: it was forwarded the data. */
  lemma EveryQueuedReadIsAhead(sc: SysConfig, steps: seq<Step>, c: nat)
    requires sc.Valid() && c < |sc.ctrls|
    ensures |Run(sc, steps).0.ctrls| == |sc.ctrls| && NoneBehindWrite(Run(sc, steps).0.ctrls[c])
  {
    hide Run, Traced, Accounted, Purposeful, Timely, NoneBehindWrite;
    EveryRunHistory(sc, steps);
  }

  /**
   * On every run, every command was ready when it was issued, and was then what the device asked
   * for to serve a delivered record of its channel, or a refresh. A cycle issues two at most.
   */
  lemma EveryCommandIsDue(sc: SysConfig, steps: seq<Step>, c: nat)
    requires sc.Valid() && c < |sc.ctrls|
    ensures var sys := Run(sc, steps).0;
            |sys.ctrls| == |sc.ctrls| &&
            AllPurposeful(sc, sys.count, c, sys.ctrls[c].issued) && Timely(sys.ctrls[c].issued, sys.ctrls[c].clk)
  {
    hide Run, Traced, Accounted, Purposeful, Timely;
    EveryRunHistory(sc, steps);
  }

  /**
   * On every run, the final commands of all that is done were issued, each to the address of its
   * record and as often as such records are done; and every read that returned had its read
   * command issued and its latency passed, unless an earlier write was forwarded to it.
   */
  lemma EveryDoneWasIssued(sc: SysConfig, steps: seq<Step>, c: nat)
    requires sc.Valid() && c < |sc.ctrls|
    ensures var sys := Run(sc, steps).0;
            |sys.ctrls| == |sc.ctrls| && DoneIsIssued(sc, c, sys.ctrls[c]) && Returned(sc, c, sys.ctrls[c])
  {
    hide Run, Traced, DoneIsIssued, Returned, Purposeful, Timely;
    EveryRunHistory(sc, steps);
  }

  lemma {:induction false} NeedInNeeds(sc: SysConfig, c: nat, done: seq<Entry>, e: Entry)
    requires c < |sc.ctrls| && e in done && e.kind != Read
    ensures Need(sc, c, e) in Needs(sc, c, done)
  {
    hide Need;
    if e == done[|done| - 1] {
    } else {
      NeedInNeeds(sc, c, done[..|done| - 1], e);
    }
  }

  /** When the simulation ends, the command of every PIM record but the barriers has been issued to its address. */
  lemma FinishedMeansIssued(sc: SysConfig, steps: seq<Step>, c: nat, i: int) returns (k: nat)
    requires sc.Valid() && c < |sc.ctrls| && SystemSafety.PimAt(sc, i, c) && Finished(sc, Run(sc, steps).0)
    ensures var sys := Run(sc, steps).0;
            && |sys.ctrls| == |sc.ctrls| && k < |sys.ctrls[c].issued|
            && sys.ctrls[c].issued[k].command == Translate(sc.trace[i].kind)
            && sys.ctrls[c].issued[k].addrVec == Decode(sc, sc.trace[i].addr)
  {
    hide Run, Needs, Returned, Finished;
    var sys, e := Run(sc, steps).0, Entry(i, sc.trace[i].kind);
    SystemSafety.FinishedMeansAllDone(sc, steps, c, i);
    EveryDoneWasIssued(sc, steps, c);
    var s := sys.ctrls[c];
    assert e in s.done;
    NeedInNeeds(sc, c, s.done, e);
    assert Need(sc, c, e) in multiset(Orders(s.issued));
    k :| k < |s.issued| && Orders(s.issued)[k] == Need(sc, c, e);
  }
}
