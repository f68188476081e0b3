/** The HBM3-PIM memory controller and its refresh manager, as objects updated in place. */
module PimController {
  import opened PimTypes
  import opened PimScheduler
  import opened ControllerState

  class AllBankRefreshHBM3 {
    var clk: int
    var nextRefreshCycle: int
    const nrefi: int
    const numRanks: nat

    constructor (nrefi: int, numRanks: nat)
      ensures clk == 0 && nextRefreshCycle == nrefi && this.nrefi == nrefi && this.numRanks == numRanks
    {
      clk, nextRefreshCycle := 0, nrefi;
      this.nrefi, this.numRanks := nrefi, numRanks;
    }

    /** False when a refresh could not be queued, which the original reports by an exception. */
    method Tick(ctrl: HBM3PIMController) returns (ok: bool)
      requires ctrl.refresh == this && ctrl.Valid()
      modifies this, ctrl
      ensures (ctrl.Abs(), ok) == RefreshTick(ctrl.cfg, old(ctrl.Abs()))
    {
      clk := clk + 1;
      if clk == nextRefreshCycle {
        nextRefreshCycle := nextRefreshCycle + nrefi;
        ghost var s := ctrl.Abs();
        for r := 0 to numRanks
          invariant QueueRefreshes(ctrl.cfg, s, 0) == QueueRefreshes(ctrl.cfg, ctrl.Abs(), r)
          invariant ctrl.Abs().refresher == s.refresher
        {
          var isSuccess := ctrl.PrioritySend(RefreshRequest(ctrl.cfg, r));
          if !isSuccess {
            return false;
          }
        }
      }
      return true;
    }
  }

  /** Sending by type: what becomes of the state. */
  lemma SendTarget(cfg: Config, s: State, r: Request)
    requires r.finalCommand == Translate(r.kind) && !Forwarded(s, r)
    ensures ControllerState.Send(cfg, s, r) ==
            match Target(cfg, r.kind)
            case None => (s, Thrown)
            case Some((b, cap)) =>
              if |Buf(s, b)| < cap then
                (SetBuf(s, b, Buf(s, b) + [r.(arrive := s.clk)]).(accepted := s.accepted + [Key(r)]), Sent)
              else (s, Full)
  {
  }

  class HBM3PIMController {
    const cfg: Config
    const scheduler: PIM
    const refresh: AllBankRefreshHBM3

    var clk: int
    var issued: seq<Issue>
    var pending: seq<Request>
    var activeBuffer: seq<Request>
    var priorityBuffer: seq<Request>
    var readBuffer: seq<Request>
    var writeBuffer: seq<Request>
    var pimBuffer: seq<Request>
    var isPim: bool
    var isWriteMode: bool

    ghost var accepted: seq<Entry>
    ghost var done: seq<Entry>
    ghost var dropped: seq<Entry>
    ghost var lost: seq<Entry>

    ghost predicate Valid() {
      refresh.nrefi == cfg.nREFI && refresh.numRanks == cfg.numPch
    }

    ghost function Abs(): State
      reads this, refresh
    {
      State(clk, issued, pending, activeBuffer, priorityBuffer, readBuffer, writeBuffer, pimBuffer,
            isPim, isWriteMode, Refresher(refresh.clk, refresh.nextRefreshCycle),
            accepted, done, dropped, lost)
    }

    constructor (cfg: Config)
      ensures this.cfg == cfg && Valid() && Abs() == Init(cfg)
      ensures fresh(scheduler) && fresh(refresh)
    {
      this.cfg := cfg;
      scheduler := new PIM();
      refresh := new AllBankRefreshHBM3(cfg.nREFI, cfg.numPch);
      clk, issued, pending := 0, [], [];
      activeBuffer, priorityBuffer, readBuffer, writeBuffer, pimBuffer := [], [], [], [], [];
      isPim, isWriteMode := false, false;
      accepted, done, dropped, lost := [], [], [], [];
    }

    function DramNow(): Dram
      reads this
    {
      Dram(cfg.dev, issued, clk)
    }

    /** A bounded enqueue. */
    method Enqueue(b: BufId, capacity: nat, r: Request) returns (isSuccess: bool)
      modifies this
      ensures isSuccess == (|old(Buf(Abs(), b))| < capacity)
      ensures Abs() == if isSuccess then SetBuf(old(Abs()), b, old(Buf(Abs(), b)) + [r]) else old(Abs())
    {
      isSuccess := |Buffer(b)| < capacity;
      if isSuccess {
        SetBuffer(b, Buffer(b) + [r]);
      }
    }

    method Send(req: Request) returns (outcome: Outcome)
      modifies this
      ensures (Abs(), outcome) == ControllerState.Send(cfg, old(Abs()), req)
    {
      var r := req.(finalCommand := Translate(req.kind));
      if r.kind == Read {
        // forward existing write requests to incoming read requests
        if exists i :: 0 <= i < |writeBuffer| && writeBuffer[i].addr == r.addr {
          pending := pending + [r.(depart := clk + 1)];
          accepted := accepted + [Key(r)];
          return Sent;
        }
      }
      outcome := SendToBuffer(r);
    }

    /** The switch over request types; refreshes are invalid here. */
    method BufferFor(kind: ReqType) returns (target: Option<(BufId, nat)>)
      ensures target == Target(cfg, kind)
    {
      match kind {
        case AllBankRefresh => target := None;
        case PerBankRefresh => target := None;
        case Read => target := Some((ReadBuf, cfg.readCap));
        case Write => target := Some((WriteBuf, cfg.writeCap));
        case _ => target := Some((PimBuf, cfg.pimCap));
      }
    }

    /** Enqueue where the request's type calls for. */
    method SendToBuffer(r: Request) returns (outcome: Outcome)
      requires r.finalCommand == Translate(r.kind) && !Forwarded(Abs(), r)
      modifies this
      ensures (Abs(), outcome) == ControllerState.Send(cfg, old(Abs()), r)
    {
      hide SetBuf, Forwarded, ControllerState.Send, Target, Buf;
      SendTarget(cfg, Abs(), r);
      var target := BufferFor(r.kind);
      if target.None? {
        return Thrown;
      }
      var isSuccess := Enqueue(target.value.0, target.value.1, r.(arrive := clk));
      if !isSuccess {
        return Full;
      }
      accepted := accepted + [Key(r)];
      return Sent;
    }

    method PrioritySend(req: Request) returns (isSuccess: bool)
      modifies this
      ensures (Abs(), isSuccess) == ControllerState.PrioritySend(cfg, old(Abs()), req)
    {
      var r := req.(finalCommand := Translate(req.kind));
      isSuccess := |priorityBuffer| < cfg.priorityCap;
      if isSuccess {
        priorityBuffer := priorityBuffer + [r];
        accepted := accepted + [Key(r)];
      }
    }

    method IsPending() returns (isPending: bool)
      ensures isPending == !Idle(Abs())
    {
      isPending := |activeBuffer| != 0 || |priorityBuffer| != 0 || |readBuffer| != 0 ||
                   |writeBuffer| != 0 || |pimBuffer| != 0 || |pending| != 0;
    }

    method ServeCompletedReads()
      modifies this
      ensures Abs() == ControllerState.ServeCompletedReads(old(Abs()))
    {
      if |pending| != 0 {
        var req := pending[0];
        if req.depart <= clk {
          pending := pending[1..];
          done := done + [Key(req)];
        }
      }
    }

    method SetWriteMode()
      modifies this
      ensures Abs() == ControllerState.SetWriteMode(cfg, old(Abs()))
      ensures !isWriteMode ==> readBuffer != []
    {
      if !isWriteMode {
        if |writeBuffer| as real > cfg.highWatermark * cfg.writeCap as real || |readBuffer| == 0 {
          isWriteMode := true;
        }
      } else {
        if (|writeBuffer| as real) < cfg.lowWatermark * cfg.writeCap as real && |readBuffer| != 0 {
          isWriteMode := false;
        }
      }
    }

    function Buffer(b: BufId): (q: seq<Request>)
      reads this, refresh
      ensures q == Buf(Abs(), b)
    {
      match b
      case ActiveBuf => activeBuffer
      case PriorityBuf => priorityBuffer
      case ReadBuf => readBuffer
      case WriteBuf => writeBuffer
      case PimBuf => pimBuffer
    }

    method SetBuffer(b: BufId, q: seq<Request>)
      modifies this
      ensures Abs() == SetBuf(old(Abs()), b, q)
    {
      match b
      case ActiveBuf => activeBuffer := q;
      case PriorityBuf => priorityBuffer := q;
      case ReadBuf => readBuffer := q;
      case WriteBuf => writeBuffer := q;
      case PimBuf => pimBuffer := q;
    }

    /** Ask the scheduler about one buffer, which it rewrites. */
    method GetBestRequest(b: BufId) returns (best: Option<nat>)
      modifies this, scheduler
      ensures (Abs(), best) == BestOf(cfg, old(Abs()), b)
    {
      hide Best;
      ghost var leading := LeadingBarrier(Buffer(b));
      if leading {
        dropped := dropped + [Key(Buffer(b)[0])];
      }
      var q;
      q, best := scheduler.GetBestRequest(DramNow(), Buffer(b));
      SetBuffer(b, q);
    }

    method CompareCommandType(first: Command, second: Command) returns (different: bool)
      ensures different == Complementary(first, second)
    {
      var firstType, secondType := CommandType(first), CommandType(second);
      if firstType == -1 || secondType == -1 {
        return false;
      }
      if firstType == secondType {
        return false;
      } else {
        return true;
      }
    }

    /** Ask the scheduler about one buffer and accept what is ready; `pointed` is the command it selected. */
    method TryBuffer(b: BufId) returns (found: Option<Slot>, pointed: Option<Command>)
      modifies this, scheduler
      ensures (Abs(), found) == Try(cfg, old(Abs()), b, None)
      ensures pointed == Selected(cfg, old(Abs()), b)
    {
      hide BestOf;
      found, pointed := None, None;
      var best := GetBestRequest(b);
      if best.Some? {
        pointed := Some(Buffer(b)[best.value].command);
        if DramNow().Ready(Buffer(b)[best.value]) {
          found := Some(Slot(b, best.value));
        }
      }
    }

    /** As above, but only for a command of the other type than `first`. */
    method TryBufferSec(b: BufId, first: Command) returns (found: Option<Slot>)
      modifies this, scheduler
      ensures (Abs(), found) == Try(cfg, old(Abs()), b, Some(first))
    {
      hide BestOf, Complementary, Buf, CommandType;
      found := None;
      var best := GetBestRequest(b);
      if best.Some? {
        var r := Buffer(b)[best.value];
        var different := CompareCommandType(first, r.command);
        if different && DramNow().Ready(r) {
          found := Some(Slot(b, best.value));
        }
      }
    }

    /** Invalidate the outcome if it would interrupt a request in the active buffer. */
    method CheckClosing(t: Slot) returns (found: Option<Slot>)
      requires InBuf(Abs(), t)
      ensures found == Protect(Abs(), t)
    {
      found := Some(t);
      if IsClosing(Buffer(t.buf)[t.index].command) {
        var rowgroup := BankOf(Buffer(t.buf)[t.index].addrVec);
        for i := 0 to |activeBuffer|
          invariant found == if exists j :: 0 <= j < i && BankOf(activeBuffer[j].addrVec) == rowgroup
                             then None else Some(t)
        {
          if rowgroup == BankOf(activeBuffer[i].addrVec) {
            found := None;
          }
        }
      }
    }

    /** The oldest refresh learns the command it needs next. */
    method UpdateHead() returns (head: Request)
      requires priorityBuffer != []
      modifies this
      ensures Abs() == SetHeadCommand(cfg, old(Abs())) && priorityBuffer != [] && head == priorityBuffer[0]
    {
      head := priorityBuffer[0];
      head := head.(command := DramNow().Preq(head));
      priorityBuffer := priorityBuffer[0 := head];
    }

    /** The PIM buffer, then the read or the write buffer, for the first slot. */
    method TryOthers() returns (found: Option<Slot>, pointed: Option<Command>)
      modifies this, scheduler
      ensures (Abs(), found) == TryQueues(cfg, old(Abs()), None)
      ensures pointed == PointedInQueues(cfg, old(Abs()))
    {
      hide Try, Selected, ControllerState.SetWriteMode;
      isPim := false;
      found, pointed := TryBuffer(PimBuf);
      if found.Some? {
        isPim := true;
        return;
      }
      SetWriteMode();
      found, pointed := TryBuffer(if isWriteMode then WriteBuf else ReadBuf);
    }

    /** The same for the second slot. */
    method TryOthersSec(first: Command) returns (found: Option<Slot>)
      modifies this, scheduler
      ensures (Abs(), found) == TryQueues(cfg, old(Abs()), Some(first))
    {
      hide Try, ControllerState.SetWriteMode;
      isPim := false;
      found := TryBufferSec(PimBuf, first);
      if found.Some? {
        isPim := true;
        return;
      }
      SetWriteMode();
      found := TryBufferSec(if isWriteMode then WriteBuf else ReadBuf, first);
    }

    /** The request for the first slot, and the command of the request the iterator is left at. */
    method ScheduleRequest() returns (found: Option<Slot>, pointed: Option<Command>)
      modifies this, scheduler
      ensures (Abs(), found) == Choose(cfg, old(Abs()), None)
      ensures pointed == Pointed(cfg, old(Abs()))
    {
      hide Try, TryQueues, Protect, Selected, PointedInQueues;
      found, pointed := TryBuffer(ActiveBuf);
      if found.None? {
        if |priorityBuffer| != 0 {
          var head := UpdateHead();
          pointed := Some(head.command);
          if !DramNow().Ready(head) {
            return;
          }
          isPim := false;
          found := Some(Slot(PriorityBuf, 0));
        } else {
          found, pointed := TryOthers();
        }
      }
      if found.Some? {
        found := CheckClosing(found.value);
      }
    }

    method ScheduleSecRequest(first: Command) returns (found: Option<Slot>)
      modifies this, scheduler
      ensures (Abs(), found) == Choose(cfg, old(Abs()), Some(first))
    {
      hide Try, TryQueues, Protect, Complementary;
      found := TryBufferSec(ActiveBuf, first);
      if found.None? {
        var different := false;
        if |priorityBuffer| != 0 {
          var head := UpdateHead();
          different := CompareCommandType(first, head.command);
          if different && !DramNow().Ready(head) {
            return None;
          }
        }
        if different {
          isPim := false;
          found := Some(Slot(PriorityBuf, 0));
        } else {
          found := TryOthersSec(first);
        }
      }
      if found.Some? {
        found := CheckClosing(found.value);
      }
    }

    method CompleteRequest(t: Slot)
      requires InBuf(Abs(), t)
      modifies this
      ensures Abs() == Complete(cfg, old(Abs()), t)
    {
      var r := Buffer(t.buf)[t.index];
      if r.kind == Read {
        pending := pending + [r.(depart := clk + cfg.readLatency)];
      } else {
        done := done + [Key(r)];
      }
      SetBuffer(t.buf, RemoveAt(Buffer(t.buf), t.index));
    }

    /** The result of enqueuing is ignored: the request leaves its buffer in any case. */
    method ActivateRequest(t: Slot)
      requires InBuf(Abs(), t)
      modifies this
      ensures Abs() == MoveToActive(cfg, old(Abs()), t)
    {
      var r := Buffer(t.buf)[t.index];
      if |activeBuffer| < cfg.activeCap {
        activeBuffer := activeBuffer + [r];
      } else {
        lost := lost + [Key(r)];
      }
      SetBuffer(t.buf, RemoveAt(Buffer(t.buf), t.index));
    }

    /** Issue the command of the slot; serve, activate or leave its request. */
    method IssueCommand(t: Slot)
      requires InBuf(Abs(), t)
      modifies this
      ensures Abs() == Execute(cfg, old(Abs()), t)
    {
      hide Complete, MoveToActive;
      var r := Buffer(t.buf)[t.index];
      issued := issued + [Issue(clk, r.command, r.addrVec)];
      if r.command == r.finalCommand {
        CompleteRequest(t);
      } else {
        if !isPim {
          if IsOpening(r.command) {
            ActivateRequest(t);
          }
        }
      }
    }

    /** The first issue slot; the command that the second slot compares with. */
    method IssueFirst(stale: Command) returns (first: Command)
      modifies this, scheduler
      ensures var (s1, t1) := Choose(cfg, old(Abs()), None);
              Abs() == ExecuteIf(cfg, s1, t1) && first == FirstCommand(cfg, old(Abs()), stale)
    {
      hide Choose, Execute, Pointed;
      var found, pointed := ScheduleRequest();
      first := if pointed.Some? then pointed.value else stale;
      if found.Some? {
        IssueCommand(found.value);
      }
    }

    /** Both issue slots. `stale` is what the second slot reads when the iterator is at the end of a buffer. */
    method IssueCommands(stale: Command)
      modifies this, scheduler
      ensures Abs() == IssueTwo(cfg, old(Abs()), stale)
    {
      hide Choose, Execute, FirstCommand;
      var first := IssueFirst(stale);
      var secFound := ScheduleSecRequest(first);
      if secFound.Some? {
        IssueCommand(secFound.value);
      }
    }

    /** One cycle; false when the refresh manager throws. */
    method Tick(stale: Command) returns (ok: bool)
      requires Valid()
      modifies this, scheduler, refresh
      ensures (Abs(), ok) == ControllerState.Tick(cfg, old(Abs()), stale)
    {
      hide IssueTwo, RefreshTick, ControllerState.ServeCompletedReads;
      clk := clk + 1;
      ServeCompletedReads();
      ok := refresh.Tick(this);
      if ok {
        IssueCommands(stale);
      }
    }
  }
}
