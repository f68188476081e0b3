/** One HBM3-PIM memory controller as a value: its state and the effect of each operation. */
module ControllerState {
  import opened PimTypes
  import opened PimScheduler

  /** Fixed parameters of a controller; capacities are how many requests a buffer accepts. */
  datatype Config = Config(
    dev: Device, channel: int,
    activeCap: nat, priorityCap: nat, readCap: nat, writeCap: nat, pimCap: nat,
    lowWatermark: real, highWatermark: real, readLatency: int,
    nREFI: int, numPch: nat)

  /** The all-bank refresh manager: its clock and the cycle of the next refresh. */
  datatype Refresher = Refresher(clk: int, next: int)

  /**
   * `issued` is the device state of the channel. The last four fields record what became
   * of each request: accepted by `send` or `priority_send`, done (its final command was
   * issued, or its read data came back), dropped by the scheduler as a leading barrier, or
   * lost because the active buffer was full.
   */
  datatype State = State(
    clk: int, issued: seq<Issue>,
    pending: seq<Request>, activeQ: seq<Request>, priorityQ: seq<Request>,
    readQ: seq<Request>, writeQ: seq<Request>, pimQ: seq<Request>,
    isPim: bool, writeMode: bool, refresher: Refresher,
    accepted: seq<Entry>, done: seq<Entry>, dropped: seq<Entry>, lost: seq<Entry>)

  function Init(cfg: Config): State {
    State(0, [], [], [], [], [], [], [], false, false, Refresher(0, cfg.nREFI), [], [], [], [])
  }

  datatype BufId = ActiveBuf | PriorityBuf | ReadBuf | WriteBuf | PimBuf

  /** A pointer to a buffer and an iterator into it. */
  datatype Slot = Slot(buf: BufId, index: nat)

  function Buf(s: State, b: BufId): seq<Request> {
    match b
    case ActiveBuf => s.activeQ
    case PriorityBuf => s.priorityQ
    case ReadBuf => s.readQ
    case WriteBuf => s.writeQ
    case PimBuf => s.pimQ
  }

  function SetBuf(s: State, b: BufId, q: seq<Request>): (s': State)
    ensures Buf(s', b) == q && s'.isPim == s.isPim
    ensures s'.accepted == s.accepted && s'.done == s.done && s'.dropped == s.dropped && s'.lost == s.lost
  {
    match b
    case ActiveBuf => s.(activeQ := q)
    case PriorityBuf => s.(priorityQ := q)
    case ReadBuf => s.(readQ := q)
    case WriteBuf => s.(writeQ := q)
    case PimBuf => s.(pimQ := q)
  }

  predicate InBuf(s: State, t: Slot) {
    t.index < |Buf(s, t.buf)|
  }

  function At(s: State, t: Slot): Request
    requires InBuf(s, t)
  {
    Buf(s, t.buf)[t.index]
  }

  function DramOf(cfg: Config, s: State): Dram {
    Dram(cfg.dev, s.issued, s.clk)
  }

  // ---- sending -------------------------------------------------------------------------

  datatype Outcome = Sent | Full | Thrown

  predicate Forwarded(s: State, r: Request) {
    r.kind == Read && exists i :: 0 <= i < |s.writeQ| && s.writeQ[i].addr == r.addr
  }

  /** Which buffer `send` uses, and how much it accepts; refresh types are not accepted. */
  function Target(cfg: Config, t: ReqType): Option<(BufId, nat)> {
    if t == Read then Some((ReadBuf, cfg.readCap))
    else if t == Write then Some((WriteBuf, cfg.writeCap))
    else if IsPim(t) then Some((PimBuf, cfg.pimCap))
    else None
  }

  function Send(cfg: Config, s: State, req: Request): (State, Outcome) {
    var r := req.(finalCommand := Translate(req.kind));
    if Forwarded(s, r) then
      (s.(pending := s.pending + [r.(depart := s.clk + 1)], accepted := s.accepted + [Key(r)]), Sent)
    else
      match Target(cfg, r.kind)
      case None => (s, Thrown)
      case Some((b, cap)) =>
        if |Buf(s, b)| < cap then
          (SetBuf(s.(accepted := s.accepted + [Key(r)]), b, Buf(s, b) + [r.(arrive := s.clk)]), Sent)
        else (s, Full)
  }

  function PrioritySend(cfg: Config, s: State, req: Request): (State, bool) {
    var r := req.(finalCommand := Translate(req.kind));
    if |s.priorityQ| < cfg.priorityCap then
      (s.(priorityQ := s.priorityQ + [r], accepted := s.accepted + [Key(r)]), true)
    else (s, false)
  }

  function RefreshRequest(cfg: Config, pch: int): Request {
    Request(-1, [cfg.channel, pch, -1, -1, -1, -1, -1], AllBankRefresh, -1 - pch, -1, -1, Unset, Unset)
  }

  /** One refresh per pseudochannel from `pch` on; false when a refresh did not fit. */
  function QueueRefreshes(cfg: Config, s: State, pch: nat): (State, bool)
    decreases cfg.numPch - pch
  {
    if pch >= cfg.numPch then (s, true)
    else
      var (s', ok) := PrioritySend(cfg, s, RefreshRequest(cfg, pch));
      if ok then QueueRefreshes(cfg, s', pch + 1) else (s', false)
  }

  function RefreshTick(cfg: Config, s: State): (State, bool) {
    var clk := s.refresher.clk + 1;
    if clk == s.refresher.next then
      QueueRefreshes(cfg, s.(refresher := Refresher(clk, s.refresher.next + cfg.nREFI)), 0)
    else (s.(refresher := Refresher(clk, s.refresher.next)), true)
  }

  /** Return the data of at most one read. */
  function ServeCompletedReads(s: State): State {
    if s.pending != [] && s.pending[0].depart <= s.clk then
      s.(pending := s.pending[1..], done := s.done + [Key(s.pending[0])])
    else s
  }

  // ---- scheduling ----------------------------------------------------------------------

  /** Ask the scheduler about one buffer; it may drop a leading barrier there. */
  function BestOf(cfg: Config, s: State, b: BufId): (r: (State, Option<nat>))
    ensures r.1.Some? ==> r.1.value < |Buf(r.0, b)|
    ensures r.0.isPim == s.isPim
  {
    hide Best;
    var (q, best) := Best(DramOf(cfg, s), Buf(s, b));
    var s' := if LeadingBarrier(Buf(s, b)) then s.(dropped := s.dropped + [Key(Buf(s, b)[0])]) else s;
    (SetBuf(s', b, q), best)
  }

  function SetHeadCommand(cfg: Config, s: State): State
    requires s.priorityQ != []
  {
    var r := s.priorityQ[0];
    s.(priorityQ := s.priorityQ[0 := r.(command := DramOf(cfg, s).Preq(r))])
  }

  function SetWriteMode(cfg: Config, s: State): State {
    if !s.writeMode then
      if |s.writeQ| as real > cfg.highWatermark * cfg.writeCap as real || |s.readQ| == 0
      then s.(writeMode := true) else s
    else
      if (|s.writeQ| as real) < cfg.lowWatermark * cfg.writeCap as real && |s.readQ| != 0
      then s.(writeMode := false) else s
  }

  /** 0 for a row command, 1 for a column command, -1 for the rest. */
  function CommandType(c: Command): int {
    match c
    case ACT | PRE | PREA | REFab | REFsb | ACTAB | ACTSB | ACTPB => 0
    case RD | WR | MACAB | MACSB | MACPB | WRGB | MVSB | MVGB | SFM | SETM | SETH => 1
    case PRESB | PREPB | BARRIER | Unset => -1
  }

  /** One row and one column command, in either order. */
  predicate Complementary(first: Command, second: Command) {
    CommandType(first) != -1 && CommandType(second) != -1 && CommandType(first) != CommandType(second)
  }

  /** The command would close the row of a request in the active buffer. */
  predicate ClosesActiveRow(s: State, r: Request) {
    IsClosing(r.command) &&
    exists i :: 0 <= i < |s.activeQ| && BankOf(s.activeQ[i].addrVec) == BankOf(r.addrVec)
  }

  function Protect(s: State, t: Slot): (r: Option<Slot>)
    requires InBuf(s, t)
    ensures r.Some? ==> r.value == t
  {
    if ClosesActiveRow(s, At(s, t)) then None else Some(t)
  }

  /** Try one buffer: what is found must be ready and satisfy the filter of the slot. */
  function Try(cfg: Config, s: State, b: BufId, first: Option<Command>): (r: (State, Option<Slot>))
    ensures r.1.Some? ==> InBuf(r.0, r.1.value) && r.1.value.buf == b
    ensures r.0.isPim == s.isPim
    ensures r.1.Some? && first.Some? ==> Complementary(first.value, At(r.0, r.1.value).command)
  {
    var (s', best) := BestOf(cfg, s, b);
    if best.Some? && (first.Some? ==> Complementary(first.value, Buf(s', b)[best.value].command)) &&
       DramOf(cfg, s').Ready(Buf(s', b)[best.value])
    then (s', Some(Slot(b, best.value)))
    else (s', None)
  }

  /** The PIM buffer, then the read or the write buffer. */
  function TryQueues(cfg: Config, s: State, first: Option<Command>): (r: (State, Option<Slot>))
    ensures r.1.Some? ==> InBuf(r.0, r.1.value) && r.1.value.buf != PriorityBuf && r.1.value.buf != ActiveBuf
    ensures r.1.Some? ==> r.0.isPim == (r.1.value.buf == PimBuf)
    ensures r.1.Some? && first.Some? ==> Complementary(first.value, At(r.0, r.1.value).command)
  {
    hide Try;
    var (s1, p) := Try(cfg, s.(isPim := false), PimBuf, first);
    if p.Some? then
      assert At(s1.(isPim := true), p.value) == At(s1, p.value);
      (s1.(isPim := true), p)
    else
      var s2 := SetWriteMode(cfg, s1);
      Try(cfg, s2, if s2.writeMode then WriteBuf else ReadBuf, first)
  }

  /**
   * The request for one slot of the tick. `first` is the command issued in the first slot,
   * None while the first slot itself is being filled: the second slot accepts only a
   * command of the other type, and passes over a refresh of the same type.
   */
  function Choose(cfg: Config, s: State, first: Option<Command>): (r: (State, Option<Slot>))
    ensures r.1.Some? ==> InBuf(r.0, r.1.value)
    ensures r.1.Some? && first.Some? ==> Complementary(first.value, At(r.0, r.1.value).command)
    ensures r.1.Some? && r.1.value.buf != ActiveBuf ==> r.0.isPim == (r.1.value.buf == PimBuf)
  {
    hide Try, TryQueues;
    var (s1, a) := Try(cfg, s, ActiveBuf, first);
    if a.Some? then (s1, Protect(s1, a.value))
    else if s1.priorityQ != [] then
      var s2 := SetHeadCommand(cfg, s1);
      var head := s2.priorityQ[0];
      if first.Some? && !Complementary(first.value, head.command) then
        var (s3, t) := TryQueues(cfg, s2, first);
        (s3, if t.Some? then Protect(s3, t.value) else None)
      else if DramOf(cfg, s2).Ready(head) then
        var s3 := s2.(isPim := false);
        (s3, Protect(s3, Slot(PriorityBuf, 0)))
      else (s2, None)
    else
      var (s3, t) := TryQueues(cfg, s1, first);
      (s3, if t.Some? then Protect(s3, t.value) else None)
  }

  // ---- executing -----------------------------------------------------------------------

  /** The request moves to the active buffer; when that is full it is lost. */
  function MoveToActive(cfg: Config, s: State, t: Slot): State
    requires InBuf(s, t)
  {
    var r := At(s, t);
    var s' := if |s.activeQ| < cfg.activeCap then s.(activeQ := s.activeQ + [r])
              else s.(lost := s.lost + [Key(r)]);
    SetBuf(s', t.buf, RemoveAt(Buf(s', t.buf), t.index))
  }

  /** The final command was issued: a read waits for its data, everything else is done. */
  function Settle(cfg: Config, s: State, r: Request): State {
    if r.kind == Read then s.(pending := s.pending + [r.(depart := s.clk + cfg.readLatency)])
    else s.(done := s.done + [Key(r)])
  }

  function Complete(cfg: Config, s: State, t: Slot): State
    requires InBuf(s, t)
  {
    var s' := Settle(cfg, s, At(s, t));
    SetBuf(s', t.buf, RemoveAt(Buf(s', t.buf), t.index))
  }

  function Execute(cfg: Config, s: State, t: Slot): State
    requires InBuf(s, t)
  {
    var r := At(s, t);
    var s1 := s.(issued := s.issued + [Issue(s.clk, r.command, r.addrVec)]);
    if r.command == r.finalCommand then Complete(cfg, s1, t)
    else if !s1.isPim && IsOpening(r.command) then MoveToActive(cfg, s1, t)
    else s1
  }

  function ExecuteIf(cfg: Config, s: State, t: Option<Slot>): State
    requires t.Some? ==> InBuf(s, t.value)
  {
    if t.Some? then Execute(cfg, s, t.value) else s
  }

  /** Step 1 and the refresh manager; false when the refresh manager throws. */
  function BeginTick(cfg: Config, s: State): (State, bool) {
    RefreshTick(cfg, ServeCompletedReads(s.(clk := s.clk + 1)))
  }

  /** The command of the request that the scheduler selects in a buffer; None at the end of an empty one. */
  function Selected(cfg: Config, s: State, b: BufId): Option<Command> {
    var (s', best) := BestOf(cfg, s, b);
    if best.Some? then Some(Buf(s', b)[best.value].command) else None
  }

  /** Where the iterator of the first slot points after the PIM buffer and the read or write buffer were asked. */
  function PointedInQueues(cfg: Config, s: State): Option<Command> {
    var s0 := s.(isPim := false);
    var (s1, p) := Try(cfg, s0, PimBuf, None);
    if p.Some? then Selected(cfg, s0, PimBuf)
    else
      var s2 := SetWriteMode(cfg, s1);
      Selected(cfg, s2, if s2.writeMode then WriteBuf else ReadBuf)
  }

  /**
   * The command of the request that the iterator of the first slot points to when the slot is
   * over, whether or not that request was found fit to serve; None when it is at the end of
   * the read or write buffer, asked last.
   */
  function Pointed(cfg: Config, s: State): Option<Command> {
    var (s1, a) := Try(cfg, s, ActiveBuf, None);
    if a.Some? then Selected(cfg, s, ActiveBuf)
    else if s1.priorityQ != [] then Some(SetHeadCommand(cfg, s1).priorityQ[0].command)
    else PointedInQueues(cfg, s1)
  }

  /** The command the second slot compares with: `stale` is what stands at the end of a buffer. */
  function FirstCommand(cfg: Config, s: State, stale: Command): Command {
    var pointed := Pointed(cfg, s);
    if pointed.Some? then pointed.value else stale
  }

  /** Both issue slots of a tick. */
  function IssueTwo(cfg: Config, s: State, stale: Command): State {
    var (s1, t1) := Choose(cfg, s, None);
    var (s2, t2) := Choose(cfg, ExecuteIf(cfg, s1, t1), Some(FirstCommand(cfg, s, stale)));
    ExecuteIf(cfg, s2, t2)
  }

  /** One controller cycle; false when it throws, leaving the state at that point. */
  function Tick(cfg: Config, s: State, stale: Command): (State, bool) {
    var (s', ok) := BeginTick(cfg, s);
    if ok then (IssueTwo(cfg, s', stale), true) else (s', false)
  }

  predicate Idle(s: State) {
    s.activeQ == [] && s.priorityQ == [] && s.readQ == [] && s.writeQ == [] && s.pimQ == [] && s.pending == []
  }
}
