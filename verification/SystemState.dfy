/** Trace frontend, address mapper and one controller per channel, as a value. */
module SystemState {
  import opened PimTypes
  import opened ControllerState
  import opened AddrMapper
  import opened Arith
  import opened TraceText

  /** The address bits, the trace to replay and the parameters of every channel's controller. */
  datatype SysConfig = SysConfig(bits: Bits, txOffset: nat, trace: seq<Trace>, ctrls: seq<Config>) {
    predicate Valid() {
      |ctrls| == Pow2(bits[0])
    }
  }

  /** The request counters of the memory system; barriers are not counted. */
  datatype Counters = Counters(
    numRead: nat, numWrite: nat, numMacAb: nat, numMacSb: nat, numMacPb: nat, numWrGb: nat,
    numMvSb: nat, numMvGb: nat, numSfm: nat, numSetModel: nat, numSetHead: nat, numOther: nat)

  const NO_REQUESTS: Counters := Counters(0, 0, 0, 0, 0, 0, 0, 0, 0, 0, 0, 0)

  function CountRequest(n: Counters, kind: ReqType): Counters {
    match kind
    case Read => n.(numRead := n.numRead + 1)
    case Write => n.(numWrite := n.numWrite + 1)
    case PimMacAb => n.(numMacAb := n.numMacAb + 1)
    case PimMacSb => n.(numMacSb := n.numMacSb + 1)
    case PimMacPb => n.(numMacPb := n.numMacPb + 1)
    case PimWrGb => n.(numWrGb := n.numWrGb + 1)
    case PimMvSb => n.(numMvSb := n.numMvSb + 1)
    case PimMvGb => n.(numMvGb := n.numMvGb + 1)
    case PimSfm => n.(numSfm := n.numSfm + 1)
    case PimSetModel => n.(numSetModel := n.numSetModel + 1)
    case PimSetHead => n.(numSetHead := n.numSetHead + 1)
    case PimBarrier => n
    case AllBankRefresh => n.(numOther := n.numOther + 1)
    case PerBankRefresh => n.(numOther := n.numOther + 1)
  }

  /** `idx` is the trace position read next, `count` the number of records delivered. */
  datatype System = System(clk: int, idx: nat, count: nat, ctrls: seq<State>, counters: Counters)

  function InitSystem(sc: SysConfig): System {
    System(0, 0, 0, seq(|sc.ctrls|, c requires 0 <= c < |sc.ctrls| => Init(sc.ctrls[c])), NO_REQUESTS)
  }

  function Decode(sc: SysConfig, addr: int): AddrVec {
    MapAddr(sc.bits, sc.txOffset, HBM3_PIM_ORDER, addr)
  }

  function ChannelOf(sc: SysConfig, addr: int): int {
    Decode(sc, addr)[0]
  }

  function MakeRequest(sc: SysConfig, t: Trace, id: int): Request {
    Request(t.addr, Decode(sc, t.addr), t.kind, id, -1, -1, Unset, Unset)
  }

  /** Map the address, send to the controller of the channel, count what was accepted. */
  function SystemSend(sc: SysConfig, sys: System, t: Trace, id: int): (System, Outcome)
    requires |sys.ctrls| == |sc.ctrls| && 0 <= ChannelOf(sc, t.addr) < |sc.ctrls|
  {
    var c := ChannelOf(sc, t.addr);
    var (s', outcome) := Send(sc.ctrls[c], sys.ctrls[c], MakeRequest(sc, t, id));
    (sys.(ctrls := sys.ctrls[c := s'],
          counters := if outcome == Sent then CountRequest(sys.counters, t.kind) else sys.counters), outcome)
  }

  /** The request types the frontend forwards; anything else is never sent. */
  predicate Forwardable(kind: ReqType) {
    kind != AllBankRefresh && kind != PerBankRefresh
  }

  predicate WellFormed(sc: SysConfig, sys: System) {
    && sc.Valid()
    && |sys.ctrls| == |sc.ctrls|
    && sys.count <= |sc.trace|
    && (sys.count < |sc.trace| ==> sys.idx == sys.count)
  }

  lemma ChannelInRange(sc: SysConfig, addr: int)
    requires sc.Valid()
    ensures 0 <= ChannelOf(sc, addr) < |sc.ctrls|
  {
    MapperOrders();
    SliceInRange(sc.bits, HBM3_PIM_ORDER, addr / Pow2(sc.txOffset), UNMAPPED);
    assert HBM3_PIM_ORDER[6] == 0;
  }

  /** Offer the next record to the memory system; whether it was accepted. */
  function Offer(sc: SysConfig, sys: System): (r: (System, bool))
    requires WellFormed(sc, sys) && sys.count < |sc.trace|
    ensures WellFormed(sc, r.0) && r.0.count == if r.1 then sys.count + 1 else sys.count
  {
    var t := sc.trace[sys.idx];
    ChannelInRange(sc, t.addr);
    hide Send;
    var (sys1, outcome) := SystemSend(sc, sys, t, sys.idx);
    if outcome == Sent then (sys1.(idx := (sys.idx + 1) % |sc.trace|, count := sys.count + 1), true)
    else (sys1, false)
  }

  /** The frontend sends one record after the other until one is refused or the trace is finished. */
  function Deliver(sc: SysConfig, sys: System): (sys': System)
    requires WellFormed(sc, sys)
    ensures WellFormed(sc, sys')
    decreases |sc.trace| - sys.count
  {
    if sys.count >= |sc.trace| || !Forwardable(sc.trace[sys.idx].kind) then sys
    else
      hide Offer;
      var (sys1, ok) := Offer(sc, sys);
      if ok then Deliver(sc, sys1) else sys1
  }

  function StaleFor(stale: seq<Command>, c: nat): Command {
    if c < |stale| then stale[c] else Unset
  }

  /** Tick the controllers from `c` on, up to the first that throws. */
  function TickFrom(sc: SysConfig, sys: System, stale: seq<Command>, c: nat): (r: (System, bool))
    requires |sys.ctrls| == |sc.ctrls|
    ensures |r.0.ctrls| == |sc.ctrls|
    ensures r.0 == sys.(ctrls := r.0.ctrls)
    decreases |sc.ctrls| - c
  {
    if c >= |sc.ctrls| then (sys, true)
    else
      var (s', ok) := Tick(sc.ctrls[c], sys.ctrls[c], StaleFor(stale, c));
      var sys' := sys.(ctrls := sys.ctrls[c := s']);
      if ok then TickFrom(sc, sys', stale, c + 1) else (sys', false)
  }

  datatype Step = FrontendTick | MemoryTick(stale: seq<Command>)

  function Advance(sc: SysConfig, sys: System, step: Step): (r: (System, bool))
    requires WellFormed(sc, sys)
    ensures WellFormed(sc, r.0)
  {
    match step
    case FrontendTick => (Deliver(sc, sys), true)
    case MemoryTick(stale) => TickFrom(sc, sys.(clk := sys.clk + 1), stale, 0)
  }

  /** A run of the simulator: any interleaving of frontend and memory ticks, until something throws. */
  function Run(sc: SysConfig, steps: seq<Step>): (r: (System, bool))
    requires sc.Valid()
    ensures WellFormed(sc, r.0)
  {
    if steps == [] then (InitSystem(sc), true)
    else
      var (sys, ok) := Run(sc, steps[..|steps| - 1]);
      if ok then Advance(sc, sys, steps[|steps| - 1]) else (sys, false)
  }

  /** The simulation ends when the trace is delivered and no controller holds a request. */
  predicate Finished(sc: SysConfig, sys: System) {
    sys.count >= |sc.trace| && forall c :: 0 <= c < |sys.ctrls| ==> Idle(sys.ctrls[c])
  }
}
