/** The memory system and the trace frontend, as objects updated in place. */
module PimSystem {
  import opened PimTypes
  import opened ControllerState
  import opened PimController
  import opened AddrMapper
  import opened TraceText
  import opened SystemState

  ghost function Objects(cs: seq<HBM3PIMController>): (objects: set<object>)
    ensures forall i :: 0 <= i < |cs| ==> cs[i] in objects && cs[i].refresh in objects && cs[i].scheduler in objects
  {
    assert forall i :: 0 <= i < |cs| ==> cs[i] in cs;
    (set c: HBM3PIMController | c in cs :: c as object) +
    (set c: HBM3PIMController | c in cs :: c.refresh as object) +
    (set c: HBM3PIMController | c in cs :: c.scheduler as object)
  }

  /** No two controllers share an object. */
  ghost predicate Separate(cs: seq<HBM3PIMController>) {
    forall i, j :: 0 <= i < j < |cs| ==>
      cs[i] != cs[j] && cs[i].refresh != cs[j].refresh && cs[i].scheduler != cs[j].scheduler
  }

  /** What ticking the controllers from `c` on begins with. */
  lemma TickFromStep(sc: SysConfig, sys: System, stale: seq<Command>, c: nat)
    requires |sys.ctrls| == |sc.ctrls| && c <= |sc.ctrls|
    ensures TickFrom(sc, sys, stale, c) ==
            if c == |sc.ctrls| then (sys, true)
            else
              var (s', ok) := ControllerState.Tick(sc.ctrls[c], sys.ctrls[c], StaleFor(stale, c));
              var sys' := sys.(ctrls := sys.ctrls[c := s']);
              if ok then TickFrom(sc, sys', stale, c + 1) else (sys', false)
  {
  }

  /** What delivering begins with. */
  lemma DeliverStep(sc: SysConfig, sys: System)
    requires WellFormed(sc, sys)
    ensures Deliver(sc, sys) ==
            if sys.count >= |sc.trace| || !Forwardable(sc.trace[sys.idx].kind) then sys
            else
              var (sys', ok) := Offer(sc, sys);
              if ok then Deliver(sc, sys') else sys'
  {
  }

  class PIMDRAMSystem {
    var clk: int
    const mapper: LinearMapper
    const controllers: seq<HBM3PIMController>
    var counters: Counters
    ghost var states: seq<State>  // the controllers as values

    constructor (ghost sc: SysConfig, mapper: LinearMapper, controllers: seq<HBM3PIMController>)
      requires sc.Valid() && sc.bits == mapper.addrBits && sc.txOffset == mapper.txOffset
      requires |controllers| == |sc.ctrls| && Separate(controllers)
      requires forall c :: 0 <= c < |controllers| ==>
                 controllers[c].cfg == sc.ctrls[c] && controllers[c].Valid() && controllers[c].Abs() == Init(sc.ctrls[c])
      ensures Valid(sc) && Abs(0, 0) == InitSystem(sc)
    {
      this.mapper, this.controllers := mapper, controllers;
      clk, counters := 0, NO_REQUESTS;
      states := InitSystem(sc).ctrls;
    }

    ghost function Repr(): set<object> {
      {this} + Objects(controllers)
    }

    ghost predicate Valid(sc: SysConfig)
      reads `states, Objects(controllers), mapper
    {
      && sc.Valid() && sc.bits == mapper.addrBits && sc.txOffset == mapper.txOffset
      && |states| == |controllers| == |sc.ctrls| && Separate(controllers)
      && forall c :: 0 <= c < |controllers| ==> Tracks(sc, c)
    }

    /** The object at channel `c` has the configured parameters and the recorded value. */
    ghost predicate Tracks(sc: SysConfig, c: nat)
      requires c < |controllers| == |sc.ctrls| == |states|
      reads `states, controllers[c], controllers[c].refresh
    {
      controllers[c].cfg == sc.ctrls[c] && controllers[c].Valid() && controllers[c].Abs() == states[c]
    }

    /** The system as a value, given where the frontend stands. */
    ghost function Abs(idx: nat, count: nat): System
      reads this
    {
      System(clk, idx, count, states, counters)
    }

    /** The request as the address mapper completes it. */
    method MapRequest(ghost sc: SysConfig, t: Trace, id: int) returns (req: Request)
      requires Valid(sc)
      ensures req == MakeRequest(sc, t, id)
      ensures req.addrVec[0] == ChannelOf(sc, t.addr) && 0 <= req.addrVec[0] < |controllers|
    {
      hide MapAddr;
      ChannelInRange(sc, t.addr);
      req := mapper.ApplyPim(Request(t.addr, UNMAPPED, t.kind, id, -1, -1, Unset, Unset));
    }

    /** Hand a mapped request to the controller of channel `c`. */
    method SendTo(ghost sc: SysConfig, c: nat, req: Request) returns (outcome: Outcome)
      requires Valid(sc) && c < |controllers|
      modifies this`states, controllers[c]
      ensures Valid(sc)
      ensures var (s', o) := ControllerState.Send(sc.ctrls[c], old(states)[c], req);
              states == old(states)[c := s'] && outcome == o
    {
      hide ControllerState.Send;
      assert Tracks(sc, c);
      outcome := controllers[c].Send(req);
      states := states[c := controllers[c].Abs()];
      forall i | 0 <= i < |controllers|
        ensures Tracks(sc, i)
      {
        assert old(Tracks(sc, i));
        assert i != c ==> controllers[i] != controllers[c];
      }
    }

    method Send(ghost sc: SysConfig, t: Trace, id: int, ghost idx: nat, ghost count: nat) returns (outcome: Outcome)
      requires Valid(sc)
      modifies Repr()
      ensures Valid(sc) && 0 <= ChannelOf(sc, t.addr) < |sc.ctrls|
      ensures (Abs(idx, count), outcome) == SystemSend(sc, old(Abs(idx, count)), t, id)
    {
      hide ControllerState.Send, MakeRequest, ChannelOf, Decode;
      var req := MapRequest(sc, t, id);
      assert controllers[req.addrVec[0]] in controllers;
      outcome := SendTo(sc, req.addrVec[0], req);
      if outcome == Sent {
        counters := CountRequest(counters, t.kind);
      }
    }

    method TickController(ghost sc: SysConfig, c: nat, stale: Command) returns (ok: bool)
      requires Valid(sc) && c < |controllers|
      modifies this`states, controllers[c], controllers[c].scheduler, controllers[c].refresh
      ensures Valid(sc)
      ensures var (s', o) := ControllerState.Tick(sc.ctrls[c], old(states)[c], stale);
              states == old(states)[c := s'] && ok == o
    {
      hide ControllerState.Tick;
      assert Tracks(sc, c);
      ok := controllers[c].Tick(stale);
      states := states[c := controllers[c].Abs()];
      forall i | 0 <= i < |controllers|
        ensures Tracks(sc, i)
      {
        assert old(Tracks(sc, i));
        assert i != c ==> controllers[i] != controllers[c] && controllers[i].refresh != controllers[c].refresh;
      }
    }

    /** One cycle of every controller; false when one of them throws. */
    method Tick(ghost sc: SysConfig, stale: seq<Command>, ghost idx: nat, ghost count: nat) returns (ok: bool)
      requires Valid(sc)
      modifies Repr()
      ensures Valid(sc)
      ensures (Abs(idx, count), ok) == TickFrom(sc, old(Abs(idx, count)).(clk := old(clk) + 1), stale, 0)
    {
      hide ControllerState.Tick, TickFrom;
      clk := clk + 1;
      ghost var start := Abs(idx, count);
      for c := 0 to |controllers|
        invariant Valid(sc) && Abs(idx, count) == start.(ctrls := states)
        invariant TickFrom(sc, start, stale, 0) == TickFrom(sc, Abs(idx, count), stale, c)
      {
        TickFromStep(sc, Abs(idx, count), stale, c);
        assert controllers[c] in controllers;
        ok := TickController(sc, c, StaleFor(stale, c));
        if !ok {
          return;
        }
      }
      TickFromStep(sc, Abs(idx, count), stale, |controllers|);
      ok := true;
    }

    method IsPending(ghost sc: SysConfig) returns (isPending: bool)
      requires Valid(sc)
      ensures isPending == exists c :: 0 <= c < |states| && !Idle(states[c])
    {
      isPending := false;
      for c := 0 to |controllers|
        invariant isPending == exists d :: 0 <= d < c && !Idle(states[d])
      {
        assert Tracks(sc, c);
        var p := controllers[c].IsPending();
        isPending := isPending || p;
      }
    }
  }

  class PIMLoadStoreTrace {
    const memory: PIMDRAMSystem
    const trace: seq<Trace>
    var currTraceIdx: nat
    var traceCount: nat

    constructor (memory: PIMDRAMSystem, trace: seq<Trace>)
      ensures this.memory == memory && this.trace == trace && currTraceIdx == 0 && traceCount == 0
    {
      this.memory, this.trace := memory, trace;
      currTraceIdx, traceCount := 0, 0;
    }

    ghost predicate Valid(sc: SysConfig)
      reads this, memory.Repr(), memory.mapper
    {
      this !in memory.Repr() && sc.trace == trace && memory.Valid(sc) && WellFormed(sc, Abs())
    }

    ghost function Abs(): System
      reads this, memory
    {
      memory.Abs(currTraceIdx, traceCount)
    }

    method IsFinished() returns (finished: bool)
      ensures finished == (traceCount >= |trace|)
    {
      finished := traceCount >= |trace|;
    }

    /** Send the next record; advance when it was accepted. */
    method SendNext(ghost sc: SysConfig) returns (requestSent: bool)
      requires Valid(sc) && traceCount < |trace| && Forwardable(trace[currTraceIdx].kind)
      modifies this, memory.Repr()
      ensures Valid(sc)
      ensures (Abs(), requestSent) == Offer(sc, old(Abs()))
    {
      hide SystemSend;
      var t := trace[currTraceIdx];
      var outcome := memory.Send(sc, t, currTraceIdx, currTraceIdx, traceCount);
      requestSent := outcome == Sent;
      if requestSent {
        Advance();
      }
    }

    method Advance()
      requires this !in memory.Repr() && trace != []
      modifies this
      ensures currTraceIdx == (old(currTraceIdx) + 1) % |trace| && traceCount == old(traceCount) + 1
      ensures Abs() == old(Abs()).(idx := currTraceIdx, count := traceCount)
    {
      currTraceIdx := (currTraceIdx + 1) % |trace|;
      traceCount := traceCount + 1;
    }

    /** Send until a record is refused or the trace is finished. */
    method Tick(ghost sc: SysConfig)
      requires Valid(sc)
      modifies this, memory.Repr()
      ensures Valid(sc) && Abs() == Deliver(sc, old(Abs()))
    {
      hide Offer, Deliver;
      ghost var delivered := Deliver(sc, Abs());
      var finished := IsFinished();
      var reqFull := false;
      while !reqFull && !finished
        invariant Valid(sc) && finished == (traceCount >= |trace|)
        invariant delivered == if reqFull then Abs() else Deliver(sc, Abs())
        decreases |trace| - traceCount, !reqFull
      {
        DeliverStep(sc, Abs());
        var requestSent := false;
        if Forwardable(trace[currTraceIdx].kind) {
          requestSent := SendNext(sc);
        }
        if requestSent {
          finished := IsFinished();
        } else {
          reqFull := true;
        }
      }
      if !reqFull {
        DeliverStep(sc, Abs());
      }
    }
  }
}
