/** Steps of a system with a single channel. */
module OneChannel {
  import opened PimTypes
  import opened ControllerState
  import opened SystemState

  /** A memory tick is one cycle of the only controller. */
  lemma OnlyController(sc: SysConfig, sys: System)
    requires WellFormed(sc, sys) && |sc.ctrls| == 1
    ensures var (s', ok) := Tick(sc.ctrls[0], sys.ctrls[0], Unset);
            Advance(sc, sys, MemoryTick([])) == (sys.(clk := sys.clk + 1, ctrls := [s']), ok)
  {
    hide Tick;
    var s' := Tick(sc.ctrls[0], sys.ctrls[0], Unset).0;
    assert sys.ctrls[0 := s'] == [s'];
    assert TickFrom(sc, sys.(clk := sys.clk + 1, ctrls := [s']), [], 1) == (sys.(clk := sys.clk + 1, ctrls := [s']), true);
  }

  lemma FrontendNeverThrows(sc: SysConfig, sys: System)
    requires WellFormed(sc, sys)
    ensures Advance(sc, sys, FrontendTick) == (Deliver(sc, sys), true)
  {
  }

  /** One more step of a run that has not thrown. */
  lemma RunOne(sc: SysConfig, steps: seq<Step>, a: Step)
    requires sc.Valid() && Run(sc, steps).1
    ensures Run(sc, steps + [a]) == Advance(sc, Run(sc, steps).0, a)
  {
    hide Advance;
    assert (steps + [a])[..|steps|] == steps;
  }

  /** A frontend tick and a memory tick. */
  lemma RunRound(sc: SysConfig, steps: seq<Step>)
    requires sc.Valid() && |sc.ctrls| == 1 && Run(sc, steps).1
    ensures var sys := Deliver(sc, Run(sc, steps).0);
            var (s', ok) := Tick(sc.ctrls[0], sys.ctrls[0], Unset);
            Run(sc, steps + [FrontendTick, MemoryTick([])]) == (sys.(clk := sys.clk + 1, ctrls := [s']), ok)
  {
    hide Advance, Deliver, Tick, Run;
    var sys := Run(sc, steps).0;
    FrontendNeverThrows(sc, sys);
    RunOne(sc, steps, FrontendTick);
    RunOne(sc, steps + [FrontendTick], MemoryTick([]));
    OnlyController(sc, Deliver(sc, sys));
    assert steps + [FrontendTick] + [MemoryTick([])] == steps + [FrontendTick, MemoryTick([])];
  }
}
