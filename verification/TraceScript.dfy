/**
 * The interleaving of the command lists as a script: which commands are emitted between
 * which barriers. A trace is the flattening of its script.
 */
module TraceScript {
  import opened Arith
  import opened PimTypes
  import opened TraceLayout

  datatype Step = Emit(cmds: seq<Cmd>) | Bar

  function BarrierOf(c: nat): Cmd {
    Cmd(PimBarrier, c * GS_CH, -1, Sync)
  }

  /** One barrier on every channel. */
  function Barriers(): (s: seq<Cmd>)
    ensures |s| == N_CHANNEL
  {
    Lanes(PimBarrier, -1, Sync, 0, N_CHANNEL)
  }

  function CmdsOf(step: Step): seq<Cmd> {
    match step
    case Emit(cmds) => cmds
    case Bar => Barriers()
  }

  function Flatten(script: seq<Step>): seq<Cmd> {
    if script == [] then []
    else Flatten(script[..|script| - 1]) + CmdsOf(script[|script| - 1])
  }

  function Concat(lists: seq<seq<Cmd>>): seq<Cmd> {
    if lists == [] then [] else Concat(lists[..|lists| - 1]) + lists[|lists| - 1]
  }

  /** Up to `stride` elements from `start` on. */
  function From<T>(s: seq<T>, start: nat, stride: nat): seq<T> {
    s[Min(start, |s|)..Min(start + stride, |s|)]
  }

  /** The j-th run of `stride` elements, cut off at the end of the list. */
  function Chunk<T>(s: seq<T>, j: nat, stride: nat): seq<T> {
    From(s, j * stride, stride)
  }

  function EmitIf(emit: bool, cmds: seq<Cmd>): seq<Step> {
    if emit then [Emit(cmds)] else []
  }

  function BarIf(bar: bool): seq<Step> {
    if bar then [Bar] else []
  }

  /** A list of lists at `j`, or nothing beyond its end. */
  function ListAt(lists: seq<seq<Cmd>>, j: int): seq<Cmd> {
    if 0 <= j < |lists| then lists[j] else []
  }

  function Relabel(cmds: seq<Cmd>, itr: int, role: Role): seq<Cmd> {
    if cmds == [] then []
    else Relabel(cmds[..|cmds| - 1], itr, role) + [cmds[|cmds| - 1].(itr := itr, role := role)]
  }

  // ---- the loops -------------------------------------------------------------------------

  /**
   * The first `n` passes of an interleaving loop over 0..length: pass j emits the j-th list of
   * `ins`, the list of `outs` before it, what `extras` adds, and a barrier; the last pass
   * has neither input nor barrier.
   */
  function Loop(ins: seq<seq<Cmd>>, outs: seq<seq<Cmd>>, extras: seq<seq<Cmd>>, length: nat, n: nat): seq<Step> {
    if n == 0 then [] else Loop(ins, outs, extras, length, n - 1) + Pass(ins, outs, extras, length, n - 1)
  }

  function Pass(ins: seq<seq<Cmd>>, outs: seq<seq<Cmd>>, extras: seq<seq<Cmd>>, length: nat, j: nat): seq<Step> {
    EmitIf(j != length, ListAt(ins, j)) +
    EmitIf(j != 0, ListAt(outs, j - 1)) +
    [Emit(ListAt(extras, j))] +
    BarIf(j != length)
  }

  /** Score rows in groups of sixteen. */
  function Groups(mac: seq<seq<Cmd>>, n: nat): (s: seq<seq<Cmd>>)
    ensures |s| == n && forall j :: 0 <= j < n ==> s[j] == Concat(Chunk(mac, j, 16))
  {
    if n == 0 then [] else Groups(mac, n - 1) + [Concat(Chunk(mac, n - 1, 16))]
  }

  /** A list spread over the first `n` of `length` passes, with a floored stride. */
  function SpreadIn(list: seq<Cmd>, length: nat, n: nat): (s: seq<seq<Cmd>>)
    requires n <= length
    ensures |s| == n && forall j :: 0 <= j < n ==> s[j] == Chunk(list, j, |list| / length)
  {
    if n == 0 then [] else SpreadIn(list, length, n - 1) + [Chunk(list, n - 1, |list| / length)]
  }

  /** What pass j of `length` emits of a list that is spread over the second half of the passes. */
  function LateChunk(list: seq<Cmd>, length: nat, j: nat): seq<Cmd> {
    if length / 2 <= j < length then Chunk(list, j - length / 2, |list| / CeilDiv(length, 2)) else []
  }

  /** The softmax in the first pass, and a list spread over the second half of the passes. */
  function SpreadBack(sfm: seq<Cmd>, list: seq<Cmd>, length: nat, n: nat): (s: seq<seq<Cmd>>)
    ensures |s| == n
    ensures forall j :: 0 <= j < n ==> s[j] == (if j == 0 then sfm else []) + LateChunk(list, length, j)
  {
    if n == 0 then []
    else SpreadBack(sfm, list, length, n - 1) + [(if n == 1 then sfm else []) + LateChunk(list, length, n - 1)]
  }

  /** The first head's context lists once more, labelled by the head whose turn it is. */
  function ReplayMacs(h: Head, itr: int, n: nat): (s: seq<seq<Cmd>>)
    requires n <= |h.cmac|
    ensures |s| == n && forall j :: 0 <= j < n ==> s[j] == Relabel(h.cmac[j], itr, ReplayMac(j))
  {
    if n == 0 then [] else ReplayMacs(h, itr, n - 1) + [Relabel(h.cmac[n - 1], itr, ReplayMac(n - 1))]
  }

  function ReplayOuts(h: Head, itr: int, n: nat): (s: seq<seq<Cmd>>)
    requires n <= |h.cmvsb|
    ensures |s| == n && forall j :: 0 <= j < n ==> s[j] == Relabel(h.cmvsb[j], itr, ReplayOut(j))
  {
    if n == 0 then [] else ReplayOuts(h, itr, n - 1) + [Relabel(h.cmvsb[n - 1], itr, ReplayOut(n - 1))]
  }

  // ---- whole scripts ---------------------------------------------------------------------

  /** An iteration without a partner: score, softmax, context. */
  function Solo(h: Head, length: nat, clen: nat): seq<Step> {
    [Emit(h.wrgb), Bar] +
    Loop(Groups(h.mac, length), h.mvsb, [], length, length + 1) +
    [Emit(h.sfm), Emit(h.mvgb), Bar] +
    Loop(h.cmac, h.cmvsb, [], clen, clen + 1)
  }

  /** Iterations `itr` and `itr` + 1; `dummy` is the first MAC on every channel, for the first pair only. */
  function Pair(h0: Head, h1: Head, itr: nat, dummy: seq<Cmd>, length: nat, clen: nat): seq<Step>
    requires |h0.cmac| == |h0.cmvsb| == clen
  {
    [Emit(h0.wrgb), Emit(dummy), Bar] +
    Loop(Groups(h0.mac, length), h0.mvsb, SpreadIn(h1.wrgb, length, length), length, length + 1) +
    Loop(Groups(h1.mac, length), h1.mvsb, SpreadBack(h0.sfm, h0.mvgb, length, length + 1), length, length + 1) +
    Loop(h0.cmac, h0.cmvsb, SpreadBack(h1.sfm, h1.mvgb, clen, clen + 1), clen, clen + 1) +
    Loop(ReplayMacs(h0, itr + 1, clen), ReplayOuts(h0, itr + 1, clen), [], clen, clen + 1)
  }

  function DummyMacs(p: Params, itr: nat): seq<Cmd>
    requires p.Valid()
  {
    var h := HeadOf(p, itr);
    if itr == 0 && |h.mac| > 0 && p.ValidChannels(0) <= |h.mac[0]|
    then Relabel(h.mac[0][..p.ValidChannels(0)], 0, DummyMac) else []
  }

  /** The first `k` pairs. */
  function Pairs(p: Params, k: nat): seq<Step>
    requires p.Valid()
  {
    if k == 0 then []
    else
      var i := 2 * (k - 1);
      Pairs(p, k - 1) + Pair(HeadOf(p, i), HeadOf(p, i + 1), i, DummyMacs(p, i), p.Length(), p.Cols())
  }

  /** The whole trace: all pairs, and the last iteration alone when their number is odd. */
  function Script(p: Params): seq<Step>
    requires p.Valid()
  {
    var n := p.NumItr();
    Pairs(p, n / 2) + if n % 2 != 0 then Solo(HeadOf(p, n - 1), p.Length(), p.Cols()) else []
  }

  /** The whole trace. */
  function Commands(p: Params): seq<Cmd>
    requires p.Valid()
  {
    Flatten(Script(p))
  }

  // ---- flattening ------------------------------------------------------------------------

  lemma FlattenLast(s: seq<Step>, step: Step)
    ensures Flatten(s + [step]) == Flatten(s) + CmdsOf(step)
  {
    assert (s + [step])[..|s + [step]| - 1] == s;
  }

  lemma {:induction false} FlattenAppend(s: seq<Step>, t: seq<Step>)
    ensures Flatten(s + t) == Flatten(s) + Flatten(t)
  {
    hide Flatten, CmdsOf;
    if t == [] {
      assert s + t == s;
      FlattenNothing();
    } else {
      var n := |t| - 1;
      FlattenAppend(s, t[..n]);
      FlattenLast(s + t[..n], t[n]);
      FlattenLast(t[..n], t[n]);
      assert s + t == s + t[..n] + [t[n]] && t == t[..n] + [t[n]];
    }
  }

  lemma FlattenNothing()
    ensures Flatten([]) == []
  {
  }

  lemma FlattenOne(step: Step)
    ensures Flatten([step]) == CmdsOf(step)
  {
    assert [step][..0] == [];
  }

  /** Where step `t` begins in the trace. */
  function Offset(s: seq<Step>, t: nat): nat
    requires t <= |s|
  {
    |Flatten(s[..t])|
  }

  lemma OffsetZero(s: seq<Step>)
    ensures Offset(s, 0) == 0
  {
  }

  lemma OffsetNext(s: seq<Step>, t: nat)
    requires t < |s|
    ensures Offset(s, t + 1) == Offset(s, t) + |CmdsOf(s[t])|
    ensures Flatten(s[..t + 1]) == Flatten(s[..t]) + CmdsOf(s[t])
  {
    hide CmdsOf;
    assert s[..t + 1][..t] == s[..t];
  }

  lemma {:induction false} OffsetMonotone(s: seq<Step>, t: nat, u: nat)
    requires t <= u <= |s|
    ensures Offset(s, t) <= Offset(s, u)
    ensures Flatten(s[..t]) <= Flatten(s[..u])
  {
    hide Flatten, CmdsOf;
    if t >= u {
    } else {
      OffsetMonotone(s, t, u - 1);
      OffsetNext(s, u - 1);
    }
  }

  /** What step `t` emits stands in the trace from its offset on. */
  lemma StepInTrace(s: seq<Step>, t: nat, k: nat)
    requires t < |s| && k < |CmdsOf(s[t])|
    ensures Offset(s, t) + k < |Flatten(s)| && Flatten(s)[Offset(s, t) + k] == CmdsOf(s[t])[k]
  {
    hide Flatten, CmdsOf;
    OffsetNext(s, t);
    OffsetMonotone(s, t + 1, |s|);
    assert s[..|s|] == s;
  }

  /** Every position of the trace belongs to a step. */
  lemma {:induction false} StepAt(s: seq<Step>, n: nat, pos: nat) returns (t: nat)
    requires n <= |s| && pos < Offset(s, n)
    ensures t < n && Offset(s, t) <= pos < Offset(s, t) + |CmdsOf(s[t])|
    ensures pos < |Flatten(s)| && Flatten(s)[pos] == CmdsOf(s[t])[pos - Offset(s, t)]
  {
    hide Flatten, CmdsOf, Offset;
    OffsetZero(s);
    OffsetNext(s, n - 1);
    if pos < Offset(s, n - 1) {
      t := StepAt(s, n - 1, pos);
    } else {
      t := n - 1;
      StepInTrace(s, t, pos - Offset(s, t));
    }
  }

  // ---- barriers between ------------------------------------------------------------------

  lemma BarrierLane(c: nat)
    requires c < N_CHANNEL
    ensures Barriers()[c] == BarrierOf(c)
  {
    LanesAt(PimBarrier, -1, Sync, 0, N_CHANNEL, c);
  }

  /** If a barrier step separates two steps, a barrier of every channel separates their commands. */
  lemma BarBetween(s: seq<Step>, t: nat, u: nat, v: nat, a: nat, b: nat, c: nat) returns (m: nat)
    requires t < u < v < |s| && s[u] == Bar && c < N_CHANNEL
    requires a < |CmdsOf(s[t])| && b < |CmdsOf(s[v])|
    ensures Offset(s, t) + a < m < Offset(s, v) + b < |Flatten(s)|
    ensures Flatten(s)[m] == BarrierOf(c)
  {
    hide BarrierOf, Flatten, Barriers;
    BarrierLane(c);
    m := Offset(s, u) + c;
    StepInTrace(s, u, c);
    StepInTrace(s, v, b);
    OffsetNext(s, t);
    OffsetMonotone(s, t + 1, u);
    OffsetNext(s, u);
    OffsetMonotone(s, u + 1, v);
  }
}
