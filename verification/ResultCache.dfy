/** The simulator wrapper as a cache: a table of results in front of a deterministic simulator. */
module ResultCache {
  import opened Arith
  import opened PimTypes
  import opened TraceLayout

  datatype PimType = BA | BG | BUFFER

  /** A request for the time of one attention layer. */
  datatype Layer = Layer(n: nat, k: nat, dbyte: nat, pimNumOp: nat)

  datatype Call = Call(pim: PimType, layer: Layer, powerConstraint: bool)

  datatype Key = Key(len: nat, maxL: nat, nhead: nat, dhead: nat, dbyte: nat, pim: PimType, powerConstraint: bool)

  /** What the simulator reports; a run without cycles is an error. */
  datatype Answer = Answer(cycle: nat, mac: nat, softmax: nat, mvgb: nat, mvsb: nat, wrgb: nat)

  /** One line of the table. */
  datatype Row = Row(key: Key, answer: Answer)

  datatype Traffic = Traffic(si: int, tsv: int, giomux: int, bgmux: int, mem: int)

  datatype Result = Result(time: real, traffic: Traffic)

  /** The fixed parameters of a wrapper, and the simulator behind it: None is an exception. */
  datatype Wrapper = Wrapper(numHbm: nat, dhead: nat, maxL: nat, fastMode: bool, sim: Key -> Option<Answer>) {
    predicate Valid() {
      numHbm > 0
    }
  }

  const T_CK: real := 0.769
  const MINIMUM_HEADS: nat := 64

  function OpsPerHbm(w: Wrapper, layer: Layer): nat
    requires w.Valid()
  {
    CeilDiv(layer.pimNumOp, w.numHbm)
  }

  /** In fast mode 64 heads are simulated and stand for this many groups. */
  function Groups(w: Wrapper, layer: Layer): nat
    requires w.Valid()
  {
    if w.fastMode then CeilDiv(OpsPerHbm(w, layer), MINIMUM_HEADS) else 1
  }

  function HeadsSimulated(w: Wrapper, layer: Layer): nat
    requires w.Valid()
  {
    if w.fastMode then MINIMUM_HEADS else OpsPerHbm(w, layer)
  }

  /** `run` uses the head dimension of the wrapper, `output` that of the layer. */
  function KeyOf(w: Wrapper, c: Call, dhead: nat): Key
    requires w.Valid()
  {
    Key(c.layer.n, w.maxL, HeadsSimulated(w, c.layer), dhead, c.layer.dbyte, c.pim, c.powerConstraint)
  }

  /** Banks that answer one MAC command; the buffer placement is the caller's business. */
  function MemFactor(pim: PimType, forBuffer: nat): nat {
    match pim case BA => 64 case BG => 16 case BUFFER => forBuffer
  }

  function Scaled(a: Answer, factor: nat, times: nat): Traffic {
    var gb := (a.wrgb + a.mvsb + a.mvgb) * 32;
    Traffic(a.wrgb * 32 * times, gb * times, gb * times, gb * times, a.mac * 32 * factor * times)
  }

  function Seconds(a: Answer): real {
    T_CK * a.cycle as real / 1000000000.0
  }

  /** What `run` makes of an answer. */
  function Fresh(w: Wrapper, c: Call, a: Answer): Result
    requires w.Valid()
  {
    Result(Seconds(a), Scaled(a, MemFactor(c.pim, 1), w.numHbm * Groups(w, c.layer)))
  }

  /** What `output` makes of a row. */
  function Cached(w: Wrapper, c: Call, a: Answer): Result
    requires w.Valid()
  {
    Result(Seconds(a) * Groups(w, c.layer) as real,
           Scaled(a, MemFactor(c.pim, 2), w.numHbm * Groups(w, c.layer)))
  }

  // ---- what the numbers mean -------------------------------------------------------------

  function Plus(a: Traffic, b: Traffic): Traffic {
    Traffic(a.si + b.si, a.tsv + b.tsv, a.giomux + b.giomux, a.bgmux + b.bgmux, a.mem + b.mem)
  }

  /**
   * Traffic command by command: a WR_GB carries one column over all four wires, an MV_SB or
   * MV_GB over all but the first, and a MAC reads one column from `factor` banks; the cycles
   * and the softmax cost none.
   */
  lemma TrafficPerCommand(a: Answer, factor: nat, times: nat)
    ensures var column := GS_COL * times;
            var wire := Traffic(0, column, column, column, 0);
            && Scaled(Answer(a.cycle, 0, a.softmax, 0, 0, 0), factor, times) == Traffic(0, 0, 0, 0, 0)
            && Scaled(a.(wrgb := a.wrgb + 1), factor, times) == Plus(Scaled(a, factor, times), wire.(si := column))
            && Scaled(a.(mvsb := a.mvsb + 1), factor, times) == Plus(Scaled(a, factor, times), wire)
            && Scaled(a.(mvgb := a.mvgb + 1), factor, times) == Plus(Scaled(a, factor, times), wire)
            && Scaled(a.(mac := a.mac + 1), factor, times) == Plus(Scaled(a, factor, times), Traffic(0, 0, 0, 0, factor * column))
  {
    var gb := (a.wrgb + a.mvsb + a.mvgb) * GS_COL;
    assert Scaled(a, factor, times) == Traffic(a.wrgb * GS_COL * times, gb * times, gb * times, gb * times, a.mac * GS_COL * factor * times);
    OneColumnMore(a.wrgb, times);
    OneColumnMore(a.wrgb + a.mvsb + a.mvgb, times);
    OneReadMore(a.mac, factor, times);
  }

  lemma OneColumnMore(n: nat, times: nat)
    ensures (n + 1) * GS_COL * times == n * GS_COL * times + GS_COL * times
  {
    MulStep(n, GS_COL);
    MulSum(n * GS_COL, GS_COL, 0, times);
  }

  lemma OneReadMore(n: nat, factor: nat, times: nat)
    ensures (n + 1) * GS_COL * factor * times == n * GS_COL * factor * times + factor * (GS_COL * times)
  {
    MulStep(n, GS_COL);
    MulSum(n * GS_COL, GS_COL, 0, factor);
    MulSum(n * GS_COL * factor, GS_COL * factor, 0, times);
    assert GS_COL * factor * times == factor * (GS_COL * times);
  }

  function Repeated(n: nat, t: Traffic): Traffic {
    Traffic(n * t.si, n * t.tsv, n * t.giomux, n * t.bgmux, n * t.mem)
  }

  /** All stacks and all groups of heads together move what one does, so many times; by a cached row as by a fresh run. */
  lemma TrafficPerGroup(w: Wrapper, c: Call, a: Answer)
    requires w.Valid()
    ensures Fresh(w, c, a).traffic == Repeated(w.numHbm * Groups(w, c.layer), Scaled(a, MemFactor(c.pim, 1), 1))
    ensures Cached(w, c, a).traffic == Repeated(w.numHbm * Groups(w, c.layer), Scaled(a, MemFactor(c.pim, 2), 1))
  {
    hide Groups;
    ScaledByOne(a, MemFactor(c.pim, 1), w.numHbm * Groups(w, c.layer));
    ScaledByOne(a, MemFactor(c.pim, 2), w.numHbm * Groups(w, c.layer));
  }

  lemma ScaledByOne(a: Answer, factor: nat, times: nat)
    ensures Scaled(a, factor, times) == Repeated(times, Scaled(a, factor, 1))
  {
    var gb, mem := (a.wrgb + a.mvsb + a.mvgb) * 32, a.mac * 32 * factor;
    assert Scaled(a, factor, times) == Traffic(a.wrgb * 32 * times, gb * times, gb * times, gb * times, mem * times);
    assert Scaled(a, factor, 1) == Traffic(a.wrgb * 32, gb, gb, gb, mem);
  }

  /** A cycle takes 0.769 nanoseconds. */
  lemma SecondsPerCycle(a: Answer)
    ensures Seconds(a) * 1000000000.0 == 0.769 * a.cycle as real
  {
  }

  /** A MAC command reads from all banks, or from all bank groups, of its channel. */
  lemma FactorIsBanks(forBuffer: nat)
    ensures MemFactor(BA, forBuffer) == GS_CH / GS_BA && MemFactor(BG, forBuffer) == GS_CH / GS_BG
  {
  }

  /** The stacks and the groups of heads are just enough for all heads. */
  lemma HeadsCovered(w: Wrapper, layer: Layer)
    requires w.Valid()
    ensures JustCovers(OpsPerHbm(w, layer), w.numHbm, layer.pimNumOp)
    ensures if w.fastMode then JustCovers(Groups(w, layer), HeadsSimulated(w, layer), OpsPerHbm(w, layer))
            else Groups(w, layer) == 1 && HeadsSimulated(w, layer) == OpsPerHbm(w, layer)
  {
    hide CeilDiv, JustCovers;
    CeilCovers(layer.pimNumOp, w.numHbm);
    CeilCovers(OpsPerHbm(w, layer), MINIMUM_HEADS);
  }

  /** Two calls share a key exactly when they ask for the same simulation. */
  lemma KeysSeparate(w: Wrapper, c: Call, d: Call, dhead: nat, dhead': nat)
    requires w.Valid()
    ensures KeyOf(w, c, dhead) == KeyOf(w, d, dhead') <==>
              && c.layer.n == d.layer.n && dhead == dhead' && c.layer.dbyte == d.layer.dbyte
              && c.pim == d.pim && c.powerConstraint == d.powerConstraint
              && (w.fastMode || CeilDiv(c.layer.pimNumOp, w.numHbm) == CeilDiv(d.layer.pimNumOp, w.numHbm))
    ensures KeyOf(w, c, dhead).len == c.layer.n && KeyOf(w, c, dhead).maxL == w.maxL
  {
    hide CeilDiv;
  }

  // ---- the table -------------------------------------------------------------------------

  /** The answer of the first row with that key. */
  function Lookup(df: seq<Row>, key: Key): Option<Answer> {
    if df == [] then None
    else if df[0].key == key then Some(df[0].answer)
    else Lookup(df[1..], key)
  }

  /** drop_duplicates: the first of equal rows stays. */
  function DropDuplicates(df: seq<Row>): seq<Row> {
    if df == [] then []
    else
      var front, last := DropDuplicates(df[..|df| - 1]), df[|df| - 1];
      if last in front then front else front + [last]
  }

  function AddRow(df: seq<Row>, row: Row): seq<Row> {
    DropDuplicates(df + [row])
  }

  /** `run`: the table afterwards, and the result. */
  function RunStep(w: Wrapper, df: seq<Row>, c: Call): (seq<Row>, Option<Result>)
    requires w.Valid()
  {
    var key := KeyOf(w, c, w.dhead);
    match Simulate(w, key)
    case None => (df, None)
    case Some(a) => (AddRow(df, Row(key, a)), Some(Fresh(w, c, a)))
  }

  /** A simulation without cycles raises an error, like one that fails. */
  function Simulate(w: Wrapper, key: Key): Option<Answer> {
    match w.sim(key)
    case Some(a) => if a.cycle == 0 then None else Some(a)
    case None => None
  }

  /** `output`: run when the table is empty, then look up, and run again when nothing is found. */
  function OutputStep(w: Wrapper, df: seq<Row>, c: Call): (seq<Row>, Option<Result>)
    requires w.Valid()
  {
    var (df1, first) := if df == [] then RunStep(w, df, c) else (df, None);
    if df == [] && first.None? then (df1, None)
    else
      match Lookup(df1, KeyOf(w, c, c.layer.k))
      case Some(a) => (df1, Some(Cached(w, c, a)))
      case None => RunStep(w, df1, c)
  }

  /** The table after a sequence of calls. */
  function TableAfter(w: Wrapper, df: seq<Row>, calls: seq<Call>): seq<Row>
    requires w.Valid()
  {
    if calls == [] then df
    else OutputStep(w, TableAfter(w, df, calls[..|calls| - 1]), calls[|calls| - 1]).0
  }

  // ---- properties ------------------------------------------------------------------------

  /** Every row is the simulator's answer to its key. */
  ghost predicate Right(w: Wrapper, df: seq<Row>) {
    forall i :: 0 <= i < |df| ==> Simulate(w, df[i].key) == Some(df[i].answer)
  }

  lemma {:induction false} DropDuplicatesMembers(df: seq<Row>)
    ensures forall row :: row in DropDuplicates(df) <==> row in df
  {
    if df == [] {
    } else {
      var n := |df| - 1;
      DropDuplicatesMembers(df[..n]);
      assert df == df[..n] + [df[n]];
    }
  }

  lemma RightMember(w: Wrapper, df: seq<Row>)
    ensures Right(w, df) <==> forall row :: row in df ==> Simulate(w, row.key) == Some(row.answer)
  {
  }

  lemma AddRowRight(w: Wrapper, df: seq<Row>, row: Row)
    requires Right(w, df) && Simulate(w, row.key) == Some(row.answer)
    ensures Right(w, AddRow(df, row)) && row in AddRow(df, row)
  {
    hide Simulate, DropDuplicates;
    DropDuplicatesMembers(df + [row]);
    RightMember(w, df);
    RightMember(w, AddRow(df, row));
  }

  lemma {:induction false} LookupAppend(a: seq<Row>, row: Row, key: Key)
    ensures Lookup(a + [row], key) ==
            if Lookup(a, key).Some? then Lookup(a, key) else if row.key == key then Some(row.answer) else None
  {
    if a == [] {
      assert Lookup([row][1..], key) == None;
    } else {
      LookupAppend(a[1..], row, key);
      assert (a + [row])[1..] == a[1..] + [row];
    }
  }

  /** Dropping duplicates changes no lookup. */
  lemma {:induction false} LookupWithoutDuplicates(df: seq<Row>, key: Key)
    ensures Lookup(DropDuplicates(df), key) == Lookup(df, key)
  {
    if df == [] {
    } else {
      var n := |df| - 1;
      LookupWithoutDuplicates(df[..n], key);
      LookupAppend(df[..n], df[n], key);
      assert df == df[..n] + [df[n]];
      var front := DropDuplicates(df[..n]);
      if df[n] in front {
        LookupFinds(front, key);
      } else {
        LookupAppend(front, df[n], key);
      }
    }
  }

  /** A row that is added is in the table, no old row is gone, and what was found before is found still. */
  lemma AddRowKeepsTable(df: seq<Row>, row: Row)
    ensures forall old0 :: old0 in AddRow(df, row) <==> old0 in df || old0 == row
    ensures forall key :: Lookup(AddRow(df, row), key) ==
                          if Lookup(df, key).Some? then Lookup(df, key)
                          else if row.key == key then Some(row.answer) else None
  {
    hide DropDuplicates, Lookup;
    DropDuplicatesMembers(df + [row]);
    forall key: Key
      ensures Lookup(AddRow(df, row), key) ==
              if Lookup(df, key).Some? then Lookup(df, key) else if row.key == key then Some(row.answer) else None
    {
      LookupWithoutDuplicates(df + [row], key);
      LookupAppend(df, row, key);
    }
  }

  lemma {:induction false} LookupFinds(df: seq<Row>, key: Key)
    ensures Lookup(df, key).Some? <==> exists row :: row in df && row.key == key
    ensures Lookup(df, key).Some? ==> Row(key, Lookup(df, key).value) in df
  {
    if df == [] {
    } else {
      LookupFinds(df[1..], key);
      assert df == [df[0]] + df[1..];
    }
  }

  /** In a right table, whatever is found is the simulator's answer. */
  lemma LookupIsRight(w: Wrapper, df: seq<Row>, key: Key)
    requires Right(w, df)
    ensures Lookup(df, key).Some? ==> Lookup(df, key) == Simulate(w, key)
    ensures (exists row :: row in df && row.key == key) ==> Lookup(df, key) == Simulate(w, key)
  {
    hide Simulate;
    LookupFinds(df, key);
    RightMember(w, df);
  }

  lemma RunKeeps(w: Wrapper, df: seq<Row>, c: Call)
    requires w.Valid() && Right(w, df)
    ensures Right(w, RunStep(w, df, c).0)
    ensures RunStep(w, df, c).1.Some? ==>
              Lookup(RunStep(w, df, c).0, KeyOf(w, c, w.dhead)) == Simulate(w, KeyOf(w, c, w.dhead))
  {
    hide KeyOf, Simulate, AddRow, Fresh;
    var key := KeyOf(w, c, w.dhead);
    match Simulate(w, key)
    case None =>
    case Some(a) =>
      AddRowRight(w, df, Row(key, a));
      LookupIsRight(w, AddRow(df, Row(key, a)), key);
  }

  /** Every call keeps the table right, whatever the call. */
  lemma OutputKeeps(w: Wrapper, df: seq<Row>, c: Call)
    requires w.Valid() && Right(w, df)
    ensures Right(w, OutputStep(w, df, c).0)
  {
    hide KeyOf, RunStep, Cached, Right, Lookup;
    RunKeeps(w, df, c);
    RunKeeps(w, RunStep(w, df, c).0, c);
  }

  lemma {:induction false} EveryTableRight(w: Wrapper, df: seq<Row>, calls: seq<Call>)
    requires w.Valid() && Right(w, df)
    ensures Right(w, TableAfter(w, df, calls))
  {
    hide OutputStep, Right;
    if calls == [] {
    } else {
      EveryTableRight(w, df, calls[..|calls| - 1]);
      OutputKeeps(w, TableAfter(w, df, calls[..|calls| - 1]), calls[|calls| - 1]);
    }
  }

  /** The bank and bank-group placements, no fast mode: both ways of reading an answer agree. */
  predicate Agreeing(w: Wrapper, c: Call) {
    !w.fastMode && c.pim != BUFFER
  }

  /**
   * The answer comes from the table, or straight from `run`; from the table exactly when
   * the table is empty (its first run fills it) or holds the key.
   */
  lemma OutputSource(w: Wrapper, df: seq<Row>, c: Call)
    requires w.Valid() && Right(w, df) && c.layer.k == w.dhead
    ensures var key := KeyOf(w, c, w.dhead);
            OutputStep(w, df, c).1 ==
            match Simulate(w, key)
            case None => None
            case Some(a) => if df == [] || Lookup(df, key).Some? then Some(Cached(w, c, a)) else Some(Fresh(w, c, a))
  {
    hide KeyOf, Cached, Fresh, Simulate, AddRow;
    var key := KeyOf(w, c, w.dhead);
    RunKeeps(w, df, c);
    LookupIsRight(w, df, key);
    hide Lookup;
  }

  /**
   * From any table that is right, also the empty one, after any calls: the cache returns
   * exactly what a fresh run would return.
   */
  lemma CacheIsInvisible(w: Wrapper, df: seq<Row>, calls: seq<Call>, c: Call)
    requires w.Valid() && Right(w, df)
    requires c.layer.k == w.dhead && Agreeing(w, c)
    ensures OutputStep(w, TableAfter(w, df, calls), c).1 == RunStep(w, [], c).1
  {
    EveryTableRight(w, df, calls);
    OutputSource(w, TableAfter(w, df, calls), c);
    var a := Simulate(w, KeyOf(w, c, w.dhead));
    if a.Some? {
      assert a.value.cycle > 0;
      CachedVersusFresh(w, c, a.value);
    }
    hide OutputStep, Right, TableAfter, Simulate, KeyOf, Cached, Fresh;
  }

  /**
   * In general the answers agree exactly when `run` itself is returned, or one group is
   * simulated and, for the buffer placement, no MAC is.
   */
  lemma CacheAgreesExactly(w: Wrapper, df: seq<Row>, c: Call)
    requires w.Valid() && Right(w, df) && c.layer.k == w.dhead
    requires Simulate(w, KeyOf(w, c, w.dhead)).Some?
    ensures var key := KeyOf(w, c, w.dhead);
            OutputStep(w, df, c).1 == RunStep(w, [], c).1 <==>
            (df != [] && Lookup(df, key).None?) ||
            (Groups(w, c.layer) == 1 && (c.pim != BUFFER || Simulate(w, key).value.mac == 0))
  {
    OutputSource(w, df, c);
    var a := Simulate(w, KeyOf(w, c, w.dhead)).value;
    assert a.cycle > 0;
    CachedVersusFresh(w, c, a);
    hide OutputStep, Right, Simulate, KeyOf, Lookup, Cached, Fresh, Groups;
  }

  lemma CachedVersusFresh(w: Wrapper, c: Call, a: Answer)
    requires w.Valid() && a.cycle > 0
    ensures Cached(w, c, a) == Fresh(w, c, a) <==> Groups(w, c.layer) == 1 && (c.pim != BUFFER || a.mac == 0)
  {
    hide Groups;
    var g := Groups(w, c.layer);
    TimesGroup(Seconds(a), g);
    if g == 1 {
      MacTraffic(a.mac * 32, w.numHbm);
    }
  }

  lemma TimesGroup(time: real, g: nat)
    requires time > 0.0
    ensures time * g as real == time <==> g == 1
  {
  }

  lemma MacTraffic(m: nat, n: nat)
    requires n > 0
    ensures m * 2 * n == m * 1 * n <==> m == 0
  {
  }

  // ---- as it runs ------------------------------------------------------------------------

  class Ramulator {
    const w: Wrapper
    var df: seq<Row>

    constructor (w: Wrapper, log: seq<Row>)
      ensures this.w == w && df == log
    {
      this.w := w;
      df := log;
    }

    method UpdateLogFile(row: Row)
      modifies this
      ensures df == AddRow(old(df), row)
      ensures row in df && forall r :: r in old(df) ==> r in df
    {
      AddRowKeepsTable(df, row);
      df := DropDuplicates(df + [row]);
    }

    method Run(c: Call) returns (r: Option<Result>)
      requires w.Valid()
      modifies this
      ensures (df, r) == RunStep(w, old(df), c)
    {
      var heads, groups := OpsPerHbm(w, c.layer), 1;
      if w.fastMode {
        groups := CeilDiv(heads, MINIMUM_HEADS);
        heads := MINIMUM_HEADS;
      }
      var key := Key(c.layer.n, w.maxL, heads, w.dhead, c.layer.dbyte, c.pim, c.powerConstraint);
      var a := Simulate(w, key);
      if a.None? {
        return None;
      }
      UpdateLogFile(Row(key, a.value));
      r := Some(Result(Seconds(a.value), Scaled(a.value, MemFactor(c.pim, 1), w.numHbm * groups)));
    }

    method Output(c: Call) returns (r: Option<Result>)
      requires w.Valid()
      modifies this
      ensures (df, r) == OutputStep(w, old(df), c)
    {
      hide RunStep, AddRow, Lookup, Scaled, Seconds;
      ghost var first := RunStep(w, df, c);
      if df == [] {
        r := Run(c);
        assert (df, r) == first;
        if r.None? {
          return;
        }
      }
      ghost var df1 := df;
      var heads, groups := OpsPerHbm(w, c.layer), 1;
      if w.fastMode {
        groups := CeilDiv(heads, MINIMUM_HEADS);
        heads := MINIMUM_HEADS;
      }
      var key := Key(c.layer.n, w.maxL, heads, c.layer.k, c.layer.dbyte, c.pim, c.powerConstraint);
      assert key == KeyOf(w, c, c.layer.k);
      var a := Lookup(df, key);
      if a.None? {
        r := Run(c);
        assert (df, r) == RunStep(w, df1, c);
      } else {
        r := Some(Result(Seconds(a.value) * groups as real,
                         Scaled(a.value, MemFactor(c.pim, 2), w.numHbm * groups)));
        assert r.value == Cached(w, c, a.value);
      }
    }
  }
}
