/** How often every generated command appears in the trace. */
module TraceEmission {
  import opened Arith
  import opened PimTypes
  import opened TraceLayout
  import opened TraceScript
  import opened TraceTiming
  import opened TraceHazards

  ghost function Occ(s: seq<Cmd>, x: Cmd): nat {
    multiset(s)[x]
  }

  /** Occurrences in the first `n` lists. */
  ghost function Sum(lists: seq<seq<Cmd>>, n: int, x: Cmd): nat
    decreases n
  {
    if n <= 0 then 0 else Sum(lists, n - 1, x) + Occ(ListAt(lists, n - 1), x)
  }

  lemma OccAppend(s: seq<Cmd>, t: seq<Cmd>, x: Cmd)
    ensures Occ(s + t, x) == Occ(s, x) + Occ(t, x)
  {
  }

  ghost function Emitted(s: seq<Step>, x: Cmd): nat {
    Occ(Flatten(s), x)
  }

  lemma EmittedAppend(s: seq<Step>, t: seq<Step>, x: Cmd)
    ensures Emitted(s + t, x) == Emitted(s, x) + Emitted(t, x)
  {
    FlattenAppend(s, t);
    OccAppend(Flatten(s), Flatten(t), x);
  }

  lemma EmittedOne(step: Step, x: Cmd)
    ensures Emitted([step], x) == Occ(CmdsOf(step), x)
  {
    FlattenOne(step);
  }

  lemma EmittedNone(x: Cmd)
    ensures Emitted([], x) == 0
  {
  }

  lemma {:induction false} SumIsConcat(lists: seq<seq<Cmd>>, x: Cmd)
    ensures Sum(lists, |lists|, x) == Occ(Concat(lists), x)
  {
    if lists == [] {
      assert Concat(lists) == [];
    } else {
      hide Occ;
      var n := |lists| - 1;
      SumIsConcat(lists[..n], x);
      SumPrefix(lists, lists[..n], n, x);
      OccAppend(Concat(lists[..n]), lists[n], x);
    }
  }

  lemma {:induction false} SumPrefix(a: seq<seq<Cmd>>, b: seq<seq<Cmd>>, n: nat, x: Cmd)
    requires n <= |a| && n <= |b| && a[..n] == b[..n]
    ensures Sum(a, n, x) == Sum(b, n, x)
  {
    if n == 0 {
    } else {
      assert a[n - 1] == a[..n][n - 1] == b[..n][n - 1] == b[n - 1];
      assert a[..n - 1] == a[..n][..n - 1] && b[..n - 1] == b[..n][..n - 1];
      SumPrefix(a, b, n - 1, x);
    }
  }

  lemma {:induction false} SumBeyond(lists: seq<seq<Cmd>>, n: nat, x: Cmd)
    requires n >= |lists|
    ensures Sum(lists, n, x) == Sum(lists, |lists|, x)
  {
    if n <= |lists| {
    } else {
      SumBeyond(lists, n - 1, x);
    }
  }

  // ---- one loop --------------------------------------------------------------------------

  lemma PassEmits(ins: seq<seq<Cmd>>, outs: seq<seq<Cmd>>, extras: seq<seq<Cmd>>, length: nat, j: nat, x: Cmd)
    ensures Emitted(Pass(ins, outs, extras, length, j), x) ==
            (if j != length then Occ(ListAt(ins, j), x) + Occ(Barriers(), x) else 0) +
            (if j != 0 then Occ(ListAt(outs, j - 1), x) else 0) + Occ(ListAt(extras, j), x)
  {
    hide Emitted, Occ, Barriers, ListAt;
    var a, b, c, d := EmitIf(j != length, ListAt(ins, j)), EmitIf(j != 0, ListAt(outs, j - 1)),
                      [Emit(ListAt(extras, j))], BarIf(j != length);
    EmittedNone(x);
    EmittedOne(Emit(ListAt(ins, j)), x);
    EmittedOne(Emit(ListAt(outs, j - 1)), x);
    EmittedOne(Emit(ListAt(extras, j)), x);
    EmittedOne(Bar, x);
    EmittedAppend(a, b, x);
    EmittedAppend(a + b, c, x);
    EmittedAppend(a + b + c, d, x);
  }

  lemma {:induction false} LoopSums(ins: seq<seq<Cmd>>, outs: seq<seq<Cmd>>, extras: seq<seq<Cmd>>, length: nat, n: nat, x: Cmd)
    requires n <= length + 1
    ensures Emitted(Loop(ins, outs, extras, length, n), x) ==
            Sum(ins, Min(n, length), x) + Sum(outs, n - 1, x) + Sum(extras, n, x) + Min(n, length) * Occ(Barriers(), x)
  {
    hide Emitted, Occ, Barriers, ListAt, Pass;
    if n == 0 {
      EmittedNone(x);
    } else {
      LoopSums(ins, outs, extras, length, n - 1, x);
      PassEmits(ins, outs, extras, length, n - 1, x);
      EmittedAppend(Loop(ins, outs, extras, length, n - 1), Pass(ins, outs, extras, length, n - 1), x);
      MulStep(n - 1, Occ(Barriers(), x));
    }
  }

  /** A loop emits each of its lists once, and one barrier round per pass but the last. */
  lemma LoopEmits(ins: seq<seq<Cmd>>, outs: seq<seq<Cmd>>, extras: seq<seq<Cmd>>, length: nat, x: Cmd)
    requires |ins| == |outs| == length && |extras| <= length + 1
    ensures Emitted(Loop(ins, outs, extras, length, length + 1), x) ==
            Occ(Concat(ins), x) + Occ(Concat(outs), x) + Occ(Concat(extras), x) + length * Occ(Barriers(), x)
  {
    hide Emitted, Occ, Barriers, Concat, Loop, Sum;
    LoopSums(ins, outs, extras, length, length + 1, x);
    SumIsConcat(ins, x);
    SumIsConcat(outs, x);
    SumBeyond(extras, length + 1, x);
    SumIsConcat(extras, x);
  }

  // ---- chunks put together ---------------------------------------------------------------

  lemma {:induction false} ConcatAppend(a: seq<seq<Cmd>>, b: seq<seq<Cmd>>)
    ensures Concat(a + b) == Concat(a) + Concat(b)
  {
    if b == [] {
      assert a + b == a;
    } else {
      var n := |b| - 1;
      ConcatAppend(a, b[..n]);
      assert (a + b)[..|a + b| - 1] == a + b[..n];
    }
  }

  lemma ConcatOne(a: seq<Cmd>)
    ensures Concat([a]) == a
  {
    assert [a][..0] == [];
  }

  /** Consecutive chunks are adjacent. */
  lemma ChunkNext<T>(s: seq<T>, j: nat, stride: nat)
    ensures s[..Min((j + 1) * stride, |s|)] == s[..Min(j * stride, |s|)] + Chunk(s, j, stride)
  {
    MulStep(j, stride);
    var a, b := Min(j * stride, |s|), Min(j * stride + stride, |s|);
    assert a <= b <= |s|;
    assert s[..b] == s[..a] + s[a..b];
  }

  /** The groups of sixteen rows together are the rows. */
  lemma {:induction false} GroupsConcat(mac: seq<seq<Cmd>>, n: nat)
    ensures Concat(Groups(mac, n)) == Concat(mac[..Min(n * 16, |mac|)])
  {
    hide Chunk, Concat;
    if n == 0 {
      assert mac[..0] == [];
    } else {
      GroupsConcat(mac, n - 1);
      ChunkNext(mac, n - 1, 16);
      ConcatAppend(Groups(mac, n - 1), [Concat(Chunk(mac, n - 1, 16))]);
      ConcatOne(Concat(Chunk(mac, n - 1, 16)));
      ConcatAppend(mac[..Min((n - 1) * 16, |mac|)], Chunk(mac, n - 1, 16));
    }
  }

  /** The first `k` whole strides of a list. */
  function Strides(list: seq<Cmd>, k: nat, stride: nat): seq<Cmd> {
    list[..Min(k * stride, |list|)]
  }

  lemma StridesStep(list: seq<Cmd>, k: nat, stride: nat)
    ensures Strides(list, 0, stride) == []
    ensures Strides(list, k + 1, stride) == Strides(list, k, stride) + Chunk(list, k, stride)
  {
    hide Chunk;
    ChunkNext(list, k, stride);
  }

  /** The spread list is a prefix of whole strides. */
  lemma {:induction false} SpreadInConcat(list: seq<Cmd>, length: nat, n: nat)
    requires n <= length
    ensures Concat(SpreadIn(list, length, n)) == if n == 0 then [] else Strides(list, n, |list| / length)
  {
    hide Chunk, Concat, Strides;
    ConcatNone();
    if n == 0 {
    } else {
      var stride := |list| / length;
      SpreadInConcat(list, length, n - 1);
      StridesStep(list, n - 1, stride);
      ConcatAppend(SpreadIn(list, length, n - 1), [Chunk(list, n - 1, stride)]);
      ConcatOne(Chunk(list, n - 1, stride));
    }
  }

  lemma ConcatNone()
    ensures Concat([]) == []
  {
  }

  /** Occurrences in what the first `n` passes emit of a list spread over the second half. */
  ghost function LateSum(list: seq<Cmd>, length: nat, n: nat, x: Cmd): nat {
    if n == 0 then 0 else LateSum(list, length, n - 1, x) + Occ(LateChunk(list, length, n - 1), x)
  }

  lemma {:induction false} SpreadBackSums(sfm: seq<Cmd>, list: seq<Cmd>, length: nat, n: nat, x: Cmd)
    ensures Occ(Concat(SpreadBack(sfm, list, length, n)), x) == (if n == 0 then 0 else Occ(sfm, x)) + LateSum(list, length, n, x)
  {
    hide Occ, Concat, LateChunk;
    OccNone(x);
    if n == 0 {
      ConcatNone();
    } else {
      var front := SpreadBack(sfm, list, length, n - 1);
      var first := if n == 1 then sfm else [];
      var last := LateChunk(list, length, n - 1);
      SpreadBackSums(sfm, list, length, n - 1, x);
      ConcatAppend(front, [first + last]);
      ConcatOne(first + last);
      OccAppend(Concat(front), first + last, x);
      OccAppend(first, last, x);
    }
  }

  lemma StridesNext(list: seq<Cmd>, k: nat, stride: nat, x: Cmd)
    ensures Occ(Strides(list, 0, stride), x) == 0
    ensures Occ(Strides(list, k + 1, stride), x) == Occ(Strides(list, k, stride), x) + Occ(Chunk(list, k, stride), x)
  {
    hide Occ, Chunk, Strides;
    StridesStep(list, k, stride);
    OccAppend(Strides(list, k, stride), Chunk(list, k, stride), x);
    OccNone(x);
  }

  /** The second half emits a prefix of whole strides. */
  lemma {:induction false} LateSumIsPrefix(list: seq<Cmd>, length: nat, n: nat, x: Cmd)
    requires length > 0 && n <= length
    ensures LateSum(list, length, n, x) ==
            if n <= length / 2 then 0 else Occ(Strides(list, n - length / 2, |list| / CeilDiv(length, 2)), x)
  {
    hide Occ, Chunk, Strides;
    OccNone(x);
    if n == 0 {
    } else {
      LateSumIsPrefix(list, length, n - 1, x);
      if n - 1 >= length / 2 {
        StridesNext(list, n - 1 - length / 2, |list| / CeilDiv(length, 2), x);
      }
    }
  }

  /** A spread-back loop emits the softmax once and that prefix of the list. */
  lemma SpreadBackOcc(sfm: seq<Cmd>, list: seq<Cmd>, length: nat, x: Cmd)
    requires length > 0
    ensures Occ(Concat(SpreadBack(sfm, list, length, length + 1)), x) ==
            Occ(sfm, x) + Occ(Strides(list, CeilDiv(length, 2), |list| / CeilDiv(length, 2)), x)
  {
    hide Occ, Strides;
    SpreadBackSums(sfm, list, length, length + 1, x);
    LateSumIsPrefix(list, length, length, x);
    OccNone(x);
    assert LateChunk(list, length, length) == [];
    assert length - length / 2 == CeilDiv(length, 2);
  }

  lemma OccNone(x: Cmd)
    ensures Occ([], x) == 0
  {
  }

  // ---- what survives of an iteration -----------------------------------------------------

  /** What a list spread over `chunks` passes with a floored stride keeps. */
  function Kept(list: seq<Cmd>, chunks: nat): seq<Cmd> {
    if chunks == 0 then [] else Strides(list, chunks, |list| / chunks)
  }

  /** A spread list loses exactly the remainder of the division, at its end. */
  lemma KeptIsPrefix(list: seq<Cmd>, chunks: nat)
    requires chunks > 0
    ensures Kept(list, chunks) == list[..|list| - |list| % chunks]
    ensures Kept(list, chunks) == list <==> |list| % chunks == 0
  {
    DivMod(|list|, chunks);
    assert chunks * (|list| / chunks) == |list| - |list| % chunks;
    assert list[..|list|] == list;
  }

  /** The lists of iteration `itr` as far as they reach the trace. */
  function EmittedHead(p: Params, itr: nat): Head
    requires p.Valid()
  {
    var h := HeadOf(p, itr);
    if IsSolo(p, itr) then h
    else if itr % 2 == 0 then h.(mvgb := Kept(h.mvgb, CeilDiv(p.Length(), 2)))
    else h.(wrgb := Kept(h.wrgb, p.Length()), mvgb := Kept(h.mvgb, CeilDiv(p.Cols(), 2)), cmac := [], cmvsb := [])
  }

  /** Occurrences in all lists of an iteration. */
  ghost function InHead(h: Head, x: Cmd): nat {
    Occ(h.wrgb, x) + Occ(Concat(h.mac), x) + Occ(Concat(h.mvsb), x) + Occ(h.sfm, x) + Occ(h.mvgb, x) +
    Occ(Concat(h.cmac), x) + Occ(Concat(h.cmvsb), x)
  }

  /** A score loop emits every row and every output group once. */
  lemma ScoreEmits(p: Params, h: Head, extras: seq<seq<Cmd>>, x: Cmd)
    requires |h.mac| == p.Rows() && |h.mvsb| == p.Length() && |extras| <= p.Length() + 1
    ensures var n := p.Length();
            Emitted(Loop(Groups(h.mac, n), h.mvsb, extras, n, n + 1), x) ==
            Occ(Concat(h.mac), x) + Occ(Concat(h.mvsb), x) + Occ(Concat(extras), x) + n * Occ(Barriers(), x)
  {
    NestedCeil(p);
    hide Emitted, Occ, Barriers, Concat, Loop, Groups, Params.Rows, Params.Length;
    var n := p.Length();
    LoopEmits(Groups(h.mac, n), h.mvsb, extras, n, x);
    GroupsConcat(h.mac, n);
    assert h.mac[..|h.mac|] == h.mac;
  }

  lemma EmittedThree(a: seq<Cmd>, b: seq<Cmd>, x: Cmd)
    ensures Emitted([Emit(a), Emit(b), Bar], x) == Occ(a, x) + Occ(b, x) + Occ(Barriers(), x)
    ensures Emitted([Emit(a), Bar], x) == Occ(a, x) + Occ(Barriers(), x)
  {
    hide Emitted, Occ, Barriers;
    EmittedOne(Emit(a), x);
    EmittedOne(Emit(b), x);
    EmittedOne(Bar, x);
    EmittedAppend([Emit(a)], [Emit(b)], x);
    EmittedAppend([Emit(a)] + [Emit(b)], [Bar], x);
    EmittedAppend([Emit(a)], [Bar], x);
    assert [Emit(a)] + [Emit(b)] + [Bar] == [Emit(a), Emit(b), Bar];
    assert [Emit(a)] + [Bar] == [Emit(a), Bar];
  }

  lemma EmittedFour(a: seq<Step>, b: seq<Step>, c: seq<Step>, d: seq<Step>, x: Cmd)
    ensures Emitted(a + b + c + d, x) == Emitted(a, x) + Emitted(b, x) + Emitted(c, x) + Emitted(d, x)
  {
    hide Emitted;
    EmittedAppend(a, b, x);
    EmittedAppend(a + b, c, x);
    EmittedAppend(a + b + c, d, x);
  }

  /** An unpaired iteration emits each of its commands exactly once. */
  lemma SoloEmits(p: Params, itr: nat, x: Cmd)
    requires p.Valid()
    ensures Emitted(Solo(HeadOf(p, itr), p.Length(), p.Cols()), x) ==
            InHead(HeadOf(p, itr), x) + (2 + p.Length() + p.Cols()) * Occ(Barriers(), x)
  {
    hide Emitted, Occ, Barriers, Concat, Loop, Groups, HeadOf, Params.Rows, Params.Length, Params.Cols;
    HeadSizes(p, itr);
    ConcatNone();
    OccNone(x);
    var h, n, c := HeadOf(p, itr), p.Length(), p.Cols();
    EmittedThree(h.wrgb, h.sfm, x);
    EmittedThree(h.sfm, h.mvgb, x);
    ScoreEmits(p, h, [], x);
    LoopEmits(h.cmac, h.cmvsb, [], c, x);
    EmittedFour([Emit(h.wrgb), Bar], Loop(Groups(h.mac, n), h.mvsb, [], n, n + 1),
                [Emit(h.sfm), Emit(h.mvgb), Bar], Loop(h.cmac, h.cmvsb, [], c, c + 1), x);
    MulSum(2, n, c, Occ(Barriers(), x));
  }

  lemma SpreadInEmits(list: seq<Cmd>, length: nat, x: Cmd)
    ensures Occ(Concat(SpreadIn(list, length, length)), x) == Occ(Kept(list, length), x)
  {
    hide Concat, Occ;
    SpreadInConcat(list, length, length);
  }

  lemma SpreadBackEmits(sfm: seq<Cmd>, list: seq<Cmd>, length: nat, x: Cmd)
    ensures Occ(Concat(SpreadBack(sfm, list, length, length + 1)), x) ==
            Occ(sfm, x) + Occ(Kept(list, CeilDiv(length, 2)), x)
  {
    hide Concat, Occ, Strides;
    if length > 0 {
      SpreadBackOcc(sfm, list, length, x);
    } else {
      SpreadBackSums(sfm, list, 0, 1, x);
      OccNone(x);
      assert LateSum(list, 0, 1, x) == LateSum(list, 0, 0, x) + Occ(LateChunk(list, 0, 0), x);
    }
  }

  /** The first head's context lists once more. */
  ghost function Replayed(p: Params, itr: nat, x: Cmd): nat
    requires p.Valid()
  {
    var h := HeadOf(p, itr);
    Occ(Concat(ReplayMacs(h, itr + 1, p.Cols())), x) + Occ(Concat(ReplayOuts(h, itr + 1, p.Cols())), x)
  }

  /** A pair of iterations emits what `EmittedHead` keeps of both, once, and the replay. */
  lemma PairEmits(p: Params, itr: nat, dummy: seq<Cmd>, x: Cmd)
    requires p.Valid() && itr % 2 == 0 && !IsSolo(p, itr)
    ensures Emitted(Pair(HeadOf(p, itr), HeadOf(p, itr + 1), itr, dummy, p.Length(), p.Cols()), x) ==
            InHead(EmittedHead(p, itr), x) + InHead(EmittedHead(p, itr + 1), x) + Occ(dummy, x) + Replayed(p, itr, x) +
            PairBars(p) * Occ(Barriers(), x)
  {
    ConcatNone();
    OccNone(x);
    hide Emitted, Occ, Barriers, Concat, Loop, Groups, HeadOf, Params.Rows, Params.Length, Params.Cols, Pair,
         SpreadIn, SpreadBack, ReplayMacs, ReplayOuts, IsSolo, CeilDiv, EmittedHead, InHead;
    HeadSizes(p, itr);
    HeadSizes(p, itr + 1);
    var h, k, n, c := HeadOf(p, itr), HeadOf(p, itr + 1), p.Length(), p.Cols();
    var o := Occ(Barriers(), x);
    PairSplits(h, k, itr, dummy, n, c, x);
    ScoreEmits(p, h, SpreadIn(k.wrgb, n, n), x);
    ScoreEmits(p, k, SpreadBack(h.sfm, h.mvgb, n, n + 1), x);
    LoopEmits(h.cmac, h.cmvsb, SpreadBack(k.sfm, k.mvgb, c, c + 1), c, x);
    LoopEmits(ReplayMacs(h, itr + 1, c), ReplayOuts(h, itr + 1, c), [], c, x);
    KeptOfPair(p, itr, x);
    MulSum(1, 2 * n, 2 * c, o);
    MulTwo(n, o);
    MulTwo(c, o);
  }

  lemma PairSplits(h: Head, k: Head, itr: nat, dummy: seq<Cmd>, n: nat, c: nat, x: Cmd)
    requires |h.cmac| == |h.cmvsb| == c
    ensures Emitted(Pair(h, k, itr, dummy, n, c), x) ==
            Occ(h.wrgb, x) + Occ(dummy, x) + Occ(Barriers(), x) +
            Emitted(Loop(Groups(h.mac, n), h.mvsb, SpreadIn(k.wrgb, n, n), n, n + 1), x) +
            Emitted(Loop(Groups(k.mac, n), k.mvsb, SpreadBack(h.sfm, h.mvgb, n, n + 1), n, n + 1), x) +
            Emitted(Loop(h.cmac, h.cmvsb, SpreadBack(k.sfm, k.mvgb, c, c + 1), c, c + 1), x) +
            Emitted(Loop(ReplayMacs(h, itr + 1, c), ReplayOuts(h, itr + 1, c), [], c, c + 1), x)
  {
    hide Emitted, Occ, Barriers, Loop, Groups, SpreadIn, SpreadBack, ReplayMacs, ReplayOuts;
    EmittedThree(h.wrgb, dummy, x);
    var s0 := [Emit(h.wrgb), Emit(dummy), Bar];
    var s1 := Loop(Groups(h.mac, n), h.mvsb, SpreadIn(k.wrgb, n, n), n, n + 1);
    var s2 := Loop(Groups(k.mac, n), k.mvsb, SpreadBack(h.sfm, h.mvgb, n, n + 1), n, n + 1);
    var s3 := Loop(h.cmac, h.cmvsb, SpreadBack(k.sfm, k.mvgb, c, c + 1), c, c + 1);
    var s4 := Loop(ReplayMacs(h, itr + 1, c), ReplayOuts(h, itr + 1, c), [], c, c + 1);
    EmittedFour(s0, s1, s2, s3, x);
    EmittedAppend(s0 + s1 + s2 + s3, s4, x);
  }

  /** What a pair keeps, list by list. */
  lemma KeptOfPair(p: Params, itr: nat, x: Cmd)
    requires p.Valid() && itr % 2 == 0 && !IsSolo(p, itr)
    ensures var h, k, n, c := HeadOf(p, itr), HeadOf(p, itr + 1), p.Length(), p.Cols();
            InHead(EmittedHead(p, itr), x) + InHead(EmittedHead(p, itr + 1), x) ==
            Occ(h.wrgb, x) + Occ(Concat(h.mac), x) + Occ(Concat(h.mvsb), x) +
            Occ(Concat(SpreadIn(k.wrgb, n, n)), x) + Occ(Concat(k.mac), x) + Occ(Concat(k.mvsb), x) +
            Occ(Concat(SpreadBack(h.sfm, h.mvgb, n, n + 1)), x) +
            Occ(Concat(h.cmac), x) + Occ(Concat(h.cmvsb), x) + Occ(Concat(SpreadBack(k.sfm, k.mvgb, c, c + 1)), x)
  {
    SecondIsPaired(p, itr);
    ConcatNone();
    OccNone(x);
    hide Occ, Concat, HeadOf, Params.Length, Params.Cols, SpreadIn, SpreadBack, IsSolo, Kept, CeilDiv;
    var h, k, n, c := HeadOf(p, itr), HeadOf(p, itr + 1), p.Length(), p.Cols();
    SpreadInEmits(k.wrgb, n, x);
    SpreadBackEmits(h.sfm, h.mvgb, n, x);
    SpreadBackEmits(k.sfm, k.mvgb, c, x);
    assert EmittedHead(p, itr) == h.(mvgb := Kept(h.mvgb, CeilDiv(n, 2)));
    assert EmittedHead(p, itr + 1) == k.(wrgb := Kept(k.wrgb, n), mvgb := Kept(k.mvgb, CeilDiv(c, 2)), cmac := [], cmvsb := []);
  }

  lemma SecondIsPaired(p: Params, itr: nat)
    requires itr % 2 == 0
    ensures !IsSolo(p, itr + 1) && (itr + 1) % 2 != 0
  {
  }

  // ---- the whole trace -------------------------------------------------------------------

  /** Occurrences in what is kept of the first `n` iterations. */
  ghost function InHeads(p: Params, n: nat, x: Cmd): nat
    requires p.Valid()
  {
    if n == 0 then 0 else InHeads(p, n - 1, x) + InHead(EmittedHead(p, n - 1), x)
  }

  /** Occurrences in the dummy MACs and replays of the first `k` pairs. */
  ghost function Surplus(p: Params, k: nat, x: Cmd): nat
    requires p.Valid()
  {
    if k == 0 then 0 else Surplus(p, k - 1, x) + Occ(DummyMacs(p, 2 * (k - 1)), x) + Replayed(p, 2 * (k - 1), x)
  }

  function Rounds(p: Params): nat
    requires p.Valid()
  {
    (p.NumItr() / 2) * PairBars(p) + if p.NumItr() % 2 != 0 then 2 + p.Length() + p.Cols() else 0
  }

  lemma {:induction false} PairsEmit(p: Params, k: nat, x: Cmd)
    requires p.Valid() && 2 * k <= p.NumItr()
    ensures Emitted(Pairs(p, k), x) == InHeads(p, 2 * k, x) + Surplus(p, k, x) + (k * PairBars(p)) * Occ(Barriers(), x)
  {
    hide Emitted, Occ, Barriers, Pair, HeadOf, EmittedHead, InHead, DummyMacs, Replayed, PairBars, Params.NumItr, Params.Length, Params.Cols;
    if k == 0 {
      EmittedNone(x);
    } else {
      var i := 2 * (k - 1);
      HeadSizes(p, i);
      PairsEmit(p, k - 1, x);
      PairEmits(p, i, DummyMacs(p, i), x);
      EmittedAppend(Pairs(p, k - 1),
                    Pair(HeadOf(p, i), HeadOf(p, i + 1), i, DummyMacs(p, i), p.Length(), p.Cols()), x);
      MulStep(k - 1, PairBars(p));
      MulSum((k - 1) * PairBars(p), PairBars(p), 0, Occ(Barriers(), x));
    }
  }

  /**
   * Exact emission: besides the barriers, the dummy MACs and the replays, a trace holds what
   * is kept of every iteration, each command as often as it was generated.
   */
  lemma TraceEmits(p: Params, x: Cmd)
    requires p.Valid()
    ensures Occ(Commands(p), x) ==
            InHeads(p, p.NumItr(), x) + Surplus(p, p.NumItr() / 2, x) + Rounds(p) * Occ(Barriers(), x)
  {
    hide Occ, Barriers, Flatten, Pairs, Solo, HeadOf, InHead, Surplus, PairBars, Params.NumItr, Params.Length, Params.Cols;
    var n := p.NumItr();
    PairsEmit(p, n / 2, x);
    if n % 2 == 0 {
      assert Script(p) == Pairs(p, n / 2);
    } else {
      SoloEmits(p, n - 1, x);
      EmittedAppend(Pairs(p, n / 2), Solo(HeadOf(p, n - 1), p.Length(), p.Cols()), x);
      assert n - 1 == 2 * (n / 2);
      assert EmittedHead(p, n - 1) == HeadOf(p, n - 1);
      MulSum((n / 2) * PairBars(p), 2 + p.Length() + p.Cols(), 0, Occ(Barriers(), x));
    }
  }

  // ---- command by command ----------------------------------------------------------------

  /** The roles of generated commands that the interleaving has not relabelled. */
  predicate Own(role: Role) {
    !role.DummyMac? && !role.ReplayMac? && !role.ReplayOut? && !role.Sync?
  }

  lemma OtherLabel(cmds: seq<Cmd>, itr: int, role: Role, x: Cmd)
    requires Labelled(cmds, itr, role) && (x.itr != itr || x.role != role)
    ensures Occ(cmds, x) == 0
  {
    assert x !in cmds;
  }

  lemma {:induction false} NowhereInConcat(lists: seq<seq<Cmd>>, x: Cmd)
    requires forall j :: 0 <= j < |lists| ==> Occ(lists[j], x) == 0
    ensures Occ(Concat(lists), x) == 0
  {
    hide Occ;
    if lists == [] {
      OccNone(x);
    } else {
      var n := |lists| - 1;
      NowhereInConcat(lists[..n], x);
      OccAppend(Concat(lists[..n]), lists[n], x);
    }
  }

  lemma KeptLabelled(list: seq<Cmd>, chunks: nat, itr: int, role: Role)
    requires Labelled(list, itr, role)
    ensures Labelled(Kept(list, chunks), itr, role)
  {
  }

  lemma EmittedHeadLabelled(p: Params, itr: nat)
    requires p.Valid()
    ensures HeadLabelled(EmittedHead(p, itr), itr)
  {
    hide Labelled, HeadOf, Kept, Params.Length, Params.Cols, IsSolo;
    HeadOfLabelled(p, itr);
    var h := HeadOf(p, itr);
    KeptLabelled(h.mvgb, CeilDiv(p.Length(), 2), itr, ContextIn);
    KeptLabelled(h.mvgb, CeilDiv(p.Cols(), 2), itr, ContextIn);
    KeptLabelled(h.wrgb, p.Length(), itr, ScoreIn);
  }

  /** The lists of another iteration do not hold `x`. */
  lemma OtherHead(h: Head, itr: nat, x: Cmd)
    requires HeadLabelled(h, itr) && x.itr != itr
    ensures InHead(h, x) == 0
  {
    hide Occ, Labelled, Concat;
    OtherLabel(h.wrgb, itr, ScoreIn, x);
    OtherLabel(h.sfm, itr, Softmax, x);
    OtherLabel(h.mvgb, itr, ContextIn, x);
    forall n | 0 <= n < |h.mac| ensures Occ(h.mac[n], x) == 0 { OtherLabel(h.mac[n], itr, ScoreMac(n), x); }
    forall n | 0 <= n < |h.mvsb| ensures Occ(h.mvsb[n], x) == 0 { OtherLabel(h.mvsb[n], itr, ScoreOut(n), x); }
    forall n | 0 <= n < |h.cmac| ensures Occ(h.cmac[n], x) == 0 { OtherLabel(h.cmac[n], itr, ContextMac(n), x); }
    forall n | 0 <= n < |h.cmvsb| ensures Occ(h.cmvsb[n], x) == 0 { OtherLabel(h.cmvsb[n], itr, ContextOut(n), x); }
    NowhereInConcat(h.mac, x);
    NowhereInConcat(h.mvsb, x);
    NowhereInConcat(h.cmac, x);
    NowhereInConcat(h.cmvsb, x);
  }

  lemma {:induction false} OneHead(p: Params, n: nat, x: Cmd)
    requires p.Valid() && x.itr >= 0
    ensures InHeads(p, n, x) == if x.itr < n then InHead(EmittedHead(p, x.itr), x) else 0
  {
    hide InHead, EmittedHead;
    if n == 0 {
    } else {
      OneHead(p, n - 1, x);
      if x.itr != n - 1 {
        EmittedHeadLabelled(p, n - 1);
        OtherHead(EmittedHead(p, n - 1), n - 1, x);
      }
    }
  }

  lemma ReplayedIsRelabelled(p: Params, itr: nat, x: Cmd)
    requires p.Valid() && Own(x.role)
    ensures Replayed(p, itr, x) == 0
  {
    hide Occ, Labelled, Concat, HeadOf, Relabel, Params.Cols;
    HeadSizes(p, itr);
    HeadOfLabelled(p, itr);
    var h, c := HeadOf(p, itr), p.Cols();
    var macs, outs := ReplayMacs(h, itr + 1, c), ReplayOuts(h, itr + 1, c);
    forall n | 0 <= n < c
      ensures Occ(macs[n], x) == 0 && Occ(outs[n], x) == 0
    {
      RelabelLabelled(h.cmac[n], itr + 1, ReplayMac(n), itr, ContextMac(n));
      OtherLabel(Relabel(h.cmac[n], itr + 1, ReplayMac(n)), itr + 1, ReplayMac(n), x);
      RelabelLabelled(h.cmvsb[n], itr + 1, ReplayOut(n), itr, ContextOut(n));
      OtherLabel(Relabel(h.cmvsb[n], itr + 1, ReplayOut(n)), itr + 1, ReplayOut(n), x);
    }
    NowhereInConcat(macs, x);
    NowhereInConcat(outs, x);
  }

  lemma DummyIsRelabelled(p: Params, itr: nat, x: Cmd)
    requires p.Valid() && Own(x.role)
    ensures Occ(DummyMacs(p, itr), x) == 0
  {
    hide Occ, Labelled, HeadOf, Relabel;
    OccNone(x);
    var h := HeadOf(p, itr);
    if itr == 0 && |h.mac| > 0 && p.ValidChannels(0) <= |h.mac[0]| {
      HeadOfLabelled(p, itr);
      PrefixLabelled(h.mac[0], 0, ScoreMac(0), p.ValidChannels(0));
      RelabelLabelled(h.mac[0][..p.ValidChannels(0)], 0, DummyMac, 0, ScoreMac(0));
      OtherLabel(DummyMacs(p, itr), 0, DummyMac, x);
    }
  }

  lemma {:induction false} SurplusIsRelabelled(p: Params, k: nat, x: Cmd)
    requires p.Valid() && Own(x.role)
    ensures Surplus(p, k, x) == 0
  {
    hide Occ, DummyMacs, Replayed;
    if k == 0 {
    } else {
      SurplusIsRelabelled(p, k - 1, x);
      ReplayedIsRelabelled(p, 2 * (k - 1), x);
      DummyIsRelabelled(p, 2 * (k - 1), x);
    }
  }

  /**
   * Every generated command is in the trace as often as in its own list, cut where the
   * interleaving cuts it; score MACs, their outputs and the softmax are never cut.
   */
  lemma EachCommandOnce(p: Params, x: Cmd)
    requires p.Valid() && 0 <= x.itr < p.NumItr() && Own(x.role)
    ensures Occ(Commands(p), x) == InHead(EmittedHead(p, x.itr), x)
    ensures x.role.ScoreMac? || x.role.ScoreOut? || x.role.Softmax? ==> Occ(Commands(p), x) == InHead(HeadOf(p, x.itr), x)
  {
    hide Occ, Commands, InHead, EmittedHead, HeadOf, Barriers, Surplus, Params.NumItr, Rounds;
    TraceEmits(p, x);
    OneHead(p, p.NumItr(), x);
    SurplusIsRelabelled(p, p.NumItr() / 2, x);
    BarriersLabelled(x);
    if x.role.ScoreMac? || x.role.ScoreOut? || x.role.Softmax? {
      NothingCut(p, x);
    }
  }

  lemma BarriersLabelled(x: Cmd)
    requires x.itr >= 0
    ensures Occ(Barriers(), x) == 0
  {
    hide Barriers;
    forall c | 0 <= c < N_CHANNEL
      ensures Barriers()[c] != x
    {
      BarrierLane(c);
    }
  }

  lemma NothingCut(p: Params, x: Cmd)
    requires p.Valid() && x.itr >= 0 && (x.role.ScoreMac? || x.role.ScoreOut? || x.role.Softmax?)
    ensures InHead(EmittedHead(p, x.itr), x) == InHead(HeadOf(p, x.itr), x)
  {
    hide Occ, Labelled, Concat, HeadOf, Kept, IsSolo, Params.Length, Params.Cols;
    HeadOfLabelled(p, x.itr);
    var h := HeadOf(p, x.itr);
    OtherLabel(h.wrgb, x.itr, ScoreIn, x);
    OtherLabel(h.mvgb, x.itr, ContextIn, x);
    KeptLabelled(h.mvgb, CeilDiv(p.Length(), 2), x.itr, ContextIn);
    KeptLabelled(h.mvgb, CeilDiv(p.Cols(), 2), x.itr, ContextIn);
    KeptLabelled(h.wrgb, p.Length(), x.itr, ScoreIn);
    OtherLabel(Kept(h.mvgb, CeilDiv(p.Length(), 2)), x.itr, ContextIn, x);
    OtherLabel(Kept(h.mvgb, CeilDiv(p.Cols(), 2)), x.itr, ContextIn, x);
    OtherLabel(Kept(h.wrgb, p.Length()), x.itr, ScoreIn, x);
    forall n | 0 <= n < |h.cmac| ensures Occ(h.cmac[n], x) == 0 { OtherLabel(h.cmac[n], x.itr, ContextMac(n), x); }
    forall n | 0 <= n < |h.cmvsb| ensures Occ(h.cmvsb[n], x) == 0 { OtherLabel(h.cmvsb[n], x.itr, ContextOut(n), x); }
    NowhereInConcat(h.cmac, x);
    NowhereInConcat(h.cmvsb, x);
    ConcatNone();
    OccNone(x);
  }

  // ---- how much is cut -------------------------------------------------------------------

  /**
   * Nothing of a paired iteration's WR_GB and MV_GB is cut exactly when the number of passes
   * they are spread over divides the number of commands.
   */
  lemma NothingLost(p: Params, itr: nat)
    requires p.Valid() && !IsSolo(p, itr) && p.Length() > 0 && p.Cols() > 0
    ensures var h, e, v := HeadOf(p, itr), EmittedHead(p, itr), p.ValidChannels(itr);
            var gbs := |ContextInParts(p.mode)| * (p.MvgbCols() * v);
            if itr % 2 == 0 then e.mvgb == h.mvgb <==> gbs % CeilDiv(p.Length(), 2) == 0
            else
              && (e.mvgb == h.mvgb <==> gbs % CeilDiv(p.Cols(), 2) == 0)
              && (e.wrgb == h.wrgb <==> (|ScoreInParts(p.mode)| * (p.Cols() * v)) % p.Length() == 0)
  {
    var h, v := HeadOf(p, itr), p.ValidChannels(itr);
    PartLanesCount(PimWrGb, itr, ScoreIn, p.KeyAddr(itr), ScoreInParts(p.mode), p.Cols(), v);
    PartLanesCount(PimMvGb, itr, ContextIn, p.ValAddr(itr), ContextInParts(p.mode), p.MvgbCols(), v);
    assert |h.wrgb| == |ScoreInParts(p.mode)| * (p.Cols() * v);
    assert |h.mvgb| == |ContextInParts(p.mode)| * (p.MvgbCols() * v);
    hide HeadOf, PartLanes, Kept, ScoreInParts, ContextInParts, Params.Cols, Params.Length, Params.MvgbCols, Params.ValidChannels, IsSolo;
    KeptIsPrefix(h.mvgb, CeilDiv(p.Length(), 2));
    KeptIsPrefix(h.mvgb, CeilDiv(p.Cols(), 2));
    KeptIsPrefix(h.wrgb, p.Length());
  }

  /** With dhead 128 and L 768 the second head loses two of its 128 WR_GB commands. */
  lemma TailIsLost()
    ensures var p := Params(Bank, 128, 16, 4096, 768, 32);
            !IsSolo(p, 1) && |HeadOf(p, 1).wrgb| == 128 && |EmittedHead(p, 1).wrgb| == 126
  {
    hide PartLanes, Lanes, ScoreMacs, ScoreOuts, ContextMacs, ContextOuts, Params.KeyAddr, Params.ValAddr, Kept;
    var p := Params(Bank, 128, 16, 4096, 768, 32);
    assert p.Cols() == 2 && p.ValidChannels(1) == 16 && p.Length() == 3 && p.NumItr() == 2;
    PartLanesCount(PimWrGb, 1, ScoreIn, p.KeyAddr(1), ScoreInParts(Bank), 2, 16);
    KeptIsPrefix(HeadOf(p, 1).wrgb, 3);
  }

  /** Every head has a channel in exactly one iteration. */
  ghost function HeadsPlaced(p: Params, n: nat): nat {
    if n == 0 then 0 else HeadsPlaced(p, n - 1) + p.ValidChannels(n - 1)
  }

  lemma {:induction false} FullIterations(p: Params, n: nat)
    requires n < p.NumItr()
    ensures HeadsPlaced(p, n) == n * N_CHANNEL
  {
    if n == 0 {
    } else {
      FullIterations(p, n - 1);
    }
  }

  lemma AllHeadsPlaced(p: Params)
    ensures HeadsPlaced(p, p.NumItr()) == p.nHead
  {
    if p.NumItr() > 0 {
      FullIterations(p, p.NumItr() - 1);
    }
  }
}
