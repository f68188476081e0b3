/** No hazard: a barrier stands between every command and those that must wait for it. */
module TraceHazards {
  import opened Arith
  import opened PimTypes
  import opened TraceLayout
  import opened TraceScript
  import opened TraceTiming

  /** List n is emitted in its window when n more barriers have passed. */
  ghost predicate ListsIn(p: Params, lists: seq<seq<Cmd>>, e: nat)
    requires p.Valid()
  {
    forall n :: 0 <= n < |lists| ==> AllIn(p, lists[n], e + n)
  }

  lemma PassTimed(p: Params, ins: seq<seq<Cmd>>, outs: seq<seq<Cmd>>, extras: seq<seq<Cmd>>, length: nat, j: nat, e: nat)
    requires p.Valid() && j <= length
    requires ListsIn(p, ins, e) && ListsIn(p, outs, e + 1) && ListsIn(p, extras, e)
    ensures Timed(p, Pass(ins, outs, extras, length, j), e + j)
    ensures Bars(Pass(ins, outs, extras, length, j)) == if j != length then 1 else 0
  {
    hide InWindow;
    TimedStep(p, j != length, ListAt(ins, j), j != 0, ListAt(outs, j - 1), ListAt(extras, j), e + j);
  }

  /** A loop keeps to the windows, and takes one barrier per pass but the last. */
  lemma {:induction false} LoopTimed(p: Params, ins: seq<seq<Cmd>>, outs: seq<seq<Cmd>>, extras: seq<seq<Cmd>>, length: nat, n: nat, e: nat)
    requires p.Valid() && n <= length + 1
    requires ListsIn(p, ins, e) && ListsIn(p, outs, e + 1) && ListsIn(p, extras, e)
    ensures Timed(p, Loop(ins, outs, extras, length, n), e)
    ensures Bars(Loop(ins, outs, extras, length, n)) == Min(n, length)
  {
    hide ListsIn, Pass;
    if n == 0 {
    } else {
      LoopTimed(p, ins, outs, extras, length, n - 1, e);
      PassTimed(p, ins, outs, extras, length, n - 1, e);
      TimedAppend(p, Loop(ins, outs, extras, length, n - 1), Pass(ins, outs, extras, length, n - 1), e);
    }
  }

  // ---- the lists of a head ---------------------------------------------------------------

  /** The j-th group of sixteen score rows. */
  lemma GroupIn(p: Params, h: Head, itr: nat, j: nat, t: nat)
    requires p.Valid() && HeadLabelled(h, itr)
    requires forall r: nat :: r / 16 == j ==> InWindow(p, itr, ScoreMac(r), t)
    ensures AllIn(p, Concat(Chunk(h.mac, j, 16)), t)
  {
    hide InWindow, Labelled, AllIn, Concat;
    var rows := Chunk(h.mac, j, 16);
    forall i | 0 <= i < |rows|
      ensures AllIn(p, rows[i], t)
    {
      var r := j * 16 + i;
      assert rows[i] == h.mac[r] && r / 16 == j;
      LabelledAllIn(p, h.mac[r], itr, ScoreMac(r), t);
    }
    ConcatAllIn(p, rows, t);
  }

  /** Score rows wait for one barrier per group. */
  lemma GroupsIn(p: Params, h: Head, itr: nat, n: nat, e: nat)
    requires p.Valid() && HeadLabelled(h, itr)
    requires forall r: nat :: r / 16 < n ==> InWindow(p, itr, ScoreMac(r), e + r / 16)
    ensures ListsIn(p, Groups(h.mac, n), e)
  {
    hide InWindow, Labelled, AllIn, Chunk, Concat, HeadLabelled;
    if n == 0 {
    } else {
      GroupsIn(p, h, itr, n - 1, e);
      GroupIn(p, h, itr, n - 1, e + n - 1);
    }
  }

  lemma OutsIn(p: Params, h: Head, itr: nat, e: nat)
    requires p.Valid() && HeadLabelled(h, itr)
    requires forall g: nat :: g < |h.mvsb| ==> InWindow(p, itr, ScoreOut(g), e + g)
    ensures ListsIn(p, h.mvsb, e)
  {
    hide InWindow, Labelled, AllIn;
    forall g | 0 <= g < |h.mvsb|
      ensures AllIn(p, h.mvsb[g], e + g)
    {
      LabelledAllIn(p, h.mvsb[g], itr, ScoreOut(g), e + g);
    }
  }

  lemma ContextIn0(p: Params, h: Head, itr: nat, e: nat)
    requires p.Valid() && HeadLabelled(h, itr)
    requires forall r: nat :: r < |h.cmac| && h.cmac[r] != [] ==> InWindow(p, itr, ContextMac(r), e + r)
    requires forall r: nat :: InWindow(p, itr, ContextOut(r), e + 1 + r)
    ensures ListsIn(p, h.cmac, e) && ListsIn(p, h.cmvsb, e + 1)
  {
    hide InWindow, Labelled, AllIn;
    forall r | 0 <= r < |h.cmac|
      ensures AllIn(p, h.cmac[r], e + r)
    {
      if h.cmac[r] == [] {
        EmptyIn(p, e + r);
      } else {
        LabelledAllIn(p, h.cmac[r], itr, ContextMac(r), e + r);
      }
    }
    forall r | 0 <= r < |h.cmvsb|
      ensures AllIn(p, h.cmvsb[r], e + 1 + r)
    {
      LabelledAllIn(p, h.cmvsb[r], itr, ContextOut(r), e + 1 + r);
    }
  }

  lemma ReplayIn(p: Params, h: Head, itr: nat, clen: nat, e: nat)
    requires p.Valid() && clen <= |h.cmac| && clen <= |h.cmvsb| && HeadLabelled(h, itr - 1)
    requires forall r: nat :: r < clen ==> InWindow(p, itr, ReplayMac(r), e + r)
    requires forall r: nat :: InWindow(p, itr, ReplayOut(r), e + 1 + r)
    ensures ListsIn(p, ReplayMacs(h, itr, clen), e) && ListsIn(p, ReplayOuts(h, itr, clen), e + 1)
  {
    hide InWindow, Labelled, AllIn, Relabel;
    forall r | 0 <= r < clen
      ensures AllIn(p, ReplayMacs(h, itr, clen)[r], e + r) && AllIn(p, ReplayOuts(h, itr, clen)[r], e + 1 + r)
    {
      RelabelLabelled(h.cmac[r], itr, ReplayMac(r), itr - 1, ContextMac(r));
      LabelledAllIn(p, Relabel(h.cmac[r], itr, ReplayMac(r)), itr, ReplayMac(r), e + r);
      RelabelLabelled(h.cmvsb[r], itr, ReplayOut(r), itr - 1, ContextOut(r));
      LabelledAllIn(p, Relabel(h.cmvsb[r], itr, ReplayOut(r)), itr, ReplayOut(r), e + 1 + r);
    }
  }

  lemma ChunkIn(p: Params, list: seq<Cmd>, itr: nat, role: Role, j: nat, stride: nat, t: nat)
    requires p.Valid() && Labelled(list, itr, role) && InWindow(p, itr, role, t)
    ensures AllIn(p, Chunk(list, j, stride), t)
  {
    hide InWindow;
    ChunkLabelled(list, itr, role, j, stride);
    LabelledAllIn(p, Chunk(list, j, stride), itr, role, t);
  }

  /** WR_GB of the second head during the score loop of the first. */
  lemma SpreadInIn(p: Params, list: seq<Cmd>, itr: nat, length: nat, n: nat, e: nat)
    requires p.Valid() && n <= length && Labelled(list, itr, ScoreIn)
    requires forall t: nat :: e <= t < e + length ==> InWindow(p, itr, ScoreIn, t)
    ensures ListsIn(p, SpreadIn(list, length, n), e)
  {
    hide InWindow, Labelled, AllIn, Chunk;
    if n == 0 {
    } else {
      SpreadInIn(p, list, itr, length, n - 1, e);
      ChunkIn(p, list, itr, ScoreIn, n - 1, |list| / length, e + n - 1);
    }
  }

  lemma LateChunkIn(p: Params, list: seq<Cmd>, itr: nat, length: nat, j: nat, e: nat)
    requires p.Valid() && Labelled(list, itr, ContextIn)
    requires forall t: nat :: e + length / 2 <= t < e + length ==> InWindow(p, itr, ContextIn, t)
    ensures AllIn(p, LateChunk(list, length, j), e + j)
  {
    hide InWindow, Labelled, Chunk;
    if length / 2 <= j < length {
      ChunkIn(p, list, itr, ContextIn, j - length / 2, |list| / CeilDiv(length, 2), e + j);
    }
  }

  /** The softmax comes in the first pass, MV_GB in the second half of the loop. */
  lemma SpreadBackIn(p: Params, sfm: seq<Cmd>, list: seq<Cmd>, itr: nat, length: nat, n: nat, e: nat)
    requires p.Valid() && Labelled(sfm, itr, Softmax) && Labelled(list, itr, ContextIn) && InWindow(p, itr, Softmax, e)
    requires forall t: nat :: e + length / 2 <= t < e + length ==> InWindow(p, itr, ContextIn, t)
    ensures ListsIn(p, SpreadBack(sfm, list, length, n), e)
  {
    hide InWindow, Labelled, AllIn, LateChunk;
    if n == 0 {
    } else {
      SpreadBackIn(p, sfm, list, itr, length, n - 1, e);
      BackPassIn(p, sfm, list, itr, length, n - 1, e);
      AppendIn(p, SpreadBack(sfm, list, length, n - 1), (if n == 1 then sfm else []) + LateChunk(list, length, n - 1), e);
    }
  }

  /** One pass of such a loop. */
  lemma BackPassIn(p: Params, sfm: seq<Cmd>, list: seq<Cmd>, itr: nat, length: nat, j: nat, e: nat)
    requires p.Valid() && Labelled(sfm, itr, Softmax) && Labelled(list, itr, ContextIn) && InWindow(p, itr, Softmax, e)
    requires forall t: nat :: e + length / 2 <= t < e + length ==> InWindow(p, itr, ContextIn, t)
    ensures AllIn(p, (if j == 0 then sfm else []) + LateChunk(list, length, j), e + j)
  {
    hide InWindow, Labelled, AllIn, LateChunk;
    LateChunkIn(p, list, itr, length, j, e);
    if j == 0 {
      LabelledAllIn(p, sfm, itr, Softmax, e);
    } else {
      EmptyIn(p, e + j);
    }
    AllInAppend(p, if j == 0 then sfm else [], LateChunk(list, length, j), e + j);
  }

  lemma AppendIn(p: Params, lists: seq<seq<Cmd>>, last: seq<Cmd>, e: nat)
    requires p.Valid() && ListsIn(p, lists, e) && AllIn(p, last, e + |lists|)
    ensures ListsIn(p, lists + [last], e)
  {
    hide AllIn;
  }

  lemma DummyIsFree(p: Params, itr: nat, e: nat)
    requires p.Valid()
    ensures InWindow(p, itr, DummyMac, e)
  {
  }

  lemma EmptyIn(p: Params, e: nat)
    requires p.Valid()
    ensures AllIn(p, [], e)
  {
  }

  lemma AllInAppend(p: Params, x: seq<Cmd>, y: seq<Cmd>, e: nat)
    requires p.Valid() && AllIn(p, x, e) && AllIn(p, y, e)
    ensures AllIn(p, x + y, e)
  {
    hide InWindow;
  }

  // ---- whole scripts ---------------------------------------------------------------------

  lemma TimedThree(p: Params, x: seq<Cmd>, y: seq<Cmd>, e: nat)
    requires p.Valid() && AllIn(p, x, e) && AllIn(p, y, e)
    ensures Timed(p, [Emit(x), Emit(y), Bar], e) && Bars([Emit(x), Emit(y), Bar]) == 1
  {
    hide AllIn, Timed, Bars;
    TimedOne(p, Emit(x), e);
    TimedOne(p, Emit(y), e);
    TimedOne(p, Bar, e);
    TimedAppend(p, [Emit(x)], [Emit(y)], e);
    TimedAppend(p, [Emit(x)] + [Emit(y)], [Bar], e);
    assert [Emit(x)] + [Emit(y)] + [Bar] == [Emit(x), Emit(y), Bar];
  }

  lemma TimedTwo(p: Params, x: seq<Cmd>, e: nat)
    requires p.Valid() && AllIn(p, x, e)
    ensures Timed(p, [Emit(x), Bar], e) && Bars([Emit(x), Bar]) == 1
  {
    hide AllIn, Timed, Bars;
    TimedOne(p, Emit(x), e);
    TimedOne(p, Bar, e);
    TimedAppend(p, [Emit(x)], [Bar], e);
    assert [Emit(x)] + [Bar] == [Emit(x), Bar];
  }

  /** The windows of an iteration without a partner. */
  lemma SoloWindows(p: Params, itr: nat)
    requires p.Valid() && IsSolo(p, itr)
    ensures var b, n := Base(p, itr), p.Length();
            && InWindow(p, itr, ScoreIn, b)
            && (forall r: nat :: r / 16 < n ==> InWindow(p, itr, ScoreMac(r), b + 1 + r / 16))
            && (forall g: nat :: g < n ==> InWindow(p, itr, ScoreOut(g), b + 2 + g))
            && InWindow(p, itr, Softmax, b + 1 + n) && InWindow(p, itr, ContextIn, b + 1 + n)
            && (forall r: nat :: n > 0 ==> InWindow(p, itr, ContextMac(r), b + 2 + n + r))
            && (forall r: nat :: InWindow(p, itr, ContextOut(r), b + 2 + n + 1 + r))
  {
    hide Base;
  }

  /** The windows of the first iteration of a pair, and of the second. */
  lemma FirstWindows(p: Params, itr: nat)
    requires p.Valid() && itr % 2 == 0 && !IsSolo(p, itr)
    ensures var b, n := Base(p, itr), p.Length();
            && InWindow(p, itr, ScoreIn, b)
            && (forall r: nat :: r / 16 < n ==> InWindow(p, itr, ScoreMac(r), b + 1 + r / 16))
            && (forall g: nat :: g < n ==> InWindow(p, itr, ScoreOut(g), b + 1 + 1 + g))
            && InWindow(p, itr, Softmax, b + 1 + n)
            && (forall t: nat :: b + 1 + n + n / 2 <= t < b + 1 + n + n ==> InWindow(p, itr, ContextIn, t))
            && (forall r: nat :: n > 0 ==> InWindow(p, itr, ContextMac(r), b + 1 + n + n + r))
            && (forall r: nat :: InWindow(p, itr, ContextOut(r), b + 1 + n + n + 1 + r))
  {
    hide Base;
  }

  lemma SecondWindows(p: Params, itr: nat)
    requires p.Valid() && itr % 2 == 1
    ensures var b, n, c := Base(p, itr - 1), p.Length(), p.Cols();
            && (forall t: nat :: b + 1 <= t < b + 1 + n ==> InWindow(p, itr, ScoreIn, t))
            && (forall r: nat :: r / 16 < n ==> InWindow(p, itr, ScoreMac(r), b + 1 + n + r / 16))
            && (forall g: nat :: g < n ==> InWindow(p, itr, ScoreOut(g), b + 1 + n + 1 + g))
            && InWindow(p, itr, Softmax, b + 1 + n + n)
            && (forall t: nat :: b + 1 + n + n + c / 2 <= t < b + 1 + n + n + c ==> InWindow(p, itr, ContextIn, t))
            && (forall r: nat :: r < c ==> InWindow(p, itr, ReplayMac(r), b + 1 + n + n + c + r))
            && (forall r: nat :: InWindow(p, itr, ReplayOut(r), b + 1 + n + n + c + 1 + r))
  {
    assert (itr - 1) / 2 == itr / 2;
    assert Base(p, itr) == Base(p, itr - 1);
    hide Base;
  }

  lemma NothingIn(p: Params, e: nat)
    requires p.Valid()
    ensures ListsIn(p, [], e)
  {
  }

  /** A score loop over the lists of one head. */
  lemma ScoreTimed(p: Params, h: Head, itr: nat, extras: seq<seq<Cmd>>, n: nat, e: nat)
    requires p.Valid() && HeadLabelled(h, itr) && ListsIn(p, extras, e) && |h.mvsb| == n
    requires forall r: nat :: r / 16 < n ==> InWindow(p, itr, ScoreMac(r), e + r / 16)
    requires forall g: nat :: g < n ==> InWindow(p, itr, ScoreOut(g), e + 1 + g)
    ensures var s := Loop(Groups(h.mac, n), h.mvsb, extras, n, n + 1); Timed(p, s, e) && Bars(s) == n
  {
    hide InWindow, HeadLabelled, Timed, Bars, Loop, Groups, ListsIn;
    GroupsIn(p, h, itr, n, e);
    OutsIn(p, h, itr, e + 1);
    LoopTimed(p, Groups(h.mac, n), h.mvsb, extras, n, n + 1, e);
  }

  lemma ContextTimed(p: Params, h: Head, itr: nat, extras: seq<seq<Cmd>>, n: nat, e: nat)
    requires p.Valid() && HeadLabelled(h, itr) && ListsIn(p, extras, e)
    requires forall r: nat :: r < |h.cmac| && h.cmac[r] != [] ==> InWindow(p, itr, ContextMac(r), e + r)
    requires forall r: nat :: InWindow(p, itr, ContextOut(r), e + 1 + r)
    ensures var s := Loop(h.cmac, h.cmvsb, extras, n, n + 1); Timed(p, s, e) && Bars(s) == n
  {
    hide InWindow, HeadLabelled, Timed, Bars, Loop, ListsIn;
    ContextIn0(p, h, itr, e);
    LoopTimed(p, h.cmac, h.cmvsb, extras, n, n + 1, e);
  }

  lemma ReplayTimed(p: Params, h: Head, itr: nat, n: nat, e: nat)
    requires p.Valid() && n <= |h.cmac| && n <= |h.cmvsb| && HeadLabelled(h, itr - 1)
    requires forall r: nat :: r < n ==> InWindow(p, itr, ReplayMac(r), e + r)
    requires forall r: nat :: InWindow(p, itr, ReplayOut(r), e + 1 + r)
    ensures var s := Loop(ReplayMacs(h, itr, n), ReplayOuts(h, itr, n), [], n, n + 1); Timed(p, s, e) && Bars(s) == n
  {
    hide InWindow, Timed, Bars, Loop, ListsIn, ReplayMacs, ReplayOuts, HeadLabelled;
    ReplayIn(p, h, itr, n, e);
    NothingIn(p, e);
    LoopTimed(p, ReplayMacs(h, itr, n), ReplayOuts(h, itr, n), [], n, n + 1, e);
  }

  lemma TimedFour(p: Params, a: seq<Step>, b: seq<Step>, c: seq<Step>, d: seq<Step>, e: nat)
    requires p.Valid() && Timed(p, a, e) && Timed(p, b, e + Bars(a)) && Timed(p, c, e + Bars(a) + Bars(b))
    requires Timed(p, d, e + Bars(a) + Bars(b) + Bars(c))
    ensures Timed(p, a + b + c + d, e) && Bars(a + b + c + d) == Bars(a) + Bars(b) + Bars(c) + Bars(d)
  {
    hide Timed, Bars;
    TimedAppend(p, a, b, e);
    TimedAppend(p, a + b, c, e);
    TimedAppend(p, a + b + c, d, e);
  }

  lemma SoloTimed(p: Params, itr: nat)
    requires p.Valid() && IsSolo(p, itr)
    ensures var s := Solo(HeadOf(p, itr), p.Length(), p.Cols());
            Timed(p, s, Base(p, itr)) && Bars(s) == 2 + p.Length() + p.Cols()
  {
    hide InWindow, Labelled, Timed, Bars, Loop, Groups, AllIn, ListsIn, Base, HeadOf, IsSolo, Params.Length, Params.Cols;
    SoloWindows(p, itr);
    HeadOfLabelled(p, itr);
    HeadSizes(p, itr);
    NoRowsNoContext(p, itr);
    var h, b, n, c := HeadOf(p, itr), Base(p, itr), p.Length(), p.Cols();
    LabelledAllIn(p, h.wrgb, itr, ScoreIn, b);
    TimedTwo(p, h.wrgb, b);
    NothingIn(p, b + 1);
    ScoreTimed(p, h, itr, [], n, b + 1);
    LabelledAllIn(p, h.sfm, itr, Softmax, b + 1 + n);
    LabelledAllIn(p, h.mvgb, itr, ContextIn, b + 1 + n);
    TimedThree(p, h.sfm, h.mvgb, b + 1 + n);
    NothingIn(p, b + 2 + n);
    ContextTimed(p, h, itr, [], c, b + 2 + n);
    TimedFour(p, [Emit(h.wrgb), Bar], Loop(Groups(h.mac, n), h.mvsb, [], n, n + 1),
              [Emit(h.sfm), Emit(h.mvgb), Bar], Loop(h.cmac, h.cmvsb, [], c, c + 1), b);
  }

  /** The score phases of a pair. */
  lemma PairScoresTimed(p: Params, h: Head, k: Head, itr: nat, n: nat, b: nat)
    requires p.Valid() && itr % 2 == 0 && !IsSolo(p, itr) && b == Base(p, itr) && n == p.Length()
    requires HeadLabelled(h, itr) && HeadLabelled(k, itr + 1) && |h.mvsb| == n == |k.mvsb|
    ensures var s := Loop(Groups(h.mac, n), h.mvsb, SpreadIn(k.wrgb, n, n), n, n + 1);
            Timed(p, s, b + 1) && Bars(s) == n
    ensures var s := Loop(Groups(k.mac, n), k.mvsb, SpreadBack(h.sfm, h.mvgb, n, n + 1), n, n + 1);
            Timed(p, s, b + 1 + n) && Bars(s) == n
  {
    hide InWindow, Labelled, Timed, Bars, Loop, Groups, ListsIn, Base, SpreadIn, SpreadBack, IsSolo, Params.Length, Params.Cols;
    FirstWindows(p, itr);
    SecondWindows(p, itr + 1);
    SpreadInIn(p, k.wrgb, itr + 1, n, n, b + 1);
    ScoreTimed(p, h, itr, SpreadIn(k.wrgb, n, n), n, b + 1);
    SpreadBackIn(p, h.sfm, h.mvgb, itr, n, n + 1, b + 1 + n);
    ScoreTimed(p, k, itr + 1, SpreadBack(h.sfm, h.mvgb, n, n + 1), n, b + 1 + n);
  }

  /** The context phases of a pair; the second one repeats the lists of the first head. */
  lemma PairContextsTimed(p: Params, h: Head, k: Head, itr: nat, c: nat, e: nat)
    requires p.Valid() && itr % 2 == 0 && !IsSolo(p, itr)
    requires e == Base(p, itr) + 1 + p.Length() + p.Length() && c == p.Cols() == |h.cmac| == |h.cmvsb|
    requires HeadLabelled(h, itr) && HeadLabelled(k, itr + 1)
    requires p.Length() == 0 ==> forall r :: 0 <= r < c ==> h.cmac[r] == []
    ensures var s := Loop(h.cmac, h.cmvsb, SpreadBack(k.sfm, k.mvgb, c, c + 1), c, c + 1);
            Timed(p, s, e) && Bars(s) == c
    ensures var s := Loop(ReplayMacs(h, itr + 1, c), ReplayOuts(h, itr + 1, c), [], c, c + 1);
            Timed(p, s, e + c) && Bars(s) == c
  {
    hide InWindow, Labelled, Timed, Bars, Loop, ListsIn, Base, SpreadBack, ReplayMacs, ReplayOuts, IsSolo, Params.Length, Params.Cols;
    FirstWindows(p, itr);
    SecondWindows(p, itr + 1);
    SpreadBackIn(p, k.sfm, k.mvgb, itr + 1, c, c + 1, e);
    ContextTimed(p, h, itr, SpreadBack(k.sfm, k.mvgb, c, c + 1), c, e);
    ReplayTimed(p, h, itr + 1, c, e + c);
  }

  lemma PairTimed(p: Params, itr: nat)
    requires p.Valid() && itr % 2 == 0 && !IsSolo(p, itr)
    ensures var s := Pair(HeadOf(p, itr), HeadOf(p, itr + 1), itr, DummyMacs(p, itr), p.Length(), p.Cols());
            Timed(p, s, Base(p, itr)) && Bars(s) == PairBars(p)
  {
    hide InWindow, Labelled, Timed, Bars, Loop, Groups, AllIn, Base, SpreadIn, SpreadBack, DummyMacs, ReplayMacs,
         ReplayOuts, HeadOf, IsSolo, Params.Length, Params.Cols;
    HeadOfLabelled(p, itr);
    HeadOfLabelled(p, itr + 1);
    FirstWindows(p, itr);
    HeadSizes(p, itr);
    HeadSizes(p, itr + 1);
    NoRowsNoContext(p, itr);
    var h, k, b, n, c := HeadOf(p, itr), HeadOf(p, itr + 1), Base(p, itr), p.Length(), p.Cols();
    var dummy := DummyMacs(p, itr);
    LabelledAllIn(p, h.wrgb, itr, ScoreIn, b);
    DummyIn(p, itr, b);
    TimedThree(p, h.wrgb, dummy, b);
    PairScoresTimed(p, h, k, itr, n, b);
    PairContextsTimed(p, h, k, itr, c, b + 1 + n + n);
    var s0 := [Emit(h.wrgb), Emit(dummy), Bar];
    var s1 := Loop(Groups(h.mac, n), h.mvsb, SpreadIn(k.wrgb, n, n), n, n + 1);
    var s2 := Loop(Groups(k.mac, n), k.mvsb, SpreadBack(h.sfm, h.mvgb, n, n + 1), n, n + 1);
    var s3 := Loop(h.cmac, h.cmvsb, SpreadBack(k.sfm, k.mvgb, c, c + 1), c, c + 1);
    var s4 := Loop(ReplayMacs(h, itr + 1, c), ReplayOuts(h, itr + 1, c), [], c, c + 1);
    TimedFour(p, s0, s1, s2, s3, b);
    TimedAppend(p, s0 + s1 + s2 + s3, s4, b);
  }

  lemma HeadSizes(p: Params, itr: nat)
    requires p.Valid()
    ensures var h := HeadOf(p, itr);
            |h.mac| == p.Rows() && |h.mvsb| == p.Length() && |h.cmac| == p.Cols() && |h.cmvsb| == p.Cols()
  {
  }

  /** Without score rows, the rows of the context are empty. */
  lemma NoRowsNoContext(p: Params, itr: nat)
    requires p.Valid()
    ensures p.Length() == 0 ==> forall r :: 0 <= r < |HeadOf(p, itr).cmac| ==> HeadOf(p, itr).cmac[r] == []
  {
    hide ScoreMacs, ScoreOuts, ContextOuts, PartLanes, Lanes, Params.Cols, Params.MvgbCols;
    if p.Length() == 0 {
      NestedCeil(p);
      EmptyContextRows(p, itr, p.Cols());
    }
  }

  lemma {:induction false} EmptyContextRows(p: Params, itr: nat, rows: nat)
    requires p.Rows() == 0
    ensures forall r :: 0 <= r < rows ==> ContextMacs(p, itr, rows)[r] == []
  {
    hide Params.Rows, Params.ValAddr, Params.ValidChannels;
    if rows == 0 {
    } else {
      EmptyContextRows(p, itr, rows - 1);
    }
  }

  lemma DummyIn(p: Params, itr: nat, e: nat)
    requires p.Valid()
    ensures AllIn(p, DummyMacs(p, itr), e)
  {
    var h := HeadOf(p, itr);
    DummyIsFree(p, 0, e);
    EmptyIn(p, e);
    hide InWindow, Labelled, AllIn, HeadOf;
    HeadOfLabelled(p, itr);
    if itr == 0 && |h.mac| > 0 && p.ValidChannels(0) <= |h.mac[0]| {
      PrefixLabelled(h.mac[0], 0, ScoreMac(0), p.ValidChannels(0));
      RelabelLabelled(h.mac[0][..p.ValidChannels(0)], 0, DummyMac, 0, ScoreMac(0));
      LabelledAllIn(p, DummyMacs(p, itr), 0, DummyMac, e);
    }
  }

  /** Every pair keeps to the windows, one after the other. */
  lemma {:induction false} PairsTimed(p: Params, k: nat)
    requires p.Valid() && 2 * k <= p.NumItr()
    ensures Timed(p, Pairs(p, k), 0) && Bars(Pairs(p, k)) == k * PairBars(p)
  {
    hide Timed, Bars, Pair, HeadOf, DummyMacs, PairBars, Params.NumItr, Params.Length, Params.Cols;
    if k == 0 {
      NoBars(p);
    } else {
      hide Base;
      var i := 2 * (k - 1);
      BaseOfPair(p, k - 1);
      MulStep(k - 1, PairBars(p));
      HeadSizes(p, i);
      PairsTimed(p, k - 1);
      PairTimed(p, i);
      TimedAppend(p, Pairs(p, k - 1),
                  Pair(HeadOf(p, i), HeadOf(p, i + 1), i, DummyMacs(p, i), p.Length(), p.Cols()), 0);
    }
  }

  lemma NoBars(p: Params)
    requires p.Valid()
    ensures Bars([]) == 0 && Timed(p, [], 0)
  {
  }

  lemma BaseOfPair(p: Params, k: nat)
    requires p.Valid()
    ensures Base(p, 2 * k) == k * PairBars(p)
  {
    assert (2 * k) / 2 == k;
  }

  /** The whole trace keeps to the windows. */
  lemma ScriptTimed(p: Params)
    requires p.Valid()
    ensures Timed(p, Script(p), 0)
  {
    hide Timed, Bars, Base, Pairs, Solo, HeadOf, PairBars, Params.NumItr, Params.Length, Params.Cols;
    var n := p.NumItr();
    PairsTimed(p, n / 2);
    if n % 2 == 0 {
      assert Script(p) == Pairs(p, n / 2);
    } else {
      assert n - 1 == 2 * (n / 2);
      BaseOfPair(p, n / 2);
      SoloTimed(p, n - 1);
      TimedAppend(p, Pairs(p, n / 2), Solo(HeadOf(p, n - 1), p.Length(), p.Cols()), 0);
    }
  }

  // ---- what the windows separate ---------------------------------------------------------

  /**
   * `y` reads what `x` produced: score MACs read the vector written by WR_GB, MV_SB drains
   * the MACs of its group and of earlier ones, the softmax is of all scores, and context MACs
   * read what MV_GB moved after it.
   */
  predicate MustFollow(x: Cmd, y: Cmd) {
    x.itr == y.itr && x.itr >= 0 &&
    match (x.role, y.role)
    case (ScoreIn, ScoreMac(_)) => true
    case (ScoreMac(r), ScoreOut(g)) => r / 16 <= g
    case (ScoreMac(_), Softmax) => true
    case (ScoreOut(_), ContextMac(_)) => true
    case (ScoreOut(_), ReplayMac(_)) => true
    case (Softmax, ContextMac(_)) => true
    case (Softmax, ReplayMac(_)) => true
    case (ContextIn, ContextMac(_)) => true
    case (ContextMac(r), ContextOut(q)) => r <= q
    case (ContextIn, ReplayMac(_)) => true
    case (ReplayMac(r), ReplayOut(q)) => r <= q
    case (_, _) => false
  }

  lemma WindowsOrdered(p: Params, x: Cmd, y: Cmd, ex: nat, ey: nat)
    requires p.Valid() && MustFollow(x, y)
    requires InWindow(p, x.itr, x.role, ex) && InWindow(p, y.itr, y.role, ey)
    ensures ex < ey
  {
    hide Base, Params.Length, Params.Cols, IsSolo;
  }

  /** What a timed script emits at step `t` is in its window. */
  lemma {:induction false} TimedAt(p: Params, s: seq<Step>, t: nat)
    requires p.Valid() && Timed(p, s, 0) && t < |s| && s[t].Emit?
    ensures AllIn(p, s[t].cmds, Bars(s[..t]))
  {
    hide AllIn;
    if t == |s| - 1 {
    } else {
      TimedAt(p, s[..|s| - 1], t);
      assert s[..|s| - 1][..t] == s[..t];
    }
  }

  /** Where the number of barriers grows, there is a barrier. */
  lemma {:induction false} BarsGap(s: seq<Step>, t: nat, v: nat) returns (u: nat)
    requires t <= |s| && v <= |s| && Bars(s[..t]) < Bars(s[..v])
    ensures t <= u < v && s[u] == Bar
  {
    if v <= t {
      BarsMonotone(s, v, t);
      assert false;
    } else {
      assert s[..v][..v - 1] == s[..v - 1];
      if s[v - 1] == Bar {
        u := v - 1;
      } else {
        u := BarsGap(s, t, v - 1);
      }
    }
  }

  lemma {:induction false} BarsMonotone(s: seq<Step>, t: nat, v: nat)
    requires t <= v <= |s|
    ensures Bars(s[..t]) <= Bars(s[..v])
  {
    if t >= v {
    } else {
      BarsMonotone(s, t, v - 1);
      assert s[..v][..v - 1] == s[..v - 1];
    }
  }

  /** A barrier, or a command that an emitting step emits in its window. */
  lemma LocateStep(p: Params, total: seq<Cmd>, pos: nat) returns (t: nat, a: nat)
    requires p.Valid() && total == Commands(p) && pos < |total|
    ensures var s := Script(p);
            && t < |s| && pos == Offset(s, t) + a && a < |CmdsOf(s[t])| && CmdsOf(s[t])[a] == total[pos]
            && (s[t] == Bar ==> exists c :: 0 <= c < N_CHANNEL && total[pos] == BarrierOf(c))
            && (s[t].Emit? ==> Works(total[pos]) && InWindow(p, total[pos].itr, total[pos].role, Bars(s[..t])))
  {
    hide Script, Timed, InWindow, Bars, Flatten, Offset, BarrierOf;
    var s := Script(p);
    ScriptTimed(p);
    OffsetAll(s);
    t := StepAt(s, |s|, pos);
    a := pos - Offset(s, t);
    if s[t] == Bar {
      BarrierLane(a);
    } else {
      TimedAt(p, s, t);
    }
  }

  /** A command that belongs to an iteration comes from an emitting step, in its window. */
  lemma LocateCommand(p: Params, total: seq<Cmd>, pos: nat) returns (t: nat, a: nat)
    requires p.Valid() && total == Commands(p) && pos < |total| && total[pos].itr >= 0
    ensures var s := Script(p);
            t < |s| && s[t].Emit? && a < |s[t].cmds| && s[t].cmds[a] == total[pos] && pos == Offset(s, t) + a &&
            InWindow(p, total[pos].itr, total[pos].role, Bars(s[..t]))
  {
    hide Script, InWindow, Bars, Flatten, Offset, Commands;
    t, a := LocateStep(p, total, pos);
  }

  /** A trace holds nothing but PIM requests, each of the type its role calls for. */
  lemma OnlyPimCommands(p: Params, total: seq<Cmd>, pos: nat)
    requires p.Valid() && total == Commands(p) && pos < |total|
    ensures IsPim(total[pos].kind) && Serves(total[pos].kind, total[pos].role)
    ensures total[pos].itr >= 0 ==> total[pos].kind != PimBarrier
  {
    hide Script, InWindow, Bars, Flatten, Offset, Commands;
    var t, a := LocateStep(p, total, pos);
  }

  lemma OffsetAll(s: seq<Step>)
    ensures Offset(s, |s|) == |Flatten(s)|
  {
    assert s[..|s|] == s;
  }

  /**
   * Every trace of every generator is free of hazards: between a command and one that must
   * follow it stands a barrier of every channel.
   */
  lemma HazardFree(p: Params, total: seq<Cmd>, i: nat, j: nat, c: nat) returns (m: nat)
    requires p.Valid() && total == Commands(p) && c < N_CHANNEL
    requires i < |total| && j < |total| && MustFollow(total[i], total[j])
    ensures i < m < j && total[m] == BarrierOf(c)
  {
    hide Script, Bars, Flatten, Offset, InWindow;
    var s := Script(p);
    var t, a := LocateCommand(p, total, i);
    var v, b := LocateCommand(p, total, j);
    WindowsOrdered(p, total[i], total[j], Bars(s[..t]), Bars(s[..v]));
    var u := BarsGap(s, t, v);
    m := BarBetween(s, t, u, v, a, b, c);
  }

  /** The context commands of the second head of a pair are never emitted: its turn repeats the first head's. */
  lemma SecondContextNeverEmitted(p: Params, total: seq<Cmd>, i: nat)
    requires p.Valid() && total == Commands(p) && i < |total|
    ensures total[i].itr >= 0 && total[i].itr % 2 == 1 ==> !total[i].role.ContextMac? && !total[i].role.ContextOut?
  {
    hide Commands, Script, Offset, Bars, Base, Params.Length, Params.Cols;
    if total[i].itr >= 0 {
      var t, a := LocateCommand(p, total, i);
    }
  }

  // ---- what no barrier separates ---------------------------------------------------------

  /** A barrier of channel `c` stands between two positions. */
  ghost predicate Separated(total: seq<Cmd>, i: nat, j: nat, c: nat) {
    exists m :: i < m < j && m < |total| && total[m] == BarrierOf(c)
  }

  /** A position between two others belongs to a step between their steps. */
  lemma StepBetween(s: seq<Step>, t: nat, u: nat, v: nat, a: nat, k: nat, b: nat)
    requires t < |s| && u < |s| && v < |s| && a < |CmdsOf(s[t])| && k < |CmdsOf(s[u])| && b < |CmdsOf(s[v])|
    requires Offset(s, t) + a < Offset(s, u) + k < Offset(s, v) + b
    ensures t <= u <= v
  {
    hide Offset, CmdsOf;
    OffsetNext(s, u);
    OffsetNext(s, v);
    if u < t {
      OffsetMonotone(s, u + 1, t);
      assert false;
    }
    if v < u {
      OffsetMonotone(s, v + 1, u);
      assert false;
    }
  }

  /** A barrier separates two commands exactly when more barriers come before the second. */
  lemma SeparatedByBars(p: Params, total: seq<Cmd>, i: nat, j: nat, c: nat) returns (ei: nat, ej: nat)
    requires p.Valid() && total == Commands(p) && c < N_CHANNEL
    requires i < |total| && j < |total| && total[i].itr >= 0 && total[j].itr >= 0
    ensures InWindow(p, total[i].itr, total[i].role, ei) && InWindow(p, total[j].itr, total[j].role, ej)
    ensures Separated(total, i, j, c) <==> ei < ej
  {
    hide Script, Bars, Flatten, Offset, InWindow, BarrierOf;
    var s := Script(p);
    var t, a := LocateCommand(p, total, i);
    var v, b := LocateCommand(p, total, j);
    ei, ej := Bars(s[..t]), Bars(s[..v]);
    if ei < ej {
      var u := BarsGap(s, t, v);
      var m := BarBetween(s, t, u, v, a, b, c);
    }
    if Separated(total, i, j, c) {
      var m :| i < m < j && m < |total| && total[m] == BarrierOf(c);
      BarCounts(p, total, i, m, j, t, v, a, b, c);
    }
  }

  lemma BarCounts(p: Params, total: seq<Cmd>, i: nat, m: nat, j: nat, t: nat, v: nat, a: nat, b: nat, c: nat)
    requires p.Valid() && total == Commands(p) && i < m < j < |total| && total[m] == BarrierOf(c)
    requires var s := Script(p);
             && t < |s| && s[t].Emit? && a < |s[t].cmds| && i == Offset(s, t) + a
             && v < |s| && s[v].Emit? && b < |s[v].cmds| && j == Offset(s, v) + b
    ensures Bars(Script(p)[..t]) < Bars(Script(p)[..v])
  {
    hide Script, Bars, Flatten, Offset, InWindow, Commands;
    var s := Script(p);
    var u, k := LocateStep(p, total, m);
    StepBetween(s, t, u, v, a, k, b);
    BarsMonotone(s, t, u);
    BarsNext(s, u);
    BarsMonotone(s, u + 1, v);
  }

  lemma BarsNext(s: seq<Step>, u: nat)
    requires u < |s| && s[u] == Bar
    ensures Bars(s[..u + 1]) == Bars(s[..u]) + 1
  {
    assert s[..u + 1][..u] == s[..u];
  }

  /** Between the MV_SB of a group of scores and the softmax stands a barrier, except for the last group. */
  lemma SoftmaxAfterOuts(p: Params, total: seq<Cmd>, i: nat, j: nat, c: nat)
    requires p.Valid() && total == Commands(p) && c < N_CHANNEL && i < |total| && j < |total|
    requires total[i].role.ScoreOut? && total[j].role == Softmax && total[i].itr == total[j].itr >= 0
    ensures total[i].role.group < p.Length()
    ensures Separated(total, i, j, c) <==> total[i].role.group + 1 < p.Length()
  {
    hide Commands, Base, IsSolo, Params.Length, Params.Cols, Separated;
    var ei, ej := SeparatedByBars(p, total, i, j, c);
  }

  /** Whether MV_GB starts only after a barrier: with a partner, when the loop that emits it has two passes or more. */
  predicate LateMvgb(p: Params, itr: nat)
    requires p.Valid()
  {
    if itr % 2 == 1 then p.Cols() >= 2 else !IsSolo(p, itr) && p.Length() >= 2
  }

  /** Between the softmax and the MV_GB of its iteration stands a barrier exactly in that case. */
  lemma MvgbAfterSoftmax(p: Params, total: seq<Cmd>, i: nat, j: nat, c: nat)
    requires p.Valid() && total == Commands(p) && c < N_CHANNEL && i < |total| && j < |total|
    requires total[i].role == Softmax && total[j].role == ContextIn && total[i].itr == total[j].itr >= 0
    ensures Separated(total, i, j, c) <==> LateMvgb(p, total[i].itr)
  {
    hide Commands, Base, IsSolo, Params.Length, Params.Cols, Separated;
    var ei, ej := SeparatedByBars(p, total, i, j, c);
  }
}
