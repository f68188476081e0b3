/** The linear address mappers: slicing an address into hierarchy levels, and back. */
module AddrMapper {
  import opened Arith
  import opened PimTypes

  /** Address bits per level. */
  type Bits = b: seq<nat> | |b| == LEVELS witness [0, 0, 0, 0, 0, 0, 0]

  /** A list of levels, lowest address bits first. */
  type Order = o: seq<nat> | forall i :: 0 <= i < |o| ==> o[i] < LEVELS witness []

  /** Slice the levels of `order` off the address. */
  function Slice(bits: Bits, order: Order, addr: int, vec: AddrVec): AddrVec {
    if order == [] then vec
    else
      var l := order[0];
      Slice(bits, order[1..], addr / Pow2(bits[l]), vec[l := addr % Pow2(bits[l])])
  }

  /** The address that has the given coordinates. */
  function Compose(bits: Bits, order: Order, vec: AddrVec): int {
    if order == [] then 0
    else vec[order[0]] + Pow2(bits[order[0]]) * Compose(bits, order[1..], vec)
  }

  /** How many addresses the levels of `order` tell apart. */
  function Capacity(bits: Bits, order: Order): (c: nat)
    ensures c > 0
  {
    if order == [] then 1 else Pow2(bits[order[0]]) * Capacity(bits, order[1..])
  }

  ghost predicate Distinct(order: Order) {
    forall i, j :: 0 <= i < j < |order| ==> order[i] != order[j]
  }

  ghost predicate InRange(bits: Bits, order: Order, vec: AddrVec) {
    forall i :: 0 <= i < |order| ==> 0 <= vec[order[i]] < Pow2(bits[order[i]])
  }

  /** Slicing touches only the levels it slices. */
  lemma {:induction false} SliceFrame(bits: Bits, order: Order, addr: int, vec: AddrVec, l: nat)
    requires l < LEVELS && l !in order
    ensures Slice(bits, order, addr, vec)[l] == vec[l]
  {
    if order == [] {
    } else {
      SliceFrame(bits, order[1..], addr / Pow2(bits[order[0]]), vec[order[0] := addr % Pow2(bits[order[0]])], l);
    }
  }

  /** Each slice has the width of its level. */
  lemma {:induction false} SliceInRange(bits: Bits, order: Order, addr: int, vec: AddrVec)
    requires Distinct(order)
    ensures InRange(bits, order, Slice(bits, order, addr, vec))
  {
    if order == [] {
    } else {
      var l := order[0];
      var vec' := vec[l := addr % Pow2(bits[l])];
      SliceInRange(bits, order[1..], addr / Pow2(bits[l]), vec');
      SliceFrame(bits, order[1..], addr / Pow2(bits[l]), vec', l);
    }
  }

  /** One step of the round trip below: the first slice is the remainder, the rest the quotient. */
  lemma ComposeFirst(bits: Bits, order: Order, addr: nat, vec: AddrVec)
    requires Distinct(order) && order != []
    ensures var p := Pow2(bits[order[0]]);
            var vec' := vec[order[0] := addr % p];
            Compose(bits, order, Slice(bits, order, addr, vec)) ==
            addr % p + p * Compose(bits, order[1..], Slice(bits, order[1..], addr / p, vec'))
  {
    var p := Pow2(bits[order[0]]);
    SliceFrame(bits, order[1..], addr / p, vec[order[0] := addr % p], order[0]);
  }

  lemma CapacityFirst(bits: Bits, order: Order, addr: nat)
    requires order != [] && addr < Capacity(bits, order)
    ensures 0 <= addr / Pow2(bits[order[0]]) < Capacity(bits, order[1..])
  {
    var p, c := Pow2(bits[order[0]]), Capacity(bits, order[1..]);
    assert Capacity(bits, order) == p * c;
    hide *;
    DivLess(addr, p, c);
  }

  /** Composing the slices of an address below the capacity gives the address. */
  lemma {:induction false} ComposeSlice(bits: Bits, order: Order, addr: nat, vec: AddrVec)
    requires Distinct(order) && addr < Capacity(bits, order)
    ensures Compose(bits, order, Slice(bits, order, addr, vec)) == addr
  {
    if order == [] {
    } else {
      var l := order[0];
      var p := Pow2(bits[l]);
      ComposeFirst(bits, order, addr, vec);
      CapacityFirst(bits, order, addr);
      assert Distinct(order[1..]);
      hide *;
      ComposeSlice(bits, order[1..], addr / p, vec[l := addr % p]);
      DivMod(addr, p);
    }
  }

  /** Slicing a composed address gives the coordinates. */
  lemma {:induction false} SliceCompose(bits: Bits, order: Order, v: AddrVec, vec: AddrVec)
    requires Distinct(order) && InRange(bits, order, v)
    ensures 0 <= Compose(bits, order, v) < Capacity(bits, order)
    ensures forall i :: 0 <= i < |order| ==>
              Slice(bits, order, Compose(bits, order, v), vec)[order[i]] == v[order[i]]
  {
    if order == [] {
    } else {
      var l := order[0];
      var p, rest := Pow2(bits[l]), Compose(bits, order[1..], v);
      assert InRange(bits, order[1..], v);
      SliceCompose(bits, order[1..], v, vec[l := v[l]]);
      DivModUnique(v[l], p, rest);
      SliceFrame(bits, order[1..], rest, vec[l := v[l]], l);
      MulLess(v[l], Capacity(bits, order[1..]), p, rest);
      forall i | 0 <= i < |order|
        ensures Slice(bits, order, Compose(bits, order, v), vec)[order[i]] == v[order[i]]
      {
        if i > 0 {
          assert order[i] == order[1..][i - 1];
        }
      }
    }
  }

  // ---- the mappers -----------------------------------------------------------------------

  const UNMAPPED: AddrVec := [-1, -1, -1, -1, -1, -1, -1]

  /** Levels from the lowest address bits up: column, row, bank, bank group, rank, pseudochannel, channel. */
  const HBM3_PIM_ORDER: Order := [6, 5, 4, 3, 2, 1, 0]
  const HBM3_PIM_CUSTOM_ORDER: Order := [0, 6, 5, 4, 3, 2, 1]
  const HBM3_CUSTOM_ORDER: Order := [0, 1, 3, 6, 2, 4, 5]

  /** Every level exactly once. */
  ghost predicate Complete(order: Order) {
    Distinct(order) && forall l: nat :: l < LEVELS ==> l in order
  }

  lemma MapperOrders()
    ensures Complete(HBM3_PIM_ORDER) && Complete(HBM3_PIM_CUSTOM_ORDER) && Complete(HBM3_CUSTOM_ORDER)
  {
  }

  /** What a mapper that slices in `order` makes of a byte address. */
  function MapAddr(bits: Bits, txOffset: nat, order: Order, addr: int): (v: AddrVec)
  {
    Slice(bits, order, addr / Pow2(txOffset), UNMAPPED)
  }

  function UnmapAddr(bits: Bits, txOffset: nat, order: Order, v: AddrVec): int
  {
    Pow2(txOffset) * Compose(bits, order, v)
  }

  /** A mapper loses nothing of an aligned address below its capacity. */
  lemma UnmapMap(bits: Bits, txOffset: nat, order: Order, a: nat)
    requires Complete(order) && a < Capacity(bits, order)
    ensures var v := MapAddr(bits, txOffset, order, Pow2(txOffset) * a);
            InRange(bits, order, v) && UnmapAddr(bits, txOffset, order, v) == Pow2(txOffset) * a
  {
    DivModUnique(0, Pow2(txOffset), a);
    ComposeSlice(bits, order, a, UNMAPPED);
    SliceInRange(bits, order, a, UNMAPPED);
  }

  /** Every coordinate in range is the image of an aligned address below the capacity. */
  lemma MapUnmap(bits: Bits, txOffset: nat, order: Order, v: AddrVec)
    requires Complete(order) && InRange(bits, order, v)
    ensures var a := UnmapAddr(bits, txOffset, order, v);
            0 <= a < Pow2(txOffset) * Capacity(bits, order) && a % Pow2(txOffset) == 0 &&
            MapAddr(bits, txOffset, order, a) == v
  {
    var t, c := Pow2(txOffset), Compose(bits, order, v);
    SliceCompose(bits, order, v, UNMAPPED);
    DivModUnique(0, t, c);
    MulLess(0, Capacity(bits, order), t, c);
    forall l: nat | l < LEVELS
      ensures Slice(bits, order, c, UNMAPPED)[l] == v[l]
    {
      assert l in order;
      var i :| 0 <= i < |order| && order[i] == l;
      assert Slice(bits, order, c, UNMAPPED)[order[i]] == v[order[i]];
    }
  }

  /** calc_log2: the number of bits below the highest one. */
  method CalcLog2(val: nat) returns (n: nat)
    ensures val > 0 ==> Pow2(n) <= val < 2 * Pow2(n)
    ensures val == 0 ==> n == 0
  {
    n := 0;
    var v: nat := val / 2;
    assert Pow2(1) == 2 * Pow2(0) == 2;
    while v != 0
      invariant Brackets(v, n, val)
      invariant if val == 0 then v == 0 && n == 0 else Pow2(n) <= val
    {
      hide Brackets;
      BracketStep(v, n, val);
      n := n + 1;
      v := v / 2;
    }
  }

  /** What is left of `val` after n + 1 halvings is `v`. */
  ghost predicate Brackets(v: nat, n: nat, val: nat) {
    v * Pow2(n + 1) <= val < (v + 1) * Pow2(n + 1)
  }

  lemma BracketStep(v: nat, n: nat, val: nat)
    requires Brackets(v, n, val) && v != 0
    ensures Brackets(v / 2, n + 1, val) && Pow2(n + 1) <= val
  {
    var p := Pow2(n + 1);
    assert Pow2(n + 2) == 2 * p;
    hide Pow2;
    HalfStep(v, p, val);
    MulAtLeast(v, p);
  }

  /** One slice from position `k` of the order on. */
  lemma SliceStep(bits: Bits, order: Order, k: nat, addr: int, vec: AddrVec)
    requires k < |order|
    ensures Slice(bits, order[k..], addr, vec) ==
            Slice(bits, order[k + 1..], addr / Pow2(bits[order[k]]), vec[order[k] := addr % Pow2(bits[order[k]])])
  {
    assert order[k..][1..] == order[k + 1..];
  }

  class LinearMapper {
    var addrBits: Bits
    var txOffset: nat

    constructor () {
      addrBits, txOffset := [0, 0, 0, 0, 0, 0, 0], 0;
    }

    /** Address bits per level from the organization; exact when every count is a power of two. */
    method Setup(count: seq<nat>, prefetchSize: nat, channelWidth: nat)
      requires |count| == LEVELS && forall l :: 0 <= l < LEVELS ==> count[l] > 0
      modifies this
      ensures forall l :: 0 <= l < LEVELS ==> Pow2(addrBits[l]) <= count[l] < 2 * Pow2(addrBits[l])
      ensures var bytes := prefetchSize * channelWidth / 8;
              bytes > 0 ==> Pow2(txOffset) <= bytes < 2 * Pow2(txOffset)
    {
      var bits: seq<nat> := [];
      for level := 0 to LEVELS
        invariant |bits| == level
        invariant forall l :: 0 <= l < level ==> Pow2(bits[l]) <= count[l] < 2 * Pow2(bits[l])
      {
        var b := CalcLog2(count[level]);
        bits := bits + [b];
      }
      addrBits := bits;
      txOffset := CalcLog2(prefetchSize * channelWidth / 8);
    }

    /** slice_lower_bits: the slice, and the address without it. */
    method SliceLowerBits(addr: int, bits: nat) returns (lower: int, rest: int)
      ensures lower == addr % Pow2(bits) && rest == addr / Pow2(bits)
    {
      lower, rest := addr % Pow2(bits), addr / Pow2(bits);
    }

    /** HBM3-PIM and HBM3-Base: from the column up to the channel. */
    method ApplyPim(req: Request) returns (mapped: Request)
      ensures mapped == req.(addrVec := MapAddr(addrBits, txOffset, HBM3_PIM_ORDER, req.addr))
    {
      var vec: AddrVec := UNMAPPED;
      var addr := req.addr / Pow2(txOffset);
      var i := LEVELS;
      while i > 0
        invariant 0 <= i <= LEVELS
        invariant Slice(addrBits, HBM3_PIM_ORDER, req.addr / Pow2(txOffset), UNMAPPED) ==
                  Slice(addrBits, HBM3_PIM_ORDER[LEVELS - i..], addr, vec)
      {
        i := i - 1;
        assert HBM3_PIM_ORDER[6 - i] == i;
        SliceStep(addrBits, HBM3_PIM_ORDER, 6 - i, addr, vec);
        var lower, rest := SliceLowerBits(addr, addrBits[i]);
        vec, addr := vec[i := lower], rest;
      }
      mapped := req.(addrVec := vec);
    }

    /** HBM3-PIM-Custom: the channel first, then from the column up. */
    method ApplyPimCustom(req: Request) returns (mapped: Request)
      ensures mapped == req.(addrVec := MapAddr(addrBits, txOffset, HBM3_PIM_CUSTOM_ORDER, req.addr))
    {
      var vec: AddrVec := UNMAPPED;
      var addr := req.addr / Pow2(txOffset);
      SliceStep(addrBits, HBM3_PIM_CUSTOM_ORDER, 0, addr, vec);
      var lower, rest := SliceLowerBits(addr, addrBits[0]);
      vec, addr := vec[0 := lower], rest;
      var i := LEVELS - 1;
      while i >= 1
        invariant 0 <= i <= 6
        invariant Slice(addrBits, HBM3_PIM_CUSTOM_ORDER, req.addr / Pow2(txOffset), UNMAPPED) ==
                  Slice(addrBits, HBM3_PIM_CUSTOM_ORDER[7 - i..], addr, vec)
      {
        assert HBM3_PIM_CUSTOM_ORDER[7 - i] == i;
        SliceStep(addrBits, HBM3_PIM_CUSTOM_ORDER, 7 - i, addr, vec);
        lower, rest := SliceLowerBits(addr, addrBits[i]);
        vec, addr := vec[i := lower], rest;
        i := i - 1;
      }
      mapped := req.(addrVec := vec);
    }

    /** HBM3-Custom: channel, pseudochannel, bank group, column, rank, bank, row. */
    method ApplyCustom(req: Request) returns (mapped: Request)
      ensures mapped == req.(addrVec := MapAddr(addrBits, txOffset, HBM3_CUSTOM_ORDER, req.addr))
    {
      var vec: AddrVec := UNMAPPED;
      var addr := req.addr / Pow2(txOffset);
      for k := 0 to LEVELS
        invariant Slice(addrBits, HBM3_CUSTOM_ORDER, req.addr / Pow2(txOffset), UNMAPPED) ==
                  Slice(addrBits, HBM3_CUSTOM_ORDER[k..], addr, vec)
      {
        SliceStep(addrBits, HBM3_CUSTOM_ORDER, k, addr, vec);
        var l := HBM3_CUSTOM_ORDER[k];
        var lower, rest := SliceLowerBits(addr, addrBits[l]);
        vec, addr := vec[l := lower], rest;
      }
      mapped := req.(addrVec := vec);
    }
  }
}
