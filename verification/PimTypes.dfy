/** Requests, DRAM commands and the DRAM device as the memory controller sees it. */
module PimTypes {

  datatype Option<+T> = None | Some(value: T)

  /** Request types, in the order of the device's request table. */
  datatype ReqType =
    | Read | Write | AllBankRefresh | PerBankRefresh
    | PimMacAb | PimMacSb | PimMacPb
    | PimWrGb | PimMvSb | PimMvGb | PimSfm | PimSetModel | PimSetHead | PimBarrier

  /** DRAM and PIM commands. `Unset` is the value -1 of a request that was never examined. */
  datatype Command =
    | ACT | PRE | PREA | PRESB | PREPB | RD | WR | REFab | REFsb
    | ACTAB | ACTSB | ACTPB | MACAB | MACSB | MACPB
    | WRGB | MVSB | MVGB | SFM | SETM | SETH | BARRIER
    | Unset

  /** Commands that open a row. BARRIER has no row in the metadata table and is neither. */
  predicate IsOpening(c: Command) {
    c in {ACT, ACTAB, ACTSB, ACTPB}
  }

  /** Commands that close a row. */
  predicate IsClosing(c: Command) {
    c in {PRE, PREA, PRESB, PREPB}
  }

  /** The command that finally serves a request of type `t`. */
  function Translate(t: ReqType): Command {
    match t
    case Read => RD
    case Write => WR
    case AllBankRefresh => REFab
    case PerBankRefresh => REFsb
    case PimMacAb => MACAB
    case PimMacSb => MACSB
    case PimMacPb => MACPB
    case PimWrGb => WRGB
    case PimMvSb => MVSB
    case PimMvGb => MVGB
    case PimSfm => SFM
    case PimSetModel => SETM
    case PimSetHead => SETH
    case PimBarrier => BARRIER
  }

  /** The types that `send` routes to the PIM buffer. */
  predicate IsPim(t: ReqType) {
    t !in {Read, Write, AllBankRefresh, PerBankRefresh}
  }

  /** Channel, pseudochannel, rank, bank group, bank, row, column. */
  const LEVELS: nat := 7
  const ROW_LEVEL: nat := 5
  type AddrVec = v: seq<int> | |v| == LEVELS witness [0, 0, 0, 0, 0, 0, 0]

  /** The levels above the row: which bank the address lies in. */
  function BankOf(v: AddrVec): seq<int> {
    v[..ROW_LEVEL]
  }

  /**
   * `id` is the position of the request in the trace (-1 - p for the refreshes of
   * pseudochannel p); it only serves accounting, no decision ever reads it.
   */
  datatype Request = Request(
    addr: int, addrVec: AddrVec, kind: ReqType, id: int,
    arrive: int, depart: int, command: Command, finalCommand: Command)

  /** What accounting remembers of a request: the part that no step rewrites. */
  datatype Entry = Entry(id: int, kind: ReqType)

  function Key(r: Request): Entry {
    Entry(r.id, r.kind)
  }

  function Keys(buf: seq<Request>): (ks: seq<Entry>)
    ensures |ks| == |buf|
    ensures forall i :: 0 <= i < |buf| ==> ks[i] == Key(buf[i])
  {
    seq(|buf|, i requires 0 <= i < |buf| => Key(buf[i]))
  }

  function RemoveAt<T>(s: seq<T>, k: nat): (r: seq<T>)
    requires k < |s|
    ensures |r| == |s| - 1
    ensures forall i :: 0 <= i < |r| ==> r[i] == if i < k then s[i] else s[i + 1]
  {
    s[..k] + s[k + 1..]
  }

  /** One command given to the device. */
  datatype Issue = Issue(clk: int, command: Command, addrVec: AddrVec)

  /**
   * The DRAM device of one channel. What it answers may depend in any way on the
   * commands issued to the channel so far and on the clock, so every theorem below
   * holds for every deterministic device.
   */
  datatype Device = Device(
    preq: (seq<Issue>, int, Command, AddrVec) -> Command,
    ready: (seq<Issue>, int, Command, AddrVec) -> bool,
    rowHit: (seq<Issue>, int, Command, AddrVec) -> bool)

  lemma RemoveAtMultiset<T>(s: seq<T>, k: nat)
    requires k < |s|
    ensures multiset(s) == multiset(RemoveAt(s, k)) + multiset{s[k]}
  {
    assert s == s[..k] + [s[k]] + s[k + 1..];
  }

  lemma KeysRemoveAt(buf: seq<Request>, k: nat)
    requires k < |buf|
    ensures Keys(RemoveAt(buf, k)) == RemoveAt(Keys(buf), k)
    ensures multiset(Keys(buf)) == multiset(Keys(RemoveAt(buf, k))) + multiset{Key(buf[k])}
  {
    assert Keys(RemoveAt(buf, k)) == RemoveAt(Keys(buf), k);
    RemoveAtMultiset(Keys(buf), k);
  }

  lemma KeysAppend(buf: seq<Request>, r: Request)
    ensures Keys(buf + [r]) == Keys(buf) + [Key(r)]
    ensures multiset(Keys(buf + [r])) == multiset(Keys(buf)) + multiset{Key(r)}
  {
    assert Keys(buf + [r]) == Keys(buf) + [Key(r)];
  }
}
