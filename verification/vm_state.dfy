// State of the demand-paged memory simulator: physical frames, frame table,
// process table, swap store, and the outcomes an operation can have.
module VmState {
  import opened Basics

  type Byte = b: int | 0 <= b < 256 witness 0

  /** Outcomes of an operation: a value, the panics of the source, or a step whose effect
      C leaves undefined (an index out of range, page-table bytes read as data or the reverse). */
  datatype Result<+T> = Ok(value: T) | OutOfMemory | BadSwapEntry | Undefined {
    predicate IsFailure() { !Ok? }
    function PropagateFailure<U>(): Result<U>
      requires !Ok?
    {
      match this
      case OutOfMemory => OutOfMemory
      case BadSwapEntry => BadSwapEntry
      case Undefined => Undefined
    }
    function Extract(): T
      requires Ok?
    {
      value
    }
  }

  datatype Pte = Pte(valid: bool, dirty: bool, pfn: nat, swap: nat)

  datatype Fte = Fte(protected_: bool, mapped: bool, referenced: bool, process: nat, vpn: nat)

  /** One physical frame: untouched, a page table, or the bytes of a data page. */
  datatype Frame = Raw | Table(entries: seq<Pte>) | Data(bytes: seq<Byte>)

  datatype Pcb = Pcb(running: bool, ptbr: nat)

  datatype Stats = Stats(writeCount: nat, readCount: nat, accesses: nat, pageFaults: nat, writebacks: nat)

  /** NUM_FRAMES, NUM_PAGES and PAGE_SIZE. */
  datatype Geometry = Geometry(frames: nat, pages: nat, pageSize: nat)

  /** `swap` maps the tokens of the swap list to their pages; `nextToken` is TOKEN. */
  datatype Vm = Vm(
    geo: Geometry,
    ft: seq<Fte>,
    mem: seq<Frame>,
    procs: seq<Pcb>,
    current: Option<nat>,
    ptbr: nat,
    swap: map<nat, seq<Byte>>,
    nextToken: nat,
    stats: Stats)

  const FREE_PTE: Pte := Pte(false, false, 0, 0)
  const FREE_FTE: Fte := Fte(false, false, false, 0, 0)

  function Zeros(n: nat): seq<Byte> { seq(n, _ => 0) }

  function EmptyTable(n: nat): seq<Pte> { seq(n, _ => FREE_PTE) }

  predicate Running(s: Vm, p: nat) {
    p < |s.procs| && s.procs[p].running
  }

  /** Frame f can be read as a page table that has an entry v. */
  predicate HasEntry(s: Vm, f: nat, v: nat) {
    f < |s.mem| && s.mem[f].Table? && v < |s.mem[f].entries|
  }

  function PteAt(s: Vm, f: nat, v: nat): Pte
    requires HasEntry(s, f, v)
  {
    s.mem[f].entries[v]
  }

  function SetPte(s: Vm, f: nat, v: nat, e: Pte): Vm
    requires HasEntry(s, f, v)
  {
    s.(mem := s.mem[f := Table(s.mem[f].entries[v := e])])
  }

  function SetFte(s: Vm, f: nat, e: Fte): Vm
    requires f < |s.ft|
  {
    s.(ft := s.ft[f := e])
  }
}
