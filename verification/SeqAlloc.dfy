/** Reserve-ahead sequence allocation (`internal/events/seqalloc.go`).

    A process hands out sequence numbers from a block it has first made durable in a
    one-integer state file.  `AfterNext` and `AfterClose` are what one call does to the
    state file and to the two in-memory fields; `SeqAllocator` is the object whose methods
    do it in place.  `Step` and `Run` put calls, failed writes, crashes and restarts in an
    arbitrary order, and the lemmas speak about every such run. */
module SeqAlloc {
  import opened Common

  const DEFAULT_BLOCK := 256

  /** The state file as `loadSeqState` can find it. */
  datatype Cell = Absent | Blank | Number(v: int) | Garbage | Unreadable

  /** The high-water mark a start reads, or None where `loadSeqState` returns an error. */
  function Load(c: Cell): (hi: Option<int>)
    ensures hi.Some? ==> hi.value >= 0
  {
    match c
    case Absent => Some(0)
    case Blank => Some(0)
    case Number(v) => if v < 0 then None else Some(v)
    case Garbage => None
    case Unreadable => None
  }

  /** The in-memory half of an allocator. */
  datatype Alloc = Alloc(next: int, reservedHi: int, block: int)

  /** What `NewSeqAllocator` builds. */
  function Open(c: Cell, block: int): (a: Option<Alloc>)
    ensures a.Some? <==> Load(c).Some?
    ensures a.Some? ==> Sound(c, a.value) && a.value.next == a.value.reservedHi + 1
  {
    match Load(c)
    case None => None
    case Some(hi) => Some(Alloc(hi + 1, hi, if block <= 0 then DEFAULT_BLOCK else block))
  }

  /** Memory never runs ahead of the state file. */
  predicate Sound(c: Cell, a: Alloc) {
    Load(c) == Some(a.reservedHi) && 1 <= a.next <= a.reservedHi + 1 && a.block > 0
  }

  /** One call of `Next`; `wrote` says whether the state file accepts a write. */
  function AfterNext(c: Cell, a: Alloc, wrote: bool): (r: (Cell, Alloc, Option<int>))
  {
    if a.next > a.reservedHi then
      if wrote then
        (Number(a.reservedHi + a.block),
         a.(next := a.next + 1, reservedHi := a.reservedHi + a.block),
         Some(a.next))
      else
        (c, a, None)
    else
      (c, a.(next := a.next + 1), Some(a.next))
  }

  /** One call of `Close`; the third component is whether it returned without an error. */
  function AfterClose(c: Cell, a: Alloc, wrote: bool): (r: (Cell, Alloc, bool))
  {
    var used := if a.next - 1 < 0 then 0 else a.next - 1;
    if used == a.reservedHi then (c, a, true)
    else if wrote then (Number(used), a.(reservedHi := used), true)
    else (c, a, false)
  }

  /** The state file, written by temp file and rename: a failed write leaves the old value. */
  class StateFile {
    var cell: Cell

    constructor (c: Cell)
      ensures cell == c
    {
      cell := c;
    }

    method WriteAtomic(hi: int, wrote: bool) returns (ok: bool)
      modifies this
      ensures ok == wrote
      ensures cell == if wrote then Number(hi) else old(cell)
    {
      if wrote {
        cell := Number(hi);
      }
      ok := wrote;
    }
  }

  class SeqAllocator {
    const file: StateFile
    const block: int
    var next: int
    var reservedHi: int

    ghost predicate Valid()
      reads this, file
    {
      Sound(file.cell, View())
    }

    function View(): (a: Alloc)
      reads this
    {
      Alloc(next, reservedHi, block)
    }

    /** `NewSeqAllocator` on a state file that loads; a file that does not load yields no object. */
    constructor (file: StateFile, blockSize: int)
      requires Load(file.cell).Some?
      ensures Valid() && this.file == file
      ensures Some(View()) == Open(file.cell, blockSize)
    {
      this.file := file;
      block := if blockSize <= 0 then DEFAULT_BLOCK else blockSize;
      reservedHi := Load(file.cell).value;
      next := Load(file.cell).value + 1;
    }

    method Next(wrote: bool) returns (seqNo: Option<int>)
      requires Valid()
      modifies this, file
      ensures Valid()
      ensures (file.cell, View(), seqNo) == AfterNext(old(file.cell), old(View()), wrote)
      ensures seqNo == if old(next) <= old(reservedHi) || wrote then Some(old(next)) else None
      ensures file.cell == if old(next) > old(reservedHi) && wrote then Number(old(reservedHi) + block)
                           else old(file.cell)
      ensures next == if seqNo.Some? then old(next) + 1 else old(next)
      ensures seqNo.Some? ==> seqNo.value == Allocated()
    {
      if next > reservedHi {
        var newHi := reservedHi + block;
        var ok := file.WriteAtomic(newHi, wrote);
        if !ok {
          return None;
        }
        reservedHi := newHi;
      }
      seqNo := Some(next);
      next := next + 1;
    }

    function Allocated(): (n: int)
      reads this
    {
      next - 1
    }

    method Close(wrote: bool) returns (ok: bool)
      requires Valid()
      modifies this, file
      ensures Valid()
      ensures (file.cell, View(), ok) == AfterClose(old(file.cell), old(View()), wrote)
      ensures ok <==> wrote || old(next) - 1 == old(reservedHi)
      ensures ok ==> Load(file.cell) == Some(Allocated())
      ensures next == old(next) && (!ok ==> file.cell == old(file.cell) && reservedHi == old(reservedHi))
    {
      var used := next - 1;
      if used < 0 {
        used := 0;
      }
      if used == reservedHi {
        return true;
      }
      ok := file.WriteAtomic(used, wrote);
      if ok {
        reservedHi := used;
      }
    }
  }

  // ---------------------------------------------------------------------------------------
  // Whole runs: one state file, one process at a time.
  // ---------------------------------------------------------------------------------------

  /** A live process: its allocator, and whether its latest hand-out has been followed by a
      successful Close. */
  datatype Process = Process(alloc: Alloc, shrunk: bool)

  /** `handed` is the history of every number returned on this state file, in order. */
  datatype Sys = Sys(cell: Cell, proc: Option<Process>, handed: seq<int>)

  datatype Event =
    | Start(block: int)        // NewSeqAllocator on whatever the state file holds
    | Next(wrote: bool)
    | Close(wrote: bool)
    | Exit                     // the process ends here, gracefully or not
    | CrashInReserve           // power lost after a new block became durable, before Next returned

  function Boot(c: Cell): Sys { Sys(c, None, []) }

  function Step(s: Sys, e: Event): Sys {
    match e
    case Start(block) =>
      if s.proc.Some? then s
      else
        (match Open(s.cell, block)
         case None => s
         case Some(a) => s.(proc := Some(Process(a, true))))
    case Next(wrote) =>
      if s.proc.None? then s
      else
        var (c, a, n) := AfterNext(s.cell, s.proc.value.alloc, wrote);
        Sys(c, Some(Process(a, s.proc.value.shrunk && n.None?)),
            if n.Some? then s.handed + [n.value] else s.handed)
    case Close(wrote) =>
      if s.proc.None? then s
      else
        var (c, a, ok) := AfterClose(s.cell, s.proc.value.alloc, wrote);
        Sys(c, Some(Process(a, s.proc.value.shrunk || ok)), s.handed)
    case Exit =>
      s.(proc := None)
    case CrashInReserve =>
      if s.proc.None? then s
      else s.(cell := AfterNext(s.cell, s.proc.value.alloc, true).0, proc := None)
  }

  function Run(s: Sys, es: seq<Event>): Sys
    decreases |es|
  {
    if es == [] then s else Run(Step(s, es[0]), es[1..])
  }

  predicate Increasing(ns: seq<int>) {
    forall i, j :: 0 <= i < j < |ns| ==> ns[i] < ns[j]
  }

  /** The largest number the state file or the running process forbids handing out again. */
  function Mark(s: Sys): (m: Option<int>) {
    if s.proc.Some? then Some(s.proc.value.alloc.next - 1) else Load(s.cell)
  }

  ghost predicate Inv(s: Sys) {
    && Increasing(s.handed)
    && (s.proc.Some? ==> Sound(s.cell, s.proc.value.alloc))
    && (s.handed != [] ==> Mark(s).Some?)
    && (forall n :: n in s.handed ==> n <= Mark(s).value)
  }

  lemma StepKeepsInv(s: Sys, e: Event)
    requires Inv(s)
    ensures Inv(Step(s, e))
    ensures s.handed <= Step(s, e).handed
    ensures Mark(s).Some? ==> Mark(Step(s, e)).Some? && Mark(s).value <= Mark(Step(s, e)).value
  {
    var t := Step(s, e);
    if s.proc.Some? && t.handed != s.handed {
      var n := t.handed[|s.handed|];
      assert t.handed == s.handed + [n];
      forall i | 0 <= i < |s.handed| ensures s.handed[i] < n {
        assert s.handed[i] in s.handed;
      }
    }
  }

  lemma {:induction false} RunKeepsInv(s: Sys, es: seq<Event>)
    requires Inv(s)
    ensures Inv(Run(s, es))
    ensures s.handed <= Run(s, es).handed
    ensures Mark(s).Some? ==> Mark(Run(s, es)).Some? && Mark(s).value <= Mark(Run(s, es)).value
    decreases |es|
  {
    if es == [] {
    } else {
      StepKeepsInv(s, es[0]);
      RunKeepsInv(Step(s, es[0]), es[1..]);
    }
  }

  /** Never-reuse: whatever the state file held at first and whatever order hand-outs, failed
      writes, closes, crashes and restarts come in, all numbers ever handed out are strictly
      increasing, and above the mark the file started with. */
  lemma NeverReuse(c: Cell, es: seq<Event>)
    ensures Increasing(Run(Boot(c), es).handed)
    ensures forall n :: n in Run(Boot(c), es).handed ==> Load(c).Some? && n > Load(c).value
  {
    RunKeepsInv(Boot(c), es);
    AboveStart(c, Boot(c), es);
  }

  lemma {:induction false} AboveStart(c: Cell, s: Sys, es: seq<Event>)
    requires Inv(s)
    requires Load(c).None? ==> s == Boot(c)
    requires Load(c).Some? ==> Mark(s).Some? && Mark(s).value >= Load(c).value
    requires forall n :: n in s.handed ==> Load(c).Some? && n > Load(c).value
    ensures forall n :: n in Run(s, es).handed ==> Load(c).Some? && n > Load(c).value
    decreases |es|
  {
    if es == [] {
    } else {
      StepKeepsInv(s, es[0]);
      AboveStart(c, Step(s, es[0]), es[1..]);
    }
  }

  /** A process starts exactly on a file that is absent, empty or holds a non-negative number ... */
  lemma {:induction false} StartsIff(c: Cell, block: int)
    ensures Step(Boot(c), Start(block)).proc.Some? <==> c.Absent? || c.Blank? || (c.Number? && c.v >= 0)
  {}

  /** ... and on any other file no run ever hands out a number or touches the file. */
  lemma {:induction false} NothingFromUnreadable(c: Cell, es: seq<Event>)
    requires c.Garbage? || c.Unreadable? || (c.Number? && c.v < 0)
    ensures Run(Boot(c), es) == Boot(c)
    decreases |es|
  {
    if es == [] {
    } else {
      assert Step(Boot(c), es[0]) == Boot(c);
      NothingFromUnreadable(c, es[1..]);
    }
  }

  /** Hand-outs of one process, with every write going through. */
  function Nexts(k: nat): seq<Event> { seq(k, _ => Next(true)) }

  /** The process of s hands out its next number and those after it, none left out. */
  lemma {:induction false} Consecutive(s: Sys, k: nat)
    requires s.proc.Some?
    ensures var (t, from) := (Run(s, Nexts(k)), s.proc.value.alloc.next - |s.handed|);
            && |t.handed| == |s.handed| + k && s.handed <= t.handed
            && forall j :: |s.handed| <= j < |t.handed| ==> t.handed[j] == from + j
    decreases k
  {
    if k == 0 {
    } else {
      assert Nexts(k)[0] == Next(true) && Nexts(k)[1..] == Nexts(k - 1);
      var t := Step(s, Next(true));
      assert t.handed == s.handed + [s.proc.value.alloc.next];
      Consecutive(t, k - 1);
      var u := Run(s, Nexts(k));
      assert u == Run(t, Nexts(k - 1));
      assert u.handed[|s.handed|] == t.handed[|s.handed|];
    }
  }

  /** From a start on, on a file that reads as `hi`, the numbers are hi + 1, hi + 2 and so on. */
  lemma {:induction false} StartsAboveTheMark(c: Cell, block: int, hi: int, k: nat)
    requires (c.Absent? && hi == 0) || (c.Blank? && hi == 0) || (c.Number? && c.v == hi >= 0)
    ensures var t := Run(Step(Boot(c), Start(block)), Nexts(k));
            |t.handed| == k && forall i :: 0 <= i < k ==> t.handed[i] == hi + 1 + i
  {
    var s := Step(Boot(c), Start(block));
    assert s.proc.Some? && s.handed == [] && s.proc.value.alloc.next == hi + 1;
    Consecutive(s, k);
  }

  // ---------------------------------------------------------------------------------------
  // Burn.
  // ---------------------------------------------------------------------------------------

  /** An exit that a successful Close did not prepare. */
  predicate Ungraceful(s: Sys, e: Event) {
    s.proc.Some? && (e.CrashInReserve? || (e.Exit? && !s.proc.value.shrunk))
  }

  function UngracefulExits(s: Sys, es: seq<Event>): (k: nat)
    decreases |es|
  {
    if es == [] then 0
    else (if Ungraceful(s, es[0]) then 1 else 0) + UngracefulExits(Step(s, es[0]), es[1..])
  }

  /** The block size a start runs with. */
  function BlockOf(e: Event): int
    requires e.Start?
  {
    if e.block <= 0 then DEFAULT_BLOCK else e.block
  }

  predicate BlocksAtMost(es: seq<Event>, bound: int) {
    0 < bound && forall e :: e in es && e.Start? ==> BlockOf(e) <= bound
  }

  /** What a reservation may hold beyond the numbers in use. */
  ghost predicate Tight(s: Sys, bound: int) {
    && Inv(s)
    && (s.proc.Some? ==>
          var a := s.proc.value.alloc;
          && a.block <= bound
          && a.reservedHi - (a.next - 1) <= a.block
          && (s.proc.value.shrunk ==> a.reservedHi == a.next - 1))
  }

  lemma StepKeepsTight(s: Sys, e: Event, bound: int)
    requires Tight(s, bound) && BlocksAtMost([e], bound)
    ensures Tight(Step(s, e), bound)
    ensures Mark(s).Some? && Step(s, e).handed == s.handed ==>
              Mark(Step(s, e)).Some?
              && Mark(Step(s, e)).value <= Mark(s).value + (if Ungraceful(s, e) then bound else 0)
    ensures Step(s, e).handed != s.handed ==> Mark(Step(s, e)) == Some(Step(s, e).handed[|s.handed|])
    ensures Mark(s).Some? && Step(s, e).handed != s.handed ==>
              Step(s, e).handed == s.handed + [Mark(s).value + 1]
  {
    StepKeepsInv(s, e);
    assert e in [e];
    if Step(s, e).handed != s.handed {
      assert e.Next?;
    }
  }

  lemma {:induction false} RunKeepsTight(s: Sys, es: seq<Event>, bound: int)
    requires Tight(s, bound) && BlocksAtMost(es, bound)
    ensures Tight(Run(s, es), bound)
    decreases |es|
  {
    if es == [] {
    } else {
      assert forall e :: e in es[1..] ==> e in es;
      StepKeepsTight(s, es[0], bound);
      RunKeepsTight(Step(s, es[0]), es[1..], bound);
    }
  }

  /** Exits that hand nothing out move the mark by at most one block each, and only the
      ungraceful ones move it at all. */
  lemma {:induction false} QuietRun(s: Sys, es: seq<Event>, bound: int)
    requires Tight(s, bound) && BlocksAtMost(es, bound)
    requires Mark(s).Some? && Run(s, es).handed == s.handed
    ensures Mark(Run(s, es)).Some?
    ensures Mark(s).value <= Mark(Run(s, es)).value
    ensures Mark(Run(s, es)).value <= Mark(s).value + Allowance(s, es, bound)
    decreases |es|
  {
    if es == [] {
    } else {
      assert forall e :: e in es[1..] ==> e in es;
      StepKeepsInv(s, es[0]);
      StepKeepsTight(s, es[0], bound);
      RunKeepsInv(Step(s, es[0]), es[1..]);
      QuietRun(Step(s, es[0]), es[1..], bound);
    }
  }

  /** One block for every ungraceful exit. */
  function Allowance(s: Sys, es: seq<Event>, bound: int): (n: int)
    decreases |es|
  {
    if es == [] then 0
    else (if Ungraceful(s, es[0]) then bound else 0) + Allowance(Step(s, es[0]), es[1..], bound)
  }

  lemma {:induction false} AllowanceIsProduct(s: Sys, es: seq<Event>, bound: int)
    ensures Allowance(s, es, bound) == UngracefulExits(s, es) * bound
    decreases |es|
  {
    if es == [] {
    } else {
      AllowanceIsProduct(Step(s, es[0]), es[1..], bound);
      var k := UngracefulExits(Step(s, es[0]), es[1..]);
      assert (k + 1) * bound == k * bound + bound;
    }
  }

  /** The numbers skipped between the last hand-out before `mid` and the first one after it. */
  lemma SkippedAfter(s: Sys, mid: seq<Event>, wrote: bool, bound: int)
    requires Tight(s, bound) && BlocksAtMost(mid, bound)
    requires s.handed != [] && Mark(s) == Some(Last(s.handed))
    requires Run(s, mid).handed == s.handed
    requires Step(Run(s, mid), Next(wrote)).handed != s.handed
    ensures var t := Step(Run(s, mid), Next(wrote));
            0 <= Last(t.handed) - Last(s.handed) - 1 <= UngracefulExits(s, mid) * bound
  {
    QuietRun(s, mid, bound);
    AllowanceIsProduct(s, mid, bound);
    var q := Run(s, mid);
    RunKeepsTight(s, mid, bound);
    StepKeepsTight(q, Next(wrote), bound);
    assert Last(q.handed + [Mark(q).value + 1]) == Mark(q).value + 1;
  }

  function Last(ns: seq<int>): int
    requires ns != []
  {
    ns[|ns| - 1]
  }

  /** Bounded burn: take any run `pre` that ends with a hand-out, then any events `mid` that
      hand nothing out, then one more hand-out.  The numbers skipped between the two are at
      most one block per ungraceful exit in `mid`: with none of those, whatever closes and
      restarts `mid` holds, the second number is the successor of the first. */
  lemma BoundedBurn(c: Cell, pre: seq<Event>, wrote: bool, mid: seq<Event>, wroteAgain: bool, bound: int)
    requires BlocksAtMost(pre, bound) && BlocksAtMost(mid, bound)
    requires Step(Run(Boot(c), pre), Next(wrote)).handed != Run(Boot(c), pre).handed
    requires var s := Step(Run(Boot(c), pre), Next(wrote));
             Run(s, mid).handed == s.handed
             && Step(Run(s, mid), Next(wroteAgain)).handed != s.handed
    ensures var s := Step(Run(Boot(c), pre), Next(wrote));
            var t := Step(Run(s, mid), Next(wroteAgain));
            && |s.handed| > 0 && |t.handed| == |s.handed| + 1
            && 0 <= Last(t.handed) - Last(s.handed) - 1 <= UngracefulExits(s, mid) * bound
  {
    var r := Run(Boot(c), pre);
    RunKeepsTight(Boot(c), pre, bound);
    StepKeepsTight(r, Next(wrote), bound);
    SkippedAfter(Step(r, Next(wrote)), mid, wroteAgain, bound);
  }
}
