/** One dense sequence per delivery lane (`internal/events/seqalloc_lane.go`).

    Lanes are allocators on separate state files in one directory.  A lane without a file of
    its own is seeded above the single stream that existed before the split.  The lemmas say
    exactly for which lane keys never-reuse survives: those whose file names stay apart. */
module LaneAlloc {
  import opened Common
  import opened SeqAlloc

  /** A state file in the WAL directory. */
  datatype FileName = Legacy | OfLane(name: string)

  function PathOf(f: FileName): string {
    match f
    case Legacy => "seq.state"
    case OfLane(name) => "seq." + name + ".state"
  }

  predicate SafeChar(c: char) {
    'a' <= c <= 'z' || 'A' <= c <= 'Z' || '0' <= c <= '9' || c == '-' || c == '_'
  }

  function Sanitize(lane: string): (name: string)
    ensures name != []
  {
    if lane == [] then "unknown"
    else seq(|lane|, i requires 0 <= i < |lane| => if SafeChar(lane[i]) then lane[i] else '_')
  }

  function LaneFile(lane: string): FileName { OfLane(Sanitize(lane)) }

  /** `sanitizeLane` as the source writes it: the runes are replaced in place. */
  method SanitizeLane(lane: string) returns (name: string)
    ensures name == Sanitize(lane)
    ensures lane == "" ==> name == "unknown"
    ensures lane != "" ==> |name| == |lane| && forall k :: 0 <= k < |lane| ==>
              name[k] == if 'a' <= lane[k] <= 'z' || 'A' <= lane[k] <= 'Z' || '0' <= lane[k] <= '9'
                            || lane[k] == '-' || lane[k] == '_' then lane[k] else '_'
  {
    if lane == "" {
      return "unknown";
    }
    var out := new char[|lane|](i requires 0 <= i < |lane| => lane[i]);
    var i := 0;
    while i < |lane|
      invariant 0 <= i <= |lane|
      invariant forall k :: 0 <= k < i ==> out[k] == if SafeChar(lane[k]) then lane[k] else '_'
      invariant forall k :: i <= k < |lane| ==> out[k] == lane[k]
    {
      if !SafeChar(out[i]) {
        out[i] := '_';
      }
      i := i + 1;
    }
    name := out[..];
    assert name == Sanitize(lane);
  }

  /** File names are what tells state files apart on disk: two lanes share a path exactly when
      they sanitize alike, and no lane's path is the legacy one. */
  lemma PathsApart(a: string, b: string)
    ensures PathOf(LaneFile(a)) == PathOf(LaneFile(b)) <==> LaneFile(a) == LaneFile(b)
    ensures PathOf(LaneFile(a)) != PathOf(Legacy)
  {
    var (x, y) := (PathOf(LaneFile(a)), PathOf(LaneFile(b)));
    assert x[4 .. |x| - 6] == Sanitize(a) && y[4 .. |y| - 6] == Sanitize(b);
    assert |x| > |PathOf(Legacy)|;
  }

  /** Non-empty keys over the file-name alphabet are their own sanitized names, so any set of
      them is separate. */
  lemma SafeKeysAreSeparate(keys: set<string>)
    requires forall k :: k in keys ==> k != [] && forall c :: c in k ==> SafeChar(c)
    ensures Separate(keys)
  {
    forall k | k in keys ensures Sanitize(k) == k { }
  }

  // ---------------------------------------------------------------------------------------

  type Disk = map<FileName, Cell>

  function At(d: Disk, file: FileName): Cell { if file in d then d[file] else Absent }

  /** One lane: its state file and, once it has been touched, its allocator. */
  datatype Local = Local(cell: Cell, alloc: Option<Alloc>)

  /** Where a lane without a file starts: the legacy mark it is seeded with, None where the
      legacy file cannot be read. */
  function Seed(l: Local, legacy: Cell): Option<int> {
    if l.cell == Absent then Load(legacy) else Some(0)
  }

  /** `For` on one lane: unchanged when the lane is already open or cannot be opened. */
  function LocalFor(l: Local, legacy: Cell, block: int, wrote: bool): (r: Local)
    ensures r.alloc.None? ==> r == l
  {
    if l.alloc.Some? || Seed(l, legacy).None? || (Seed(l, legacy).value > 0 && !wrote) then l
    else
      var cell := if Seed(l, legacy).value > 0 then Number(Seed(l, legacy).value) else l.cell;
      match Open(cell, block)
      case None => l
      case Some(a) => Local(cell, Some(a))
  }

  function LocalNext(l: Local, wrote: bool): (r: (Local, Option<int>)) {
    match l.alloc
    case None => (l, None)
    case Some(a) => var (c, b, n) := AfterNext(l.cell, a, wrote); (Local(c, Some(b)), n)
  }

  function LocalClose(l: Local, wrote: bool): (r: (Local, bool)) {
    match l.alloc
    case None => (l, true)
    case Some(a) => var (c, b, ok) := AfterClose(l.cell, a, wrote); (Local(c, Some(b)), ok)
  }

  /** The allocator object and the directory it works in. */
  datatype Lanes = Lanes(disk: Disk, live: map<string, Alloc>, floors: map<string, int>, block: int)

  function Look(s: Lanes, lane: string): Local {
    Local(At(s.disk, LaneFile(lane)), if lane in s.live then Some(s.live[lane]) else None)
  }

  function Store(s: Lanes, lane: string, l: Local): Lanes {
    s.(disk := if l.cell == At(s.disk, LaneFile(lane)) then s.disk else s.disk[LaneFile(lane) := l.cell],
       live := if l.alloc.Some? then s.live[lane := l.alloc.value] else s.live)
  }

  /** `For`, over all lanes: a lane seeded above zero owes the server its floor. */
  function AfterFor(s: Lanes, lane: string, wrote: bool): (r: (Lanes, bool)) {
    var l := LocalFor(Look(s, lane), At(s.disk, Legacy), s.block, wrote);
    var t := Store(s, lane, l);
    (if l.cell != Look(s, lane).cell then t.(floors := s.floors[lane := l.cell.v]) else t, l.alloc.Some?)
  }

  function AfterLaneNext(s: Lanes, lane: string, seeded: bool, wrote: bool): (r: (Lanes, Option<int>)) {
    var t := AfterFor(s, lane, seeded).0;
    var (l, n) := LocalNext(Look(t, lane), wrote);
    (Store(t, lane, l), n)
  }

  function AfterLaneClose(s: Lanes, lane: string, wrote: bool): (r: (Lanes, bool)) {
    var (l, ok) := LocalClose(Look(s, lane), wrote);
    (Store(s, lane, l), ok)
  }

  /** Keys whose state files are pairwise different. */
  predicate Separate(keys: set<string>) {
    forall a, b :: a in keys && b in keys && a != b ==> Sanitize(a) != Sanitize(b)
  }

  /** Storing one lane is seen by that lane and, unless it shares the file, by no other. */
  lemma StoreThenLook(s: Lanes, lane: string, l: Local, other: string)
    requires l.alloc.None? ==> lane !in s.live
    ensures Look(Store(s, lane, l), lane) == l
    ensures Sanitize(other) != Sanitize(lane) ==> Look(Store(s, lane, l), other) == Look(s, other)
    ensures At(Store(s, lane, l).disk, Legacy) == At(s.disk, Legacy)
  {
  }

  /** Writing what a file already holds changes nothing. */
  lemma {:induction false} SameCell(d: Disk, f: FileName, hi: int)
    ensures At(d, f) == Number(hi) ==> d[f := Number(hi)] == d
  {}

  class LaneAllocator {
    var disk: Disk
    const block: int
    var lanes: map<string, Alloc>
    var pendingFloor: map<string, int>

    function View(): Lanes
      reads this
    {
      Lanes(disk, lanes, pendingFloor, block)
    }

    constructor (disk: Disk, blockSize: int)
      ensures View() == Lanes(disk, map[], map[], if blockSize <= 0 then DEFAULT_BLOCK else blockSize)
    {
      this.disk := disk;
      block := if blockSize <= 0 then DEFAULT_BLOCK else blockSize;
      lanes := map[];
      pendingFloor := map[];
    }

    method For(lane: string, wrote: bool) returns (ok: bool)
      modifies this
      ensures (View(), ok) == AfterFor(old(View()), lane, wrote)
    {
      if lane in lanes {
        assert lanes[lane := lanes[lane]] == lanes;
        return true;
      }
      var name := SanitizeLane(lane);
      var path := OfLane(name);
      if At(disk, path) == Absent {
        var legacyHi := Load(At(disk, Legacy));
        if legacyHi.None? {
          return false;
        }
        if legacyHi.value > 0 {
          if !wrote {
            return false;
          }
          disk := disk[path := Number(legacyHi.value)];
          pendingFloor := pendingFloor[lane := legacyHi.value];
        }
      }
      var a := Open(At(disk, path), block);
      if a.None? {
        return false;
      }
      lanes := lanes[lane := a.value];
      ok := true;
    }

    method Next(lane: string, seeded: bool, wrote: bool) returns (n: Option<int>)
      modifies this
      ensures (View(), n) == AfterLaneNext(old(View()), lane, seeded, wrote)
    {
      var ok := For(lane, seeded);
      if !ok {
        return None;
      }
      var a := lanes[lane];
      if a.next > a.reservedHi {
        if !wrote {
          assert lanes[lane := a] == lanes;
          return None;
        }
        a := a.(reservedHi := a.reservedHi + a.block);
        SameCell(disk, LaneFile(lane), a.reservedHi);
        disk := disk[LaneFile(lane) := Number(a.reservedHi)];
      }
      n := Some(a.next);
      lanes := lanes[lane := a.(next := a.next + 1)];
    }

    method Allocated(lane: string, seeded: bool) returns (n: int)
      modifies this
      ensures View() == AfterFor(old(View()), lane, seeded).0
      ensures n == if lane in lanes then lanes[lane].next - 1 else 0
    {
      var ok := For(lane, seeded);
      n := if ok then lanes[lane].next - 1 else 0;
    }

    /** Shrinks every lane, in the map's own arbitrary order; one lane failing does not stop the
        others.  While the lanes have their own files the order does not matter. */
    method Close(wrote: string -> bool) returns (ok: bool)
      modifies this
      ensures lanes.Keys == old(lanes.Keys) && pendingFloor == old(pendingFloor)
      ensures At(disk, Legacy) == old(At(disk, Legacy))
      ensures Separate(lanes.Keys) ==> Closed(old(View()), View(), lanes.Keys, ok, wrote)
    {
      ok := true;
      ghost var before := View();
      ghost var apart := Separate(lanes.Keys);
      ghost var shut := {};
      var left := lanes.Keys;
      while left != {}
        invariant lanes.Keys == before.live.Keys && pendingFloor == before.floors
        invariant left !! shut && left + shut == before.live.Keys
        invariant At(disk, Legacy) == At(before.disk, Legacy)
        invariant apart ==> Closed(before, View(), shut, ok, wrote)
      {
        var lane :| lane in left;
        ghost var now := View();
        var closed := CloseLane(lane, wrote(lane));
        if apart {
          CloseOneMore(before, now, shut, ok, wrote, lane);
        }
        ok := ok && closed;
        left, shut := left - {lane}, shut + {lane};
      }
    }

    method CloseLane(lane: string, wrote: bool) returns (ok: bool)
      requires lane in lanes
      modifies this`disk, this`lanes
      ensures (View(), ok) == AfterLaneClose(old(View()), lane, wrote)
      ensures lanes.Keys == old(lanes.Keys) && At(disk, Legacy) == old(At(disk, Legacy))
    {
      var a := lanes[lane];
      var used := if a.next - 1 < 0 then 0 else a.next - 1;
      ok := used == a.reservedHi || wrote;
      if used != a.reservedHi && wrote {
        a := a.(reservedHi := used);
        SameCell(disk, LaneFile(lane), used);
        disk := disk[LaneFile(lane) := Number(used)];
      }
      lanes := lanes[lane := a];
    }
  }

  /** The lanes of `shut` have been closed from where they stood in `before`, the others have
      not moved, and `ok` says whether every close succeeded. */
  ghost predicate Closed(before: Lanes, now: Lanes, shut: set<string>, ok: bool, wrote: string -> bool) {
    && (forall l :: l in before.live && l !in shut ==> Look(now, l) == Look(before, l))
    && (forall l :: l in shut ==> Look(now, l) == LocalClose(Look(before, l), wrote(l)).0)
    && (ok <==> forall l :: l in shut ==> LocalClose(Look(before, l), wrote(l)).1)
  }

  lemma CloseOneMore(before: Lanes, now: Lanes, shut: set<string>, ok: bool, wrote: string -> bool, lane: string)
    requires Separate(before.live.Keys) && shut <= before.live.Keys && lane in before.live && lane !in shut
    requires Closed(before, now, shut, ok, wrote)
    ensures Closed(before, AfterLaneClose(now, lane, wrote(lane)).0, shut + {lane},
                   ok && AfterLaneClose(now, lane, wrote(lane)).1, wrote)
  {
    var l := LocalClose(Look(now, lane), wrote(lane)).0;
    forall other | other in before.live && other != lane
      ensures Look(AfterLaneClose(now, lane, wrote(lane)).0, other) == Look(now, other)
    {
      StoreThenLook(now, lane, l, other);
    }
    StoreThenLook(now, lane, l, lane);
  }

  predicate Readable(c: Cell) { c.Absent? || c.Blank? || (c.Number? && c.v >= 0) }

  function MarkOf(c: Cell): int { if c.Number? then c.v else 0 }

  /** A lane can be used exactly when it is open already, or its own file reads, or it has none and the
      legacy file reads and its mark, if above zero, can be written as the seed. */
  lemma {:induction false} LaneOpensIff(s: Lanes, lane: string, wrote: bool)
    ensures var (own, legacy) := (At(s.disk, LaneFile(lane)), At(s.disk, Legacy));
            AfterFor(s, lane, wrote).1 <==>
              || lane in s.live
              || (own.Absent? && Readable(legacy) && (MarkOf(legacy) == 0 || wrote))
              || (!own.Absent? && Readable(own))
  {}

  /** A lane without a file takes up where the legacy stream stood, and owes the server that mark. */
  lemma {:induction false} LaneContinuesLegacy(s: Lanes, lane: string)
    requires lane !in s.live && At(s.disk, LaneFile(lane)).Absent? && Readable(At(s.disk, Legacy)) && s.block > 0
    ensures var (t, n) := AfterLaneNext(s, lane, true, true);
            var hi := MarkOf(At(s.disk, Legacy));
            && n == Some(hi + 1) && At(t.disk, LaneFile(lane)) == Number(hi + s.block)
            && t.floors == if hi > 0 then s.floors[lane := hi] else s.floors
  {}

  /** An open lane hands out its next number, unless a new block is due and cannot be written. */
  lemma {:induction false} OpenLaneHandsOut(s: Lanes, lane: string, seeded: bool, wrote: bool)
    requires lane in s.live
    ensures var (a, n) := (s.live[lane], AfterLaneNext(s, lane, seeded, wrote).1);
            n == if a.next <= a.reservedHi || wrote then Some(a.next) else None
  {}

  // ---------------------------------------------------------------------------------------
  // Whole runs over one directory.
  // ---------------------------------------------------------------------------------------

  datatype LaneEvent =
    | LaneStart(block: int)
    | LaneFor(lane: string, seeded: bool)
    | LaneNext(lane: string, seeded: bool, wrote: bool)
    | LaneClose(lane: string, wrote: bool)
    | LaneExit

  /** `handed` is the history of the numbers each lane has returned. */
  datatype World = World(p: Lanes, up: bool, handed: map<string, seq<int>>)

  function Handed(w: World, lane: string): seq<int> { if lane in w.handed then w.handed[lane] else [] }

  /** What one call on an open object does, and the number it returned if it returned one. */
  function Call(p: Lanes, e: LaneEvent): (r: (Lanes, Option<int>)) {
    match e
    case LaneFor(lane, seeded) => (AfterFor(p, lane, seeded).0, None)
    case LaneNext(lane, seeded, wrote) => AfterLaneNext(p, lane, seeded, wrote)
    case LaneClose(lane, wrote) => (AfterLaneClose(p, lane, wrote).0, None)
    case _ => (p, None)
  }

  /** Memory is lost on exit; the directory stays. */
  function LaneStep(w: World, e: LaneEvent): World {
    match e
    case LaneStart(block) =>
      if w.up then w
      else w.(p := Lanes(w.p.disk, map[], map[], if block <= 0 then DEFAULT_BLOCK else block), up := true)
    case LaneExit => w.(p := w.p.(live := map[]), up := false)
    case _ =>
      if !w.up then w
      else
        var (p, n) := Call(w.p, e);
        World(p, true, if n.None? then w.handed else w.handed[e.lane := Handed(w, e.lane) + [n.value]])
  }

  function LaneRun(w: World, es: seq<LaneEvent>): World
    decreases |es|
  {
    if es == [] then w else LaneRun(LaneStep(w, es[0]), es[1..])
  }

  function Fresh(d: Disk): World { World(Lanes(d, map[], map[], DEFAULT_BLOCK), false, map[]) }

  function KeysOf(e: LaneEvent): set<string> {
    match e
    case LaneFor(lane, _) => {lane}
    case LaneNext(lane, _, _) => {lane}
    case LaneClose(lane, _) => {lane}
    case _ => {}
  }

  predicate Over(es: seq<LaneEvent>, keys: set<string>) {
    forall e :: e in es ==> KeysOf(e) <= keys
  }

  /** What the legacy stream may have handed out at most. */
  function LegacyHi(d: Disk): int {
    match Load(At(d, Legacy)) case None => 0 case Some(hi) => hi
  }

  /** One lane as a single-allocator system. */
  function AsSys(l: Local, handed: seq<int>): Sys {
    Sys(l.cell, if l.alloc.Some? then Some(Process(l.alloc.value, false)) else None, handed)
  }

  /** `floor` is the legacy mark for a lane whose file was absent at first, 0 for the others. */
  ghost predicate LocalInv(l: Local, handed: seq<int>, floor: int) {
    && Inv(AsSys(l, handed))
    && (forall n :: n in handed ==> n > floor)
    && (l.alloc.Some? || (l.cell != Absent && floor > 0) ==>
          Mark(AsSys(l, handed)).Some? && Mark(AsSys(l, handed)).value >= floor)
  }

  function FloorOf(d: Disk, lane: string): (floor: int)
    ensures floor >= 0
  {
    if At(d, LaneFile(lane)) == Absent then LegacyHi(d) else 0
  }

  ghost predicate LaneInv(d: Disk, w: World, keys: set<string>) {
    && w.p.block > 0
    && At(w.p.disk, Legacy) == At(d, Legacy)
    && (!w.up ==> w.p.live == map[])
    && forall l :: l in keys ==>
         && LocalInv(Look(w.p, l), Handed(w, l), FloorOf(d, l))
         && (At(d, LaneFile(l)) != Absent ==> At(w.p.disk, LaneFile(l)) != Absent)
  }

  lemma LocalForKeeps(l: Local, legacy: Cell, block: int, wrote: bool, handed: seq<int>, floor: int)
    requires LocalInv(l, handed, floor) && floor >= 0
    requires l.cell == Absent ==> floor == match Load(legacy) case None => 0 case Some(hi) => hi
    ensures LocalInv(LocalFor(l, legacy, block, wrote), handed, floor)
    ensures LocalFor(l, legacy, block, wrote).cell == Absent ==> l.cell == Absent
  {
    assert handed != [] ==> handed[0] in handed;
  }

  lemma LocalNextKeeps(l: Local, wrote: bool, handed: seq<int>, floor: int)
    requires LocalInv(l, handed, floor) && floor >= 0
    ensures var (m, n) := LocalNext(l, wrote);
            LocalInv(m, if n.None? then handed else handed + [n.value], floor)
            && (m.cell == Absent ==> l.cell == Absent)
  {
    var s := AsSys(l, handed);
    StepKeepsInv(s, Next(wrote));
    var (m, n) := LocalNext(l, wrote);
    assert AsSys(m, if n.None? then handed else handed + [n.value]) == Step(s, Next(wrote));
  }

  lemma LocalCloseKeeps(l: Local, wrote: bool, handed: seq<int>, floor: int)
    requires LocalInv(l, handed, floor) && floor >= 0
    ensures LocalInv(LocalClose(l, wrote).0, handed, floor)
    ensures LocalClose(l, wrote).0.cell == Absent ==> l.cell == Absent
  {
    var s := AsSys(l, handed);
    StepKeepsInv(s, Close(wrote));
  }

  /** A call is one change to its own lane: nothing else in the directory or in memory moves. */
  lemma CallIsLocal(p: Lanes, e: LaneEvent, other: string)
    requires !e.LaneStart? && !e.LaneExit?
    ensures Sanitize(other) != Sanitize(e.lane) ==> Look(Call(p, e).0, other) == Look(p, other)
    ensures At(Call(p, e).0.disk, Legacy) == At(p.disk, Legacy)
    ensures Call(p, e).0.block == p.block
    ensures match e
            case LaneFor(lane, seeded) =>
              Look(Call(p, e).0, lane) == LocalFor(Look(p, lane), At(p.disk, Legacy), p.block, seeded)
            case LaneNext(lane, seeded, wrote) =>
              var (m, n) := LocalNext(LocalFor(Look(p, lane), At(p.disk, Legacy), p.block, seeded), wrote);
              Look(Call(p, e).0, lane) == m && Call(p, e).1 == n
            case LaneClose(lane, wrote) => Look(Call(p, e).0, lane) == LocalClose(Look(p, lane), wrote).0
            case _ => true
  {
    var lane := e.lane;
    if e.LaneClose? {
      StoreThenLook(p, lane, LocalClose(Look(p, lane), e.wrote).0, other);
    } else {
      var l := LocalFor(Look(p, lane), At(p.disk, Legacy), p.block, e.seeded);
      StoreThenLook(p, lane, l, other);
      var t := AfterFor(p, lane, e.seeded).0;
      assert Look(t, lane) == l;
      if e.LaneNext? {
        StoreThenLook(t, lane, LocalNext(l, e.wrote).0, other);
      }
    }
  }

  lemma OwnLane(d: Disk, w: World, e: LaneEvent, keys: set<string>)
    requires LaneInv(d, w, keys) && w.up
    requires KeysOf(e) <= keys && !e.LaneStart? && !e.LaneExit?
    ensures LocalInv(Look(LaneStep(w, e).p, e.lane), Handed(LaneStep(w, e), e.lane), FloorOf(d, e.lane))
    ensures Look(LaneStep(w, e).p, e.lane).cell == Absent ==> Look(w.p, e.lane).cell == Absent
  {
    var lane := e.lane;
    var (l, handed, floor) := (Look(w.p, lane), Handed(w, lane), FloorOf(d, lane));
    CallIsLocal(w.p, e, lane);
    match e
    case LaneClose(_, wrote) =>
      LocalCloseKeeps(l, wrote, handed, floor);
    case LaneFor(_, seeded) =>
      LocalForKeeps(l, At(w.p.disk, Legacy), w.p.block, seeded, handed, floor);
    case LaneNext(_, seeded, wrote) =>
      LocalForKeeps(l, At(w.p.disk, Legacy), w.p.block, seeded, handed, floor);
      LocalNextKeeps(LocalFor(l, At(w.p.disk, Legacy), w.p.block, seeded), wrote, handed, floor);
  }

  lemma LaneStepKeepsInv(d: Disk, w: World, e: LaneEvent, keys: set<string>)
    requires LaneInv(d, w, keys) && Separate(keys) && KeysOf(e) <= keys
    ensures LaneInv(d, LaneStep(w, e), keys)
  {
    var v := LaneStep(w, e);
    if e.LaneStart? || e.LaneExit? {
      forall l | l in keys ensures LocalInv(Look(v.p, l), Handed(v, l), FloorOf(d, l)) {
        ProcessEnds(Look(w.p, l), Handed(w, l), FloorOf(d, l));
      }
    } else if w.up {
      forall l | l in keys
        ensures LocalInv(Look(v.p, l), Handed(v, l), FloorOf(d, l))
        ensures At(d, LaneFile(l)) != Absent ==> At(v.p.disk, LaneFile(l)) != Absent
      {
        CallIsLocal(w.p, e, l);
        if l == e.lane {
          OwnLane(d, w, e, keys);
        }
      }
      CallIsLocal(w.p, e, e.lane);
    }
  }

  lemma ProcessEnds(l: Local, handed: seq<int>, floor: int)
    requires LocalInv(l, handed, floor) && floor >= 0
    ensures LocalInv(l.(alloc := None), handed, floor)
  {
    StepKeepsInv(AsSys(l, handed), Exit);
    assert AsSys(l.(alloc := None), handed) == Step(AsSys(l, handed), Exit);
  }

  lemma {:induction false} LaneRunKeepsInv(d: Disk, w: World, es: seq<LaneEvent>, keys: set<string>)
    requires LaneInv(d, w, keys) && Separate(keys) && Over(es, keys)
    ensures LaneInv(d, LaneRun(w, es), keys)
    decreases |es|
  {
    if es == [] {
    } else {
      assert forall e :: e in es[1..] ==> e in es;
      LaneStepKeepsInv(d, w, es[0], keys);
      LaneRunKeepsInv(d, LaneStep(w, es[0]), es[1..], keys);
    }
  }

  /** The split keeps never-reuse: over lane keys with separate files, in every run each lane's
      numbers are strictly increasing, and a lane that had no file of its own hands out only
      numbers above everything the legacy stream could have handed out. */
  lemma LaneNeverReuse(d: Disk, es: seq<LaneEvent>, keys: set<string>, lane: string)
    requires Separate(keys) && Over(es, keys) && lane in keys
    ensures Increasing(Handed(LaneRun(Fresh(d), es), lane))
    ensures At(d, LaneFile(lane)) == Absent ==>
              forall n :: n in Handed(LaneRun(Fresh(d), es), lane) ==> n > LegacyHi(d)
  {
    LaneRunKeepsInv(d, Fresh(d), es, keys);
    var w := LaneRun(Fresh(d), es);
    assert LocalInv(Look(w.p, lane), Handed(w, lane), FloorOf(d, lane));
  }

  /** Said of the legacy stream itself: take any run of the legacy allocator, whatever it went
      through, and split into lanes from the state file it left.  Every number a lane without a file
      of its own ever hands out is above every number the legacy run handed out. */
  lemma {:induction false} LaneAboveLegacyRun(c: Cell, legacy: seq<Event>, d: Disk, es: seq<LaneEvent>,
                                              keys: set<string>, lane: string)
    requires Separate(keys) && Over(es, keys) && lane in keys
    requires At(d, Legacy) == Run(Boot(c), legacy).cell && At(d, LaneFile(lane)) == Absent
    ensures forall m, n :: m in Run(Boot(c), legacy).handed && n in Handed(LaneRun(Fresh(d), es), lane) ==> m < n
  {
    RunKeepsInv(Boot(c), legacy);
    LaneNeverReuse(d, es, keys, lane);
    forall m | m in Run(Boot(c), legacy).handed ensures m <= LegacyHi(d) {
      assert m <= Mark(Run(Boot(c), legacy)).value;
    }
  }

  /** Whatever happens on one lane, a refused hand-out included, another lane's next hand-out
      comes out the same. */
  lemma FailureIsLocal(p: Lanes, e: LaneEvent, b: string, seeded: bool, wrote: bool)
    requires !e.LaneStart? && !e.LaneExit? && Sanitize(e.lane) != Sanitize(b)
    ensures AfterLaneNext(Call(p, e).0, b, seeded, wrote).1 == AfterLaneNext(p, b, seeded, wrote).1
  {
    CallIsLocal(p, e, b);
    CallIsLocal(p, LaneNext(b, seeded, wrote), b);
    CallIsLocal(Call(p, e).0, LaneNext(b, seeded, wrote), b);
  }

  // ---------------------------------------------------------------------------------------
  // The converse: two keys on one file.
  // ---------------------------------------------------------------------------------------

  /** Two lanes that sanitize alike share one file, and this run then repeats a number on one of
      them: each lane's write puts its own, lower, mark over the other's. */
  function Collision(a: string, b: string): seq<LaneEvent> {
    [LaneStart(1), LaneFor(b, true), LaneNext(a, true, true), LaneNext(a, true, true)]
    + [LaneNext(b, true, true), LaneExit, LaneStart(1), LaneNext(a, true, true)]
  }

  lemma BeforeCollision(a: string, b: string, w: World)
    requires a != b && Sanitize(a) == Sanitize(b)
    requires w == LaneRun(Fresh(map[]),
                          [LaneStart(1), LaneFor(b, true), LaneNext(a, true, true), LaneNext(a, true, true)])
    ensures w.up && w.p.block == 1 && Handed(w, a) == [1, 2]
    ensures At(w.p.disk, Legacy) == Absent
    ensures Look(w.p, b) == Local(Number(2), Some(Alloc(1, 0, 1)))
  {
    var w1 := LaneStep(Fresh(map[]), LaneStart(1));
    CallIsLocal(w1.p, LaneFor(b, true), a);
    var w2 := LaneStep(w1, LaneFor(b, true));
    assert Look(w2.p, b) == Local(Absent, Some(Alloc(1, 0, 1))) && a !in w2.p.live;
    CallIsLocal(w2.p, LaneNext(a, true, true), b);
    var w3 := LaneStep(w2, LaneNext(a, true, true));
    assert Look(w3.p, a) == Local(Number(1), Some(Alloc(2, 1, 1))) && w3.p.live[b] == Alloc(1, 0, 1);
    CallIsLocal(w3.p, LaneNext(a, true, true), b);
    var w4 := LaneStep(w3, LaneNext(a, true, true));
    assert Look(w4.p, a) == Local(Number(2), Some(Alloc(3, 2, 1))) && w4.p.live[b] == Alloc(1, 0, 1);
    FourSteps(Fresh(map[]), [LaneStart(1), LaneFor(b, true), LaneNext(a, true, true), LaneNext(a, true, true)]);
  }

  lemma {:induction false} CollisionTail(a: string, b: string, w: World, rest: seq<LaneEvent>)
    requires a != b && Sanitize(a) == Sanitize(b)
    requires w.up && w.p.block == 1 && Handed(w, a) == [1, 2] && At(w.p.disk, Legacy) == Absent
    requires Look(w.p, b) == Local(Number(2), Some(Alloc(1, 0, 1)))
    requires rest == [LaneNext(b, true, true), LaneExit, LaneStart(1), LaneNext(a, true, true)]
    ensures Handed(LaneRun(w, rest), a) == [1, 2, 2]
  {
    CallIsLocal(w.p, rest[0], a);
    var w5 := LaneStep(w, rest[0]);
    assert Look(w5.p, b).cell == Number(1) && Handed(w5, a) == [1, 2];
    var w7 := LaneStep(LaneStep(w5, rest[1]), rest[2]);
    assert Look(w7.p, a) == Local(Number(1), None);
    CallIsLocal(w7.p, rest[3], a);
    FourSteps(w, rest);
  }

  lemma {:induction false} SharedFileReuses(a: string, b: string)
    requires a != b && Sanitize(a) == Sanitize(b)
    ensures Handed(LaneRun(Fresh(map[]), Collision(a, b)), a) == [1, 2, 2]
  {
    var first := [LaneStart(1), LaneFor(b, true), LaneNext(a, true, true), LaneNext(a, true, true)];
    var rest := [LaneNext(b, true, true), LaneExit, LaneStart(1), LaneNext(a, true, true)];
    RunInTwo(Fresh(map[]), first, rest);
    var w := LaneRun(Fresh(map[]), first);
    BeforeCollision(a, b, w);
    CollisionTail(a, b, w, rest);
  }

  lemma FourSteps(w: World, es: seq<LaneEvent>)
    requires |es| == 4
    ensures LaneRun(w, es) == LaneStep(LaneStep(LaneStep(LaneStep(w, es[0]), es[1]), es[2]), es[3])
  {
    assert es[1..][1..] == es[2..] && es[2..][1..] == es[3..] && es[3..][1..] == [];
    assert es[1..][0] == es[1] && es[2..][0] == es[2] && es[3..][0] == es[3];
    var w2 := LaneStep(LaneStep(w, es[0]), es[1]);
    assert LaneRun(w, es) == LaneRun(LaneStep(w, es[0]), es[1..]) == LaneRun(w2, es[2..]);
    assert LaneRun(w2, es[2..]) == LaneRun(LaneStep(w2, es[2]), es[3..]);
  }

  lemma {:induction false} RunInTwo(w: World, es: seq<LaneEvent>, fs: seq<LaneEvent>)
    ensures LaneRun(w, es + fs) == LaneRun(LaneRun(w, es), fs)
    decreases |es|
  {
    if es == [] {
      assert es + fs == fs;
    } else {
      assert (es + fs)[0] == es[0] && (es + fs)[1..] == es[1..] + fs;
      RunInTwo(LaneStep(w, es[0]), es[1..], fs);
    }
  }

  /** The exact condition: over a set of lane keys, every run from every directory keeps every
      lane's numbers strictly increasing if and only if no two keys share a state file. */
  lemma NeverReuseIffSeparate(keys: set<string>)
    ensures Separate(keys) <==>
            forall d: Disk, es: seq<LaneEvent>, lane: string ::
              Over(es, keys) && lane in keys ==> Increasing(Handed(LaneRun(Fresh(d), es), lane))
  {
    if Separate(keys) {
      forall d: Disk, es: seq<LaneEvent>, lane: string | Over(es, keys) && lane in keys
        ensures Increasing(Handed(LaneRun(Fresh(d), es), lane))
      {
        LaneNeverReuse(d, es, keys, lane);
      }
    } else {
      var a, b :| a in keys && b in keys && a != b && Sanitize(a) == Sanitize(b);
      SharedFileReuses(a, b);
      var ns := Handed(LaneRun(Fresh(map[]), Collision(a, b)), a);
      assert Over(Collision(a, b), keys);
      assert ns[1] == ns[2];
      assert !Increasing(ns);
    }
  }
}
