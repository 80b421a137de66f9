/** When the delivery stream loses a record after all: a write that lands behind a line without its
    newline cannot be read, and a prune that sees only legible lines deletes it with the file. */
module DeliveryLoss {
  import opened Common
  import SeqAlloc
  import opened Outbox
  import opened Delivery

  /** The event puts bytes behind a line that has no newline. */
  predicate Glues(s: State, ev: Event) {
    && CanAppend(s) && s.wal[s.open.value].tail != []
    && ((ev.Append? && ev.e in s.flying && ev.reach != Nothing) || (ev.AppendUnnumbered? && ev.reach != Nothing))
  }

  predicate Glueless(s: State, evs: seq<Event>)
    decreases |evs|
  {
    evs == [] || (!Glues(s, evs[0]) && Glueless(Next(s, evs[0]), evs[1..]))
  }

  predicate Simple(w: WalFile) { forall i :: 0 <= i < |LinesOf(w)| ==> |LinesOf(w)[i]| <= 1 }

  ghost predicate AllSimple(s: State) { s.exposed == {} && forall f :: f in s.wal ==> Simple(s.wal[f]) }

  lemma {:induction false} SimpleReads(w: WalFile, e: Entry)
    requires Simple(w) && e in Held(w)
    ensures e in Readable(w)
  {
    HeldMeans(w, e);
    var i :| 0 <= i < |LinesOf(w)| && Whole(e) in LinesOf(w)[i];
    assert LinesOf(w)[i] == [Whole(e)];
    ReadIsReadable(w, e);
  }

  lemma {:induction false} WrittenSimple(w: WalFile, e: Entry, r: Reach)
    requires Simple(w) && (w.tail == [] || r == Nothing)
    ensures Simple(Written(w, e, r))
  {
    var t := Written(w, e, r);
    forall i | 0 <= i < |LinesOf(t)| ensures |LinesOf(t)[i]| <= 1 {
      assert i < |w.lines| ==> LinesOf(t)[i] == LinesOf(w)[i];
    }
  }

  lemma {:induction false} CutSimple(w: WalFile, c: Cut)
    requires Simple(w)
    ensures Simple(CutFile(w, c))
  {
    var t := CutFile(w, c);
    forall i | 0 <= i < |LinesOf(t)| ensures |LinesOf(t)[i]| <= 1 {
      assert i <= |w.lines| && |LinesOf(w)[i]| <= 1;
    }
  }

  lemma {:induction false} NextSimple(s: State, ev: Event)
    requires AllSimple(s) && !Glues(s, ev)
    ensures AllSimple(Next(s, ev))
  {
    var t := Next(s, ev);
    forall f | f in t.wal ensures Simple(t.wal[f]) {
      if ev.Crash? && Up(s) {
        CutSimple(s.wal[f], ev.keep(f));
      } else if f !in s.wal {
        assert LinesOf(t.wal[f]) == [[]];
      } else if t.wal[f] != s.wal[f] {
        var e := if ev.Append? then ev.e else LegacyEntry(ev.eventId, ev.payload);
        WrittenSimple(s.wal[f], e, ev.reach);
      }
    }
    if ev.Prune? && PruneEnabled(s, ev.file, ev.usage) {
      forall e | e in Held(s.wal[ev.file]) ensures !Exposed(s.wal[ev.file], e) {
        SimpleReads(s.wal[ev.file], e);
      }
    }
  }

  lemma {:induction false} RunsSimple(s: State, evs: seq<Event>)
    requires AllSimple(s) && Glueless(s, evs)
    ensures AllSimple(Runs(s, evs))
    decreases |evs|
  {
    if evs == [] {
    } else {
      NextSimple(s, evs[0]);
      RunsSimple(Next(s, evs[0]), evs[1..]);
    }
  }

  /** While no write lands behind an unended line, every pruned record is settled, and a record that
      reached the WAL can be read there, or is settled, or was given up. */
  lemma {:induction false} NoGlueNoLoss(cell: SeqAlloc.Cell, evs: seq<Event>)
    requires Glueless(Init(cell), evs)
    ensures var s := Runs(Init(cell), evs);
            && (forall e :: e in s.pruned && Numbered(e) ==> Settled(s.coll, e))
            && (forall e :: e in s.appended && Numbered(e) ==>
                  e in AllReadable(s.wal) || Settled(s.coll, e) || e in s.givenUp)
  {
    var s := Runs(Init(cell), evs);
    RunsSimple(Init(cell), evs);
    PruneSafety(cell, evs);
    forall e | e in s.appended && Numbered(e) ensures e in AllReadable(s.wal) || Settled(s.coll, e) || e in s.givenUp {
      NothingVanishes(cell, evs, e);
      if f :| f in s.wal && e in Held(s.wal[f]) {
        SimpleReads(s.wal[f], e);
        assert e in AllReadable(s.wal);
      }
    }
  }

  /** No bytes are written and nothing crashes: uploads, replies, write-offs, rotation, removal. */
  predicate Quiet(ev: Event) { !ev.Append? && !ev.AppendUnnumbered? && !ev.Crash? }

  /** What a file must hold for a prune to consider it at all. */
  predicate Deletable(w: WalFile) {
    && (forall r :: r in Readable(w) ==> Numbered(r) || r.eventId != "")
    && exists r :: r in Readable(w) && Numbered(r)
  }

  /** The file and its record from which a quiet run can lose it. */
  ghost predicate AtRisk(s: State, f: string, e: Entry) {
    f in s.wal && Exposed(s.wal[f], e) && Deletable(s.wal[f])
  }

  lemma {:induction false} SettledStays(s: State, ev: Event, e: Entry)
    requires Settled(s.coll, e)
    ensures Settled(Next(s, ev).coll, e)
  {
    if ev.Upload? && UploadEnabled(s, ev.batch, ev.landed, ev.outcome) {
      IngestGrows(s.coll, ev.landed);
    }
  }

  lemma {:induction false} SettledStaysLong(s: State, evs: seq<Event>, e: Entry)
    requires Settled(s.coll, e)
    ensures Settled(Runs(s, evs).coll, e)
    decreases |evs|
  {
    if evs == [] {
    } else {
      SettledStays(s, evs[0], e);
      SettledStaysLong(Next(s, evs[0]), evs[1..], e);
    }
  }

  lemma {:induction false} PrunableIsDeletable(s: State, file: string, usage: bool)
    requires Good(s) && PruneEnabled(s, file, usage)
    ensures Deletable(s.wal[file])
  {
    var w := s.wal[file];
    assert FileOk(w, s.appended, s.legible);
    forall r | r in Readable(w) ensures Numbered(r) || r.eventId != "" {
      ReadIsReadable(w, r);
      assert r in FileAt(s, file).entries && Genuine(s.stamped, r);
    }
    if usage {
      var r :| r in FileAt(s, file).entries && Numbered(r);
      ReadIsReadable(w, r);
    } else {
      var r := FileAt(s, file).entries[0];
      assert r in FileAt(s, file).entries;
      ReadIsReadable(w, r);
      assert ContentConfirmed(r, s.confirmed) && Genuine(s.stamped, r);
    }
  }

  lemma {:induction false} QuietFiles(s: State, ev: Event, f: string)
    requires Quiet(ev) && f in Next(s, ev).wal
    ensures if f in s.wal then Next(s, ev).wal[f] == s.wal[f] else Next(s, ev).wal[f] == WalFile([], [])
  {}

  lemma {:induction false} QuietRisk(s: State, ev: Event, f: string, e: Entry)
    requires Quiet(ev) && AtRisk(Next(s, ev), f, e)
    ensures AtRisk(s, f, e)
  {
    QuietFiles(s, ev, f);
    HeldMeans(WalFile([], []), e);
    assert LinesOf(WalFile([], [])) == [[]];
  }

  lemma {:induction false} PruneRisk(s: State, ev: Event, rest: seq<Event>, e: Entry)
    requires Good(s) && Numbered(e) && e !in s.pruned && e in Next(s, ev).pruned
    requires !Settled(Runs(Next(s, ev), rest).coll, e)
    ensures exists f :: AtRisk(s, f, e)
  {
    var t := Next(s, ev);
    assert ev.Prune? && PruneEnabled(s, ev.file, ev.usage) && e in Held(s.wal[ev.file]);
    PrunableIsDeletable(s, ev.file, ev.usage);
    if Covered(s.wal[ev.file], e) {
      PrunedIsSettled(s, ev.file, ev.usage, e);
      assert t.coll == s.coll;
      SettledStaysLong(t, rest, e);
    } else {
      assert AtRisk(s, ev.file, e);
    }
  }

  /** Quiet runs change no file, so what they lose was at risk from the start. */
  lemma {:induction false} QuietLoss(s: State, evs: seq<Event>, e: Entry)
    requires Good(s) && Numbered(e) && e !in s.pruned && forall ev :: ev in evs ==> Quiet(ev)
    requires e in Runs(s, evs).pruned && !Settled(Runs(s, evs).coll, e)
    ensures exists f :: AtRisk(s, f, e)
    decreases |evs|
  {
    var (ev, rest) := (evs[0], evs[1..]);
    if e in Next(s, ev).pruned {
      PruneRisk(s, ev, rest, e);
    } else {
      NextKeepsGood(s, ev);
      QuietLoss(Next(s, ev), rest, e);
      var f :| AtRisk(Next(s, ev), f, e);
      QuietRisk(s, ev, f, e);
    }
  }

  /** Everything up to the legible numbers of a file. */
  function KeysUpTo(rs: seq<Entry>): set<Key>
    decreases |rs|
  {
    if rs == [] then {}
    else
      var r := rs[|rs| - 1];
      KeysUpTo(rs[..|rs| - 1]) + if Numbered(r) then set n | 1 <= n <= r.seqNo :: (r.source, n) else {}
  }

  lemma {:induction false} KeysUpToIff(rs: seq<Entry>, k: Key)
    ensures k in KeysUpTo(rs) <==> exists r :: r in rs && Numbered(r) && r.source == k.0 && 1 <= k.1 <= r.seqNo
    decreases |rs|
  {
    if rs == [] {
    } else {
      KeysUpToIff(rs[..|rs| - 1], k);
      assert rs == rs[..|rs| - 1] + [rs[|rs| - 1]];
    }
  }

  /** The loss: the file is rotated away from, the collector accounts for what is legible in it and
      says so, and the prune deletes the rest with it. */
  function LosingRun(f: string, w: WalFile): seq<Event> {
    var rs := Read(w);
    [Rotate(f + "+"), WriteOff(KeysUpTo(rs)), Reply(rs), Prune(f, true)]
  }

  lemma {:induction false} MarksAreHonest(c: Collector, rs: seq<Entry>)
    requires KeysUpTo(rs) <= c.ledger
    ensures Honest(c, Advance(map[], rs))
  {
    var marks := Advance(map[], rs);
    forall src | src in marks ensures Contiguous(c, src, marks[src]) {
      AdvanceIsMax(map[], rs, src);
      forall n | 1 <= n <= marks[src] ensures Accounted(c, (src, n)) {
        KeysUpToIff(rs, (src, n));
      }
    }
  }

  lemma {:induction false} LegibleIsPrunable(s: State, f: string, confirmed: Cursor, seenV1: set<string>)
    requires f in s.wal && Deletable(s.wal[f])
    requires var marks := Advance(map[], Read(s.wal[f]));
             forall src :: src in marks ==> Get(confirmed, src) >= marks[src]
    requires SeenIds(Read(s.wal[f])) <= seenV1
    ensures UsagePrunable(FileAt(s, f), confirmed, seenV1, f + "+")
  {
    var (w, rs) := (s.wal[f], Read(s.wal[f]));
    assert |f + "+"| > |f|;
    forall r | r in rs ensures UsageConfirmed(r, confirmed, seenV1) {
      ReadIsReadable(w, r);
      AdvanceIsMax(map[], rs, r.source);
    }
    var r :| r in Readable(w) && Numbered(r);
    ReadIsReadable(w, r);
  }

  /** Accounting for what is legible leaves an exposed record unsettled. */
  lemma {:induction false} ExposedStaysUnsettled(c: Collector, w: WalFile, e: Entry)
    requires Exposed(w, e) && !Settled(c, e)
    ensures !Settled(c.(ledger := c.ledger + KeysUpTo(Read(w))), e)
  {
    KeysUpToIff(Read(w), KeyOf(e));
    forall r | r in Read(w) && Numbered(r) && r.source == e.source ensures r.seqNo < e.seqNo {
      ReadIsReadable(w, r);
    }
  }

  function Reply(rs: seq<Entry>): Event { Upload(rs, {}, Accepted(Some(Advance(map[], rs))), true) }

  lemma {:induction false} NothingLands(c: Collector)
    ensures Ingest(c, {}) == c
  {}

  /** A reply with the legible marks, nothing new having landed. */
  lemma {:induction false} ReplyEnabled(s: State, f: string)
    requires Good(s) && Up(s) && f in s.wal && KeysUpTo(Read(s.wal[f])) <= s.coll.ledger
    ensures UploadEnabled(s, Read(s.wal[f]), {}, Reply(Read(s.wal[f])).outcome)
  {
    var rs := Read(s.wal[f]);
    MarksAreHonest(s.coll, rs);
    assert FileOk(s.wal[f], s.appended, s.legible);
    forall r | r in rs ensures r in s.legible {
      ReadIsReadable(s.wal[f], r);
    }
    NothingLands(s.coll);
  }

  lemma {:induction false} ReplyEffect(s: State, rs: seq<Entry>)
    requires UploadEnabled(s, rs, {}, Reply(rs).outcome)
    ensures Next(s, Reply(rs)) == s.(sent := Advance(s.sent, rs), seenV1 := s.seenV1 + SeenIds(rs),
                                     confirmed := Lift(s.confirmed, Advance(map[], rs)))
  {
    NothingLands(s.coll);
  }

  /** After it the file may be pruned. */
  lemma {:induction false} ReplyMakesPrunable(s: State, f: string)
    requires Good(s) && Up(s) && f in s.wal && Deletable(s.wal[f]) && s.open == Some(f + "+")
    requires KeysUpTo(Read(s.wal[f])) <= s.coll.ledger
    ensures var t := Next(s, Reply(Read(s.wal[f])));
            PruneEnabled(t, f, true) && t.wal == s.wal && t.coll == s.coll
  {
    var rs := Read(s.wal[f]);
    ReplyEnabled(s, f);
    ReplyEffect(s, rs);
    LegibleIsPrunable(s, f, Lift(s.confirmed, Advance(map[], rs)), s.seenV1 + SeenIds(rs));
    assert |f + "+"| > |f|;
  }

  lemma {:induction false} ReplyThenPrune(s: State, f: string, e: Entry)
    requires Good(s) && Up(s) && AtRisk(s, f, e) && s.open == Some(f + "+") && !Settled(s.coll, e)
    requires KeysUpTo(Read(s.wal[f])) <= s.coll.ledger
    ensures var t := Next(Next(s, Reply(Read(s.wal[f]))), Prune(f, true));
            e in t.pruned && !Settled(t.coll, e)
  {
    ReplyMakesPrunable(s, f);
  }

  /** Rotating away and accounting for what is legible prepares it. */
  lemma {:induction false} Prepared(s: State, f: string, e: Entry)
    requires Good(s) && Up(s) && AtRisk(s, f, e) && !Settled(s.coll, e)
    ensures var t := Next(Next(s, Rotate(f + "+")), WriteOff(KeysUpTo(Read(s.wal[f]))));
            && Good(t) && Up(t) && f in t.wal && t.wal[f] == s.wal[f] && t.open == Some(f + "+")
            && KeysUpTo(Read(s.wal[f])) <= t.coll.ledger && !Settled(t.coll, e)
  {
    assert |f + "+"| > |f|;
    NextKeepsGood(s, Rotate(f + "+"));
    NextKeepsGood(Next(s, Rotate(f + "+")), WriteOff(KeysUpTo(Read(s.wal[f]))));
    ExposedStaysUnsettled(s.coll, s.wal[f], e);
  }

  lemma {:induction false} RunsOne(s: State, ev: Event, evs: seq<Event>)
    ensures Runs(s, [ev] + evs) == Runs(Next(s, ev), evs)
  {
    assert ([ev] + evs)[1..] == evs;
  }

  lemma {:induction false} RunsOfFour(s: State, a: Event, b: Event, c: Event, d: Event)
    ensures Runs(s, [a, b, c, d]) == Next(Next(Next(Next(s, a), b), c), d)
  {
    RunsOne(s, a, [b, c, d]);
    assert [a] + [b, c, d] == [a, b, c, d];
    RunsOne(Next(s, a), b, [c, d]);
    assert [b] + [c, d] == [b, c, d];
    RunsOne(Next(Next(s, a), b), c, [d]);
    assert [c] + [d] == [c, d];
    RunsOne(Next(Next(Next(s, a), b), c), d, []);
    assert [d] + [] == [d];
  }

  lemma {:induction false} LosingRunLoses(s: State, f: string, e: Entry)
    requires Good(s) && Up(s) && AtRisk(s, f, e) && !Settled(s.coll, e)
    ensures var t := Runs(s, LosingRun(f, s.wal[f]));
            e in t.pruned && !Settled(t.coll, e)
  {
    var rs := Read(s.wal[f]);
    RunsOfFour(s, Rotate(f + "+"), WriteOff(KeysUpTo(rs)), Reply(rs), Prune(f, true));
    Prepared(s, f, e);
    ReplyThenPrune(Next(Next(s, Rotate(f + "+")), WriteOff(KeysUpTo(rs))), f, e);
  }

  ghost predicate LostBy(s: State, evs: seq<Event>, e: Entry) {
    && (forall ev :: ev in evs ==> Quiet(ev))
    && e in Runs(s, evs).pruned && !Settled(Runs(s, evs).coll, e)
  }

  /** The exact condition, at every state of every run: uploads, honest replies, rotation and prunes
      alone can delete an unsettled record if and only if some file holds it illegibly, above every
      legible number of its source, beside a record that makes the file one for pruning. */
  lemma {:induction false} LossPossibleIff(cell: SeqAlloc.Cell, before: seq<Event>, e: Entry)
    requires var s := Runs(Init(cell), before);
             Up(s) && Numbered(e) && e !in s.pruned && !Settled(s.coll, e)
    ensures var s := Runs(Init(cell), before);
            (exists evs :: LostBy(s, evs, e)) <==> exists f :: AtRisk(s, f, e)
  {
    var s := Runs(Init(cell), before);
    InitIsGood(cell);
    RunsKeepGood(Init(cell), before);
    if evs :| LostBy(s, evs, e) {
      QuietLoss(s, evs, e);
    }
    if f :| AtRisk(s, f, e) {
      LosingRunLoses(s, f, e);
      assert LostBy(s, LosingRun(f, s.wal[f]), e);
    }
  }

  /** A record written behind an unended line is lost to the reader, and so is what stood there. */
  lemma {:induction false} GluedIsIllegible(w: WalFile, e: Entry, x: Entry)
    requires w.tail != []
    ensures x in Readable(Written(w, e, Full)) <==> x in Readable(WalFile(w.lines, []))
  {
    var (t, u) := (Written(w, e, Full), WalFile(w.lines, []));
    ReadIsReadable(t, x);
    ReadIsReadable(u, x);
    assert LinesOf(t) == w.lines + [w.tail + [Whole(e)]] + [[]] && LinesOf(u) == w.lines + [[]];
    assert |w.tail + [Whole(e)]| > 1;
  }

  /** So every append of the highest number onto a torn tail, in a file that is otherwise one for
      pruning, puts its record at risk. */
  lemma {:induction false} GlueExposes(s: State, e: Entry)
    requires CanAppend(s) && e in s.flying && Numbered(e) && s.wal[s.open.value].tail != []
    requires var w := WalFile(s.wal[s.open.value].lines, []); Deletable(w) && !Covered(w, e)
    ensures AtRisk(Next(s, Append(e, Full)), s.open.value, e)
  {
    var w := s.wal[s.open.value];
    var (t, u) := (Written(w, e, Full), WalFile(w.lines, []));
    WrittenHolds(w, e, Full, e);
    forall x ensures x in Readable(t) <==> x in Readable(u) {
      GluedIsIllegible(w, e, x);
    }
  }

  // The smallest such run: record 1 is written, record 2 is cut short by a crash, and after the
  // restart record 257 is appended to the same file.

  function Rec(n: int): Entry { Entry("s", n, WAL_SCHEMA_V2, "", "", "", 0) }

  const FILE := "hour"

  const STAMP := Stamp(true, "s", "", "", 0)

  const KEEP := Crash(f => Cut(9, 9, false), false)

  /** A process at number `next` with one file open. */
  predicate Shows(s: State, next: int, w: WalFile) {
    && s.alloc.proc == Some(SeqAlloc.Process(SeqAlloc.Alloc(next, if next <= 257 then 256 else 512, 256), false))
    && s.alloc.cell == SeqAlloc.Number(if next <= 257 then 256 else 512)
    && s.open == Some(FILE) && s.wal == map[FILE := w] && s.coll == Collector(map[], {}) && s.pruned == {}
  }

  lemma {:induction false} FirstRecord()
    ensures var s := Runs(Init(SeqAlloc.Absent), [Boot(256), Rotate(FILE), STAMP, Append(Rec(1), Full)]);
            Shows(s, 2, WalFile([[Whole(Rec(1))]], []))
  {
    RunsOfFour(Init(SeqAlloc.Absent), Boot(256), Rotate(FILE), STAMP, Append(Rec(1), Full));
    var a := Next(Next(Init(SeqAlloc.Absent), Boot(256)), Rotate(FILE));
    assert a.wal == map[FILE := WalFile([], [])];
    var b := Next(a, STAMP);
    assert b.alloc.handed == [1] && Rec(1) in b.flying;
    var noLines: seq<Line> := [];
    var noPieces: Line := [];
    assert noPieces + [Whole(Rec(1))] == [Whole(Rec(1))] && noLines + [[Whole(Rec(1))]] == [[Whole(Rec(1))]];
  }

  lemma {:induction false} TornRecord(s: State, w: WalFile)
    requires Shows(s, 2, w)
    ensures var t := Runs(s, [STAMP, Append(Rec(2), Part), KEEP, Boot(256)]);
            && t.alloc.proc == Some(SeqAlloc.Process(SeqAlloc.Alloc(257, 256, 256), true))
            && t.alloc.cell == SeqAlloc.Number(256)
            && t.open == None && t.wal == map[FILE := CutFile(w.(tail := w.tail + [Scrap]), Cut(9, 9, false))]
            && t.coll == Collector(map[], {}) && t.pruned == {}
  {
    RunsOfFour(s, STAMP, Append(Rec(2), Part), KEEP, Boot(256));
    var a := Next(s, STAMP);
    assert a.alloc.handed == s.alloc.handed + [2] && Rec(2) in a.flying;
    var b := Next(a, Append(Rec(2), Part));
    assert b.wal == map[FILE := w.(tail := w.tail + [Scrap])];
  }

  lemma {:induction false} GluedRecord(s: State, w: WalFile)
    requires s.alloc.proc == Some(SeqAlloc.Process(SeqAlloc.Alloc(257, 256, 256), true))
    requires s.alloc.cell == SeqAlloc.Number(256)
    requires s.open == None && s.wal == map[FILE := w] && s.coll == Collector(map[], {}) && s.pruned == {}
    ensures var t := Next(Next(s, Rotate(FILE)), STAMP);
            Shows(t, 258, w) && Rec(257) in t.flying
  {
    var t := Next(Next(s, Rotate(FILE)), STAMP);
    assert t.alloc.handed == s.alloc.handed + [257];
  }

  lemma {:induction false} OneLineReads(x: Entry)
    ensures forall y :: y in Readable(WalFile([[Whole(x)]], [])) <==> y == x
  {
    forall y ensures y in Readable(WalFile([[Whole(x)]], [])) <==> y == x {
      ReadIsReadable(WalFile([[Whole(x)]], []), y);
      assert LinesOf(WalFile([[Whole(x)]], [])) == [[Whole(x)], []];
    }
  }

  function TornRun(): seq<Event> {
    [Boot(256), Rotate(FILE), STAMP, Append(Rec(1), Full)]
    + [STAMP, Append(Rec(2), Part), KEEP, Boot(256)]
    + [Rotate(FILE), STAMP, Append(Rec(257), Full)]
  }

  lemma {:induction false} RunsInTwo(s: State, a: seq<Event>, b: seq<Event>)
    ensures Runs(s, a + b) == Runs(Runs(s, a), b)
    decreases |a|
  {
    if a == [] {
      assert a + b == b;
    } else {
      assert (a + b)[0] == a[0] && (a + b)[1..] == a[1..] + b;
      RunsInTwo(Next(s, a[0]), a[1..], b);
    }
  }

  lemma {:induction false} RunsOfThree(s: State, a: Event, b: Event, c: Event)
    ensures Runs(s, [a, b, c]) == Next(Next(Next(s, a), b), c)
  {
    RunsOne(s, a, [b, c]);
    assert [a] + [b, c] == [a, b, c];
    RunsOne(Next(s, a), b, [c]);
    assert [b] + [c] == [b, c];
    RunsOne(Next(Next(s, a), b), c, []);
    assert [c] + [] == [c];
  }

  /** The last three events, from a restart that finds the torn line. */
  lemma {:induction false} GluedAtRisk(s: State)
    requires s.alloc.proc == Some(SeqAlloc.Process(SeqAlloc.Alloc(257, 256, 256), true))
    requires s.alloc.cell == SeqAlloc.Number(256)
    requires s.open == None && s.wal == map[FILE := WalFile([[Whole(Rec(1))]], [Scrap])]
    requires s.coll == Collector(map[], {}) && s.pruned == {}
    ensures var t := Runs(s, [Rotate(FILE), STAMP, Append(Rec(257), Full)]);
            Rec(257) in t.appended && Up(t) && AtRisk(t, FILE, Rec(257)) && t.coll == Collector(map[], {})
  {
    RunsOfThree(s, Rotate(FILE), STAMP, Append(Rec(257), Full));
    GluedRecord(s, WalFile([[Whole(Rec(1))]], [Scrap]));
    var c := Next(Next(s, Rotate(FILE)), STAMP);
    OneLineReads(Rec(1));
    GlueExposes(c, Rec(257));
  }

  lemma {:induction false} TornRunAtRisk()
    ensures var s := Runs(Init(SeqAlloc.Absent), TornRun());
            Rec(257) in s.appended && Up(s) && AtRisk(s, FILE, Rec(257)) && s.coll == Collector(map[], {})
  {
    var p := [Boot(256), Rotate(FILE), STAMP, Append(Rec(1), Full)];
    var q := [STAMP, Append(Rec(2), Part), KEEP, Boot(256)];
    FirstRecord();
    TornRecord(Runs(Init(SeqAlloc.Absent), p), WalFile([[Whole(Rec(1))]], []));
    var none: Line := [];
    assert none + [Scrap] == [Scrap];
    GluedAtRisk(Runs(Runs(Init(SeqAlloc.Absent), p), q));
    RunsInTwo(Init(SeqAlloc.Absent), p, q);
    RunsInTwo(Init(SeqAlloc.Absent), p + q, [Rotate(FILE), STAMP, Append(Rec(257), Full)]);
  }

  /** Record 257 was appended without an error and is deleted unsettled. */
  lemma {:induction false} TornTailLoses()
    ensures var s := Runs(Init(SeqAlloc.Absent), TornRun());
            && Rec(257) in s.appended && FILE in s.wal
            && var t := Runs(s, LosingRun(FILE, s.wal[FILE])); Rec(257) in t.pruned && !Settled(t.coll, Rec(257))
  {
    TornRunAtRisk();
    InitIsGood(SeqAlloc.Absent);
    RunsKeepGood(Init(SeqAlloc.Absent), TornRun());
    LosingRunLoses(Runs(Init(SeqAlloc.Absent), TornRun()), FILE, Rec(257));
  }
}
