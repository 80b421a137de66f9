/** Whole runs of one delivery stream: a client that allocates, appends, uploads, prunes, crashes
    and restarts, against a collector that stores, refuses, answers or stays silent.

    The client is the allocator of `SeqAlloc` plus the WAL and cursors of `Outbox`; the collector
    is abstract: what it holds, what it has written off, and replies that are honest about the
    contiguous mark.  The same system covers the content stream (any number of sources on one
    allocator) and the usage stream of a source with one lane. */
module Delivery {
  import opened Common
  import opened SeqAlloc
  import opened Outbox

  type Key = (string, int)

  function KeyOf(e: Entry): Key { (e.source, e.seqNo) }

  /** The collector: the record it holds under each key, and the keys it has ledgered as lost. */
  datatype Collector = Collector(stored: map<Key, Entry>, ledger: set<Key>)

  predicate Accounted(c: Collector, k: Key) { k in c.stored || k in c.ledger }

  /** What a contiguous mark means: everything up to it is accounted for. */
  predicate Contiguous(c: Collector, source: string, mark: int) {
    forall n :: 1 <= n <= mark ==> Accounted(c, (source, n))
  }

  predicate Honest(c: Collector, marks: Cursor) {
    forall s :: s in marks ==> Contiguous(c, s, marks[s])
  }

  /** Storing a batch: the first record under a key wins, later ones are duplicates. */
  function Ingest(c: Collector, landed: set<Entry>): Collector
    requires OnePerKey(landed)
  {
    c.(stored := map k | k in c.stored.Keys + (set e | e in landed :: KeyOf(e)) ::
                   if k in c.stored then c.stored[k]
                   else var e :| e in landed && KeyOf(e) == k; e)
  }

  predicate OnePerKey(es: set<Entry>) {
    forall e, f :: e in es && f in es && KeyOf(e) == KeyOf(f) ==> e == f
  }

  // ---------------------------------------------------------------------------------------
  // Files that can tear.
  // ---------------------------------------------------------------------------------------

  /** What one write leaves behind: a whole record, or bytes that are not one. */
  datatype Piece = Whole(entry: Entry) | Scrap

  /** A line is what was written between two newlines; writes that lack theirs run together. */
  type Line = seq<Piece>

  datatype WalFile = WalFile(lines: seq<Line>, tail: Line)

  function LinesOf(w: WalFile): seq<Line> { w.lines + [w.tail] }

  predicate Legible(l: Line) { |l| == 1 && l[0].Whole? }

  /** What the reader makes of the lines: one that is not exactly one record is skipped, and the
      last needs no newline. */
  function Parsed(ls: seq<Line>): seq<Entry>
    decreases |ls|
  {
    if ls == [] then []
    else Parsed(ls[..|ls| - 1]) + if Legible(ls[|ls| - 1]) then [ls[|ls| - 1][0].entry] else []
  }

  function Read(w: WalFile): seq<Entry> { Parsed(LinesOf(w)) }

  /** The records whose bytes are all there, legible or not. */
  function Held(w: WalFile): set<Entry> {
    set l, p | l in LinesOf(w) && p in l && p.Whole? :: p.entry
  }

  function Readable(w: WalFile): set<Entry> {
    set l: Line | l in LinesOf(w) && Legible(l) :: l[0].entry
  }

  /** How far a write got: all of it, all but the newline, some of it, nothing. */
  datatype Reach = Full | Unended | Part | Nothing

  function Written(w: WalFile, e: Entry, r: Reach): WalFile {
    match r
    case Full => WalFile(w.lines + [w.tail + [Whole(e)]], [])
    case Unended => w.(tail := w.tail + [Whole(e)])
    case Part => w.(tail := w.tail + [Scrap])
    case Nothing => w
  }

  /** What a crash leaves of a file: some lines, and of what follows some pieces and a scrap. */
  datatype Cut = Cut(lines: nat, pieces: nat, scrap: bool)

  function Prefix(l: Line, pieces: nat, scrap: bool): Line {
    if pieces >= |l| then l else l[..pieces] + if scrap then [Scrap] else []
  }

  function CutFile(w: WalFile, c: Cut): WalFile {
    if c.lines < |w.lines| then WalFile(w.lines[..c.lines], Prefix(w.lines[c.lines], c.pieces, c.scrap))
    else WalFile(w.lines, Prefix(w.tail, c.pieces, c.scrap))
  }

  lemma {:induction false} ParsedIff(ls: seq<Line>, e: Entry)
    ensures e in Parsed(ls) <==> [Whole(e)] in ls
    decreases |ls|
  {
    if ls == [] {
    } else {
      var (init, l) := (ls[..|ls| - 1], ls[|ls| - 1]);
      ParsedIff(init, e);
      assert ls == init + [l];
      assert Legible(l) ==> l == [Whole(l[0].entry)];
    }
  }

  lemma {:induction false} ReadIsReadable(w: WalFile, e: Entry)
    ensures e in Read(w) <==> e in Readable(w)
    ensures e in Readable(w) <==> [Whole(e)] in LinesOf(w)
    ensures e in Readable(w) ==> e in Held(w)
  {
    ParsedIff(LinesOf(w), e);
    if e in Readable(w) {
      var l: Line :| l in LinesOf(w) && Legible(l) && l[0].entry == e;
      assert l == [Whole(e)];
    }
    if [Whole(e)] in LinesOf(w) {
      assert Legible([Whole(e)]);
      assert Whole(e) in [Whole(e)];
    }
  }

  lemma {:induction false} HeldMeans(w: WalFile, e: Entry)
    ensures e in Held(w) <==> exists i :: 0 <= i < |LinesOf(w)| && Whole(e) in LinesOf(w)[i]
  {
    if i :| 0 <= i < |LinesOf(w)| && Whole(e) in LinesOf(w)[i] {
      assert LinesOf(w)[i] in LinesOf(w);
    }
    if e in Held(w) {
      var l, p :| l in LinesOf(w) && p in l && p.Whole? && p.entry == e;
      assert p == Whole(e);
      var i :| 0 <= i < |LinesOf(w)| && LinesOf(w)[i] == l;
    }
  }

  /** A write adds its own record if all of it got there, and takes none away. */
  lemma {:induction false} WrittenHolds(w: WalFile, e: Entry, r: Reach, x: Entry)
    ensures x in Held(Written(w, e, r)) <==> x in Held(w) || (x == e && (r.Full? || r.Unended?))
  {
    var t := Written(w, e, r);
    HeldMeans(w, x);
    HeldMeans(t, x);
    var n := |w.lines|;
    assert LinesOf(w)[n] == w.tail;
    assert forall i :: 0 <= i < n ==> LinesOf(w)[i] == w.lines[i] == LinesOf(t)[i];
    assert r.Full? ==> LinesOf(t)[n] == w.tail + [Whole(e)] && LinesOf(t)[n + 1] == [];
    assert !r.Full? ==> LinesOf(t)[n] == t.tail;
    if x in Held(t) {
      var i :| 0 <= i < |LinesOf(t)| && Whole(x) in LinesOf(t)[i];
      assert i < n || i == n;
    }
    if x in Held(w) {
      var i :| 0 <= i < |LinesOf(w)| && Whole(x) in LinesOf(w)[i];
      assert Whole(x) in LinesOf(t)[i];
    }
    if x == e && (r.Full? || r.Unended?) {
      assert (w.tail + [Whole(e)])[|w.tail|] == Whole(e);
      assert Whole(e) in LinesOf(t)[n];
    }
  }

  /** A crash holds on to nothing that was not there. */
  lemma {:induction false} CutHolds(w: WalFile, c: Cut, x: Entry)
    requires x in Held(CutFile(w, c))
    ensures x in Held(w)
  {
    var t := CutFile(w, c);
    HeldMeans(t, x);
    HeldMeans(w, x);
    var i :| 0 <= i < |LinesOf(t)| && Whole(x) in LinesOf(t)[i];
    assert Whole(x) in LinesOf(w)[i];
  }

  // ---------------------------------------------------------------------------------------

  /** `flying` holds records that have their number but have not reached the WAL.
      The last six fields are history: the record each number was stamped on, the records whose
      bytes reached the WAL, those a reader could make out at some time, and those later removed by
      a prune or given up (evicted by the disk cap, or unsynced when power was lost); `exposed` are
      the pruned ones that were illegible and above every number legible in their file. */
  datatype State = State(alloc: Sys, flying: set<Entry>, wal: map<string, WalFile>, open: Option<string>,
                         sent: Cursor, confirmed: Cursor, seenV1: set<string>, coll: Collector,
                         stamped: map<int, Entry>, appended: set<Entry>, legible: set<Entry>,
                         pruned: set<Entry>, exposed: set<Entry>, givenUp: set<Entry>)

  datatype Event =
    | Boot(block: int)
    | Stamp(wrote: bool, source: string, eventId: string, route: string, payload: int)
    | Append(e: Entry, reach: Reach)                     // a failed append loses the record
    | AppendUnnumbered(eventId: string, payload: int, reach: Reach)  // a legacy entry
    | Rotate(file: string)                               // open a file, new or existing
    | Upload(batch: seq<Entry>, landed: set<Entry>, outcome: Outcome, usage: bool)
    | WriteOff(keys: set<Key>)                           // confirm-lost, or the collector's own promotion
    | Prune(file: string, usage: bool)
    | Evict(file: string)
    | CloseAlloc(wrote: bool)
    | Crash(keep: string -> Cut, inReserve: bool)        // only a prefix of each file need survive

  function AllHeld(wal: map<string, WalFile>): set<Entry> {
    set f, e | f in wal && e in Held(wal[f]) :: e
  }

  function AllReadable(wal: map<string, WalFile>): set<Entry> {
    set f, e | f in wal && e in Readable(wal[f]) :: e
  }

  function FileAt(s: State, file: string): File
    requires file in s.wal
  {
    File(file, true, Read(s.wal[file]))
  }

  function CutAll(wal: map<string, WalFile>, keep: string -> Cut): map<string, WalFile> {
    map f | f in wal :: CutFile(wal[f], keep(f))
  }

  predicate Up(s: State) { s.alloc.proc.Some? }

  function CurrentName(s: State): string { if s.open.Some? then s.open.value else "" }

  /** A batch may hold anything that was ever read from the WAL: the drain reads first and uploads
      later, and a reconcile re-sends below the cursor. */
  predicate UploadEnabled(s: State, batch: seq<Entry>, landed: set<Entry>, outcome: Outcome) {
    && Up(s)
    && (forall e :: e in batch ==> e in s.legible)
    && (forall e :: e in landed ==> e in batch && Numbered(e))
    && OnePerKey(landed)
    && (outcome.Accepted? && outcome.reply.Some? ==> Honest(Ingest(s.coll, landed), outcome.reply.value))
  }

  predicate PruneEnabled(s: State, file: string, usage: bool) {
    && Up(s) && file in s.wal && s.open != Some(file)
    && if usage then UsagePrunable(FileAt(s, file), s.confirmed, s.seenV1, CurrentName(s))
       else ContentPrunable(FileAt(s, file), s.confirmed, CurrentName(s))
  }

  /** Some legible record of the same source has a number at least as high. */
  predicate Covered(w: WalFile, e: Entry) {
    exists r :: r in Readable(w) && Numbered(r) && r.source == e.source && r.seqNo >= e.seqNo
  }

  /** A numbered record the reader cannot make out, above everything it can. */
  predicate Exposed(w: WalFile, e: Entry) { e in Held(w) && Numbered(e) && !Covered(w, e) }

  predicate CanAppend(s: State) { Up(s) && s.open.Some? && s.open.value in s.wal }

  function LegacyEntry(eventId: string, payload: int): Entry { Entry("", 0, 1, eventId, "", "", payload) }

  /** The open file after a write. */
  function Appended(s: State, e: Entry, r: Reach): State
    requires CanAppend(s)
  {
    var w := Written(s.wal[s.open.value], e, r);
    s.(wal := s.wal[s.open.value := w],
       appended := s.appended + (if r.Full? || r.Unended? then {e} else {}),
       legible := s.legible + Readable(w))
  }

  /** An event that is not enabled changes nothing. */
  function Next(s: State, ev: Event): State {
    match ev
    case Boot(block) => s.(alloc := SeqAlloc.Step(s.alloc, Start(block)))
    case Stamp(wrote, source, eventId, route, payload) =>
      if !Up(s) then s
      else
        var a := SeqAlloc.Step(s.alloc, SeqAlloc.Next(wrote));
        if a.handed == s.alloc.handed then s.(alloc := a)
        else
          var n := a.handed[|a.handed| - 1];
          var e := Entry(source, n, WAL_SCHEMA_V2, eventId, route, "", payload);
          s.(alloc := a, flying := s.flying + {e}, stamped := s.stamped[n := e])
    case Append(e, reach) =>
      if !CanAppend(s) || e !in s.flying then s else Appended(s.(flying := s.flying - {e}), e, reach)
    case AppendUnnumbered(eventId, payload, reach) =>
      if !CanAppend(s) then s else Appended(s, LegacyEntry(eventId, payload), reach)
    case Rotate(file) =>
      if !Up(s) then s
      else s.(open := Some(file), wal := if file in s.wal then s.wal else s.wal[file := WalFile([], [])])
    case Upload(batch, landed, outcome, usage) =>
      var done := if usage then GroupDone(outcome) else BatchDone(outcome);
      if !UploadEnabled(s, batch, landed, outcome) then s
      else
        s.(coll := Ingest(s.coll, landed),
           sent := if done then Advance(s.sent, batch) else s.sent,
           seenV1 := if done then s.seenV1 + SeenIds(batch) else s.seenV1,
           confirmed := Confirm(s.confirmed, outcome))
    case WriteOff(keys) => s.(coll := s.coll.(ledger := s.coll.ledger + keys))
    case Prune(file, usage) =>
      if !PruneEnabled(s, file, usage) then s
      else
        var w := s.wal[file];
        s.(wal := s.wal - {file}, pruned := s.pruned + Held(w),
           exposed := s.exposed + set e | e in Held(w) && Exposed(w, e))
    case Evict(file) =>
      if !Up(s) || file !in s.wal || s.open == Some(file) then s
      else s.(wal := s.wal - {file}, givenUp := s.givenUp + Held(s.wal[file]))
    case CloseAlloc(wrote) => s.(alloc := SeqAlloc.Step(s.alloc, SeqAlloc.Close(wrote)))
    case Crash(keep, inReserve) =>
      if !Up(s) then s
      else
        var wal := CutAll(s.wal, keep);
        s.(alloc := SeqAlloc.Step(s.alloc, if inReserve then CrashInReserve else Exit),
           flying := {}, wal := wal, open := None,
           sent := map[], confirmed := map[], seenV1 := {},
           legible := s.legible + AllReadable(wal),
           givenUp := s.givenUp + (AllHeld(s.wal) - AllHeld(wal)))
  }

  function Runs(s: State, evs: seq<Event>): State
    decreases |evs|
  {
    if evs == [] then s else Runs(Next(s, evs[0]), evs[1..])
  }

  /** A new installation against a collector that knows nothing of its sources. */
  function Init(cell: Cell): State {
    State(SeqAlloc.Boot(cell), {}, map[], None, map[], map[], {}, Collector(map[], {}), map[], {}, {}, {}, {}, {})
  }

  // ---------------------------------------------------------------------------------------
  // The invariant.
  // ---------------------------------------------------------------------------------------

  /** A numbered record is the one its number was stamped on; any other is a legacy one. */
  predicate Genuine(stamped: map<int, Entry>, e: Entry) {
    if Numbered(e) then e.seqNo in stamped && stamped[e.seqNo] == e else e.source == "" && e.seqNo == 0
  }

  ghost predicate AllocInv(s: State) {
    && Inv(s.alloc)
    && (forall n :: n in s.stamped <==> n in s.alloc.handed)
    && (forall n :: n in s.stamped ==> s.stamped[n].seqNo == n && n >= 1)
  }

  ghost predicate RecordInv(s: State) {
    && (forall e :: e in s.flying ==> Numbered(e) && Genuine(s.stamped, e))
    && (forall e :: e in s.appended ==> Genuine(s.stamped, e))
    && s.legible <= s.appended
    && (forall k :: k in s.coll.stored ==>
          Numbered(s.coll.stored[k]) && KeyOf(s.coll.stored[k]) == k && s.coll.stored[k] in s.legible)
  }

  /** Every file holds appended records, and what can be read in it counts as read. */
  predicate FileOk(w: WalFile, appended: set<Entry>, legible: set<Entry>) {
    Held(w) <= appended && Readable(w) <= legible
  }

  ghost predicate FilesInv(s: State) { forall f :: f in s.wal ==> FileOk(s.wal[f], s.appended, s.legible) }

  /** The collector holds this very record, or has ledgered its key. */
  predicate Settled(c: Collector, e: Entry) {
    (KeyOf(e) in c.stored && c.stored[KeyOf(e)] == e) || KeyOf(e) in c.ledger
  }

  ghost predicate PruneInv(s: State) {
    && Honest(s.coll, s.confirmed)
    && (forall e :: e in s.pruned && Numbered(e) && e !in s.exposed ==> Settled(s.coll, e))
  }

  ghost predicate KeptInv(s: State) {
    forall e :: e in s.appended ==> Somewhere(s.wal, e) || e in s.pruned || e in s.givenUp
  }

  ghost predicate Somewhere(wal: map<string, WalFile>, e: Entry) { exists f :: f in wal && e in Held(wal[f]) }

  ghost predicate Good(s: State) {
    AllocInv(s) && RecordInv(s) && FilesInv(s) && PruneInv(s) && KeptInv(s)
  }

  /** A new number was never stamped before. */
  lemma StampIsNew(s: State, wrote: bool)
    requires AllocInv(s) && Up(s)
    ensures var a := SeqAlloc.Step(s.alloc, SeqAlloc.Next(wrote));
            a.handed != s.alloc.handed ==>
              var n := a.handed[|a.handed| - 1];
              a.handed == s.alloc.handed + [n] && n !in s.stamped && n >= 1
  {
    StepKeepsInv(s.alloc, SeqAlloc.Next(wrote));
    var a := SeqAlloc.Step(s.alloc, SeqAlloc.Next(wrote));
    if a.handed != s.alloc.handed {
      var n := a.handed[|a.handed| - 1];
      assert a.handed == s.alloc.handed + [n] && n > Mark(s.alloc).value;
    }
  }

  /** So stamping it displaces nothing. */
  lemma StampKeeps(s: State, ev: Event)
    requires Good(s) && ev.Stamp?
    ensures Good(Next(s, ev))
  {
    if Up(s) {
      var t := Next(s, ev);
      StepKeepsInv(s.alloc, SeqAlloc.Next(ev.wrote));
      StampIsNew(s, ev.wrote);
      if t.alloc.handed != s.alloc.handed {
        var n := t.alloc.handed[|t.alloc.handed| - 1];
        assert AllocInv(t) by {
          assert forall m :: m in t.alloc.handed <==> m in s.alloc.handed || m == n;
        }
        StampedRecords(s, t, t.stamped[n]);
      }
    }
  }

  lemma {:induction false} StampedRecords(s: State, t: State, e: Entry)
    requires RecordInv(s) && Numbered(e) && e.seqNo !in s.stamped
    requires t.flying == s.flying + {e} && t.stamped == s.stamped[e.seqNo := e]
    requires t.appended == s.appended && t.legible == s.legible && t.coll == s.coll
    ensures RecordInv(t)
  {}

  /** Ingesting only adds keys, and what it adds are the records of the batch. */
  lemma IngestGrows(c: Collector, landed: set<Entry>)
    requires OnePerKey(landed)
    ensures forall k :: k in c.stored ==> k in Ingest(c, landed).stored && Ingest(c, landed).stored[k] == c.stored[k]
    ensures forall k :: k in Ingest(c, landed).stored && k !in c.stored ==>
              Ingest(c, landed).stored[k] in landed && KeyOf(Ingest(c, landed).stored[k]) == k
    ensures Ingest(c, landed).ledger == c.ledger
  {
    forall k | k in Ingest(c, landed).stored && k !in c.stored
      ensures Ingest(c, landed).stored[k] in landed && KeyOf(Ingest(c, landed).stored[k]) == k
    {
      var e :| e in landed && KeyOf(e) == k;
    }
  }

  lemma GrowthKeepsMarks(c: Collector, d: Collector, marks: Cursor)
    requires c.stored.Keys <= d.stored.Keys && c.ledger <= d.ledger
    requires Honest(c, marks)
    ensures Honest(d, marks)
  {
    forall s | s in marks ensures Contiguous(d, s, marks[s]) {
      assert Contiguous(c, s, marks[s]);
      forall n | 1 <= n <= marks[s] ensures Accounted(d, (s, n)) {
        assert Accounted(c, (s, n));
      }
    }
  }

  lemma UploadKeeps(s: State, ev: Event)
    requires Good(s) && ev.Upload?
    ensures Good(Next(s, ev))
  {
    if UploadEnabled(s, ev.batch, ev.landed, ev.outcome) {
      IngestGrows(s.coll, ev.landed);
      var c := Ingest(s.coll, ev.landed);
      GrowthKeepsMarks(s.coll, c, s.confirmed);
      var t := Next(s, ev);
      forall src | src in t.confirmed ensures Contiguous(c, src, t.confirmed[src]) {
        var o := ev.outcome;
        if o.Accepted? && o.reply.Some? {
          assert t.confirmed[src] == Get(t.confirmed, src);
          if src in o.reply.value && o.reply.value[src] > Get(s.confirmed, src) {
            assert Contiguous(c, src, o.reply.value[src]);
          }
        }
      }
      assert Honest(t.coll, t.confirmed);
    }
  }

  /** At or below the confirmed mark, a genuine record is settled. */
  lemma ConfirmedIsSettled(s: State, e: Entry)
    requires Good(s) && Numbered(e) && Genuine(s.stamped, e)
    requires e.seqNo <= Get(s.confirmed, e.source)
    ensures Settled(s.coll, e)
  {
    assert e.source in s.confirmed;
    assert Contiguous(s.coll, e.source, s.confirmed[e.source]);
    assert Accounted(s.coll, (e.source, e.seqNo));
  }

  /** What a prune deletes is settled, unless it was exposed. */
  lemma {:induction false} PrunedIsSettled(s: State, file: string, usage: bool, e: Entry)
    requires Good(s) && PruneEnabled(s, file, usage) && e in Held(s.wal[file]) && Numbered(e)
    requires Covered(s.wal[file], e)
    ensures Settled(s.coll, e)
  {
    var w := s.wal[file];
    var r :| r in Readable(w) && Numbered(r) && r.source == e.source && r.seqNo >= e.seqNo;
    ReadIsReadable(w, r);
    PrunedIsConfirmed(FileAt(s, file), s.confirmed, s.seenV1, CurrentName(s), r);
    assert FileOk(w, s.appended, s.legible);
    ConfirmedIsSettled(s, e);
  }

  lemma {:induction false} RemovedFileKeeps(s: State, t: State, file: string)
    requires FilesInv(s) && KeptInv(s) && file in s.wal && t.wal == s.wal - {file}
    requires t.appended == s.appended && t.legible == s.legible
    requires Held(s.wal[file]) <= t.pruned + t.givenUp && s.pruned <= t.pruned && s.givenUp <= t.givenUp
    ensures FilesInv(t) && KeptInv(t)
  {
    forall e | e in t.appended ensures Somewhere(t.wal, e) || e in t.pruned || e in t.givenUp {
      if f :| f in s.wal && e in Held(s.wal[f]) {
        assert f == file || (f in t.wal && e in Held(t.wal[f]));
      }
    }
  }

  lemma {:induction false} PruneKeeps(s: State, file: string, usage: bool)
    requires Good(s)
    ensures Good(Next(s, Prune(file, usage)))
  {
    if PruneEnabled(s, file, usage) {
      var t := Next(s, Prune(file, usage));
      RemovedFileKeeps(s, t, file);
      forall e | e in t.pruned && Numbered(e) && e !in t.exposed ensures Settled(t.coll, e) {
        if e in Held(s.wal[file]) {
          assert Covered(s.wal[file], e);
          PrunedIsSettled(s, file, usage, e);
        }
      }
    }
  }

  lemma {:induction false} EvictKeeps(s: State, file: string)
    requires Good(s)
    ensures Good(Next(s, Evict(file)))
  {
    var t := Next(s, Evict(file));
    if t.wal != s.wal {
      RemovedFileKeeps(s, t, file);
    }
  }

  lemma {:induction false} CutKeeps(s: State, t: State, keep: string -> Cut)
    requires FilesInv(s) && KeptInv(s) && t.wal == CutAll(s.wal, keep)
    requires t.appended == s.appended && t.legible == s.legible + AllReadable(t.wal)
    requires t.pruned == s.pruned && t.givenUp == s.givenUp + (AllHeld(s.wal) - AllHeld(t.wal))
    ensures FilesInv(t) && KeptInv(t) && t.legible <= t.appended + s.legible
  {
    forall f | f in t.wal ensures FileOk(t.wal[f], t.appended, t.legible) {
      assert FileOk(s.wal[f], s.appended, s.legible);
      forall x | x in Held(t.wal[f]) ensures x in t.appended {
        CutHolds(s.wal[f], keep(f), x);
      }
      forall x | x in Readable(t.wal[f]) ensures x in t.legible {
        assert x in AllReadable(t.wal);
      }
    }
    forall x | x in AllReadable(t.wal) ensures x in t.appended {
      var f :| f in t.wal && x in Readable(t.wal[f]);
      ReadIsReadable(t.wal[f], x);
      assert FileOk(t.wal[f], t.appended, t.legible);
    }
    forall e | e in t.appended ensures Somewhere(t.wal, e) || e in t.pruned || e in t.givenUp {
      if f :| f in s.wal && e in Held(s.wal[f]) {
        assert e in AllHeld(s.wal);
        if e in AllHeld(t.wal) {
          var g :| g in t.wal && e in Held(t.wal[g]);
        }
      }
    }
  }

  lemma {:induction false} CrashKeeps(s: State, keep: string -> Cut, inReserve: bool)
    requires Good(s)
    ensures Good(Next(s, Crash(keep, inReserve)))
  {
    StepKeepsInv(s.alloc, if inReserve then CrashInReserve else Exit);
    if Up(s) {
      var t := Next(s, Crash(keep, inReserve));
      CutKeeps(s, t, keep);
      assert forall n :: n in t.alloc.handed <==> n in s.alloc.handed;
    }
  }

  /** Adding one genuine record, or part of it, to the open file. */
  lemma {:induction false} WriteKeeps(s: State, e: Entry, r: Reach)
    requires Good(s) && CanAppend(s) && Genuine(s.stamped, e)
    ensures Good(Appended(s, e, r))
  {
    var (t, f) := (Appended(s, e, r), s.open.value);
    assert FileOk(s.wal[f], s.appended, s.legible);
    forall x | x in Held(t.wal[f]) ensures x in t.appended {
      WrittenHolds(s.wal[f], e, r, x);
    }
    forall x | x in Readable(t.wal[f]) ensures x in t.appended {
      ReadIsReadable(t.wal[f], x);
    }
    forall g | g in t.wal ensures FileOk(t.wal[g], t.appended, t.legible) {
      assert g != f ==> FileOk(s.wal[g], s.appended, s.legible);
    }
    forall x | x in t.appended ensures Somewhere(t.wal, x) || x in t.pruned || x in t.givenUp {
      WrittenHolds(s.wal[f], e, r, x);
      if x in s.appended {
        if g :| g in s.wal && x in Held(s.wal[g]) {
          assert g in t.wal && x in Held(t.wal[g]);
        }
      } else {
        assert f in t.wal && x in Held(t.wal[f]);
      }
    }
  }

  lemma {:induction false} RotateKeeps(s: State, file: string)
    requires Good(s)
    ensures Good(Next(s, Rotate(file)))
  {
    var t := Next(s, Rotate(file));
    forall f | f in t.wal ensures FileOk(t.wal[f], t.appended, t.legible) {
      if f in s.wal {
        assert FileOk(s.wal[f], s.appended, s.legible);
      } else {
        assert LinesOf(t.wal[f]) == [[]];
      }
    }
    forall x | x in t.appended ensures Somewhere(t.wal, x) || x in t.pruned || x in t.givenUp {
      if g :| g in s.wal && x in Held(s.wal[g]) {
        assert g in t.wal && x in Held(t.wal[g]);
      }
    }
  }

  lemma {:induction false} FlightEnds(s: State, e: Entry)
    requires Good(s)
    ensures Good(s.(flying := s.flying - {e}))
  {}

  lemma {:induction false} NextKeepsGood(s: State, ev: Event)
    requires Good(s)
    ensures Good(Next(s, ev))
  {
    match ev
    case Boot(block) => StepKeepsInv(s.alloc, Start(block));
    case Stamp(_, _, _, _, _) => StampKeeps(s, ev);
    case Append(e, reach) =>
      if CanAppend(s) && e in s.flying {
        FlightEnds(s, e);
        WriteKeeps(s.(flying := s.flying - {e}), e, reach);
      }
    case AppendUnnumbered(eventId, payload, reach) =>
      if CanAppend(s) {
        WriteKeeps(s, LegacyEntry(eventId, payload), reach);
      }
    case Rotate(file) => RotateKeeps(s, file);
    case Upload(_, _, _, _) => UploadKeeps(s, ev);
    case WriteOff(keys) => GrowthKeepsMarks(s.coll, Next(s, ev).coll, s.confirmed);
    case Prune(file, usage) => PruneKeeps(s, file, usage);
    case Evict(file) => EvictKeeps(s, file);
    case CloseAlloc(wrote) => StepKeepsInv(s.alloc, SeqAlloc.Close(wrote));
    case Crash(keep, inReserve) => CrashKeeps(s, keep, inReserve);
  }

  lemma InitIsGood(cell: Cell)
    ensures Good(Init(cell))
  {}

  lemma {:induction false} RunsKeepGood(s: State, evs: seq<Event>)
    requires Good(s)
    ensures Good(Runs(s, evs))
    decreases |evs|
  {
    if evs == [] {
    } else {
      NextKeepsGood(s, evs[0]);
      RunsKeepGood(Next(s, evs[0]), evs[1..]);
    }
  }

  /** Prune safety: in every run, whatever fails, tears, crashes or restarts, every numbered record
      whose WAL file was pruned is held by the collector, as that very record, or is on the
      collector's ledger of known losses, unless it was illegible and above everything legible. */
  lemma {:induction false} PruneSafety(cell: Cell, evs: seq<Event>)
    ensures var s := Runs(Init(cell), evs);
            forall e :: e in s.pruned && Numbered(e) && e !in s.exposed ==> Settled(s.coll, e)
  {
    InitIsGood(cell);
    RunsKeepGood(Init(cell), evs);
  }

  /** Nothing else vanishes: a record that reached the WAL is still there, or is settled at the
      collector, or was given up on the client's own account (evicted, or unsynced at a crash), or
      was exposed when its file was pruned. */
  lemma {:induction false} NothingVanishes(cell: Cell, evs: seq<Event>, e: Entry)
    requires e in Runs(Init(cell), evs).appended && Numbered(e)
    ensures var s := Runs(Init(cell), evs);
            Somewhere(s.wal, e) || Settled(s.coll, e) || e in s.givenUp || e in s.exposed
  {
    InitIsGood(cell);
    RunsKeepGood(Init(cell), evs);
  }

  /** The number on a stored record identifies it: no two records of one run share a number, so
      an acknowledged number is never an acknowledgement of something else; and what is stored was
      legible, so a record spoiled from the start can only ever be ledgered. */
  lemma {:induction false} StoredIsTheRecord(cell: Cell, evs: seq<Event>, e: Entry)
    requires var s := Runs(Init(cell), evs);
             e in s.appended && Numbered(e) && KeyOf(e) in s.coll.stored
    ensures Runs(Init(cell), evs).coll.stored[KeyOf(e)] == e && e in Runs(Init(cell), evs).legible
  {
    InitIsGood(cell);
    RunsKeepGood(Init(cell), evs);
  }
}
