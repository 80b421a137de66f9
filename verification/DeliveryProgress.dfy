/** What the client does get done: a record goes from its number to the collector and its file from disk,
    a synced file survives a crash, and each upload outcome moves the cursors as its stream says
    (`internal/events/reporter.go`, `internal/events/content_reporter.go`, `internal/events/wal.go`). */
module DeliveryProgress {
  import opened Common
  import opened Outbox
  import opened Delivery

  /** A client that is up, with a new file open and a record about to be written to it. */
  predicate Ready(s: State, file: string, e: Entry) {
    && Up(s) && s.open == Some(file) && file in s.wal && s.wal[file] == WalFile([], [])
    && e in s.flying && e.schema >= 2 && e.seqNo > 0 && e.source != ""
  }

  /** A whole write to a new file can be read back. */
  lemma {:induction false} AppendReads(s: State, file: string, e: Entry)
    requires Ready(s, file, e)
    ensures var t := Next(s, Append(e, Full));
            && file in t.wal && Read(t.wal[file]) == [e] && e in t.appended && e in t.legible && e !in t.flying
            && Up(t) && t.coll == s.coll && t.confirmed == s.confirmed
  {
    var w := Written(s.wal[file], e, Full);
    var none: Line := [];
    assert none + [Whole(e)] == [Whole(e)];
    assert w == WalFile([[Whole(e)]], []);
    assert LinesOf(w) == [[Whole(e)], []];
    assert [[Whole(e)], []][..1] == [[Whole(e)]] && [[Whole(e)]][..0] == [];
    assert Parsed([[Whole(e)]]) == [e];
    ReadIsReadable(w, e);
  }

  /** The upload of that record alone, stored and acknowledged up to it. */
  function Uploading(e: Entry, usage: bool): Event {
    Upload([e], {e}, Accepted(Some(map[e.source := e.seqNo])), usage)
  }

  lemma {:induction false} UploadStores(s: State, e: Entry, usage: bool)
    requires Up(s) && e in s.legible && e.schema >= 2 && e.seqNo > 0
    requires Honest(Ingest(s.coll, {e}), map[e.source := e.seqNo])
    ensures var t := Next(s, Uploading(e, usage));
            && t.coll == Ingest(s.coll, {e}) && t.wal == s.wal && t.open == s.open && Up(t)
            && e.source in t.confirmed && e.seqNo <= t.confirmed[e.source] && e.seqNo <= Get(t.sent, e.source)
  {
    AdvanceIsMax(s.sent, [e], e.source);
  }

  lemma {:induction false} RunsFour(s: State, a: Event, b: Event, c: Event, d: Event)
    ensures Runs(s, [a, b, c, d]) == Next(Next(Next(Next(s, a), b), c), d)
  {
    assert [a, b, c, d][1..] == [b, c, d] && [b, c, d][1..] == [c, d] && [c, d][1..] == [d] && [d][1..] == [];
    assert Runs(Next(s, a), [b, c, d]) == Runs(Next(Next(s, a), b), [c, d]);
    assert Runs(Next(Next(Next(s, a), b), c), [d]) == Next(Next(Next(Next(s, a), b), c), d);
  }

  /** A closed file with one record that is confirmed goes, on either stream. */
  lemma {:induction false} ConfirmedGoes(s: State, file: string, e: Entry, usage: bool)
    requires Up(s) && file in s.wal && s.open.Some? && s.open.value != file && Read(s.wal[file]) == [e]
    requires e.schema >= 2 && e.seqNo > 0 && e.source != ""
    requires e.source in s.confirmed && e.seqNo <= s.confirmed[e.source]
    ensures var t := Next(s, Prune(file, usage)); file !in t.wal && e in t.pruned && t.coll == s.coll
  {
    var f := FileAt(s, file);
    assert f.entries == [e] && e in f.entries && Numbered(e) && f.name == file;
    assert forall x :: x in f.entries ==> x == e;
    assert UsagePrunable(f, s.confirmed, s.seenV1, CurrentName(s));
    assert ContentPrunable(f, s.confirmed, CurrentName(s));
    ReadIsReadable(s.wal[file], e);
  }

  /** The whole way: written, rotated away, uploaded, acknowledged and pruned, on either stream. */
  lemma {:induction false} DeliveredAndPruned(s: State, file: string, next: string, e: Entry, usage: bool)
    requires Ready(s, file, e) && next != file
    requires Honest(Ingest(s.coll, {e}), map[e.source := e.seqNo])
    ensures var t := Runs(s, [Append(e, Full), Rotate(next), Uploading(e, usage), Prune(file, usage)]);
            file !in t.wal && e in t.pruned && t.coll == Ingest(s.coll, {e})
  {
    RunsFour(s, Append(e, Full), Rotate(next), Uploading(e, usage), Prune(file, usage));
    var a := Next(s, Append(e, Full));
    AppendReads(s, file, e);
    var b := Next(a, Rotate(next));
    Rotated(a, file, next);
    UploadStores(b, e, usage);
    ConfirmedGoes(Next(b, Uploading(e, usage)), file, e, usage);
  }

  lemma {:induction false} Rotated(s: State, file: string, next: string)
    requires Up(s) && file in s.wal && next != file
    ensures var t := Next(s, Rotate(next));
            && t.open == Some(next) && next in t.wal && file in t.wal && t.wal[file] == s.wal[file]
            && Up(t) && t.coll == s.coll && t.legible == s.legible
  {}

  /** A file that a crash does not cut is as it was. */
  lemma {:induction false} UncutSurvives(s: State, keep: string -> Cut, inReserve: bool, file: string)
    requires Up(s) && file in s.wal
    requires keep(file).lines >= |s.wal[file].lines| && keep(file).pieces >= |s.wal[file].tail|
    ensures var t := Next(s, Crash(keep, inReserve)); file in t.wal && t.wal[file] == s.wal[file] && !Up(t)
  {}

  /** The usage stream moves its sent cursor on everything but a retryable failure, the content stream on
      an acceptance and a terminal refusal; only an acceptance reaches the collector's reply. */
  lemma {:induction false} OutcomeMoves(s: State, batch: seq<Entry>, landed: set<Entry>, o: Outcome, usage: bool)
    requires UploadEnabled(s, batch, landed, o)
    ensures var t := Next(s, Upload(batch, landed, o, usage));
            && t.coll == Ingest(s.coll, landed)
            && t.sent == (if o.Retryable? || (!usage && o.EncodeError?) then s.sent else Advance(s.sent, batch))
            && (!o.Accepted? ==> t.confirmed == s.confirmed)
  {}

  /** A file evicted by the disk cap takes its records with it, and they are counted as given up. */
  lemma {:induction false} EvictGivesUp(s: State, file: string, e: Entry)
    requires Up(s) && file in s.wal && s.open != Some(file) && e in Held(s.wal[file])
    ensures var t := Next(s, Evict(file)); file !in t.wal && e in t.givenUp
  {}
}
