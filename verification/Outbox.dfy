/** The upload outbox: WAL entries, the two in-memory cursors, what one upload does to them,
    and which WAL files may be deleted (`internal/events/reporter.go`,
    `internal/events/content_reporter.go`, `internal/events/content_wal.go`). */
module Outbox {
  import opened Common

  const WAL_SCHEMA_V2 := 2

  /** A decoded WAL line of either stream.  `route` decides the destination, `lane` the org. */
  datatype Entry = Entry(source: string, seqNo: int, schema: int, eventId: string,
                         route: string, lane: string, payload: int)

  /** Carries a sequence number that takes part in gap detection. */
  predicate Numbered(e: Entry) { e.schema >= WAL_SCHEMA_V2 && e.seqNo > 0 }

  type Cursor = map<string, int>

  /** A Go map read: missing keys read as zero. */
  function Get(c: Cursor, source: string): int { if source in c then c[source] else 0 }

  function Raise(c: Cursor, source: string, n: int): (r: Cursor)
    ensures forall s :: Get(r, s) == if s == source && n > Get(c, s) then n else Get(c, s)
  {
    if n > Get(c, source) then c[source := n] else c
  }

  /** Raise every source of `marks`. */
  function Lift(c: Cursor, marks: Cursor): (r: Cursor)
    ensures forall s :: Get(r, s) == if s in marks && marks[s] > Get(c, s) then marks[s] else Get(c, s)
  {
    map s | s in c.Keys + marks.Keys :: if s in marks && marks[s] > Get(c, s) then marks[s] else Get(c, s)
  }

  /** `markProcessed` on the sent cursor: every numbered entry lifts its source. */
  function Advance(c: Cursor, group: seq<Entry>): (r: Cursor)
    decreases |group|
  {
    if group == [] then c
    else
      var before := Advance(c, group[..|group| - 1]);
      var e := group[|group| - 1];
      if Numbered(e) then Raise(before, e.source, e.seqNo) else before
  }

  /** The sent cursor is the maximum: no numbered entry of the group exceeds it, and it is either
      the old value or the number of one of those entries. */
  lemma {:induction false} AdvanceIsMax(c: Cursor, group: seq<Entry>, source: string)
    ensures Get(c, source) <= Get(Advance(c, group), source)
    ensures forall e :: e in group && e.schema >= 2 && e.seqNo > 0 && e.source == source ==>
              e.seqNo <= Get(Advance(c, group), source)
    ensures Get(Advance(c, group), source) == Get(c, source)
            || exists e :: e in group && e.schema >= 2 && e.seqNo > 0 && e.source == source
                           && e.seqNo == Get(Advance(c, group), source)
    decreases |group|
  {
    if group == [] {
    } else {
      var init := group[..|group| - 1];
      AdvanceIsMax(c, init, source);
      assert group == init + [group[|group| - 1]];
    }
  }

  lemma {:induction false} AdvanceTwice(c: Cursor, g: seq<Entry>, h: seq<Entry>)
    ensures Advance(Advance(c, g), h) == Advance(c, g + h)
    decreases |h|
  {
    if h == [] {
      assert g + h == g;
    } else {
      var init := h[..|h| - 1];
      AdvanceTwice(c, g, init);
      assert (g + h)[..|g + h| - 1] == g + init && (g + h)[|g + h| - 1] == h[|h| - 1];
    }
  }

  /** The event ids `markProcessed` remembers for entries without a number. */
  function SeenIds(group: seq<Entry>): set<string> {
    set e | e in group && !Numbered(e) && e.eventId != "" :: e.eventId
  }

  // ---------------------------------------------------------------------------------------
  // One upload.
  // ---------------------------------------------------------------------------------------

  /** How an upload ended.  `reply` is the contiguous mark per source, absent on a 2xx whose body
      does not parse. */
  datatype Outcome =
    | Accepted(reply: Option<Cursor>)
    | Terminal
    | Retryable
    | EncodeError

  /** Folding the reply into the confirmed cursor. */
  function Confirm(c: Cursor, o: Outcome): Cursor {
    if o.Accepted? && o.reply.Some? then Lift(c, o.reply.value) else c
  }

  /** The usage pump finishes a group unless the failure is retryable; the content pump also
      leaves a batch it could not encode where it is. */
  predicate GroupDone(o: Outcome) { !o.Retryable? }
  predicate BatchDone(o: Outcome) { o.Accepted? || o.Terminal? }

  ghost predicate IsMax(maxSeq: Cursor, batch: seq<Entry>) {
    forall s :: Get(maxSeq, s) == Get(Advance(map[], batch), s) && (s in maxSeq ==> maxSeq[s] > 0)
  }

  /** The highest number of each source. */
  method MaxPerSource(batch: seq<Entry>) returns (maxSeq: Cursor)
    requires forall e :: e in batch ==> Numbered(e)
    ensures IsMax(maxSeq, batch)
  {
    maxSeq := map[];
    var i := 0;
    while i < |batch|
      invariant 0 <= i <= |batch|
      invariant IsMax(maxSeq, batch[..i])
    {
      assert batch[..i + 1][..i] == batch[..i];
      maxSeq := Raise(maxSeq, batch[i].source, batch[i].seqNo);
      i := i + 1;
    }
    assert batch[..i] == batch;
  }

  lemma {:induction false} LiftIsAdvance(sent: Cursor, maxSeq: Cursor, batch: seq<Entry>)
    requires IsMax(maxSeq, batch) && forall e :: e in batch ==> Numbered(e)
    ensures forall s :: Get(Lift(sent, maxSeq), s) == Get(Advance(sent, batch), s)
  {
    forall s ensures Get(Lift(sent, maxSeq), s) == Get(Advance(sent, batch), s) {
      AdvanceIsMax(map[], batch, s);
      AdvanceIsMax(sent, batch, s);
    }
  }

  class ContentReporter {
    var sentSeq: Cursor
    var confirmedSeq: Cursor
    var consecutiveFailures: nat

    constructor ()
      ensures sentSeq == map[] && confirmedSeq == map[] && consecutiveFailures == 0
    {
      sentSeq, confirmedSeq, consecutiveFailures := map[], map[], 0;
    }

    /** One batch: the per-source maximum lifts the sent cursor on success and on a terminal
        refusal, only a parsed reply lifts the confirmed cursor, and only a retryable failure is
        reported as such.  Failures are counted until a success. */
    method UploadBatch(batch: seq<Entry>, o: Outcome) returns (retryable: bool)
      modifies this
      requires forall e :: e in batch ==> Numbered(e)
      ensures retryable <==> batch != [] && o.Retryable?
      ensures o.Retryable? || o.EncodeError? ==> sentSeq == old(sentSeq)
      ensures o.Accepted? || o.Terminal? ==> forall s :: Get(sentSeq, s) == Get(Advance(old(sentSeq), batch), s)
      ensures batch == [] || !o.Accepted? || o.reply.None? ==> confirmedSeq == old(confirmedSeq)
      ensures batch != [] && o.Accepted? && o.reply.Some? ==>
                forall s :: Get(confirmedSeq, s) ==
                  if s in o.reply.value && o.reply.value[s] > Get(old(confirmedSeq), s) then o.reply.value[s]
                  else Get(old(confirmedSeq), s)
      ensures consecutiveFailures == if batch == [] || o.EncodeError? then old(consecutiveFailures)
                                     else if o.Accepted? then 0 else old(consecutiveFailures) + 1
    {
      if |batch| == 0 {
        return false;
      }
      var maxSeq := MaxPerSource(batch);
      if o.EncodeError? {
        return false;
      }
      if o.Accepted? || o.Terminal? {
        LiftIsAdvance(sentSeq, maxSeq, batch);
        sentSeq := Lift(sentSeq, maxSeq);
      }
      if o.Accepted? {
        if o.reply.Some? {
          confirmedSeq := Lift(confirmedSeq, o.reply.value);
        }
        consecutiveFailures := 0;
        return false;
      }
      consecutiveFailures := consecutiveFailures + 1;
      retryable := o.Retryable?;
    }
  }

  // ---------------------------------------------------------------------------------------
  // Deleting confirmed files.
  // ---------------------------------------------------------------------------------------

  /** A WAL file; an unreadable one yields an error instead of entries. */
  datatype File = File(name: string, readable: bool, entries: seq<Entry>)

  predicate ContentConfirmed(e: Entry, confirmed: Cursor) {
    e.source != "" && e.seqNo != 0 && e.source in confirmed && e.seqNo <= confirmed[e.source]
  }

  /** Every entry of the file is confirmed, and there is at least one. */
  predicate ContentPrunable(f: File, confirmed: Cursor, current: string) {
    f.name != current && f.readable && f.entries != []
    && forall e :: e in f.entries ==> ContentConfirmed(e, confirmed)
  }

  predicate UsageConfirmed(e: Entry, confirmed: Cursor, seenV1: set<string>) {
    if Numbered(e) then e.seqNo <= Get(confirmed, e.source)
    else e.eventId != "" && e.eventId in seenV1
  }

  /** As above, with legacy entries counted once uploaded; a file of legacy entries alone stays. */
  predicate UsagePrunable(f: File, confirmed: Cursor, seenV1: set<string>, current: string) {
    f.name != current && f.readable
    && (forall e :: e in f.entries ==> UsageConfirmed(e, confirmed, seenV1))
    && exists e :: e in f.entries && Numbered(e)
  }

  /** The two prune rules with what they are judged by. */
  datatype Rule =
    | Content(confirmed: Cursor, current: string)
    | Usage(confirmed: Cursor, seenV1: set<string>, current: string)

  predicate Doomed(r: Rule, f: File) {
    match r
    case Content(confirmed, current) => ContentPrunable(f, confirmed, current)
    case Usage(confirmed, seenV1, current) => UsagePrunable(f, confirmed, seenV1, current)
  }

  /** The files a pass leaves: those it does not decide to delete, and those whose removal fails. */
  function Survivors(files: seq<File>, r: Rule, removable: set<string>): (left: seq<File>)
    decreases |files|
  {
    if files == [] then []
    else
      var left := Survivors(files[..|files| - 1], r, removable);
      var f := files[|files| - 1];
      if Doomed(r, f) && f.name in removable then left else left + [f]
  }

  /** The files that stay are the given ones without some, in order and as often. */
  ghost predicate KeepsOrder(left: seq<File>, files: seq<File>) {
    Subsequence(left, files) && forall f :: f in left ==> multiset(left)[f] == multiset(files)[f]
  }

  lemma {:induction false} SurvivorsInOrder(files: seq<File>, r: Rule, removable: set<string>)
    ensures Subsequence(Survivors(files, r, removable), files) && |Survivors(files, r, removable)| <= |files|
    decreases |files|
  {
    if files == [] {
    } else {
      var (init, f) := (files[..|files| - 1], files[|files| - 1]);
      SurvivorsInOrder(init, r, removable);
      SubsequenceGrows(Survivors(init, r, removable), init, f);
      assert files == init + [f];
    }
  }

  lemma {:induction false} SurvivorsCount(files: seq<File>, r: Rule, removable: set<string>, f: File)
    ensures multiset(Survivors(files, r, removable))[f]
         == if Doomed(r, f) && f.name in removable then 0 else multiset(files)[f]
    decreases |files|
  {
    if files == [] {
    } else {
      var (init, g) := (files[..|files| - 1], files[|files| - 1]);
      SurvivorsCount(init, r, removable, f);
      assert files == init + [g];
    }
  }

  lemma {:induction false} SurvivorsAre(files: seq<File>, r: Rule, removable: set<string>)
    ensures var left := Survivors(files, r, removable);
            && KeepsOrder(left, files) && |left| <= |files|
            && forall f :: f in files ==> (f !in left <==> Doomed(r, f) && f.name in removable)
  {
    var left := Survivors(files, r, removable);
    SurvivorsInOrder(files, r, removable);
    forall f ensures multiset(left)[f] == if Doomed(r, f) && f.name in removable then 0 else multiset(files)[f] {
      SurvivorsCount(files, r, removable, f);
    }
    assert forall f :: f in left <==> multiset(left)[f] > 0;
    assert forall f :: f in files <==> multiset(files)[f] > 0;
  }

  /** What a prune of the content WAL deletes, entry by entry. */
  lemma {:induction false} ContentSurvivors(files: seq<File>, confirmed: Cursor, current: string,
                                            removable: set<string>)
    ensures var left := Survivors(files, Content(confirmed, current), removable);
            && KeepsOrder(left, files) && |left| <= |files|
            && forall f :: f in files ==>
                 (f !in left <==>
                  && f.name in removable && f.name != current && f.readable && f.entries != []
                  && forall e :: e in f.entries ==>
                       e.source != "" && e.seqNo != 0 && e.source in confirmed && e.seqNo <= confirmed[e.source])
  {
    SurvivorsAre(files, Content(confirmed, current), removable);
  }

  /** And of the usage WAL. */
  lemma {:induction false} UsageSurvivors(files: seq<File>, confirmed: Cursor, seenV1: set<string>, current: string,
                                          removable: set<string>)
    ensures var left := Survivors(files, Usage(confirmed, seenV1, current), removable);
            && KeepsOrder(left, files)
            && forall f :: f in files ==>
                 (f !in left <==>
                  && f.name in removable && f.name != current && f.readable
                  && (exists e :: e in f.entries && e.schema >= 2 && e.seqNo > 0)
                  && forall e :: e in f.entries ==>
                       if e.schema >= 2 && e.seqNo > 0 then e.seqNo <= Get(confirmed, e.source)
                       else e.eventId != "" && e.eventId in seenV1)
  {
    var r := Usage(confirmed, seenV1, current);
    var left := Survivors(files, r, removable);
    SurvivorsAre(files, r, removable);
    forall f | f in files
      ensures f !in left <==>
              && f.name in removable && f.name != current && f.readable
              && (exists e :: e in f.entries && e.schema >= 2 && e.seqNo > 0)
              && forall e :: e in f.entries ==>
                   if e.schema >= 2 && e.seqNo > 0 then e.seqNo <= Get(confirmed, e.source)
                   else e.eventId != "" && e.eventId in seenV1
    {
      UsageRule(f, confirmed, seenV1, current);
    }
  }

  lemma {:induction false} UsageRule(f: File, confirmed: Cursor, seenV1: set<string>, current: string)
    ensures Doomed(Usage(confirmed, seenV1, current), f) <==>
            && f.name != current && f.readable
            && (exists e :: e in f.entries && e.schema >= 2 && e.seqNo > 0)
            && forall e :: e in f.entries ==>
                 if e.schema >= 2 && e.seqNo > 0 then e.seqNo <= Get(confirmed, e.source)
                 else e.eventId != "" && e.eventId in seenV1
  {}

  /** Whether a content file may go. */
  method ContentFileGoes(f: File, confirmed: Cursor, current: string) returns (goes: bool)
    ensures goes == ContentPrunable(f, confirmed, current)
  {
    if f.name == current || !f.readable || f.entries == [] {
      return false;
    }
    var k := 0;
    while k < |f.entries|
      invariant 0 <= k <= |f.entries|
      invariant forall e :: e in f.entries[..k] ==> ContentConfirmed(e, confirmed)
    {
      var e := f.entries[k];
      assert f.entries[..k + 1] == f.entries[..k] + [e];
      if e.source == "" || e.seqNo == 0 || e.source !in confirmed || e.seqNo > confirmed[e.source] {
        assert !ContentConfirmed(e, confirmed);
        return false;
      }
      k := k + 1;
    }
    assert f.entries[..k] == f.entries;
    return true;
  }

  method PruneConfirmedContentWAL(files: seq<File>, confirmed: Cursor, current: string, removable: set<string>)
    returns (left: seq<File>, pruned: nat)
    ensures forall f :: f in files ==>
              (f !in left <==>
               && f.name in removable && f.name != current && f.readable && f.entries != []
               && forall e :: e in f.entries ==>
                    e.source != "" && e.seqNo != 0 && e.source in confirmed && e.seqNo <= confirmed[e.source])
    ensures KeepsOrder(left, files) && pruned == |files| - |left|
  {
    left, pruned := [], 0;
    var i := 0;
    while i < |files|
      invariant 0 <= i <= |files|
      invariant left == Survivors(files[..i], Content(confirmed, current), removable)
      invariant pruned == i - |left|
    {
      assert files[..i + 1][..i] == files[..i];
      var goes := ContentFileGoes(files[i], confirmed, current);
      if goes && files[i].name in removable {
        pruned := pruned + 1;
      } else {
        left := left + [files[i]];
      }
      i := i + 1;
    }
    assert files[..i] == files;
    ContentSurvivors(files, confirmed, current, removable);
  }

  /** Whether a usage file may go. */
  method UsageFileGoes(f: File, confirmed: Cursor, seenV1: set<string>, current: string) returns (goes: bool)
    ensures goes == UsagePrunable(f, confirmed, seenV1, current)
  {
    if f.name == current || !f.readable || f.entries == [] {
      return false;
    }
    var sawV2 := false;
    var k := 0;
    while k < |f.entries|
      invariant 0 <= k <= |f.entries|
      invariant forall e :: e in f.entries[..k] ==> UsageConfirmed(e, confirmed, seenV1)
      invariant sawV2 <==> exists e :: e in f.entries[..k] && Numbered(e)
    {
      var e := f.entries[k];
      assert f.entries[..k + 1] == f.entries[..k] + [e] && e in f.entries[..k + 1];
      if e.schema >= WAL_SCHEMA_V2 && e.seqNo > 0 {
        assert Numbered(e);
        sawV2 := true;
        if e.seqNo > Get(confirmed, e.source) {
          assert !UsageConfirmed(e, confirmed, seenV1);
          return false;
        }
      } else if e.eventId == "" || e.eventId !in seenV1 {
        assert !UsageConfirmed(e, confirmed, seenV1);
        return false;
      }
      k := k + 1;
    }
    assert f.entries[..k] == f.entries;
    return sawV2;
  }

  method PruneConfirmedWAL(files: seq<File>, confirmed: Cursor, seenV1: set<string>, current: string,
                           removable: set<string>)
    returns (left: seq<File>)
    ensures forall f :: f in files ==>
              (f !in left <==>
               && f.name in removable && f.name != current && f.readable
               && (exists e :: e in f.entries && e.schema >= 2 && e.seqNo > 0)
               && forall e :: e in f.entries ==>
                    if e.schema >= 2 && e.seqNo > 0 then e.seqNo <= Get(confirmed, e.source)
                    else e.eventId != "" && e.eventId in seenV1)
    ensures KeepsOrder(left, files)
  {
    left := [];
    var i := 0;
    while i < |files|
      invariant 0 <= i <= |files|
      invariant left == Survivors(files[..i], Usage(confirmed, seenV1, current), removable)
    {
      assert files[..i + 1][..i] == files[..i];
      var goes := UsageFileGoes(files[i], confirmed, seenV1, current);
      if !(goes && files[i].name in removable) {
        left := left + [files[i]];
      }
      i := i + 1;
    }
    assert files[..i] == files;
    UsageSurvivors(files, confirmed, seenV1, current, removable);
  }

  /** Either prune rule deletes a numbered entry only at or below its source's confirmed mark. */
  lemma PrunedIsConfirmed(f: File, confirmed: Cursor, seenV1: set<string>, current: string, e: Entry)
    requires ContentPrunable(f, confirmed, current) || UsagePrunable(f, confirmed, seenV1, current)
    requires e in f.entries && Numbered(e)
    ensures e.seqNo <= Get(confirmed, e.source)
  {
  }
}
