/** One drain pass of the usage pump: which WAL entries it offers to an upload, how often, in
    what groups, and where it leaves the sent cursor (`internal/events/reporter.go`). */
module Drain {
  import opened Common
  import opened Outbox

  const DEFAULT_BATCH := 100

  /** One HTTP upload of the pass. */
  datatype Upload = Upload(group: seq<Entry>, outcome: Outcome)

  /** Groups share a destination and a lane. */
  type GroupKey = (string, string)

  function GroupOf(e: Entry): GroupKey { (e.route, e.lane) }

  /** The entries of a batch in the given groups, in order. */
  function Pick(batch: seq<Entry>, keys: set<GroupKey>): seq<Entry>
    decreases |batch|
  {
    if batch == [] then []
    else
      var init := Pick(batch[..|batch| - 1], keys);
      var e := batch[|batch| - 1];
      if GroupOf(e) in keys then init + [e] else init
  }

  lemma {:induction false} PickMembers(batch: seq<Entry>, keys: set<GroupKey>)
    ensures forall e :: e in Pick(batch, keys) ==> e in batch && GroupOf(e) in keys
    ensures |Pick(batch, keys)| <= |batch|
    decreases |batch|
  {
    if batch == [] {
    } else {
      PickMembers(batch[..|batch| - 1], keys);
    }
  }

  lemma {:induction false} PickCounts(batch: seq<Entry>, keys: set<GroupKey>, e: Entry)
    ensures multiset(Pick(batch, keys))[e] == if GroupOf(e) in keys then multiset(batch)[e] else 0
    decreases |batch|
  {
    if batch == [] {
    } else {
      var init := batch[..|batch| - 1];
      PickCounts(init, keys, e);
      assert batch == init + [batch[|batch| - 1]];
    }
  }

  /** All entries offered by a list of uploads. */
  function Offered(log: seq<Upload>): (r: seq<Entry>)
    decreases |log|
  {
    if log == [] then [] else Offered(log[..|log| - 1]) + log[|log| - 1].group
  }

  /** How many times an entry has been offered. */
  function Times(log: seq<Upload>, e: Entry): nat { multiset(Offered(log))[e] }

  /** Those whose upload ended: accepted, dead-lettered, or not encodable. */
  function DoneOf(log: seq<Upload>): (r: seq<Entry>)
    decreases |log|
  {
    if log == [] then []
    else
      var u := log[|log| - 1];
      DoneOf(log[..|log| - 1]) + (if GroupDone(u.outcome) then u.group else [])
  }

  lemma {:induction false} DoneWasOffered(log: seq<Upload>, e: Entry)
    requires e in DoneOf(log)
    ensures e in Offered(log)
    decreases |log|
  {
    if e in DoneOf(log[..|log| - 1]) {
      DoneWasOffered(log[..|log| - 1], e);
    }
  }

  lemma {:induction false} AddUpload(log: seq<Upload>, u: Upload)
    ensures Offered(log + [u]) == Offered(log) + u.group
    ensures DoneOf(log + [u]) == DoneOf(log) + (if GroupDone(u.outcome) then u.group else [])
    ensures forall e :: Times(log + [u], e) == Times(log, e) + multiset(u.group)[e]
  {
    assert (log + [u])[..|log|] == log;
  }

  /** When the pass's context is cancelled: never, or after so many checks of it. */
  datatype Context = Background | Bounded(checks: nat)

  predicate Cancelled(ctx: Context, checks: nat) { ctx.Bounded? && checks >= ctx.checks }

  predicate WellGrouped(u: Upload, routed: string -> bool, batchSize: nat) {
    && 0 < |u.group| <= batchSize
    && forall e, f :: e in u.group && f in u.group ==> GroupOf(e) == GroupOf(f) && routed(e.route)
  }

  /** An upload goes to one destination, for one lane, and is neither empty nor over the batch size. */
  lemma {:induction false} OneDestinationOneLane(u: Upload, routed: string -> bool, batchSize: nat, e: Entry, f: Entry)
    requires WellGrouped(u, routed, batchSize) && e in u.group && f in u.group
    ensures e.route == f.route && e.lane == f.lane && routed(e.route) && 1 <= |u.group| <= batchSize
  {
    assert GroupOf(e) == GroupOf(f);
  }

  /** How many copies of an entry a batch asks to be uploaded. */
  function Routed(batch: seq<Entry>, routed: string -> bool, e: Entry): nat {
    if routed(e.route) then multiset(batch)[e] else 0
  }

  /** Above the cursor and with somewhere to go. */
  predicate Due(e: Entry, sent: Cursor, routed: string -> bool) {
    Numbered(e) && e.seqNo > Get(sent, e.source) && routed(e.route)
  }

  /** How many times a pass should offer an entry. */
  function Once(es: seq<Entry>, e: Entry, sent: Cursor, routed: string -> bool): nat {
    if e in es && Due(e, sent, routed) then 1 else 0
  }

  /** Where the cursors and the legacy ids stood. */
  datatype Base = Base(sent: Cursor, seen: set<string>, confirmed: Cursor)

  /** The confirmed cursor after the replies of some uploads. */
  function ConfirmedBy(c: Cursor, log: seq<Upload>): Cursor
    decreases |log|
  {
    if log == [] then c else Confirm(ConfirmedBy(c, log[..|log| - 1]), log[|log| - 1].outcome)
  }

  class Reporter {
    var sentSeq: Cursor
    var confirmedSeq: Cursor
    var seenV1: set<string>
    const batchSize: nat
    const routed: string -> bool   // does this route source have a destination?

    constructor (batchSize: int, routed: string -> bool)
      ensures sentSeq == map[] && confirmedSeq == map[] && seenV1 == {}
      ensures this.batchSize > 0 && this.routed == routed && (batchSize > 0 ==> this.batchSize == batchSize)
    {
      sentSeq, confirmedSeq, seenV1 := map[], map[], {};
      this.batchSize := if batchSize <= 0 then DEFAULT_BATCH else batchSize;
      this.routed := routed;
    }

    /** The cursors and ids are what those uploads made of the base. */
    ghost predicate Marked(base: Base, log: seq<Upload>)
      reads this`sentSeq, this`seenV1, this`confirmedSeq
    {
      && sentSeq == Advance(base.sent, DoneOf(log))
      && seenV1 == base.seen + SeenIds(DoneOf(log))
      && confirmedSeq == ConfirmedBy(base.confirmed, log)
    }

    method MarkProcessed(group: seq<Entry>)
      modifies this`sentSeq, this`seenV1
      ensures sentSeq == Advance(old(sentSeq), group) && seenV1 == old(seenV1) + SeenIds(group)
      ensures forall e :: e in group && !(e.schema >= 2 && e.seqNo > 0) && e.eventId != "" ==> e.eventId in seenV1
    {
      var i := 0;
      while i < |group|
        invariant 0 <= i <= |group|
        invariant sentSeq == Advance(old(sentSeq), group[..i])
        invariant seenV1 == old(seenV1) + SeenIds(group[..i])
      {
        var e := group[i];
        assert group[..i + 1][..i] == group[..i] && group[..i + 1] == group[..i] + [e];
        if Numbered(e) {
          sentSeq := Raise(sentSeq, e.source, e.seqNo);
        } else if e.eventId != "" {
          seenV1 := seenV1 + {e.eventId};
        }
        i := i + 1;
      }
      assert group[..i] == group;
    }

    /** `uploadGroupTo` and the marking its callers do. */
    method UploadGroup(group: seq<Entry>, o: Outcome) returns (done: bool)
      modifies this`sentSeq, this`seenV1, this`confirmedSeq
      ensures done <==> o.Accepted? || o.Terminal? || o.EncodeError?
      ensures confirmedSeq == Confirm(old(confirmedSeq), o)
      ensures o.Accepted? && o.reply.Some? ==>
                forall s :: Get(confirmedSeq, s) ==
                  if s in o.reply.value && o.reply.value[s] > Get(old(confirmedSeq), s) then o.reply.value[s]
                  else Get(old(confirmedSeq), s)
      ensures !(o.Accepted? && o.reply.Some?) ==> confirmedSeq == old(confirmedSeq)
      ensures sentSeq == if done then Advance(old(sentSeq), group) else old(sentSeq)
      ensures seenV1 == if done then old(seenV1) + SeenIds(group) else old(seenV1)
    {
      confirmedSeq := Confirm(confirmedSeq, o);
      done := !o.Retryable?;
      if done {
        MarkProcessed(group);
      }
    }

    /** Splits a batch by destination and lane, dropping what has no destination. */
    method GroupBatch(batch: seq<Entry>) returns (groups: map<GroupKey, seq<Entry>>)
      ensures forall e :: e in batch && routed(e.route) ==> GroupOf(e) in groups
      ensures forall k :: k in groups ==> groups[k] == Pick(batch, {k}) && groups[k] != [] && routed(k.0)
    {
      groups := map[];
      var i := 0;
      while i < |batch|
        invariant 0 <= i <= |batch|
        invariant forall e :: e in batch[..i] && routed(e.route) ==> GroupOf(e) in groups
        invariant forall k :: k in groups ==> groups[k] == Pick(batch[..i], {k}) && groups[k] != [] && routed(k.0)
      {
        var e := batch[i];
        assert batch[..i + 1][..i] == batch[..i] && batch[..i + 1] == batch[..i] + [e];
        if routed(e.route) {
          var k := GroupOf(e);
          if k !in groups {
            PickNone(batch[..i], k);
          }
          groups := groups[k := (if k in groups then groups[k] else []) + [e]];
        }
        i := i + 1;
      }
      assert batch[..i] == batch;
    }

    /** One group of a batch. */
    method UploadOne(ghost batch: seq<Entry>, group: seq<Entry>, ghost key: GroupKey, answer: nat -> Outcome,
                     ghost gone: set<GroupKey>, ghost log: seq<Upload>, log': seq<Upload>, any: bool,
                     ghost base: Base)
      returns (log'': seq<Upload>, any': bool)
      requires key !in gone && group == Pick(batch, {key}) && group != [] && routed(key.0) && |batch| <= batchSize
      requires Uploading(routed, batchSize, batch, gone, log, log', answer, any)
      requires Marked(base, log')
      modifies this`sentSeq, this`seenV1, this`confirmedSeq
      ensures Uploading(routed, batchSize, batch, gone + {key}, log, log'', answer, any')
      ensures Marked(base, log'')
    {
      PickMembers(batch, {key});
      OneMore(routed, batchSize, batch, gone, log, log', answer, any, key);
      var done;
      log'', done := UploadAndLog(group, answer(|log'|), log', base);
      any' := any || !done;
    }

    method UploadAndLog(group: seq<Entry>, o: Outcome, log: seq<Upload>, ghost base: Base)
      returns (log': seq<Upload>, done: bool)
      requires Marked(base, log)
      modifies this`sentSeq, this`seenV1, this`confirmedSeq
      ensures Marked(base, log') && log' == log + [Upload(group, o)] && done == GroupDone(o)
    {
      OneMoreMark(log, Upload(group, o), base);
      done := UploadGroup(group, o);
      log' := log + [Upload(group, o)];
    }

    /** Uploads each group of a batch once, in the map's arbitrary order; a cancelled context
        leaves the remaining groups in the WAL. */
    method UploadPending(batch: seq<Entry>, answer: nat -> Outcome, ctx: Context, log: seq<Upload>, checks: nat,
                         ghost base: Base)
      returns (log': seq<Upload>, checks': nat, anyRetryable: bool, ghost gone: set<GroupKey>)
      requires |batch| <= batchSize && Marked(base, log) && Answers(log, answer)
      modifies this`sentSeq, this`seenV1, this`confirmedSeq
      ensures checks <= checks' && NewWell(routed, batchSize, log, log') && Answers(log', answer)
      ensures forall e :: Times(log', e) <= Times(log, e) + Routed(batch, routed, e)
      ensures !Cancelled(ctx, checks') ==> forall e :: Times(log', e) == Times(log, e) + Routed(batch, routed, e)
      ensures NewOrder(batch, gone, log, log') && Destined(batch, routed, gone, !Cancelled(ctx, checks'))
      ensures Marked(base, log')
      ensures !Cancelled(ctx, checks') ==> (anyRetryable <==> NewRetry(log, log'))
    {
      var groups := GroupBatch(batch);
      log', checks', anyRetryable := log, checks, false;
      gone := {};
      var left := groups.Keys;
      while left != {}
        invariant gone !! left && gone + left == groups.Keys
        invariant checks <= checks'
        invariant Uploading(routed, batchSize, batch, gone, log, log', answer, anyRetryable)
        invariant Marked(base, log')
      {
        if Cancelled(ctx, checks') {
          anyRetryable := true;
          UploadingEnds(routed, batch, gone, log, log');
          return;
        }
        checks' := checks' + 1;
        var key :| key in left;
        log', anyRetryable := UploadOne(batch, groups[key], key, answer, gone, log, log', anyRetryable, base);
        left, gone := left - {key}, gone + {key};
      }
      UploadingEnds(routed, batch, gone, log, log');
    }

    /** What holds between two entries of a pass; `whole` says nothing was cut off so far. */
    ghost predicate Pass(ordered: bool, seen: seq<Entry>, sent: Cursor, log: seq<Upload>, pending: seq<Entry>,
                         whole: bool, any: bool)
    {
      && AllWell(routed, batchSize, log) && Within(Offered(log), seen) && Within(pending, seen)
      && (ordered ==> Progress(seen, sent, routed, log, pending, whole)
                      && AllInOrder(seen, sent, routed, log, pending, whole))
      && (whole ==> (any <==> Retried(log)))
    }

    lemma {:induction false} PassOneMore(ordered: bool, entries: seq<Entry>, i: nat, sent: Cursor, log: seq<Upload>,
                                         pending: seq<Entry>, whole: bool, any: bool, skip: bool)
      requires i < |entries| && (ordered ==> InOrder(entries))
      requires Pass(ordered, entries[..i], sent, log, pending, whole, any)
      requires Numbered(entries[i]) ==>
                 (skip <==> entries[i].seqNo <= Get(Advance(sent, DoneOf(log)), entries[i].source))
      ensures Pass(ordered, entries[..i + 1], sent, log, if skip then pending else pending + [entries[i]], whole, any)
    {
      if ordered {
        OneMoreEntry(entries, i, sent, routed, log, pending, whole, skip);
        OneMoreInOrder(entries, i, sent, routed, log, pending, whole, skip);
      }
      WithinOneMore(Offered(log), entries, i);
      WithinOneMore(pending, entries, i);
    }

    lemma {:induction false} PassEnds(ordered: bool, entries: seq<Entry>, i: nat, sent: Cursor, log: seq<Upload>,
                                      pending: seq<Entry>, whole: bool, any: bool)
      requires i <= |entries| && (i < |entries| || pending != [] ==> !whole)
      requires Pass(ordered, entries[..i], sent, log, pending, whole, any)
      ensures Within(Offered(log), entries) && AllWell(routed, batchSize, log)
      ensures ordered ==> forall e :: Numbered(e) ==> Times(log, e) <= Once(entries, e, sent, routed)
      ensures ordered && whole ==> forall e :: Numbered(e) ==> Times(log, e) == Once(entries, e, sent, routed)
      ensures ordered ==> OfferedInOrder(entries, sent, routed, log, whole)
      ensures whole ==> (any <==> Retried(log))
    {
      assert forall e :: e in entries[..i] ==> e in entries;
      if ordered {
        CountsAtEnd(entries, i, sent, routed, log, pending, whole);
        OrderAtEnd(entries, i, sent, routed, log, pending, whole);
      }
    }

    /** The same with the legacy entries. */
    ghost predicate Sweeping(ordered: bool, seen: seq<Entry>, base: Base, log: seq<Upload>, pending: seq<Entry>,
                             whole: bool, any: bool)
    {
      Pass(ordered, seen, base.sent, log, pending, whole, any) && Legacies(seen, base.seen, routed, log, pending, whole)
    }

    lemma {:induction false} SweepOneMore(ordered: bool, entries: seq<Entry>, i: nat, base: Base, log: seq<Upload>,
                                          pending: seq<Entry>, whole: bool, any: bool, skip: bool)
      requires i < |entries| && (ordered ==> InOrder(entries))
      requires Sweeping(ordered, entries[..i], base, log, pending, whole, any)
      requires Numbered(entries[i]) ==>
                 (skip <==> entries[i].seqNo <= Get(Advance(base.sent, DoneOf(log)), entries[i].source))
      requires !Numbered(entries[i]) ==>
                 (skip <==> entries[i].eventId == "" || entries[i].eventId in base.seen + SeenIds(DoneOf(log)))
      ensures Sweeping(ordered, entries[..i + 1], base, log, if skip then pending else pending + [entries[i]], whole,
                       any)
    {
      PassOneMore(ordered, entries, i, base.sent, log, pending, whole, any, skip);
      OneMoreLegacy(entries, i, base.seen, routed, log, pending, whole, skip);
    }

    /** What a pass has done when it ends. */
    ghost predicate Swept(entries: seq<Entry>, base: Base, log: seq<Upload>, whole: bool, any: bool) {
      && Within(Offered(log), entries) && AllWell(routed, batchSize, log)
      && (forall e :: e in Offered(log) ==> routed(e.route))
      && (InOrder(entries) ==> forall e :: Numbered(e) ==> Times(log, e) <= Once(entries, e, base.sent, routed))
      && (InOrder(entries) && whole ==>
            forall e :: Numbered(e) ==> Times(log, e) == Once(entries, e, base.sent, routed))
      && (InOrder(entries) ==> OfferedInOrder(entries, base.sent, routed, log, whole))
      && (forall e :: e in Offered(log) && !Numbered(e) ==> Unseen(e, base.seen))
      && (whole ==>
            forall e :: e in entries && !Numbered(e) && Unseen(e, base.seen) && routed(e.route)
                        && Copies(entries, e.eventId) == 1 ==>
              Times(log, e) == 1)
      && (whole ==> (any <==> Retried(log)))
    }

    lemma {:induction false} SweepEnds(entries: seq<Entry>, i: nat, base: Base, log: seq<Upload>, pending: seq<Entry>,
                                       whole: bool, any: bool)
      requires i <= |entries| && (i < |entries| || pending != [] ==> !whole)
      requires Sweeping(InOrder(entries), entries[..i], base, log, pending, whole, any)
      ensures Swept(entries, base, log, whole, any)
    {
      PassEnds(InOrder(entries), entries, i, base.sent, log, pending, whole, any);
      LegaciesEnd(entries, i, base.seen, routed, log, pending, whole);
      AllRouted(log, routed, batchSize);
    }

    /** Uploads what is pending and takes the verdict into the pass. */
    method Flush(ghost ordered: bool, ghost seen: seq<Entry>, pending: seq<Entry>, answer: nat -> Outcome, ctx: Context,
                 log: seq<Upload>, checks: nat, any: bool, ghost base: Base)
      returns (log': seq<Upload>, checks': nat, any': bool)
      requires |pending| <= batchSize && Marked(base, log) && !Cancelled(ctx, checks)
      requires Sweeping(ordered, seen, base, log, pending, true, any) && Answers(log, answer)
      modifies this`sentSeq, this`seenV1, this`confirmedSeq
      ensures Marked(base, log') && Answers(log', answer)
      ensures Sweeping(ordered, seen, base, log', [], !Cancelled(ctx, checks'), any')
    {
      var retry;
      ghost var gone;
      log', checks', retry, gone := UploadPending(pending, answer, ctx, log, checks + 1, base);
      any' := any || retry;
      WellAndRetried(routed, batchSize, log, log');
      FlushedWithin(log, log', pending, routed, seen);
      LegaciesFlushed(seen, base.seen, routed, log, log', pending, !Cancelled(ctx, checks'));
      if ordered {
        Flushed(seen, base.sent, routed, log, log', pending, !Cancelled(ctx, checks'));
        FlushedInOrder(seen, base.sent, routed, log, log', pending, gone, !Cancelled(ctx, checks'));
      }
    }

    /** One pass over the WAL as it was read; `checks` counts how often the context was looked at.
        Every numbered entry above the initial cursor that has a destination is offered to exactly one
        upload (at most one when the context was cancelled on the way), the entries of one group in
        WAL order; nothing else numbered is offered, every upload is one group of at most `batchSize`
        entries, and the cursor ends at the maximum of its initial value and the numbers whose upload
        ended.  A legacy entry is offered only if its id is not empty and was not seen, exactly once if
        it has a destination and no other legacy entry has its id, and the ids of those whose upload
        ended are seen from then on. */
    method DrainOnce(entries: seq<Entry>, answer: nat -> Outcome, ctx: Context, force: bool, gated: bool)
      returns (log: seq<Upload>, anyRetryable: bool, checks: nat)
      requires batchSize > 0
      modifies this`sentSeq, this`seenV1, this`confirmedSeq
      ensures !force && gated ==> log == []
      ensures forall e :: e in Offered(log) ==> e in entries
      ensures Answers(log, answer) && forall u :: u in log ==> WellGrouped(u, routed, batchSize)
      ensures InOrder(entries) ==>
                forall e: Entry :: e.schema >= 2 && e.seqNo > 0 ==>
                  Times(log, e) <=
                    if e in entries && e.seqNo > Get(old(sentSeq), e.source) && routed(e.route) then 1 else 0
      ensures InOrder(entries) && (force || !gated) && !Cancelled(ctx, checks) ==>
                forall e: Entry :: e.schema >= 2 && e.seqNo > 0 ==>
                  Times(log, e) ==
                    if e in entries && e.seqNo > Get(old(sentSeq), e.source) && routed(e.route) then 1 else 0
      ensures InOrder(entries) ==>
                OfferedInOrder(entries, old(sentSeq), routed, log, (force || !gated) && !Cancelled(ctx, checks))
      ensures forall e :: e in Offered(log) && !(e.schema >= 2 && e.seqNo > 0) ==>
                e.eventId != "" && e.eventId !in old(seenV1) && routed(e.route)
      ensures (force || !gated) && !Cancelled(ctx, checks) ==>
                forall e :: e in entries && !(e.schema >= 2 && e.seqNo > 0) && routed(e.route)
                            && e.eventId != "" && e.eventId !in old(seenV1) && Copies(entries, e.eventId) == 1 ==>
                  Times(log, e) == 1
      ensures sentSeq == Advance(old(sentSeq), DoneOf(log)) && confirmedSeq == ConfirmedBy(old(confirmedSeq), log)
      ensures forall id :: id in seenV1 <==>
                || id in old(seenV1)
                || exists e :: e in DoneOf(log) && !(e.schema >= 2 && e.seqNo > 0) && e.eventId == id && id != ""
      ensures !Cancelled(ctx, checks) ==> (anyRetryable <==> Retried(log))
    {
      log, anyRetryable, checks := [], false, 0;
      if !force && gated {
        return;
      }
      log, anyRetryable, checks := Sweep(entries, answer, ctx);
    }

    /** The loop of a pass. */
    method Sweep(entries: seq<Entry>, answer: nat -> Outcome, ctx: Context)
      returns (log: seq<Upload>, anyRetryable: bool, checks: nat)
      requires batchSize > 0
      modifies this`sentSeq, this`seenV1, this`confirmedSeq
      ensures Marked(Base(old(sentSeq), old(seenV1), old(confirmedSeq)), log) && Answers(log, answer)
      ensures Swept(entries, Base(old(sentSeq), old(seenV1), old(confirmedSeq)), log, !Cancelled(ctx, checks),
                    anyRetryable)
    {
      log, anyRetryable, checks := [], false, 0;
      var pending: seq<Entry> := [];
      var i := 0;
      ghost var base := Base(sentSeq, seenV1, confirmedSeq);
      ghost var ordered := InOrder(entries);
      while i < |entries|
        invariant 0 <= i <= |entries| && |pending| < batchSize
        invariant Marked(base, log) && Answers(log, answer)
        invariant Sweeping(ordered, entries[..i], base, log, pending, !Cancelled(ctx, checks), anyRetryable)
      {
        var e := entries[i];
        var skip := Skipped(e);
        SweepOneMore(ordered, entries, i, base, log, pending, !Cancelled(ctx, checks), anyRetryable, skip);
        i := i + 1;
        if skip {
          continue;
        }
        var stop;
        log, checks, anyRetryable, pending, stop :=
          FlushFull(ordered, entries[..i], pending + [e], answer, ctx, log, checks, anyRetryable, base);
        if stop {
          break;
        }
      }
      log, checks, anyRetryable := FlushLast(entries, i, pending, answer, ctx, log, checks, anyRetryable, base);
    }

    /** Uploads a full batch, unless the context was cancelled. */
    method FlushFull(ghost ordered: bool, ghost seen: seq<Entry>, pending: seq<Entry>, answer: nat -> Outcome,
                     ctx: Context, log: seq<Upload>, checks: nat, any: bool, ghost base: Base)
      returns (log': seq<Upload>, checks': nat, any': bool, pending': seq<Entry>, stop: bool)
      requires 0 < |pending| <= batchSize && Marked(base, log) && Answers(log, answer)
      requires Sweeping(ordered, seen, base, log, pending, !Cancelled(ctx, checks), any)
      modifies this`sentSeq, this`seenV1, this`confirmedSeq
      ensures Marked(base, log') && Answers(log', answer)
      ensures Sweeping(ordered, seen, base, log', pending', !Cancelled(ctx, checks'), any')
      ensures if stop then |pending'| <= batchSize && Cancelled(ctx, checks') else |pending'| < batchSize
    {
      log', checks', any', pending', stop := log, checks, any, pending, false;
      if |pending| >= batchSize {
        if Cancelled(ctx, checks) {
          any', stop := true, true;
        } else {
          log', checks', any' := Flush(ordered, seen, pending, answer, ctx, log, checks, any, base);
          pending' := [];
        }
      }
    }

    /** Uploads what is pending at the end of a pass. */
    method FlushLast(ghost entries: seq<Entry>, ghost i: nat, pending: seq<Entry>, answer: nat -> Outcome,
                     ctx: Context, log: seq<Upload>, checks: nat, any: bool, ghost base: Base)
      returns (log': seq<Upload>, checks': nat, any': bool)
      requires i <= |entries| && (i < |entries| ==> Cancelled(ctx, checks))
      requires |pending| <= batchSize && Marked(base, log) && Answers(log, answer)
      requires Sweeping(InOrder(entries), entries[..i], base, log, pending, !Cancelled(ctx, checks), any)
      modifies this`sentSeq, this`seenV1, this`confirmedSeq
      ensures Marked(base, log') && Answers(log', answer)
      ensures Swept(entries, base, log', !Cancelled(ctx, checks'), any')
    {
      log', checks', any' := log, checks, any;
      if |pending| > 0 && !Cancelled(ctx, checks) {
        log', checks', any' := Flush(InOrder(entries), entries[..i], pending, answer, ctx, log, checks, any, base);
        SweepEnds(entries, i, base, log', [], !Cancelled(ctx, checks'), any');
      } else {
        SweepEnds(entries, i, base, log', pending, !Cancelled(ctx, checks'), any');
      }
    }

    /** Whether the pass passes an entry over. */
    method Skipped(e: Entry) returns (skip: bool)
      ensures e.schema >= 2 && e.seqNo > 0 ==> (skip <==> e.seqNo <= Get(sentSeq, e.source))
      ensures !(e.schema >= 2 && e.seqNo > 0) ==> (skip <==> e.eventId == "" || e.eventId in seenV1)
    {
      if e.schema >= WAL_SCHEMA_V2 && e.seqNo > 0 {
        skip := e.seqNo <= Get(sentSeq, e.source);
      } else {
        skip := e.eventId in seenV1 || e.eventId == "";
      }
    }
  }

  // ---------------------------------------------------------------------------------------
  // Legacy entries.
  // ---------------------------------------------------------------------------------------

  /** How many legacy entries carry an id. */
  function Copies(es: seq<Entry>, id: string): nat
    decreases |es|
  {
    if es == [] then 0
    else
      var e := es[|es| - 1];
      Copies(es[..|es| - 1], id) + if !(e.schema >= 2 && e.seqNo > 0) && e.eventId == id then 1 else 0
  }

  predicate Unseen(e: Entry, seen: set<string>) { e.eventId != "" && e.eventId !in seen }

  /** After the entries `es`: only unseen legacy entries are offered or pending, and each that is alone
      with its id once, as long as nothing was cut off. */
  ghost predicate Legacies(es: seq<Entry>, seen: set<string>, routed: string -> bool, log: seq<Upload>,
                           pending: seq<Entry>, whole: bool)
  {
    && Within(Offered(log), es) && Within(pending, es)
    && (forall e :: (e in Offered(log) || e in pending) && !Numbered(e) ==> Unseen(e, seen))
    && (whole ==> forall e :: e in es && !Numbered(e) && Unseen(e, seen) && Copies(es, e.eventId) == 1 ==>
                    Times(log, e) + Routed(pending, routed, e) == if routed(e.route) then 1 else 0)
  }

  lemma {:induction false} CopiesAfter(es: seq<Entry>, e: Entry, id: string)
    ensures Copies(es + [e], id) == Copies(es, id) + if !Numbered(e) && e.eventId == id then 1 else 0
  {
    assert (es + [e])[..|es|] == es;
  }

  lemma {:induction false} HasCopy(es: seq<Entry>, e: Entry)
    requires e in es && !Numbered(e)
    ensures Copies(es, e.eventId) > 0
    decreases |es|
  {
    var (init, last) := (es[..|es| - 1], es[|es| - 1]);
    if last != e {
      assert e in init;
      HasCopy(init, e);
    }
  }

  /** A first legacy entry with its id is skipped only if the id was seen before the pass. */
  lemma {:induction false} FirstWithId(es: seq<Entry>, seen: set<string>, log: seq<Upload>, e: Entry)
    requires Within(Offered(log), es) && !Numbered(e) && Copies(es, e.eventId) == 0
    ensures e.eventId in seen + SeenIds(DoneOf(log)) <==> e.eventId in seen
    ensures e !in es && e !in Offered(log)
  {
    if e in es {
      HasCopy(es, e);
    }
    if e.eventId in SeenIds(DoneOf(log)) {
      var d :| d in DoneOf(log) && !Numbered(d) && d.eventId == e.eventId;
      DoneWasOffered(log, d);
      HasCopy(es, d);
    }
  }

  lemma {:induction false} OneMoreLegacy(entries: seq<Entry>, i: nat, seen: set<string>, routed: string -> bool,
                                         log: seq<Upload>, pending: seq<Entry>, whole: bool, skip: bool)
    requires i < |entries| && Legacies(entries[..i], seen, routed, log, pending, whole)
    requires !Numbered(entries[i]) ==>
               (skip <==> entries[i].eventId == "" || entries[i].eventId in seen + SeenIds(DoneOf(log)))
    ensures Legacies(entries[..i + 1], seen, routed, log, if skip then pending else pending + [entries[i]], whole)
  {
    var (es, e) := (entries[..i], entries[i]);
    var pending' := if skip then pending else pending + [e];
    assert entries[..i + 1] == es + [e];
    WithinOneMore(Offered(log), entries, i);
    WithinOneMore(pending, entries, i);
    if whole {
      forall f | f in es + [e] && !Numbered(f) && Unseen(f, seen) && Copies(es + [e], f.eventId) == 1
        ensures Times(log, f) + Routed(pending', routed, f) == if routed(f.route) then 1 else 0
      {
        CopiesAfter(es, e, f.eventId);
        if f == e {
          FirstWithId(es, seen, log, e);
          assert e !in pending;
        } else {
          assert f in es;
          HasCopy(es, f);
        }
      }
    }
  }

  lemma {:induction false} LegaciesFlushed(es: seq<Entry>, seen: set<string>, routed: string -> bool,
                                           before: seq<Upload>, log: seq<Upload>, pending: seq<Entry>, whole: bool)
    requires Legacies(es, seen, routed, before, pending, true)
    requires forall e :: Times(log, e) <= Times(before, e) + Routed(pending, routed, e)
    requires whole ==> forall e :: Times(log, e) == Times(before, e) + Routed(pending, routed, e)
    ensures Legacies(es, seen, routed, log, [], whole)
  {
    FlushedWithin(before, log, pending, routed, es);
    forall e | e in Offered(log) && !Numbered(e) ensures Unseen(e, seen) {
      assert Times(log, e) > 0;
      assert e in Offered(before) || e in pending;
    }
    forall e ensures Routed([], routed, e) == 0 { }
  }

  lemma {:induction false} LegaciesEnd(entries: seq<Entry>, i: nat, seen: set<string>, routed: string -> bool,
                                       log: seq<Upload>, pending: seq<Entry>, whole: bool)
    requires i <= |entries| && (i < |entries| || pending != [] ==> !whole)
    requires Legacies(entries[..i], seen, routed, log, pending, whole)
    ensures forall e :: e in Offered(log) && !Numbered(e) ==> Unseen(e, seen)
    ensures whole ==>
              forall e :: e in entries && !Numbered(e) && Unseen(e, seen) && routed(e.route)
                          && Copies(entries, e.eventId) == 1 ==>
                Times(log, e) == 1
  {
    if whole {
      assert entries[..i] == entries;
      forall e ensures Routed(pending, routed, e) == 0 { }
    }
  }

  lemma {:induction false} AllRouted(log: seq<Upload>, routed: string -> bool, batchSize: nat)
    requires AllWell(routed, batchSize, log)
    ensures forall e :: e in Offered(log) ==> routed(e.route)
    decreases |log|
  {
    if log == [] {
    } else {
      var (init, u) := (log[..|log| - 1], log[|log| - 1]);
      assert forall v :: v in init ==> v in log;
      AllRouted(init, routed, batchSize);
      assert u in log && WellGrouped(u, routed, batchSize);
    }
  }

  // ---------------------------------------------------------------------------------------
  // The order of a group's entries.
  // ---------------------------------------------------------------------------------------

  /** The numbered ones among some entries, in order. */
  function Numbers(es: seq<Entry>): seq<Entry>
    decreases |es|
  {
    if es == [] then [] else Numbers(es[..|es| - 1]) + if Numbered(es[|es| - 1]) then [es[|es| - 1]] else []
  }

  /** The numbered entries of one group. */
  function NumberedOf(es: seq<Entry>, k: GroupKey): seq<Entry> { Numbers(Pick(es, {k})) }

  /** Those of them that are due. */
  function DueOf(es: seq<Entry>, sent: Cursor, routed: string -> bool, k: GroupKey): seq<Entry>
    decreases |es|
  {
    if es == [] then []
    else
      var (init, e) := (DueOf(es[..|es| - 1], sent, routed, k), es[|es| - 1]);
      if Due(e, sent, routed) && GroupOf(e) == k then init + [e] else init
  }

  /** Each group's numbered entries were offered in WAL order: a first part of those due, or all. */
  ghost predicate OfferedInOrder(es: seq<Entry>, sent: Cursor, routed: string -> bool, log: seq<Upload>, exact: bool) {
    forall k :: var offered := NumberedOf(Offered(log), k);
                offered <= DueOf(es, sent, routed, k) && (exact ==> offered == DueOf(es, sent, routed, k))
  }

  ghost predicate GroupInOrder(seen: seq<Entry>, sent: Cursor, routed: string -> bool, log: seq<Upload>,
                               pending: seq<Entry>, exact: bool, k: GroupKey)
  {
    && NumberedOf(Offered(log), k) <= DueOf(seen, sent, routed, k)
    && (exact && routed(k.0) ==> NumberedOf(Offered(log), k) + NumberedOf(pending, k) == DueOf(seen, sent, routed, k))
  }

  ghost predicate AllInOrder(seen: seq<Entry>, sent: Cursor, routed: string -> bool, log: seq<Upload>,
                             pending: seq<Entry>, exact: bool)
  {
    forall k :: GroupInOrder(seen, sent, routed, log, pending, exact, k)
  }

  ghost predicate Answers(log: seq<Upload>, answer: nat -> Outcome) {
    forall i :: 0 <= i < |log| ==> log[i].outcome == answer(i)
  }

  lemma {:induction false} OneMoreAnswer(log: seq<Upload>, answer: nat -> Outcome, u: Upload)
    requires Answers(log, answer) && u.outcome == answer(|log|)
    ensures Answers(log + [u], answer)
  {}

  /** Every group uploaded has a destination; if all were, so was every entry that has one. */
  ghost predicate Destined(batch: seq<Entry>, routed: string -> bool, gone: set<GroupKey>, all: bool) {
    && (forall k :: k in gone ==> routed(k.0))
    && (all ==> forall e :: e in batch && routed(e.route) ==> GroupOf(e) in gone)
  }

  ghost predicate NewOrder(batch: seq<Entry>, gone: set<GroupKey>, log: seq<Upload>, log': seq<Upload>) {
    forall k :: GroupPart(log', k) == GroupPart(log, k) + if k in gone then Pick(batch, {k}) else []
  }

  /** What has been offered of one group, in order. */
  function GroupPart(log: seq<Upload>, k: GroupKey): seq<Entry> { Pick(Offered(log), {k}) }

  lemma {:induction false} PickConcat(a: seq<Entry>, b: seq<Entry>, k: GroupKey)
    ensures Pick(a + b, {k}) == Pick(a, {k}) + Pick(b, {k})
    decreases |b|
  {
    if b == [] {
      assert a + b == a;
    } else {
      assert (a + b)[..|a + b| - 1] == a + b[..|b| - 1];
      PickConcat(a, b[..|b| - 1], k);
    }
  }

  lemma {:induction false} PickTwice(batch: seq<Entry>, key: GroupKey, k: GroupKey)
    ensures Pick(Pick(batch, {key}), {k}) == if k == key then Pick(batch, {k}) else []
    decreases |batch|
  {
    if batch == [] {
    } else {
      var (init, e) := (batch[..|batch| - 1], batch[|batch| - 1]);
      PickTwice(init, key, k);
      var p := Pick(init, {key});
      assert (p + [e])[..|p|] == p;
    }
  }

  /** One more upload, as one group sees it. */
  lemma {:induction false} PartAfter(log: seq<Upload>, u: Upload, k: GroupKey)
    ensures GroupPart(log + [u], k) == GroupPart(log, k) + Pick(u.group, {k})
  {
    AddUpload(log, u);
    PickConcat(Offered(log), u.group, k);
  }

  lemma {:induction false} OneMoreOrder(batch: seq<Entry>, gone: set<GroupKey>, log: seq<Upload>, log': seq<Upload>,
                                        key: GroupKey, o: Outcome)
    requires key !in gone && NewOrder(batch, gone, log, log')
    ensures NewOrder(batch, gone + {key}, log, log' + [Upload(Pick(batch, {key}), o)])
  {
    var u := Upload(Pick(batch, {key}), o);
    forall k
      ensures GroupPart(log' + [u], k) == GroupPart(log, k) + if k in gone + {key} then Pick(batch, {k}) else []
    {
      PartAfter(log', u, k);
      PickTwice(batch, key, k);
      assert GroupPart(log', k) == GroupPart(log, k) + if k in gone then Pick(batch, {k}) else [];
      assert GroupPart(log, k) + [] == GroupPart(log, k) && GroupPart(log', k) + [] == GroupPart(log', k);
    }
  }

  /** So every entry of a group that went was offered once for each time the batch holds it. */
  lemma {:induction false} OrderCounts(batch: seq<Entry>, gone: set<GroupKey>, log: seq<Upload>, log': seq<Upload>,
                                       e: Entry)
    requires NewOrder(batch, gone, log, log')
    ensures Times(log', e) == Times(log, e) + if GroupOf(e) in gone then multiset(batch)[e] else 0
  {
    var k := GroupOf(e);
    PickCounts(Offered(log), {k}, e);
    PickCounts(Offered(log'), {k}, e);
    PickCounts(batch, {k}, e);
    assert GroupPart(log', k) == GroupPart(log, k) + if k in gone then Pick(batch, {k}) else [];
  }

  lemma {:induction false} NumbersConcat(a: seq<Entry>, b: seq<Entry>)
    ensures Numbers(a + b) == Numbers(a) + Numbers(b)
    decreases |b|
  {
    if b == [] {
      assert a + b == a;
    } else {
      assert (a + b)[..|a + b| - 1] == a + b[..|b| - 1];
      NumbersConcat(a, b[..|b| - 1]);
    }
  }

  /** A group without a destination never has anything due. */
  lemma {:induction false} NothingDue(es: seq<Entry>, sent: Cursor, routed: string -> bool, k: GroupKey)
    requires !routed(k.0)
    ensures DueOf(es, sent, routed, k) == []
    decreases |es|
  {
    if es == [] {
    } else {
      NothingDue(es[..|es| - 1], sent, routed, k);
    }
  }

  lemma {:induction false} GroupFlushed(seen: seq<Entry>, sent: Cursor, routed: string -> bool, before: seq<Upload>,
                                        log: seq<Upload>, pending: seq<Entry>, gone: set<GroupKey>, exact: bool,
                                        k: GroupKey)
    requires GroupInOrder(seen, sent, routed, before, pending, true, k)
    requires NewOrder(pending, gone, before, log) && Destined(pending, routed, gone, exact)
    ensures GroupInOrder(seen, sent, routed, log, [], exact, k)
  {
    var (was, now) := (NumberedOf(Offered(before), k), NumberedOf(Offered(log), k));
    assert GroupPart(log, k) == GroupPart(before, k) + if k in gone then Pick(pending, {k}) else [];
    NumbersConcat(GroupPart(before, k), if k in gone then Pick(pending, {k}) else []);
    assert now + [] == now && was + [] == was;
    if k !in gone && exact && routed(k.0) {
      PickNone(pending, k);
    }
  }

  lemma {:induction false} FlushedInOrder(seen: seq<Entry>, sent: Cursor, routed: string -> bool, before: seq<Upload>,
                                          log: seq<Upload>, pending: seq<Entry>, gone: set<GroupKey>, exact: bool)
    requires AllInOrder(seen, sent, routed, before, pending, true)
    requires NewOrder(pending, gone, before, log) && Destined(pending, routed, gone, exact)
    ensures AllInOrder(seen, sent, routed, log, [], exact)
  {
    forall k ensures GroupInOrder(seen, sent, routed, log, [], exact, k) {
      GroupFlushed(seen, sent, routed, before, log, pending, gone, exact, k);
    }
  }

  lemma {:induction false} OnePicked(es: seq<Entry>, e: Entry, k: GroupKey)
    ensures NumberedOf(es + [e], k) == NumberedOf(es, k) + if Numbered(e) && GroupOf(e) == k then [e] else []
  {
    assert (es + [e])[..|es|] == es;
    var p := Pick(es, {k});
    assert (p + [e])[..|p|] == p;
  }

  lemma {:induction false} OneMoreInOrder(entries: seq<Entry>, i: nat, sent: Cursor, routed: string -> bool,
                                          log: seq<Upload>, pending: seq<Entry>, exact: bool, skip: bool)
    requires i < |entries| && InOrder(entries)
    requires Progress(entries[..i], sent, routed, log, pending, exact)
    requires AllInOrder(entries[..i], sent, routed, log, pending, exact)
    requires Numbered(entries[i]) ==>
               (skip <==> entries[i].seqNo <= Get(Advance(sent, DoneOf(log)), entries[i].source))
    ensures AllInOrder(entries[..i + 1], sent, routed, log, if skip then pending else pending + [entries[i]], exact)
  {
    var e := entries[i];
    CursorBehind(entries, i, sent, routed, log, pending);
    assert entries[..i + 1] == entries[..i] + [e];
    var pending' := if skip then pending else pending + [e];
    var upTo := entries[..i] + [e];
    forall k ensures GroupInOrder(upTo, sent, routed, log, pending', exact, k) {
      assert GroupInOrder(entries[..i], sent, routed, log, pending, exact, k);
      GroupOneMore(entries[..i], e, sent, routed, log, pending, exact, skip, k);
    }
  }

  lemma {:induction false} GroupOneMore(seen: seq<Entry>, e: Entry, sent: Cursor, routed: string -> bool,
                                        log: seq<Upload>, pending: seq<Entry>, exact: bool, skip: bool, k: GroupKey)
    requires GroupInOrder(seen, sent, routed, log, pending, exact, k)
    requires Numbered(e) ==> (skip <==> e.seqNo <= Get(sent, e.source))
    ensures GroupInOrder(seen + [e], sent, routed, log, if skip then pending else pending + [e], exact, k)
  {
    DueAfter(seen, e, sent, routed, k);
    OnePicked(pending, e, k);
    var (o, n) := (NumberedOf(Offered(log), k), NumberedOf(pending, k));
    assert o + (n + [e]) == (o + n) + [e];
    assert n + [] == n;
  }

  lemma {:induction false} DueAfter(es: seq<Entry>, e: Entry, sent: Cursor, routed: string -> bool, k: GroupKey)
    ensures DueOf(es + [e], sent, routed, k)
         == DueOf(es, sent, routed, k) + if Due(e, sent, routed) && GroupOf(e) == k then [e] else []
  {
    assert (es + [e])[..|es|] == es;
  }

  ghost predicate Retried(log: seq<Upload>) { exists u :: u in log && u.outcome.Retryable? }

  ghost predicate AllWell(routed: string -> bool, batchSize: nat, log: seq<Upload>) {
    forall u :: u in log ==> WellGrouped(u, routed, batchSize)
  }

  lemma {:induction false} WellAndRetried(routed: string -> bool, batchSize: nat, log: seq<Upload>, log': seq<Upload>)
    requires AllWell(routed, batchSize, log) && NewWell(routed, batchSize, log, log')
    ensures AllWell(routed, batchSize, log')
    ensures Retried(log') <==> Retried(log) || NewRetry(log, log')
  {
    forall u | u in log' ensures WellGrouped(u, routed, batchSize) {
      var i :| 0 <= i < |log'| && log'[i] == u;
      assert i < |log| ==> log[i] == u;
    }
    if Retried(log) {
      var u :| u in log && u.outcome.Retryable?;
      var i :| 0 <= i < |log| && log[i] == u;
      assert log'[i] == u;
    }
    if Retried(log') {
      var u :| u in log' && u.outcome.Retryable?;
      var i :| 0 <= i < |log'| && log'[i] == u;
      assert i < |log| ==> log[i] == u;
    }
  }

  ghost predicate Within(part: seq<Entry>, es: seq<Entry>) { forall e :: e in part ==> e in es }

  lemma {:induction false} WithinOneMore(part: seq<Entry>, es: seq<Entry>, i: nat)
    requires i < |es| && Within(part, es[..i])
    ensures Within(part, es[..i + 1]) && Within(part + [es[i]], es[..i + 1])
  {
    assert es[..i + 1] == es[..i] + [es[i]];
  }

  lemma {:induction false} FlushedWithin(before: seq<Upload>, log: seq<Upload>, pending: seq<Entry>,
                                         routed: string -> bool, seen: seq<Entry>)
    requires Within(Offered(before), seen) && Within(pending, seen)
    requires forall e :: Times(log, e) <= Times(before, e) + Routed(pending, routed, e)
    ensures Within(Offered(log), seen)
  {
    forall e | e in Offered(log) ensures e in seen {
      assert Times(log, e) > 0;
      assert e in Offered(before) || e in pending;
    }
  }

  lemma {:induction false} DueGrows(es: seq<Entry>, i: int, sent: Cursor, routed: string -> bool, k: GroupKey)
    requires 0 <= i <= |es|
    ensures DueOf(es[..i], sent, routed, k) <= DueOf(es, sent, routed, k)
    decreases |es|
  {
    if i == |es| {
      assert es[..i] == es;
    } else {
      assert es[..|es| - 1][..i] == es[..i];
      DueGrows(es[..|es| - 1], i, sent, routed, k);
    }
  }

  lemma {:induction false} CountsAtEnd(entries: seq<Entry>, i: nat, sent: Cursor, routed: string -> bool,
                                       log: seq<Upload>, pending: seq<Entry>, exact: bool)
    requires i <= |entries| && (exact ==> i == |entries| && pending == [])
    requires Progress(entries[..i], sent, routed, log, pending, exact)
    ensures forall e :: Numbered(e) ==> Times(log, e) <= Once(entries, e, sent, routed)
    ensures exact ==> forall e :: Numbered(e) ==> Times(log, e) == Once(entries, e, sent, routed)
  {
    forall e | Numbered(e) ensures Times(log, e) <= Once(entries, e, sent, routed) {
      assert Times(log, e) + Routed(pending, routed, e) <= Once(entries[..i], e, sent, routed);
      assert e in entries[..i] ==> e in entries;
    }
    if exact {
      assert entries[..i] == entries;
    }
  }

  lemma {:induction false} OrderAtEnd(entries: seq<Entry>, i: nat, sent: Cursor, routed: string -> bool,
                                      log: seq<Upload>, pending: seq<Entry>, exact: bool)
    requires i <= |entries| && (exact ==> i == |entries| && pending == [])
    requires AllInOrder(entries[..i], sent, routed, log, pending, exact)
    ensures OfferedInOrder(entries, sent, routed, log, exact)
  {
    forall k ensures var offered := NumberedOf(Offered(log), k);
                     && offered <= DueOf(entries, sent, routed, k)
                     && (exact ==> offered == DueOf(entries, sent, routed, k))
    {
      assert GroupInOrder(entries[..i], sent, routed, log, pending, exact, k);
      DueGrows(entries, i, sent, routed, k);
      if exact {
        assert entries[..i] == entries;
        assert NumberedOf(Offered(log), k) + [] == NumberedOf(Offered(log), k);
        if !routed(k.0) {
          NothingDue(entries, sent, routed, k);
        }
      }
    }
  }

  /** After the entries `seen`: what has been offered plus what is pending is what is due, exactly
      so as long as nothing was cut off. */
  ghost predicate Progress(seen: seq<Entry>, sent: Cursor, routed: string -> bool, log: seq<Upload>,
                           pending: seq<Entry>, exact: bool)
  {
    && (forall e :: Numbered(e) ==> Times(log, e) + Routed(pending, routed, e) <= Once(seen, e, sent, routed))
    && (exact ==>
          forall e :: Numbered(e) ==> Times(log, e) + Routed(pending, routed, e) == Once(seen, e, sent, routed))
  }

  lemma Flushed(seen: seq<Entry>, sent: Cursor, routed: string -> bool, before: seq<Upload>, log: seq<Upload>,
                pending: seq<Entry>, exact: bool)
    requires Progress(seen, sent, routed, before, pending, exact)
    requires forall e :: Times(log, e) <= Times(before, e) + Routed(pending, routed, e)
    requires exact ==> forall e :: Times(log, e) == Times(before, e) + Routed(pending, routed, e)
    ensures Progress(seen, sent, routed, log, [], exact)
  {
    forall e ensures Routed([], routed, e) == 0 { }
  }

  lemma OneMoreEntry(entries: seq<Entry>, i: nat, sent: Cursor, routed: string -> bool, log: seq<Upload>,
                     pending: seq<Entry>, exact: bool, skip: bool)
    requires i < |entries| && InOrder(entries)
    requires Progress(entries[..i], sent, routed, log, pending, exact)
    requires Numbered(entries[i]) ==>
               (skip <==> entries[i].seqNo <= Get(Advance(sent, DoneOf(log)), entries[i].source))
    ensures Progress(entries[..i + 1], sent, routed, log, if skip then pending else pending + [entries[i]], exact)
  {
    var e := entries[i];
    assert entries[..i + 1] == entries[..i] + [e];
    CursorBehind(entries, i, sent, routed, log, pending);
    var pending' := if skip then pending else pending + [e];
    forall f | Numbered(f)
      ensures Routed(pending', routed, f) - Routed(pending, routed, f)
           == Once(entries[..i + 1], f, sent, routed) - Once(entries[..i], f, sent, routed)
    {
      if f != e {
        assert f in entries[..i + 1] <==> f in entries[..i];
      }
    }
  }

  ghost predicate NewWell(routed: string -> bool, batchSize: nat, log: seq<Upload>, log': seq<Upload>) {
    log <= log' && forall i :: |log| <= i < |log'| ==> WellGrouped(log'[i], routed, batchSize)
  }

  ghost predicate NewRetry(log: seq<Upload>, log': seq<Upload>) {
    exists i :: |log| <= i < |log'| && log'[i].outcome.Retryable?
  }

  lemma {:induction false} OneMoreUpload(routed: string -> bool, batchSize: nat, log: seq<Upload>, log': seq<Upload>,
                                         u: Upload)
    requires NewWell(routed, batchSize, log, log') && WellGrouped(u, routed, batchSize)
    ensures NewWell(routed, batchSize, log, log' + [u])
    ensures NewRetry(log, log' + [u]) <==> NewRetry(log, log') || u.outcome.Retryable?
  {
    var after := log' + [u];
    assert forall i :: 0 <= i < |log'| ==> after[i] == log'[i];
    assert after[|log'|] == u;
  }

  lemma {:induction false} OneMoreMark(log: seq<Upload>, u: Upload, base: Base)
    ensures Advance(base.sent, DoneOf(log + [u]))
         == if GroupDone(u.outcome) then Advance(Advance(base.sent, DoneOf(log)), u.group)
            else Advance(base.sent, DoneOf(log))
    ensures SeenIds(DoneOf(log + [u])) == SeenIds(DoneOf(log)) + if GroupDone(u.outcome) then SeenIds(u.group) else {}
    ensures ConfirmedBy(base.confirmed, log + [u]) == Confirm(ConfirmedBy(base.confirmed, log), u.outcome)
  {
    AddUpload(log, u);
    AdvanceTwice(base.sent, DoneOf(log), u.group);
    assert DoneOf(log) + [] == DoneOf(log);
    assert (log + [u])[..|log|] == log;
  }

  /** What holds between two groups of a batch. */
  ghost predicate Uploading(routed: string -> bool, batchSize: nat, batch: seq<Entry>, gone: set<GroupKey>,
                            log: seq<Upload>, log': seq<Upload>, answer: nat -> Outcome, any: bool)
  {
    && NewWell(routed, batchSize, log, log') && (any <==> NewRetry(log, log'))
    && NewOrder(batch, gone, log, log') && Answers(log', answer)
  }

  /** Uploading groups that have a destination offers at most what has one; uploading all of them
      offers exactly that. */
  lemma {:induction false} UploadingEnds(routed: string -> bool, batch: seq<Entry>, gone: set<GroupKey>,
                                         log: seq<Upload>, log': seq<Upload>)
    requires NewOrder(batch, gone, log, log') && forall k :: k in gone ==> routed(k.0)
    ensures forall e :: Times(log', e) <= Times(log, e) + Routed(batch, routed, e)
    ensures (forall e :: e in batch && routed(e.route) ==> GroupOf(e) in gone) ==>
              forall e :: Times(log', e) == Times(log, e) + Routed(batch, routed, e)
  {
    forall e ensures Times(log', e) == Times(log, e) + if GroupOf(e) in gone then multiset(batch)[e] else 0 {
      OrderCounts(batch, gone, log, log', e);
    }
  }

  lemma {:induction false} OneMore(routed: string -> bool, batchSize: nat, batch: seq<Entry>, gone: set<GroupKey>,
                                   log: seq<Upload>, log': seq<Upload>, answer: nat -> Outcome, any: bool,
                                   key: GroupKey)
    requires key !in gone && Uploading(routed, batchSize, batch, gone, log, log', answer, any)
    requires WellGrouped(Upload(Pick(batch, {key}), answer(|log'|)), routed, batchSize)
    ensures var u := Upload(Pick(batch, {key}), answer(|log'|));
            Uploading(routed, batchSize, batch, gone + {key}, log, log' + [u], answer, any || !GroupDone(u.outcome))
  {
    var o := answer(|log'|);
    var u := Upload(Pick(batch, {key}), o);
    OneMoreOrder(batch, gone, log, log', key, o);
    OneMoreUpload(routed, batchSize, log, log', u);
    OneMoreAnswer(log', answer, u);
  }

  /** The numbered entries of each source appear in increasing order. */
  predicate InOrder(entries: seq<Entry>) {
    forall i, j | 0 <= i < j < |entries| && Numbered(entries[i]) && Numbered(entries[j]) ::
      entries[i].source == entries[j].source ==> entries[i].seqNo < entries[j].seqNo
  }

  /** Uploads of earlier entries never lift the cursor past a later one. */
  lemma CursorBehind(entries: seq<Entry>, i: nat, sent: Cursor, routed: string -> bool, log: seq<Upload>,
                     pending: seq<Entry>)
    requires i < |entries| && InOrder(entries)
    requires Progress(entries[..i], sent, routed, log, pending, false)
    ensures var e := entries[i];
            Numbered(e) ==>
              && e !in entries[..i]
              && (e.seqNo <= Get(Advance(sent, DoneOf(log)), e.source) <==> e.seqNo <= Get(sent, e.source))
  {
    var e := entries[i];
    AdvanceIsMax(sent, DoneOf(log), e.source);
    forall d | d in DoneOf(log) && Numbered(d) && d.source == e.source && Numbered(e) ensures d.seqNo < e.seqNo {
      DoneWasOffered(log, d);
      assert Times(log, d) > 0;
      var j :| 0 <= j < i && entries[..i][j] == d;
      assert entries[j] == d;
    }
  }

  /** An entry that was due is still due after the pass exactly when every number of its source
      whose upload ended in the pass is below it.  So a group that failed retryably is offered
      again by the next pass only if no later group of the pass ended; otherwise it stays in the
      WAL below the cursor, out of the drain's reach. */
  lemma StillDue(sent: Cursor, log: seq<Upload>, e: Entry)
    requires Numbered(e) && e.seqNo > Get(sent, e.source)
    ensures e.seqNo > Get(Advance(sent, DoneOf(log)), e.source) <==>
            forall d :: d in DoneOf(log) && Numbered(d) && d.source == e.source ==> d.seqNo < e.seqNo
  {
    AdvanceIsMax(sent, DoneOf(log), e.source);
  }

  // The smallest such pass: number 1 fails retryably, number 2 is accepted.

  lemma {:induction false} TwoSingles(log: seq<Upload>, one: Entry, two: Entry)
    requires Offered(log) == [one, two] && forall u :: u in log ==> |u.group| == 1
    ensures |log| == 2 && log[0].group == [one] && log[1].group == [two]
  {
    OneEach(log);
    var (a, b) := (log[0], log[1]);
    assert log[..1] == [a] && [a][..0] == [];
    assert Offered(log) == Offered([a]) + b.group && Offered([a]) == Offered([]) + a.group;
    assert a in log && b in log && Offered(log)[0] == a.group[0] && Offered(log)[1] == b.group[0];
  }

  lemma {:induction false} OneEach(log: seq<Upload>)
    requires forall u :: u in log ==> |u.group| == 1
    ensures |Offered(log)| == |log|
    decreases |log|
  {
    if log == [] {
    } else {
      assert forall u :: u in log[..|log| - 1] ==> u in log;
      OneEach(log[..|log| - 1]);
      assert log[|log| - 1] in log;
    }
  }

  lemma {:induction false} AllNumbered(es: seq<Entry>, k: GroupKey)
    requires forall e :: e in es ==> Numbered(e) && GroupOf(e) == k
    ensures NumberedOf(es, k) == es
    decreases |es|
  {
    if es == [] {
    } else {
      var init := es[..|es| - 1];
      assert forall e :: e in init ==> e in es;
      AllNumbered(init, k);
      assert Pick(es, {k}) == Pick(init, {k}) + [es[|es| - 1]] && es == init + [es[|es| - 1]];
      var p := Pick(init, {k});
      assert (p + [es[|es| - 1]])[..|p|] == p;
    }
  }

  /** It runs through `DrainOnce` itself: after the pass number 1, which no upload accepted, is no
      longer above the cursor, so the next pass skips it. */
  method RetryOvertaken(one: Entry, two: Entry) returns (rep: Reporter, log: seq<Upload>)
    requires Numbered(one) && Numbered(two) && one.source == two.source && one.seqNo == 1 && two.seqNo == 2
    requires GroupOf(one) == GroupOf(two)
    ensures fresh(rep) && log == [Upload([one], Retryable), Upload([two], Accepted(None))]
    ensures one.seqNo <= Get(rep.sentSeq, one.source)
  {
    rep := new Reporter(1, route => true);
    var any, checks;
    TwoInOrder(one, two);
    log, any, checks := rep.DrainOnce([one, two], FirstRetryable, Background, true, false);
    OvertakenLog(log, one, two, rep.routed);
  }

  lemma {:induction false} TwoInOrder(one: Entry, two: Entry)
    requires one.seqNo < two.seqNo
    ensures InOrder([one, two])
  {}

  /** The contract of the pass leaves this log only. */
  lemma {:induction false} OvertakenLog(log: seq<Upload>, one: Entry, two: Entry, routed: string -> bool)
    requires Numbered(one) && Numbered(two) && one.source == two.source && one.seqNo == 1 && two.seqNo == 2
    requires GroupOf(one) == GroupOf(two) && routed(one.route)
    requires AllWell(routed, 1, log) && Answers(log, FirstRetryable) && Within(Offered(log), [one, two])
    requires OfferedInOrder([one, two], map[], routed, log, true)
    ensures log == [Upload([one], Retryable), Upload([two], Accepted(None))]
    ensures one.seqNo <= Get(Advance(map[], DoneOf(log)), one.source)
  {
    TwoOffered(log, one, two, routed);
    TwoSingles(log, one, two);
    assert log == [Upload([one], Retryable), Upload([two], Accepted(None))];
    SecondDone(log, one, two);
  }

  function FirstRetryable(i: nat): Outcome { if i == 0 then Retryable else Accepted(None) }

  lemma {:induction false} SecondDone(log: seq<Upload>, one: Entry, two: Entry)
    requires Numbered(two) && one.source == two.source && one.seqNo == 1 && two.seqNo == 2
    requires log == [Upload([one], Retryable), Upload([two], Accepted(None))]
    ensures one.seqNo <= Get(Advance(map[], DoneOf(log)), one.source)
  {
    AddUpload([], log[0]);
    AddUpload([log[0]], log[1]);
    assert [log[0]] + [log[1]] == log && [] + [log[0]] == [log[0]];
    assert two in DoneOf(log);
    AdvanceIsMax(map[], DoneOf(log), one.source);
  }

  lemma {:induction false} BothDue(one: Entry, two: Entry, routed: string -> bool)
    requires Numbered(one) && Numbered(two) && GroupOf(one) == GroupOf(two) && one.source == two.source
    requires one.seqNo == 1 && two.seqNo == 2 && routed(one.route)
    ensures DueOf([one, two], map[], routed, GroupOf(one)) == [one, two]
  {
    assert [one, two][..1] == [one] && [one][..0] == [];
    assert DueOf([one], map[], routed, GroupOf(one)) == [one];
  }

  lemma {:induction false} TwoOffered(log: seq<Upload>, one: Entry, two: Entry, routed: string -> bool)
    requires Numbered(one) && Numbered(two) && GroupOf(one) == GroupOf(two) && one.source == two.source
    requires one.seqNo == 1 && two.seqNo == 2 && routed(one.route)
    requires OfferedInOrder([one, two], map[], routed, log, true)
    requires forall e :: e in Offered(log) ==> e in [one, two]
    ensures Offered(log) == [one, two]
  {
    var k := GroupOf(one);
    AllNumbered(Offered(log), k);
    BothDue(one, two, routed);
    assert NumberedOf(Offered(log), k) == DueOf([one, two], map[], routed, k);
  }

  lemma {:induction false} PickNone(batch: seq<Entry>, k: GroupKey)
    requires forall e :: e in batch ==> GroupOf(e) != k
    ensures Pick(batch, {k}) == []
    decreases |batch|
  {
    if batch == [] {
    } else {
      PickNone(batch[..|batch| - 1], k);
    }
  }
}
