/** Frame integrity of the child-process pipe (`internal/apphook/childhook.go`): writers that queue
    for a permit, are abandoned at any byte, time out, fail, and race with restart and shutdown. */
module Pipe {
  import opened Common

  type Bytes = seq<Byte>

  /** The frame layout: a fixed-size header that states the payload's length, then the payload.
      The encoding itself belongs to a shared package that is not part of this model. */
  datatype Framing = Framing(header: nat -> Bytes, length: Bytes -> nat, size: nat)

  const MAX_PAYLOAD: nat := 0xFFFF_FFFF

  ghost predicate SelfDelimiting(f: Framing) {
    && f.size > 0
    && forall n: nat :: n <= MAX_PAYLOAD ==> |f.header(n)| == f.size && f.length(f.header(n)) == n
  }

  function Encode(f: Framing, payload: Bytes): Bytes { f.header(|payload|) + payload }

  /** Every caller of one session, by number: what it submits is fixed, when it runs is not. */
  datatype Callers = Callers(framing: Framing, payload: nat -> Bytes)

  function FrameOf(c: Callers, id: nat): Bytes { Encode(c.framing, c.payload(id)) }

  predicate TooLarge(c: Callers, id: nat) { |c.payload(id)| > MAX_PAYLOAD }

  /** Where a caller's frame has got to. */
  datatype Phase = Queued | Admitted | Sent | Torn | TurnedAway

  /** Who holds the single write permit, and which side of the second `broken` check it is on. */
  datatype Slot = Free | Checking(id: nat) | Writing(id: nat) | Flushing

  datatype Verdict = Accepted | WriteTimeout | WriteFailed

  /** One spawn generation.  `accepted` is what the operating system took; `buf` and `rest` are the
      buffered writer's content and the part of the frame not yet handed to it; `torn` is the frame
      on which the writer's sticky error was raised.  `sent` and `expelled` are history. */
  datatype Session = Session(
    accepted: Bytes, buf: Bytes, rest: Bytes, slot: Slot, torn: Option<nat>,
    broken: bool, closed: bool, expelled: bool,
    phases: map<nat, Phase>, verdicts: map<nat, Verdict>, sent: seq<nat>)

  const FRESH := Session([], [], [], Free, None, false, false, false, map[], map[], [])

  /** The steps that any interleaving of callers, write goroutines, timeouts, restarts and shutdown
      is made of.  A step that is not enabled changes nothing. */
  datatype Event =
    | Enter(id: nat)           // size check and first look at `broken`
    | QueueTimeout(id: nat)    // deadline while waiting for the permit
    | Acquire(id: nat)         // permit taken
    | Recheck                  // second look at `broken`
    | Copy(n: nat)             // writer: n bytes of the frame into the buffer
    | Direct(n: nat)           // writer: n bytes straight to the pipe, the buffer being empty
    | Drain(n: nat)            // flush: n bytes of the buffer into the pipe
    | PipeError                // the pipe refuses; the buffered writer's error is sticky
    | Finish                   // the goroutine releases the permit and posts its result
    | Return(id: nat)          // the caller picks up the result
    | Abandon(id: nat)         // the caller's deadline expires, the goroutine stays
    | MarkBroken(id: nat)      // a timed-out caller retires the session: first this ...
    | CloseBroken              // ... then the close
    | Expel                    // restart or shutdown closes, with no permit
    | TryFlush                 // shutdown takes the permit if it is free, never waits
    | EndFlush

  predicate Moving(s: Session) { s.slot.Writing? && s.torn == None }

  function Turn(s: Session, id: nat, v: Verdict): Session {
    s.(phases := s.phases[id := TurnedAway], verdicts := s.verdicts[id := v])
  }

  predicate At(s: Session, id: nat, p: Phase) { id in s.phases && s.phases[id] == p }

  /** Up to the permit. */
  function Queue(c: Callers, s: Session, e: Event): Session {
    match e
    case Enter(id) =>
      if id in s.phases then s
      else if TooLarge(c, id) then Turn(s, id, WriteFailed)
      else if s.broken then Turn(s, id, WriteTimeout)
      else s.(phases := s.phases[id := Queued])
    case QueueTimeout(id) => if At(s, id, Queued) then Turn(s, id, WriteTimeout) else s
    case Acquire(id) =>
      if At(s, id, Queued) && s.slot == Free then s.(slot := Checking(id), phases := s.phases[id := Admitted]) else s
    case Recheck =>
      if !s.slot.Checking? then s
      else if s.broken then Turn(s, s.slot.id, WriteTimeout).(slot := Free)
      else if s.torn != None then s.(slot := Writing(s.slot.id))
      else s.(slot := Writing(s.slot.id), rest := FrameOf(c, s.slot.id))
    case _ => s
  }

  /** The write goroutine up to its result: bytes move, nobody's phase changes. */
  function Move(s: Session, e: Event): Session {
    match e
    case Copy(n) =>
      if Moving(s) && n <= |s.rest| then s.(buf := s.buf + s.rest[..n], rest := s.rest[n..]) else s
    case Direct(n) =>
      if Moving(s) && !s.closed && s.buf == [] && n <= |s.rest|
      then s.(accepted := s.accepted + s.rest[..n], rest := s.rest[n..]) else s
    case Drain(n) =>
      if (Moving(s) || s.slot.Flushing?) && s.torn == None && !s.closed && n <= |s.buf|
      then s.(accepted := s.accepted + s.buf[..n], buf := s.buf[n..]) else s
    case PipeError =>
      if Moving(s) && s.buf + s.rest != [] then s.(torn := Some(s.slot.id)) else s
    case _ => s
  }

  /** The goroutine releases the permit. */
  function Release(s: Session): Session
    requires s.slot.Writing?
  {
    if s.torn != None then s.(slot := Free, phases := s.phases[s.slot.id := Torn])
    else if s.buf == [] && s.rest == [] then
      s.(slot := Free, phases := s.phases[s.slot.id := Sent], sent := s.sent + [s.slot.id])
    else s
  }

  /** What callers conclude, and what retiring the session does. */
  function Conclude(s: Session, e: Event): Session {
    match e
    case Return(id) =>
      if id in s.verdicts then s
      else if At(s, id, Sent) then s.(verdicts := s.verdicts[id := Accepted])
      else if At(s, id, Torn) then s.(verdicts := s.verdicts[id := WriteFailed])
      else s
    case Abandon(id) =>
      if id !in s.verdicts && id in s.phases && (s.slot == Writing(id) || At(s, id, Sent) || At(s, id, Torn))
      then s.(verdicts := s.verdicts[id := WriteTimeout]) else s
    case MarkBroken(id) =>
      if TimedOut(s.verdicts, id) then s.(broken := true) else s
    case CloseBroken => if s.broken then s.(closed := true) else s
    case Expel => s.(closed := true, expelled := true)
    case TryFlush => if s.slot == Free then s.(slot := Flushing) else s
    case EndFlush => if s.slot == Flushing then s.(slot := Free) else s
    case _ => s
  }

  function Step(c: Callers, s: Session, e: Event): Session {
    if e.Enter? || e.QueueTimeout? || e.Acquire? || e.Recheck? then Queue(c, s, e)
    else if e.Copy? || e.Direct? || e.Drain? || e.PipeError? then Move(s, e)
    else if e.Finish? then (if s.slot.Writing? then Release(s) else s)
    else Conclude(s, e)
  }

  function Run(c: Callers, s: Session, es: seq<Event>): Session
    decreases |es|
  {
    if es == [] then s else Run(c, Step(c, s, es[0]), es[1..])
  }

  // ---------------------------------------------------------------------------------------
  // The invariant of one session.
  // ---------------------------------------------------------------------------------------

  /** The frames of `ids`, one after the other. */
  function Wire(c: Callers, ids: seq<nat>): Bytes
    decreases |ids|
  {
    if ids == [] then [] else Wire(c, ids[..|ids| - 1]) + FrameOf(c, ids[|ids| - 1])
  }

  /** The caller whose frame is only partly through, if any. */
  function Owner(s: Session): Option<nat> {
    if s.torn != None then s.torn else if s.slot.Writing? then Some(s.slot.id) else None
  }

  function Open(c: Callers, owner: Option<nat>): Bytes {
    if owner == None then [] else FrameOf(c, owner.value)
  }

  ghost predicate Conserved(c: Callers, accepted: Bytes, buf: Bytes, rest: Bytes, sent: seq<nat>,
                            owner: Option<nat>, torn: bool) {
    && accepted + buf + rest == Wire(c, sent) + Open(c, owner)
    && |Wire(c, sent)| <= |accepted|
    && (torn ==> buf + rest != [])
  }

  /** Nothing is lost, reordered or interleaved between the frames and the operating system. */
  ghost predicate BytesConserved(c: Callers, s: Session) {
    Conserved(c, s.accepted, s.buf, s.rest, s.sent, Owner(s), s.torn != None)
  }

  /** Phases, permit and verdicts agree. */
  ghost predicate Bookkeeping(c: Callers, s: Session) {
    && (forall id :: id in s.sent <==> At(s, id, Sent))
    && (forall i, j :: 0 <= i < j < |s.sent| ==> s.sent[i] != s.sent[j])
    && (s.slot.Checking? || s.slot.Writing? ==> At(s, s.slot.id, Admitted))
    && (s.torn != None ==> s.slot == Writing(s.torn.value) || At(s, s.torn.value, Torn))
    && (forall id :: At(s, id, TurnedAway) ==> id in s.verdicts)
  }

  ghost predicate Truthful(c: Callers, s: Session) {
    && (forall id :: id in s.verdicts ==> id in s.phases)
    && (forall id :: id in s.verdicts && s.verdicts[id] == Accepted ==> At(s, id, Sent))
    && (forall id :: id in s.phases && TooLarge(c, id) ==> s.phases[id] == TurnedAway)
  }

  ghost predicate RetiredByTimeout(s: Session) {
    && (s.closed ==> s.broken || s.expelled)
    && (s.broken ==> exists id :: TimedOut(s.verdicts, id))
  }

  predicate TimedOut(verdicts: map<nat, Verdict>, id: nat) { id in verdicts && verdicts[id] == WriteTimeout }

  ghost predicate Inv(c: Callers, s: Session) {
    BytesConserved(c, s) && Bookkeeping(c, s) && Truthful(c, s) && RetiredByTimeout(s)
  }

  lemma {:induction false} FreshIsGood(c: Callers)
    ensures Inv(c, FRESH)
  {}

  lemma {:induction false} WireGrows(c: Callers, ids: seq<nat>, id: nat)
    ensures Wire(c, ids + [id]) == Wire(c, ids) + FrameOf(c, id)
  {
    assert (ids + [id])[..|ids|] == ids;
  }

  lemma {:induction false} NothingPending(c: Callers, s: Session)
    requires BytesConserved(c, s) && Owner(s) == None
    ensures s.buf == [] && s.rest == []
  {
    assert |s.accepted + s.buf + s.rest| == |s.accepted| + |s.buf| + |s.rest|;
  }

  lemma {:induction false} FrameStarts(c: Callers, accepted: Bytes, sent: seq<nat>, id: nat)
    requires Conserved(c, accepted, [], [], sent, None, false)
    ensures Conserved(c, accepted, [], FrameOf(c, id), sent, Some(id), false)
  {
    assert accepted + [] + [] == accepted && accepted + [] == accepted && Wire(c, sent) + [] == Wire(c, sent);
  }

  /** The same bytes, for the same frames. */
  predicate SameBytes(s: Session, t: Session) {
    && t.accepted == s.accepted && t.buf == s.buf && t.rest == s.rest && t.sent == s.sent
    && t.torn == s.torn && Owner(t) == Owner(s)
  }

  lemma {:induction false} QueueMovesNothing(c: Callers, s: Session, e: Event)
    requires e.Recheck? && s.slot.Checking? ==> s.torn != None
    ensures SameBytes(s, Queue(c, s, e))
  {}

  lemma {:induction false} QueueConservesBytes(c: Callers, s: Session, e: Event)
    requires BytesConserved(c, s)
    ensures BytesConserved(c, Queue(c, s, e))
  {
    if e.Recheck? && s.slot.Checking? && s.torn == None {
      NothingPending(c, s);
      FrameStarts(c, s.accepted, s.sent, s.slot.id);
    } else {
      QueueMovesNothing(c, s, e);
    }
  }

  /** Handing the first n bytes of the right part to the left part leaves the whole as it was. */
  lemma {:induction false} Handed(x: Bytes, y: Bytes, n: nat)
    requires n <= |y|
    ensures (x + y[..n]) + y[n..] == x + y
  {}

  lemma {:induction false} MoveConservesBytes(c: Callers, s: Session, e: Event)
    requires BytesConserved(c, s)
    ensures BytesConserved(c, Move(s, e))
  {
    var t := Move(s, e);
    if t != s && !e.PipeError? {
      if e.Copy? {
        Handed(s.buf, s.rest, e.n);
        assert s.accepted + s.buf + s.rest == s.accepted + (s.buf + s.rest);
        assert t.accepted + t.buf + t.rest == t.accepted + (t.buf + t.rest);
      } else if e.Direct? {
        Handed(s.accepted, s.rest, e.n);
        assert s.accepted + s.buf == s.accepted && t.accepted + t.buf == t.accepted;
      } else {
        Handed(s.accepted, s.buf, e.n);
      }
    }
  }

  /** A frame that is wholly through becomes one of the sent ones. */
  lemma {:induction false} WhollyThrough(c: Callers, accepted: Bytes, sent: seq<nat>, id: nat)
    requires Conserved(c, accepted, [], [], sent, Some(id), false)
    ensures Conserved(c, accepted, [], [], sent + [id], None, false)
  {
    WireGrows(c, sent, id);
    var w := Wire(c, sent + [id]);
    assert accepted + [] + [] == accepted && w + [] == w;
  }

  lemma {:induction false} ReleaseConservesBytes(c: Callers, s: Session)
    requires BytesConserved(c, s) && s.slot.Writing?
    ensures BytesConserved(c, Release(s))
  {
    if s.torn == None && s.buf == [] && s.rest == [] {
      WhollyThrough(c, s.accepted, s.sent, s.slot.id);
    }
  }

  lemma {:induction false} ConcludeMovesNothing(s: Session, e: Event)
    ensures SameBytes(s, Conclude(s, e))
  {}

  lemma {:induction false} StepConservesBytes(c: Callers, s: Session, e: Event)
    requires BytesConserved(c, s)
    ensures BytesConserved(c, Step(c, s, e))
  {
    if e.Enter? || e.QueueTimeout? || e.Acquire? || e.Recheck? {
      QueueConservesBytes(c, s, e);
    } else if e.Copy? || e.Direct? || e.Drain? || e.PipeError? {
      MoveConservesBytes(c, s, e);
    } else if e.Finish? {
      if s.slot.Writing? {
        ReleaseConservesBytes(c, s);
      }
    } else {
      ConcludeMovesNothing(s, e);
      assert Step(c, s, e) == Conclude(s, e);
    }
  }

  lemma {:induction false} TurnKeepsBooks(c: Callers, s: Session, id: nat, v: Verdict)
    requires Bookkeeping(c, s) && (id in s.phases ==> At(s, id, Queued))
    ensures Bookkeeping(c, Turn(s, id, v))
  {}

  lemma {:induction false} AcquireKeepsBooks(c: Callers, s: Session, id: nat)
    requires Bookkeeping(c, s)
    ensures Bookkeeping(c, Queue(c, s, Acquire(id)))
  {}

  lemma {:induction false} RecheckKeepsBooks(c: Callers, s: Session)
    requires Bookkeeping(c, s)
    ensures Bookkeeping(c, Queue(c, s, Recheck))
  {}

  lemma {:induction false} EnterKeepsBooks(c: Callers, s: Session, id: nat)
    requires Bookkeeping(c, s) && id !in s.phases
    ensures Bookkeeping(c, s.(phases := s.phases[id := Queued]))
  {}

  lemma {:induction false} QueueKeepsBooks(c: Callers, s: Session, e: Event)
    requires Bookkeeping(c, s)
    ensures Bookkeeping(c, Queue(c, s, e))
  {
    match e
    case Enter(id) =>
      if id !in s.phases {
        EnterKeepsBooks(c, s, id);
        TurnKeepsBooks(c, s, id, WriteFailed);
        TurnKeepsBooks(c, s, id, WriteTimeout);
      }
    case QueueTimeout(id) =>
      if At(s, id, Queued) {
        TurnKeepsBooks(c, s, id, WriteTimeout);
      }
    case Acquire(id) => AcquireKeepsBooks(c, s, id);
    case Recheck => RecheckKeepsBooks(c, s);
    case _ =>
  }

  lemma {:induction false} SentIsApart(ids: seq<nat>, id: nat)
    requires id !in ids && forall i, j :: 0 <= i < j < |ids| ==> ids[i] != ids[j]
    ensures forall i, j :: 0 <= i < j < |ids + [id]| ==> (ids + [id])[i] != (ids + [id])[j]
  {}

  lemma {:induction false} FinishedKeepsBooks(c: Callers, s: Session, id: nat)
    requires Bookkeeping(c, s) && s.slot == Writing(id) && s.torn == None
    ensures Bookkeeping(c, s.(slot := Free, phases := s.phases[id := Sent], sent := s.sent + [id]))
  {
    var t := s.(slot := Free, phases := s.phases[id := Sent], sent := s.sent + [id]);
    assert id !in s.sent;
    SentIsApart(s.sent, id);
    forall k ensures k in t.sent <==> At(t, k, Sent) {
      assert k in s.sent <==> At(s, k, Sent);
    }
  }

  lemma {:induction false} TornKeepsBooks(c: Callers, s: Session, id: nat)
    requires Bookkeeping(c, s) && s.slot == Writing(id)
    ensures Bookkeeping(c, s.(slot := Free, phases := s.phases[id := Torn]))
  {}

  lemma {:induction false} ReleaseKeepsBooks(c: Callers, s: Session)
    requires Bookkeeping(c, s) && s.slot.Writing?
    ensures Bookkeeping(c, Release(s))
  {
    if s.torn != None {
      TornKeepsBooks(c, s, s.slot.id);
    } else {
      FinishedKeepsBooks(c, s, s.slot.id);
    }
  }

  /** The same phases, and no verdict taken back or changed. */
  ghost predicate OnlyVerdicts(s: Session, t: Session) {
    && t.phases == s.phases && t.sent == s.sent && t.torn == s.torn
    && (s.slot.Checking? || s.slot.Writing? || t.slot.Checking? || t.slot.Writing? ==> t.slot == s.slot)
    && (forall id :: id in s.verdicts ==> id in t.verdicts && t.verdicts[id] == s.verdicts[id])
  }

  lemma {:induction false} ConcludeIsVerdicts(s: Session, e: Event)
    ensures OnlyVerdicts(s, Conclude(s, e))
  {}

  lemma {:induction false} VerdictsKeepBooks(c: Callers, s: Session, t: Session)
    requires Bookkeeping(c, s) && OnlyVerdicts(s, t)
    ensures Bookkeeping(c, t)
  {
    assert forall id, p :: At(t, id, p) == At(s, id, p);
  }

  lemma {:induction false} ConcludeKeepsBooks(c: Callers, s: Session, e: Event)
    requires Bookkeeping(c, s)
    ensures Bookkeeping(c, Conclude(s, e))
  {
    ConcludeIsVerdicts(s, e);
    VerdictsKeepBooks(c, s, Conclude(s, e));
  }

  lemma {:induction false} StepKeepsBooks(c: Callers, s: Session, e: Event)
    requires Bookkeeping(c, s)
    ensures Bookkeeping(c, Step(c, s, e))
  {
    QueueKeepsBooks(c, s, e);
    assert Bookkeeping(c, Move(s, e));
    if s.slot.Writing? {
      ReleaseKeepsBooks(c, s);
    }
    ConcludeKeepsBooks(c, s, e);
  }

  lemma {:induction false} QueueStaysTruthful(c: Callers, s: Session, e: Event)
    requires Bookkeeping(c, s) && Truthful(c, s)
    ensures Truthful(c, Queue(c, s, e))
  {}

  lemma {:induction false} ReleaseStaysTruthful(c: Callers, s: Session)
    requires Bookkeeping(c, s) && Truthful(c, s) && s.slot.Writing?
    ensures Truthful(c, Release(s))
  {}

  lemma {:induction false} JudgedTruly(c: Callers, s: Session, id: nat, v: Verdict)
    requires Truthful(c, s) && id in s.phases && (v == Accepted ==> At(s, id, Sent))
    ensures Truthful(c, s.(verdicts := s.verdicts[id := v]))
  {}

  lemma {:induction false} ConcludeStaysTruthful(c: Callers, s: Session, e: Event)
    requires Bookkeeping(c, s) && Truthful(c, s)
    ensures Truthful(c, Conclude(s, e))
  {
    match e
    case Return(id) =>
      if At(s, id, Sent) {
        JudgedTruly(c, s, id, Accepted);
      } else if At(s, id, Torn) {
        JudgedTruly(c, s, id, WriteFailed);
      }
    case Abandon(id) =>
      if id in s.phases {
        JudgedTruly(c, s, id, WriteTimeout);
      }
    case _ =>
      assert Conclude(s, e).phases == s.phases && Conclude(s, e).verdicts == s.verdicts;
  }

  lemma {:induction false} StepStaysTruthful(c: Callers, s: Session, e: Event)
    requires Bookkeeping(c, s) && Truthful(c, s)
    ensures Truthful(c, Step(c, s, e))
  {
    QueueStaysTruthful(c, s, e);
    assert Truthful(c, Move(s, e));
    if s.slot.Writing? {
      ReleaseStaysTruthful(c, s);
    }
    ConcludeStaysTruthful(c, s, e);
  }

  lemma {:induction false} QueueKeepsTimeout(c: Callers, s: Session, e: Event, id: nat)
    requires Truthful(c, s) && TimedOut(s.verdicts, id)
    ensures TimedOut(Queue(c, s, e).verdicts, id)
  {}

  lemma {:induction false} ConcludeKeepsTimeout(s: Session, e: Event, id: nat)
    requires TimedOut(s.verdicts, id)
    ensures TimedOut(Conclude(s, e).verdicts, id)
  {}

  /** A verdict of write timeout is never taken back. */
  lemma {:induction false} TimeoutStays(c: Callers, s: Session, e: Event, id: nat)
    requires Truthful(c, s) && TimedOut(s.verdicts, id)
    ensures TimedOut(Step(c, s, e).verdicts, id)
  {
    QueueKeepsTimeout(c, s, e, id);
    ConcludeKeepsTimeout(s, e, id);
    assert Move(s, e).verdicts == s.verdicts;
  }

  lemma {:induction false} StepRetiresByTimeout(c: Callers, s: Session, e: Event)
    requires Truthful(c, s) && RetiredByTimeout(s)
    ensures RetiredByTimeout(Step(c, s, e))
  {
    var t := Step(c, s, e);
    if s.broken {
      var id :| TimedOut(s.verdicts, id);
      TimeoutStays(c, s, e, id);
    } else if t.broken {
      assert TimedOut(t.verdicts, e.id);
    }
  }

  lemma {:induction false} RunKeepsInv(c: Callers, s: Session, es: seq<Event>)
    requires Inv(c, s)
    ensures Inv(c, Run(c, s, es))
    decreases |es|
  {
    if es == [] {
    } else {
      StepKeepsInv(c, s, es[0]);
      RunKeepsInv(c, Step(c, s, es[0]), es[1..]);
    }
  }

  // ---------------------------------------------------------------------------------------
  // What every run gives.
  // ---------------------------------------------------------------------------------------

  /** The pipe holds whole frames, in the order they were finished, then at most one prefix; a torn
      frame is never whole; a caller told "accepted" has its whole frame in, one turned away has no
      byte in; and a session is only ever closed as broken or by restart and shutdown. */
  ghost predicate Integrity(c: Callers, s: Session) {
    && Wire(c, s.sent) <= s.accepted <= Wire(c, s.sent) + Open(c, Owner(s))
    && (s.torn != None ==> s.accepted < Wire(c, s.sent) + Open(c, Owner(s)))
    && (Owner(s) != None ==> Owner(s).value !in s.sent)
    && (forall i, j :: 0 <= i < j < |s.sent| ==> s.sent[i] != s.sent[j])
    && (forall id :: id in s.verdicts && s.verdicts[id] == Accepted ==> id in s.sent)
    && (forall id :: At(s, id, TurnedAway) ==> id !in s.sent && Owner(s) != Some(id))
    && (s.closed && !s.expelled ==> s.broken)
  }

  lemma {:induction false} PrefixOf(a: Bytes, b: Bytes, w: Bytes, o: Bytes)
    requires a + b == w + o && |w| <= |a|
    ensures w <= a <= w + o
    ensures b != [] ==> a < w + o
  {
    assert forall i :: 0 <= i < |w| ==> (w + o)[i] == w[i] && (a + b)[i] == a[i];
    assert forall i :: 0 <= i < |a| ==> (a + b)[i] == a[i];
  }

  lemma {:induction false} InvMeansIntegrity(c: Callers, s: Session)
    requires Inv(c, s)
    ensures Integrity(c, s)
  {
    assert s.accepted + s.buf + s.rest == s.accepted + (s.buf + s.rest);
    PrefixOf(s.accepted, s.buf + s.rest, Wire(c, s.sent), Open(c, Owner(s)));
  }

  /** Any interleaving, any timeouts, any errors. */
  lemma {:induction false} FrameIntegrity(c: Callers, es: seq<Event>)
    ensures Integrity(c, Run(c, FRESH, es))
  {
    FreshIsGood(c);
    RunKeepsInv(c, FRESH, es);
    InvMeansIntegrity(c, Run(c, FRESH, es));
  }

  /** No byte can move any more: a frame was torn, or the session is broken and no write that had
      passed its check is left. */
  predicate Dead(s: Session) { s.torn != None || (s.broken && !s.slot.Writing?) }

  lemma {:induction false} DeadPipeStands(c: Callers, s: Session, e: Event)
    requires BytesConserved(c, s) && Dead(s)
    ensures Dead(Move(s, e)) && Move(s, e).accepted == s.accepted && Move(s, e).sent == s.sent
  {
    if s.torn == None {
      NothingPending(c, s);
    }
  }

  lemma {:induction false} DeadQueueStands(c: Callers, s: Session, e: Event)
    requires Dead(s)
    ensures var t := Queue(c, s, e); Dead(t) && t.accepted == s.accepted && t.sent == s.sent
  {}

  lemma {:induction false} DeadConclusion(s: Session, e: Event)
    requires Dead(s)
    ensures var t := Conclude(s, e); Dead(t) && t.accepted == s.accepted && t.sent == s.sent
  {}

  lemma {:induction false} DeadStaysDead(c: Callers, s: Session, e: Event)
    requires BytesConserved(c, s) && Dead(s)
    ensures var t := Step(c, s, e); Dead(t) && t.accepted == s.accepted && t.sent == s.sent
  {
    if e.Enter? || e.QueueTimeout? || e.Acquire? || e.Recheck? {
      DeadQueueStands(c, s, e);
    } else if e.Copy? || e.Direct? || e.Drain? || e.PipeError? {
      DeadPipeStands(c, s, e);
    } else if e.Finish? {
    } else {
      DeadConclusion(s, e);
      assert Step(c, s, e) == Conclude(s, e);
    }
  }

  /** After a torn frame, or once a broken session's last admitted write is over, nothing is ever
      written behind it, not even by the flush at shutdown. */
  lemma {:induction false} NothingAfter(c: Callers, s: Session, es: seq<Event>)
    requires Inv(c, s) && Dead(s)
    ensures Run(c, s, es).accepted == s.accepted && Run(c, s, es).sent == s.sent
    decreases |es|
  {
    if es == [] {
    } else {
      var t := Step(c, s, es[0]);
      DeadStaysDead(c, s, es[0]);
      RunKeepsInv(c, s, [es[0]]);
      assert Run(c, t, []) == t && [es[0]][1..] == [];
      NothingAfter(c, t, es[1..]);
    }
  }

  /** Shutdown's flush never moves a byte: its buffer is empty whenever it gets the permit, or the
      writer's error is sticky. */
  lemma {:induction false} FlushMovesNothing(c: Callers, s: Session, n: nat)
    requires BytesConserved(c, s) && s.slot == Flushing
    ensures Step(c, s, Drain(n)).accepted == s.accepted
  {
    if s.torn == None {
      NothingPending(c, s);
    }
  }

  // ---------------------------------------------------------------------------------------
  // What the child reads.
  // ---------------------------------------------------------------------------------------

  /** The child's reader: header, then as many bytes as it says; it waits at an incomplete frame. */
  function Parse(f: Framing, bytes: Bytes): seq<Bytes>
    requires f.size > 0
    decreases |bytes|
  {
    if |bytes| < f.size then []
    else
      var n := f.length(bytes[..f.size]);
      if |bytes| < f.size + n then []
      else [bytes[f.size..f.size + n]] + Parse(f, bytes[f.size + n..])
  }

  function Payloads(c: Callers, ids: seq<nat>): (r: seq<Bytes>)
    ensures |r| == |ids|
    decreases |ids|
  {
    if ids == [] then [] else Payloads(c, ids[..|ids| - 1]) + [c.payload(ids[|ids| - 1])]
  }

  lemma {:induction false} ParseFrame(f: Framing, payload: Bytes, tail: Bytes)
    requires SelfDelimiting(f) && |payload| <= MAX_PAYLOAD
    ensures Parse(f, Encode(f, payload) + tail) == [payload] + Parse(f, tail)
  {
    var bytes := Encode(f, payload) + tail;
    assert bytes[..f.size] == f.header(|payload|);
    assert bytes[f.size..f.size + |payload|] == payload;
    assert bytes[f.size + |payload|..] == tail;
  }

  lemma {:induction false} ParsePrefix(f: Framing, payload: Bytes, part: Bytes)
    requires SelfDelimiting(f) && |payload| <= MAX_PAYLOAD && part < Encode(f, payload)
    ensures Parse(f, part) == []
  {
    if |part| >= f.size {
      assert part[..f.size] == f.header(|payload|);
    }
  }

  lemma {:induction false} ParseWire(c: Callers, ids: seq<nat>, tail: Bytes)
    requires SelfDelimiting(c.framing) && forall id :: id in ids ==> !TooLarge(c, id)
    ensures Parse(c.framing, Wire(c, ids) + tail) == Payloads(c, ids) + Parse(c.framing, tail)
    decreases |ids|
  {
    if ids == [] {
      assert Wire(c, ids) + tail == tail;
    } else {
      var (init, last) := (ids[..|ids| - 1], ids[|ids| - 1]);
      assert last in ids && forall id :: id in init ==> id in ids;
      assert Wire(c, ids) + tail == Wire(c, init) + (FrameOf(c, last) + tail);
      ParseWire(c, init, FrameOf(c, last) + tail);
      ParseFrame(c.framing, c.payload(last), tail);
    }
  }

  /** The child decodes exactly the payloads whose frames were finished, in that order, plus at most
      the one whose last byte has just gone in; it never reads a frame at a wrong offset. */
  lemma {:induction false} ChildReadsWholeFrames(c: Callers, es: seq<Event>)
    requires SelfDelimiting(c.framing)
    ensures var s := Run(c, FRESH, es);
            Parse(c.framing, s.accepted) == Payloads(c, s.sent)
            || (Owner(s) != None && s.torn == None
                && Parse(c.framing, s.accepted) == Payloads(c, s.sent) + [c.payload(Owner(s).value)])
  {
    var s := Run(c, FRESH, es);
    FreshIsGood(c);
    RunKeepsInv(c, FRESH, es);
    InvMeansIntegrity(c, s);
    var tail := s.accepted[|Wire(c, s.sent)|..];
    assert s.accepted == Wire(c, s.sent) + tail;
    assert forall id :: id in s.sent ==> At(s, id, Sent);
    ParseWire(c, s.sent, tail);
    if Owner(s) != None {
      OpenTail(c, s, tail);
    }
  }

  lemma {:induction false} OpenTail(c: Callers, s: Session, tail: Bytes)
    requires SelfDelimiting(c.framing) && Inv(c, s) && Integrity(c, s) && Owner(s) != None
    requires s.accepted == Wire(c, s.sent) + tail
    ensures Parse(c.framing, tail) == [] || (s.torn == None && Parse(c.framing, tail) == [c.payload(Owner(s).value)])
  {
    var id := Owner(s).value;
    assert id in s.phases && s.phases[id] != TurnedAway;
    var whole := Wire(c, s.sent) + FrameOf(c, id);
    assert tail == whole[|Wire(c, s.sent)|..|s.accepted|] == FrameOf(c, id)[..|tail|];
    if |tail| < |FrameOf(c, id)| {
      ParsePrefix(c.framing, c.payload(id), tail);
    } else {
      assert tail + [] == FrameOf(c, id) + [];
      assert tail + [] == tail;
      ParseFrame(c.framing, c.payload(id), []);
    }
  }

  // ---------------------------------------------------------------------------------------
  // Generations: restart and shutdown swap the session, stale callers keep the one they loaded.
  // ---------------------------------------------------------------------------------------

  /** The sessions ever spawned, which of them is installed, and the one each goroutine works on: a
      caller the session it loaded, restart and shutdown the one they swapped out. */
  datatype Hook = Hook(sessions: seq<Session>, current: Option<nat>, held: map<nat, nat>)

  datatype HookEvent =
    | Load(who: nat)          // a caller reads the installed session
    | Act(who: nat, e: Event) // a goroutine does a step on the session it holds, however stale
    | Spawn                   // a fresh session is installed
    | Swap(who: nat)          // restart or shutdown takes the installed session away

  function Holding(h: Hook, who: nat): map<nat, nat> {
    if h.current.Some? then h.held[who := h.current.value] else h.held
  }

  function HookStep(c: nat -> Callers, h: Hook, e: HookEvent): Hook {
    match e
    case Load(who) => h.(held := Holding(h, who))
    case Act(who, e) =>
      if who in h.held && h.held[who] < |h.sessions|
      then h.(sessions := h.sessions[h.held[who] := Step(c(h.held[who]), h.sessions[h.held[who]], e)]) else h
    case Spawn => h.(sessions := h.sessions + [FRESH], current := Some(|h.sessions|))
    case Swap(who) => h.(held := Holding(h, who), current := None)
  }

  const NO_CHILD := Hook([], None, map[])

  function HookRun(c: nat -> Callers, h: Hook, es: seq<HookEvent>): Hook
    decreases |es|
  {
    if es == [] then h else HookRun(c, HookStep(c, h, es[0]), es[1..])
  }

  ghost predicate AllGood(c: nat -> Callers, h: Hook) {
    && (forall g :: 0 <= g < |h.sessions| ==> Inv(c(g), h.sessions[g]))
    && (h.current != None ==> h.current.value < |h.sessions|)
    && (forall w :: w in h.held ==> h.held[w] < |h.sessions|)
  }

  lemma {:induction false} StepKeepsInv(c: Callers, s: Session, e: Event)
    requires Inv(c, s)
    ensures Inv(c, Step(c, s, e))
  {
    StepConservesBytes(c, s, e);
    StepKeepsBooks(c, s, e);
    StepStaysTruthful(c, s, e);
    StepRetiresByTimeout(c, s, e);
  }

  lemma {:induction false} ActKeepsInv(c: nat -> Callers, h: Hook, g: nat, e: Event)
    requires AllGood(c, h) && g < |h.sessions|
    ensures AllGood(c, h.(sessions := h.sessions[g := Step(c(g), h.sessions[g], e)]))
  {
    var next := Step(c(g), h.sessions[g], e);
    StepKeepsInv(c(g), h.sessions[g], e);
    Updated(c, h, g, next);
  }

  lemma {:induction false} Updated(c: nat -> Callers, h: Hook, g: nat, next: Session)
    requires AllGood(c, h) && g < |h.sessions| && Inv(c(g), next)
    ensures AllGood(c, h.(sessions := h.sessions[g := next]))
  {}

  lemma {:induction false} HookStepKeepsInv(c: nat -> Callers, h: Hook, e: HookEvent)
    requires AllGood(c, h)
    ensures AllGood(c, HookStep(c, h, e))
  {
    match e
    case Load(_) =>
    case Act(who, e) =>
      if who in h.held {
        ActKeepsInv(c, h, h.held[who], e);
      }
    case Spawn => FreshIsGood(c(|h.sessions|));
    case Swap(_) =>
  }

  lemma {:induction false} HookRunKeepsInv(c: nat -> Callers, h: Hook, es: seq<HookEvent>)
    requires AllGood(c, h)
    ensures AllGood(c, HookRun(c, h, es))
    decreases |es|
  {
    if es == [] {
    } else {
      HookStepKeepsInv(c, h, es[0]);
      HookRunKeepsInv(c, HookStep(c, h, es[0]), es[1..]);
    }
  }

  /** Every generation of every run keeps its frames whole, whatever the callers of older ones do. */
  lemma {:induction false} EveryGeneration(c: nat -> Callers, es: seq<HookEvent>, g: nat)
    requires g < |HookRun(c, NO_CHILD, es).sessions|
    ensures Integrity(c(g), HookRun(c, NO_CHILD, es).sessions[g])
  {
    HookRunKeepsInv(c, NO_CHILD, es);
    InvMeansIntegrity(c(g), HookRun(c, NO_CHILD, es).sessions[g]);
  }

  /** Nobody holds or can get hold of generation g. */
  ghost predicate OutOfReach(h: Hook, g: nat) {
    g < |h.sessions| && h.current != Some(g) && forall w :: w in h.held ==> h.held[w] != g
  }

  lemma {:induction false} ReachIsNotRegained(c: nat -> Callers, h: Hook, es: seq<HookEvent>, g: nat)
    requires OutOfReach(h, g)
    ensures OutOfReach(HookRun(c, h, es), g) && HookRun(c, h, es).sessions[g] == h.sessions[g]
    decreases |es|
  {
    if es == [] {
    } else {
      var t := HookStep(c, h, es[0]);
      assert OutOfReach(t, g) && t.sessions[g] == h.sessions[g];
      ReachIsNotRegained(c, t, es[1..], g);
    }
  }

  /** A stale caller cannot touch what it did not load: from any reachable hook, after a respawn, all
      the steps of goroutines that loaded before it, timeouts and closes included, leave the fresh
      session as it was spawned. */
  lemma {:induction false} StaleCallersCannotTouchFresh(c: nat -> Callers, before: seq<HookEvent>, es: seq<HookEvent>)
    requires forall e :: e in es ==> e.Act?
    ensures var h := HookStep(c, HookRun(c, NO_CHILD, before), Spawn);
            var g := |h.sessions| - 1;
            var t := HookRun(c, h, es);
            g < |t.sessions| && t.sessions[g] == FRESH && t.current == Some(g)
  {
    HookRunKeepsInv(c, NO_CHILD, before);
    var h := HookStep(c, HookRun(c, NO_CHILD, before), Spawn);
    OnlyActs(c, h, es, |h.sessions| - 1);
  }

  lemma {:induction false} OnlyActs(c: nat -> Callers, h: Hook, es: seq<HookEvent>, g: nat)
    requires g < |h.sessions| && (forall w :: w in h.held ==> h.held[w] != g) && forall e :: e in es ==> e.Act?
    ensures var t := HookRun(c, h, es);
            |t.sessions| == |h.sessions| && t.sessions[g] == h.sessions[g] && t.current == h.current
    decreases |es|
  {
    if es == [] {
    } else {
      assert es[0].Act?;
      OnlyActs(c, HookStep(c, h, es[0]), es[1..], g);
    }
  }
}
