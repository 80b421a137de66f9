/** What the pipe does get done (`internal/apphook/childhook.go`): on a healthy session a caller's whole
    frame goes in and it is told so; after an error or a timeout every later caller is turned away. */
module PipeProgress {
  import opened Common
  import opened Pipe

  /** The permit is free and nothing is wrong with the session. */
  predicate Idle(s: Session) { s.slot == Free && s.torn == None && !s.broken && !s.closed }

  /** A caller that has not been seen before, with a payload its header can state. */
  predicate Newcomer(c: Callers, s: Session, id: nat) { id !in s.phases && |c.payload(id)| <= 0xFFFF_FFFF }

  /** The write goroutine handing on bytes, into the buffer or the pipe. */
  predicate Hands(e: Event) { e.Copy? || e.Direct? || e.Drain? }

  lemma {:induction false} RunConcat(c: Callers, s: Session, a: seq<Event>, b: seq<Event>)
    ensures Run(c, s, a + b) == Run(c, Run(c, s, a), b)
    decreases |a|
  {
    if a == [] {
      assert a + b == b;
    } else {
      assert (a + b)[0] == a[0] && (a + b)[1..] == a[1..] + b;
      RunConcat(c, Step(c, s, a[0]), a[1..], b);
    }
  }

  lemma {:induction false} RunOne(c: Callers, s: Session, e: Event)
    ensures Run(c, s, [e]) == Step(c, s, e)
  {
    assert [e][1..] == [];
  }

  lemma {:induction false} RunTwo(c: Callers, s: Session, d: Event, e: Event)
    ensures Run(c, s, [d, e]) == Step(c, Step(c, s, d), e)
  {
    assert [d, e][1..] == [e];
    RunOne(c, Step(c, s, d), e);
  }

  lemma {:induction false} RunThree(c: Callers, s: Session, d: Event, e: Event, f: Event)
    ensures Run(c, s, [d, e, f]) == Step(c, Step(c, Step(c, s, d), e), f)
  {
    assert [d, e, f][1..] == [e, f];
    RunTwo(c, Step(c, s, d), e, f);
  }

  // ---------------------------------------------------------------------------------------
  // A whole write.
  // ---------------------------------------------------------------------------------------

  /** The caller's write is under way, nothing of it accepted yet but what was there before. */
  predicate UnderWay(t: Session, id: nat) {
    && t.slot == Writing(id) && t.torn == None && !t.closed && !t.broken
    && At(t, id, Admitted) && id !in t.verdicts
  }

  lemma {:induction false} WriteBegins(c: Callers, s: Session, id: nat)
    requires Inv(c, s) && Idle(s) && Newcomer(c, s, id)
    ensures var t := Run(c, s, [Enter(id), Acquire(id), Recheck]);
            && UnderWay(t, id) && t.sent == s.sent
            && t.accepted == s.accepted && t.buf == [] && t.rest == FrameOf(c, id)
  {
    NothingPending(c, s);
    RunThree(c, s, Enter(id), Acquire(id), Recheck);
    assert id !in s.verdicts;
  }

  lemma {:induction false} HandStep(c: Callers, t: Session, id: nat, e: Event)
    requires UnderWay(t, id) && Hands(e)
    ensures var u := Step(c, t, e);
            && UnderWay(u, id) && u.sent == t.sent
            && u.accepted + (u.buf + u.rest) == t.accepted + (t.buf + t.rest)
  {
    var u := Step(c, t, e);
    assert u == Move(t, e);
    if u != t {
      if e.Copy? {
        Handed(t.buf, t.rest, e.n);
      } else if e.Direct? {
        Handed(t.accepted, t.rest, e.n);
        assert t.buf + t.rest == t.rest && u.buf + u.rest == u.rest;
      } else {
        Handed(t.accepted, t.buf, e.n);
        assert u.accepted + (u.buf + u.rest) == (u.accepted + u.buf) + u.rest;
        assert t.accepted + (t.buf + t.rest) == (t.accepted + t.buf) + t.rest;
      }
    }
  }

  lemma {:induction false} HandsRun(c: Callers, t: Session, id: nat, ms: seq<Event>)
    requires UnderWay(t, id) && forall e :: e in ms ==> Hands(e)
    ensures var u := Run(c, t, ms);
            && UnderWay(u, id) && u.sent == t.sent
            && u.accepted + (u.buf + u.rest) == t.accepted + (t.buf + t.rest)
    decreases |ms|
  {
    if ms == [] {
    } else {
      HandStep(c, t, id, ms[0]);
      HandsRun(c, Step(c, t, ms[0]), id, ms[1..]);
    }
  }

  lemma {:induction false} WriteEnds(c: Callers, u: Session, id: nat)
    requires UnderWay(u, id) && u.buf == [] && u.rest == []
    ensures var v := Run(c, u, [Finish, Return(id)]);
            && v.accepted == u.accepted && v.sent == u.sent + [id] && Idle(v)
            && id in v.verdicts && v.verdicts[id] == Accepted
  {
    RunTwo(c, u, Finish, Return(id));
  }

  /** The session while a newcomer's write is being handed on. */
  function Midway(c: Callers, s: Session, id: nat, ms: seq<Event>): Session {
    Run(c, Run(c, s, [Enter(id), Acquire(id), Recheck]), ms)
  }

  /** On every reachable healthy session, however the writer splits the frame between buffer and pipe:
      once nothing of it is left to hand on, the pipe has taken exactly that frame, the caller is told
      so, and the session is free and healthy again. */
  lemma {:induction false} WholeWriteIsAccepted(c: Callers, s: Session, id: nat, ms: seq<Event>)
    requires Inv(c, s) && Idle(s) && Newcomer(c, s, id)
    requires (forall e :: e in ms ==> Hands(e)) && Midway(c, s, id, ms).buf + Midway(c, s, id, ms).rest == []
    ensures var v := Run(c, Midway(c, s, id, ms), [Finish, Return(id)]);
            && v.accepted == s.accepted + Encode(c.framing, c.payload(id))
            && id in v.verdicts && v.verdicts[id] == Accepted
            && v.sent == s.sent + [id] && Idle(v)
  {
    var t := Run(c, s, [Enter(id), Acquire(id), Recheck]);
    WriteBegins(c, s, id);
    HandsRun(c, t, id, ms);
    var u := Run(c, t, ms);
    assert u.buf == [] && u.rest == [];
    assert t.buf + t.rest == FrameOf(c, id) && u.accepted + (u.buf + u.rest) == u.accepted;
    WriteEnds(c, u, id);
  }

  /** Writing straight through is such a way ... */
  lemma {:induction false} DirectWrite(c: Callers, s: Session, id: nat)
    requires Inv(c, s) && Idle(s) && Newcomer(c, s, id)
    ensures var n := |Encode(c.framing, c.payload(id))|;
            var v := Run(c, s, [Enter(id), Acquire(id), Recheck] + [Direct(n)] + [Finish, Return(id)]);
            && v.accepted == s.accepted + Encode(c.framing, c.payload(id))
            && id in v.verdicts && v.verdicts[id] == Accepted
  {
    var n := |Encode(c.framing, c.payload(id))|;
    WriteBegins(c, s, id);
    RunOne(c, Run(c, s, [Enter(id), Acquire(id), Recheck]), Direct(n));
    WholeWriteIsAccepted(c, s, id, [Direct(n)]);
    RunConcat(c, s, [Enter(id), Acquire(id), Recheck], [Direct(n)]);
    RunConcat(c, s, [Enter(id), Acquire(id), Recheck] + [Direct(n)], [Finish, Return(id)]);
  }

  lemma {:induction false} Poured(c: Callers, t: Session, id: nat, n: nat, k: nat)
    requires UnderWay(t, id) && t.buf == [] && |t.rest| == n && k <= n
    ensures var u := Run(c, t, [Copy(n), Drain(k), Drain(n - k)]); u.buf == [] && u.rest == []
  {
    RunThree(c, t, Copy(n), Drain(k), Drain(n - k));
  }

  /** ... and so is filling the buffer and flushing it, in however many pieces the flush goes. */
  lemma {:induction false} BufferedWrite(c: Callers, s: Session, id: nat, k: nat)
    requires Inv(c, s) && Idle(s) && Newcomer(c, s, id) && k <= |Encode(c.framing, c.payload(id))|
    ensures var n := |Encode(c.framing, c.payload(id))|;
            var v := Run(c, s, [Enter(id), Acquire(id), Recheck] + [Copy(n), Drain(k), Drain(n - k)]
                               + [Finish, Return(id)]);
            && v.accepted == s.accepted + Encode(c.framing, c.payload(id))
            && id in v.verdicts && v.verdicts[id] == Accepted
  {
    var n := |Encode(c.framing, c.payload(id))|;
    var ms := [Copy(n), Drain(k), Drain(n - k)];
    var t := Run(c, s, [Enter(id), Acquire(id), Recheck]);
    WriteBegins(c, s, id);
    Poured(c, t, id, n, k);
    WholeWriteIsAccepted(c, s, id, ms);
    RunConcat(c, s, [Enter(id), Acquire(id), Recheck], ms);
    RunConcat(c, s, [Enter(id), Acquire(id), Recheck] + ms, [Finish, Return(id)]);
  }

  // ---------------------------------------------------------------------------------------
  // When it does not go through.
  // ---------------------------------------------------------------------------------------

  /** An error of the pipe is the caller's verdict, and every later newcomer's, without a byte more. */
  lemma {:induction false} ErrorIsReported(c: Callers, s: Session, id: nat)
    requires UnderWay(s, id) && s.buf + s.rest != []
    ensures var v := Run(c, s, [PipeError, Finish, Return(id)]);
            && id in v.verdicts && v.verdicts[id] == WriteFailed
            && v.torn == Some(id) && v.slot == Free && v.accepted == s.accepted
  {
    RunThree(c, s, PipeError, Finish, Return(id));
  }

  lemma {:induction false} StickyBegins(c: Callers, s: Session, id: nat)
    requires Inv(c, s) && s.torn != None && s.slot == Free && !s.broken && Newcomer(c, s, id)
    ensures var t := Run(c, s, [Enter(id), Acquire(id), Recheck]);
            t.slot == Writing(id) && t.torn == s.torn && t.accepted == s.accepted && id !in t.verdicts
  {
    RunThree(c, s, Enter(id), Acquire(id), Recheck);
    assert id !in s.verdicts;
  }

  lemma {:induction false} ErrorIsSticky(c: Callers, s: Session, id: nat)
    requires Inv(c, s) && s.torn != None && s.slot == Free && !s.broken && Newcomer(c, s, id)
    ensures var v := Run(c, s, [Enter(id), Acquire(id), Recheck] + [Finish, Return(id)]);
            id in v.verdicts && v.verdicts[id] == WriteFailed && v.accepted == s.accepted
  {
    RunConcat(c, s, [Enter(id), Acquire(id), Recheck], [Finish, Return(id)]);
    StickyBegins(c, s, id);
    RunTwo(c, Run(c, s, [Enter(id), Acquire(id), Recheck]), Finish, Return(id));
  }

  /** A caller whose deadline expires while its frame is being written retires the session. */
  lemma {:induction false} TimeoutRetires(c: Callers, s: Session, id: nat)
    requires UnderWay(s, id)
    ensures var v := Run(c, s, [Abandon(id), MarkBroken(id), CloseBroken]);
            && v.broken && v.closed && v.slot == Writing(id)
            && id in v.verdicts && v.verdicts[id] == WriteTimeout
  {
    RunThree(c, s, Abandon(id), MarkBroken(id), CloseBroken);
  }

  /** On a retired session a newcomer is turned away at once ... */
  lemma {:induction false} RetiredTurnsAway(c: Callers, s: Session, id: nat)
    requires s.broken && id !in s.phases
    ensures var v := Step(c, s, Enter(id));
            && At(v, id, TurnedAway) && id in v.verdicts
            && v.verdicts[id] == if |c.payload(id)| > 0xFFFF_FFFF then WriteFailed else WriteTimeout
  {}

  /** ... and one that was waiting for the permit when it gets it; on any session, one whose deadline
      expires while it waits. */
  lemma {:induction false} RetiredWhileWaiting(c: Callers, s: Session, id: nat)
    requires At(s, id, Queued)
    ensures s.broken && s.slot == Free ==>
              var v := Run(c, s, [Acquire(id), Recheck]);
              v.slot == Free && id in v.verdicts && v.verdicts[id] == WriteTimeout && v.accepted == s.accepted
    ensures var v := Step(c, s, QueueTimeout(id));
            v.slot == s.slot && id in v.verdicts && v.verdicts[id] == WriteTimeout && At(v, id, TurnedAway)
  {
    RunTwo(c, s, Acquire(id), Recheck);
  }

  // ---------------------------------------------------------------------------------------
  // A respawned child.
  // ---------------------------------------------------------------------------------------

  function Acts(who: nat, es: seq<Event>): (r: seq<HookEvent>)
    ensures |r| == |es|
    decreases |es|
  {
    if es == [] then [] else [Act(who, es[0])] + Acts(who, es[1..])
  }

  lemma {:induction false} ActsRun(c: nat -> Callers, h: Hook, who: nat, es: seq<Event>)
    requires who in h.held && h.held[who] < |h.sessions|
    ensures var g := h.held[who];
            HookRun(c, h, Acts(who, es)) == h.(sessions := h.sessions[g := Run(c(g), h.sessions[g], es)])
    decreases |es|
  {
    var g := h.held[who];
    if es == [] {
      assert h.sessions[g := h.sessions[g]] == h.sessions;
    } else {
      var t := HookStep(c, h, Act(who, es[0]));
      assert Acts(who, es)[1..] == Acts(who, es[1..]);
      ActsRun(c, t, who, es[1..]);
      assert t.sessions[g := Run(c(g), t.sessions[g], es[1..])] == h.sessions[g := Run(c(g), h.sessions[g], es)];
    }
  }

  /** Whatever became of the sessions before, a caller that loads the session after a respawn gets its
      whole frame into the new child. */
  lemma {:induction false} RespawnServes(c: nat -> Callers, before: seq<HookEvent>, who: nat, id: nat)
    requires |c(|HookRun(c, NO_CHILD, before).sessions|).payload(id)| <= 0xFFFF_FFFF
    ensures var h := HookStep(c, HookStep(c, HookRun(c, NO_CHILD, before), Spawn), Load(who));
            var g := |h.sessions| - 1;
            var frame := Encode(c(g).framing, c(g).payload(id));
            var es := [Enter(id), Acquire(id), Recheck] + [Direct(|frame|)] + [Finish, Return(id)];
            var t := HookRun(c, h, Acts(who, es));
            && g >= 0 && g < |t.sessions| && t.sessions[g].accepted == frame
            && id in t.sessions[g].verdicts && t.sessions[g].verdicts[id] == Accepted
  {
    var h := HookStep(c, HookStep(c, HookRun(c, NO_CHILD, before), Spawn), Load(who));
    var g := |h.sessions| - 1;
    var frame := Encode(c(g).framing, c(g).payload(id));
    FreshIsGood(c(g));
    DirectWrite(c(g), FRESH, id);
    ActsRun(c, h, who, [Enter(id), Acquire(id), Recheck] + [Direct(|frame|)] + [Finish, Return(id)]);
    assert [] + frame == frame;
  }

  /** Restart and shutdown take the installed session away and close it: they hold it from then on, no
      caller can load it any more, and closing it is one step of theirs. */
  lemma {:induction false} SwapTakesAway(c: nat -> Callers, h: Hook, who: nat, other: nat)
    requires h.current.Some? && h.current.value < |h.sessions| && who != other
    ensures var t := HookStep(c, h, Swap(who));
            && t.current == None && t.held == h.held[who := h.current.value]
            && HookStep(c, t, Load(other)) == t
            && HookStep(c, t, Act(who, Expel)).sessions[h.current.value].closed
  {}
}
