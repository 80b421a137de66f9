/** Client-confirmed reconciliation (`internal/events/reconcile.go`): the collector lists missing
    numbers, the client re-sends those its WAL still holds and has the rest written off.  What is
    proved is when a number may be written off, over every run of windows, and that the windows
    converge. */
module Reconcile {
  import opened Common
  import opened Outbox
  import opened Drain

  const TERMINAL_RESENDS: nat := 3
  const MAX_WINDOWS: nat := 100

  /** Delivered re-sends per number, kept while the number stays listed. */
  type Budget = map<int, nat>

  function Spent(b: Budget, n: int): nat { if n in b then b[n] else 0 }

  datatype Fate = HeldBack | NotInWAL | GivenUp | Resend

  /** What one window does with one listed number. */
  function FateOf(n: int, floor: int, wal: set<int>, b: Budget): Fate {
    if floor > 0 && n <= floor then HeldBack
    else if n !in wal then NotInWAL
    else if Spent(b, n) >= TERMINAL_RESENDS then GivenUp
    else Resend
  }

  /** The numbers of a listing with a given fate, in order. */
  function Those(missing: seq<int>, floor: int, wal: set<int>, b: Budget, f: Fate): (r: seq<int>)
    ensures forall n :: n in r <==> n in missing && FateOf(n, floor, wal, b) == f
    decreases |missing|
  {
    if missing == [] then []
    else
      var init := Those(missing[..|missing| - 1], floor, wal, b, f);
      var n := missing[|missing| - 1];
      if FateOf(n, floor, wal, b) == f then init + [n] else init
  }

  function Healed(b: Budget, missing: seq<int>): Budget { map n | n in b && n in missing :: b[n] }

  function Charge(b: Budget, resent: set<int>): Budget {
    map n | n in b.Keys + resent :: Spent(b, n) + if n in resent then 1 else 0
  }

  /** One window as it happened: the organization, the listing, the floor its lane still owed, the WAL
      snapshot, and the numbers whose re-send ended (a retryable failure is not among them). */
  datatype Event =
    | Window(org: string, missing: seq<int>, floor: int, wal: set<int>, resent: set<int>)
    | Restart

  /** The budget table of a source after a history of windows, of whatever organizations.  A listing
      that is empty ends the pass before the table is touched. */
  function Tracked(es: seq<Event>): Budget
    decreases |es|
  {
    if es == [] then map[]
    else
      var b := Tracked(es[..|es| - 1]);
      match es[|es| - 1]
      case Restart => map[]
      case Window(org, missing, floor, wal, resent) =>
        if missing == [] then b else Charge(Healed(b, missing), resent)
  }

  function FateAt(es: seq<Event>, w: Event, n: int): Fate
    requires w.Window?
  {
    FateOf(n, w.floor, w.wal, Healed(Tracked(es), w.missing))
  }

  /** Only numbers that were listed and classified for re-sending are re-sent. */
  ghost predicate Genuine(es: seq<Event>) {
    forall i :: 0 <= i < |es| && es[i].Window? ==>
      forall n :: n in es[i].resent ==> n in es[i].missing && FateAt(es[..i], es[i], n) == Resend
  }

  // ---------------------------------------------------------------------------------------
  // The code of one window and of one pass.
  // ---------------------------------------------------------------------------------------

  /** The collector's side of one iteration: the listing request fails, or it lists numbers and
      says whether there are more; the two confirm-lost posts succeed or fail. */
  datatype Reply =
    | GetFailed
    | Listing(missing: seq<int>, truncated: bool, floor: int, wal: set<int>, ends: set<int>,
              lostOk: bool, gaveUpOk: bool)

  class Reconciler {
    var tracked: Budget
    ghost var history: seq<Event>

    ghost predicate Valid()
      reads this
    {
      tracked == Tracked(history) && Genuine(history)
    }

    constructor ()
      ensures Valid() && history == []
    {
      tracked, history := map[], [];
    }

    method Classify(missing: seq<int>, floor: int, wal: set<int>)
      returns (inWAL: seq<int>, notInWAL: seq<int>, gaveUp: seq<int>, heldBack: nat)
      modifies this`tracked
      ensures tracked == Healed(old(tracked), missing)
      ensures inWAL == Those(missing, floor, wal, tracked, Resend)
      ensures notInWAL == Those(missing, floor, wal, tracked, NotInWAL)
      ensures gaveUp == Those(missing, floor, wal, tracked, GivenUp)
      ensures heldBack + |inWAL| + |notInWAL| + |gaveUp| == |missing|
    {
      tracked := Healed(tracked, missing);
      inWAL, notInWAL, gaveUp, heldBack := [], [], [], 0;
      var i := 0;
      while i < |missing|
        modifies {}
        invariant 0 <= i <= |missing|
        invariant inWAL == Those(missing[..i], floor, wal, tracked, Resend)
        invariant notInWAL == Those(missing[..i], floor, wal, tracked, NotInWAL)
        invariant gaveUp == Those(missing[..i], floor, wal, tracked, GivenUp)
        invariant heldBack + |inWAL| + |notInWAL| + |gaveUp| == i
      {
        var n := missing[i];
        assert missing[..i + 1][..i] == missing[..i];
        i := i + 1;
        if floor > 0 && n <= floor {
          heldBack := heldBack + 1;
        } else if n !in wal {
          notInWAL := notInWAL + [n];
        } else if Spent(tracked, n) >= TERMINAL_RESENDS {
          gaveUp := gaveUp + [n];
        } else {
          inWAL := inWAL + [n];
        }
      }
      assert missing[..i] == missing;
    }

    /** One window with a non-empty listing.  `posted` is what was sent to confirm-lost. */
    method RunWindow(org: string, r: Reply) returns (ok: bool, posted: set<int>)
      requires Valid() && r.Listing? && r.missing != []
      modifies this
      ensures Valid() && history == old(history) + [EventOf(old(history), org, r)]
      ensures posted == PostedBy(old(history), r)
      ensures ok == PostsSucceed(old(history), r)
    {
      var inWAL, notInWAL, gaveUp, heldBack := Classify(r.missing, r.floor, r.wal);
      var delivered := set n | n in inWAL && n in r.ends;
      tracked := Charge(tracked, delivered);
      WindowRecorded(history, EventOf(history, org, r));
      history := history + [EventOf(history, org, r)];
      posted := set n | n in notInWAL;
      ok := true;
      if |notInWAL| > 0 && !r.lostOk {
        return false, posted;
      }
      if |gaveUp| > 0 {
        ok := r.gaveUpOk;
      }
      posted := posted + set n | n in gaveUp;
    }

    /** One organization's part of a pass: windows until the listing is empty, complete or unavailable,
        a post fails, or the cap is reached, and no earlier.  Whatever the replies, the budget table
        stays the one the windows so far determine. */
    method ReconcilePass(org: string, feed: nat -> Reply) returns (part: Part)
      requires Valid()
      modifies this
      ensures Valid() && Ran(old(history), history, org, feed, part)
    {
      var ok, posted, more := true, [], true;
      while more && |posted| < MAX_WINDOWS
        invariant Valid() && |posted| <= MAX_WINDOWS && Recorded(old(history), history, org, feed, posted)
        invariant more ==> ok && WentOn(history, feed, posted)
        invariant !more ==> Stopped(history, feed, posted, ok)
                            && (|posted| == MAX_WINDOWS ==> !WentOn(history, feed, posted))
        decreases more, MAX_WINDOWS - |posted|
      {
        ok, more, posted := Iterate(org, feed, posted, old(history));
      }
      part := Part(posted, ok, more);
    }

    /** `reconcileAgainst`: one pass over the organizations the collector names for this source, in its
        order, all on the same table; an error ends it.  It is ok exactly when every part was. */
    method ReconcileAgainst(named: Option<seq<Target>>, source: string, feeds: nat -> nat -> Reply)
      returns (ok: bool, parts: seq<Part>, stillMissing: nat)
      requires Valid()
      modifies this
      ensures Valid()
      ensures named.None? ==> !ok && parts == [] && stillMissing == 0 && history == old(history)
      ensures named.Some? ==>
                var orgs := OrgsOf(named.value, source);
                && PassedOver(old(history), history, orgs, feeds, parts)
                && |parts| <= |orgs| && (forall k :: 0 <= k < |parts| - 1 ==> parts[k].ok)
                && (ok <==> |parts| == |orgs| && forall k :: 0 <= k < |parts| ==> parts[k].ok)
                && (!ok ==> parts != [] && !parts[|parts| - 1].ok)
                && stillMissing == CappedAmong(parts)
    {
      ok, parts, stillMissing := true, [], 0;
      if named.None? {
        return false, parts, stillMissing;
      }
      var orgs := NamedFor(named.value, source);
      while |parts| < |orgs|
        invariant Valid() && ok && |parts| <= |orgs| && stillMissing == CappedAmong(parts)
        invariant forall k :: 0 <= k < |parts| ==> parts[k].ok
        invariant PassedOver(old(history), history, orgs, feeds, parts)
        decreases |orgs| - |parts|
      {
        var part := ReconcileOrg(orgs[|parts|], feeds, parts, old(history), orgs);
        assert (parts + [part])[..|parts|] == parts;
        parts := parts + [part];
        if part.capped {
          stillMissing := stillMissing + 1;
        }
        if !part.ok {
          return false, parts, stillMissing;
        }
      }
    }

    /** The organizations the collector names for this source. */
    method NamedFor(named: seq<Target>, source: string) returns (orgs: seq<string>)
      ensures orgs == OrgsOf(named, source)
    {
      orgs := [];
      for i := 0 to |named|
        invariant orgs == OrgsOf(named[..i], source)
      {
        assert named[..i + 1][..i] == named[..i];
        if named[i].source == source {
          orgs := orgs + [named[i].org];
        }
      }
      assert named[..|named|] == named;
    }

    method ReconcileOrg(org: string, feeds: nat -> nat -> Reply, parts: seq<Part>, ghost before: seq<Event>,
                        ghost orgs: seq<string>)
      returns (part: Part)
      requires Valid() && PassedOver(before, history, orgs, feeds, parts)
      requires |parts| < |orgs| && orgs[|parts|] == org
      modifies this
      ensures Valid() && PassedOver(before, history, orgs, feeds, parts + [part]) && (part.capped ==> part.ok)
    {
      ghost var mid := history;
      part := ReconcilePass(org, feeds(|parts|));
      OneMoreOrg(before, mid, history, orgs, feeds, parts, part);
    }

    method Iterate(org: string, feed: nat -> Reply, posted: seq<set<int>>, ghost before: seq<Event>)
      returns (ok: bool, more: bool, posted': seq<set<int>>)
      requires Valid() && Recorded(before, history, org, feed, posted) && WentOn(history, feed, posted)
      modifies this
      ensures Valid() && Recorded(before, history, org, feed, posted')
      ensures more ==> ok && |posted'| == |posted| + 1 && WentOn(history, feed, posted')
      ensures !more ==> |posted'| <= |posted| + 1 && Stopped(history, feed, posted', ok)
      ensures !more && |posted'| == |posted| + 1 ==> !WentOn(history, feed, posted')
    {
      var r := feed(|posted|);
      if r.GetFailed? {
        return false, false, posted;
      }
      if |r.missing| == 0 {
        return true, false, posted;
      }
      OneMoreWindow(before, history, org, feed, posted);
      ghost var prior := history;
      var lost;
      ok, lost := RunWindow(org, r);
      assert history[..|history| - 1] == prior;
      posted' := posted + [lost];
      more := ok && r.truncated;
    }
  }

  /** What became of one organization in a pass: what each window posted, whether it ended without an
      error, and whether the cap ended it. */
  datatype Part = Part(posted: seq<set<int>>, ok: bool, capped: bool)

  /** The last window so far, if any, lists more and its posts went through. */
  ghost predicate WentOn(now: seq<Event>, feed: nat -> Reply, posted: seq<set<int>>) {
    posted != [] ==>
      now != [] && feed(|posted| - 1).Listing? && feed(|posted| - 1).truncated
      && PostsSucceed(now[..|now| - 1], feed(|posted| - 1))
  }

  /** Nothing more is to be done after those windows: the next listing fails, which is an error, or is
      empty; or the last one was complete, or a post of it failed, which is an error. */
  ghost predicate Stopped(now: seq<Event>, feed: nat -> Reply, posted: seq<set<int>>, ok: bool) {
    if WentOn(now, feed, posted) then
      if feed(|posted|).GetFailed? then !ok else ok && feed(|posted|).missing == []
    else
      && now != [] && feed(|posted| - 1).Listing?
      && ok == PostsSucceed(now[..|now| - 1], feed(|posted| - 1))
  }

  ghost predicate Ran(before: seq<Event>, now: seq<Event>, org: string, feed: nat -> Reply, part: Part) {
    && |part.posted| <= 100 && Recorded(before, now, org, feed, part.posted)
    && (part.capped <==> |part.posted| == 100 && WentOn(now, feed, part.posted))
    && if part.capped then part.ok else Stopped(now, feed, part.posted, part.ok)
  }

  function CappedAmong(parts: seq<Part>): nat
    decreases |parts|
  {
    if parts == [] then 0
    else CappedAmong(parts[..|parts| - 1]) + if parts[|parts| - 1].capped then 1 else 0
  }

  /** A part is settled by the replies: there is one way for it to run. */
  lemma {:induction false} PartIsDetermined(before: seq<Event>, a: seq<Event>, b: seq<Event>, org: string,
                                            feed: nat -> Reply, p: Part, q: Part)
    requires Ran(before, a, org, feed, p) && Ran(before, b, org, feed, q)
    ensures p == q && a == b
  {
    if |p.posted| < |q.posted| {
      Shorter(before, a, b, org, feed, p.posted, q.posted);
    } else if |q.posted| < |p.posted| {
      Shorter(before, b, a, org, feed, q.posted, p.posted);
    } else {
      SameWindows(before, a, b, org, feed, p.posted, q.posted);
    }
  }

  lemma {:induction false} SameWindows(before: seq<Event>, a: seq<Event>, b: seq<Event>, org: string,
                                       feed: nat -> Reply, p: seq<set<int>>, q: seq<set<int>>)
    requires Recorded(before, a, org, feed, p) && Recorded(before, b, org, feed, q) && |p| == |q|
    ensures p == q && a == b
    decreases |p|
  {
    if p == [] {
    } else {
      var k := |p| - 1;
      SameWindows(before, a[..|a| - 1], b[..|b| - 1], org, feed, p[..k], q[..k]);
      assert a == a[..|a| - 1] + [a[|a| - 1]] && b == b[..|b| - 1] + [b[|b| - 1]];
      assert p == p[..k] + [p[k]] && q == q[..k] + [q[k]];
    }
  }

  /** If more windows ran, the first ones went on. */
  lemma {:induction false} Shorter(before: seq<Event>, a: seq<Event>, b: seq<Event>, org: string,
                                   feed: nat -> Reply, p: seq<set<int>>, q: seq<set<int>>)
    requires Recorded(before, a, org, feed, p) && Recorded(before, b, org, feed, q) && |p| < |q|
    ensures WentOn(a, feed, p) && feed(|p|).Listing? && feed(|p|).missing != []
    decreases |q|
  {
    var k := |q| - 1;
    var prior := b[..|b| - 1];
    if |p| == k {
      SameWindows(before, a, prior, org, feed, p, q[..k]);
    } else {
      Shorter(before, a, prior, org, feed, p, q[..k]);
    }
  }

  /** An (organization, source) pair the collector knows. */
  datatype Target = Target(org: string, source: string)

  function OrgsOf(named: seq<Target>, source: string): seq<string>
    decreases |named|
  {
    if named == [] then []
    else
      var (init, t) := (OrgsOf(named[..|named| - 1], source), named[|named| - 1]);
      if t.source == source then init + [t.org] else init
  }

  lemma {:induction false} OrgIsNamed(named: seq<Target>, source: string, org: string)
    ensures org in OrgsOf(named, source) <==> Target(org, source) in named
    decreases |named|
  {
    if named == [] {
    } else {
      var (init, t) := (named[..|named| - 1], named[|named| - 1]);
      OrgIsNamed(init, source, org);
      assert named == init + [t];
    }
  }

  /** The places at which the collector names this source. */
  function NamedAt(named: seq<Target>, source: string): set<nat> {
    set k: nat | k < |named| && named[k].source == source
  }

  lemma {:induction false} OrgsCount(named: seq<Target>, source: string)
    ensures |OrgsOf(named, source)| == |NamedAt(named, source)|
    decreases |named|
  {
    if named == [] {
      assert NamedAt(named, source) == {};
    } else {
      var (init, n) := (named[..|named| - 1], |named| - 1);
      OrgsCount(init, source);
      assert NamedAt(named, source) == NamedAt(init, source) + if named[n].source == source then {n} else {};
    }
  }

  /** Exactly the organizations named with this source, each as often as it is named. */
  lemma {:induction false} OrgsOfMeans(named: seq<Target>, source: string)
    ensures |OrgsOf(named, source)| == |NamedAt(named, source)|
    ensures forall org :: org in OrgsOf(named, source) <==> Target(org, source) in named
  {
    OrgsCount(named, source);
    forall org ensures org in OrgsOf(named, source) <==> Target(org, source) in named {
      OrgIsNamed(named, source, org);
    }
  }

  /** The parts of a pass, one organization after another, each on the table the last one left. */
  ghost predicate PassedOver(before: seq<Event>, now: seq<Event>, orgs: seq<string>, feeds: nat -> nat -> Reply,
                             parts: seq<Part>)
    decreases |parts|
  {
    if parts == [] then now == before
    else
      var k := |parts| - 1;
      && k < |orgs|
      && |parts[k].posted| <= |now|
      && var mid := now[..|now| - |parts[k].posted|];
         PassedOver(before, mid, orgs, feeds, parts[..k]) && Ran(mid, now, orgs[k], feeds(k), parts[k])
  }

  lemma {:induction false} OneMoreOrg(before: seq<Event>, mid: seq<Event>, now: seq<Event>, orgs: seq<string>,
                                      feeds: nat -> nat -> Reply, parts: seq<Part>, part: Part)
    requires PassedOver(before, mid, orgs, feeds, parts) && |parts| < |orgs|
    requires Ran(mid, now, orgs[|parts|], feeds(|parts|), part)
    ensures PassedOver(before, now, orgs, feeds, parts + [part])
  {
    var k := |parts|;
    assert (parts + [part])[..k] == parts && (parts + [part])[k] == part;
    RecordedGrows(mid, now, orgs[k], feeds(k), part.posted);
  }

  lemma {:induction false} RecordedGrows(before: seq<Event>, now: seq<Event>, org: string, feed: nat -> Reply,
                                         posted: seq<set<int>>)
    requires Recorded(before, now, org, feed, posted)
    ensures |now| == |before| + |posted| && now[..|before|] == before
    decreases |posted|
  {
    if posted == [] {
      assert now[..|before|] == before;
    } else {
      var prior := now[..|now| - 1];
      RecordedGrows(before, prior, org, feed, posted[..|posted| - 1]);
      assert prior[..|before|] == now[..|before|];
    }
  }

  /** The windows of a pass, each classified by the table its predecessors left, and each but the first
      after one that went on. */
  ghost predicate Recorded(before: seq<Event>, now: seq<Event>, org: string, feed: nat -> Reply, posted: seq<set<int>>)
    decreases |posted|
  {
    if posted == [] then now == before
    else
      var k := |posted| - 1;
      && now != [] && feed(k).Listing? && feed(k).missing != []
      && var prior := now[..|now| - 1];
         && now[|now| - 1] == EventOf(prior, org, feed(k))
         && posted[k] == PostedBy(prior, feed(k))
         && WentOn(prior, feed, posted[..k])
         && Recorded(before, prior, org, feed, posted[..k])
  }

  lemma {:induction false} OneMoreWindow(before: seq<Event>, now: seq<Event>, org: string, feed: nat -> Reply,
                                         posted: seq<set<int>>)
    requires Recorded(before, now, org, feed, posted) && WentOn(now, feed, posted)
    requires feed(|posted|).Listing? && feed(|posted|).missing != []
    ensures Recorded(before, now + [EventOf(now, org, feed(|posted|))], org, feed,
                     posted + [PostedBy(now, feed(|posted|))])
  {
    var (e, lost) := (EventOf(now, org, feed(|posted|)), PostedBy(now, feed(|posted|)));
    var (now', posted') := (now + [e], posted + [lost]);
    assert now'[..|now'| - 1] == now && now'[|now'| - 1] == e;
    assert posted'[..|posted'| - 1] == posted && posted'[|posted'| - 1] == lost;
  }

  /** The listed numbers that meet a given fate. */
  function Class(es: seq<Event>, r: Reply, f: Fate): seq<int>
    requires r.Listing?
  {
    Those(r.missing, r.floor, r.wal, Healed(Tracked(es), r.missing), f)
  }

  function EventOf(es: seq<Event>, org: string, r: Reply): Event
    requires r.Listing?
  {
    Window(org, r.missing, r.floor, r.wal, set n | n in Class(es, r, Resend) && n in r.ends)
  }

  /** Absent numbers are posted first; the given-up ones only if that post did not fail. */
  predicate FirstPostFails(es: seq<Event>, r: Reply)
    requires r.Listing?
  {
    Class(es, r, NotInWAL) != [] && !r.lostOk
  }

  predicate PostsSucceed(es: seq<Event>, r: Reply)
    requires r.Listing?
  {
    !FirstPostFails(es, r) && (Class(es, r, GivenUp) != [] ==> r.gaveUpOk)
  }

  function PostedBy(es: seq<Event>, r: Reply): set<int>
    requires r.Listing?
  {
    (set n | n in Class(es, r, NotInWAL))
    + if FirstPostFails(es, r) then {} else set n | n in Class(es, r, GivenUp)
  }

  lemma {:induction false} NoneOf(es: seq<Event>, r: Reply, f: Fate)
    requires r.Listing?
    ensures Class(es, r, f) == [] <==>
            forall n :: n in r.missing ==> FateOf(n, r.floor, r.wal, Healed(Tracked(es), r.missing)) != f
  {
    var b := Healed(Tracked(es), r.missing);
    NoneOfThose(r.missing, r.floor, r.wal, b, f);
  }

  lemma {:induction false} NoneOfThose(missing: seq<int>, floor: int, wal: set<int>, b: Budget, f: Fate)
    ensures Those(missing, floor, wal, b, f) == [] <==> forall n :: n in missing ==> FateOf(n, floor, wal, b) != f
    decreases |missing|
  {
    if missing == [] {
    } else {
      var (init, last) := (missing[..|missing| - 1], missing[|missing| - 1]);
      NoneOfThose(init, floor, wal, b, f);
      assert missing == init + [last];
    }
  }

  lemma {:induction false} ListedKeepCount(es: seq<Event>, r: Reply, n: int)
    requires r.Listing? && n in r.missing
    ensures Spent(Healed(Tracked(es), r.missing), n) == Spent(Tracked(es), n)
  {}

  /** A window's posts go through exactly when each that is made does: one for the absent numbers, one
      for those re-sent three times, and none that has nothing to say. */
  lemma {:induction false} PostsSucceedIff(es: seq<Event>, r: Reply)
    requires r.Listing?
    ensures PostsSucceed(es, r) <==>
            && (r.lostOk || forall n :: n in r.missing && !(r.floor > 0 && n <= r.floor) ==> n in r.wal)
            && (r.gaveUpOk || forall n :: n in r.missing && !(r.floor > 0 && n <= r.floor) && n in r.wal ==>
                                Spent(Tracked(es), n) < 3)
  {
    NoneOf(es, r, NotInWAL);
    NoneOf(es, r, GivenUp);
    forall n | n in r.missing ensures Spent(Healed(Tracked(es), r.missing), n) == Spent(Tracked(es), n) {
      ListedKeepCount(es, r, n);
    }
  }

  lemma WindowRecorded(es: seq<Event>, w: Event)
    requires Genuine(es) && w.Window? && w.missing != []
    requires forall n :: n in w.resent ==> n in w.missing && FateAt(es, w, n) == Resend
    ensures Tracked(es + [w]) == Charge(Healed(Tracked(es), w.missing), w.resent)
    ensures Genuine(es + [w])
  {
    var fs := es + [w];
    assert fs[..|es|] == es;
    assert forall i :: 0 <= i < |es| ==> fs[..i] == es[..i];
  }

  // ---------------------------------------------------------------------------------------
  // Re-sending from the WAL.
  // ---------------------------------------------------------------------------------------

  /** The WAL entry a re-send of number n would use: the first one of the source. */
  predicate Chosen(entries: seq<Entry>, i: int, source: string, n: int) {
    0 <= i < |entries| && entries[i].source == source && entries[i].seqNo == n > 0
    && forall j :: 0 <= j < i ==> entries[j].source != source || entries[j].seqNo != n
  }

  /** After the first i entries, `want` is what is still looked for. */
  ghost predicate Looked(entries: seq<Entry>, i: int, source: string, seqs: set<int>, want: set<int>) {
    && 0 <= i <= |entries| && want <= seqs
    && (forall n, j :: n in want && n > 0 && 0 <= j < i ==> entries[j].source != source || entries[j].seqNo != n)
    && (forall n :: n in seqs && n !in want ==> Found(entries, i, source, n))
  }

  ghost predicate Found(entries: seq<Entry>, i: int, source: string, n: int) {
    exists j :: j < i && Chosen(entries, j, source, n)
  }

  /** The groups hold exactly the chosen entries among the first i that have a destination. */
  ghost predicate Filed(entries: seq<Entry>, i: int, source: string, seqs: set<int>, routed: string -> bool,
                        groups: map<string, seq<Entry>>) {
    && (forall k, e :: InGroup(groups, k, e) ==>
          e.route == k && routed(k) && e.seqNo in seqs
          && exists j :: j < i && Chosen(entries, j, source, e.seqNo) && entries[j] == e)
    && (forall j, n :: j < i && n in seqs && Chosen(entries, j, source, n) && routed(entries[j].route) ==>
          InGroup(groups, entries[j].route, entries[j]))
  }

  /** The i-th entry is one that is looked for. */
  predicate Hit(entries: seq<Entry>, i: int, source: string, want: set<int>)
    requires 0 <= i < |entries|
  {
    entries[i].source == source && entries[i].seqNo > 0 && entries[i].seqNo in want
  }

  lemma {:induction false} HitIsChosen(entries: seq<Entry>, i: int, source: string, seqs: set<int>, want: set<int>,
                                       n: int)
    requires Looked(entries, i, source, seqs, want) && i < |entries| && n in seqs
    ensures Chosen(entries, i, source, n) <==> Hit(entries, i, source, want) && entries[i].seqNo == n
  {
    if n !in want {
      assert Found(entries, i, source, n);
      var j :| j < i && Chosen(entries, j, source, n);
      assert entries[j].source == source && entries[j].seqNo == n;
    }
  }

  lemma {:induction false} LookedOneMore(entries: seq<Entry>, i: int, source: string, seqs: set<int>, want: set<int>)
    requires Looked(entries, i, source, seqs, want) && i < |entries|
    ensures Looked(entries, i + 1, source, seqs,
                   if Hit(entries, i, source, want) then want - {entries[i].seqNo} else want)
  {
    var next := if Hit(entries, i, source, want) then want - {entries[i].seqNo} else want;
    forall n | n in seqs && n !in next ensures Found(entries, i + 1, source, n) {
      if n in want {
        HitIsChosen(entries, i, source, seqs, want, n);
      } else {
        assert Found(entries, i, source, n);
        var j :| j < i && Chosen(entries, j, source, n);
      }
    }
  }

  function Added(groups: map<string, seq<Entry>>, e: Entry): map<string, seq<Entry>> {
    groups[e.route := (if e.route in groups then groups[e.route] else []) + [e]]
  }

  lemma {:induction false} AddedMembers(groups: map<string, seq<Entry>>, e: Entry, k: string, x: Entry)
    ensures InGroup(Added(groups, e), k, x) <==> InGroup(groups, k, x) || (k == e.route && x == e)
  {}

  lemma {:induction false} FiledOneMore(entries: seq<Entry>, i: int, source: string, seqs: set<int>, want: set<int>,
                                        routed: string -> bool, groups: map<string, seq<Entry>>)
    requires Looked(entries, i, source, seqs, want) && i < |entries|
    requires Filed(entries, i, source, seqs, routed, groups)
    ensures Filed(entries, i + 1, source, seqs, routed,
                  if Hit(entries, i, source, want) && routed(entries[i].route) then Added(groups, entries[i])
                  else groups)
  {
    var (e, put) := (entries[i], Hit(entries, i, source, want) && routed(entries[i].route));
    var next := if put then Added(groups, e) else groups;
    forall k, x | InGroup(next, k, x)
      ensures x.route == k && routed(k) && x.seqNo in seqs
      ensures exists j :: j < i + 1 && Chosen(entries, j, source, x.seqNo) && entries[j] == x
    {
      AddedMembers(groups, e, k, x);
      if InGroup(groups, k, x) {
        var j :| j < i && Chosen(entries, j, source, x.seqNo) && entries[j] == x;
      } else {
        HitIsChosen(entries, i, source, seqs, want, x.seqNo);
      }
    }
    forall j, n | j < i + 1 && n in seqs && Chosen(entries, j, source, n) && routed(entries[j].route)
      ensures InGroup(next, entries[j].route, entries[j])
    {
      AddedMembers(groups, e, entries[j].route, entries[j]);
      if j == i {
        HitIsChosen(entries, i, source, seqs, want, n);
      }
    }
  }

  method GroupWanted(entries: seq<Entry>, source: string, seqs: set<int>, routed: string -> bool)
    returns (groups: map<string, seq<Entry>>)
    ensures Filed(entries, |entries|, source, seqs, routed, groups)
  {
    var want := seqs;
    groups := map[];
    var i := 0;
    while i < |entries|
      invariant 0 <= i <= |entries|
      invariant Looked(entries, i, source, seqs, want)
      invariant Filed(entries, i, source, seqs, routed, groups)
    {
      var e := entries[i];
      LookedOneMore(entries, i, source, seqs, want);
      FiledOneMore(entries, i, source, seqs, want, routed, groups);
      if e.source == source && e.seqNo > 0 && e.seqNo in want {
        want := want - {e.seqNo};
        if routed(e.route) {
          groups := groups[e.route := (if e.route in groups then groups[e.route] else []) + [e]];
        }
      }
      i := i + 1;
    }
  }

  predicate InGroup(groups: map<string, seq<Entry>>, k: string, e: Entry) { k in groups && e in groups[k] }

  /** `resendWALSeqs`: the numbers re-sent with an ended outcome are exactly the wanted ones whose
      first WAL entry has a destination and whose group's upload ended; each is counted once. */
  method ResendWALSeqs(rep: Reporter, entries: seq<Entry>, source: string, seqs: set<int>, answer: string -> Outcome)
    returns (sent: set<int>)
    modifies rep`sentSeq, rep`seenV1, rep`confirmedSeq
    ensures forall n :: n in sent <==>
              n in seqs && exists i :: Chosen(entries, i, source, n) && rep.routed(entries[i].route)
                                       && GroupDone(answer(entries[i].route))
  {
    var groups := GroupWanted(entries, source, seqs, rep.routed);
    sent := {};
    var left := groups.Keys;
    while left != {}
      invariant left <= groups.Keys
      invariant forall n :: n in sent <==>
                  exists k, e :: InGroup(groups, k, e) && k !in left && e.seqNo == n && GroupDone(answer(k))
    {
      var route :| route in left;
      var done := rep.UploadGroup(groups[route], answer(route));
      if done {
        sent := sent + set e | e in groups[route] :: e.seqNo;
      }
      left := left - {route};
    }
    forall n ensures n in sent <==>
      n in seqs && exists i :: Chosen(entries, i, source, n) && rep.routed(entries[i].route)
                               && GroupDone(answer(entries[i].route))
    {
      FiledIff(entries, source, seqs, rep.routed, groups, answer, n);
    }
  }

  lemma {:induction false} FiledIff(entries: seq<Entry>, source: string, seqs: set<int>, routed: string -> bool,
                                    groups: map<string, seq<Entry>>, answer: string -> Outcome, n: int)
    requires Filed(entries, |entries|, source, seqs, routed, groups)
    ensures (exists k, e :: InGroup(groups, k, e) && e.seqNo == n && GroupDone(answer(k))) <==>
            n in seqs && exists i :: Chosen(entries, i, source, n) && routed(entries[i].route)
                                     && GroupDone(answer(entries[i].route))
  {
    if n in seqs && exists i :: Chosen(entries, i, source, n) && routed(entries[i].route)
                                && GroupDone(answer(entries[i].route)) {
      var i :| Chosen(entries, i, source, n) && routed(entries[i].route) && GroupDone(answer(entries[i].route));
      assert InGroup(groups, entries[i].route, entries[i]);
    }
    if k, e :| InGroup(groups, k, e) && e.seqNo == n && GroupDone(answer(k)) {
      var j :| j < |entries| && Chosen(entries, j, source, e.seqNo) && entries[j] == e;
    }
  }

  // ---------------------------------------------------------------------------------------
  // Write-off safety.
  // ---------------------------------------------------------------------------------------

  /** From position i on, the process lived and every window that listed anything listed n. */
  predicate StaysListed(es: seq<Event>, i: nat, n: int) {
    forall j :: i <= j < |es| ==> es[j].Window? && (es[j].missing == [] || n in es[j].missing)
  }

  /** The windows in which n was re-sent with an ended outcome, and listed ever since. */
  function EndedResends(es: seq<Event>, n: int): set<nat> {
    set i: nat | i < |es| && es[i].Window? && n in es[i].resent && StaysListed(es, i, n)
  }

  lemma {:induction false} EndedGrows(es: seq<Event>, e: Event, n: int)
    requires e.Window? && (e.missing == [] || n in e.missing)
    ensures EndedResends(es + [e], n) == EndedResends(es, n) + (if n in e.resent then {|es|} else {})
  {
    var fs := es + [e];
    forall i: nat | i < |es| ensures StaysListed(fs, i, n) <==> StaysListed(es, i, n) {
      if StaysListed(fs, i, n) {
        forall j | i <= j < |es| ensures es[j].Window? && (es[j].missing == [] || n in es[j].missing) {
          assert fs[j] == es[j];
        }
      }
    }
    assert fs[|es|] == e && StaysListed(fs, |es|, n);
    assert forall i: nat :: i < |es| ==> fs[i] == es[i];
  }

  lemma {:induction false} EndedResets(es: seq<Event>, e: Event, n: int)
    requires e.Restart? || (e.missing != [] && n !in e.missing)
    ensures EndedResends(es + [e], n) == {}
  {
    var fs := es + [e];
    assert fs[|es|] == e;
  }

  /** The budget is that count, no more and no less: retryable failures do not consume it, and a
      number that drops out of a listing starts over. */
  lemma {:induction false} BudgetCountsResends(es: seq<Event>, n: int)
    requires Genuine(es)
    ensures Spent(Tracked(es), n) == |EndedResends(es, n)|
    decreases |es|
  {
    if es == [] {
      assert EndedResends(es, n) == {};
    } else {
      var init, e := es[..|es| - 1], es[|es| - 1];
      assert es == init + [e];
      assert forall i :: 0 <= i < |init| ==> init[..i] == es[..i] && init[i] == es[i];
      assert Genuine(init);
      BudgetCountsResends(init, n);
      if e.Window? && (e.missing == [] || n in e.missing) {
        EndedGrows(init, e, n);
        assert |init| !in EndedResends(init, n);
      } else {
        EndedResets(init, e, n);
        assert e.Window? ==> n !in e.resent;
      }
    }
  }

  /** Write-off safety, over every history of windows: a number is posted to confirm-lost exactly
      when it is listed, not at or below a floor the lane still owes, and either absent from that
      window's WAL snapshot or already re-sent with an ended outcome at least three times in
      windows since which it has stayed listed. */
  lemma WriteOffSafety(es: seq<Event>, r: Reply, n: int)
    requires Genuine(es) && r.Listing?
    requires !FirstPostFails(es, r)
    ensures n in PostedBy(es, r) <==>
            && n in r.missing
            && !(r.floor > 0 && n <= r.floor)
            && (n !in r.wal || |EndedResends(es, n)| >= 3)
  {
    BudgetCountsResends(es, n);
  }

  /** And what is charged as re-sent: exactly the listed numbers above the floor that the WAL still holds
      and that have been re-sent less than three times while listed, if their re-send ended. */
  lemma {:induction false} ResentIff(es: seq<Event>, org: string, r: Reply, n: int)
    requires Genuine(es) && r.Listing?
    ensures n in EventOf(es, org, r).resent <==>
            && n in r.missing && !(r.floor > 0 && n <= r.floor) && n in r.wal
            && |EndedResends(es, n)| < 3 && n in r.ends
  {
    BudgetCountsResends(es, n);
  }

  /** When the first post fails, only absent numbers have been posted. */
  lemma FailedPostWritesOffOnlyAbsent(es: seq<Event>, r: Reply, n: int)
    requires r.Listing? && FirstPostFails(es, r)
    ensures n in PostedBy(es, r) <==> n in r.missing && n !in r.wal && !(r.floor > 0 && n <= r.floor)
  {
    assert n in PostedBy(es, r) <==> n in Class(es, r, NotInWAL);
  }

  /** What one organization's own windows alone would have left: the restarts are everybody's. */
  function OwnWindows(es: seq<Event>, org: string): seq<Event>
    decreases |es|
  {
    if es == [] then []
    else
      var (own, e) := (OwnWindows(es[..|es| - 1], org), es[|es| - 1]);
      if Foreign(e, org) then own else own + [e]
  }

  predicate Foreign(e: Event, org: string) { e.Window? && e.org != org }

  function OwnCount(es: seq<Event>, org: string, n: int): nat { Spent(Tracked(OwnWindows(es, org)), n) }

  /** At every point of the history the count of the number is the organization's own. */
  predicate AlwaysOwn(es: seq<Event>, org: string, n: int)
    decreases |es|
  {
    && Spent(Tracked(es), n) == OwnCount(es, org, n)
    && (es == [] || AlwaysOwn(es[..|es| - 1], org, n))
  }

  /** Another organization's window leaves a count alone if it re-sends no such number, and lists it,
      lists nothing, or finds nothing counted. */
  predicate LeavesAlone(w: Event, n: int, count: nat)
    requires w.Window?
  {
    n !in w.resent && (w.missing == [] || n in w.missing || count == 0)
  }

  predicate Undisturbed(es: seq<Event>, org: string, n: int)
    decreases |es|
  {
    es == [] ||
    var (init, e) := (es[..|es| - 1], es[|es| - 1]);
    Undisturbed(init, org, n) && (Foreign(e, org) ==> LeavesAlone(e, n, OwnCount(init, org, n)))
  }

  lemma {:induction false} CountAfter(es: seq<Event>, e: Event, n: int)
    requires e.Window? ==> (n in e.resent ==> n in e.missing)
    ensures Spent(Tracked(es + [e]), n) ==
            if e.Restart? then 0
            else if e.missing != [] && n !in e.missing then 0
            else Spent(Tracked(es), n) + if n in e.resent && e.missing != [] then 1 else 0
  {
    assert (es + [e])[..|es|] == es;
  }

  lemma {:induction false} OwnAfter(es: seq<Event>, org: string, n: int)
    requires es != [] && (es[|es| - 1].Window? ==> (n in es[|es| - 1].resent ==> n in es[|es| - 1].missing))
    requires Spent(Tracked(es[..|es| - 1]), n) == OwnCount(es[..|es| - 1], org, n)
    ensures Spent(Tracked(es), n) == OwnCount(es, org, n)
       <==> (Foreign(es[|es| - 1], org) ==> LeavesAlone(es[|es| - 1], n, OwnCount(es[..|es| - 1], org, n)))
  {
    var (init, e) := (es[..|es| - 1], es[|es| - 1]);
    assert es == init + [e];
    CountAfter(init, e, n);
    CountAfter(OwnWindows(init, org), e, n);
  }

  /** The table is kept per source, not per organization.  It counts an organization's own ended
      re-sends, throughout a history, if and only if every other organization's window leaves the
      number alone. */
  lemma {:induction false} OwnBudgetIff(es: seq<Event>, org: string, n: int)
    requires Genuine(es)
    ensures AlwaysOwn(es, org, n) <==> Undisturbed(es, org, n)
    decreases |es|
  {
    if es == [] {
    } else {
      var init := es[..|es| - 1];
      assert forall i :: 0 <= i < |init| ==> init[..i] == es[..i] && init[i] == es[i];
      OwnBudgetIff(init, org, n);
      if AlwaysOwn(init, org, n) {
        OwnAfter(es, org, n);
      }
    }
  }

  lemma {:induction false} NoneOwn(es: seq<Event>, org: string)
    requires forall i :: 0 <= i < |es| ==> Foreign(es[i], org)
    ensures OwnWindows(es, org) == []
    decreases |es|
  {
    if es == [] {
    } else {
      NoneOwn(es[..|es| - 1], org);
    }
  }

  /** One organization's re-sends are charged to the other's equal number, which is then given up
      without ever having been re-sent for that organization ... */
  lemma {:induction false} OrgsShareBudget(a: string, b: string, n: int)
    requires a != b
    ensures var w := Window(a, [n], 0, {n}, {n});
            && Genuine([w, w, w]) && OwnCount([w, w, w], b, n) == 0
            && FateAt([w, w, w], Window(b, [n], 0, {n}, {}), n) == GivenUp
  {
    var w := Window(a, [n], 0, {n}, {n});
    ThreeCharged(a, n);
    var es := [w, w, w];
    assert es[..0] == [] && es[..1] == [w] && es[..2] == [w, w];
    NoneOwn(es, b);
  }

  /** One pass after another over two organizations of the source, whose listings every re-send reaches
      but the collector never stores. */
  function TwoOrgs(a: seq<int>, b: seq<int>, passes: nat): seq<Event> {
    if passes == 0 then [] else TwoOrgs(a, b, passes - 1) + [Refused("a", a, a + b)] + [Refused("b", b, a + b)]
  }

  function Refused(org: string, listed: seq<int>, held: seq<int>): Event {
    Window(org, listed, 0, set n | n in held, set n | n in listed)
  }

  lemma {:induction false} FreshWindow(es: seq<Event>, org: string, listed: seq<int>, held: seq<int>)
    requires Genuine(es) && listed != [] && forall n :: n in listed ==> n in held && n !in Tracked(es)
    ensures var w := Refused(org, listed, held);
            && Genuine(es + [w]) && (forall n :: n in Tracked(es + [w]) ==> n in listed)
            && (forall n :: n in listed ==> FateAt(es, w, n) == Resend)
  {
    WindowRecorded(es, Refused(org, listed, held));
  }

  /** ... and the other way round: the listing of either organization clears the counts of the other's
      numbers, so with two listings that share no number, nothing is ever given up, after however many
      passes; each alone would be written off in the fourth. */
  lemma {:induction false} OrgsPostponeWriteOff(a: seq<int>, b: seq<int>, passes: nat)
    requires a != [] && b != [] && forall n :: n in a ==> n !in b
    ensures var es := TwoOrgs(a, b, passes);
            && Genuine(es) && (forall n :: n in Tracked(es) ==> n in b)
            && (forall n :: n in a ==> FateAt(es, Refused("a", a, a + b), n) == Resend)
            && forall n :: n in b ==> FateAt(es + [Refused("a", a, a + b)], Refused("b", b, a + b), n) == Resend
    decreases passes
  {
    if passes == 0 {
    } else {
      OrgsPostponeWriteOff(a, b, passes - 1);
      FreshWindow(TwoOrgs(a, b, passes - 1), "a", a, a + b);
      FreshWindow(TwoOrgs(a, b, passes - 1) + [Refused("a", a, a + b)], "b", b, a + b);
    }
    FreshWindow(TwoOrgs(a, b, passes), "a", a, a + b);
    FreshWindow(TwoOrgs(a, b, passes) + [Refused("a", a, a + b)], "b", b, a + b);
  }

  lemma {:induction false} OneCharged(es: seq<Event>, org: string, n: int, k: nat)
    requires Tracked(es) == if k == 0 then map[] else map[n := k]
    ensures Tracked(es + [Window(org, [n], 0, {n}, {n})]) == map[n := k + 1]
  {
    TrackedAfter(es, Window(org, [n], 0, {n}, {n}));
    HealedSame(Tracked(es), n);
    ChargedOnce(Tracked(es), n);
  }

  lemma {:induction false} HealedSame(b: Budget, n: int)
    requires forall m :: m in b ==> m == n
    ensures Healed(b, [n]) == b
  {
    assert n in [n];
    assert forall m :: m in Healed(b, [n]) <==> m in b;
  }

  lemma {:induction false} ChargedOnce(b: Budget, n: int)
    requires forall m :: m in b ==> m == n
    ensures Charge(b, {n}) == map[n := Spent(b, n) + 1]
  {}

  lemma {:induction false} ThreeCharged(org: string, n: int)
    ensures var w := Window(org, [n], 0, {n}, {n});
            Tracked([w]) == map[n := 1] && Tracked([w, w]) == map[n := 2] && Tracked([w, w, w]) == map[n := 3]
  {
    var w := Window(org, [n], 0, {n}, {n});
    OneCharged([], org, n, 0);
    assert [] + [w] == [w];
    OneCharged([w], org, n, 1);
    assert [w] + [w] == [w, w];
    OneCharged([w, w], org, n, 2);
    assert [w, w] + [w] == [w, w, w];
  }

  /** A number re-sent three times that then left the missing set, and turns up again later, is given
      up at once if the listing in between was empty, and re-sent if it named another. */
  lemma {:induction false} HealedButGivenUp(org: string, n: int, m: int)
    requires m != n
    ensures var w := Window(org, [n], 0, {n}, {n});
            && FateAt([w, w, w, Window(org, [], 0, {}, {})], Window(org, [n], 0, {n}, {}), n) == GivenUp
            && FateAt([w, w, w, Window(org, [m], 0, {}, {})], Window(org, [n], 0, {n}, {}), n) == Resend
  {
    var w := Window(org, [n], 0, {n}, {n});
    ThreeCharged(org, n);
    var (e, o) := ([w, w, w, Window(org, [], 0, {}, {})], [w, w, w, Window(org, [m], 0, {}, {})]);
    assert e[..3] == [w, w, w];
    assert Tracked(e) == map[n := 3];
    TrackedAfter([w, w, w], Window(org, [m], 0, {}, {}));
    assert [w, w, w] + [Window(org, [m], 0, {}, {})] == o;
    assert Tracked(o) == map[];
  }

  /** An empty listing is not a window: a number that had disappeared from the missing set keeps
      its count across it, where a non-empty listing without it would have reset the count. */
  lemma EmptyListingKeepsBudget(es: seq<Event>, w: Event, n: int)
    requires w.Window? && w.resent == {} && n !in w.missing
    ensures Spent(Tracked(es + [w]), n) == if w.missing == [] then Spent(Tracked(es), n) else 0
  {
    assert (es + [w])[..|es|] == es;
  }

  // ---------------------------------------------------------------------------------------
  // Convergence.
  // ---------------------------------------------------------------------------------------

  /** The collector lists the smallest `width` missing numbers in ascending order. */
  ghost predicate IsListing(l: seq<int>, missing: set<int>, width: nat) {
    && (forall i, j :: 0 <= i < j < |l| ==> l[i] < l[j])
    && (forall n :: n in l ==> n in missing)
    && |l| == (if |missing| < width then |missing| else width)
    && (forall m, n :: m in missing && m !in l && n in l ==> n < m)
  }

  lemma {:induction false} ElementsOf(l: seq<int>)
    requires forall i, j :: 0 <= i < j < |l| ==> l[i] < l[j]
    ensures |set n | n in l| == |l|
    decreases |l|
  {
    if l == [] {
    } else {
      var init := l[..|l| - 1];
      ElementsOf(init);
      var last := l[|l| - 1];
      assert last !in init;
      assert (set n | n in l) == (set n | n in init) + {last};
    }
  }

  /** A listed number stays listed for as long as it stays missing. */
  lemma ListedTillGone(l: seq<int>, missing: set<int>, l': seq<int>, missing': set<int>, width: nat, n: int)
    requires IsListing(l, missing, width) && IsListing(l', missing', width) && missing' <= missing
    requires n in l && n in missing'
    ensures n in l'
  {
    if n !in l' {
      var s, s' := set x | x in l, set x | x in l';
      ElementsOf(l);
      ElementsOf(l');
      forall x | x in s' ensures x in s - {n} {
        assert x < n;
      }
      SubsetSize(s', s - {n});
      SubsetSize(s' + {n}, missing');
      assert false;
    }
  }

  lemma SubsetSize(a: set<int>, b: set<int>)
    requires a <= b
    ensures |a| <= |b|
  {
    assert b == a + (b - a);
    assert |b| == |a| + |b - a|;
  }

  /** One window in which every re-send is delivered and every write-off honoured: `refused` are
      the re-sent numbers the collector still does not store. */
  datatype Round = Round(listed: seq<int>, wal: set<int>, refused: set<int>)

  datatype Gap = Gap(missing: set<int>, budget: Budget)

  function Resent(g: Gap, r: Round): set<int> {
    set n | n in r.listed && FateOf(n, 0, r.wal, Healed(g.budget, r.listed)) == Resend
  }

  function AfterRound(g: Gap, r: Round): Gap {
    Gap(g.missing - (set n | n in r.listed && n !in Resent(g, r) * r.refused),
        Charge(Healed(g.budget, r.listed), Resent(g, r)))
  }

  /** The collector's reply in such a round: no owed floor, every re-send ends, both posts succeed. */
  function ReplyOf(r: Round): Reply { Listing(r.listed, false, 0, r.wal, set n | n in r.listed, true, true) }

  lemma {:induction false} TrackedAfter(es: seq<Event>, w: Event)
    requires w.Window? && w.missing != []
    ensures Tracked(es + [w]) == Charge(Healed(Tracked(es), w.missing), w.resent)
  {
    assert (es + [w])[..|es|] == es;
  }

  /** A round is a window of the code: the same numbers are re-sent, the budget table is the one the
      window leaves, and what leaves the missing set is what was posted as lost or re-sent and stored. */
  lemma {:induction false} RoundIsWindow(es: seq<Event>, org: string, g: Gap, r: Round)
    requires g.budget == Tracked(es) && r.listed != []
    ensures EventOf(es, org, ReplyOf(r)).resent == Resent(g, r)
    ensures AfterRound(g, r).budget == Tracked(es + [EventOf(es, org, ReplyOf(r))])
    ensures AfterRound(g, r).missing == g.missing - PostedBy(es, ReplyOf(r)) - (Resent(g, r) - r.refused)
  {
    var reply := ReplyOf(r);
    var w := EventOf(es, org, reply);
    assert w.resent == Resent(g, r);
    TrackedAfter(es, w);
    forall n
      ensures n in AfterRound(g, r).missing <==> n in g.missing - PostedBy(es, reply) - (Resent(g, r) - r.refused)
    {
      var fate := FateOf(n, 0, r.wal, Healed(g.budget, r.listed));
      assert n in PostedBy(es, reply) <==> n in r.listed && (fate == NotInWAL || fate == GivenUp);
      assert n in Resent(g, r) <==> n in r.listed && fate == Resend;
    }
  }

  function AfterRounds(g: Gap, rs: seq<Round>): Gap
    decreases |rs|
  {
    if rs == [] then g else AfterRounds(AfterRound(g, rs[0]), rs[1..])
  }

  /** Every round lists what is missing when it starts. */
  ghost predicate Faithful(g: Gap, rs: seq<Round>, width: nat)
    decreases |rs|
  {
    rs != [] ==> IsListing(rs[0].listed, g.missing, width) && Faithful(AfterRound(g, rs[0]), rs[1..], width)
  }

  lemma {:induction false} MissingShrinks(g: Gap, rs: seq<Round>)
    ensures AfterRounds(g, rs).missing <= g.missing
    decreases |rs|
  {
    if rs == [] {
    } else {
      MissingShrinks(AfterRound(g, rs[0]), rs[1..]);
    }
  }

  /** A number in the listed window has left the missing set within the rounds its remaining
      budget allows, and one more. */
  lemma {:induction false} LeavesInTime(g: Gap, rs: seq<Round>, width: nat, n: int)
    requires Faithful(g, rs, width) && rs != [] && n in rs[0].listed
    requires |rs| > TERMINAL_RESENDS - Spent(g.budget, n)
    ensures n !in AfterRounds(g, rs).missing
    decreases |rs|
  {
    var r, h := rs[0], AfterRound(g, rs[0]);
    MissingShrinks(h, rs[1..]);
    if n in h.missing {
      assert n in Resent(g, r) && Spent(h.budget, n) == Spent(g.budget, n) + 1;
      ListedTillGone(r.listed, g.missing, rs[1].listed, h.missing, width, n);
      LeavesInTime(h, rs[1..], width, n);
    }
  }

  /** Reconcile convergence: within four windows of being listed every number is stored or
      written off, whatever the WAL snapshots are and whatever the collector refuses.  So every
      four windows clear at least a full listing. */
  lemma WindowCleared(g: Gap, rs: seq<Round>, width: nat)
    requires Faithful(g, rs, width) && |rs| == TERMINAL_RESENDS + 1
    ensures forall n :: n in rs[0].listed ==> n !in AfterRounds(g, rs).missing
    ensures |AfterRounds(g, rs).missing| <= if |g.missing| <= width then 0 else |g.missing| - width
  {
    var l := rs[0].listed;
    forall n | n in l ensures n !in AfterRounds(g, rs).missing {
      LeavesInTime(g, rs, width, n);
    }
    MissingShrinks(g, rs);
    ElementsOf(l);
    var s := set n | n in l;
    assert |g.missing - s| == |g.missing| - |s|;
    SubsetSize(AfterRounds(g, rs).missing, g.missing - s);
  }

  lemma {:induction false} RoundsInTwo(g: Gap, rs: seq<Round>, qs: seq<Round>, width: nat)
    ensures AfterRounds(g, rs + qs) == AfterRounds(AfterRounds(g, rs), qs)
    ensures Faithful(g, rs + qs, width) ==> Faithful(g, rs, width) && Faithful(AfterRounds(g, rs), qs, width)
    decreases |rs|
  {
    if rs == [] {
      assert rs + qs == qs;
    } else {
      assert (rs + qs)[0] == rs[0] && (rs + qs)[1..] == rs[1..] + qs;
      RoundsInTwo(AfterRound(g, rs[0]), rs[1..], qs, width);
    }
  }

  /** The whole gap closes: any number of missing numbers is gone after four windows per listing's
      worth of them. */
  lemma {:induction false} Converges(g: Gap, rs: seq<Round>, width: nat, k: nat)
    requires width > 0 && Faithful(g, rs, width)
    requires |rs| == (TERMINAL_RESENDS + 1) * k && |g.missing| <= width * k
    ensures AfterRounds(g, rs).missing == {}
    decreases k
  {
    if k == 0 {
      MissingShrinks(g, rs);
    } else {
      TakeOne(TERMINAL_RESENDS + 1, k);
      TakeOne(width, k);
      FourRounds(g, rs, width);
      Converges(AfterRounds(g, rs[..TERMINAL_RESENDS + 1]), rs[TERMINAL_RESENDS + 1..], width, k - 1);
    }
  }

  lemma {:induction false} FourRounds(g: Gap, rs: seq<Round>, width: nat)
    requires Faithful(g, rs, width) && |rs| > TERMINAL_RESENDS
    ensures var h := AfterRounds(g, rs[..TERMINAL_RESENDS + 1]);
            var rest := rs[TERMINAL_RESENDS + 1..];
            && Faithful(h, rest, width) && AfterRounds(g, rs) == AfterRounds(h, rest)
            && |h.missing| <= if |g.missing| <= width then 0 else |g.missing| - width
  {
    var (first, rest) := (rs[..TERMINAL_RESENDS + 1], rs[TERMINAL_RESENDS + 1..]);
    assert first + rest == rs;
    RoundsInTwo(g, first, rest, width);
    WindowCleared(g, first, width);
  }

  lemma TakeOne(a: nat, k: nat)
    requires k > 0
    ensures a * k == a * (k - 1) + a && a * (k - 1) >= 0
  {
  }
}
