/** Walking a candidate chain for one request (`internal/proxy/chain_serve.go`). */
module ChainServe {
  import opened Common
  import Chain
  import opened Cooldown
  import Activity

  type Route = Chain.Route

  function KeyOf(c: Route): string { Chain.HopKey(Some(c)) }

  // ---------------------------------------------------------------------------------------
  // The order hops are tried in.
  // ---------------------------------------------------------------------------------------

  /** 0 sticky, 1 available, 2 cooling; without a store nothing is cooling. */
  function BandOf(c: Route, stickTo: string, until: Option<Deadlines>, now: int): (b: int)
    ensures 0 <= b <= 2
  {
    if stickTo != "" && KeyOf(c) == stickTo then 0
    else if until.Some? && Cooling(until.value, KeyOf(c), now) then 2
    else 1
  }

  datatype Banded = Banded(route: Route, band: int, idx: int)

  predicate Before(a: Banded, b: Banded) { a.band < b.band || (a.band == b.band && a.idx < b.idx) }

  function Place(s: seq<Banded>, x: Banded): seq<Banded>
    decreases |s|
  {
    if s == [] || !Before(x, s[|s| - 1]) then s + [x] else Place(s[..|s| - 1], x) + [s[|s| - 1]]
  }

  /** The sort by band, then index. */
  function SortBands(s: seq<Banded>): seq<Banded>
    decreases |s|
  {
    if s == [] then [] else Place(SortBands(s[..|s| - 1]), s[|s| - 1])
  }

  /** The element, or nothing. */
  function When<T>(b: bool, x: T): seq<T> { if b then [x] else [] }

  function InBand(s: seq<Banded>, band: int): seq<Banded>
    decreases |s|
  {
    if s == [] then [] else InBand(s[..|s| - 1], band) + When(s[|s| - 1].band == band, s[|s| - 1])
  }

  /** All of one band, all listed before place k. */
  predicate Below(s: seq<Banded>, band: int, k: int) {
    forall i :: 0 <= i < |s| ==> s[i].band == band && s[i].idx < k
  }

  lemma {:induction false} InBandBelow(s: seq<Banded>, band: int, k: int)
    requires forall i :: 0 <= i < |s| ==> s[i].idx < k
    ensures Below(InBand(s, band), band, k)
    decreases |s|
  {
    if s == [] {
    } else {
      InBandBelow(s[..|s| - 1], band, k);
    }
  }

  function ThreeBands(s: seq<Banded>): seq<Banded> { InBand(s, 0) + InBand(s, 1) + InBand(s, 2) }

  /** Indices grow and bands are 0, 1 or 2, as the loop builds them. */
  predicate Listed(s: seq<Banded>) {
    && (forall i :: 0 <= i < |s| ==> 0 <= s[i].band <= 2)
    && (forall i, j :: 0 <= i < j < |s| ==> s[i].idx < s[j].idx)
  }

  lemma {:induction false} PlaceBehind(s: seq<Banded>, x: Banded)
    requires s == [] || !Before(x, s[|s| - 1])
    ensures Place(s, x) == s + [x]
  {}

  /** What sorts behind `x` stays behind it. */
  lemma {:induction false} PlacePast(a: seq<Banded>, b: seq<Banded>, x: Banded)
    requires forall i :: 0 <= i < |b| ==> Before(x, b[i])
    ensures Place(a + b, x) == Place(a, x) + b
    decreases |b|
  {
    if b == [] {
      assert a + b == a && Place(a, x) + b == Place(a, x);
    } else {
      var (init, z) := (b[..|b| - 1], b[|b| - 1]);
      assert (a + b)[..|a + b| - 1] == a + init;
      PlacePast(a, init, x);
      assert Place(a, x) + init + [z] == Place(a, x) + b;
    }
  }

  /** Placing an element with the greatest index puts it at the end of its band. */
  lemma {:induction false} PlaceInThree(b0: seq<Banded>, b1: seq<Banded>, b2: seq<Banded>, x: Banded)
    requires Below(b0, 0, x.idx) && Below(b1, 1, x.idx) && Below(b2, 2, x.idx)
    ensures x.band == 0 ==> Place(b0 + b1 + b2, x) == b0 + [x] + b1 + b2
    ensures x.band == 1 ==> Place(b0 + b1 + b2, x) == b0 + b1 + [x] + b2
    ensures x.band == 2 ==> Place(b0 + b1 + b2, x) == b0 + b1 + b2 + [x]
  {
    if x.band == 0 {
      PlacePast(b0 + b1, b2, x);
      PlacePast(b0, b1, x);
      PlaceBehind(b0, x);
    } else if x.band == 1 {
      PlacePast(b0 + b1, b2, x);
      PlaceBehind(b0 + b1, x);
    } else if x.band == 2 {
      PlaceBehind(b0 + b1 + b2, x);
    }
  }

  lemma {:induction false} Regrouped(b0: seq<Banded>, b1: seq<Banded>, b2: seq<Banded>, x: Banded)
    requires 0 <= x.band <= 2
    ensures (b0 + When(x.band == 0, x)) + (b1 + When(x.band == 1, x)) + (b2 + When(x.band == 2, x))
         == if x.band == 0 then b0 + [x] + b1 + b2
            else if x.band == 1 then b0 + b1 + [x] + b2
            else b0 + b1 + b2 + [x]
  {}

  lemma {:induction false} OneMoreBanded(s: seq<Banded>)
    requires s != [] && Listed(s)
    ensures Place(ThreeBands(s[..|s| - 1]), s[|s| - 1]) == ThreeBands(s)
  {
    var (init, x) := (s[..|s| - 1], s[|s| - 1]);
    InBandBelow(init, 0, x.idx);
    InBandBelow(init, 1, x.idx);
    InBandBelow(init, 2, x.idx);
    PlaceInThree(InBand(init, 0), InBand(init, 1), InBand(init, 2), x);
    Regrouped(InBand(init, 0), InBand(init, 1), InBand(init, 2), x);
  }

  lemma {:induction false} SortedByBand(s: seq<Banded>)
    requires Listed(s)
    ensures SortBands(s) == ThreeBands(s)
    decreases |s|
  {
    if s == [] {
    } else {
      SortedByBand(s[..|s| - 1]);
      OneMoreBanded(s);
    }
  }

  function Routes(s: seq<Banded>): (r: seq<Route>)
    ensures |r| == |s|
    decreases |s|
  {
    if s == [] then [] else Routes(s[..|s| - 1]) + [s[|s| - 1].route]
  }

  lemma {:induction false} RoutesConcat(a: seq<Banded>, b: seq<Banded>)
    ensures Routes(a + b) == Routes(a) + Routes(b)
    decreases |b|
  {
    if b == [] {
      assert a + b == a;
    } else {
      assert (a + b)[..|a + b| - 1] == a + b[..|b| - 1];
      RoutesConcat(a, b[..|b| - 1]);
    }
  }

  lemma {:induction false} RoutesAfter(s: seq<Banded>, x: Banded)
    ensures Routes(s + [x]) == Routes(s) + [x.route]
  {
    assert (s + [x])[..|s|] == s;
  }

  /** The candidates with their bands and places. */
  function Tagged(cs: seq<Route>, stickTo: string, until: Option<Deadlines>, now: int): (s: seq<Banded>)
    ensures |s| == |cs|
    ensures forall i :: 0 <= i < |s| ==> s[i] == Banded(cs[i], BandOf(cs[i], stickTo, until, now), i)
  {
    seq(|cs|, i requires 0 <= i < |cs| => Banded(cs[i], BandOf(cs[i], stickTo, until, now), i))
  }

  /** Sticky hops, then available ones, then cooling ones, each in the administrator's order. */
  function TryOrder(s: seq<Banded>): seq<Route> {
    Routes(InBand(s, 0)) + Routes(InBand(s, 1)) + Routes(InBand(s, 2))
  }

  method BandFor(c: Route, stickTo: string, until: Option<Deadlines>, now: int) returns (band: int)
    ensures band == BandOf(c, stickTo, until, now)
  {
    var key := KeyOf(c);
    band := 1;
    if until.Some? && Cooling(until.value, key, now) {
      band := 2;
    }
    if stickTo != "" && key == stickTo {
      band := 0;
    }
  }

  /** `orderCandidates`. */
  method OrderCandidates(cs: seq<Route>, stickTo: string, until: Option<Deadlines>, now: int) returns (res: seq<Route>)
    ensures res == TryOrder(Tagged(cs, stickTo, until, now))
  {
    ghost var all := Tagged(cs, stickTo, until, now);
    var out: seq<Banded> := [];
    var i := 0;
    while i < |cs|
      invariant 0 <= i <= |cs|
      invariant out == all[..i]
    {
      var band := BandFor(cs[i], stickTo, until, now);
      assert all[..i + 1] == all[..i] + [all[i]];
      out := out + [Banded(cs[i], band, i)];
      i := i + 1;
    }
    assert all[..i] == all;
    SortGivesTryOrder(all);
    res := Routes(SortBands(out));
  }

  lemma {:induction false} SortGivesTryOrder(s: seq<Banded>)
    requires Listed(s)
    ensures Routes(SortBands(s)) == TryOrder(s)
  {
    SortedByBand(s);
    RoutesConcat(InBand(s, 0) + InBand(s, 1), InBand(s, 2));
    RoutesConcat(InBand(s, 0), InBand(s, 1));
  }

  lemma {:induction false} RoutesInBand(s: seq<Banded>, b: int)
    requires s != []
    ensures Routes(InBand(s, b)) == Routes(InBand(s[..|s| - 1], b)) + When(s[|s| - 1].band == b, s[|s| - 1].route)
  {
    RoutesAfter(InBand(s[..|s| - 1], b), s[|s| - 1]);
    if s[|s| - 1].band != b {
      assert InBand(s, b) == InBand(s[..|s| - 1], b);
    }
  }

  lemma {:induction false} OneMoreInBand(b0: seq<Route>, b1: seq<Route>, b2: seq<Route>, c: Route, band: int)
    requires 0 <= band <= 2
    ensures multiset((b0 + When(band == 0, c)) + (b1 + When(band == 1, c)) + (b2 + When(band == 2, c)))
         == multiset(b0 + b1 + b2) + multiset{c}
  {}

  /** One band gains the route, the others keep theirs. */
  lemma {:induction false} OneMoreOfBoth(s: seq<Banded>)
    requires s != [] && 0 <= s[|s| - 1].band <= 2
    ensures multiset(TryOrder(s)) == multiset(TryOrder(s[..|s| - 1])) + multiset{s[|s| - 1].route}
    ensures multiset(Routes(s)) == multiset(Routes(s[..|s| - 1])) + multiset{s[|s| - 1].route}
  {
    var (init, x) := (s[..|s| - 1], s[|s| - 1]);
    RoutesInBand(s, 0);
    RoutesInBand(s, 1);
    RoutesInBand(s, 2);
    OneMoreInBand(Routes(InBand(init, 0)), Routes(InBand(init, 1)), Routes(InBand(init, 2)), x.route, x.band);
  }

  lemma {:induction false} TryOrderPermutes(s: seq<Banded>)
    requires Listed(s)
    ensures multiset(TryOrder(s)) == multiset(Routes(s))
    decreases |s|
  {
    if s == [] {
      assert TryOrder(s) == [];
    } else {
      TryOrderPermutes(s[..|s| - 1]);
      OneMoreOfBoth(s);
    }
  }

  lemma {:induction false} RoutesAt(s: seq<Banded>, cs: seq<Route>)
    requires |s| == |cs| && forall i :: 0 <= i < |s| ==> s[i].route == cs[i]
    ensures Routes(s) == cs
    decreases |s|
  {
    if s == [] {
    } else {
      var n := |s| - 1;
      RoutesAt(s[..n], cs[..n]);
      assert cs == cs[..n] + [cs[n]];
    }
  }

  /** Ordering loses and repeats nothing. */
  lemma {:induction false} OrderPermutes(cs: seq<Route>, stickTo: string, until: Option<Deadlines>, now: int)
    ensures multiset(TryOrder(Tagged(cs, stickTo, until, now))) == multiset(cs)
  {
    var s := Tagged(cs, stickTo, until, now);
    TryOrderPermutes(s);
    RoutesAt(s, cs);
  }

  lemma {:induction false} EmptyBand(s: seq<Banded>, b: int)
    requires forall i :: 0 <= i < |s| ==> s[i].band != b
    ensures InBand(s, b) == []
    decreases |s|
  {
    if s == [] {
    } else {
      EmptyBand(s[..|s| - 1], b);
    }
  }

  lemma {:induction false} FullBand(s: seq<Banded>, b: int)
    requires forall i :: 0 <= i < |s| ==> s[i].band == b
    ensures InBand(s, b) == s
    decreases |s|
  {
    if s == [] {
    } else {
      FullBand(s[..|s| - 1], b);
      assert s[..|s| - 1] + [s[|s| - 1]] == s;
    }
  }

  /** When every hop is cooling, the whole chain is still walked, in the administrator's order. */
  lemma {:induction false} AllCoolingKeepsOrder(cs: seq<Route>, until: Deadlines, now: int)
    requires forall i :: 0 <= i < |cs| ==> Cooling(until, KeyOf(cs[i]), now)
    ensures TryOrder(Tagged(cs, "", Some(until), now)) == cs
  {
    var s := Tagged(cs, "", Some(until), now);
    EmptyBand(s, 0);
    EmptyBand(s, 1);
    FullBand(s, 2);
    RoutesAt(s, cs);
  }

  // ---------------------------------------------------------------------------------------
  // The attempts.
  // ---------------------------------------------------------------------------------------

  /** What comes of a hop: it cannot be asked, or it answers.  `fault` is the verdict of the failover
      predicate, `rejection` says its model map has no such model. */
  datatype Hop =
    | NoCredential
    | NoProvider
    | NoAddress
    | Answered(status: int, fault: bool, rejection: bool, evidence: Option<int>)

  /** An answer that goes to the client: a success, or an error it must see as it is. */
  predicate Able(h: Hop) { h.Answered? && !h.fault && !h.rejection }

  predicate Genuine(h: Hop) { h.Answered? && h.fault && !h.rejection }

  datatype Outcome =
    | Relayed(at: int)
    | BudgetExceeded(before: int, attempts: int)
    | Exhausted(status: int, unconfigured: bool, attempts: int)

  const BAD_GATEWAY := 502

  /** One position of the walk: the hop, whether the budget has run out before it, and the clock at
      its answer. */
  datatype Stop = Stop(hop: Hop, late: bool, clock: int)

  type Walk = seq<Stop>

  /** The positions asked among the first n. */
  function Asked(w: Walk, n: int): seq<int>
    requires 0 <= n <= |w|
    decreases n
  {
    if n == 0 then [] else Asked(w, n - 1) + When(w[n - 1].hop.Answered?, n - 1)
  }

  /** The status of the last genuine upstream fault among the first n hops. */
  function LastFault(w: Walk, n: int): Option<int>
    requires 0 <= n <= |w|
    decreases n
  {
    if n == 0 then None
    else if Genuine(w[n - 1].hop) then Some(w[n - 1].hop.status)
    else LastFault(w, n - 1)
  }

  /** What a hop leaves in the cooldown store. */
  function Mark(c: Route, x: Stop, cfg: int): seq<Event> {
    if Able(x.hop) then [Success(KeyOf(c))]
    else if x.hop.Answered? && !x.hop.rejection then [Note(KeyOf(c), x.hop.fault, cfg, x.hop.evidence, x.clock)]
    else []
  }

  /** The cooldown events of the first n hops. */
  function Marks(order: seq<Route>, w: Walk, cfg: int, n: int): seq<Event>
    requires 0 <= n <= |order| == |w|
    decreases n
  {
    if n == 0 then [] else Marks(order, w, cfg, n - 1) + Mark(order[n - 1], w[n - 1], cfg)
  }

  /** None of the first n hops could serve, and the budget held before each but the first. */
  predicate Passed(w: Walk, n: int)
    requires 0 <= n <= |w|
    decreases n
  {
    n == 0 || (Passed(w, n - 1) && !Able(w[n - 1].hop) && (n - 1 > 0 ==> !w[n - 1].late))
  }

  lemma {:induction false} PassedMeans(w: Walk, n: int, j: int)
    requires 0 <= j < n <= |w| && Passed(w, n)
    ensures !Able(w[j].hop) && (j > 0 ==> !w[j].late)
    decreases n
  {
    if j < n - 1 {
      PassedMeans(w, n - 1, j);
    }
  }

  /** The budget ran out before position `at`. */
  ghost predicate CutAt(w: Walk, at: int) { 0 < at < |w| && Passed(w, at) && w[at].late }

  /** What the loop promises: it relays the first hop able to serve, unless the budget runs out
      before it is tried; if none is, it reports the last genuine fault. */
  ghost predicate Right(w: Walk, unconfigured: bool, o: Outcome) {
    match o
    case Relayed(at) => 0 <= at < |w| && Passed(w, at) && (at > 0 ==> !w[at].late) && Able(w[at].hop)
    case BudgetExceeded(at, attempts) => CutAt(w, at) && attempts == |Asked(w, at)|
    case Exhausted(status, u, attempts) =>
      && Passed(w, |w|) && u == unconfigured && attempts == |Asked(w, |w|)|
      && status == if LastFault(w, |w|).Some? then LastFault(w, |w|).value else BAD_GATEWAY
  }

  /** The store once the first n positions are done with. */
  function Store(was: Deadlines, order: seq<Route>, w: Walk, cfg: int, n: int): Deadlines
    requires 0 <= n <= |order| == |w|
    decreases n
  {
    if n == 0 then was else Run(Store(was, order, w, cfg, n - 1), Mark(order[n - 1], w[n - 1], cfg))
  }

  lemma {:induction false} RunOne(until: Deadlines, e: Event)
    ensures Run(until, [e]) == Step(until, e)
  {
    assert [e][..0] == [];
  }

  lemma {:induction false} RunConcat(was: Deadlines, a: seq<Event>, b: seq<Event>)
    ensures Run(was, a + b) == Run(Run(was, a), b)
    decreases |b|
  {
    if b == [] {
      assert a + b == a;
    } else {
      assert (a + b)[..|a + b| - 1] == a + b[..|b| - 1];
      RunConcat(was, a, b[..|b| - 1]);
    }
  }

  lemma {:induction false} OneMoreMark(was: Deadlines, es: seq<Event>, m: seq<Event>, until: Deadlines)
    requires until == Run(was, es)
    ensures Run(until, m) == Run(was, es + m)
  {
    RunConcat(was, es, m);
  }

  /** It is the cooldown store's own run over the faults and the success of the walk. */
  lemma {:induction false} StoreIsRun(was: Deadlines, order: seq<Route>, w: Walk, cfg: int, n: int)
    requires 0 <= n <= |order| == |w|
    ensures Store(was, order, w, cfg, n) == Run(was, Marks(order, w, cfg, n))
    decreases n
  {
    if n > 0 {
      StoreIsRun(was, order, w, cfg, n - 1);
      OneMoreMark(was, Marks(order, w, cfg, n - 1), Mark(order[n - 1], w[n - 1], cfg),
                  Store(was, order, w, cfg, n - 1));
    }
  }

  /** Ask a hop, if it can be asked, and note what comes of it; `relayed` says its answer went to the
      client. */
  method Ask(c: Route, x: Stop, cfg: int, store: CooldownStore) returns (relayed: bool)
    modifies store
    ensures store.until == Run(old(store.until), Mark(c, x, cfg))
    ensures relayed == Able(x.hop)
  {
    var h := x.hop;
    if !h.Answered? {
      return false;
    }
    var captured := h.fault || h.rejection;
    if !captured {
      RunOne(store.until, Success(KeyOf(c)));
      store.NoteSuccess(KeyOf(c));
      return true;
    }
    if !h.rejection {
      RunOne(store.until, Note(KeyOf(c), h.fault, cfg, h.evidence, x.clock));
      var deadline, cooled := store.NoteFailure(KeyOf(c), h.fault, cfg, h.evidence, x.clock);
    }
    return false;
  }

  /** Each position is asked at most once, in order, and those asked are those that could be. */
  lemma {:induction false} AskedOnce(w: Walk, n: int)
    requires 0 <= n <= |w|
    ensures forall i, j :: 0 <= i < j < |Asked(w, n)| ==> Asked(w, n)[i] < Asked(w, n)[j]
    ensures forall k :: k in Asked(w, n) <==> 0 <= k < n && w[k].hop.Answered?
    decreases n
  {
    if n > 0 {
      AskedOnce(w, n - 1);
      var before := Asked(w, n - 1);
      assert forall i :: 0 <= i < |before| ==> before[i] in before;
    }
  }

  /** How many positions the cooldown store has heard of when the walk ends. */
  function Heard(o: Outcome, n: int): int {
    match o
    case Relayed(at) => at + 1
    case BudgetExceeded(before, _) => before
    case Exhausted(_, _, _) => n
  }

  /** What is recorded of the hop that served: the first in the try order counts as the primary. */
  function ServedBy(order: seq<Route>, w: Walk, key: Activity.Key, primary: string, at: int): Activity.Event
    requires 0 <= at < |order| == |w|
  {
    Activity.Served(key, KeyOf(order[at]), KeyOf(order[at]) == primary || at == 0, w[at].clock)
  }

  /** The activity store after a walk. */
  function Recorded(was: Activity.Entries, order: seq<Route>, w: Walk, key: Activity.Key, primary: string, o: Outcome)
    : Activity.Entries
    requires |order| == |w| && (o.Relayed? ==> 0 <= o.at < |w|)
  {
    if o.Relayed? then Activity.Step(was, ServedBy(order, w, key, primary, o.at)) else was
  }

  /** The loop of `serveManagedChain` and the terminal answer.  `tried` lists the positions that were
      asked; the cooldown store has heard exactly of their faults and of the one success, and the
      activity store of the hop that served. */
  method WalkChain(order: seq<Route>, grouped: bool, w: Walk, cfg: int, store: CooldownStore,
                   activity: Activity.ChainActivityStore, key: Activity.Key, primary: string)
    returns (o: Outcome, tried: seq<int>)
    requires |w| == |order|
    modifies store, activity
    ensures Right(w, grouped && |order| == 1, o)
    ensures 0 <= Heard(o, |w|) <= |w|
    ensures tried == Asked(w, Heard(o, |w|))
    ensures store.until == Store(old(store.until), order, w, cfg, Heard(o, |w|))
    ensures activity.entries == Recorded(old(activity.entries), order, w, key, primary, o)
  {
    var last: Option<int> := None;
    var attempts := 0;
    tried := [];
    var i := 0;
    while i < |order|
      invariant 0 <= i <= |order|
      invariant Passed(w, i)
      invariant last == LastFault(w, i)
      invariant tried == Asked(w, i) && attempts == |tried|
      invariant activity.entries == old(activity.entries)
      invariant store.until == Store(old(store.until), order, w, cfg, i)
    {
      if i > 0 && w[i].late {
        return BudgetExceeded(i, attempts), tried;
      }
      var relayed := Ask(order[i], w[i], cfg, store);
      var h := w[i].hop;
      if h.Answered? {
        tried := tried + [i];
        attempts := attempts + 1;
        if relayed {
          var hop := KeyOf(order[i]);
          activity.NoteServed(key, hop, hop == primary || i == 0, w[i].clock);
          return Relayed(i), tried;
        }
        if !h.rejection {
          last := Some(h.status);
        }
      }
      i := i + 1;
    }
    var status := if last.Some? then last.value else BAD_GATEWAY;
    o := Exhausted(status, grouped && |order| == 1, attempts);
  }

  /** The policy of a request and the time it arrives. */
  datatype Request = Request(idleGap: int, maxStickiness: int, cfg: int, now: int)

  /** What the activity store is asked about a chain. */
  function Observed(cs: seq<Route>, q: Request): Activity.Event
    requires cs != []
  {
    Activity.Observe(Activity.Key(cs[0].vk, cs[0].protocol), q.idleGap, q.maxStickiness, q.now)
  }

  /** The order in which a request tries the chain, given what both stores hold. */
  function OrderOf(cs: seq<Route>, entries: Activity.Entries, until: Deadlines, q: Request): (order: seq<Route>)
    requires cs != []
    ensures |order| == |cs|
  {
    var stickTo := Activity.Decide(entries, Observed(cs, q)).stickTo;
    OrderPermutes(cs, stickTo, Some(until), q.now);
    assert |TryOrder(Tagged(cs, stickTo, Some(until), q.now))| == |multiset(cs)|;
    TryOrder(Tagged(cs, stickTo, Some(until), q.now))
  }

  /** The activity store after a request that ended so. */
  function Remembered(cs: seq<Route>, entries: Activity.Entries, until: Deadlines, q: Request, w: Walk, o: Outcome)
    : Activity.Entries
    requires cs != [] && |w| == |cs| && (o.Relayed? ==> 0 <= o.at < |w|)
  {
    var e := Observed(cs, q);
    Recorded(Activity.Step(entries, e), OrderOf(cs, entries, until, q), w, e.key, KeyOf(cs[0]), o)
  }

  /** `serveManagedChain`: observe the request, order the chain, walk it. */
  method ServeManagedChain(cs: seq<Route>, grouped: bool, q: Request, w: Walk, store: CooldownStore,
                           activity: Activity.ChainActivityStore)
    returns (o: Outcome, tried: seq<int>)
    requires cs != [] && |w| == |cs|
    modifies store, activity
    ensures Right(w, grouped && |cs| == 1, o)
    ensures 0 <= Heard(o, |w|) <= |w|
    ensures tried == Asked(w, Heard(o, |w|))
    ensures var order := OrderOf(cs, old(activity.entries), old(store.until), q);
            store.until == Store(old(store.until), order, w, q.cfg, Heard(o, |w|))
    ensures activity.entries == Remembered(cs, old(activity.entries), old(store.until), q, w, o)
  {
    var key := Activity.Key(cs[0].vk, cs[0].protocol);
    var stick := activity.ObserveRequest(key, q.idleGap, q.maxStickiness, q.now);
    var order := OrderCandidates(cs, stick.stickTo, Some(store.until), q.now);
    assert order == OrderOf(cs, old(activity.entries), old(store.until), q);
    o, tried := WalkChain(order, grouped, w, q.cfg, store, activity, key, KeyOf(cs[0]));
  }

  /** An answer the client gets: no upstream fault, and not that the hop lacks the model. */
  predicate Fine(h: Hop) { h.Answered? && !h.fault && !h.rejection }

  lemma {:induction false} NoneFine(w: Walk, n: int)
    requires 0 <= n <= |w| && forall j :: 0 <= j < n ==> !Fine(w[j].hop) && (j > 0 ==> !w[j].late)
    ensures Passed(w, n)
    decreases n
  {
    if n > 0 {
      NoneFine(w, n - 1);
    }
  }

  /** Where a walk ends, by what the hops answer: the client gets the first fine answer, unless the
      budget runs out before that hop or a hop before it is tried. */
  lemma {:induction false} RelayedIff(w: Walk, u: bool, o: Outcome, k: int)
    requires Right(w, u, o) && 0 <= k < |w|
    ensures o == Relayed(k) <==>
            && Fine(w[k].hop) && (k > 0 ==> !w[k].late)
            && forall j :: 0 <= j < k ==> !Fine(w[j].hop) && (j > 0 ==> !w[j].late)
  {
    if Fine(w[k].hop) && (k > 0 ==> !w[k].late)
       && forall j :: 0 <= j < k ==> !Fine(w[j].hop) && (j > 0 ==> !w[j].late) {
      NoneFine(w, k);
      OutcomeIsDetermined(w, u, o, Relayed(k));
    }
    if o == Relayed(k) {
      forall j | 0 <= j < k ensures !Fine(w[j].hop) && (j > 0 ==> !w[j].late) {
        PassedMeans(w, k, j);
      }
    }
  }

  /** A hop that failed as an upstream, not for lack of the model. */
  predicate Failed(h: Hop) { h.Answered? && h.fault && !h.rejection }

  /** What the client is told when no hop serves: the status of the last hop that failed, or that of a bad
      gateway if none did. */
  lemma {:induction false} ExhaustedTells(w: Walk, u: bool, o: Outcome)
    requires Right(w, u, o) && o.Exhausted?
    ensures forall k :: 0 <= k < |w| ==> !Fine(w[k].hop)
    ensures (forall k :: 0 <= k < |w| ==> !Failed(w[k].hop)) ==> o.status == 502
    ensures forall k :: 0 <= k < |w| && Failed(w[k].hop) && (forall j :: k < j < |w| ==> !Failed(w[j].hop)) ==>
              o.status == w[k].hop.status
  {
    forall k | 0 <= k < |w| ensures !Fine(w[k].hop) {
      PassedMeans(w, |w|, k);
    }
    FaultIsGenuine(w, |w|);
  }

  /** The promise leaves one outcome only. */
  lemma {:induction false} OutcomeIsDetermined(w: Walk, u: bool, a: Outcome, b: Outcome)
    requires Right(w, u, a) && Right(w, u, b)
    ensures a == b
  {
    var (i, j) := (Where(a, |w|), Where(b, |w|));
    if i < j {
      PassedMeans(w, j, i);
    } else if j < i {
      PassedMeans(w, i, j);
    }
  }

  /** The position a walk ends at. */
  function Where(o: Outcome, n: int): int { if o.Relayed? then o.at else Heard(o, n) }

  /** Whatever the bands, if any candidate can serve and the budget lasts, the client is served. */
  lemma {:induction false} ServedIfAnyCan(cs: seq<Route>, stickTo: string, until: Option<Deadlines>, now: int,
                                          ask: Route -> Hop, w: Walk, u: bool, o: Outcome)
    requires |w| == |TryOrder(Tagged(cs, stickTo, until, now))| && Right(w, u, o)
    requires forall i :: 0 <= i < |w| ==> w[i].hop == ask(TryOrder(Tagged(cs, stickTo, until, now))[i]) && !w[i].late
    requires exists c :: c in cs && Able(ask(c))
    ensures o.Relayed? && Able(ask(TryOrder(Tagged(cs, stickTo, until, now))[o.at]))
  {
    var order := TryOrder(Tagged(cs, stickTo, until, now));
    OrderPermutes(cs, stickTo, until, now);
    var c :| c in cs && Able(ask(c));
    assert c in multiset(order);
    var k :| 0 <= k < |order| && order[k] == c;
    if o.Exhausted? {
      PassedMeans(w, |w|, k);
    }
  }

  /** The terminal status is that of a hop that was asked and genuinely failed, the last such; a hop
      that only lacks the model is never what the client is told about. */
  lemma {:induction false} FaultIsGenuine(w: Walk, n: int)
    requires 0 <= n <= |w|
    ensures LastFault(w, n).Some? ==>
      exists k :: 0 <= k < n && Genuine(w[k].hop) && w[k].hop.status == LastFault(w, n).value
                  && forall j :: k < j < n ==> !Genuine(w[j].hop)
    ensures LastFault(w, n).None? ==> forall k :: 0 <= k < n ==> !Genuine(w[k].hop)
    decreases n
  {
    if n > 0 && !Genuine(w[n - 1].hop) {
      FaultIsGenuine(w, n - 1);
    }
  }

  /** A spell a request starts is started under the key of a hop that was asked and genuinely failed. */
  lemma {:induction false} OnlyFaultsCool(order: seq<Route>, w: Walk, cfg: int, n: int, e: Event)
    requires 0 <= n <= |order| == |w| && e in Marks(order, w, cfg, n) && Cools(e)
    ensures exists k :: 0 <= k < n && Genuine(w[k].hop) && e.id == KeyOf(order[k])
    decreases n
  {
    if e in Marks(order, w, cfg, n - 1) {
      OnlyFaultsCool(order, w, cfg, n - 1, e);
    } else {
      assert e in Mark(order[n - 1], w[n - 1], cfg);
      assert Genuine(w[n - 1].hop) && e.id == KeyOf(order[n - 1]);
    }
  }

  // ---------------------------------------------------------------------------------------
  // What a walk cools.
  // ---------------------------------------------------------------------------------------

  /** The last thing a walk says about a key. */
  datatype Word = Silent | Cleared | Until(deadline: int)

  predicate Speaks(c: Route, h: Hop, cfg: int, id: string) {
    KeyOf(c) == id && (Able(h) || (Genuine(h) && cfg != 0))
  }

  function WordOf(x: Stop, cfg: int): Word
    requires x.hop.Answered?
  {
    if Able(x.hop) then Cleared else Until(x.clock + Spell(cfg * MILLISECOND, x.hop.evidence, x.clock))
  }

  function LastWord(order: seq<Route>, w: Walk, cfg: int, id: string, n: int): Word
    requires 0 <= n <= |order| == |w|
    decreases n
  {
    if n == 0 then Silent
    else if Speaks(order[n - 1], w[n - 1].hop, cfg, id) then WordOf(w[n - 1], cfg)
    else LastWord(order, w, cfg, id, n - 1)
  }

  predicate Obeys(until: Deadlines, was: Deadlines, id: string, word: Word) {
    match word
    case Silent => (id in until <==> id in was) && (id in was ==> until[id] == was[id])
    case Cleared => id !in until
    case Until(d) => id in until && until[id] == d
  }

  lemma {:induction false} MarkSpeaks(until: Deadlines, c: Route, x: Stop, cfg: int, id: string)
    requires id != ""
    ensures Obeys(Run(until, Mark(c, x, cfg)), until, id,
                  if Speaks(c, x.hop, cfg, id) then WordOf(x, cfg) else Silent)
  {
    var m := Mark(c, x, cfg);
    if m != [] {
      RunOne(until, m[0]);
    }
  }

  lemma {:induction false} StoreObeys(was: Deadlines, order: seq<Route>, w: Walk, cfg: int, id: string, n: int)
    requires 0 <= n <= |order| == |w| && id != ""
    ensures Obeys(Store(was, order, w, cfg, n), was, id, LastWord(order, w, cfg, id, n))
    decreases n
  {
    if n == 0 {
    } else {
      StoreObeys(was, order, w, cfg, id, n - 1);
      MarkSpeaks(Store(was, order, w, cfg, n - 1), order[n - 1], w[n - 1], cfg, id);
    }
  }

  lemma {:induction false} UntilMeansFault(order: seq<Route>, w: Walk, cfg: int, id: string, n: int)
    requires 0 <= n <= |order| == |w| && LastWord(order, w, cfg, id, n).Until?
    ensures exists k :: 0 <= k < n && Genuine(w[k].hop) && KeyOf(order[k]) == id
    decreases n
  {
    if !Speaks(order[n - 1], w[n - 1].hop, cfg, id) {
      UntilMeansFault(order, w, cfg, id, n - 1);
    }
  }

  /** The state of the store after a walk, for every hop: what the last hop asked under the same key
      said decides, and only a key nobody spoke for keeps its old deadline.  So a hop that was not
      cooling before is cooling after only if some asked hop of its key genuinely failed. */
  lemma {:induction false} CooledByItsKey(was: Deadlines, order: seq<Route>, w: Walk, cfg: int, n: int, c: Route,
                                          t: int)
    requires 0 <= n <= |order| == |w| && KeyOf(c) != ""
    ensures Cooling(Store(was, order, w, cfg, n), KeyOf(c), t) <==>
            match LastWord(order, w, cfg, KeyOf(c), n)
            case Silent => Cooling(was, KeyOf(c), t)
            case Cleared => false
            case Until(d) => t < d
    ensures Cooling(Store(was, order, w, cfg, n), KeyOf(c), t) && !Cooling(was, KeyOf(c), t) ==>
            exists k :: 0 <= k < n && Genuine(w[k].hop) && KeyOf(order[k]) == KeyOf(c)
  {
    StoreObeys(was, order, w, cfg, KeyOf(c), n);
    if LastWord(order, w, cfg, KeyOf(c), n).Until? {
      UntilMeansFault(order, w, cfg, KeyOf(c), n);
    }
  }

  /** The hop asked last under its key decides by its answer: a fault cools the key for the administrator's
      maximum, or for less if the upstream says so, an answer the client gets clears it. */
  lemma {:induction false} LastAnswerDecides(was: Deadlines, order: seq<Route>, w: Walk, cfg: int, k: int, t: int)
    requires 0 <= k < |order| == |w| && KeyOf(order[k]) != "" && w[k].hop.Answered? && !w[k].hop.rejection
    ensures var (until, x) := (Store(was, order, w, cfg, k + 1), w[k]);
            var max := cfg * 1_000_000;
            var spell := if x.hop.evidence.Some? && x.clock < x.hop.evidence.value < x.clock + max
                         then x.hop.evidence.value - x.clock else max;
            && (!x.hop.fault ==> !Cooling(until, KeyOf(order[k]), t))
            && (x.hop.fault && cfg != 0 ==> (Cooling(until, KeyOf(order[k]), t) <==> t < x.clock + spell))
  {
    CooledByItsKey(was, order, w, cfg, k + 1, order[k], t);
  }

  /** Every hop that ends up cooling failed itself. */
  ghost predicate CoolsOnlyTheFailed(order: seq<Route>) {
    forall w: Walk, cfg: int, t: int, j: int ::
      |w| == |order| && 0 <= j < |w| && Cooling(Store(map[], order, w, cfg, |w|), KeyOf(order[j]), t) ==>
        Genuine(w[j].hop)
  }

  predicate DistinctKeys(order: seq<Route>) {
    forall i, j :: 0 <= i < |order| && 0 <= j < |order| && i != j ==>
      KeyOf(order[i]) == "" || KeyOf(order[i]) != KeyOf(order[j])
  }

  /** A walk in which one hop fails at time 0 and no other can be asked. */
  function OneFault(n: int, i: int): Walk
    requires 0 <= i < n
  {
    seq(n, k => if k == i then Stop(Answered(500, true, false, None), false, 0) else Stop(NoCredential, false, 0))
  }

  lemma {:induction false} OneFaultCools(order: seq<Route>, i: int, n: int)
    requires 0 <= i < |order| && KeyOf(order[i]) != "" && i < n <= |order|
    ensures LastWord(order, OneFault(|order|, i), 1, KeyOf(order[i]), n) == Until(MILLISECOND)
    decreases n
  {
    if n > i + 1 {
      OneFaultCools(order, i, n - 1);
    }
  }

  /** That is so for a chain if and only if no two of its hops share a key: otherwise one of them
      cools the other, which need not even have been asked. */
  lemma {:induction false} CoolsOnlyTheFailedIff(order: seq<Route>)
    ensures CoolsOnlyTheFailed(order) <==> DistinctKeys(order)
  {
    if DistinctKeys(order) {
      forall w: Walk, cfg: int, t: int, j: int
        | |w| == |order| && 0 <= j < |w| && Cooling(Store(map[], order, w, cfg, |w|), KeyOf(order[j]), t)
        ensures Genuine(w[j].hop)
      {
        CooledByItsKey(map[], order, w, cfg, |w|, order[j], t);
      }
    } else {
      var i, j :| 0 <= i < |order| && 0 <= j < |order| && i != j && KeyOf(order[i]) != ""
                  && KeyOf(order[i]) == KeyOf(order[j]);
      var w := OneFault(|order|, i);
      OneFaultCools(order, i, |order|);
      CooledByItsKey(map[], order, w, 1, |w|, order[j], 0);
      assert !Genuine(w[j].hop);
    }
  }

  /** Keys do coincide: two hops of one virtual key without binding ids share theirs exactly when they
      have the same credential, an absent one included. */
  lemma {:induction false} SharedKeyIff(a: Route, b: Route)
    requires a.binding == "" && b.binding == "" && a.vk == b.vk != ""
    ensures KeyOf(a) == KeyOf(b) <==> a.credential == b.credential
    ensures KeyOf(a) != ""
  {
    var p := a.vk + "|";
    assert KeyOf(a) == p + a.credential && KeyOf(b) == p + b.credential;
    assert (p + a.credential)[|p|..] == a.credential && (p + b.credential)[|p|..] == b.credential;
  }

  /** A fallback hop is remembered, so that the next request sticks to it, exactly when it was neither
      first in the try order nor the primary. */
  lemma {:induction false} RememberedIff(entries: Activity.Entries, order: seq<Route>, w: Walk, key: Activity.Key,
                                         primary: string, at: int, next: Activity.Event)
    requires 0 <= at < |order| == |w| && KeyOf(order[at]) != ""
    requires next.Observe? && next.key == key && next.now - w[at].clock < next.idleGap
    requires next.maxStickiness <= 0
             || (key in entries && entries[key].probe.Some? && next.now - entries[key].probe.value < next.maxStickiness)
    ensures Activity.Decide(Activity.Step(entries, ServedBy(order, w, key, primary, at)), next).stickTo
         == if at > 0 && KeyOf(order[at]) != primary then KeyOf(order[at]) else ""
  {}

  lemma {:induction false} StickyIsFirst(cs: seq<Route>, stickTo: string, until: Option<Deadlines>, now: int, c: Route)
    requires c in cs && stickTo != "" && KeyOf(c) == stickTo
    ensures var order := TryOrder(Tagged(cs, stickTo, until, now));
            order != [] && KeyOf(order[0]) == stickTo
  {
    var s := Tagged(cs, stickTo, until, now);
    var i :| 0 <= i < |cs| && cs[i] == c;
    assert s[i].band == 0;
    var b0 := InBand(s, 0);
    InBandHas(s, 0, i);
    InBandFrom(s, 0);
    var order := TryOrder(s);
    RoutesHead(b0);
    assert order[0] == b0[0].route;
    assert b0[0] in b0;
  }

  lemma {:induction false} InBandHas(s: seq<Banded>, band: int, i: int)
    requires 0 <= i < |s| && s[i].band == band
    ensures InBand(s, band) != []
    decreases |s|
  {
    if i < |s| - 1 {
      InBandHas(s[..|s| - 1], band, i);
    }
  }

  lemma {:induction false} InBandFrom(s: seq<Banded>, band: int)
    ensures forall x :: x in InBand(s, band) ==> x in s && x.band == band
    decreases |s|
  {
    if s == [] {
    } else {
      InBandFrom(s[..|s| - 1], band);
    }
  }

  lemma {:induction false} RoutesHead(s: seq<Banded>)
    requires s != []
    ensures Routes(s)[0] == s[0].route
    decreases |s|
  {
    if |s| > 1 {
      RoutesHead(s[..|s| - 1]);
    }
  }

  /** Stickiness lasts one request: when the hop a request sticks to answers, it is relayed from the
      first position and forgotten, and the next request on the key, whatever its policy and time,
      does not stick. */
  lemma {:induction false} StickinessIsSpent(cs: seq<Route>, entries: Activity.Entries, until: Deadlines, q: Request,
                                             w: Walk, u: bool, o: Outcome, next: Activity.Event)
    requires cs != [] && |w| == |cs| && Right(w, u, o) && Able(w[0].hop)
    requires var stickTo := Activity.Decide(entries, Observed(cs, q)).stickTo;
             stickTo != "" && exists c :: c in cs && KeyOf(c) == stickTo
    requires next.Observe? && next.key == Observed(cs, q).key
    ensures o == Relayed(0)
    ensures KeyOf(OrderOf(cs, entries, until, q)[0]) == Activity.Decide(entries, Observed(cs, q)).stickTo
    ensures Activity.Decide(Remembered(cs, entries, until, q, w, o), next).stickTo == ""
  {
    var stickTo := Activity.Decide(entries, Observed(cs, q)).stickTo;
    var c :| c in cs && KeyOf(c) == stickTo;
    StickyIsFirst(cs, stickTo, Some(until), q.now, c);
    if Where(o, |w|) > 0 {
      PassedMeans(w, Where(o, |w|), 0);
    }
  }

  lemma {:induction false} BandHead(s: seq<Banded>, band: int)
    requires s != [] && s[0].band == band
    ensures InBand(s, band) != [] && InBand(s, band)[0] == s[0]
    decreases |s|
  {
    if |s| == 1 {
      assert s[..0] == [];
    } else {
      BandHead(s[..|s| - 1], band);
    }
  }

  lemma {:induction false} NothingSticky(cs: seq<Route>, until: Deadlines, now: int)
    ensures InBand(Tagged(cs, "", Some(until), now), 0) == []
  {
    EmptyBand(Tagged(cs, "", Some(until), now), 0);
  }

  lemma {:induction false} HeadOfOrder(s: seq<Banded>, i: int) returns (k: int)
    requires 0 <= i < |s| && s[i].band == 1 && InBand(s, 0) == []
    ensures 0 <= k < |s| && s[k].band == 1 && (s[0].band == 1 ==> k == 0)
    ensures TryOrder(s) != [] && TryOrder(s)[0] == s[k].route
  {
    var b1 := InBand(s, 1);
    InBandHas(s, 1, i);
    InBandFrom(s, 1);
    RoutesHead(b1);
    assert b1[0] in b1;
    k :| 0 <= k < |s| && s[k] == b1[0];
    if s[0].band == 1 {
      BandHead(s, 1);
      k := 0;
    }
  }

  /** The hop a request that does not stick asks first, if some hop is not cooling: one that is not. */
  lemma {:induction false} AvailableFirst(cs: seq<Route>, until: Deadlines, now: int, i: int)
    requires 0 <= i < |cs| && !Cooling(until, KeyOf(cs[i]), now)
    ensures var order := TryOrder(Tagged(cs, "", Some(until), now));
            && order != [] && !Cooling(until, KeyOf(order[0]), now)
            && (!Cooling(until, KeyOf(cs[0]), now) ==> order[0] == cs[0])
  {
    NothingSticky(cs, until, now);
    var k := HeadOfOrder(Tagged(cs, "", Some(until), now), i);
  }

  /** A request that does not stick tries the primary first if and only if the primary is not cooling,
      or every hop is. */
  lemma {:induction false} PrimaryFirstIff(cs: seq<Route>, until: Deadlines, now: int)
    requires cs != []
    ensures var order := TryOrder(Tagged(cs, "", Some(until), now));
            && order != []
            && (KeyOf(order[0]) == KeyOf(cs[0]) <==>
                !Cooling(until, KeyOf(cs[0]), now) || forall c :: c in cs ==> Cooling(until, KeyOf(c), now))
  {
    if i :| 0 <= i < |cs| && !Cooling(until, KeyOf(cs[i]), now) {
      AvailableFirst(cs, until, now, i);
      assert cs[i] in cs;
    } else {
      AllCoolingKeepsOrder(cs, until, now);
    }
  }
}
