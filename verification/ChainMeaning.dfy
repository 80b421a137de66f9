/** What the chain of a managed token is in terms of the bindings themselves: protocols compared letter by
    letter, places compared by index (`internal/proxy/candidate_chain.go`). */
module ChainMeaning {
  import opened Common
  import opened Chain

  /** The same letter, or the capital and the small form of one. */
  predicate SameLetter(a: char, b: char) {
    || a == b
    || ('A' <= a <= 'Z' && b as int == a as int + 32)
    || ('A' <= b <= 'Z' && a as int == b as int + 32)
  }

  predicate SameLetters(a: string, b: string) {
    |a| == |b| && forall i :: 0 <= i < |a| ==> SameLetter(a[i], b[i])
  }

  lemma {:induction false} LowerIff(a: char, b: char)
    ensures Lower(a) == Lower(b) <==> SameLetter(a, b)
  {}

  lemma {:induction false} FoldIff(a: string, b: string)
    ensures EqualFold(a, b) <==> SameLetters(a, b)
    decreases |a|
  {
    if a == "" || b == "" {
    } else {
      LowerIff(a[0], b[0]);
      FoldIff(a[1..], b[1..]);
      var (fa, fb) := (Folded(a), Folded(b));
      assert fa[0] == Lower(a[0]) && fa[1..] == Folded(a[1..]);
      assert fb[0] == Lower(b[0]) && fb[1..] == Folded(b[1..]);
      assert fa == fb <==> fa[0] == fb[0] && fa[1..] == fb[1..] by {
        assert fa == [fa[0]] + fa[1..] && fb == [fb[0]] + fb[1..];
      }
      assert forall i :: 1 <= i < |a| ==> a[i] == a[1..][i - 1];
      assert forall i :: 1 <= i < |b| ==> b[i] == b[1..][i - 1];
      assert SameLetters(a, b) <==> SameLetter(a[0], b[0]) && SameLetters(a[1..], b[1..]);
    }
  }

  /** The binding offers the requested protocol. */
  predicate Offers(c: Route, protocol: string) { protocol == "" || SameLetters(c.protocol, protocol) }

  lemma {:induction false} ForProtocolIs(cs: seq<Route>, protocol: string)
    ensures forall c :: c in ForProtocol(cs, protocol) <==> c in cs && Offers(c, protocol)
  {
    forall c ensures Serves(c, protocol) <==> Offers(c, protocol) {
      FoldIff(c.protocol, protocol);
    }
  }

  /** The hop that stands for a pool: if some row of the pool has a provider and accounts so has the hop,
      and if some row has one of them the hop has one. */
  predicate StandsFor(h: Route, c: Route) {
    && h.pool == c.pool
    && (c.provider != "" && c.accounts > 0 ==> h.provider != "" && h.accounts > 0)
    && (c.provider != "" || c.accounts > 0 ==> h.provider != "" || h.accounts > 0)
  }

  /** A chain in the administrator's order: priorities ascend, no two members of a route group share
      one, and every account pool has one hop. */
  predicate Ordered(hops: seq<Route>) {
    forall i, j :: 0 <= i < j < |hops| ==>
      && hops[i].priority <= hops[j].priority
      && (hops[i].group != "" && hops[i].group == hops[j].group ==> hops[i].priority != hops[j].priority)
      && (hops[i].pool != "" ==> hops[i].pool != hops[j].pool)
  }

  /** The chain holds bindings of the protocol only, all that are in no pool, and a hop for each pool. */
  ghost predicate Covers(hops: seq<Route>, bindings: seq<Route>, protocol: string) {
    && (forall h :: h in hops ==> h in bindings && Offers(h, protocol))
    && (forall c :: c in bindings && Offers(c, protocol) && c.pool == "" ==> c in hops)
    && (forall c :: c in bindings && Offers(c, protocol) && c.pool != "" ==> exists h :: h in hops && StandsFor(h, c))
  }

  lemma {:induction false} WellFormedCovers(hops: seq<Route>, bindings: seq<Route>, protocol: string)
    requires WellFormed(hops, ForProtocol(bindings, protocol))
    ensures Covers(hops, bindings, protocol) && Ordered(hops)
  {
    var cs := ForProtocol(bindings, protocol);
    ForProtocolIs(bindings, protocol);
    forall h | h in hops ensures h in cs {
      assert h in multiset(hops);
      assert h in multiset(cs);
    }
    forall c | c in bindings && Offers(c, protocol) && c.pool != "" ensures exists h :: h in hops && StandsFor(h, c) {
      assert Stands(hops, c);
      var i :| 0 <= i < |hops| && hops[i].pool == c.pool && Rank(hops[i]) >= Rank(c);
      assert hops[i] in hops && StandsFor(hops[i], c);
    }
    forall i, j | 0 <= i < j < |hops|
      ensures hops[i].group != "" && hops[i].group == hops[j].group ==> hops[i].priority != hops[j].priority
    {
      assert !Clash(hops[i], hops[j]);
    }
  }

  /** Two members of one route group at the same place. */
  predicate Share(a: Route, b: Route, p: int) {
    a.group != "" && a.group == b.group && a.priority == p && b.priority == p
  }

  predicate NoneShares(cs: seq<Route>) {
    forall k, l :: 0 <= k < l < |cs| ==> !Share(cs[k], cs[l], cs[k].priority)
  }

  /** The priority reported is that of the first row that shares one. */
  lemma {:induction false} AmbiguousMeans(cs: seq<Route>, p: int)
    requires FirstClash(cs) == Some(p)
    ensures exists i, j :: 0 <= i < j < |cs| && Share(cs[i], cs[j], p) && NoneShares(cs[..j])
    decreases |cs|
  {
    var n := |cs| - 1;
    if FirstClash(cs[..n]).Some? {
      AmbiguousMeans(cs[..n], p);
      var i, j :| 0 <= i < j < n && Share(cs[..n][i], cs[..n][j], p) && NoneShares(cs[..n][..j]);
      assert cs[i] == cs[..n][i] && cs[j] == cs[..n][j] && cs[..n][..j] == cs[..j];
    } else {
      var i :| 0 <= i < n && Clash(cs[..n][i], cs[n]);
      FirstClashIff(cs[..n]);
      forall k, l | 0 <= k < l < n ensures !Share(cs[..n][k], cs[..n][l], cs[..n][k].priority) {
        assert !Clash(cs[..n][k], cs[..n][l]);
      }
      assert cs[i] == cs[..n][i] && Share(cs[i], cs[n], p);
    }
  }

  lemma {:induction false} ClashOfBindings(bindings: seq<Route>, protocol: string, p: int)
    requires FirstClash(Collapsed(ForProtocol(bindings, protocol))) == Some(p)
    ensures exists a, b :: a in bindings && b in bindings && Offers(a, protocol) && Offers(b, protocol)
                           && Share(a, b, p)
  {
    var cs := ForProtocol(bindings, protocol);
    var one := Collapsed(cs);
    ForProtocolIs(bindings, protocol);
    AmbiguousMeans(one, p);
    CollapseIsSound(cs);
    var i, j :| 0 <= i < j < |one| && Share(one[i], one[j], p);
    assert one[i] in multiset(one) && one[j] in multiset(one);
    assert one[i] in cs && one[j] in cs;
  }

  lemma {:induction false} NoneOffers(bindings: seq<Route>, protocol: string)
    ensures ForProtocol(bindings, protocol) == [] <==> forall c :: c in bindings ==> !Offers(c, protocol)
  {
    var cs := ForProtocol(bindings, protocol);
    ForProtocolIs(bindings, protocol);
    if cs != [] {
      assert cs[0] in cs;
    }
  }

  /** What a chain of a key with bindings is. */
  ghost predicate Describes(chain: Candidates, bindings: seq<Route>, protocol: string) {
    && !chain.pinned && chain.hops != []
    && chain.group == chain.hops[0].group && (chain.grouped <==> chain.hops[0].group != "")
    && Ordered(chain.hops) && Covers(chain.hops, bindings, protocol)
  }

  /** The answer to an unpinned request on a key with bindings.  There is a chain unless no binding
      offers the protocol, or two rows of one route group share the priority that is reported. */
  lemma {:induction false} UnpinnedMeans(r: RouteSet, protocol: string)
    requires r.bindings != []
    ensures var res := ChainOf(Some(r), None, protocol);
            && (res.NoBinding? <==> forall c :: c in r.bindings ==> !Offers(c, protocol))
            && (res.Ok? ==> Describes(res.chain, r.bindings, protocol))
            && (res.Ambiguous? ==>
                  exists a, b :: a in r.bindings && b in r.bindings && Offers(a, protocol) && Offers(b, protocol)
                                 && Share(a, b, res.priority))
            && !res.NoRoute?
  {
    var res := Whole(r, protocol);
    NoneOffers(r.bindings, protocol);
    UnpinnedChain(r, protocol);
    if res.Ok? {
      WellFormedCovers(res.chain.hops, r.bindings, protocol);
    } else if res.Ambiguous? {
      ClashOfBindings(r.bindings, protocol, res.priority);
    }
  }

  // ---------------------------------------------------------------------------------------
  // Which row of a pool stands for it.
  // ---------------------------------------------------------------------------------------

  /** Row i of the pool is the first of the best ones. */
  predicate FirstBest(cs: seq<Route>, i: int)
    requires 0 <= i < |cs|
  {
    && (forall j :: 0 <= j < i && cs[j].pool == cs[i].pool ==> Rank(cs[j]) < Rank(cs[i]))
    && (forall j :: i < j < |cs| && cs[j].pool == cs[i].pool ==> Rank(cs[j]) <= Rank(cs[i]))
  }

  ghost predicate AllFirstBest(cs: seq<Route>) {
    forall h :: h in Collapsed(cs) && h.pool != "" ==> exists i :: 0 <= i < |cs| && cs[i] == h && FirstBest(cs, i)
  }

  /** Among rows of a pool that are equally serviceable the first one stays. */
  lemma {:induction false} PoolKeepsFirstBest(cs: seq<Route>)
    ensures AllFirstBest(cs)
    decreases |cs|
  {
    if cs == [] {
    } else {
      var (init, c) := (cs[..|cs| - 1], cs[|cs| - 1]);
      PoolKeepsFirstBest(init);
      CollapseIsSound(init);
      forall h | h in Collapsed(cs) && h.pool != ""
        ensures exists i :: 0 <= i < |cs| && cs[i] == h && FirstBest(cs, i)
      {
        JoinedFirstBest(cs, h);
      }
    }
  }

  lemma {:induction false} JoinedFirstBest(cs: seq<Route>, h: Route)
    requires cs != [] && AllFirstBest(cs[..|cs| - 1]) && h in Collapsed(cs) && h.pool != ""
    requires UniquePools(Collapsed(cs[..|cs| - 1])) && Best(Collapsed(cs[..|cs| - 1]), cs[..|cs| - 1])
    ensures exists i :: 0 <= i < |cs| && cs[i] == h && FirstBest(cs, i)
  {
    var (n, init, c) := (|cs| - 1, cs[..|cs| - 1], cs[|cs| - 1]);
    var o := Collapsed(init);
    if h in o && (c.pool != h.pool || Rank(c) <= Rank(h)) {
      var i :| 0 <= i < |init| && init[i] == h && FirstBest(init, i);
      StillFirstBest(cs, i);
    } else {
      NewIsBest(o, c, h);
      forall j | 0 <= j < n && cs[j].pool == c.pool ensures Rank(cs[j]) < Rank(c) {
        assert init[j] == cs[j] && init[j] in init;
        OldIsWorse(o, init, c, cs[j]);
      }
      assert FirstBest(cs, n);
    }
  }

  lemma {:induction false} StillFirstBest(cs: seq<Route>, i: int)
    requires cs != [] && 0 <= i < |cs| - 1 && FirstBest(cs[..|cs| - 1], i)
    requires cs[|cs| - 1].pool == cs[i].pool ==> Rank(cs[|cs| - 1]) <= Rank(cs[i])
    ensures FirstBest(cs, i)
  {
    var init := cs[..|cs| - 1];
    assert forall j :: 0 <= j < |init| ==> init[j] == cs[j];
  }

  lemma {:induction false} NewIsBest(o: seq<Route>, c: Route, h: Route)
    requires UniquePools(o) && h in Joined(o, c) && h.pool != ""
    requires !(h in o && (c.pool != h.pool || Rank(c) <= Rank(h)))
    ensures h == c && forall i :: 0 <= i < |o| && o[i].pool == c.pool ==> Rank(o[i]) < Rank(c)
  {
    var k := Spot(o, c.pool);
    assert k < |o| ==> forall j :: 0 <= j < |o| && j != k ==> o[j].pool != c.pool || c.pool == "";
  }

  lemma {:induction false} OldIsWorse(o: seq<Route>, init: seq<Route>, c: Route, x: Route)
    requires Best(o, init) && x in init && x.pool == c.pool != ""
    requires forall i :: 0 <= i < |o| && o[i].pool == c.pool ==> Rank(o[i]) < Rank(c)
    ensures Rank(x) < Rank(c)
  {
    assert Stands(o, x);
  }

  // ---------------------------------------------------------------------------------------
  // When a pin restricts the key.
  // ---------------------------------------------------------------------------------------

  /** The binding is the one a pin names. */
  predicate Fits(pin: Pin, c: Route) {
    SameLetters(c.provider, pin.provider) && (pin.protocol == "" || SameLetters(c.protocol, pin.protocol))
  }

  predicate FirstFit(bindings: seq<Route>, pin: Pin, i: int) {
    0 <= i < |bindings| && Fits(pin, bindings[i]) && forall j :: 0 <= j < i ==> !Fits(pin, bindings[j])
  }

  lemma {:induction false} FitsIff(pin: Pin, c: Route)
    ensures Matches(pin, c) <==> Fits(pin, c)
  {
    FoldIff(c.provider, pin.provider);
    FoldIff(c.protocol, pin.protocol);
  }

  lemma {:induction false} FirstMatchIs(bindings: seq<Route>, pin: Pin, i: int)
    requires FirstFit(bindings, pin, i)
    ensures FirstMatch(pin, bindings) == Some(bindings[i])
    decreases i
  {
    FitsIff(pin, bindings[0]);
    if i > 0 {
      assert forall j :: 0 <= j < |bindings| - 1 ==> bindings[1..][j] == bindings[j + 1];
      FirstMatchIs(bindings[1..], pin, i - 1);
    }
  }

  lemma {:induction false} SomeFirstFit(bindings: seq<Route>, pin: Pin)
    requires FirstMatch(pin, bindings).Some?
    ensures exists i :: FirstFit(bindings, pin, i)
    decreases |bindings|
  {
    FitsIff(pin, bindings[0]);
    if Matches(pin, bindings[0]) {
      assert FirstFit(bindings, pin, 0);
    } else {
      SomeFirstFit(bindings[1..], pin);
      var i :| FirstFit(bindings[1..], pin, i);
      assert forall j :: 0 < j < |bindings| ==> bindings[j] == bindings[1..][j - 1];
      assert FirstFit(bindings, pin, i + 1);
    }
  }

  /** A pin is for the key itself, and names a member of a route group, or no group at all and a first
      fit that is in none. */
  ghost predicate Restricts(pin: Pin, r: RouteSet, i: int) {
    && (pin.source == "team" || pin.source == "managed_virtual_key") && pin.ref == r.own.vk
    && FirstFit(r.bindings, pin, i)
    && if pin.group == "" then r.bindings[i].group == "" else pin.provider != ""
  }

  /** A key with bindings is restricted exactly then, and to the first binding the pin fits. */
  lemma {:induction false} PinnedIff(r: RouteSet, pin: Pin, protocol: string)
    requires r.bindings != []
    ensures var res := ChainOf(Some(r), Some(pin), protocol);
            && (res.Ok? && res.chain.pinned <==> exists i :: Restricts(pin, r, i))
            && forall i :: Restricts(pin, r, i) ==> res.Ok? && res.chain.hops == [r.bindings[i]]
  {
    UnpinnedChain(r, protocol);
    if i :| FirstFit(r.bindings, pin, i) {
      FirstMatchIs(r.bindings, pin, i);
      forall j | FirstFit(r.bindings, pin, j) ensures j == i {}
      assert PinnedHop(r, Some(pin)).Some? <==> Restricts(pin, r, i);
    } else if FirstMatch(pin, r.bindings).Some? {
      SomeFirstFit(r.bindings, pin);
    }
  }

  /** A key without bindings is its own single hop, pinned or not, and an unknown key has none. */
  lemma {:induction false} OwnHop(r: RouteSet, pin: Option<Pin>, protocol: string)
    requires r.bindings == []
    ensures ChainOf(Some(r), pin, protocol) == Ok(Candidates([r.own], false, r.own.group != "", r.own.group))
    ensures ChainOf(None, pin, protocol) == NoRoute
  {}

  /** A request may try a second upstream exactly when no pin restricts the key, the chain has a second
      hop and its first one is in a route group. */
  lemma {:induction false} FailoverIff(r: RouteSet, pin: Pin, protocol: string)
    requires r.bindings != [] && ChainOf(Some(r), Some(pin), protocol).Ok?
    ensures var chain := ChainOf(Some(r), Some(pin), protocol).chain;
            CanFailover(chain) <==>
              (forall i :: !Restricts(pin, r, i)) && |chain.hops| > 1 && chain.hops[0].group != ""
  {
    PinnedIff(r, pin, protocol);
    PinOnlyRestricts(r, Some(pin), protocol);
    UnpinnedMeans(r, protocol);
  }

  /** What a hop is known by: its binding id, or else its virtual key and credential, if there is one. */
  lemma {:induction false} HopKeyIs(c: Route)
    ensures c.binding != "" ==> HopKey(Some(c)) == c.binding
    ensures c.binding == "" ==> (HopKey(Some(c)) == "" <==> c.vk == "" && c.credential == "")
    ensures c.binding == "" && HopKey(Some(c)) != "" ==> HopKey(Some(c)) == c.vk + "|" + c.credential
    ensures HopKey(None) == ""
  {}
}
