/** Candidate selection for a managed token (`internal/proxy/candidate_chain.go`, `pin_scope.go`). */
module Chain {
  import opened Common

  /** A resolved binding.  `accounts` is the number of accounts its pool row decodes to. */
  datatype Route = Route(
    vk: string, binding: string, credential: string, provider: string, protocol: string,
    group: string, priority: int, pool: string, accounts: nat)

  datatype RouteSet = RouteSet(own: Route, bindings: seq<Route>)

  datatype Pin = Pin(source: string, ref: string, group: string, provider: string, protocol: string)

  datatype Candidates = Candidates(hops: seq<Route>, pinned: bool, grouped: bool, group: string)

  datatype Result = Ok(chain: Candidates) | NoRoute | NoBinding | Ambiguous(priority: int)

  // ---------------------------------------------------------------------------------------
  // Case-insensitive codes.
  // ---------------------------------------------------------------------------------------

  function Lower(c: char): char { if 'A' <= c <= 'Z' then (c as int + 32) as char else c }

  function Folded(s: string): (r: string)
    ensures |r| == |s|
    decreases |s|
  {
    if s == "" then "" else [Lower(s[0])] + Folded(s[1..])
  }

  predicate EqualFold(a: string, b: string) { Folded(a) == Folded(b) }

  // ---------------------------------------------------------------------------------------
  // Account pools collapse to one hop.
  // ---------------------------------------------------------------------------------------

  function Rank(r: Route): int {
    (if r.provider != "" then 1 else 0) + (if r.accounts > 0 then 1 else 0)
  }

  /** Where a pool's row is, or the length when there is none. */
  function Spot(o: seq<Route>, pool: string): (k: int)
    ensures 0 <= k <= |o|
    ensures k < |o| ==> o[k].pool == pool
    ensures k == |o| ==> forall i :: 0 <= i < |o| ==> o[i].pool != pool
    decreases |o|
  {
    if o == [] then 0
    else if o[|o| - 1].pool == pool then |o| - 1
    else
      var k := Spot(o[..|o| - 1], pool);
      if k == |o| - 1 then
        assert forall i :: 0 <= i < |o| - 1 ==> o[..|o| - 1][i] == o[i];
        |o|
      else k
  }

  function Joined(o: seq<Route>, c: Route): seq<Route> {
    var k := Spot(o, c.pool);
    if c.pool == "" || k == |o| then o + [c]
    else if Rank(c) > Rank(o[k]) then o[k := c]
    else o
  }

  function Collapsed(cs: seq<Route>): seq<Route>
    decreases |cs|
  {
    if cs == [] then [] else Joined(Collapsed(cs[..|cs| - 1]), cs[|cs| - 1])
  }

  ghost predicate Indexed(best: map<string, int>, o: seq<Route>) {
    && (forall p :: p in best ==> 0 <= best[p] < |o| && o[best[p]].pool == p)
    && (forall i :: 0 <= i < |o| && o[i].pool != "" ==> o[i].pool in best && best[o[i].pool] == i)
  }

  lemma {:induction false} IndexIsSpot(best: map<string, int>, o: seq<Route>, pool: string)
    requires Indexed(best, o) && pool != ""
    ensures pool in best <==> Spot(o, pool) < |o|
    ensures pool in best ==> best[pool] == Spot(o, pool)
  {}

  lemma {:induction false} IndexedAppend(best: map<string, int>, o: seq<Route>, c: Route)
    requires Indexed(best, o) && (c.pool == "" || c.pool !in best)
    ensures Indexed(if c.pool == "" then best else best[c.pool := |o|], o + [c])
  {}

  lemma {:induction false} IndexedUpdate(best: map<string, int>, o: seq<Route>, c: Route)
    requires Indexed(best, o) && c.pool != "" && c.pool in best
    ensures Indexed(best, o[best[c.pool] := c])
  {}

  lemma {:induction false} OneMoreJoined(cs: seq<Route>, i: int)
    requires 0 <= i < |cs|
    ensures Collapsed(cs[..i + 1]) == Joined(Collapsed(cs[..i]), cs[i])
  {
    assert cs[..i + 1][..i] == cs[..i];
  }

  /** One candidate: `best` says where each pool's row is. */
  method Join(best: map<string, int>, out: seq<Route>, c: Route) returns (best': map<string, int>, out': seq<Route>)
    requires Indexed(best, out)
    ensures out' == Joined(out, c) && Indexed(best', out')
  {
    best', out' := best, out;
    if c.pool == "" {
      IndexedAppend(best, out, c);
      out' := out + [c];
      return;
    }
    IndexIsSpot(best, out, c.pool);
    if c.pool !in best {
      IndexedAppend(best, out, c);
      best', out' := best[c.pool := |out|], out + [c];
    } else if Rank(c) > Rank(out[best[c.pool]]) {
      IndexedUpdate(best, out, c);
      out' := out[best[c.pool] := c];
    }
  }

  method CollapseOauthGroups(cs: seq<Route>) returns (out: seq<Route>)
    ensures out == Collapsed(cs)
  {
    var best: map<string, int> := map[];
    out := [];
    var i := 0;
    while i < |cs|
      invariant 0 <= i <= |cs|
      invariant out == Collapsed(cs[..i]) && Indexed(best, out)
    {
      OneMoreJoined(cs, i);
      best, out := Join(best, out, cs[i]);
      i := i + 1;
    }
    assert cs[..i] == cs;
  }

  predicate UniquePools(o: seq<Route>) {
    forall i, j :: 0 <= i < j < |o| && o[i].pool != "" ==> o[i].pool != o[j].pool
  }

  /** Some row of `o` stands for the pool of `c` and is at least as serviceable. */
  predicate Stands(o: seq<Route>, c: Route) {
    exists i :: 0 <= i < |o| && o[i].pool == c.pool && Rank(o[i]) >= Rank(c)
  }

  ghost predicate Best(o: seq<Route>, cs: seq<Route>) {
    forall c :: c in cs && c.pool != "" ==> Stands(o, c)
  }

  function Unpooled(s: seq<Route>): seq<Route>
    decreases |s|
  {
    if s == [] then []
    else Unpooled(s[..|s| - 1]) + if s[|s| - 1].pool == "" then [s[|s| - 1]] else []
  }

  lemma {:induction false} JoinedKeepsPoolsUnique(o: seq<Route>, c: Route)
    requires UniquePools(o)
    ensures UniquePools(Joined(o, c))
  {}

  lemma {:induction false} JoinedStands(o: seq<Route>, c: Route, x: Route)
    requires x.pool != "" && (Stands(o, x) || x == c)
    ensures Stands(Joined(o, c), x)
  {
    var t := Joined(o, c);
    if Stands(o, x) {
      var i :| 0 <= i < |o| && o[i].pool == x.pool && Rank(o[i]) >= Rank(x);
      assert t[i].pool == x.pool && Rank(t[i]) >= Rank(x);
    } else {
      var k := Spot(o, c.pool);
      assert t[k].pool == x.pool && Rank(t[k]) >= Rank(x);
    }
  }

  lemma {:induction false} UnpooledAfter(s: seq<Route>, c: Route)
    ensures Unpooled(s + [c]) == Unpooled(s) + if c.pool == "" then [c] else []
  {
    assert (s + [c])[..|s|] == s;
  }

  lemma {:induction false} UnpooledUpdate(s: seq<Route>, k: int, c: Route)
    requires 0 <= k < |s| && s[k].pool != "" && c.pool != ""
    ensures Unpooled(s[k := c]) == Unpooled(s)
    decreases |s|
  {
    var t := s[k := c];
    if k < |s| - 1 {
      assert t[..|t| - 1] == s[..|s| - 1][k := c];
      UnpooledUpdate(s[..|s| - 1], k, c);
    } else {
      assert t[..|t| - 1] == s[..|s| - 1];
    }
  }

  lemma {:induction false} JoinedUnpooled(o: seq<Route>, c: Route)
    ensures Unpooled(Joined(o, c)) == Unpooled(o) + if c.pool == "" then [c] else []
  {
    UnpooledAfter(o, c);
    var k := Spot(o, c.pool);
    if c.pool != "" && k < |o| {
      UnpooledUpdate(o, k, c);
    }
  }

  lemma {:induction false} JoinedFrom(o: seq<Route>, c: Route)
    ensures multiset(Joined(o, c)) <= multiset(o) + multiset{c}
    ensures Joined(o, c) != []
  {
    var k := Spot(o, c.pool);
    assert multiset(o + [c]) == multiset(o) + multiset{c};
    if k < |o| {
      assert multiset(o[k := c]) == multiset(o) - multiset{o[k]} + multiset{c};
    }
  }

  lemma {:induction false} CollapseKeepsBest(cs: seq<Route>)
    ensures Best(Collapsed(cs), cs)
    decreases |cs|
  {
    if cs == [] {
    } else {
      var (init, c) := (cs[..|cs| - 1], cs[|cs| - 1]);
      CollapseKeepsBest(init);
      forall x | x in cs && x.pool != "" ensures Stands(Collapsed(cs), x) {
        assert cs == init + [c];
        JoinedStands(Collapsed(init), c, x);
      }
    }
  }

  lemma {:induction false} AddToBoth(x: multiset<Route>, m: multiset<Route>, n: multiset<Route>, c: Route)
    requires m <= n && x <= m + multiset{c}
    ensures x <= n + multiset{c}
  {}

  lemma {:induction false} LastIsOneMore(cs: seq<Route>)
    requires cs != []
    ensures multiset(cs) == multiset(cs[..|cs| - 1]) + multiset{cs[|cs| - 1]}
  {
    assert cs == cs[..|cs| - 1] + [cs[|cs| - 1]];
  }

  lemma {:induction false} CollapseInventsNothing(cs: seq<Route>)
    ensures multiset(Collapsed(cs)) <= multiset(cs)
    decreases |cs|
  {
    if cs == [] {
      assert Collapsed(cs) == [];
    } else {
      var (init, c) := (cs[..|cs| - 1], cs[|cs| - 1]);
      CollapseInventsNothing(init);
      JoinedFrom(Collapsed(init), c);
      AddToBoth(multiset(Collapsed(cs)), multiset(Collapsed(init)), multiset(init), c);
      LastIsOneMore(cs);
    }
  }

  lemma {:induction false} CollapseKeepsTheRest(cs: seq<Route>)
    ensures UniquePools(Collapsed(cs)) && Unpooled(Collapsed(cs)) == Unpooled(cs)
    ensures cs != [] ==> Collapsed(cs) != []
    decreases |cs|
  {
    if cs == [] {
    } else {
      var (init, c) := (cs[..|cs| - 1], cs[|cs| - 1]);
      CollapseKeepsTheRest(init);
      JoinedKeepsPoolsUnique(Collapsed(init), c);
      JoinedUnpooled(Collapsed(init), c);
      JoinedFrom(Collapsed(init), c);
    }
  }

  /** Collapsing keeps one row per pool, a row of maximal rank, and every row without a pool, in
      order; it invents nothing. */
  lemma {:induction false} CollapseIsSound(cs: seq<Route>)
    ensures UniquePools(Collapsed(cs)) && Best(Collapsed(cs), cs)
    ensures Unpooled(Collapsed(cs)) == Unpooled(cs)
    ensures multiset(Collapsed(cs)) <= multiset(cs)
    ensures cs != [] ==> Collapsed(cs) != []
  {
    CollapseKeepsBest(cs);
    CollapseInventsNothing(cs);
    CollapseKeepsTheRest(cs);
  }

  // ---------------------------------------------------------------------------------------
  // Ambiguous priorities.
  // ---------------------------------------------------------------------------------------

  predicate Clash(a: Route, b: Route) { a.group != "" && a.group == b.group && a.priority == b.priority }

  ghost predicate Clashes(cs: seq<Route>) {
    exists i, j :: 0 <= i < j < |cs| && Clash(cs[i], cs[j])
  }

  predicate Repeats(cs: seq<Route>, c: Route) { exists i :: 0 <= i < |cs| && Clash(cs[i], c) }

  /** The priority of the first member that repeats one of its own group. */
  function FirstClash(cs: seq<Route>): Option<int>
    decreases |cs|
  {
    if cs == [] then None
    else
      var before := FirstClash(cs[..|cs| - 1]);
      if before.Some? then before
      else if Repeats(cs[..|cs| - 1], cs[|cs| - 1]) then Some(cs[|cs| - 1].priority)
      else None
  }

  lemma {:induction false} FirstClashIff(cs: seq<Route>)
    ensures FirstClash(cs).Some? <==> Clashes(cs)
    decreases |cs|
  {
    if cs == [] {
    } else {
      var n := |cs| - 1;
      FirstClashIff(cs[..n]);
      if Clashes(cs[..n]) {
        var i, j :| 0 <= i < j < n && Clash(cs[..n][i], cs[..n][j]);
        assert Clash(cs[i], cs[j]);
      } else if Repeats(cs[..n], cs[n]) {
        var i :| 0 <= i < n && Clash(cs[..n][i], cs[n]);
        assert Clash(cs[i], cs[n]);
      } else {
        forall i, j | 0 <= i < j < |cs| ensures !Clash(cs[i], cs[j]) {
          assert cs[..n][i] == cs[i];
          if j < n {
            assert cs[..n][j] == cs[j];
          }
        }
      }
    }
  }

  lemma {:induction false} FirstClashStays(cs: seq<Route>, i: nat)
    requires i <= |cs| && FirstClash(cs[..i]).Some?
    ensures FirstClash(cs) == FirstClash(cs[..i])
    decreases |cs|
  {
    if i == |cs| {
      assert cs[..i] == cs;
    } else {
      assert cs[..|cs| - 1][..i] == cs[..i];
      FirstClashStays(cs[..|cs| - 1], i);
    }
  }

  /** The set holds exactly the places taken in some route group. */
  ghost predicate Noted(seen: set<(string, int)>, cs: seq<Route>) {
    && (forall k :: 0 <= k < |cs| && cs[k].group != "" ==> (cs[k].group, cs[k].priority) in seen)
    && (forall s :: s in seen ==> s.0 != "" && Taken(cs, s))
  }

  ghost predicate Taken(cs: seq<Route>, s: (string, int)) {
    exists k :: 0 <= k < |cs| && cs[k].group == s.0 && cs[k].priority == s.1
  }

  lemma {:induction false} NotedRepeats(seen: set<(string, int)>, cs: seq<Route>, c: Route)
    requires Noted(seen, cs)
    ensures Repeats(cs, c) <==> c.group != "" && (c.group, c.priority) in seen
  {
    if c.group != "" && (c.group, c.priority) in seen {
      assert Taken(cs, (c.group, c.priority));
      var k :| 0 <= k < |cs| && cs[k].group == c.group && cs[k].priority == c.priority;
      assert Clash(cs[k], c);
    }
  }

  lemma {:induction false} NotedOneMore(seen: set<(string, int)>, cs: seq<Route>, c: Route)
    requires Noted(seen, cs) && c.group != ""
    ensures Noted(seen + {(c.group, c.priority)}, cs + [c])
  {
    forall s | s in seen + {(c.group, c.priority)} ensures Taken(cs + [c], s) {
      if s in seen {
        assert Taken(cs, s);
        var k :| 0 <= k < |cs| && cs[k].group == s.0 && cs[k].priority == s.1;
        assert (cs + [c])[k] == cs[k];
      } else {
        assert (cs + [c])[|cs|] == c;
      }
    }
  }

  lemma {:induction false} UngroupedIsNotNoted(seen: set<(string, int)>, cs: seq<Route>, c: Route)
    requires Noted(seen, cs) && c.group == ""
    ensures Noted(seen, cs + [c])
  {
    forall s | s in seen ensures Taken(cs + [c], s) {
      assert Taken(cs, s);
      var k :| 0 <= k < |cs| && cs[k].group == s.0 && cs[k].priority == s.1;
      assert (cs + [c])[k] == cs[k];
    }
  }

  lemma {:induction false} ClashOneMore(cs: seq<Route>, c: Route)
    ensures FirstClash(cs) == None ==> FirstClash(cs + [c]) == if Repeats(cs, c) then Some(c.priority) else None
  {
    assert (cs + [c])[..|cs|] == cs;
  }

  method DuplicatePriority(cs: seq<Route>) returns (priority: int, ambiguous: bool)
    ensures ambiguous <==> Clashes(cs)
    ensures ambiguous ==> FirstClash(cs) == Some(priority)
  {
    FirstClashIff(cs);
    priority, ambiguous := 0, false;
    if |cs| < 2 {
      return;
    }
    var seen: set<(string, int)> := {};
    var i := 0;
    while i < |cs|
      invariant 0 <= i <= |cs|
      invariant Noted(seen, cs[..i])
      invariant FirstClash(cs[..i]) == None
    {
      var c := cs[i];
      assert cs[..i + 1] == cs[..i] + [c];
      NotedRepeats(seen, cs[..i], c);
      ClashOneMore(cs[..i], c);
      if c.group != "" {
        if (c.group, c.priority) in seen {
          FirstClashStays(cs, i + 1);
          return c.priority, true;
        }
        NotedOneMore(seen, cs[..i], c);
        seen := seen + {(c.group, c.priority)};
      } else {
        UngroupedIsNotNoted(seen, cs[..i], c);
      }
      i := i + 1;
    }
    assert cs[..i] == cs;
  }

  // ---------------------------------------------------------------------------------------
  // The administrator's order.
  // ---------------------------------------------------------------------------------------

  predicate Sorted(s: seq<Route>) { forall i, j :: 0 <= i < j < |s| ==> s[i].priority <= s[j].priority }

  function Insert(s: seq<Route>, c: Route): (r: seq<Route>)
    ensures |r| == |s| + 1
    decreases |s|
  {
    if s == [] || s[|s| - 1].priority <= c.priority then s + [c]
    else Insert(s[..|s| - 1], c) + [s[|s| - 1]]
  }

  /** `sort.SliceStable` by priority. */
  function StableSort(s: seq<Route>): (r: seq<Route>)
    ensures |r| == |s|
    decreases |s|
  {
    if s == [] then [] else Insert(StableSort(s[..|s| - 1]), s[|s| - 1])
  }

  function WithPriority(s: seq<Route>, p: int): seq<Route>
    decreases |s|
  {
    if s == [] then []
    else WithPriority(s[..|s| - 1], p) + if s[|s| - 1].priority == p then [s[|s| - 1]] else []
  }

  lemma {:induction false} WithPriorityAfter(s: seq<Route>, c: Route, p: int)
    ensures WithPriority(s + [c], p) == WithPriority(s, p) + if c.priority == p then [c] else []
  {
    assert (s + [c])[..|s|] == s;
  }

  lemma {:induction false} InsertPermutes(s: seq<Route>, c: Route)
    ensures multiset(Insert(s, c)) == multiset(s) + multiset{c}
    decreases |s|
  {
    if s != [] && s[|s| - 1].priority > c.priority {
      InsertPermutes(s[..|s| - 1], c);
      assert s == s[..|s| - 1] + [s[|s| - 1]];
    }
  }

  lemma {:induction false} InsertSorts(s: seq<Route>, c: Route)
    requires Sorted(s)
    ensures Sorted(Insert(s, c))
    ensures s != [] && s[|s| - 1].priority > c.priority ==> Insert(s, c)[|s|] == s[|s| - 1]
    ensures Insert(s, c)[|s|] == c || (s != [] && Insert(s, c)[|s|] == s[|s| - 1])
    decreases |s|
  {
    if s != [] && s[|s| - 1].priority > c.priority {
      InsertSorts(s[..|s| - 1], c);
    }
  }

  lemma {:induction false} InsertIsStable(s: seq<Route>, c: Route, p: int)
    ensures WithPriority(Insert(s, c), p) == WithPriority(s, p) + if c.priority == p then [c] else []
    decreases |s|
  {
    if s == [] || s[|s| - 1].priority <= c.priority {
      WithPriorityAfter(s, c, p);
    } else {
      InsertIsStable(s[..|s| - 1], c, p);
      WithPriorityAfter(Insert(s[..|s| - 1], c), s[|s| - 1], p);
    }
  }

  lemma {:induction false} SortIsSorted(s: seq<Route>)
    ensures Sorted(StableSort(s))
    decreases |s|
  {
    if s == [] {
    } else {
      SortIsSorted(s[..|s| - 1]);
      InsertSorts(StableSort(s[..|s| - 1]), s[|s| - 1]);
    }
  }

  lemma {:induction false} SortPermutes(s: seq<Route>)
    ensures multiset(StableSort(s)) == multiset(s)
    decreases |s|
  {
    if s == [] {
    } else {
      SortPermutes(s[..|s| - 1]);
      InsertPermutes(StableSort(s[..|s| - 1]), s[|s| - 1]);
      LastIsOneMore(s);
    }
  }

  lemma {:induction false} SortIsStable(s: seq<Route>, p: int)
    ensures WithPriority(StableSort(s), p) == WithPriority(s, p)
    decreases |s|
  {
    if s == [] {
    } else {
      SortIsStable(s[..|s| - 1], p);
      InsertIsStable(StableSort(s[..|s| - 1]), s[|s| - 1], p);
    }
  }

  /** Sorted, a permutation, and members of equal priority in their old order. */
  lemma {:induction false} StableSortSorts(s: seq<Route>)
    ensures Sorted(StableSort(s)) && multiset(StableSort(s)) == multiset(s)
    ensures forall p :: WithPriority(StableSort(s), p) == WithPriority(s, p)
  {
    SortIsSorted(s);
    SortPermutes(s);
    forall p ensures WithPriority(StableSort(s), p) == WithPriority(s, p) {
      SortIsStable(s, p);
    }
  }

  lemma {:induction false} PriorityPresent(s: seq<Route>, p: int)
    ensures WithPriority(s, p) != [] ==> exists i :: 0 <= i < |s| && s[i].priority == p
    decreases |s|
  {
    if s != [] && s[|s| - 1].priority != p {
      PriorityPresent(s[..|s| - 1], p);
      if WithPriority(s[..|s| - 1], p) != [] {
        var i :| 0 <= i < |s| - 1 && s[..|s| - 1][i].priority == p;
        assert s[i].priority == p;
      }
    }
  }

  lemma {:induction false} LastOfPriority(s: seq<Route>)
    ensures s != [] ==> var w := WithPriority(s, s[|s| - 1].priority); w != [] && w[|w| - 1] == s[|s| - 1]
  {}

  lemma {:induction false} InitsAgree(a: seq<Route>, b: seq<Route>, p: int)
    requires a != [] && b != [] && a[|a| - 1] == b[|b| - 1]
    requires WithPriority(a, p) == WithPriority(b, p)
    ensures WithPriority(a[..|a| - 1], p) == WithPriority(b[..|b| - 1], p)
  {
    if a[|a| - 1].priority == p {
      var (wa, wb) := (WithPriority(a, p), WithPriority(b, p));
      assert wa[..|wa| - 1] == WithPriority(a[..|a| - 1], p);
      assert wb[..|wb| - 1] == WithPriority(b[..|b| - 1], p);
    } else {
      assert WithPriority(a, p) == WithPriority(a[..|a| - 1], p);
      assert WithPriority(b, p) == WithPriority(b[..|b| - 1], p);
    }
  }

  /** Those three facts leave one order only, so any stable sort gives this chain. */
  lemma {:induction false} StableOrderIsUnique(a: seq<Route>, b: seq<Route>)
    requires Sorted(a) && Sorted(b) && forall p :: WithPriority(a, p) == WithPriority(b, p)
    ensures a == b
    decreases |a|
  {
    if a == [] {
      LastOfPriority(b);
    } else {
      var x := a[|a| - 1];
      assert WithPriority(a, x.priority) != [];
      PriorityPresent(b, x.priority);
      var y := b[|b| - 1];
      assert WithPriority(b, y.priority) != [];
      PriorityPresent(a, y.priority);
      assert x.priority == y.priority;
      LastOfPriority(a);
      LastOfPriority(b);
      var (ai, bi) := (a[..|a| - 1], b[..|b| - 1]);
      forall p ensures WithPriority(ai, p) == WithPriority(bi, p) {
        InitsAgree(a, b, p);
      }
      StableOrderIsUnique(ai, bi);
      assert a == ai + [x] && b == bi + [y];
    }
  }

  // ---------------------------------------------------------------------------------------
  // The chain.
  // ---------------------------------------------------------------------------------------

  datatype PinScope = Legacy | Group | Member

  function DerivePinScope(group: string, provider: string): PinScope {
    if group == "" then Legacy else if provider == "" then Group else Member
  }

  predicate Matches(pin: Pin, c: Route) {
    EqualFold(c.provider, pin.provider) && (pin.protocol == "" || EqualFold(c.protocol, pin.protocol))
  }

  function FirstMatch(pin: Pin, cs: seq<Route>): (m: Option<Route>)
    ensures m.Some? ==> m.value in cs && Matches(pin, m.value)
    ensures m.None? ==> forall c :: c in cs ==> !Matches(pin, c)
    decreases |cs|
  {
    if cs == [] then None else if Matches(pin, cs[0]) then Some(cs[0]) else FirstMatch(pin, cs[1..])
  }

  /** The pin row is for this very key. */
  predicate Applies(pin: Option<Pin>, r: RouteSet) {
    pin.Some? && (pin.value.source == "team" || pin.value.source == "managed_virtual_key") && pin.value.ref == r.own.vk
  }

  /** The one hop a pin restricts the key to, if it restricts it at all. */
  function PinnedHop(r: RouteSet, pin: Option<Pin>): (hop: Option<Route>)
    ensures hop.Some? ==> pin.Some? && hop.value in r.bindings && Matches(pin.value, hop.value)
  {
    if !Applies(pin, r) then None
    else
      var hop := FirstMatch(pin.value, r.bindings);
      match DerivePinScope(pin.value.group, pin.value.provider)
      case Member => hop
      case Legacy => if hop.Some? && hop.value.group == "" then hop else None
      case Group => None
  }

  predicate Serves(c: Route, protocol: string) { protocol == "" || EqualFold(c.protocol, protocol) }

  function ForProtocol(cs: seq<Route>, protocol: string): (r: seq<Route>)
    ensures forall c :: c in r <==> c in cs && Serves(c, protocol)
    decreases |cs|
  {
    if cs == [] then []
    else
      var (init, c) := (ForProtocol(cs[..|cs| - 1], protocol), cs[|cs| - 1]);
      assert cs == cs[..|cs| - 1] + [c];
      if Serves(c, protocol) then init + [c] else init
  }

  function Whole(r: RouteSet, protocol: string): Result {
    var cs := ForProtocol(r.bindings, protocol);
    var one := Collapsed(cs);
    if cs == [] then NoBinding
    else if FirstClash(one).Some? then Ambiguous(FirstClash(one).value)
    else
      var hops := StableSort(one);
      if hops == [] then NoBinding else Ok(Candidates(hops, false, hops[0].group != "", hops[0].group))
  }

  function ChainOf(route: Option<RouteSet>, pin: Option<Pin>, protocol: string): Result {
    if route.None? then NoRoute
    else
      var r := route.value;
      if r.bindings == [] then Ok(Candidates([r.own], false, r.own.group != "", r.own.group))
      else
        var hop := PinnedHop(r, pin);
        if hop.Some? then Ok(Candidates([hop.value], true, hop.value.group != "", hop.value.group))
        else Whole(r, protocol)
  }

  method Match(pin: Pin, cs: seq<Route>) returns (m: Option<Route>)
    ensures m == FirstMatch(pin, cs)
  {
    var i := 0;
    while i < |cs|
      invariant 0 <= i <= |cs|
      invariant FirstMatch(pin, cs) == FirstMatch(pin, cs[i..])
    {
      if Matches(pin, cs[i]) {
        return Some(cs[i]);
      }
      i := i + 1;
    }
    return None;
  }

  /** `chainFrom`. */
  method ChainFrom(route: Option<RouteSet>, pin: Option<Pin>, protocol: string) returns (res: Result)
    ensures res == ChainOf(route, pin, protocol)
  {
    if route.None? {
      return NoRoute;
    }
    var r := route.value;
    if |r.bindings| == 0 {
      return Ok(Candidates([r.own], false, r.own.group != "", r.own.group));
    }
    if Applies(pin, r) {
      var scope := DerivePinScope(pin.value.group, pin.value.provider);
      if scope == Member {
        var m := Match(pin.value, r.bindings);
        if m.Some? {
          return Ok(Candidates([m.value], true, m.value.group != "", m.value.group));
        }
      } else if scope == Legacy {
        var m := Match(pin.value, r.bindings);
        if m.Some? && m.value.group == "" {
          return Ok(Candidates([m.value], true, false, ""));
        }
      }
    }
    res := BuildChain(r, protocol);
  }

  /** The unpinned chain. */
  method BuildChain(r: RouteSet, protocol: string) returns (res: Result)
    ensures res == Whole(r, protocol)
  {
    var cs: seq<Route> := [];
    var i := 0;
    while i < |r.bindings|
      invariant 0 <= i <= |r.bindings|
      invariant cs == ForProtocol(r.bindings[..i], protocol)
    {
      assert r.bindings[..i + 1][..i] == r.bindings[..i];
      if protocol == "" || EqualFold(r.bindings[i].protocol, protocol) {
        cs := cs + [r.bindings[i]];
      }
      i := i + 1;
    }
    assert r.bindings[..i] == r.bindings;
    if cs == [] {
      return NoBinding;
    }
    var one := CollapseOauthGroups(cs);
    CollapseIsSound(cs);
    var dup, ambiguous := DuplicatePriority(one);
    FirstClashIff(one);
    if ambiguous {
      return Ambiguous(dup);
    }
    var ordered := StableSort(one);
    res := Ok(Candidates(ordered, false, ordered[0].group != "", ordered[0].group));
  }

  // ---------------------------------------------------------------------------------------
  // What every chain is.
  // ---------------------------------------------------------------------------------------

  ghost predicate WellFormed(hops: seq<Route>, cs: seq<Route>) {
    && hops != [] && multiset(hops) <= multiset(cs)
    && Sorted(hops) && !Clashes(hops)
    && UniquePools(hops) && Best(hops, cs)
    && (forall c :: c in cs && c.pool == "" ==> c in hops)
    && (forall p :: WithPriority(hops, p) == WithPriority(Collapsed(cs), p))
  }

  lemma {:induction false} SameMultisetSameUniqueness(a: seq<Route>, b: seq<Route>)
    requires multiset(a) == multiset(b) && !Clashes(a) && UniquePools(a)
    ensures !Clashes(b) && UniquePools(b)
  {
    forall i, j | 0 <= i < j < |b| ensures !Clash(b[i], b[j]) && (b[i].pool != "" ==> b[i].pool != b[j].pool) {
      TwoOf(a, b, i, j);
      var k, l :| 0 <= k < l < |a| && ((a[k] == b[i] && a[l] == b[j]) || (a[k] == b[j] && a[l] == b[i]));
      assert !Clash(a[k], a[l]);
    }
  }

  /** Two places of a permutation come from two places. */
  lemma {:induction false} TwoOf(a: seq<Route>, b: seq<Route>, i: int, j: int)
    requires multiset(a) == multiset(b) && 0 <= i < j < |b|
    ensures exists k, l :: 0 <= k < l < |a| && ((a[k] == b[i] && a[l] == b[j]) || (a[k] == b[j] && a[l] == b[i]))
  {
    assert b[i] in multiset(a) && b[j] in multiset(a);
    if b[i] != b[j] {
      var k :| 0 <= k < |a| && a[k] == b[i];
      var l :| 0 <= l < |a| && a[l] == b[j];
      if k > l {
        assert a[l] == b[j] && a[k] == b[i];
      }
    } else {
      assert b == b[..j] + [b[j]] + b[j + 1..];
      assert b[i] in b[..j];
      assert multiset(b)[b[i]] >= 2;
      TwiceIn(a, b[i]);
    }
  }

  lemma {:induction false} TwiceIn(a: seq<Route>, x: Route)
    requires multiset(a)[x] >= 2
    ensures exists k, l :: 0 <= k < l < |a| && a[k] == x && a[l] == x
  {
    var l :| 0 <= l < |a| && a[l] == x;
    assert a == a[..l] + [a[l]] + a[l + 1..];
    if x in a[..l] {
      var k :| 0 <= k < l && a[..l][k] == x;
      assert a[k] == x;
    } else {
      assert x in a[l + 1..];
      var k :| 0 <= k < |a[l + 1..]| && a[l + 1..][k] == x;
      assert a[l + 1 + k] == x;
    }
  }

  lemma {:induction false} UnpooledMembers(s: seq<Route>)
    ensures forall c :: c in Unpooled(s) <==> c in s && c.pool == ""
    decreases |s|
  {
    if s == [] {
    } else {
      UnpooledMembers(s[..|s| - 1]);
      assert s == s[..|s| - 1] + [s[|s| - 1]];
    }
  }

  lemma {:induction false} BestMoves(a: seq<Route>, b: seq<Route>, cs: seq<Route>)
    requires Best(a, cs) && multiset(a) == multiset(b)
    ensures Best(b, cs)
  {
    forall c | c in cs && c.pool != "" ensures Stands(b, c) {
      var i :| 0 <= i < |a| && a[i].pool == c.pool && Rank(a[i]) >= Rank(c);
      assert a[i] in multiset(b);
      var k :| 0 <= k < |b| && b[k] == a[i];
    }
  }

  /** The unpinned chain, and exactly when there is none. */
  lemma {:induction false} UnpinnedChain(r: RouteSet, protocol: string)
    ensures var cs := ForProtocol(r.bindings, protocol);
            match Whole(r, protocol)
            case Ok(chain) => cs != [] && !Clashes(Collapsed(cs)) && WellFormed(chain.hops, cs) && !chain.pinned
            case NoBinding => cs == []
            case Ambiguous(_) => cs != [] && Clashes(Collapsed(cs))
            case NoRoute => false
  {
    var cs := ForProtocol(r.bindings, protocol);
    var one := Collapsed(cs);
    CollapseIsSound(cs);
    FirstClashIff(one);
    StableSortSorts(one);
    if cs != [] && !Clashes(one) {
      var hops := StableSort(one);
      SameMultisetSameUniqueness(one, hops);
      BestMoves(one, hops, cs);
      UnpooledMembers(one);
      UnpooledMembers(cs);
      forall c | c in cs && c.pool == "" ensures c in hops {
        assert c in Unpooled(cs);
        assert c in multiset(one);
      }
    }
  }

  lemma {:induction false} UnpinnedIsOwn(r: RouteSet, protocol: string)
    requires ChainOf(Some(r), None, protocol).Ok?
    ensures var hops := ChainOf(Some(r), None, protocol).chain.hops;
            hops != [] && forall h :: h in hops ==> h in r.bindings || (r.bindings == [] && h == r.own)
  {
    UnpinnedChain(r, protocol);
    var cs := ForProtocol(r.bindings, protocol);
    var hops := ChainOf(Some(r), None, protocol).chain.hops;
    forall h | h in hops && multiset(hops) <= multiset(cs) ensures h in cs {
      assert h in multiset(hops);
    }
  }

  /** Every chain is non-empty and made of the route's own bindings. */
  lemma {:induction false} ChainIsOwn(route: Option<RouteSet>, pin: Option<Pin>, protocol: string)
    requires ChainOf(route, pin, protocol).Ok?
    ensures var hops := ChainOf(route, pin, protocol).chain.hops;
            hops != [] && forall h :: h in hops ==>
              h in route.value.bindings || (route.value.bindings == [] && h == route.value.own)
  {
    PinOnlyRestricts(route.value, pin, protocol);
    if ChainOf(route, pin, protocol) == ChainOf(route, None, protocol) {
      UnpinnedIsOwn(route.value, protocol);
    }
  }

  /** A pin either leaves one matching hop or leaves the administrator's chain as it is: it never
      reorders, and it never turns a chain into an error. */
  lemma {:induction false} PinOnlyRestricts(r: RouteSet, pin: Option<Pin>, protocol: string)
    ensures var with := ChainOf(Some(r), pin, protocol);
            with == ChainOf(Some(r), None, protocol)
            || (with.Ok? && with.chain.pinned && |with.chain.hops| == 1 && pin.Some?
                && with.chain.hops[0] in r.bindings && Matches(pin.value, with.chain.hops[0]))
  {}

  /** A pin of one member is looked up over all of the key's bindings, whatever their group: the hop
      it leaves is sure to be in the pinned group if every binding that matches it is ... */
  lemma {:induction false} MemberPinStaysInGroup(r: RouteSet, pin: Pin, protocol: string)
    requires Applies(Some(pin), r) && DerivePinScope(pin.group, pin.provider) == Member
    requires (forall c :: c in r.bindings && Matches(pin, c) ==> c.group == pin.group)
    requires exists c :: c in r.bindings && Matches(pin, c)
    ensures ChainOf(Some(r), Some(pin), protocol).Ok?
    ensures ChainOf(Some(r), Some(pin), protocol).chain.group == pin.group
  {
    var hop := FirstMatch(pin, r.bindings);
    assert hop.Some?;
  }

  /** ... and only then: a match outside the group takes the pin as soon as it is listed first. */
  lemma {:induction false} MemberPinLeavesGroup(own: Route, a: seq<Route>, other: Route, b: seq<Route>, pin: Pin,
                                                protocol: string)
    requires Applies(Some(pin), RouteSet(own, a + [other] + b))
    requires DerivePinScope(pin.group, pin.provider) == Member
    requires Matches(pin, other) && other.group != pin.group
    ensures ChainOf(Some(RouteSet(own, [other] + a + b)), Some(pin), protocol).chain.hops == [other]
    ensures ChainOf(Some(RouteSet(own, [other] + a + b)), Some(pin), protocol).chain.group != pin.group
  {
    assert ([other] + a + b)[0] == other;
  }

  /** For the bindings as they are given: the hop is in the pinned group exactly when the first of them
      that matches the pin is. */
  lemma {:induction false} MemberPinGroupIff(r: RouteSet, pin: Pin, protocol: string, i: int)
    requires Applies(Some(pin), r) && DerivePinScope(pin.group, pin.provider) == Member
    requires 0 <= i < |r.bindings| && Matches(pin, r.bindings[i])
    requires forall j :: 0 <= j < i ==> !Matches(pin, r.bindings[j])
    ensures ChainOf(Some(r), Some(pin), protocol).Ok?
    ensures ChainOf(Some(r), Some(pin), protocol).chain.group == pin.group <==> r.bindings[i].group == pin.group
  {
    FirstMatchAt(pin, r.bindings, i);
  }

  lemma {:induction false} FirstMatchAt(pin: Pin, cs: seq<Route>, i: int)
    requires 0 <= i < |cs| && Matches(pin, cs[i]) && forall j :: 0 <= j < i ==> !Matches(pin, cs[j])
    ensures FirstMatch(pin, cs) == Some(cs[i])
    decreases |cs|
  {
    if i > 0 {
      FirstMatchAt(pin, cs[1..], i - 1);
    }
  }

  /** Failover is open to unpinned chains of a route group only. */
  function CanFailover(c: Candidates): bool { !c.pinned && c.grouped && |c.hops| > 1 }

  lemma {:induction false} PinnedNeverFailsOver(route: Option<RouteSet>, pin: Option<Pin>, protocol: string)
    requires ChainOf(route, pin, protocol).Ok? && CanFailover(ChainOf(route, pin, protocol).chain)
    ensures ChainOf(route, pin, protocol) == ChainOf(route, None, protocol)
    ensures ChainOf(route, pin, protocol).chain.hops[0].group != ""
  {}

  /** The identity cooldown and stickiness track a hop by. */
  function HopKey(r: Option<Route>): string {
    if r.None? then ""
    else if r.value.binding != "" then r.value.binding
    else if r.value.credential == "" && r.value.vk == "" then ""
    else r.value.vk + "|" + r.value.credential
  }
}
