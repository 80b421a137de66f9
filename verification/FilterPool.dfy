/** Round-robin dispatch around dead workers (`internal/apphook/filterpool.go`). */
module FilterPool {
  import opened Common

  /** Which worker is `off` places behind the cursor. */
  function At(start: nat, off: nat, n: nat): (w: nat)
    requires n > 0
    ensures w < n
  {
    (start + off) % n
  }

  /** How many workers the scan passes over before a healthy one; all of them if there is none. */
  function Passed(healthy: seq<bool>, start: nat, off: nat): (k: nat)
    requires off <= |healthy| && |healthy| > 0
    ensures off <= k <= |healthy|
    ensures forall j: nat :: off <= j < k ==> !healthy[At(start, j, |healthy|)]
    ensures k < |healthy| ==> healthy[At(start, k, |healthy|)]
    decreases |healthy| - off
  {
    if off == |healthy| || healthy[At(start, off, |healthy|)] then off else Passed(healthy, start, off + 1)
  }

  /** The first k workers from the cursor on. */
  function Behind(start: nat, k: nat, n: nat): (r: seq<nat>)
    requires n > 0
    ensures |r| == k && forall j :: 0 <= j < k ==> r[j] == At(start, j, n)
  {
    seq(k, j requires 0 <= j < k => At(start, j, n))
  }

  function Choice(healthy: seq<bool>, start: nat): nat
    requires |healthy| > 0
  {
    var k := Passed(healthy, start, 0);
    if k < |healthy| then At(start, k, |healthy|) else At(start, 0, |healthy|)
  }

  /** What a pick returns, whom it nudges, and where it leaves the cursor. */
  datatype Picked = Picked(worker: Option<nat>, nudged: seq<nat>, next: nat)

  /** One pick.  A single worker is returned unseen, and an empty pool has none to return. */
  function PickFrom(next: nat, healthy: seq<bool>): Picked {
    if |healthy| == 0 then Picked(None, [], next + 1)
    else if |healthy| == 1 then Picked(Some(0), [], next)
    else Picked(Some(Choice(healthy, next + 1)),
              Behind(next + 1, Passed(healthy, next + 1, 0), |healthy|), next + 1)
  }

  class Pool {
    const workers: nat
    var next: nat

    constructor (workers: nat)
      ensures this.workers == workers && next == 0
    {
      this.workers, next := workers, 0;
    }

    /** `pick`, with the health every worker shows while it scans. */
    method Pick(healthy: seq<bool>) returns (w: Option<nat>, nudged: seq<nat>)
      requires |healthy| == workers
      modifies this`next
      ensures Picked(w, nudged, next) == PickFrom(old(next), healthy)
    {
      nudged := [];
      if workers == 1 {
        return Some(0), nudged;
      }
      next := next + 1;
      var start := next;
      var fallback: Option<nat> := None;
      var off := 0;
      while off < workers
        invariant 0 <= off <= workers
        invariant workers > 0 ==> Passed(healthy, start, 0) == Passed(healthy, start, off)
        invariant workers > 0 ==> nudged == Behind(start, off, workers)
        invariant fallback == if off == 0 then None else Some(At(start, 0, workers))
        invariant workers == 0 ==> nudged == []
        modifies {}
      {
        var i := (start + off) % workers;
        if healthy[i] {
          return Some(i), nudged;
        }
        if fallback == None {
          fallback := Some(i);
        }
        nudged := nudged + [i];
        off := off + 1;
      }
      return fallback, nudged;
    }
  }

  // ---------------------------------------------------------------------------------------
  // Consecutive picks.
  // ---------------------------------------------------------------------------------------

  lemma {:induction false} Multiple(d: int, n: int)
    requires n > 0 && -n < d * n < n
    ensures d == 0
  {}

  lemma {:induction false} ModOf(x: int, n: int, q: int, r: int)
    requires 0 <= r < n && x == q * n + r
    ensures x % n == r
  {
    assert (x / n - q) * n == r - x % n;
    Multiple(x / n - q, n);
  }

  lemma {:induction false} SameStart(c: nat, n: nat, j: nat, k: nat)
    requires j < n && k < n && At(c, j, n) == At(c, k, n)
    ensures j == k
  {
    var d := (c + j) / n - (c + k) / n;
    assert d * n == j - k;
    Multiple(d, n);
  }

  /** The one pick among n consecutive ones whose scan starts at worker v. */
  lemma {:induction false} StartsAt(c: nat, n: nat, v: nat) returns (k: nat)
    requires v < n
    ensures k < n && At(c, k, n) == v
    ensures forall j: nat :: j < n && At(c, j, n) == v ==> j == k
  {
    k := (v - c) % n;
    var q := (v - c) / n;
    assert c + k == (-q) * n + v;
    ModOf(c + k, n, -q, v);
    forall j: nat | j < n && At(c, j, n) == v ensures j == k {
      SameStart(c, n, j, k);
    }
  }

  lemma {:induction false} BehindIsDistinct(start: nat, k: nat, n: nat)
    requires n > 0 && k <= n
    ensures forall i, j :: 0 <= i < j < k ==> Behind(start, k, n)[i] != Behind(start, k, n)[j]
  {
    forall i, j | 0 <= i < j < k ensures Behind(start, k, n)[i] != Behind(start, k, n)[j] {
      if At(start, i, n) == At(start, j, n) {
        SameStart(start, n, i, j);
      }
    }
  }

  /** Whenever some worker is healthy the picked one is; those nudged are unhealthy, and no worker is
      nudged twice. */
  lemma {:induction false} PicksHealthy(next: nat, healthy: seq<bool>)
    requires exists v :: 0 <= v < |healthy| && healthy[v]
    ensures var p := PickFrom(next, healthy);
            && p.worker.Some? && p.worker.value < |healthy| && healthy[p.worker.value]
            && (forall u :: u in p.nudged ==> u < |healthy| && !healthy[u])
            && forall i, j :: 0 <= i < j < |p.nudged| ==> p.nudged[i] != p.nudged[j]
  {
    var (n, start) := (|healthy|, next + 1);
    var v :| 0 <= v < n && healthy[v];
    var k := Passed(healthy, start, 0);
    var j := StartsAt(start, n, v);
    assert k <= j;
    BehindIsDistinct(start, k, n);
    forall u | u in Behind(start, k, n) ensures u < n && !healthy[u] {
      var i :| 0 <= i < k && Behind(start, k, n)[i] == u;
    }
  }

  predicate AllDead(healthy: seq<bool>, start: nat, k: nat)
    requires healthy != []
  {
    forall j: nat :: j < k ==> !healthy[At(start, j, |healthy|)]
  }

  /** Which one: the first healthy worker from the one behind the cursor on, and nudged are those passed
      over, in that order. */
  lemma {:induction false} PicksFirstHealthy(next: nat, healthy: seq<bool>, k: nat)
    requires |healthy| > 1 && k < |healthy| && healthy[(next + 1 + k) % |healthy|]
    requires AllDead(healthy, next + 1, k)
    ensures var p := PickFrom(next, healthy);
            && p.worker == Some((next + 1 + k) % |healthy|) && |p.nudged| == k && p.next == next + 1
            && forall j :: 0 <= j < k ==> p.nudged[j] == (next + 1 + j) % |healthy|
  {
    assert At(next + 1, k, |healthy|) == (next + 1 + k) % |healthy|;
    assert Passed(healthy, next + 1, 0) == k;
  }

  /** With none healthy the worker at the cursor is returned all the same, and every worker is nudged. */
  lemma {:induction false} NoneHealthy(next: nat, healthy: seq<bool>, v: nat)
    requires |healthy| > 1 && v < |healthy| && forall i :: 0 <= i < |healthy| ==> !healthy[i]
    ensures PickFrom(next, healthy).worker == Some(At(next + 1, 0, |healthy|)) && v in PickFrom(next, healthy).nudged
  {
    var (n, start) := (|healthy|, next + 1);
    var k := StartsAt(start, n, v);
    assert Passed(healthy, start, 0) == n;
    assert Behind(start, n, n)[k] == v;
  }

  /** Consecutive picks, one per request, each with the health it meets. */
  function Picks(next: nat, hs: seq<seq<bool>>): (ps: seq<Picked>)
    ensures |ps| == |hs|
    decreases |hs|
  {
    if hs == [] then []
    else var p := PickFrom(next, hs[0]); [p] + Picks(p.next, hs[1..])
  }

  /** Where the cursor is before the k-th pick: a single worker leaves it alone. */
  function Cursor(next: nat, n: nat, k: nat): nat { if n == 1 then next else next + k }

  lemma {:induction false} PickAt(next: nat, hs: seq<seq<bool>>, n: nat, k: nat)
    requires k < |hs| && forall i :: 0 <= i < |hs| ==> |hs[i]| == n
    ensures Picks(next, hs)[k] == PickFrom(Cursor(next, n, k), hs[k])
    decreases k
  {
    if k == 0 {
    } else {
      PickAt(PickFrom(next, hs[0]).next, hs[1..], n, k - 1);
    }
  }

  /** The requests of a run, each picking from the pool. */
  method Requests(p: Pool, hs: seq<seq<bool>>) returns (ps: seq<Picked>)
    requires forall i :: 0 <= i < |hs| ==> |hs[i]| == p.workers
    modifies p`next
    ensures ps == Picks(old(p.next), hs)
  {
    ps := [];
    for i := 0 to |hs|
      invariant Picks(old(p.next), hs) == ps + Picks(p.next, hs[i..])
    {
      var w, nudged := p.Pick(hs[i]);
      ps := ps + [Picked(w, nudged, p.next)];
      assert hs[i..][1..] == hs[i + 1..];
    }
  }

  predicate Uniform(healthy: seq<bool>) {
    (forall i :: 0 <= i < |healthy| ==> healthy[i]) || (forall i :: 0 <= i < |healthy| ==> !healthy[i])
  }

  lemma {:induction false} UniformChoice(healthy: seq<bool>, start: nat)
    requires healthy != [] && Uniform(healthy)
    ensures Choice(healthy, start) == At(start, 0, |healthy|)
  {
    var passed := Passed(healthy, start, 0);
    assert passed == 0 || passed == |healthy|;
  }

  /** While every worker is healthy, or every worker dead, and it may change from one to the other
      between requests, as many requests as workers are served by each worker exactly once. */
  lemma {:induction false} FairWhenUniform(next: nat, hs: seq<seq<bool>>, v: nat) returns (k: nat)
    requires v < |hs| && forall i :: 0 <= i < |hs| ==> |hs[i]| == |hs| && Uniform(hs[i])
    ensures k < |hs| && Picks(next, hs)[k].worker == Some(v)
    ensures forall j: nat :: j < |hs| && Picks(next, hs)[j].worker == Some(v) ==> j == k
  {
    var n := |hs|;
    k := StartsAt(next + 1, n, v);
    forall j: nat | j < n ensures Picks(next, hs)[j].worker == Some(At(next + 1, j, n)) {
      PickAt(next, hs, n, j);
      if n > 1 {
        UniformChoice(hs[j], next + j + 1);
        assert At(next + j + 1, 0, n) == At(next + 1, j, n);
      }
    }
  }

  lemma {:induction false} NudgedFirst(next: nat, healthy: seq<bool>, v: nat)
    requires |healthy| > 1 && v < |healthy| && !healthy[v] && At(next + 1, 0, |healthy|) == v
    ensures v in PickFrom(next, healthy).nudged
  {
    var passed := Passed(healthy, next + 1, 0);
    assert passed > 0;
    assert Behind(next + 1, passed, |healthy|)[0] == v;
  }

  /** A worker that stays unhealthy through as many requests as there are workers is nudged by one of
      them, however the health of the others changes meanwhile, if and only if it is not the only
      worker: that one `pick` never nudges. */
  lemma {:induction false} NudgedWithin(next: nat, hs: seq<seq<bool>>, v: nat)
    requires v < |hs| && forall i :: 0 <= i < |hs| ==> |hs[i]| == |hs| && !hs[i][v]
    ensures (exists k: nat :: k < |hs| && v in Picks(next, hs)[k].nudged) <==> |hs| > 1
  {
    var n := |hs|;
    if n > 1 {
      var k := StartsAt(next + 1, n, v);
      PickAt(next, hs, n, k);
      assert At(next + k + 1, 0, n) == At(next + 1, k, n);
      NudgedFirst(next + k, hs[k], v);
    } else {
      PickAt(next, hs, n, 0);
    }
  }

  /** Nor in any longer run. */
  lemma {:induction false} LoneWorkerIsNotNudged(next: nat, hs: seq<seq<bool>>, k: nat)
    requires k < |hs| && forall i :: 0 <= i < |hs| ==> |hs[i]| == 1
    ensures Picks(next, hs)[k] == Picked(Some(0), [], next)
  {
    PickAt(next, hs, 1, k);
  }
}
