/** Per-upstream cooldown (`internal/proxy/binding_cooldown.go`).  Times are in nanoseconds. */
module Cooldown {
  import opened Common

  const MILLISECOND := 1_000_000
  const SECOND := 1_000_000_000

  type Deadlines = map<string, int>

  /** How long a failure cools a hop: the upstream's own evidence when it is positive and shorter
      than the administrator's maximum, otherwise that maximum. */
  function Spell(max: int, evidence: Option<int>, now: int): (d: int)
    ensures d <= max
    ensures max > 0 ==> d > 0
  {
    if evidence.Some? && 0 < evidence.value - now < max then evidence.value - now else max
  }

  /** `fault` is the verdict of the shared failover predicate on the response. */
  datatype Event =
    | Note(id: string, fault: bool, cfg: int, evidence: Option<int>, now: int)
    | Success(id: string)
    | Snapshot(now: int)

  /** The notes that start a spell. */
  predicate Cools(e: Event) { e.Note? && e.id != "" && e.fault && e.cfg != 0 }

  function Kept(until: Deadlines, now: int): Deadlines {
    map id | id in until && until[id] - now >= SECOND :: until[id]
  }

  function Step(until: Deadlines, e: Event): Deadlines {
    match e
    case Note(id, _, cfg, evidence, now) =>
      if Cools(e) then until[id := now + Spell(cfg * MILLISECOND, evidence, now)] else until
    case Success(id) => if id == "" then until else until - {id}
    case Snapshot(now) => Kept(until, now)
  }

  function Run(until: Deadlines, es: seq<Event>): Deadlines
    decreases |es|
  {
    if es == [] then until else Step(Run(until, es[..|es| - 1]), es[|es| - 1])
  }

  predicate Cooling(until: Deadlines, id: string, now: int) { id != "" && id in until && until[id] > now }

  class CooldownStore {
    var until: Deadlines

    constructor ()
      ensures until == map[]
    {
      until := map[];
    }

    method NoteFailure(id: string, fault: bool, cfg: int, evidence: Option<int>, now: int)
      returns (deadline: int, cooled: bool)
      modifies this
      ensures until == Step(old(until), Note(id, fault, cfg, evidence, now))
      ensures cooled <==> id != "" && fault && cfg != 0
      ensures cooled ==> until == old(until)[id := deadline]
      ensures !cooled ==> until == old(until)
      ensures var max := cfg * 1_000_000;
              cooled ==>
                deadline == if evidence.Some? && now < evidence.value < now + max then evidence.value else now + max
    {
      deadline, cooled := 0, false;
      if id == "" {
        return;
      }
      if !fault {
        return;
      }
      if cfg == 0 {
        return;
      }
      var max := cfg * MILLISECOND;
      var d := max;
      if evidence.Some? {
        var left := evidence.value - now;
        if left > 0 && left < max {
          d := left;
        }
      }
      deadline, cooled := now + d, true;
      until := until[id := deadline];
    }

    method NoteSuccess(id: string)
      modifies this
      ensures until == Step(old(until), Success(id))
      ensures id == "" ==> until == old(until)
      ensures id != "" ==> until == old(until) - {id}
    {
      if id == "" {
        return;
      }
      until := until - {id};
    }

    method TakeSnapshot(now: int) returns (out: map<string, int>)
      modifies this
      ensures until == Step(old(until), Snapshot(now))
      ensures out.Keys == until.Keys
      ensures forall id :: id in until <==> id in old(until) && old(until)[id] - now >= 1_000_000_000
      ensures forall id :: id in until ==> until[id] == old(until)[id]
      ensures forall id :: id in out ==> out[id] == (until[id] - now) / SECOND && out[id] > 0
    {
      out := map[];
      var before := until;
      var ids := before.Keys;
      while ids != {}
        invariant ids <= before.Keys
        invariant forall id :: id in until <==> id in before && (id in ids || before[id] - now >= SECOND)
        invariant forall id :: id in until ==> until[id] == before[id]
        invariant forall id :: id in out <==> id in before && id !in ids && before[id] - now >= SECOND
        invariant forall id :: id in out ==> out[id] == (before[id] - now) / SECOND && out[id] > 0
        decreases |ids|
      {
        var id :| id in ids;
        ids := ids - {id};
        var left := until[id] - now;
        var remaining := if left >= 0 then left / SECOND else -(-left / SECOND);
        if remaining <= 0 {
          until := until - {id};
        } else {
          out := out[id := remaining];
        }
      }
    }
  }

  // ---------------------------------------------------------------------------------------
  // Whole runs.
  // ---------------------------------------------------------------------------------------

  /** Event k is what cools `id` at time t: a genuine fault that nothing has cleared since. */
  predicate Accounts(es: seq<Event>, k: int, id: string, t: int) {
    && 0 <= k < |es| && Cools(es[k]) && es[k].id == id
    && t < es[k].now + es[k].cfg * MILLISECOND
    && (forall j :: k < j < |es| ==> es[j] != Success(id))
    && (forall j :: k < j < |es| ==> !(Cools(es[j]) && es[j].id == id))
  }

  lemma {:induction false} LatestFaultDecides(es: seq<Event>, id: string)
    requires id in Run(map[], es)
    ensures exists k :: 0 <= k < |es| && Cools(es[k]) && es[k].id == id
                        && (forall j :: k < j < |es| ==> es[j] != Success(id) && !(Cools(es[j]) && es[j].id == id))
                        && Run(map[], es)[id] == es[k].now + Spell(es[k].cfg * MILLISECOND, es[k].evidence, es[k].now)
    decreases |es|
  {
    var n := |es| - 1;
    if !(Cools(es[n]) && es[n].id == id) {
      LatestFaultDecides(es[..n], id);
      var k :| 0 <= k < n && Cools(es[..n][k]) && es[..n][k].id == id
               && (forall j :: k < j < n ==> es[..n][j] != Success(id) && !(Cools(es[..n][j]) && es[..n][j].id == id))
               && Run(map[], es[..n])[id]
                  == es[..n][k].now + Spell(es[..n][k].cfg * MILLISECOND, es[..n][k].evidence, es[..n][k].now);
      assert es[k] == es[..n][k];
      forall j | k < j < |es| ensures es[j] != Success(id) && !(Cools(es[j]) && es[j].id == id) {
        if j < n {
          assert es[j] == es[..n][j];
        }
      }
    } else {
      assert es[n].now + Spell(es[n].cfg * MILLISECOND, es[n].evidence, es[n].now) == Run(map[], es)[id];
    }
  }

  /** Over every run, a hop is cooling only because of a genuine fault of its own, noted with a
      non-zero maximum and not followed by a success, and never past that maximum. */
  lemma {:induction false} CoolingIsEarned(es: seq<Event>, id: string, t: int)
    requires Cooling(Run(map[], es), id, t)
    ensures exists k :: Accounts(es, k, id, t)
  {
    LatestFaultDecides(es, id);
    var k :| 0 <= k < |es| && Cools(es[k]) && es[k].id == id
             && (forall j :: k < j < |es| ==> es[j] != Success(id) && !(Cools(es[j]) && es[j].id == id))
             && Run(map[], es)[id] == es[k].now + Spell(es[k].cfg * MILLISECOND, es[k].evidence, es[k].now);
    assert Accounts(es, k, id, t);
  }

  /** The deadline a fault sets stays until another fault or a success of that hop, or a snapshot
      within its last second. */
  lemma {:induction false} SpellLasts(es: seq<Event>, k: int, id: string)
    requires 0 <= k < |es| && Cools(es[k]) && es[k].id == id
    requires forall j :: k < j < |es| ==> es[j] != Success(id) && !(Cools(es[j]) && es[j].id == id)
    requires forall j :: k < j < |es| && es[j].Snapshot? ==>
      es[k].now + Spell(es[k].cfg * MILLISECOND, es[k].evidence, es[k].now) - es[j].now >= SECOND
    ensures id in Run(map[], es)
    ensures Run(map[], es)[id] == es[k].now + Spell(es[k].cfg * MILLISECOND, es[k].evidence, es[k].now)
    decreases |es|
  {
    var n := |es| - 1;
    if k < n {
      assert forall j :: 0 <= j < n ==> es[..n][j] == es[j];
      SpellLasts(es[..n], k, id);
    }
  }

  /** Taking a snapshot is not neutral: it leaves a hop's cooling as it was, from then on, exactly
      when the hop is not in the last second of its spell. */
  lemma {:induction false} SnapshotIsNeutralIff(until: Deadlines, id: string, now: int)
    requires id != ""
    ensures (forall t :: t >= now ==> Cooling(Step(until, Snapshot(now)), id, t) == Cooling(until, id, t))
       <==> !(id in until && now < until[id] < now + SECOND)
  {
    if id in until && now < until[id] < now + SECOND {
      assert Cooling(until, id, now) && !Cooling(Step(until, Snapshot(now)), id, now);
    }
  }
}
