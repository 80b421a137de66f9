/** Switch-back to the primary upstream (`internal/proxy/chain_activity.go`). */
module Activity {
  import opened Common

  datatype Key = Key(vk: string, protocol: string)

  /** `probe` is `None` for the zero time: the distance to it exceeds every configured bound. */
  datatype Entry = Entry(lastRequest: int, probe: Option<int>, current: string)

  type Entries = map<Key, Entry>

  datatype Decision = Decision(stickTo: string, gap: int, firstEver: bool)

  predicate Elapsed(probe: Option<int>, bound: int, now: int) { probe.None? || now - probe.value >= bound }

  predicate Sticks(e: Entry, idleGap: int, maxStickiness: int, now: int) {
    && e.current != ""
    && now - e.lastRequest < idleGap
    && !(maxStickiness > 0 && Elapsed(e.probe, maxStickiness, now))
  }

  datatype Event =
    | Observe(key: Key, idleGap: int, maxStickiness: int, now: int)
    | Served(key: Key, binding: string, primary: bool, now: int)

  function Decide(s: Entries, e: Event): Decision
    requires e.Observe?
  {
    if e.key !in s then Decision("", 0, true)
    else
      var entry := s[e.key];
      Decision(if Sticks(entry, e.idleGap, e.maxStickiness, e.now) then entry.current else "",
               e.now - entry.lastRequest, false)
  }

  function Step(s: Entries, e: Event): Entries {
    match e
    case Observe(key, idleGap, maxStickiness, now) =>
      if key !in s then s[key := Entry(now, Some(now), "")]
      else if Sticks(s[key], idleGap, maxStickiness, now) then s[key := s[key].(lastRequest := now)]
      else s[key := s[key].(lastRequest := now, probe := Some(now))]
    case Served(key, binding, primary, now) =>
      var probe := if key in s then s[key].probe else None;
      s[key := Entry(now, probe, if primary then "" else binding)]
  }

  function Run(es: seq<Event>): Entries
    decreases |es|
  {
    if es == [] then map[] else Step(Run(es[..|es| - 1]), es[|es| - 1])
  }

  class ChainActivityStore {
    var entries: Entries

    constructor ()
      ensures entries == map[]
    {
      entries := map[];
    }

    method ObserveRequest(key: Key, idleGap: int, maxStickiness: int, now: int) returns (d: Decision)
      modifies this
      ensures entries == Step(old(entries), Observe(key, idleGap, maxStickiness, now))
      ensures d == Decide(old(entries), Observe(key, idleGap, maxStickiness, now))
      ensures (d.firstEver <==> key !in old(entries)) && key in entries
      ensures forall k :: k != key ==> (k in entries <==> k in old(entries))
      ensures forall k :: k != key && k in entries ==> entries[k] == old(entries)[k]
      ensures key !in old(entries) ==> d == Decision("", 0, true) && entries[key] == Entry(now, Some(now), "")
      ensures key in old(entries) ==>
                entries[key] == Entry(now, if d.stickTo != "" then old(entries)[key].probe else Some(now),
                                      old(entries)[key].current)
      ensures key in old(entries) ==>
                var e := old(entries)[key];
                && d.gap == now - e.lastRequest
                && d.stickTo == if e.current != "" && now - e.lastRequest < idleGap
                                   && (maxStickiness <= 0
                                       || (e.probe.Some? && now - e.probe.value < maxStickiness)) then e.current else ""
    {
      if key !in entries {
        entries := entries[key := Entry(now, Some(now), "")];
        return Decision("", 0, true);
      }
      var entry := entries[key];
      var gap := now - entry.lastRequest;
      entry := entry.(lastRequest := now);
      d := Decision("", gap, false);
      if entry.current == "" {
        entry := entry.(probe := Some(now));
      } else if gap >= idleGap {
        entry := entry.(probe := Some(now));
      } else if maxStickiness > 0 && Elapsed(entry.probe, maxStickiness, now) {
        entry := entry.(probe := Some(now));
      } else {
        d := d.(stickTo := entry.current);
      }
      entries := entries[key := entry];
    }

    method NoteServed(key: Key, binding: string, primary: bool, now: int)
      modifies this
      ensures entries == Step(old(entries), Served(key, binding, primary, now))
      ensures key in entries && entries[key].lastRequest == now
              && entries[key].current == if primary then "" else binding
    {
      var entry := if key in entries then entries[key] else Entry(0, None, "");
      entry := entry.(lastRequest := now);
      if primary {
        entry := entry.(current := "");
      } else {
        entry := entry.(current := binding);
      }
      entries := entries[key := entry];
    }
  }

  // ---------------------------------------------------------------------------------------
  // What the history of a key says.
  // ---------------------------------------------------------------------------------------

  predicate On(e: Event, key: Key) { e.key == key }

  /** Event k is the last one of its kind on the key. */
  predicate LastActive(es: seq<Event>, k: int, key: Key) {
    0 <= k < |es| && On(es[k], key) && forall j :: k < j < |es| ==> !On(es[j], key)
  }

  predicate LastServed(es: seq<Event>, k: int, key: Key) {
    0 <= k < |es| && On(es[k], key) && es[k].Served? && forall j :: k < j < |es| ==> !(On(es[j], key) && es[j].Served?)
  }

  /** A request on the key that did not stick: normal selection ran, the primary before the other hops
      unless it is cooling. */
  predicate Probes(es: seq<Event>, k: int, key: Key) {
    0 <= k < |es| && On(es[k], key) && es[k].Observe? && Decide(Run(es[..k]), es[k]).stickTo == ""
  }

  predicate LastProbe(es: seq<Event>, k: int, key: Key) {
    Probes(es, k, key) && forall j :: k < j < |es| ==> !Probes(es, j, key)
  }

  /** The entry is what the history says. */
  ghost predicate Records(es: seq<Event>, key: Key) {
    key in Run(es) ==>
      var e := Run(es)[key];
      && (exists k :: LastActive(es, k, key) && es[k].now == e.lastRequest)
      && (e.current != "" ==> exists k :: LastServed(es, k, key) && !es[k].primary && es[k].binding == e.current)
      && (e.probe.Some? ==> exists k :: LastProbe(es, k, key) && es[k].now == e.probe.value)
  }

  lemma {:induction false} ProbesInPrefix(es: seq<Event>, n: int, k: int, key: Key)
    requires 0 <= k < n <= |es|
    ensures Probes(es[..n], k, key) == Probes(es, k, key)
  {
    assert es[..n][..k] == es[..k] && es[..n][k] == es[k];
  }

  /** An event that is not one of its kind leaves the last one where it was. */
  lemma {:induction false} LastStays(es: seq<Event>, k: int, key: Key)
    requires es != [] && 0 <= k < |es| - 1
    ensures LastActive(es[..|es| - 1], k, key) && !On(es[|es| - 1], key) ==> LastActive(es, k, key)
    ensures LastServed(es[..|es| - 1], k, key) && !(On(es[|es| - 1], key) && es[|es| - 1].Served?) ==>
            LastServed(es, k, key)
  {
    var n := |es| - 1;
    assert forall j :: 0 <= j < n ==> es[..n][j] == es[j];
  }

  lemma {:induction false} LastProbeStays(es: seq<Event>, k: int, key: Key)
    requires es != [] && 0 <= k < |es| - 1
    requires LastProbe(es[..|es| - 1], k, key) && !Probes(es, |es| - 1, key)
    ensures LastProbe(es, k, key) && es[k] == es[..|es| - 1][k]
  {
    var n := |es| - 1;
    ProbesInPrefix(es, n, k, key);
    forall j | k < j < |es| ensures !Probes(es, j, key) {
      if j < n {
        ProbesInPrefix(es, n, j, key);
      }
    }
  }

  lemma {:induction false} RecordsActivity(es: seq<Event>, key: Key)
    requires es != [] && Records(es[..|es| - 1], key) && key in Run(es)
    ensures exists k :: LastActive(es, k, key) && es[k].now == Run(es)[key].lastRequest
  {
    var n := |es| - 1;
    if On(es[n], key) {
      assert LastActive(es, n, key);
    } else {
      var k :| LastActive(es[..n], k, key) && es[..n][k].now == Run(es[..n])[key].lastRequest;
      LastStays(es, k, key);
      assert es[k] == es[..n][k];
    }
  }

  lemma {:induction false} RecordsServed(es: seq<Event>, key: Key)
    requires es != [] && Records(es[..|es| - 1], key) && key in Run(es) && Run(es)[key].current != ""
    ensures exists k :: LastServed(es, k, key) && !es[k].primary && es[k].binding == Run(es)[key].current
  {
    var n := |es| - 1;
    if On(es[n], key) && es[n].Served? {
      assert LastServed(es, n, key);
    } else {
      var k :| LastServed(es[..n], k, key) && !es[..n][k].primary && es[..n][k].binding == Run(es[..n])[key].current;
      LastStays(es, k, key);
      assert es[k] == es[..n][k];
    }
  }

  lemma {:induction false} RecordsProbe(es: seq<Event>, key: Key)
    requires es != [] && Records(es[..|es| - 1], key) && key in Run(es) && Run(es)[key].probe.Some?
    ensures exists k :: LastProbe(es, k, key) && es[k].now == Run(es)[key].probe.value
  {
    var n := |es| - 1;
    if Probes(es, n, key) {
      assert LastProbe(es, n, key);
    } else {
      var k :| LastProbe(es[..n], k, key) && es[..n][k].now == Run(es[..n])[key].probe.value;
      LastProbeStays(es, k, key);
    }
  }

  lemma {:induction false} RunRecords(es: seq<Event>, key: Key)
    ensures Records(es, key)
    decreases |es|
  {
    if es == [] {
    } else {
      RunRecords(es[..|es| - 1], key);
      if key in Run(es) {
        RecordsActivity(es, key);
        if Run(es)[key].current != "" {
          RecordsServed(es, key);
        }
        if Run(es)[key].probe.Some? {
          RecordsProbe(es, key);
        }
      }
    }
  }

  /** Over every run: a request that sticks comes less than the idle gap after the key's last
      activity and less than the stickiness bound after its last non-sticky decision, and it sticks
      to the hop of the last response, which was not the primary. */
  lemma {:induction false} BoundedStickiness(es: seq<Event>, e: Event)
    requires e.Observe? && e.maxStickiness > 0 && Decide(Run(es), e).stickTo != ""
    ensures exists k :: LastActive(es, k, e.key) && e.now - es[k].now < e.idleGap
    ensures exists k :: LastProbe(es, k, e.key) && e.now - es[k].now < e.maxStickiness
    ensures exists k :: LastServed(es, k, e.key) && !es[k].primary && es[k].binding == Decide(Run(es), e).stickTo
  {
    RunRecords(es, e.key);
  }

  /** A busy key does not stick for ever: at every request there is a non-sticky decision, this one or
      an earlier one, less than the bound ago. */
  lemma {:induction false} ProbedWithinBound(es: seq<Event>, e: Event)
    requires e.Observe? && e.maxStickiness > 0
    ensures exists k :: Probes(es + [e], k, e.key) && e.now - (es + [e])[k].now < e.maxStickiness
  {
    var all := es + [e];
    assert all[..|es|] == es && all[|es|] == e;
    if Decide(Run(es), e).stickTo == "" {
      assert Probes(all, |es|, e.key);
    } else {
      BoundedStickiness(es, e);
      var k :| LastProbe(es, k, e.key) && e.now - es[k].now < e.maxStickiness;
      ProbesInPrefix(all, |es|, k, e.key);
      assert all[k] == es[k];
    }
  }

  /** The events on one key. */
  function Own(es: seq<Event>, key: Key): seq<Event>
    decreases |es|
  {
    if es == [] then []
    else Own(es[..|es| - 1], key) + if On(es[|es| - 1], key) then [es[|es| - 1]] else []
  }

  lemma {:induction false} KeysAreApart(es: seq<Event>, e: Event, key: Key)
    requires e.key != key
    ensures (key in Run(es + [e])) == (key in Run(es))
    ensures key in Run(es) ==> Run(es + [e])[key] == Run(es)[key]
  {
    assert (es + [e])[..|es|] == es;
  }

  /** Keys do not disturb each other: what a key's entry is, and so every decision on it, is settled by
      the events on that key alone, whatever else goes on in between. */
  lemma {:induction false} OnlyOwnEventsCount(es: seq<Event>, key: Key)
    ensures (key in Run(es)) == (key in Run(Own(es, key)))
    ensures key in Run(es) ==> Run(es)[key] == Run(Own(es, key))[key]
    decreases |es|
  {
    if es == [] {
    } else {
      var (init, e) := (es[..|es| - 1], es[|es| - 1]);
      OnlyOwnEventsCount(init, key);
      assert es == init + [e];
      if On(e, key) {
        assert (Own(init, key) + [e])[..|Own(init, key)|] == Own(init, key);
      } else {
        KeysAreApart(init, e, key);
        assert Own(es, key) == Own(init, key);
      }
    }
  }
}
