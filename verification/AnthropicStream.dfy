/** The Anthropic extractors (`internal/provider/anthropic.go`) and their accumulator
    (`internal/provider/stream_accumulator.go`): the legacy total against the pure breakdown. */
module AnthropicStream {
  import opened Common
  import opened Text
  import opened Accumulator

  /** `anthropicUsage`. */
  datatype Counts = Counts(input: int, cacheCreation: int, cacheRead: int, output: int)

  const ZERO := Counts(0, 0, 0, 0)

  function TotalInput(u: Counts): int { u.input + u.cacheCreation + u.cacheRead }

  /** A decoded event: its type, `delta.stop_reason`, `message.model`, `message.usage` and `usage`. */
  datatype Event =
    | Garbage
    | Event(kind: Field<string>, deltaStop: Field<string>, model: Field<string>,
            messageUsage: Field<Counts>, usage: Field<Counts>)

  type Reader = Bytes -> Event

  function Or<T>(f: Field<T>, default: T): T { if f.Good? then f.value else default }

  /** The legacy scan decodes the type and both usages; the other two decode everything. */
  predicate LegacyReads(e: Event) { e.Event? && !e.kind.Bad? && !e.messageUsage.Bad? && !e.usage.Bad? }

  predicate Reads(e: Event) { LegacyReads(e) && !e.deltaStop.Bad? && !e.model.Bad? }

  predicate Starts(e: Event) { e.Event? && e.kind == Good("message_start") }

  predicate Ends(e: Event) { e.Event? && e.kind == Good("message_delta") }

  function Taken(br: Breakdown, e: Event): Breakdown {
    if !Reads(e) then br
    else if Starts(e) then
      var u := Or(e.messageUsage, ZERO);
      br.(input := u.input, cacheRead := u.cacheRead, cacheCreation := u.cacheCreation,
          model := if Or(e.model, "") != "" then e.model.value else br.model)
    else if Ends(e) then
      br.(output := Or(e.usage, ZERO).output,
          stop := if Or(e.deltaStop, "") != "" then e.deltaStop.value else br.stop)
    else br
  }

  function EventOf(d: Reader, raw: Bytes): Event { if IsObject(Strict(raw)) then d(Strict(raw)) else Garbage }

  function Folded(d: Reader, lines: seq<Bytes>): Breakdown
    decreases |lines|
  {
    if lines == [] then EMPTY else Taken(Folded(d, lines[..|lines| - 1]), EventOf(d, lines[|lines| - 1]))
  }

  datatype Totals = Totals(input: int, output: int)

  function Summed(t: Totals, e: Event): Totals {
    if !LegacyReads(e) then t
    else if Starts(e) then t.(input := TotalInput(Or(e.messageUsage, ZERO)))
    else if Ends(e) then t.(output := Or(e.usage, ZERO).output)
    else t
  }

  function Legacy(d: Reader, lines: seq<Bytes>): Totals
    decreases |lines|
  {
    if lines == [] then Totals(0, 0) else Summed(Legacy(d, lines[..|lines| - 1]), EventOf(d, lines[|lines| - 1]))
  }

  lemma {:induction false} OneMoreAt(d: Reader, lines: seq<Bytes>, i: int)
    requires 0 <= i < |lines|
    ensures Folded(d, lines[..i + 1]) == Taken(Folded(d, lines[..i]), EventOf(d, lines[i]))
    ensures Legacy(d, lines[..i + 1]) == Summed(Legacy(d, lines[..i]), EventOf(d, lines[i]))
  {
    assert lines[..i + 1][..i] == lines[..i];
  }

  method ExtractTokens(data: Bytes, d: Reader) returns (input: int, output: int)
    ensures Totals(input, output) == Legacy(d, Split(data, NEWLINE))
  {
    var lines := Split(data, NEWLINE);
    input, output := 0, 0;
    var i := 0;
    while i < |lines|
      invariant 0 <= i <= |lines|
      invariant Totals(input, output) == Legacy(d, lines[..i])
    {
      var line := Strict(lines[i]);
      OneMoreAt(d, lines, i);
      i := i + 1;
      if line == [] || line[0] != BRACE {
        continue;
      }
      var e := d(line);
      if !LegacyReads(e) {
        continue;
      }
      if e.kind == Good("message_start") {
        input := TotalInput(Or(e.messageUsage, ZERO));
      } else if e.kind == Good("message_delta") {
        output := Or(e.usage, ZERO).output;
      }
    }
    assert lines[..i] == lines;
  }

  method ExtractTokenBreakdown(data: Bytes, d: Reader) returns (br: Breakdown)
    ensures br == Folded(d, Split(data, NEWLINE))
  {
    var lines := Split(data, NEWLINE);
    br := EMPTY;
    var i := 0;
    while i < |lines|
      invariant 0 <= i <= |lines|
      invariant br == Folded(d, lines[..i])
    {
      var line := Strict(lines[i]);
      OneMoreAt(d, lines, i);
      i := i + 1;
      if line == [] || line[0] != BRACE {
        continue;
      }
      var e := d(line);
      if !Reads(e) {
        continue;
      }
      if e.kind == Good("message_start") {
        var u := Or(e.messageUsage, ZERO);
        br := br.(input := u.input, cacheRead := u.cacheRead, cacheCreation := u.cacheCreation);
        if Or(e.model, "") != "" {
          br := br.(model := e.model.value);
        }
      } else if e.kind == Good("message_delta") {
        br := br.(output := Or(e.usage, ZERO).output);
        if Or(e.deltaStop, "") != "" {
          br := br.(stop := e.deltaStop.value);
        }
      }
    }
    assert lines[..i] == lines;
  }

  class MessageAcc {
    var br: Breakdown

    constructor ()
      ensures br == EMPTY
    {
      br := EMPTY;
    }

    method Feed(frame: Bytes, d: Reader)
      modifies this
      ensures br == Taken(old(br), if IsObject(frame) then d(frame) else Garbage)
    {
      if frame == [] || frame[0] != BRACE {
        return;
      }
      var e := d(frame);
      if !Reads(e) {
        return;
      }
      if e.kind == Good("message_start") {
        var u := Or(e.messageUsage, ZERO);
        br := br.(input := u.input, cacheRead := u.cacheRead, cacheCreation := u.cacheCreation);
        if Or(e.model, "") != "" {
          br := br.(model := e.model.value);
        }
      } else if e.kind == Good("message_delta") {
        br := br.(output := Or(e.usage, ZERO).output);
        if Or(e.deltaStop, "") != "" {
          br := br.(stop := e.deltaStop.value);
        }
      }
    }

    method Result() returns (r: Breakdown)
      ensures r == br
    {
      r := br;
    }
  }

  /** The whole stream fed line by line to a new accumulator. */
  method FeedAll(data: Bytes, d: Reader) returns (r: Breakdown)
    ensures r == Folded(d, Split(data, NEWLINE))
  {
    var lines := Split(data, NEWLINE);
    var acc := new MessageAcc();
    var i := 0;
    while i < |lines|
      invariant 0 <= i <= |lines|
      invariant fresh(acc)
      invariant acc.br == Folded(d, lines[..i])
    {
      OneMoreAt(d, lines, i);
      acc.Feed(Strict(lines[i]), d);
      i := i + 1;
    }
    assert lines[..i] == lines;
    r := acc.Result();
  }

  // ---------------------------------------------------------------------------------------
  // The invariant that links the two readings.
  // ---------------------------------------------------------------------------------------

  /** What a message yields: the counts and the model of its start event, the output and the stop reason
      of its delta event. */
  lemma {:induction false} MessageYields(d: Reader, first: Bytes, last: Bytes, u: Counts, v: Counts, model: string,
                                         stop: string)
    requires EventOf(d, first) == Event(Good("message_start"), Absent, Good(model), Good(u), Absent)
    requires EventOf(d, last) == Event(Good("message_delta"), Good(stop), Absent, Absent, Good(v))
    ensures Folded(d, [first, last]) == Breakdown(u.input, v.output, u.cacheRead, u.cacheCreation, 0, stop, model)
    ensures Legacy(d, [first, last]) == Totals(u.input + u.cacheCreation + u.cacheRead, v.output)
  {
    assert [first, last][..1] == [first] && [first][..0] == [];
    assert Folded(d, [first]) == Taken(EMPTY, EventOf(d, first));
    assert Legacy(d, [first]) == Summed(Totals(0, 0), EventOf(d, first));
  }

  /** A counted event that only the legacy scan can decode. */
  predicate OnlyLegacy(e: Event) { LegacyReads(e) && !Reads(e) && (Starts(e) || Ends(e)) }

  predicate Linked(br: Breakdown, t: Totals) {
    br.input + br.cacheRead + br.cacheCreation == t.input && br.output == t.output
  }

  datatype Counted = Start | End

  /** An event of that kind that the legacy scan can decode, or that both can. */
  predicate Decodes(e: Event, kind: Counted, both: bool) {
    (if both then Reads(e) else LegacyReads(e)) && if kind.Start? then Starts(e) else Ends(e)
  }

  function CountOf(e: Event, kind: Counted): int {
    if !e.Event? then 0 else if kind.Start? then TotalInput(Or(e.messageUsage, ZERO)) else Or(e.usage, ZERO).output
  }

  /** The last such line, -1 if there is none. */
  function LastAt(d: Reader, lines: seq<Bytes>, kind: Counted, both: bool): (i: int)
    ensures -1 <= i < |lines|
    decreases |lines|
  {
    if lines == [] then -1
    else if Decodes(EventOf(d, lines[|lines| - 1]), kind, both) then |lines| - 1
    else LastAt(d, lines[..|lines| - 1], kind, both)
  }

  lemma {:induction false} LastAtIs(d: Reader, lines: seq<Bytes>, kind: Counted, both: bool)
    requires LastAt(d, lines, kind, both) >= 0
    ensures Decodes(EventOf(d, lines[LastAt(d, lines, kind, both)]), kind, both)
    decreases |lines|
  {
    var (init, last) := (lines[..|lines| - 1], EventOf(d, lines[|lines| - 1]));
    if !Decodes(last, kind, both) {
      LastAtIs(d, init, kind, both);
    }
  }

  lemma {:induction false} NoneAfter(d: Reader, lines: seq<Bytes>, kind: Counted, both: bool, j: int)
    requires 0 <= j < |lines| && Decodes(EventOf(d, lines[j]), kind, both)
    ensures j <= LastAt(d, lines, kind, both)
    decreases |lines|
  {
    var (init, last) := (lines[..|lines| - 1], EventOf(d, lines[|lines| - 1]));
    if !Decodes(last, kind, both) {
      NoneAfter(d, init, kind, both, j);
    }
  }

  /** What both can decode, the legacy scan can. */
  lemma {:induction false} BothIsEarlier(d: Reader, lines: seq<Bytes>, kind: Counted)
    ensures LastAt(d, lines, kind, true) <= LastAt(d, lines, kind, false)
  {
    var i := LastAt(d, lines, kind, true);
    if i >= 0 {
      LastAtIs(d, lines, kind, true);
      NoneAfter(d, lines, kind, false, i);
    }
  }

  function CountAt(d: Reader, lines: seq<Bytes>, kind: Counted, i: int): int
    requires -1 <= i < |lines|
  {
    if i < 0 then 0 else CountOf(EventOf(d, lines[i]), kind)
  }

  /** The last such event the legacy scan can decode is one both can, or repeats the count of the last
      one both can (zero if there is none). */
  predicate Echoes(d: Reader, lines: seq<Bytes>, kind: Counted) {
    var i := LastAt(d, lines, kind, false);
    || i < 0
    || Reads(EventOf(d, lines[i]))
    || CountAt(d, lines, kind, i) == CountAt(d, lines, kind, LastAt(d, lines, kind, true))
  }

  /** The legacy totals are those of the last start and the last end it can decode ... */
  lemma {:induction false} LegacyIsLast(d: Reader, lines: seq<Bytes>)
    ensures Legacy(d, lines) == Totals(CountAt(d, lines, Start, LastAt(d, lines, Start, false)),
                                       CountAt(d, lines, End, LastAt(d, lines, End, false)))
    decreases |lines|
  {
    if lines == [] {
    } else {
      LegacyIsLast(d, lines[..|lines| - 1]);
    }
  }

  /** ... and the breakdown's of the last ones both can. */
  lemma {:induction false} BreakdownIsLast(d: Reader, lines: seq<Bytes>)
    ensures var br := Folded(d, lines);
            && br.input + br.cacheRead + br.cacheCreation == CountAt(d, lines, Start, LastAt(d, lines, Start, true))
            && br.output == CountAt(d, lines, End, LastAt(d, lines, End, true))
    decreases |lines|
  {
    if lines == [] {
    } else {
      BreakdownIsLast(d, lines[..|lines| - 1]);
    }
  }

  lemma {:induction false} SameLast(d: Reader, lines: seq<Bytes>, kind: Counted)
    requires var i := LastAt(d, lines, kind, false); i < 0 || Reads(EventOf(d, lines[i]))
    ensures LastAt(d, lines, kind, true) == LastAt(d, lines, kind, false)
  {
    var i := LastAt(d, lines, kind, false);
    BothIsEarlier(d, lines, kind);
    if i >= 0 {
      LastAtIs(d, lines, kind, false);
      NoneAfter(d, lines, kind, true, i);
    }
  }

  lemma {:induction false} EchoesMeans(d: Reader, lines: seq<Bytes>, kind: Counted)
    ensures var (i, j) := (LastAt(d, lines, kind, false), LastAt(d, lines, kind, true));
            Echoes(d, lines, kind) <==> CountAt(d, lines, kind, i) == CountAt(d, lines, kind, j)
  {
    var i := LastAt(d, lines, kind, false);
    if i < 0 || Reads(EventOf(d, lines[i])) {
      SameLast(d, lines, kind);
    }
  }

  /** Legacy input is pure input plus both cache buckets, and outputs agree, for a stream if and only if
      its last counted events are decoded by both scans or repeat what both have. */
  lemma {:induction false} LinkedIff(d: Reader, lines: seq<Bytes>)
    ensures Linked(Folded(d, lines), Legacy(d, lines)) <==> Echoes(d, lines, Start) && Echoes(d, lines, End)
  {
    LegacyIsLast(d, lines);
    BreakdownIsLast(d, lines);
    EchoesMeans(d, lines, Start);
    EchoesMeans(d, lines, End);
  }

  lemma {:induction false} NoneOnlyLegacy(d: Reader, lines: seq<Bytes>, kind: Counted)
    requires forall raw :: raw in lines ==> !OnlyLegacy(EventOf(d, raw))
    ensures Echoes(d, lines, kind)
  {
    var i := LastAt(d, lines, kind, false);
    if i >= 0 {
      LastAtIs(d, lines, kind, false);
      assert !OnlyLegacy(EventOf(d, lines[i]));
    }
  }

  /** So it is for every stream without an event that only the legacy scan can decode. */
  lemma {:induction false} TotalIsPureAndCached(d: Reader, lines: seq<Bytes>)
    requires forall raw :: raw in lines ==> !OnlyLegacy(EventOf(d, raw))
    ensures Linked(Folded(d, lines), Legacy(d, lines))
  {
    NoneOnlyLegacy(d, lines, Start);
    NoneOnlyLegacy(d, lines, End);
    LinkedIff(d, lines);
  }

  lemma {:induction false} OneMoreLine(d: Reader, lines: seq<Bytes>, raw: Bytes)
    ensures Folded(d, lines + [raw]) == Taken(Folded(d, lines), EventOf(d, raw))
    ensures Legacy(d, lines + [raw]) == Summed(Legacy(d, lines), EventOf(d, raw))
  {
    assert (lines + [raw])[..|lines|] == lines;
  }

  lemma {:induction false} OnlyLegacyMoves(br: Breakdown, t: Totals, e: Event)
    requires OnlyLegacy(e) && Linked(br, t)
    ensures Linked(Taken(br, e), Summed(t, e)) <==> Summed(t, e) == t
  {}

  /** Such an event breaks the link of a linked stream exactly when it changes the legacy count. */
  lemma {:induction false} OnlyLegacyBreaksTheLink(d: Reader, lines: seq<Bytes>, raw: Bytes)
    requires OnlyLegacy(EventOf(d, raw)) && Linked(Folded(d, lines), Legacy(d, lines))
    ensures Linked(Folded(d, lines + [raw]), Legacy(d, lines + [raw]))
       <==> Summed(Legacy(d, lines), EventOf(d, raw)) == Legacy(d, lines)
  {
    OneMoreLine(d, lines, raw);
    OnlyLegacyMoves(Folded(d, lines), Legacy(d, lines), EventOf(d, raw));
  }

  /** Such an event: a start whose model is not a string counts five tokens for the legacy scan only. */
  lemma {:induction false} IllTypedModelBreaksTheLink(d: Reader, raw: Bytes)
    requires EventOf(d, raw) == Event(Good("message_start"), Absent, Bad, Good(Counts(5, 0, 0, 0)), Absent)
    ensures Legacy(d, [raw]).input == 5 && Folded(d, [raw]).input == 0 && !Linked(Folded(d, [raw]), Legacy(d, [raw]))
  {
    OneMoreLine(d, [], raw);
    assert [] + [raw] == [raw];
  }
}
