/** One-pass token extraction against the whole-body scans it replaces
    (`internal/provider/stream_accumulator.go`, `openai.go`, `anthropic.go`). */
module Accumulator {
  import opened Common
  import opened Text

  type Bytes = seq<Byte>

  const SPACE: Byte := 32
  const BRACE: Byte := 123
  const DATA: Bytes := [100, 97, 116, 97, 58]
  const DONE: Bytes := [91, 68, 79, 78, 69, 93]

  /** A field of a decoded object: not there, of the right type, or of a wrong one. */
  datatype Field<T> = Absent | Good(value: T) | Bad

  // ---------------------------------------------------------------------------------------
  // From a raw line to its payload: two ways of stripping the event-stream prefix.
  // ---------------------------------------------------------------------------------------

  predicate IsSpace(b: Byte) { b == SPACE || 9 <= b <= 13 }

  function TrimLeft(s: Bytes): (r: Bytes)
    ensures r == [] || !IsSpace(r[0])
    ensures s != [] && !IsSpace(s[0]) ==> r == s
    ensures |r| <= |s| && (s != [] && IsSpace(s[0]) ==> |r| < |s|)
    decreases |s|
  {
    if s != [] && IsSpace(s[0]) then TrimLeft(s[1..]) else s
  }

  function TrimRight(s: Bytes): (r: Bytes)
    ensures r <= s
    ensures r == [] || !IsSpace(r[|r| - 1])
    decreases |s|
  {
    if s != [] && IsSpace(s[|s| - 1]) then TrimRight(s[..|s| - 1]) else s
  }

  function TrimSpace(s: Bytes): Bytes { TrimLeft(TrimRight(s)) }

  function TrimPrefix(s: Bytes, p: Bytes): Bytes { if p <= s then s[|p|..] else s }

  /** The accumulator's line feeder and the tokens, model and stop scans. */
  function Strict(raw: Bytes): Bytes { TrimPrefix(TrimPrefix(TrimSpace(raw), DATA + [SPACE]), DATA) }

  /** The cached and reasoning scans. */
  function Loose(raw: Bytes): Bytes { TrimSpace(TrimPrefix(TrimSpace(raw), DATA)) }

  // ---------------------------------------------------------------------------------------
  // OpenAI frames.
  // ---------------------------------------------------------------------------------------

  /** `openaiUsageData`; a detail object that is absent is `None`. */
  datatype Usage = Usage(
    prompt: int, completion: int, input: int, output: int,
    promptCached: Option<int>, inputCached: Option<int>,
    completionReasoning: Option<int>, outputReasoning: Option<int>)

  function ResolveIn(u: Usage): int { if u.prompt == 0 then u.input else u.prompt }

  function ResolveOut(u: Usage): int { if u.completion == 0 then u.output else u.completion }

  function CachedInput(u: Usage): int {
    if u.promptCached.Some? && u.promptCached.value > 0 then u.promptCached.value
    else if u.inputCached.Some? then u.inputCached.value
    else 0
  }

  function ReasoningTokens(u: Usage): int {
    if u.completionReasoning.Some? then u.completionReasoning.value
    else if u.outputReasoning.Some? then u.outputReasoning.value
    else 0
  }

  /** A decoded payload: `response` is the usage nested under `response`, `stop` the finish reason
      of the first choice. */
  datatype Payload =
    | NotJson
    | Object(usage: Field<Usage>, response: Field<Usage>, model: Field<string>, stop: Field<string>)

  predicate Whole(p: Payload) {
    p.Object? && !p.usage.Bad? && !p.response.Bad? && !p.model.Bad? && !p.stop.Bad?
  }

  function EnvelopeUsage(p: Payload): Option<Usage> {
    if p.NotJson? || p.usage.Bad? || p.response.Bad? then None
    else if p.usage.Good? then Some(p.usage.value)
    else if p.response.Good? then Some(p.response.value)
    else None
  }

  function ModelOf(p: Payload): string { if p.Object? && p.model.Good? then p.model.value else "" }

  function StopOf(p: Payload): string { if p.Object? && p.stop.Good? then p.stop.value else "" }

  type Decoder = Bytes -> Payload

  predicate IsObject(s: Bytes) { s != [] && s[0] == BRACE }

  // What each scan reads from one raw line.

  function TokensOf(d: Decoder, raw: Bytes): Option<Usage> {
    if IsObject(Strict(raw)) then EnvelopeUsage(d(Strict(raw))) else None
  }

  function LooseUsage(d: Decoder, raw: Bytes): Option<Usage> {
    if Loose(raw) == [] || Loose(raw) == DONE then None else EnvelopeUsage(d(Loose(raw)))
  }

  function CachedOf(u: Option<Usage>): int { if u.Some? then CachedInput(u.value) else 0 }

  function ReasoningOf(u: Option<Usage>): int { if u.Some? then ReasoningTokens(u.value) else 0 }

  function LineModel(d: Decoder, raw: Bytes): string {
    if IsObject(Strict(raw)) then ModelOf(d(Strict(raw))) else ""
  }

  function LineStop(d: Decoder, raw: Bytes): string {
    if IsObject(Strict(raw)) then StopOf(d(Strict(raw))) else ""
  }

  // ---------------------------------------------------------------------------------------
  // The five whole-body scans.
  // ---------------------------------------------------------------------------------------

  function FirstSome<T>(values: T -> Option<Usage>, lines: seq<T>): Option<Usage>
    decreases |lines|
  {
    if lines == [] then None
    else
      var before := FirstSome(values, lines[..|lines| - 1]);
      if before.Some? then before else values(lines[|lines| - 1])
  }

  function LastPositive<T>(values: T -> int, lines: seq<T>): int
    decreases |lines|
  {
    if lines == [] then 0
    else if values(lines[|lines| - 1]) > 0 then values(lines[|lines| - 1])
    else LastPositive(values, lines[..|lines| - 1])
  }

  function FirstNonEmpty<T>(values: T -> string, lines: seq<T>): string
    decreases |lines|
  {
    if lines == [] then ""
    else
      var before := FirstNonEmpty(values, lines[..|lines| - 1]);
      if before != "" then before else values(lines[|lines| - 1])
  }

  function LastNonEmpty<T>(values: T -> string, lines: seq<T>): string
    decreases |lines|
  {
    if lines == [] then ""
    else if values(lines[|lines| - 1]) != "" then values(lines[|lines| - 1])
    else LastNonEmpty(values, lines[..|lines| - 1])
  }

  function UsageLines(d: Decoder): Bytes -> Option<Usage> { raw => TokensOf(d, raw) }

  function ModelLines(d: Decoder): Bytes -> string { raw => LineModel(d, raw) }

  function StopLines(d: Decoder): Bytes -> string { raw => LineStop(d, raw) }

  /** First and last, said by position: nothing before the first, nothing after the last. */
  lemma {:induction false} FirstSomeIsFirst<T>(values: T -> Option<Usage>, lines: seq<T>)
    ensures FirstSome(values, lines).None? <==> forall k :: 0 <= k < |lines| ==> values(lines[k]).None?
    ensures FirstSome(values, lines).Some? ==>
      exists k :: 0 <= k < |lines| && values(lines[k]) == FirstSome(values, lines)
                  && forall j :: 0 <= j < k ==> values(lines[j]).None?
    decreases |lines|
  {
    if lines == [] {
    } else {
      var n := |lines| - 1;
      FirstSomeIsFirst(values, lines[..n]);
      assert forall k :: 0 <= k < n ==> lines[..n][k] == lines[k];
    }
  }

  lemma {:induction false} LastPositiveIsLast<T>(values: T -> int, lines: seq<T>)
    ensures LastPositive(values, lines) == 0 <==> forall k :: 0 <= k < |lines| ==> values(lines[k]) <= 0
    ensures LastPositive(values, lines) != 0 ==>
      exists k :: 0 <= k < |lines| && values(lines[k]) == LastPositive(values, lines) > 0
                  && forall j :: k < j < |lines| ==> values(lines[j]) <= 0
    decreases |lines|
  {
    if lines == [] {
    } else {
      var n := |lines| - 1;
      LastPositiveIsLast(values, lines[..n]);
      assert forall k :: 0 <= k < n ==> lines[..n][k] == lines[k];
    }
  }

  lemma {:induction false} FirstNonEmptyIsFirst<T>(values: T -> string, lines: seq<T>)
    ensures FirstNonEmpty(values, lines) == "" <==> forall k :: 0 <= k < |lines| ==> values(lines[k]) == ""
    ensures FirstNonEmpty(values, lines) != "" ==>
      exists k :: 0 <= k < |lines| && values(lines[k]) == FirstNonEmpty(values, lines)
                  && forall j :: 0 <= j < k ==> values(lines[j]) == ""
    decreases |lines|
  {
    if lines == [] {
    } else {
      var n := |lines| - 1;
      FirstNonEmptyIsFirst(values, lines[..n]);
      assert forall k :: 0 <= k < n ==> lines[..n][k] == lines[k];
    }
  }

  lemma {:induction false} LastNonEmptyIsLast<T>(values: T -> string, lines: seq<T>)
    ensures LastNonEmpty(values, lines) == "" <==> forall k :: 0 <= k < |lines| ==> values(lines[k]) == ""
    ensures LastNonEmpty(values, lines) != "" ==>
      exists k :: 0 <= k < |lines| && values(lines[k]) == LastNonEmpty(values, lines)
                  && forall j :: k < j < |lines| ==> values(lines[j]) == ""
    decreases |lines|
  {
    if lines == [] {
    } else {
      var n := |lines| - 1;
      LastNonEmptyIsLast(values, lines[..n]);
      assert forall k :: 0 <= k < n ==> lines[..n][k] == lines[k];
    }
  }

  datatype Breakdown = Breakdown(
    input: int, output: int, cacheRead: int, cacheCreation: int, reasoning: int, stop: string, model: string)

  function Pure(total: int, cached: int): int { if total - cached < 0 then 0 else total - cached }

  function CachedLines(d: Decoder): Bytes -> int { raw => CachedOf(LooseUsage(d, raw)) }

  function ReasoningLines(d: Decoder): Bytes -> int { raw => ReasoningOf(LooseUsage(d, raw)) }

  function InOf(u: Option<Usage>): int { if u.Some? then ResolveIn(u.value) else 0 }

  function OutOf(u: Option<Usage>): int { if u.Some? then ResolveOut(u.value) else 0 }

  function TotalIn(d: Decoder, lines: seq<Bytes>): int { InOf(FirstSome(UsageLines(d), lines)) }

  function TotalOut(d: Decoder, lines: seq<Bytes>): int { OutOf(FirstSome(UsageLines(d), lines)) }

  function WholeBody(d: Decoder, lines: seq<Bytes>): Breakdown {
    var cached := LastPositive(CachedLines(d), lines);
    Breakdown(Pure(TotalIn(d, lines), cached), TotalOut(d, lines), cached, 0,
              LastPositive(ReasoningLines(d), lines), LastNonEmpty(StopLines(d), lines),
              FirstNonEmpty(ModelLines(d), lines))
  }

  lemma {:induction false} OneMoreUsage(values: Bytes -> Option<Usage>, lines: seq<Bytes>, i: int)
    requires 0 <= i < |lines| && FirstSome(values, lines[..i]) == None
    ensures FirstSome(values, lines[..i + 1]) == values(lines[i])
  {
    assert lines[..i + 1][..i] == lines[..i];
  }

  method ExtractTokens(data: Bytes, d: Decoder) returns (input: int, output: int)
    ensures input == TotalIn(d, Split(data, NEWLINE)) && output == TotalOut(d, Split(data, NEWLINE))
  {
    var lines := Split(data, NEWLINE);
    var i := 0;
    while i < |lines|
      invariant 0 <= i <= |lines|
      invariant FirstSome(UsageLines(d), lines[..i]) == None
    {
      var line := Strict(lines[i]);
      OneMoreUsage(UsageLines(d), lines, i);
      if IsObject(line) {
        var u := EnvelopeUsage(d(line));
        if u.Some? {
          FirstStays(UsageLines(d), lines, i + 1);
          return ResolveIn(u.value), ResolveOut(u.value);
        }
      }
      i := i + 1;
    }
    assert lines[..i] == lines;
    return 0, 0;
  }

  lemma {:induction false} FirstStays(values: Bytes -> Option<Usage>, lines: seq<Bytes>, i: nat)
    requires i <= |lines| && FirstSome(values, lines[..i]).Some?
    ensures FirstSome(values, lines) == FirstSome(values, lines[..i])
    decreases |lines|
  {
    if i == |lines| {
      assert lines[..i] == lines;
    } else {
      assert lines[..|lines| - 1][..i] == lines[..i];
      FirstStays(values, lines[..|lines| - 1], i);
    }
  }

  lemma {:induction false} OneMoreValue(values: Bytes -> int, lines: seq<Bytes>, i: int)
    requires 0 <= i < |lines|
    ensures LastPositive(values, lines[..i + 1])
         == if values(lines[i]) > 0 then values(lines[i]) else LastPositive(values, lines[..i])
  {
    assert lines[..i + 1][..i] == lines[..i];
  }

  method ExtractCachedInput(data: Bytes, d: Decoder) returns (last: int)
    ensures last == LastPositive(CachedLines(d), Split(data, NEWLINE))
  {
    var lines := Split(data, NEWLINE);
    last := 0;
    var i := 0;
    while i < |lines|
      invariant 0 <= i <= |lines|
      invariant last == LastPositive(CachedLines(d), lines[..i])
    {
      var line := Loose(lines[i]);
      OneMoreValue(CachedLines(d), lines, i);
      if line != [] && line != DONE {
        var v := CachedOf(EnvelopeUsage(d(line)));
        if v > 0 {
          last := v;
        }
      }
      i := i + 1;
    }
    assert lines[..i] == lines;
  }

  method ExtractReasoning(data: Bytes, d: Decoder) returns (last: int)
    ensures last == LastPositive(ReasoningLines(d), Split(data, NEWLINE))
  {
    var lines := Split(data, NEWLINE);
    last := 0;
    var i := 0;
    while i < |lines|
      invariant 0 <= i <= |lines|
      invariant last == LastPositive(ReasoningLines(d), lines[..i])
    {
      var line := Loose(lines[i]);
      OneMoreValue(ReasoningLines(d), lines, i);
      if line != [] && line != DONE {
        var v := ReasoningOf(EnvelopeUsage(d(line)));
        if v > 0 {
          last := v;
        }
      }
      i := i + 1;
    }
    assert lines[..i] == lines;
  }

  lemma {:induction false} OneMoreName(values: Bytes -> string, lines: seq<Bytes>, i: int)
    requires 0 <= i < |lines|
    ensures FirstNonEmpty(values, lines[..i]) == "" ==> FirstNonEmpty(values, lines[..i + 1]) == values(lines[i])
    ensures LastNonEmpty(values, lines[..i + 1])
         == if values(lines[i]) != "" then values(lines[i]) else LastNonEmpty(values, lines[..i])
  {
    assert lines[..i + 1][..i] == lines[..i];
  }

  method ExtractModel(data: Bytes, d: Decoder) returns (model: string)
    ensures model == FirstNonEmpty(ModelLines(d), Split(data, NEWLINE))
  {
    var lines := Split(data, NEWLINE);
    var i := 0;
    while i < |lines|
      invariant 0 <= i <= |lines|
      invariant FirstNonEmpty(ModelLines(d), lines[..i]) == ""
    {
      var line := Strict(lines[i]);
      OneMoreName(ModelLines(d), lines, i);
      if IsObject(line) && ModelOf(d(line)) != "" {
        FirstModelStays(ModelLines(d), lines, i + 1);
        return ModelOf(d(line));
      }
      i := i + 1;
    }
    assert lines[..i] == lines;
    return "";
  }

  lemma {:induction false} FirstModelStays(values: Bytes -> string, lines: seq<Bytes>, i: nat)
    requires i <= |lines| && FirstNonEmpty(values, lines[..i]) != ""
    ensures FirstNonEmpty(values, lines) == FirstNonEmpty(values, lines[..i])
    decreases |lines|
  {
    if i == |lines| {
      assert lines[..i] == lines;
    } else {
      assert lines[..|lines| - 1][..i] == lines[..i];
      FirstModelStays(values, lines[..|lines| - 1], i);
    }
  }

  method ExtractStopReason(data: Bytes, d: Decoder) returns (stop: string)
    ensures stop == LastNonEmpty(StopLines(d), Split(data, NEWLINE))
  {
    var lines := Split(data, NEWLINE);
    stop := "";
    var i := 0;
    while i < |lines|
      invariant 0 <= i <= |lines|
      invariant stop == LastNonEmpty(StopLines(d), lines[..i])
    {
      var line := Strict(lines[i]);
      OneMoreName(StopLines(d), lines, i);
      if IsObject(line) && StopOf(d(line)) != "" {
        stop := StopOf(d(line));
      }
      i := i + 1;
    }
    assert lines[..i] == lines;
  }

  method ExtractTokenBreakdown(data: Bytes, d: Decoder) returns (br: Breakdown)
    ensures br == WholeBody(d, Split(data, NEWLINE))
  {
    var input, output := ExtractTokens(data, d);
    var cached := ExtractCachedInput(data, d);
    var reasoning := ExtractReasoning(data, d);
    var stop := ExtractStopReason(data, d);
    var model := ExtractModel(data, d);
    br := Breakdown(Pure(input, cached), output, cached, 0, reasoning, stop, model);
  }

  // ---------------------------------------------------------------------------------------
  // The accumulator.
  // ---------------------------------------------------------------------------------------

  datatype Acc = Acc(br: Breakdown, rawInput: int, inOutSeen: bool, modelSeen: bool)

  const EMPTY := Breakdown(0, 0, 0, 0, 0, "", "")

  const START := Acc(EMPTY, 0, false, false)

  /** One whole frame. */
  function Absorb(a: Acc, p: Payload): Acc
    requires Whole(p)
  {
    var model := if !a.modelSeen && ModelOf(p) != "" then ModelOf(p) else a.br.model;
    var stop := if StopOf(p) != "" then StopOf(p) else a.br.stop;
    var u := EnvelopeUsage(p);
    var first := u.Some? && !a.inOutSeen;
    Acc(a.br.(model := model, stop := stop,
              output := if first then ResolveOut(u.value) else a.br.output,
              cacheRead := if CachedOf(u) > 0 then CachedOf(u) else a.br.cacheRead,
              reasoning := if ReasoningOf(u) > 0 then ReasoningOf(u) else a.br.reasoning),
        if first then ResolveIn(u.value) else a.rawInput,
        a.inOutSeen || u.Some?,
        a.modelSeen || ModelOf(p) != "")
  }

  function Fed(a: Acc, d: Decoder, frame: Bytes): Acc {
    if IsObject(frame) && Whole(d(frame)) then Absorb(a, d(frame)) else a
  }

  function Finalized(a: Acc): Acc { a.(br := a.br.(input := Pure(a.rawInput, a.br.cacheRead))) }

  class StreamAcc {
    var br: Breakdown
    var rawInput: int
    var inOutSeen: bool
    var modelSeen: bool

    ghost function View(): Acc
      reads this
    {
      Acc(br, rawInput, inOutSeen, modelSeen)
    }

    constructor ()
      ensures View() == START
    {
      br, rawInput, inOutSeen, modelSeen := EMPTY, 0, false, false;
    }

    method Feed(frame: Bytes, d: Decoder)
      modifies this
      ensures View() == Fed(old(View()), d, frame)
    {
      if frame == [] || frame[0] != BRACE {
        return;
      }
      var f := d(frame);
      if !Whole(f) {
        return;
      }
      if !modelSeen && ModelOf(f) != "" {
        br := br.(model := ModelOf(f));
        modelSeen := true;
      }
      if StopOf(f) != "" {
        br := br.(stop := StopOf(f));
      }
      var usage := if f.usage.Good? then Some(f.usage.value) else None;
      if usage == None && f.response.Good? {
        usage := Some(f.response.value);
      }
      if usage.Some? {
        var u := usage.value;
        if !inOutSeen {
          rawInput := ResolveIn(u);
          br := br.(output := ResolveOut(u));
          inOutSeen := true;
        }
        if CachedInput(u) > 0 {
          br := br.(cacheRead := CachedInput(u));
        }
        if ReasoningTokens(u) > 0 {
          br := br.(reasoning := ReasoningTokens(u));
        }
      }
    }

    method Result() returns (r: Breakdown)
      modifies this
      ensures View() == Finalized(old(View())) && r == View().br
    {
      br := br.(input := Pure(rawInput, br.cacheRead));
      r := br;
    }

    method FeedStreamLine(raw: Bytes, d: Decoder)
      modifies this
      ensures View() == Fed(old(View()), d, Strict(raw))
    {
      var line := TrimPrefix(TrimPrefix(TrimSpace(raw), DATA + [SPACE]), DATA);
      Feed(line, d);
    }
  }

  // ---------------------------------------------------------------------------------------
  // Equivalence.
  // ---------------------------------------------------------------------------------------

  /** A caller may ask for a result at any point and go on feeding. */
  datatype Op = Line(raw: Bytes) | Peek

  function After(d: Decoder, ops: seq<Op>): Acc
    decreases |ops|
  {
    if ops == [] then START
    else
      var a := After(d, ops[..|ops| - 1]);
      match ops[|ops| - 1]
      case Line(raw) => Fed(a, d, Strict(raw))
      case Peek => Finalized(a)
  }

  function LinesOf(ops: seq<Op>): seq<Bytes>
    decreases |ops|
  {
    if ops == [] then []
    else
      var before := LinesOf(ops[..|ops| - 1]);
      if ops[|ops| - 1].Line? then before + [ops[|ops| - 1].raw] else before
  }

  function OnePass(d: Decoder, ops: seq<Op>): Breakdown { Finalized(After(d, ops)).br }

  function Positive(v: int): int { if v > 0 then v else 0 }

  /** The payload of a line, if the accumulator takes it at all. */
  function Kept(d: Decoder, raw: Bytes): Payload {
    if IsObject(Strict(raw)) && Whole(d(Strict(raw))) then d(Strict(raw)) else NotJson
  }

  /** What the accumulator takes from a line is what each scan takes from it. */
  predicate Agrees(d: Decoder, raw: Bytes) {
    var p := Kept(d, raw);
    && TokensOf(d, raw) == EnvelopeUsage(p)
    && LineModel(d, raw) == ModelOf(p)
    && LineStop(d, raw) == StopOf(p)
    && Positive(CachedOf(LooseUsage(d, raw))) == Positive(CachedOf(EnvelopeUsage(p)))
    && Positive(ReasoningOf(LooseUsage(d, raw))) == Positive(ReasoningOf(EnvelopeUsage(p)))
  }

  /** The accumulator stands where scans with these results stand. */
  predicate Follows(a: Acc, usage: Option<Usage>, cached: int, reasoning: int, stop: string, model: string) {
    && a.inOutSeen == usage.Some? && a.rawInput == InOf(usage) && a.br.output == OutOf(usage)
    && a.br.cacheRead == cached && a.br.cacheCreation == 0 && a.br.reasoning == reasoning
    && a.br.stop == stop && a.br.model == model && a.modelSeen == (model != "")
  }

  lemma {:induction false} AbsorbFollows(a: Acc, p: Payload, usage: Option<Usage>, cached: int, reasoning: int,
                                         stop: string, model: string)
    requires Follows(a, usage, cached, reasoning, stop, model) && Whole(p)
    ensures var u := EnvelopeUsage(p);
            Follows(Absorb(a, p), if usage.Some? then usage else u,
                    if CachedOf(u) > 0 then CachedOf(u) else cached,
                    if ReasoningOf(u) > 0 then ReasoningOf(u) else reasoning,
                    if StopOf(p) != "" then StopOf(p) else stop, if model != "" then model else ModelOf(p))
  {}

  /** The accumulator's state is the scans' results so far. */
  ghost predicate Tracks(d: Decoder, a: Acc, lines: seq<Bytes>) {
    Follows(a, FirstSome(UsageLines(d), lines), LastPositive(CachedLines(d), lines),
            LastPositive(ReasoningLines(d), lines), LastNonEmpty(StopLines(d), lines),
            FirstNonEmpty(ModelLines(d), lines))
  }

  lemma {:induction false} OneMoreLine(d: Decoder, a: Acc, lines: seq<Bytes>, raw: Bytes)
    requires Tracks(d, a, lines) && Agrees(d, raw)
    ensures Tracks(d, Fed(a, d, Strict(raw)), lines + [raw])
  {
    assert (lines + [raw])[..|lines|] == lines;
    if IsObject(Strict(raw)) && Whole(d(Strict(raw))) {
      AbsorbFollows(a, d(Strict(raw)), FirstSome(UsageLines(d), lines), LastPositive(CachedLines(d), lines),
                    LastPositive(ReasoningLines(d), lines), LastNonEmpty(StopLines(d), lines),
                    FirstNonEmpty(ModelLines(d), lines));
    }
  }

  lemma {:induction false} AfterTracks(d: Decoder, ops: seq<Op>)
    requires forall raw :: raw in LinesOf(ops) ==> Agrees(d, raw)
    ensures Tracks(d, After(d, ops), LinesOf(ops))
    decreases |ops|
  {
    if ops == [] {
    } else {
      var init := ops[..|ops| - 1];
      AfterTracks(d, init);
      if ops[|ops| - 1].Line? {
        var raw := ops[|ops| - 1].raw;
        assert LinesOf(ops)[|LinesOf(init)|] == raw;
        OneMoreLine(d, After(d, init), LinesOf(init), raw);
      }
    }
  }

  lemma {:induction false} AgreeingLines(d: Decoder, ops: seq<Op>)
    requires forall raw :: raw in LinesOf(ops) ==> Agrees(d, raw)
    ensures OnePass(d, ops) == WholeBody(d, LinesOf(ops))
  {
    AfterTracks(d, ops);
  }

  lemma {:induction false} AfterOne(d: Decoder, ops: seq<Op>, raw: Bytes)
    ensures After(d, ops + [Line(raw)]) == Fed(After(d, ops), d, Strict(raw))
    ensures LinesOf(ops + [Line(raw)]) == LinesOf(ops) + [raw]
  {
    assert (ops + [Line(raw)])[..|ops|] == ops;
  }

  lemma {:induction false} LastPositiveOfOne(values: Bytes -> int, raw: Bytes)
    ensures LastPositive(values, [raw]) == Positive(values(raw))
  {
    assert [raw][..0] == [];
  }

  lemma {:induction false} FirstUsageOfOne(d: Decoder, raw: Bytes)
    ensures FirstSome(UsageLines(d), [raw]) == TokensOf(d, raw)
  {
    assert [raw][..0] == [];
  }

  lemma {:induction false} FirstUsageOfTwo(d: Decoder, raw: Bytes, next: Bytes)
    ensures FirstSome(UsageLines(d), [raw, next])
         == if TokensOf(d, raw).Some? then TokensOf(d, raw) else TokensOf(d, next)
  {
    assert [raw, next][..1] == [raw];
    FirstUsageOfOne(d, raw);
  }

  lemma {:induction false} NamesOfOne(d: Decoder, raw: Bytes)
    ensures FirstNonEmpty(ModelLines(d), [raw]) == LineModel(d, raw)
    ensures LastNonEmpty(StopLines(d), [raw]) == LineStop(d, raw)
  {
    assert [raw][..0] == [];
  }

  /** What is left of one line, and of two. */
  lemma {:induction false} OnePassOfOne(d: Decoder, raw: Bytes)
    ensures OnePass(d, [Line(raw)]) == Finalized(Fed(START, d, Strict(raw))).br
  {
    AfterOne(d, [], raw);
    assert [] + [Line(raw)] == [Line(raw)];
  }

  lemma {:induction false} OnePassOfTwo(d: Decoder, raw: Bytes, next: Bytes)
    ensures OnePass(d, [Line(raw), Line(next)]) == Finalized(Fed(Fed(START, d, Strict(raw)), d, Strict(next))).br
  {
    AfterOne(d, [], raw);
    assert [] + [Line(raw)] == [Line(raw)];
    AfterOne(d, [Line(raw)], next);
    assert [Line(raw)] + [Line(next)] == [Line(raw), Line(next)];
  }

  /** Another output count for the two lines: one of the two forms takes the first from `raw`, the
      other from `next`. */
  lemma {:induction false} UsageShows(d: Decoder, raw: Bytes, next: Bytes)
    requires TokensOf(d, raw) != EnvelopeUsage(Kept(d, raw))
    requires Agrees(d, next) && TokensOf(d, next).Some?
    requires TokensOf(d, raw).Some? ==> ResolveOut(TokensOf(d, next).value) != ResolveOut(TokensOf(d, raw).value)
    ensures OnePass(d, [Line(raw), Line(next)]).output != WholeBody(d, [raw, next]).output
  {
    OnePassOfTwo(d, raw, next);
    FirstUsageOfTwo(d, raw, next);
  }

  lemma {:induction false} RestShows(d: Decoder, raw: Bytes)
    requires !Agrees(d, raw) && TokensOf(d, raw) == EnvelopeUsage(Kept(d, raw))
    ensures OnePass(d, [Line(raw)]) != WholeBody(d, [raw])
  {
    OnePassOfOne(d, raw);
    NamesOfOne(d, raw);
    LastPositiveOfOne(CachedLines(d), raw);
    LastPositiveOfOne(ReasoningLines(d), raw);
  }

  /** Exactness: a line on which they do not agree tells them apart, alone or before any frame that
      carries a non-zero output count. */
  lemma {:induction false} DisagreementShows(d: Decoder, raw: Bytes, next: Bytes)
    requires !Agrees(d, raw)
    requires Agrees(d, next) && TokensOf(d, next).Some?
    requires TokensOf(d, raw).Some? ==> ResolveOut(TokensOf(d, next).value) != ResolveOut(TokensOf(d, raw).value)
    ensures OnePass(d, [Line(raw)]) != WholeBody(d, [raw])
            || OnePass(d, [Line(raw), Line(next)]) != WholeBody(d, [raw, next])
  {
    if TokensOf(d, raw) != EnvelopeUsage(Kept(d, raw)) {
      UsageShows(d, raw, next);
    } else {
      RestShows(d, raw);
    }
  }

  /** Nothing a scan would use. */
  predicate Silent(p: Payload) { EnvelopeUsage(p) == None && ModelOf(p) == "" && StopOf(p) == "" }

  /** The cached and reasoning scans, which strip differently, find the same counts. */
  predicate SameLoose(d: Decoder, raw: Bytes, u: Option<Usage>) {
    && Positive(CachedOf(LooseUsage(d, raw))) == Positive(CachedOf(u))
    && Positive(ReasoningOf(LooseUsage(d, raw))) == Positive(ReasoningOf(u))
  }

  /** When they agree, for every line: an object line is well typed in every field the accumulator
      decodes, or no scan finds anything in it, and the loose scans read the same; any other line
      holds no count for the loose scans.  One ill-typed field elsewhere in a frame loses its usage. */
  lemma {:induction false} AgreesIffWholeOrSilent(d: Decoder, raw: Bytes)
    ensures Agrees(d, raw) <==>
            if IsObject(Strict(raw)) then
              (Whole(d(Strict(raw))) || Silent(d(Strict(raw)))) && SameLoose(d, raw, EnvelopeUsage(d(Strict(raw))))
            else SameLoose(d, raw, None)
  {}

  /** When the two ways of stripping give the same payload: after `data:` and at most one space
      comes neither white space nor, if there was a space, a second `data:`. */
  predicate SinglePrefix(line: Bytes) {
    if DATA + [SPACE] <= line then
      var rest := line[6..];
      rest == [] || (!IsSpace(rest[0]) && !(DATA <= rest))
    else if DATA <= line then line[5..] == [] || !IsSpace(line[5])
    else true
  }

  lemma {:induction false} TrimmedStays(s: Bytes)
    requires s == [] || !IsSpace(s[|s| - 1])
    ensures TrimSpace(s) == TrimLeft(s)
  {}

  lemma {:induction false} TrimLeftSuffix(s: Bytes)
    ensures exists k :: 0 <= k <= |s| && TrimLeft(s) == s[k..]
    decreases |s|
  {
    if s != [] && IsSpace(s[0]) {
      TrimLeftSuffix(s[1..]);
      var k :| 0 <= k <= |s[1..]| && TrimLeft(s[1..]) == s[1..][k..];
      assert s[1..][k..] == s[k + 1..];
    } else {
      assert s[0..] == s;
    }
  }

  lemma {:induction false} Trimmed(raw: Bytes)
    ensures var t := TrimSpace(raw);
            t == [] || (!IsSpace(t[0]) && !IsSpace(t[|t| - 1]))
  {
    TrimLeftSuffix(TrimRight(raw));
  }

  lemma {:induction false} StripsAgreeIff(raw: Bytes)
    ensures Strict(raw) == Loose(raw) <==> SinglePrefix(TrimSpace(raw))
  {
    var t := TrimSpace(raw);
    Trimmed(raw);
    if DATA <= t {
      var rest := t[5..];
      assert rest != [] ==> rest[|rest| - 1] == t[|t| - 1];
      TrimmedStays(rest);
      if DATA + [SPACE] <= t {
        assert rest[0] == SPACE && rest[1..] == t[6..];
        assert TrimLeft(rest) == TrimLeft(t[6..]);
      } else if rest != [] {
        assert rest[0] == t[5];
        assert rest[0] != SPACE;
      }
    } else {
      assert !(DATA + [SPACE] <= t);
      TrimmedStays(t);
    }
  }

  /** A line of an ordinary stream: an object behind one `data:` prefix that is well typed or of no
      interest, or a line without an object in which the loose scans find no count. */
  predicate Plain(d: Decoder, raw: Bytes) {
    if IsObject(Strict(raw)) then SinglePrefix(TrimSpace(raw)) && (Whole(d(Strict(raw))) || Silent(d(Strict(raw))))
    else SameLoose(d, raw, None)
  }

  lemma {:induction false} ObjectIsNotDone(s: Bytes)
    requires IsObject(s)
    ensures s != [] && s != DONE
  {}

  lemma {:induction false} PlainAgrees(d: Decoder, raw: Bytes)
    requires Plain(d, raw)
    ensures Agrees(d, raw)
  {
    AgreesIffWholeOrSilent(d, raw);
    StripsAgreeIff(raw);
    if IsObject(Strict(raw)) {
      ObjectIsNotDone(Loose(raw));
    }
  }

  /** The one-pass form computes what the five scans compute on every stream of plain lines, wherever
      results are asked for in between. */
  lemma {:induction false} OnePassIsWholeBody(d: Decoder, ops: seq<Op>)
    requires forall raw :: raw in LinesOf(ops) ==> Plain(d, raw)
    ensures OnePass(d, ops) == WholeBody(d, LinesOf(ops))
  {
    forall raw | raw in LinesOf(ops) ensures Agrees(d, raw) {
      PlainAgrees(d, raw);
    }
    AgreeingLines(d, ops);
  }

  // ---------------------------------------------------------------------------------------
  // Decoded frames.
  // ---------------------------------------------------------------------------------------

  /** Frames as the stream parser hands them over, decoded; results may be asked for in between. */
  datatype FrameOp = Frame(payload: Payload) | Ask

  function AfterFrames(ops: seq<FrameOp>): Acc
    decreases |ops|
  {
    if ops == [] then START
    else
      var a := AfterFrames(ops[..|ops| - 1]);
      match ops[|ops| - 1]
      case Frame(p) => if Whole(p) then Absorb(a, p) else a
      case Ask => Finalized(a)
  }

  function FramesOf(ops: seq<FrameOp>): seq<Payload>
    decreases |ops|
  {
    if ops == [] then []
    else
      var before := FramesOf(ops[..|ops| - 1]);
      if ops[|ops| - 1].Frame? then before + [ops[|ops| - 1].payload] else before
  }

  const USAGE: Payload -> Option<Usage> := p => EnvelopeUsage(p)
  const CACHED: Payload -> int := p => CachedOf(EnvelopeUsage(p))
  const REASONING: Payload -> int := p => ReasoningOf(EnvelopeUsage(p))
  const STOP: Payload -> string := p => StopOf(p)
  const MODEL: Payload -> string := p => ModelOf(p)

  /** The five scans over decoded frames. */
  function FrameScans(ps: seq<Payload>): Breakdown {
    Breakdown(Pure(InOf(FirstSome(USAGE, ps)), LastPositive(CACHED, ps)), OutOf(FirstSome(USAGE, ps)),
              LastPositive(CACHED, ps), 0, LastPositive(REASONING, ps), LastNonEmpty(STOP, ps),
              FirstNonEmpty(MODEL, ps))
  }

  ghost predicate TracksFrames(a: Acc, ps: seq<Payload>) {
    Follows(a, FirstSome(USAGE, ps), LastPositive(CACHED, ps), LastPositive(REASONING, ps), LastNonEmpty(STOP, ps),
            FirstNonEmpty(MODEL, ps))
  }

  lemma {:induction false} OneMoreFrame(a: Acc, ps: seq<Payload>, p: Payload)
    requires TracksFrames(a, ps) && Whole(p)
    ensures TracksFrames(Absorb(a, p), ps + [p])
  {
    assert (ps + [p])[..|ps|] == ps;
    AbsorbFollows(a, p, FirstSome(USAGE, ps), LastPositive(CACHED, ps), LastPositive(REASONING, ps),
                  LastNonEmpty(STOP, ps), FirstNonEmpty(MODEL, ps));
  }

  lemma {:induction false} FramesTrack(ops: seq<FrameOp>)
    requires forall p :: p in FramesOf(ops) ==> Whole(p)
    ensures TracksFrames(AfterFrames(ops), FramesOf(ops))
    decreases |ops|
  {
    if ops == [] {
    } else {
      var init := ops[..|ops| - 1];
      FramesTrack(init);
      if ops[|ops| - 1].Frame? {
        var p := ops[|ops| - 1].payload;
        assert FramesOf(ops)[|FramesOf(init)|] == p;
        OneMoreFrame(AfterFrames(init), FramesOf(init), p);
      }
    }
  }

  /** For every sequence of well-typed frames the one-pass result is that of the five scans. */
  lemma {:induction false} WholeFrames(ops: seq<FrameOp>)
    requires forall p :: p in FramesOf(ops) ==> Whole(p)
    ensures Finalized(AfterFrames(ops)).br == FrameScans(FramesOf(ops))
  {
    FramesTrack(ops);
  }

  /** What one frame with counts yields, in terms of the counts: a top-level usage goes before a nested
      one, each total is from the first pair of names if that is not zero and else from the second, the
      cached count from the first detail that is positive, the reasoning count from the first detail that
      is there, negative details as none. */
  lemma {:induction false} FrameYields(u: Usage, nested: bool, other: Field<Usage>, model: string, stop: string)
    requires !other.Bad?
    ensures var p := if nested then Object(Absent, Good(u), Good(model), Good(stop))
                     else Object(Good(u), other, Good(model), Good(stop));
            var total := if u.prompt != 0 then u.prompt else u.input;
            var cached := if u.promptCached.Some? && u.promptCached.value > 0 then u.promptCached.value
                          else if u.inputCached.Some? && u.inputCached.value > 0 then u.inputCached.value else 0;
            var reasoning := if u.completionReasoning.Some? then u.completionReasoning.value
                             else if u.outputReasoning.Some? then u.outputReasoning.value else 0;
            FrameScans([p]) == Breakdown(if total > cached then total - cached else 0,
                                         if u.completion != 0 then u.completion else u.output,
                                         cached, 0, if reasoning > 0 then reasoning else 0, stop, model)
  {
    var p := if nested then Object(Absent, Good(u), Good(model), Good(stop))
             else Object(Good(u), other, Good(model), Good(stop));
    assert [p][..0] == [];
    assert FirstSome(USAGE, [p]) == USAGE(p) == Some(u);
    assert LastPositive(CACHED, []) == 0 && LastPositive(REASONING, []) == 0;
    assert LastNonEmpty(STOP, []) == "" && FirstNonEmpty(MODEL, []) == "";
  }

  /** An object behind `data:` and a space, behind `data:` alone, or bare, with white space around the
      line, is the payload of the line. */
  lemma {:induction false} PayloadOf(payload: Bytes, prefix: Bytes, tail: Bytes)
    requires payload != [] && payload[0] == 123 && payload[|payload| - 1] == 125
    requires prefix == [100, 97, 116, 97, 58, 32] || prefix == [100, 97, 116, 97, 58] || prefix == []
    requires tail == [] || tail == [13]
    ensures Strict(prefix + payload + tail) == payload && IsObject(payload)
  {
    var line := prefix + payload;
    assert TrimRight(line + tail) == line by {
      if tail == [13] {
        assert (line + tail)[..|line + tail| - 1] == line && (line + tail)[|line + tail| - 1] == 13;
      } else {
        assert line + tail == line;
      }
      assert line[|line| - 1] == 125;
    }
    assert line != [] && !IsSpace(line[0]);
    assert TrimSpace(line + tail) == line;
    assert payload[0] == BRACE;
    if prefix == DATA + [SPACE] {
      assert line[6..] == payload;
      assert !(DATA <= payload);
    } else if prefix == DATA {
      assert line[5] == BRACE;
      assert !(DATA + [SPACE] <= line);
      assert line[5..] == payload;
    } else {
      assert line == payload;
    }
  }

  /** One ill-typed field: the frame says seven output tokens, the model is not a string. */
  const SEVEN := Usage(5, 7, 0, 0, None, None, None, None)

  lemma {:induction false} IllTypedFieldLosesUsage()
    ensures var p := Object(Good(SEVEN), Absent, Bad, Absent);
            Finalized(AfterFrames([Frame(p)])).br.output == 0 && FrameScans([p]).output == 7
  {
    var p := Object(Good(SEVEN), Absent, Bad, Absent);
    assert [Frame(p)][..0] == [] && [p][..0] == [];
    assert FirstSome(USAGE, [p]) == USAGE(p) == Some(SEVEN);
  }

  /** The link between pure and total input: it holds exactly when the cached count the scans end
      with does not exceed the total. */
  lemma {:induction false} TotalIsPureAndCachedIff<T>(usage: T -> Option<Usage>, cached: T -> int, xs: seq<T>)
    ensures var (total, c) := (InOf(FirstSome(usage, xs)), LastPositive(cached, xs));
            Pure(total, c) + c == total <==> c <= total
    ensures Pure(InOf(FirstSome(usage, xs)), LastPositive(cached, xs)) >= 0 && LastPositive(cached, xs) >= 0
  {
    LastPositiveIsLast(cached, xs);
  }

  /** A frame that reports more cached than prompt tokens. */
  lemma {:induction false} CachedAboveTotal()
    ensures var p := Object(Good(Usage(1, 0, 0, 0, Some(2), None, None, None)), Absent, Absent, Absent);
            var br := FrameScans([p]);
            br.input + br.cacheRead + br.cacheCreation == 2 && InOf(FirstSome(USAGE, [p])) == 1
  {
    var p := Object(Good(Usage(1, 0, 0, 0, Some(2), None, None, None)), Absent, Absent, Absent);
    assert [p][..0] == [];
  }
}
