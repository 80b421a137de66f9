/** Conservation of terminally failed batches (`internal/events/dead_letter.go`): one JSON object
    per line, appended on failure, re-delivered and rewritten by a replay pass. */
module DeadLetter {
  import opened Common
  import opened Text

  type Line = seq<Byte>

  /** A decoded line; the lane decides how it is re-delivered, not whether it is kept. */
  datatype Decoded = Malformed | Usage(events: nat) | Compliance(payloads: nat)

  /** `deliverableCount`. */
  function DeliverableCount(d: Decoded): nat {
    match d
    case Malformed => 0
    case Usage(n) => n
    case Compliance(n) => n
  }

  /** How the attempt at a line of a pass ended, if it came to one; lines are counted without the blank. */
  datatype Attempt = Canceled | NoDestination | NotEncodable | Refused | Delivered

  /** What a pass sees of the outside: blank lines, the decoder, and the outcome per line. */
  datatype Oracle = Oracle(blank: Line -> bool, decode: Line -> Decoded, attempt: nat -> Attempt)

  function NonBlank(parts: seq<Line>, blank: Line -> bool): (r: seq<Line>)
    ensures forall l :: l in r ==> l in parts && !blank(l)
    decreases |parts|
  {
    if parts == [] then []
    else
      var init := NonBlank(parts[..|parts| - 1], blank);
      if blank(parts[|parts| - 1]) then init else init + [parts[|parts| - 1]]
  }

  /** The entries of a file. */
  function Entries(data: seq<Byte>, blank: Line -> bool): seq<Line> { NonBlank(Split(data, NEWLINE), blank) }

  predicate Leaves(line: Line, k: nat, o: Oracle) { o.decode(line) != Malformed && o.attempt(k) == Delivered }

  /** The entries a pass does not deliver, in order. */
  function Kept(lines: seq<Line>, o: Oracle): (r: seq<Line>)
    ensures forall l :: l in r ==> l in lines
    decreases |lines|
  {
    if lines == [] then []
    else
      var k := |lines| - 1;
      var init := Kept(lines[..k], o);
      if Leaves(lines[k], k, o) then init else init + [lines[k]]
  }

  function Gone(lines: seq<Line>, o: Oracle): (r: seq<Line>)
    decreases |lines|
  {
    if lines == [] then []
    else
      var k := |lines| - 1;
      var init := Gone(lines[..k], o);
      if Leaves(lines[k], k, o) then init + [lines[k]] else init
  }

  function Parsed(lines: seq<Line>, o: Oracle): nat
    decreases |lines|
  {
    if lines == [] then 0
    else Parsed(lines[..|lines| - 1], o) + if o.decode(lines[|lines| - 1]) == Malformed then 0 else 1
  }

  function Events(lines: seq<Line>, o: Oracle): nat
    decreases |lines|
  {
    if lines == [] then 0
    else Events(lines[..|lines| - 1], o) + DeliverableCount(o.decode(lines[|lines| - 1]))
  }

  datatype Result = Result(scanned: nat, replayedOK: nat, stillFailing: nat, eventsOK: nat, eventsFailing: nat)

  /** One pass.  What stays on disk is exactly the entries not delivered, byte for byte and in
      order; every entry is delivered, still failing or malformed; and the event tallies are those
      of the entries.  A rewrite that fails leaves the file as it was. */
  method ReplayDeadLetter(data: seq<Byte>, o: Oracle, wrote: bool, renamed: bool)
    returns (file: seq<Byte>, r: Result, ok: bool)
    requires o.blank([])
    ensures ok == (wrote && renamed)
    ensures !ok ==> file == data
    ensures ok ==> Entries(file, o.blank) == Kept(Entries(data, o.blank), o) && Clean(file)
    ensures r.scanned == |Entries(data, o.blank)|
    ensures r.stillFailing == Parsed(Kept(Entries(data, o.blank), o), o)
    ensures r.replayedOK + r.stillFailing == Parsed(Entries(data, o.blank), o)
    ensures r.eventsFailing == Events(Kept(Entries(data, o.blank), o), o)
    ensures r.eventsOK + r.eventsFailing == Events(Entries(data, o.blank), o)
    ensures var all := Entries(data, o.blank);
            && r.replayedOK == |DeliveredAt(all, o)|
            && (ok ==> Subsequence(Entries(file, o.blank), all) && |Entries(file, o.blank)| == |all| - r.replayedOK)
            && (ok ==> forall k :: 0 <= k < |all| && (o.decode(all[k]) == Malformed || o.attempt(k) != Delivered) ==>
                         all[k] in Entries(file, o.blank))
  {
    var keep;
    keep, r := ScanEntries(data, o);
    EntriesAreLines(data, o.blank);
    Rewritten(Entries(data, o.blank), o);
    KeptMeans(Entries(data, o.blank), o);
    ok := wrote && renamed;
    file := if ok then Rewrite(keep) else data;
  }

  /** The loop of a pass. */
  method ScanEntries(data: seq<Byte>, o: Oracle) returns (keep: seq<Line>, r: Result)
    ensures Tallied(r, keep, Entries(data, o.blank), o)
  {
    r := Result(0, 0, 0, 0, 0);
    keep := [];
    var parts := Split(data, NEWLINE);
    var i := 0;
    ghost var lines := [];
    while i < |parts|
      invariant 0 <= i <= |parts|
      invariant lines == NonBlank(parts[..i], o.blank)
      invariant Tallied(r, keep, lines, o)
    {
      var line := parts[i];
      assert parts[..i + 1][..i] == parts[..i];
      i := i + 1;
      if o.blank(line) {
        continue;
      }
      keep, r := ReplayEntry(line, keep, r, lines, o);
      lines := lines + [line];
    }
    assert parts[..i] == parts;
  }

  /** One entry of a pass. */
  method ReplayEntry(line: Line, keep: seq<Line>, r: Result, ghost lines: seq<Line>, o: Oracle)
    returns (keep': seq<Line>, r': Result)
    requires Tallied(r, keep, lines, o)
    ensures Tallied(r', keep', lines + [line], o)
  {
    OneMoreEntry(lines, line, o);
    keep', r' := keep, r.(scanned := r.scanned + 1);
    var d := o.decode(line);
    if d.Malformed? {
      keep' := keep + [line];
    } else if o.attempt(r.scanned) == Delivered {
      r' := r'.(replayedOK := r.replayedOK + 1, eventsOK := r.eventsOK + DeliverableCount(d));
    } else {
      r' := r'.(stillFailing := r.stillFailing + 1, eventsFailing := r.eventsFailing + DeliverableCount(d));
      keep' := keep + [line];
    }
  }

  lemma {:induction false} EntriesAreLines(data: seq<Byte>, blank: Line -> bool)
    ensures forall l :: l in Entries(data, blank) ==> NEWLINE !in l && !blank(l)
  {}

  /** The places of the entries a pass delivers. */
  function DeliveredAt(lines: seq<Line>, o: Oracle): set<nat> {
    set k: nat | k < |lines| && o.decode(lines[k]) != Malformed && o.attempt(k) == Delivered
  }

  lemma {:induction false} OneMoreDelivered(lines: seq<Line>, o: Oracle)
    requires lines != []
    ensures var k := |lines| - 1;
            DeliveredAt(lines, o) == DeliveredAt(lines[..k], o)
              + if o.decode(lines[k]) != Malformed && o.attempt(k) == Delivered then {k} else {}
  {}

  lemma {:induction false} KeptCounts(lines: seq<Line>, o: Oracle)
    ensures |Kept(lines, o)| == |lines| - |DeliveredAt(lines, o)|
    ensures Parsed(lines, o) == Parsed(Kept(lines, o), o) + |DeliveredAt(lines, o)|
    decreases |lines|
  {
    if lines == [] {
      assert DeliveredAt(lines, o) == {};
    } else {
      var (init, k) := (lines[..|lines| - 1], |lines| - 1);
      KeptCounts(init, o);
      OneMoreDelivered(lines, o);
      assert k !in DeliveredAt(init, o) && lines == init + [lines[k]];
      OneMoreEntry(init, lines[k], o);
    }
  }

  lemma {:induction false} KeptInOrder(lines: seq<Line>, o: Oracle)
    ensures Subsequence(Kept(lines, o), lines)
    decreases |lines|
  {
    if lines == [] {
    } else {
      var (init, k) := (lines[..|lines| - 1], |lines| - 1);
      KeptInOrder(init, o);
      assert lines == init + [lines[k]];
      SubsequenceGrows(Kept(init, o), init, lines[k]);
    }
  }

  lemma {:induction false} NotDeliveredIsKept(lines: seq<Line>, o: Oracle, k: int)
    requires 0 <= k < |lines| && (o.decode(lines[k]) == Malformed || o.attempt(k) != Delivered)
    ensures lines[k] in Kept(lines, o)
    decreases |lines|
  {
    if k < |lines| - 1 {
      NotDeliveredIsKept(lines[..|lines| - 1], o, k);
    }
  }

  /** What stays is in its old order, one entry less for each delivery, and every entry that was not
      delivered is there. */
  lemma {:induction false} KeptMeans(lines: seq<Line>, o: Oracle)
    ensures Subsequence(Kept(lines, o), lines) && |Kept(lines, o)| == |lines| - |DeliveredAt(lines, o)|
    ensures Parsed(lines, o) == Parsed(Kept(lines, o), o) + |DeliveredAt(lines, o)|
    ensures forall k :: 0 <= k < |lines| && (o.decode(lines[k]) == Malformed || o.attempt(k) != Delivered) ==>
              lines[k] in Kept(lines, o)
  {
    KeptCounts(lines, o);
    KeptInOrder(lines, o);
    forall k | 0 <= k < |lines| && (o.decode(lines[k]) == Malformed || o.attempt(k) != Delivered)
      ensures lines[k] in Kept(lines, o)
    {
      NotDeliveredIsKept(lines, o, k);
    }
  }

  /** The tally counts the events of a usage entry and the payloads of a compliance entry. */
  lemma {:induction false} EventsMean(lines: seq<Line>, line: Line, o: Oracle)
    ensures Events(lines + [line], o) - Events(lines, o) ==
            if o.decode(line).Usage? then o.decode(line).events
            else if o.decode(line).Compliance? then o.decode(line).payloads else 0
  {
    assert (lines + [line])[..|lines|] == lines;
  }

  /** The counters and the kept lines are those of the entries seen so far. */
  ghost predicate Tallied(r: Result, keep: seq<Line>, lines: seq<Line>, o: Oracle) {
    && keep == Kept(lines, o) && r.scanned == |lines|
    && r.stillFailing == Parsed(keep, o) && r.replayedOK + r.stillFailing == Parsed(lines, o)
    && r.eventsFailing == Events(keep, o) && r.eventsOK + r.eventsFailing == Events(lines, o)
  }

  lemma {:induction false} OneMoreEntry(lines: seq<Line>, line: Line, o: Oracle)
    ensures Kept(lines + [line], o) == if Leaves(line, |lines|, o) then Kept(lines, o) else Kept(lines, o) + [line]
    ensures Parsed(lines + [line], o) == Parsed(lines, o) + if o.decode(line) == Malformed then 0 else 1
    ensures Events(lines + [line], o) == Events(lines, o) + DeliverableCount(o.decode(line))
    ensures Parsed(Kept(lines, o) + [line], o)
         == Parsed(Kept(lines, o), o) + if o.decode(line) == Malformed then 0 else 1
    ensures Events(Kept(lines, o) + [line], o) == Events(Kept(lines, o), o) + DeliverableCount(o.decode(line))
  {
    assert (lines + [line])[..|lines|] == lines;
    var kept := Kept(lines, o);
    assert (kept + [line])[..|kept|] == kept;
  }

  /** The kept lines, newline-joined and newline-terminated. */
  function Rewrite(keep: seq<Line>): seq<Byte> {
    if keep == [] then [] else Join(keep, NEWLINE) + [NEWLINE]
  }

  /** Nothing is left open at the end of the file. */
  predicate Clean(data: seq<Byte>) { Split(data, NEWLINE)[|Split(data, NEWLINE)| - 1] == [] }

  lemma {:induction false} NonBlankConcat(a: seq<Line>, b: seq<Line>, blank: Line -> bool)
    ensures NonBlank(a + b, blank) == NonBlank(a, blank) + NonBlank(b, blank)
    decreases |b|
  {
    if b == [] {
      assert a + b == a;
    } else {
      assert (a + b)[..|a + b| - 1] == a + b[..|b| - 1];
      NonBlankConcat(a, b[..|b| - 1], blank);
    }
  }

  lemma {:induction false} NonBlankAll(a: seq<Line>, blank: Line -> bool)
    requires forall l :: l in a ==> !blank(l)
    ensures NonBlank(a, blank) == a
    decreases |a|
  {
    if a == [] {
    } else {
      NonBlankAll(a[..|a| - 1], blank);
    }
  }

  /** Re-splitting what was written gives back the lines, and one empty part after the last. */
  lemma RewriteRoundTrip(keep: seq<Line>, blank: Line -> bool)
    requires blank([]) && forall l :: l in keep ==> NEWLINE !in l && !blank(l)
    ensures Split(Rewrite(keep), NEWLINE) == keep + [[]]
    ensures Entries(Rewrite(keep), blank) == keep
  {
    if keep != [] {
      SplitJoin(keep, NEWLINE);
      SplitAtSeparator(Join(keep, NEWLINE), NEWLINE, []);
      assert Join(keep, NEWLINE) + [NEWLINE] + [] == Rewrite(keep);
    }
    NonBlankConcat(keep, [[]], blank);
    NonBlankAll(keep, blank);
    SingleLine([], blank);
  }

  lemma Rewritten(lines: seq<Line>, o: Oracle)
    requires o.blank([]) && forall l :: l in lines ==> NEWLINE !in l && !o.blank(l)
    ensures Entries(Rewrite(Kept(lines, o)), o.blank) == Kept(lines, o)
    ensures Clean(Rewrite(Kept(lines, o)))
  {
    RewriteRoundTrip(Kept(lines, o), o.blank);
  }

  /** A file that is clean and has no blank lines is what rewriting its entries gives, byte for byte:
      a pass that delivers nothing leaves it as it was. */
  lemma {:induction false} RewriteIsIdentity(data: seq<Byte>, blank: Line -> bool)
    requires blank([]) && Clean(data)
    requires forall i :: 0 <= i < |Split(data, NEWLINE)| - 1 ==> !blank(Split(data, NEWLINE)[i])
    ensures Rewrite(Entries(data, blank)) == data
  {
    var p := Split(data, NEWLINE);
    var keep := p[..|p| - 1];
    assert p == keep + [[]];
    NonBlankConcat(keep, [[]], blank);
    SingleLine([], blank);
    forall l | l in keep ensures !blank(l) {
      var i :| 0 <= i < |keep| && keep[i] == l;
      assert Split(data, NEWLINE)[i] == l;
    }
    NonBlankAll(keep, blank);
    JoinSplit(data, NEWLINE);
    if keep == [] {
      assert p == [[]];
    } else {
      JoinWithEmpty(keep);
    }
  }

  lemma {:induction false} JoinWithEmpty(keep: seq<Line>)
    requires keep != []
    ensures Join(keep + [[]], NEWLINE) == Join(keep, NEWLINE) + [NEWLINE]
    decreases |keep|
  {
    assert (keep + [[]])[1..] == keep[1..] + [[]];
    if |keep| > 1 {
      JoinWithEmpty(keep[1..]);
    } else {
      assert keep[1..] + [[]] == [[]];
    }
  }

  // ---------------------------------------------------------------------------------------
  // Appending, and whole runs.
  // ---------------------------------------------------------------------------------------

  function Appended(data: seq<Byte>, line: Line): seq<Byte> { data + line + [NEWLINE] }

  /** The parts with `line` glued to the last one. */
  function Glued(p: seq<Line>, line: Line): seq<Line>
    requires p != []
  {
    p[..|p| - 1] + [p[|p| - 1] + line]
  }

  lemma PrependToTail(c: Byte, p: seq<Line>, line: Line)
    requires p != []
    ensures Prepend(c, Glued(p, line), NEWLINE) == Glued(Prepend(c, p, NEWLINE), line)
  {
    if |p| == 1 {
      assert [c] + (p[0] + line) == [c] + p[0] + line;
    }
  }

  lemma {:induction false} SplitOpenTail(a: seq<Byte>, line: Line)
    requires NEWLINE !in line
    ensures Split(a + line, NEWLINE) == Glued(Split(a, NEWLINE), line)
    decreases |a|
  {
    if a == [] {
      assert a + line == line;
      SplitWithout(line, NEWLINE);
    } else {
      assert (a + line)[0] == a[0] && (a + line)[1..] == a[1..] + line;
      SplitOpenTail(a[1..], line);
      PrependToTail(a[0], Split(a[1..], NEWLINE), line);
    }
  }

  lemma AppendedParts(data: seq<Byte>, line: Line)
    requires NEWLINE !in line
    ensures Split(Appended(data, line), NEWLINE) == Glued(Split(data, NEWLINE), line) + [[]]
  {
    SplitOpenTail(data, line);
    SplitAtSeparator(data + line, NEWLINE, []);
    assert data + line + [NEWLINE] + [] == Appended(data, line);
  }

  /** A write adds exactly its own entry if and only if the file was clean.  On a file that ends
      in an unterminated line the two run together. */
  lemma WriteAddsEntryIffClean(data: seq<Byte>, line: Line, blank: Line -> bool)
    requires blank([]) && NEWLINE !in line && !blank(line)
    ensures Entries(Appended(data, line), blank) == Entries(data, blank) + [line] <==> Clean(data)
    ensures Clean(data) ==> Clean(Appended(data, line))
  {
    var p := Split(data, NEWLINE);
    AppendedParts(data, line);
    NonBlankConcat(Glued(p, line), [[]], blank);
    SingleLine([], blank);
    GluedEntries(p, line, blank);
  }

  /** Gluing a line onto the last part adds it as an entry exactly when that part is empty. */
  lemma GluedEntries(p: seq<Line>, line: Line, blank: Line -> bool)
    requires p != [] && blank([]) && !blank(line)
    ensures NonBlank(Glued(p, line), blank) == NonBlank(p, blank) + [line] <==> p[|p| - 1] == []
  {
    var (init, tail) := (p[..|p| - 1], p[|p| - 1]);
    assert Glued(p, line)[..|p| - 1] == init;
    var entries := NonBlank(init, blank);
    if tail == [] {
      assert tail + line == line;
    } else {
      var (glued, added) := (NonBlank(Glued(p, line), blank), NonBlank(p, blank) + [line]);
      assert |tail + line| > |line| && added[|added| - 1] == line;
      assert |added| > |entries|;
      assert glued == entries || glued[|glued| - 1] == tail + line;
    }
  }

  lemma SingleLine(l: Line, blank: Line -> bool)
    ensures NonBlank([l], blank) == if blank(l) then [] else [l]
  {
    assert [l][..0] == [];
  }

  /** `n` is how many bytes of the line and its newline reached the file: none when it could not be
      opened, some when the write failed half-way. */
  datatype Event =
    | Write(line: Line, n: nat)
    | Replay(decode: Line -> Decoded, attempt: nat -> Attempt, rewritten: bool)

  /** `written` are the entries written whole; `delivered` what passes delivered, whether or not the
      file could be rewritten after; the last two are the parts of lines left by failed writes, and
      the deliveries of passes that left their entries on file. */
  datatype State = State(file: seq<Byte>, written: seq<Line>, delivered: seq<Line>, scraps: seq<Line>,
                         repeated: seq<Line>)

  predicate Whole(line: Line, n: nat) { n > |line| }

  function Part(line: Line, n: nat): Line { if n > |line| then line else line[..n] }

  function When(b: bool, l: Line): seq<Line> { if b then [l] else [] }

  function Step(s: State, e: Event, blank: Line -> bool): State {
    match e
    case Write(line, n) =>
      if Whole(line, n) then s.(file := Appended(s.file, line), written := s.written + [line])
      else s.(file := s.file + Part(line, n), scraps := s.scraps + When(!blank(Part(line, n)), Part(line, n)))
    case Replay(decode, attempt, rewritten) =>
      var o := Oracle(blank, decode, attempt);
      var lines := Entries(s.file, blank);
      var out := s.(delivered := s.delivered + Gone(lines, o));
      if rewritten then out.(file := Rewrite(Kept(lines, o))) else out.(repeated := s.repeated + Gone(lines, o))
  }

  function Run(s: State, es: seq<Event>, blank: Line -> bool): State
    decreases |es|
  {
    if es == [] then s else Run(Step(s, es[0], blank), es[1..], blank)
  }

  lemma {:induction false} KeptAndGone(lines: seq<Line>, o: Oracle)
    ensures multiset(Kept(lines, o)) + multiset(Gone(lines, o)) == multiset(lines)
    decreases |lines|
  {
    if lines == [] {
    } else {
      KeptAndGone(lines[..|lines| - 1], o);
      assert lines == lines[..|lines| - 1] + [lines[|lines| - 1]];
    }
  }

  /** On disk and delivered is what was there and what was written, plus the scraps and what will be
      delivered again. */
  ghost predicate Balanced(s: State, start: multiset<Line>, blank: Line -> bool) {
    multiset(Entries(s.file, blank)) + multiset(s.delivered)
    == start + multiset(s.written) + multiset(s.scraps) + multiset(s.repeated)
  }

  /** A write whose bytes do not land behind a line that lacks its newline. */
  predicate Tidy(s: State, e: Event, blank: Line -> bool) {
    e.Write? ==> NEWLINE !in e.line && !blank(e.line) && (e.n == 0 || Clean(s.file))
  }

  predicate TidyRun(s: State, es: seq<Event>, blank: Line -> bool)
    decreases |es|
  {
    es == [] || (Tidy(s, es[0], blank) && TidyRun(Step(s, es[0], blank), es[1..], blank))
  }

  /** A part of a line on a clean file is one more entry, unless it is blank. */
  lemma {:induction false} PartEntries(data: seq<Byte>, part: Line, blank: Line -> bool)
    requires blank([]) && NEWLINE !in part && (part == [] || Clean(data))
    ensures Entries(data + part, blank) == Entries(data, blank) + When(!blank(part), part)
  {
    if part == [] {
      assert data + part == data;
    } else {
      var p := Split(data, NEWLINE);
      SplitOpenTail(data, part);
      assert p[|p| - 1] + part == part;
      assert Glued(p, part)[..|p| - 1] == p[..|p| - 1];
    }
  }

  lemma {:induction false} OneMore(d: multiset<Line>, l: seq<Line>, more: seq<Line>)
    ensures d + multiset(l + more) == d + multiset(l) + multiset(more)
  {}

  lemma {:induction false} SameOnBothSides(disk: multiset<Line>, out: multiset<Line>, start: multiset<Line>,
                                           a: multiset<Line>, b: multiset<Line>, c: multiset<Line>,
                                           more: multiset<Line>)
    requires disk + out == start + a + b + c
    ensures disk + more + out == start + (a + more) + b + c
    ensures disk + more + out == start + a + (b + more) + c
  {
    assert disk + more + out == (disk + out) + more;
    assert start + a + b + c + more == start + (a + more) + b + c;
    assert start + a + b + c + more == start + a + (b + more) + c;
  }

  lemma {:induction false} WriteBalances(s: State, line: Line, n: nat, start: multiset<Line>, blank: Line -> bool)
    requires blank([]) && Balanced(s, start, blank) && Tidy(s, Write(line, n), blank)
    ensures Balanced(Step(s, Write(line, n), blank), start, blank)
  {
    var entries := Entries(s.file, blank);
    var part := Part(line, n);
    var more := if Whole(line, n) then [line] else When(!blank(part), part);
    assert Entries(Step(s, Write(line, n), blank).file, blank) == entries + more by {
      if Whole(line, n) {
        WriteAddsEntryIffClean(s.file, line, blank);
      } else {
        PartEntries(s.file, part, blank);
      }
    }
    OneMore(multiset{}, entries, more);
    OneMore(multiset{}, s.written, more);
    OneMore(multiset{}, s.scraps, more);
    SameOnBothSides(multiset(entries), multiset(s.delivered), start, multiset(s.written), multiset(s.scraps),
                    multiset(s.repeated), multiset(more));
  }

  lemma {:induction false} ReplayBalances(s: State, o: Oracle, rewritten: bool, start: multiset<Line>)
    requires o.blank([]) && Balanced(s, start, o.blank)
    ensures Balanced(Step(s, Replay(o.decode, o.attempt, rewritten), o.blank), start, o.blank)
  {
    var lines := Entries(s.file, o.blank);
    Rewritten(lines, o);
    KeptAndGone(lines, o);
    OneMore(multiset{}, s.delivered, Gone(lines, o));
    OneMore(multiset{}, s.repeated, Gone(lines, o));
  }

  lemma {:induction false} RunBalances(s: State, es: seq<Event>, start: multiset<Line>, blank: Line -> bool)
    requires blank([]) && Balanced(s, start, blank) && TidyRun(s, es, blank)
    ensures Balanced(Run(s, es, blank), start, blank)
    decreases |es|
  {
    if es == [] {
    } else {
      match es[0] {
        case Write(line, n) => WriteBalances(s, line, n, start, blank);
        case Replay(decode, attempt, rewritten) =>
          ReplayBalances(s, Oracle(blank, decode, attempt), rewritten, start);
      }
      RunBalances(Step(s, es[0], blank), es[1..], start, blank);
    }
  }

  /** An event that leaves a surplus: a write that left a part of its line, or a pass that delivered
      something and could not rewrite the file. */
  predicate Spills(s: State, e: Event, blank: Line -> bool) {
    match e
    case Write(line, n) => !Whole(line, n) && !blank(Part(line, n))
    case Replay(decode, attempt, rewritten) =>
      !rewritten && Gone(Entries(s.file, blank), Oracle(blank, decode, attempt)) != []
  }

  predicate NeverSpills(s: State, es: seq<Event>, blank: Line -> bool)
    decreases |es|
  {
    es == [] || (!Spills(s, es[0], blank) && NeverSpills(Step(s, es[0], blank), es[1..], blank))
  }

  function Surplus(s: State): nat { |s.scraps| + |s.repeated| }

  lemma {:induction false} SurplusIff(s: State, es: seq<Event>, blank: Line -> bool)
    ensures Surplus(Run(s, es, blank)) >= Surplus(s)
    ensures Surplus(Run(s, es, blank)) == Surplus(s) <==> NeverSpills(s, es, blank)
    decreases |es|
  {
    if es == [] {
    } else {
      SurplusIff(Step(s, es[0], blank), es[1..], blank);
    }
  }

  lemma {:induction false} NothingLeftOver(d: multiset<Line>, scraps: seq<Line>, repeated: seq<Line>)
    ensures d == d + multiset(scraps) + multiset(repeated) <==> |scraps| + |repeated| == 0
  {
    var all := d + multiset(scraps) + multiset(repeated);
    assert |all| == |d| + |scraps| + |repeated|;
  }

  function Begin(file: seq<Byte>): State { State(file, [], [], [], []) }

  /** Conservation over every run of writes and replay passes in which no write lands behind an open
      line, whatever fails: nothing that was there or written is lost, it is on disk or delivered; and
      the two sides are equal if and only if no write left a part behind and every pass that delivered
      anything rewrote the file. */
  lemma {:induction false} Conservation(file: seq<Byte>, es: seq<Event>, blank: Line -> bool)
    requires blank([]) && TidyRun(Begin(file), es, blank)
    ensures var (s, start) := (Run(Begin(file), es, blank), multiset(Entries(file, blank)));
            && start + multiset(s.written) <= multiset(Entries(s.file, blank)) + multiset(s.delivered)
            && (start + multiset(s.written) == multiset(Entries(s.file, blank)) + multiset(s.delivered)
                <==> NeverSpills(Begin(file), es, blank))
  {
    var (s, start) := (Run(Begin(file), es, blank), multiset(Entries(file, blank)));
    RunBalances(Begin(file), es, start, blank);
    SurplusIff(Begin(file), es, blank);
    NothingLeftOver(start + multiset(s.written), s.scraps, s.repeated);
  }

  /** And a write that does land behind an open line loses its entry, from every state that balances:
      after a write that stopped short on a clean file, the next whole write is neither on disk nor
      delivered. */
  lemma {:induction false} OpenLineLoses(s: State, first: Line, n: nat, line: Line, start: multiset<Line>,
                                         blank: Line -> bool)
    requires blank([]) && Clean(s.file) && 0 < n <= |first| && NEWLINE !in first
    requires NEWLINE !in line && !blank(line)
    requires start + multiset(s.written) == multiset(Entries(s.file, blank)) + multiset(s.delivered)
    ensures var t := Run(s, [Write(first, n), Write(line, |line| + 1)], blank);
            !(start + multiset(t.written) <= multiset(Entries(t.file, blank)) + multiset(t.delivered))
  {
    var part := first[..n];
    var a := Step(s, Write(first, n), blank);
    var t := Step(a, Write(line, |line| + 1), blank);
    var es := [Write(first, n), Write(line, |line| + 1)];
    assert es[1..] == [Write(line, |line| + 1)] && es[1..][1..] == [];
    assert Run(s, es, blank) == Run(a, es[1..], blank) == Run(t, es[1..][1..], blank) == t;
    BehindOpenLine(s.file, part, line, blank);
    OneMore(start, s.written, [line]);
    OneMore(multiset{}, Entries(s.file, blank), When(!blank(part + line), part + line));
    assert part + line != line by {
      assert |part + line| > |line|;
    }
    var count := multiset(Entries(s.file, blank))[line] + multiset(s.delivered)[line];
    assert (start + multiset(t.written))[line] == count + 1;
    assert (multiset(Entries(t.file, blank)) + multiset(t.delivered))[line] == count;
  }

  lemma {:induction false} BehindOpenLine(data: seq<Byte>, part: Line, line: Line, blank: Line -> bool)
    requires blank([]) && Clean(data) && NEWLINE !in part && NEWLINE !in line
    ensures Entries(Appended(data + part, line), blank) == Entries(data, blank) + When(!blank(part + line), part + line)
  {
    assert Appended(data + part, line) == Appended(data, part + line);
    AppendedParts(data, part + line);
    var p := Split(data, NEWLINE);
    NonBlankConcat(Glued(p, part + line), [[]], blank);
    SingleLine([], blank);
    assert p[|p| - 1] + (part + line) == part + line;
    assert Glued(p, part + line)[..|p| - 1] == p[..|p| - 1];
  }
}
