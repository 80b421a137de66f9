/** The bounded content outbox (`internal/events/content_wal.go`): rotation by size, eviction of the
    oldest files, and pruning of confirmed ones. */
module ContentWal {
  /** `pos` is the place in the order of appends, `size` the encoded line with its newline; an entry
      written behind the bytes of a failed write shares its line and is not legible. */
  datatype Entry = Entry(pos: nat, size: nat, legible: bool)

  /** `torn` counts bytes left by writes that failed half-way, `dirty` says some are the last bytes. */
  datatype File = File(entries: seq<Entry>, torn: nat, dirty: bool)

  const NEW_FILE := File([], 0, false)

  /** The files in the order they were created, which is the order of their names.  When a file is
      open it is the last; `evicted` is history. */
  datatype Wal = Wal(files: seq<File>, open: bool, curBytes: nat, next: nat, evicted: seq<Entry>)

  datatype Limits = Limits(maxBytes: nat, maxFiles: nat)

  const EMPTY := Wal([], false, 0, 0, [])

  /** How an append meets the disk. */
  datatype Disk = NotEncodable | OpenFails | WriteFails(torn: nat) | Written

  function Size(es: seq<Entry>): nat
    decreases |es|
  {
    if es == [] then 0 else Size(es[..|es| - 1]) + es[|es| - 1].size
  }

  function EntriesOf(files: seq<File>): seq<Entry>
    decreases |files|
  {
    if files == [] then [] else EntriesOf(files[..|files| - 1]) + files[|files| - 1].entries
  }

  // ---------------------------------------------------------------------------------------
  // The operations.
  // ---------------------------------------------------------------------------------------

  function Evict(l: Limits, s: Wal): Wal {
    if |s.files| <= l.maxFiles || l.maxFiles == 0 then s
    else
      var over := |s.files| - l.maxFiles;
      s.(files := s.files[over..], evicted := s.evicted + EntriesOf(s.files[..over]))
  }

  predicate MustRotate(l: Limits, s: Wal, incoming: nat) {
    s.open && s.curBytes > 0 && s.curBytes + incoming > l.maxBytes
  }

  function Ensure(l: Limits, s: Wal, incoming: nat, opens: bool): Wal {
    if s.open && !MustRotate(l, s, incoming) then s
    else if !opens then s.(open := false)
    else Evict(l, s.(files := s.files + [NEW_FILE], open := true, curBytes := 0))
  }

  /** The last file, changed. */
  function Replaced(s: Wal, g: File, curBytes: nat): Wal
    requires s.files != []
  {
    s.(files := s.files[|s.files| - 1 := g], curBytes := curBytes)
  }

  function Torn(f: File, n: nat): File { f.(torn := f.torn + n, dirty := f.dirty || n > 0) }

  function Grown(f: File, e: Entry): File { f.(entries := f.entries + [e.(legible := !f.dirty)], dirty := false) }

  function Write(s: Wal, e: Entry, d: Disk): Wal
    requires s.files != []
  {
    var f := s.files[|s.files| - 1];
    match d
    case WriteFails(n) => Replaced(s, Torn(f, n), s.curBytes)
    case Written => Replaced(s, Grown(f, e), s.curBytes + e.size)
    case _ => s
  }

  function Bumped(s: Wal): Wal { s.(next := s.next + 1) }

  function AfterAppend(l: Limits, s: Wal, size: nat, d: Disk): Wal {
    if d.NotEncodable? then Bumped(s)
    else
      var t := Ensure(l, s, size, !d.OpenFails?);
      if t.open && t.files != [] then Bumped(Write(t, Entry(s.next, size, true), d)) else Bumped(t)
  }

  /** Opening a file does not look at the append counter, nor does writing to it. */
  lemma {:induction false} EnsureIgnoresCounter(l: Limits, s: Wal, incoming: nat, opens: bool)
    ensures Ensure(l, Bumped(s), incoming, opens) == Bumped(Ensure(l, s, incoming, opens))
  {}

  lemma {:induction false} WriteIgnoresCounter(s: Wal, e: Entry, d: Disk)
    requires s.files != []
    ensures Write(Bumped(s), e, d) == Bumped(Write(s, e, d))
  {}

  class ContentWAL {
    var files: seq<File>
    var open: bool
    var curBytes: nat
    var next: nat
    ghost var evicted: seq<Entry>
    const limits: Limits

    ghost function View(): Wal
      reads this
    {
      Wal(files, open, curBytes, next, evicted)
    }

    /** `NewContentWAL` over an empty directory; non-positive limits fall back to the defaults. */
    constructor (maxBytes: int, maxFiles: int)
      ensures View() == EMPTY && limits.maxFiles > 0 && limits.maxBytes > 0
      ensures maxBytes > 0 ==> limits.maxBytes == maxBytes
      ensures maxFiles > 0 ==> limits.maxFiles == maxFiles
    {
      files, open, curBytes, next, evicted := [], false, 0, 0, [];
      limits := Limits(if maxBytes <= 0 then 20 * 1024 * 1024 else maxBytes, if maxFiles <= 0 then 100 else maxFiles);
    }

    method EvictBeyondCap()
      requires limits.maxFiles > 0
      modifies this`files, this`evicted
      ensures View() == Evict(limits, old(View()))
      ensures |old(files)| <= limits.maxFiles ==> files == old(files) && evicted == old(evicted)
      ensures |old(files)| > limits.maxFiles ==>
                var over := |old(files)| - limits.maxFiles;
                files == old(files)[over..] && evicted == old(evicted) + EntriesOf(old(files)[..over])
    {
      if |files| <= limits.maxFiles {
        return;
      }
      var over := |files| - limits.maxFiles;
      var i := 0;
      while over > 0
        invariant 0 <= i == |old(files)| - limits.maxFiles - over <= |old(files)| - limits.maxFiles
        invariant files == old(files)[i..]
        invariant evicted == old(evicted) + EntriesOf(old(files)[..i])
      {
        assert old(files)[..i + 1][..i] == old(files)[..i];
        evicted := evicted + files[0].entries;
        files := files[1..];
        i := i + 1;
        over := over - 1;
      }
    }

    method EnsureFile(incoming: nat, opens: bool)
      requires limits.maxFiles > 0
      modifies this
      ensures View() == Ensure(limits, old(View()), incoming, opens)
    {
      if open && curBytes > 0 && curBytes + incoming > limits.maxBytes {
        open := false;
      }
      if open {
        return;
      }
      if !opens {
        return;
      }
      files := files + [NEW_FILE];
      open := true;
      curBytes := 0;
      EvictBeyondCap();
    }

    method Append(size: nat, d: Disk)
      requires limits.maxFiles > 0
      modifies this
      ensures View() == AfterAppend(limits, old(View()), size, d)
    {
      ghost var before := View();
      var e := Entry(next, size, true);
      next := next + 1;
      if d.NotEncodable? {
        return;
      }
      EnsureFile(size, !d.OpenFails?);
      EnsureIgnoresCounter(limits, before, size, !d.OpenFails?);
      ghost var t := Ensure(limits, before, size, !d.OpenFails?);
      assert View() == Bumped(t);
      if open && files != [] {
        WriteIgnoresCounter(t, e, d);
        WriteEntry(e, d);
      }
    }

    /** The write itself; what a failed one leaves behind is not counted. */
    method WriteEntry(e: Entry, d: Disk)
      requires files != []
      modifies this`files, this`curBytes
      ensures View() == Write(old(View()), e, d)
    {
      var last := |files| - 1;
      if d.WriteFails? {
        var f := files[last];
        files := files[last := f.(torn := f.torn + d.torn, dirty := f.dirty || d.torn > 0)];
        return;
      }
      if d.Written? {
        var f := files[last];
        files := files[last := f.(entries := f.entries + [e.(legible := !f.dirty)], dirty := false)];
        curBytes := curBytes + e.size;
      }
    }
  }

  // ---------------------------------------------------------------------------------------
  // Whole runs.
  // ---------------------------------------------------------------------------------------

  datatype Event =
    | Append(size: nat, disk: Disk)
    | Prune(confirmed: File -> bool)
    | Restart

  /** The files a prune leaves; the last one is spared while it is open. */
  function Pruned(files: seq<File>, confirmed: File -> bool, spare: bool): seq<File>
    decreases |files|
  {
    if files == [] then []
    else
      var (before, f) := (Pruned(files[..|files| - 1], confirmed, false), files[|files| - 1]);
      if confirmed(f) && !spare then before else before + [f]
  }

  function Step(l: Limits, s: Wal, e: Event): Wal {
    match e
    case Append(size, d) => AfterAppend(l, s, size, d)
    case Prune(confirmed) => s.(files := Pruned(s.files, confirmed, s.open))
    case Restart => s.(open := false, curBytes := 0)
  }

  function Run(l: Limits, s: Wal, es: seq<Event>): Wal
    decreases |es|
  {
    if es == [] then s else Run(l, Step(l, s, es[0]), es[1..])
  }

  /** Within the byte limit, or a single entry. */
  predicate Fits(l: Limits, f: File) { Size(f.entries) <= l.maxBytes || |f.entries| <= 1 }

  predicate Positive(f: File) { forall e :: e in f.entries ==> e.size > 0 }

  /** Every entry before `pos`. */
  predicate Before(f: File, pos: nat) { forall e :: e in f.entries ==> e.pos < pos }

  predicate Precedes(f: File, g: File) { forall x, y :: x in f.entries && y in g.entries ==> x.pos < y.pos }

  predicate InOrder(files: seq<File>) { forall i, j :: 0 <= i < j < |files| ==> Precedes(files[i], files[j]) }

  predicate After(f: File, pos: nat) { forall e :: e in f.entries ==> pos < e.pos }

  predicate Sound(l: Limits, f: File, next: nat) { Fits(l, f) && Positive(f) && Before(f, next) }

  predicate AllSound(l: Limits, files: seq<File>, next: nat) { forall f :: f in files ==> Sound(l, f, next) }

  /** Everything evicted is older than everything left. */
  predicate EvictedFirst(evicted: seq<Entry>, files: seq<File>) {
    forall x, f :: x in evicted && f in files ==> After(f, x.pos)
  }

  predicate EvictedBefore(evicted: seq<Entry>, next: nat) { forall x :: x in evicted ==> x.pos < next }

  /** The open file is the last, and its bytes are counted. */
  predicate OpenIsLast(s: Wal) {
    s.open ==> s.files != [] && s.curBytes == Size(s.files[|s.files| - 1].entries)
  }

  ghost predicate Core(l: Limits, s: Wal) {
    && AllSound(l, s.files, s.next) && InOrder(s.files)
    && EvictedFirst(s.evicted, s.files) && EvictedBefore(s.evicted, s.next)
    && OpenIsLast(s)
  }

  ghost predicate Inv(l: Limits, s: Wal) { Core(l, s) && |s.files| <= l.maxFiles && l.maxFiles > 0 }

  lemma {:induction false} EntriesOfMeans(files: seq<File>, e: Entry)
    requires e in EntriesOf(files)
    ensures exists i :: 0 <= i < |files| && e in files[i].entries
    decreases |files|
  {
    var n := |files| - 1;
    if e in files[n].entries {
    } else {
      EntriesOfMeans(files[..n], e);
      var i :| 0 <= i < n && e in files[..n][i].entries;
      assert e in files[i].entries;
    }
  }

  /** An entry of an older file is older. */
  lemma {:induction false} OlderFile(files: seq<File>, over: int, x: Entry, j: int)
    requires InOrder(files) && 0 <= over <= j < |files| && x in EntriesOf(files[..over])
    ensures After(files[j], x.pos)
  {
    EntriesOfMeans(files[..over], x);
    var i :| 0 <= i < over && x in files[..over][i].entries;
    assert Precedes(files[i], files[j]);
  }

  lemma {:induction false} OlderThanNext(l: Limits, files: seq<File>, over: int, x: Entry, next: nat)
    requires AllSound(l, files, next) && 0 <= over <= |files| && x in EntriesOf(files[..over])
    ensures x.pos < next
  {
    EntriesOfMeans(files[..over], x);
    var i :| 0 <= i < over && x in files[..over][i].entries;
    assert files[i] in files && x in files[i].entries;
  }

  lemma {:induction false} EvictKeepsOrder(l: Limits, s: Wal)
    requires Core(l, s) && 0 < l.maxFiles < |s.files|
    ensures EvictedFirst(Evict(l, s).evicted, Evict(l, s).files)
    ensures EvictedBefore(Evict(l, s).evicted, s.next)
  {
    var over := |s.files| - l.maxFiles;
    var t := Evict(l, s);
    forall x | x in t.evicted ensures x.pos < s.next {
      if x in EntriesOf(s.files[..over]) {
        OlderThanNext(l, s.files, over, x, s.next);
      }
    }
    forall x, f | x in t.evicted && f in t.files ensures After(f, x.pos) {
      var j :| 0 <= j < |t.files| && t.files[j] == f;
      assert f == s.files[over + j] && f in s.files;
      if x in EntriesOf(s.files[..over]) {
        OlderFile(s.files, over, x, over + j);
      }
    }
  }

  lemma {:induction false} EvictKeepsFiles(l: Limits, s: Wal)
    requires Core(l, s) && 0 < l.maxFiles < |s.files|
    ensures AllSound(l, Evict(l, s).files, s.next) && InOrder(Evict(l, s).files)
  {
    var t := Evict(l, s);
    var over := |s.files| - l.maxFiles;
    assert forall j :: 0 <= j < |t.files| ==> t.files[j] == s.files[over + j];
    forall f | f in t.files ensures Sound(l, f, s.next) {
      var j :| 0 <= j < |t.files| && t.files[j] == f;
      assert s.files[over + j] in s.files;
    }
  }

  lemma {:induction false} EvictKeepsCore(l: Limits, s: Wal)
    requires Core(l, s) && l.maxFiles > 0
    ensures Core(l, Evict(l, s)) && |Evict(l, s).files| <= l.maxFiles
    ensures s.open ==> Evict(l, s).files != [] && Evict(l, s).files[|Evict(l, s).files| - 1] == s.files[|s.files| - 1]
  {
    if |s.files| > l.maxFiles {
      EvictKeepsOrder(l, s);
      EvictKeepsFiles(l, s);
    }
  }

  lemma {:induction false} NewFileKeepsCore(l: Limits, s: Wal)
    requires Core(l, s)
    ensures Core(l, s.(files := s.files + [NEW_FILE], open := true, curBytes := 0))
  {
    var blank := NEW_FILE;
    assert Sound(l, blank, s.next);
    assert (s.files + [blank])[|s.files|] == blank;
  }

  lemma {:induction false} EnsureKeepsInv(l: Limits, s: Wal, incoming: nat, opens: bool)
    requires Inv(l, s)
    ensures Inv(l, Ensure(l, s, incoming, opens))
    ensures var t := Ensure(l, s, incoming, opens);
            t.next == s.next && (t.open ==> t.curBytes == 0 || t.curBytes + incoming <= l.maxBytes)
  {
    if !(s.open && !MustRotate(l, s, incoming)) && opens {
      NewFileKeepsCore(l, s);
      EvictKeepsCore(l, s.(files := s.files + [NEW_FILE], open := true, curBytes := 0));
    }
  }

  lemma {:induction false} SizeAfter(es: seq<Entry>, e: Entry)
    ensures Size(es + [e]) == Size(es) + e.size
  {
    assert (es + [e])[..|es|] == es;
  }

  lemma {:induction false} EntriesHaveBytes(f: File)
    requires Positive(f) && f.entries != []
    ensures Size(f.entries) > 0
  {
    assert f.entries[|f.entries| - 1] in f.entries;
  }

  /** The last file gains entry e, which is newer than everything. */
  lemma {:induction false} GrownFile(l: Limits, f: File, e: Entry)
    requires Sound(l, f, e.pos) && e.size > 0
    requires Size(f.entries) == 0 || Size(f.entries) + e.size <= l.maxBytes
    ensures Sound(l, Grown(f, e), e.pos + 1)
  {
    var (x, g) := (e.(legible := !f.dirty), Grown(f, e));
    SizeAfter(f.entries, x);
    forall y | y in g.entries ensures y.size > 0 && y.pos < e.pos + 1 {
      assert y == x || y in f.entries;
    }
    if f.entries != [] {
      EntriesHaveBytes(f);
    }
  }

  /** What the last file may become while the counter moves on. */
  ghost predicate Successor(l: Limits, s: Wal, g: File) {
    && s.files != [] && Sound(l, g, s.next + 1)
    && forall e :: e in g.entries ==> e in s.files[|s.files| - 1].entries || e.pos == s.next
  }

  lemma {:induction false} ReplacedSound(l: Limits, s: Wal, g: File, n: nat)
    requires Core(l, s) && Successor(l, s, g)
    ensures AllSound(l, Replaced(s, g, n).files, s.next + 1)
  {
    forall f | f in Replaced(s, g, n).files ensures Sound(l, f, s.next + 1) {
      assert f == g || f in s.files;
    }
  }

  lemma {:induction false} ReplacedInOrder(l: Limits, s: Wal, g: File, n: nat)
    requires Core(l, s) && Successor(l, s, g)
    ensures InOrder(Replaced(s, g, n).files)
  {
    var files := Replaced(s, g, n).files;
    forall i, j | 0 <= i < j < |files| ensures Precedes(files[i], files[j]) {
      assert s.files[i] in s.files && Precedes(s.files[i], s.files[j]);
      assert Before(s.files[i], s.next);
    }
  }

  lemma {:induction false} ReplacedEvicted(l: Limits, s: Wal, g: File, n: nat)
    requires Core(l, s) && Successor(l, s, g)
    ensures EvictedFirst(s.evicted, Replaced(s, g, n).files)
  {
    forall x, f | x in s.evicted && f in Replaced(s, g, n).files ensures After(f, x.pos) {
      assert s.files[|s.files| - 1] in s.files;
      assert f == g || f in s.files;
    }
  }

  lemma {:induction false} ReplacedKeepsInv(l: Limits, s: Wal, g: File)
    requires Inv(l, s) && s.open && Successor(l, s, g)
    ensures Inv(l, Bumped(Replaced(s, g, Size(g.entries))))
  {
    ReplacedSound(l, s, g, Size(g.entries));
    ReplacedInOrder(l, s, g, Size(g.entries));
    ReplacedEvicted(l, s, g, Size(g.entries));
  }

  lemma {:induction false} BumpKeepsInv(l: Limits, s: Wal)
    requires Inv(l, s)
    ensures Inv(l, Bumped(s))
  {
    forall f | f in s.files ensures Sound(l, f, s.next + 1) {
      assert Sound(l, f, s.next);
    }
  }

  lemma {:induction false} LastIsSound(l: Limits, t: Wal)
    requires Core(l, t) && t.open
    ensures t.files != [] && Sound(l, t.files[|t.files| - 1], t.next)
    ensures t.curBytes == Size(t.files[|t.files| - 1].entries)
  {
    assert t.files[|t.files| - 1] in t.files;
  }

  lemma {:induction false} GrownIsSuccessor(l: Limits, t: Wal, f: File, e: Entry)
    requires t.files != [] && f == t.files[|t.files| - 1] && Sound(l, f, t.next) && e.pos == t.next && e.size > 0
    requires Size(f.entries) == 0 || Size(f.entries) + e.size <= l.maxBytes
    ensures Successor(l, t, Grown(f, e)) && Size(Grown(f, e).entries) == Size(f.entries) + e.size
  {
    GrownFile(l, f, e);
    SizeAfter(f.entries, e.(legible := !f.dirty));
    forall y | y in Grown(f, e).entries ensures y in f.entries || y.pos == t.next {
    }
  }

  lemma {:induction false} WrittenKeepsInv(l: Limits, t: Wal, size: nat)
    requires Inv(l, t) && t.open && size > 0 && (t.curBytes == 0 || t.curBytes + size <= l.maxBytes)
    ensures Inv(l, Bumped(Write(t, Entry(t.next, size, true), Written)))
  {
    LastIsSound(l, t);
    var (f, e) := (t.files[|t.files| - 1], Entry(t.next, size, true));
    GrownIsSuccessor(l, t, f, e);
    ReplacedKeepsInv(l, t, Grown(f, e));
  }

  lemma {:induction false} TornKeepsInv(l: Limits, t: Wal, e: Entry, n: nat)
    requires Inv(l, t) && t.open
    ensures Inv(l, Bumped(Write(t, e, WriteFails(n))))
  {
    LastIsSound(l, t);
    var f := t.files[|t.files| - 1];
    var g := Torn(f, n);
    assert Successor(l, t, g);
    ReplacedKeepsInv(l, t, g);
    assert Write(t, e, WriteFails(n)) == Replaced(t, g, Size(g.entries));
  }

  lemma {:induction false} AppendKeepsInv(l: Limits, s: Wal, size: nat, d: Disk)
    requires Inv(l, s) && size > 0
    ensures Inv(l, AfterAppend(l, s, size, d))
  {
    if d.NotEncodable? {
      BumpKeepsInv(l, s);
    } else {
      var t := Ensure(l, s, size, !d.OpenFails?);
      EnsureKeepsInv(l, s, size, !d.OpenFails?);
      if t.open && d.Written? {
        WrittenKeepsInv(l, t, size);
      } else if t.open && d.WriteFails? {
        TornKeepsInv(l, t, Entry(s.next, size, true), d.torn);
      } else {
        BumpKeepsInv(l, t);
      }
    }
  }

  /** An append starts a new file exactly when none is open or the line would not fit behind what is
      there, and it drops exactly the oldest files beyond the cap. */
  lemma {:induction false} AppendDrops(l: Limits, s: Wal, size: nat)
    requires l.maxFiles > 0 && (s.open ==> s.files != [])
    ensures var t := AfterAppend(l, s, size, Written);
            var stays := s.open && (s.curBytes == 0 || s.curBytes + size <= l.maxBytes);
            var over := if stays || |s.files| < l.maxFiles then 0 else |s.files| + 1 - l.maxFiles;
            && |t.files| == |s.files| - over + (if stays then 0 else 1)
            && over <= |s.files| && t.evicted == s.evicted + EntriesOf(s.files[..over])
            && (forall i :: 0 <= i < |t.files| - 1 ==> t.files[i] == s.files[over + i])
  {
    var stays := s.open && (s.curBytes == 0 || s.curBytes + size <= l.maxBytes);
    if stays {
      assert EntriesOf(s.files[..0]) == [] && s.evicted + [] == s.evicted;
    } else {
      var u := s.(files := s.files + [NEW_FILE], open := true, curBytes := 0);
      if |s.files| < l.maxFiles {
        assert EntriesOf(s.files[..0]) == [] && s.evicted + [] == s.evicted;
      } else {
        var over := |s.files| + 1 - l.maxFiles;
        assert u.files[..over] == s.files[..over];
      }
    }
  }

  /** After a restart the first append starts a file of its own. */
  lemma {:induction false} RestartStartsNewFile(l: Limits, s: Wal, size: nat)
    requires l.maxFiles > 0
    ensures var t := AfterAppend(l, Step(l, s, Restart), size, Written);
            t.open && t.files != [] && t.files[|t.files| - 1] == File([Entry(s.next, size, true)], 0, false)
  {}

  /** How many appends a run makes. */
  function Appends(es: seq<Event>): nat
    decreases |es|
  {
    if es == [] then 0 else (if es[0].Append? then 1 else 0) + Appends(es[1..])
  }

  lemma {:induction false} StepBelowCap(l: Limits, s: Wal, e: Event)
    requires s.evicted == [] && l.maxFiles > 0 && (e.Append? ==> |s.files| < l.maxFiles)
    ensures Step(l, s, e).evicted == []
    ensures |Step(l, s, e).files| <= |s.files| + if e.Append? then 1 else 0
  {
    if e.Prune? {
      PrunedIsShorter(s.files, e.confirmed, s.open);
    }
  }

  lemma {:induction false} PrunedIsShorter(files: seq<File>, confirmed: File -> bool, spare: bool)
    ensures |Pruned(files, confirmed, spare)| <= |files|
    decreases |files|
  {
    if files == [] {
    } else {
      PrunedIsShorter(files[..|files| - 1], confirmed, false);
    }
  }

  /** Nothing is evicted by a run of no more appends than there may be files. */
  lemma {:induction false} NoEvictionBelowCap(l: Limits, s: Wal, es: seq<Event>)
    requires s.evicted == [] && l.maxFiles > 0 && |s.files| + Appends(es) <= l.maxFiles
    ensures Run(l, s, es).evicted == []
    decreases |es|
  {
    if es == [] {
    } else {
      StepBelowCap(l, s, es[0]);
      NoEvictionBelowCap(l, Step(l, s, es[0]), es[1..]);
    }
  }

  /** A prune takes out the confirmed files, all but the one that is open, and nothing else. */
  lemma {:induction false} PruneTakesOut(files: seq<File>, confirmed: File -> bool, spare: bool, f: File)
    ensures multiset(Pruned(files, confirmed, spare))[f] ==
            if !confirmed(f) then multiset(files)[f]
            else if spare && files != [] && f == files[|files| - 1] then 1 else 0
    decreases |files|
  {
    if files == [] {
    } else {
      var (init, g) := (files[..|files| - 1], files[|files| - 1]);
      PruneTakesOut(init, confirmed, false, f);
      assert files == init + [g];
    }
  }

  /** A successful append is in the open file, which eviction and prunes spare, and a reader can make
      it out exactly when the file it went to did not end in the bytes of a failed write. */
  lemma {:induction false} AppendLands(l: Limits, s: Wal, size: nat)
    requires Inv(l, s) && size > 0
    ensures var t := AfterAppend(l, s, size, Written);
            var spoiled := s.open && !MustRotate(l, s, size) && s.files[|s.files| - 1].dirty;
            t.open && t.files != [] && Entry(s.next, size, !spoiled) in t.files[|t.files| - 1].entries
  {
    EnsureKeepsInv(l, s, size, true);
    var t := Ensure(l, s, size, true);
    var f := t.files[|t.files| - 1];
    if !s.open || MustRotate(l, s, size) {
      NewFileKeepsCore(l, s);
      EvictKeepsCore(l, s.(files := s.files + [NEW_FILE], open := true, curBytes := 0));
    }
    var e := Entry(s.next, size, !f.dirty);
    assert (f.entries + [e])[|f.entries|] == e;
  }

  lemma {:induction false} PrunedMembers(files: seq<File>, confirmed: File -> bool, spare: bool, f: File)
    requires f in Pruned(files, confirmed, spare)
    ensures f in files
    decreases |files|
  {
    var n := |files| - 1;
    if f in Pruned(files[..n], confirmed, false) {
      PrunedMembers(files[..n], confirmed, false, f);
    }
  }

  lemma {:induction false} PrunedInOrder(files: seq<File>, confirmed: File -> bool, spare: bool)
    requires InOrder(files)
    ensures InOrder(Pruned(files, confirmed, spare)) && |Pruned(files, confirmed, spare)| <= |files|
    decreases |files|
  {
    if files == [] {
    } else {
      var n := |files| - 1;
      var before := Pruned(files[..n], confirmed, false);
      assert InOrder(files[..n]);
      PrunedInOrder(files[..n], confirmed, false);
      forall i | 0 <= i < |before| ensures Precedes(before[i], files[n]) {
        PrunedMembers(files[..n], confirmed, false, before[i]);
        var k :| 0 <= k < n && files[..n][k] == before[i];
        assert Precedes(files[k], files[n]);
      }
    }
  }

  lemma {:induction false} PruneKeepsInv(l: Limits, s: Wal, confirmed: File -> bool)
    requires Inv(l, s)
    ensures Inv(l, Step(l, s, Prune(confirmed)))
    ensures s.open ==> var left := Step(l, s, Prune(confirmed)).files;
              left != [] && left[|left| - 1] == s.files[|s.files| - 1]
  {
    var left := Pruned(s.files, confirmed, s.open);
    PrunedInOrder(s.files, confirmed, s.open);
    forall f | f in left ensures f in s.files {
      PrunedMembers(s.files, confirmed, s.open, f);
    }
  }

  /** Over every run of appends, failures, prunes and restarts. */
  lemma {:induction false} RunKeepsInv(l: Limits, s: Wal, es: seq<Event>)
    requires Inv(l, s) && forall e :: e in es && e.Append? ==> e.size > 0
    ensures Inv(l, Run(l, s, es))
    decreases |es|
  {
    if es == [] {
    } else {
      match es[0] {
        case Append(size, d) =>
          assert es[0] in es;
          AppendKeepsInv(l, s, size, d);
        case Prune(confirmed) => PruneKeepsInv(l, s, confirmed);
        case Restart =>
      }
      RunKeepsInv(l, Step(l, s, es[0]), es[1..]);
    }
  }

  /** At most `maxFiles` files; each within `maxBytes` of complete entries or holding just one; every
      evicted entry older than every entry left; files in order of age. */
  lemma {:induction false} BoundedOutbox(l: Limits, es: seq<Event>)
    requires l.maxFiles > 0 && forall e :: e in es && e.Append? ==> e.size > 0
    ensures var s := Run(l, EMPTY, es);
            && |s.files| <= l.maxFiles && InOrder(s.files) && EvictedFirst(s.evicted, s.files)
            && forall f :: f in s.files ==> Fits(l, f)
  {
    RunKeepsInv(l, EMPTY, es);
    var s := Run(l, EMPTY, es);
    forall f | f in s.files ensures Fits(l, f) {
      assert Sound(l, f, s.next);
    }
  }

  function DiskBytes(f: File): nat { Size(f.entries) + f.torn }

  /** Bytes of failed writes are on disk but not in the count.  A run without them keeps the disk
      within the limit and every entry legible ... */
  predicate Clean(f: File) { f.torn == 0 && !f.dirty && forall e :: e in f.entries ==> e.legible }

  predicate TearsNothing(e: Event) { e.Append? && e.disk.WriteFails? ==> e.disk.torn == 0 }

  predicate AllClean(files: seq<File>) { forall f :: f in files ==> Clean(f) }

  lemma {:induction false} EnsureStaysClean(l: Limits, s: Wal, incoming: nat, opens: bool)
    requires AllClean(s.files)
    ensures AllClean(Ensure(l, s, incoming, opens).files)
  {
    var more := s.files + [NEW_FILE];
    assert forall f :: f in more ==> Clean(f);
    if |more| > l.maxFiles && l.maxFiles > 0 {
      assert forall f :: f in more[|more| - l.maxFiles..] ==> f in more;
    }
  }

  lemma {:induction false} WriteStaysClean(s: Wal, e: Entry, d: Disk)
    requires s.files != [] && AllClean(s.files) && (d.WriteFails? ==> d.torn == 0)
    ensures AllClean(Write(s, e, d).files)
  {
    var n := |s.files| - 1;
    var t := Write(s, e, d);
    assert Clean(s.files[n]);
    forall f | f in t.files ensures Clean(f) {
      var i :| 0 <= i < |t.files| && t.files[i] == f;
      assert i < n ==> t.files[i] == s.files[i];
    }
  }

  lemma {:induction false} StepStaysClean(l: Limits, s: Wal, e: Event)
    requires AllClean(s.files) && TearsNothing(e)
    ensures AllClean(Step(l, s, e).files)
  {
    match e
    case Append(size, d) =>
      EnsureStaysClean(l, s, size, !d.OpenFails?);
      var t := Ensure(l, s, size, !d.OpenFails?);
      if t.files != [] {
        WriteStaysClean(t, Entry(s.next, size, true), d);
      }
    case Prune(confirmed) =>
      forall f | f in Pruned(s.files, confirmed, s.open) ensures f in s.files {
        PrunedMembers(s.files, confirmed, s.open, f);
      }
    case Restart =>
  }

  lemma {:induction false} RunStaysClean(l: Limits, s: Wal, es: seq<Event>)
    requires AllClean(s.files) && forall e :: e in es ==> TearsNothing(e)
    ensures AllClean(Run(l, s, es).files)
    decreases |es|
  {
    if es == [] {
    } else {
      StepStaysClean(l, s, es[0]);
      RunStaysClean(l, Step(l, s, es[0]), es[1..]);
    }
  }

  lemma {:induction false} WholeWritesKeepTheLimit(l: Limits, es: seq<Event>, f: File)
    requires l.maxFiles > 0 && (forall e :: e in es && e.Append? ==> e.size > 0)
    requires (forall e :: e in es ==> TearsNothing(e)) && f in Run(l, EMPTY, es).files
    ensures DiskBytes(f) <= l.maxBytes || |f.entries| <= 1
    ensures forall e :: e in f.entries ==> e.legible
  {
    BoundedOutbox(l, es);
    RunStaysClean(l, EMPTY, es);
    assert Fits(l, f) && Clean(f);
  }

  /** ... and a single torn write is enough to break both: for all limits and every number of bytes
      short of the line, the file ends up over the limit by just those bytes, holding two entries of
      which the second cannot be read. */
  function TornRun(l: Limits, n: nat): seq<Event>
    requires l.maxBytes > 1
  {
    [Append(1, Written), Append(l.maxBytes - 1, WriteFails(n)), Append(l.maxBytes - 1, Written)]
  }

  lemma {:induction false} RunOne(l: Limits, s: Wal, e: Event, es: seq<Event>)
    ensures Run(l, s, [e] + es) == Run(l, Step(l, s, e), es)
  {
    assert ([e] + es)[1..] == es;
  }

  lemma {:induction false} RunOfThree(l: Limits, s: Wal, a: Event, b: Event, c: Event)
    ensures Run(l, s, [a, b, c]) == Step(l, Step(l, Step(l, s, a), b), c)
  {
    RunOne(l, s, a, [b, c]);
    assert [a] + [b, c] == [a, b, c];
    RunOne(l, Step(l, s, a), b, [c]);
    assert [b] + [c] == [b, c];
    RunOne(l, Step(l, Step(l, s, a), b), c, []);
    assert [c] + [] == [c];
  }

  lemma {:induction false} FirstEntry(l: Limits)
    requires l.maxFiles > 0
    ensures Step(l, EMPTY, Append(1, Written)) == Wal([File([Entry(0, 1, true)], 0, false)], true, 1, 1, [])
  {
    var grown := Ensure(l, EMPTY, 1, true);
    assert grown.files == [NEW_FILE];
    var none: seq<Entry> := [];
    assert none + [Entry(0, 1, true)] == [Entry(0, 1, true)];
    assert [NEW_FILE][0 := File([Entry(0, 1, true)], 0, false)] == [File([Entry(0, 1, true)], 0, false)];
  }

  lemma {:induction false} TornBytesAreNotCounted(l: Limits, n: nat)
    requires l.maxFiles > 0 && 0 < n < l.maxBytes - 1
    ensures var s := Run(l, EMPTY, TornRun(l, n));
            && |s.files| == 1 && |s.files[0].entries| == 2 && DiskBytes(s.files[0]) == l.maxBytes + n
            && !s.files[0].entries[1].legible
  {
    var (x, y) := (Entry(0, 1, true), Entry(2, l.maxBytes - 1, false));
    RunOfThree(l, EMPTY, Append(1, Written), Append(l.maxBytes - 1, WriteFails(n)), Append(l.maxBytes - 1, Written));
    FirstEntry(l);
    var a := Wal([File([x], 0, false)], true, 1, 1, []);
    var b := Step(l, a, Append(l.maxBytes - 1, WriteFails(n)));
    assert b == Wal([File([x], n, true)], true, 1, 2, []) by {
      assert a.files[0 := File([x], n, true)] == [File([x], n, true)];
    }
    var c := Step(l, b, Append(l.maxBytes - 1, Written));
    assert c.files == [File([x, y], n, false)] by {
      assert [x] + [y] == [x, y];
      assert b.files[0 := File([x, y], n, false)] == [File([x, y], n, false)];
    }
    var none: seq<Entry> := [];
    SizeAfter(none, x);
    assert none + [x] == [x];
    SizeAfter([x], y);
    assert [x] + [y] == [x, y];
  }
}
