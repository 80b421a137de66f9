/** The cache epoch of a worker pool (`internal/apphook/contentversion.go`). */
module ContentVersion {
  import opened Common
  import opened Text

  type Fingerprint = string -> string

  const BAR: char := '|'

  // ---------------------------------------------------------------------------------------
  // One child.
  // ---------------------------------------------------------------------------------------

  datatype Poll = Failed | Report(text: string)

  /** What a child publishes; `None` is "cannot state its content set". */
  function Published(fp: Fingerprint, p: Poll): Option<string> {
    if p.Failed? || p.text == "" then None else Some(fp(p.text))
  }

  class ChildContent {
    var degraded: bool
    var version: Option<string>

    constructor ()
      ensures version == None && !degraded
    {
      degraded, version := false, None;
    }

    method Publish(p: Poll, fp: Fingerprint)
      modifies this`version
      ensures version == Published(fp, p)
      ensures p.Failed? || p.text == "" ==> version == None
      ensures p.Report? && p.text != "" ==> version == Some(fp(p.text))
    {
      if p.Failed? || |p.text| == 0 {
        version := None;
        return;
      }
      version := Some(fp(p.text));
    }

    method State() returns (token: Option<string>)
      ensures token == Stated(Worker(degraded, version, true))
      ensures token.Some? <==> !degraded && version.Some? && version.value != ""
      ensures token.Some? ==> token == version
    {
      if degraded {
        return None;
      }
      if version.Some? && version.value != "" {
        return version;
      }
      return None;
    }
  }

  // ---------------------------------------------------------------------------------------
  // The pool.
  // ---------------------------------------------------------------------------------------

  datatype Worker = Worker(degraded: bool, version: Option<string>, healthy: bool)

  function Stated(w: Worker): (t: Option<string>)
    ensures t.Some? ==> t.value != ""
  {
    if !w.degraded && w.version.Some? && w.version.value != "" then w.version else None
  }

  /** Serving, but under a content set nobody can name. */
  predicate Unaccountable(w: Worker) { Stated(w).None? && w.healthy }

  predicate Accountable(ws: seq<Worker>) { forall i :: 0 <= i < |ws| ==> !Unaccountable(ws[i]) }

  function Tokens(ws: seq<Worker>): set<string>
    decreases |ws|
  {
    if ws == [] then {}
    else
      var t := Stated(ws[|ws| - 1]);
      Tokens(ws[..|ws| - 1]) + if t.Some? then {t.value} else {}
  }

  /** Byte-wise string order. */
  predicate Less(a: string, b: string)
    decreases |a|
  {
    if b == "" then false
    else if a == "" then true
    else a[0] < b[0] || (a[0] == b[0] && Less(a[1..], b[1..]))
  }

  lemma {:induction false} LessTotal(a: string, b: string)
    ensures a == b || Less(a, b) || Less(b, a)
    ensures !(Less(a, b) && Less(b, a)) && !Less(a, a)
    decreases |a|
  {
    if a != "" {
      if b != "" {
        LessTotal(a[1..], b[1..]);
        assert a == [a[0]] + a[1..] && b == [b[0]] + b[1..];
      }
      LessTotal(a[1..], a[1..]);
    }
  }

  lemma {:induction false} LessTransitive(a: string, b: string, c: string)
    requires Less(a, b) && Less(b, c)
    ensures Less(a, c)
    decreases |a|
  {
    if a != "" && a[0] == b[0] == c[0] {
      LessTransitive(a[1..], b[1..], c[1..]);
    }
  }

  predicate Ascending(s: seq<string>) { forall i, j :: 0 <= i < j < |s| ==> Less(s[i], s[j]) }

  function Insert(s: seq<string>, x: string): seq<string>
    decreases |s|
  {
    if s == [] || !Less(x, s[|s| - 1]) then s + [x] else Insert(s[..|s| - 1], x) + [s[|s| - 1]]
  }

  /** `sort.Strings`. */
  function Sort(s: seq<string>): seq<string>
    decreases |s|
  {
    if s == [] then [] else Insert(Sort(s[..|s| - 1]), s[|s| - 1])
  }

  function Elements(s: seq<string>): set<string>
    decreases |s|
  {
    if s == [] then {} else Elements(s[..|s| - 1]) + {s[|s| - 1]}
  }

  lemma {:induction false} ElementsIff(s: seq<string>, x: string)
    ensures x in Elements(s) <==> x in s
    decreases |s|
  {
    if s == [] {
    } else {
      ElementsIff(s[..|s| - 1], x);
      assert s == s[..|s| - 1] + [s[|s| - 1]];
    }
  }

  lemma {:induction false} InsertElements(s: seq<string>, x: string)
    ensures Elements(Insert(s, x)) == Elements(s) + {x}
    decreases |s|
  {
    if s == [] || !Less(x, s[|s| - 1]) {
      assert (s + [x])[..|s|] == s;
    } else {
      var (init, z) := (s[..|s| - 1], s[|s| - 1]);
      InsertElements(init, x);
      var r := Insert(init, x);
      assert (r + [z])[..|r|] == r;
    }
  }

  /** Everything in `s` is below `z`. */
  predicate AllBelow(s: seq<string>, z: string) { forall i :: 0 <= i < |s| ==> Less(s[i], z) }

  lemma {:induction false} InsertBelow(s: seq<string>, x: string, z: string)
    requires AllBelow(s, z) && Less(x, z)
    ensures AllBelow(Insert(s, x), z)
    decreases |s|
  {
    if s != [] && Less(x, s[|s| - 1]) {
      InsertBelow(s[..|s| - 1], x, z);
    }
  }

  lemma {:induction false} InsertAscends(s: seq<string>, x: string)
    requires Ascending(s) && x !in s
    ensures Ascending(Insert(s, x))
    decreases |s|
  {
    if s == [] {
    } else {
      var (init, z) := (s[..|s| - 1], s[|s| - 1]);
      LessTotal(x, z);
      assert z in s && forall y :: y in init ==> y in s;
      if Less(x, z) {
        InsertAscends(init, x);
        InsertBelow(init, x, z);
      } else {
        forall i | 0 <= i < |s| ensures Less(s[i], x) {
          if i < |s| - 1 {
            LessTransitive(s[i], z, x);
          }
        }
      }
    }
  }

  predicate Distinct(s: seq<string>) { forall i, j :: 0 <= i < j < |s| ==> s[i] != s[j] }

  lemma {:induction false} SortAscends(s: seq<string>)
    requires Distinct(s)
    ensures Ascending(Sort(s)) && Elements(Sort(s)) == Elements(s)
    decreases |s|
  {
    if s == [] {
    } else {
      var (init, x) := (s[..|s| - 1], s[|s| - 1]);
      SortAscends(init);
      ElementsIff(Sort(init), x);
      ElementsIff(init, x);
      assert x !in init;
      InsertAscends(Sort(init), x);
      InsertElements(Sort(init), x);
    }
  }

  lemma {:induction false} LastIsGreatest(s: seq<string>, x: string)
    requires Ascending(s) && x in Elements(s)
    ensures s != [] && (x == s[|s| - 1] || Less(x, s[|s| - 1]))
  {
    ElementsIff(s, x);
    var i :| 0 <= i < |s| && s[i] == x;
  }

  lemma {:induction false} WithoutLast(s: seq<string>)
    requires Ascending(s) && s != []
    ensures Elements(s[..|s| - 1]) == Elements(s) - {s[|s| - 1]}
  {
    var (init, z) := (s[..|s| - 1], s[|s| - 1]);
    ElementsIff(init, z);
    forall i | 0 <= i < |init| ensures init[i] != z {
      LessTotal(s[i], z);
    }
  }

  lemma {:induction false} SomeElement(s: seq<string>)
    ensures s == [] <==> Elements(s) == {}
  {
    assert s != [] ==> s[|s| - 1] in Elements(s);
  }

  /** A set has one ascending listing. */
  lemma {:induction false} ListingIsUnique(a: seq<string>, b: seq<string>)
    requires Ascending(a) && Ascending(b) && Elements(a) == Elements(b)
    ensures a == b
    decreases |a|
  {
    if a != [] && b != [] {
      var (x, y) := (a[|a| - 1], b[|b| - 1]);
      assert x in Elements(a) && y in Elements(b);
      LastIsGreatest(b, x);
      LastIsGreatest(a, y);
      LessTotal(x, y);
      WithoutLast(a);
      WithoutLast(b);
      ListingIsUnique(a[..|a| - 1], b[..|b| - 1]);
      assert a == a[..|a| - 1] + [x] && b == b[..|b| - 1] + [y];
    } else {
      SomeElement(a);
      SomeElement(b);
    }
  }

  /** What is fingerprinted for a list of distinct tokens. */
  function Composite(tokens: seq<string>): string { Join(Sort(tokens), BAR) }

  function Folded(tokens: seq<string>, fp: Fingerprint): Option<string> {
    if tokens == [] then None
    else if |tokens| == 1 then Some(tokens[0])
    else Some(fp(Composite(tokens)))
  }

  /** The pool's own listing of its tokens: first appearance, without repeats. */
  function Listing(ws: seq<Worker>): (r: seq<string>)
    decreases |ws|
  {
    if ws == [] then []
    else
      var (before, t) := (Listing(ws[..|ws| - 1]), Stated(ws[|ws| - 1]));
      if t.Some? && t.value !in Elements(before) then before + [t.value] else before
  }

  lemma {:induction false} ElementsAfter(s: seq<string>, x: string)
    ensures Elements(s + [x]) == Elements(s) + {x}
  {
    assert (s + [x])[..|s|] == s;
  }

  lemma {:induction false} ListingIsTokens(ws: seq<Worker>)
    ensures Elements(Listing(ws)) == Tokens(ws) && Distinct(Listing(ws))
    decreases |ws|
  {
    if ws == [] {
    } else {
      var (before, t) := (Listing(ws[..|ws| - 1]), Stated(ws[|ws| - 1]));
      ListingIsTokens(ws[..|ws| - 1]);
      if t.Some? {
        ElementsAfter(before, t.value);
        ElementsIff(before, t.value);
      }
    }
  }

  function Epoch(ws: seq<Worker>, fp: Fingerprint): Option<string> {
    if !Accountable(ws) then None else Folded(Listing(ws), fp)
  }

  /** `FilterPool.ContentVersion`. */
  method PoolContentVersion(ws: seq<Worker>, fp: Fingerprint) returns (epoch: Option<string>)
    ensures epoch == Epoch(ws, fp)
  {
    var seen: set<string> := {};
    var tokens: seq<string> := [];
    var i := 0;
    while i < |ws|
      invariant 0 <= i <= |ws|
      invariant Accountable(ws[..i])
      invariant tokens == Listing(ws[..i]) && seen == Elements(tokens)
    {
      var t := Stated(ws[i]);
      assert ws[..i + 1][..i] == ws[..i] && ws[..i + 1][i] == ws[i];
      if t.None? {
        if ws[i].healthy {
          assert Unaccountable(ws[i]);
          return None;
        }
      } else if t.value !in seen {
        ElementsAfter(tokens, t.value);
        seen := seen + {t.value};
        tokens := tokens + [t.value];
      }
      i := i + 1;
    }
    assert ws[..i] == ws;
    if |tokens| == 0 {
      return None;
    }
    if |tokens| == 1 {
      return Some(tokens[0]);
    }
    return Some(fp(Join(Sort(tokens), BAR)));
  }

  // ---------------------------------------------------------------------------------------
  // What the epoch means.
  // ---------------------------------------------------------------------------------------

  predicate Names(w: Worker) { !w.degraded && w.version.Some? && w.version.value != "" }

  lemma {:induction false} ListsSome(ws: seq<Worker>)
    ensures Listing(ws) == [] <==> forall i :: 0 <= i < |ws| ==> !Names(ws[i])
    decreases |ws|
  {
    if ws == [] {
    } else {
      var n := |ws| - 1;
      ListsSome(ws[..n]);
      assert forall i :: 0 <= i < n ==> ws[..n][i] == ws[i];
      if Names(ws[n]) && Listing(ws[..n]) == [] {
        assert Elements([]) == {};
      }
    }
  }

  /** The epoch is known exactly when every healthy worker names its content and some worker does. */
  lemma {:induction false} EpochKnownIff(ws: seq<Worker>, fp: Fingerprint)
    ensures Epoch(ws, fp).Some? <==>
            && (forall i :: 0 <= i < |ws| && ws[i].healthy ==> Names(ws[i]))
            && exists i :: 0 <= i < |ws| && Names(ws[i])
  {
    ListsSome(ws);
    assert forall i :: 0 <= i < |ws| ==> (Unaccountable(ws[i]) <==> ws[i].healthy && !Names(ws[i]));
  }

  lemma {:induction false} CompositeOfSet(a: seq<string>, b: seq<string>)
    requires Distinct(a) && Distinct(b) && Elements(a) == Elements(b)
    ensures Sort(a) == Sort(b) && |a| == |b|
  {
    SortAscends(a);
    SortAscends(b);
    ListingIsUnique(Sort(a), Sort(b));
    SortLength(a);
    SortLength(b);
  }

  lemma {:induction false} InsertLength(s: seq<string>, x: string)
    ensures |Insert(s, x)| == |s| + 1
    decreases |s|
  {
    if s != [] && Less(x, s[|s| - 1]) {
      InsertLength(s[..|s| - 1], x);
    }
  }

  lemma {:induction false} SortLength(s: seq<string>)
    ensures |Sort(s)| == |s|
    decreases |s|
  {
    if s == [] {
    } else {
      SortLength(s[..|s| - 1]);
      InsertLength(Sort(s[..|s| - 1]), s[|s| - 1]);
    }
  }

  /** The epoch is known exactly when every healthy worker can state its content and some worker does,
      and then it depends on the set of tokens only: neither order nor repeats matter. */
  lemma {:induction false} EpochIsOfTheSet(a: seq<Worker>, b: seq<Worker>, fp: Fingerprint)
    ensures Epoch(a, fp).Some? <==> Accountable(a) && Tokens(a) != {}
    ensures Accountable(a) && Accountable(b) && Tokens(a) == Tokens(b) ==> Epoch(a, fp) == Epoch(b, fp)
  {
    ListingIsTokens(a);
    ListingIsTokens(b);
    if Listing(a) != [] {
      assert Listing(a)[|Listing(a)| - 1] in Elements(Listing(a));
    }
    if Tokens(a) == Tokens(b) {
      CompositeOfSet(Listing(a), Listing(b));
      if |Listing(a)| == 1 {
        assert Listing(a)[..0] == [] && Listing(b)[..0] == [];
        assert Elements(Listing(a)) == {Listing(a)[0]} && Elements(Listing(b)) == {Listing(b)[0]};
        assert Listing(b)[0] in {Listing(a)[0]};
      }
    }
  }

  /** The fingerprint tells apart the texts in `texts`, and never contains the bar. */
  ghost predicate Faithful(fp: Fingerprint, texts: set<string>) {
    && (forall x, y :: x in texts && y in texts && fp(x) == fp(y) ==> x == y)
    && (forall x :: x in texts ==> BAR !in fp(x))
  }

  /** Every token is the fingerprint of a report among `texts`. */
  ghost predicate Fingerprinted(tokens: seq<string>, fp: Fingerprint, texts: set<string>) {
    forall i :: 0 <= i < |tokens| ==> exists r :: r in texts && fp(r) == tokens[i]
  }

  /** A pool of one token, published for `report`, which is word for word the other pool's token list. */
  predicate Masquerades(a: seq<string>, report: string, b: seq<string>) {
    |a| == 1 && |b| > 1 && report == Composite(b)
  }

  /** The report behind a pool's token, when it has just one. */
  ghost predicate ReportOf(a: seq<string>, report: string, fp: Fingerprint, texts: set<string>) {
    |a| == 1 ==> report in texts && fp(report) == a[0]
  }

  lemma {:induction false} SortKeepsMembers(s: seq<string>, x: string)
    requires x in Sort(s)
    ensures x in s
    decreases |s|
  {
    var (init, z) := (s[..|s| - 1], s[|s| - 1]);
    ElementsIff(Sort(s), x);
    InsertElements(Sort(init), z);
    assert s == init + [z];
    if x != z {
      ElementsIff(Sort(init), x);
      SortKeepsMembers(init, x);
    }
  }

  lemma {:induction false} CompositeTellsApart(a: seq<string>, b: seq<string>)
    requires Distinct(a) && Distinct(b) && a != [] && b != []
    requires (forall x :: x in a ==> BAR !in x) && (forall x :: x in b ==> BAR !in x)
    requires Composite(a) == Composite(b)
    ensures Elements(a) == Elements(b)
  {
    SortLength(a);
    SortLength(b);
    forall x | x in Sort(a) ensures BAR !in x {
      SortKeepsMembers(a, x);
    }
    forall x | x in Sort(b) ensures BAR !in x {
      SortKeepsMembers(b, x);
    }
    SplitJoin(Sort(a), BAR);
    SplitJoin(Sort(b), BAR);
    SortAscends(a);
    SortAscends(b);
  }

  lemma {:induction false} TokensHaveNoBar(a: seq<string>, fp: Fingerprint, texts: set<string>)
    requires Faithful(fp, texts) && Fingerprinted(a, fp, texts)
    ensures forall x :: x in a ==> BAR !in x
  {
    forall x | x in a ensures BAR !in x {
      var i :| 0 <= i < |a| && a[i] == x;
      var r :| r in texts && fp(r) == a[i];
    }
  }

  lemma {:induction false} FoldedTellsApart(a: seq<string>, ra: string, b: seq<string>, rb: string, fp: Fingerprint,
                                            texts: set<string>)
    requires Distinct(a) && Distinct(b) && a != [] && b != [] && Faithful(fp, texts)
    requires Fingerprinted(a, fp, texts) && Fingerprinted(b, fp, texts)
    requires ReportOf(a, ra, fp, texts) && ReportOf(b, rb, fp, texts)
    requires Composite(a) in texts && Composite(b) in texts
    ensures Folded(a, fp) == Folded(b, fp) ==>
            Elements(a) == Elements(b) || Masquerades(a, ra, b) || Masquerades(b, rb, a)
    ensures Masquerades(a, ra, b) || Masquerades(b, rb, a) ==> Folded(a, fp) == Folded(b, fp)
  {
    if |a| > 1 && |b| > 1 && Folded(a, fp) == Folded(b, fp) {
      TokensHaveNoBar(a, fp, texts);
      TokensHaveNoBar(b, fp, texts);
      CompositeTellsApart(a, b);
    } else if |a| == 1 && |b| == 1 {
      assert Folded(a, fp) == Folded(b, fp) ==> a == b;
    }
  }

  /** With a fingerprint that does not collide on the texts at hand, two known epochs are equal
      exactly when the token sets are, or when one pool's single report is the other's token list. */
  lemma {:induction false} EqualEpochsIff(a: seq<Worker>, ra: string, b: seq<Worker>, rb: string, fp: Fingerprint,
                                          texts: set<string>)
    requires Epoch(a, fp).Some? && Epoch(b, fp).Some? && Faithful(fp, texts)
    requires Fingerprinted(Listing(a), fp, texts) && Fingerprinted(Listing(b), fp, texts)
    requires ReportOf(Listing(a), ra, fp, texts) && ReportOf(Listing(b), rb, fp, texts)
    requires Composite(Listing(a)) in texts && Composite(Listing(b)) in texts
    ensures Epoch(a, fp) == Epoch(b, fp) <==>
            Tokens(a) == Tokens(b) || Masquerades(Listing(a), ra, Listing(b)) || Masquerades(Listing(b), rb, Listing(a))
  {
    ListingIsTokens(a);
    ListingIsTokens(b);
    EpochIsOfTheSet(a, b, fp);
    FoldedTellsApart(Listing(a), ra, Listing(b), rb, fp, texts);
  }

  /** Such a pair exists for every fingerprint that is not already colliding: a worker that reports
      the text "x|y" of two tokens shares its epoch with the pool that holds them. */
  lemma {:induction false} ReportOfTokensCollides(fp: Fingerprint, x: string, y: string)
    requires x != "" && y != "" && Less(x, y) && fp(x + [BAR] + y) != ""
    requires fp(x + [BAR] + y) != x && fp(x + [BAR] + y) != y
    ensures var a := [Worker(false, Published(fp, Report(x + [BAR] + y)), true)];
            var b := [Worker(false, Some(x), true), Worker(false, Some(y), true)];
            Epoch(a, fp) == Epoch(b, fp) && Epoch(a, fp).Some? && Tokens(a) != Tokens(b)
  {
    var t := fp(x + [BAR] + y);
    LessTotal(x, y);
    ListingOfOne(t);
    ListingOfTwo(x, y);
    CompositeOfTwo(x, y);
    ListingIsTokens([Worker(false, Some(t), true)]);
    ListingIsTokens([Worker(false, Some(x), true), Worker(false, Some(y), true)]);
    ElementsIff([t], x);
    ElementsIff([x, y], x);
  }

  lemma {:induction false} ListingOfOne(t: string)
    requires t != ""
    ensures Listing([Worker(false, Some(t), true)]) == [t]
  {
    assert [Worker(false, Some(t), true)][..0] == [];
  }

  lemma {:induction false} ListingOfTwo(x: string, y: string)
    requires x != "" && y != "" && x != y
    ensures Listing([Worker(false, Some(x), true), Worker(false, Some(y), true)]) == [x, y]
  {
    var b := [Worker(false, Some(x), true), Worker(false, Some(y), true)];
    assert b[..1] == [Worker(false, Some(x), true)];
    ListingOfOne(x);
    ElementsIff([x], y);
  }

  lemma {:induction false} CompositeOfTwo(x: string, y: string)
    requires Less(x, y)
    ensures Composite([x, y]) == x + [BAR] + y
  {
    LessTotal(x, y);
    assert [x][..0] == [];
    assert Sort([x]) == [x];
    var two := [x, y];
    assert two[..1] == [x] && two[1..] == [y];
    assert Sort(two) == Insert([x], y) == [x] + [y] == two;
    assert Join(two, BAR) == two[0] + [BAR] + Join(two[1..], BAR);
  }
}
