/** The result log of a screen: its entries, how one entry is turned into
    display lines, and the in-place sort by game name that happens every time
    the log is shown. */
module GameListing {
  import opened Wrappers
  import opened Prelude
  import StringOrder

  /** One game in a result log: its name and what was found for it. */
  datatype GameListEntry = GameListEntry(name: string, files: set<string>, registryKeys: set<string>)
  {
    /** The entry holds a scan result that found something. */
    predicate HasFindings() {
      ScanInfo(files, registryKeys).HasFindings()
    }
  }

  /** Every entry of a log has at least one file or registry key. */
  predicate AllHaveFindings(entries: seq<GameListEntry>) {
    forall i :: 0 <= i < |entries| ==> entries[i].HasFindings()
  }

  /** Strictly increasing in string order (so also free of duplicates). */
  predicate StrictlySorted(s: seq<string>) {
    forall i, j :: 0 <= i < j < |s| ==> StringOrder.Lt(s[i], s[j])
  }

  /** The elements of a set of strings in ascending order, which is what
      iterating over `itertools::sorted` of a `HashSet<String>` yields. Its
      properties are stated by SortedListingSpec. */
  function SortedListing(s: set<string>): seq<string> {
    if s == {} then []
    else
      StringOrder.LeastExists(s);
      StringOrder.LeastUnique(s);
      var m :| StringOrder.IsLeast(m, s);
      [m] + SortedListing(s - {m})
  }

  /** The listing of a set holds each of its elements exactly once, in
      strictly ascending order. */
  lemma {:induction false} SortedListingSpec(s: set<string>)
    ensures |SortedListing(s)| == |s|
    ensures forall x :: x in SortedListing(s) <==> x in s
    ensures StrictlySorted(SortedListing(s))
  {
    if s != {} {
      StringOrder.LeastExists(s);
      StringOrder.LeastUnique(s);
      var m :| StringOrder.IsLeast(m, s);
      var rest := SortedListing(s - {m});
      assert SortedListing(s) == [m] + rest;
      SortedListingSpec(s - {m});
      forall j | 0 <= j < |rest| ensures StringOrder.Lt(m, rest[j]) {
        assert rest[j] in s - {m};
      }
    }
  }

  /** The files of `items` mapped through the restoration target, in order,
      leaving out every file whose mapping fails. */
  function RestoredTargets(items: seq<string>, target: string -> Result<string, Error>): (r: seq<string>)
    ensures |r| <= |items|
  {
    if items == [] then []
    else
      var init := items[..|items| - 1];
      var last := items[|items| - 1];
      var done := RestoredTargets(init, target);
      assert forall x :: x in init ==> x in items;
      match target(last)
      case Success(t) => done + [t]
      case Failure(_) => done
  }

  /** When every file has a restoration target, none is dropped. */
  lemma {:induction false} RestoredTargetsKeepAll(items: seq<string>, target: string -> Result<string, Error>)
    requires forall x :: x in items ==> target(x).Success?
    ensures |RestoredTargets(items, target)| == |items|
    decreases |items|
  {
    if items != [] {
      var init := items[..|items| - 1];
      assert forall x :: x in init ==> x in items;
      assert items[|items| - 1] in items;
      RestoredTargetsKeepAll(init, target);
    }
  }

  /** Every line a restore log shows for its files is the restoration target
      of one of those files. */
  lemma {:induction false} RestoredTargetsComeFromFiles(items: seq<string>, target: string -> Result<string, Error>)
    ensures forall y :: y in RestoredTargets(items, target) ==> exists x :: x in items && target(x) == Success(y)
    decreases |items|
  {
    if items != [] {
      var init := items[..|items| - 1];
      RestoredTargetsComeFromFiles(init, target);
      assert forall x :: x in init ==> x in items;
      assert target(items[|items| - 1]).Success? ==> items[|items| - 1] in items;
    }
  }

  /** Mapping one more file adds its target at the end, or nothing when the
      mapping fails. */
  lemma RestoredTargetsSnoc(items: seq<string>, x: string, target: string -> Result<string, Error>)
    ensures RestoredTargets(items + [x], target)
         == RestoredTargets(items, target) + (if target(x).Success? then [target(x).value] else [])
  {
    assert (items + [x])[..|items|] == items;
  }

  /** Mapping keeps the order of the files: the lines of `a + b` are the
      lines of `a` followed by the lines of `b`. With RestoredTargetsSnoc on
      a single file this pins the result down to the successful targets in
      file order. */
  lemma {:induction false} RestoredTargetsAppend(a: seq<string>, b: seq<string>, target: string -> Result<string, Error>)
    ensures RestoredTargets(a + b, target) == RestoredTargets(a, target) + RestoredTargets(b, target)
    decreases |b|
  {
    if b == [] {
      assert a + b == a;
    } else {
      var init := b[..|b| - 1];
      var last := b[|b| - 1];
      assert b == init + [last];
      assert a + b == (a + init) + [last];
      RestoredTargetsAppend(a, init, target);
      RestoredTargetsSnoc(a + init, last, target);
      RestoredTargetsSnoc(init, last, target);
    }
  }

  /** Every file whose mapping succeeds has its target shown. */
  lemma {:induction false} RestoredTargetsKeepsSuccesses(items: seq<string>, target: string -> Result<string, Error>)
    ensures forall x :: x in items && target(x).Success? ==> target(x).value in RestoredTargets(items, target)
    decreases |items|
  {
    if items != [] {
      var init := items[..|items| - 1];
      var last := items[|items| - 1];
      assert items == init + [last];
      RestoredTargetsKeepsSuccesses(init, target);
      RestoredTargetsSnoc(init, last, target);
    }
  }

  /** The lines a log shows for a sorted list of files: the files
      themselves, or their restoration targets in a restore log. */
  function FileLines(files: seq<string>, restoring: bool, target: string -> Result<string, Error>): seq<string> {
    if restoring then RestoredTargets(files, target) else files
  }

  /** The display lines of an entry: its files in ascending order (mapped to
      their restoration targets when the log is a restore log), then its
      registry keys in ascending order. */
  function ExpectedLines(entry: GameListEntry, restoring: bool, target: string -> Result<string, Error>): seq<string> {
    FileLines(SortedListing(entry.files), restoring, target) + SortedListing(entry.registryKeys)
  }

  /** What the lines of an entry look like: the files part first, exactly the
      sorted files when not restoring and no longer than them when restoring,
      then the sorted registry keys. */
  lemma ExpectedLinesShape(entry: GameListEntry, restoring: bool, target: string -> Result<string, Error>)
    ensures var lines := ExpectedLines(entry, restoring, target);
      && (!restoring ==> |lines| == |entry.files| + |entry.registryKeys|
                         && lines[..|entry.files|] == SortedListing(entry.files))
      && (restoring ==> |lines| <= |entry.files| + |entry.registryKeys|)
      && |lines| >= |entry.registryKeys|
      && lines[|lines| - |entry.registryKeys|..] == SortedListing(entry.registryKeys)
  {
    SortedListingSpec(entry.files);
    SortedListingSpec(entry.registryKeys);
  }

  /** Builds the lines of one entry the way the entry's view does: one loop
      over the sorted files, one over the sorted registry keys. */
  method EntryLines(entry: GameListEntry, restoring: bool, target: string -> Result<string, Error>)
    returns (lines: seq<string>)
    ensures lines == ExpectedLines(entry, restoring, target)
  {
    var files := SortedListing(entry.files);
    lines := [];
    for i := 0 to |files|
      invariant lines == FileLines(files[..i], restoring, target)
    {
      assert files[..i + 1] == files[..i] + [files[i]];
      RestoredTargetsSnoc(files[..i], files[i], target);
      if restoring {
        match target(files[i]) {
          case Success(t) => lines := lines + [t];
          case Failure(_) =>
        }
      } else {
        lines := lines + [files[i]];
      }
    }
    assert files[..|files|] == files;
    var keys := SortedListing(entry.registryKeys);
    ghost var fileLines := lines;
    for i := 0 to |keys|
      invariant lines == fileLines + keys[..i]
    {
      lines := lines + [keys[i]];
    }
    assert keys[..|keys|] == keys;
  }

  /** Entries in ascending order of name; entries with equal names may follow
      each other in any order. */
  predicate NameSorted(entries: seq<GameListEntry>) {
    forall i, j :: 0 <= i < j < |entries| ==> StringOrder.Le(entries[i].name, entries[j].name)
  }

  /** Inserts `e` into `s` in front of the first entry whose name is not
      smaller than `e.name`. */
  function InsertByName(e: GameListEntry, s: seq<GameListEntry>): (r: seq<GameListEntry>)
    ensures multiset(r) == multiset(s) + multiset{e}
  {
    if s == [] then [e]
    else if StringOrder.Le(e.name, s[0].name) then [e] + s
    else
      assert s == [s[0]] + s[1..];
      [s[0]] + InsertByName(e, s[1..])
  }

  /** Inserting into a name-sorted sequence keeps it name-sorted. */
  lemma {:induction false} InsertKeepsSorted(e: GameListEntry, s: seq<GameListEntry>)
    requires NameSorted(s)
    ensures NameSorted(InsertByName(e, s))
    decreases |s|
  {
    if s == [] {
    } else if StringOrder.Le(e.name, s[0].name) {
      var r := [e] + s;
      forall i, j | 0 <= i < j < |r| ensures StringOrder.Le(r[i].name, r[j].name) {
        if i == 0 && j > 1 {
          StringOrder.LeTransitive(e.name, s[0].name, s[j - 1].name);
        }
      }
    } else {
      var rest := InsertByName(e, s[1..]);
      InsertKeepsSorted(e, s[1..]);
      StringOrder.LeTotal(e.name, s[0].name);
      HeadPrecedesInsert(e, s);
      var r := [s[0]] + rest;
      forall i, j | 0 <= i < j < |r| ensures StringOrder.Le(r[i].name, r[j].name) {
        if i > 0 {
          assert r[i] == rest[i - 1] && r[j] == rest[j - 1];
        } else {
          assert r[j] == rest[j - 1];
        }
      }
    }
  }

  /** When `e` goes after the head of a sorted `s`, the head sorts before
      everything `e` is inserted among. */
  lemma HeadPrecedesInsert(e: GameListEntry, s: seq<GameListEntry>)
    requires NameSorted(s) && s != [] && StringOrder.Le(s[0].name, e.name)
    ensures forall j :: 0 <= j < |InsertByName(e, s[1..])| ==> StringOrder.Le(s[0].name, InsertByName(e, s[1..])[j].name)
  {
    var rest := InsertByName(e, s[1..]);
    forall j | 0 <= j < |rest| ensures StringOrder.Le(s[0].name, rest[j].name) {
      assert rest[j] in multiset(rest);
      if rest[j] != e {
        assert rest[j] in multiset(s[1..]);
        var k :| 0 <= k < |s[1..]| && s[1..][k] == rest[j];
        assert s[k + 1] == rest[j];
      }
    }
  }

  /** Stable sort by game name: what `sort_by_key(|x| x.name.clone())` leaves
      in the vector. */
  function SortedByName(entries: seq<GameListEntry>): (r: seq<GameListEntry>)
    ensures multiset(r) == multiset(entries)
    ensures NameSorted(r)
  {
    if entries == [] then []
    else
      assert entries == [entries[0]] + entries[1..];
      InsertKeepsSorted(entries[0], SortedByName(entries[1..]));
      InsertByName(entries[0], SortedByName(entries[1..]))
  }

  /** The entries named `n`, in their order in `entries`. */
  function WithName(entries: seq<GameListEntry>, n: string): seq<GameListEntry> {
    if entries == [] then []
    else (if entries[0].name == n then [entries[0]] else []) + WithName(entries[1..], n)
  }

  lemma WithNameCons(x: GameListEntry, t: seq<GameListEntry>, n: string)
    ensures WithName([x] + t, n) == (if x.name == n then [x] else []) + WithName(t, n)
  {
    assert ([x] + t)[1..] == t;
  }

  lemma {:induction false} InsertKeepsNameOrder(e: GameListEntry, s: seq<GameListEntry>, n: string)
    ensures WithName(InsertByName(e, s), n) == (if e.name == n then [e] else []) + WithName(s, n)
    decreases |s|
  {
    if s == [] {
      WithNameCons(e, [], n);
    } else if StringOrder.Le(e.name, s[0].name) {
      WithNameCons(e, s, n);
    } else {
      InsertKeepsNameOrder(e, s[1..], n);
      assert s[0].name != e.name by {
        StringOrder.LeReflexive(e.name);
      }
      WithNameCons(s[0], InsertByName(e, s[1..]), n);
      WithNameCons(s[0], s[1..], n);
      assert [s[0]] + s[1..] == s;
    }
  }

  /** The sort is stable: for every name, the entries carrying it keep their
      relative order. */
  lemma {:induction false} SortedByNameIsStable(entries: seq<GameListEntry>, n: string)
    ensures WithName(SortedByName(entries), n) == WithName(entries, n)
    decreases |entries|
  {
    if entries != [] {
      SortedByNameIsStable(entries[1..], n);
      InsertKeepsNameOrder(entries[0], SortedByName(entries[1..]), n);
    }
  }

  /** Sorting keeps every entry and adds none, so it keeps the count and the
      "every entry found something" invariant of a log. */
  lemma SortedByNameKeepsLog(entries: seq<GameListEntry>)
    ensures |SortedByName(entries)| == |entries|
    ensures AllHaveFindings(entries) ==> AllHaveFindings(SortedByName(entries))
  {
    var r := SortedByName(entries);
    assert |multiset(r)| == |multiset(entries)|;
    if AllHaveFindings(entries) {
      forall i | 0 <= i < |r| ensures r[i].HasFindings() {
        assert r[i] in multiset(entries);
        var k :| 0 <= k < |entries| && entries[k] == r[i];
      }
    }
  }

  /** The fold of a log's view over its entries: the lines of each entry,
      in log order. */
  method EntryBodies(entries: seq<GameListEntry>, restoring: bool, target: string -> Result<string, Error>)
    returns (bodies: seq<seq<string>>)
    ensures |bodies| == |entries|
    ensures forall i :: 0 <= i < |entries| ==> bodies[i] == ExpectedLines(entries[i], restoring, target)
  {
    bodies := [];
    for i := 0 to |entries|
      invariant |bodies| == i
      invariant forall k :: 0 <= k < i ==> bodies[k] == ExpectedLines(entries[k], restoring, target)
    {
      var lines := EntryLines(entries[i], restoring, target);
      bodies := bodies + [lines];
    }
  }

  /** A screen's result log. Showing it sorts its entries in place. */
  class GameList {
    var entries: seq<GameListEntry>

    constructor ()
      ensures entries == []
    {
      entries := [];
    }

    /** Sorts the log by name, then produces the lines of every entry in the
        new order. */
    method View(restoring: bool, target: string -> Result<string, Error>) returns (bodies: seq<seq<string>>)
      modifies this
      ensures entries == SortedByName(old(entries))
      ensures |bodies| == |entries|
      ensures forall i :: 0 <= i < |entries| ==> bodies[i] == ExpectedLines(entries[i], restoring, target)
    {
      entries := SortedByName(entries);
      bodies := EntryBodies(entries, restoring, target);
    }
  }
}
