/** The directory browser (`browse_for_folder`, ascii_player.py): it lists
    the current directory (directories first, then by lower-cased name, with
    ".." on top except at the root), moves a cursor with the arrow keys and
    opens, chooses, climbs or cancels. The file system is an input: a
    function from a directory to what `os.listdir` and `os.path.isdir` report
    for it. Drawing the list is not modelled. */
module Browser {
  import opened Wrappers
  import opened Text
  import opened Paths
  import opened Numbers
  import opened Keys
  import opened Seqs

  /** A name in a directory listing and whether it is itself a directory. */
  datatype Entry = Entry(name: string, isDir: bool)

  /** What reading a directory gives: an `OSError`, or its children in
      `os.listdir` order. */
  datatype Listing = Unreadable | Listed(children: seq<Entry>)

  /** A child is listed when it is a directory, or a file while files are
      allowed and its lower-cased extension passes the filter, if any. */
  predicate Kept(e: Entry, allowFiles: bool, filter: Option<seq<string>>) {
    e.isDir || (allowFiles && (filter.None? || Lower(Ext(e.name)) in filter.value))
  }

  /** The entries the listing loop collects: the kept children in listing
      order, nothing for an unreadable directory. */
  function KeptChildren(listing: Listing, allowFiles: bool, filter: Option<seq<string>>): (r: seq<Entry>)
    ensures listing.Unreadable? ==> r == []
    ensures listing.Listed? ==> forall e :: e in r <==> e in listing.children && Kept(e, allowFiles, filter)
    ensures listing.Listed? ==>
              forall e :: multiset(r)[e] == if Kept(e, allowFiles, filter) then multiset(listing.children)[e] else 0
  {
    match listing
    case Unreadable => []
    case Listed(children) => Filter(children, allowFiles, filter)
  }

  /** The children that pass, in listing order. */
  function Filter(children: seq<Entry>, allowFiles: bool, filter: Option<seq<string>>): (r: seq<Entry>)
    ensures forall e :: e in r <==> e in children && Kept(e, allowFiles, filter)
    ensures forall e :: multiset(r)[e] == if Kept(e, allowFiles, filter) then multiset(children)[e] else 0
  {
    if children == [] then []
    else
      var init, e := children[..|children| - 1], children[|children| - 1];
      assert children == init + [e];
      Filter(init, allowFiles, filter) + (if Kept(e, allowFiles, filter) then [e] else [])
  }

  /** One more child is filtered on its own after the others. */
  lemma FilterSnoc(s: seq<Entry>, x: Entry, allowFiles: bool, filter: Option<seq<string>>)
    ensures Filter(s + [x], allowFiles, filter) == Filter(s, allowFiles, filter) + (if Kept(x, allowFiles, filter) then [x] else [])
  {
    assert (s + [x])[..|s + [x]| - 1] == s;
  }

  /** Filtering a listing in two parts filters each part in turn: the kept
      children stay in listing order. */
  lemma {:induction false} FilterAppend(a: seq<Entry>, b: seq<Entry>, allowFiles: bool, filter: Option<seq<string>>)
    ensures Filter(a + b, allowFiles, filter) == Filter(a, allowFiles, filter) + Filter(b, allowFiles, filter)
    decreases |b|
  {
    if b == [] {
      assert a + b == a;
    } else {
      var init, x := b[..|b| - 1], b[|b| - 1];
      var k := if Kept(x, allowFiles, filter) then [x] else [];
      assert b == init + [x];
      assert a + b == (a + init) + [x];
      FilterAppend(a, init, allowFiles, filter);
      FilterSnoc(a + init, x, allowFiles, filter);
      FilterSnoc(init, x, allowFiles, filter);
      var fa, fi := Filter(a, allowFiles, filter), Filter(init, allowFiles, filter);
      AppendAssociative(fa, fi, k);
    }
  }

  // ------------------------------------------------------------- ordering

  /** The sort key `(not is_dir, name.lower())`: directories first, then
      Python's string order on the lower-cased names. */
  predicate KeyLess(a: Entry, b: Entry) {
    (a.isDir && !b.isDir) || (a.isDir == b.isDir && LexLess(Lower(a.name), Lower(b.name)))
  }

  /** Nothing is out of order: no entry has a smaller key than one before it. */
  predicate SortedByKey(s: seq<Entry>) {
    forall i, j :: 0 <= i < j < |s| ==> !KeyLess(s[j], s[i])
  }

  lemma KeyLessIrreflexive(a: Entry)
    ensures !KeyLess(a, a)
  {
    LexLessIrreflexive(Lower(a.name));
  }

  lemma KeyLessTransitive(a: Entry, b: Entry, c: Entry)
    requires KeyLess(a, b) && KeyLess(b, c)
    ensures KeyLess(a, c)
  {
    if a.isDir == b.isDir && b.isDir == c.isDir {
      LexLessTransitive(Lower(a.name), Lower(b.name), Lower(c.name));
    }
  }

  lemma KeyLessAsymmetric(a: Entry, b: Entry)
    requires KeyLess(a, b)
    ensures !KeyLess(b, a)
  {
    if KeyLess(b, a) {
      KeyLessTransitive(a, b, a);
      KeyLessIrreflexive(a);
    }
  }

  /** Whatever lies between two keys in order is above the first or below the
      second: the key order is a strict weak order. */
  lemma KeyLessSplits(a: Entry, b: Entry, c: Entry)
    requires KeyLess(a, c)
    ensures KeyLess(a, b) || KeyLess(b, c)
  {
    if a.isDir == b.isDir && b.isDir == c.isDir {
      var x, y, z := Lower(a.name), Lower(b.name), Lower(c.name);
      if y != x && y != z && !LexLess(x, y) {
        LexLessTotal(x, y);
        LexLessTransitive(y, x, z);
      }
    }
  }

  /** Inserts `x` after every entry whose key is not larger, so entries with
      equal keys keep their listing order. */
  function Insert(x: Entry, s: seq<Entry>): (r: seq<Entry>)
    requires SortedByKey(s)
    ensures SortedByKey(r)
    ensures multiset(r) == multiset(s) + multiset{x}
  {
    if s == [] then [x]
    else if KeyLess(x, s[0]) then
      forall j | 0 <= j < |s|
        ensures !KeyLess(s[j], x)
      {
        if j > 0 {
          KeyLessSplits(x, s[j], s[0]);
        }
        KeyLessAsymmetric(x, s[j]);
      }
      var r := [x] + s;
      assert forall i :: 0 < i < |r| ==> r[i] == s[i - 1];
      r
    else
      var rest := Insert(x, s[1..]);
      assert s == [s[0]] + s[1..];
      forall e | e in multiset(rest)
        ensures !KeyLess(e, s[0])
      {
        if e == x {
        } else {
          assert e in s[1..];
        }
      }
      [s[0]] + rest
  }

  /** Two entries the sort key cannot tell apart: both folders or both
      files, with names equal up to case. */
  predicate SameKey(a: Entry, b: Entry) {
    a.isDir == b.isDir && Lower(a.name) == Lower(b.name)
  }

  /** The entries of `s` whose key equals that of `e`, in their order in `s`. */
  function WithKey(s: seq<Entry>, e: Entry): seq<Entry> {
    if s == [] then [] else (if SameKey(s[0], e) then [s[0]] else []) + WithKey(s[1..], e)
  }

  lemma {:induction false} WithKeySnoc(s: seq<Entry>, x: Entry, e: Entry)
    ensures WithKey(s + [x], e) == WithKey(s, e) + (if SameKey(x, e) then [x] else [])
    decreases |s|
  {
    if s == [] {
      assert WithKey([x], e) == (if SameKey(x, e) then [x] else []) + WithKey([], e);
    } else {
      assert (s + [x])[0] == s[0] && (s + [x])[1..] == s[1..] + [x];
      WithKeySnoc(s[1..], x, e);
    }
  }

  /** Inserting puts `x` after the entries of its own key, so each key's
      entries keep their order with `x` last. */
  lemma {:induction false} InsertStable(x: Entry, s: seq<Entry>, e: Entry)
    requires SortedByKey(s)
    ensures WithKey(Insert(x, s), e) == WithKey(s, e) + (if SameKey(x, e) then [x] else [])
    decreases |s|
  {
    if s == [] {
      assert Insert(x, s) == [x];
      assert WithKey([x], e) == (if SameKey(x, e) then [x] else []) + WithKey([], e);
    } else if KeyLess(x, s[0]) {
      assert Insert(x, s) == [x] + s;
      assert ([x] + s)[1..] == s;
      if SameKey(x, e) {
        NoneBelow(x, s, e);
      }
    } else {
      var rest := Insert(x, s[1..]);
      assert Insert(x, s) == [s[0]] + rest;
      assert ([s[0]] + rest)[1..] == rest;
      InsertStable(x, s[1..], e);
      AppendAssociative(if SameKey(s[0], e) then [s[0]] else [], WithKey(s[1..], e),
                        if SameKey(x, e) then [x] else []);
    }
  }

  /** Above a key that is smaller than all of a sorted list, no entry of the
      list shares that key. */
  lemma {:induction false} NoneBelow(x: Entry, s: seq<Entry>, e: Entry)
    requires SortedByKey(s) && s != [] && KeyLess(x, s[0]) && SameKey(x, e)
    ensures WithKey(s, e) == []
    decreases |s|
  {
    if SameKey(s[0], e) {
      LexLessIrreflexive(Lower(x.name));
      assert false;
    }
    if |s| > 1 {
      KeyLessSplits(x, s[1], s[0]);
      NoneBelow(x, s[1..], e);
    }
  }

  /** `entries.sort(key=...)`: a stable insertion sort. */
  function SortByKey(s: seq<Entry>): (r: seq<Entry>)
    ensures SortedByKey(r)
    ensures multiset(r) == multiset(s)
  {
    if s == [] then []
    else
      assert s == s[..|s| - 1] + [s[|s| - 1]];
      Insert(s[|s| - 1], SortByKey(s[..|s| - 1]))
  }

  /** The sort is stable, as Python's is: entries whose keys are equal (names
      that differ only in case) keep their listing order. */
  lemma {:induction false} SortByKeyStable(s: seq<Entry>, e: Entry)
    ensures WithKey(SortByKey(s), e) == WithKey(s, e)
    decreases |s|
  {
    if s != [] {
      var init, x := s[..|s| - 1], s[|s| - 1];
      var sorted := SortByKey(init);
      assert SortByKey(s) == Insert(x, sorted);
      SortByKeyStable(init, e);
      InsertStable(x, sorted, e);
      SplitLast(s);
      WithKeySnoc(init, x, e);
    }
  }

  /** The entry that leads to the parent directory. */
  const Up: Entry := Entry("..", true)

  /** The list the browser shows for `dir`: the kept children sorted, with
      ".." in front unless `dir` is the root. */
  function Entries(dir: string, listing: Listing, allowFiles: bool, filter: Option<seq<string>>): (r: seq<Entry>)
    ensures dir != "/" ==> |r| >= 1 && r[0] == Up
    ensures var body := if dir == "/" then r else r[1..];
            SortedByKey(body) && multiset(body) == multiset(KeptChildren(listing, allowFiles, filter))
    ensures var body := if dir == "/" then r else r[1..];
            forall e :: WithKey(body, e) == WithKey(KeptChildren(listing, allowFiles, filter), e)
  {
    var sorted := SortByKey(KeptChildren(listing, allowFiles, filter));
    forall e
      ensures WithKey(sorted, e) == WithKey(KeptChildren(listing, allowFiles, filter), e)
    {
      SortByKeyStable(KeptChildren(listing, allowFiles, filter), e);
    }
    if dir != "/" then
      assert ([Up] + sorted)[1..] == sorted;
      [Up] + sorted
    else sorted
  }

  /** Below "..", every directory comes before every file. */
  lemma DirectoriesFirst(dir: string, listing: Listing, allowFiles: bool, filter: Option<seq<string>>, i: int, j: int)
    requires var r := Entries(dir, listing, allowFiles, filter);
             0 <= i < j < |r| && !r[i].isDir
    ensures !Entries(dir, listing, allowFiles, filter)[j].isDir
  {
    var r := Entries(dir, listing, allowFiles, filter);
    if dir != "/" {
      assert i > 0 by { assert r[0] == Up; }
      assert r[1..][i - 1] == r[i] && r[1..][j - 1] == r[j];
    }
  }

  // ---------------------------------------------------------------- steps

  /** What one key press leads to: the browser goes on in a directory with a
      cursor, returns a chosen path, or is cancelled. `IndexFault` is the
      `IndexError` that `entries[selection]` raises when the cursor lies
      outside a non-empty list. */
  datatype Outcome = Continue(dir: string, selection: int) | Chosen(path: string) | Cancelled | IndexFault

  /** `entries[selection]` is defined: Python also accepts a negative index
      down to `-len(entries)`. */
  predicate Indexable(selection: int, n: int) {
    -n <= selection < n
  }

  /** The entry under the cursor, counting a negative index from the end. */
  function AtCursor(entries: seq<Entry>, selection: int): Entry
    requires Indexable(selection, |entries|)
  {
    if selection < 0 then entries[|entries| + selection] else entries[selection]
  }

  /** One pass of the browser loop for key code `key`, given what the
      current directory lists. */
  function Step(dir: string, selection: int, key: int, listing: Listing, allowFiles: bool, filter: Option<seq<string>>): Outcome {
    StepOn(dir, selection, key, Entries(dir, listing, allowFiles, filter), allowFiles)
  }

  /** The key codes the browser reacts to; every other key leaves it as it was. */
  const HandledKeys: set<int> := {'q' as int, 'Q' as int, KeyUp, 'k' as int, KeyDown, 'j' as int,
                                  KeyBackspace, 127, 8, KeyEnter, 10, 13, ' ' as int}

  /** The key handling of one pass, once the entries are listed. */
  function StepOn(dir: string, selection: int, key: int, entries: seq<Entry>, allowFiles: bool): (o: Outcome)
    ensures key == 'q' as int || key == 'Q' as int ==> o == Cancelled
    ensures key == KeyUp || key == 'k' as int ==> o == Continue(dir, Max(0, selection - 1))
    ensures key == KeyDown || key == 'j' as int ==> o == Continue(dir, Min(|entries| - 1, selection + 1))
    ensures key !in HandledKeys ==> o == Continue(dir, selection)
    ensures o.Continue? && o.dir != dir ==> o.selection == 0
    ensures o.Chosen? ==> key == ' ' as int
  {
    var n := |entries|;
    if key == 'q' as int || key == 'Q' as int then Cancelled
    else if key == KeyUp || key == 'k' as int then Continue(dir, Max(0, selection - 1))
    else if key == KeyDown || key == 'j' as int then Continue(dir, Min(n - 1, selection + 1))
    else if key == KeyBackspace || key == 127 || key == 8 then Continue(Parent(dir), 0)
    else if key == KeyEnter || key == 10 || key == 13 then
      if n == 0 then Continue(dir, selection)
      else if !Indexable(selection, n) then IndexFault
      else
        var e := AtCursor(entries, selection);
        if e.name == ".." then Continue(Parent(dir), 0)
        else if e.isDir then Continue(Join(dir, e.name), 0)
        else Continue(dir, selection)
    else if key == ' ' as int then
      if n == 0 then Continue(dir, selection)
      else if !Indexable(selection, n) then IndexFault
      else
        var e := AtCursor(entries, selection);
        if e.name == ".." then Continue(dir, selection)
        else if e.isDir || allowFiles then Chosen(Join(dir, e.name))
        else Continue(dir, selection)
    else Continue(dir, selection)
  }

  /** Where the cursor may be for a list of `n` entries: on an entry, or,
      for an empty list, at 0 or at the -1 that Down leaves behind. */
  predicate CursorOk(selection: int, n: int) {
    if n == 0 then -1 <= selection <= 0 else 0 <= selection < n
  }

  /** A cursor in range never faults and stays in range for the same list;
      moving to another directory puts it on top. */
  lemma StepOnKeepsCursor(dir: string, selection: int, key: int, entries: seq<Entry>, allowFiles: bool)
    requires CursorOk(selection, |entries|)
    ensures var o := StepOn(dir, selection, key, entries, allowFiles);
            o != IndexFault && (o.Continue? && o.dir == dir ==> CursorOk(o.selection, |entries|))
  {
    var n := |entries|;
    assert n > 0 ==> Indexable(selection, n);
  }

  /** With the listing unchanged, a cursor in range stays in range: the
      browser never faults, and the cursor it continues with is in range for
      the directory it continues in. */
  lemma StepKeepsCursor(dir: string, selection: int, key: int, fs: string -> Listing, allowFiles: bool, filter: Option<seq<string>>)
    requires CursorOk(selection, |Entries(dir, fs(dir), allowFiles, filter)|)
    ensures var o := Step(dir, selection, key, fs(dir), allowFiles, filter);
            o != IndexFault
            && (o.Continue? ==> CursorOk(o.selection, |Entries(o.dir, fs(o.dir), allowFiles, filter)|))
  {
    StepOnKeepsCursor(dir, selection, key, Entries(dir, fs(dir), allowFiles, filter), allowFiles);
  }

  /** A listing as `os.listdir` gives it: proper names, none of them "..". */
  predicate WellFormed(listing: Listing) {
    listing.Listed? ==> forall e :: e in listing.children ==> IsName(e.name) && e.name != ".."
  }

  /** Entering a child directory and climbing back returns to `dir`. */
  lemma EnterChildThenBack(dir: string, selection: int, listing: Listing, allowFiles: bool, filter: Option<seq<string>>, back: Listing)
    requires IsAbsoluteDir(dir) && WellFormed(listing)
    requires var entries := Entries(dir, listing, allowFiles, filter);
             0 <= selection < |entries| && entries[selection].isDir && entries[selection].name != ".."
    ensures var o := Step(dir, selection, KeyEnter, listing, allowFiles, filter);
            && o == Continue(Join(dir, Entries(dir, listing, allowFiles, filter)[selection].name), 0)
            && Step(o.dir, o.selection, KeyBackspace, back, allowFiles, filter) == Continue(dir, 0)
  {
    var entries := Entries(dir, listing, allowFiles, filter);
    var e := entries[selection];
    EntryIsChild(dir, listing, allowFiles, filter, selection);
    ParentOfJoin(dir, e.name);
    EnterOnEntry(dir, selection, entries, allowFiles);
    var child := Join(dir, e.name);
    BackspaceClimbs(child, 0, Entries(child, back, allowFiles, filter), allowFiles);
  }

  /** Backspace goes to the parent directory, cursor on top, whatever is listed. */
  lemma BackspaceClimbs(dir: string, selection: int, entries: seq<Entry>, allowFiles: bool)
    ensures StepOn(dir, selection, KeyBackspace, entries, allowFiles) == Continue(Parent(dir), 0)
  {
  }

  /** Enter on ".." climbs and Enter on another directory opens it, both
      with the cursor on top; Enter on a file does nothing. */
  lemma EnterOnEntry(dir: string, selection: int, entries: seq<Entry>, allowFiles: bool)
    requires 0 <= selection < |entries|
    ensures var e := entries[selection];
            var o := StepOn(dir, selection, KeyEnter, entries, allowFiles);
            && (e.name == ".." ==> o == Continue(Parent(dir), 0))
            && (e.name != ".." && e.isDir ==> o == Continue(Join(dir, e.name), 0))
            && (e.name != ".." && !e.isDir ==> o == Continue(dir, selection))
  {
    assert AtCursor(entries, selection) == entries[selection];
  }

  /** Enter on an empty list does nothing. */
  lemma EnterOnNothing(dir: string, selection: int, allowFiles: bool)
    ensures StepOn(dir, selection, KeyEnter, [], allowFiles) == Continue(dir, selection)
  {
  }

  /** Space on ".." does nothing; Space on a directory, or on a file while
      files are allowed, returns its path joined to the current directory;
      Space on a file otherwise does nothing. */
  lemma SpaceOnEntry(dir: string, selection: int, entries: seq<Entry>, allowFiles: bool)
    requires 0 <= selection < |entries|
    ensures var e := entries[selection];
            var o := StepOn(dir, selection, ' ' as int, entries, allowFiles);
            && (e.name == ".." ==> o == Continue(dir, selection))
            && (e.name != ".." && (e.isDir || allowFiles) ==> o == Chosen(Join(dir, e.name)))
            && (e.name != ".." && !e.isDir && !allowFiles ==> o == Continue(dir, selection))
  {
    assert AtCursor(entries, selection) == entries[selection];
  }

  /** Every entry other than ".." is one of the listed children. */
  lemma EntryIsChild(dir: string, listing: Listing, allowFiles: bool, filter: Option<seq<string>>, i: int)
    requires var entries := Entries(dir, listing, allowFiles, filter);
             0 <= i < |entries| && entries[i] != Up
    ensures listing.Listed? && Entries(dir, listing, allowFiles, filter)[i] in listing.children
  {
    var entries := Entries(dir, listing, allowFiles, filter);
    var kept := KeptChildren(listing, allowFiles, filter);
    if dir != "/" {
      assert i > 0;
      assert entries[i] == entries[1..][i - 1];
      assert entries[i] in multiset(entries[1..]);
    } else {
      assert entries[i] in multiset(entries);
    }
    assert entries[i] in kept;
  }

  // ------------------------------------------------------------ the loop

  /** The browser driven by a finite script of key codes from `(dir,
      selection)`: the outcome of the first key that ends it, or where it
      stands when the script runs out. */
  function Walk(dir: string, selection: int, keys: seq<int>, fs: string -> Listing, allowFiles: bool, filter: Option<seq<string>>): Outcome
    decreases |keys|
  {
    if keys == [] then Continue(dir, selection)
    else
      match Step(dir, selection, keys[0], fs(dir), allowFiles, filter)
      case Continue(d, s) => Walk(d, s, keys[1..], fs, allowFiles, filter)
      case other => other
  }

  /** On a file system that does not change while the browser runs, the
      browser never indexes outside its list. */
  lemma {:induction false} WalkNeverFaults(dir: string, selection: int, keys: seq<int>, fs: string -> Listing, allowFiles: bool, filter: Option<seq<string>>)
    requires CursorOk(selection, |Entries(dir, fs(dir), allowFiles, filter)|)
    ensures Walk(dir, selection, keys, fs, allowFiles, filter) != IndexFault
    decreases |keys|
  {
    if keys != [] {
      StepKeepsCursor(dir, selection, keys[0], fs, allowFiles, filter);
      var o := Step(dir, selection, keys[0], fs(dir), allowFiles, filter);
      if o.Continue? {
        WalkNeverFaults(o.dir, o.selection, keys[1..], fs, allowFiles, filter);
      }
    }
  }

  /** `browse_for_folder(start_dir, allow_files, filter_exts)` fed the key
      codes `keys`: it starts at the top of `startDir` and reassigns the
      directory and the cursor key by key until a key chooses or cancels.
      It never faults. */
  method BrowseForFolder(startDir: string, keys: seq<int>, fs: string -> Listing, allowFiles: bool, filter: Option<seq<string>>)
    returns (o: Outcome)
    ensures o == Walk(startDir, 0, keys, fs, allowFiles, filter)
    ensures o != IndexFault
  {
    WalkNeverFaults(startDir, 0, keys, fs, allowFiles, filter);
    var currentDir := startDir;
    var selection := 0;
    var i := 0;
    while i < |keys|
      invariant 0 <= i <= |keys|
      invariant Walk(currentDir, selection, keys[i..], fs, allowFiles, filter) == Walk(startDir, 0, keys, fs, allowFiles, filter)
    {
      var next := Step(currentDir, selection, keys[i], fs(currentDir), allowFiles, filter);
      if !next.Continue? {
        return next;
      }
      currentDir, selection := next.dir, next.selection;
      i := i + 1;
    }
    o := Continue(currentDir, selection);
  }
}
