/** Finding the description files under the dataset root
    (`walkForDescriptions` in server.js). */
module Discovery {
  import opened Text

  /** A path as its segments below the dataset root. `path.join` adds one
      segment per directory level, and `path.relative` from the root gives
      the segments back, so the fixed root prefix is left implicit. */
  type Path = seq<string>

  /** One entry of a `readdir` listing. A directory carries its own listing
      in enumeration order. `Other` is every entry that is neither a
      directory nor a regular file: symbolic links (which `readdir` reports
      as links, so the walk never follows them), sockets, devices. */
  datatype Entry =
    | File(name: string)
    | Dir(name: string, children: seq<Entry>)
    | Other(name: string)

  const Suffix := "_description.json"

  predicate IsDescriptionName(name: string) {
    EndsWith(name, Suffix)
  }

  /** The matches of one entry of the directory `dir`: a subdirectory's
      matches, the file itself when its name has the suffix, else nothing. */
  function WalkEntry(dir: Path, e: Entry): seq<Path>
    decreases e
  {
    match e
    case Dir(name, children) => Walk(dir + [name], children)
    case File(name) => if IsDescriptionName(name) then [dir + [name]] else []
    case Other(_) => []
  }

  /** `walkForDescriptions(dir)`: the per-entry results concatenated in
      listing order (`Promise.all` keeps the order of `entries.map`, and
      `flat` splices each sub-list in place). */
  function Walk(dir: Path, entries: seq<Entry>): seq<Path>
    decreases entries
  {
    if entries == [] then [] else WalkEntry(dir, entries[0]) + Walk(dir, entries[1..])
  }

  /** `rel` names a regular file reached from entry `e`: its first segment is
      the entry's name, and either `e` is that file or `e` is a directory
      whose listing reaches the rest of `rel`. */
  ghost predicate EntryReaches(e: Entry, rel: Path)
    decreases e
  {
    && |rel| >= 1
    && rel[0] == e.name
    && match e
       case File(_) => |rel| == 1
       case Dir(_, children) => |rel| >= 2 && Reaches(children, rel[1..])
       case Other(_) => false
  }

  /** `rel` names a regular file at any depth below a directory with this
      listing. */
  ghost predicate Reaches(entries: seq<Entry>, rel: Path)
    decreases entries
  {
    exists k | 0 <= k < |entries| :: EntryReaches(entries[k], rel)
  }

  /** A description file: a regular file at any depth whose name ends with
      the suffix. */
  ghost predicate IsDescriptionFile(entries: seq<Entry>, rel: Path) {
    |rel| >= 1 && Reaches(entries, rel) && IsDescriptionName(rel[|rel| - 1])
  }

  /** The walk returns exactly the description files below `dir`, each
      prefixed with `dir`: directories and other files never appear. */
  lemma {:induction false} WalkExactly(dir: Path, entries: seq<Entry>, p: Path)
    ensures p in Walk(dir, entries) <==>
      |p| > |dir| && p[..|dir|] == dir && IsDescriptionFile(entries, p[|dir|..])
    decreases entries
  {
    if entries != [] {
      var e, rest := entries[0], entries[1..];
      WalkEntryExactly(dir, e, p);
      WalkExactly(dir, rest, p);
      if |p| > |dir| && p[..|dir|] == dir {
        var rel := p[|dir|..];
        assert Reaches(entries, rel) <==> EntryReaches(e, rel) || Reaches(rest, rel) by {
          if Reaches(entries, rel) {
            var k :| 0 <= k < |entries| && EntryReaches(entries[k], rel);
            if k > 0 { assert rest[k - 1] == entries[k]; }
          }
          if Reaches(rest, rel) {
            var k :| 0 <= k < |rest| && EntryReaches(rest[k], rel);
            assert entries[k + 1] == rest[k];
          }
          if EntryReaches(e, rel) {
            assert EntryReaches(entries[0], rel);
          }
        }
      }
    }
  }

  lemma {:induction false} WalkEntryExactly(dir: Path, e: Entry, p: Path)
    ensures p in WalkEntry(dir, e) <==>
      |p| > |dir| && p[..|dir|] == dir && EntryReaches(e, p[|dir|..]) && IsDescriptionName(p[|p| - 1])
    decreases e
  {
    match e
    case File(name) =>
      if p in WalkEntry(dir, e) {
        assert p == dir + [name];
        assert p[|dir|..] == [name];
      }
      if |p| > |dir| && p[..|dir|] == dir && EntryReaches(e, p[|dir|..]) && IsDescriptionName(p[|p| - 1]) {
        assert p[|dir|..] == [name];
        assert p == p[..|dir|] + p[|dir|..];
        assert p == dir + [name];
      }
    case Dir(name, children) =>
      var sub := dir + [name];
      WalkExactly(sub, children, p);
      if |p| > |dir| && p[..|dir|] == dir {
        var rel := p[|dir|..];
        if |p| > |sub| && p[..|sub|] == sub {
          assert rel[0] == name by { assert p[|dir|] == sub[|dir|]; }
          assert rel[1..] == p[|sub|..];
        }
        if |rel| >= 2 && rel[0] == name {
          assert p[..|sub|] == p[..|dir|] + [rel[0]];
          assert rel[1..] == p[|sub|..];
        }
      }
      if p in WalkEntry(dir, e) {
        assert p[..|dir|] == p[..|sub|][..|dir|];
      }
    case Other(_) =>
  }

  /** Order: the walk of a listing is the walk of its first part followed by
      the walk of its second part, so matches come out in listing order. */
  lemma {:induction false} WalkAppend(dir: Path, a: seq<Entry>, b: seq<Entry>)
    ensures Walk(dir, a + b) == Walk(dir, a) + Walk(dir, b)
    decreases a
  {
    if a != [] {
      assert (a + b)[0] == a[0];
      assert (a + b)[1..] == a[1..] + b;
      WalkAppend(dir, a[1..], b);
    } else {
      assert a + b == b;
    }
  }

  /** A subdirectory's matches are spliced in at its position in the listing. */
  lemma WalkSplicesDirectory(dir: Path, before: seq<Entry>, name: string, children: seq<Entry>, after: seq<Entry>)
    ensures Walk(dir, before + [Dir(name, children)] + after)
         == Walk(dir, before) + Walk(dir + [name], children) + Walk(dir, after)
  {
    WalkAppend(dir, before + [Dir(name, children)], after);
    WalkAppend(dir, before, [Dir(name, children)]);
  }

  /** Every listing, at every depth, names each of its entries once, as a
      real directory does. */
  ghost predicate DistinctNames(entries: seq<Entry>)
    decreases entries
  {
    && (forall i, j :: 0 <= i < j < |entries| ==> entries[i].name != entries[j].name)
    && (forall k :: 0 <= k < |entries| && entries[k].Dir? ==> DistinctNames(entries[k].children))
  }

  /** No path occurs twice. */
  predicate NoDuplicates(s: seq<Path>) {
    forall i, j :: 0 <= i < j < |s| ==> s[i] != s[j]
  }

  /** When names are distinct within every listing, each description file
      appears in the walk exactly once. */
  lemma {:induction false} WalkOnce(dir: Path, entries: seq<Entry>)
    requires DistinctNames(entries)
    ensures NoDuplicates(Walk(dir, entries))
    decreases entries
  {
    if entries != [] {
      var e, rest := entries[0], entries[1..];
      assert DistinctNames(rest) by {
        forall i, j | 0 <= i < j < |rest| ensures rest[i].name != rest[j].name {
          assert rest[i] == entries[i + 1] && rest[j] == entries[j + 1];
        }
        forall k | 0 <= k < |rest| && rest[k].Dir? ensures DistinctNames(rest[k].children) {
          assert rest[k] == entries[k + 1];
        }
      }
      WalkOnce(dir, rest);
      WalkEntryOnce(dir, e);
      assert forall k :: 0 <= k < |rest| ==> rest[k].name != e.name by {
        forall k | 0 <= k < |rest| ensures rest[k].name != e.name {
          assert rest[k] == entries[k + 1];
        }
      }
      forall p | p in WalkEntry(dir, e) ensures p !in Walk(dir, rest) {
        WalkEntryExactly(dir, e, p);
        WalkFirstSegment(dir, rest, p);
      }
      ConcatNoDuplicates(WalkEntry(dir, e), Walk(dir, rest));
    }
  }

  /** A walked path continues `dir` with the name of an entry of the listing. */
  lemma WalkFirstSegment(dir: Path, entries: seq<Entry>, p: Path)
    ensures p in Walk(dir, entries) ==>
      |p| > |dir| && exists k :: 0 <= k < |entries| && entries[k].name == p[|dir|]
  {
    WalkExactly(dir, entries, p);
    if p in Walk(dir, entries) {
      var k :| 0 <= k < |entries| && EntryReaches(entries[k], p[|dir|..]);
      assert p[|dir|..][0] == p[|dir|];
    }
  }

  lemma {:induction false} WalkEntryOnce(dir: Path, e: Entry)
    requires e.Dir? ==> DistinctNames(e.children)
    ensures NoDuplicates(WalkEntry(dir, e))
    decreases e
  {
    if e.Dir? {
      WalkOnce(dir + [e.name], e.children);
    }
  }

  lemma ConcatNoDuplicates(a: seq<Path>, b: seq<Path>)
    requires NoDuplicates(a) && NoDuplicates(b)
    requires forall p :: p in a ==> p !in b
    ensures NoDuplicates(a + b)
  {
    var s := a + b;
    forall i, j | 0 <= i < j < |s| ensures s[i] != s[j] {
      if i < |a| && j >= |a| {
        assert s[i] in a && s[j] == b[j - |a|];
      }
    }
  }
}
