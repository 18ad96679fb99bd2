/** Loading every description below the dataset root into a sorted list of
    summaries (`loadDatasetDescriptions` in server.js). */
module Loader {
  import opened Wrappers
  import opened JsValues
  import opened Discovery
  import opened Normalise

  /** Reading a file and parsing it with `JSON.parse`: `None` when either
      throws. The file system and the parser are outside the model. */
  type Reader = Path -> Option<Json>

  /** The body of the `try` block for one file: read, parse and build.
      `None` is the `catch` branch, taken when any of the three throws. */
  function LoadOne(file: Path, read: Reader): Option<Summary> {
    match read(file)
    case None => None
    case Some(data) => BuildDatasetSummary(data, file)
  }

  /** The summaries the loop pushes, in the order of `files`. */
  function Summaries(files: seq<Path>, read: Reader): seq<Summary>
    decreases |files|
  {
    if files == [] then []
    else
      var last := files[|files| - 1];
      var earlier := Summaries(files[..|files| - 1], read);
      match LoadOne(last, read)
      case None => earlier
      case Some(s) => earlier + [s]
  }

  /** The number of files whose load succeeds. */
  function CountLoaded(files: seq<Path>, read: Reader): nat
    decreases |files|
  {
    if files == [] then 0
    else CountLoaded(files[..|files| - 1], read) + (if LoadOne(files[|files| - 1], read).Some? then 1 else 0)
  }

  /** The summaries of a concatenation are the concatenation of summaries. */
  lemma {:induction false} SummariesAppend(a: seq<Path>, b: seq<Path>, read: Reader)
    ensures Summaries(a + b, read) == Summaries(a, read) + Summaries(b, read)
    decreases |b|
  {
    if b == [] {
      assert a + b == a;
    } else {
      var b' := b[..|b| - 1];
      assert (a + b)[..|a + b| - 1] == a + b';
      assert (a + b)[|a + b| - 1] == b[|b| - 1];
      SummariesAppend(a, b', read);
    }
  }

  /** A file whose read, parse or build fails contributes nothing and does
      not stop the files before or after it. */
  lemma FailureIsSkipped(before: seq<Path>, file: Path, after: seq<Path>, read: Reader)
    requires LoadOne(file, read).None?
    ensures Summaries(before + [file] + after, read) == Summaries(before + after, read)
  {
    SummariesAppend(before + [file], after, read);
    SummariesAppend(before, [file], read);
    SummariesAppend(before, after, read);
    assert Summaries([file], read) == [] by {
      assert [file][..0] == [];
    }
  }

  /** Exactly one summary per successfully loaded file, in file order: the
      output has one entry per success, and the success at index `i` sits
      after the summaries of the successes before it. */
  lemma {:induction false} OneSummaryPerLoadedFile(files: seq<Path>, read: Reader)
    ensures |Summaries(files, read)| == CountLoaded(files, read)
    ensures forall i :: 0 <= i < |files| && LoadOne(files[i], read).Some? ==>
      CountLoaded(files[..i], read) < |Summaries(files, read)| &&
      Summaries(files, read)[CountLoaded(files[..i], read)] == LoadOne(files[i], read).value
    decreases |files|
  {
    if files != [] {
      var n := |files| - 1;
      var earlier := files[..n];
      OneSummaryPerLoadedFile(earlier, read);
      forall i | 0 <= i < |files| && LoadOne(files[i], read).Some?
        ensures CountLoaded(files[..i], read) < |Summaries(files, read)|
        ensures Summaries(files, read)[CountLoaded(files[..i], read)] == LoadOne(files[i], read).value
      {
        if i < n {
          EarlierSummaryKept(files, i, read);
        } else {
          assert files[..i] == earlier;
        }
      }
    }
  }

  /** A summary of a file before the last one keeps its index when the last
      file is loaded. */
  lemma EarlierSummaryKept(files: seq<Path>, i: nat, read: Reader)
    requires i < |files| - 1 && LoadOne(files[i], read).Some?
    requires var earlier := files[..|files| - 1];
      && |Summaries(earlier, read)| == CountLoaded(earlier, read)
      && CountLoaded(earlier[..i], read) < |Summaries(earlier, read)|
      && Summaries(earlier, read)[CountLoaded(earlier[..i], read)] == LoadOne(earlier[i], read).value
    ensures CountLoaded(files[..i], read) < |Summaries(files, read)|
    ensures Summaries(files, read)[CountLoaded(files[..i], read)] == LoadOne(files[i], read).value
  {
    var earlier := files[..|files| - 1];
    assert files[..i] == earlier[..i];
    assert earlier[i] == files[i];
  }

  /** Every summary in the output comes from a file that loaded. */
  lemma {:induction false} SummariesComeFromFiles(files: seq<Path>, read: Reader, s: Summary)
    requires s in Summaries(files, read)
    ensures exists i :: 0 <= i < |files| && LoadOne(files[i], read) == Some(s)
    decreases |files|
  {
    var n := |files| - 1;
    var earlier := files[..n];
    if s in Summaries(earlier, read) {
      SummariesComeFromFiles(earlier, read, s);
      var i :| 0 <= i < |earlier| && LoadOne(earlier[i], read) == Some(s);
      assert files[i] == earlier[i];
    } else {
      assert LoadOne(files[n], read) == Some(s);
    }
  }

  // ----- Sorting by name -----

  /** The ordering `localeCompare` gives on names, as "compares at most 0":
      a total preorder (ICU collation itself is not modelled). */
  ghost predicate TotalPreorder(le: (Json, Json) -> bool) {
    && (forall a, b :: le(a, b) || le(b, a))
    && (forall a, b, c :: le(a, b) && le(b, c) ==> le(a, c))
  }

  ghost predicate SortedByName(s: seq<Summary>, le: (Json, Json) -> bool) {
    forall i, j :: 0 <= i < j < |s| ==> le(s[i].name, s[j].name)
  }

  /** Inserts `x` after every element whose name is at most its own. */
  function Insert(x: Summary, sorted: seq<Summary>, le: (Json, Json) -> bool): (r: seq<Summary>)
    ensures |r| == |sorted| + 1
    ensures multiset(r) == multiset(sorted) + multiset{x}
  {
    if sorted == [] then [x]
    else if le(sorted[0].name, x.name) then
      assert sorted == [sorted[0]] + sorted[1..];
      [sorted[0]] + Insert(x, sorted[1..], le)
    else [x] + sorted
  }

  /** `descriptions.sort((a, b) => a.name.localeCompare(b.name))`. The
      library sort is stable, and so is this insertion sort: each later
      element goes after the earlier ones with an equal name. */
  function SortByName(s: seq<Summary>, le: (Json, Json) -> bool): (r: seq<Summary>)
    ensures |r| == |s|
    ensures multiset(r) == multiset(s)
    decreases |s|
  {
    if s == [] then []
    else
      assert s == s[..|s| - 1] + [s[|s| - 1]];
      Insert(s[|s| - 1], SortByName(s[..|s| - 1], le), le)
  }

  lemma {:induction false} InsertSorted(x: Summary, sorted: seq<Summary>, le: (Json, Json) -> bool)
    requires TotalPreorder(le) && SortedByName(sorted, le)
    ensures SortedByName(Insert(x, sorted, le), le)
    decreases |sorted|
  {
    if sorted != [] {
      var head, tail := sorted[0], sorted[1..];
      if le(head.name, x.name) {
        var rest := Insert(x, tail, le);
        InsertSorted(x, tail, le);
        forall y | y in rest ensures le(head.name, y.name) {
          assert y in multiset(rest);
          if y != x {
            var k :| 0 <= k < |tail| && tail[k] == y;
            assert sorted[k + 1] == y;
          }
        }
        SortedCons(head, rest, le);
      } else {
        forall y | y in sorted ensures le(x.name, y.name) {
          var k :| 0 <= k < |sorted| && sorted[k] == y;
          if k > 0 { assert le(head.name, y.name); }
        }
        SortedCons(x, sorted, le);
      }
    }
  }

  lemma SortedCons(head: Summary, rest: seq<Summary>, le: (Json, Json) -> bool)
    requires SortedByName(rest, le)
    requires forall y :: y in rest ==> le(head.name, y.name)
    ensures SortedByName([head] + rest, le)
  {
    var s := [head] + rest;
    forall i, j | 0 <= i < j < |s| ensures le(s[i].name, s[j].name) {
      if i == 0 {
        assert s[j] == rest[j - 1];
      } else {
        assert s[i] == rest[i - 1] && s[j] == rest[j - 1];
      }
    }
  }

  /** The sorted list is ordered by name and is a permutation of its input. */
  lemma {:induction false} SortByNameSorted(s: seq<Summary>, le: (Json, Json) -> bool)
    requires TotalPreorder(le)
    ensures SortedByName(SortByName(s, le), le)
    ensures multiset(SortByName(s, le)) == multiset(s)
    decreases |s|
  {
    if s != [] {
      SortByNameSorted(s[..|s| - 1], le);
      InsertSorted(s[|s| - 1], SortByName(s[..|s| - 1], le), le);
    }
  }

  /** Sorting a list that is already ordered by name leaves it unchanged:
      elements with equal names are never reordered among themselves. */
  lemma {:induction false} SortSortedUnchanged(s: seq<Summary>, le: (Json, Json) -> bool)
    requires SortedByName(s, le)
    ensures SortByName(s, le) == s
    decreases |s|
  {
    if s != [] {
      var prefix, last := s[..|s| - 1], s[|s| - 1];
      assert s == prefix + [last];
      assert SortedByName(prefix, le) by {
        forall i, j | 0 <= i < j < |prefix| ensures le(prefix[i].name, prefix[j].name) {
          assert prefix[i] == s[i] && prefix[j] == s[j];
        }
      }
      SortSortedUnchanged(prefix, le);
      forall y | y in prefix ensures le(y.name, last.name) {
        var k :| 0 <= k < |prefix| && prefix[k] == y;
        assert s[k] == y;
      }
      InsertAfterAll(last, prefix, le);
    }
  }

  lemma {:induction false} InsertAfterAll(x: Summary, t: seq<Summary>, le: (Json, Json) -> bool)
    requires forall y :: y in t ==> le(y.name, x.name)
    ensures Insert(x, t, le) == t + [x]
    decreases |t|
  {
    if t != [] {
      assert t[0] in t;
      forall y | y in t[1..] ensures le(y.name, x.name) {
        assert y in t;
      }
      InsertAfterAll(x, t[1..], le);
      assert t == [t[0]] + t[1..];
    }
  }

  /** Two datasets named "Wheat" and "Barley", found in that order, come
      out as Barley then Wheat. */
  lemma WheatBarleyExample(wheat: Summary, barley: Summary, le: (Json, Json) -> bool)
    requires wheat.name == Str("Wheat") && barley.name == Str("Barley")
    requires le(Str("Barley"), Str("Wheat")) && !le(Str("Wheat"), Str("Barley"))
    ensures SortByName([wheat, barley], le) == [barley, wheat]
  {
    assert [wheat, barley][..1] == [wheat];
    assert [wheat][..0] == [];
  }

  /** One valid description under `a` and one unreadable one under `b`: the
      walk finds both, and loading yields a single summary, named Rice-A. */
  lemma RiceLoadExample(read: Reader)
    requires read(["a", "x_description.json"]) == Some(RiceDescription())
    requires read(["b", "y_description.json"]).None?
    ensures var root := [Dir("a", [File("x_description.json")]), Dir("b", [File("y_description.json")])];
      && Walk([], root) == [["a", "x_description.json"], ["b", "y_description.json"]]
      && |Summaries(Walk([], root), read)| == 1
      && Summaries(Walk([], root), read)[0].name == Str("Rice-A")
  {
    TwoDirectoryWalk();
    RiceSummaries(read);
  }

  lemma TwoDirectoryWalk()
    ensures Walk([], [Dir("a", [File("x_description.json")]), Dir("b", [File("y_description.json")])])
      == [["a", "x_description.json"], ["b", "y_description.json"]]
  {
    var root := [Dir("a", [File("x_description.json")]), Dir("b", [File("y_description.json")])];
    var x: Path := ["a", "x_description.json"];
    var y: Path := ["b", "y_description.json"];
    assert IsDescriptionName("x_description.json") by {
      assert "x_description.json"[1..] == Suffix;
    }
    assert IsDescriptionName("y_description.json") by {
      assert "y_description.json"[1..] == Suffix;
    }
    assert Walk(["a"], [File("x_description.json")]) == [x] by {
      assert [File("x_description.json")][1..] == [];
      assert ["a"] + ["x_description.json"] == x;
    }
    assert Walk(["b"], [File("y_description.json")]) == [y] by {
      assert [File("y_description.json")][1..] == [];
      assert ["b"] + ["y_description.json"] == y;
    }
    assert [] + ["a"] == ["a"] && [] + ["b"] == ["b"];
    assert root[1..] == [Dir("b", [File("y_description.json")])];
    assert root[1..][1..] == [];
  }

  lemma RiceSummaries(read: Reader)
    requires read(["a", "x_description.json"]) == Some(RiceDescription())
    requires read(["b", "y_description.json"]).None?
    ensures var s := Summaries([["a", "x_description.json"], ["b", "y_description.json"]], read);
      |s| == 1 && s[0].name == Str("Rice-A")
  {
    var x: Path := ["a", "x_description.json"];
    var y: Path := ["b", "y_description.json"];
    assert [x, y][..1] == [x];
    assert [x][..0] == [];
    RiceDescriptionExample(RiceDescription());
    assert LoadOne(x, read) == BuildDatasetSummary(RiceDescription(), x);
    assert Summaries([x], read) == [LoadOne(x, read).value];
    assert Summaries([x, y], read) == Summaries([x], read);
  }

  // ----- The loading loop -----

  /** `loadDatasetDescriptions()`: walks the dataset root, then for each
      found file in walk order reads, parses and builds its summary, pushing
      it on success and logging the file on failure (`skipped` records the
      files `console.error` reports), and finally sorts by name. */
  method LoadDatasetDescriptions(root: seq<Entry>, read: Reader, le: (Json, Json) -> bool)
    returns (datasets: seq<Summary>, skipped: seq<Path>)
    requires TotalPreorder(le)
    ensures datasets == SortByName(Summaries(Walk([], root), read), le)
    ensures SortedByName(datasets, le)
    ensures multiset(datasets) == multiset(Summaries(Walk([], root), read))
    ensures |datasets| + |skipped| == |Walk([], root)|
    ensures forall f :: f in skipped <==> f in Walk([], root) && LoadOne(f, read).None?
  {
    var descriptionFiles := Walk([], root);
    var descriptions: seq<Summary> := [];
    skipped := [];
    var i := 0;
    while i < |descriptionFiles|
      invariant 0 <= i <= |descriptionFiles|
      invariant descriptions == Summaries(descriptionFiles[..i], read)
      invariant |descriptions| + |skipped| == i
      invariant forall f :: f in skipped <==> f in descriptionFiles[..i] && LoadOne(f, read).None?
    {
      var filePath := descriptionFiles[i];
      assert descriptionFiles[..i + 1][..i] == descriptionFiles[..i];
      assert descriptionFiles[..i + 1] == descriptionFiles[..i] + [filePath];
      match LoadOne(filePath, read) {
        case Some(summary) =>
          descriptions := descriptions + [summary];
        case None =>
          skipped := skipped + [filePath];
      }
      i := i + 1;
    }
    assert descriptionFiles[..i] == descriptionFiles;
    SortByNameSorted(descriptions, le);
    datasets := SortByName(descriptions, le);
  }
}
