/** The file table: the sort toggle, the search filter, the comparator the
    table sorts by, the icon chosen for a MIME type and the unit a size is
    shown in. Names are compared by `collate`, which stands for the host's
    locale-aware string comparison. */
module FileTable {
  import opened Strings
  import opened Records
  import DataVisualizer

  /* ---------------- Sort state ---------------- */

  datatype SortField = Name | Size | LastModified
  datatype Direction = Asc | Desc
  datatype SortState = SortState(field: SortField, direction: Direction)

  function Flip(d: Direction): Direction {
    if d == Asc then Desc else Asc
  }

  /** What a click on a column header does to the sort state. */
  function NextSort(s: SortState, field: SortField): (next: SortState)
    ensures next.field == field
  {
    if s.field == field then SortState(field, Flip(s.direction)) else SortState(field, Asc)
  }

  /** A click always sorts by the clicked field; on the current field it
      reverses the direction, on another field it starts ascending; two
      clicks on the current field restore the state. */
  lemma NextSortToggles(s: SortState, field: SortField)
    ensures NextSort(s, field).field == field
    ensures field == s.field ==> NextSort(s, field).direction != s.direction
    ensures field != s.field ==> NextSort(s, field).direction == Asc
    ensures NextSort(NextSort(s, s.field), s.field) == s
    ensures field != s.field ==> NextSort(NextSort(s, field), field) == SortState(field, Desc)
  {
  }

  /** The table's two pieces of sort state. */
  class SortControl {
    var sortField: SortField
    var sortDirection: Direction

    /** The table opens sorted by last modification, newest first. */
    constructor ()
      ensures sortField == LastModified && sortDirection == Desc
    {
      sortField := LastModified;
      sortDirection := Desc;
    }

    function State(): SortState
      reads this
    {
      SortState(sortField, sortDirection)
    }

    /** `handleSort` */
    method HandleSort(field: SortField)
      modifies this
      ensures State() == NextSort(old(State()), field)
    {
      if sortField == field {
        sortDirection := if sortDirection == Asc then Desc else Asc;
      } else {
        sortField := field;
        sortDirection := Asc;
      }
    }
  }

  /* ---------------- Search ---------------- */

  /** A file is shown when its lower-cased name contains the lower-cased term. */
  predicate MatchesSearch(file: FileData, term: string) {
    Contains(ToLower(file.name), ToLower(term))
  }

  /** The filter step of `filteredFiles`. */
  function FilterFiles(files: seq<FileData>, term: string): (shown: seq<FileData>)
    ensures |shown| <= |files|
    ensures forall i :: 0 <= i < |shown| ==> MatchesSearch(shown[i], term)
    decreases |files|
  {
    if files == [] then []
    else (if MatchesSearch(files[0], term) then [files[0]] else []) + FilterFiles(files[1..], term)
  }

  /** The filter keeps every occurrence of a matching file and no occurrence of
      any other: as a multiset it is the matching part of the input. */
  lemma {:induction false} FilterCounts(files: seq<FileData>, term: string)
    ensures forall f :: multiset(FilterFiles(files, term))[f] == (if MatchesSearch(f, term) then multiset(files)[f] else 0)
    ensures multiset(FilterFiles(files, term)) <= multiset(files)
    decreases |files|
  {
    if files != [] {
      var x, rest := files[0], files[1..];
      FilterCounts(rest, term);
      var head := if MatchesSearch(x, term) then [x] else [];
      var shown, shownRest := FilterFiles(files, term), FilterFiles(rest, term);
      assert shown == head + shownRest;
      assert multiset(shown) == multiset(head) + multiset(shownRest);
      assert multiset(files) == multiset{x} + multiset(rest) by {
        assert files == [x] + rest;
      }
    }
  }

  /** An empty search shows every file, in the given order. */
  lemma {:induction false} FilterEmptyTerm(files: seq<FileData>)
    ensures FilterFiles(files, "") == files
    decreases |files|
  {
    if files != [] {
      assert ToLower("") == "";
      ContainsEmpty(ToLower(files[0].name));
      FilterEmptyTerm(files[1..]);
      assert files == [files[0]] + files[1..];
    }
  }

  /** The search is case-insensitive in the term: a term already lower-cased
      shows the same files as the term as typed. */
  lemma {:induction false} FilterCaseInsensitive(files: seq<FileData>, term: string)
    ensures FilterFiles(files, ToLower(term)) == FilterFiles(files, term)
    decreases |files|
  {
    ToLowerIdempotent(term);
    if files != [] {
      FilterCaseInsensitive(files[1..], term);
    }
  }

  /* ---------------- Sort ---------------- */

  /** The `comparison` of two files before the direction is applied. */
  function Comparison(field: SortField, collate: (string, string) -> int, a: FileData, b: FileData): int {
    match field
    case Name => collate(a.name, b.name)
    case Size => a.size - b.size
    case LastModified => a.lastModified - b.lastModified
  }

  /** The comparator handed to `sort`: negative puts `a` first. */
  function Compare(state: SortState, collate: (string, string) -> int, a: FileData, b: FileData): int {
    var c := Comparison(state.field, collate, a, b);
    if state.direction == Asc then c else -c
  }

  /** Inserts `x` before the first element it must precede, after all it may follow. */
  function Insert(state: SortState, collate: (string, string) -> int, x: FileData, s: seq<FileData>): (r: seq<FileData>)
    ensures |r| == |s| + 1
    decreases |s|
  {
    if s == [] then [x]
    else if Compare(state, collate, x, s[0]) < 0 then [x] + s
    else [s[0]] + Insert(state, collate, x, s[1..])
  }

  /** The sort step of `filteredFiles`, as a stable insertion sort. */
  function SortFiles(state: SortState, collate: (string, string) -> int, files: seq<FileData>): (sorted: seq<FileData>)
    ensures |sorted| == |files|
    decreases |files|
  {
    if files == [] then []
    else Insert(state, collate, files[|files| - 1], SortFiles(state, collate, files[..|files| - 1]))
  }

  /** `filteredFiles`: the matching files, sorted. */
  function VisibleFiles(files: seq<FileData>, term: string, state: SortState, collate: (string, string) -> int): seq<FileData> {
    SortFiles(state, collate, FilterFiles(files, term))
  }

  /** No file is put after one it must precede. */
  predicate Ordered(state: SortState, collate: (string, string) -> int, s: seq<FileData>) {
    forall i, j :: 0 <= i < j < |s| ==> Compare(state, collate, s[i], s[j]) <= 0
  }

  /** The comparator is antisymmetric and its "may precede" is transitive. */
  ghost predicate ComparatorConsistent(state: SortState, collate: (string, string) -> int) {
    && (forall a, b :: Compare(state, collate, a, b) == -Compare(state, collate, b, a))
    && (forall a, b, c :: Compare(state, collate, a, b) <= 0 && Compare(state, collate, b, c) <= 0 ==>
          Compare(state, collate, a, c) <= 0)
  }

  /** Size and time comparisons are consistent in either direction. */
  lemma NumericComparatorConsistent(state: SortState, collate: (string, string) -> int)
    requires state.field != Name
    ensures ComparatorConsistent(state, collate)
  {
  }

  /** Name comparisons are consistent in either direction when `collate` is. */
  lemma NameComparatorConsistent(state: SortState, collate: (string, string) -> int)
    requires state.field == Name
    requires forall x, y :: collate(x, y) == -collate(y, x)
    requires forall x, y, z :: collate(x, y) <= 0 && collate(y, z) <= 0 ==> collate(x, z) <= 0
    ensures ComparatorConsistent(state, collate)
  {
  }

  lemma {:induction false} InsertPermutes(state: SortState, collate: (string, string) -> int, x: FileData, s: seq<FileData>)
    ensures multiset(Insert(state, collate, x, s)) == multiset(s) + multiset{x}
    decreases |s|
  {
    if s != [] {
      InsertPermutes(state, collate, x, s[1..]);
      assert s == [s[0]] + s[1..];
    }
  }

  /** Sorting rearranges the files: nothing is lost, duplicated or added. */
  lemma {:induction false} SortPermutes(state: SortState, collate: (string, string) -> int, files: seq<FileData>)
    ensures multiset(SortFiles(state, collate, files)) == multiset(files)
    decreases |files|
  {
    if files != [] {
      var init, last := files[..|files| - 1], files[|files| - 1];
      calc {
        multiset(SortFiles(state, collate, files));
        multiset(Insert(state, collate, last, SortFiles(state, collate, init)));
        { InsertPermutes(state, collate, last, SortFiles(state, collate, init)); }
        multiset(SortFiles(state, collate, init)) + multiset{last};
        { SortPermutes(state, collate, init); }
        multiset(init) + multiset{last};
        { assert files == init + [last]; }
        multiset(files);
      }
    }
  }

  /** Putting `x` in front of an ordered list it must precede keeps it ordered. */
  lemma InsertFrontOrdered(state: SortState, collate: (string, string) -> int, x: FileData, s: seq<FileData>)
    requires ComparatorConsistent(state, collate) && Ordered(state, collate, s)
    requires s != [] && Compare(state, collate, x, s[0]) < 0
    ensures Ordered(state, collate, [x] + s)
  {
    forall k | 0 <= k < |s| ensures Compare(state, collate, x, s[k]) <= 0 {
      if k > 0 {
        assert Compare(state, collate, s[0], s[k]) <= 0;
      }
    }
    ConsOrdered(state, collate, x, s);
  }

  /** Putting a head that may precede every element in front of an ordered list keeps it ordered. */
  lemma ConsOrdered(state: SortState, collate: (string, string) -> int, h: FileData, rest: seq<FileData>)
    requires Ordered(state, collate, rest)
    requires forall k :: 0 <= k < |rest| ==> Compare(state, collate, h, rest[k]) <= 0
    ensures Ordered(state, collate, [h] + rest)
  {
    var r := [h] + rest;
    forall i, j | 0 <= i < j < |r| ensures Compare(state, collate, r[i], r[j]) <= 0 {
      assert r[j] == rest[j - 1];
      if i > 0 {
        assert r[i] == rest[i - 1];
      }
    }
  }

  /** A file that may precede `x` and every element of `s` may precede every
      element once `x` is inserted. */
  lemma InsertKeepsLowerBound(state: SortState, collate: (string, string) -> int, h: FileData, x: FileData, s: seq<FileData>)
    requires Compare(state, collate, h, x) <= 0
    requires forall k :: 0 <= k < |s| ==> Compare(state, collate, h, s[k]) <= 0
    ensures forall k :: 0 <= k < |Insert(state, collate, x, s)| ==> Compare(state, collate, h, Insert(state, collate, x, s)[k]) <= 0
  {
    var r := Insert(state, collate, x, s);
    InsertPermutes(state, collate, x, s);
    forall k | 0 <= k < |r| ensures Compare(state, collate, h, r[k]) <= 0 {
      var y := r[k];
      assert y in multiset(r);
      if y != x {
        assert y in multiset(s);
        var k' :| 0 <= k' < |s| && s[k'] == y;
      }
    }
  }

  lemma {:induction false} InsertOrdered(state: SortState, collate: (string, string) -> int, x: FileData, s: seq<FileData>)
    requires ComparatorConsistent(state, collate) && Ordered(state, collate, s)
    ensures Ordered(state, collate, Insert(state, collate, x, s))
    decreases |s|
  {
    if s != [] {
      if Compare(state, collate, x, s[0]) < 0 {
        InsertFrontOrdered(state, collate, x, s);
      } else {
        var tail := s[1..];
        assert Ordered(state, collate, tail) by {
          forall i, j | 0 <= i < j < |tail| ensures Compare(state, collate, tail[i], tail[j]) <= 0 {
            assert tail[i] == s[i + 1] && tail[j] == s[j + 1];
          }
        }
        InsertOrdered(state, collate, x, tail);
        assert Compare(state, collate, s[0], x) <= 0;
        forall k | 0 <= k < |tail| ensures Compare(state, collate, s[0], tail[k]) <= 0 {
          assert tail[k] == s[k + 1];
        }
        InsertKeepsLowerBound(state, collate, s[0], x, tail);
        ConsOrdered(state, collate, s[0], Insert(state, collate, x, tail));
      }
    }
  }

  /** With a consistent comparator, the sorted files are in comparator order. */
  lemma {:induction false} SortOrders(state: SortState, collate: (string, string) -> int, files: seq<FileData>)
    requires ComparatorConsistent(state, collate)
    ensures Ordered(state, collate, SortFiles(state, collate, files))
    decreases |files|
  {
    if files != [] {
      SortOrders(state, collate, files[..|files| - 1]);
      InsertOrdered(state, collate, files[|files| - 1], SortFiles(state, collate, files[..|files| - 1]));
    }
  }

  /** The number a size or time sort orders by. */
  function NumericKey(field: SortField, f: FileData): int
    requires field != Name
  {
    if field == Size then f.size else f.lastModified
  }

  /** Sorted by size or time, the files are in ascending order of that
      number for `asc` and descending order for `desc`. */
  lemma NumericSortOrders(state: SortState, collate: (string, string) -> int, files: seq<FileData>)
    requires state.field != Name
    ensures var r := SortFiles(state, collate, files);
      forall i, j :: 0 <= i < j < |r| ==>
        (if state.direction == Asc then NumericKey(state.field, r[i]) <= NumericKey(state.field, r[j])
         else NumericKey(state.field, r[i]) >= NumericKey(state.field, r[j]))
  {
    NumericComparatorConsistent(state, collate);
    SortOrders(state, collate, files);
  }

  /** The table shows exactly the matching files, each as often as it occurs;
      sorted by size or time they are in ascending order for `asc` and
      descending order for `desc`. */
  lemma VisibleFilesSpec(files: seq<FileData>, term: string, state: SortState, collate: (string, string) -> int)
    ensures forall f ::
      multiset(VisibleFiles(files, term, state, collate))[f] == (if MatchesSearch(f, term) then multiset(files)[f] else 0)
    ensures state.field != Name ==>
      var r := VisibleFiles(files, term, state, collate);
      forall i, j :: 0 <= i < j < |r| ==>
        (if state.direction == Asc then NumericKey(state.field, r[i]) <= NumericKey(state.field, r[j])
         else NumericKey(state.field, r[i]) >= NumericKey(state.field, r[j]))
  {
    var shown := FilterFiles(files, term);
    FilterCounts(files, term);
    SortPermutes(state, collate, shown);
    if state.field != Name {
      NumericSortOrders(state, collate, shown);
    }
  }

  /* ---------------- Icons ---------------- */

  datatype Icon = ImageIcon | VideoIcon | MusicIcon | TextIcon | PackageIcon | GenericIcon

  /** `getFileIcon` */
  function FileIcon(mimeType: string): (icon: Icon)
    ensures icon == ImageIcon <==> StartsWith(mimeType, "image/")
    ensures icon == GenericIcon ==> DataVisualizer.Categorize(mimeType) in {DataVisualizer.Document, DataVisualizer.Other}
  {
    if StartsWith(mimeType, "image/") then ImageIcon
    else if StartsWith(mimeType, "video/") then VideoIcon
    else if StartsWith(mimeType, "audio/") then MusicIcon
    else if StartsWith(mimeType, "text/") then TextIcon
    else if Contains(mimeType, "zip") || Contains(mimeType, "compressed") || Contains(mimeType, "archive") then PackageIcon
    else GenericIcon
  }

  /** The icon drawn in a category's colour on the chart. */
  function IconOf(c: DataVisualizer.Category): Icon {
    match c
    case Image => ImageIcon
    case Video => VideoIcon
    case Audio => MusicIcon
    case Document => TextIcon
    case Archive => PackageIcon
    case Other => GenericIcon
  }

  /** The icon agrees with the chart's category except for documents found by
      the `document`/`pdf` substring rule, which the icon tests do not have:
      those get the archive icon when the type names an archive, and the
      generic icon otherwise. */
  lemma IconFollowsCategory(mimeType: string)
    ensures DataVisualizer.Categorize(mimeType) != DataVisualizer.Document ==>
      FileIcon(mimeType) == IconOf(DataVisualizer.Categorize(mimeType))
    ensures DataVisualizer.Categorize(mimeType) == DataVisualizer.Document ==>
      FileIcon(mimeType) ==
        if StartsWith(mimeType, "text/") then TextIcon
        else if Contains(mimeType, "zip") || Contains(mimeType, "compressed") || Contains(mimeType, "archive") then PackageIcon
        else GenericIcon
    ensures FileIcon(mimeType) == TextIcon ==> DataVisualizer.Categorize(mimeType) == DataVisualizer.Document
  {
  }

  /* ---------------- Size units ---------------- */

  datatype Unit = B | KB | MB | GB

  /** How many bytes one of the unit is. */
  function Scale(u: Unit): nat {
    match u
    case B => 1
    case KB => 1024
    case MB => 1024 * 1024
    case GB => 1024 * 1024 * 1024
  }

  /** The unit `formatFileSize` picks. */
  function UnitFor(bytes: int): (u: Unit)
    ensures u == B <==> bytes < 1024
    ensures u == GB <==> bytes >= 1024 * 1024 * 1024
  {
    if bytes < 1024 then B
    else if bytes < 1024 * 1024 then KB
    else if bytes < 1024 * 1024 * 1024 then MB
    else GB
  }

  /** The unit is the largest whose scale the size reaches (bytes for anything
      under 1024), capped at GB: below GB, the shown number is under 1024. */
  lemma UnitForIsLargestReached(bytes: int, u: Unit)
    ensures UnitFor(bytes) == u <==>
      (u == B || Scale(u) <= bytes) && (u == GB || bytes < 1024 * Scale(u))
  {
  }

  /** A larger size never gets a smaller unit. */
  lemma UnitForMonotonic(a: int, b: int)
    requires a <= b
    ensures Scale(UnitFor(a)) <= Scale(UnitFor(b))
  {
  }
}
