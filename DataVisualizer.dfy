/** The storage breakdown chart: each file's MIME type is put in one of six
    categories (top-level media types in the sense of RFC 2046, section 4,
    plus substring rules for documents and archives), and the files are
    grouped by category with a count, a total size and the category's colour. */
module DataVisualizer {
  import opened Strings
  import opened Records

  /** The six categories, declared in the order `categorizeFileType` tests them. */
  datatype Category = Image | Video | Audio | Document | Archive | Other {
    /** The key `categorizeFileType` returns for the category. */
    function Key(): string {
      match this
      case Image => "image"
      case Video => "video"
      case Audio => "audio"
      case Document => "document"
      case Archive => "archive"
      case Other => "other"
    }

    /** The category's place in the test order. */
    function Rank(): nat {
      match this
      case Image => 0
      case Video => 1
      case Audio => 2
      case Document => 3
      case Archive => 4
      case Other => 5
    }

    /** The test a MIME type must pass to fall in this category, ignoring the
        earlier tests; every type passes the last one. */
    predicate Admits(mimeType: string) {
      match this
      case Image => StartsWith(mimeType, "image/")
      case Video => StartsWith(mimeType, "video/")
      case Audio => StartsWith(mimeType, "audio/")
      case Document => StartsWith(mimeType, "text/") || Contains(mimeType, "document") || Contains(mimeType, "pdf")
      case Archive => Contains(mimeType, "zip") || Contains(mimeType, "compressed") || Contains(mimeType, "archive")
      case Other => true
    }
  }

  /** `fileTypeColors` */
  const FileTypeColors: map<string, string> := map[
    "image" := "#f472b6",
    "video" := "#a78bfa",
    "audio" := "#60a5fa",
    "document" := "#34d399",
    "archive" := "#fbbf24",
    "other" := "#9ca3af"
  ]

  /** The category a key names (`Other` for anything else). */
  function FromKey(k: string): Category {
    if k == "image" then Image
    else if k == "video" then Video
    else if k == "audio" then Audio
    else if k == "document" then Document
    else if k == "archive" then Archive
    else Other
  }

  /** The keys name the categories one to one, and the colour table has
      exactly one entry per category. */
  lemma CategoryKeys()
    ensures forall c: Category :: FromKey(c.Key()) == c
    ensures forall c: Category :: c.Key() in FileTypeColors
    ensures forall k :: k in FileTypeColors ==> FromKey(k).Key() == k
  {
  }

  lemma KeyHasColor(c: Category)
    ensures c.Key() in FileTypeColors
  {
  }

  /** `categorizeFileType` */
  function Categorize(mimeType: string): (c: Category)
    ensures c == Image <==> StartsWith(mimeType, "image/")
  {
    if StartsWith(mimeType, "image/") then Image
    else if StartsWith(mimeType, "video/") then Video
    else if StartsWith(mimeType, "audio/") then Audio
    else if StartsWith(mimeType, "text/") || Contains(mimeType, "document") || Contains(mimeType, "pdf") then Document
    else if Contains(mimeType, "zip") || Contains(mimeType, "compressed") || Contains(mimeType, "archive") then Archive
    else Other
  }

  /** A MIME type falls in the first category, in test order, whose test it passes. */
  lemma CategorizeIsFirstMatch(mimeType: string, c: Category)
    ensures Categorize(mimeType) == c <==>
      c.Admits(mimeType) && forall d: Category :: d.Rank() < c.Rank() ==> !d.Admits(mimeType)
  {
    var r := Categorize(mimeType);
    assert r.Admits(mimeType);
    if r != c {
      if r.Rank() < c.Rank() {
        assert !(forall d: Category :: d.Rank() < c.Rank() ==> !d.Admits(mimeType));
      } else {
        assert c.Rank() < r.Rank();
        assert !c.Admits(mimeType) by {
          match c
          case Image =>
          case Video =>
          case Audio =>
          case Document =>
          case Archive =>
          case Other =>
        }
      }
    }
  }

  /** One slice of the chart. */
  datatype Group = Group(kind: string, size: int, count: nat, color: string)

  /* ---------------- The reference definition of the grouping ---------------- */

  /** The categories present in `files`, in order of their first occurrence. */
  function CategoriesOf(files: seq<FileData>): seq<Category> {
    if files == [] then []
    else
      var cs := CategoriesOf(files[..|files| - 1]);
      var c := Categorize(files[|files| - 1].mimeType);
      if c in cs then cs else cs + [c]
  }

  /** How many of `files` fall in category `c`. */
  function CountOf(files: seq<FileData>, c: Category): nat {
    if files == [] then 0
    else CountOf(files[..|files| - 1], c) + (if Categorize(files[|files| - 1].mimeType) == c then 1 else 0)
  }

  /** The total size of the files in category `c`. */
  function SizeOf(files: seq<FileData>, c: Category): int {
    if files == [] then 0
    else SizeOf(files[..|files| - 1], c) + (if Categorize(files[|files| - 1].mimeType) == c then files[|files| - 1].size else 0)
  }

  /** The slice of category `c`. */
  function GroupOf(files: seq<FileData>, c: Category): Group {
    CategoryKeys();
    Group(c.Key(), SizeOf(files, c), CountOf(files, c), FileTypeColors[c.Key()])
  }

  function GroupsOver(files: seq<FileData>, cs: seq<Category>): seq<Group> {
    seq(|cs|, j requires 0 <= j < |cs| => GroupOf(files, cs[j]))
  }

  /** What `getFileTypeData` should return: one slice per present category, in
      order of first occurrence. */
  function GroupsFor(files: seq<FileData>): seq<Group> {
    GroupsOver(files, CategoriesOf(files))
  }

  function CountTotal(groups: seq<Group>): int {
    if groups == [] then 0 else CountTotal(groups[..|groups| - 1]) + groups[|groups| - 1].count
  }

  function SizeTotal(groups: seq<Group>): int {
    if groups == [] then 0 else SizeTotal(groups[..|groups| - 1]) + groups[|groups| - 1].size
  }

  predicate Distinct(cs: seq<Category>) {
    forall i, j :: 0 <= i < j < |cs| ==> cs[i] != cs[j]
  }

  /** One more file adds one and its size to its own category and changes no other. */
  lemma TallyStep(files: seq<FileData>, f: FileData, c: Category)
    ensures CountOf(files + [f], c) == CountOf(files, c) + (if Categorize(f.mimeType) == c then 1 else 0)
    ensures SizeOf(files + [f], c) == SizeOf(files, c) + (if Categorize(f.mimeType) == c then f.size else 0)
  {
    assert (files + [f])[..|files|] == files;
  }

  /* ---------------- The loop ---------------- */

  /** How the reference grouping of a prefix grows by one file. */
  lemma GroupOfStep(files: seq<FileData>, i: nat, c: Category)
    requires i < |files|
    ensures var g := GroupOf(files[..i], c);
      GroupOf(files[..i + 1], c) ==
        if Categorize(files[i].mimeType) == c then g.(size := g.size + files[i].size, count := g.count + 1) else g
  {
    assert files[..i + 1] == files[..i] + [files[i]];
    TallyStep(files[..i], files[i], c);
  }

  /** The loop's state after `prefix`: the keys present are those of the categories
      seen, in first-seen order, each holding that category's slice. */
  ghost predicate Tracks(typeGroups: map<string, Group>, order: seq<Category>, prefix: seq<FileData>) {
    && order == CategoriesOf(prefix)
    && (forall c: Category :: c.Key() in typeGroups <==> c in order)
    && (forall c: Category :: c in order ==> typeGroups[c.Key()] == GroupOf(prefix, c))
  }

  /** One iteration keeps `Tracks`: a missing slice is created empty and
      appended to the order, then the file is added to its slice. */
  lemma TrackStep(m: map<string, Group>, order: seq<Category>, files: seq<FileData>, i: nat,
                  g: Group, m': map<string, Group>, order': seq<Category>)
    requires i < |files| && Tracks(m, order, files[..i])
    requires Categorize(files[i].mimeType).Key() in m ==>
      order' == order && g == m[Categorize(files[i].mimeType).Key()]
    requires Categorize(files[i].mimeType).Key() !in m ==>
      && order' == order + [Categorize(files[i].mimeType)]
      && g == Group(Categorize(files[i].mimeType).Key(), 0, 0, FileTypeColors[Categorize(files[i].mimeType).Key()])
    requires m' == m[Categorize(files[i].mimeType).Key() := g.(size := g.size + files[i].size, count := g.count + 1)]
    ensures Tracks(m', order', files[..i + 1])
  {
    CategoryKeys();
    var category := Categorize(files[i].mimeType);
    assert files[..i + 1][..i] == files[..i];
    CategoriesPresent(files[..i], category);
    assert order' == CategoriesOf(files[..i + 1]);
    forall c: Category ensures c.Key() in m' <==> c in order' {
      assert FromKey(c.Key()) == c && FromKey(category.Key()) == category;
    }
    forall c: Category | c in order'
      ensures m'[c.Key()] == GroupOf(files[..i + 1], c)
    {
      GroupOfStep(files, i, c);
      assert FromKey(c.Key()) == c && FromKey(category.Key()) == category;
    }
  }

  /** `getFileTypeData`: one pass over the files, creating a category's slice on
      its first file and adding each file's size and one to its slice; the
      result lists the slices in the order their keys were inserted, which is
      the order `Object.values` gives for keys that are not array indices. */
  method GetFileTypeData(files: seq<FileData>) returns (groups: seq<Group>)
    ensures groups == GroupsFor(files)
  {
    var typeGroups: map<string, Group> := map[];
    var order: seq<Category> := [];
    for i := 0 to |files|
      invariant Tracks(typeGroups, order, files[..i])
    {
      ghost var m, o := typeGroups, order;
      var category := Categorize(files[i].mimeType);
      KeyHasColor(category);
      if category.Key() !in typeGroups {
        typeGroups := typeGroups[category.Key() := Group(category.Key(), 0, 0, FileTypeColors[category.Key()])];
        order := order + [category];
      }
      var g := typeGroups[category.Key()];
      typeGroups := typeGroups[category.Key() := g.(size := g.size + files[i].size, count := g.count + 1)];
      assert typeGroups == m[category.Key() := g.(size := g.size + files[i].size, count := g.count + 1)];
      TrackStep(m, o, files, i, g, typeGroups, order);
    }
    groups := seq(|order|, j requires 0 <= j < |order| => typeGroups[order[j].Key()]);
    TracksAll(typeGroups, order, files);
  }

  /** After the last file, listing the slices in insertion order gives the reference grouping. */
  lemma TracksAll(m: map<string, Group>, order: seq<Category>, files: seq<FileData>)
    requires Tracks(m, order, files[..|files|])
    ensures forall c :: c in order ==> c.Key() in m
    ensures seq(|order|, j requires 0 <= j < |order| => m[order[j].Key()]) == GroupsFor(files)
  {
    assert files[..|files|] == files;
  }

  /* ---------------- What the grouping promises ---------------- */

  /** A category is listed exactly when some file falls in it. */
  lemma {:induction false} CategoriesPresent(files: seq<FileData>, c: Category)
    ensures c in CategoriesOf(files) <==> CountOf(files, c) > 0
    ensures c !in CategoriesOf(files) ==> SizeOf(files, c) == 0
    decreases |files|
  {
    if files != [] {
      CategoriesPresent(files[..|files| - 1], c);
    }
  }

  /** No category is listed twice. */
  lemma {:induction false} CategoriesDistinct(files: seq<FileData>)
    ensures Distinct(CategoriesOf(files))
    decreases |files|
  {
    if files != [] {
      CategoriesDistinct(files[..|files| - 1]);
    }
  }

  /** The categories of a prefix come first, in the same order: a category is
      listed before every category whose first file comes later. */
  lemma {:induction false} CategoriesPrefix(files: seq<FileData>, i: nat)
    requires i <= |files|
    ensures CategoriesOf(files[..i]) <= CategoriesOf(files)
    decreases |files| - i
  {
    if i < |files| {
      CategoriesPrefix(files, i + 1);
      assert files[..i + 1][..i] == files[..i];
    } else {
      assert files[..i] == files;
    }
  }

  /** Listing one more category adds its count and size to the totals. */
  lemma TotalsAppend(files: seq<FileData>, cs: seq<Category>, c: Category)
    ensures CountTotal(GroupsOver(files, cs + [c])) == CountTotal(GroupsOver(files, cs)) + CountOf(files, c)
    ensures SizeTotal(GroupsOver(files, cs + [c])) == SizeTotal(GroupsOver(files, cs)) + SizeOf(files, c)
  {
    var gs := GroupsOver(files, cs + [c]);
    assert gs[..|gs| - 1] == GroupsOver(files, cs);
  }

  /** Adding one file moves the totals over distinct categories `cs` by one
      and by its size when its category is among them, and not at all otherwise. */
  lemma {:induction false} TotalsStep(files: seq<FileData>, f: FileData, cs: seq<Category>)
    requires Distinct(cs)
    ensures CountTotal(GroupsOver(files + [f], cs)) ==
      CountTotal(GroupsOver(files, cs)) + (if Categorize(f.mimeType) in cs then 1 else 0)
    ensures SizeTotal(GroupsOver(files + [f], cs)) ==
      SizeTotal(GroupsOver(files, cs)) + (if Categorize(f.mimeType) in cs then f.size else 0)
    decreases |cs|
  {
    if cs != [] {
      var init := cs[..|cs| - 1];
      var last := cs[|cs| - 1];
      assert cs == init + [last];
      assert Distinct(init) by {
        forall i, j | 0 <= i < j < |init| ensures init[i] != init[j] {
          assert init[i] == cs[i] && init[j] == cs[j];
        }
      }
      TotalsStep(files, f, init);
      TotalsAppend(files + [f], init, last);
      TotalsAppend(files, init, last);
      TallyStep(files, f, last);
      var c := Categorize(f.mimeType);
      assert c in cs <==> c in init || c == last;
      if c == last {
        assert c !in init by {
          forall i | 0 <= i < |init| ensures init[i] != c {
            assert init[i] == cs[i];
          }
        }
      }
    }
  }

  /** The slices add up: their counts sum to the number of files and their
      sizes to the total size of the files. */
  lemma {:induction false} GroupTotals(files: seq<FileData>)
    ensures CountTotal(GroupsFor(files)) == |files|
    ensures SizeTotal(GroupsFor(files)) == SumSizes(files)
    decreases |files|
  {
    if files != [] {
      var init := files[..|files| - 1];
      var f := files[|files| - 1];
      GroupTotals(init);
      assert files == init + [f];
      GroupTotalsAppend(init, f);
    }
  }

  /** One more file adds one to the slices' count total and its size to their size total. */
  lemma GroupTotalsAppend(init: seq<FileData>, f: FileData)
    ensures CountTotal(GroupsFor(init + [f])) == CountTotal(GroupsFor(init)) + 1
    ensures SizeTotal(GroupsFor(init + [f])) == SizeTotal(GroupsFor(init)) + f.size
  {
    var files := init + [f];
    var cs := CategoriesOf(init);
    var c := Categorize(f.mimeType);
    assert files[..|files| - 1] == init;
    CategoriesDistinct(init);
    TotalsStep(init, f, cs);
    if c !in cs {
      assert CategoriesOf(files) == cs + [c];
      CategoriesPresent(init, c);
      TallyStep(init, f, c);
      TotalsAppend(files, cs, c);
    } else {
      assert CategoriesOf(files) == cs;
    }
  }

  lemma HasDataIff(files: seq<FileData>)
    ensures |GroupsFor(files)| > 0 <==> |files| > 0
  {
    if files != [] {
      CategoriesPresent(files, Categorize(files[|files| - 1].mimeType));
    }
  }

  /* ---------------- Labels ---------------- */

  /** The `names` table of `getTypeName`. */
  const TypeNames: map<string, string> := map[
    "image" := "Images",
    "video" := "Videos",
    "audio" := "Audio",
    "document" := "Documents",
    "archive" := "Archives",
    "other" := "Other Files"
  ]

  /** `getTypeName`: the label of a category key; any other string is returned as it is
      (every label is non-empty, so `||` never falls through for a key). */
  function TypeName(kind: string): (name: string)
    ensures name == kind || (kind in TypeNames && name == TypeNames[kind])
    ensures name != ""  || kind == ""
  {
    if kind in TypeNames && TypeNames[kind] != "" then TypeNames[kind] else kind
  }

  /** Every slice is labelled by its category's entry, and only the six keys are relabelled. */
  lemma TypeNameLabels(kind: string)
    ensures forall c: Category :: c.Key() in TypeNames && TypeName(c.Key()) == TypeNames[c.Key()] != ""
    ensures TypeName(kind) != kind <==> exists c: Category :: c.Key() == kind
  {
    if kind in TypeNames {
      CategoryKeys();
      assert kind in FileTypeColors;
    }
  }
}
