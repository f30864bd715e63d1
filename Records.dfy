/** The shapes shared by the store, the API and the UI: a file record
    (`FileData`), the partial record a request body carries, the response
    envelope `{success, data?, error?}` and the storage statistics, with the
    sums over records that the statistics are made of. */
module Records {

  datatype Option<+T> = None | Some(value: T) {
    function GetOr(default: T): T {
      match this
      case Some(v) => v
      case None => default
    }
  }

  /** A file's payload: inline text (a data URI), raw bytes, or null. */
  datatype Content = TextContent(text: string) | BinaryContent(bytes: seq<bv8>) | NullContent

  /** One stored file. The source calls the media-type field `type`. */
  datatype FileData = FileData(
    id: string,
    name: string,
    mimeType: string,
    size: int,
    lastModified: int,
    content: Content,
    path: Option<string>)

  /** A decoded request body: a JSON object carrying any subset of the
      record's fields (`Partial<FileData>`). */
  datatype FilePatch = FilePatch(
    id: Option<string>,
    name: Option<string>,
    mimeType: Option<string>,
    size: Option<int>,
    lastModified: Option<int>,
    content: Option<Content>,
    path: Option<string>)

  /** `{}` */
  const EmptyPatch := FilePatch(None, None, None, None, None, None, None)

  /** `{ ...base, ...patch }`: a field the patch carries replaces base's, every
      other field is base's. */
  function Spread(base: FileData, patch: FilePatch): (r: FileData)
    ensures patch.id.Some? ==> r.id == patch.id.value
    ensures patch.id.None? ==> r.id == base.id
  {
    FileData(
      patch.id.GetOr(base.id),
      patch.name.GetOr(base.name),
      patch.mimeType.GetOr(base.mimeType),
      patch.size.GetOr(base.size),
      patch.lastModified.GetOr(base.lastModified),
      patch.content.GetOr(base.content),
      if patch.path.Some? then patch.path else base.path)
  }

  /** Two patches applied one after the other, as one patch (the later wins). */
  function Then(p: FilePatch, q: FilePatch): FilePatch {
    FilePatch(
      if q.id.Some? then q.id else p.id,
      if q.name.Some? then q.name else p.name,
      if q.mimeType.Some? then q.mimeType else p.mimeType,
      if q.size.Some? then q.size else p.size,
      if q.lastModified.Some? then q.lastModified else p.lastModified,
      if q.content.Some? then q.content else p.content,
      if q.path.Some? then q.path else p.path)
  }

  /** Spreading `{}` changes nothing. */
  lemma SpreadEmpty(base: FileData)
    ensures Spread(base, EmptyPatch) == base
  {
  }

  /** Spreading the same patch twice is spreading it once. */
  lemma SpreadIdempotent(base: FileData, patch: FilePatch)
    ensures Spread(Spread(base, patch), patch) == Spread(base, patch)
  {
  }

  /** Two successive shallow merges equal one merge of the combined patch. */
  lemma SpreadThen(base: FileData, p: FilePatch, q: FilePatch)
    ensures Spread(Spread(base, p), q) == Spread(base, Then(p, q))
  {
  }

  /** The values a POST body that lacks a field ends up with in this model. */
  const Blank := FileData("", "", "", 0, 0, NullContent, None)

  /** `{ ...draft, id, lastModified: now }`: the draft's fields with a fresh id and time. */
  function NewRecord(draft: FilePatch, id: string, now: int): (r: FileData)
    ensures r.id == id && r.lastModified == now
    ensures r.name == draft.name.GetOr(Blank.name)
    ensures r.mimeType == draft.mimeType.GetOr(Blank.mimeType)
    ensures r.size == draft.size.GetOr(Blank.size)
    ensures r.content == draft.content.GetOr(Blank.content)
    ensures r.path == draft.path
  {
    Spread(Blank, draft).(id := id, lastModified := now)
  }

  /** `{ ...existing, ...updates, lastModified: now }` */
  function Merged(existing: FileData, updates: FilePatch, now: int): (r: FileData)
    ensures r.lastModified == now
    ensures r.id == updates.id.GetOr(existing.id)
    ensures r.name == updates.name.GetOr(existing.name)
    ensures r.mimeType == updates.mimeType.GetOr(existing.mimeType)
    ensures r.size == updates.size.GetOr(existing.size)
    ensures r.content == updates.content.GetOr(existing.content)
    ensures r.path == (if updates.path.Some? then updates.path else existing.path)
  {
    Spread(existing, updates).(lastModified := now)
  }

  /** The statistics record: `Omit<StorageData, 'files'> & { fileCount }`. */
  datatype StorageStats = StorageStats(totalSize: int, lastUpdated: int, fileCount: int)

  /** What a successful response carries in `data`. */
  datatype Payload =
    | FileList(files: seq<FileData>)
    | OneFile(file: FileData)
    | Deletion(deleted: bool)
    | StatsData(stats: StorageStats)

  /** The envelope `{success: true, data}` or `{success: false, error}`. */
  datatype ApiResponse = Success(data: Payload) | Failure(error: string)

  const InvalidApiKey := "Invalid API key"
  const FileNotFound := "File not found"
  const FailedToRetrieveFiles := "Failed to retrieve files"
  const FailedToRetrieveFile := "Failed to retrieve file"
  const FailedToSaveFile := "Failed to save file"
  const FailedToUpdateFile := "Failed to update file"
  const FailedToDeleteFile := "Failed to delete file"
  const FailedToRetrieveStats := "Failed to retrieve storage stats"

  /** `files.reduce((sum, f) => sum + f.size, 0)` */
  function SumSizes(files: seq<FileData>): (total: int)
    ensures (forall i :: 0 <= i < |files| ==> files[i].size >= 0) ==> total >= 0
  {
    if files == [] then 0 else SumSizes(files[..|files| - 1]) + files[|files| - 1].size
  }

  /** The left fold splits at any point. */
  lemma {:induction false} SumSizesAppend(a: seq<FileData>, b: seq<FileData>)
    ensures SumSizes(a + b) == SumSizes(a) + SumSizes(b)
    decreases |b|
  {
    if b == [] {
      assert a + b == a;
    } else {
      assert (a + b)[..|a + b| - 1] == a + b[..|b| - 1];
      SumSizesAppend(a, b[..|b| - 1]);
    }
  }

  /** The sum taken from the front: the first size plus the rest. */
  lemma SumSizesCons(f: FileData, rest: seq<FileData>)
    ensures SumSizes([f] + rest) == f.size + SumSizes(rest)
  {
    SumSizesAppend([f], rest);
    assert [f][..0] == [];
  }

  /** No two entries of the list share an id. */
  predicate UniqueIds(files: seq<FileData>) {
    forall i, j :: 0 <= i < j < |files| ==> files[i].id != files[j].id
  }

  /** Every record of a store keyed by id is filed under its own id. */
  ghost predicate KeyedById(m: map<string, FileData>) {
    forall k :: k in m ==> m[k].id == k
  }

  /** The total size of the records held in a keyed store. */
  ghost function MapSum(m: map<string, FileData>): int
    decreases |m|
  {
    if m == map[] then 0
    else
      var k :| k in m;
      m[k].size + MapSum(m - {k})
  }

  /** Taking any one record out of the store takes exactly its size off the sum. */
  lemma {:induction false} MapSumRemove(m: map<string, FileData>, k: string)
    requires k in m
    ensures MapSum(m) == m[k].size + MapSum(m - {k})
    decreases |m|
  {
    var j :| j in m && MapSum(m) == m[j].size + MapSum(m - {j});
    if j != k {
      var mj, mk := m - {j}, m - {k};
      assert k in mj && j in mk;
      assert |mj| < |m| && |mk| < |m|;
      MapSumRemove(mj, k);
      MapSumRemove(mk, j);
      assert mj - {k} == mk - {j};
    }
  }

  /** An upsert changes the stored total by the new size minus the replaced one. */
  lemma MapSumPut(m: map<string, FileData>, f: FileData)
    ensures MapSum(m[f.id := f]) == MapSum(m) + f.size - (if f.id in m then m[f.id].size else 0)
  {
    var m' := m[f.id := f];
    MapSumRemove(m', f.id);
    if f.id in m {
      MapSumRemove(m, f.id);
      assert m' - {f.id} == m - {f.id};
    } else {
      assert m' - {f.id} == m;
    }
  }

  /** The list holds exactly the store's records, each once. */
  ghost predicate ListsExactly(files: seq<FileData>, m: map<string, FileData>) {
    && UniqueIds(files)
    && |files| == |m|
    && forall i :: 0 <= i < |files| ==> files[i].id in m && m[files[i].id] == files[i]
  }

  /** Dropping the last record of a listing lists the store without that record. */
  lemma ListsExactlyInit(files: seq<FileData>, m: map<string, FileData>)
    requires ListsExactly(files, m) && files != []
    ensures ListsExactly(files[..|files| - 1], m - {files[|files| - 1].id})
  {
    var n := |files| - 1;
    var prefix, m' := files[..n], m - {files[n].id};
    forall i | 0 <= i < |prefix|
      ensures prefix[i].id in m' && m'[prefix[i].id] == prefix[i]
    {
      assert files[i].id != files[n].id;
    }
  }

  /** A list of the store's records covers every key. */
  lemma {:induction false} ListedCovers(files: seq<FileData>, m: map<string, FileData>)
    requires ListsExactly(files, m)
    ensures forall k :: k in m ==> exists i :: 0 <= i < |files| && files[i].id == k
    decreases |files|
  {
    if files == [] {
      assert m == map[];
    } else {
      var n := |files| - 1;
      var prefix, m' := files[..n], m - {files[n].id};
      ListsExactlyInit(files, m);
      ListedCovers(prefix, m');
      forall k | k in m
        ensures exists i :: 0 <= i < |files| && files[i].id == k
      {
        if k == files[n].id {
          assert files[n].id == k;
        } else {
          assert k in m';
          var i :| 0 <= i < |prefix| && prefix[i].id == k;
          assert files[i].id == k;
        }
      }
    }
  }

  /** A list of the store's records covers every key, and its size-sum is the store's. */
  lemma {:induction false} ListedSum(files: seq<FileData>, m: map<string, FileData>)
    requires ListsExactly(files, m)
    ensures forall k :: k in m ==> exists i :: 0 <= i < |files| && files[i].id == k
    ensures SumSizes(files) == MapSum(m)
    decreases |files|
  {
    ListedCovers(files, m);
    if files == [] {
      assert m == map[];
    } else {
      var n := |files| - 1;
      ListsExactlyInit(files, m);
      ListedSum(files[..n], m - {files[n].id});
      MapSumRemove(m, files[n].id);
    }
  }
}
