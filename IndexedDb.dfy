/** The browser database behind the API: one object store `files` whose key
    path is `id`, used through put (upsert), get, delete, getAll and clear, and
    the statistics computed from a full listing. Each request either resolves
    or is rejected by the engine; `reject` says which. */
module IndexedDb {
  import opened Records

  /** A database request that resolved with a value or was rejected. */
  datatype DbResult<T> = Resolved(value: T) | Rejected

  /** The `files` object store: records keyed by their own `id`. */
  class FileStore {
    var files: map<string, FileData>

    /** `keyPath: 'id'`: every record sits under its own id. */
    ghost predicate Valid()
      reads this
    {
      KeyedById(files)
    }

    constructor ()
      ensures Valid() && files == map[]
    {
      files := map[];
    }

    /** `saveFileToDB`: `store.put(file)` replaces any record with the same id. */
    method SaveFileToDB(file: FileData, reject: bool) returns (ok: bool)
      requires Valid()
      modifies this
      ensures Valid()
      ensures ok == !reject
      ensures files == if reject then old(files) else old(files)[file.id := file]
    {
      if reject {
        return false;
      }
      files := files[file.id := file];
      ok := true;
    }

    /** `getFileByIdFromDB`: the record under `fileId`, or null when there is none. */
    method GetFileByIdFromDB(fileId: string, reject: bool) returns (r: DbResult<Option<FileData>>)
      requires Valid()
      ensures reject <==> r.Rejected?
      ensures r.Resolved? ==> (r.value.Some? <==> fileId in files)
      ensures r.Resolved? && r.value.Some? ==> r.value.value == files[fileId] && r.value.value.id == fileId
    {
      if reject {
        return Rejected;
      }
      if fileId in files {
        r := Resolved(Some(files[fileId]));
      } else {
        r := Resolved(None);
      }
    }

    /** `deleteFileFromDB`: removes that key (a no-op when absent), nothing else. */
    method DeleteFileFromDB(fileId: string, reject: bool) returns (ok: bool)
      requires Valid()
      modifies this
      ensures Valid()
      ensures ok == !reject
      ensures files == if reject then old(files) else old(files) - {fileId}
    {
      if reject {
        return false;
      }
      files := files - {fileId};
      ok := true;
    }

    /** `getAllFilesFromDB`: every stored record, each exactly once. */
    method GetAllFilesFromDB(reject: bool) returns (r: DbResult<seq<FileData>>)
      requires Valid()
      ensures reject <==> r.Rejected?
      ensures r.Resolved? ==> ListsExactly(r.value, files)
    {
      if reject {
        return Rejected;
      }
      var listed: seq<FileData> := [];
      var remaining := files.Keys;
      while remaining != {}
        invariant remaining <= files.Keys
        invariant |listed| + |remaining| == |files|
        invariant UniqueIds(listed)
        invariant forall i :: 0 <= i < |listed| ==>
          listed[i].id in files && files[listed[i].id] == listed[i] && listed[i].id !in remaining
        decreases remaining
      {
        var k :| k in remaining;
        listed := listed + [files[k]];
        remaining := remaining - {k};
      }
      r := Resolved(listed);
    }

    /** `clearAllData`: the store is emptied. */
    method ClearAllData(reject: bool) returns (ok: bool)
      requires Valid()
      modifies this
      ensures Valid()
      ensures ok == !reject
      ensures files == if reject then old(files) else map[]
    {
      if reject {
        return false;
      }
      files := map[];
      ok := true;
    }

    /** `getStorageStatsFromDB`: total size and count of the records listed now;
        `lastUpdated` is the time of the call, not of the last change. */
    method GetStorageStatsFromDB(now: int, reject: bool) returns (r: DbResult<StorageStats>)
      requires Valid()
      ensures reject <==> r.Rejected?
      ensures r.Resolved? ==> r.value == StorageStats(MapSum(files), now, |files|)
    {
      var all := GetAllFilesFromDB(reject);
      if all.Rejected? {
        return Rejected;
      }
      ListedSum(all.value, files);
      r := Resolved(StorageStats(SumSizes(all.value), now, |all.value|));
    }
  }

  /** After a clear, a listing is empty. */
  method ClearThenList(db: FileStore) returns (listed: DbResult<seq<FileData>>)
    requires db.Valid()
    modifies db
    ensures db.Valid()
    ensures listed == Resolved([])
  {
    var _ := db.ClearAllData(false);
    listed := db.GetAllFilesFromDB(false);
  }
}
