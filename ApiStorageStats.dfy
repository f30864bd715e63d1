/** The statistics endpoint's operation: behind the key check, the store's
    statistics, or its own error message when the database rejects the read. */
module ApiStorageStats {
  import opened Records
  import opened IndexedDb
  import opened ApiKey
  import FileOperations

  /** `getStorageStats`: reads the store and writes nothing. */
  method GetStorageStats(db: FileStore, keys: KeySlot, apiKey: string, now: int, reject: bool) returns (r: ApiResponse)
    requires db.Valid()
    ensures !keys.Accepts(apiKey) ==> r == Failure(InvalidApiKey)
    ensures keys.Accepts(apiKey) && reject ==> r == Failure(FailedToRetrieveStats)
    ensures keys.Accepts(apiKey) && !reject ==> r == Success(StatsData(StorageStats(MapSum(db.files), now, |db.files|)))
  {
    var valid := keys.ValidateApiKey(apiKey);
    if !valid {
      return Failure(InvalidApiKey);
    }
    var stats := db.GetStorageStatsFromDB(now, reject);
    if stats.Rejected? {
      return Failure(FailedToRetrieveStats);
    }
    r := Success(StatsData(stats.value));
  }

  /** Creating a record under a new id raises the reported count by one and the
      reported total by the record's size. */
  method StatsAfterCreate(db: FileStore, keys: KeySlot, apiKey: string, file: FilePatch, newId: string, now: int)
    returns (before: ApiResponse, after: ApiResponse)
    requires db.Valid()
    requires keys.Accepts(apiKey) && newId !in db.files
    modifies db
    ensures before.Success? && before.data.StatsData? && after.Success? && after.data.StatsData?
    ensures after.data.stats.fileCount == before.data.stats.fileCount + 1
    ensures after.data.stats.totalSize == before.data.stats.totalSize + NewRecord(file, newId, now).size
  {
    before := GetStorageStats(db, keys, apiKey, now, false);
    ghost var m := db.files;
    var _ := FileOperations.SaveFile(db, keys, apiKey, file, newId, now, FileOperations.NoFault);
    MapSumPut(m, NewRecord(file, newId, now));
    after := GetStorageStats(db, keys, apiKey, now, false);
  }
}
