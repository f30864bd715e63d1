/** The record operations behind the API: each checks the caller's key
    against the key slot, then reads and possibly writes the file store, and
    answers with an envelope, never throwing. A rejected database request
    becomes the operation's own error message. The UUID generator and the
    clock are parameters (`newId`, `now`); `fault` says which database request
    of the call, if any, the engine rejects. */
module FileOperations {
  import opened Records
  import opened IndexedDb
  import opened ApiKey

  /** Which database request of an operation is rejected, if any. */
  datatype Fault = NoFault | ReadFault | WriteFault

  /** `getAllFiles` */
  method GetAllFiles(db: FileStore, keys: KeySlot, apiKey: string, fault: Fault) returns (r: ApiResponse)
    requires db.Valid()
    ensures !keys.Accepts(apiKey) ==> r == Failure(InvalidApiKey)
    ensures keys.Accepts(apiKey) && fault == ReadFault ==> r == Failure(FailedToRetrieveFiles)
    ensures keys.Accepts(apiKey) && fault != ReadFault ==> r.Success? && r.data.FileList? && ListsExactly(r.data.files, db.files)
  {
    var valid := keys.ValidateApiKey(apiKey);
    if !valid {
      return Failure(InvalidApiKey);
    }
    var all := db.GetAllFilesFromDB(fault == ReadFault);
    if all.Rejected? {
      return Failure(FailedToRetrieveFiles);
    }
    r := Success(FileList(all.value));
  }

  /** `getFileById` */
  method GetFileById(db: FileStore, keys: KeySlot, apiKey: string, fileId: string, fault: Fault) returns (r: ApiResponse)
    requires db.Valid()
    ensures !keys.Accepts(apiKey) ==> r == Failure(InvalidApiKey)
    ensures keys.Accepts(apiKey) && fault == ReadFault ==> r == Failure(FailedToRetrieveFile)
    ensures keys.Accepts(apiKey) && fault != ReadFault && fileId !in db.files ==> r == Failure(FileNotFound)
    ensures keys.Accepts(apiKey) && fault != ReadFault && fileId in db.files ==> r == Success(OneFile(db.files[fileId]))
  {
    var valid := keys.ValidateApiKey(apiKey);
    if !valid {
      return Failure(InvalidApiKey);
    }
    var found := db.GetFileByIdFromDB(fileId, fault == ReadFault);
    if found.Rejected? {
      return Failure(FailedToRetrieveFile);
    }
    if found.value.None? {
      return Failure(FileNotFound);
    }
    r := Success(OneFile(found.value.value));
  }

  /** `saveFile`: the body's fields with a generated id and the current time;
      the returned record is the one stored. */
  method SaveFile(db: FileStore, keys: KeySlot, apiKey: string, file: FilePatch, newId: string, now: int, fault: Fault)
    returns (r: ApiResponse)
    requires db.Valid()
    modifies db
    ensures db.Valid()
    ensures !keys.Accepts(apiKey) ==> r == Failure(InvalidApiKey) && db.files == old(db.files)
    ensures keys.Accepts(apiKey) && fault == WriteFault ==> r == Failure(FailedToSaveFile) && db.files == old(db.files)
    ensures keys.Accepts(apiKey) && fault != WriteFault ==>
      && r == Success(OneFile(NewRecord(file, newId, now)))
      && db.files == old(db.files)[newId := NewRecord(file, newId, now)]
  {
    var valid := keys.ValidateApiKey(apiKey);
    if !valid {
      return Failure(InvalidApiKey);
    }
    var newFile := NewRecord(file, newId, now);
    var ok := db.SaveFileToDB(newFile, fault == WriteFault);
    if !ok {
      return Failure(FailedToSaveFile);
    }
    r := Success(OneFile(newFile));
  }

  /** `updateFile`: an absent id is "File not found" and nothing is written;
      otherwise existing ⊕ updates with `lastModified` = now is stored (under
      the merged record's id) and returned. */
  method UpdateFile(db: FileStore, keys: KeySlot, apiKey: string, fileId: string, updates: FilePatch, now: int, fault: Fault)
    returns (r: ApiResponse)
    requires db.Valid()
    modifies db
    ensures db.Valid()
    ensures !keys.Accepts(apiKey) ==> r == Failure(InvalidApiKey) && db.files == old(db.files)
    ensures keys.Accepts(apiKey) && fault == ReadFault ==> r == Failure(FailedToUpdateFile) && db.files == old(db.files)
    ensures keys.Accepts(apiKey) && fault != ReadFault && fileId !in old(db.files) ==>
      r == Failure(FileNotFound) && db.files == old(db.files)
    ensures keys.Accepts(apiKey) && fault == WriteFault ==> r.Failure? && db.files == old(db.files)
    ensures keys.Accepts(apiKey) && fault == WriteFault && fileId in old(db.files) ==> r == Failure(FailedToUpdateFile)
    ensures keys.Accepts(apiKey) && fault == NoFault && fileId in old(db.files) ==>
      var merged := Merged(old(db.files)[fileId], updates, now);
      && r == Success(OneFile(merged))
      && db.files == old(db.files)[merged.id := merged]
    // A body that carries a different id files the merged record under that id
    // and leaves the record under the requested id as it was.
    ensures r.Success? && updates.id.Some? && updates.id.value != fileId ==>
      fileId in db.files && db.files[fileId] == old(db.files)[fileId]
  {
    var valid := keys.ValidateApiKey(apiKey);
    if !valid {
      return Failure(InvalidApiKey);
    }
    var found := db.GetFileByIdFromDB(fileId, fault == ReadFault);
    if found.Rejected? {
      return Failure(FailedToUpdateFile);
    }
    if found.value.None? {
      return Failure(FileNotFound);
    }
    var updatedFile := Merged(found.value.value, updates, now);
    var ok := db.SaveFileToDB(updatedFile, fault == WriteFault);
    if !ok {
      return Failure(FailedToUpdateFile);
    }
    r := Success(OneFile(updatedFile));
  }

  /** `deleteFile`: an absent id is "File not found" and nothing is deleted;
      otherwise that record alone is removed and `{deleted: true}` returned. */
  method DeleteFile(db: FileStore, keys: KeySlot, apiKey: string, fileId: string, fault: Fault) returns (r: ApiResponse)
    requires db.Valid()
    modifies db
    ensures db.Valid()
    ensures !keys.Accepts(apiKey) ==> r == Failure(InvalidApiKey) && db.files == old(db.files)
    ensures keys.Accepts(apiKey) && fault == ReadFault ==> r == Failure(FailedToDeleteFile) && db.files == old(db.files)
    ensures keys.Accepts(apiKey) && fault != ReadFault && fileId !in old(db.files) ==>
      r == Failure(FileNotFound) && db.files == old(db.files)
    ensures keys.Accepts(apiKey) && fault == WriteFault ==> r.Failure? && db.files == old(db.files)
    ensures keys.Accepts(apiKey) && fault == WriteFault && fileId in old(db.files) ==> r == Failure(FailedToDeleteFile)
    ensures keys.Accepts(apiKey) && fault == NoFault && fileId in old(db.files) ==>
      r == Success(Deletion(true)) && db.files == old(db.files) - {fileId}
  {
    var valid := keys.ValidateApiKey(apiKey);
    if !valid {
      return Failure(InvalidApiKey);
    }
    var found := db.GetFileByIdFromDB(fileId, fault == ReadFault);
    if found.Rejected? {
      return Failure(FailedToDeleteFile);
    }
    if found.value.None? {
      return Failure(FileNotFound);
    }
    var ok := db.DeleteFileFromDB(fileId, fault == WriteFault);
    if !ok {
      return Failure(FailedToDeleteFile);
    }
    r := Success(Deletion(true));
  }

  /** A successful delete followed by a get of the same id gives "File not found";
      a second delete gives it too. */
  method DeleteThenGet(db: FileStore, keys: KeySlot, apiKey: string, fileId: string)
    returns (deleted: ApiResponse, got: ApiResponse, again: ApiResponse)
    requires db.Valid()
    requires keys.Accepts(apiKey) && fileId in db.files
    modifies db
    ensures deleted == Success(Deletion(true))
    ensures got == Failure(FileNotFound) && again == Failure(FileNotFound)
  {
    deleted := DeleteFile(db, keys, apiKey, fileId, NoFault);
    got := GetFileById(db, keys, apiKey, fileId, NoFault);
    again := DeleteFile(db, keys, apiKey, fileId, NoFault);
  }

  /** A created record reads back unchanged under its new id. */
  method CreateThenGet(db: FileStore, keys: KeySlot, apiKey: string, file: FilePatch, newId: string, now: int)
    returns (created: ApiResponse, got: ApiResponse)
    requires db.Valid()
    requires keys.Accepts(apiKey)
    modifies db
    ensures created.Success? && created.data.OneFile? && created.data.file.id == newId
    ensures got == created
  {
    created := SaveFile(db, keys, apiKey, file, newId, now, NoFault);
    got := GetFileById(db, keys, apiKey, newId, NoFault);
  }
}
