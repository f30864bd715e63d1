/** The in-memory list the UI keeps of its files, and the three updates the
    hook offers: add (an upsert by id), delete by id, and clear. Each builds
    the next `StorageData` from the previous one and recomputes `totalSize`;
    `now` is the clock reading. */
module LocalStorageHook {
  import opened Records

  datatype StorageData = StorageData(files: seq<FileData>, totalSize: int, lastUpdated: int)

  /** `files.some(f => f.id === id)` */
  predicate HasId(files: seq<FileData>, id: string) {
    exists i :: 0 <= i < |files| && files[i].id == id
  }

  /** `files.map(f => f.id === file.id ? file : f)` */
  function ReplaceById(files: seq<FileData>, file: FileData): seq<FileData> {
    seq(|files|, i requires 0 <= i < |files| => if files[i].id == file.id then file else files[i])
  }

  /** `files.filter(f => f.id !== id)` */
  function WithoutId(files: seq<FileData>, id: string): (kept: seq<FileData>)
    ensures |kept| <= |files|
    ensures forall i :: 0 <= i < |kept| ==> kept[i].id != id
    decreases |files|
  {
    if files == [] then []
    else (if files[0].id == id then [] else [files[0]]) + WithoutId(files[1..], id)
  }

  /** `addFile`: replaces the entry with the same id in place, or appends. */
  function AddFile(prev: StorageData, file: FileData, now: int): (next: StorageData)
    ensures next.lastUpdated == now && next.totalSize == SumSizes(next.files)
    ensures |next.files| == |prev.files| + (if HasId(prev.files, file.id) then 0 else 1)
  {
    var newFiles := if HasId(prev.files, file.id) then ReplaceById(prev.files, file) else prev.files + [file];
    StorageData(newFiles, SumSizes(newFiles), now)
  }

  /** `deleteFile` */
  function DeleteFile(prev: StorageData, fileId: string, now: int): (next: StorageData)
    ensures next.lastUpdated == now && next.totalSize == SumSizes(next.files)
    ensures !HasId(next.files, fileId)
  {
    var newFiles := WithoutId(prev.files, fileId);
    StorageData(newFiles, SumSizes(newFiles), now)
  }

  /** `clearAllFiles` */
  function ClearAllFiles(now: int): (next: StorageData)
    ensures next.files == [] && next.totalSize == SumSizes(next.files) && next.lastUpdated == now
  {
    StorageData([], 0, now)
  }

  /** The invariant the reducers keep: ids are unique and `totalSize` is the sum of sizes. */
  predicate Consistent(d: StorageData) {
    UniqueIds(d.files) && d.totalSize == SumSizes(d.files)
  }

  /* ---------------- Facts about the list operations ---------------- */

  /** Changing one entry changes the sum by the difference of the two sizes. */
  lemma SumSizesUpdate(files: seq<FileData>, k: nat, file: FileData)
    requires k < |files|
    ensures SumSizes(files[k := file]) == SumSizes(files) - files[k].size + file.size
  {
    var before, after := files[..k], files[k + 1..];
    assert files == before + [files[k]] + after;
    assert files[k := file] == before + [file] + after;
    SumSizesAround(before, files[k], after);
    SumSizesAround(before, file, after);
  }

  /** The filter distributes over concatenation. */
  lemma {:induction false} WithoutIdAppend(a: seq<FileData>, b: seq<FileData>, id: string)
    ensures WithoutId(a + b, id) == WithoutId(a, id) + WithoutId(b, id)
    decreases |a|
  {
    if a == [] {
      assert a + b == b;
    } else {
      assert (a + b)[1..] == a[1..] + b;
      WithoutIdAppend(a[1..], b, id);
    }
  }

  /** Filtering out an id that is not there changes nothing. */
  lemma {:induction false} WithoutAbsentId(files: seq<FileData>, id: string)
    requires forall i :: 0 <= i < |files| ==> files[i].id != id
    ensures WithoutId(files, id) == files
    decreases |files|
  {
    if files != [] {
      var rest := files[1..];
      forall i | 0 <= i < |rest| ensures rest[i].id != id {
        assert rest[i] == files[i + 1];
      }
      WithoutAbsentId(rest, id);
      assert files == [files[0]] + rest;
    }
  }

  /** The filter keeps exactly the entries with another id. */
  lemma {:induction false} WithoutIdMembers(files: seq<FileData>, id: string)
    ensures forall f :: f in WithoutId(files, id) <==> f in files && f.id != id
    decreases |files|
  {
    if files != [] {
      WithoutIdMembers(files[1..], id);
      assert files == [files[0]] + files[1..];
    }
  }

  /** With unique ids, no other position shares the id at `k`. */
  lemma OnlyAt(files: seq<FileData>, k: nat)
    requires k < |files| && UniqueIds(files)
    ensures forall i :: 0 <= i < |files| && i != k ==> files[i].id != files[k].id
  {
  }

  /** With unique ids, filtering out a present id removes exactly its one entry. */
  lemma WithoutIdAt(files: seq<FileData>, k: nat)
    requires k < |files| && UniqueIds(files)
    ensures WithoutId(files, files[k].id) == files[..k] + files[k + 1..]
  {
    OnlyAt(files, k);
    WithoutOnly(files, k);
  }

  /** If only position `k` holds its id, the filter removes just that position. */
  lemma {:induction false} WithoutOnly(files: seq<FileData>, k: nat)
    requires k < |files|
    requires forall i :: 0 <= i < |files| && i != k ==> files[i].id != files[k].id
    ensures WithoutId(files, files[k].id) == files[..k] + files[k + 1..]
    decreases k
  {
    var id := files[k].id;
    var rest := files[1..];
    if k == 0 {
      forall i | 0 <= i < |rest| ensures rest[i].id != id {
        assert rest[i] == files[i + 1];
      }
      WithoutAbsentId(rest, id);
    } else {
      forall i | 0 <= i < |rest| && i != k - 1 ensures rest[i].id != rest[k - 1].id {
        assert rest[i] == files[i + 1];
      }
      WithoutOnly(rest, k - 1);
      assert rest[..k - 1] == files[1..k];
      assert rest[k..] == files[k + 1..];
      assert files[..k] == [files[0]] + files[1..k];
    }
  }

  /** Removing one entry keeps ids unique. */
  lemma RemoveOneKeepsUnique(files: seq<FileData>, k: nat)
    requires k < |files| && UniqueIds(files)
    ensures UniqueIds(files[..k] + files[k + 1..])
  {
    var r := files[..k] + files[k + 1..];
    forall i, j | 0 <= i < j < |r|
      ensures r[i].id != r[j].id
    {
      var i' := if i < k then i else i + 1;
      var j' := if j < k then j else j + 1;
      assert r[i] == files[i'] && r[j] == files[j'];
    }
  }

  /** Where a present id sits. */
  lemma IndexOfId(files: seq<FileData>, id: string) returns (k: nat)
    requires HasId(files, id)
    ensures k < |files| && files[k].id == id
  {
    var i :| 0 <= i < |files| && files[i].id == id;
    k := i;
  }

  /** With unique ids, replacing by id is replacing the one position that holds it. */
  lemma ReplaceAt(files: seq<FileData>, k: nat, file: FileData)
    requires k < |files| && UniqueIds(files) && files[k].id == file.id
    ensures ReplaceById(files, file) == files[k := file]
  {
  }

  /* ---------------- What the reducers promise ---------------- */

  /** `addFile` with a new id appends it and keeps every existing entry where it was. */
  lemma AddNewFileAppends(prev: StorageData, file: FileData, now: int)
    requires !HasId(prev.files, file.id)
    ensures AddFile(prev, file, now).files == prev.files + [file]
    ensures AddFile(prev, file, now).totalSize == SumSizes(prev.files) + file.size
  {
    SumSizesAppend(prev.files, [file]);
    assert [file][..0] == [];
  }

  /** `addFile` with a present id replaces that entry in place: same length, every
      position keeps its entry unless it had that id. */
  lemma AddExistingFileReplaces(prev: StorageData, file: FileData, now: int)
    requires HasId(prev.files, file.id)
    ensures |AddFile(prev, file, now).files| == |prev.files|
    ensures forall i :: 0 <= i < |prev.files| ==>
      AddFile(prev, file, now).files[i] == if prev.files[i].id == file.id then file else prev.files[i]
  {
  }

  /** `addFile` keeps ids unique and `totalSize` equal to the sum of sizes, and
      stamps `lastUpdated`; a new id adds its size to the total, a present id
      moves the total by the new size minus the size it replaces. */
  lemma AddFileKeepsConsistent(prev: StorageData, file: FileData, now: int)
    requires Consistent(prev)
    ensures Consistent(AddFile(prev, file, now)) && AddFile(prev, file, now).lastUpdated == now
    ensures !HasId(prev.files, file.id) ==> AddFile(prev, file, now).totalSize == prev.totalSize + file.size
    ensures forall k :: 0 <= k < |prev.files| && prev.files[k].id == file.id ==>
      AddFile(prev, file, now).totalSize == prev.totalSize - prev.files[k].size + file.size
  {
    var fs := prev.files;
    if HasId(fs, file.id) {
      var k := IndexOfId(fs, file.id);
      AddAt(prev, file, now, k);
      forall k' | 0 <= k' < |fs| && fs[k'].id == file.id
        ensures AddFile(prev, file, now).totalSize == prev.totalSize - fs[k'].size + file.size
      {
        AddAt(prev, file, now, k');
      }
    } else {
      AddNewFileAppends(prev, file, now);
      var r := fs + [file];
      forall i, j | 0 <= i < j < |r| ensures r[i].id != r[j].id {
        assert r[i] == fs[i];
        if j < |fs| {
          assert r[j] == fs[j];
        }
      }
    }
  }

  /** `addFile` of a file whose id sits at `k` replaces that entry and keeps the store consistent. */
  lemma AddAt(prev: StorageData, file: FileData, now: int, k: nat)
    requires Consistent(prev) && k < |prev.files| && prev.files[k].id == file.id
    ensures AddFile(prev, file, now).files == prev.files[k := file]
    ensures Consistent(AddFile(prev, file, now))
    ensures AddFile(prev, file, now).totalSize == prev.totalSize - prev.files[k].size + file.size
  {
    var fs := prev.files;
    ReplaceAt(fs, k, file);
    SumSizesUpdate(fs, k, file);
    var r := fs[k := file];
    forall i, j | 0 <= i < j < |r| ensures r[i].id != r[j].id {
      assert r[i].id == fs[i].id && r[j].id == fs[j].id;
    }
  }

  /** The sum of one entry is its size. */
  lemma SumSizesSingle(f: FileData)
    ensures SumSizes([f]) == f.size
  {
    assert [f][..0] == [];
  }

  /** The sum splits around one entry. */
  lemma SumSizesAround(a: seq<FileData>, x: FileData, b: seq<FileData>)
    ensures SumSizes(a + [x] + b) == SumSizes(a) + x.size + SumSizes(b)
  {
    SumSizesAppend(a + [x], b);
    SumSizesAppend(a, [x]);
    SumSizesSingle(x);
  }

  /** The sum splits at any index. */
  lemma SumSizesSplit(files: seq<FileData>, k: nat)
    requires k <= |files|
    ensures SumSizes(files) == SumSizes(files[..k]) + SumSizes(files[k..])
  {
    assert files == files[..k] + files[k..];
    SumSizesAppend(files[..k], files[k..]);
  }

  /** A non-empty suffix is its first size plus the rest. */
  lemma SumSizesFrom(files: seq<FileData>, k: nat)
    requires k < |files|
    ensures SumSizes(files[k..]) == files[k].size + SumSizes(files[k + 1..])
  {
    assert files[k..] == [files[k]] + files[k + 1..];
    SumSizesCons(files[k], files[k + 1..]);
  }

  /** Dropping the entry at `k` subtracts its size. */
  lemma SumSizesRemove(files: seq<FileData>, k: nat)
    requires k < |files|
    ensures SumSizes(files[..k] + files[k + 1..]) == SumSizes(files) - files[k].size
  {
    SumSizesSplit(files, k);
    SumSizesFrom(files, k);
    SumSizesAppend(files[..k], files[k + 1..]);
  }

  /** `deleteFile` keeps ids unique and `totalSize` equal to the sum of sizes,
      and stamps `lastUpdated`; deleting a present id subtracts exactly that
      file's size, deleting an absent id leaves the list as it was. */
  lemma DeleteFileKeepsConsistent(prev: StorageData, fileId: string, now: int)
    requires Consistent(prev)
    ensures Consistent(DeleteFile(prev, fileId, now)) && DeleteFile(prev, fileId, now).lastUpdated == now
    ensures forall k :: 0 <= k < |prev.files| && prev.files[k].id == fileId ==>
      DeleteFile(prev, fileId, now).totalSize == prev.totalSize - prev.files[k].size
    ensures !HasId(prev.files, fileId) ==> DeleteFile(prev, fileId, now).files == prev.files
  {
    var fs := prev.files;
    if HasId(fs, fileId) {
      var k := IndexOfId(fs, fileId);
      DeleteAt(prev, fileId, now, k);
      forall k' | 0 <= k' < |fs| && fs[k'].id == fileId
        ensures DeleteFile(prev, fileId, now).totalSize == prev.totalSize - fs[k'].size
      {
        DeleteAt(prev, fileId, now, k');
      }
    } else {
      WithoutAbsentId(fs, fileId);
    }
  }

  /** `deleteFile` of the id at `k` cuts that entry out and keeps the store consistent. */
  lemma DeleteAt(prev: StorageData, fileId: string, now: int, k: nat)
    requires Consistent(prev) && k < |prev.files| && prev.files[k].id == fileId
    ensures DeleteFile(prev, fileId, now).files == prev.files[..k] + prev.files[k + 1..]
    ensures Consistent(DeleteFile(prev, fileId, now))
    ensures DeleteFile(prev, fileId, now).totalSize == prev.totalSize - prev.files[k].size
  {
    var fs := prev.files;
    WithoutIdAt(fs, k);
    RemoveOneKeepsUnique(fs, k);
    SumSizesRemove(fs, k);
  }

  /** `clearAllFiles` leaves a consistent, empty list stamped with the time:
      a later add holds just the added file, a later delete changes nothing. */
  lemma ClearAllFilesEmpties(file: FileData, fileId: string, now: int, later: int)
    ensures Consistent(ClearAllFiles(now)) && ClearAllFiles(now).lastUpdated == now
    ensures AddFile(ClearAllFiles(now), file, later).files == [file]
    ensures DeleteFile(ClearAllFiles(now), fileId, later).files == []
  {
  }

  /** `deleteFile` keeps exactly the files with another id; with unique ids it
      removes the one matching entry and keeps the others in order. */
  lemma DeleteFileKeepsOthers(prev: StorageData, fileId: string, now: int)
    ensures forall f :: f in DeleteFile(prev, fileId, now).files <==> f in prev.files && f.id != fileId
    ensures UniqueIds(prev.files) ==> forall k :: 0 <= k < |prev.files| && prev.files[k].id == fileId ==>
      DeleteFile(prev, fileId, now).files == prev.files[..k] + prev.files[k + 1..]
  {
    WithoutIdMembers(prev.files, fileId);
    if UniqueIds(prev.files) {
      forall k | 0 <= k < |prev.files| && prev.files[k].id == fileId
        ensures DeleteFile(prev, fileId, now).files == prev.files[..k] + prev.files[k + 1..]
      {
        WithoutIdAt(prev.files, k);
      }
    }
  }
}
