# Local Data Haven, modelled in Dafny

Local Data Haven is a browser application that keeps a user's files on the
user's own machine. The dashboard, file and settings pages keep their file
list in `localStorage`, through a hook. The page also serves a small REST API
from inside itself: `window.fetch` is wrapped so that calls to `/api/files`,
`/api/files/:id` and `/api/stats` are answered locally, from a separate store
in IndexedDB. The API's store and the pages' list are independent of each
other. Each API call needs an `x-api-key` header equal to the key kept in
`localStorage`.

This project models that core and proves what it promises:

- `Records`: the file record, the partial record a request body carries
  (`{...base, ...patch}`), the `{success, data | error}` envelope and the
  size sums the statistics are made of.
- `IndexedDb`: the `files` object store as a class over a map keyed by `id`.
  It has put, get, delete, getAll, clear and the statistics read. Each request
  either resolves or is rejected.
- `ApiKey`: the key slot, lazy key creation as `ldh_` plus a dash-less
  version-4 UUID, validation by exact equality, and the reset on the API page.
- `FileOperations` and `ApiStorageStats`: the key-checked CRUD and statistics
  operations, with every error message the source returns.
- `ApiServer`: endpoint matching, key extraction, routing, the mapping from
  result to HTTP status, the CORS response, and the wrapped `fetch`.
- `LocalStorageHook`: the `addFile`, `deleteFile` and `clearAllFiles` reducers
  of the `localStorage` hook, and the consistency of `totalSize` that they keep.
- `DataVisualizer`: MIME-type categorisation, the grouping loop that builds
  the chart's slices (a method proved against a reference definition), and the
  type labels.
- `FileTable`: the sort header toggle (a class with the two state fields), the
  search filter, the comparator and the sort, the icon choice and the size-unit
  choice.
- `Strings`: the string operations these use (`startsWith`, `includes`,
  `toLowerCase` on ASCII, `replace(/-/g, '')`).

The values the source takes from the environment are parameters:

- a UUID generator's output (`uuid`, `newId`);
- `Date.now()` (`now`);
- `JSON.parse` (`parse`);
- `localeCompare` (`collate`);
- whether IndexedDB rejects a request (`reject`, `fault`).

## Model

| member | source | states |
|---|---|---|
| Records.SpreadEmpty | src/services/apiFileOperations.ts:87-91 | Merging an empty body changes no field. |
| Records.SpreadIdempotent | src/services/apiFileOperations.ts:87-91 | Spreading the same update twice is the same as spreading it once. |
| Records.SpreadThen | src/services/apiFileOperations.ts:87-91 | Two successive shallow merges equal one merge of the combined patch, where the later field wins. |
| Records.Spread | src/services/apiFileOperations.ts:87-91 | The shallow merge takes the body's id when it carries one, and keeps the base's id otherwise. |
| Records.NewRecord | src/services/apiFileOperations.ts:59-63 | A created record has the generated id and the current time. Every other field is the body's, or the blank value where the body lacks it. |
| Records.Merged | src/services/apiFileOperations.ts:87-91 | An updated record has the current time. Every other field, the id included, is the body's where the body carries it and the existing record's otherwise. |
| Records.SumSizes | src/services/indexedDBService.ts:145 | The `reduce` size sum is never negative when no size is. |
| Records.SumSizesAppend | src/services/indexedDBService.ts:145 | The size sum of a concatenation is the sum of the two sums. |
| Records.MapSumRemove | src/services/indexedDBService.ts:145 | Taking any one record out of the store takes exactly its size off the total. |
| Records.MapSumPut | src/services/indexedDBService.ts:72-92 | A put changes the stored total by the new size minus the size of the record it replaces, if any. |
| Records.ListedSum | src/services/indexedDBService.ts:141-149 | A listing of the store covers every key, and its size sum is the store's total. |
| IndexedDb.FileStore.SaveFileToDB | src/services/indexedDBService.ts:72-92 | `put` upserts the record under its own id and changes nothing else. A rejected request changes nothing. |
| IndexedDb.FileStore.GetFileByIdFromDB | src/services/indexedDBService.ts:95-115 | `get` returns exactly the record stored under the id, or null exactly when there is none. |
| IndexedDb.FileStore.DeleteFileFromDB | src/services/indexedDBService.ts:118-138 | `delete` removes that key and nothing else. Deleting an absent key is a no-op. |
| IndexedDb.FileStore.GetAllFilesFromDB | src/services/indexedDBService.ts:49-69 | `getAll` lists every stored record exactly once and nothing else. |
| IndexedDb.FileStore.ClearAllData | src/services/indexedDBService.ts:152-172 | `clear` empties the store, unless the request is rejected. |
| IndexedDb.FileStore.GetStorageStatsFromDB | src/services/indexedDBService.ts:141-149 | The statistics are the total size of the stored records, their number, and the time of the call. |
| IndexedDb.ClearThenList | src/services/indexedDBService.ts:49-69 | After a clear, the listing is empty. |
| ApiKey.NewKey | src/services/apiKey.ts:16 | A new key starts with `ldh_`, and no dash follows the prefix. |
| ApiKey.NewKeyFormat | src/services/apiKey.ts:16 | A key made from a version-4 UUID is `ldh_` followed by the UUID's 32 hex digits in order. It is 36 characters long, with the version digit at position 16. |
| ApiKey.StripUuid | src/services/apiKey.ts:16 | `replace(/-/g, '')` removes exactly the four dashes of a UUID. |
| ApiKey.KeySlot.GetOrCreateApiKey | src/services/apiKey.ts:12-21 | A stored non-empty key is returned unchanged. Otherwise a new key is made from the UUID, stored and returned. The result always validates. |
| ApiKey.KeySlot.ValidateApiKey | src/services/apiKey.ts:24-27 | True exactly when a key is stored and equals the provided string. |
| ApiKey.KeySlot.ResetApiKey | src/pages/Api.tsx:99-100 | The reset writes a new key from a fresh UUID into the same slot. |
| ApiKey.GetOrCreateIsIdempotent | src/services/apiKey.ts:12-21 | Two consecutive calls return the same key, whatever the second UUID. |
| ApiKey.ResetRevokesPreviousKey | src/pages/Api.tsx:99-100 | After a reset, the previous key no longer validates and the new one does. |
| FileOperations.GetAllFiles | src/services/apiFileOperations.ts:18-30 | A wrong key gives "Invalid API key". A rejected read gives "Failed to retrieve files". Otherwise the result lists every stored record once. |
| FileOperations.GetFileById | src/services/apiFileOperations.ts:33-50 | Gives, in order: key error, read error, "File not found" exactly when the id is absent, or the stored record. |
| FileOperations.SaveFile | src/services/apiFileOperations.ts:53-72 | Gives the key error or the save error with the store unchanged. Otherwise the new record is stored under the generated id and returned. |
| FileOperations.UpdateFile | src/services/apiFileOperations.ts:75-100 | Every failure leaves the store unchanged. A rejected read or write gives "Failed to update file", and an absent id gives "File not found". Otherwise existing ⊕ body, with the current time, is stored under the merged record's id and returned. A body with another id leaves the requested record as it was. |
| FileOperations.DeleteFile | src/services/apiFileOperations.ts:103-122 | Every failure leaves the store unchanged. A rejected read or write gives "Failed to delete file", and an absent id gives "File not found". Otherwise only that record is removed and `{deleted: true}` is returned. |
| FileOperations.DeleteThenGet | src/services/apiFileOperations.ts:33-50 | After a successful delete, a get and a second delete of the same id both give "File not found". |
| FileOperations.CreateThenGet | src/services/apiFileOperations.ts:53-72 | A created record reads back unchanged under its new id. |
| ApiStorageStats.GetStorageStats | src/services/apiStorageStats.ts:11-27 | Gives the key error or "Failed to retrieve storage stats". Otherwise the store's total size and record count. |
| ApiStorageStats.StatsAfterCreate | src/services/apiStorageStats.ts:11-27 | Creating a record raises the reported count by one and the total by the record's size. |
| ApiServer.IsApiRequest | src/services/apiServer.ts:41-48 | Only paths under `/api/` are intercepted. |
| ApiServer.IsApiRequestIff | src/services/apiServer.ts:41-48 | A path is intercepted exactly when it is `/api/files`, `/api/stats`, or `/api/files/` followed by one non-empty segment without `/`. |
| ApiServer.MethodOf | src/services/apiServer.ts:35-38 | A Request object's own method is used. A URL call uses a non-empty `init.method` as it is, and never gets an empty method. |
| ApiServer.MethodDefaultsToGet | src/services/apiServer.ts:35-38 | A string URL with no method in its options is a GET. |
| ApiServer.ApiKeyOf | src/services/apiServer.ts:67-71 | A `Headers` instance or a plain object yields its `x-api-key` entry, or no key when it has none. Without options or headers there is no key, and an array of header pairs never yields one. |
| ApiServer.RequestBody | src/services/apiServer.ts:135-145 | A Request object's body text is parsed. For a URL call, a non-empty text body is parsed, a structured body is passed through as it is, and no body or an empty text reads `{}`. |
| ApiServer.RouteOf | src/services/apiServer.ts:79-114 | On `/api/files`, GET lists, POST creates and any other method has no route. On `/api/stats`, GET gives the statistics and any other method has no route. Item routes come only from paths under `/api/files/`, and their ids contain no `/`. |
| ApiServer.LastSegment | src/services/apiServer.ts:90 | The id taken from the path contains no `/`. |
| ApiServer.LastSegmentAfterSlash | src/services/apiServer.ts:90 | The id taken from `prefix/seg` is `seg`. |
| ApiServer.RoutedIffIntercepted | src/services/apiServer.ts:79-111 | Only intercepted paths are routed, and every intercepted path has a GET route. |
| ApiServer.ItemRoutes | src/services/apiServer.ts:89-104 | `/api/files/:id` routes GET, PUT and DELETE to get, update and delete that id. Every other method has no route. |
| ApiServer.CreateResponse | src/services/apiServer.ts:122-132 | A response carries the given status and envelope with the fixed CORS headers. |
| ApiServer.AllowedHeadersNameTheKey | src/services/apiServer.ts:122-132 | The CORS response allows the `x-api-key` request header. |
| ApiServer.StatusFor | src/services/apiServer.ts:79-111 | 201 exactly for a successful create, 200 exactly for any other success, 404 exactly for "File not found" on an item route, and 401 for every other failure. |
| ApiServer.Prepare | src/services/apiServer.ts:62-119 | A request reaches an operation only with a non-empty key from its headers and a route for its path and method. A create or update carries the request's body, and every other route carries `{}`. |
| ApiServer.KeyedRoutedCallDispatches | src/services/apiServer.ts:62-119 | Conversely, a call with a non-empty key and a route is dispatched with that key and route, and with its parsed body for a create or update, unless that body fails to parse. |
| ApiServer.MissingKeyIs401 | src/services/apiServer.ts:67-75 | A missing or empty key is answered 401 "API key is required", whatever the path. |
| ApiServer.NoInitIsUnauthenticated | src/services/apiServer.ts:67-75 | A call without options carries no key, so it is answered 401. |
| ApiServer.UnsupportedMethodIs404 | src/services/apiServer.ts:113-114 | A keyed request with no route for its method is answered 404 "Not found". |
| ApiServer.MalformedBodyIs500 | src/services/apiServer.ts:115-118 | With a non-empty key, a routed POST or PUT whose body fails to parse is answered 500 "Internal server error". This covers a Request object's text and a non-empty text body, and happens before the key is validated. |
| ApiServer.AbsentBodyIsEmptyObject | src/services/apiServer.ts:135-145 | A string URL with no body, or an empty one, is read as `{}`. |
| ApiServer.HandleApiRequest | src/services/apiServer.ts:62-119 | The answer and the new store are those `Answers` gives. An early reply writes nothing. A dispatched call gets exactly the envelope and the store change of the one operation its route names: list, create, get, update, delete or statistics, each with its error cases. The status follows `StatusFor`. Every answer carries the CORS headers. |
| ApiServer.GetNeverWrites | src/services/apiServer.ts:79-111 | A GET never changes the store, whatever its path, key or fault. |
| ApiServer.NoKeyNoWrite | src/services/apiServer.ts:62-119 | With no key stored, every call fails with 401, 404 or 500 and the store is unchanged. |
| ApiServer.CreatedMeansAdded | src/services/apiServer.ts:83-86 | A 201 answer returns a record under the generated id, and that record is the only change to the store. |
| ApiServer.AcceptedPostCreates | src/services/apiServer.ts:79-86 | A URL `POST /api/files` carrying the stored key and a JSON text body is answered 201 with the record built from the parsed body, and that record is stored under the generated id, unless the write is rejected. |
| ApiServer.StatusesAnswered | src/services/apiServer.ts:62-119 | Only the statuses 200, 201, 401, 404 and 500 are ever answered. |
| ApiServer.Fetch | src/services/apiServer.ts:31-56 | Calls outside the API pass through and leave the store untouched. A call to the API is answered here, with the answer and store change of `HandleApiRequest`. |
| LocalStorageHook.AddFile | src/hooks/useLocalStorage.tsx:87-110 | The list grows by one exactly when the id is new. `totalSize` is the sum of the new list's sizes, and `lastUpdated` is the call time. |
| LocalStorageHook.DeleteFile | src/hooks/useLocalStorage.tsx:112-123 | No entry with the id remains. `totalSize` is the sum of the new list's sizes, and `lastUpdated` is the call time. |
| LocalStorageHook.ClearAllFiles | src/hooks/useLocalStorage.tsx:125-131 | The list is empty, with a total of 0, stamped with the call time. |
| LocalStorageHook.AddNewFileAppends | src/hooks/useLocalStorage.tsx:87-110 | A file with a new id is appended, and the total grows by its size. |
| LocalStorageHook.AddExistingFileReplaces | src/hooks/useLocalStorage.tsx:87-110 | A file with a present id replaces the entries with that id in place and keeps every other entry. |
| LocalStorageHook.AddFileKeepsConsistent | src/hooks/useLocalStorage.tsx:87-110 | `addFile` keeps ids unique and `totalSize` equal to the sum of sizes. A new id adds its size. A replaced id adds the size difference. |
| LocalStorageHook.DeleteFileKeepsConsistent | src/hooks/useLocalStorage.tsx:112-123 | `deleteFile` keeps the store consistent and takes off exactly the removed file's size. An absent id leaves the list as it was. |
| LocalStorageHook.DeleteFileKeepsOthers | src/hooks/useLocalStorage.tsx:112-123 | After `deleteFile`, a record is listed exactly when it was listed before and has another id. With unique ids, the list is the old one with that one entry cut out. |
| LocalStorageHook.ClearAllFilesEmpties | src/hooks/useLocalStorage.tsx:125-131 | The cleared store is consistent. Adding to it gives the single file, and deleting from it gives nothing. |
| LocalStorageHook.WithoutIdMembers | src/hooks/useLocalStorage.tsx:114 | The filter keeps exactly the entries whose id differs. |
| LocalStorageHook.SumSizesUpdate | src/hooks/useLocalStorage.tsx:102 | Replacing one entry changes the size sum by the size difference. |
| LocalStorageHook.SumSizesRemove | src/hooks/useLocalStorage.tsx:115 | Cutting one entry out takes its size off the sum. |
| DataVisualizer.CategoryKeys | src/components/DataVisualizer.tsx:21-28 | Every category has a colour, and key and category determine each other. |
| DataVisualizer.Categorize | src/components/DataVisualizer.tsx:30-41 | A type falls in the image category exactly when it starts with `image/`. |
| DataVisualizer.CategorizeIsFirstMatch | src/components/DataVisualizer.tsx:30-41 | A MIME type falls in the first category, in the order of the tests, whose test it passes. `other` is the fallback. |
| DataVisualizer.GetFileTypeData | src/components/DataVisualizer.tsx:43-63 | The grouping loop yields one slice per category present, in order of first occurrence, each with that category's count, total size and colour. |
| DataVisualizer.CategoriesPresent | src/components/DataVisualizer.tsx:46-60 | A category gets a slice exactly when some file falls in it. An absent category's size is 0. |
| DataVisualizer.CategoriesPrefix | src/components/DataVisualizer.tsx:46-60 | The categories of a prefix of the files come first, in the same order. So slices follow the order in which categories first occur. |
| DataVisualizer.CategoriesDistinct | src/components/DataVisualizer.tsx:46-60 | No category gets two slices. |
| DataVisualizer.GroupTotals | src/components/DataVisualizer.tsx:43-63 | The slices' counts add up to the number of files, and their sizes to the total size. |
| DataVisualizer.HasDataIff | src/components/DataVisualizer.tsx:92-93 | The chart has data exactly when there is at least one file. |
| DataVisualizer.TypeName | src/components/DataVisualizer.tsx:95-106 | The label is the table's entry for the kind, or the kind itself. It is empty only for an empty kind. |
| DataVisualizer.TypeNameLabels | src/components/DataVisualizer.tsx:95-106 | Every category has a non-empty label. A kind is relabelled exactly when it is one of the six categories. |
| FileTable.NextSort | src/components/FileTable.tsx:23-30 | A click always sorts by the clicked field. |
| FileTable.NextSortToggles | src/components/FileTable.tsx:23-30 | Clicking the sorted column flips the direction, and clicking it twice restores it. Clicking another column sorts it ascending. |
| FileTable.SortControl.constructor | src/components/FileTable.tsx:19-20 | The table starts sorted by last-modified time, descending. |
| FileTable.SortControl.HandleSort | src/components/FileTable.tsx:23-30 | The header click moves the two state fields as `NextSort` prescribes. |
| FileTable.FilterFiles | src/components/FileTable.tsx:92-93 | Every file shown matches the search, and no more files are shown than given. |
| FileTable.FilterCounts | src/components/FileTable.tsx:92-93 | The filter keeps each matching file as often as it occurs and drops the rest. |
| FileTable.FilterEmptyTerm | src/components/FileTable.tsx:92-93 | An empty search term keeps every file. |
| FileTable.NumericComparatorConsistent | src/components/FileTable.tsx:94-106 | The size and time comparators, either direction, are antisymmetric and transitive. |
| FileTable.NameComparatorConsistent | src/components/FileTable.tsx:94-106 | The name comparator is antisymmetric and transitive whenever the collation is. |
| FileTable.SortFiles | src/components/FileTable.tsx:94-106 | The sort keeps the number of files. |
| FileTable.SortPermutes | src/components/FileTable.tsx:94-106 | Sorting is a permutation of the input. |
| FileTable.SortOrders | src/components/FileTable.tsx:94-106 | Under a consistent comparator, the sorted list is ordered by it. |
| FileTable.NumericSortOrders | src/components/FileTable.tsx:94-106 | Sorted by size or time, the list is ascending for `asc` and descending for `desc`. |
| FileTable.VisibleFilesSpec | src/components/FileTable.tsx:92-106 | The table shows exactly the matching files, with their multiplicity. By size or time they are in the chosen order. |
| FileTable.FileIcon | src/components/FileTable.tsx:32-46 | The image icon is chosen exactly for `image/` types. The generic icon goes only to files the chart calls documents or other. |
| FileTable.IconFollowsCategory | src/components/FileTable.tsx:32-46 | The icon matches the chart's category, except for documents found by the `document`/`pdf` substring rule, which get the archive icon exactly when the type contains `zip`, `compressed` or `archive`, and the generic icon otherwise. |
| FileTable.UnitFor | src/components/FileTable.tsx:48-58 | Bytes exactly below 1024, and GB exactly from 1024³ up. |
| FileTable.UnitForIsLargestReached | src/components/FileTable.tsx:48-58 | The unit shown is the largest one the size reaches, bytes below 1024 and at most GB. |
| FileTable.UnitForMonotonic | src/components/FileTable.tsx:48-58 | A larger size never gets a smaller unit. |
| Strings.ContainsIff | src/components/FileTable.tsx:93 | `includes` holds exactly when the substring occurs at some position. |
| Strings.ToLowerIdempotent | src/components/FileTable.tsx:93 | Lower-casing twice is lower-casing once. |
| FileTable.FilterCaseInsensitive | src/components/FileTable.tsx:92-93 | Searching with the lower-cased term shows the same files as searching with the term as typed. |
| Strings.StripDashesAppend | src/services/apiKey.ts:16 | Removing dashes distributes over concatenation. |

## Left out

- The IndexedDB database's opening and version upgrade (`initializeDB`), and the `metadata` object store, are not modelled. The operations start from an open store.
- Asynchrony and concurrency are not modelled. Each operation runs to completion before the next starts, and rejected requests are a parameter.
- `getAll` returns records in key order. `IndexedDb.FileStore.GetAllFilesFromDB` promises every record exactly once, in an unspecified order.
- Request bodies are taken as well-typed record fields. Properties a record does not have are dropped. The source spreads every property of the parsed JSON into the stored record, including unknown ones, and stores a wrongly typed field as it is: a string `size` would make the `reduce` sum concatenate strings. Neither behaviour is modelled.
- Bodies are decoded by a `parse` parameter standing for `JSON.parse`. A POST body missing some fields leaves them at blank values (`Records.Blank`), where the source would store them as `undefined`.
- Response bodies are the envelope values themselves. `JSON.stringify` is not modelled.
- URL parsing (`new URL(url, origin)`) is not modelled. Calls carry the path name already extracted.
- A `Headers` object is looked up under the exact name `x-api-key`. Case-insensitive name matching and multi-value joining are not modelled.
- A `Request` object's own headers are ignored, as in the source, which reads the key only from the second argument.
- The `typeof window` guard and the repeated wrapping of `fetch` by more than one setup call are left out. The model wraps once.
- The sizes and times are unbounded integers. JavaScript's floating-point numbers, `toFixed` rounding and the formatted strings are not modelled. Only the unit choice is.
- The size formatter in `DataVisualizer.tsx` (lines 65-75) uses the same unit rule as the table's. It is covered by `FileTable.UnitFor`.
- `localeCompare` is a parameter.
  - FileTable.SortOrders: orders only under a consistent collation (antisymmetric and transitive).
  - FileTable.SortFiles: an insertion sort standing for the engine's `Array.prototype.sort`. It is a permutation and ordered, but its stability is not proved.
- Lower-casing folds only ASCII letters. Unicode case mapping is not modelled.
- DataVisualizer.TypeNameLabels: a kind equal to an inherited `Object.prototype` member name (such as `toString`) is not modelled.
- The hook's `useEffect` load and save to `localStorage`, the storage-availability probe and React's state scheduling are not modelled. Only the three reducers are, with `Date.now()` as a parameter.
- FileOperations.UpdateFile is modelled as written. A body carrying a different `id` stores the merged record under that id and leaves the original.
- The rest of the UI (pages, uploader, tooltips, toasts, downloads, the confirm dialog before a key reset) is not part of this model.
