/** The in-browser API: `fetch` calls whose pathname is one of three routes
    are answered here instead of by the network. A call is authenticated by
    its `x-api-key` header, routed on (pathname, method) to one record
    operation, and answered with a status (RFC 9110 sections 15.3.1, 15.3.2,
    15.5.2, 15.5.5, 15.6.1), the JSON envelope and fixed CORS headers (section
    3.2 of the WHATWG Fetch Standard). URL parsing is taken as done: a call
    arrives with its pathname. JSON parsing is the oracle `parse` (`None` when
    the text is not JSON). */
module ApiServer {
  import opened Strings
  import opened Records
  import opened IndexedDb
  import opened ApiKey
  import FileOperations
  import ApiStorageStats

  const FilesPath := "/api/files"
  const StatsPath := "/api/stats"
  const FileItemPrefix := "/api/files/"
  const ApiKeyHeader := "x-api-key"

  const ApiKeyRequired := "API key is required"
  const NotFound := "Not found"
  const InternalServerError := "Internal server error"

  /* ---------------- Which requests are intercepted ---------------- */

  /** An entry of the endpoint table: an exact path, or a prefix followed by one `:id` segment. */
  datatype Endpoint = Exact(path: string) | WithId(prefix: string)

  /** `['/api/files', '/api/files/:id', '/api/stats']` */
  const Endpoints: seq<Endpoint> := [Exact(FilesPath), WithId(FileItemPrefix), Exact(StatsPath)]

  /** `[^/]+` */
  predicate IsSegment(s: string) {
    |s| > 0 && '/' !in s
  }

  /** `^prefix[^/]+$` */
  predicate MatchesWithId(prefix: string, pathname: string) {
    StartsWith(pathname, prefix) && IsSegment(pathname[|prefix|..])
  }

  predicate Matches(e: Endpoint, pathname: string) {
    match e
    case Exact(path) => pathname == path
    case WithId(prefix) => MatchesWithId(prefix, pathname)
  }

  /** `endpoints.some(...)`: the call is answered here rather than passed on. */
  predicate IsApiRequest(pathname: string)
    ensures IsApiRequest(pathname) ==> StartsWith(pathname, "/api/")
  {
    exists i :: 0 <= i < |Endpoints| && Matches(Endpoints[i], pathname)
  }

  /** Intercepted are exactly `/api/files`, `/api/stats` and `/api/files/` followed
      by one non-empty segment without a slash. */
  lemma IsApiRequestIff(pathname: string)
    ensures IsApiRequest(pathname) <==>
      || pathname == FilesPath
      || pathname == StatsPath
      || exists id :: IsSegment(id) && pathname == FileItemPrefix + id
  {
    if MatchesWithId(FileItemPrefix, pathname) {
      var id := pathname[|FileItemPrefix|..];
      assert pathname == FileItemPrefix + id;
      assert Matches(Endpoints[1], pathname);
    }
    if exists id :: IsSegment(id) && pathname == FileItemPrefix + id {
      var id :| IsSegment(id) && pathname == FileItemPrefix + id;
      assert pathname[|FileItemPrefix|..] == id;
      assert Matches(Endpoints[1], pathname);
    }
    if pathname == FilesPath {
      assert Matches(Endpoints[0], pathname);
    }
    if pathname == StatsPath {
      assert Matches(Endpoints[2], pathname);
    }
  }

  /* ---------------- The parts of a call ---------------- */

  /** How `fetch` was called: with a URL (string or URL object), or with a
      Request object, of which only the method and the body text are used. */
  datatype Source = FromUrl | FromRequest(httpMethod: string, bodyText: string)

  /** The forms `init.headers` can take. A `Headers` instance is given by the
      entries it holds (names lower-cased, as it stores them). */
  datatype HeadersInit =
    | HeadersObject(entries: map<string, string>)
    | RecordObject(props: map<string, string>)
    | PairList(pairs: seq<(string, string)>)

  /** `init.body`: text, or an already structured value passed through as it is. */
  datatype BodyInit = TextBody(text: string) | ObjectBody(value: FilePatch)

  datatype RequestInit = RequestInit(httpMethod: Option<string>, headers: Option<HeadersInit>, body: Option<BodyInit>)

  datatype FetchCall = FetchCall(pathname: string, source: Source, init: Option<RequestInit>)

  /** The key, read from `init.headers` only: `Headers.get('x-api-key')`, or the
      plain object's `'x-api-key'` property; an array of pairs has no such property. */
  function ApiKeyOf(init: Option<RequestInit>): (key: Option<string>)
    ensures init.None? || init.value.headers.None? ==> key.None?
    ensures key.Some? ==> !init.value.headers.value.PairList?
    ensures init.Some? && init.value.headers.Some? && init.value.headers.value.HeadersObject? ==>
      var entries := init.value.headers.value.entries;
      key == (if ApiKeyHeader in entries then Some(entries[ApiKeyHeader]) else None)
    ensures init.Some? && init.value.headers.Some? && init.value.headers.value.RecordObject? ==>
      var props := init.value.headers.value.props;
      key == (if ApiKeyHeader in props then Some(props[ApiKeyHeader]) else None)
  {
    if init.None? || init.value.headers.None? then None
    else
      match init.value.headers.value
      case HeadersObject(entries) => if ApiKeyHeader in entries then Some(entries[ApiKeyHeader]) else None
      case RecordObject(props) => if ApiKeyHeader in props then Some(props[ApiKeyHeader]) else None
      case PairList(_) => None
  }

  /** The Request's method, else `init.method || 'GET'`. */
  function MethodOf(call: FetchCall): (m: string)
    ensures call.source.FromUrl? ==> m != ""
    ensures call.source.FromRequest? ==> m == call.source.httpMethod
    ensures call.source.FromUrl? && call.init.Some? && call.init.value.httpMethod.Some? ==>
      (call.init.value.httpMethod.value != "" ==> m == call.init.value.httpMethod.value)
  {
    match call.source
    case FromRequest(m, _) => m
    case FromUrl =>
      if call.init.Some? && call.init.value.httpMethod.Some? && call.init.value.httpMethod.value != ""
      then call.init.value.httpMethod.value
      else "GET"
  }

  /** A call made with a URL and no method (or an empty one) is a GET. */
  lemma MethodDefaultsToGet(call: FetchCall)
    requires call.source.FromUrl?
    requires call.init.None? || call.init.value.httpMethod.None? || call.init.value.httpMethod.value == ""
    ensures MethodOf(call) == "GET"
  {
  }

  /** `getRequestBody`: a Request's body is parsed as JSON; otherwise a non-empty
      text body is parsed, a structured body is passed through, and no body
      (or an empty text) is `{}`. `None` is a parse that throws. */
  function RequestBody(call: FetchCall, parse: string -> Option<FilePatch>): (body: Option<FilePatch>)
    ensures call.source.FromUrl? && (call.init.None? || call.init.value.body.None?) ==> body == Some(EmptyPatch)
    ensures call.source.FromRequest? ==> body == parse(call.source.bodyText)
    ensures call.source.FromUrl? && call.init.Some? && call.init.value.body.Some? ==>
      match call.init.value.body.value
      case TextBody(text) => body == (if text == "" then Some(EmptyPatch) else parse(text))
      case ObjectBody(value) => body == Some(value)
  {
    match call.source
    case FromRequest(_, text) => parse(text)
    case FromUrl =>
      if call.init.None? || call.init.value.body.None? then Some(EmptyPatch)
      else
        match call.init.value.body.value
        case TextBody(text) => if text == "" then Some(EmptyPatch) else parse(text)
        case ObjectBody(value) => Some(value)
  }

  /** `pathname.split('/').pop() || ''`: the text after the last slash. */
  function LastSegment(pathname: string): (seg: string)
    ensures '/' !in seg
    ensures |seg| <= |pathname|
    decreases |pathname|
  {
    if pathname == [] || pathname[|pathname| - 1] == '/' then []
    else LastSegment(pathname[..|pathname| - 1]) + [pathname[|pathname| - 1]]
  }

  /** The last segment of `prefix/seg` is `seg` when `seg` has no slash. */
  lemma {:induction false} LastSegmentAfterSlash(prefix: string, seg: string)
    requires '/' !in seg
    ensures LastSegment(prefix + "/" + seg) == seg
    decreases |seg|
  {
    var p := prefix + "/" + seg;
    if seg == [] {
      assert p[|p| - 1] == '/';
    } else {
      var init := seg[..|seg| - 1];
      assert p[..|p| - 1] == prefix + "/" + init;
      assert p[|p| - 1] == seg[|seg| - 1];
      LastSegmentAfterSlash(prefix, init);
      assert init + [seg[|seg| - 1]] == seg;
    }
  }

  /* ---------------- Routing ---------------- */

  /** The operation a call is dispatched to. */
  datatype Route =
    | ListRoute
    | CreateRoute
    | GetRoute(id: string)
    | UpdateRoute(id: string)
    | DeleteRoute(id: string)
    | StatsRoute
  {
    /** The routes under `/api/files/{id}` */
    predicate IsItem() {
      GetRoute? || UpdateRoute? || DeleteRoute?
    }
  }

  /** The dispatch on (pathname, method); `None` is a path or method not supported. */
  function RouteOf(pathname: string, httpMethod: string): (route: Option<Route>)
    ensures route.Some? && route.value.IsItem() ==> StartsWith(pathname, FileItemPrefix) && '/' !in route.value.id
    ensures route == Some(ListRoute) || route == Some(StatsRoute) ==> httpMethod == "GET"
    ensures pathname == FilesPath ==>
      route == if httpMethod == "GET" then Some(ListRoute) else if httpMethod == "POST" then Some(CreateRoute) else None
    ensures pathname == StatsPath ==> route == if httpMethod == "GET" then Some(StatsRoute) else None
  {
    if pathname == FilesPath then
      if httpMethod == "GET" then Some(ListRoute)
      else if httpMethod == "POST" then Some(CreateRoute)
      else None
    else if MatchesWithId(FileItemPrefix, pathname) then
      var id := LastSegment(pathname);
      if httpMethod == "GET" then Some(GetRoute(id))
      else if httpMethod == "PUT" then Some(UpdateRoute(id))
      else if httpMethod == "DELETE" then Some(DeleteRoute(id))
      else None
    else if pathname == StatsPath then
      if httpMethod == "GET" then Some(StatsRoute) else None
    else None
  }

  /** Only intercepted paths are ever routed, and every intercepted path serves GET. */
  lemma RoutedIffIntercepted(pathname: string, httpMethod: string)
    ensures RouteOf(pathname, httpMethod).Some? ==> IsApiRequest(pathname)
    ensures IsApiRequest(pathname) <==> RouteOf(pathname, "GET").Some?
  {
    IsApiRequestIff(pathname);
    if MatchesWithId(FileItemPrefix, pathname) {
      assert Matches(Endpoints[1], pathname);
    }
    if pathname == FilesPath {
      assert Matches(Endpoints[0], pathname);
    }
    if pathname == StatsPath {
      assert Matches(Endpoints[2], pathname);
    }
  }

  /** Under `/api/files/{id}` the id handed to the operation is the segment itself;
      GET, PUT and DELETE are served and every other method is not. */
  lemma ItemRoutes(id: string, httpMethod: string)
    requires IsSegment(id)
    ensures RouteOf(FileItemPrefix + id, "GET") == Some(GetRoute(id))
    ensures RouteOf(FileItemPrefix + id, "PUT") == Some(UpdateRoute(id))
    ensures RouteOf(FileItemPrefix + id, "DELETE") == Some(DeleteRoute(id))
    ensures httpMethod != "GET" && httpMethod != "PUT" && httpMethod != "DELETE" ==> RouteOf(FileItemPrefix + id, httpMethod).None?
  {
    var p := FileItemPrefix + id;
    assert p == "/api/files" + "/" + id;
    LastSegmentAfterSlash("/api/files", id);
    assert p[|FileItemPrefix|..] == id;
    assert |p| > |FilesPath| == |StatsPath|;
  }

  /* ---------------- Responses ---------------- */

  /** A synthetic response: status, the envelope it serialises, and its headers. */
  datatype Response = Response(status: int, body: ApiResponse, headers: seq<(string, string)>)

  /** The headers attached to every response. */
  const CorsHeaders: seq<(string, string)> := [
    ("Content-Type", "application/json"),
    ("Access-Control-Allow-Origin", "*"),
    ("Access-Control-Allow-Methods", "GET, POST, PUT, DELETE, OPTIONS"),
    ("Access-Control-Allow-Headers", "x-api-key, Content-Type")
  ]

  /** `createResponse` */
  function CreateResponse(body: ApiResponse, status: int): (response: Response)
    ensures response.headers == CorsHeaders
    ensures response.status == status && response.body == body
  {
    Response(status, body, CorsHeaders)
  }

  /** The header the router reads its key from is one the CORS headers allow. */
  lemma AllowedHeadersNameTheKey()
    ensures CorsHeaders[3].0 == "Access-Control-Allow-Headers"
    ensures StartsWith(CorsHeaders[3].1, ApiKeyHeader)
  {
  }

  /** The status of an operation's answer: 201 for a successful create, 200 for
      any other success, 404 when an id route reports "File not found", and
      401 for every other failure (storage failures included). */
  function StatusFor(route: Route, result: ApiResponse): (status: int)
    ensures status == 201 <==> route.CreateRoute? && result.Success?
    ensures status == 200 <==> !route.CreateRoute? && result.Success?
    ensures status == 404 <==> route.IsItem() && result == Failure(FileNotFound)
    ensures status == 401 <==> result.Failure? && !(route.IsItem() && result.error == FileNotFound)
  {
    match route
    case ListRoute => if result.Success? then 200 else 401
    case CreateRoute => if result.Success? then 201 else 401
    case StatsRoute => if result.Success? then 200 else 401
    case _ => if result.Success? then 200 else if result.error == FileNotFound then 404 else 401
  }

  /* ---------------- Handling one intercepted call ---------------- */

  /** What the router does before any operation runs: answer at once, or
      dispatch the key, the route and the body to an operation. */
  datatype Step = Reply(status: int, body: ApiResponse) | Dispatch(apiKey: string, route: Route, payload: FilePatch)

  /** The key check, the dispatch on (pathname, method) and, for POST and PUT,
      reading the body; a body that fails to parse is an internal error. */
  function Prepare(call: FetchCall, parse: string -> Option<FilePatch>): (step: Step)
    ensures step.Dispatch? ==> step.apiKey != "" && Some(step.apiKey) == ApiKeyOf(call.init)
    ensures step.Dispatch? ==> Some(step.route) == RouteOf(call.pathname, MethodOf(call))
    ensures step.Dispatch? && (step.route.CreateRoute? || step.route.UpdateRoute?) ==>
      Some(step.payload) == RequestBody(call, parse)
    ensures step.Dispatch? && !(step.route.CreateRoute? || step.route.UpdateRoute?) ==> step.payload == EmptyPatch
  {
    var key := ApiKeyOf(call.init);
    if key.None? || key.value == "" then Reply(401, Failure(ApiKeyRequired))
    else
      match RouteOf(call.pathname, MethodOf(call))
      case None => Reply(404, Failure(NotFound))
      case Some(route) =>
        if route.CreateRoute? || route.UpdateRoute? then
          match RequestBody(call, parse)
          case None => Reply(500, Failure(InternalServerError))
          case Some(body) => Dispatch(key.value, route, body)
        else Dispatch(key.value, route, EmptyPatch)
  }

  /** The converse of `Prepare`'s contract: a call with a non-empty key and a
      route is dispatched with that key and route, and with its parsed body for
      a create or update (the empty object for every other route), unless that
      body fails to parse. */
  lemma KeyedRoutedCallDispatches(call: FetchCall, parse: string -> Option<FilePatch>, key: string, route: Route)
    requires ApiKeyOf(call.init) == Some(key) && key != ""
    requires RouteOf(call.pathname, MethodOf(call)) == Some(route)
    ensures (route.CreateRoute? || route.UpdateRoute?) && RequestBody(call, parse).Some? ==>
      Prepare(call, parse) == Dispatch(key, route, RequestBody(call, parse).value)
    ensures !(route.CreateRoute? || route.UpdateRoute?) ==> Prepare(call, parse) == Dispatch(key, route, EmptyPatch)
  {
  }

  /** A call is answered 401 "API key is required" exactly when its key is
      missing or empty, before any routing or body parsing. */
  lemma MissingKeyIs401(call: FetchCall, parse: string -> Option<FilePatch>)
    ensures Prepare(call, parse) == Reply(401, Failure(ApiKeyRequired)) <==>
      ApiKeyOf(call.init).None? || ApiKeyOf(call.init) == Some("")
  {
  }

  /** A call with no `init` has no key, so a Request object's own headers never authenticate. */
  lemma NoInitIsUnauthenticated(call: FetchCall, parse: string -> Option<FilePatch>)
    requires call.init.None?
    ensures Prepare(call, parse) == Reply(401, Failure(ApiKeyRequired))
  {
  }

  /** With a key, a path that is served but not with this method is 404 "Not found". */
  lemma UnsupportedMethodIs404(call: FetchCall, parse: string -> Option<FilePatch>)
    requires ApiKeyOf(call.init).Some? && ApiKeyOf(call.init).value != ""
    requires RouteOf(call.pathname, MethodOf(call)).None?
    ensures Prepare(call, parse) == Reply(404, Failure(NotFound))
  {
  }

  /** With a key, a POST or PUT whose body fails to parse (a Request object's
      text, or a non-empty text body) is 500 "Internal server error", whatever
      the key: the body is read before the key is validated. */
  lemma MalformedBodyIs500(call: FetchCall, parse: string -> Option<FilePatch>)
    requires ApiKeyOf(call.init).Some? && ApiKeyOf(call.init).value != ""
    requires RouteOf(call.pathname, MethodOf(call)) == Some(CreateRoute) ||
             (RouteOf(call.pathname, MethodOf(call)).Some? && RouteOf(call.pathname, MethodOf(call)).value.UpdateRoute?)
    requires RequestBody(call, parse).None?
    ensures Prepare(call, parse) == Reply(500, Failure(InternalServerError))
  {
  }

  /** A POST or PUT without a body, or with an empty text body, gets `{}` as its body. */
  lemma AbsentBodyIsEmptyObject(call: FetchCall, parse: string -> Option<FilePatch>)
    requires call.source.FromUrl?
    requires call.init.None? || call.init.value.body.None? || call.init.value.body == Some(TextBody(""))
    ensures RequestBody(call, parse) == Some(EmptyPatch)
  {
  }

  /** What the operation a route names answers and leaves in the store, as the
      record operations specify it. `before` and `after` are the store's records
      around the call; `accepted` says whether the key matched the slot. */
  ghost predicate OperationOutcome(
    route: Route, payload: FilePatch, accepted: bool, newId: string, now: int, fault: FileOperations.Fault,
    before: map<string, FileData>, after: map<string, FileData>, body: ApiResponse)
  {
    if !accepted then body == Failure(InvalidApiKey) && after == before
    else
      match route
      case ListRoute =>
        && after == before
        && if fault == FileOperations.ReadFault then body == Failure(FailedToRetrieveFiles)
           else body.Success? && body.data.FileList? && ListsExactly(body.data.files, before)
      case CreateRoute =>
        if fault == FileOperations.WriteFault then body == Failure(FailedToSaveFile) && after == before
        else body == Success(OneFile(NewRecord(payload, newId, now))) && after == before[newId := NewRecord(payload, newId, now)]
      case GetRoute(id) =>
        && after == before
        && body == (if fault == FileOperations.ReadFault then Failure(FailedToRetrieveFile)
                    else if id in before then Success(OneFile(before[id]))
                    else Failure(FileNotFound))
      case UpdateRoute(id) =>
        if fault == FileOperations.ReadFault then body == Failure(FailedToUpdateFile) && after == before
        else if id !in before then body == Failure(FileNotFound) && after == before
        else if fault == FileOperations.WriteFault then body == Failure(FailedToUpdateFile) && after == before
        else
          var merged := Merged(before[id], payload, now);
          body == Success(OneFile(merged)) && after == before[merged.id := merged]
      case DeleteRoute(id) =>
        if fault == FileOperations.ReadFault then body == Failure(FailedToDeleteFile) && after == before
        else if id !in before then body == Failure(FileNotFound) && after == before
        else if fault == FileOperations.WriteFault then body == Failure(FailedToDeleteFile) && after == before
        else body == Success(Deletion(true)) && after == before - {id}
      case StatsRoute =>
        && after == before
        && body == (if fault == FileOperations.ReadFault then Failure(FailedToRetrieveStats)
                    else Success(StatsData(StorageStats(MapSum(before), now, |before|))))
  }

  /** The answer to one intercepted call and the store it leaves: an early reply
      writes nothing; a dispatched call gets the envelope of the one operation
      its route names, with the status `StatusFor` gives. Every answer carries
      the CORS headers. `stored` is the key slot's content. */
  ghost predicate Answers(
    call: FetchCall, parse: string -> Option<FilePatch>, stored: Option<string>,
    newId: string, now: int, fault: FileOperations.Fault,
    before: map<string, FileData>, after: map<string, FileData>, response: Response)
  {
    && response.headers == CorsHeaders
    && match Prepare(call, parse)
       case Reply(status, body) => response == CreateResponse(body, status) && after == before
       case Dispatch(apiKey, route, payload) =>
         && response.status == StatusFor(route, response.body)
         && OperationOutcome(route, payload, stored == Some(apiKey), newId, now, fault, before, after, response.body)
  }

  /** `handleApiRequest`: answers one intercepted call. */
  method HandleApiRequest(
    db: FileStore, keys: KeySlot, call: FetchCall, parse: string -> Option<FilePatch>,
    newId: string, now: int, fault: FileOperations.Fault)
    returns (response: Response)
    requires db.Valid()
    modifies db
    ensures db.Valid()
    ensures Answers(call, parse, keys.stored, newId, now, fault, old(db.files), db.files, response)
  {
    var step := Prepare(call, parse);
    if step.Reply? {
      return CreateResponse(step.body, step.status);
    }
    var result: ApiResponse;
    match step.route {
      case ListRoute =>
        result := FileOperations.GetAllFiles(db, keys, step.apiKey, fault);
      case CreateRoute =>
        result := FileOperations.SaveFile(db, keys, step.apiKey, step.payload, newId, now, fault);
      case GetRoute(id) =>
        result := FileOperations.GetFileById(db, keys, step.apiKey, id, fault);
      case UpdateRoute(id) =>
        result := FileOperations.UpdateFile(db, keys, step.apiKey, id, step.payload, now, fault);
      case DeleteRoute(id) =>
        result := FileOperations.DeleteFile(db, keys, step.apiKey, id, fault);
      case StatsRoute =>
        result := ApiStorageStats.GetStorageStats(db, keys, step.apiKey, now, fault == FileOperations.ReadFault);
    }
    response := CreateResponse(result, StatusFor(step.route, result));
  }

  /** A GET never changes the store, whatever the path, key or fault. */
  lemma GetNeverWrites(
    call: FetchCall, parse: string -> Option<FilePatch>, stored: Option<string>,
    newId: string, now: int, fault: FileOperations.Fault,
    before: map<string, FileData>, after: map<string, FileData>, response: Response)
    requires Answers(call, parse, stored, newId, now, fault, before, after, response)
    requires MethodOf(call) == "GET"
    ensures after == before
  {
    var step := Prepare(call, parse);
    if step.Dispatch? {
      assert step.route == ListRoute || step.route.GetRoute? || step.route == StatsRoute;
    }
  }

  /** Without a stored key every call fails and the store is left as it was. */
  lemma NoKeyNoWrite(
    call: FetchCall, parse: string -> Option<FilePatch>,
    newId: string, now: int, fault: FileOperations.Fault,
    before: map<string, FileData>, after: map<string, FileData>, response: Response)
    requires Answers(call, parse, None, newId, now, fault, before, after, response)
    ensures after == before && response.body.Failure?
    ensures response.status == 401 || response.status == 404 || response.status == 500
  {
  }

  /** A 201 answer means exactly one record was created, under the generated id,
      and the response returns it. */
  lemma CreatedMeansAdded(
    call: FetchCall, parse: string -> Option<FilePatch>, stored: Option<string>,
    newId: string, now: int, fault: FileOperations.Fault,
    before: map<string, FileData>, after: map<string, FileData>, response: Response)
    requires Answers(call, parse, stored, newId, now, fault, before, after, response)
    requires response.status == 201
    ensures response.body.Success? && response.body.data.OneFile? && response.body.data.file.id == newId
    ensures after == before[newId := response.body.data.file]
  {
  }

  /** A `POST /api/files` made with a URL, carrying the stored key and a JSON
      text body, is answered 201 with the new record built from the parsed body,
      and that record is stored under the generated id, unless the write is
      rejected. */
  lemma AcceptedPostCreates(
    call: FetchCall, parse: string -> Option<FilePatch>, key: string, text: string, draft: FilePatch,
    newId: string, now: int, fault: FileOperations.Fault,
    before: map<string, FileData>, after: map<string, FileData>, response: Response)
    requires Answers(call, parse, Some(key), newId, now, fault, before, after, response)
    requires ApiKeyOf(call.init) == Some(key) && key != ""
    requires call.source.FromUrl? && call.pathname == FilesPath && MethodOf(call) == "POST"
    requires call.init.Some? && call.init.value.body == Some(TextBody(text)) && text != ""
    requires parse(text) == Some(draft)
    requires fault != FileOperations.WriteFault
    ensures response.status == 201
    ensures response.body == Success(OneFile(NewRecord(draft, newId, now)))
    ensures after == before[newId := NewRecord(draft, newId, now)]
  {
    KeyedRoutedCallDispatches(call, parse, key, CreateRoute);
  }

  /** Only the statuses 200, 201, 401, 404 and 500 are ever answered. */
  lemma StatusesAnswered(
    call: FetchCall, parse: string -> Option<FilePatch>, stored: Option<string>,
    newId: string, now: int, fault: FileOperations.Fault,
    before: map<string, FileData>, after: map<string, FileData>, response: Response)
    requires Answers(call, parse, stored, newId, now, fault, before, after, response)
    ensures response.status in {200, 201, 401, 404, 500}
  {
  }

  /** What the wrapped `fetch` does with a call. */
  datatype FetchResult = PassedThrough | Answered(response: Response)

  /** The wrapped `fetch`: calls on the three routes are answered here; every
      other call goes to the original `fetch` untouched. */
  method Fetch(
    db: FileStore, keys: KeySlot, call: FetchCall, parse: string -> Option<FilePatch>,
    newId: string, now: int, fault: FileOperations.Fault)
    returns (outcome: FetchResult)
    requires db.Valid()
    modifies db
    ensures db.Valid()
    ensures !IsApiRequest(call.pathname) ==> outcome == PassedThrough && db.files == old(db.files)
    ensures IsApiRequest(call.pathname) ==>
      outcome.Answered? && Answers(call, parse, keys.stored, newId, now, fault, old(db.files), db.files, outcome.response)
  {
    if !IsApiRequest(call.pathname) {
      return PassedThrough;
    }
    var response := HandleApiRequest(db, keys, call, parse, newId, now, fault);
    outcome := Answered(response);
  }
}
