/**
 * The report generator: one batch cycle reads the pending queue rows, joins each with its
 * stored parameters into a report request, renders each request on the report server and
 * uploads the rendered bytes with a metadata record to the document-imaging service.
 *
 * Every database query, HTTP call, clock reading and Guid is an answer supplied by
 * `Services`. What the generator does is recorded as a trace of `Effect`s: the lines it
 * logs and the calls it makes, in order.
 */
module ReportGenerators {
  import opened Wrappers
  import opened Documents
  import opened ReportRequests
  import DocumentDtos
  import opened QueryCollections

  // ---------------------------------------------------------------- collaborators

  /** An exception, with the message the generator logs. */
  datatype Exception =
    | HttpRequestException(Message: string)
    | ArgumentException(Message: string, ParamName: string)
    | OtherException(Message: string)

  /** The report server's answer to a GET: an exception, or a status code and the body's bytes. */
  datatype RenderReply = SendThrew(Thrown: Exception) | RenderReply(StatusCode: int, Content: seq<byte>)

  /** The imaging service's answer to a POST: an exception, or a status code and the body text. */
  datatype UploadReply =
    | PostThrew(Thrown: Exception)
    | UploadReply(StatusCode: int, Body: string)

  /** The clock readings and the fresh Guid taken while one request is processed. */
  datatype Stamp = Stamp(
    UtcNowText: string,
    ChangeTime: DateTime,
    CreationTime: DateTime,
    LastAccessTime: DateTime,
    LastWriteTime: DateTime,
    FileGuid: Guid)

  /** The multipart body posted to the imaging service: the image part and the metadata part. */
  datatype Submission = Submission(
    Image: seq<byte>,
    ContentType: Option<string>,
    ImageFileName: string,
    Metadata: Document)

  /**
   * The answers of the outside world. The calls keyed by position (createClient,
   * fetchParameters, send, post and stamp) receive the index of the row or request being
   * processed, so two such calls with the same other arguments may be answered differently;
   * pendingRows is a single answer, and urlEncode, queryText and statusName are fixed
   * functions of their input.
   *   createClient  — Some(e) when the HTTP client factory throws e for the named client
   *   pendingRows   — the pending-row query
   *   fetchParameters — the stored-procedure call for one queue id
   *   send / post   — the report server and the imaging service
   *   urlEncode, queryText — URL encoding of the report name and of the query collection
   *   statusName    — a status code as interpolated into text (its enumeration name)
   */
  datatype Services = Services(
    createClient: (nat, string) -> Option<Exception>,
    pendingRows: Result<seq<QueueRow>, Exception>,
    fetchParameters: (nat, int) -> Result<seq<Parameter>, Exception>,
    send: (nat, string) -> RenderReply,
    post: (nat, Submission) -> UploadReply,
    stamp: nat -> Stamp,
    urlEncode: string -> string,
    queryText: seq<Entry> -> string,
    statusName: int -> string)

  // ---------------------------------------------------------------- observable effects

  datatype Level = Information | Error

  /** The lines the generator logs, with the values they interpolate. */
  datatype Message =
    | RetrievingPending
    | PendingCount(Count: nat)
    | ContactingReportServer
    | GeneratedSoFar(Count: nat)
    | ItemFailed(ClaimID: int, ExceptionMessage: string)
    | BatchFailed(ExceptionMessage: string)
    | SendingRenderRequest(Url: string)
    | AddingLetterToQueue
    | UploadingDocument
    | UploadFailed(Status: string, Body: string)
    | UploadSuccessful
    | NoDetailsUpdated

  datatype Effect =
    | Logged(Level: Level, Message: Message)
    | QueriedPendingRows
    | FetchedParameters(ReportQueueID: int)
    | RenderRequested(Url: string)
    | UploadPosted(Submission: Submission)
    | FlagClearRequested(ReportQueueID: int)

  /** How a call ended: normally, or by throwing. */
  datatype Outcome = Completed | Threw(Thrown: Exception)

  /** The effects of one call and how it ended. */
  datatype Step = Step(Trace: seq<Effect>, Outcome: Outcome)

  const ReportServerPrefix := "http://ecdev02/ReportServer"
  const FormatKey := "rs:Format"
  const ForcedFormat := "PDF"
  const SsrsClient := "SSRSClient"
  const ImagingClient := "DocumentImagingClient"
  const SystemUserID := 43
  const LetterReportTypeID := 2
  const PdfFormat := "pdf"
  const PdfMimeType := "application/pdf"
  const SystemLetterTitle := "SystemLetter"

  /** A 2xx status. */
  predicate IsSuccessStatusCode(status: int) {
    200 <= status <= 299
  }

  // ---------------------------------------------------------------- trace views

  /** The URLs sent to the report server, in order. */
  function Renders(t: seq<Effect>): seq<string> {
    if t == [] then []
    else (if t[0].RenderRequested? then [t[0].Url] else []) + Renders(t[1..])
  }

  /** The submissions posted to the imaging service, in order. */
  function Posts(t: seq<Effect>): seq<Submission> {
    if t == [] then []
    else (if t[0].UploadPosted? then [t[0].Submission] else []) + Posts(t[1..])
  }

  /** The messages logged at error level, in order. */
  function ErrorsLogged(t: seq<Effect>): seq<Message> {
    if t == [] then []
    else (if t[0].Logged? && t[0].Level == Error then [t[0].Message] else []) + ErrorsLogged(t[1..])
  }

  lemma {:induction false} RendersDistribute(a: seq<Effect>, b: seq<Effect>)
    ensures Renders(a + b) == Renders(a) + Renders(b)
  {
    if a == [] {
      assert a + b == b;
    } else {
      assert (a + b)[0] == a[0] && (a + b)[1..] == a[1..] + b;
      RendersDistribute(a[1..], b);
    }
  }

  lemma {:induction false} PostsDistribute(a: seq<Effect>, b: seq<Effect>)
    ensures Posts(a + b) == Posts(a) + Posts(b)
  {
    if a == [] {
      assert a + b == b;
    } else {
      assert (a + b)[0] == a[0] && (a + b)[1..] == a[1..] + b;
      PostsDistribute(a[1..], b);
    }
  }

  lemma {:induction false} ErrorsDistribute(a: seq<Effect>, b: seq<Effect>)
    ensures ErrorsLogged(a + b) == ErrorsLogged(a) + ErrorsLogged(b)
  {
    if a == [] {
      assert a + b == b;
    } else {
      assert (a + b)[0] == a[0] && (a + b)[1..] == a[1..] + b;
      ErrorsDistribute(a[1..], b);
    }
  }

  /** The three views of a trace split along a concatenation. */
  lemma ViewsDistribute(a: seq<Effect>, b: seq<Effect>)
    ensures Renders(a + b) == Renders(a) + Renders(b)
    ensures Posts(a + b) == Posts(a) + Posts(b)
    ensures ErrorsLogged(a + b) == ErrorsLogged(a) + ErrorsLogged(b)
  {
    RendersDistribute(a, b);
    PostsDistribute(a, b);
    ErrorsDistribute(a, b);
  }

  lemma ViewsOfPair(e: Effect, f: Effect)
    ensures Renders([e, f]) == Renders([e]) + Renders([f])
    ensures Posts([e, f]) == Posts([e]) + Posts([f])
    ensures ErrorsLogged([e, f]) == ErrorsLogged([e]) + ErrorsLogged([f])
  {
    assert [e, f] == [e] + [f];
    ViewsDistribute([e], [f]);
  }

  /** `part` occurs in `text` starting at position p. */
  predicate OccursAt(text: string, part: string, p: nat) {
    p + |part| <= |text| && text[p..p + |part|] == part
  }

  /** `part` occurs in `text`. */
  ghost predicate Contains(text: string, part: string) {
    exists p :: OccursAt(text, part, p)
  }

  // ---------------------------------------------------------------- decimal text

  function DigitChar(d: nat): char
    requires d < 10
  {
    (48 + d) as char
  }

  function NatToString(n: nat): string
    decreases n
  {
    if n < 10 then [DigitChar(n)] else NatToString(n / 10) + [DigitChar(n % 10)]
  }

  /** An integer as interpolated into text: optional minus sign, then decimal digits. */
  function IntToString(n: int): string {
    if n < 0 then "-" + NatToString(-n) else NatToString(n)
  }

  // ---------------------------------------------------------------- request building

  /** The request for one row: its six columns and the parameters fetched for it. */
  function ToRequest(row: QueueRow, parameters: seq<Parameter>): ReportRequest {
    ReportRequest(row.ReportQueueID, row.ReportName, row.ReportTypeID, row.DocumentTypeID,
                  row.ClaimID, row.DocumentFormat, parameters)
  }

  /** The parameter fetch of the k-th row. */
  function FetchFor(s: Services, rows: seq<QueueRow>, k: nat): Result<seq<Parameter>, Exception>
    requires k < |rows|
  {
    s.fetchParameters(k, rows[k].ReportQueueID)
  }

  /** One parameter fetch per row, for the first m rows. */
  function FetchTrace(rows: seq<QueueRow>, m: nat): (t: seq<Effect>)
    requires m <= |rows|
    ensures |t| == m
  {
    seq(m, j requires 0 <= j < m => FetchedParameters(rows[j].ReportQueueID))
  }

  datatype Built = Built(Trace: seq<Effect>, Requests: Result<seq<ReportRequest>, Exception>)

  /**
   * The requests built from the rows: a fetch per row in order, stopping at the first fetch
   * that throws. When every fetch returns, there is one request per row, in row order,
   * holding that row's columns and exactly the parameters fetched for its queue id.
   */
  function BuildRequests(s: Services, rows: seq<QueueRow>): (b: Built)
    ensures b.Requests.Ok? <==> forall k :: 0 <= k < |rows| ==> FetchFor(s, rows, k).Ok?
    ensures b.Requests.Ok? ==> b.Trace == FetchTrace(rows, |rows|)
    ensures b.Requests.Ok? ==> |b.Requests.value| == |rows|
    ensures b.Requests.Ok? ==> forall k :: 0 <= k < |rows| ==>
      b.Requests.value[k] == ToRequest(rows[k], FetchFor(s, rows, k).value)
    decreases |rows|
  {
    if rows == [] then Built([], Ok([]))
    else
      var k := |rows| - 1;
      var prev := BuildRequests(s, rows[..k]);
      assert forall j :: 0 <= j < k ==> FetchFor(s, rows[..k], j) == FetchFor(s, rows, j);
      if prev.Requests.Err? then prev
      else
        var t := prev.Trace + [FetchedParameters(rows[k].ReportQueueID)];
        match FetchFor(s, rows, k)
        case Err(e) => Built(t, Err(e))
        case Ok(parameters) => Built(t, Ok(prev.Requests.value + [ToRequest(rows[k], parameters)]))
  }

  /** Once the fetch for a prefix of the rows has thrown, the later rows change nothing. */
  lemma {:induction false} FailedPrefixIsFinal(s: Services, rows: seq<QueueRow>, m: nat)
    requires m <= |rows|
    requires BuildRequests(s, rows[..m]).Requests.Err?
    ensures BuildRequests(s, rows) == BuildRequests(s, rows[..m])
    decreases |rows|
  {
    if m < |rows| {
      var k := |rows| - 1;
      assert rows[..k][..m] == rows[..m];
      FailedPrefixIsFinal(s, rows[..k], m);
    } else {
      assert rows[..m] == rows;
    }
  }

  /**
   * Building the requests: fetch each row's parameters in turn and append the request;
   * a fetch that throws ends the building with that exception.
   */
  method BuildReportRequests(s: Services, rows: seq<QueueRow>)
    returns (trace: seq<Effect>, requests: Result<seq<ReportRequest>, Exception>)
    ensures Built(trace, requests) == BuildRequests(s, rows)
  {
    var reportRequests: seq<ReportRequest> := [];
    trace := [];
    var k := 0;
    while k < |rows|
      invariant 0 <= k <= |rows|
      invariant BuildRequests(s, rows[..k]) == Built(trace, Ok(reportRequests))
    {
      var report := rows[k];
      trace := trace + [FetchedParameters(report.ReportQueueID)];
      var fetched := s.fetchParameters(k, report.ReportQueueID);
      assert rows[..k + 1][..k] == rows[..k];
      if fetched.Err? {
        FailedPrefixIsFinal(s, rows, k + 1);
        requests := Err(fetched.error);
        return;
      }
      reportRequests := reportRequests + [ToRequest(report, fetched.value)];
      k := k + 1;
    }
    assert rows[..k] == rows;
    requests := Ok(reportRequests);
  }

  // ---------------------------------------------------------------- report URL

  /** The value of the last parameter with the given name (compared ignoring case). */
  function LastValue(parameters: seq<Parameter>, key: string): Option<string>
    decreases |parameters|
  {
    if parameters == [] then None
    else if SameKey(parameters[|parameters| - 1].Name, key) then Some(parameters[|parameters| - 1].Value)
    else LastValue(parameters[..|parameters| - 1], key)
  }

  /** The collection after each parameter is assigned by name, in order. */
  function Assign(parameters: seq<Parameter>): (c: seq<Entry>)
    ensures |c| <= |parameters| && DistinctKeys(c)
    decreases |parameters|
  {
    if parameters == [] then []
    else
      var last := parameters[|parameters| - 1];
      Set(Assign(parameters[..|parameters| - 1]), last.Name, last.Value)
  }

  /** Assigning one more parameter sets its name in the collection built so far. */
  lemma AssignStep(parameters: seq<Parameter>, k: nat)
    requires k < |parameters|
    ensures Assign(parameters[..k + 1]) == Set(Assign(parameters[..k]), parameters[k].Name, parameters[k].Value)
  {
    assert parameters[..k + 1][..k] == parameters[..k];
  }

  /** The query collection of a request: its parameters, then the format forced to PDF. */
  function ReportQuery(parameters: seq<Parameter>): (c: seq<Entry>)
    ensures Get(c, FormatKey) == Some(ForcedFormat)
  {
    Set(Assign(parameters), FormatKey, ForcedFormat)
  }

  /** The render URL: fixed prefix, "?", the encoded report name, "&", the query text. */
  function ReportUrl(s: Services, request: ReportRequest): (url: string)
    ensures |ReportServerPrefix| < |url| && url[..|ReportServerPrefix| + 1] == ReportServerPrefix + "?"
  {
    ReportServerPrefix + "?" + s.urlEncode(request.ReportName) + "&" + s.queryText(ReportQuery(request.Parameters))
  }

  /** Every parameter name reads as its last value; keys are distinct. */
  lemma {:induction false} AssignReadsLastValue(parameters: seq<Parameter>, key: string)
    ensures Get(Assign(parameters), key) == LastValue(parameters, key)
    ensures DistinctKeys(Assign(parameters))
    decreases |parameters|
  {
    if parameters != [] {
      var n := |parameters| - 1;
      var init := parameters[..n];
      var last := parameters[n];
      AssignReadsLastValue(init, key);
      var c := Assign(init);
      var r := Set(c, last.Name, last.Value);
      assert Assign(parameters) == r;
      if SameKey(last.Name, key) {
        ReadsAlike(r, last.Name, key);
        assert LastValue(parameters, key) == Some(last.Value);
      } else {
        assert LastValue(parameters, key) == LastValue(init, key);
        assert !SameKey(key, last.Name);
      }
    }
  }

  /** Keys that compare equal read the same value. */
  lemma ReadsAlike(c: seq<Entry>, a: string, b: string)
    requires SameKey(a, b)
    ensures Get(c, a) == Get(c, b)
  {
    match IndexOfKey(c, a)
    case None =>
      assert forall j :: 0 <= j < |c| ==> !SameKey(c[j].Key, b);
    case Some(m) =>
      IndexOfKeyIs(c, b, m);
  }

  /** The names of the parameters, as spelled. */
  function NamesOf(parameters: seq<Parameter>): set<string> {
    set p | p in parameters :: p.Name
  }

  /** Adding a parameter keeps the earlier names and adds its own. */
  lemma NamesGrow(parameters: seq<Parameter>)
    requires parameters != []
    ensures NamesOf(parameters[..|parameters| - 1]) <= NamesOf(parameters)
    ensures parameters[|parameters| - 1].Name in NamesOf(parameters)
  {
    var init := parameters[..|parameters| - 1];
    forall name | name in NamesOf(init) ensures name in NamesOf(parameters) {
      var p :| p in init && p.Name == name;
      assert p in parameters;
    }
    assert parameters[|parameters| - 1] in parameters;
  }

  /** Every key of the collection is spelled as some parameter's name. */
  lemma {:induction false} AssignKeysAreNames(parameters: seq<Parameter>)
    ensures forall i :: 0 <= i < |Assign(parameters)| ==> Assign(parameters)[i].Key in NamesOf(parameters)
    decreases |parameters|
  {
    if parameters == [] {
      assert Assign(parameters) == [];
    } else {
      var n := |parameters| - 1;
      var init := parameters[..n];
      AssignKeysAreNames(init);
      NamesGrow(parameters);
      var c := Assign(init);
      var r := Set(c, parameters[n].Name, parameters[n].Value);
      assert Assign(parameters) == r;
      forall i | 0 <= i < |r|
        ensures r[i].Key in NamesOf(parameters)
      {
        if i < |c| {
          assert r[i].Key == c[i].Key;
        } else {
          assert r[i].Key == parameters[n].Name;
        }
      }
    }
  }

  /**
   * The query of a request holds each key once; "rs:Format" reads "PDF" whatever the
   * parameters hold under that name; every other key reads as the value of the last
   * parameter with that name, and a name no parameter has is absent. Every key is spelled
   * as a parameter's name or as "rs:Format".
   */
  lemma ReportQueryMeaning(parameters: seq<Parameter>)
    ensures DistinctKeys(ReportQuery(parameters))
    ensures Get(ReportQuery(parameters), FormatKey) == Some(ForcedFormat)
    ensures forall key :: !SameKey(key, FormatKey) ==> Get(ReportQuery(parameters), key) == LastValue(parameters, key)
    ensures forall i :: 0 <= i < |ReportQuery(parameters)| ==>
      ReportQuery(parameters)[i].Key in NamesOf(parameters) + {FormatKey}
  {
    AssignReadsLastValue(parameters, FormatKey);
    forall key | !SameKey(key, FormatKey)
      ensures Get(ReportQuery(parameters), key) == LastValue(parameters, key)
    {
      AssignReadsLastValue(parameters, key);
    }
    AssignKeysAreNames(parameters);
  }

  /**
   * Building the render URL: each parameter is written into the collection by name, the
   * report name is URL-encoded, the format is forced to PDF, and the URL is assembled and
   * logged.
   */
  method BuildReportUrl(s: Services, request: ReportRequest) returns (url: string, logged: Effect)
    ensures url == ReportUrl(s, request)
    ensures logged == Logged(Information, SendingRenderRequest(url))
  {
    var reportParameters: seq<Entry> := [];
    var k := 0;
    while k < |request.Parameters|
      invariant 0 <= k <= |request.Parameters|
      invariant reportParameters == Assign(request.Parameters[..k])
    {
      var param := request.Parameters[k];
      AssignStep(request.Parameters, k);
      reportParameters := Set(reportParameters, param.Name, param.Value);
      k := k + 1;
    }
    assert request.Parameters[..k] == request.Parameters;
    var encodedReportPath := s.urlEncode(request.ReportName);
    reportParameters := Set(reportParameters, FormatKey, ForcedFormat);
    var parametersString := s.queryText(reportParameters);
    url := ReportServerPrefix + "?" + encodedReportPath + "&" + parametersString;
    logged := Logged(Information, SendingRenderRequest(url));
  }

  // ---------------------------------------------------------------- upload

  /** The image part's content type: set to PDF only for the exact format "pdf". */
  function ContentTypeFor(format: Option<string>): (r: Option<string>)
    ensures r.Some? <==> format == Some(PdfFormat)
    ensures r.Some? ==> r.value == PdfMimeType
  {
    if format == Some(PdfFormat) then Some(PdfMimeType) else None
  }

  /** The metadata record of an upload. */
  function UploadMetadata(request: ReportRequest, fileName: string, userID: int, image: seq<byte>, stamp: Stamp): Document {
    Document(
      DocumentID := None,
      ClaimID := Some(request.ClaimID),
      DocumentRequestID := None,
      DocumentTypeID := Some(request.DocumentTypeID),
      FileID := Some(0),
      FileGuid := stamp.FileGuid,
      ChangeTime := Some(stamp.ChangeTime),
      CreationTime := Some(stamp.CreationTime),
      Title := Some(SystemLetterTitle),
      Extension := request.DocumentFormat,
      FileName := Some(fileName),
      FileSize := Some(|image|),
      LastAccessTime := Some(stamp.LastAccessTime),
      LastWriteTime := Some(stamp.LastWriteTime),
      UserID := Some(userID),
      Version := None,
      Image := None)
  }

  /** The multipart body of an upload. */
  function UploadSubmission(request: ReportRequest, fileName: string, userID: int, image: seq<byte>, stamp: Stamp): (p: Submission)
    ensures p.Metadata.FileName == Some(p.ImageFileName) && p.Metadata.FileSize == Some(|p.Image|)
  {
    Submission(image, ContentTypeFor(request.DocumentFormat), fileName, UploadMetadata(request, fileName, userID, image, stamp))
  }

  /**
   * The multipart form refuses a file part whose file name is empty or white space only,
   * before anything is logged or posted.
   */
  predicate BlankFileName(fileName: string) {
    DocumentDtos.IsNullOrWhiteSpace(Some(fileName))
  }

  const FileNameParameter := "fileName"
  const BlankArgumentMessage := "The value cannot be null or empty."

  /** The message of the exception thrown when the imaging service refuses an upload. */
  function UploadFailureMessage(statusText: string, body: string): (m: string)
    ensures Contains(m, statusText) && Contains(m, body)
  {
    var head := "Request to DocumentImaging Service failed with status code ";
    var m := head + statusText + ": " + body;
    assert OccursAt(m, statusText, |head|);
    assert OccursAt(m, body, |m| - |body|);
    m
  }

  /**
   * Uploading a rendered document: one POST of the image and its metadata. A 2xx answer
   * completes and logs success; any other status logs one error and throws an
   * HttpRequestException naming the status and the response body; an exception from the
   * client factory or the POST itself propagates. A blank file name throws an
   * ArgumentException once the client exists, before anything is logged or posted.
   */
  function UploadReportDocument(s: Services, i: nat, request: ReportRequest, fileName: string,
                                userID: int, image: seq<byte>): (r: Step)
    ensures s.createClient(i, ImagingClient).Some? ==>
      r == Step([], Threw(s.createClient(i, ImagingClient).value))
    ensures s.createClient(i, ImagingClient).None? && BlankFileName(fileName) ==>
      r == Step([], Threw(ArgumentException(BlankArgumentMessage, FileNameParameter)))
    ensures s.createClient(i, ImagingClient).None? && !BlankFileName(fileName) ==>
      Posts(r.Trace) == [UploadSubmission(request, fileName, userID, image, s.stamp(i))]
    ensures Renders(r.Trace) == []
    ensures r.Outcome.Completed? <==>
      s.createClient(i, ImagingClient).None? && !BlankFileName(fileName)
      && var reply := s.post(i, UploadSubmission(request, fileName, userID, image, s.stamp(i)));
         reply.UploadReply? && IsSuccessStatusCode(reply.StatusCode)
    ensures r.Outcome.Completed? ==> ErrorsLogged(r.Trace) == []
    ensures forall m :: m in ErrorsLogged(r.Trace) ==> m.UploadFailed?
    ensures s.createClient(i, ImagingClient).None? && !BlankFileName(fileName) ==>
      var reply := s.post(i, UploadSubmission(request, fileName, userID, image, s.stamp(i)));
      (reply.PostThrew? ==> r.Outcome == Threw(reply.Thrown))
      && (reply.UploadReply? && !IsSuccessStatusCode(reply.StatusCode) ==>
            ErrorsLogged(r.Trace) == [UploadFailed(s.statusName(reply.StatusCode), reply.Body)]
            && r.Outcome.Threw? && r.Outcome.Thrown.HttpRequestException?
            && Contains(r.Outcome.Thrown.Message, s.statusName(reply.StatusCode))
            && Contains(r.Outcome.Thrown.Message, reply.Body))
  {
    match s.createClient(i, ImagingClient)
    case Some(e) => Step([], Threw(e))
    case None =>
      if BlankFileName(fileName) then
        Step([], Threw(ArgumentException(BlankArgumentMessage, FileNameParameter)))
      else
      var submission := UploadSubmission(request, fileName, userID, image, s.stamp(i));
      var t := [Logged(Information, UploadingDocument), UploadPosted(submission)];
      ViewsOfPair(t[0], t[1]);
      match s.post(i, submission)
      case PostThrew(e) => Step(t, Threw(e))
      case UploadReply(status, body) =>
        if !IsSuccessStatusCode(status) then
          var statusText := s.statusName(status);
          var failed := [Logged(Error, UploadFailed(statusText, body))];
          ViewsDistribute(t, failed);
          Step(t + failed, Threw(HttpRequestException(UploadFailureMessage(statusText, body))))
        else
          var succeeded := [Logged(Information, UploadSuccessful)];
          ViewsDistribute(t, succeeded);
          Step(t + succeeded, Completed)
  }

  // ---------------------------------------------------------------- one request

  /** The name the rendered file is uploaded under: report name, claim id and UTC time. */
  function TempFileName(request: ReportRequest, stamp: Stamp): (r: string)
    ensures |request.ReportName| < |r| && r[..|request.ReportName|] == request.ReportName
    ensures r[|request.ReportName|] == '_'
    ensures |stamp.UtcNowText| < |r| && r[|r| - |stamp.UtcNowText|..] == stamp.UtcNowText
  {
    request.ReportName + "_" + IntToString(request.ClaimID) + "_" + stamp.UtcNowText
  }

  /** The report server answered the i-th request's GET with a 2xx status. */
  predicate RenderSucceeded(s: Services, i: nat, request: ReportRequest) {
    s.createClient(i, SsrsClient).None?
    && var reply := s.send(i, ReportUrl(s, request));
       reply.RenderReply? && IsSuccessStatusCode(reply.StatusCode)
  }

  /** The upload made for the i-th request once its render succeeded. */
  function UploadFor(s: Services, i: nat, request: ReportRequest): Step
    requires RenderSucceeded(s, i, request)
  {
    UploadReportDocument(s, i, request, TempFileName(request, s.stamp(i)), SystemUserID,
                         s.send(i, ReportUrl(s, request)).Content)
  }

  /**
   * Generating and saving one report: render it, and upload the rendered bytes only when the
   * render answered with a 2xx status. A non-2xx render completes silently. For a letter
   * (report type 2) an error-level note is logged after a completed upload.
   */
  function GenerateAndSaveReport(s: Services, i: nat, request: ReportRequest): (r: Step)
    ensures Renders(r.Trace) == if s.createClient(i, SsrsClient).None? then [ReportUrl(s, request)] else []
    ensures (Posts(r.Trace) != []) <==> RenderSucceeded(s, i, request) && s.createClient(i, ImagingClient).None?
    ensures Posts(r.Trace) != [] ==>
      Posts(r.Trace) == [UploadSubmission(request, TempFileName(request, s.stamp(i)), SystemUserID,
                                          s.send(i, ReportUrl(s, request)).Content, s.stamp(i))]
  {
    match s.createClient(i, SsrsClient)
    case Some(e) => Step([], Threw(e))
    case None =>
      var url := ReportUrl(s, request);
      var t := [Logged(Information, SendingRenderRequest(url)), RenderRequested(url)];
      ViewsOfPair(t[0], t[1]);
      match s.send(i, url)
      case SendThrew(e) => Step(t, Threw(e))
      case RenderReply(status, content) =>
        if !IsSuccessStatusCode(status) then Step(t, Completed)
        else
          var upload := UploadFor(s, i, request);
          ViewsDistribute(t, upload.Trace);
          if upload.Outcome.Threw? then Step(t + upload.Trace, upload.Outcome)
          else if request.ReportTypeID == LetterReportTypeID then
            var note := [Logged(Error, AddingLetterToQueue)];
            ViewsDistribute(t + upload.Trace, note);
            Step(t + upload.Trace + note, Completed)
          else Step(t + upload.Trace, Completed)
  }

  /**
   * A request completes exactly when its render answered (any status) and, if that answer was
   * a 2xx, the upload completed. A render answered with another status completes silently:
   * nothing is posted and no error is logged.
   */
  lemma GenerateOutcome(s: Services, i: nat, request: ReportRequest)
    ensures GenerateAndSaveReport(s, i, request).Outcome.Completed? <==>
      (s.createClient(i, SsrsClient).None? && s.send(i, ReportUrl(s, request)).RenderReply?
       && (RenderSucceeded(s, i, request) ==> UploadFor(s, i, request).Outcome.Completed?))
    ensures (s.createClient(i, SsrsClient).None? && s.send(i, ReportUrl(s, request)).RenderReply?
             && !RenderSucceeded(s, i, request)) ==>
      var r := GenerateAndSaveReport(s, i, request);
      r.Outcome.Completed? && ErrorsLogged(r.Trace) == [] && Posts(r.Trace) == []
  {
    if s.createClient(i, SsrsClient).None? {
      var url := ReportUrl(s, request);
      var t := [Logged(Information, SendingRenderRequest(url)), RenderRequested(url)];
      ViewsOfPair(t[0], t[1]);
    }
  }

  /** The effects of a request whose render succeeded: render, upload, then the letter note if due. */
  lemma SucceededRenderTrace(s: Services, i: nat, request: ReportRequest)
    requires RenderSucceeded(s, i, request)
    ensures var url := ReportUrl(s, request);
      var upload := UploadFor(s, i, request);
      GenerateAndSaveReport(s, i, request).Trace
      == [Logged(Information, SendingRenderRequest(url)), RenderRequested(url)] + upload.Trace
         + (if upload.Outcome.Completed? && request.ReportTypeID == LetterReportTypeID
            then [Logged(Error, AddingLetterToQueue)] else [])
  {
  }

  /**
   * The letter note (logged at error level) appears exactly when the render succeeded, the
   * upload completed and the report type is 2, and then it is the request's last effect.
   */
  lemma LetterNoteAfterUpload(s: Services, i: nat, request: ReportRequest)
    ensures var r := GenerateAndSaveReport(s, i, request);
      (AddingLetterToQueue in ErrorsLogged(r.Trace) <==>
        RenderSucceeded(s, i, request) && UploadFor(s, i, request).Outcome.Completed?
        && request.ReportTypeID == LetterReportTypeID)
      && (AddingLetterToQueue in ErrorsLogged(r.Trace) ==> r.Trace[|r.Trace| - 1] == Logged(Error, AddingLetterToQueue))
  {
    if RenderSucceeded(s, i, request) {
      SucceededRenderTrace(s, i, request);
      UploadLogsNoLetterNote(s, i, request);
      var upload := UploadFor(s, i, request);
      NoteIsLast(ReportUrl(s, request), upload,
                 upload.Outcome.Completed? && request.ReportTypeID == LetterReportTypeID);
    } else {
      NoLetterWithoutRender(s, i, request);
    }
  }

  /**
   * After a render line pair and an upload that logs no letter note, the note is logged
   * exactly when it is appended, and then as the last line.
   */
  lemma NoteIsLast(url: string, upload: Step, letter: bool)
    requires AddingLetterToQueue !in ErrorsLogged(upload.Trace)
    ensures var trace := [Logged(Information, SendingRenderRequest(url)), RenderRequested(url)] + upload.Trace
                         + (if letter then [Logged(Error, AddingLetterToQueue)] else []);
      (AddingLetterToQueue in ErrorsLogged(trace) <==> letter)
      && (AddingLetterToQueue in ErrorsLogged(trace) ==> trace[|trace| - 1] == Logged(Error, AddingLetterToQueue))
  {
    var t := [Logged(Information, SendingRenderRequest(url)), RenderRequested(url)];
    var note: seq<Effect> := if letter then [Logged(Error, AddingLetterToQueue)] else [];
    assert ErrorsLogged(t) == [] by { ViewsOfPair(t[0], t[1]); }
    ErrorsDistribute(t, upload.Trace);
    ErrorsDistribute(t + upload.Trace, note);
  }

  /** The only error an upload logs is its failure line, never the letter note. */
  lemma UploadLogsNoLetterNote(s: Services, i: nat, request: ReportRequest)
    requires RenderSucceeded(s, i, request)
    ensures AddingLetterToQueue !in ErrorsLogged(UploadFor(s, i, request).Trace)
  {
    var upload := UploadFor(s, i, request);
    assert forall m :: m in ErrorsLogged(upload.Trace) ==> m.UploadFailed?;
  }

  /** Without a successful render, a request logs no error at all. */
  lemma NoLetterWithoutRender(s: Services, i: nat, request: ReportRequest)
    requires !RenderSucceeded(s, i, request)
    ensures ErrorsLogged(GenerateAndSaveReport(s, i, request).Trace) == []
  {
    if s.createClient(i, SsrsClient).None? {
      var url := ReportUrl(s, request);
      var t := [Logged(Information, SendingRenderRequest(url)), RenderRequested(url)];
      ViewsOfPair(t[0], t[1]);
    }
  }

  /** The effects of one request are log lines, its render and its post: no queue access. */
  predicate RequestLocal(t: seq<Effect>) {
    forall k :: 0 <= k < |t| ==> t[k].Logged? || t[k].RenderRequested? || t[k].UploadPosted?
  }

  lemma UploadIsRequestLocal(s: Services, i: nat, request: ReportRequest, fileName: string,
                             userID: int, image: seq<byte>)
    ensures RequestLocal(UploadReportDocument(s, i, request, fileName, userID, image).Trace)
  {
  }

  lemma GenerateIsRequestLocal(s: Services, i: nat, request: ReportRequest)
    ensures RequestLocal(GenerateAndSaveReport(s, i, request).Trace)
  {
    if RenderSucceeded(s, i, request) {
      SucceededRenderTrace(s, i, request);
      SucceededTraceIsLocal(s, i, request);
    } else if s.createClient(i, SsrsClient).None? {
      var url := ReportUrl(s, request);
      var t := [Logged(Information, SendingRenderRequest(url)), RenderRequested(url)];
      assert GenerateAndSaveReport(s, i, request).Trace == t;
    }
  }

  /** The effects `SucceededRenderTrace` lists are all request-local. */
  lemma SucceededTraceIsLocal(s: Services, i: nat, request: ReportRequest)
    requires RenderSucceeded(s, i, request)
    ensures var url := ReportUrl(s, request);
      var upload := UploadFor(s, i, request);
      RequestLocal([Logged(Information, SendingRenderRequest(url)), RenderRequested(url)] + upload.Trace
                   + (if upload.Outcome.Completed? && request.ReportTypeID == LetterReportTypeID
                      then [Logged(Error, AddingLetterToQueue)] else []))
  {
    var url := ReportUrl(s, request);
    var t := [Logged(Information, SendingRenderRequest(url)), RenderRequested(url)];
    var upload := UploadFor(s, i, request);
    UploadIsRequestLocal(s, i, request, TempFileName(request, s.stamp(i)), SystemUserID,
                         s.send(i, url).Content);
    var note: seq<Effect> := if upload.Outcome.Completed? && request.ReportTypeID == LetterReportTypeID
                             then [Logged(Error, AddingLetterToQueue)] else [];
    LocalAppend(t, upload.Trace);
    LocalAppend(t + upload.Trace, note);
  }

  lemma LocalAppend(a: seq<Effect>, b: seq<Effect>)
    requires RequestLocal(a) && RequestLocal(b)
    ensures RequestLocal(a + b)
  {
    forall k | 0 <= k < |a + b|
      ensures (a + b)[k].Logged? || (a + b)[k].RenderRequested? || (a + b)[k].UploadPosted?
    {
      if k >= |a| {
        assert (a + b)[k] == b[k - |a|];
      }
    }
  }

  // ---------------------------------------------------------------- the batch

  /** The line logged after the request's generation ends, given how many completed before it. */
  function Closing(request: ReportRequest, outcome: Outcome, before: nat): (e: Effect)
    ensures e.Logged? && (e.Level == Error <==> outcome.Threw?)
  {
    match outcome
    case Completed => Logged(Information, GeneratedSoFar(before + 1))
    case Threw(e) => Logged(Error, ItemFailed(request.ClaimID, e.Message))
  }

  datatype Batch = Batch(Trace: seq<Effect>, Generated: nat)

  /** Generating one request, given its position in the list; the loop only sees the step. */
  type Generator = (nat, ReportRequest) -> Step

  /** The generator the cycle uses: `GenerateAndSaveReport` with the cycle's services. */
  function StepOf(s: Services): Generator {
    (k: nat, request: ReportRequest) => GenerateAndSaveReport(s, k, request)
  }

  /**
   * The request loop: every request is generated in list order; a completed one raises the
   * counter by one and logs it, a throwing one is logged with its claim id, and the loop
   * goes on either way.
   */
  function Loop(generate: Generator, requests: seq<ReportRequest>): (b: Batch)
    ensures b.Generated <= |requests|
    decreases |requests|
  {
    if requests == [] then Batch([], 0)
    else
      var k := |requests| - 1;
      var prev := Loop(generate, requests[..k]);
      var step := generate(k, requests[k]);
      var generated := if step.Outcome.Completed? then prev.Generated + 1 else prev.Generated;
      Batch(prev.Trace + step.Trace + [Closing(requests[k], step.Outcome, prev.Generated)], generated)
  }

  /** The loop over the first k + 1 requests is the loop over the first k, then request k. */
  lemma LoopExtend(generate: Generator, requests: seq<ReportRequest>, k: nat)
    requires k < |requests|
    ensures var prev := Loop(generate, requests[..k]);
            var step := generate(k, requests[k]);
            Loop(generate, requests[..k + 1])
            == Batch(prev.Trace + step.Trace + [Closing(requests[k], step.Outcome, prev.Generated)],
                     if step.Outcome.Completed? then prev.Generated + 1 else prev.Generated)
  {
    assert requests[..k + 1][..k] == requests[..k];
  }

  /** How a cycle ended: aborted by a batch-level exception, or with every request tried. */
  datatype CycleResult = Aborted(Message: string) | Finished(Pending: nat, Generated: nat)

  datatype CycleRun = CycleRun(Trace: seq<Effect>, Result: CycleResult)

  const CycleHead := [Logged(Information, RetrievingPending), QueriedPendingRows]

  /**
   * One cycle: read the pending rows and build every request first; an exception there
   * aborts the cycle with one batch-level error line. Otherwise log the count and run the
   * request loop. No exception leaves the cycle.
   */
  function Cycle(s: Services): (r: CycleRun)
    ensures |r.Trace| >= 3 && r.Trace[..2] == CycleHead
    ensures r.Result.Aborted? ==> r.Trace[|r.Trace| - 1] == Logged(Error, BatchFailed(r.Result.Message))
    ensures r.Result.Finished? ==> r.Result.Generated <= r.Result.Pending
  {
    match s.pendingRows
    case Err(e) => CycleRun(CycleHead + [Logged(Error, BatchFailed(e.Message))], Aborted(e.Message))
    case Ok(rows) =>
      var built := BuildRequests(s, rows);
      match built.Requests
      case Err(e) => CycleRun(CycleHead + built.Trace + [Logged(Error, BatchFailed(e.Message))], Aborted(e.Message))
      case Ok(requests) =>
        var items := Loop(StepOf(s), requests);
        CycleRun(CycleHead + built.Trace
                   + [Logged(Information, PendingCount(|requests|)), Logged(Information, ContactingReportServer)]
                   + items.Trace,
                 Finished(|requests|, items.Generated))
  }

  /** Generating and saving every pending report, with per-request failure isolation. */
  method GenerateAndSaveReports(s: Services) returns (trace: seq<Effect>, result: CycleResult)
    ensures CycleRun(trace, result) == Cycle(s)
  {
    trace := CycleHead;
    if s.pendingRows.Err? {
      trace := trace + [Logged(Error, BatchFailed(s.pendingRows.error.Message))];
      result := Aborted(s.pendingRows.error.Message);
      return;
    }
    var fetches, built := BuildReportRequests(s, s.pendingRows.value);
    trace := trace + fetches;
    if built.Err? {
      trace := trace + [Logged(Error, BatchFailed(built.error.Message))];
      result := Aborted(built.error.Message);
      return;
    }
    var reportsPending := built.value;
    trace := trace + [Logged(Information, PendingCount(|reportsPending|)), Logged(Information, ContactingReportServer)];
    var items, reportsGenerated := GenerateEach(s, reportsPending);
    trace := trace + items;
    result := Finished(|reportsPending|, reportsGenerated);
  }

  /**
   * The request loop of a cycle: each request in turn, its exception caught and logged with
   * its claim id, the counter raised after each completed one.
   */
  method GenerateEach(s: Services, reportsPending: seq<ReportRequest>) returns (trace: seq<Effect>, reportsGenerated: nat)
    ensures Batch(trace, reportsGenerated) == Loop(StepOf(s), reportsPending)
  {
    trace := [];
    reportsGenerated := 0;
    var k := 0;
    while k < |reportsPending|
      invariant 0 <= k <= |reportsPending|
      invariant Batch(trace, reportsGenerated) == Loop(StepOf(s), reportsPending[..k])
    {
      var request := reportsPending[k];
      LoopExtend(StepOf(s), reportsPending, k);
      var step := ProcessRequest(s, k, request);
      trace := trace + step.Trace;
      if step.Outcome.Completed? {
        reportsGenerated := reportsGenerated + 1;
        trace := trace + [Logged(Information, GeneratedSoFar(reportsGenerated))];
      } else {
        trace := trace + [Logged(Error, ItemFailed(request.ClaimID, step.Outcome.Thrown.Message))];
      }
      k := k + 1;
    }
    assert reportsPending[..k] == reportsPending;
  }

  /**
   * Generating and saving one report, step by step: create the report-server client, build
   * the URL with the parameter loop, send it, and on a 2xx answer upload the bytes and, for a
   * letter, log the note.
   */
  method ProcessRequest(s: Services, i: nat, request: ReportRequest) returns (step: Step)
    ensures step == GenerateAndSaveReport(s, i, request)
  {
    var failure := s.createClient(i, SsrsClient);
    if failure.Some? {
      return Step([], Threw(failure.value));
    }
    var reportUrl, logged := BuildReportUrl(s, request);
    var trace := [logged, RenderRequested(reportUrl)];
    var response := s.send(i, reportUrl);
    if response.SendThrew? {
      return Step(trace, Threw(response.Thrown));
    }
    if !IsSuccessStatusCode(response.StatusCode) {
      return Step(trace, Completed);
    }
    var tempFileName := TempFileName(request, s.stamp(i));
    var upload := UploadReportDocument(s, i, request, tempFileName, SystemUserID, response.Content);
    trace := trace + upload.Trace;
    if upload.Outcome.Threw? {
      return Step(trace, upload.Outcome);
    }
    if request.ReportTypeID == LetterReportTypeID {
      trace := trace + [Logged(Error, AddingLetterToQueue)];
    }
    return Step(trace, Completed);
  }

  // ---------------------------------------------------------------- queue probes

  /** Work is pending exactly when the pending count is positive; a failing count query throws. */
  function IsWorkPending(workCount: Result<int, Exception>): (r: Result<bool, Exception>)
    ensures r.Err? <==> workCount.Err?
    ensures r.Ok? ==> (r.value <==> workCount.value > 0)
  {
    match workCount
    case Err(e) => Err(e)
    case Ok(n) => Ok(n > 0)
  }

  /** One wake-up of the hosting loop: the cycle runs only when work is reported pending. */
  function WakeUp(s: Services, workCount: Result<int, Exception>): (t: seq<Effect>)
    ensures t != [] <==> workCount.Ok? && workCount.value > 0
    ensures workCount.Ok? && workCount.value > 0 ==> t == Cycle(s).Trace
  {
    match IsWorkPending(workCount)
    case Ok(true) => Cycle(s).Trace
    case _ => []
  }

  /**
   * Clearing a queue entry's flag: the update is issued, and an error is logged exactly
   * when it affected no row; a failing update throws.
   */
  function UpdateReportDetailsFlags(queueID: int, affected: Result<int, Exception>): (r: Step)
    ensures |r.Trace| >= 1 && r.Trace[0] == FlagClearRequested(queueID)
    ensures ErrorsLogged(r.Trace) == (if affected == Ok(0) then [NoDetailsUpdated] else [])
    ensures r.Outcome.Threw? <==> affected.Err?
  {
    var update := [FlagClearRequested(queueID)];
    match affected
    case Err(e) => Step(update, Threw(e))
    case Ok(n) =>
      var logged := if n == 0 then [Logged(Error, NoDetailsUpdated)] else [];
      ViewsDistribute(update, logged);
      Step(update + logged, Completed)
  }
}
