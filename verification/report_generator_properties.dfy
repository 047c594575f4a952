/**
 * Properties of a whole generation cycle: how building the requests fails, that every
 * request is tried in its place in the trace whatever happened to the requests before it,
 * what the generated counter counts, that no queue flag is ever cleared, and what the
 * uploaded metadata and content type amount to.
 */
module ReportGeneratorProperties {
  import opened Wrappers
  import opened Documents
  import opened DocumentTypes
  import opened DocumentDtos
  import opened ReportRequests
  import opened ReportGenerators

  // ---------------------------------------------------------------- building the requests

  /** The building trace is always the fetches of a prefix of the rows, in row order. */
  lemma {:induction false} BuildTraceIsFetchPrefix(s: Services, rows: seq<QueueRow>)
    ensures |BuildRequests(s, rows).Trace| <= |rows|
    ensures BuildRequests(s, rows).Trace == FetchTrace(rows, |BuildRequests(s, rows).Trace|)
    decreases |rows|
  {
    if rows != [] {
      var k := |rows| - 1;
      BuildTraceIsFetchPrefix(s, rows[..k]);
      var t := BuildRequests(s, rows[..k]).Trace;
      assert t == FetchTrace(rows, |t|);
    }
  }

  /**
   * When the k-th fetch is the first to throw, building ends with that exception after
   * exactly k + 1 fetches: no row after it is fetched.
   */
  lemma BuildStopsAtFirstFailure(s: Services, rows: seq<QueueRow>, k: nat)
    requires k < |rows| && FetchFor(s, rows, k).Err?
    requires forall j :: 0 <= j < k ==> FetchFor(s, rows, j).Ok?
    ensures BuildRequests(s, rows) == Built(FetchTrace(rows, k + 1), Err(FetchFor(s, rows, k).error))
  {
    var pre := rows[..k];
    assert forall j :: 0 <= j < k ==> FetchFor(s, pre, j) == FetchFor(s, rows, j);
    assert BuildRequests(s, pre).Trace == FetchTrace(rows, k);
    assert rows[..k + 1][..k] == pre;
    assert FetchTrace(rows, k) + [FetchedParameters(rows[k].ReportQueueID)] == FetchTrace(rows, k + 1);
    FailedPrefixIsFinal(s, rows, k + 1);
  }

  // ---------------------------------------------------------------- traces without requests

  /** A trace with no render and no post. */
  predicate TouchesNoRequest(t: seq<Effect>) {
    forall k :: 0 <= k < |t| ==> !t[k].RenderRequested? && !t[k].UploadPosted?
  }

  lemma {:induction false} UntouchedViews(t: seq<Effect>)
    requires TouchesNoRequest(t)
    ensures Renders(t) == [] && Posts(t) == []
  {
    if t != [] {
      assert TouchesNoRequest(t[1..]);
      UntouchedViews(t[1..]);
    }
  }

  /**
   * A cycle aborts exactly when the pending-row query or one of the parameter fetches
   * throws. An aborted cycle renders and uploads nothing, and its last line is the one
   * batch-level error carrying the exception's message.
   */
  lemma AbortTouchesNoRequest(s: Services)
    ensures Cycle(s).Result.Aborted? <==>
      s.pendingRows.Err?
      || exists k :: 0 <= k < |s.pendingRows.value| && FetchFor(s, s.pendingRows.value, k).Err?
    ensures Cycle(s).Result.Aborted? ==>
      var t := Cycle(s).Trace;
      Renders(t) == [] && Posts(t) == []
      && t[|t| - 1] == Logged(Error, BatchFailed(Cycle(s).Result.Message))
  {
    var run := Cycle(s);
    if run.Result.Aborted? {
      if s.pendingRows.Ok? {
        BuildTraceIsFetchPrefix(s, s.pendingRows.value);
      }
      assert TouchesNoRequest(run.Trace);
      UntouchedViews(run.Trace);
    }
  }

  // ---------------------------------------------------------------- the request loop

  /** The loop's trace over a prefix of the requests is a prefix of its whole trace. */
  lemma {:induction false} LoopPrefix(generate: Generator, requests: seq<ReportRequest>, m: nat)
    requires m <= |requests|
    ensures Loop(generate, requests[..m]).Trace <= Loop(generate, requests).Trace
    decreases |requests|
  {
    if m < |requests| {
      var k := |requests| - 1;
      assert requests[..k][..m] == requests[..m];
      LoopPrefix(generate, requests[..k], m);
    } else {
      assert requests[..m] == requests;
    }
  }

  /**
   * Failure isolation: the k-th request is generated whatever happened to the requests
   * before it, and its effects, followed by its closing line, sit in the loop's trace right
   * after those of the requests before it. The closing line reports the running count after
   * a completed request, and the claim id and exception message after a throwing one.
   */
  lemma ItemRunsInPlace(generate: Generator, requests: seq<ReportRequest>, k: nat)
    requires k < |requests|
    ensures var prev := Loop(generate, requests[..k]);
      var step := generate(k, requests[k]);
      var seg := step.Trace + [Closing(requests[k], step.Outcome, prev.Generated)];
      var t := Loop(generate, requests).Trace;
      |prev.Trace| + |seg| <= |t| && t[|prev.Trace|..|prev.Trace| + |seg|] == seg
    ensures var step := generate(k, requests[k]);
      var closing := Closing(requests[k], step.Outcome, Loop(generate, requests[..k]).Generated);
      (step.Outcome.Threw? ==> closing == Logged(Error, ItemFailed(requests[k].ClaimID, step.Outcome.Thrown.Message)))
      && (step.Outcome.Completed? ==> closing == Logged(Information, GeneratedSoFar(Loop(generate, requests[..k + 1]).Generated)))
  {
    var prev := Loop(generate, requests[..k]);
    var step := generate(k, requests[k]);
    var seg := step.Trace + [Closing(requests[k], step.Outcome, prev.Generated)];
    LoopExtend(generate, requests, k);
    LoopPrefix(generate, requests, k + 1);
    var whole := Loop(generate, requests[..k + 1]).Trace;
    assert whole == prev.Trace + seg;
    assert whole[|prev.Trace|..|prev.Trace| + |seg|] == seg;
  }

  /** The indices of the requests whose generation completed. */
  function CompletedIndices(generate: Generator, requests: seq<ReportRequest>): (c: set<nat>)
    ensures forall k :: k in c ==> k < |requests|
  {
    set k: nat | k < |requests| && generate(k, requests[k]).Outcome.Completed?
  }

  /** The generated counter is the number of requests whose generation completed. */
  lemma {:induction false} GeneratedIsCompletedCount(generate: Generator, requests: seq<ReportRequest>)
    ensures Loop(generate, requests).Generated == |CompletedIndices(generate, requests)|
    decreases |requests|
  {
    if requests != [] {
      var k := |requests| - 1;
      GeneratedIsCompletedCount(generate, requests[..k]);
      var before := CompletedIndices(generate, requests[..k]);
      var after := CompletedIndices(generate, requests);
      if generate(k, requests[k]).Outcome.Completed? {
        assert after == before + {k};
      } else {
        assert after == before;
      }
    }
  }

  /**
   * A cycle that is not aborted has tried every pending row: it reports one pending request
   * per row, and its generated count is the number of those requests whose generation
   * completed, at most the number pending.
   */
  lemma FinishedCycleCounts(s: Services)
    ensures Cycle(s).Result.Finished? ==>
      s.pendingRows.Ok? && BuildRequests(s, s.pendingRows.value).Requests.Ok?
      && Cycle(s).Result.Pending == |s.pendingRows.value|
      && Cycle(s).Result.Generated
         == |CompletedIndices(StepOf(s), BuildRequests(s, s.pendingRows.value).Requests.value)|
      && Cycle(s).Result.Generated <= Cycle(s).Result.Pending
  {
    if s.pendingRows.Ok? && BuildRequests(s, s.pendingRows.value).Requests.Ok? {
      GeneratedIsCompletedCount(StepOf(s), BuildRequests(s, s.pendingRows.value).Requests.value);
    }
  }

  // ---------------------------------------------------------------- the queue flag

  /** A trace that never asks for a queue entry's flag to be cleared. */
  predicate NoFlagCleared(t: seq<Effect>) {
    forall k :: 0 <= k < |t| ==> !t[k].FlagClearRequested?
  }

  lemma NoFlagAppend(a: seq<Effect>, b: seq<Effect>)
    requires NoFlagCleared(a) && NoFlagCleared(b)
    ensures NoFlagCleared(a + b)
  {
    forall k | 0 <= k < |a + b|
      ensures !(a + b)[k].FlagClearRequested?
    {
      if k >= |a| {
        assert (a + b)[k] == b[k - |a|];
      }
    }
  }

  /** A loop whose every step clears no flag clears no flag. */
  lemma {:induction false} LoopClearsNoFlag(generate: Generator, requests: seq<ReportRequest>)
    requires forall k :: 0 <= k < |requests| ==> NoFlagCleared(generate(k, requests[k]).Trace)
    ensures NoFlagCleared(Loop(generate, requests).Trace)
    decreases |requests|
  {
    if requests != [] {
      var k := |requests| - 1;
      var prev := Loop(generate, requests[..k]);
      var step := generate(k, requests[k]);
      LoopClearsNoFlag(generate, requests[..k]);
      NoFlagAppend(prev.Trace, step.Trace);
      NoFlagAppend(prev.Trace + step.Trace, [Closing(requests[k], step.Outcome, prev.Generated)]);
    }
  }

  /** A generated request's effects hold no flag clearing. */
  lemma GenerateClearsNoFlag(s: Services, k: nat, request: ReportRequest)
    ensures NoFlagCleared(StepOf(s)(k, request).Trace)
  {
    GenerateIsRequestLocal(s, k, request);
  }

  /**
   * However a cycle goes, it never asks for a queue entry's flag to be cleared: the
   * processed entries stay pending.
   */
  lemma NoFlagEverCleared(s: Services)
    ensures NoFlagCleared(Cycle(s).Trace)
  {
    if s.pendingRows.Ok? {
      var rows := s.pendingRows.value;
      var built := BuildRequests(s, rows);
      BuildTraceIsFetchPrefix(s, rows);
      var head := CycleHead + built.Trace;
      assert NoFlagCleared(head);
      if built.Requests.Ok? {
        var requests := built.Requests.value;
        var mid := [Logged(Information, PendingCount(|requests|)), Logged(Information, ContactingReportServer)];
        forall k | 0 <= k < |requests| ensures NoFlagCleared(StepOf(s)(k, requests[k]).Trace) {
          GenerateClearsNoFlag(s, k, requests[k]);
        }
        LoopClearsNoFlag(StepOf(s), requests);
        NoFlagAppend(head, mid);
        NoFlagAppend(head + mid, Loop(StepOf(s), requests).Trace);
      } else {
        NoFlagAppend(head, [Logged(Error, BatchFailed(built.Requests.error.Message))]);
      }
    }
  }

  // ---------------------------------------------------------------- upload contents

  /**
   * The image part's content type is the catalogue's MIME type for "pdf" and for nothing
   * else: the other registered formats, though known to the catalogue, are sent untyped.
   */
  lemma ContentTypeIgnoresRegistry(format: Option<string>)
    ensures ContentTypeFor(format).Some? ==>
      FindByName(GetDocumentTypes(), format.value).Some?
      && ContentTypeFor(format).value == FindByName(GetDocumentTypes(), format.value).value.MIMEType
    ensures format.Some? && format.value != PdfFormat && FindByName(GetDocumentTypes(), format.value).Some? ==>
      ContentTypeFor(format).None?
  {
    ClassicFormatsMime();
  }

  /**
   * The metadata sent with an upload is valid exactly when the request's format is
   * non-blank text of at most 10 characters and the file name is non-blank text of at most
   * 255 characters; everything else it holds always satisfies its attributes.
   */
  lemma MetadataValidity(request: ReportRequest, fileName: string, userID: int, image: seq<byte>, stamp: Stamp)
    ensures IsValid(UploadMetadata(request, fileName, userID, image, stamp)) <==>
      RequiredText(request.DocumentFormat, 10) && RequiredText(Some(fileName), 255)
  {
    var d := UploadMetadata(request, fileName, userID, image, stamp);
    ValidityByProperty(d);
    assert !IsWhiteSpace(SystemLetterTitle[0]);
    assert RequiredText(d.Title, 100);
  }

  /**
   * The generated file name holds an underscore, so it is never blank: the multipart form
   * never refuses it, and an upload a request makes never throws the blank-name exception.
   */
  lemma TempFileNameNotBlank(request: ReportRequest, stamp: Stamp)
    ensures !IsNullOrWhiteSpace(Some(TempFileName(request, stamp)))
    ensures !BlankFileName(TempFileName(request, stamp))
  {
    var name := TempFileName(request, stamp);
    assert name[|request.ReportName|] == '_';
  }

  /**
   * The metadata of every upload a request makes is valid exactly when the request's format
   * is non-blank text of at most 10 characters and the generated file name is at most 255
   * characters long; a request whose format column is null or blank is always posted with
   * metadata the imaging service's validation rejects.
   */
  lemma PostedMetadataValidity(s: Services, i: nat, request: ReportRequest)
    requires Posts(GenerateAndSaveReport(s, i, request).Trace) != []
    ensures var d := Posts(GenerateAndSaveReport(s, i, request).Trace)[0].Metadata;
      IsValid(d) <==>
        RequiredText(request.DocumentFormat, 10) && |TempFileName(request, s.stamp(i))| <= 255
  {
    var fileName := TempFileName(request, s.stamp(i));
    MetadataValidity(request, fileName, SystemUserID, s.send(i, ReportUrl(s, request)).Content, s.stamp(i));
    TempFileNameNotBlank(request, s.stamp(i));
  }

  /**
   * What a request posts, when it posts: the rendered bytes under the generated file name,
   * typed only for the "pdf" format, with metadata holding the request's claim, document
   * type and format, the system title, file id 0, the image's length as file size, user 43,
   * and no document request id, version or inline image.
   */
  lemma PostedSubmission(s: Services, i: nat, request: ReportRequest)
    requires Posts(GenerateAndSaveReport(s, i, request).Trace) != []
    ensures var p := Posts(GenerateAndSaveReport(s, i, request).Trace);
      var content := s.send(i, ReportUrl(s, request)).Content;
      var m := p[0].Metadata;
      |p| == 1 && RenderSucceeded(s, i, request)
      && p[0].Image == content && p[0].ImageFileName == TempFileName(request, s.stamp(i))
      && (p[0].ContentType.Some? <==> request.DocumentFormat == Some(PdfFormat))
      && m.ClaimID == Some(request.ClaimID) && m.DocumentTypeID == Some(request.DocumentTypeID)
      && m.Extension == request.DocumentFormat && m.Title == Some(SystemLetterTitle)
      && m.FileID == Some(0) && m.FileSize == Some(|content|) && m.UserID == Some(SystemUserID)
      && m.FileName == Some(TempFileName(request, s.stamp(i)))
      && m.DocumentRequestID.None? && m.Version.None? && m.Image.None?
  {
  }
}
