# LetterGenerator report generation, modelled in Dafny

This project models the report-generation core of the EC.BatchServices.LetterGenerator
batch service. A cycle works as follows:

1. It reads the pending rows of the report queue.
2. For each row it fetches the stored parameters and builds a report request.
3. For each request it:
   - builds a report-server URL;
   - renders the report over HTTP;
   - when the render succeeds, uploads the rendered bytes to the document-imaging service, together with a metadata record;
   - counts the request as generated when it completes.

The model also covers two pieces of reference data:

- the constant document-type catalogue;
- the validation attributes of the document data-transfer record. These are modelled as a validity predicate.

Within a cycle, every database query, HTTP call, clock reading, fresh Guid, URL encoding,
query-string serialisation and status-code name is an answer from the `Services` oracle.
The client factory, the parameter query, the render and upload calls and the clock/Guid stamp
are keyed by the position of the row or request being processed, so repeated calls may answer
differently. The pending-row query is a single answer, and URL encoding, query-string
serialisation and status-code names are fixed functions of their input. The pending-count query and the flag-clearing update are
outside the cycle: their results are plain arguments of `IsWorkPending`, `WakeUp` and
`UpdateReportDetailsFlags`.

What the generator does is recorded as a trace of effects: each logged line, with its level
and the values it interpolates, and each call made to the queue, the report server or the
imaging service. Three views of a trace are used in the contracts: `Renders`, `Posts` and
`ErrorsLogged`.

The generator's steps are methods, each proved equal to a specification function:

- `BuildReportRequests`: the request-building loop, equal to `BuildRequests`;
- `BuildReportUrl`: the loop writing the parameters into the query collection, equal to `ReportUrl`;
- `ProcessRequest`: one request, which calls `BuildReportUrl`, equal to `GenerateAndSaveReport`;
- `GenerateEach`: the request loop, which calls `ProcessRequest`, equal to `Loop`;
- `GenerateAndSaveReports`: the whole cycle, equal to `Cycle`.

The properties are lemmas about those functions.

Modules:

- `DocumentTypes`: the document-type record and the five-entry catalogue, with exact-name lookup.
- `Documents`: the seventeen-property metadata record (the data-access document and the data-transfer record have the same shape).
- `DocumentDtos`: the `[Required]`/`[StringLength]` attributes of the data-transfer record and the validity predicate they define.
- `ReportRequests`: queue rows, parameters and report requests.
- `QueryCollections`: the case-insensitive name/value collection the query string is built in.
- `ReportGenerators`: the generator itself.
- `ReportGeneratorProperties`: properties of whole cycles.

Where the code and the design intent differ, the model follows the code:

- The flag-clearing update (`UpdateReportDetailsFlags`) is modelled but never called, so a cycle never clears a queue flag. Processed rows stay pending (`NoFlagEverCleared`).
- A render answered with a non-2xx status returns normally. Nothing is uploaded, nothing is logged as an error, and the request still counts as generated (`GenerateOutcome`).
- The image part gets the `application/pdf` content type only when the format is exactly `"pdf"`. The document-type catalogue is never consulted (`ContentTypeIgnoresRegistry`).
- The "adding the letter to the processing queue" note is logged at error level, and only after a completed upload of a type-2 report (`LetterNoteAfterUpload`).
- The test project targets a different constructor and logger. It also expects the "no details updated" line at information level; the code logs it at error level, and the model follows the code.

## Model

| member | source | states |
|---|---|---|
| DocumentTypes.GetDocumentTypes | EC.BatchServices.LetterGenerator/DocumentType.cs:19-30 | the catalogue has exactly five entries, with ids 1 to 5 in order |
| DocumentTypes.FindByName | EC.BatchServices.LetterGenerator/DocumentType.cs:19-30 | a reference lookup over the catalogue, read as a name-to-entry map, which the source itself never performs; it is used to state the catalogue's properties: a found entry is in the list and carries that name, and nothing is found iff no entry has the name |
| DocumentTypes.CatalogueKeysDistinct | EC.BatchServices.LetterGenerator/DocumentType.cs:23-27 | ids are pairwise distinct and names are pairwise distinct |
| DocumentTypes.LookupIsUnambiguous | EC.BatchServices.LetterGenerator/DocumentType.cs:23-27 | two catalogue entries with the same name, or the same id, are the same entry |
| DocumentTypes.ClassicFormatsMime | EC.BatchServices.LetterGenerator/DocumentType.cs:23-26 | "pdf", "word" and "excel" resolve to application/pdf, application/msword and application/vnd.ms-excel |
| DocumentTypes.OpenXmlFormatsMime | EC.BatchServices.LetterGenerator/DocumentType.cs:25-27 | "wordx" and "excelx" resolve to the wordprocessingml and spreadsheetml MIME types |
| DocumentTypes.RegisteredNamesLowercase | EC.BatchServices.LetterGenerator/DocumentType.cs:23-27 | every registered name consists of lower-case ASCII letters |
| DocumentTypes.UppercaseFormatMatchesNothing | EC.BatchServices.LetterGenerator/DocumentType.cs:23-27 | a format holding an upper-case letter, such as "PDF", matches no entry |
| DocumentDtos.Properties | EC.BatchServices.LetterGenerator/DTOs/DocumentDTO.cs:7-51 | the record has seventeen properties, each listed with its declared attributes |
| DocumentDtos.IsValid | EC.BatchServices.LetterGenerator/DTOs/DocumentDTO.cs:7-51 | the definition of validity (every declared attribute of every property holds) that `ValidityByProperty` and `MetadataValidity` are about |
| DocumentDtos.ValidityByProperty | EC.BatchServices.LetterGenerator/DTOs/DocumentDTO.cs:9-49 | valid iff ClaimID, DocumentTypeID, CreationTime and UserID are present, Title, Extension and FileName are non-blank and at most 100, 10 and 255 characters, and Version is absent or at most 50 characters |
| DocumentDtos.UnconstrainedPropertiesIgnored | EC.BatchServices.LetterGenerator/DTOs/DocumentDTO.cs:7-51 | DocumentID, DocumentRequestID, FileID, FileGuid, FileSize, the change/access/write times and Image do not affect validity |
| QueryCollections.IndexOfKey | EC.BatchServices.LetterGenerator/ReportGenerator.cs:125 | finds the first entry whose key equals the given one ignoring case, and finds nothing iff no key matches |
| QueryCollections.Set | EC.BatchServices.LetterGenerator/ReportGenerator.cs:125 | after assignment the key reads the new value and every other key reads as before; distinct keys stay distinct; an existing entry keeps its spelling and position; otherwise one entry is appended |
| ReportGenerators.BuildRequests | EC.BatchServices.LetterGenerator/ReportGenerator.cs:73-92 | building succeeds iff every fetch succeeds; then there is one request per row, in row order, each holding its row's six columns and exactly the parameters fetched for its queue id, after one fetch per row |
| ReportGenerators.FailedPrefixIsFinal | EC.BatchServices.LetterGenerator/ReportGenerator.cs:77-79 | once a fetch has thrown, later rows change neither the trace nor the result |
| ReportGenerators.BuildReportRequests | EC.BatchServices.LetterGenerator/ReportGenerator.cs:73-92 | the loop yields exactly the trace and result of `BuildRequests` |
| ReportGenerators.Assign | EC.BatchServices.LetterGenerator/ReportGenerator.cs:121-126 | the collection after the parameter loop, the definition `AssignReadsLastValue` and `AssignKeysAreNames` are about; it has at most one entry per parameter and distinct keys |
| ReportGenerators.ReportQuery | EC.BatchServices.LetterGenerator/ReportGenerator.cs:121-132 | the collection after the format is forced, the definition `ReportQueryMeaning` is about; "rs:Format" reads "PDF" |
| ReportGenerators.ReportUrl | EC.BatchServices.LetterGenerator/ReportGenerator.cs:129-135 | the render URL, the definition `BuildReportUrl` is proved equal to; every render URL starts with the fixed report-server prefix and "?" |
| ReportGenerators.AssignReadsLastValue | EC.BatchServices.LetterGenerator/ReportGenerator.cs:121-126 | after the parameter loop every name reads as its last parameter's value, and keys are distinct |
| ReportGenerators.AssignKeysAreNames | EC.BatchServices.LetterGenerator/ReportGenerator.cs:121-126 | every key in the collection is spelled as some parameter's name |
| ReportGenerators.ReportQueryMeaning | EC.BatchServices.LetterGenerator/ReportGenerator.cs:121-134 | the query holds each key once; "rs:Format" reads "PDF" whatever the parameters say; every other key reads its last parameter value; every key is a parameter name or "rs:Format" |
| ReportGenerators.BuildReportUrl | EC.BatchServices.LetterGenerator/ReportGenerator.cs:119-139 | the URL is the fixed prefix, "?", the encoded report name, "&" and the query text, and it is logged at information level |
| ReportGenerators.ContentTypeFor | EC.BatchServices.LetterGenerator/ReportGenerator.cs:188-189 | a content type is set iff the format is exactly "pdf", and then it is application/pdf |
| ReportGenerators.UploadFailureMessage | EC.BatchServices.LetterGenerator/ReportGenerator.cs:223 | the exception message contains the status name and the response body |
| ReportGenerators.UploadSubmission | EC.BatchServices.LetterGenerator/ReportGenerator.cs:186-213 | the multipart body, the definition `PostedSubmission` is about; its metadata names the image part's file name and length |
| ReportGenerators.UploadMetadata | EC.BatchServices.LetterGenerator/ReportGenerator.cs:193-210 | the metadata record, the definition `MetadataValidity` and `PostedSubmission` are about |
| ReportGenerators.UploadReportDocument | EC.BatchServices.LetterGenerator/ReportGenerator.cs:183-229 | once the client exists, a blank file name throws an ArgumentException (line 191) before anything is logged or posted; otherwise one post of the built submission; completes iff the name is not blank and the reply is 2xx, and then logs no error; a non-2xx reply logs one error and throws an HttpRequestException naming the status (by its name) and the body; client and post exceptions propagate; nothing is rendered |
| ReportGenerators.TempFileName | EC.BatchServices.LetterGenerator/ReportGenerator.cs:106 | the upload file name, the definition `TempFileNameNotBlank` and `PostedMetadataValidity` are about; it starts with the report name and an underscore and ends with the UTC time text |
| ReportGenerators.GenerateAndSaveReport | EC.BatchServices.LetterGenerator/ReportGenerator.cs:94-117 | one render of the request's URL once the client exists; something is posted iff the render succeeded and the imaging client exists, and then it is the rendered bytes under the generated file name with user 43 |
| ReportGenerators.GenerateOutcome | EC.BatchServices.LetterGenerator/ReportGenerator.cs:96-116 | a request completes iff its render was answered and, for a 2xx answer, the upload completed; a non-2xx render completes with no post and no error |
| ReportGenerators.NoLetterWithoutRender | EC.BatchServices.LetterGenerator/ReportGenerator.cs:96-116 | a request whose render did not succeed logs no error |
| ReportGenerators.ProcessRequest | EC.BatchServices.LetterGenerator/ReportGenerator.cs:94-117 | the step-by-step generation of one request, which builds its URL with `BuildReportUrl`, yields exactly `GenerateAndSaveReport`'s effects and outcome |
| ReportGenerators.LetterNoteAfterUpload | EC.BatchServices.LetterGenerator/ReportGenerator.cs:108-115 | the letter note is logged iff the render succeeded, the upload completed and the report type is 2, and then it is the last effect |
| ReportGenerators.UploadIsRequestLocal | EC.BatchServices.LetterGenerator/ReportGenerator.cs:183-229 | an upload only logs and posts |
| ReportGenerators.GenerateIsRequestLocal | EC.BatchServices.LetterGenerator/ReportGenerator.cs:94-117 | generating a request only logs, renders and posts: it does not touch the queue |
| ReportGenerators.Loop | EC.BatchServices.LetterGenerator/ReportGenerator.cs:42-55 | the generated counter never exceeds the number of requests |
| ReportGenerators.Closing | EC.BatchServices.LetterGenerator/ReportGenerator.cs:47-53 | the line closing each request, the definition `ItemRunsInPlace` is about; it is logged at error level iff the request threw |
| ReportGenerators.GenerateEach | EC.BatchServices.LetterGenerator/ReportGenerator.cs:42-55 | the loop, which runs `ProcessRequest` on each request, has the trace and counter of `Loop` over `GenerateAndSaveReport` |
| ReportGenerators.Cycle | EC.BatchServices.LetterGenerator/ReportGenerator.cs:33-61 | the cycle, the definition the `ReportGeneratorProperties` lemmas are about; it starts by logging and querying the pending rows, an aborted cycle ends with the batch error line, and a finished one generates at most as many as are pending |
| ReportGenerators.GenerateAndSaveReports | EC.BatchServices.LetterGenerator/ReportGenerator.cs:33-61 | the method's trace and result are those of `Cycle`; no exception leaves the cycle |
| ReportGenerators.IsWorkPending | EC.BatchServices.LetterGenerator/ReportGenerator.cs:157-163 | work is pending iff the count is positive; a failing count query throws |
| ReportGenerators.WakeUp | EC.BatchServices.LetterGenerator/Worker.cs:26-35 | a cycle runs iff the pending count was read and is positive, and then the effects are exactly the cycle's; otherwise there are none |
| ReportGenerators.UpdateReportDetailsFlags | EC.BatchServices.LetterGenerator/ReportGenerator.cs:172-181 | the update is issued first; an error is logged iff no row was affected; a failing update throws |
| ReportGeneratorProperties.BuildTraceIsFetchPrefix | EC.BatchServices.LetterGenerator/ReportGenerator.cs:76-90 | building fetches the parameters of a prefix of the rows, in row order, and does nothing else |
| ReportGeneratorProperties.BuildStopsAtFirstFailure | EC.BatchServices.LetterGenerator/ReportGenerator.cs:77-79 | when fetch k is the first to throw, building ends with that exception after exactly k + 1 fetches |
| ReportGeneratorProperties.AbortTouchesNoRequest | EC.BatchServices.LetterGenerator/ReportGenerator.cs:33-61 | a cycle aborts iff the row query or some parameter fetch throws; an aborted cycle renders and posts nothing and ends with the batch error line carrying the exception message |
| ReportGeneratorProperties.LoopPrefix | EC.BatchServices.LetterGenerator/ReportGenerator.cs:43-55 | the loop's trace over the first m requests is a prefix of its whole trace |
| ReportGeneratorProperties.ItemRunsInPlace | EC.BatchServices.LetterGenerator/ReportGenerator.cs:43-55 | every request is generated whatever happened before it; its effects and closing line sit right after those of earlier requests; a throwing request is logged with its claim id and message, a completed one with the running count |
| ReportGeneratorProperties.GeneratedIsCompletedCount | EC.BatchServices.LetterGenerator/ReportGenerator.cs:42-49 | the counter equals the number of requests whose generation completed |
| ReportGeneratorProperties.FinishedCycleCounts | EC.BatchServices.LetterGenerator/ReportGenerator.cs:38-49 | a finished cycle reports one pending request per row; its generated count is the number of completed requests, at most the number pending |
| ReportGeneratorProperties.LoopClearsNoFlag | EC.BatchServices.LetterGenerator/ReportGenerator.cs:43-55 | a loop whose steps clear no flag clears no flag |
| ReportGeneratorProperties.GenerateClearsNoFlag | EC.BatchServices.LetterGenerator/ReportGenerator.cs:94-117 | generating a request clears no flag |
| ReportGeneratorProperties.NoFlagEverCleared | EC.BatchServices.LetterGenerator/ReportGenerator.cs:33-61 | no cycle ever asks for a queue flag to be cleared |
| ReportGeneratorProperties.ContentTypeIgnoresRegistry | EC.BatchServices.LetterGenerator/ReportGenerator.cs:188-189 | a set content type is the catalogue's MIME type for the format; every other registered format is sent without a content type |
| ReportGeneratorProperties.MetadataValidity | EC.BatchServices.LetterGenerator/ReportGenerator.cs:193-210 | the upload metadata is valid iff the format is non-blank and at most 10 characters and the file name is non-blank and at most 255 characters |
| ReportGeneratorProperties.TempFileNameNotBlank | EC.BatchServices.LetterGenerator/ReportGenerator.cs:106 | the generated file name is never blank, so the upload's blank-name check (line 191) never fires for it |
| ReportGeneratorProperties.PostedMetadataValidity | EC.BatchServices.LetterGenerator/ReportGenerator.cs:102-108 | a posted request's metadata is valid iff its format is non-blank and at most 10 characters and its generated file name is at most 255 characters; a null format always yields invalid metadata |
| ReportGeneratorProperties.PostedSubmission | EC.BatchServices.LetterGenerator/ReportGenerator.cs:183-213 | a request posts once, only after a successful render: the rendered bytes under the generated name, typed iff the format is "pdf", with metadata holding the claim, document type, format, title "SystemLetter", file id 0, the image length, user 43, and no request id, version or inline image |

## Left out

- `FetchReportDetailsAsync`: JSON parsing of a catalogue response through a foreign library. The report-detail records are not part of this model.
- The row and parameter SQL, the count query and the flag update are answers of the `Services` oracle (or arguments). The repository classes are not part of this model.
- URL encoding of the report name and serialisation of the query collection are oracle functions. The model states which entries the serialised collection holds, not its text.
- `DateTime.Now`, `DateTime.UtcNow` and `Guid.NewGuid` are per-request oracle answers. The text form of `DateTime.UtcNow` is an opaque string.
- JSON serialisation and multipart encoding of the upload: the submission is modelled as its parts.
- Reading a response body is folded into the reply. A failure while reading a body is not modelled separately from a failing send or post.
- Log lines are structured messages, not formatted text.
- The name a status code is printed under is an oracle function (`statusName`), not the .NET enumeration's table of names.
- The hosting worker's hourly delay, cancellation and outer catch are not modelled (Program.cs and the rest of Worker.cs are host plumbing). `WakeUp` models the one decision.
- Null report names, null parameter names and null parameter values are not modelled: names and values are always text.
- The text of the ArgumentException the multipart form throws for a blank file name depends on the .NET version; the model fixes one message and the parameter name `fileName`. A null image is not modelled.
- QueryCollections.Fold: case-insensitive key comparison folds ASCII letters only. The .NET ordinal-ignore-case comparison also folds non-ASCII letters.
- DocumentDtos.AttributeHolds: string lengths are counted in Dafny characters (Unicode scalar values), not UTF-16 code units.
- ReportGenerators.Loop: the generated counter is unbounded. The 32-bit counter could only wrap after more than 2^31 requests.
- ReportGenerators.IntToString: the claim id is rendered in plain decimal, and culture-specific formatting is not modelled.
