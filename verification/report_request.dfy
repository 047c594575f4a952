/**
 * The pending queue row, a rendering parameter, and the self-contained report request
 * built from the two.
 */
module ReportRequests {
  import opened Wrappers

  /** A named rendering parameter stored for one queue entry. */
  datatype Parameter = Parameter(Name: string, Value: string)

  /** One row of the pending-report query: the six columns, in their selection order. */
  datatype QueueRow = QueueRow(
    ReportQueueID: int,
    ReportName: string,
    ReportTypeID: int,
    DocumentTypeID: int,
    ClaimID: int,
    DocumentFormat: Option<string>)

  /** A queue entry together with its parameters, ready to be rendered. */
  datatype ReportRequest = ReportRequest(
    ReportQueueID: int,
    ReportName: string,
    ReportTypeID: int,
    DocumentTypeID: int,
    ClaimID: int,
    DocumentFormat: Option<string>,
    Parameters: seq<Parameter>)
}
