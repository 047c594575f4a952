/**
 * The document metadata record that is serialised and sent to the document-imaging
 * service, and the primitive types its properties use.
 */
module Documents {
  import opened Wrappers

  newtype byte = x: int | 0 <= x < 0x100

  /** A 128-bit globally unique identifier. */
  newtype Guid = x: int | 0 <= x < 0x1_0000_0000_0000_0000_0000_0000_0000_0000

  /** A point in time, in ticks. */
  type DateTime = int

  /**
   * The metadata record. Every property is nullable except `FileGuid`; the data-transfer
   * record on the receiving side declares the same seventeen properties with the same
   * types, so one datatype serves for both.
   */
  datatype Document = Document(
    DocumentID: Option<int>,
    ClaimID: Option<int>,
    DocumentRequestID: Option<int>,
    DocumentTypeID: Option<int>,
    FileID: Option<int>,
    FileGuid: Guid,
    ChangeTime: Option<DateTime>,
    CreationTime: Option<DateTime>,
    Title: Option<string>,
    Extension: Option<string>,
    FileName: Option<string>,
    FileSize: Option<int>,
    LastAccessTime: Option<DateTime>,
    LastWriteTime: Option<DateTime>,
    UserID: Option<int>,
    Version: Option<string>,
    Image: Option<seq<byte>>)
}
