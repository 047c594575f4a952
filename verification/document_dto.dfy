/**
 * The validation attributes of the document data-transfer record: each property with the
 * `[Required]` and `[StringLength(n)]` attributes declared on it, and the validity
 * predicate they define.
 */
module DocumentDtos {
  import opened Wrappers
  import opened Documents

  /** The two validation attributes the record uses. */
  datatype Attribute = Required | StringLength(MaximumLength: nat)

  /** A property value, by the property's declared type. */
  datatype PropertyValue =
    | IntValue(i: Option<int>)
    | TextValue(s: Option<string>)
    | GuidValue(g: Guid)
    | TimeValue(t: Option<DateTime>)
    | BytesValue(b: Option<seq<byte>>)

  datatype Property = Property(Name: string, Value: PropertyValue, Attributes: seq<Attribute>)

  /** The record's properties in declaration order, each with the attributes declared on it. */
  function Properties(d: Document): (ps: seq<Property>)
    ensures |ps| == 17
  {
    [ Property("DocumentID", IntValue(d.DocumentID), []),
      Property("ClaimID", IntValue(d.ClaimID), [Required]),
      Property("DocumentRequestID", IntValue(d.DocumentRequestID), []),
      Property("DocumentTypeID", IntValue(d.DocumentTypeID), [Required]),
      Property("FileID", IntValue(d.FileID), []),
      Property("FileGuid", GuidValue(d.FileGuid), [Required]),
      Property("ChangeTime", TimeValue(d.ChangeTime), []),
      Property("CreationTime", TimeValue(d.CreationTime), [Required]),
      Property("Title", TextValue(d.Title), [Required, StringLength(100)]),
      Property("Extension", TextValue(d.Extension), [Required, StringLength(10)]),
      Property("FileName", TextValue(d.FileName), [Required, StringLength(255)]),
      Property("FileSize", IntValue(d.FileSize), []),
      Property("LastAccessTime", TimeValue(d.LastAccessTime), []),
      Property("LastWriteTime", TimeValue(d.LastWriteTime), []),
      Property("UserID", IntValue(d.UserID), [Required]),
      Property("Version", TextValue(d.Version), [StringLength(50)]),
      Property("Image", BytesValue(d.Image), []) ]
  }

  /** The characters .NET classifies as white space: separators, tab to carriage return, next line. */
  predicate IsWhiteSpace(c: char) {
    ('\t' <= c <= '\r') || c == ' ' || c == '\U{0085}' || c == '\U{00A0}' || c == '\U{1680}'
    || ('\U{2000}' <= c <= '\U{200A}') || c == '\U{2028}' || c == '\U{2029}' || c == '\U{202F}'
    || c == '\U{205F}' || c == '\U{3000}'
  }

  /** Null, empty, or made of white space only. */
  predicate IsNullOrWhiteSpace(s: Option<string>) {
    s.None? || forall k :: 0 <= k < |s.value| ==> IsWhiteSpace(s.value[k])
  }

  /**
   * `[Required]` fails on null and, for strings (empty strings not allowed), on blank text;
   * a non-nullable value such as the Guid is never null and always passes.
   */
  predicate RequiredHolds(v: PropertyValue) {
    match v
    case IntValue(i) => i.Some?
    case TextValue(s) => !IsNullOrWhiteSpace(s)
    case GuidValue(_) => true
    case TimeValue(t) => t.Some?
    case BytesValue(b) => b.Some?
  }

  /** `[StringLength(n)]` passes on null and on text of at most n characters. */
  predicate AttributeHolds(a: Attribute, v: PropertyValue) {
    match a
    case Required => RequiredHolds(v)
    case StringLength(max) => v.TextValue? && (v.s.None? || |v.s.value| <= max)
  }

  /** Every attribute declared on the property holds of its value. */
  predicate PropertyHolds(p: Property) {
    forall a :: a in p.Attributes ==> AttributeHolds(a, p.Value)
  }

  /** A record is valid when every attribute of every property holds. */
  predicate IsValid(d: Document) {
    var ps := Properties(d);
    forall i :: 0 <= i < |ps| ==> PropertyHolds(ps[i])
  }

  /** Text that passes `[Required]` and `[StringLength(max)]` together. */
  predicate RequiredText(s: Option<string>, max: nat) {
    s.Some? && !IsNullOrWhiteSpace(s) && |s.value| <= max
  }

  /**
   * Validity property by property: the four required identifiers and times are present,
   * Title, Extension and FileName are non-blank and at most 100, 10 and 255 characters,
   * and Version, when present, is at most 50 characters. Nothing else is constrained.
   */
  lemma {:induction false} ValidityByProperty(d: Document)
    ensures IsValid(d) <==>
      d.ClaimID.Some? && d.DocumentTypeID.Some? && d.CreationTime.Some? && d.UserID.Some?
      && RequiredText(d.Title, 100) && RequiredText(d.Extension, 10) && RequiredText(d.FileName, 255)
      && (d.Version.None? || |d.Version.value| <= 50)
  {
    ValidIffEachMeaning(d);
    PropertyMeanings(d);
  }

  lemma ValidIffEachMeaning(d: Document)
    ensures IsValid(d) <==> forall i :: 0 <= i < 17 ==> AttributesMeaning(Properties(d)[i])
  {
    var ps := Properties(d);
    forall i | 0 <= i < |ps| ensures PropertyHolds(ps[i]) <==> AttributesMeaning(ps[i]) {
      AttributeListMeaning(ps[i]);
    }
  }

  lemma PropertyMeanings(d: Document)
    ensures forall i :: i in {0, 2, 4, 5, 6, 11, 12, 13, 16} ==> AttributesMeaning(Properties(d)[i])
    ensures AttributesMeaning(Properties(d)[1]) <==> d.ClaimID.Some?
    ensures AttributesMeaning(Properties(d)[3]) <==> d.DocumentTypeID.Some?
    ensures AttributesMeaning(Properties(d)[7]) <==> d.CreationTime.Some?
    ensures AttributesMeaning(Properties(d)[8]) <==> RequiredText(d.Title, 100)
    ensures AttributesMeaning(Properties(d)[9]) <==> RequiredText(d.Extension, 10)
    ensures AttributesMeaning(Properties(d)[10]) <==> RequiredText(d.FileName, 255)
    ensures AttributesMeaning(Properties(d)[14]) <==> d.UserID.Some?
    ensures AttributesMeaning(Properties(d)[15]) <==> d.Version.None? || |d.Version.value| <= 50
  {
  }

  /** What the attribute lists used by the record demand of a value. */
  predicate AttributesMeaning(p: Property) {
    if p.Attributes == [] then true
    else if p.Attributes == [Required] then RequiredHolds(p.Value)
    else if |p.Attributes| == 2 && p.Attributes[0] == Required && p.Attributes[1].StringLength? then
      RequiredHolds(p.Value) && AttributeHolds(p.Attributes[1], p.Value)
    else if |p.Attributes| == 1 && p.Attributes[0].StringLength? then AttributeHolds(p.Attributes[0], p.Value)
    else PropertyHolds(p)
  }

  lemma AttributeListMeaning(p: Property)
    ensures PropertyHolds(p) <==> AttributesMeaning(p)
  {
    if |p.Attributes| == 2 && p.Attributes[0] == Required && p.Attributes[1].StringLength? {
      assert p.Attributes[0] in p.Attributes && p.Attributes[1] in p.Attributes;
    } else if |p.Attributes| == 1 {
      assert p.Attributes[0] in p.Attributes;
    }
  }

  /**
   * The identifiers other than ClaimID and DocumentTypeID, FileGuid, FileSize, the change,
   * access and write times and Image have no bearing on validity.
   */
  lemma UnconstrainedPropertiesIgnored(d: Document, e: Document)
    requires d.ClaimID == e.ClaimID && d.DocumentTypeID == e.DocumentTypeID
    requires d.CreationTime == e.CreationTime && d.UserID == e.UserID
    requires d.Title == e.Title && d.Extension == e.Extension && d.FileName == e.FileName
    requires d.Version == e.Version
    ensures IsValid(d) == IsValid(e)
  {
    ValidityByProperty(d);
    ValidityByProperty(e);
  }
}
