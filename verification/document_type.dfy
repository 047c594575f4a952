/**
 * The document-type catalogue: a record of id, format name and MIME type, and the
 * constant list of the five registered types.
 */
module DocumentTypes {
  import opened Wrappers

  /** One registered format; the record's constructor stores its three arguments unchanged. */
  datatype DocumentType = DocumentType(ID: int, Name: string, MIMEType: string)

  const WordprocessingMime := "application/vnd.openxmlformats-officedocument.wordprocessingml.document"
  const SpreadsheetMime := "application/vnd.openxmlformats-officedocument.spreadsheetml.sheet"

  /** The catalogue, in declaration order: ids 1 to 5. */
  function GetDocumentTypes(): (r: seq<DocumentType>)
    ensures |r| == 5
    ensures forall i :: 0 <= i < |r| ==> r[i].ID == i + 1
  {
    [ DocumentType(1, "pdf", "application/pdf"),
      DocumentType(2, "word", "application/msword"),
      DocumentType(3, "wordx", WordprocessingMime),
      DocumentType(4, "excel", "application/vnd.ms-excel"),
      DocumentType(5, "excelx", SpreadsheetMime) ]
  }

  /**
   * Lookup of a format by exact (ordinal, case-sensitive) name comparison; the
   * reference against which the catalogue's properties are stated.
   */
  function FindByName(types: seq<DocumentType>, name: string): (r: Option<DocumentType>)
    ensures r.Some? ==> r.value in types && r.value.Name == name
    ensures r.None? <==> forall t :: t in types ==> t.Name != name
  {
    if types == [] then None
    else if types[0].Name == name then Some(types[0])
    else FindByName(types[1..], name)
  }

  predicate IsLowerAsciiLetter(c: char) { 'a' <= c <= 'z' }
  predicate IsUpperAsciiLetter(c: char) { 'A' <= c <= 'Z' }

  /** No two entries share an id, and no two share a name. */
  lemma CatalogueKeysDistinct()
    ensures forall i, j :: 0 <= i < j < |GetDocumentTypes()| ==>
      GetDocumentTypes()[i].ID != GetDocumentTypes()[j].ID
    ensures forall i, j :: 0 <= i < j < |GetDocumentTypes()| ==>
      GetDocumentTypes()[i].Name != GetDocumentTypes()[j].Name
  {
    var r := GetDocumentTypes();
    assert r[0].Name[0] == 'p' && r[1].Name[0] == 'w' && r[2].Name[0] == 'w';
    assert r[3].Name[0] == 'e' && r[4].Name[0] == 'e';
    assert |r[1].Name| == 4 && |r[2].Name| == 5 && |r[3].Name| == 5 && |r[4].Name| == 6;
    assert r[2].Name[4] == 'x' && r[3].Name[4] == 'l';
  }

  /** A name or an id selects at most one entry of the catalogue. */
  lemma LookupIsUnambiguous(t: DocumentType, u: DocumentType)
    requires t in GetDocumentTypes() && u in GetDocumentTypes()
    ensures t.Name == u.Name ==> t == u
    ensures t.ID == u.ID ==> t == u
  {
    CatalogueKeysDistinct();
    var r := GetDocumentTypes();
    var i :| 0 <= i < |r| && r[i] == t;
    var j :| 0 <= j < |r| && r[j] == u;
    if i < j || j < i {
      assert t.Name != u.Name && t.ID != u.ID;
    }
  }

  /** The legacy Office and PDF formats resolve to their registered MIME types. */
  lemma ClassicFormatsMime()
    ensures FindByName(GetDocumentTypes(), "pdf") == Some(DocumentType(1, "pdf", "application/pdf"))
    ensures FindByName(GetDocumentTypes(), "word") == Some(DocumentType(2, "word", "application/msword"))
    ensures FindByName(GetDocumentTypes(), "excel") == Some(DocumentType(4, "excel", "application/vnd.ms-excel"))
  {
    var r := GetDocumentTypes();
    assert r[0].Name != "word" && r[0].Name != "excel";
    assert r[1].Name != "excel" && r[2].Name != "excel";
    assert r[1..][1..][1..] == r[3..];
  }

  /** The OOXML formats resolve to the wordprocessingml and spreadsheetml MIME types. */
  lemma OpenXmlFormatsMime()
    ensures FindByName(GetDocumentTypes(), "wordx") == Some(DocumentType(3, "wordx", WordprocessingMime))
    ensures FindByName(GetDocumentTypes(), "excelx") == Some(DocumentType(5, "excelx", SpreadsheetMime))
  {
    var r := GetDocumentTypes();
    assert r[0].Name != "wordx" && r[1].Name != "wordx";
    assert r[0].Name != "excelx" && r[1].Name != "excelx" && r[2].Name != "excelx" && r[3].Name != "excelx";
    assert r[1..][1..] == r[2..];
    assert r[1..][1..][1..][1..] == r[4..];
  }

  /** Every registered name is spelled with lower-case ASCII letters only. */
  lemma RegisteredNamesLowercase()
    ensures forall t, k :: t in GetDocumentTypes() && 0 <= k < |t.Name| ==> IsLowerAsciiLetter(t.Name[k])
  {
  }

  /** A format holding an upper-case letter, such as "PDF", matches no registered entry. */
  lemma UppercaseFormatMatchesNothing(format: string, k: nat)
    requires k < |format| && IsUpperAsciiLetter(format[k])
    ensures FindByName(GetDocumentTypes(), format) == None
  {
    RegisteredNamesLowercase();
    forall t | t in GetDocumentTypes()
      ensures t.Name != format
    {
      assert k >= |t.Name| || t.Name[k] != format[k];
    }
  }
}
