/**
 * The structure of the sanitization report PDF (pdf_generator.py): the
 * rows `build_table` makes from a dictionary and the fixed sequence of
 * sections `generate_pdf` lays out. Fonts, sizes and drawing are not part
 * of the model.
 */
module PdfReport {
  import opened Wrappers
  import opened Json
  import opened Text
  import Certificate

  /** The row caption for key `k`: underscores become spaces, the words are title-cased, and a colon follows. */
  function Label(k: string): string {
    TitleCase(ReplaceChar(k, '_', ' ')) + ":"
  }

  /**
   * A label is the key with every underscore turned into a space, each
   * letter raised when it starts a word and lowered otherwise, and a colon
   * appended.
   */
  lemma LabelPointwise(k: string)
    ensures |Label(k)| == |k| + 1 && Label(k)[|k|] == ':'
    ensures '_' !in Label(k)
    ensures forall i :: 0 <= i < |k| ==>
      Label(k)[i] ==
        if k[i] == '_' then ' '
        else if i > 0 && IsLetter(k[i - 1]) then ToLower(k[i])
        else ToUpper(k[i])
  {
    var spaced := ReplaceChar(k, '_', ' ');
    TitleCasePointwise(spaced);
    var l := Label(k);
    forall i | 0 <= i < |k|
      ensures l[i] != '_'
      ensures l[i] == if k[i] == '_' then ' ' else if i > 0 && IsLetter(k[i - 1]) then ToLower(k[i]) else ToUpper(k[i])
    {
      assert l[i] == TitleCase(spaced)[i];
      if i > 0 {
        assert IsLetter(spaced[i - 1]) == IsLetter(k[i - 1]);
      }
    }
  }

  datatype Row = Row(caption: string, value: Value)

  /** `build_table`: one row per key, in key order, the value passed through as it is. */
  function BuildTable(d: Dict): (rows: seq<Row>)
    ensures |rows| == |d|
    ensures forall i :: 0 <= i < |d| ==> rows[i].caption == Label(d[i].0) && rows[i].value == d[i].1
  {
    if |d| == 0 then []
    else
      var rest := BuildTable(d[1..]);
      assert forall i :: 1 <= i < |d| ==> d[i] == d[1..][i - 1];
      [Row(Label(d[0].0), d[0].1)] + rest
  }

  datatype Section = Section(heading: string, rows: seq<Row>)

  datatype Document = Document(title: string, reportId: Value, sections: seq<Section>)

  const Title := "MEDIA SANITIZATION REPORT"

  /** The section keys `generate_pdf` reads, in page order. */
  const SectionKeys: seq<string> :=
    ["personPerformingSanitization", "mediaInformation", "sanitizationDetails", "mediaDestination", "validation"]

  const Headings: seq<string> :=
    ["1. Person Performing Sanitization", "2. Media Information", "3. Sanitization Details",
     "4. Media Destination", "5. Validation"]

  /** The data holds the section under `key` as an object with at least one key. */
  predicate NonEmptySection(data: Dict, key: string) {
    Get(data, key).Some? && Get(data, key).value.Obj? && |Get(data, key).value.fields| > 0
  }

  /**
   * `build_table(data.get(key, {}))`. A section that is not an object has
   * no `.items()`. A missing section, or an object without keys, gives a
   * table of no rows, which ReportLab's `Table` rejects with a `ValueError`
   * under its default setting (`emptyTableAction` is "error").
   */
  function SectionRows(data: Dict, key: string): (r: Result<seq<Row>, string>)
    ensures r.Success? <==> NonEmptySection(data, key)
    ensures r.Success? ==> |r.value| > 0
  {
    match Get(data, key)
    case None => Failure("ValueError: a table must have at least a row and column")
    case Some(Obj(f)) =>
      if |f| == 0 then Failure("ValueError: a table must have at least a row and column")
      else Success(BuildTable(f))
    case Some(_) => Failure("AttributeError: section has no attribute 'items'")
  }

  /**
   * `generate_pdf`: the title, the report id ("N/A" when the data has none)
   * and the five sections in their fixed order. A missing, empty or
   * malformed section raises before the document is built, so nothing is
   * written.
   */
  function Render(data: Dict): (r: Result<Document, string>)
    ensures r.Success? <==> forall i :: 0 <= i < |SectionKeys| ==> NonEmptySection(data, SectionKeys[i])
    ensures r.Success? ==>
      && r.value.title == Title
      && r.value.reportId == Get(data, "report_uuid").GetOr(Str("N/A"))
      && |r.value.sections| == |SectionKeys|
      && forall i :: 0 <= i < |SectionKeys| ==>
           r.value.sections[i] == Section(Headings[i], SectionRows(data, SectionKeys[i]).value)
  {
    var person :- SectionRows(data, SectionKeys[0]);
    var media :- SectionRows(data, SectionKeys[1]);
    var sanitization :- SectionRows(data, SectionKeys[2]);
    var destination :- SectionRows(data, SectionKeys[3]);
    var validation :- SectionRows(data, SectionKeys[4]);
    Success(Document(Title, Get(data, "report_uuid").GetOr(Str("N/A")),
      [Section(Headings[0], person), Section(Headings[1], media), Section(Headings[2], sanitization),
       Section(Headings[3], destination), Section(Headings[4], validation)]))
  }

  /**
   * Every table of a rendered document has exactly as many rows as its
   * section has keys, at least one, carrying the section's values in order.
   */
  lemma RowsPerSection(data: Dict, i: nat)
    requires Render(data).Success? && i < |SectionKeys|
    ensures var rows := Render(data).value.sections[i].rows;
      && Get(data, SectionKeys[i]).Some? && Get(data, SectionKeys[i]).value.Obj?
      && |rows| == |Get(data, SectionKeys[i]).value.fields| > 0
      && forall j :: 0 <= j < |rows| ==> rows[j].value == Get(data, SectionKeys[i]).value.fields[j].1
  {
  }

  /**
   * The certificate JSON of certificate.py names its sections in snake case,
   * while the report reads camel-case keys: such a record has none of the
   * five sections, so rendering it raises at the first empty table.
   */
  lemma CertificateFailsToRender(rec: Certificate.Record)
    ensures Render(Certificate.RecordFields(rec)).Failure?
  {
    RecordLacksSections(rec);
    AbsentSectionFails(Certificate.RecordFields(rec), 0);
  }

  /** None of the keys the report reads occurs among the certificate's keys. */
  lemma RecordLacksSections(rec: Certificate.Record)
    ensures forall i :: 0 <= i < |SectionKeys| ==> Get(Certificate.RecordFields(rec), SectionKeys[i]).None?
    ensures Get(Certificate.RecordFields(rec), "report_uuid").None?
  {
    var f := Certificate.RecordFields(rec);
    forall i | 0 <= i < |SectionKeys|
      ensures Get(f, SectionKeys[i]).None?
    {
      var k := SectionKeys[i];
      forall j | 0 <= j < |f|
        ensures f[j].0 != k
      {
        assert |f[j].0| != |k| || f[j].0[0] != k[0];
      }
      GetAbsent(f, k);
    }
    forall j | 0 <= j < |f|
      ensures f[j].0 != "report_uuid"
    {
      assert |f[j].0| != |"report_uuid"|;
    }
    GetAbsent(f, "report_uuid");
  }

  /** Data missing any one of the five sections does not render. */
  lemma AbsentSectionFails(data: Dict, i: nat)
    requires i < |SectionKeys| && Get(data, SectionKeys[i]).None?
    ensures Render(data).Failure?
    ensures SectionRows(data, SectionKeys[i]).Failure?
  {
  }
}
