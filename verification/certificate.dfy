/**
 * The certificate generator of certificate.py: the mapping from operator
 * data, system inventory and wipe report to the certificate record, its
 * JSON form, and the two files `generate_all` writes.
 */
module Certificate {
  import opened Wrappers
  import opened Json
  import opened Text
  import opened WipeJob

  /** `CertificateGenerator` after `__init__`: the clock is read once, there. */
  datatype Generator = Generator(userData: Dict, systemData: Dict, wipeReport: Dict, certificateId: string, timestamp: Instant)

  datatype Person = Person(name: Value, organization: Value, title: Value, location: Value, phone: Value)

  datatype Media = Media(makeVendor: Value, modelNumber: Value, serialNumbers: seq<Value>,
                         mediaPropertyNumber: Value, source: Value, backupLocation: Value)

  datatype Sanitization = Sanitization(methodType: string, methodUsed: Value, toolUsed: string,
                                       verificationMethod: string, notes: Value)

  datatype Record = Record(certificateId: string, timestampUtc: string, person: Person, media: Media,
                           sanitization: Sanitization, destinationDetails: Value, wipeProcessReport: Dict)

  const MethodType := "Purge"
  const ToolUsed := "Secure Data Wiper v1.0"
  const VerificationMethod := "Not performed in this version"

  /**
   * Field `k` of the system details: null when the section is absent or
   * lacks the field.
   */
  function SystemDetail(sys: Dict, k: string): Value {
    match Get(sys, "system_details")
    case Some(Obj(f)) => GetOrNull(f, k)
    case _ => Null
  }

  /**
   * The vendor and the model read from the system details, which default to
   * an empty dictionary: a present section that is not an object has no
   * `.get`.
   */
  function VendorAndModel(sys: Dict): (r: Result<(Value, Value), string>)
    ensures r.Success? <==> DetailsShaped(sys)
    ensures r.Success? ==> r.value == (SystemDetail(sys, "vendor"), SystemDetail(sys, "model"))
    ensures Get(sys, "system_details").None? ==> r == Success((Null, Null))
  {
    match Get(sys, "system_details")
    case None => Success((Null, Null))
    case Some(Obj(f)) => Success((GetOrNull(f, "vendor"), GetOrNull(f, "model")))
    case Some(_) => Failure("AttributeError: system_details has no attribute 'get'")
  }

  /**
   * The serial of each listed storage device, in list order, with "N/A" for
   * a device that has none; an absent device list counts as empty.
   */
  function Serials(d: Dict): (r: Result<seq<Value>, string>)
    ensures r.Success? <==> DevicesShaped(d)
    ensures r.Success? ==> |r.value| == DeviceCount(d)
  {
    match DictItems(Get(d, "storage_devices").GetOr(Arr([])))
    case Failure(e) => Failure(e)
    case Success(devs) => Success(seq(|devs|, i requires 0 <= i < |devs| => Get(devs[i], "serial").GetOr(Str("N/A"))))
  }

  /** The system data `_create_data_dict` can read without raising. */
  predicate WellShaped(sys: Dict) {
    DetailsShaped(sys) && DevicesShaped(sys)
  }

  /** `system_details` is absent or an object. */
  predicate DetailsShaped(sys: Dict) {
    Get(sys, "system_details").None? || Get(sys, "system_details").value.Obj?
  }

  /** `storage_devices` is absent, an empty string or object, or a list of objects. */
  predicate DevicesShaped(sys: Dict) {
    var devices := Get(sys, "storage_devices");
    || devices.None?
    || devices.value == Str("")
    || devices.value == Obj([])
    || (devices.value.Arr? && forall i :: 0 <= i < |devices.value.items| ==> devices.value.items[i].Obj?)
  }

  /** The number of storage devices listed in well-shaped system data. */
  function DeviceCount(sys: Dict): nat {
    match Get(sys, "storage_devices")
    case Some(Arr(items)) => |items|
    case _ => 0
  }

  /**
   * `_create_data_dict`. Operator fields are copied from the user data (an
   * absent key becomes null), vendor and model from the system details, one
   * serial per storage device with "N/A" where a device has none, the method
   * from the wipe report, and the wipe report itself unchanged.
   */
  function CreateDataDict(g: Generator): (r: Result<Record, string>)
    ensures r.Success? <==> WellShaped(g.systemData)
    ensures r.Success? ==> |r.value.media.serialNumbers| == DeviceCount(g.systemData)
    ensures r.Success? ==>
      && r.value.certificateId == g.certificateId
      && r.value.timestampUtc == g.timestamp.iso + "Z"
      && r.value.person == Person(GetOrNull(g.userData, "name"), GetOrNull(g.userData, "organization"),
                                  GetOrNull(g.userData, "title"), GetOrNull(g.userData, "location"),
                                  GetOrNull(g.userData, "phone"))
      && r.value.media == Media(SystemDetail(g.systemData, "vendor"), SystemDetail(g.systemData, "model"),
                                Serials(g.systemData).value, GetOrNull(g.userData, "media_property_number"),
                                GetOrNull(g.userData, "source"), GetOrNull(g.userData, "backup_location"))
      && r.value.sanitization.methodUsed == GetOrNull(g.wipeReport, "method_used")
      && r.value.sanitization.notes == GetOrNull(g.userData, "notes")
      && r.value.destinationDetails == GetOrNull(g.userData, "destination")
      && r.value.wipeProcessReport == g.wipeReport
  {
    var u := g.userData;
    var details :- VendorAndModel(g.systemData);
    var serials :- Serials(g.systemData);
    Success(Record(
      g.certificateId,
      g.timestamp.iso + "Z",
      Person(GetOrNull(u, "name"), GetOrNull(u, "organization"), GetOrNull(u, "title"),
             GetOrNull(u, "location"), GetOrNull(u, "phone")),
      Media(details.0, details.1, serials, GetOrNull(u, "media_property_number"), GetOrNull(u, "source"),
            GetOrNull(u, "backup_location")),
      Sanitization(MethodType, GetOrNull(g.wipeReport, "method_used"), ToolUsed, VerificationMethod,
                   GetOrNull(u, "notes")),
      GetOrNull(u, "destination"),
      g.wipeReport))
  }

  /** Serial `i` is device `i`'s serial, or "N/A" when that device has none. */
  lemma SerialsFollowDevices(g: Generator, i: nat)
    requires CreateDataDict(g).Success?
    requires Get(g.systemData, "storage_devices").Some? && Get(g.systemData, "storage_devices").value.Arr?
    requires i < DeviceCount(g.systemData)
    ensures var dev := Get(g.systemData, "storage_devices").value.items[i];
      dev.Obj? && CreateDataDict(g).value.media.serialNumbers[i] == Get(dev.fields, "serial").GetOr(Str("N/A"))
  {
  }

  /** The method type, tool and verification method do not depend on any input. */
  lemma FixedSanitizationFields(g1: Generator, g2: Generator)
    requires CreateDataDict(g1).Success? && CreateDataDict(g2).Success?
    ensures var s1 := CreateDataDict(g1).value.sanitization; var s2 := CreateDataDict(g2).value.sanitization;
      s1.methodType == s2.methodType == "Purge" && s1.toolUsed == s2.toolUsed && s1.verificationMethod == s2.verificationMethod
  {
  }

  function PersonFields(p: Person): Dict {
    [("name", p.name), ("organization", p.organization), ("title", p.title),
     ("location", p.location), ("phone", p.phone)]
  }

  function MediaFields(m: Media): Dict {
    [("make_vendor", m.makeVendor), ("model_number", m.modelNumber), ("serial_numbers", Arr(m.serialNumbers)),
     ("media_property_number", m.mediaPropertyNumber), ("source", m.source), ("backup_location", m.backupLocation)]
  }

  function SanitizationFields(s: Sanitization): Dict {
    [("method_type", Str(s.methodType)), ("method_used", s.methodUsed), ("tool_used", Str(s.toolUsed)),
     ("verification_method", Str(s.verificationMethod)), ("notes", s.notes)]
  }

  function RecordFields(r: Record): Dict {
    [("certificate_id", Str(r.certificateId)),
     ("certificate_timestamp_utc", Str(r.timestampUtc)),
     ("person_performing_sanitization", Obj(PersonFields(r.person))),
     ("media_information", Obj(MediaFields(r.media))),
     ("sanitization_details", Obj(SanitizationFields(r.sanitization))),
     ("media_destination", Obj([("details", r.destinationDetails)])),
     ("wipe_process_report", Obj(r.wipeProcessReport))]
  }

  /**
   * The record as `json.dump` writes it, keys in the order the dictionary
   * literal gives them; reading it back gives the record, wipe report
   * included.
   */
  function ToJson(r: Record): (v: Value)
    ensures ReadRecord(v) == Some(r)
  {
    RecordFieldsRoundTrip(r);
    Obj(RecordFields(r))
  }

  /** A reader for certificate JSON: the record back, when every field has its expected kind. */
  function ReadRecord(v: Value): Option<Record> {
    if v.Obj? then ReadRecordFields(v.fields) else None
  }

  function ReadRecordFields(f: Dict): Option<Record> {
    var id := Get(f, "certificate_id");
    var ts := Get(f, "certificate_timestamp_utc");
    var p := Get(f, "person_performing_sanitization");
    var m := Get(f, "media_information");
    var s := Get(f, "sanitization_details");
    var dest := Get(f, "media_destination");
    var rep := Get(f, "wipe_process_report");
    if && id.Some? && id.value.Str? && ts.Some? && ts.value.Str?
       && p.Some? && p.value.Obj? && m.Some? && m.value.Obj? && s.Some? && s.value.Obj?
       && dest.Some? && dest.value.Obj? && rep.Some? && rep.value.Obj? then
      var person := ReadPerson(p.value.fields);
      var media := ReadMedia(m.value.fields);
      var san := ReadSanitization(s.value.fields);
      var details := Get(dest.value.fields, "details");
      if person.Some? && media.Some? && san.Some? && details.Some? then
        Some(Record(id.value.s, ts.value.s, person.value, media.value, san.value, details.value, rep.value.fields))
      else None
    else None
  }

  function ReadPerson(f: Dict): Option<Person> {
    var a := Get(f, "name");
    var b := Get(f, "organization");
    var c := Get(f, "title");
    var d := Get(f, "location");
    var e := Get(f, "phone");
    if a.Some? && b.Some? && c.Some? && d.Some? && e.Some? then Some(Person(a.value, b.value, c.value, d.value, e.value))
    else None
  }

  function ReadMedia(f: Dict): Option<Media> {
    var a := Get(f, "make_vendor");
    var b := Get(f, "model_number");
    var c := Get(f, "serial_numbers");
    var d := Get(f, "media_property_number");
    var e := Get(f, "source");
    var g := Get(f, "backup_location");
    if a.Some? && b.Some? && c.Some? && c.value.Arr? && d.Some? && e.Some? && g.Some? then
      Some(Media(a.value, b.value, c.value.items, d.value, e.value, g.value))
    else None
  }

  function ReadSanitization(f: Dict): Option<Sanitization> {
    var a := Get(f, "method_type");
    var b := Get(f, "method_used");
    var c := Get(f, "tool_used");
    var d := Get(f, "verification_method");
    var e := Get(f, "notes");
    if a.Some? && a.value.Str? && b.Some? && c.Some? && c.value.Str? && d.Some? && d.value.Str? && e.Some? then
      Some(Sanitization(a.value.s, b.value, c.value.s, d.value.s, e.value))
    else None
  }

  /** The readers depend only on the lookups of their keys. */
  lemma ReadPersonOf(f: Dict, p: Person)
    requires Get(f, "name") == Some(p.name) && Get(f, "organization") == Some(p.organization)
    requires Get(f, "title") == Some(p.title) && Get(f, "location") == Some(p.location)
    requires Get(f, "phone") == Some(p.phone)
    ensures ReadPerson(f) == Some(p)
  {
  }

  lemma ReadMediaOf(f: Dict, m: Media)
    requires Get(f, "make_vendor") == Some(m.makeVendor) && Get(f, "model_number") == Some(m.modelNumber)
    requires Get(f, "serial_numbers") == Some(Arr(m.serialNumbers))
    requires Get(f, "media_property_number") == Some(m.mediaPropertyNumber)
    requires Get(f, "source") == Some(m.source) && Get(f, "backup_location") == Some(m.backupLocation)
    ensures ReadMedia(f) == Some(m)
  {
  }

  lemma ReadSanitizationOf(f: Dict, s: Sanitization)
    requires Get(f, "method_type") == Some(Str(s.methodType)) && Get(f, "method_used") == Some(s.methodUsed)
    requires Get(f, "tool_used") == Some(Str(s.toolUsed))
    requires Get(f, "verification_method") == Some(Str(s.verificationMethod))
    requires Get(f, "notes") == Some(s.notes)
    ensures ReadSanitization(f) == Some(s)
  {
  }

  lemma ReadRecordOf(f: Dict, r: Record)
    requires Get(f, "certificate_id") == Some(Str(r.certificateId))
    requires Get(f, "certificate_timestamp_utc") == Some(Str(r.timestampUtc))
    requires Get(f, "person_performing_sanitization") == Some(Obj(PersonFields(r.person)))
    requires Get(f, "media_information") == Some(Obj(MediaFields(r.media)))
    requires Get(f, "sanitization_details") == Some(Obj(SanitizationFields(r.sanitization)))
    requires Get(f, "media_destination") == Some(Obj([("details", r.destinationDetails)]))
    requires Get(f, "wipe_process_report") == Some(Obj(r.wipeProcessReport))
    requires Get([("details", r.destinationDetails)], "details") == Some(r.destinationDetails)
    requires ReadPerson(PersonFields(r.person)) == Some(r.person)
    requires ReadMedia(MediaFields(r.media)) == Some(r.media)
    requires ReadSanitization(SanitizationFields(r.sanitization)) == Some(r.sanitization)
    ensures ReadRecordFields(f) == Some(r)
  {
  }

  lemma PersonRoundTrip(p: Person)
    ensures ReadPerson(PersonFields(p)) == Some(p)
  {
    var f := PersonFields(p);
    assert UniqueKeys(f);
    UniqueGet(f, 0);
    UniqueGet(f, 1);
    UniqueGet(f, 2);
    UniqueGet(f, 3);
    UniqueGet(f, 4);
    ReadPersonOf(f, p);
  }

  lemma MediaRoundTrip(m: Media)
    ensures ReadMedia(MediaFields(m)) == Some(m)
  {
    var f := MediaFields(m);
    assert UniqueKeys(f);
    UniqueGet(f, 0);
    UniqueGet(f, 1);
    UniqueGet(f, 2);
    UniqueGet(f, 3);
    UniqueGet(f, 4);
    UniqueGet(f, 5);
    ReadMediaOf(f, m);
  }

  lemma SanitizationRoundTrip(s: Sanitization)
    ensures ReadSanitization(SanitizationFields(s)) == Some(s)
  {
    var f := SanitizationFields(s);
    assert UniqueKeys(f);
    UniqueGet(f, 0);
    UniqueGet(f, 1);
    UniqueGet(f, 2);
    UniqueGet(f, 3);
    UniqueGet(f, 4);
    ReadSanitizationOf(f, s);
  }

  /** Reading the record's fields back gives the record. */
  lemma RecordFieldsRoundTrip(r: Record)
    ensures ReadRecordFields(RecordFields(r)) == Some(r)
  {
    var f := RecordFields(r);
    assert UniqueKeys(f);
    UniqueGet(f, 0);
    UniqueGet(f, 1);
    UniqueGet(f, 2);
    UniqueGet(f, 3);
    UniqueGet(f, 4);
    UniqueGet(f, 5);
    UniqueGet(f, 6);
    UniqueGet([("details", r.destinationDetails)], 0);
    PersonRoundTrip(r.person);
    MediaRoundTrip(r.media);
    SanitizationRoundTrip(r.sanitization);
    ReadRecordOf(f, r);
  }

  function JsonFileName(g: Generator): string { g.certificateId + ".json" }
  function PdfFileName(g: Generator): string { g.certificateId + ".pdf" }

  /** Distinct certificate ids never share a file, and the two files of one id differ. */
  lemma FileNamesDistinct(g1: Generator, g2: Generator)
    ensures JsonFileName(g1) != PdfFileName(g2)
    ensures JsonFileName(g1) == JsonFileName(g2) ==> g1.certificateId == g2.certificateId
    ensures PdfFileName(g1) == PdfFileName(g2) ==> g1.certificateId == g2.certificateId
  {
    var n1 := JsonFileName(g1);
    var n2 := PdfFileName(g2);
    assert n1[|n1| - 4] == 'j' && n2[|n2| - 4] == '.';
    if JsonFileName(g1) == JsonFileName(g2) {
      assert g1.certificateId == JsonFileName(g1)[..|JsonFileName(g1)| - 5];
    }
    if PdfFileName(g1) == PdfFileName(g2) {
      assert g1.certificateId == PdfFileName(g1)[..|PdfFileName(g1)| - 4];
    }
  }

  datatype Artifact = JsonDoc(content: Value) | PdfDoc(record: Record)

  /** What `generate_all` leaves behind: the files written, in order, and any escaped exception. */
  datatype Written = Written(files: seq<(string, Artifact)>, error: Option<string>)

  /**
   * What drawing the PDF needs beyond the record: the serials joined with
   * ", " must all be strings, and the wipe report is indexed for its start,
   * end and status without a default.
   */
  predicate Drawable(r: Record) {
    && (forall i :: 0 <= i < |r.media.serialNumbers| ==> r.media.serialNumbers[i].Str?)
    && Get(r.wipeProcessReport, "start_time_utc").Some?
    && Get(r.wipeProcessReport, "end_time_utc").Some?
    && Get(r.wipeProcessReport, "status").Some?
  }

  /**
   * `generate_all`: the JSON file, then the PDF file, each from its own call
   * of `_create_data_dict`. The drawing itself is not modelled, only the
   * lookups that can make it raise.
   */
  function GenerateAll(g: Generator): (w: Written)
    ensures |w.files| <= 2
    ensures w.error.None? <==> |w.files| == 2
    ensures |w.files| > 0 <==> WellShaped(g.systemData)
    ensures |w.files| == 2 <==> WellShaped(g.systemData) && Drawable(CreateDataDict(g).value)
    ensures |w.files| > 0 ==> w.files[0] == (JsonFileName(g), JsonDoc(ToJson(CreateDataDict(g).value)))
    ensures |w.files| == 2 ==> w.files[1] == (PdfFileName(g), PdfDoc(CreateDataDict(g).value))
  {
    match CreateDataDict(g)
    case Failure(e) => Written([], Some(e))
    case Success(jsonRecord) =>
      var jsonFile := (JsonFileName(g), JsonDoc(ToJson(jsonRecord)));
      match CreateDataDict(g)
      case Failure(e) => Written([jsonFile], Some(e))
      case Success(pdfRecord) =>
        if !(forall i :: 0 <= i < |pdfRecord.media.serialNumbers| ==> pdfRecord.media.serialNumbers[i].Str?) then
          Written([jsonFile], Some("TypeError: sequence item: expected str instance"))
        else if !Drawable(pdfRecord) then
          Written([jsonFile], Some("KeyError: wipe report field"))
        else Written([jsonFile, (PdfFileName(g), PdfDoc(pdfRecord))], None)
  }

  /** A report built by the batch job has every wipe-report field the PDF reads. */
  lemma JobReportIsDrawable(rep: Report)
    ensures Get(ReportDict(rep), "start_time_utc") == Some(Str(rep.startTimeUtc))
    ensures Get(ReportDict(rep), "end_time_utc") == Some(Str(rep.endTimeUtc))
    ensures Get(ReportDict(rep), "status") == Some(Str(rep.status))
  {
    ReportDictUnique(rep);
    UniqueGet(ReportDict(rep), 2);
    UniqueGet(ReportDict(rep), 4);
    UniqueGet(ReportDict(rep), 5);
  }

  /**
   * Given the batch job's own report, `generate_all` writes both files
   * whenever the system data is well shaped and every serial is a string.
   */
  lemma JobReportWritesBoth(g: Generator, rep: Report)
    requires g.wipeReport == ReportDict(rep) && WellShaped(g.systemData)
    requires forall i :: 0 <= i < |CreateDataDict(g).value.media.serialNumbers| ==>
      CreateDataDict(g).value.media.serialNumbers[i].Str?
    ensures |GenerateAll(g).files| == 2 && GenerateAll(g).error.None?
  {
    JobReportIsDrawable(rep);
  }

  /**
   * The two files always describe one certificate: reading the JSON file
   * back gives exactly the record the PDF was drawn from, timestamp
   * included, because the timestamp was fixed at construction.
   */
  lemma GenerateAllConsistent(g: Generator)
    requires |GenerateAll(g).files| == 2
    ensures var fs := GenerateAll(g).files;
      fs[0].0 == JsonFileName(g) && fs[1].0 == PdfFileName(g) &&
      fs[0].1.JsonDoc? && fs[1].1.PdfDoc? &&
      ReadRecord(fs[0].1.content) == Some(fs[1].1.record) &&
      fs[1].1.record.timestampUtc == g.timestamp.iso + "Z"
  {
  }
}
