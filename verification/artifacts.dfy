/**
 * The report artifact pipeline of wipe_certificates/main.py (`richa`): make
 * sure a signing identity exists, save the report data as JSON, render the
 * unsigned PDF, have it signed, and tidy up. The file system is a map from
 * path to an abstract file; key generation and signing are oracles whose
 * outcome is an input.
 */
module Artifacts {
  import opened Wrappers
  import opened Json
  import opened PdfReport
  import Certificate

  datatype File =
    | Identity                   // the PKCS#12 file `create_p12` writes
    | JsonFile(content: Dict)
    | UnsignedPdf(doc: Document)
    | SignedPdf(doc: Document)
    | Partial                    // what a signer that failed after opening its output leaves

  type FileSystem = map<string, File>

  /** `P12_FILE` and `P12_PASSWORD` as read from the environment. */
  datatype Config = Config(p12File: string, p12Password: string)

  /**
   * How `sign_pdf` ended. It returns the output path on success and `None`
   * after any exception; an exception raised once the output file has been
   * opened for writing leaves that file behind.
   */
  datatype SignOutcome = SignOk | SignFailedNoOutput | SignFailedAfterOpen

  datatype Action =
    | CreateIdentity(path: string)
    | KeepIdentity(path: string)
    | WriteJson(path: string)
    | WritePdf(path: string)
    | Sign(input: string, output: string)
    | Delete(path: string)
    | Announce(path: string)

  /**
   * The file system and actions after a run, any escaped exception, and the
   * caller's dictionary, which the run changes in place.
   */
  datatype Outcome = Outcome(fs: FileSystem, actions: seq<Action>, error: Option<string>, callerData: Dict)

  function JsonPath(uuid: string): string { "json_reports/sanitization_report_" + uuid + ".json" }
  function UnsignedPath(uuid: string): string { "pdf_reports/unsigned_report_" + uuid + ".pdf" }
  function SignedPath(uuid: string): string { "pdf_reports/sanitization_report_" + uuid + ".pdf" }

  /** The three report paths of one uuid never coincide. */
  lemma PathsDistinct(uuid: string)
    ensures JsonPath(uuid) != UnsignedPath(uuid)
    ensures JsonPath(uuid) != SignedPath(uuid)
    ensures UnsignedPath(uuid) != SignedPath(uuid)
  {
    assert JsonPath(uuid)[0] == 'j' && UnsignedPath(uuid)[0] == 'p' && SignedPath(uuid)[0] == 'p';
    assert UnsignedPath(uuid)[12] == 'u' && SignedPath(uuid)[12] == 's';
  }

  /** The paths one run may write or delete. */
  predicate Touched(cfg: Config, uuid: string, p: string) {
    p == cfg.p12File || p == JsonPath(uuid) || p == UnsignedPath(uuid) || p == SignedPath(uuid)
  }

  /** Path `p` holds the same file, or no file, in both file systems. */
  predicate Agrees(a: FileSystem, b: FileSystem, p: string) {
    (p in a <==> p in b) && (p in b ==> a[p] == b[p])
  }

  /** Step 0: create the identity file unless a file is already at its path. */
  function EnsureIdentity(cfg: Config, fs: FileSystem): (r: (FileSystem, Action))
    ensures cfg.p12File in r.0
    ensures cfg.p12File in fs ==> r == (fs, KeepIdentity(cfg.p12File))
    ensures cfg.p12File !in fs ==> r == (fs[cfg.p12File := Identity], CreateIdentity(cfg.p12File))
  {
    if cfg.p12File in fs then (fs, KeepIdentity(cfg.p12File))
    else (fs[cfg.p12File := Identity], CreateIdentity(cfg.p12File))
  }

  /** What `sign_pdf` leaves at the output path. */
  function AfterSigning(fs: FileSystem, output: string, doc: Document, sign: SignOutcome): FileSystem {
    match sign
    case SignOk => fs[output := SignedPdf(doc)]
    case SignFailedNoOutput => fs
    case SignFailedAfterOpen => fs[output := Partial]
  }

  /**
   * Everything after the PDF is rendered: write it, sign it, delete the
   * unsigned copy by the deletion rule, announce. As written the rule is
   * "a file exists at the signed path" (`checked` false); the corrected
   * rule is "the signer returned the signed path".
   */
  function Publish(fs: FileSystem, uuid: string, doc: Document, sign: SignOutcome, checked: bool): (r: (FileSystem, seq<Action>))
    ensures |r.1| >= 3 && r.1[0] == WritePdf(UnsignedPath(uuid)) && r.1[1] == Sign(UnsignedPath(uuid), SignedPath(uuid))
    ensures r.1[|r.1| - 1] == Announce(SignedPath(uuid))
    ensures forall p :: p != UnsignedPath(uuid) && p != SignedPath(uuid) ==> Agrees(r.0, fs, p)
  {
    var fs1 := fs[UnsignedPath(uuid) := UnsignedPdf(doc)];
    var fs2 := AfterSigning(fs1, SignedPath(uuid), doc, sign);
    var delete := if checked then sign == SignOk else SignedPath(uuid) in fs2;
    (if delete then fs2 - {UnsignedPath(uuid)} else fs2,
     [WritePdf(UnsignedPath(uuid)), Sign(UnsignedPath(uuid), SignedPath(uuid))]
       + (if delete then [Delete(UnsignedPath(uuid))] else []) + [Announce(SignedPath(uuid))])
  }

  /** The identity step and the JSON write, which happen before any rendering. */
  function Saved(cfg: Config, fs: FileSystem, data: Dict, uuid: string): (r: FileSystem)
    ensures JsonPath(uuid) in r && r[JsonPath(uuid)] == JsonFile(Put(data, "report_uuid", Str(uuid)))
    ensures cfg.p12File in r
    ensures cfg.p12File != JsonPath(uuid) ==> r[cfg.p12File] == if cfg.p12File in fs then fs[cfg.p12File] else Identity
    ensures forall p :: p != cfg.p12File && p != JsonPath(uuid) ==> Agrees(r, fs, p)
  {
    EnsureIdentity(cfg, fs).0[JsonPath(uuid) := JsonFile(Put(data, "report_uuid", Str(uuid)))]
  }

  /**
   * `richa` with the outcome of `generate_pdf` and the deletion rule as
   * parameters. Rendering fails only after the JSON file is written, and
   * that error propagates.
   */
  function Pipeline(cfg: Config, fs: FileSystem, data: Dict, uuid: string, rendered: Result<Document, string>,
                    sign: SignOutcome, checked: bool): (o: Outcome)
    ensures |o.actions| >= 2
    ensures o.actions[0] == EnsureIdentity(cfg, fs).1 && o.actions[1] == WriteJson(JsonPath(uuid))
    ensures o.error.None? <==> rendered.Success?
    ensures o.callerData == Put(data, "report_uuid", Str(uuid))
    ensures rendered.Failure? ==> o.fs == Saved(cfg, fs, data, uuid)
    ensures rendered.Success? ==>
      && o.fs == Publish(Saved(cfg, fs, data, uuid), uuid, rendered.value, sign, checked).0
      && |o.actions| >= 5
      && o.actions[2] == WritePdf(UnsignedPath(uuid))
      && o.actions[3] == Sign(UnsignedPath(uuid), SignedPath(uuid))
      && o.actions[|o.actions| - 1] == Announce(SignedPath(uuid))
  {
    var written := [EnsureIdentity(cfg, fs).1, WriteJson(JsonPath(uuid))];
    match rendered
    case Failure(e) => Outcome(Saved(cfg, fs, data, uuid), written, Some(e), Put(data, "report_uuid", Str(uuid)))
    case Success(doc) =>
      var (fs1, tail) := Publish(Saved(cfg, fs, data, uuid), uuid, doc, sign, checked);
      Outcome(fs1, written + tail, None, Put(data, "report_uuid", Str(uuid)))
  }

  /** `generate_pdf` applied to the data once it carries the uuid. */
  function RenderWithUuid(data: Dict, uuid: string): Result<Document, string> {
    Render(Put(data, "report_uuid", Str(uuid)))
  }

  /** A rendered report shows the uuid as its report id. */
  lemma RenderShowsUuid(data: Dict, uuid: string)
    ensures RenderWithUuid(data, uuid).Success? ==> RenderWithUuid(data, uuid).value.reportId == Str(uuid)
  {
    PutThenGet(data, "report_uuid", Str(uuid));
  }

  /**
   * `richa(data, report_uuid)` as written: the JSON is written second,
   * before any rendering; the run raises exactly when the report does not
   * render, and otherwise always ends by announcing the signed path.
   */
  function Richa(cfg: Config, fs: FileSystem, data: Dict, uuid: string, sign: SignOutcome): (o: Outcome)
    ensures |o.actions| >= 2 && o.actions[1] == WriteJson(JsonPath(uuid)) && JsonPath(uuid) in o.fs
    ensures o.error.None? <==> RenderWithUuid(data, uuid).Success?
    ensures o.error.None? ==> o.actions[|o.actions| - 1] == Announce(SignedPath(uuid))
  {
    var rendered := RenderWithUuid(data, uuid);
    JsonSurvives(cfg, fs, data, uuid, rendered, sign, false);
    Pipeline(cfg, fs, data, uuid, rendered, sign, false)
  }

  /**
   * `richa` deleting the unsigned PDF only when `sign_pdf` returned the
   * signed path: after a rendered report the unsigned PDF is kept exactly
   * when signing failed.
   */
  function RichaChecked(cfg: Config, fs: FileSystem, data: Dict, uuid: string, sign: SignOutcome): (o: Outcome)
    ensures |o.actions| >= 2 && o.actions[1] == WriteJson(JsonPath(uuid)) && JsonPath(uuid) in o.fs
    ensures o.error.None? <==> RenderWithUuid(data, uuid).Success?
    ensures o.error.None? ==> (UnsignedPath(uuid) in o.fs <==> sign != SignOk)
  {
    var rendered := RenderWithUuid(data, uuid);
    JsonSurvives(cfg, fs, data, uuid, rendered, sign, true);
    if rendered.Success? then
      PublishCheckedKeepsUnsigned(Saved(cfg, fs, data, uuid), uuid, rendered.value, sign);
      Pipeline(cfg, fs, data, uuid, rendered, sign, true)
    else
      Pipeline(cfg, fs, data, uuid, rendered, sign, true)
  }

  /**
   * `richa` sets `report_uuid` in the caller's own dictionary before anything
   * can raise: afterwards that dictionary carries the uuid, keeps every other
   * key, and equals what the JSON file holds.
   */
  lemma RichaUpdatesCallerData(cfg: Config, fs: FileSystem, data: Dict, uuid: string, sign: SignOutcome, k: string)
    ensures var o := Richa(cfg, fs, data, uuid, sign);
      && Get(o.callerData, "report_uuid") == Some(Str(uuid))
      && (k != "report_uuid" ==> Get(o.callerData, k) == Get(data, k))
      && o.fs[JsonPath(uuid)] == JsonFile(o.callerData)
  {
    JsonSurvives(cfg, fs, data, uuid, RenderWithUuid(data, uuid), sign, false);
    PutThenGet(data, "report_uuid", Str(uuid));
    if k != "report_uuid" {
      PutKeepsOthers(data, "report_uuid", Str(uuid), k);
    }
  }

  /**
   * Whether `richa` raises depends only on the caller's data: the report
   * renders exactly when each of the five sections is an object with at
   * least one key.
   */
  lemma RichaRendersIffSectionsPresent(cfg: Config, fs: FileSystem, data: Dict, uuid: string, sign: SignOutcome)
    ensures Richa(cfg, fs, data, uuid, sign).error.None? <==>
      forall i :: 0 <= i < |SectionKeys| ==> NonEmptySection(data, SectionKeys[i])
  {
    var tagged := Put(data, "report_uuid", Str(uuid));
    forall i | 0 <= i < |SectionKeys|
      ensures NonEmptySection(tagged, SectionKeys[i]) == NonEmptySection(data, SectionKeys[i])
    {
      UuidLeavesSection(data, uuid, i);
    }
  }

  /** Setting `report_uuid` leaves every section lookup as it was. */
  lemma UuidLeavesSection(data: Dict, uuid: string, i: nat)
    requires i < |SectionKeys|
    ensures Get(Put(data, "report_uuid", Str(uuid)), SectionKeys[i]) == Get(data, SectionKeys[i])
  {
    var k := SectionKeys[i];
    assert |k| != |"report_uuid"|;
    PutKeepsOthers(data, "report_uuid", Str(uuid), k);
  }

  /**
   * Given a certificate record of certificate.py, `richa` writes the
   * identity and the JSON file and then raises: no PDF is written, signed
   * or deleted.
   */
  lemma CertificateStopsAfterJson(cfg: Config, fs: FileSystem, rec: Certificate.Record, uuid: string, sign: SignOutcome)
    ensures var o := Richa(cfg, fs, Certificate.RecordFields(rec), uuid, sign);
      && o.error.Some?
      && o.actions == [EnsureIdentity(cfg, fs).1, WriteJson(JsonPath(uuid))]
      && o.fs == Saved(cfg, fs, Certificate.RecordFields(rec), uuid)
  {
    var f := Certificate.RecordFields(rec);
    RecordLacksSections(rec);
    RichaRendersIffSectionsPresent(cfg, fs, f, uuid, sign);
    assert !NonEmptySection(f, SectionKeys[0]);
  }

  /** A run writes or deletes nothing outside its own four paths. */
  lemma PipelineFrame(cfg: Config, fs: FileSystem, data: Dict, uuid: string, rendered: Result<Document, string>,
                      sign: SignOutcome, checked: bool, p: string)
    requires !Touched(cfg, uuid, p)
    ensures Agrees(Pipeline(cfg, fs, data, uuid, rendered, sign, checked).fs, fs, p)
  {
    var saved := Saved(cfg, fs, data, uuid);
    assert Agrees(saved, fs, p);
    if rendered.Success? {
      assert Agrees(Publish(saved, uuid, rendered.value, sign, checked).0, saved, p);
    }
  }

  /**
   * The identity file is created when absent and never regenerated when
   * present.
   */
  lemma IdentityCreateIfAbsent(cfg: Config, fs: FileSystem, data: Dict, uuid: string, rendered: Result<Document, string>,
                               sign: SignOutcome, checked: bool)
    requires cfg.p12File != JsonPath(uuid) && cfg.p12File != UnsignedPath(uuid) && cfg.p12File != SignedPath(uuid)
    ensures var o := Pipeline(cfg, fs, data, uuid, rendered, sign, checked);
      && cfg.p12File in o.fs
      && (cfg.p12File in fs ==> o.fs[cfg.p12File] == fs[cfg.p12File] && o.actions[0] == KeepIdentity(cfg.p12File))
      && (cfg.p12File !in fs ==> o.fs[cfg.p12File] == Identity && o.actions[0] == CreateIdentity(cfg.p12File))
  {
    if rendered.Success? {
      assert Agrees(Publish(Saved(cfg, fs, data, uuid), uuid, rendered.value, sign, checked).0, Saved(cfg, fs, data, uuid), cfg.p12File);
    }
  }

  /** The JSON file a run writes is still there, unchanged, when the run ends. */
  lemma JsonSurvives(cfg: Config, fs: FileSystem, data: Dict, uuid: string, rendered: Result<Document, string>,
                     sign: SignOutcome, checked: bool)
    ensures var o := Pipeline(cfg, fs, data, uuid, rendered, sign, checked);
      JsonPath(uuid) in o.fs && o.fs[JsonPath(uuid)] == JsonFile(Put(data, "report_uuid", Str(uuid)))
  {
    PathsDistinct(uuid);
    if rendered.Success? {
      assert Agrees(Publish(Saved(cfg, fs, data, uuid), uuid, rendered.value, sign, checked).0, Saved(cfg, fs, data, uuid), JsonPath(uuid));
    }
  }

  /**
   * The JSON file holds the caller's data with `report_uuid` set to the
   * uuid and every other key as it was, whatever happens after it is written.
   */
  lemma JsonCarriesUuid(cfg: Config, fs: FileSystem, data: Dict, uuid: string, rendered: Result<Document, string>,
                        sign: SignOutcome, checked: bool, k: string)
    requires k != "report_uuid"
    ensures var o := Pipeline(cfg, fs, data, uuid, rendered, sign, checked);
      && JsonPath(uuid) in o.fs
      && o.fs[JsonPath(uuid)].JsonFile?
      && Get(o.fs[JsonPath(uuid)].content, "report_uuid") == Some(Str(uuid))
      && Get(o.fs[JsonPath(uuid)].content, k) == Get(data, k)
  {
    JsonSurvives(cfg, fs, data, uuid, rendered, sign, checked);
    PutThenGet(data, "report_uuid", Str(uuid));
    PutKeepsOthers(data, "report_uuid", Str(uuid), k);
  }

  /** A second run with the same uuid writes its JSON over the first run's, at the same path. */
  lemma RerunOverwritesJson(cfg: Config, fs: FileSystem, data1: Dict, data2: Dict, uuid: string,
                            rendered1: Result<Document, string>, rendered2: Result<Document, string>,
                            sign1: SignOutcome, sign2: SignOutcome, checked: bool)
    ensures var first := Pipeline(cfg, fs, data1, uuid, rendered1, sign1, checked);
      var second := Pipeline(cfg, first.fs, data2, uuid, rendered2, sign2, checked);
      && JsonPath(uuid) in first.fs && JsonPath(uuid) in second.fs
      && second.fs[JsonPath(uuid)] == JsonFile(Put(data2, "report_uuid", Str(uuid)))
  {
    var first := Pipeline(cfg, fs, data1, uuid, rendered1, sign1, checked);
    JsonSurvives(cfg, fs, data1, uuid, rendered1, sign1, checked);
    JsonSurvives(cfg, first.fs, data2, uuid, rendered2, sign2, checked);
  }

  /** As written: the unsigned PDF is gone exactly when some file sits at the signed path. */
  lemma PublishDeletesIffSignedPathExists(fs: FileSystem, uuid: string, doc: Document, sign: SignOutcome)
    ensures var r := Publish(fs, uuid, doc, sign, false).0;
      UnsignedPath(uuid) in r <==> SignedPath(uuid) !in r
  {
    PathsDistinct(uuid);
  }

  /**
   * As written: after a rendered report the unsigned PDF is gone exactly
   * when some file sits at the signed path, and the success message is
   * announced whatever the signer did.
   */
  lemma DeletedIffSignedPathExists(cfg: Config, fs: FileSystem, data: Dict, uuid: string, sign: SignOutcome)
    requires RenderWithUuid(data, uuid).Success?
    ensures var o := Richa(cfg, fs, data, uuid, sign);
      && (UnsignedPath(uuid) in o.fs <==> SignedPath(uuid) !in o.fs)
      && o.error.None? && o.actions[|o.actions| - 1] == Announce(SignedPath(uuid))
  {
    PublishDeletesIffSignedPathExists(Saved(cfg, fs, data, uuid), uuid, RenderWithUuid(data, uuid).value, sign);
  }

  /**
   * As written, a signer that fails without output, with no signed file
   * already at the path, leaves the unsigned PDF and the JSON in place and
   * still ends without an error.
   */
  lemma FreshFailedSignKeepsFiles(cfg: Config, fs: FileSystem, data: Dict, uuid: string)
    requires RenderWithUuid(data, uuid).Success?
    requires SignedPath(uuid) !in fs && SignedPath(uuid) != cfg.p12File
    ensures var o := Richa(cfg, fs, data, uuid, SignFailedNoOutput);
      && UnsignedPath(uuid) in o.fs && SignedPath(uuid) !in o.fs && JsonPath(uuid) in o.fs
      && o.error.None? && o.actions[|o.actions| - 1] == Announce(SignedPath(uuid))
  {
    PathsDistinct(uuid);
    var saved := Saved(cfg, fs, data, uuid);
    assert Agrees(saved, fs, SignedPath(uuid));
    JsonSurvives(cfg, fs, data, uuid, RenderWithUuid(data, uuid), SignFailedNoOutput, false);
  }

  /**
   * As written, a signer failure does not protect the unsigned PDF: a
   * signed file already at the path (left by an earlier run with the same
   * uuid), or the partial output of the failed signer, gets the only good
   * copy deleted.
   */
  lemma PublishFailedSignDeletes(fs: FileSystem, uuid: string, doc: Document)
    ensures SignedPath(uuid) in fs ==>
      var r := Publish(fs, uuid, doc, SignFailedNoOutput, false).0;
      UnsignedPath(uuid) !in r && SignedPath(uuid) in r && r[SignedPath(uuid)] == fs[SignedPath(uuid)]
    ensures var r := Publish(fs, uuid, doc, SignFailedAfterOpen, false).0;
      UnsignedPath(uuid) !in r && SignedPath(uuid) in r && r[SignedPath(uuid)] == Partial
  {
    PathsDistinct(uuid);
  }

  /** The same, for a whole run whose report rendered. */
  lemma FailedSignDeletesUnsigned(cfg: Config, fs: FileSystem, data: Dict, uuid: string)
    requires RenderWithUuid(data, uuid).Success?
    requires SignedPath(uuid) in fs && SignedPath(uuid) != cfg.p12File
    ensures var o := Richa(cfg, fs, data, uuid, SignFailedNoOutput);
      UnsignedPath(uuid) !in o.fs && SignedPath(uuid) in o.fs && o.fs[SignedPath(uuid)] == fs[SignedPath(uuid)]
    ensures var o := Richa(cfg, fs, data, uuid, SignFailedAfterOpen);
      UnsignedPath(uuid) !in o.fs && SignedPath(uuid) in o.fs && o.fs[SignedPath(uuid)] == Partial
  {
    PathsDistinct(uuid);
    var saved := Saved(cfg, fs, data, uuid);
    assert Agrees(saved, fs, SignedPath(uuid));
    PublishFailedSignDeletes(saved, uuid, RenderWithUuid(data, uuid).value);
  }

  /**
   * Corrected: the unsigned PDF survives every signer failure, and on
   * success it is replaced by the signed rendering of the same document.
   */
  lemma PublishCheckedKeepsUnsigned(fs: FileSystem, uuid: string, doc: Document, sign: SignOutcome)
    ensures var r := Publish(fs, uuid, doc, sign, true).0;
      && (sign != SignOk ==> UnsignedPath(uuid) in r && r[UnsignedPath(uuid)] == UnsignedPdf(doc))
      && (sign == SignOk ==> UnsignedPath(uuid) !in r && SignedPath(uuid) in r && r[SignedPath(uuid)] == SignedPdf(doc))
  {
    PathsDistinct(uuid);
  }

  /** The same, for a whole run whose report rendered. */
  lemma CheckedKeepsUnsignedOnFailure(cfg: Config, fs: FileSystem, data: Dict, uuid: string, sign: SignOutcome)
    requires RenderWithUuid(data, uuid).Success?
    ensures var o := RichaChecked(cfg, fs, data, uuid, sign);
      var doc := RenderWithUuid(data, uuid).value;
      && (sign != SignOk ==> UnsignedPath(uuid) in o.fs && o.fs[UnsignedPath(uuid)] == UnsignedPdf(doc))
      && (sign == SignOk ==> UnsignedPath(uuid) !in o.fs && SignedPath(uuid) in o.fs && o.fs[SignedPath(uuid)] == SignedPdf(doc))
  {
    PublishCheckedKeepsUnsigned(Saved(cfg, fs, data, uuid), uuid, RenderWithUuid(data, uuid).value, sign);
  }
}
