# EasyWipe core, modelled in Dafny

EasyWipe is a desktop tool that erases storage devices and issues a
certificate of sanitization. This project models its decision and
data-shaping core as pure Dafny functions and proves properties of them:

- **Device listing and classification** (`DeviceListing`, `Lsblk`). This is
  `DataWiper.get_available_devices` and `_detect_device_type` in main.py.
  `lsblk` rows are kept only when their type is "disk", named "/dev/"+name,
  and classified as NVMe, SATA or Other by name prefix.
- **Per-device wipe cascade** (`DataWiper`). This is `wipe_device`,
  `_wipe_nvme`, `_wipe_traditional`, `_hdparm_secure_erase` and
  `_shred_device` in main.py. Every command outcome is an input. Each call
  returns a trace of the commands issued and the signals emitted.
- **Operator intake check** (`Intake`). This is the required-field test of
  `validate_and_continue` in main.py.
- **Batch wipe job and its report** (`WipeJob`). This is `WipeThread.run`,
  the pass-pattern rule and `_generate_report` in wiping.py.
- **Host inventory** (`SystemInfo`). This is system_info.py: disk filter,
  "/dev/" normalisation, DMI fallback, `get_all_info`.
- **Certificate record and files** (`Certificate`). This is
  `CertificateGenerator` in certificate.py: the record, its JSON form, and
  the two files `generate_all` writes.
- **Report PDF structure** (`PdfReport`). This is
  wipe_certificates/pdf_generator.py: the row labels of `build_table` and the
  fixed section order of `generate_pdf`.
- **Report artifact pipeline** (`Artifacts`). This is `richa` in
  wipe_certificates/main.py. It covers the identity file, the JSON file, the
  unsigned and signed PDFs, and the clean-up step, over a file system
  modelled as a map from path to file.

Python dictionaries are ordered association lists (`Json.Dict`). `d.get(k)`
is the first entry with key `k`, and `d[k] = v` is `Json.Put`. Clocks, uuids,
command results, `/sys` reads, key generation and signing are parameters.

Points of the code's behaviour that the model keeps:

- the NVMe path runs `nvme format … -s 1` and then `shred`; it never runs
  `nvme sanitize`;
- the hdparm step passes the literal user "u" and an empty password, and
  never issues `--security-disable`;
- devices classified Other are not refused; they take the hdparm/shred path;
- `shred` runs after a successful format or secure erase too;
- the batch job ends at the first exception raised while a device is
  handled. A stop request seen when an iteration begins raises, and so do a
  device name that is present but not a string, a failing pass, and a
  failing clean-up of the simulation file. A stop request arriving mid-pass
  only shortens that device's passes, and the device still counts as wiped;
- `generate_pdf` raises unless each of its five sections is an object with
  at least one key. A missing or empty section gives a table of no rows,
  which ReportLab's `Table` rejects with a `ValueError` under the library's
  default setting (`emptyTableAction` is "error"). This comes from ReportLab,
  not from this repository. The certificate JSON that certificate.py writes
  has none of the five section keys, so `richa` raises on it after the JSON
  file is written.

## Model

| member | source | states |
|---|---|---|
| DeviceListing.DetectDeviceType | main.py:79-86 | NVMe exactly for names starting "nvme"; SATA exactly for names starting "sd" and not "nvme"; every other name is Other |
| DeviceListing.ClassificationExamples | main.py:79-86 | "nvme0n1" is NVMe, "sda" is SATA, "vda" and "mmcblk0" are Other |
| Lsblk.DisksMembers | main.py:63-64 | the reference filter keeps every row whose type is "disk" and no other row |
| Lsblk.Rows | main.py:61-63 | the decoded listing must be an object; an absent blockdevices list gives no rows; a list gives one row per element, in order, iff every element is an object |
| Json.DictItems | main.py:63 | iterating a value as dictionaries succeeds iff it is a list of objects, the empty string or the empty object; a list gives its elements in order |
| DeviceListing.DiskEntries | main.py:63-72 | building the list succeeds exactly when every disk row has a string name; a missing or non-string name raises |
| DeviceListing.DiskEntriesFollowDisks | main.py:63-72 | one entry per disk row, in listing order, built from that row |
| DeviceListing.AvailableDevices | main.py:50-77 | a failing `lsblk` or undecodable output gives the empty list; a missing `lsblk` binary escapes; a decoded listing succeeds exactly when its rows are dictionaries and its disk rows are named |
| DeviceListing.AvailableDevicesFollowDisks | main.py:63-72 | entry i is named "/dev/" + the name of disk row i and classified by that name |
| DeviceListing.ListedEntriesAreClassified | main.py:66-70 | every listed entry is "/dev/"+n and carries the classification of n |
| DeviceListing.WipeClassifiesAsListed | main.py:106 | the wipe classifies "/dev/"+name by its base name, the same way the listing classified name |
| DataWiper.ShredDevice | main.py:222-246 | issues exactly `shred -vfz -n 3 P`; succeeds iff shred exits 0; emits progress 100 only on success |
| DataWiper.HdparmSecureErase | main.py:193-220 | "not supported" in the lowered identify output stops after `hdparm -I`; returns true iff erase exits 0 after a completed set-pass, whose exit code is ignored; commands are identify, then set-pass unless identify failed or reported no support, then erase unless set-pass did not complete; a timeout returns false and any other exception escapes |
| DataWiper.WipeTraditional | main.py:173-191 | shred follows every hdparm attempt that returned, so a supported drive gets identify, set-pass, erase and shred in that order, and the result is shred's; an escaped hdparm exception fails without shred; progress is 10, 50 if hdparm succeeded, 100 iff the wipe succeeded |
| DataWiper.WipeNvme | main.py:143-171 | `nvme format P -s 1` then shred whether or not the format exited 0, with shred's result; a format timeout or error fails with no shred; progress 10, 50 on format success, 100 iff success |
| DataWiper.Dispatch | main.py:106-111 | the first command is `nvme format` for NVMe base names and `hdparm -I` for all others; progress never decreases and reaches 100 iff the wipe succeeded |
| DataWiper.WipeDevice | main.py:88-120 | a busy wiper returns false with no trace; a missing path returns false with a "not found" completion and leaves the busy flag set; otherwise the flag is cleared and the last event is the completion with the result |
| DataWiper.WipeDispatchesByType | main.py:106-111 | Other devices are not refused: they reach `hdparm -I`; when the first step returns, the result is shred's and shred is the last command |
| DataWiper.WipeProgressRises | main.py:143-236 | over a whole call, the emitted progress never decreases and contains 100 exactly when the wipe succeeded |
| Intake.MissingAmong | main.py:482-484 | a field is reported missing iff it is required and neither form holds a truthy value for it |
| Intake.ValidateAndContinue | main.py:482-491 | the operator proceeds iff every required field is filled in one of the two forms; otherwise a "Please fill in: " warning |
| WipeJob.GenerateReport | wiping.py:84-96 | status is "Success" iff success; passes_completed is the pass count on success and "N/A" otherwise; the message, method description and start time + "Z" as given; end time + "Z" and duration end − start when an end exists, else "N/A" and 0; targeted lists every device name in order |
| WipeJob.ReportDict | wiping.py:86-96 | the report dictionary has the nine report keys in this order |
| WipeJob.ReportRoundTrip | wiping.py:86-96 | reading the report dictionary back gives the report: no field is lost or altered |
| WipeJob.PassPatternRule | wiping.py:47 | pass 0 writes 0x00 and pass 1 writes 0xFF whatever the random source gives; every later pass writes the random byte |
| WipeJob.FirstFault | wiping.py:32-55 | the first iteration that raises: every earlier one records its device and goes on, and this one does not |
| WipeJob.WipeDevices | wiping.py:31-55 | the loop ends with an error iff some iteration raises; it then carries the first such exception's message, and the wiped list is the names before that iteration, plus its device when only the clean-up raised |
| WipeJob.Run | wiping.py:23-65 | the job succeeds iff no iteration raises; the wiped list is the prefix of targeted names up to the first raising iteration, plus that device when it raised only in clean-up; the stop flag is read only at an iteration's start; a name present but not a string raises; on failure the message names that first exception; start and end times are set and duration is end − start |
| SystemInfo.NormalizeName | system_info.py:33-34 | the result starts with "/dev/"; a name already starting with it is unchanged, any other gets it prepended |
| SystemInfo.NormalizeNameIdempotent | system_info.py:33-34 | normalising twice is normalising once |
| SystemInfo.NormalizeRows | system_info.py:29-36 | succeeds exactly when every disk row has a string name |
| SystemInfo.NormalizeRowsFollowDisks | system_info.py:31-35 | one output row per disk row, in input order, with only its name normalised |
| SystemInfo.NormalizedRow | system_info.py:33-35 | a normalised disk row is still a disk and carries the normalised name |
| SystemInfo.NormalizeRowsIdempotent | system_info.py:31-35 | every output row is a disk named "/dev/…", and normalising the output again returns it unchanged |
| SystemInfo.StorageDevices | system_info.py:11-40 | off Linux the fixed two-device mock list; a failed, missing or non-JSON `lsblk` gives the empty list; otherwise it succeeds iff the listing is an object whose disk rows have string names, and its value is exactly the normalised disk rows |
| SystemInfo.SystemDetails | system_info.py:42-55 | keys vendor and model; off Linux the fixed mock vendor and model; on Linux the stripped file contents, or "N/A" for both when either read failed |
| SystemInfo.AllInfo | system_info.py:62-67 | exactly the keys system_details and storage_devices, in that order, holding the two results |
| Certificate.VendorAndModel | certificate.py:30-31 | succeeds iff system_details is absent or an object; then gives its vendor and model fields, null when absent, and null for both when the section is absent |
| Certificate.Serials | certificate.py:32 | succeeds iff storage_devices is absent or a list of objects, with one serial per device |
| Certificate.CreateDataDict | certificate.py:17-48 | succeeds iff the system data is well shaped; carries the id and the construction timestamp + "Z"; copies the five person fields, the property number, source, backup location, notes and destination from the user data (absent is null); vendor and model from the system details; one serial per device; method_used from the wipe report; embeds the wipe report unchanged |
| Certificate.SerialsFollowDevices | certificate.py:32 | serial i is device i's serial, or "N/A" when it has none |
| Certificate.FixedSanitizationFields | certificate.py:38-41 | method type "Purge", tool and verification method are the same for every input |
| Certificate.ToJson | certificate.py:50-55 | reading the JSON form back gives the record, wipe report included |
| Certificate.FileNamesDistinct | certificate.py:53-61 | the JSON and PDF names never clash, and each name determines the certificate id |
| Certificate.GenerateAll | certificate.py:126-129 | JSON first, then PDF; the JSON is written iff the system data is well shaped, named by the certificate id and holding the JSON form of the record `_create_data_dict` gives; both are written iff the PDF's lookups also succeed, the PDF drawn from that same record; a lone file is the JSON one; an error is left exactly when a file is missing |
| Certificate.GenerateAllConsistent | certificate.py:10-21 | when both files are written, the JSON reads back as the PDF's record, with the timestamp fixed at construction |
| Certificate.JobReportIsDrawable | wiping.py:89-92 | the batch job's report holds start_time_utc, end_time_utc and status as strings, the fields the certificate PDF indexes without a default |
| Certificate.JobReportWritesBoth | certificate.py:112-119 | with the batch job's own report, well-shaped system data and string serials, `generate_all` writes both files and raises nothing |
| PdfReport.LabelPointwise | wipe_certificates/pdf_generator.py:15 | a label has length len(key)+1, ends in ':', has no '_', and character i is ' ' for '_', lowered after a letter, raised otherwise |
| PdfReport.BuildTable | wipe_certificates/pdf_generator.py:13-25 | one row per key in key order, labelled from the key, with the value passed through unchanged |
| PdfReport.SectionRows | wipe_certificates/pdf_generator.py:13-16 | succeeds iff the section is present and an object with at least one key, giving at least one row; a missing or empty section gives a zero-row table, which ReportLab rejects; any other value raises |
| PdfReport.Render | wipe_certificates/pdf_generator.py:27-73 | succeeds iff all five sections are objects with at least one key; title, report id (report_uuid or "N/A"), and the five headed sections in fixed order |
| PdfReport.RowsPerSection | wipe_certificates/pdf_generator.py:47-69 | each table of a rendered document has one row per key of its section, at least one, carrying its values |
| PdfReport.AbsentSectionFails | wipe_certificates/pdf_generator.py:47-69 | data missing any one of the five sections does not render |
| PdfReport.CertificateFailsToRender | wipe_certificates/pdf_generator.py:47-69 | a certificate record, whose keys are snake case, has none of the five sections and does not render |
| Artifacts.PathsDistinct | wipe_certificates/main.py:47-59 | the JSON, unsigned and signed paths of one uuid are pairwise distinct |
| Artifacts.EnsureIdentity | wipe_certificates/main.py:33-38 | an existing identity file is kept as it is; an absent one is created |
| Artifacts.Publish | wipe_certificates/main.py:53-66 | writes the unsigned PDF, signs, announces last; touches no path other than the two PDF paths |
| Artifacts.Saved | wipe_certificates/main.py:33-50 | after the identity step and the JSON write, the JSON path holds the data with report_uuid; only the identity and JSON paths can differ |
| Artifacts.Pipeline | wipe_certificates/main.py:29-66 | the identity step, then the JSON write, then, if rendering succeeded, PDF write, signing and an unconditional announcement; a render failure is the only error and comes after the JSON is written; the caller's dictionary gains report_uuid whatever happens |
| Artifacts.PipelineFrame | wipe_certificates/main.py:29-66 | no path outside the identity, JSON and two PDF paths is created, changed or removed |
| Artifacts.IdentityCreateIfAbsent | wipe_certificates/main.py:33-38 | the identity file exists afterwards; an existing one is never regenerated |
| Artifacts.JsonSurvives | wipe_certificates/main.py:47-50 | the JSON file written is still there, unchanged, when the run ends |
| Artifacts.JsonCarriesUuid | wipe_certificates/main.py:45-50 | the JSON holds report_uuid equal to the argument and every other key as given |
| Artifacts.RerunOverwritesJson | wipe_certificates/main.py:47-49 | a second run with the same uuid overwrites the first run's JSON at the same path |
| Artifacts.RenderShowsUuid | wipe_certificates/main.py:45-55 | the rendered report shows the uuid as its report id |
| Artifacts.Richa | wipe_certificates/main.py:29-66 | as written: the JSON write is the second action and the file is there at the end; the run raises iff the report does not render, and otherwise ends by announcing the signed path |
| Artifacts.RichaChecked | wipe_certificates/main.py:29-66 | with the corrected deletion rule: the same JSON and error behaviour, and after a rendered report the unsigned PDF is kept iff signing failed |
| Artifacts.RichaUpdatesCallerData | wipe_certificates/main.py:45-49 | after `richa`, raising or not, the caller's dictionary holds report_uuid = the uuid, keeps every other key, and equals the JSON file's content |
| Artifacts.RichaRendersIffSectionsPresent | wipe_certificates/main.py:45-55 | `richa` raises iff some section of the caller's data is missing, empty or not an object; setting report_uuid does not affect this |
| Artifacts.CertificateStopsAfterJson | wipe_certificates/main.py:33-55 | given a certificate record, `richa` makes sure of the identity, writes the JSON and raises; no PDF is written, signed or deleted |
| Artifacts.PublishDeletesIffSignedPathExists | wipe_certificates/main.py:62-64 | as written, the unsigned PDF is gone exactly when a file is at the signed path |
| Artifacts.DeletedIffSignedPathExists | wipe_certificates/main.py:60-66 | as written, a rendered run deletes the unsigned PDF iff a file is at the signed path, raises nothing and ends with the success message whatever the signer did |
| Artifacts.FreshFailedSignKeepsFiles | wipe_certificates/main.py:60-66 | a signer failing with no output and no earlier signed file leaves the unsigned PDF and the JSON, and the success message still follows |
| Artifacts.PublishFailedSignDeletes | wipe_certificates/main.py:60-64 | as written, a stale signed file or a failed signer's partial output gets the unsigned PDF deleted |
| Artifacts.FailedSignDeletesUnsigned | wipe_certificates/main.py:60-64 | as written, for a whole run: a failed signing still deletes the only good PDF |
| Artifacts.PublishCheckedKeepsUnsigned | wipe_certificates/main.py:60-64 | corrected rule: the unsigned PDF survives every signer failure and is replaced by the signed one on success |
| Artifacts.CheckedKeepsUnsignedOnFailure | wipe_certificates/main.py:60-64 | corrected rule, for a whole run: the same |
| Text.Lower | main.py:202 | same length, each character lowered |
| Text.Strip | system_info.py:50-51 | the result is a substring with only whitespace removed around it, and neither of its ends is whitespace |
| Text.TitleCasePointwise | wipe_certificates/pdf_generator.py:15 | character i is lowered after a letter and raised otherwise |
| Text.BaseNameOfJoin | main.py:106 | the base name of dir + "/" + name is name when name has no '/' |
| Text.BaseName | main.py:106 | the result has no '/', is a suffix of the path, and is all of it or preceded by '/' |
| Text.NatToStringRoundTrip | wiping.py:94 | the decimal rendering of the pass count reads back as the pass count |
| Json.GetFound | certificate.py:23-27 | `.get` finds a value exactly when the key is present |
| Json.PutThenGet | wipe_certificates/main.py:45 | after `d[k] = v`, `d.get(k)` is v |
| Json.PutKeepsOthers | wipe_certificates/main.py:45 | `d[k] = v` leaves every other key's value as it was |
| Json.PutIdempotent | system_info.py:34 | assigning the same value twice is assigning it once |

## Left out

- The Qt user interface is not modelled. This covers `EasyWipeApp` and ui_pages.py, and thread/signal plumbing beyond the order of emitted signals. Signals are trace events; threads are sequential.
- `_unmount_device` internals (main.py:122-141) are not modelled: I/O. Its outcome is an input, either success or an escaping exception.
- Real command execution, `lsblk` output parsing and `/sys` reads are not modelled. Their outcomes are inputs.
- `_perform_pass` (wiping.py:67-82) is not modelled. Its float progress, `time.sleep`, simulation-file writes and `os.urandom` are I/O and floating point. Only its pass-pattern rule is modelled, with the random byte as a parameter, and each device's outcome is an input.
- `datetime.utcnow`, `isoformat` and `uuid` are not modelled. A clock reading is an ISO string and a microsecond count supplied by the caller.
- WipeJob.Seconds: computes `total_seconds()` as an exact rational, not a float, because floating-point rounding is outside the model.
- Drawing is not modelled. This covers the ReportLab drawing in certificate.py `generate_pdf` and the fonts, styles and layout in pdf_generator.py. Only the lookups that can make drawing raise, and the document's structure, are modelled.
- `load_json` (wipe_certificates/pdf_generator.py:7-11) and the formatting of `json.dump` are I/O. The JSON file holds the dictionary itself.
- wipe_certificates/create_p12.py and wipe_certificates/pdf_signer.py are opaque. Identity creation is assumed to succeed, and signing is an oracle with three outcomes: success, failure without output, and failure after opening the output.
- The module-level set-up of wipe_certificates/main.py (lines 8-27) is environment probing. `P12_FILE` and `P12_PASSWORD` are a configuration parameter.
- Text.Lower: lowers ASCII letters only; Python's `str.lower` also lowers other alphabets, which device identification output does not need.
- Text.TitleCasePointwise: treats only ASCII letters as letters; Python's `str.title` also recognises other alphabets. Report keys are ASCII.
- PdfReport.LabelPointwise: holds for the ASCII case rules of `Text.TitleCase`, for the same reason.
- WipeJob.NameFault: JSON numbers are one exact numeric kind (`Json.Num`), so a Python int and a float of integral value are not told apart; the message names an integral float such as `1.0` "'int'" where Python says "'float'". The failure itself, and that it ends the job, are modelled exactly.
- Json.Get: assumes a dictionary's behaviour is that of its first entry per key. Python dictionaries never hold a key twice, so `Put` keeps keys unique (`Json.PutKeepsKeysUnique`).

## Findings

| source | as written | input that shows it | evidently intended | confidence | as-written member | corrected member |
|---|---|---|---|---|---|---|
| wipe_certificates/main.py:60-64 | the unsigned PDF is deleted whenever any file exists at the signed path; the return value of `sign_pdf` (None on failure) is ignored | a run whose uuid already has `pdf_reports/sanitization_report_<uuid>.pdf` from an earlier run, with `sign_pdf` returning None; or `sign_pdf` raising after it opened its output file | delete the unsigned PDF only when `sign_pdf` returned the signed path, so a failed signing never removes the only fresh PDF | medium; not executed | Artifacts.FailedSignDeletesUnsigned | Artifacts.CheckedKeepsUnsignedOnFailure |
