/**
 * The batch wipe job (`WipeThread` of wiping.py): a sequential loop over the
 * selected devices with a cooperative stop flag, and the report it builds on
 * success and on failure alike. The per-device overwrite work is abstracted
 * to its outcome.
 */
module WipeJob {
  import opened Wrappers
  import opened Json
  import opened Text

  /** A UTC clock reading: its ISO-8601 rendering and its value in microseconds. */
  datatype Instant = Instant(iso: string, micros: int)

  /** What happened while one device was being overwritten. */
  datatype DeviceOutcome =
    | Completed                    // every pass ran to the end
    | Raised(msg: string)          // an exception escaped before the device was recorded (setup or a pass)
    | StoppedMidPass               // `stop()` was called while the passes ran; they end early
    | RaisedAfterWipe(msg: string) // the device was recorded, then removing the simulation file raised

  datatype Report = Report(
    devicesTargeted: seq<Value>,
    devicesWipedSuccessfully: seq<Value>,
    status: string,
    message: string,
    startTimeUtc: string,
    endTimeUtc: string,
    durationSeconds: real,
    methodUsed: string,
    passesCompleted: Value)

  /** The values passed to the `finished` signal. */
  datatype JobResult = JobResult(success: bool, message: string, report: Report)

  const CancelMessage := "Wipe process was cancelled by user."

  /** `device.get('name')` */
  function Name(d: Dict): Value {
    GetOrNull(d, "name")
  }

  function Names(ds: seq<Dict>): (ns: seq<Value>)
    ensures |ns| == |ds|
    ensures forall i :: 0 <= i < |ds| ==> ns[i] == Name(ds[i])
  {
    seq(|ds|, i requires 0 <= i < |ds| => Name(ds[i]))
  }

  function MethodUsed(passes: int): string {
    IntToString(passes) + "-pass overwrite (NIST 800-88 Clear)"
  }

  /** `(end - start).total_seconds()`, exactly. */
  function Seconds(start: Instant, end: Instant): real {
    (end.micros - start.micros) as real / 1000000.0
  }

  /** `_generate_report`; `end` is `None` when no end time has been recorded. */
  function GenerateReport(devices: seq<Dict>, passes: int, start: Instant, end: Option<Instant>,
                          success: bool, message: string, wiped: seq<Value>): (r: Report)
    ensures r.status == "Success" <==> success
    ensures r.passesCompleted.Num? <==> success
    ensures r.endTimeUtc == "N/A" <==> end.None?
    ensures r.devicesTargeted == Names(devices) && r.devicesWipedSuccessfully == wiped
    ensures r.message == message && r.startTimeUtc == start.iso + "Z"
    ensures end.Some? ==> r.endTimeUtc == end.value.iso + "Z" && r.durationSeconds == Seconds(start, end.value)
    ensures end.None? ==> r.durationSeconds == 0.0
    ensures r.methodUsed == MethodUsed(passes)
    ensures r.passesCompleted == if success then Num(passes as real) else Str("N/A")
  {
    assert end.Some? ==> (end.value.iso + "Z")[|end.value.iso|] == 'Z';
    Report(
      Names(devices),
      wiped,
      if success then "Success" else "Failed",
      message,
      start.iso + "Z",
      if end.Some? then end.value.iso + "Z" else "N/A",
      if end.Some? then Seconds(start, end.value) else 0.0,
      MethodUsed(passes),
      if success then Num(passes as real) else Str("N/A"))
  }

  /** The report as the dictionary handed to the certificate generator: the nine report keys, in this order. */
  function ReportDict(r: Report): (d: Dict)
    ensures Keys(d) == ReportKeys
  {
    [("devices_targeted", Arr(r.devicesTargeted)),
     ("devices_wiped_successfully", Arr(r.devicesWipedSuccessfully)),
     ("status", Str(r.status)),
     ("message", Str(r.message)),
     ("start_time_utc", Str(r.startTimeUtc)),
     ("end_time_utc", Str(r.endTimeUtc)),
     ("duration_seconds", Num(r.durationSeconds)),
     ("method_used", Str(r.methodUsed)),
     ("passes_completed", r.passesCompleted)]
  }

  const ReportKeys: seq<string> := ["devices_targeted", "devices_wiped_successfully", "status", "message",
    "start_time_utc", "end_time_utc", "duration_seconds", "method_used", "passes_completed"]

  /** A reader for the report dictionary: the report back, when every field has its expected kind. */
  function ReadReport(d: Dict): Option<Report> {
    var targeted := Get(d, "devices_targeted");
    var wiped := Get(d, "devices_wiped_successfully");
    var status := Get(d, "status");
    var message := Get(d, "message");
    var start := Get(d, "start_time_utc");
    var end := Get(d, "end_time_utc");
    var duration := Get(d, "duration_seconds");
    var used := Get(d, "method_used");
    var passes := Get(d, "passes_completed");
    if && targeted.Some? && targeted.value.Arr? && wiped.Some? && wiped.value.Arr?
       && status.Some? && status.value.Str? && message.Some? && message.value.Str?
       && start.Some? && start.value.Str? && end.Some? && end.value.Str?
       && duration.Some? && duration.value.Num? && used.Some? && used.value.Str? && passes.Some? then
      Some(Report(targeted.value.items, wiped.value.items, status.value.s, message.value.s, start.value.s,
                  end.value.s, duration.value.n, used.value.s, passes.value))
    else None
  }

  /** The reader depends only on the lookups of the nine keys. */
  lemma ReadReportOf(d: Dict, r: Report)
    requires Get(d, "devices_targeted") == Some(Arr(r.devicesTargeted))
    requires Get(d, "devices_wiped_successfully") == Some(Arr(r.devicesWipedSuccessfully))
    requires Get(d, "status") == Some(Str(r.status)) && Get(d, "message") == Some(Str(r.message))
    requires Get(d, "start_time_utc") == Some(Str(r.startTimeUtc))
    requires Get(d, "end_time_utc") == Some(Str(r.endTimeUtc))
    requires Get(d, "duration_seconds") == Some(Num(r.durationSeconds))
    requires Get(d, "method_used") == Some(Str(r.methodUsed))
    requires Get(d, "passes_completed") == Some(r.passesCompleted)
    ensures ReadReport(d) == Some(r)
  {
  }

  lemma ReportDictUnique(r: Report)
    ensures UniqueKeys(ReportDict(r))
  {
    var d := ReportDict(r);
    forall i, j | 0 <= i < j < |d|
      ensures d[i].0 != d[j].0
    {
      assert d[i].0 == ReportKeys[i] && d[j].0 == ReportKeys[j];
    }
  }

  /** Reading the report dictionary back gives the report: nothing is lost on the way to the certificate. */
  lemma ReportRoundTrip(r: Report)
    ensures ReadReport(ReportDict(r)) == Some(r)
  {
    var d := ReportDict(r);
    ReportDictUnique(r);
    UniqueGet(d, 0);
    UniqueGet(d, 1);
    UniqueGet(d, 2);
    UniqueGet(d, 3);
    UniqueGet(d, 4);
    UniqueGet(d, 5);
    UniqueGet(d, 6);
    UniqueGet(d, 7);
    UniqueGet(d, 8);
    ReadReportOf(d, r);
  }

  /** The byte written by pass `passNum`; `entropy` stands for `os.urandom(1)`. */
  function PassPattern(passNum: nat, entropy: bv8): bv8 {
    if passNum == 0 then 0x00 else if passNum == 1 then 0xFF else entropy
  }

  /**
   * Pass 0 writes zeros and pass 1 ones, whatever the random source gives;
   * every later pass writes the random byte.
   */
  lemma PassPatternRule(entropy0: bv8, entropy1: bv8, k: nat, entropy: bv8)
    ensures PassPattern(0, entropy0) == 0x00 && PassPattern(1, entropy1) == 0xFF
    ensures k >= 2 ==> PassPattern(k, entropy) == entropy
  {
  }

  /** Whether the stop flag is still clear when iteration `j` begins. */
  predicate StartsRunning(stoppedBeforeStart: bool, outcomes: seq<DeviceOutcome>, j: nat)
    requires j <= |outcomes|
  {
    if j == 0 then !stoppedBeforeStart else !outcomes[j - 1].StoppedMidPass?
  }

  /**
   * The simulation file name needs the device name as a string: an absent
   * name falls back to "unknown", any other kind of value has no `replace`.
   */
  predicate NameUsable(d: Dict) {
    Get(d, "name").None? || Get(d, "name").value.Str?
  }

  /** The message of the `AttributeError` a name of the wrong kind raises. */
  function NameFault(v: Value): string {
    var kind := match v
      case Null => "NoneType"
      case Bool(_) => "bool"
      case Num(n) => if n.Floor as real == n then "int" else "float"
      case Str(_) => "str"
      case Arr(_) => "list"
      case Obj(_) => "dict";
    "'" + kind + "' object has no attribute 'replace'"
  }

  /** Whether iteration `j` records its device and lets the loop go on. */
  predicate Proceeds(stoppedBeforeStart: bool, devices: seq<Dict>, outcomes: seq<DeviceOutcome>, j: nat)
    requires j < |outcomes| == |devices|
  {
    && StartsRunning(stoppedBeforeStart, outcomes, j)
    && NameUsable(devices[j])
    && (outcomes[j].Completed? || outcomes[j].StoppedMidPass?)
  }

  /** Whether iteration `j` appends its device to the wiped list, whether or not it then raises. */
  predicate Appends(stoppedBeforeStart: bool, devices: seq<Dict>, outcomes: seq<DeviceOutcome>, j: nat)
    requires j < |outcomes| == |devices|
  {
    StartsRunning(stoppedBeforeStart, outcomes, j) && NameUsable(devices[j]) && !outcomes[j].Raised?
  }

  /** The message of the exception that ends iteration `j`, in the order the iteration meets them. */
  function Fault(stoppedBeforeStart: bool, devices: seq<Dict>, outcomes: seq<DeviceOutcome>, j: nat): string
    requires j < |outcomes| == |devices|
  {
    if !StartsRunning(stoppedBeforeStart, outcomes, j) then CancelMessage
    else if !NameUsable(devices[j]) then NameFault(Get(devices[j], "name").value)
    else if outcomes[j].Raised? || outcomes[j].RaisedAfterWipe? then outcomes[j].msg
    else ""
  }

  /**
   * The first iteration from `j` on that raises, or `|devices|` when none
   * does: every iteration before it proceeds.
   */
  function FirstFault(stoppedBeforeStart: bool, devices: seq<Dict>, outcomes: seq<DeviceOutcome>, j: nat): (k: nat)
    requires j <= |outcomes| == |devices|
    ensures j <= k <= |devices|
    ensures forall m :: j <= m < k ==> Proceeds(stoppedBeforeStart, devices, outcomes, m)
    ensures k < |devices| ==> !Proceeds(stoppedBeforeStart, devices, outcomes, k)
    decreases |devices| - j
  {
    if j == |devices| || !Proceeds(stoppedBeforeStart, devices, outcomes, j) then j
    else FirstFault(stoppedBeforeStart, devices, outcomes, j + 1)
  }

  /**
   * The device loop of `WipeThread.run`: the devices recorded as wiped and
   * the exception, if any, that ended the loop.
   */
  method WipeDevices(devices: seq<Dict>, stoppedBeforeStart: bool, outcomes: seq<DeviceOutcome>)
    returns (wiped: seq<Value>, error: Option<string>)
    requires |outcomes| == |devices|
    ensures var k := FirstFault(stoppedBeforeStart, devices, outcomes, 0);
      && (error.None? <==> k == |devices|)
      && wiped == Names(devices)[..if k < |devices| && Appends(stoppedBeforeStart, devices, outcomes, k) then k + 1 else k]
      && (error.Some? ==> error.value == Fault(stoppedBeforeStart, devices, outcomes, k))
  {
    var running := !stoppedBeforeStart;
    wiped := [];
    error := None;
    var i := 0;
    while i < |devices| && error.None?
      invariant 0 <= i <= |devices|
      invariant FirstFault(stoppedBeforeStart, devices, outcomes, 0) == FirstFault(stoppedBeforeStart, devices, outcomes, i)
      invariant forall j :: 0 <= j < i ==> Proceeds(stoppedBeforeStart, devices, outcomes, j)
      invariant error.None? ==> wiped == Names(devices)[..i] && running == StartsRunning(stoppedBeforeStart, outcomes, i)
      invariant error.Some? ==>
        && i < |devices| && !Proceeds(stoppedBeforeStart, devices, outcomes, i)
        && wiped == Names(devices)[..if Appends(stoppedBeforeStart, devices, outcomes, i) then i + 1 else i]
        && error.value == Fault(stoppedBeforeStart, devices, outcomes, i)
      decreases |devices| - i, if error.None? then 1 else 0
    {
      if !running {
        error := Some(CancelMessage);
      } else if !NameUsable(devices[i]) {
        error := Some(NameFault(Get(devices[i], "name").value));
      } else {
        match outcomes[i]
        case Raised(m) =>
          error := Some(m);
        case RaisedAfterWipe(m) =>
          wiped := wiped + [Name(devices[i])];
          error := Some(m);
        case StoppedMidPass =>
          wiped := wiped + [Name(devices[i])];
          running := false;
          i := i + 1;
        case Completed =>
          wiped := wiped + [Name(devices[i])];
          i := i + 1;
      }
    }
  }

  /**
   * `WipeThread.run`. The stop flag is read only when an iteration begins;
   * a stop seen there raises, and the job fails with the devices wiped so
   * far. A stop during the passes only shortens them: that device is still
   * recorded as wiped, and if it was the last one the job succeeds. An
   * exception raised while removing the simulation file comes after the
   * device was recorded, so the failed job lists it as wiped.
   */
  method Run(devices: seq<Dict>, passes: int, stoppedBeforeStart: bool, outcomes: seq<DeviceOutcome>,
             start: Instant, end: Instant) returns (r: JobResult)
    requires |outcomes| == |devices|
    ensures var w := r.report.devicesWipedSuccessfully;
      |w| <= |devices| && w == Names(devices)[..|w|]
    ensures forall j :: 0 <= j < |r.report.devicesWipedSuccessfully| ==> Appends(stoppedBeforeStart, devices, outcomes, j)
    ensures var k := FirstFault(stoppedBeforeStart, devices, outcomes, 0);
      && (r.success <==> k == |devices|)
      && |r.report.devicesWipedSuccessfully| ==
           (if k < |devices| && Appends(stoppedBeforeStart, devices, outcomes, k) then k + 1 else k)
      && (!r.success ==>
            r.message == "An error occurred: " + Fault(stoppedBeforeStart, devices, outcomes, k) &&
            r.report.message == r.message)
    ensures r.success ==> r.message == "Success" && r.report.message == "Wipe completed successfully."
    ensures r.report.devicesTargeted == Names(devices)
    ensures r.report.status == (if r.success then "Success" else "Failed")
    ensures r.report.passesCompleted == (if r.success then Num(passes as real) else Str("N/A"))
    ensures r.report.methodUsed == MethodUsed(passes)
    ensures r.report.startTimeUtc == start.iso + "Z" && r.report.endTimeUtc == end.iso + "Z"
    ensures r.report.durationSeconds == Seconds(start, end)
  {
    var wiped, error := WipeDevices(devices, stoppedBeforeStart, outcomes);
    var k := FirstFault(stoppedBeforeStart, devices, outcomes, 0);
    forall j | 0 <= j < |wiped|
      ensures Appends(stoppedBeforeStart, devices, outcomes, j)
    {
      if j < k {
        assert Proceeds(stoppedBeforeStart, devices, outcomes, j);
      }
    }
    if error.None? {
      var report := GenerateReport(devices, passes, start, Some(end), true, "Wipe completed successfully.", wiped);
      r := JobResult(true, "Success", report);
    } else {
      var message := "An error occurred: " + error.value;
      var report := GenerateReport(devices, passes, start, Some(end), false, message, wiped);
      r := JobResult(false, message, report);
    }
  }
}
