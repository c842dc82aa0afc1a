/**
 * The desktop wiper's per-device cascade (`DataWiper.wipe_device` and the
 * helpers it calls). Every external command is replaced by the outcome the
 * caller supplies for it; each call returns the trace of what the wiper did:
 * the commands it issued and the progress, status and completion signals it
 * emitted, in order.
 */
module DataWiper {
  import opened Wrappers
  import opened Text
  import opened DeviceListing

  /** How one `subprocess.run` call ended, as seen by the caller. */
  datatype CmdResult =
    | Exited(code: int, stdout: string, stderr: string)
    | TimedOut           // `subprocess.TimeoutExpired`
    | Raised(msg: string) // any other exception, e.g. a missing binary

  predicate Succeeded(r: CmdResult) {
    r.Exited? && r.code == 0
  }

  datatype Event =
    | Run(argv: seq<string>, timeout: nat)
    | Unmount(path: string)
    | Progress(percent: int)
    | Status(text: string)
    | Completed(ok: bool, text: string)

  /** The outcome each command would have if it were issued. */
  datatype Results = Results(format: CmdResult, identify: CmdResult, setPass: CmdResult, erase: CmdResult, shred: CmdResult)

  /** `_unmount_device` swallows `CalledProcessError`; other exceptions escape it. */
  datatype UnmountResult = UnmountOk | UnmountRaised(msg: string)

  datatype Host = Host(pathExists: bool, unmount: UnmountResult, results: Results)

  datatype Wiper = Wiper(isWiping: bool, currentDevice: Option<string>)

  /** A helper that returned a boolean, with what it did on the way. */
  datatype Step = Step(ok: bool, trace: seq<Event>)

  /** A helper that either returned or let an exception escape. */
  datatype Attempt = Returned(ok: bool, trace: seq<Event>) | Threw(msg: string, trace: seq<Event>)

  datatype Wipe = Wipe(ok: bool, wiper: Wiper, trace: seq<Event>)

  function FormatArgv(p: string): seq<string> { ["nvme", "format", p, "-s", "1"] }
  function IdentifyArgv(p: string): seq<string> { ["hdparm", "-I", p] }
  function SetPassArgv(p: string): seq<string> { ["hdparm", "--user-master", "u", "--security-set-pass", "", p] }
  function EraseArgv(p: string): seq<string> { ["hdparm", "--user-master", "u", "--security-erase", "", p] }
  function ShredArgv(p: string): seq<string> { ["shred", "-vfz", "-n", "3", p] }

  /** The commands of the ATA secure erase, in the order they are issued. */
  function HdparmSequence(p: string): seq<seq<string>> { [IdentifyArgv(p), SetPassArgv(p), EraseArgv(p)] }

  /** The argument vectors of the commands in a trace, in issue order. */
  function Commands(t: seq<Event>): seq<seq<string>> {
    if |t| == 0 then []
    else (if t[0].Run? then [t[0].argv] else []) + Commands(t[1..])
  }

  /** The progress percentages in a trace, in emission order. */
  function Progresses(t: seq<Event>): seq<int> {
    if |t| == 0 then []
    else (if t[0].Progress? then [t[0].percent] else []) + Progresses(t[1..])
  }

  predicate NoSideEffects(t: seq<Event>) {
    forall i :: 0 <= i < |t| ==> !t[i].Run? && !t[i].Unmount?
  }

  predicate NonDecreasing(s: seq<int>) {
    forall i, j :: 0 <= i < j < |s| ==> s[i] <= s[j]
  }

  lemma {:induction false} ProjectionsDistribute(a: seq<Event>, b: seq<Event>)
    ensures Commands(a + b) == Commands(a) + Commands(b)
    ensures Progresses(a + b) == Progresses(a) + Progresses(b)
  {
    if |a| > 0 {
      assert (a + b)[1..] == a[1..] + b;
      ProjectionsDistribute(a[1..], b);
    } else {
      assert a + b == b;
    }
  }

  lemma Distribute3(a: seq<Event>, b: seq<Event>, c: seq<Event>)
    ensures Commands(a + b + c) == Commands(a) + Commands(b) + Commands(c)
    ensures Progresses(a + b + c) == Progresses(a) + Progresses(b) + Progresses(c)
  {
    ProjectionsDistribute(a, b);
    ProjectionsDistribute(a + b, c);
  }

  lemma Distribute4(a: seq<Event>, b: seq<Event>, c: seq<Event>, d: seq<Event>)
    ensures Commands(a + b + c + d) == Commands(a) + Commands(b) + Commands(c) + Commands(d)
    ensures Progresses(a + b + c + d) == Progresses(a) + Progresses(b) + Progresses(c) + Progresses(d)
  {
    Distribute3(a, b, c);
    ProjectionsDistribute(a + b + c, d);
  }

  /** What a single event contributes to each projection. */
  function CommandOf(e: Event): seq<seq<string>> { if e.Run? then [e.argv] else [] }
  function ProgressOf(e: Event): seq<int> { if e.Progress? then [e.percent] else [] }

  lemma Project1(e: Event)
    ensures Commands([e]) == CommandOf(e)
    ensures Progresses([e]) == ProgressOf(e)
  {
    assert [e][1..] == [];
  }

  lemma Project2(a: Event, b: Event)
    ensures Commands([a, b]) == CommandOf(a) + CommandOf(b)
    ensures Progresses([a, b]) == ProgressOf(a) + ProgressOf(b)
  {
    assert [a, b] == [a] + [b];
    ProjectionsDistribute([a], [b]);
    Project1(a);
    Project1(b);
  }

  lemma Project3(a: Event, b: Event, c: Event)
    ensures Commands([a, b, c]) == CommandOf(a) + CommandOf(b) + CommandOf(c)
    ensures Progresses([a, b, c]) == ProgressOf(a) + ProgressOf(b) + ProgressOf(c)
  {
    assert [a, b, c] == [a, b] + [c];
    ProjectionsDistribute([a, b], [c]);
    Project2(a, b);
    Project1(c);
  }

  /** `_shred_device`: three passes plus a zero pass; success iff `shred` exits 0. */
  function ShredDevice(p: string, shred: CmdResult): (s: Step)
    ensures s.ok <==> Succeeded(shred)
    ensures Commands(s.trace) == [ShredArgv(p)]
    ensures Progresses(s.trace) == (if s.ok then [100] else [])
  {
    var t := [Status("Starting shred operation..."), Run(ShredArgv(p), 3600)];
    var tail := match shred
      case Exited(code, _, err) =>
        if code == 0 then [Progress(100), Status("Shred completed successfully")]
        else [Status("Shred failed: " + err)]
      case TimedOut => [Status("Shred operation timed out")]
      case Raised(m) => [Status("Shred error: " + m)];
    ProjectionsDistribute(t, tail);
    Project2(t[0], t[1]);
    assert Commands(tail) == [] && Progresses(tail) == (if Succeeded(shred) then [100] else []) by {
      if |tail| == 2 { Project2(tail[0], tail[1]); } else { Project1(tail[0]); }
    }
    Step(Succeeded(shred), t + tail)
  }

  /** The drive reports that it lacks the security feature set. */
  predicate ReportsNotSupported(identify: CmdResult) {
    identify.Exited? && Contains(Lower(identify.stdout), "not supported")
  }

  /**
   * `_hdparm_secure_erase`: identify, set an empty user password, erase.
   * Only `TimeoutExpired` (and `CalledProcessError`, which cannot arise
   * without `check=True`) is caught; any other exception escapes.
   */
  function HdparmSecureErase(p: string, rs: Results): (a: Attempt)
    ensures ReportsNotSupported(rs.identify) ==> a == Returned(false, [Run(IdentifyArgv(p), 30)])
    ensures a.Returned? && a.ok <==>
      rs.identify.Exited? && !ReportsNotSupported(rs.identify) && rs.setPass.Exited? && Succeeded(rs.erase)
    ensures a.Threw? <==>
      rs.identify.Raised?
      || (rs.identify.Exited? && !ReportsNotSupported(rs.identify)
          && (rs.setPass.Raised? || (rs.setPass.Exited? && rs.erase.Raised?)))
    ensures var cs := Commands(a.trace); 1 <= |cs| <= 3 && cs == HdparmSequence(p)[..|cs|]
    ensures |Commands(a.trace)| ==
      if !rs.identify.Exited? || ReportsNotSupported(rs.identify) then 1
      else if !rs.setPass.Exited? then 2
      else 3
    ensures Progresses(a.trace) == []
  {
    var identify := Run(IdentifyArgv(p), 30);
    var setPass := Run(SetPassArgv(p), 30);
    var erase := Run(EraseArgv(p), 600);
    Project1(identify);
    Project2(identify, setPass);
    Project3(identify, setPass, erase);
    assert CommandOf(identify) == HdparmSequence(p)[..1];
    assert CommandOf(identify) + CommandOf(setPass) == HdparmSequence(p)[..2];
    assert CommandOf(identify) + CommandOf(setPass) + CommandOf(erase) == HdparmSequence(p)[..3];
    match rs.identify
    case TimedOut => Returned(false, [identify])
    case Raised(m) => Threw(m, [identify])
    case Exited(_, _, _) =>
      if ReportsNotSupported(rs.identify) then Returned(false, [identify])
      else
        match rs.setPass
        case TimedOut => Returned(false, [identify, setPass])
        case Raised(m) => Threw(m, [identify, setPass])
        case Exited(_, _, _) =>
          match rs.erase
          case TimedOut => Returned(false, [identify, setPass, erase])
          case Raised(m) => Threw(m, [identify, setPass, erase])
          case Exited(code, _, _) => Returned(code == 0, [identify, setPass, erase])
  }

  /**
   * `_wipe_traditional`: try the ATA secure erase, then always shred. An
   * exception escaping the hdparm step ends the wipe without shredding.
   */
  function WipeTraditional(p: string, rs: Results): (s: Step)
    ensures var hd := HdparmSecureErase(p, rs);
      && (hd.Threw? ==> !s.ok && Commands(s.trace) == Commands(hd.trace))
      && (hd.Returned? ==> s.ok == Succeeded(rs.shred) && Commands(s.trace) == Commands(hd.trace) + [ShredArgv(p)])
      && Progresses(s.trace) == [10] + (if hd.Returned? && hd.ok then [50] else []) + (if s.ok then [100] else [])
  {
    AfterSecureErase(p, HdparmSecureErase(p, rs), rs.shred)
  }

  /** The part of `_wipe_traditional` that follows the hdparm attempt `hd`. */
  function AfterSecureErase(p: string, hd: Attempt, shred: CmdResult): (s: Step)
    requires Progresses(hd.trace) == []
    ensures hd.Threw? ==> !s.ok && Commands(s.trace) == Commands(hd.trace)
    ensures hd.Returned? ==> s.ok == Succeeded(shred) && Commands(s.trace) == Commands(hd.trace) + [ShredArgv(p)]
    ensures Progresses(s.trace) == [10] + (if hd.Returned? && hd.ok then [50] else []) + (if s.ok then [100] else [])
  {
    var t := [Status("Starting traditional device wipe..."), Progress(10)];
    Project2(t[0], t[1]);
    var rest := HdparmAndAfter(p, hd, shred);
    ProjectionsDistribute(t, rest.trace);
    Step(rest.ok, t + rest.trace)
  }

  /** The hdparm attempt's own trace followed by what `_wipe_traditional` does about its outcome. */
  function HdparmAndAfter(p: string, hd: Attempt, shred: CmdResult): (s: Step)
    requires Progresses(hd.trace) == []
    ensures hd.Threw? ==> !s.ok && Commands(s.trace) == Commands(hd.trace)
    ensures hd.Returned? ==> s.ok == Succeeded(shred) && Commands(s.trace) == Commands(hd.trace) + [ShredArgv(p)]
    ensures Progresses(s.trace) == (if hd.Returned? && hd.ok then [50] else []) + (if s.ok then [100] else [])
  {
    match hd
    case Threw(m, ht) =>
      var fin := [Status("Traditional wipe error: " + m)];
      Project1(fin[0]);
      ProjectionsDistribute(ht, fin);
      Step(false, ht + fin)
    case Returned(hok, ht) =>
      var rest := AfterHdparmReturned(p, hok, shred);
      ProjectionsDistribute(ht, rest.trace);
      Step(rest.ok, ht + rest.trace)
  }

  /** The rest of `_wipe_traditional` once the hdparm attempt returned `hok`: shred regardless. */
  function AfterHdparmReturned(p: string, hok: bool, shred: CmdResult): (s: Step)
    ensures s.ok == Succeeded(shred) && Commands(s.trace) == [ShredArgv(p)]
    ensures Progresses(s.trace) == (if hok then [50] else []) + (if s.ok then [100] else [])
  {
    var mid := if hok then [Progress(50), Status("hdparm secure erase completed")]
               else [Status("hdparm failed, using shred...")];
    assert Commands(mid) == [] && Progresses(mid) == (if hok then [50] else []) by {
      if hok { Project2(mid[0], mid[1]); } else { Project1(mid[0]); }
    }
    var sh := ShredDevice(p, shred);
    ProjectionsDistribute(mid, sh.trace);
    Step(sh.ok, mid + sh.trace)
  }

  /**
   * `_wipe_nvme`: `nvme format -s 1`, then shred whether or not the format
   * succeeded; a format timeout or error ends the wipe without shredding.
   */
  function WipeNvme(p: string, rs: Results): (s: Step)
    ensures rs.format.Exited? ==>
      s.ok == Succeeded(rs.shred) && Commands(s.trace) == [FormatArgv(p), ShredArgv(p)]
    ensures !rs.format.Exited? ==> !s.ok && Commands(s.trace) == [FormatArgv(p)]
    ensures Progresses(s.trace) == [10] + (if Succeeded(rs.format) then [50] else []) + (if s.ok then [100] else [])
  {
    var t := [Status("Starting NVMe secure erase..."), Progress(10), Run(FormatArgv(p), 300)];
    Project3(t[0], t[1], t[2]);
    var rest := AfterFormat(p, rs.format, rs.shred);
    ProjectionsDistribute(t, rest.trace);
    Step(rest.ok, t + rest.trace)
  }

  /** The rest of `_wipe_nvme` once `nvme format` ended as `format`. */
  function AfterFormat(p: string, format: CmdResult, shred: CmdResult): (s: Step)
    ensures format.Exited? ==> s.ok == Succeeded(shred) && Commands(s.trace) == [ShredArgv(p)]
    ensures !format.Exited? ==> !s.ok && Commands(s.trace) == []
    ensures Progresses(s.trace) == (if Succeeded(format) then [50] else []) + (if s.ok then [100] else [])
  {
    match format
    case TimedOut =>
      var fin := [Status("NVMe format timed out")];
      Project1(fin[0]);
      Step(false, fin)
    case Raised(m) =>
      var fin := [Status("NVMe wipe error: " + m)];
      Project1(fin[0]);
      Step(false, fin)
    case Exited(code, _, _) =>
      var mid := if code == 0 then [Progress(50), Status("NVMe format completed")]
                 else [Status("NVMe format failed, using shred...")];
      assert Commands(mid) == [] && Progresses(mid) == (if code == 0 then [50] else []) by {
        if code == 0 { Project2(mid[0], mid[1]); } else { Project1(mid[0]); }
      }
      var sh := ShredDevice(p, shred);
      ProjectionsDistribute(mid, sh.trace);
      Step(sh.ok, mid + sh.trace)
  }

  /** The path `wipe_device` takes for the type of the path's base name. */
  function Dispatch(path: string, rs: Results): (s: Step)
    ensures var cs := Commands(s.trace);
      |cs| > 0 && cs[0] == (if DetectDeviceType(BaseName(path)) == NVMe then FormatArgv(path) else IdentifyArgv(path))
    ensures NonDecreasing(Progresses(s.trace))
    ensures 100 in Progresses(s.trace) <==> s.ok
  {
    if DetectDeviceType(BaseName(path)) == NVMe then
      var s := WipeNvme(path, rs);
      RisingShape(Succeeded(rs.format), s.ok);
      s
    else
      var hd := HdparmSecureErase(path, rs);
      var s := WipeTraditional(path, rs);
      assert Commands(hd.trace)[0] == HdparmSequence(path)[0] == IdentifyArgv(path);
      assert Commands(s.trace)[0] == IdentifyArgv(path) by {
        if hd.Returned? {
          assert Commands(s.trace) == Commands(hd.trace) + [ShredArgv(path)];
        }
      }
      RisingShape(hd.Returned? && hd.ok, s.ok);
      s
  }

  /** The progress values either path emits rise, and end in 100 exactly on success. */
  lemma RisingShape(first: bool, ok: bool)
    ensures var ps := [10] + (if first then [50] else []) + (if ok then [100] else []);
      NonDecreasing(ps) && (100 in ps <==> ok)
  {
  }

  /** The unmount marker, the dispatched path's trace and the completion signal. */
  function Wrapped(path: string, s: Step): (t: seq<Event>)
    ensures Commands(t) == Commands(s.trace)
    ensures Progresses(t) == Progresses(s.trace)
    ensures |t| > 0 && t[|t| - 1] == Completed(s.ok, if s.ok then "Wipe completed" else "Wipe failed")
  {
    var first := [Unmount(path)];
    var last := [Completed(s.ok, if s.ok then "Wipe completed" else "Wipe failed")];
    Project1(first[0]);
    Project1(last[0]);
    Distribute3(first, s.trace, last);
    first + s.trace + last
  }

  /**
   * `wipe_device`: refuse while busy, report a missing path, unmount, then
   * dispatch on the type of the path's base name. NVMe takes the nvme path;
   * SATA and Other alike take the hdparm/shred path.
   */
  function WipeDevice(w: Wiper, path: string, host: Host): (r: Wipe)
    ensures w.isWiping ==> r == Wipe(false, w, [])
    ensures !w.isWiping ==> r.wiper.currentDevice == Some(path)
    ensures !w.isWiping && !host.pathExists ==>
      !r.ok && r.wiper.isWiping && r.trace == [Completed(false, "Device " + path + " not found")]
    ensures !w.isWiping && host.pathExists ==> !r.wiper.isWiping
    ensures |r.trace| > 0 ==> r.trace[|r.trace| - 1].Completed? && r.trace[|r.trace| - 1].ok == r.ok
  {
    if w.isWiping then Wipe(false, w, [])
    else if !host.pathExists then
      Wipe(false, Wiper(true, Some(path)), [Completed(false, "Device " + path + " not found")])
    else
      match host.unmount
      case UnmountRaised(m) =>
        Wipe(false, Wiper(false, Some(path)), [Unmount(path), Completed(false, "Error during wipe: " + m)])
      case UnmountOk =>
        var s := Dispatch(path, host.results);
        Wipe(s.ok, Wiper(false, Some(path)), Wrapped(path, s))
  }

  /**
   * NVMe paths go to `nvme format`; every other path, Other included, goes
   * to `hdparm -I`, so no device is refused for its type. The result is
   * shred's whenever the first step returned instead of raising.
   */
  lemma WipeDispatchesByType(w: Wiper, path: string, host: Host)
    requires !w.isWiping && host.pathExists && host.unmount.UnmountOk?
    ensures var cs := Commands(WipeDevice(w, path, host).trace);
      |cs| > 0 &&
      cs[0] == (if DetectDeviceType(BaseName(path)) == NVMe then FormatArgv(path) else IdentifyArgv(path))
    ensures DetectDeviceType(BaseName(path)) == NVMe && host.results.format.Exited? ==>
      Commands(WipeDevice(w, path, host).trace) == [FormatArgv(path), ShredArgv(path)] &&
      WipeDevice(w, path, host).ok == Succeeded(host.results.shred)
    ensures DetectDeviceType(BaseName(path)) != NVMe && HdparmSecureErase(path, host.results).Returned? ==>
      var cs := Commands(WipeDevice(w, path, host).trace);
      cs[|cs| - 1] == ShredArgv(path) && WipeDevice(w, path, host).ok == Succeeded(host.results.shred)
  {
  }

  /**
   * Progress only ever rises: 10, then 50 when the first step succeeded,
   * then 100, which is emitted exactly when the wipe succeeds.
   */
  lemma WipeProgressRises(w: Wiper, path: string, host: Host)
    ensures var r := WipeDevice(w, path, host);
      NonDecreasing(Progresses(r.trace)) && (100 in Progresses(r.trace) <==> r.ok)
  {
    var r := WipeDevice(w, path, host);
    if w.isWiping || !host.pathExists {
      Project1(Completed(false, "Device " + path + " not found"));
    } else if host.unmount.UnmountRaised? {
      Project2(r.trace[0], r.trace[1]);
    }
  }
}
