/**
 * Device enumeration and classification of the desktop wiper
 * (`DataWiper.get_available_devices` and `_detect_device_type`).
 */
module DeviceListing {
  import opened Wrappers
  import opened Json
  import opened Text
  import opened Lsblk

  datatype DeviceType = NVMe | SATA | Other

  /** Classification by name prefix: "nvme" first, then "sd"; everything else is Other. */
  function DetectDeviceType(name: string): (t: DeviceType)
    ensures t == NVMe <==> StartsWith(name, "nvme")
    ensures t == SATA <==> !StartsWith(name, "nvme") && StartsWith(name, "sd")
  {
    if StartsWith(name, "nvme") then NVMe
    else if StartsWith(name, "sd") then SATA
    else Other
  }

  /** One entry of the device list shown to the operator. */
  datatype DeviceInfo = DeviceInfo(name: string, size: Value, model: Value, mountpoint: Value, kind: DeviceType)

  /**
   * The disk rows of a listing turned into entries. A disk row whose `name`
   * is missing raises `KeyError` and one whose `name` is not a string makes
   * `startswith` raise; neither is caught.
   */
  function DiskEntries(rows: seq<Dict>): (r: Result<seq<DeviceInfo>, string>)
    ensures r.Success? <==> DisksNamed(rows)
  {
    if |rows| == 0 then Success([])
    else
      var rest := DiskEntries(rows[1..]);
      assert forall i :: 1 <= i < |rows| ==> rows[i] == rows[1..][i - 1];
      if !IsDisk(rows[0]) then rest
      else if NameOf(rows[0]).None? then Failure("KeyError or AttributeError on 'name'")
      else if rest.Failure? then rest
      else Success([Entry(rows[0], NameOf(rows[0]).value)] + rest.value)
  }

  /** One step of `DiskEntries` and `Disks` on a non-empty listing. */
  lemma DiskEntriesStep(rows: seq<Dict>)
    requires |rows| > 0 && DiskEntries(rows).Success?
    ensures DiskEntries(rows[1..]).Success?
    ensures IsDisk(rows[0]) ==>
      && NameOf(rows[0]).Some?
      && DiskEntries(rows).value == [Entry(rows[0], NameOf(rows[0]).value)] + DiskEntries(rows[1..]).value
      && Disks(rows) == [rows[0]] + Disks(rows[1..])
    ensures !IsDisk(rows[0]) ==> DiskEntries(rows) == DiskEntries(rows[1..]) && Disks(rows) == Disks(rows[1..])
  {
  }

  /** The entries are exactly the disk rows, one each and in listing order. */
  lemma {:induction false} DiskEntriesFollowDisks(rows: seq<Dict>)
    requires DiskEntries(rows).Success?
    ensures |DiskEntries(rows).value| == |Disks(rows)|
    ensures forall i :: 0 <= i < |Disks(rows)| ==>
      NameOf(Disks(rows)[i]).Some? &&
      DiskEntries(rows).value[i] == Entry(Disks(rows)[i], NameOf(Disks(rows)[i]).value)
  {
    if |rows| > 0 {
      DiskEntriesStep(rows);
      DiskEntriesFollowDisks(rows[1..]);
      var ds, dt := Disks(rows), Disks(rows[1..]);
      var r, rt := DiskEntries(rows).value, DiskEntries(rows[1..]).value;
      if IsDisk(rows[0]) {
        forall i | 0 < i < |ds|
          ensures NameOf(ds[i]).Some? && r[i] == Entry(ds[i], NameOf(ds[i]).value)
        {
          assert ds[i] == dt[i - 1] && r[i] == rt[i - 1];
        }
      }
    }
  }

  function Entry(e: Dict, name: string): DeviceInfo {
    DeviceInfo(
      "/dev/" + name,
      Get(e, "size").GetOr(Str("Unknown")),
      Get(e, "model").GetOr(Str("Unknown")),
      Get(e, "mountpoint").GetOr(Str("")),
      DetectDeviceType(name))
  }

  /**
   * `get_available_devices`: a failing `lsblk` or undecodable output gives the
   * empty list, but a missing `lsblk` binary is not among the caught errors.
   */
  function AvailableDevices(listing: Listing): (r: Result<seq<DeviceInfo>, string>)
    ensures listing.NonZeroExit? || listing.NotJson? ==> r == Success([])
    ensures listing.ToolMissing? ==> r.Failure?
    ensures listing.Parsed? ==> (r.Success? <==>
      Rows(listing.top).Success? && DiskEntries(Rows(listing.top).value).Success?)
  {
    match listing
    case NonZeroExit => Success([])
    case NotJson => Success([])
    case ToolMissing => Failure("FileNotFoundError: lsblk")
    case Parsed(top) =>
      match Rows(top)
      case Failure(e) => Failure(e)
      case Success(rows) => DiskEntries(rows)
  }

  /**
   * A decoded listing yields one entry per disk row, in listing order, named
   * "/dev/" + the row name and classified by that name.
   */
  lemma AvailableDevicesFollowDisks(top: Value)
    requires AvailableDevices(Parsed(top)).Success?
    ensures Rows(top).Success?
    ensures var r := AvailableDevices(Parsed(top)).value; var disks := Disks(Rows(top).value);
      |r| == |disks| &&
      forall i :: 0 <= i < |r| ==>
        NameOf(disks[i]).Some? &&
        r[i].name == "/dev/" + NameOf(disks[i]).value &&
        r[i].kind == DetectDeviceType(NameOf(disks[i]).value)
  {
    DiskEntriesFollowDisks(Rows(top).value);
  }

  /**
   * Every listed entry is named "/dev/" + its row name and carries the
   * classification of that row name.
   */
  lemma ListedEntriesAreClassified(rows: seq<Dict>)
    requires DiskEntries(rows).Success?
    ensures forall d :: d in DiskEntries(rows).value ==>
      exists n :: d.name == "/dev/" + n && d.kind == DetectDeviceType(n)
  {
    var r := DiskEntries(rows).value;
    DiskEntriesFollowDisks(rows);
    forall d | d in r
      ensures exists n :: d.name == "/dev/" + n && d.kind == DetectDeviceType(n)
    {
      var i :| 0 <= i < |r| && r[i] == d;
      var n := NameOf(Disks(rows)[i]).value;
      assert d.name == "/dev/" + n && d.kind == DetectDeviceType(n);
    }
  }

  /**
   * The wipe classifies a path by its base name; for the paths the listing
   * produces that is the same classification the listing showed.
   */
  lemma WipeClassifiesAsListed(name: string)
    requires '/' !in name
    ensures DetectDeviceType(BaseName("/dev/" + name)) == DetectDeviceType(name)
  {
    var p := "/dev/" + name;
    assert p == "/dev" + "/" + name by {
      assert "/dev/" == "/dev" + "/";
    }
    BaseNameOfJoin("/dev", name);
    assert BaseName(p) == name;
  }

  /**
   * Typical Linux kernel disk names: an NVMe namespace, a SCSI/SATA disk,
   * and a virtio disk and an SD card, which both fall under Other.
   */
  lemma ClassificationExamples()
    ensures DetectDeviceType("nvme0n1") == NVMe
    ensures DetectDeviceType("sda") == SATA
    ensures DetectDeviceType("vda") == Other
    ensures DetectDeviceType("mmcblk0") == Other
  {
    assert "vda"[0] != "sd"[0];
    assert "mmcblk0"[0] != "nvme"[0] && "mmcblk0"[0] != "sd"[0];
  }
}
