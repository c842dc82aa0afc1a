/**
 * Host and storage inventory used to fill the certificate (`SystemInfo` of
 * system_info.py). Reads of `/sys` and the `lsblk` run are inputs: each read
 * is `None` when it raised.
 */
module SystemInfo {
  import opened Wrappers
  import opened Json
  import opened Text
  import opened Lsblk

  /** Prefix "/dev/" unless the name already carries it. */
  function NormalizeName(n: string): (r: string)
    ensures StartsWith(r, "/dev/")
    ensures StartsWith(n, "/dev/") ==> r == n
    ensures !StartsWith(n, "/dev/") ==> r == "/dev/" + n
  {
    if StartsWith(n, "/dev/") then n else "/dev/" + n
  }

  /** Normalising a normalised name changes nothing. */
  lemma NormalizeNameIdempotent(n: string)
    ensures NormalizeName(NormalizeName(n)) == NormalizeName(n)
  {
  }

  /** The row with its `name` replaced in place by the normalised name. */
  function Normalized(row: Dict, name: string): Dict {
    Put(row, "name", Str(NormalizeName(name)))
  }

  /**
   * The disk rows of a listing, each with its name normalised. A disk row
   * whose `name` is missing or not a string raises, and that is not caught.
   */
  function NormalizeRows(rows: seq<Dict>): (r: Result<seq<Dict>, string>)
    ensures r.Success? <==> DisksNamed(rows)
  {
    if |rows| == 0 then Success([])
    else
      var rest := NormalizeRows(rows[1..]);
      assert forall i :: 1 <= i < |rows| ==> rows[i] == rows[1..][i - 1];
      if !IsDisk(rows[0]) then rest
      else if NameOf(rows[0]).None? then Failure("KeyError or AttributeError on 'name'")
      else if rest.Failure? then rest
      else Success([Normalized(rows[0], NameOf(rows[0]).value)] + rest.value)
  }

  /** One step of `NormalizeRows` and `Disks` on a non-empty listing. */
  lemma NormalizeRowsStep(rows: seq<Dict>)
    requires |rows| > 0 && NormalizeRows(rows).Success?
    ensures NormalizeRows(rows[1..]).Success?
    ensures IsDisk(rows[0]) ==>
      && NameOf(rows[0]).Some?
      && NormalizeRows(rows).value == [Normalized(rows[0], NameOf(rows[0]).value)] + NormalizeRows(rows[1..]).value
      && Disks(rows) == [rows[0]] + Disks(rows[1..])
    ensures !IsDisk(rows[0]) ==> NormalizeRows(rows) == NormalizeRows(rows[1..]) && Disks(rows) == Disks(rows[1..])
  {
  }

  /** One output device per disk row, in listing order, with its name normalised. */
  lemma {:induction false} NormalizeRowsFollowDisks(rows: seq<Dict>)
    requires NormalizeRows(rows).Success?
    ensures |NormalizeRows(rows).value| == |Disks(rows)|
    ensures forall i :: 0 <= i < |Disks(rows)| ==>
      NameOf(Disks(rows)[i]).Some? &&
      NormalizeRows(rows).value[i] == Normalized(Disks(rows)[i], NameOf(Disks(rows)[i]).value)
  {
    if |rows| > 0 {
      NormalizeRowsStep(rows);
      NormalizeRowsFollowDisks(rows[1..]);
      var ds, dt := Disks(rows), Disks(rows[1..]);
      var r, rt := NormalizeRows(rows).value, NormalizeRows(rows[1..]).value;
      if IsDisk(rows[0]) {
        forall i | 0 < i < |ds|
          ensures NameOf(ds[i]).Some? && r[i] == Normalized(ds[i], NameOf(ds[i]).value)
        {
          assert ds[i] == dt[i - 1] && r[i] == rt[i - 1];
        }
      }
    }
  }

  /** A normalised disk row is still a disk, and its name is the normalised one. */
  lemma NormalizedRow(row: Dict, name: string)
    requires IsDisk(row)
    ensures IsDisk(Normalized(row, name))
    ensures NameOf(Normalized(row, name)) == Some(NormalizeName(name))
  {
    PutKeepsOthers(row, "name", Str(NormalizeName(name)), "type");
    PutThenGet(row, "name", Str(NormalizeName(name)));
  }

  /** A disk row that normalisation leaves as it is. */
  predicate Settled(d: Dict) {
    IsDisk(d) && NameOf(d).Some? && StartsWith(NameOf(d).value, "/dev/")
    && Normalized(d, NameOf(d).value) == d
  }

  lemma NormalizedIsSettled(row: Dict, name: string)
    requires IsDisk(row)
    ensures Settled(Normalized(row, name))
  {
    NormalizedRow(row, name);
    NormalizeNameIdempotent(name);
    PutIdempotent(row, "name", Str(NormalizeName(name)));
  }

  /** Every device the listing yields is settled. */
  lemma {:induction false} NormalizeRowsSettled(rows: seq<Dict>)
    requires NormalizeRows(rows).Success?
    ensures forall i :: 0 <= i < |NormalizeRows(rows).value| ==> Settled(NormalizeRows(rows).value[i])
  {
    if |rows| > 0 {
      NormalizeRowsStep(rows);
      NormalizeRowsSettled(rows[1..]);
      if IsDisk(rows[0]) {
        NormalizedIsSettled(rows[0], NameOf(rows[0]).value);
        var r, rt := NormalizeRows(rows).value, NormalizeRows(rows[1..]).value;
        forall i | 0 < i < |r|
          ensures Settled(r[i])
        {
          assert r[i] == rt[i - 1];
        }
      }
    }
  }

  /**
   * Every device the listing yields is a disk whose name starts with
   * "/dev/", and listing that output again gives it back unchanged.
   */
  lemma NormalizeRowsIdempotent(rows: seq<Dict>)
    requires NormalizeRows(rows).Success?
    ensures forall i :: 0 <= i < |NormalizeRows(rows).value| ==> Settled(NormalizeRows(rows).value[i])
    ensures NormalizeRows(NormalizeRows(rows).value) == NormalizeRows(rows)
  {
    NormalizeRowsSettled(rows);
    AllSettledRenormalize(NormalizeRows(rows).value);
  }

  /** A settled row in front of rows that normalise to themselves normalises to itself. */
  lemma SettledStep(out: seq<Dict>)
    requires |out| > 0 && Settled(out[0]) && NormalizeRows(out[1..]) == Success(out[1..])
    ensures NormalizeRows(out) == Success(out)
  {
    assert out == [out[0]] + out[1..];
  }

  /** Normalising rows that are all settled returns them unchanged. */
  lemma {:induction false} AllSettledRenormalize(out: seq<Dict>)
    requires forall i :: 0 <= i < |out| ==> Settled(out[i])
    ensures NormalizeRows(out) == Success(out)
  {
    if |out| > 0 {
      var tail := out[1..];
      forall i | 0 <= i < |tail|
        ensures Settled(tail[i])
      {
        assert tail[i] == out[i + 1];
      }
      AllSettledRenormalize(tail);
      SettledStep(out);
    }
  }

  /** The fixed inventory reported off Linux. */
  const MockDevices: seq<Dict> := [
    [("name", Str("/dev/sda")), ("model", Str("Mock SSD")), ("serial", Str("MOCK12345")), ("size", Str("256G")), ("type", Str("disk"))],
    [("name", Str("/dev/sdb")), ("model", Str("Mock HDD")), ("serial", Str("MOCK67890")), ("size", Str("1T")), ("type", Str("disk"))]
  ]

  /**
   * `get_storage_devices`: the mock inventory off Linux; on Linux the
   * normalised disk rows, or the empty list when `lsblk` failed, was missing
   * or printed something that is not JSON.
   */
  function StorageDevices(onLinux: bool, listing: Listing): (r: Result<seq<Dict>, string>)
    ensures !onLinux ==> r == Success(MockDevices)
    ensures onLinux && !listing.Parsed? ==> r == Success([])
    ensures onLinux && listing.Parsed? ==>
      (r.Success? <==> Rows(listing.top).Success? && NormalizeRows(Rows(listing.top).value).Success?)
    ensures onLinux && listing.Parsed? && r.Success? ==>
      r.value == NormalizeRows(Rows(listing.top).value).value
  {
    if !onLinux then Success(MockDevices)
    else
      match listing
      case Parsed(top) =>
        (match Rows(top)
         case Failure(e) => Failure(e)
         case Success(rows) => NormalizeRows(rows))
      case _ => Success([])
  }

  /** `get_system_details` as a dictionary. */
  function Details(vendor: string, model: string): Dict {
    [("vendor", Str(vendor)), ("model", Str(model))]
  }

  /**
   * `get_system_details`: fixed mock values off Linux; on Linux the stripped
   * contents of the two DMI files, or "N/A" for both if either read failed.
   */
  function SystemDetails(onLinux: bool, vendorRead: Option<string>, modelRead: Option<string>): (r: Dict)
    ensures Keys(r) == ["vendor", "model"]
    ensures !onLinux ==> r == Details("Mock Computer Inc.", "System 9000")
    ensures onLinux && (vendorRead.None? || modelRead.None?) ==> r == Details("N/A", "N/A")
    ensures onLinux && vendorRead.Some? && modelRead.Some? ==>
      r == Details(Strip(vendorRead.value), Strip(modelRead.value))
  {
    if !onLinux then Details("Mock Computer Inc.", "System 9000")
    else if vendorRead.None? || modelRead.None? then Details("N/A", "N/A")
    else Details(Strip(vendorRead.value), Strip(modelRead.value))
  }

  function DeviceValues(ds: seq<Dict>): (vs: seq<Value>)
    ensures |vs| == |ds|
    ensures forall i :: 0 <= i < |ds| ==> vs[i] == Obj(ds[i])
  {
    seq(|ds|, i requires 0 <= i < |ds| => Obj(ds[i]))
  }

  /** `get_all_info`: exactly the two sections, details first. */
  function AllInfo(onLinux: bool, vendorRead: Option<string>, modelRead: Option<string>, listing: Listing): (r: Result<Dict, string>)
    ensures r.Success? <==> StorageDevices(onLinux, listing).Success?
    ensures r.Success? ==>
      Keys(r.value) == ["system_details", "storage_devices"] &&
      r.value[0].1 == Obj(SystemDetails(onLinux, vendorRead, modelRead)) &&
      r.value[1].1 == Arr(DeviceValues(StorageDevices(onLinux, listing).value))
  {
    var details := SystemDetails(onLinux, vendorRead, modelRead);
    match StorageDevices(onLinux, listing)
    case Failure(e) => Failure(e)
    case Success(devices) =>
      Success([("system_details", Obj(details)), ("storage_devices", Arr(DeviceValues(devices)))])
  }
}
