/**
 * The `lsblk -J` listing both device enumerators read: how the command can
 * end, and the "disk rows only" filter they share.
 */
module Lsblk {
  import opened Wrappers
  import opened Json

  /** How one `lsblk -J ...` invocation ended. */
  datatype Listing =
    | Parsed(top: Value) // exit status 0 and stdout decoded as JSON
    | NonZeroExit        // `check=True` raised `CalledProcessError`
    | NotJson            // `json.loads` raised `JSONDecodeError`
    | ToolMissing        // `subprocess.run` raised `FileNotFoundError`

  /** `device.get('type') == 'disk'` */
  predicate IsDisk(e: Dict) {
    Get(e, "type") == Some(Str("disk"))
  }

  /** The `name` of a row when it is a string. */
  function NameOf(e: Dict): Option<string> {
    match Get(e, "name")
    case Some(Str(s)) => Some(s)
    case _ => None
  }

  /** Every disk row has a string `name`. */
  predicate DisksNamed(rows: seq<Dict>) {
    forall i :: 0 <= i < |rows| && IsDisk(rows[i]) ==> NameOf(rows[i]).Some?
  }

  /** Reference filter: the disk rows of a listing, in listing order. */
  function Disks(rows: seq<Dict>): (r: seq<Dict>)
    ensures |r| <= |rows|
  {
    if |rows| == 0 then []
    else if IsDisk(rows[0]) then [rows[0]] + Disks(rows[1..])
    else Disks(rows[1..])
  }

  /** The filter keeps every disk row and nothing else. */
  lemma {:induction false} DisksMembers(rows: seq<Dict>)
    ensures forall e :: e in Disks(rows) <==> e in rows && IsDisk(e)
  {
    if |rows| > 0 {
      DisksMembers(rows[1..]);
      assert rows == [rows[0]] + rows[1..];
    }
  }

  /**
   * `data.get('blockdevices', [])` iterated as dictionaries; `data` itself
   * must be an object. An absent list gives no rows; a list gives one row
   * per element, in order, when every element is an object.
   */
  function Rows(top: Value): (r: Result<seq<Dict>, string>)
    ensures !top.Obj? ==> r.Failure?
    ensures top.Obj? && Get(top.fields, "blockdevices").None? ==> r == Success([])
    ensures top.Obj? && Get(top.fields, "blockdevices").Some? && Get(top.fields, "blockdevices").value.Arr? ==>
      var items := Get(top.fields, "blockdevices").value.items;
      && (r.Success? <==> forall i :: 0 <= i < |items| ==> items[i].Obj?)
      && (r.Success? ==> |r.value| == |items| && forall i :: 0 <= i < |items| ==> items[i] == Obj(r.value[i]))
  {
    if top.Obj? then DictItems(Get(top.fields, "blockdevices").GetOr(Arr([])))
    else Failure("AttributeError: decoded listing has no attribute 'get'")
  }
}
