/**
 * The required-field check run before the operator may continue to device
 * selection (`EasyWipeApp.validate_and_continue`).
 */
module Intake {
  import opened Json
  import opened Text

  const RequiredFields: seq<string> := ["name", "organization", "asset_tag"]

  /** A field counts as filled when either form holds a truthy value for it. */
  predicate Filled(user: Dict, media: Dict, f: string) {
    Truthy(GetOrNull(user, f)) || Truthy(GetOrNull(media, f))
  }

  /** The fields of `fields` that neither form fills. */
  function MissingAmong(fields: seq<string>, user: Dict, media: Dict): (m: seq<string>)
    ensures |m| <= |fields|
    ensures forall f :: f in m <==> f in fields && !Filled(user, media, f)
  {
    if |fields| == 0 then []
    else
      var rest := MissingAmong(fields[1..], user, media);
      assert forall f :: f in fields <==> f == fields[0] || f in fields[1..];
      if Filled(user, media, fields[0]) then rest else [fields[0]] + rest
  }

  datatype Decision = ShowSystemInfo | Warn(message: string)

  /** Continue only when every required field is filled; otherwise warn and stay. */
  function ValidateAndContinue(user: Dict, media: Dict): (d: Decision)
    ensures d.ShowSystemInfo? <==> forall f :: f in RequiredFields ==> Filled(user, media, f)
    ensures d.Warn? ==> StartsWith(d.message, "Please fill in: ")
  {
    var missing := MissingAmong(RequiredFields, user, media);
    assert |missing| > 0 ==> missing[0] in missing;
    if |missing| > 0 then Warn("Please fill in: " + Join(", ", missing)) else ShowSystemInfo
  }
}
