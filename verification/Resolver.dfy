/** Identifier resolution of `AudioManager` (`find_device_by_name_or_id`) and
    the per-application redirection request (`set_app_output_device`). */
module Resolver {
  import opened Wrappers
  import opened Strings
  import opened Decimal
  import opened Registry

  /** The numeric rule: the device has id `k`. */
  predicate HasId(k: u32, d: AudioDevice)
  {
    d.id == k
  }

  /** The text rule: the lower-cased name or the lower-cased uid of the device
      contains `needle`, which the caller has lower-cased already. */
  predicate NameOrUidContains(needle: string, d: AudioDevice)
  {
    Contains(Lower(d.name), needle) || Contains(Lower(d.uid), needle)
  }

  /** The rule an identifier selects devices by: its id when the identifier
      parses as a `u32`, its name or uid otherwise. */
  predicate Selects(identifier: string, d: AudioDevice)
  {
    match ParseU32(identifier)
    case Some(k) => HasId(k, d)
    case None => NameOrUidContains(Lower(identifier), d)
  }

  /** The position of the first device that satisfies `p`, or `None` when no
      device does; `FindDevice` indexes the registry with it to get the device
      that `Iterator::find` returns. */
  function FindFirst(devices: seq<AudioDevice>, p: AudioDevice -> bool): (r: Option<nat>)
    ensures r.Some? ==> r.value < |devices| && p(devices[r.value])
    ensures r.Some? ==> forall j :: 0 <= j < r.value ==> !p(devices[j])
    ensures r.None? ==> forall j :: 0 <= j < |devices| ==> !p(devices[j])
  {
    if |devices| == 0 then None
    else if p(devices[0]) then Some(0)
    else match FindFirst(devices[1..], p)
      case Some(i) => Some(i + 1)
      case None => None
  }

  /** `find_device_by_name_or_id`: an identifier that parses as a `u32` selects
      the first device with that id and nothing else; any other identifier
      selects the first device whose lower-cased name or uid contains the
      lower-cased identifier. The result is the first device of the registry
      that satisfies the identifier's rule, and `None` when none does. */
  function FindDevice(m: AudioManager, identifier: string): (r: Option<AudioDevice>)
    ensures r.Some? <==> exists i :: 0 <= i < |m.devices| && Selects(identifier, m.devices[i])
    ensures r.Some? ==> exists i :: (0 <= i < |m.devices| && m.devices[i] == r.value
      && Selects(identifier, m.devices[i])
      && forall j :: 0 <= j < i ==> !Selects(identifier, m.devices[j]))
  {
    var found := match ParseU32(identifier)
      case Some(k) => FindFirst(m.devices, d => HasId(k, d))
      case None => FindFirst(m.devices, d => NameOrUidContains(Lower(identifier), d));
    match found
    case Some(i) => Some(m.devices[i])
    case None => None
  }

  /** A numeric identifier never falls back to text matching: with no device
      of that id the result is `None`, whatever the names and uids contain. */
  lemma NumericNeverMatchesText(m: AudioManager, identifier: string)
    requires ParseU32(identifier).Some?
    requires forall d :: d in m.devices ==> d.id != ParseU32(identifier).value
    ensures FindDevice(m, identifier) == None
  {
  }

  /** Resolution ignores the case of the identifier. */
  lemma FindDeviceIgnoresCase(m: AudioManager, identifier: string)
    ensures FindDevice(m, Lower(identifier)) == FindDevice(m, identifier)
  {
    ParseLower(identifier);
    LowerIdempotent(identifier);
  }

  /** The empty identifier is not a number and is contained in every string,
      so it resolves to the first device of a non-empty registry. */
  lemma EmptyIdentifierSelectsFirst(m: AudioManager)
    requires |m.devices| > 0
    ensures FindDevice(m, "") == Some(m.devices[0])
  {
    ContainsEmpty(Lower(m.devices[0].name));
  }

  /** In a registry where device `j` has id `j as u32`, every device
      whose position fits in a `u32` is found by its position in decimal. */
  lemma FindNumberedId(m: AudioManager, i: nat)
    requires forall j :: 0 <= j < |m.devices| ==> m.devices[j].id == AsU32(j)
    requires i < |m.devices| && i < U32Limit
    ensures FindDevice(m, Show(i)) == Some(m.devices[i])
  {
    var k := i as u32;
    ParseShow(k);
    assert HasId(k, m.devices[i]);
  }

  /** Every device of a populated registry is found by its id as printed in
      the device list, provided ids have not wrapped. */
  lemma FindListedId(payload: Option<Json.Json>, i: nat)
    requires i < |Populate(payload)| && i < U32Limit
    ensures FindDevice(AudioManager(Populate(payload)), Show(i)) == Some(Populate(payload)[i])
  {
    FindNumberedId(AudioManager(Populate(payload)), i);
  }

  /** Why a per-application redirection request fails. */
  datatype AppOutputError = RedirectionUnsupported

  /** `set_app_output_device`: redirecting one application's output is not
      supported, so every request fails, whatever the application and
      device. */
  function SetAppOutputDevice(appName: string, device: AudioDevice): (r: Outcome<AppOutputError>)
    ensures r.Fail?
  {
    Fail(RedirectionUnsupported)
  }
}
