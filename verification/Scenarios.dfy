/** Concrete registries and inventories: the cases the source's unit tests
    exercise, and the inventory shapes the population rules distinguish. */
module Scenarios {
  import opened Wrappers
  import opened Json
  import opened Strings
  import opened Decimal
  import opened Registry
  import opened Resolver

  const AirPods: AudioDevice := AudioDevice(1, "AirPods", "airpods_uid", true)

  /** Finding by the exact name. */
  lemma FindAirPodsByName()
    ensures FindDevice(AudioManager([AirPods]), "AirPods") == Some(AirPods)
  {
  }

  /** Finding by a lower-case fragment of the name. */
  lemma FindAirPodsByFragment()
    ensures FindDevice(AudioManager([AirPods]), "air") == Some(AirPods)
  {
  }

  /** Finding by id. */
  lemma FindAirPodsById()
    ensures FindDevice(AudioManager([AirPods]), "1") == Some(AirPods)
  {
  }

  /** Failing for a name that neither the name nor the uid contains. */
  lemma FindNonexistent()
    ensures FindDevice(AudioManager([AirPods]), "nonexistent") == None
  {
  }

  /** "7" is a number, so a device named "Speaker 7" with id 0 is not found by
      it; "+0" and "000" are the number 0 and find that device. */
  lemma NumbersNeverMatchNames()
    ensures FindDevice(AudioManager([AudioDevice(0, "Speaker 7", "device_0", true)]), "7") == None
    ensures FindDevice(AudioManager([AudioDevice(0, "Speaker 7", "device_0", true)]), "+0")
      == Some(AudioDevice(0, "Speaker 7", "device_0", true))
    ensures FindDevice(AudioManager([AudioDevice(0, "Speaker 7", "device_0", true)]), "000")
      == Some(AudioDevice(0, "Speaker 7", "device_0", true))
  {
    assert Value("7") == 7;
    assert Unsigned("+0") == "0";
    assert Value("0") == 0;
    assert Value("00") == 0;
    assert Value("000") == 0;
  }

  /** A redirection request fails for any application and device. */
  lemma RedirectionAlwaysFails()
    ensures SetAppOutputDevice("TestApp", AudioDevice(1, "Test Device", "test_uid", true)).Fail?
  {
  }

  function NamedItem(name: string): Json
  {
    Obj(map["_name" := Str(name)])
  }

  /** A group holding AirPods and the control entry yields AirPods alone. */
  lemma ControlEntryDropped()
    ensures Populate(Some(Obj(map["SPAudioDataType" := Arr([
      Obj(map["_items" := Arr([NamedItem("AirPods"), NamedItem("Audio Controls")])])])])))
      == [AudioDevice(0, "AirPods", "device_0", true)]
  {
    var items := [NamedItem("AirPods"), NamedItem("Audio Controls")];
    var group := Obj(map["_items" := Arr(items)]);
    var payload := Some(Obj(map["SPAudioDataType" := Arr([group])]));
    assert Groups(payload) == [group];
    assert Items(group) == items;
    assert Flatten([group]) == Flatten([]) + Items(group);
    assert Flatten(Groups(payload)) == items;
    assert !Contains("AirPods", ControllerMarker);
    assert items[..1] == [NamedItem("AirPods")];
    assert AcceptedNames(items) == ["AirPods"];
    assert Parsed(payload) == Number(["AirPods"]);
    assert Show(0) == "0";
    assert UidPrefix + Show(0) == "device_0";
    assert Number(["AirPods"])[0] == AudioDevice(0, "AirPods", "device_0", true);
  }

  /** An item list that is not under `SPAudioDataType` is not read, so the
      registry is the two defaults. */
  lemma UnwrappedItemsIgnored()
    ensures Populate(Some(Obj(map["_items" := Arr([NamedItem("AirPods")])]))) == Defaults
  {
  }

  const ControllerGroup: Json := Obj(map["_items" := Arr([NamedItem("USB Audio Controller"), Obj(map["_name" := Num(3.0)])])])
  const ControlsGroup: Json := Obj(map["_items" := Arr([NamedItem("Audio Controls")])])
  const NotAGroup: Json := Str("not a group")

  lemma NoiseItems()
    ensures Flatten([ControllerGroup, ControlsGroup, NotAGroup])
      == [NamedItem("USB Audio Controller"), Obj(map["_name" := Num(3.0)]), NamedItem("Audio Controls")]
  {
    var g0, g1, g2 := ControllerGroup, ControlsGroup, NotAGroup;
    assert Items(g0) == [NamedItem("USB Audio Controller"), Obj(map["_name" := Num(3.0)])];
    assert Items(g1) == [NamedItem("Audio Controls")];
    assert Items(g2) == [];
    FlattenAppend([], g0);
    assert [] + [g0] == [g0];
    FlattenAppend([g0], g1);
    assert [g0] + [g1] == [g0, g1];
    FlattenAppend([g0, g1], g2);
    assert [g0, g1] + [g2] == [g0, g1, g2];
  }

  lemma NoiseRejected()
    ensures AcceptedNames([NamedItem("USB Audio Controller"), Obj(map["_name" := Num(3.0)]), NamedItem("Audio Controls")]) == []
  {
    var items := [NamedItem("USB Audio Controller"), Obj(map["_name" := Num(3.0)]), NamedItem("Audio Controls")];
    assert OccursAt("USB Audio Controller", ControllerMarker, 10);
    ContainsIffOccurs("USB Audio Controller", ControllerMarker);
    assert forall i :: 0 <= i < |items| ==> !Accepted(items[i]);
    AcceptedNamesMembers(items);
  }

  /** Controllers, items without a string name, the control entry and a group
      that is not an object are all skipped, across groups, leaving the
      defaults. */
  lemma OnlyNoiseYieldsDefaults()
    ensures Populate(Some(Obj(map["SPAudioDataType" := Arr([ControllerGroup, ControlsGroup, NotAGroup])])))
      == Defaults
  {
    var payload := Some(Obj(map["SPAudioDataType" := Arr([ControllerGroup, ControlsGroup, NotAGroup])]));
    assert Groups(payload) == [ControllerGroup, ControlsGroup, NotAGroup];
    NoiseItems();
    NoiseRejected();
  }
}
