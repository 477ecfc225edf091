/** The device registry of `AudioManager`: the `AudioDevice` record and the
    population step of `refresh_devices`, which walks the audio inventory
    (`SPAudioDataType[*]._items[*]._name`), drops control entries, numbers the
    kept items and seeds two built-in devices when nothing is kept. Running
    the inventory command and parsing its JSON text happen before this model
    starts: the input is the parsed tree, or `None` when the text did not
    parse. */
module Registry {
  import opened Wrappers
  import opened Json
  import opened Strings
  import opened Decimal

  /** One output device of the session. */
  datatype AudioDevice = AudioDevice(id: u32, name: string, uid: string, isOutput: bool)

  /** The device manager: the registry, in discovery order. */
  datatype AudioManager = AudioManager(devices: seq<AudioDevice>)

  /** The entry name of the control group, which is not a device. */
  const ControlsLabel: string := "Audio Controls"

  /** Names containing this (case-sensitively) are controllers or hubs. */
  const ControllerMarker: string := "Controller"

  const UidPrefix: string := "device_"

  /** The two devices seeded when the inventory yields nothing. */
  const Defaults: seq<AudioDevice> := [
    AudioDevice(0, "Built-in Output", "builtin_output", true),
    AudioDevice(1, "Built-in Headphones", "builtin_headphones", true)
  ]

  /** A name is kept unless it is the control-group label or names a controller. */
  predicate Keep(name: string)
  {
    name != ControlsLabel && !Contains(name, ControllerMarker)
  }

  /** The hardware groups: the `SPAudioDataType` array of the document, or
      none when the document is absent or has no such array. */
  function Groups(payload: Option<Json>): seq<Json>
  {
    match payload
    case None => []
    case Some(data) => match ArrayAt(data, "SPAudioDataType")
      case Some(groups) => groups
      case None => []
  }

  /** The items of one group: its `_items` array, or none. */
  function Items(group: Json): seq<Json>
  {
    match ArrayAt(group, "_items")
    case Some(items) => items
    case None => []
  }

  /** All items of all groups, group by group, each group's items in order. */
  function Flatten(groups: seq<Json>): seq<Json>
  {
    if |groups| == 0 then [] else Flatten(groups[..|groups| - 1]) + Items(groups[|groups| - 1])
  }

  /** The item is accepted: its `_name` is a string that `Keep` admits. */
  predicate Accepted(item: Json)
  {
    StrAt(item, "_name").Some? && Keep(StrAt(item, "_name").value)
  }

  /** The names of the accepted items, in item order. */
  function AcceptedNames(items: seq<Json>): (r: seq<string>)
    ensures |r| <= |items|
  {
    if |items| == 0 then []
    else
      var last := items[|items| - 1];
      var init := AcceptedNames(items[..|items| - 1]);
      if Accepted(last) then init + [StrAt(last, "_name").value] else init
  }

  /** A name is accepted exactly when some item carries it as its `_name`
      and `Keep` admits it. */
  lemma {:induction false} AcceptedNamesMembers(items: seq<Json>)
    ensures forall n :: n in AcceptedNames(items) ==> Keep(n)
    ensures forall n :: n in AcceptedNames(items) <==>
      exists i :: 0 <= i < |items| && Accepted(items[i]) && StrAt(items[i], "_name") == Some(n)
  {
    if |items| > 0 {
      var init := items[..|items| - 1];
      AcceptedNamesMembers(init);
      assert forall i :: 0 <= i < |items| - 1 ==> init[i] == items[i];
    }
  }

  /** The positions of the accepted items, ascending: a position is listed
      exactly when its item is accepted. */
  function AcceptedPositions(items: seq<Json>): (r: seq<nat>)
    ensures forall j :: 0 <= j < |r| ==> r[j] < |items|
    ensures forall j, k :: 0 <= j < k < |r| ==> r[j] < r[k]
    ensures forall i :: 0 <= i < |items| ==> (i in r <==> Accepted(items[i]))
  {
    if |items| == 0 then []
    else
      var n := |items| - 1;
      var init := items[..n];
      var pos := AcceptedPositions(init);
      assert forall i :: 0 <= i < n ==> init[i] == items[i];
      assert n !in pos;
      if Accepted(items[n]) then pos + [n] else pos
  }

  /** The accepted names are the names at the accepted positions, in the
      same order: accepting is an order-preserving filter over the items. */
  lemma {:induction false} AcceptedNamesInOrder(items: seq<Json>)
    ensures var pos := AcceptedPositions(items);
      && |pos| == |AcceptedNames(items)|
      && forall j :: 0 <= j < |pos| ==> StrAt(items[pos[j]], "_name") == Some(AcceptedNames(items)[j])
  {
    if |items| > 0 {
      var n := |items| - 1;
      var init := items[..n];
      AcceptedNamesInOrder(init);
      AcceptedNamesSnoc(init, items[n]);
      assert init + [items[n]] == items;
      var pos := AcceptedPositions(init);
      assert forall j :: 0 <= j < |pos| ==> init[pos[j]] == items[pos[j]];
    }
  }

  /** The device built for the `n`-th accepted name: id `n as u32` (so it wraps
      past `u32::MAX`), uid "device_" followed by `n` in decimal, always an
      output. */
  function Discovered(n: nat, name: string): AudioDevice
  {
    AudioDevice(AsU32(n), name, UidPrefix + Show(n), true)
  }

  /** Numbers a run of names in order. */
  function Number(names: seq<string>): (r: seq<AudioDevice>)
    ensures |r| == |names|
    ensures forall i :: 0 <= i < |r| ==> r[i] == Discovered(i, names[i])
  {
    seq(|names|, i requires 0 <= i < |names| => Discovered(i, names[i]))
  }

  /** The devices the inventory yields, before any fallback. */
  function Parsed(payload: Option<Json>): seq<AudioDevice>
  {
    Number(AcceptedNames(Flatten(Groups(payload))))
  }

  /** The registry after population: the parsed devices, or the two defaults
      when there are none. The registry is never empty, device `i` has id
      `i as u32` and every device is an output. */
  function Populate(payload: Option<Json>): (r: seq<AudioDevice>)
    ensures |r| > 0
    ensures forall i :: 0 <= i < |r| ==> r[i].id == AsU32(i) && r[i].isOutput
  {
    var parsed := Parsed(payload);
    if |parsed| == 0 then Defaults else parsed
  }

  lemma NumberSnoc(names: seq<string>, name: string)
    ensures Number(names + [name]) == Number(names) + [Discovered(|names|, name)]
  {
  }

  lemma FlattenAppend(groups: seq<Json>, group: Json)
    ensures Flatten(groups + [group]) == Flatten(groups) + Items(group)
  {
  }

  lemma AcceptedNamesSnoc(items: seq<Json>, item: Json)
    ensures AcceptedNames(items + [item]) ==
      AcceptedNames(items) + (if Accepted(item) then [StrAt(item, "_name").value] else [])
  {
  }

  /** Visiting item `k` appends its device when the item is accepted and
      leaves the devices unchanged otherwise. */
  lemma NumberStep(before: seq<Json>, items: seq<Json>, k: nat)
    requires k < |items|
    ensures var devices := Number(AcceptedNames(before + items[..k]));
      Number(AcceptedNames(before + items[..k + 1])) ==
        if Accepted(items[k])
        then devices + [Discovered(|devices|, StrAt(items[k], "_name").value)]
        else devices
  {
    assert before + items[..k + 1] == (before + items[..k]) + [items[k]];
    AcceptedNamesSnoc(before + items[..k], items[k]);
    if Accepted(items[k]) {
      NumberSnoc(AcceptedNames(before + items[..k]), StrAt(items[k], "_name").value);
    }
  }

  /** The inner loop of `refresh_devices`: visits the items of one group in
      order and appends a device, numbered by the current registry length,
      for every accepted name. */
  method VisitItems(devices: seq<AudioDevice>, ghost before: seq<Json>, items: seq<Json>) returns (r: seq<AudioDevice>)
    requires devices == Number(AcceptedNames(before))
    ensures r == Number(AcceptedNames(before + items))
  {
    r := devices;
    assert before + items[..0] == before;
    for k := 0 to |items|
      invariant r == Number(AcceptedNames(before + items[..k]))
    {
      var name := StrAt(items[k], "_name");
      NumberStep(before, items, k);
      if name.Some? && Keep(name.value) {
        r := r + [AudioDevice(AsU32(|r|), name.value, UidPrefix + Show(|r|), true)];
      }
    }
    assert items[..|items|] == items;
  }

  /** `refresh_devices` after the inventory has been parsed: it clears the
      previous registry, walks the groups and their items in order, appends
      a device for every accepted name, and seeds the defaults if nothing was
      appended. The result does not depend on the previous registry. */
  method RefreshDevices(manager: AudioManager, payload: Option<Json>) returns (r: AudioManager)
    ensures r.devices == Populate(payload)
  {
    var devices: seq<AudioDevice> := [];
    var groups := Groups(payload);
    for g := 0 to |groups|
      invariant devices == Number(AcceptedNames(Flatten(groups[..g])))
    {
      devices := VisitItems(devices, Flatten(groups[..g]), Items(groups[g]));
      assert groups[..g + 1] == groups[..g] + [groups[g]];
      FlattenAppend(groups[..g], groups[g]);
    }
    assert groups[..|groups|] == groups;
    if |devices| == 0 {
      devices := Defaults;
    }
    r := AudioManager(devices);
  }

  /** `AudioManager::new`: a manager populated from an empty registry. */
  method NewManager(payload: Option<Json>) returns (m: AudioManager)
    ensures |m.devices| > 0
    ensures m.devices == Populate(payload)
  {
    m := RefreshDevices(AudioManager([]), payload);
  }

  /** Ids are unique and contiguous from 0 as long as the registry has at most
      2^32 devices; every parsed device carries uid "device_<id>". */
  lemma PopulateNumbering(payload: Option<Json>)
    ensures var r := Populate(payload);
      |r| <= U32Limit ==> forall i :: 0 <= i < |r| ==> r[i].id as int == i
    ensures var r := Populate(payload);
      |Parsed(payload)| > 0 ==> forall i :: 0 <= i < |r| ==> r[i].uid == UidPrefix + Show(i)
  {
  }

  /** Within a registry of at most 2^32 devices no two devices share an id,
      and no two parsed devices share a uid. */
  lemma PopulateDistinct(payload: Option<Json>, i: nat, j: nat)
    requires i < j < |Populate(payload)|
    ensures |Populate(payload)| <= U32Limit ==> Populate(payload)[i].id != Populate(payload)[j].id
    ensures Populate(payload)[i].uid != Populate(payload)[j].uid
  {
    var r := Populate(payload);
    if |Parsed(payload)| > 0 {
      var names := AcceptedNames(Flatten(Groups(payload)));
      assert r[i] == Discovered(i, names[i]) && r[j] == Discovered(j, names[j]);
      ShowInjective(i, j);
      assert r[i].uid[|UidPrefix|..] == Show(i);
      assert r[j].uid[|UidPrefix|..] == Show(j);
    }
  }

  /** When no item is accepted (absent or malformed document, missing
      `SPAudioDataType` array, no acceptable name), the registry is exactly
      the two defaults. */
  lemma PopulateFallback(payload: Option<Json>)
    ensures AcceptedNames(Flatten(Groups(payload))) == [] ==> Populate(payload) == Defaults
    ensures payload.None? ==> Populate(payload) == Defaults
    ensures payload.Some? && ArrayAt(payload.value, "SPAudioDataType").None? ==> Populate(payload) == Defaults
  {
  }

  /** When some item is accepted no default is added: the registry is exactly
      one device per accepted item, in group-then-item order, named after the
      item. */
  lemma PopulateParsed(payload: Option<Json>)
    ensures var names := AcceptedNames(Flatten(Groups(payload)));
      |names| > 0 ==>
        && |Populate(payload)| == |names|
        && (forall i :: 0 <= i < |names| ==> Populate(payload)[i].name == names[i])
        && (forall d :: d in Populate(payload) ==> d !in Defaults)
  {
    var names := AcceptedNames(Flatten(Groups(payload)));
    if |names| > 0 {
      forall d | d in Populate(payload)
        ensures d !in Defaults
      {
        assert d.uid[..|UidPrefix|] == UidPrefix;
      }
    }
  }
}
