# sound-out device registry, in Dafny

`sound-out` is a command-line tool for macOS that lists audio output devices
and switches the default one. The part of it with real logic is
`AudioManager` in `src/main.rs`, and this project models that part:

- **Population** (`refresh_devices`). The tool reads the parsed
  `system_profiler SPAudioDataType -json` document. It walks
  `SPAudioDataType[*]._items[*]._name` in group-then-item order. It drops
  the control-group entry `"Audio Controls"` and every name containing
  `"Controller"`. Each remaining name becomes an `AudioDevice` with id `n`
  (the registry length, cast to `u32`), uid `"device_<n>"` and
  `is_output = true`. If nothing remains, the registry gets two built-in
  devices instead.
- **Resolution** (`find_device_by_name_or_id`). An identifier that
  `str::parse::<u32>` accepts selects the first device with that id, and
  nothing else. Any other identifier selects the first device whose
  lower-cased name or uid contains the lower-cased identifier.
- **Per-application redirection** (`set_app_output_device`). It always
  fails.

Modules:

- `Wrappers`: `Option` and `Outcome`.
- `Json`: the parsed JSON tree, plus `get`/`as_array`/`as_str`.
- `Strings`: substring search and ASCII lower-casing.
- `Decimal`: the `u32` type, the `usize` decimal display and `parse::<u32>`.
- `Registry`: the device record, population and the imperative
  `refresh_devices` loop. The loop is proved equal to the functional
  definition.
- `Resolver`: resolution and redirection.
- `Scenarios`: the source's unit tests and sample inventories, written as
  concrete lemmas.

Behaviour of the code worth stating explicitly:

- Only items under a top-level `SPAudioDataType` array are read. A document
  whose `_items` array sits at the top level yields the two defaults, not
  its items (`Scenarios.UnwrappedItemsIgnored`).
- The empty identifier selects the first device whatever its name and uid,
  because the empty string is a substring of every string.
- "Numeric" means what `parse::<u32>` accepts: one optional `+`, then a
  non-empty run of decimal digits (leading zeros allowed) with a value of at
  most 4294967295. `-1`, `+`, the empty string and `4294967296` are not
  numeric, so they go to substring matching.
- A device's id is `len as u32`, so ids would wrap after 2^32 devices. Its
  uid uses the full `usize` length.

## Model

| member | source | states |
|---|---|---|
| Strings.ContainsIffOccurs | src/main.rs:73 | `Contains(hay, needle)` holds exactly when `needle` occurs as a contiguous run at some index of `hay`. This is `str::contains`, which the filter and the resolver both use. |
| Decimal.AsU32 | src/main.rs:75 | `len as u32` keeps a length that fits in a `u32` unchanged. |
| Decimal.Show | src/main.rs:77 | The decimal text of a `usize`, as `format!("{}", …)` writes it, is a non-empty run of digits with no sign and no leading zero, except for "0" itself. |
| Decimal.ValueOfShow | src/main.rs:77 | Reading back the decimal text of `n` used in a uid gives `n`. |
| Decimal.ShowInjective | src/main.rs:77 | Different device positions get different decimal texts, so different uids. |
| Decimal.ParseU32 | src/main.rs:110 | A text that `parse::<u32>` accepts is non-empty, starts with `+` or a digit, and has only digits after its first character. |
| Decimal.ParseLeadingZero | src/main.rs:110 | Leading zeros are ignored: "0" followed by a non-empty run of digits parses exactly as that run does. |
| Decimal.ParseShow | src/main.rs:110 | The decimal text of every `u32` parses back to that `u32`. |
| Decimal.ParseCanonical | src/main.rs:110 | A numeral with no sign and no leading zero parses to `k` exactly when it is `k`'s decimal text. |
| Decimal.ParsePlus | src/main.rs:110 | One leading `+` is accepted and ignored. `+` alone and a doubled `+` are rejected. |
| Decimal.ParseOverflow | src/main.rs:110 | 4294967296, one past the `u32` range, does not parse. |
| Decimal.ParseRejectsSignAndEmpty | src/main.rs:110 | The empty string and any text starting with `-` do not parse. |
| Decimal.ParseLower | src/main.rs:110-115 | Lower-casing the identifier does not change whether or how it parses. |
| Strings.Lower | src/main.rs:114-115 | Lower-casing keeps the length and maps each character by itself: ASCII capitals become the matching small letters, and every other character is kept. |
| Registry.AcceptedNames | src/main.rs:69-73 | The filter never keeps more names than there are items. Its full meaning is stated by `AcceptedNamesMembers` and `AcceptedNamesInOrder`. |
| Registry.VisitItems | src/main.rs:71-83 | Walking one group's items after a prefix of the inventory extends the devices numbered for that prefix to exactly the devices numbered for the prefix plus the group's items. |
| Registry.AcceptedNamesMembers | src/main.rs:68-73 | A name is kept exactly when some item has it as a string `_name` that is not `"Audio Controls"` and does not contain `"Controller"`. Every kept name passes that filter. |
| Registry.AcceptedPositions | src/main.rs:69-73 | The kept positions are ascending and in range. Position `i` is listed exactly when item `i` passes the filter. |
| Registry.AcceptedNamesInOrder | src/main.rs:69-80 | The kept names are the names at the kept positions, in the same order. No other names are kept, and nothing is reordered. |
| Registry.RefreshDevices | src/main.rs:53-107 | The nested group/item loop, which appends a device numbered by the current length, gives exactly the functional registry `Populate`. It ignores the previous registry, which is cleared. |
| Registry.NewManager | src/main.rs:45-51 | A new manager's registry is never empty and equals the populated registry. |
| Registry.Populate | src/main.rs:53-104 | The populated registry is never empty. Device `i` has id `i as u32` and is an output. |
| Registry.PopulateNumbering | src/main.rs:74-80 | With at most 2^32 devices, ids are exactly 0, 1, 2, … in order. Every parsed device's uid is `"device_"` followed by its position. |
| Registry.PopulateDistinct | src/main.rs:74-80 | No two devices share a uid. With at most 2^32 devices, no two share an id. |
| Registry.PopulateFallback | src/main.rs:67-104 | If no item is kept, the registry is exactly the two built-in devices. That covers an absent document and a missing `SPAudioDataType` array. |
| Registry.PopulateParsed | src/main.rs:69-104 | If some item is kept, there is one device per kept name, in order and named after it, and no built-in device is added. |
| Resolver.FindFirst | src/main.rs:111-116 | The result is the first position whose device satisfies the predicate, or none when no device does. `FindDevice` indexes the registry with this position to get the device that `Iterator::find` returns. |
| Resolver.FindDevice | src/main.rs:109-118 | A device is found exactly when one satisfies the identifier's rule: the id for a `u32` identifier, otherwise the lower-cased name or uid containing the lower-cased identifier. The result is the first such device in registry order. |
| Resolver.NumericNeverMatchesText | src/main.rs:110-111 | A `u32` identifier that no device's id equals resolves to nothing, whatever the names and uids contain. |
| Resolver.FindDeviceIgnoresCase | src/main.rs:113-116 | An identifier and its lower-cased form resolve to the same device. |
| Resolver.EmptyIdentifierSelectsFirst | src/main.rs:109-118 | The empty identifier resolves to the first device of a non-empty registry. |
| Resolver.FindNumberedId | src/main.rs:110-111 | In a registry where device `j` has id `j as u32`, the decimal text of a position below 2^32 resolves to the device at that position. |
| Resolver.FindListedId | src/main.rs:74-75 | Every device of a populated registry with position below 2^32 is found by the id the device list prints for it. |
| Resolver.SetAppOutputDevice | src/main.rs:146-157 | Redirecting an application's output fails for every application name and device. |
| Scenarios.FindAirPodsByName | src/main.rs:280-283 | `"AirPods"` finds the AirPods device. |
| Scenarios.FindAirPodsByFragment | src/main.rs:285-288 | `"air"` finds the AirPods device, case-insensitively. |
| Scenarios.FindAirPodsById | src/main.rs:290-293 | `"1"` finds the device with id 1. |
| Scenarios.FindNonexistent | src/main.rs:295-297 | `"nonexistent"` finds nothing. |
| Scenarios.NumbersNeverMatchNames | src/main.rs:110-111 | `"7"` does not find a device named "Speaker 7" whose id is 0. `"+0"` and `"000"` do find it. |
| Scenarios.RedirectionAlwaysFails | src/main.rs:313-315 | The redirection request in the unit test fails. |
| Scenarios.ControlEntryDropped | src/main.rs:67-80 | A group holding AirPods and `"Audio Controls"` yields AirPods alone, with id 0 and uid `device_0`. |
| Scenarios.UnwrappedItemsIgnored | src/main.rs:68 | An `_items` array outside `SPAudioDataType` is not read, so the two built-in devices are used. |
| Scenarios.OnlyNoiseYieldsDefaults | src/main.rs:68-104 | Some inputs produce no device: a controller, a non-string name, the control entry, and a group that is not an object. The result is then the two built-in devices. |

## Left out

- Running `system_profiler`, `SwitchAudioSource` and `ps`, and the failures when they cannot start. These are process I/O. Population starts from the parsed document, with `None` standing for text that serde_json cannot parse.
- JSON text parsing by serde_json and `String::from_utf8_lossy`. Both are library calls. The model takes the parsed tree as input.
- `set_default_device`: its only behaviour is the outcome of an external process.
- `main`: clap argument parsing, printing, the device-list table, error messages and exit codes. This is command-line glue.
- The texts of the error messages. The model states only that an error is returned.
- Resolver.FindDevice: lower-cases ASCII letters only, where Rust's `to_lowercase` applies full Unicode case mapping. Names and identifiers with non-ASCII capital letters may resolve differently.
- Resolver.FindDeviceIgnoresCase: states case-insensitivity for ASCII lower-casing only, for the same reason.
- JSON numbers are modelled as reals. The walk never reads them.
