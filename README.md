# ruuvi_reader, modelled in Dafny

`ruuvi_reader` turns the Bluetooth LE advertisements of RuuviTag sensors into a stream of
readings. This project models its two core pieces and proves what they promise:

- **src/ruuvi.rs** (module `Ruuvi`, file `ruuvi.dfy`): the `SensorData` reading, its
  constructor, the milli-Celsius accessor, the address rendering, and `parse_sensor_data`.
  `parse_sensor_data` consults a device's manufacturer data and rejects payloads of two bytes
  or fewer. It hands the little-endian identifier and the rest of the bytes to the protocol
  decoder, and routes the decoder's outcome three ways: an unknown manufacturer gives nothing,
  any other error is reported, and decoded values are projected onto a reading (or give
  nothing when a mandatory field is missing).
- **src/lib.rs** (module `RuuviReader`, file `scan.dfy`): `ScanResults::next`, which pulls
  radio events, keeps discovery and update events, and returns the first parse that gives
  something. It returns `None` only when the event channel has ended.

Supporting files: `wrappers.dfy` (Option and Result, named as in Rust) and `fmt.dfy` (Rust's
`{:X?}` integer rendering, `join`, and `split` as its inverse).

The external pieces are parameters rather than code:
- the adapter's lookup `adapter.peripheral(address)…manufacturer_data` is a total function
  `Lookup = BDAddr -> Option<seq<bv8>>`. The adapter's peripheral table changes while a scan
  runs, because each advertisement replaces a tag's manufacturer data. The iterator therefore
  holds an `Adapter = nat -> Lookup`, and `adapter(i)` is the lookup as it stands when the
  event at feed position i is handled;
- the protocol decoder `SensorValues::from_manufacturer_specific_data` is a total function
  `Decoder = (bv16, seq<bv8>) -> Result<SensorValues, ParseError>`;
- the decoder's measurement set is `SensorValues`, a record holding one optional value per
  getter;
- the event channel is a finite sequence `feed` read through a cursor. The end of the
  sequence stands for the channel's disconnection.

Manufacturer-data bytes are `bv8` and the manufacturer identifier is a `bv16`, because the
code builds the identifier with a 16-bit shift and or. Numeric fields are integer subset
types with the Rust widths (`uint8` … `int32`); the address bytes are `uint8`.

`parse_sensor_data` has two forms. `Ruuvi.ParseSensorData` is a method that follows the
code statement by statement: early returns, `:-` where the code uses `?`, and the three
optional fields assigned one after another. `Ruuvi.SensorDataOf` is a declarative function
built from `Project` and `Route`. The method is proved equal to the function, and the
lemmas state the source's promises about the function.

The address rendering follows the code. `{:X?}` on a `u8` does not pad, so the bytes
`01 02 03 04 05 CC` render as `"CC:5:4:3:2:1"`, and a zero-padded form such as
`"CC:05:04:03:02:01"` is not what the code produces (`Ruuvi.MacAddressNoPadding`).

## Model

| member | source | states |
|---|---|---|
| `Fmt.UpperHex` | src/ruuvi.rs:62 | `{:X?}` of a number: one or more upper-case hex digits whose value is the number, no leading zero, one digit exactly below 16 and at most two below 256 |
| `Fmt.Reverse` | src/ruuvi.rs:63 | `.rev()`: same length, element i is element n-1-i of the input |
| `Fmt.Join` | src/ruuvi.rs:65 | `.join(":")`; no ensures of its own: `Fmt.SplitJoin` proves that splitting undoes it and `Fmt.CountJoin` counts its separators |
| `Fmt.SplitJoin` | src/ruuvi.rs:65 | splitting on the separator undoes `join` when no part contains the separator |
| `Fmt.CountJoin` | src/ruuvi.rs:65 | `join` of n separator-free parts holds exactly n-1 separators |
| `Ruuvi.NewSensorData` | src/ruuvi.rs:34-53 | `SensorData::new` stores address, humidity, temperature, pressure, battery and acceleration unchanged despite the swapped argument order; the three optional fields are None |
| `Ruuvi.WrapI32` | src/ruuvi.rs:56 | two's-complement wrap into i32: the result is congruent to the input modulo 2^32 and equals it when it already fits |
| `Ruuvi.TemperatureAsMillicelsius` | src/ruuvi.rs:55-57 | for temperature <= i32::MAX the result is exactly temperature - 273150; in every case it is the i32 congruent to temperature - 273150 modulo 2^32 |
| `Ruuvi.HexByteRoundTrip` | src/ruuvi.rs:62 | each byte's `{:X?}` group reads back as that byte |
| `Ruuvi.JoinHexGroups` | src/ruuvi.rs:64-65 | hex groups joined with ':' split back into the same groups, with one colon fewer than groups |
| `Ruuvi.HexGroups` | src/ruuvi.rs:60-62 | the `{:X?}` group of each address byte, in byte order; no ensures of its own: `Ruuvi.ReversedGroupsAt` and `Ruuvi.MacAddressStringGroups` state its groups after `.rev()` |
| `Ruuvi.ReversedGroupsAt` | src/ruuvi.rs:60-64 | after `.rev()` there are 6 groups, and group k is the one- or two-digit `{:X?}` form of byte 5-k |
| `Ruuvi.MacAddressAsString` | src/ruuvi.rs:59-66 | the address string; no ensures of its own: `Ruuvi.MacAddressStringGroups`, `Ruuvi.MacAddressRoundTrip` and `Ruuvi.MacAddressNoPadding` characterise it |
| `Ruuvi.MacAddressStringGroups` | src/ruuvi.rs:59-66 | the address string has exactly 6 groups and 5 colons; group k is the `{:X?}` form of byte 5-k (reversed order), one or two upper-case hex digits |
| `Ruuvi.MacAddressRoundTrip` | src/ruuvi.rs:59-66 | parsing the address string gives back the six bytes |
| `Ruuvi.MacAddressNoPadding` | src/ruuvi.rs:62 | bytes 01 02 03 04 05 CC render as "CC:5:4:3:2:1": no zero padding |
| `Ruuvi.LittleEndianId` | src/ruuvi.rs:80 | the 16-bit shift-and-or of the first two bytes has the value data[1]*256 + data[0]; its low byte is data[0] and its high byte data[1] |
| `Ruuvi.Project` | src/ruuvi.rs:82-108 | a measurement set onto a reading; no ensures of its own: `Ruuvi.ReadingProjection` states what it gives |
| `Ruuvi.Route` | src/ruuvi.rs:81-114 | the three ways a decoder outcome goes; no ensures of its own: `Ruuvi.UnknownManufacturerDropped`, `Ruuvi.OtherErrorReported` and `Ruuvi.ReadingProjection` state each way |
| `Ruuvi.SensorDataOf` | src/ruuvi.rs:69-119 | what `parse_sensor_data` returns; no ensures of its own: `Ruuvi.ParseSensorData` meets it, and the lemmas below characterise it |
| `Ruuvi.ParseSensorData` | src/ruuvi.rs:69-119 | the step-by-step code returns exactly what `SensorDataOf` specifies |
| `Ruuvi.LengthGate` | src/ruuvi.rs:73-79 | no manufacturer data, or data of length <= 2, gives None whatever the decoder does (the fall-through at line 118) |
| `Ruuvi.DecoderConsultedOnce` | src/ruuvi.rs:79-81 | the result depends on the decoder only at (little-endian id of bytes 0 and 1, bytes from 2 on): two decoders that agree there give the same result |
| `Ruuvi.UnknownManufacturerDropped` | src/ruuvi.rs:110-112 | a decoder error `UnknownManufacturerId(_)` gives None |
| `Ruuvi.OtherErrorReported` | src/ruuvi.rs:110-114 | every other decoder error e gives Some(Err(e)) with the same e |
| `Ruuvi.ReadingProjection` | src/ruuvi.rs:82-108 | after a successful decode: a missing mandatory field gives None, not an error; otherwise the result is Some(Ok(d)) where d holds the device address, each mandatory getter's value, and each optional field exactly as its getter returned it |
| `Ruuvi.ReadingNeedsDecode` | src/ruuvi.rs:78-108 | a Some(Ok(d)) only comes from data longer than 2 bytes that decodes and projects to d |
| `Ruuvi.NoResultCases` | src/ruuvi.rs:73-118 | the result is None if and only if the gate fails, the manufacturer is unknown, or a mandatory field is missing |
| `RuuviReader.EventItem` | src/lib.rs:60-68 | what one event contributes under the adapter's lookup at its position; no ensures of its own: `RuuviReader.OtherEventsSkipped` and `RuuviReader.ErrorThenContinue` state its cases |
| `RuuviReader.Items` | src/lib.rs:57-71 | the items a run of events yields, in order; no ensures of its own: the lemmas below characterise it |
| `RuuviReader.ItemsAppend` | src/lib.rs:56-73 | the items of two consecutive runs of events are the items of each, in order |
| `RuuviReader.ItemsEmpty` | src/lib.rs:57-71 | a run of events yields nothing if and only if no event in it yields anything |
| `RuuviReader.ItemsBound` | src/lib.rs:57-66 | at most one item per event |
| `RuuviReader.ItemsAreParsedSightings` | src/lib.rs:60-66 | the items are `parse_sensor_data` filter-mapped over the discovery and update events in feed order, each parsed with the adapter's lookup at its own position |
| `RuuviReader.OtherEventsSkipped` | src/lib.rs:68 | an event that is neither a discovery nor an update is consumed and contributes no item |
| `RuuviReader.ErrorThenContinue` | src/lib.rs:63-64 | a reported error is an ordinary item; the events after it are still read |
| `RuuviReader.FreshReadings` | src/lib.rs:61-64 | two updates from one tag yield two readings, each with the data the adapter held when its event was handled: repeated sightings are neither merged nor frozen |
| `RuuviReader.MixedBeacons` | src/lib.rs:57-71 | a readable tag, another manufacturer's beacon and a 1-byte payload produce exactly the one reading |
| `RuuviReader.RemainingIsItems` | src/lib.rs:56-73 | reading the feed position by position, as the iterator does, gives the items of the rest of the feed |
| `RuuviReader.ScanResults.constructor` | src/lib.rs:38-41 | the iterator holds the adapter, the decoder and the unread channel; everything is still pending |
| `RuuviReader.ScanResults.Next` | src/lib.rs:56-73 | consumes a prefix of the remaining feed: None only at the end of the feed, with no remaining event yielding; Some(r) is the item of the last consumed event under the adapter's lookup at that position, and every event before it yields nothing; the pending items lose exactly the returned one |
| `RuuviReader.Drain` | examples/print_data.rs:6-11 | calling `next` until None terminates (measure: events left) and yields exactly the pending items, errors included, equal to `parse_sensor_data` filter-mapped over the sightings in feed order, each with the lookup at its position |

## Left out

- The protocol decoder's internals: the format-3 and format-5 byte layouts, the scaling, and the format-3 encode/decode round trip. They belong to the `ruuvi_sensor_protocol` crate, which is not part of this model, so the decoder and its getters are parameters.
- `ParseError` keeps only the `UnknownManufacturerId` variant. The crate's other variants are not part of this model; `OtherError(detail)` stands for all of them, since the code treats them alike.
- `CentralEvent` has btleplug's other kinds (lost, connected, disconnected). The code treats every kind except discovery and update the same way (`_ => continue`), so the exact list does not matter.
- The adapter lookup at one feed position is one function. The `peripheral(address)` step and the `properties().manufacturer_data` step are not modelled separately, because only their combined `Option` reaches the code. How the radio stack updates the peripheral table between events is not modelled: the lookup at each position is arbitrary.
- Hardware and session glue is not modelled: `BleAdapter::connect`, `BleAdapter::start_scan`, the btleplug `Manager`, `active(false)`, `filter_duplicates(false)` and `event_receiver().unwrap()` (src/lib.rs:19-43). These are calls into a radio stack.
- The blocking `mpsc::Receiver` and the radio stack's delivery threads are not modelled; they are concurrency. The feed is a finite sequence whose end stands for disconnection.
- TemperatureAsMillicelsius: models the release build, where an overflowing `i32` subtraction wraps. A debug build would panic for temperatures from 2^31 up to 2^31 + 273149 mK.
- The `#[derive(Debug)]` formatting of `SensorData` and the printing in `examples/print_data.rs` are output only. `Drain` models only the consuming loop there.
