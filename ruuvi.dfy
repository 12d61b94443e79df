/** The reading a RuuviTag broadcast turns into, and the projection from the protocol
    decoder's measurement set onto it (src/ruuvi.rs).

    Three things outside this file are parameters here: the adapter's lookup of a
    peripheral's manufacturer-specific data (`Lookup`), the protocol decoder
    `SensorValues::from_manufacturer_specific_data` (`Decoder`), and the decoder's
    measurement set, whose getters are modelled as optional fields (`SensorValues`). */
module Ruuvi {
  import opened Wrappers
  import opened Fmt

  type uint8 = x: int | 0 <= x < 0x100
  type uint16 = x: int | 0 <= x < 0x1_0000
  type uint32 = x: int | 0 <= x < 0x1_0000_0000
  type int8 = x: int | -0x80 <= x < 0x80
  type int16 = x: int | -0x8000 <= x < 0x8000
  type int32 = x: int | -0x8000_0000 <= x < 0x8000_0000

  /** `[u8; 6]` */
  type MacAddress = s: seq<uint8> | |s| == 6 witness [0, 0, 0, 0, 0, 0]

  /** btleplug's device address: the six bytes in `address`. */
  datatype BDAddr = BDAddr(address: MacAddress)

  /** An acceleration vector in milli-G, one component per axis. */
  type Acceleration = (int16, int16, int16)

  /** Values read from a RuuviTag sensor. */
  datatype SensorData = SensorData(
    macAddress: MacAddress,
    humidity: uint32,                             // parts per million
    temperature: uint32,                          // milli-kelvin
    pressure: uint32,                             // pascals
    acceleration: Acceleration,
    batteryPotential: uint16,                     // milli-volts
    txPower: Option<int8>,                        // dBm
    movementCounter: Option<uint32>,
    measurementSequenceNumber: Option<uint32>)

  /** What the decoder's measurement set answers to each of its getters. */
  datatype SensorValues = SensorValues(
    humidityAsPpm: Option<uint32>,
    temperatureAsMillikelvins: Option<uint32>,
    pressureAsPascals: Option<uint32>,
    accelerationVectorAsMilliG: Option<Acceleration>,
    batteryPotentialAsMillivolts: Option<uint16>,
    txPowerAsDbm: Option<int8>,
    movementCounter: Option<uint32>,
    measurementSequenceNumber: Option<uint32>)

  /** The decoder's failures: an identifier it does not know, or anything else
      (the other variants of the protocol crate's error, summarised by `detail`). */
  datatype ParseError = UnknownManufacturerId(id: bv16) | OtherError(detail: string)

  type Lookup = BDAddr -> Option<seq<bv8>>
  type Decoder = (bv16, seq<bv8>) -> Result<SensorValues, ParseError>

  const I32Max: int := 0x7FFF_FFFF
  const AbsoluteZeroMilliKelvin: int := 273_150

  /** `SensorData::new`: note that the battery potential comes before the acceleration
      among the arguments. */
  function NewSensorData(macAddress: MacAddress, humidity: uint32, temperature: uint32, pressure: uint32,
                         batteryPotential: uint16, acceleration: Acceleration): (d: SensorData)
    ensures d.macAddress == macAddress && d.humidity == humidity && d.temperature == temperature
    ensures d.pressure == pressure && d.batteryPotential == batteryPotential && d.acceleration == acceleration
    ensures d.txPower.None? && d.movementCounter.None? && d.measurementSequenceNumber.None?
  {
    SensorData(macAddress, humidity, temperature, pressure, acceleration, batteryPotential, None, None, None)
  }

  /** Two's-complement wrap-around of an integer into 32 bits: what `as i32` does, and
      what an overflowing `i32` subtraction does when overflow checks are off. */
  function WrapI32(x: int): (r: int32)
    ensures (x - r) % 0x1_0000_0000 == 0
    ensures -0x8000_0000 <= x < 0x8000_0000 ==> r == x
  {
    (x + 0x8000_0000) % 0x1_0000_0000 - 0x8000_0000
  }

  /** `temperature as i32 - 273_150`. */
  function TemperatureAsMillicelsius(d: SensorData): (r: int32)
    ensures d.temperature <= I32Max ==> r == d.temperature - AbsoluteZeroMilliKelvin
    ensures (d.temperature - AbsoluteZeroMilliKelvin - r) % 0x1_0000_0000 == 0
  {
    WrapI32(WrapI32(d.temperature) - AbsoluteZeroMilliKelvin)
  }

  /** Each address byte rendered with `{:X?}`, in the stored order. */
  function HexGroups(mac: seq<uint8>): seq<string> {
    seq(|mac|, i requires 0 <= i < |mac| => UpperHex(mac[i]))
  }

  /** `mac_address_as_string`: the bytes rendered in reverse order, joined with ':'. */
  function MacAddressAsString(mac: MacAddress): string {
    Join(Reverse(HexGroups(mac)), ':')
  }

  /** A group as the address rendering produces it: one or two upper-case hex digits. */
  predicate IsHexGroup(g: string) {
    1 <= |g| <= 2 && IsUpperHex(g)
  }

  /** Reads one group back as a byte. */
  function ParseHexByte(g: string): (b: Option<uint8>)
    ensures b.Some? <==> IsHexGroup(g)
  {
    if IsHexGroup(g) then
      HexGroupBound(g);
      Some(HexValue(g))
    else
      None
  }

  lemma HexGroupBound(g: string)
    requires IsHexGroup(g)
    ensures HexValue(g) < 0x100
  {
    assert g[..0] == [];
    if |g| == 2 {
      var hi := g[..1];
      assert hi[..0] == [] && hi[0] == g[0];
      assert HexValue(hi) == DigitValue(g[0]);
      assert HexValue(g) == DigitValue(g[0]) * 16 + DigitValue(g[1]);
    }
  }

  /** Reads an address back from its rendering: six colon-separated groups of one or
      two upper-case hex digits, the last group being the first byte. */
  function ParseMacAddress(s: string): Option<MacAddress> {
    ParseGroups(Split(s, ':'))
  }

  /** Six groups read back as an address, the last group being the first byte. */
  function ParseGroups(groups: seq<string>): Option<MacAddress> {
    if |groups| == 6 && forall k :: 0 <= k < 6 ==> ParseHexByte(groups[k]).Some? then
      Some(seq(6, i requires 0 <= i < 6 => ParseHexByte(groups[5 - i]).value))
    else
      None
  }

  /** Each byte's group reads back as that byte. */
  lemma HexByteRoundTrip(b: uint8)
    ensures ParseHexByte(UpperHex(b)) == Some(b)
  {
  }

  /** Joining hex groups with ':' and splitting again gives the groups back, and puts
      one colon fewer than there are groups into the string. */
  lemma JoinHexGroups(parts: seq<string>)
    requires |parts| >= 1
    requires forall k :: 0 <= k < |parts| ==> IsHexGroup(parts[k])
    ensures Split(Join(parts, ':'), ':') == parts
    ensures Count(Join(parts, ':'), ':') == |parts| - 1
  {
    forall k | 0 <= k < |parts| ensures ':' !in parts[k] && Count(parts[k], ':') == 0 {
      CountZero(parts[k], ':');
    }
    SplitJoin(parts, ':');
    CountJoin(parts, ':');
  }

  /** The rendering has six groups, group k being the `{:X?}` form of byte 5 - k, each
      one or two upper-case hex digits, separated by exactly five colons. */
  lemma MacAddressStringGroups(mac: MacAddress)
    ensures var groups := Split(MacAddressAsString(mac), ':');
      && |groups| == 6
      && forall k :: 0 <= k < 6 ==> groups[k] == UpperHex(mac[5 - k]) && IsHexGroup(groups[k])
    ensures Count(MacAddressAsString(mac), ':') == 5
  {
    ReversedGroupsAt(mac);
    JoinHexGroups(Reverse(HexGroups(mac)));
  }

  /** Group k of the reversed groups is the rendering of byte 5 - k. */
  lemma ReversedGroupsAt(mac: MacAddress)
    ensures var parts := Reverse(HexGroups(mac));
      |parts| == 6 && forall k :: 0 <= k < 6 ==> parts[k] == UpperHex(mac[5 - k]) && IsHexGroup(parts[k])
  {
    var groups := HexGroups(mac);
    assert |groups| == 6;
    forall k | 0 <= k < 6 ensures Reverse(groups)[k] == UpperHex(mac[5 - k]) && IsHexGroup(UpperHex(mac[5 - k])) {
      assert groups[5 - k] == UpperHex(mac[5 - k]);
    }
  }

  /** Parsing the rendering gives back the address. */
  lemma MacAddressRoundTrip(mac: MacAddress)
    ensures ParseMacAddress(MacAddressAsString(mac)) == Some(mac)
  {
    MacAddressStringGroups(mac);
    var groups := Split(MacAddressAsString(mac), ':');
    forall k | 0 <= k < 6 ensures ParseHexByte(groups[k]) == Some(mac[5 - k]) {
      HexByteRoundTrip(mac[5 - k]);
    }
    ParseReversedGroups(groups, mac);
  }

  lemma ParseReversedGroups(groups: seq<string>, mac: MacAddress)
    requires |groups| == 6
    requires forall k :: 0 <= k < 6 ==> ParseHexByte(groups[k]) == Some(mac[5 - k])
    ensures ParseGroups(groups) == Some(mac)
  {
    assert forall k :: 0 <= k < 6 ==> ParseHexByte(groups[k]).Some?;
    var back := seq(6, i requires 0 <= i < 6 => ParseHexByte(groups[5 - i]).value);
    assert ParseGroups(groups) == Some(back);
    forall i | 0 <= i < 6 ensures back[i] == mac[i] {
      assert ParseHexByte(groups[5 - i]) == Some(mac[i]);
    }
    assert back == mac;
  }

  /** The rendering does not zero-pad: bytes 01 02 03 04 05 CC render as "CC:5:4:3:2:1". */
  lemma MacAddressNoPadding()
    ensures MacAddressAsString([0x01, 0x02, 0x03, 0x04, 0x05, 0xCC]) == "CC:5:4:3:2:1"
  {
    ExampleGroups();
    ExampleJoin();
  }

  lemma ExampleGroups()
    ensures Reverse(HexGroups([0x01, 0x02, 0x03, 0x04, 0x05, 0xCC])) == ["CC", "5", "4", "3", "2", "1"]
  {
    var mac: MacAddress := [0x01, 0x02, 0x03, 0x04, 0x05, 0xCC];
    ReversedGroupsAt(mac);
    SmallHexValues();
    HexOfCC();
    var parts := Reverse(HexGroups(mac));
    assert parts[0] == "CC" && parts[1] == "5" && parts[2] == "4";
    assert parts[3] == "3" && parts[4] == "2" && parts[5] == "1";
  }

  lemma SmallHexValues()
    ensures UpperHex(1) == "1" && UpperHex(2) == "2" && UpperHex(3) == "3"
    ensures UpperHex(4) == "4" && UpperHex(5) == "5"
  {
  }

  lemma HexOfCC()
    ensures UpperHex(0xCC) == "CC"
  {
    assert UpperHex(0xC) == "C";
  }

  lemma ExampleJoin()
    ensures Join(["CC", "5", "4", "3", "2", "1"], ':') == "CC:5:4:3:2:1"
  {
    var parts := ["CC", "5", "4", "3", "2", "1"];
    assert Join(parts[5..], ':') == "1";
    assert Join(parts[4..], ':') == "2:1";
    assert Join(parts[3..], ':') == "3:2:1";
    assert Join(parts[2..], ':') == "4:3:2:1";
    assert Join(parts[1..], ':') == "5:4:3:2:1";
  }

  /** `((data[1] as u16) << 8) | data[0] as u16`: the little-endian identifier in the
      first two bytes, on 16-bit words. */
  function LittleEndianId(lo: bv8, hi: bv8): (id: bv16)
    ensures id as int == hi as int * 0x100 + lo as int
    ensures id & 0xFF == lo as bv16 && id >> 8 == hi as bv16
  {
    ShiftOrIsSum(hi, lo);
    SumAsInt(hi, lo);
    ((hi as bv16) << 8) | (lo as bv16)
  }

  lemma ShiftOrIsSum(h: bv8, l: bv8)
    ensures ((h as bv16) << 8) | (l as bv16) == (h as bv16) * 0x100 + (l as bv16)
  {
  }

  lemma SumAsInt(h: bv8, l: bv8)
    ensures ((h as bv16) * 0x100 + (l as bv16)) as int == h as int * 0x100 + l as int
  {
  }

  /** The lookup found data longer than the two identifier bytes, and the decoder,
      given the little-endian identifier and the rest, produced these values. */
  ghost predicate Decodes(lookup: Lookup, decode: Decoder, address: BDAddr, values: SensorValues) {
    && lookup(address).Some?
    && var data := lookup(address).value;
    && |data| > 2
    && decode(LittleEndianId(data[0], data[1]), data[2..]) == Ok(values)
  }

  predicate HasMandatoryFields(values: SensorValues) {
    && values.humidityAsPpm.Some?
    && values.temperatureAsMillikelvins.Some?
    && values.pressureAsPascals.Some?
    && values.accelerationVectorAsMilliG.Some?
    && values.batteryPotentialAsMillivolts.Some?
  }

  /** The reading a measurement set gives: none if a mandatory field is missing. */
  function Project(address: BDAddr, values: SensorValues): Option<SensorData> {
    if HasMandatoryFields(values) then
      Some(SensorData(address.address,
                      values.humidityAsPpm.value,
                      values.temperatureAsMillikelvins.value,
                      values.pressureAsPascals.value,
                      values.accelerationVectorAsMilliG.value,
                      values.batteryPotentialAsMillivolts.value,
                      values.txPowerAsDbm,
                      values.movementCounter,
                      values.measurementSequenceNumber))
    else
      None
  }

  /** What one decoder outcome becomes: unknown manufacturers vanish, other errors are
      reported, a measurement set is projected. */
  function Route(address: BDAddr, outcome: Result<SensorValues, ParseError>): Option<Result<SensorData, ParseError>> {
    match outcome
    case Err(UnknownManufacturerId(_)) => None
    case Err(err) => Some(Err(err))
    case Ok(values) =>
      match Project(address, values)
      case None => None
      case Some(d) => Some(Ok(d))
  }

  /** What `parse_sensor_data` returns for an address. */
  function SensorDataOf(lookup: Lookup, decode: Decoder, address: BDAddr): Option<Result<SensorData, ParseError>> {
    match lookup(address)
    case None => None
    case Some(data) =>
      if |data| <= 2 then None else Route(address, decode(LittleEndianId(data[0], data[1]), data[2..]))
  }

  /** `parse_sensor_data`, step by step. */
  method ParseSensorData(lookup: Lookup, decode: Decoder, address: BDAddr)
    returns (r: Option<Result<SensorData, ParseError>>)
    ensures r == SensorDataOf(lookup, decode, address)
  {
    var found := lookup(address);
    if found.Some? {
      var data := found.value;
      if |data| > 2 {
        var id := LittleEndianId(data[0], data[1]);
        var outcome := decode(id, data[2..]);
        assert SensorDataOf(lookup, decode, address) == Route(address, outcome);
        match outcome {
          case Ok(values) =>
            var humidity :- values.humidityAsPpm;
            var temperature :- values.temperatureAsMillikelvins;
            var pressure :- values.pressureAsPascals;
            var acceleration :- values.accelerationVectorAsMilliG;
            var batteryPotential :- values.batteryPotentialAsMillivolts;

            var sensorData := NewSensorData(address.address, humidity, temperature, pressure,
                                            batteryPotential, (acceleration.0, acceleration.1, acceleration.2));
            ghost var projected := Project(address, values).value;
            assert sensorData == projected.(txPower := None, movementCounter := None, measurementSequenceNumber := None);

            // Data format 5 only
            if values.measurementSequenceNumber.Some? {
              sensorData := sensorData.(measurementSequenceNumber := Some(values.measurementSequenceNumber.value));
            }
            assert sensorData == projected.(txPower := None, movementCounter := None);
            if values.movementCounter.Some? {
              sensorData := sensorData.(movementCounter := Some(values.movementCounter.value));
            }
            assert sensorData == projected.(txPower := None);
            if values.txPowerAsDbm.Some? {
              sensorData := sensorData.(txPower := Some(values.txPowerAsDbm.value));
            }
            assert sensorData == projected;
            return Some(Ok(sensorData));
          case Err(err) =>
            match err {
              case UnknownManufacturerId(_) => return None;
              case _ => return Some(Err(err));
            }
        }
      }
    }
    return None;
  }

  /** No data, or data no longer than the identifier, gives no result, whatever the decoder. */
  lemma LengthGate(lookup: Lookup, decode: Decoder, address: BDAddr)
    requires lookup(address).None? || |lookup(address).value| <= 2
    ensures SensorDataOf(lookup, decode, address) == None
  {
  }

  /** The decoder is consulted at one input only: the little-endian identifier of the
      first two bytes, and the bytes after them. Two decoders that agree there (or a
      lookup that makes the gate fail) give the same result. */
  lemma DecoderConsultedOnce(lookup: Lookup, decode: Decoder, other: Decoder, address: BDAddr)
    requires lookup(address).Some? && |lookup(address).value| > 2 ==>
      var data := lookup(address).value;
      decode(LittleEndianId(data[0], data[1]), data[2..]) == other(LittleEndianId(data[0], data[1]), data[2..])
    ensures SensorDataOf(lookup, decode, address) == SensorDataOf(lookup, other, address)
  {
    if lookup(address).Some? && |lookup(address).value| > 2 {
      var data := lookup(address).value;
      var id := LittleEndianId(data[0], data[1]);
      assert SensorDataOf(lookup, decode, address) == Route(address, decode(id, data[2..]));
      assert SensorDataOf(lookup, other, address) == Route(address, other(id, data[2..]));
    }
  }

  /** An unknown manufacturer identifier is dropped. */
  lemma UnknownManufacturerDropped(lookup: Lookup, decode: Decoder, address: BDAddr, id: bv16)
    requires lookup(address).Some? && |lookup(address).value| > 2
    requires var data := lookup(address).value;
      decode(LittleEndianId(data[0], data[1]), data[2..]) == Err(UnknownManufacturerId(id))
    ensures SensorDataOf(lookup, decode, address) == None
  {
  }

  /** Any other decoder error is reported unchanged. */
  lemma OtherErrorReported(lookup: Lookup, decode: Decoder, address: BDAddr, err: ParseError)
    requires lookup(address).Some? && |lookup(address).value| > 2
    requires var data := lookup(address).value;
      decode(LittleEndianId(data[0], data[1]), data[2..]) == Err(err)
    requires !err.UnknownManufacturerId?
    ensures SensorDataOf(lookup, decode, address) == Some(Err(err))
  {
  }

  /** After a successful decode, a reading is produced exactly when the five mandatory
      getters all answer, and it holds the address, the five values and the three
      optional values as the getters gave them. A missing mandatory field gives no
      result at all, not an error. */
  lemma ReadingProjection(lookup: Lookup, decode: Decoder, address: BDAddr, values: SensorValues)
    requires Decodes(lookup, decode, address, values)
    ensures !HasMandatoryFields(values) ==> SensorDataOf(lookup, decode, address) == None
    ensures HasMandatoryFields(values) ==>
      && SensorDataOf(lookup, decode, address).Some?
      && SensorDataOf(lookup, decode, address).value.Ok?
      && var d := SensorDataOf(lookup, decode, address).value.value;
      && d.macAddress == address.address
      && Some(d.humidity) == values.humidityAsPpm
      && Some(d.temperature) == values.temperatureAsMillikelvins
      && Some(d.pressure) == values.pressureAsPascals
      && Some(d.acceleration) == values.accelerationVectorAsMilliG
      && Some(d.batteryPotential) == values.batteryPotentialAsMillivolts
      && d.txPower == values.txPowerAsDbm
      && d.movementCounter == values.movementCounter
      && d.measurementSequenceNumber == values.measurementSequenceNumber
  {
  }

  /** Conversely, a reading only comes out of a successful decode of enough bytes. */
  lemma ReadingNeedsDecode(lookup: Lookup, decode: Decoder, address: BDAddr, d: SensorData)
    requires SensorDataOf(lookup, decode, address) == Some(Ok(d))
    ensures lookup(address).Some? && |lookup(address).value| > 2
    ensures var data := lookup(address).value;
      && decode(LittleEndianId(data[0], data[1]), data[2..]).Ok?
      && Project(address, decode(LittleEndianId(data[0], data[1]), data[2..]).value) == Some(d)
  {
  }

  /** The three ways to get no result, and only these: the gate fails, the manufacturer
      is unknown, or a mandatory field is missing. */
  lemma NoResultCases(lookup: Lookup, decode: Decoder, address: BDAddr)
    ensures SensorDataOf(lookup, decode, address).None? <==>
      || lookup(address).None?
      || |lookup(address).value| <= 2
      || var data := lookup(address).value;
         var outcome := decode(LittleEndianId(data[0], data[1]), data[2..]);
         || (outcome.Err? && outcome.error.UnknownManufacturerId?)
         || (outcome.Ok? && !HasMandatoryFields(outcome.value))
  {
  }
}
