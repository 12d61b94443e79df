/** The iterator over scan results (src/lib.rs): it pulls radio events from a feed,
    keeps the discovery and update events, and yields what parsing each device's
    manufacturer data gives, skipping those that give nothing.

    The event channel is a finite sequence `feed` read through a cursor; reaching its
    end stands for the channel's sender having gone away. The adapter's peripheral
    table changes while the scan runs (a tag's manufacturer data is replaced with each
    advertisement), so the adapter is a lookup per feed position: `adapter(i)` is the
    lookup as it stands when the event at position i is handled. */
module RuuviReader {
  import opened Wrappers
  import opened Ruuvi

  /** btleplug's radio events; only the first two carry anything to read. */
  datatype CentralEvent =
    | DeviceDiscovered(address: BDAddr)
    | DeviceUpdated(address: BDAddr)
    | DeviceLost(address: BDAddr)
    | DeviceConnected(address: BDAddr)
    | DeviceDisconnected(address: BDAddr)

  /** The adapter's lookup of manufacturer data at each position of the feed. */
  type Adapter = nat -> Lookup

  /** What the iterator yields: a reading, or a decoding error worth reporting. */
  type Item = Result<SensorData, ParseError>

  predicate IsSighting(e: CentralEvent) {
    e.DeviceDiscovered? || e.DeviceUpdated?
  }

  /** What one event contributes to the scan results, if anything, given the adapter's
      lookup at the time it is handled. */
  function EventItem(lookup: Lookup, decode: Decoder, e: CentralEvent): Option<Item> {
    if IsSighting(e) then SensorDataOf(lookup, decode, e.address) else None
  }

  /** The items a run of events produces, in order (a `filter_map` of EventItem), when
      the run starts at feed position `from`. */
  function Items(adapter: Adapter, decode: Decoder, events: seq<CentralEvent>, from: nat): seq<Item> {
    if events == [] then []
    else
      match EventItem(adapter(from), decode, events[0])
      case Some(item) => [item] + Items(adapter, decode, events[1..], from + 1)
      case None => Items(adapter, decode, events[1..], from + 1)
  }

  /** The feed positions and addresses of the discovery and update events, in order. */
  function Sightings(events: seq<CentralEvent>, from: nat): seq<(nat, BDAddr)> {
    if events == [] then []
    else if IsSighting(events[0]) then [(from, events[0].address)] + Sightings(events[1..], from + 1)
    else Sightings(events[1..], from + 1)
  }

  /** `parse_sensor_data` filter-mapped over sightings, each parsed with the adapter's
      lookup at its own position. */
  function ParsedReadings(adapter: Adapter, decode: Decoder, sightings: seq<(nat, BDAddr)>): seq<Item> {
    if sightings == [] then []
    else
      match SensorDataOf(adapter(sightings[0].0), decode, sightings[0].1)
      case Some(item) => [item] + ParsedReadings(adapter, decode, sightings[1..])
      case None => ParsedReadings(adapter, decode, sightings[1..])
  }

  /** No event at a position in [lo, hi) yields an item. */
  ghost predicate Quiet(adapter: Adapter, decode: Decoder, feed: seq<CentralEvent>, lo: nat, hi: nat)
    requires hi <= |feed|
  {
    forall j :: lo <= j < hi ==> EventItem(adapter(j), decode, feed[j]).None?
  }

  /** A quiet stretch stays quiet when the next event yields nothing. */
  lemma QuietExtend(adapter: Adapter, decode: Decoder, feed: seq<CentralEvent>, lo: nat, hi: nat)
    requires hi < |feed| && Quiet(adapter, decode, feed, lo, hi)
    requires EventItem(adapter(hi), decode, feed[hi]).None?
    ensures Quiet(adapter, decode, feed, lo, hi + 1)
  {
  }

  /** The items the feed still yields from position i on, read position by position
      as the iterator does. */
  function Remaining(adapter: Adapter, decode: Decoder, feed: seq<CentralEvent>, i: nat): seq<Item>
    requires i <= |feed|
    decreases |feed| - i
  {
    if i == |feed| then []
    else
      match EventItem(adapter(i), decode, feed[i])
      case Some(item) => [item] + Remaining(adapter, decode, feed, i + 1)
      case None => Remaining(adapter, decode, feed, i + 1)
  }

  /** Reading the feed position by position from i gives the items of the run feed[i..]. */
  lemma {:induction false} RemainingIsItems(adapter: Adapter, decode: Decoder, feed: seq<CentralEvent>, i: nat)
    requires i <= |feed|
    ensures Remaining(adapter, decode, feed, i) == Items(adapter, decode, feed[i..], i)
    decreases |feed| - i
  {
    if i < |feed| {
      RemainingIsItems(adapter, decode, feed, i + 1);
      assert feed[i..][1..] == feed[i + 1..];
    }
  }

  /** The event at position i contributes its item, if any, ahead of the rest. */
  lemma ItemsFirst(adapter: Adapter, decode: Decoder, feed: seq<CentralEvent>, i: nat)
    requires i < |feed|
    ensures Items(adapter, decode, feed[i..], i) ==
      (match EventItem(adapter(i), decode, feed[i]) case Some(item) => [item] case None => [])
      + Items(adapter, decode, feed[i + 1..], i + 1)
  {
    assert feed[i..][1..] == feed[i + 1..];
  }

  /** The items of two runs of events in a row are the items of each, in order. */
  lemma {:induction false} ItemsAppend(adapter: Adapter, decode: Decoder, a: seq<CentralEvent>, b: seq<CentralEvent>,
                                       from: nat)
    ensures Items(adapter, decode, a + b, from) == Items(adapter, decode, a, from) + Items(adapter, decode, b, from + |a|)
  {
    if a == [] {
      assert a + b == b;
    } else {
      assert (a + b)[0] == a[0];
      assert (a + b)[1..] == a[1..] + b;
      ItemsAppend(adapter, decode, a[1..], b, from + 1);
      var rest, tail := Items(adapter, decode, a[1..], from + 1), Items(adapter, decode, b, from + |a|);
      match EventItem(adapter(from), decode, a[0])
      case Some(item) => AppendAssoc([item], rest, tail);
      case None =>
    }
  }

  lemma AppendAssoc<T>(x: seq<T>, y: seq<T>, z: seq<T>)
    ensures x + (y + z) == (x + y) + z
  {
  }

  /** A run of events produces nothing exactly when no event in it produces anything. */
  lemma {:induction false} ItemsEmpty(adapter: Adapter, decode: Decoder, events: seq<CentralEvent>, from: nat)
    ensures Items(adapter, decode, events, from) == [] <==>
      forall j :: 0 <= j < |events| ==> EventItem(adapter(from + j), decode, events[j]).None?
  {
    if events != [] {
      ItemsEmpty(adapter, decode, events[1..], from + 1);
      assert forall j :: 1 <= j < |events| ==> events[j] == events[1..][j - 1] && from + j == (from + 1) + (j - 1);
    }
  }

  /** A run of events yields at most one item per event. */
  lemma {:induction false} ItemsBound(adapter: Adapter, decode: Decoder, events: seq<CentralEvent>, from: nat)
    ensures |Items(adapter, decode, events, from)| <= |events|
  {
    if events != [] {
      ItemsBound(adapter, decode, events[1..], from + 1);
    }
  }

  /** The scan results are `parse_sensor_data` filter-mapped over the discovery and
      update events, in the order of the feed, each with the adapter's data of its time. */
  lemma {:induction false} ItemsAreParsedSightings(adapter: Adapter, decode: Decoder, events: seq<CentralEvent>,
                                                   from: nat)
    ensures Items(adapter, decode, events, from) == ParsedReadings(adapter, decode, Sightings(events, from))
  {
    if events != [] {
      ItemsAreParsedSightings(adapter, decode, events[1..], from + 1);
      if IsSighting(events[0]) {
        assert ([(from, events[0].address)] + Sightings(events[1..], from + 1))[1..] == Sightings(events[1..], from + 1);
      }
    }
  }

  /** Events other than a discovery or an update never produce an item. */
  lemma OtherEventsSkipped(adapter: Adapter, decode: Decoder, e: CentralEvent, rest: seq<CentralEvent>, from: nat)
    requires !IsSighting(e)
    ensures Items(adapter, decode, [e] + rest, from) == Items(adapter, decode, rest, from + 1)
  {
    assert ([e] + rest)[1..] == rest;
  }

  /** A reported error does not end the results: what follows it is still read. */
  lemma ErrorThenContinue(adapter: Adapter, decode: Decoder, a: BDAddr, err: ParseError,
                          rest: seq<CentralEvent>, from: nat)
    requires SensorDataOf(adapter(from), decode, a) == Some(Err(err))
    ensures Items(adapter, decode, [DeviceDiscovered(a)] + rest, from) ==
      [Err(err)] + Items(adapter, decode, rest, from + 1)
  {
    assert ([DeviceDiscovered(a)] + rest)[1..] == rest;
  }

  /** Two updates from one tag yield the two readings its data gave at those times:
      repeated sightings are not collapsed, and each carries its own values. */
  lemma FreshReadings(adapter: Adapter, decode: Decoder, a: BDAddr, first: SensorData, second: SensorData)
    requires SensorDataOf(adapter(0), decode, a) == Some(Ok(first))
    requires SensorDataOf(adapter(1), decode, a) == Some(Ok(second))
    ensures Items(adapter, decode, [DeviceUpdated(a), DeviceUpdated(a)], 0) == [Ok(first), Ok(second)]
  {
    var events := [DeviceUpdated(a), DeviceUpdated(a)];
    ItemsFirst(adapter, decode, events, 0);
    ItemsFirst(adapter, decode, events, 1);
    assert events[0..] == events;
    assert events[2..] == [];
  }

  /** A reading, then a beacon of another manufacturer, then a device whose data is a
      single byte: one reading results, and nothing else. */
  lemma MixedBeacons(adapter: Adapter, decode: Decoder, a: BDAddr, b: BDAddr, c: BDAddr, reading: SensorData)
    requires SensorDataOf(adapter(0), decode, a) == Some(Ok(reading))
    requires adapter(1)(b).Some? && |adapter(1)(b).value| > 2
    requires var data := adapter(1)(b).value;
      decode(LittleEndianId(data[0], data[1]), data[2..]).Err?
      && decode(LittleEndianId(data[0], data[1]), data[2..]).error.UnknownManufacturerId?
    requires adapter(2)(c).Some? && |adapter(2)(c).value| == 1
    ensures Items(adapter, decode, [DeviceDiscovered(a), DeviceDiscovered(b), DeviceDiscovered(c)], 0) == [Ok(reading)]
  {
    var events := [DeviceDiscovered(a), DeviceDiscovered(b), DeviceDiscovered(c)];
    assert EventItem(adapter(1), decode, events[1]) == None;
    assert EventItem(adapter(2), decode, events[2]) == None;
    ItemsFirst(adapter, decode, events, 0);
    ItemsFirst(adapter, decode, events, 1);
    ItemsFirst(adapter, decode, events, 2);
    assert events[0..] == events;
    assert events[3..] == [];
  }

  /** `ScanResults`: the adapter (its lookup of manufacturer data over time), the
      decoder, and the receiving end of the event channel. */
  class ScanResults {
    const adapter: Adapter
    const decode: Decoder
    const feed: seq<CentralEvent>
    var cursor: nat

    ghost predicate Valid()
      reads this
    {
      cursor <= |feed|
    }

    /** The items still to come. */
    ghost function Pending(): seq<Item>
      reads this
      requires Valid()
    {
      Remaining(adapter, decode, feed, cursor)
    }

    constructor (adapter: Adapter, decode: Decoder, feed: seq<CentralEvent>)
      ensures Valid()
      ensures this.adapter == adapter && this.decode == decode && this.feed == feed && cursor == 0
      ensures Pending() == Items(adapter, decode, feed, 0)
    {
      this.adapter := adapter;
      this.decode := decode;
      this.feed := feed;
      cursor := 0;
      RemainingIsItems(adapter, decode, feed, 0);
      assert feed[0..] == feed;
    }

    /** `Iterator::next`: consumes events up to and including the first one that
        yields an item, or to the end of the feed. */
    method Next() returns (item: Option<Item>)
      requires Valid()
      modifies this
      ensures Valid()
      ensures old(cursor) <= cursor
      ensures item.None? ==> cursor == |feed|
      ensures item.None? ==>
        forall j :: old(cursor) <= j < |feed| ==> EventItem(adapter(j), decode, feed[j]).None?
      ensures item.Some? ==>
        old(cursor) < cursor && item == EventItem(adapter(cursor - 1), decode, feed[cursor - 1])
      ensures item.Some? ==>
        forall j :: old(cursor) <= j < cursor - 1 ==> EventItem(adapter(j), decode, feed[j]).None?
      ensures old(Pending()) == (if item.Some? then [item.value] else []) + Pending()
    {
      ghost var start := cursor;
      ghost var pending := Pending();
      while cursor < |feed|
        invariant start <= cursor <= |feed|
        invariant Quiet(adapter, decode, feed, start, cursor)
        invariant Remaining(adapter, decode, feed, cursor) == pending
        decreases |feed| - cursor
      {
        var position := cursor;
        var event := feed[position];
        cursor := cursor + 1;
        if event.DeviceDiscovered? || event.DeviceUpdated? {
          var data := ParseSensorData(adapter(position), decode, event.address);
          assert data == EventItem(adapter(position), decode, event);
          if data.Some? {
            return data;
          }
        }
        QuietExtend(adapter, decode, feed, start, position);
      }
      return None;
    }
  }

  /** Pulling items until the iterator is exhausted, as a `for` loop over it does:
      the items are those of the whole remaining feed, errors included, in order. */
  method Drain(scan: ScanResults) returns (items: seq<Item>)
    requires scan.Valid()
    modifies scan
    ensures scan.Valid() && scan.cursor == |scan.feed|
    ensures items == old(scan.Pending())
    ensures items == ParsedReadings(scan.adapter, scan.decode, Sightings(scan.feed[old(scan.cursor)..], old(scan.cursor)))
  {
    RemainingIsItems(scan.adapter, scan.decode, scan.feed, scan.cursor);
    ItemsAreParsedSightings(scan.adapter, scan.decode, scan.feed[scan.cursor..], scan.cursor);
    items := [];
    while true
      invariant scan.Valid()
      invariant old(scan.Pending()) == items + scan.Pending()
      decreases |scan.feed| - scan.cursor
    {
      ghost var before := items;
      var next := scan.Next();
      if next.None? {
        assert scan.Pending() == [];
        assert before + [] == before;
        return;
      }
      AppendAssoc(before, [next.value], scan.Pending());
      items := items + [next.value];
    }
  }
}
