/**
 * The MIDI session of midi.py: the device and event records, the device
 * catalog query, the messages `play_note` sends, and one iteration of the
 * input polling loop that hands decoded events to the callback slot.
 *
 * The platform MIDI service is replaced by plain values: the catalog is a
 * sequence of raw device entries, the pending input is a sequence of raw
 * messages, and the output device is a trace of the calls made on it.
 */
module Midi {
  import opened Wrappers

  datatype MidiDeviceType = Input | Output

  /** One catalog entry. `deviceId` is its position in the catalog. */
  datatype MidiDeviceInfo = MidiDeviceInfo(
    deviceId: int, interface: string, name: string,
    isInput: bool, isOutput: bool, isOpened: bool)

  /** One event: a status byte, three data bytes, a timestamp and the device it came from. */
  datatype MidiEvent = MidiEvent(
    status: int, data1: int, data2: int, data3: int, timestamp: int, deviceId: int)

  /** What the platform reports for one device: interface, name and three flags. */
  datatype RawDeviceInfo = RawDeviceInfo(
    interface: string, name: string, isInput: bool, isOutput: bool, isOpened: bool)

  /** One message read from an input device: four data values and a timestamp. */
  datatype RawEvent = RawEvent(status: int, data1: int, data2: int, data3: int, timestamp: int)

  /** A call made on the output device. */
  datatype OutputCall =
    | SetInstrument(instrument: int, channel: int)
    | NoteOn(note: int, velocity: int, channel: int)
    | NoteOff(note: int, velocity: int, channel: int)

  /** A registered event callback, known by name. */
  datatype Callback = Callback(name: string)

  /** One invocation of a callback with an event. */
  datatype Delivery = Delivery(callback: Callback, event: MidiEvent)

  /** The most messages one `read` takes from the input device. */
  const ReadLimit := 1000

  // ---------------------------------------------------------------------
  // Device catalog

  function Describe(id: int, raw: RawDeviceInfo): MidiDeviceInfo {
    MidiDeviceInfo(id, raw.interface, raw.name, raw.isInput, raw.isOutput, raw.isOpened)
  }

  /** The filter of `get_midi_devices`: none, input devices, or output devices. */
  predicate Accepts(deviceType: Option<MidiDeviceType>, device: MidiDeviceInfo) {
    || deviceType.None?
    || (deviceType == Some(Input) && device.isInput)
    || (deviceType == Some(Output) && device.isOutput)
  }

  /** The devices listed for a catalog: each entry numbered by its position, then filtered. */
  ghost function Listed(catalog: seq<RawDeviceInfo>, deviceType: Option<MidiDeviceType>): seq<MidiDeviceInfo> {
    if catalog == [] then []
    else
      var n := |catalog| - 1;
      var device := Describe(n, catalog[n]);
      Listed(catalog[..n], deviceType) + (if Accepts(deviceType, device) then [device] else [])
  }

  /** `Midi.get_midi_devices`: number every catalog entry, keep those the filter accepts. */
  method GetMidiDevices(catalog: seq<RawDeviceInfo>, deviceType: Option<MidiDeviceType>)
    returns (devices: seq<MidiDeviceInfo>)
    ensures devices == Listed(catalog, deviceType)
  {
    devices := [];
    for d := 0 to |catalog|
      invariant devices == Listed(catalog[..d], deviceType)
    {
      var device := Describe(d, catalog[d]);
      if Accepts(deviceType, device) {
        devices := devices + [device];
      }
      assert catalog[..d + 1][..d] == catalog[..d];
    }
    assert catalog[..|catalog|] == catalog;
  }

  /** Without a filter every catalog entry is listed, in order, with its index as id. */
  lemma {:induction false} ListedAll(catalog: seq<RawDeviceInfo>)
    ensures |Listed(catalog, None)| == |catalog|
    ensures forall i :: 0 <= i < |catalog| ==>
      Listed(catalog, None)[i] == Describe(i, catalog[i]) && Listed(catalog, None)[i].deviceId == i
  {
    if catalog != [] {
      ListedAll(catalog[..|catalog| - 1]);
    }
  }

  /**
   * A filtered list is an ordered selection of the catalog: every listed
   * device is the catalog entry at its id and passes the filter, ids
   * strictly increase (they are catalog positions, not renumbered), and
   * every entry that passes the filter is listed.
   */
  lemma {:induction false} ListedIsOrderedSelection(catalog: seq<RawDeviceInfo>, deviceType: Option<MidiDeviceType>)
    ensures forall i :: 0 <= i < |Listed(catalog, deviceType)| ==>
      var d := Listed(catalog, deviceType)[i];
      0 <= d.deviceId < |catalog| && d == Describe(d.deviceId, catalog[d.deviceId]) && Accepts(deviceType, d)
    ensures forall i, j :: 0 <= i < j < |Listed(catalog, deviceType)| ==>
      Listed(catalog, deviceType)[i].deviceId < Listed(catalog, deviceType)[j].deviceId
    ensures forall k :: 0 <= k < |catalog| && Accepts(deviceType, Describe(k, catalog[k])) ==>
      Describe(k, catalog[k]) in Listed(catalog, deviceType)
  {
    if catalog != [] {
      var n := |catalog| - 1;
      var front := catalog[..n];
      ListedIsOrderedSelection(front, deviceType);
      assert forall k :: 0 <= k < n ==> front[k] == catalog[k];
    }
  }

  /** The `INPUT` filter lists exactly the input-capable entries. */
  lemma ListedInputs(catalog: seq<RawDeviceInfo>, d: MidiDeviceInfo)
    ensures d in Listed(catalog, Some(Input)) <==>
      0 <= d.deviceId < |catalog| && d == Describe(d.deviceId, catalog[d.deviceId]) && d.isInput
  {
    ListedIsOrderedSelection(catalog, Some(Input));
    if d in Listed(catalog, Some(Input)) {
      var i :| 0 <= i < |Listed(catalog, Some(Input))| && Listed(catalog, Some(Input))[i] == d;
    }
  }

  /** The `OUTPUT` filter lists exactly the output-capable entries. */
  lemma ListedOutputs(catalog: seq<RawDeviceInfo>, d: MidiDeviceInfo)
    ensures d in Listed(catalog, Some(Output)) <==>
      0 <= d.deviceId < |catalog| && d == Describe(d.deviceId, catalog[d.deviceId]) && d.isOutput
  {
    ListedIsOrderedSelection(catalog, Some(Output));
    if d in Listed(catalog, Some(Output)) {
      var i :| 0 <= i < |Listed(catalog, Some(Output))| && Listed(catalog, Some(Output))[i] == d;
    }
  }

  // ---------------------------------------------------------------------
  // Output: the calls `play_note` makes

  predicate IsNoteMessage(call: OutputCall) {
    call.NoteOn? || call.NoteOff?
  }

  /** The note messages of a trace, program changes dropped. */
  function NoteMessages(trace: seq<OutputCall>): (r: seq<OutputCall>)
    ensures |r| <= |trace|
    ensures forall i :: 0 <= i < |r| ==> IsNoteMessage(r[i])
  {
    if trace == [] then []
    else (if IsNoteMessage(trace[0]) then [trace[0]] else []) + NoteMessages(trace[1..])
  }

  lemma {:induction false} NoteMessagesAppend(a: seq<OutputCall>, b: seq<OutputCall>)
    ensures NoteMessages(a + b) == NoteMessages(a) + NoteMessages(b)
  {
    if a != [] {
      assert (a + b)[1..] == a[1..] + b;
      NoteMessagesAppend(a[1..], b);
    } else {
      assert a + b == b;
    }
  }

  /** The calls `play_note(note, velocity, channel, instrument, off)` makes on the output device. */
  function PlayNoteCalls(note: int, velocity: int, channel: int, instrument: Option<int>, off: bool): seq<OutputCall> {
    (if instrument.Some? then [SetInstrument(instrument.value, channel)] else [])
    + [if off then NoteOff(note, velocity, channel) else NoteOn(note, velocity, channel)]
  }

  /**
   * `play_note` sends exactly one note message, note-off when `off` and
   * note-on otherwise, and before it a program change exactly when an
   * instrument is given.
   */
  lemma PlayNoteSendsOneNoteMessage(note: int, velocity: int, channel: int, instrument: Option<int>, off: bool)
    ensures var calls := PlayNoteCalls(note, velocity, channel, instrument, off);
      && NoteMessages(calls) == [if off then NoteOff(note, velocity, channel) else NoteOn(note, velocity, channel)]
      && |calls| - |NoteMessages(calls)| == (if instrument.Some? then 1 else 0)
      && (instrument.Some? ==> calls[0] == SetInstrument(instrument.value, channel))
  {
    var calls := PlayNoteCalls(note, velocity, channel, instrument, off);
    var noteCall := calls[|calls| - 1];
    if instrument.Some? {
      assert calls[1..] == [noteCall];
      assert NoteMessages(calls[1..]) == [noteCall] + NoteMessages([]);
    } else {
      assert NoteMessages(calls) == [noteCall] + NoteMessages([]);
    }
  }

  // ---------------------------------------------------------------------
  // Input: dispatching a batch to the callback slot

  /** `MidiEvent(*event[0], event[1], input_device_id)`. */
  function Decode(raw: RawEvent, deviceId: int): MidiEvent {
    MidiEvent(raw.status, raw.data1, raw.data2, raw.data3, raw.timestamp, deviceId)
  }

  function DecodeBatch(batch: seq<RawEvent>, deviceId: int): (events: seq<MidiEvent>)
    ensures |events| == |batch|
  {
    seq(|batch|, i requires 0 <= i < |batch| => Decode(batch[i], deviceId))
  }

  /**
   * The slot after a batch: a callback invoked with an event may replace
   * the slot, which `after(callback, event)` gives.
   */
  ghost function SlotAfter(slot: Option<Callback>, batch: seq<MidiEvent>,
                           after: (Callback, MidiEvent) -> Option<Callback>): Option<Callback>
  {
    if batch == [] then slot
    else
      var before := SlotAfter(slot, batch[..|batch| - 1], after);
      if before.Some? then after(before.value, batch[|batch| - 1]) else None
  }

  /** The callback invocations of a batch: each event goes to the slot as it is when the event comes up. */
  ghost function Deliveries(slot: Option<Callback>, batch: seq<MidiEvent>,
                            after: (Callback, MidiEvent) -> Option<Callback>): seq<Delivery>
  {
    if batch == [] then []
    else
      var front := batch[..|batch| - 1];
      var before := SlotAfter(slot, front, after);
      Deliveries(slot, front, after)
      + (if before.Some? then [Delivery(before.value, batch[|batch| - 1])] else [])
  }

  /** With no callback set, a batch is dropped: no invocations, and the slot stays empty. */
  lemma {:induction false} EmptySlotDropsBatch(batch: seq<MidiEvent>, after: (Callback, MidiEvent) -> Option<Callback>)
    ensures Deliveries(None, batch, after) == []
    ensures SlotAfter(None, batch, after) == None
  {
    if batch != [] {
      EmptySlotDropsBatch(batch[..|batch| - 1], after);
    }
  }

  /**
   * Dispatching two batches one after the other is dispatching their
   * concatenation: no event is delivered twice or lost, and the second
   * batch starts from the slot the first left.
   */
  lemma {:induction false} DispatchComposes(slot: Option<Callback>, a: seq<MidiEvent>, b: seq<MidiEvent>,
                                            after: (Callback, MidiEvent) -> Option<Callback>)
    ensures Deliveries(slot, a + b, after) == Deliveries(slot, a, after) + Deliveries(SlotAfter(slot, a, after), b, after)
    ensures SlotAfter(slot, a + b, after) == SlotAfter(SlotAfter(slot, a, after), b, after)
  {
    if b == [] {
      assert a + b == a;
    } else {
      var front := b[..|b| - 1];
      assert (a + b)[..|a + b| - 1] == a + front;
      assert (a + b)[|a + b| - 1] == b[|b| - 1];
      DispatchComposes(slot, a, front, after);
    }
  }

  /**
   * The slot is read for every event: the first event goes to the current
   * callback, and the rest of the batch to whatever that invocation left
   * in the slot.
   */
  lemma DispatchReadsSlotPerEvent(c: Callback, e: MidiEvent, rest: seq<MidiEvent>,
                                  after: (Callback, MidiEvent) -> Option<Callback>)
    ensures Deliveries(Some(c), [e] + rest, after) == [Delivery(c, e)] + Deliveries(after(c, e), rest, after)
  {
    DispatchComposes(Some(c), [e], rest, after);
    assert [e][..0] == [];
  }

  /** A callback that keeps itself in the slot is invoked once per event, in arrival order. */
  lemma {:induction false} SteadyCallbackGetsEveryEvent(c: Callback, batch: seq<MidiEvent>,
                                                        after: (Callback, MidiEvent) -> Option<Callback>)
    requires forall e :: after(c, e) == Some(c)
    ensures |Deliveries(Some(c), batch, after)| == |batch|
    ensures forall i :: 0 <= i < |batch| ==> Deliveries(Some(c), batch, after)[i] == Delivery(c, batch[i])
    ensures SlotAfter(Some(c), batch, after) == Some(c)
  {
    if batch != [] {
      SteadyCallbackGetsEveryEvent(c, batch[..|batch| - 1], after);
    }
  }

  /**
   * The delivered events are a prefix of the batch, in order; a batch is
   * cut short only by an empty slot, which then stays empty.
   */
  lemma {:induction false} DeliveredEventsArePrefix(slot: Option<Callback>, batch: seq<MidiEvent>,
                                                    after: (Callback, MidiEvent) -> Option<Callback>)
    ensures |Deliveries(slot, batch, after)| <= |batch|
    ensures forall i :: 0 <= i < |Deliveries(slot, batch, after)| ==> Deliveries(slot, batch, after)[i].event == batch[i]
    ensures |Deliveries(slot, batch, after)| < |batch| ==> SlotAfter(slot, batch, after) == None
  {
    if batch != [] {
      var front := batch[..|batch| - 1];
      DeliveredEventsArePrefix(slot, front, after);
      if SlotAfter(slot, front, after).None? {
        EmptySlotDropsBatch([batch[|batch| - 1]], after);
        DispatchComposes(slot, front, [batch[|batch| - 1]], after);
        assert front + [batch[|batch| - 1]] == batch;
      }
    }
  }

  // ---------------------------------------------------------------------
  // The session object

  /** `Midi`: an optional input device, an optional output device and the callback slot. */
  class Midi {
    const inputDeviceId: Option<int>
    const outputDeviceId: Option<int>
    var cbEvent: Option<Callback>
    /** The calls made on the output device so far. */
    var outputTrace: seq<OutputCall>
    /** The callback invocations made by the polling loop so far. */
    var delivered: seq<Delivery>

    constructor (inputDeviceId: Option<int>, outputDeviceId: Option<int>, cbEvent: Option<Callback>)
      ensures this.inputDeviceId == inputDeviceId && this.outputDeviceId == outputDeviceId
      ensures this.cbEvent == cbEvent && outputTrace == [] && delivered == []
    {
      this.inputDeviceId := inputDeviceId;
      this.outputDeviceId := outputDeviceId;
      this.cbEvent := cbEvent;
      outputTrace := [];
      delivered := [];
    }

    /** The `cb_event` getter. */
    function CbEvent(): Option<Callback>
      reads this
    {
      cbEvent
    }

    /** The `cb_event` setter: replaces the slot, nothing else. */
    method SetCbEvent(value: Option<Callback>)
      modifies this`cbEvent
      ensures cbEvent == value && CbEvent() == value
    {
      cbEvent := value;
    }

    /**
     * `play_note`: a program change first when an instrument is given, then
     * one note message. Without an output device the first call on it
     * fails, so nothing is sent and `ok` is false.
     */
    method PlayNote(note: int, velocity: int, channel: int := 0, instrument: Option<int> := None, off: bool := false)
      returns (ok: bool)
      modifies this`outputTrace
      ensures ok == outputDeviceId.Some?
      ensures outputTrace == old(outputTrace) + (if ok then PlayNoteCalls(note, velocity, channel, instrument, off) else [])
    {
      ok := outputDeviceId.Some?;
      if !ok {
        return;
      }
      if instrument.Some? {
        outputTrace := outputTrace + [SetInstrument(instrument.value, channel)];
      }
      if !off {
        outputTrace := outputTrace + [NoteOn(note, velocity, channel)];
      } else {
        outputTrace := outputTrace + [NoteOff(note, velocity, channel)];
      }
    }

    /**
     * One iteration of `run`: if there is an input device and messages are
     * pending, read up to `ReadLimit` of them and hand each, decoded, to the
     * callback in the slot at that moment. `after` says what each
     * invocation leaves in the slot. Returns the messages still pending.
     */
    method PollOnce(pending: seq<RawEvent>, after: (Callback, MidiEvent) -> Option<Callback>)
      returns (rest: seq<RawEvent>)
      modifies this`cbEvent, this`delivered
      ensures inputDeviceId.None? || pending == [] ==>
        rest == pending && delivered == old(delivered) && cbEvent == old(cbEvent)
      ensures inputDeviceId.Some? && pending != [] ==>
        var n := if |pending| < ReadLimit then |pending| else ReadLimit;
        var events := DecodeBatch(pending[..n], inputDeviceId.value);
        && rest == pending[n..]
        && delivered == old(delivered) + Deliveries(old(cbEvent), events, after)
        && cbEvent == SlotAfter(old(cbEvent), events, after)
    {
      rest := pending;
      if inputDeviceId.None? || pending == [] {
        return;
      }
      var id := inputDeviceId.value;
      var n := if |pending| < ReadLimit then |pending| else ReadLimit;
      var batch := pending[..n];
      rest := pending[n..];
      ghost var events := DecodeBatch(batch, id);
      var i := 0;
      while i < |batch|
        invariant 0 <= i <= |batch|
        invariant delivered == old(delivered) + Deliveries(old(cbEvent), events[..i], after)
        invariant cbEvent == SlotAfter(old(cbEvent), events[..i], after)
      {
        assert events[..i + 1][..i] == events[..i];
        if cbEvent.Some? {
          var event := Decode(batch[i], id);
          delivered := delivered + [Delivery(cbEvent.value, event)];
          cbEvent := after(cbEvent.value, event);
        }
        i := i + 1;
      }
      assert events[..|batch|] == events;
    }
  }
}
