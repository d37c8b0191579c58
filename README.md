# gimme_notes_ya: a Dafny model of the MIDI helper and its test programs

This project models the core of gimme_notes_ya in Dafny. The core is the
MIDI session class of `midi.py` and the logic of the test programs in
`midi_test.py`, and the project proves properties about that model.

- `midi.dfy` (module `Midi`): the `MidiDeviceInfo` and `MidiEvent` value
  records, and the device catalog query `get_midi_devices` with its
  input/output filter. It also models the messages `play_note` sends on the
  output device, and one iteration of the input polling loop that decodes
  a read batch and hands each event to the callback slot. The object
  `Midi` is a class: its callback slot is a field, the output device is a
  trace of the calls made on it, and the callback invocations are a
  recorded sequence.
- `midi_test_base.dfy` (module `MidiTestBase`): the German note-name table.
  It defines the pitch label `_notes[pitch % 12].upper() + str(pitch // 12 - 1)`
  and shows it can be read back. It also models the rule by which
  `_choose_input_device` / `_choose_output_device` accept a typed device id.
- `midi_test_show.dfy` (module `MidiTestShow`): the computer-keyboard
  instrument. The octave and velocity have clamped keys, the key table maps
  keys to semitones, and the held-key list suppresses auto-repeat. The two
  key handlers are modelled both as functions on a state value and as the
  methods of a `ComputerKeyboard` class that updates its fields.
- `midi_test_play.dfy` (module `MidiTestPlay`): score playback. The note
  list is expanded into on/off toggles and sorted, and the polling loop
  plays every due toggle through `play_note`. Both loops of `run` are
  methods proved against ghost specification functions.
- `list_sort.dfy` (module `ListSort`): Python's stable `list.sort(key=...)`
  for the two key shapes used (a number, and a pair number/flag compared
  like a tuple).
- `py_int.dfy` (module `PyInt`): Python's `str(n)` and base-10 `int(s)` as
  the test programs use them.
- `wrappers.dfy` (module `Wrappers`): `Option`.

Modelling choices:

- Times are exact rationals (`real`).
- The clock of the playback loop is a sequence of readings, already in the
  score's unit.
- The key handlers' time stamp is an integer parameter.
- A callback is an abstract value. What an invocation leaves in the slot
  is a parameter `after`.
- The user's console input is a sequence of lines.

Where the code's behaviour needs a word:

- Without an output device, `play_note`'s first call on `None` raises.
  `PlayNote` models this as `ok == false` with nothing sent.
- The comment on key `c` says "Increase velocity". The code decreases it
  by 20, and the model does what the code does.

## Model

| member | source | states |
|---|---|---|
| PyInt.ShowNat | midi_test.py:137 | `str` of a natural is a digit string without a leading zero whose decimal value is the number |
| PyInt.Show | midi_test.py:137 | `str` of an integer is `-` exactly when it is negative, followed by the shortest decimal numeral of its absolute value: digits whose value is `abs(n)`, with no leading zero |
| PyInt.IsSpace | midi_test.py:41 | the whitespace `int()` strips: tab to carriage return, space, NEL, no-break space and the Unicode space separators; not the information separators U+001C to U+001F |
| PyInt.TrimStart | midi_test.py:41 | `int()` strips leading whitespace: the result is a suffix whose first character is not whitespace |
| PyInt.TrimStartDropsSpace | midi_test.py:41 | every character the strip drops from the front is whitespace that `int()` strips (`IsSpace`) |
| PyInt.TrimEnd | midi_test.py:41 | `int()` strips trailing whitespace: the result is a prefix whose last character is not whitespace |
| PyInt.TrimEndDropsSpace | midi_test.py:41 | every character the strip drops from the end is whitespace that `int()` strips (`IsSpace`) |
| PyInt.Parse | midi_test.py:41 | `int(s)` in base 10: strip whitespace, read an optional sign and a digit group; `None` where Python raises ValueError |
| PyInt.ParseNumeral | midi_test.py:41 | a sign-prefixed or bare digit group gives its value, negated for `-`; anything else is rejected |
| PyInt.Digits | midi_test.py:41 | dropping the underscores of a digit group leaves only digits, and a plain numeral unchanged |
| PyInt.IsDigitGroup | midi_test.py:41 | the digit grammar `int()` accepts: digits, with single underscores only between digits |
| PyInt.DigitsAppend | midi_test.py:41 | the digits of a concatenation are the digits of the first part followed by those of the second: digits keep their order |
| PyInt.ParseGroupedThousands | midi_test.py:41 | `int("1_000") == 1000`: underscores between digits are accepted and ignored |
| PyInt.ParseShow | midi_test.py:41 | `int(str(n)) == n` for every integer |
| PyInt.ParseRejectsLeadingSeparator | midi_test.py:41 | a line that starts with one of U+001C to U+001F is not a number: `int()` does not strip those characters |
| PyInt.ParseIgnoresSurroundingSpace | midi_test.py:41 | any whitespace before and any other whitespace after a numeral leave the value `int()` reads unchanged |
| ListSort.Insert | midi_test.py:155 | inserting into a key-sorted list keeps it sorted and adds exactly the element |
| ListSort.SortByKey | midi_test.py:155 | `list.sort(key=...)` yields a key-sorted permutation of the list |
| ListSort.SortByKeyIsStable | midi_test.py:155 | elements with equal keys keep their relative order (Python's sort is stable) |
| Midi.Describe | midi.py:181-184 | a catalog entry becomes a `MidiDeviceInfo` numbered by the given id, with the entry's interface, name and flags |
| Midi.Accepts | midi.py:185-187 | the filter: no device type accepts every device, `INPUT` the input-capable ones, `OUTPUT` the output-capable ones |
| Midi.Listed | midi.py:179-190 | the devices listed for a catalog: each entry numbered by its position, then kept when the filter accepts it |
| Midi.GetMidiDevices | midi.py:174-193 | the loop returns the catalog entries numbered by position and filtered, as `Listed` defines |
| Midi.ListedAll | midi.py:179-190 | with no filter every entry is listed in catalog order, with its index as `device_id` |
| Midi.ListedIsOrderedSelection | midi.py:179-188 | each listed device is the catalog entry at its id and passes the filter; ids strictly increase (numbered before filtering); every entry that passes is listed |
| Midi.ListedInputs | midi.py:185-186 | a device is listed by the `INPUT` filter if and only if it is an input-capable catalog entry at its id |
| Midi.ListedOutputs | midi.py:185-187 | a device is listed by the `OUTPUT` filter if and only if it is an output-capable catalog entry at its id |
| Midi.PlayNoteSendsOneNoteMessage | midi.py:161-171 | `play_note` sends exactly one note message (note-off if `off`, else note-on, with the given note, velocity, channel), preceded by a program change exactly when an instrument is given |
| Midi.PlayNoteCalls | midi.py:161-171 | the calls `play_note` makes on the output device: a program change when an instrument is given, then note-off or note-on |
| Midi.Decode | midi.py:204 | a raw event becomes a `MidiEvent` with its four data fields and time stamp and the input device id |
| Midi.DecodeBatch | midi.py:201-204 | a read batch decodes event by event, one `MidiEvent` per raw event |
| Midi.SlotAfter | midi.py:202-205 | the slot after a batch: each invocation may replace the callback, and an empty slot stays empty |
| Midi.Deliveries | midi.py:202-206 | the invocations of a batch: each event goes to the callback in the slot when that event comes up, and is dropped when the slot is empty |
| Midi.EmptySlotDropsBatch | midi.py:202-206 | with no callback set a batch produces no invocation and the slot stays empty |
| Midi.DispatchComposes | midi.py:199-207 | dispatching two batches in turn equals dispatching their concatenation, the second continuing from the slot the first left |
| Midi.DispatchReadsSlotPerEvent | midi.py:202-205 | the first event goes to the current callback and the rest to whatever that invocation left in the slot |
| Midi.SteadyCallbackGetsEveryEvent | midi.py:202-206 | a callback that stays set is invoked once per event, in arrival order, with that event |
| Midi.DeliveredEventsArePrefix | midi.py:202-206 | delivered events are a prefix of the batch in order; fewer are delivered only when the slot became empty |
| Midi.Midi.constructor | midi.py:123-135 | the session keeps the given device ids and callback, with no call made and no event delivered yet |
| Midi.Midi.CbEvent | midi.py:144-147 | the `cb_event` getter returns the slot |
| Midi.Midi.SetCbEvent | midi.py:149-152 | the setter replaces the slot and the getter then returns the new value |
| Midi.Midi.PlayNote | midi.py:161-171 | with an output device the trace grows by exactly the calls of `play_note`; without one nothing is sent and `ok` is false |
| Midi.Midi.PollOnce | midi.py:199-207 | reads at most 1000 pending messages, decodes each with the input device id, delivers them to the slot event by event (`Deliveries`, `SlotAfter`) and leaves the rest pending; no input device or nothing pending changes nothing |
| MidiTestBase.NoteLetter | midi_test.py:137 | `_notes[pitch % 12].upper()`: the upper-cased German letter name of the pitch class |
| MidiTestBase.NoteName | midi_test.py:137 | the pitch label: the letter name followed by `str(pitch // 12 - 1)` |
| MidiTestBase.ParseNoteNameRoundTrip | midi_test.py:137 | every pitch label reads back to its pitch |
| MidiTestBase.NoteNameInjective | midi_test.py:137 | distinct pitches get distinct labels |
| MidiTestBase.NoteNameOctaveUp | midi_test.py:137 | twelve semitones up keeps the letter and raises the printed octave by one |
| MidiTestBase.DeviceIds | midi_test.py:29-33 | the ids of the listed devices, one per device, in listing order |
| MidiTestBase.Acceptable | midi_test.py:43 | a typed line is taken exactly when `int()` read a number and that number is a listed id |
| MidiTestBase.FirstAcceptable | midi_test.py:38-53 | the prompt loop takes the first line that `int()` reads as a listed id; it gives up (`None`) exactly when no line qualifies, and skipped lines are all unacceptable |
| MidiTestBase.ChooseDevice | midi_test.py:26-56 | an id given on the command line is used as it is; otherwise the id chosen is the first acceptable line, and it is a listed device's id |
| MidiTestBase.ChooseDeviceTakesFirstListedId | midi_test.py:36-53 | after rejected lines, the first acceptable line is chosen whatever follows it |
| MidiTestBase.ChosenIdIsListed | midi_test.py:43-45 | a chosen id is the id of a listed device |
| MidiTestBase.ChosenInputDeviceIsInput | midi_test.py:26-56 | an input device chosen at the prompt is an input-capable catalog position |
| MidiTestBase.ChosenOutputDeviceIsOutput | midi_test.py:60-91 | an output device chosen at the prompt is an output-capable catalog position |
| MidiTestShow.KeysAreDistinct | midi_test.py:235 | the key table has 13 distinct keys |
| MidiTestShow.KeyMapping | midi_test.py:236 | `{key: k for k, key in enumerate(keys)}`: each table key to its position |
| MidiTestShow.KeyMappingIsKeyPositions | midi_test.py:236 | the mapping's keys are exactly the table keys, each mapped to its position 0..12 |
| MidiTestShow.TableKeysAreNotControlKeys | midi_test.py:262-275 | no table key is one of `y`, `x`, `c`, `v` |
| MidiTestShow.RemoveFirst | midi_test.py:288 | `list.remove` drops exactly one occurrence of the element |
| MidiTestShow.RemoveFirstOfDistinct | midi_test.py:288 | on a duplicate-free list, removal leaves a duplicate-free list of the other elements |
| MidiTestShow.KeyEvent | midi_test.py:279-280 | the event a table key sends: status 0, note `octave * 12 + position`, the given velocity, data3 0, the time stamp, device -1 |
| MidiTestShow.Press | midi_test.py:262-283 | `_cb_key_press` on a state: the control keys move the clamped octave or velocity; a table key not held is appended and sends its event; anything else changes nothing |
| MidiTestShow.Release | midi_test.py:285-292 | `_cb_key_release` on a state: a held table key is removed and sends its event at velocity 0; a table key not held raises; any other key is ignored |
| MidiTestShow.InitialIsValid | midi_test.py:229-237 | the starting state (octave 5, velocity 127, nothing held) satisfies the handlers' invariant |
| MidiTestShow.PressKeepsValid | midi_test.py:262-283 | every key press keeps octave in 0..9, velocity in 0..127, held keys distinct table keys; any event sent is a keyboard event (status 0, note 0..120, velocity 0..127, data3 0, device -1) |
| MidiTestShow.ReleaseKeepsValid | midi_test.py:285-292 | every key release keeps the keyboard invariant, and the event of a released key is a keyboard event |
| MidiTestShow.ControlKeys | midi_test.py:263-273 | `y`/`x` move the octave down/up clamped to 0..9, `c`/`v` the velocity by 20 clamped to 0..127; nothing else changes and no event is sent |
| MidiTestShow.PressNewKey | midi_test.py:275-281 | a table key not held is appended to the held keys and sends one event with note `octave*12 + index`, the current velocity, status 0, data3 0, device -1 |
| MidiTestShow.PressHeldKey | midi_test.py:277 | pressing a held key again changes nothing and sends nothing |
| MidiTestShow.PressOtherKey | midi_test.py:262-283 | a key outside the table and the control keys is ignored |
| MidiTestShow.ReleaseHeldKey | midi_test.py:287-290 | releasing a held key removes exactly that key, keeps octave and velocity and the invariant, and sends the note of the current octave at velocity 0 |
| MidiTestShow.ReleaseOtherKey | midi_test.py:285-292 | releasing a table key that is not held raises (`NotHeld`); any other key is ignored; the state is unchanged either way |
| MidiTestShow.PressThenRelease | midi_test.py:275-290 | press then release of a free key restores the state and sends a note and its velocity-0 twin |
| MidiTestShow.OctaveChangeWhileHeld | midi_test.py:266-290 | the release reads the octave current at release: press, `x`, release sends the note an octave above the pressed one |
| MidiTestShow.ComputerKeyboard.constructor | midi_test.py:229-237 | the fields start at octave 5, velocity 127, no key held, no event |
| MidiTestShow.ComputerKeyboard.KeyPress | midi_test.py:262-283 | the new fields and the event are those of `Press` on the old fields; the event is recorded; the invariant is kept |
| MidiTestShow.ComputerKeyboard.KeyRelease | midi_test.py:285-292 | the new fields and outcome are those of `Release` on the old fields; a released key's event is recorded; the invariant is kept |
| MidiTestPlay.OnToggle | midi_test.py:151 | the toggle that starts a note: state ON at the note's start |
| MidiTestPlay.OffToggle | midi_test.py:152 | the toggle that ends a note: state OFF at start plus duration |
| MidiTestPlay.TogglesOfNote | midi_test.py:151-152 | a note's toggles are ON at its start and OFF `duration` later, and agree with the note on pitch, velocity, channel and instrument |
| MidiTestPlay.Expansion | midi_test.py:149-153 | the unsorted toggle list: each note's ON toggle at its start and OFF toggle at its end, in note order |
| MidiTestPlay.ExpansionAppend | midi_test.py:149-153 | the note loop works note by note: expanding `a + b` expands `a`, then `b` |
| MidiTestPlay.ExpansionPermutation | midi_test.py:147-153 | notes with the same multiset expand to toggles with the same multiset: the toggles depend only on which notes there are |
| MidiTestPlay.ExpandNotes | midi_test.py:149-153 | the append loop builds `Expansion` of the note list |
| MidiTestPlay.ExpansionAt | midi_test.py:149-153 | note `i` gives exactly positions `2i` (ON at `start`) and `2i+1` (OFF at `start+duration`), other fields copied |
| MidiTestPlay.ExpansionMembers | midi_test.py:149-153 | each note's two toggles are in the list, and every toggle is one of a note's two |
| MidiTestPlay.NoteKey | midi_test.py:147 | the key `n.start` by which the notes are sorted |
| MidiTestPlay.NoteKeyOrder | midi_test.py:147 | one note's key is at most another's exactly when it starts no later |
| MidiTestPlay.ToggleKey | midi_test.py:155 | the key `(n.time, n.state == ON)` by which the toggles are sorted |
| MidiTestPlay.ToggleKeyOrder | midi_test.py:155 | toggle keys compare as the Python tuples do: earlier time first, and at equal times OFF (`False`) before ON (`True`) |
| MidiTestPlay.Schedule | midi_test.py:147-155 | the list `run` plays: notes sorted by start, expanded, toggles sorted by `(time, state == ON)` |
| MidiTestPlay.ScheduleIsOrdered | midi_test.py:155 | the sorted toggles are non-decreasing in time, and at equal times every OFF precedes every ON |
| MidiTestPlay.ScheduleHasBothTogglesOfEachNote | midi_test.py:147-155 | the played list has two toggles per note: each note's ON and OFF toggle, and nothing else; as a multiset it is exactly the unsorted toggle list |
| MidiTestPlay.ScheduleReordersExpansion | midi_test.py:147-155 | the played list is the unsorted toggle list reordered: the same multiset |
| MidiTestPlay.ScheduleKeepsNoteOrder | midi_test.py:155 | toggles with the same time and state keep the order of their notes after the sort by start |
| MidiTestPlay.MidiVelocity | midi_test.py:170 | `int(v * 127)` truncates toward zero; velocities in 0..1 map into 0..127 |
| MidiTestPlay.ToggleCalls | midi_test.py:170 | the `play_note` calls for one toggle: with its instrument, note-off for OFF and note-on for ON |
| MidiTestPlay.Calls | midi_test.py:167-175 | the calls for a toggle list, toggle by toggle in order |
| MidiTestPlay.ToggleCallsShape | midi_test.py:170 | playing one toggle sends a program change to its instrument, then its note message (note-off for OFF) |
| MidiTestPlay.CallsPerToggle | midi_test.py:167-175 | playing a toggle list sends, per toggle and in order, a program change and then its note message |
| MidiTestPlay.Due | midi_test.py:169 | `td >= note.time`: a toggle is due once the clock reading has reached its time |
| MidiTestPlay.DuePrefixLength | midi_test.py:167-175 | the front run of due toggles: all toggles before it are due, the next one is not |
| MidiTestPlay.DuePrefixIsAllDue | midi_test.py:167-175 | on a time-ordered list a toggle is in the due prefix if and only if it is due |
| MidiTestPlay.LateClockFindsAllDue | midi_test.py:167-175 | a reading at or after every toggle's time finds the whole list due |
| MidiTestPlay.DueEnd | midi_test.py:167-175 | the inner loop over a list position: the end of the run of due toggles starting there |
| MidiTestPlay.DueEndIsDueRun | midi_test.py:167-175 | every toggle of that run is due and the toggle after it is not |
| MidiTestPlay.DueEndIsDuePrefix | midi_test.py:167-175 | the run starting at a position is the due prefix of what is left there |
| MidiTestPlay.PlayedAfter | midi_test.py:162-184 | the outer loop: how many toggles are played after the first `tick` clock readings, each reading playing the due run after those already played |
| MidiTestPlay.Remaining | midi_test.py:162-184 | what the outer loop leaves of the list once the readings run out |
| MidiTestPlay.PlayedAfterStaysDone | midi_test.py:177-180 | once every toggle is played, later readings play nothing (the loop has stopped) |
| MidiTestPlay.PlayedWereDue | midi_test.py:167-175 | no toggle is played early: each played toggle was due at one of the readings so far |
| MidiTestPlay.FirstUnplayedNotDue | midi_test.py:167-175 | on a time-ordered list the first toggle not yet played was due at none of the readings so far |
| MidiTestPlay.AllDueFinishes | midi_test.py:167-180 | a reading at which every toggle is due plays everything that is left |
| MidiTestPlay.PlaybackOutcome | midi_test.py:162-184 | on a time-ordered list what is left is a suffix; every played toggle was due at a reading; the first left over was due at none; a reading with everything due leaves nothing |
| MidiTestPlay.Player.constructor | midi_test.py:123-132 | the player opens a session on the chosen output device with no input device and no callback; nothing is sent or delivered yet |
| MidiTestPlay.Player.DispatchDue | midi_test.py:167-175 | one pass plays exactly the due prefix, in order, through `play_note` and removes it; after it the list is empty or its head is not due |
| MidiTestPlay.Player.PlayAll | midi_test.py:162-184 | the outer loop plays a prefix of the time-ordered list, in order, through `play_note`, and leaves exactly `Remaining`; every played toggle was due at one of the readings; the first toggle left was due at none; a reading at which all toggles are due empties the list |
| MidiTestPlay.Player.Run | midi_test.py:143-186 | `run` plays a prefix of `Schedule(notes)`, in order, and leaves exactly `Remaining`; every played toggle was due at one of the readings, the first one left at none; it finishes once a reading finds everything due |

## Left out

- Threading: `Midi` is a thread started by its constructor, and `run` loops forever with a 10 ms wait. `PollOnce` models one iteration of that loop.
- The pygame calls (`init`, `midi.init`/`quit`, opening the input and output devices, `poll`, `read`, `get_device_info`, `get_count`) and `__del__`. They are replaced by a catalog value, a pending-message sequence and an output trace.
- The `bytes.decode()` of the interface and device names. The catalog gives them as strings already.
- The `MidiEvent` and `MidiDeviceInfo` accessors: they are the datatype destructors, so they return the constructor arguments by construction. `__repr__`/`__str__` are not modelled.
- A callback that raises. It would end the polling thread, and exceptions are not modelled.
- Range checks on pitch, velocity and channel. The code performs none.
- `_xml_to_list` and the music21 parsing. The score is given as a sequence of `Note` records.
- The tkinter GUI (`MidiTestShow.run`, the label update in `_cb_event`) and the `print` in `_cb_event`.
- The `play_note` pass-through in `MidiTestShow._cb_event` and `MidiTestThru._cb_event`. The keyboard model records the events it hands to the callback instead.
- `MidiTestThru` and `main`: argparse wiring, and a `run` that only sleeps.
- `print_note_list`: pandas output. Only its pitch label is modelled.
- The wall clock: `datetime.now`, `_get_time_since_start` and `time.sleep`. Clock readings and time stamps are parameters.
- The `time / bpm * 60` conversion. Clock readings are taken to be in the score's unit already.
- MidiVelocity: uses exact rational arithmetic, not binary floating point. A product that a float rounds across an integer may truncate differently.
- ListSort.SortByKey: the in-place `list.sort` is modelled as a pure stable sort on a sequence. `ListSort.SortByKey` and `PlayAll`'s list are values, not one mutated list object.
- Console I/O of the device choice (`print`, `input`). The typed lines are a sequence, and `None` stands for input running out, where Python's `input` raises EOFError.
- PyInt.Parse: it takes only ASCII digits, not the other Unicode decimal digits Python's `int()` also accepts. It strips the characters `str.isspace` accepts except the information separators U+001C to U+001F, which `int()` keeps and then rejects, as CPython does. CPython 3.11+'s default limit of 4300 digits on int/str conversion is not modelled; no device id or octave number comes near it.
