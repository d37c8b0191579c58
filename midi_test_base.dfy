/**
 * What the test programs share (`MidiTestBase` in midi_test.py): the
 * German note-name table, the pitch label built from it, and the rule by
 * which a device id is chosen from what the user types.
 */
module MidiTestBase {
  import opened Wrappers
  import PyInt
  import Midi

  /** `_notes`: the twelve pitch classes from C, with `h` for B. */
  const Notes: seq<string> := ["c", "c#", "d", "d#", "e", "f", "f#", "g", "g#", "a", "a#", "h"]

  function UpperChar(c: char): char {
    if 'a' <= c <= 'z' then (c as int - 32) as char else c
  }

  /** `str.upper` on the ASCII letters of the table. */
  function Upper(s: string): (r: string)
    ensures |r| == |s|
  {
    seq(|s|, i requires 0 <= i < |s| => UpperChar(s[i]))
  }

  /** `_notes[pitch % 12].upper()`: the pitch class name of a MIDI note number. */
  function NoteLetter(pitch: int): string {
    Upper(Notes[pitch % 12])
  }

  /** The label `print_note_list` shows for a pitch: its letter, then the octave `pitch // 12 - 1`. */
  function NoteName(pitch: int): string {
    NoteLetter(pitch) + PyInt.Show(pitch / 12 - 1)
  }

  /** The position of an upper-case letter name in the table, searching from `from`. */
  function LetterIndexFrom(name: string, from: nat): (r: Option<nat>)
    requires from <= 12
    ensures r.Some? ==> from <= r.value < 12 && Upper(Notes[r.value]) == name
    decreases 12 - from
  {
    if from == 12 then None
    else if Upper(Notes[from]) == name then Some(from)
    else LetterIndexFrom(name, from + 1)
  }

  /** Reads a label back into its pitch: the inverse of `NoteName`. */
  function ParseNoteName(s: string): Option<int> {
    ParseNoteAt(s, LetterLength(s))
  }

  /** The letter name is two characters when the second is a sharp. */
  function LetterLength(s: string): nat {
    if |s| >= 2 && s[1] == '#' then 2 else 1
  }

  /** The letter name is the first `split` characters, the octave number the rest. */
  function ParseNoteAt(s: string, split: nat): Option<int> {
    if |s| < split then None
    else
      var letter := LetterIndexFrom(s[..split], 0);
      var octave := PyInt.Parse(s[split..]);
      if letter.Some? && octave.Some? then Some((octave.value + 1) * 12 + letter.value) else None
  }

  /** The twelve letter names, upper-cased: one or two characters, a sharp second. */
  lemma LetterShape(k: nat)
    requires k < 12
    ensures |Upper(Notes[k])| == 1 || (|Upper(Notes[k])| == 2 && Upper(Notes[k])[1] == '#')
    ensures LetterIndexFrom(Upper(Notes[k]), 0) == Some(k)
  {
    UpperTable();
  }

  /** The table in upper case. */
  lemma UpperTable()
    ensures Upper(Notes[0]) == "C" && Upper(Notes[1]) == "C#" && Upper(Notes[2]) == "D" && Upper(Notes[3]) == "D#"
    ensures Upper(Notes[4]) == "E" && Upper(Notes[5]) == "F" && Upper(Notes[6]) == "F#" && Upper(Notes[7]) == "G"
    ensures Upper(Notes[8]) == "G#" && Upper(Notes[9]) == "A" && Upper(Notes[10]) == "A#" && Upper(Notes[11]) == "H"
  {
    assert Upper("c") == "C";
    assert Upper("c#") == "C#";
    assert Upper("d") == "D";
    assert Upper("d#") == "D#";
    assert Upper("e") == "E";
    assert Upper("f") == "F";
    assert Upper("f#") == "F#";
    assert Upper("g") == "G";
    assert Upper("g#") == "G#";
    assert Upper("a") == "A";
    assert Upper("a#") == "A#";
    assert Upper("h") == "H";
  }

  lemma ParseNoteNameParts(s: string, split: nat, k: nat, octave: int, pitch: int)
    requires 1 <= split <= |s|
    requires split == LetterLength(s)
    requires LetterIndexFrom(s[..split], 0) == Some(k)
    requires PyInt.Parse(s[split..]) == Some(octave)
    requires pitch == (octave + 1) * 12 + k
    ensures ParseNoteName(s) == Some(pitch)
  {
    assert ParseNoteAt(s, split) == Some(pitch);
  }

  /** A letter name followed by an octave number reads back to that pitch. */
  lemma ParseLabel(s: string, k: nat, octave: int, pitch: int)
    requires k < 12 && s == Upper(Notes[k]) + PyInt.Show(octave)
    requires pitch == (octave + 1) * 12 + k
    ensures ParseNoteName(s) == Some(pitch)
  {
    var letter := Upper(Notes[k]);
    var digits := PyInt.Show(octave);
    LetterShape(k);
    var split := |letter|;
    assert s[..split] == letter;
    assert s[split..] == digits;
    assert split == 1 ==> s[1] == digits[0];
    assert split == LetterLength(s);
    assert LetterIndexFrom(s[..split], 0) == Some(k);
    PyInt.ParseShow(octave);
    assert PyInt.Parse(s[split..]) == Some(octave);
    ParseNoteNameParts(s, split, k, octave, pitch);
  }

  /** Every label reads back to its pitch. */
  lemma ParseNoteNameRoundTrip(pitch: int)
    ensures ParseNoteName(NoteName(pitch)) == Some(pitch)
  {
    ParseLabel(NoteName(pitch), pitch % 12, pitch / 12 - 1, pitch);
  }

  /** Distinct pitches get distinct labels. */
  lemma NoteNameInjective(p: int, q: int)
    requires NoteName(p) == NoteName(q)
    ensures p == q
  {
    ParseNoteNameRoundTrip(p);
    ParseNoteNameRoundTrip(q);
  }

  /** Twelve semitones up is the same letter one octave higher. */
  lemma NoteNameOctaveUp(pitch: int)
    ensures NoteLetter(pitch + 12) == NoteLetter(pitch)
    ensures NoteName(pitch + 12) == NoteLetter(pitch) + PyInt.Show(pitch / 12)
  {
    assert (pitch + 12) % 12 == pitch % 12;
    assert (pitch + 12) / 12 == pitch / 12 + 1;
  }

  // ---------------------------------------------------------------------
  // Choosing a device

  function DeviceIds(devices: seq<Midi.MidiDeviceInfo>): (ids: seq<int>)
    ensures |ids| == |devices|
  {
    seq(|devices|, i requires 0 <= i < |devices| => devices[i].deviceId)
  }

  /** What `int(device_id_str)` makes of each entered line. */
  function ParseLines(entered: seq<string>): (values: seq<Option<int>>)
    ensures |values| == |entered|
  {
    seq(|entered|, i requires 0 <= i < |entered| => PyInt.Parse(entered[i]))
  }

  /** A line is taken when `int()` read a number and that number is a listed id. */
  predicate Acceptable(value: Option<int>, ids: seq<int>) {
    value.Some? && value.value in ids
  }

  /**
   * The prompt loop over the numbers read: the first acceptable one; lines
   * `int()` rejects and numbers not listed are passed over. `None` when the
   * input ends first.
   */
  function FirstAcceptable(values: seq<Option<int>>, ids: seq<int>): (r: Option<int>)
    ensures r.None? <==> forall i :: 0 <= i < |values| ==> !Acceptable(values[i], ids)
    ensures r.Some? ==> exists i :: (0 <= i < |values| && values[i] == r && r.value in ids
      && forall j :: 0 <= j < i ==> !Acceptable(values[j], ids))
  {
    if values == [] then None
    else if Acceptable(values[0], ids) then values[0]
    else
      var r := FirstAcceptable(values[1..], ids);
      assert forall i :: 1 <= i < |values| ==> values[i] == values[1..][i - 1];
      if r.Some? then
        var i :| 0 <= i < |values[1..]| && values[1..][i] == r && r.value in ids
          && forall j :: 0 <= j < i ==> !Acceptable(values[1..][j], ids);
        assert values[i + 1] == r;
        r
      else r
  }

  /**
   * `_choose_input_device` / `_choose_output_device`: an id given on the
   * command line is used as it is; otherwise the user is asked until a
   * line reads as a listed id.
   */
  function ChooseDevice(given: Option<int>, devices: seq<Midi.MidiDeviceInfo>, entered: seq<string>): (r: Option<int>)
    ensures given.Some? ==> r == given
    ensures given.None? && r.Some? ==> exists i :: 0 <= i < |devices| && devices[i].deviceId == r.value
    ensures given.None? ==> r == FirstAcceptable(ParseLines(entered), DeviceIds(devices))
  {
    if given.Some? then given else FirstAcceptable(ParseLines(entered), DeviceIds(devices))
  }

  /** The id typed at the first acceptable prompt is chosen, whatever follows it. */
  lemma {:induction false} ChooseDeviceTakesFirstListedId(devices: seq<Midi.MidiDeviceInfo>, rejected: seq<string>, line: string, later: seq<string>)
    requires forall i :: 0 <= i < |rejected| ==> !Acceptable(PyInt.Parse(rejected[i]), DeviceIds(devices))
    requires Acceptable(PyInt.Parse(line), DeviceIds(devices))
    ensures ChooseDevice(None, devices, rejected + [line] + later) == PyInt.Parse(line)
  {
    var ids := DeviceIds(devices);
    var entered := rejected + [line] + later;
    var values := ParseLines(entered);
    assert entered[|rejected|] == line;
    assert forall i :: 0 <= i < |rejected| ==> entered[i] == rejected[i];
    FirstAcceptableAt(values, ids, |rejected|);
  }

  /** The first acceptable number is the one taken. */
  lemma FirstAcceptableAt(values: seq<Option<int>>, ids: seq<int>, i: nat)
    requires i < |values| && Acceptable(values[i], ids)
    requires forall j :: 0 <= j < i ==> !Acceptable(values[j], ids)
    ensures FirstAcceptable(values, ids) == values[i]
  {
    var r := FirstAcceptable(values, ids);
    var k :| 0 <= k < |values| && values[k] == r && r.value in ids
      && forall j :: 0 <= j < k ==> !Acceptable(values[j], ids);
    assert !(k < i) && !(i < k);
  }

  lemma {:induction false} ChosenIdIsListed(devices: seq<Midi.MidiDeviceInfo>, entered: seq<string>, id: int)
    requires ChooseDevice(None, devices, entered) == Some(id)
    ensures exists d :: d in devices && d.deviceId == id
  {
    var i :| 0 <= i < |devices| && devices[i].deviceId == id;
    assert devices[i] in devices;
  }

  /** An input device chosen at the prompt is an input-capable catalog position. */
  lemma {:induction false} ChosenInputDeviceIsInput(catalog: seq<Midi.RawDeviceInfo>, entered: seq<string>, id: int)
    requires ChooseDevice(None, Midi.Listed(catalog, Some(Midi.Input)), entered) == Some(id)
    ensures 0 <= id < |catalog| && catalog[id].isInput
  {
    ChosenIdIsListed(Midi.Listed(catalog, Some(Midi.Input)), entered, id);
    var d :| d in Midi.Listed(catalog, Some(Midi.Input)) && d.deviceId == id;
    Midi.ListedInputs(catalog, d);
  }

  /** An output device chosen at the prompt is an output-capable catalog position. */
  lemma {:induction false} ChosenOutputDeviceIsOutput(catalog: seq<Midi.RawDeviceInfo>, entered: seq<string>, id: int)
    requires ChooseDevice(None, Midi.Listed(catalog, Some(Midi.Output)), entered) == Some(id)
    ensures 0 <= id < |catalog| && catalog[id].isOutput
  {
    ChosenIdIsListed(Midi.Listed(catalog, Some(Midi.Output)), entered, id);
    var d :| d in Midi.Listed(catalog, Some(Midi.Output)) && d.deviceId == id;
    Midi.ListedOutputs(catalog, d);
  }
}
