/**
 * The computer-keyboard instrument of `MidiTestShow` in midi_test.py: keys
 * `y`/`x` move the octave down/up within 0..9, `c`/`v` move the velocity
 * down/up by 20 within 0..127, and thirteen letter keys play the semitones
 * of the current octave. A list of held keys suppresses the keyboard
 * driver's auto-repeat. Every accepted press or release hands one event
 * to the event callback; the callback itself (a print, a label, a note
 * sent on) is not part of this model, so the events are recorded instead.
 */
module MidiTestShow {
  import opened Wrappers
  import Midi

  /** `_computer_keyboard_keys`: one key per semitone, from C to the C an octave up. */
  const ComputerKeyboardKeys: seq<string> := ["a", "w", "s", "e", "d", "f", "t", "g", "z", "h", "u", "j", "k"]

  lemma KeysAreDistinct()
    ensures |ComputerKeyboardKeys| == 13
    ensures forall i, j :: 0 <= i < j < |ComputerKeyboardKeys| ==> ComputerKeyboardKeys[i] != ComputerKeyboardKeys[j]
  {
  }

  /** `_key_mapping`: each key to its position in the key table. */
  function KeyMapping(): (m: map<string, int>)
  {
    KeysAreDistinct();
    map k | 0 <= k < |ComputerKeyboardKeys| :: ComputerKeyboardKeys[k] := k
  }

  /** The mapping holds exactly the key table, and maps each key to its semitone. */
  lemma KeyMappingIsKeyPositions()
    ensures KeyMapping().Keys == set k | k in ComputerKeyboardKeys
    ensures forall k :: 0 <= k < |ComputerKeyboardKeys| ==> KeyMapping()[ComputerKeyboardKeys[k]] == k
    ensures forall key :: key in KeyMapping() ==> 0 <= KeyMapping()[key] <= 12
  {
    KeysAreDistinct();
    forall key | key in ComputerKeyboardKeys
      ensures key in KeyMapping()
    {
      var k :| 0 <= k < |ComputerKeyboardKeys| && ComputerKeyboardKeys[k] == key;
    }
  }

  /** The keys that move the octave (`y`, `x`) or the velocity (`c`, `v`). */
  predicate IsControlKey(key: string) {
    key == "y" || key == "x" || key == "c" || key == "v"
  }

  /** No table key is a control key, so the order of the checks in the handler does not matter. */
  lemma TableKeysAreNotControlKeys()
    ensures forall key :: key in ComputerKeyboardKeys ==> !IsControlKey(key)
  {
  }

  function Max(a: int, b: int): int { if a < b then b else a }
  function Min(a: int, b: int): int { if a < b then a else b }

  predicate NoDuplicates<T(==)>(s: seq<T>) {
    forall i, j :: 0 <= i < j < |s| ==> s[i] != s[j]
  }

  /** The position of the first occurrence of `x`. */
  function IndexOf<T(==)>(s: seq<T>, x: T): (i: nat)
    requires x in s
    ensures i < |s| && s[i] == x && x !in s[..i]
  {
    if s[0] == x then 0
    else
      var i := IndexOf(s[1..], x);
      assert s[..i + 1] == [s[0]] + s[1..][..i];
      i + 1
  }

  /** `list.remove(x)`: drops the first occurrence of `x`; Python raises when `x` is absent. */
  function RemoveFirst<T(==)>(s: seq<T>, x: T): (r: seq<T>)
    requires x in s
    ensures |r| == |s| - 1
    ensures multiset(r) == multiset(s) - multiset{x}
  {
    var i := IndexOf(s, x);
    assert s == s[..i] + [x] + s[i + 1..];
    s[..i] + s[i + 1..]
  }

  /** Removing an element that occurs once leaves neither it nor a duplicate behind. */
  lemma RemoveFirstOfDistinct<T>(s: seq<T>, x: T)
    requires x in s && NoDuplicates(s)
    ensures NoDuplicates(RemoveFirst(s, x))
    ensures forall y :: y in RemoveFirst(s, x) <==> y in s && y != x
  {
    var r := RemoveFirst(s, x);
    var i := IndexOf(s, x);
    assert forall k :: 0 <= k < |r| ==> r[k] == (if k < i then s[k] else s[k + 1]);
    forall y ensures y in r <==> y in s && y != x {
      if y in s && y != x {
        var k :| 0 <= k < |s| && s[k] == y;
        assert r[if k < i then k else k - 1] == y;
      }
    }
  }

  /** Appending an element that was absent and removing it restores the list. */
  lemma RemoveFirstAppended<T>(s: seq<T>, x: T)
    requires x !in s
    ensures RemoveFirst(s + [x], x) == s
  {
    var i := IndexOf(s + [x], x);
    assert forall k :: 0 <= k < |s| ==> (s + [x])[k] == s[k];
    assert i == |s|;
    assert (s + [x])[..|s|] == s;
  }

  /** The fields the key handlers read and write. */
  datatype KeyboardState = KeyboardState(octave: int, velocity: int, pressed: seq<string>)

  /** The state the instrument starts in: octave 5, full velocity, no key held. */
  const Initial := KeyboardState(5, 127, [])

  /** The invariant of the handlers: both ranges, held keys are table keys and none twice. */
  predicate ValidState(st: KeyboardState) {
    && 0 <= st.octave <= 9
    && 0 <= st.velocity <= 127
    && NoDuplicates(st.pressed)
    && forall i :: 0 <= i < |st.pressed| ==> st.pressed[i] in ComputerKeyboardKeys
  }

  /** What a key event hands to the callback: status 0, a note of the octaves 0..9, no device. */
  predicate KeyboardEvent(e: Midi.MidiEvent) {
    e.status == 0 && 0 <= e.data1 <= 120 && 0 <= e.data2 <= 127 && e.data3 == 0 && e.deviceId == -1
  }

  /** The event a table key sends at a state: its semitone in the current octave. */
  function KeyEvent(st: KeyboardState, key: string, velocity: int, now: int): Midi.MidiEvent
    requires key in ComputerKeyboardKeys
  {
    KeyMappingIsKeyPositions();
    Midi.MidiEvent(0, st.octave * 12 + KeyMapping()[key], velocity, 0, now, -1)
  }

  datatype PressResult = PressResult(state: KeyboardState, event: Option<Midi.MidiEvent>)

  /** `_cb_key_press` on a state. */
  function Press(st: KeyboardState, key: string, now: int): PressResult {
    if key == "y" then PressResult(st.(octave := Max(st.octave - 1, 0)), None)
    else if key == "x" then PressResult(st.(octave := Min(st.octave + 1, 9)), None)
    else if key == "c" then PressResult(st.(velocity := Max(st.velocity - 20, 0)), None)
    else if key == "v" then PressResult(st.(velocity := Min(st.velocity + 20, 127)), None)
    else if key in ComputerKeyboardKeys && key !in st.pressed then
      PressResult(st.(pressed := st.pressed + [key]), Some(KeyEvent(st, key, st.velocity, now)))
    else PressResult(st, None)
  }

  /**
   * What `_cb_key_release` does: a table key that is held is released with
   * an event of velocity 0; a table key that is not held makes `list.remove`
   * raise ValueError before any event; any other key is ignored.
   */
  datatype ReleaseOutcome = Released(event: Midi.MidiEvent) | NotHeld | NotMapped

  datatype ReleaseResult = ReleaseResult(state: KeyboardState, outcome: ReleaseOutcome)

  /** `_cb_key_release` on a state. */
  function Release(st: KeyboardState, key: string, now: int): ReleaseResult {
    if key !in ComputerKeyboardKeys then ReleaseResult(st, NotMapped)
    else if key !in st.pressed then ReleaseResult(st, NotHeld)
    else ReleaseResult(st.(pressed := RemoveFirst(st.pressed, key)), Released(KeyEvent(st, key, 0, now)))
  }

  /** Every release keeps the invariant, and the event of a released key is a keyboard event. */
  lemma ReleaseKeepsValid(st: KeyboardState, key: string, now: int)
    requires ValidState(st)
    ensures ValidState(Release(st, key, now).state)
    ensures Release(st, key, now).outcome.Released? ==> KeyboardEvent(Release(st, key, now).outcome.event)
  {
    if key in ComputerKeyboardKeys && key in st.pressed {
      var k := IndexOf(ComputerKeyboardKeys, key);
      ReleaseHeldKey(st, key, k, now);
    }
  }

  lemma InitialIsValid()
    ensures ValidState(Initial)
  {
  }

  /** Every press keeps the invariant, and any event it sends is a keyboard event. */
  lemma {:induction false} PressKeepsValid(st: KeyboardState, key: string, now: int)
    requires ValidState(st)
    ensures ValidState(Press(st, key, now).state)
    ensures Press(st, key, now).event.Some? ==> KeyboardEvent(Press(st, key, now).event.value)
  {
    KeyMappingIsKeyPositions();
    var r := Press(st, key, now);
    if key in ComputerKeyboardKeys && key !in st.pressed && !IsControlKey(key) {
      assert r.state.pressed == st.pressed + [key];
      assert forall i :: 0 <= i < |st.pressed| ==> r.state.pressed[i] == st.pressed[i];
    }
  }

  /** Octave and velocity keys clamp their field, change nothing else and send nothing. */
  lemma ControlKeys(st: KeyboardState, now: int)
    ensures Press(st, "y", now) == PressResult(st.(octave := if st.octave > 0 then st.octave - 1 else 0), None)
    ensures Press(st, "x", now) == PressResult(st.(octave := if st.octave < 9 then st.octave + 1 else 9), None)
    ensures Press(st, "c", now) == PressResult(st.(velocity := if st.velocity > 20 then st.velocity - 20 else 0), None)
    ensures Press(st, "v", now) == PressResult(st.(velocity := if st.velocity < 107 then st.velocity + 20 else 127), None)
  {
  }

  /**
   * A table key that is not held is appended to the held keys and sends
   * one event: its semitone in the current octave, at the current velocity.
   */
  lemma PressNewKey(st: KeyboardState, key: string, k: nat, now: int)
    requires k < |ComputerKeyboardKeys| && key == ComputerKeyboardKeys[k] && key !in st.pressed
    ensures Press(st, key, now).state == st.(pressed := st.pressed + [key])
    ensures Press(st, key, now).event == Some(Midi.MidiEvent(0, st.octave * 12 + k, st.velocity, 0, now, -1))
  {
    TableKeysAreNotControlKeys();
    assert !IsControlKey(key);
    KeyMappingIsKeyPositions();
  }

  /** Auto-repeat: pressing a key again while it is held changes nothing and sends nothing. */
  lemma PressHeldKey(st: KeyboardState, key: string, now: int)
    requires key in st.pressed && key in ComputerKeyboardKeys
    ensures Press(st, key, now) == PressResult(st, None)
  {
    TableKeysAreNotControlKeys();
    assert !IsControlKey(key);
  }

  /** A key that is neither a control key nor a table key is ignored. */
  lemma PressOtherKey(st: KeyboardState, key: string, now: int)
    requires key !in ComputerKeyboardKeys && !IsControlKey(key)
    ensures Press(st, key, now) == PressResult(st, None)
  {
  }

  /**
   * Releasing a held table key takes it out of the held keys and sends the
   * same note as pressing it, at velocity 0.
   */
  lemma {:induction false} ReleaseHeldKey(st: KeyboardState, key: string, k: nat, now: int)
    requires ValidState(st)
    requires k < |ComputerKeyboardKeys| && key == ComputerKeyboardKeys[k] && key in st.pressed
    ensures ValidState(Release(st, key, now).state)
    ensures Release(st, key, now).outcome == Released(Midi.MidiEvent(0, st.octave * 12 + k, 0, 0, now, -1))
    ensures forall y :: y in Release(st, key, now).state.pressed <==> y in st.pressed && y != key
    ensures Release(st, key, now).state.octave == st.octave && Release(st, key, now).state.velocity == st.velocity
  {
    KeyMappingIsKeyPositions();
    RemoveFirstOfDistinct(st.pressed, key);
    var r := RemoveFirst(st.pressed, key);
    forall i | 0 <= i < |r| ensures r[i] in ComputerKeyboardKeys {
      assert r[i] in st.pressed;
    }
  }

  /** Releasing a key that is not held, or not in the table, leaves the state as it was. */
  lemma ReleaseOtherKey(st: KeyboardState, key: string, now: int)
    requires key !in st.pressed || key !in ComputerKeyboardKeys
    ensures Release(st, key, now).state == st
    ensures Release(st, key, now).outcome == if key in ComputerKeyboardKeys then NotHeld else NotMapped
  {
  }

  /**
   * Pressing a free table key and releasing it restores the state, and the
   * two events are the note on and the note off (velocity 0) of one pitch.
   */
  lemma {:induction false} PressThenRelease(st: KeyboardState, key: string, pressedAt: int, releasedAt: int)
    requires ValidState(st) && key in ComputerKeyboardKeys && key !in st.pressed
    ensures var p := Press(st, key, pressedAt);
      var r := Release(p.state, key, releasedAt);
      && r.state == st
      && p.event.Some? && r.outcome.Released?
      && r.outcome.event == p.event.value.(data2 := 0, timestamp := releasedAt)
  {
    TableKeysAreNotControlKeys();
    assert !IsControlKey(key);
    var p := Press(st, key, pressedAt);
    assert p.state == st.(pressed := st.pressed + [key]);
    RemoveFirstAppended(st.pressed, key);
  }

  /**
   * The release reads the octave at release time, not at press time: a
   * key pressed, then an octave up, then released, sends its velocity-0
   * event for the note an octave above the one it started.
   */
  lemma {:induction false} OctaveChangeWhileHeld(st: KeyboardState, key: string, k: nat, t1: int, t2: int, t3: int)
    requires ValidState(st) && k < |ComputerKeyboardKeys| && key == ComputerKeyboardKeys[k] && key !in st.pressed
    requires st.octave < 9
    ensures var p := Press(st, key, t1);
      var up := Press(p.state, "x", t2);
      var r := Release(up.state, key, t3);
      && p.event == Some(Midi.MidiEvent(0, st.octave * 12 + k, st.velocity, 0, t1, -1))
      && r.outcome == Released(Midi.MidiEvent(0, st.octave * 12 + k + 12, 0, 0, t3, -1))
  {
    PressNewKey(st, key, k, t1);
    var p := Press(st, key, t1);
    var up := Press(p.state, "x", t2);
    assert up.state == p.state.(octave := st.octave + 1);
    assert key in up.state.pressed;
    KeyMappingIsKeyPositions();
  }

  /**
   * `MidiTestShow`'s keyboard fields and its two key handlers. `emitted`
   * holds the events handed to the callback, oldest first.
   */
  class ComputerKeyboard {
    var octave: int
    var velocity: int
    var pressed: seq<string>
    var emitted: seq<Midi.MidiEvent>

    function State(): KeyboardState
      reads this
    {
      KeyboardState(octave, velocity, pressed)
    }

    ghost predicate Valid()
      reads this
    {
      ValidState(State()) && forall i :: 0 <= i < |emitted| ==> KeyboardEvent(emitted[i])
    }

    constructor ()
      ensures State() == Initial && emitted == [] && Valid()
    {
      octave := 5;
      velocity := 127;
      pressed := [];
      emitted := [];
    }

    /** `_cb_key_press`: the new state and event are those of `Press`; the event is recorded. */
    method KeyPress(key: string, now: int) returns (ev: Option<Midi.MidiEvent>)
      requires Valid()
      modifies this
      ensures Valid()
      ensures PressResult(State(), ev) == Press(old(State()), key, now)
      ensures emitted == old(emitted) + (if ev.Some? then [ev.value] else [])
    {
      PressKeepsValid(State(), key, now);
      ev := None;
      if key == "y" {
        octave := Max(octave - 1, 0);
      } else if key == "x" {
        octave := Min(octave + 1, 9);
      } else if key == "c" {
        velocity := Max(velocity - 20, 0);
      } else if key == "v" {
        velocity := Min(velocity + 20, 127);
      } else if key in ComputerKeyboardKeys {
        if key !in pressed {
          var e := KeyEvent(State(), key, velocity, now);
          pressed := pressed + [key];
          emitted := emitted + [e];
          ev := Some(e);
        }
      }
    }

    /**
     * `_cb_key_release`: the new state and outcome are those of `Release`;
     * a released key's event is recorded. On `NotHeld` Python raises and
     * nothing changes.
     */
    method KeyRelease(key: string, now: int) returns (outcome: ReleaseOutcome)
      requires Valid()
      modifies this
      ensures Valid()
      ensures ReleaseResult(State(), outcome) == Release(old(State()), key, now)
      ensures emitted == old(emitted) + (if outcome.Released? then [outcome.event] else [])
    {
      if key !in ComputerKeyboardKeys {
        return NotMapped;
      }
      if key !in pressed {
        return NotHeld;
      }
      ReleaseKeepsValid(State(), key, now);
      var e := KeyEvent(State(), key, 0, now);
      pressed := RemoveFirst(pressed, key);
      emitted := emitted + [e];
      outcome := Released(e);
    }
  }
}
