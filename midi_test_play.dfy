/**
 * Score playback of `MidiTestPlay` in midi_test.py: every note of the
 * score becomes a note-on toggle at its start and a note-off toggle at its
 * end, the toggles are sorted by time (note-offs first among equal times),
 * and a polling loop plays every toggle that is due, front first, until
 * none are left.
 *
 * The score comes as a sequence of `Note` records. Times are exact
 * rationals in the score's own unit, and the clock is a sequence of
 * readings in that unit.
 */
module MidiTestPlay {
  import opened Wrappers
  import ListSort
  import Midi

  datatype NoteState = On | Off

  datatype Note = Note(
    start: real, duration: real, pitch: int, velocity: real,
    channel: int, instrument: int, instrumentName: string)

  datatype NoteToggle = NoteToggle(
    time: real, state: NoteState, pitch: int, velocity: real,
    channel: int, instrument: int, instrumentName: string)

  /** The toggle that starts a note. */
  function OnToggle(n: Note): NoteToggle {
    NoteToggle(n.start, On, n.pitch, n.velocity, n.channel, n.instrument, n.instrumentName)
  }

  /** The toggle that ends a note, `duration` after its start. */
  function OffToggle(n: Note): NoteToggle {
    NoteToggle(n.start + n.duration, Off, n.pitch, n.velocity, n.channel, n.instrument, n.instrumentName)
  }

  /** A note's two toggles: on at its start, off `duration` later, with everything else copied. */
  lemma TogglesOfNote(n: Note)
    ensures OnToggle(n).state == On && OffToggle(n).state == Off
    ensures OnToggle(n).time == n.start && OffToggle(n).time - OnToggle(n).time == n.duration
    ensures OnToggle(n).(time := 0.0, state := Off) == OffToggle(n).(time := 0.0)
    ensures OnToggle(n).pitch == n.pitch && OnToggle(n).velocity == n.velocity && OnToggle(n).channel == n.channel
    ensures OnToggle(n).instrument == n.instrument && OnToggle(n).instrumentName == n.instrumentName
  {
  }

  // ---------------------------------------------------------------------
  // Building the toggle list

  /** The toggle list before sorting: each note's on and off toggle, in note order. */
  ghost function Expansion(notes: seq<Note>): seq<NoteToggle> {
    if notes == [] then []
    else
      var last := notes[|notes| - 1];
      Expansion(notes[..|notes| - 1]) + [OnToggle(last), OffToggle(last)]
  }

  /** Two toggles per note: note `i` gives positions `2i` (on) and `2i + 1` (off). */
  lemma {:induction false} ExpansionAt(notes: seq<Note>)
    ensures |Expansion(notes)| == 2 * |notes|
    ensures forall i :: 0 <= i < |notes| ==>
      Expansion(notes)[2 * i] == OnToggle(notes[i]) && Expansion(notes)[2 * i + 1] == OffToggle(notes[i])
  {
    if notes != [] {
      var front := notes[..|notes| - 1];
      ExpansionAt(front);
      assert forall i :: 0 <= i < |front| ==> notes[i] == front[i];
    }
  }

  /** Note `i`'s two toggles are in the expansion. */
  lemma ExpansionHasToggles(notes: seq<Note>, i: nat)
    requires i < |notes|
    ensures OnToggle(notes[i]) in Expansion(notes) && OffToggle(notes[i]) in Expansion(notes)
  {
    ExpansionAt(notes);
    assert Expansion(notes)[2 * i] == OnToggle(notes[i]);
    assert Expansion(notes)[2 * i + 1] == OffToggle(notes[i]);
  }

  /** Position `j` of the expansion holds a toggle of note `j / 2`. */
  lemma ExpansionToggleOf(notes: seq<Note>, j: nat)
    requires j < |Expansion(notes)|
    ensures j / 2 < |notes|
    ensures Expansion(notes)[j] == OnToggle(notes[j / 2]) || Expansion(notes)[j] == OffToggle(notes[j / 2])
  {
    ExpansionAt(notes);
    var i := j / 2;
    assert j == 2 * i || j == 2 * i + 1;
  }

  /** Every toggle of the expansion is the on or the off toggle of one of the notes, and each note has both. */
  lemma ExpansionMembers(notes: seq<Note>)
    ensures forall n :: n in notes ==> OnToggle(n) in Expansion(notes) && OffToggle(n) in Expansion(notes)
    ensures forall t :: t in Expansion(notes) ==> exists n :: n in notes && (t == OnToggle(n) || t == OffToggle(n))
  {
    var e := Expansion(notes);
    forall n | n in notes ensures OnToggle(n) in e && OffToggle(n) in e {
      var i :| 0 <= i < |notes| && notes[i] == n;
      ExpansionHasToggles(notes, i);
    }
    forall t | t in e ensures exists n :: n in notes && (t == OnToggle(n) || t == OffToggle(n)) {
      var j :| 0 <= j < |e| && e[j] == t;
      ExpansionToggleOf(notes, j);
      assert notes[j / 2] in notes;
    }
  }

  /** Expansion works note by note: expanding `a + b` expands `a`, then `b`. */
  lemma {:induction false} ExpansionAppend(a: seq<Note>, b: seq<Note>)
    ensures Expansion(a + b) == Expansion(a) + Expansion(b)
    decreases |b|
  {
    if b == [] {
      assert a + b == a;
    } else {
      var front := b[..|b| - 1];
      assert (a + b)[..|a + b| - 1] == a + front;
      assert (a + b)[|a + b| - 1] == b[|b| - 1];
      ExpansionAppend(a, front);
    }
  }

  /** The toggles do not depend on the order of the notes, only on which notes there are. */
  lemma {:induction false} ExpansionPermutation(a: seq<Note>, b: seq<Note>)
    requires multiset(a) == multiset(b)
    ensures multiset(Expansion(a)) == multiset(Expansion(b))
    decreases |a|
  {
    if a == [] {
      assert |multiset(b)| == 0;
    } else {
      var x := a[|a| - 1];
      var front := a[..|a| - 1];
      assert a == front + [x];
      assert x in multiset(b);
      var j :| 0 <= j < |b| && b[j] == x;
      var rest := b[..j] + b[j + 1..];
      RemoveOne(b, j);
      assert multiset(a) == multiset(front) + multiset{x};
      assert multiset(front) == multiset(a) - multiset{x};
      assert multiset(rest) == multiset(b) - multiset{x};
      ExpansionPermutation(front, rest);
      ExpansionWithoutAt(b, j);
      ExpansionOfLast(a);
    }
  }

  /** Taking element `j` out of a sequence takes it out of its multiset. */
  lemma RemoveOne<T>(s: seq<T>, j: nat)
    requires j < |s|
    ensures multiset(s[..j] + s[j + 1..]) + multiset{s[j]} == multiset(s)
  {
    assert s == s[..j] + [s[j]] + s[j + 1..];
  }

  /** Expanding a list without note `j` leaves out that note's two toggles. */
  lemma ExpansionWithoutAt(notes: seq<Note>, j: nat)
    requires j < |notes|
    ensures multiset(Expansion(notes[..j] + notes[j + 1..])) + multiset{OnToggle(notes[j]), OffToggle(notes[j])}
      == multiset(Expansion(notes))
  {
    SplitAround(notes, j);
    ExpansionWithout(notes[..j], notes[j], notes[j + 1..], notes);
  }

  /** A sequence is what comes before position `j`, the element there, and what comes after. */
  lemma SplitAround<T>(s: seq<T>, j: nat)
    requires j < |s|
    ensures s == s[..j] + [s[j]] + s[j + 1..]
  {
  }

  /** Leaving a note out of a list leaves its two toggles out of the expansion. */
  lemma ExpansionWithout(left: seq<Note>, x: Note, right: seq<Note>, notes: seq<Note>)
    requires notes == left + [x] + right
    ensures multiset(Expansion(left + right)) + multiset{OnToggle(x), OffToggle(x)}
      == multiset(Expansion(notes))
  {
    var pair := [OnToggle(x), OffToggle(x)];
    ExpansionAround(left, x, right);
    ExpansionAppend(left, right);
    assert multiset(Expansion(left) + pair + Expansion(right))
      == multiset(Expansion(left)) + multiset(pair) + multiset(Expansion(right));
  }

  /** A note between two lists expands to its two toggles between their expansions. */
  lemma ExpansionAround(left: seq<Note>, x: Note, right: seq<Note>)
    ensures Expansion(left + [x] + right) == Expansion(left) + [OnToggle(x), OffToggle(x)] + Expansion(right)
  {
    ExpansionAppend(left + [x], right);
    ExpansionAppend(left, [x]);
    assert Expansion([x]) == [OnToggle(x), OffToggle(x)];
  }

  /** The last note of a list contributes its two toggles to the expansion. */
  lemma ExpansionOfLast(notes: seq<Note>)
    requires notes != []
    ensures multiset(Expansion(notes)) == multiset(Expansion(notes[..|notes| - 1]))
      + multiset{OnToggle(notes[|notes| - 1]), OffToggle(notes[|notes| - 1])}
  {
  }

  /** The loop of `run` that appends an on and an off toggle for each note. */
  method ExpandNotes(notes: seq<Note>) returns (toggles: seq<NoteToggle>)
    ensures toggles == Expansion(notes)
  {
    toggles := [];
    for i := 0 to |notes|
      invariant toggles == Expansion(notes[..i])
    {
      toggles := toggles + [OnToggle(notes[i]), OffToggle(notes[i])];
      assert notes[..i + 1][..i] == notes[..i];
    }
    assert notes[..|notes|] == notes;
  }

  /** `key=lambda n: n.start`. */
  function NoteKey(n: Note): ListSort.SortKey {
    ListSort.SortKey(n.start, 0)
  }

  /** `key=lambda n: (n.time, n.state == ON)`: `False` sorts before `True`, so offs come first. */
  function ToggleKey(t: NoteToggle): ListSort.SortKey {
    ListSort.SortKey(t.time, if t.state == On then 1 else 0)
  }

  /** Notes are ordered by their start alone. */
  lemma NoteKeyOrder(a: Note, b: Note)
    ensures ListSort.KeyLe(NoteKey(a), NoteKey(b)) <==> a.start <= b.start
  {
  }

  /**
   * Toggles are ordered as the tuples `(time, state == ON)`: by time, and at
   * equal times an off toggle before an on toggle.
   */
  lemma ToggleKeyOrder(a: NoteToggle, b: NoteToggle)
    ensures ListSort.KeyLe(ToggleKey(a), ToggleKey(b)) <==>
      a.time < b.time || (a.time == b.time && (a.state == On ==> b.state == On))
  {
  }

  /** The toggle list `run` plays: notes sorted by start, expanded, toggles sorted. */
  ghost function Schedule(notes: seq<Note>): seq<NoteToggle> {
    ListSort.SortByKey(Expansion(ListSort.SortByKey(notes, NoteKey)), ToggleKey)
  }

  /** The time of the toggle at position `i`. */
  function TimeAt(ts: seq<NoteToggle>, i: nat): real
    requires i < |ts|
  {
    ts[i].time
  }

  /** Time never decreases along a toggle list. */
  predicate TimeOrdered(ts: seq<NoteToggle>) {
    forall i: nat, j: nat :: i < j < |ts| ==> TimeAt(ts, i) <= TimeAt(ts, j)
  }

  /**
   * The schedule is ordered by time, and among toggles at the same time
   * every off comes before every on.
   */
  lemma ScheduleIsOrdered(notes: seq<Note>)
    ensures TimeOrdered(Schedule(notes))
    ensures forall i, j :: (0 <= i < j < |Schedule(notes)| && Schedule(notes)[i].time == Schedule(notes)[j].time
      && Schedule(notes)[i].state == On) ==> Schedule(notes)[j].state == On
  {
    var s := Schedule(notes);
    assert ListSort.SortedBy(s, ToggleKey);
    forall i: nat, j: nat | i < j < |s| ensures TimeAt(s, i) <= TimeAt(s, j) {
      assert ListSort.KeyLe(ToggleKey(s[i]), ToggleKey(s[j]));
    }
  }

  /**
   * The schedule holds two toggles per note: each note's on toggle at its
   * start and its off toggle at its end, and nothing else; it is the
   * unsorted toggle list reordered.
   */
  lemma {:induction false} ScheduleHasBothTogglesOfEachNote(notes: seq<Note>)
    ensures |Schedule(notes)| == 2 * |notes|
    ensures forall n :: n in notes ==> OnToggle(n) in Schedule(notes) && OffToggle(n) in Schedule(notes)
    ensures forall t :: t in Schedule(notes) ==> exists n :: n in notes && (t == OnToggle(n) || t == OffToggle(n))
    ensures multiset(Schedule(notes)) == multiset(Expansion(notes))
  {
    ScheduleReordersExpansion(notes);
    ReorderedExpansion(Schedule(notes), notes);
  }

  /** Any reordering of the toggle list has its length and holds exactly each note's two toggles. */
  lemma ReorderedExpansion(ts: seq<NoteToggle>, notes: seq<Note>)
    requires multiset(ts) == multiset(Expansion(notes))
    ensures |ts| == 2 * |notes|
    ensures forall n :: n in notes ==> OnToggle(n) in ts && OffToggle(n) in ts
    ensures forall t :: t in ts ==> exists n :: n in notes && (t == OnToggle(n) || t == OffToggle(n))
  {
    SameElements(ts, Expansion(notes));
    ExpansionAt(notes);
    ExpansionMembers(notes);
  }

  /** The schedule is the unsorted toggle list in another order. */
  lemma ScheduleReordersExpansion(notes: seq<Note>)
    ensures multiset(Schedule(notes)) == multiset(Expansion(notes))
  {
    ExpansionPermutation(ListSort.SortByKey(notes, NoteKey), notes);
  }

  /** Two sequences with the same multiset have the same length and the same elements. */
  lemma SameElements<T>(a: seq<T>, b: seq<T>)
    requires multiset(a) == multiset(b)
    ensures |a| == |b|
    ensures forall x :: x in a <==> x in b
  {
    assert |multiset(a)| == |multiset(b)|;
    forall x ensures x in a <==> x in b {
      assert x in a <==> x in multiset(a);
      assert x in b <==> x in multiset(b);
    }
  }

  /**
   * Stability: toggles that share a time and a state are played in the
   * order of their notes after the sort by start.
   */
  lemma ScheduleKeepsNoteOrder(notes: seq<Note>, k: ListSort.SortKey)
    ensures ListSort.KeyClass(Schedule(notes), ToggleKey, k)
      == ListSort.KeyClass(Expansion(ListSort.SortByKey(notes, NoteKey)), ToggleKey, k)
  {
    ListSort.SortByKeyIsStable(Expansion(ListSort.SortByKey(notes, NoteKey)), ToggleKey, k);
  }

  // ---------------------------------------------------------------------
  // Playing due toggles

  /** `int(velocity * 127)`: Python's `int` of a float truncates toward zero. */
  function MidiVelocity(v: real): (r: int)
    ensures 0.0 <= v ==> r as real <= v * 127.0 < r as real + 1.0
    ensures 0.0 <= v <= 1.0 ==> 0 <= r <= 127
    ensures v < 0.0 ==> r as real - 1.0 < v * 127.0 <= r as real
  {
    var x := v * 127.0;
    if x >= 0.0 then x.Floor else -((-x).Floor)
  }

  /** The calls playing one toggle makes: `play_note(pitch, velocity, channel, instrument=..., off=...)`. */
  function ToggleCalls(t: NoteToggle): seq<Midi.OutputCall> {
    Midi.PlayNoteCalls(t.pitch, MidiVelocity(t.velocity), t.channel, Some(t.instrument), t.state == Off)
  }

  /** The calls playing a list of toggles in order makes. */
  ghost function Calls(ts: seq<NoteToggle>): seq<Midi.OutputCall> {
    if ts == [] then [] else Calls(ts[..|ts| - 1]) + ToggleCalls(ts[|ts| - 1])
  }

  lemma {:induction false} CallsAppend(a: seq<NoteToggle>, b: seq<NoteToggle>)
    ensures Calls(a + b) == Calls(a) + Calls(b)
  {
    if b == [] {
      assert a + b == a;
    } else {
      assert (a + b)[..|a + b| - 1] == a + b[..|b| - 1];
      CallsAppend(a, b[..|b| - 1]);
    }
  }

  /** The note message a toggle sends: note-on for an on toggle, note-off for an off toggle. */
  function NoteMessage(t: NoteToggle): Midi.OutputCall {
    var velocity := MidiVelocity(t.velocity);
    if t.state == Off then Midi.NoteOff(t.pitch, velocity, t.channel) else Midi.NoteOn(t.pitch, velocity, t.channel)
  }

  /** One toggle: a program change to its instrument, then its note message. */
  lemma ToggleCallsShape(t: NoteToggle)
    ensures ToggleCalls(t) == [Midi.SetInstrument(t.instrument, t.channel), NoteMessage(t)]
    ensures Midi.NoteMessages(ToggleCalls(t)) == [NoteMessage(t)]
  {
    Midi.PlayNoteSendsOneNoteMessage(t.pitch, MidiVelocity(t.velocity), t.channel, Some(t.instrument), t.state == Off);
  }

  lemma {:induction false} CallsAt(ts: seq<NoteToggle>)
    ensures |Calls(ts)| == 2 * |ts|
    ensures forall i :: 0 <= i < |ts| ==>
      Calls(ts)[2 * i] == Midi.SetInstrument(ts[i].instrument, ts[i].channel) && Calls(ts)[2 * i + 1] == NoteMessage(ts[i])
  {
    if ts != [] {
      var front := ts[..|ts| - 1];
      CallsAt(front);
      ToggleCallsShape(ts[|ts| - 1]);
      assert forall i :: 0 <= i < |front| ==> ts[i] == front[i];
    }
  }

  lemma {:induction false} NoteMessagesOfCalls(ts: seq<NoteToggle>)
    ensures Midi.NoteMessages(Calls(ts)) == seq(|ts|, i requires 0 <= i < |ts| => NoteMessage(ts[i]))
  {
    if ts != [] {
      var front := ts[..|ts| - 1];
      var last := ts[|ts| - 1];
      NoteMessagesOfCalls(front);
      Midi.NoteMessagesAppend(Calls(front), ToggleCalls(last));
      ToggleCallsShape(last);
      assert forall i :: 0 <= i < |front| ==> ts[i] == front[i];
    }
  }

  /**
   * Playing toggles sends one note message per toggle, in toggle order,
   * each after a program change to the toggle's instrument.
   */
  lemma CallsPerToggle(ts: seq<NoteToggle>)
    ensures |Calls(ts)| == 2 * |ts|
    ensures forall i :: 0 <= i < |ts| ==>
      Calls(ts)[2 * i] == Midi.SetInstrument(ts[i].instrument, ts[i].channel) && Calls(ts)[2 * i + 1] == NoteMessage(ts[i])
    ensures Midi.NoteMessages(Calls(ts)) == seq(|ts|, i requires 0 <= i < |ts| => NoteMessage(ts[i]))
  {
    CallsAt(ts);
    NoteMessagesOfCalls(ts);
  }

  /** `td >= note.time`: a toggle is due once the clock has reached its time. */
  predicate Due(t: NoteToggle, now: real) {
    now >= t.time
  }

  /** How many toggles at the front of the list are due, the loop's stopping point. */
  function DuePrefixLength(ts: seq<NoteToggle>, now: real): (n: nat)
    ensures n <= |ts|
    ensures forall i :: 0 <= i < n ==> Due(ts[i], now)
    ensures n < |ts| ==> !Due(ts[n], now)
  {
    if ts == [] || !Due(ts[0], now) then 0
    else
      var n := DuePrefixLength(ts[1..], now);
      assert forall i :: 1 <= i < |ts| ==> ts[i] == ts[1..][i - 1];
      n + 1
  }

  /** On a time-ordered list the due prefix is exactly the toggles that are due. */
  lemma DuePrefixIsAllDue(ts: seq<NoteToggle>, now: real)
    requires TimeOrdered(ts)
    ensures forall i :: 0 <= i < |ts| ==> (i < DuePrefixLength(ts, now) <==> Due(ts[i], now))
  {
    var n := DuePrefixLength(ts, now);
    forall i | n <= i < |ts| ensures !Due(ts[i], now) {
      assert TimeAt(ts, n) <= TimeAt(ts, i);
    }
  }

  /** A reading at or after every toggle's time finds the whole list due. */
  lemma LateClockFindsAllDue(ts: seq<NoteToggle>, now: real)
    requires AllDueAt(ts, now)
    ensures DuePrefixLength(ts, now) == |ts|
  {
    forall i | 0 <= i < |ts| ensures Due(ts[i], now) {
      assert ts[i] in ts;
    }
  }

  /** Playing the toggle at `played` extends the played prefix by one. */
  lemma {:induction false} DispatchStep(noteList: seq<NoteToggle>, played: nat)
    requires played < |noteList|
    ensures noteList[played..][1..] == noteList[played + 1..]
    ensures Calls(noteList[..played + 1]) == Calls(noteList[..played]) + ToggleCalls(noteList[played])
  {
    assert noteList[..played + 1][..played] == noteList[..played];
  }

  /** A due run ended by the list's end or by a toggle not yet due is the due prefix. */
  lemma {:induction false} DuePrefixEndsAt(ts: seq<NoteToggle>, now: real, n: nat)
    requires n <= |ts| && (forall i :: 0 <= i < n ==> Due(ts[i], now))
    requires n == |ts| || !Due(ts[n], now)
    ensures DuePrefixLength(ts, now) == n
  {
  }

  /** Every toggle of the list is due at `now`. */
  predicate AllDueAt(ts: seq<NoteToggle>, now: real) {
    forall t :: t in ts ==> Due(t, now)
  }

  /** Where the run of due toggles that starts at index `from` ends. */
  ghost function DueEnd(ts: seq<NoteToggle>, from: nat, now: real): (e: nat)
    requires from <= |ts|
    ensures from <= e <= |ts|
    decreases |ts| - from
  {
    if from == |ts| || !Due(ts[from], now) then from else DueEnd(ts, from + 1, now)
  }

  /** The toggles from `from` up to the end of the run are due, and the one after it is not. */
  lemma {:induction false} DueEndIsDueRun(ts: seq<NoteToggle>, from: nat, now: real)
    requires from <= |ts|
    ensures forall i :: from <= i < DueEnd(ts, from, now) ==> Due(ts[i], now)
    ensures DueEnd(ts, from, now) < |ts| ==> !Due(ts[DueEnd(ts, from, now)], now)
    decreases |ts| - from
  {
    if from < |ts| && Due(ts[from], now) {
      DueEndIsDueRun(ts, from + 1, now);
    }
  }

  /** The run of due toggles from `from` is the due prefix of the list's suffix there. */
  lemma DueEndIsDuePrefix(ts: seq<NoteToggle>, from: nat, now: real)
    requires from <= |ts|
    ensures DueEnd(ts, from, now) == from + DuePrefixLength(ts[from..], now)
  {
    DueEndIsDueRun(ts, from, now);
    var rest := ts[from..];
    var n := DueEnd(ts, from, now) - from;
    assert forall i :: 0 <= i < |rest| ==> rest[i] == ts[from + i];
    DuePrefixEndsAt(rest, now, n);
  }

  /**
   * How many toggles of a list the outer loop of `run` has played after the
   * first `tick` clock readings: each reading plays the run of due toggles
   * after the ones played so far. Once nothing is left a reading plays
   * nothing, which is where the loop stops.
   */
  ghost function PlayedAfter(ts: seq<NoteToggle>, clock: seq<real>, tick: nat): (p: nat)
    requires tick <= |clock|
    ensures p <= |ts|
  {
    if tick == 0 then 0 else DueEnd(ts, PlayedAfter(ts, clock, tick - 1), clock[tick - 1])
  }

  /** What the outer loop leaves of the list once the readings have run out. */
  ghost function Remaining(ts: seq<NoteToggle>, clock: seq<real>): seq<NoteToggle> {
    ts[PlayedAfter(ts, clock, |clock|)..]
  }

  /** The toggle is due at one of the first `tick` readings. */
  ghost predicate DueAtSomeReading(t: NoteToggle, clock: seq<real>, tick: nat) {
    exists k :: 0 <= k < tick && k < |clock| && Due(t, clock[k])
  }

  /** Once every toggle is played, later readings play nothing more. */
  lemma {:induction false} PlayedAfterStaysDone(ts: seq<NoteToggle>, clock: seq<real>, tick: nat, later: nat)
    requires tick <= later <= |clock| && PlayedAfter(ts, clock, tick) == |ts|
    ensures PlayedAfter(ts, clock, later) == |ts|
    decreases later
  {
    if later > tick {
      PlayedAfterStaysDone(ts, clock, tick, later - 1);
    }
  }

  /** No toggle is played early: each played toggle was due at one of the readings. */
  lemma {:induction false} PlayedWereDue(ts: seq<NoteToggle>, clock: seq<real>, tick: nat)
    requires tick <= |clock|
    ensures forall i :: 0 <= i < PlayedAfter(ts, clock, tick) ==> DueAtSomeReading(ts[i], clock, tick)
  {
    if tick > 0 {
      PlayedWereDue(ts, clock, tick - 1);
      var p := PlayedAfter(ts, clock, tick - 1);
      DueEndIsDueRun(ts, p, clock[tick - 1]);
      forall i | p <= i < PlayedAfter(ts, clock, tick) ensures DueAtSomeReading(ts[i], clock, tick) {
        assert Due(ts[i], clock[tick - 1]);
      }
    }
  }

  /**
   * On a time-ordered list, the first toggle not yet played was due at none
   * of the readings so far.
   */
  lemma {:induction false} FirstUnplayedNotDue(ts: seq<NoteToggle>, clock: seq<real>, tick: nat)
    requires TimeOrdered(ts) && tick <= |clock|
    ensures var p := PlayedAfter(ts, clock, tick);
      p < |ts| ==> forall k :: 0 <= k < tick ==> !Due(ts[p], clock[k])
  {
    if tick > 0 {
      FirstUnplayedNotDue(ts, clock, tick - 1);
      var p := PlayedAfter(ts, clock, tick - 1);
      var q := PlayedAfter(ts, clock, tick);
      if q < |ts| {
        DueEndIsDueRun(ts, p, clock[tick - 1]);
        forall k | 0 <= k < tick ensures !Due(ts[q], clock[k]) {
          if k < tick - 1 {
            assert TimeAt(ts, p) <= TimeAt(ts, q);
          }
        }
      }
    }
  }

  /** At a reading where every toggle is due, the run of due toggles reaches the end of the list. */
  lemma {:induction false} AllDueRunsToEnd(ts: seq<NoteToggle>, from: nat, now: real)
    requires from <= |ts| && AllDueAt(ts, now)
    ensures DueEnd(ts, from, now) == |ts|
    decreases |ts| - from
  {
    if from < |ts| {
      assert ts[from] in ts;
      AllDueRunsToEnd(ts, from + 1, now);
    }
  }

  /** A reading at which every toggle is due leaves nothing over. */
  lemma {:induction false} AllDueFinishes(ts: seq<NoteToggle>, clock: seq<real>, tick: nat, k: nat)
    requires k < tick <= |clock| && AllDueAt(ts, clock[k])
    ensures PlayedAfter(ts, clock, tick) == |ts|
  {
    var p := PlayedAfter(ts, clock, k);
    AllDueRunsToEnd(ts, p, clock[k]);
    PlayedAfterStaysDone(ts, clock, k + 1, tick);
  }

  /**
   * What the outer loop of `run` achieves on a time-ordered list: it plays
   * a prefix, each played toggle was due at one of the readings, the first
   * toggle left over was due at none of them, and a reading at which every
   * toggle is due leaves nothing over.
   */
  lemma PlaybackOutcome(ts: seq<NoteToggle>, clock: seq<real>)
    requires TimeOrdered(ts)
    ensures var r := Remaining(ts, clock);
      && |r| <= |ts| && r == ts[|ts| - |r|..]
      && (forall i :: 0 <= i < |ts| - |r| ==> DueAtSomeReading(ts[i], clock, |clock|))
      && (r != [] ==> forall k :: 0 <= k < |clock| ==> !Due(r[0], clock[k]))
      && (forall k :: 0 <= k < |clock| && AllDueAt(ts, clock[k]) ==> r == [])
  {
    PlayedWereDue(ts, clock, |clock|);
    FirstUnplayedNotDue(ts, clock, |clock|);
    forall k | 0 <= k < |clock| && AllDueAt(ts, clock[k]) ensures Remaining(ts, clock) == [] {
      AllDueFinishes(ts, clock, |clock|, k);
    }
  }

  /** One pass of the outer loop plays the first `n` toggles: they move from the remaining to the played toggles. */
  lemma {:induction false} PassStep(played: seq<NoteToggle>, remaining: seq<NoteToggle>, n: nat, before: seq<Midi.OutputCall>)
    requires n <= |remaining|
    ensures played + remaining == (played + remaining[..n]) + remaining[n..]
    ensures before + Calls(played) + Calls(remaining[..n]) == before + Calls(played + remaining[..n])
  {
    MoveFront(played, remaining, n);
    CallsAppend(played, remaining[..n]);
  }

  /** Moving the first `n` elements of the second part to the end of the first keeps the whole. */
  lemma MoveFront<T>(a: seq<T>, b: seq<T>, n: nat)
    requires n <= |b|
    ensures a + b == (a + b[..n]) + b[n..]
  {
    assert b == b[..n] + b[n..];
  }

  /** The pass at reading `tick` plays the due prefix of what the earlier readings left. */
  lemma PassCount(ts: seq<NoteToggle>, played: seq<NoteToggle>, remaining: seq<NoteToggle>, clock: seq<real>, tick: nat)
    requires ts == played + remaining && tick < |clock| && |played| == PlayedAfter(ts, clock, tick)
    ensures |played| + DuePrefixLength(remaining, clock[tick]) == PlayedAfter(ts, clock, tick + 1)
  {
    assert ts[|played|..] == remaining;
    DueEndIsDuePrefix(ts, |played|, clock[tick]);
  }

  /** When the loop stops, what is left is what the model leaves. */
  lemma LoopExit(ts: seq<NoteToggle>, played: seq<NoteToggle>, remaining: seq<NoteToggle>, clock: seq<real>, tick: nat)
    requires TimeOrdered(ts)
    requires ts == played + remaining && tick <= |clock| && |played| == PlayedAfter(ts, clock, tick)
    requires tick == |clock| || remaining == []
    ensures |remaining| <= |ts| && played == ts[..|ts| - |remaining|]
    ensures remaining == Remaining(ts, clock)
    ensures forall i :: 0 <= i < |ts| - |remaining| ==> DueAtSomeReading(ts[i], clock, |clock|)
    ensures remaining != [] ==> forall k :: 0 <= k < |clock| ==> !Due(remaining[0], clock[k])
    ensures forall k :: 0 <= k < |clock| && AllDueAt(ts, clock[k]) ==> remaining == []
  {
    if tick < |clock| {
      PlayedAfterStaysDone(ts, clock, tick, |clock|);
    }
    assert ts[|played|..] == remaining;
    PlaybackOutcome(ts, clock);
  }

  /**
   * `MidiTestPlay` playing to an output device. The device id is the one
   * the user chose; the session has no input device and no callback.
   */
  class Player {
    const midi: Midi.Midi

    predicate Valid() {
      midi.outputDeviceId.Some?
    }

    constructor (outputDeviceId: int)
      ensures Valid() && fresh(midi)
      ensures midi.outputDeviceId == Some(outputDeviceId) && midi.inputDeviceId.None? && midi.cbEvent.None?
      ensures midi.outputTrace == [] && midi.delivered == []
    {
      midi := new Midi.Midi(None, Some(outputDeviceId), None);
    }

    /**
     * The inner `while` of `run`: play and drop toggles from the front as
     * long as the front one is due at `now`.
     */
    method DispatchDue(noteList: seq<NoteToggle>, now: real) returns (rest: seq<NoteToggle>)
      requires Valid()
      modifies midi`outputTrace
      ensures var n := DuePrefixLength(noteList, now);
        && rest == noteList[n..]
        && midi.outputTrace == old(midi.outputTrace) + Calls(noteList[..n])
      ensures rest == [] || !Due(rest[0], now)
    {
      rest := noteList;
      ghost var played: nat := 0;
      while |rest| > 0
        invariant played <= |noteList| && rest == noteList[played..]
        invariant forall i :: 0 <= i < played ==> Due(noteList[i], now)
        invariant midi.outputTrace == old(midi.outputTrace) + Calls(noteList[..played])
        decreases |rest|
      {
        var note := rest[0];
        if now >= note.time {
          var ok := midi.PlayNote(note.pitch, MidiVelocity(note.velocity), note.channel, Some(note.instrument), note.state == Off);
          DispatchStep(noteList, played);
          rest := rest[1..];
          played := played + 1;
        } else {
          break;
        }
      }
      DuePrefixEndsAt(noteList, now, played);
    }

    /**
     * The outer `while` of `run` over a time-ordered toggle list: at each
     * clock reading play what is due, and stop once nothing is left. When
     * the readings run out first, the toggles not yet played are returned.
     */
    method PlayAll(noteList: seq<NoteToggle>, clock: seq<real>) returns (remaining: seq<NoteToggle>)
      requires Valid() && TimeOrdered(noteList)
      modifies midi`outputTrace
      ensures |remaining| <= |noteList|
      ensures var played := noteList[..|noteList| - |remaining|];
        && noteList == played + remaining
        && midi.outputTrace == old(midi.outputTrace) + Calls(played)
      ensures remaining == Remaining(noteList, clock)
      ensures forall i :: 0 <= i < |noteList| - |remaining| ==> DueAtSomeReading(noteList[i], clock, |clock|)
      ensures remaining != [] ==> forall k :: 0 <= k < |clock| ==> !Due(remaining[0], clock[k])
      ensures forall k :: 0 <= k < |clock| && AllDueAt(noteList, clock[k]) ==> remaining == []
    {
      remaining := noteList;
      ghost var played: seq<NoteToggle> := [];
      var tick := 0;
      while tick < |clock| && |remaining| > 0
        invariant noteList == played + remaining
        invariant midi.outputTrace == old(midi.outputTrace) + Calls(played)
        invariant tick <= |clock|
        invariant |played| == PlayedAfter(noteList, clock, tick)
      {
        var rest := DispatchDue(remaining, clock[tick]);
        ghost var n := DuePrefixLength(remaining, clock[tick]);
        PassCount(noteList, played, remaining, clock, tick);
        PassStep(played, remaining, n, old(midi.outputTrace));
        played := played + remaining[..n];
        remaining := rest;
        tick := tick + 1;
      }
      LoopExit(noteList, played, remaining, clock, tick);
    }

    /**
     * `run` with the score's notes and the clock readings the polling loop
     * takes: build and sort the toggle list, then play it against the clock.
     */
    method Run(notes: seq<Note>, clock: seq<real>) returns (remaining: seq<NoteToggle>)
      requires Valid()
      modifies midi`outputTrace
      ensures |remaining| <= |Schedule(notes)|
      ensures var played := Schedule(notes)[..|Schedule(notes)| - |remaining|];
        && Schedule(notes) == played + remaining
        && midi.outputTrace == old(midi.outputTrace) + Calls(played)
      ensures remaining == Remaining(Schedule(notes), clock)
      ensures forall i :: 0 <= i < |Schedule(notes)| - |remaining| ==> DueAtSomeReading(Schedule(notes)[i], clock, |clock|)
      ensures remaining != [] ==> forall k :: 0 <= k < |clock| ==> !Due(remaining[0], clock[k])
      ensures forall k :: 0 <= k < |clock| && AllDueAt(Schedule(notes), clock[k]) ==> remaining == []
    {
      var sortedNotes := ListSort.SortByKey(notes, NoteKey);
      var noteList := ExpandNotes(sortedNotes);
      noteList := ListSort.SortByKey(noteList, ToggleKey);
      ScheduleIsOrdered(notes);
      remaining := PlayAll(noteList, clock);
    }
  }
}
