/**
 The throttle (throttleinput.c, main.c): a thread turns joystick events into
 percentages, and the main loop prints each change it observes under the mutex.
 */
module Throttle {

  type s16 = i: int | -0x8000 <= i < 0x8000

  // ----- the conversion -----

  /** The exact quotient that convert_to_percent approximates. */
  function Quotient(raw: s16): real {
    (raw - 32767) as real * 100.0 / -65534.0
  }

  /** The k-th binary32 number of those below 128 that are multiples of 2^-17. */
  function Float(k: int): real {
    k as real / 131072.0
  }

  function Distance(a: real, b: real): real {
    if a < b then b - a else a - b
  }

  /** Division rounded to nearest: no binary32 number is nearer to the exact quotient. */
  ghost predicate RoundsTo(q: real, r: real) {
    forall k: int :: 0 <= k < 0x100_0000 ==> Distance(q, r) <= Distance(q, Float(k))
  }

  /** convert_to_percent, given the rounded quotient; the cast to int cuts toward zero. */
  function Convert(raw: s16, r: real): int {
    if raw == 32767 then 0 else if r >= 0.0 then r.Floor else -(-r).Floor
  }

  /** The percentage in integers. */
  function Percent(raw: s16): (p: int)
    ensures 0 <= p <= 100
    ensures 32767 * p <= 50 * (32767 - raw) < 32767 * (p + 1)
  {
    50 * (32767 - raw) / 32767
  }

  lemma {:induction false} RoundingIsClose(q: real, r: real)
    requires 0.0 <= q < 127.0 && RoundsTo(q, r)
    ensures Distance(q, r) <= 1.0 / 262144.0
    ensures q == q.Floor as real ==> r == q
  {
    var k := (q * 131072.0 + 0.5).Floor;
    assert Distance(q, r) <= Distance(q, Float(k));
    if q == q.Floor as real {
      assert Float(131072 * q.Floor) == q;
      assert Distance(q, r) <= Distance(q, Float(131072 * q.Floor));
    }
  }

  /** Single precision is enough: the rounded quotient never reaches the next integer. */
  lemma {:induction false} FloatIsExact(raw: s16, r: real)
    requires RoundsTo(Quotient(raw), r)
    ensures Convert(raw, r) == Percent(raw)
  {
    var p, q := Percent(raw), Quotient(raw);
    assert q * 32767.0 == (50 * (32767 - raw)) as real;
    RoundingIsClose(q, r);
    var n := 50 * (32767 - raw);
    assert (32767 * p) as real <= q * 32767.0 < (32767 * (p + 1)) as real;
    assert n <= 32767 * (p + 1) - 1;
    assert q * 32767.0 <= (32767 * (p + 1)) as real - 1.0;
    assert p as real <= q <= (p + 1) as real - 1.0 / 32767.0;
    if n > 32767 * p {
      assert q * 32767.0 >= (32767 * p) as real + 1.0;
      assert q >= p as real + 1.0 / 32767.0;
    } else {
      assert q == p as real;
    }
  }

  /** Pushing the lever never lowers the percentage, both stops are exact, and every percentage can be reached. */
  lemma {:induction false} PercentIsAntitone(raw: s16, raw': s16)
    requires raw <= raw'
    ensures Percent(raw) >= Percent(raw')
    ensures Percent(32767) == 0 && Percent(-32767) == 100 && Percent(-32768) == 100
  {
  }

  lemma {:induction false} EveryPercentIsReached(p: int) returns (raw: s16)
    requires 0 <= p <= 100
    ensures Percent(raw) == p
  {
    var n := (32767 * p + 49) / 50;
    raw := 32767 - n;
    assert 32767 * p <= 50 * n < 32767 * p + 50;
    var q := Percent(raw);
    assert 32767 * q < 32767 * (p + 1) && 32767 * p < 32767 * (q + 1);
  }

  // ----- the threads -----

  const JS_EVENT_BUTTON := 0x01
  const JS_EVENT_AXIS := 0x02

  datatype Event = Event(kind: nat, number: nat, value: s16)

  /** Where the main loop is: before its first read, at its test, about to take the mutex, or past the loop. */
  datatype Reader = Starting | Testing | Locking | Gone

  /** The shared variables, both threads, what was printed, and every value `throttle_position` has had. */
  datatype State = State(position: int, running: bool, reading: bool, reader: Reader, current: int, printed: seq<int>,
      written: seq<int>)

  const INITIAL := State(0, true, true, Starting, 0, [], [0])

  datatype Step = Input(e: Event) | InputError | Start | Test | Observe

  /** One turn of the loop in hotas_inputs. */
  function Handled(s: State, e: Event): State {
    if !s.running || !s.reading then s
    else if e.kind == JS_EVENT_AXIS then
      if e.number == 2 then s.(position := Percent(e.value), written := s.written + [Percent(e.value)]) else s
    else if e.kind == JS_EVENT_BUTTON && e.number == 0 && e.value == 1 then s.(running := false)
    else s
  }

  /** The section of the main loop under the mutex. */
  function Observed(s: State): State {
    if s.position != s.current then s.(current := s.position, printed := s.printed + [s.position]) else s
  }

  function After(s: State, step: Step): State {
    match step
    case Input(e) => Handled(s, e)
    case InputError => s.(reading := false)
    case Start => if s.reader.Starting? then s.(current := s.position, reader := Testing) else s
    case Test => if s.reader.Testing? then s.(reader := if s.running then Locking else Gone) else s
    case Observe => if s.reader.Locking? then Observed(s).(reader := Testing) else s
  }

  function Run(steps: seq<Step>): State {
    if steps == [] then INITIAL else After(Run(steps[..|steps| - 1]), steps[|steps| - 1])
  }

  // ----- what is printed -----

  predicate Subsequence(a: seq<int>, b: seq<int>) {
    a == [] ||
    (b != [] && ((a[|a| - 1] == b[|b| - 1] && Subsequence(a[..|a| - 1], b[..|b| - 1])) || Subsequence(a, b[..|b| - 1])))
  }

  ghost predicate InRange(s: seq<int>) {
    forall i :: 0 <= i < |s| ==> 0 <= s[i] <= 100
  }

  ghost predicate AdjacentDiffer(s: seq<int>) {
    forall i :: 0 < i < |s| ==> s[i - 1] != s[i]
  }

  /** The values the main loop has had in `current`, the first of them not printed. */
  ghost predicate Follows(current: int, printed: seq<int>, written: seq<int>, first: int) {
    var seen := [first] + printed;
    current == seen[|seen| - 1] && Subsequence(seen, written) && AdjacentDiffer(seen)
  }

  ghost predicate Inv(s: State, first: int) {
    && s.written != [] && s.position == s.written[|s.written| - 1] && InRange(s.written) && InRange(s.printed)
    && (s.reader.Starting? ==> s.printed == [])
    && (!s.reader.Starting? ==> Follows(s.current, s.printed, s.written, first))
  }

  lemma {:induction false} SubsequenceOfLonger(a: seq<int>, b: seq<int>, x: int)
    requires Subsequence(a, b)
    ensures Subsequence(a, b + [x])
  {
    assert (b + [x])[..|b|] == b;
  }

  lemma {:induction false} LastAlone(b: seq<int>)
    requires b != []
    ensures Subsequence([b[|b| - 1]], b)
  {
    assert [b[|b| - 1]][..0] == [];
  }

  lemma {:induction false} ObservedKeeps(s: State, first: int)
    requires Inv(s, first) && !s.reader.Starting?
    ensures Inv(Observed(s), first) && Observed(s).current == s.written[|s.written| - 1]
  {
    if s.position != s.current {
      var seen, next := [first] + s.printed, [first] + Observed(s).printed;
      assert next[..|next| - 1] == seen;
      assert Subsequence(seen, s.written[..|s.written| - 1]);
    }
  }

  lemma {:induction false} HandledKeeps(s: State, first: int, e: Event)
    requires Inv(s, first)
    ensures Inv(Handled(s, e), first)
  {
    if s.running && s.reading && e.kind == JS_EVENT_AXIS && e.number == 2 && !s.reader.Starting? {
      SubsequenceOfLonger([first] + s.printed, s.written, Percent(e.value));
    }
  }

  lemma {:induction false} StartKeeps(s: State, first: int)
    requires Inv(s, first) && s.reader.Starting?
    ensures Inv(After(s, Start), s.position)
  {
    LastAlone(s.written);
    assert [s.position] + s.printed == [s.position];
  }

  lemma {:induction false} StepKeeps(s: State, was: int, step: Step) returns (first: int)
    requires Inv(s, was)
    ensures Inv(After(s, step), first)
  {
    hide Handled, Observed, Follows, InRange;
    first := was;
    match step
    case Input(e) => HandledKeeps(s, was, e);
    case InputError =>
    case Start => if s.reader.Starting? { StartKeeps(s, was); first := s.position; }
    case Test =>
    case Observe => if s.reader.Locking? { ObservedKeeps(s, was); ObservedReader(s); }
  }

  lemma {:induction false} ObservedReader(s: State)
    ensures Observed(s).reader == s.reader
  {
  }

  lemma {:induction false} RunKeeps(steps: seq<Step>) returns (first: int)
    ensures Inv(Run(steps), first)
  {
    hide Inv, After;
    if steps == [] {
      first := 0;
      InitiallyTrue();
    } else {
      var was := RunKeeps(steps[..|steps| - 1]);
      first := StepKeeps(Run(steps[..|steps| - 1]), was, steps[|steps| - 1]);
    }
  }

  lemma {:induction false} InitiallyTrue()
    ensures Inv(INITIAL, 0)
  {
  }

  /** What is seen later was written later. */
  lemma {:induction false} SubsequenceRest(x: int, a: seq<int>, b: seq<int>)
    requires Subsequence([x] + a, b)
    ensures b != [] && Subsequence(a, b[1..])
  {
    var n, m := |a|, |b|;
    assert n > 0 ==> ([x] + a)[..n] == [x] + a[..n - 1];
    if a != [] {
      assert b[1..][..m - 2] == b[..m - 1][1..] || m == 1;
      if a[n - 1] == b[m - 1] && Subsequence([x] + a[..n - 1], b[..m - 1]) {
        SubsequenceRest(x, a[..n - 1], b[..m - 1]);
      } else {
        SubsequenceRest(x, a, b[..m - 1]);
      }
    }
  }

  /** A subsequence is the values at rising positions. */
  lemma {:induction false} SubsequencePositions(a: seq<int>, b: seq<int>) returns (at: seq<nat>)
    requires Subsequence(a, b)
    ensures |at| == |a| && (forall i :: 0 <= i < |a| ==> at[i] < |b| && b[at[i]] == a[i])
    ensures forall i, j :: 0 <= i < j < |a| ==> at[i] < at[j]
    decreases |b|
  {
    at := [];
    if a != [] {
      var n, m := |a| - 1, |b| - 1;
      if a[n] == b[m] && Subsequence(a[..n], b[..m]) {
        at := SubsequencePositions(a[..n], b[..m]);
        at := at + [m];
      } else {
        at := SubsequencePositions(a, b[..m]);
      }
    }
  }

  // ----- what is written, in terms of the events alone -----

  /** Button 0 goes down. */
  predicate Press(step: Step) {
    step.Input? && step.e.kind == 1 && step.e.number == 0 && step.e.value == 1
  }

  /** Neither a press nor a read error has arrived. */
  predicate Listening(steps: seq<Step>) {
    forall i :: 0 <= i < |steps| ==> !Press(steps[i]) && !steps[i].InputError?
  }

  /** The percentages of the axis-2 events that arrived while the writer was listening, in order. */
  function Percentages(steps: seq<Step>): seq<int> {
    if steps == [] then []
    else
      var before, step := steps[..|steps| - 1], steps[|steps| - 1];
      Percentages(before) +
      if step.Input? && step.e.kind == 2 && step.e.number == 2 && Listening(before) then [Percent(step.e.value)] else []
  }

  predicate NoErrors(steps: seq<Step>) {
    forall i :: 0 <= i < |steps| ==> !steps[i].InputError?
  }

  /** A press arrived before any read error. */
  ghost predicate Pressed(steps: seq<Step>) {
    exists i :: 0 <= i < |steps| && Press(steps[i]) && NoErrors(steps[..i])
  }

  lemma {:induction false} ListeningLonger(before: seq<Step>, step: Step)
    ensures Listening(before + [step]) <==> Listening(before) && !Press(step) && !step.InputError?
  {
    var steps := before + [step];
    assert steps[|before|] == step;
    assert forall i :: 0 <= i < |before| ==> steps[i] == before[i];
  }

  lemma {:induction false} NoErrorsLonger(before: seq<Step>, step: Step)
    ensures NoErrors(before + [step]) <==> NoErrors(before) && !step.InputError?
  {
    var steps := before + [step];
    assert steps[|before|] == step;
    assert forall i :: 0 <= i < |before| ==> steps[i] == before[i];
  }

  lemma {:induction false} PressedLonger(before: seq<Step>, step: Step)
    ensures Pressed(before + [step]) <==> Pressed(before) || (Press(step) && NoErrors(before))
  {
    hide NoErrors, Press;
    var steps := before + [step];
    assert steps[|before|] == step && steps[..|before|] == before;
    forall i | 0 <= i < |before| ensures steps[i] == before[i] && steps[..i] == before[..i] {}
    if i :| 0 <= i < |before| && Press(before[i]) && NoErrors(before[..i]) {
      assert Press(steps[i]) && NoErrors(steps[..i]);
    }
    if Press(step) && NoErrors(before) { assert Press(steps[|before|]) && NoErrors(steps[..|before|]); }
  }

  /**
   Over every interleaving the writer follows the joystick: what was written is
   0 and then the percentage of each axis-2 event up to the first press of
   button 0 or read error, the last of them is the position, and the program is
   told to stop exactly by a press that no read error precedes.
   */
  lemma {:induction false} WriterFollowsJoystick(steps: seq<Step>)
    ensures var s := Run(steps);
            && s.written == [0] + Percentages(steps) && s.position == s.written[|s.written| - 1]
            && (!s.running <==> Pressed(steps)) && (s.running && s.reading <==> Listening(steps))
            && (s.reading <==> NoErrors(steps))
  {
    if steps != [] {
      var before, step := steps[..|steps| - 1], steps[|steps| - 1];
      WriterFollowsJoystick(before);
      assert before + [step] == steps;
      WriterSteps(Run(before), step);
      hide Listening, Pressed, NoErrors, Press, After, Percent;
      ListeningLonger(before, step);
      PressedLonger(before, step);
      NoErrorsLonger(before, step);
    } else {
      NothingPressedYet();
    }
  }

  /** What one step does to the writer's side. */
  lemma {:induction false} WriterSteps(s: State, step: Step)
    ensures var t, on := After(s, step), s.running && s.reading;
            && (if on && step.Input? && step.e.kind == 2 && step.e.number == 2
                then t.written == s.written + [Percent(step.e.value)] && t.position == Percent(step.e.value)
                else t.written == s.written && t.position == s.position)
            && (t.running <==> s.running && !(s.reading && Press(step)))
            && (t.reading <==> s.reading && !step.InputError?)
  {
    hide Percent;
  }

  lemma {:induction false} NothingPressedYet()
    ensures !Pressed([]) && Listening([]) && NoErrors([])
  {
  }

  /**
   Over every interleaving: printed values are percentages, no two adjacent
   ones are equal, and they are what the joystick events amount to, in that order.
   */
  lemma {:induction false} PrintedWasWritten(steps: seq<Step>)
    ensures var s := Run(steps);
            InRange(s.printed) && AdjacentDiffer(s.printed) && Subsequence(s.printed, Percentages(steps))
  {
    var first := RunKeeps(steps);
    WriterFollowsJoystick(steps);
    assert Run(steps).written[1..] == Percentages(steps);
    hide Run, Subsequence, Percentages;
    var s := Run(steps);
    if s.reader.Starting? {
      NothingIsSubsequence(s.written[1..]);
    } else {
      var seen := [first] + s.printed;
      SubsequenceRest(first, s.printed, s.written);
      forall i | 0 < i < |s.printed| ensures s.printed[i - 1] != s.printed[i] { assert seen[i] != seen[i + 1]; }
    }
  }

  lemma {:induction false} NothingIsSubsequence(b: seq<int>)
    ensures Subsequence([], b)
  {
  }

  /** A pass of the main loop leaves it with the value last written, whatever it missed before. */
  lemma {:induction false} ObservationIsCurrent(steps: seq<Step>)
    requires Run(steps).reader.Locking?
    ensures var s := Run(steps + [Observe]); s.written != [] && s.current == s.position == s.written[|s.written| - 1]
  {
    var first := RunKeeps(steps);
    ObservedKeeps(Run(steps), first);
    assert (steps + [Observe])[..|steps|] == steps;
    hide Subsequence;
  }

  /** The main loop ends exactly at a test that finds the program told to stop. */
  lemma {:induction false} LoopEndsOnPress(steps: seq<Step>)
    ensures Run(steps).reader.Gone? ==> Pressed(steps)
    ensures Run(steps).reader.Testing? ==> (Run(steps + [Test]).reader.Gone? <==> Pressed(steps))
  {
    WriterFollowsJoystick(steps);
    assert (steps + [Test])[..|steps|] == steps;
    GoneIsStopped(steps);
    hide Pressed;
  }

  lemma {:induction false} GoneIsStopped(steps: seq<Step>)
    ensures Run(steps).reader.Gone? ==> !Run(steps).running
  {
    if steps != [] { GoneIsStopped(steps[..|steps| - 1]); }
  }

  // ----- the variables as they are updated -----

  class Cockpit {
    var position: int
    var running: bool
    var reading: bool
    var current: int
    var printed: seq<int>
    ghost var reader: Reader
    ghost var written: seq<int>

    ghost function Now(): State
      reads this
    {
      State(position, running, reading, reader, current, printed, written)
    }

    constructor ()
      ensures Now() == INITIAL
    {
      position, running, reading, current, printed := 0, true, true, 0, [];
      reader, written := Starting, [0];
    }

    method HotasInput(e: Event)
      requires running && reading
      modifies this`position, this`running, this`written
      ensures Now() == After(old(Now()), Input(e))
    {
      if e.kind == JS_EVENT_AXIS {
        if e.number == 2 {
          var percent := Percent(e.value);
          position := percent;
          written := written + [percent];
        }
      } else if e.kind == JS_EVENT_BUTTON {
        if e.number == 0 && e.value == 1 { running := false; }
      }
    }

    /** One pass of the main loop, from the mutex on. */
    method PrintChange()
      requires reader.Locking?
      modifies this`current, this`printed, this`reader
      ensures Now() == After(old(Now()), Observe)
    {
      if position != current {
        current := position;
        printed := printed + [current];
      }
      reader := Testing;
    }
  }
}
