/**
 Who may free the connection object, and what the library does with it
 afterwards.  Result functions give back references (the discoveries of gatt.c
 do so when they end), so the object can be freed in the middle of
 received_data; disconnect_timeout protects itself, received_data does not.
 */
module SchedulerLifetimes {
  import opened Octets
  import opened Scheduler
  import opened Ledger
  import opened SchedulerSafety
  import opened SchedulerTheorems

  // ----- when a script frees the object -----

  /** The references users have after a script, counted from the script alone. */
  function OwnersAfter(n: int, script: Script): int
    decreases script
  {
    if script == [] then n
    else OwnersAfter(if script[0].Hold? then n + 1 else if script[0].Drop? then n - 1 else n, script[1..])
  }

  lemma {:induction false} CancelsKeepOwners(s: State, keep: nat)
    ensures CancelRequestsFrom(s, keep).owners == s.owners
    decreases |s.requests|
  {
    if keep < |s.requests| && !(keep == 0 && s.requests[0].sent) {
      CancelFrame(s, keep);
      CancelsKeepOwners(CancelRequest(s, keep), keep);
    }
  }

  lemma {:induction false} CancelResponsesKeepOwners(s: State)
    ensures CancelAllResponses(s).owners == s.owners
    decreases |s.responses|
  {
    if s.responses != [] { CancelResponsesKeepOwners(CancelResponse(s, 0)); }
  }

  lemma {:induction false} OwnersOfAct(s: State, a: Action, own: nat)
    ensures Act(s, a, own).owners == OwnersAfter(s.owners, [a])
  {
    assert [a][1..] == [];
    hide DestroyAll, NewCommand, Push, CancelRequest, CancelResponse;
    match a
    case Send(_, _, _, _, _) =>
    case Resend(_, _, _, _, _) =>
    case Cancel(id) => CancelByIdKeepsOwners(s, id);
    case CancelAll =>
      if s.requests != [] { CancelFrame(s, 0); }
      CancelsKeepOwners(s, 0);
      if s.requests != [] { CancelsKeepOwners(CancelRequest(s, 0), 1); }
      CancelResponsesKeepOwners(CancelAllRequests(s));
    case Hold =>
    case Drop =>
  }

  lemma {:induction false} CancelByIdKeepsOwners(s: State, id: nat)
    ensures CancelById(s, id).owners == s.owners
  {
    if IndexOfId(s.requests, id) >= 0 { CancelFrame(s, IndexOfId(s.requests, id)); }
    hide CancelRequest, RemoveAt;
  }

  lemma {:induction false} OwnersOfScript(s: State, script: Script, own: nat)
    ensures RunScript(s, script, own).owners == OwnersAfter(s.owners, script)
    decreases script
  {
    if script != [] {
      hide Act;
      OwnersOfAct(s, script[0], own);
      assert [script[0]][1..] == [];
      assert OwnersAfter(OwnersAfter(s.owners, [script[0]]), []) == OwnersAfter(s.owners, [script[0]]);
      OwnersOfScript(Act(s, script[0], own), script[1..], own);
    }
  }

  /** A script gives up every reference: users have none left, and it has not armed the write watch. */
  predicate GivesUpAll(s: State, script: Script, own: nat) {
    OwnersAfter(s.owners, script) == 0 && !RunScript(s, script, own).watch
  }

  lemma {:induction false} FreedByScript(s: State, script: Script, own: nat, held: set<nat>)
    requires Core(s, held) && Counted(s) && s.mem.pins == 0 && Proper(s, script, own)
    requires own != 0 ==> InFlight(s.requests).None?
    ensures RunScript(s, script, own).dead <==> GivesUpAll(s, script, own)
    ensures RunScript(s, script, own).mem.touched == s.mem.touched
  {
    OwnersOfScript(s, script, own);
    RunScriptKeeps(s, script, own, held);
    hide Core, RunScript, Proper, SameWire, Audit, Undisturbed, InFlight;
  }

  // ----- when received_data touches the freed object -----

  /** A notification handler gives up every reference. */
  predicate HandlerFrees(s: State, step: Step)
    requires step.ReadableStep?
  {
    !s.stale && GivesUpAll(s, step.events, 0)
  }

  /** The result function gives up every reference while something else is queued. */
  predicate CallbackFreesBusy(s: State, step: Step)
    requires step.ReadableStep?
  {
    && !s.stale && !GivesUpAll(s, step.events, 0) && IsResponse(At(step.rx, 0))
    && var t := RunScript(s, step.events, 0);
       && t.requests != [] && t.requests[0].func && (|t.requests| > 1 || t.responses != [])
       && ReplyFrees(t, step.rx, step.script)
  }

  predicate ReplyFrees(t: State, rx: seq<byte>, script: Script)
    requires t.requests != []
  {
    var c := t.requests[0];
    GivesUpAll(Note(PopReplied(t, rx), Called(c, StatusOf(c.expected, rx), rx, script)), script, c.id)
  }

  lemma {:induction false} FreedByReply(s: State, rx: seq<byte>, script: Script)
    requires Core(s, {}) && Counted(s) && Clean(s) && Flight(s) && s.requests != [] && rx != []
             && ProperReply(s, rx, script)
    ensures var c := s.requests[0];
            var u := Deliver(PopReplied(s, rx), c, StatusOf(c.expected, rx), rx, script);
            (u.dead <==> c.func && ReplyFrees(s, rx, script)) && !u.mem.touched
  {
    PopRepliedKeeps(s, rx);
    var c, t := s.requests[0], PopReplied(s, rx);
    if c.func {
      var status := StatusOf(c.expected, rx);
      hide Core, Flight, StatusOf, PopReplied, MayCall, RunScript, Proper, GivesUpAll;
      CallKeeps(t, c, status, rx, script);
      CalledCounts(t, Called(c, status, rx, script));
      FreedByScript(Note(t, Called(c, status, rx, script)), script, c.id, {c.serial});
    }
  }

  lemma {:induction false} CalledCounts(s: State, e: Event)
    requires Counted(s)
    ensures Counted(Note(s, e)) && Note(s, e).mem == s.mem
  {
  }

  lemma {:induction false} ReplyTouches(s: State, rx: seq<byte>, script: Script)
    requires Core(s, {}) && Counted(s) && Clean(s) && Flight(s) && rx != [] && ProperReply(s, rx, script)
    ensures AfterReply(s, rx, script).mem.touched <==>
            s.requests != [] && s.requests[0].func && (|s.requests| > 1 || s.responses != [])
                && ReplyFrees(s, rx, script)
  {
    if s.requests != [] {
      hide Core, Flight, Deliver, ReplyFrees, StatusOf, ProperReply, Counted;
      FreedByReply(s, rx, script);
    }
  }

  lemma {:induction false} ReadableTouches(s: State, step: Step)
    requires Inv(s) && Enabled(s, step) && step.ReadableStep?
    ensures Apply(s, step).mem.touched <==> HandlerFrees(s, step) || CallbackFreesBusy(s, step)
  {
    if !s.stale {
      var t := RunScript(s, step.events, 0);
      RunScriptKeeps(s, step.events, 0, {});
      EventsLeave(s, t);
      FreedByScript(s, step.events, 0, {});
      assert IsResponse(At(step.rx, 0)) ==> step.rx != [];
      hide Inv, Core, Flight, RunScript, AfterReply, GivesUpAll, ReplyFrees, Proper, ProperReply, IsResponse, Counted,
          Wakeful, Kept, Quiet;
      if !t.dead && IsResponse(At(step.rx, 0)) { ReplyTouches(t, step.rx, step.script); }
    }
  }

  /**
   No other callback and no call of a user touches what was freed; a timeout
   because it holds a reference of its own.
   */
  lemma {:induction false} OthersTouchNothing(s: State, step: Step)
    requires Inv(s) && Enabled(s, step) && !step.ReadableStep?
    ensures !Apply(s, step).mem.touched
  {
    hide Core, Act, Flush, DestroyAll, ProperFlush, SameWire, Audit, Flight, Wakeful, Kept;
    match step
    case UserCall(a) => ActKeeps(s, a, 0, {});
    case WritableStep(_) =>
    case ReadFailureStep =>
    case TimeoutStep(scripts) => TimeoutSurvives(s, scripts);
  }

  /** During a timeout nobody can free the object. */
  lemma {:induction false} TimeoutSurvives(s: State, scripts: seq<Script>)
    requires Inv(s) && Enabled(s, TimeoutStep(scripts))
    ensures var t := Flush(Pin(s), ATT_ECODE_TIMEOUT, scripts); !t.dead && t.mem == Pin(s).mem
  {
    PinKeeps(s);
    hide Inv, Core, Flush, ProperFlush, SameWire, Audit;
    FlushKeeps(Pin(s), ATT_ECODE_TIMEOUT, scripts);
  }

  /**
   The library touches the freed object if and only if the run ends with a
   reading in which a handler gave up every reference, or the result function
   did so while something was queued.
   */
  lemma {:induction false} FreedIsTouchedExactly(steps: seq<Step>)
    requires Legal(steps)
    ensures Run(steps).mem.touched <==>
            steps != [] &&
            var s, step := Run(steps[..|steps| - 1]), steps[|steps| - 1];
            step.ReadableStep? && (HandlerFrees(s, step) || CallbackFreesBusy(s, step))
  {
    if steps != [] {
      var before, step := steps[..|steps| - 1], steps[|steps| - 1];
      RunsAreSafe(before);
      hide Inv, Apply, HandlerFrees, CallbackFreesBusy, Enabled;
      if step.ReadableStep? { ReadableTouches(Run(before), step); } else { OthersTouchNothing(Run(before), step); }
    }
  }

  // ----- a run in which it does -----

  /**
   A discovery holds the connection and a read is queued behind it; the user
   lets go, and so does the discovery's end.
   */
  function Abandoned(rx: seq<byte>): seq<Step> {
    [UserCall(Hold), UserCall(Send(0x10, [], true, false, Plain)), UserCall(Send(0x0A, [], true, false, Plain)),
     WritableStep(Done), UserCall(Drop), ReadableStep(rx, [], [Drop])]
  }

  function First(sent: bool): Command {
    Command(0, 1, 0x10, 0x11, false, true, [], sent, true, false, Plain)
  }

  function Second(): Command {
    Command(1, 2, 0x0A, 0x0B, false, true, [], false, true, false, Plain)
  }

  /** One owner, the first request in flight and the second behind it. */
  const ABANDONED := State([First(true), Second()], [], Some(0), false, false, 2, 2, 1, 1, false, false, INITIAL.mem,
                           [Accepted(First(false)), Accepted(Second()), Wrote(First(false))])

  lemma {:induction false} Longer(steps: seq<Step>, step: Step)
    ensures var t := steps + [step];
            Run(t) == Apply(Run(steps), step) && (Legal(t) <==> Legal(steps) && Enabled(Run(steps), step))
  {
    hide Apply, Enabled;
    assert (steps + [step])[..|steps|] == steps;
  }

  const HELD := INITIAL.(refs := 2, owners := 2)

  const ASKED := HELD.(requests := [First(false)], watch := true, nextId := 1, accepted := 1, refs := 3,
                       log := [Accepted(First(false))])

  const QUEUED := ASKED.(requests := [First(false), Second()], nextId := 2, accepted := 2,
                         log := [Accepted(First(false)), Accepted(Second())])

  lemma {:induction false} AskedTwice(rx: seq<byte>)
    ensures var a := Abandoned(rx);
            && Apply(INITIAL, a[0]) == HELD && Enabled(INITIAL, a[0])
            && Apply(HELD, a[1]) == ASKED && Enabled(HELD, a[1])
            && Apply(ASKED, a[2]) == QUEUED && Enabled(ASKED, a[2])
  {
  }

  lemma {:induction false} WrittenAndDropped(rx: seq<byte>)
    ensures var a, written := Abandoned(rx), ABANDONED.(refs := 2, owners := 2);
            && Apply(QUEUED, a[3]) == written && Enabled(QUEUED, a[3])
            && Apply(written, a[4]) == ABANDONED && Enabled(written, a[4])
  {
    assert QUEUED.requests[0 := First(true)] == [First(true), Second()];
  }

  lemma {:induction false} AbandonedIsReached(rx: seq<byte>)
    ensures var steps := Abandoned(rx)[..5]; Legal(steps) && Run(steps) == ABANDONED
  {
    AskedTwice(rx);
    WrittenAndDropped(rx);
    var a := Abandoned(rx);
    assert Run([]) == INITIAL && Legal([]);
    hide Run, Legal, Apply, Enabled;
    Longer([], a[0]);
    Longer(a[..1], a[1]);
    Longer(a[..2], a[2]);
    Longer(a[..3], a[3]);
    Longer(a[..4], a[4]);
    assert [] + [a[0]] == a[..1] && a[..1] + [a[1]] == a[..2] && a[..2] + [a[2]] == a[..3];
    assert a[..3] + [a[3]] == a[..4] && a[..4] + [a[4]] == a[..5];
  }

  /** Whatever the reply, received_data then reads the object that its callback freed. */
  lemma {:induction false} FreedObjectIsRead(rx: seq<byte>)
    requires IsResponse(At(rx, 0))
    ensures var steps := Abandoned(rx); Legal(steps) && Run(steps).dead && Run(steps).mem.touched
  {
    var a, s := Abandoned(rx), ABANDONED;
    AbandonedIsReached(rx);
    assert s.requests[1..] == [Second()] && [Drop][1..] == [];
    var c := First(true);
    var p := PopReplied(s, rx);
    var u := Note(p, Called(c, StatusOf(c.expected, rx), rx, [Drop]));
    hide StatusOf, IsResponse, Run, Legal;
    assert p.refs == 1 && p.owners == 1 && !p.dead && p.requests == [Second()];
    assert RunScript(u, [Drop], 1) == Act(u, Drop, 1) && Act(u, Drop, 1).dead by {
      assert RunScript(Act(u, Drop, 1), [], 1) == Act(u, Drop, 1);
    }
    assert Proper(u, [Drop], 1) by { assert Proper(Act(u, Drop, 1), [], 1); }
    hide Act, DestroyAll, RunScript, Proper;
    assert AfterReply(s, rx, [Drop]).mem.touched && AfterReply(s, rx, [Drop]).dead;
    EmptyScript(s);
    Longer(a[..5], a[5]);
    assert a[..5] + [a[5]] == a;
  }

  lemma {:induction false} EmptyScript(s: State)
    ensures RunScript(s, [], 0) == s && Proper(s, [], 0)
  {
  }

  // ----- the timer's source -----

  predicate HasTimeout(steps: seq<Step>) {
    exists i :: 0 <= i < |steps| && steps[i].TimeoutStep?
  }

  /** A live connection is stale exactly if a timeout has fired. */
  lemma {:induction false} StaleExactlyAfterTimeout(steps: seq<Step>)
    requires Legal(steps) && !Run(steps).dead
    ensures Run(steps).stale <==> HasTimeout(steps)
  {
    hide HasTimeout, Inv, Apply;
    if steps == [] {
      NoTimeoutYet();
    } else {
      var before, step := steps[..|steps| - 1], steps[|steps| - 1];
      RunsAreSafe(before);
      StaleExactlyAfterTimeout(before);
      SameTimer(Run(before), step);
      LongerTimeout(before, step);
      assert before + [step] == steps;
    }
  }

  lemma {:induction false} NoTimeoutYet()
    ensures !HasTimeout([])
  {
  }

  lemma {:induction false} LongerTimeout(before: seq<Step>, step: Step)
    ensures HasTimeout(before + [step]) <==> HasTimeout(before) || step.TimeoutStep?
  {
    var steps := before + [step];
    if i :| 0 <= i < |before| && before[i].TimeoutStep? { assert steps[i].TimeoutStep?; }
    if step.TimeoutStep? { assert steps[|before|].TimeoutStep?; }
  }

  /** Only a timeout makes a connection stale or loses its timer's source. */
  lemma {:induction false} SameTimer(s: State, step: Step)
    requires Inv(s) && Enabled(s, step)
    ensures var t := Apply(s, step);
            && (step.TimeoutStep? ==> t.stale && !s.stale && (t.dead ==> t.mem.fired == s.mem.fired))
            && (!step.TimeoutStep? ==> t.stale == s.stale && t.mem.fired == s.mem.fired)
  {
    hide Core, Act, Flush, DestroyAll, ProperFlush, SameWire, Audit, Flight, Wakeful, Kept, RunScript, AfterReply,
        ProperReading;
    match step
    case UserCall(a) => ActKeeps(s, a, 0, {});
    case WritableStep(_) =>
    case ReadableStep(rx, events, script) => ReadingKeepsTimer(s, rx, events, script);
    case ReadFailureStep =>
    case TimeoutStep(scripts) => TimeoutSurvives(s, scripts);
  }

  lemma {:induction false} ReadingKeepsTimer(s: State, rx: seq<byte>, events: Script, script: Script)
    requires Inv(s) && !s.dead && (!s.stale ==> ProperReading(s, rx, events, script))
    ensures var t := Readable(s, rx, events, script); t.stale == s.stale && t.mem.fired == s.mem.fired
  {
    if !s.stale {
      var t := RunScript(s, events, 0);
      RunScriptKeeps(s, events, 0, {});
      EventsLeave(s, t);
      assert IsResponse(At(rx, 0)) ==> rx != [];
      hide Inv, Core, Flight, RunScript, Proper, ProperReply, IsResponse, Counted, Wakeful, Kept, SameWire, Audit,
          AfterReply;
      if !t.dead && IsResponse(At(rx, 0)) { ReplyKeepsTimer(t, rx, script); }
    }
  }

  lemma {:induction false} ReplyKeepsTimer(s: State, rx: seq<byte>, script: Script)
    requires Core(s, {}) && Counted(s) && Flight(s) && rx != [] && ProperReply(s, rx, script)
    ensures var t := AfterReply(s, rx, script); t.stale == s.stale && t.mem.fired == s.mem.fired
  {
    hide Core, Flight, PopReplied, Due, Deliver, StatusOf, SameWire, Audit, ProperCall, Counted, Gone, Undisturbed,
        InFlight, Kept;
    if s.requests != [] {
      PopRepliedKeeps(s, rx);
      var c, t := s.requests[0], PopReplied(s, rx);
      assert !s.dead by { CountedIsLive(s); }
      DeliverKeeps(t, c, StatusOf(c.expected, rx), rx, script);
    }
  }

  lemma {:induction false} CountedIsLive(s: State)
    requires Counted(s)
    ensures !s.dead
  {
  }

  /**
   Freeing destroys a timer source that the main loop had disposed of if and
   only if a timeout fired in an earlier step.
   */
  lemma {:induction false} FreeingIsWildExactly(steps: seq<Step>)
    requires Legal(steps) && Run(steps).dead
    ensures Run(steps).mem.wild <==> HasTimeout(steps[..|steps| - 1])
  {
    var before, step := steps[..|steps| - 1], steps[|steps| - 1];
    RunsAreSafe(before);
    RunsAreSafe(steps);
    StaleExactlyAfterTimeout(before);
    SameTimer(Run(before), step);
    hide Core, Apply, HasTimeout, Flight, Wakeful, Kept, Legal;
  }
}
