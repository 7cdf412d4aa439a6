/** The promises of the transport, stated about whole runs. */
module SchedulerTheorems {
  import opened Octets
  import opened Scheduler
  import opened Ledger
  import opened SchedulerSafety
  import opened SchedulerContent

  // ----- states between callbacks -----

  /** At most one request is outstanding, it is the head, and no response is ever waiting for anything. */
  lemma {:induction false} SequentialProtocol(steps: seq<Step>)
    requires Legal(steps)
    ensures forall i :: 0 <= i < |Run(steps).requests| && Run(steps).requests[i].sent ==> i == 0
    ensures forall i :: 0 <= i < |Run(steps).responses| ==> !Run(steps).responses[i].sent
  {
    RunsAreSafe(steps);
  }

  /** Between callbacks, work that could be written has the sender awake. */
  lemma {:induction false} NoLostWakeup(steps: seq<Step>)
    requires Legal(steps)
    ensures var s := Run(steps); !s.dead && !s.stale && !s.faulted && Work(s) ==> s.watch
  {
    RunsAreSafe(steps);
  }

  /**
   While the connection is usable a timer runs exactly when a request is in
   flight, and it was armed for that request.
   */
  lemma {:induction false} TimerGuardsFlight(steps: seq<Step>)
    requires Legal(steps)
    ensures var s := Run(steps); !s.dead && !s.stale ==> s.timer == InFlight(s.requests)
  {
    RunsAreSafe(steps);
  }

  /** Every accepted command is in exactly one queue or destroyed exactly once; freeing the object destroys the rest. */
  lemma {:induction false} CommandsAreConserved(steps: seq<Step>, u: nat)
    requires Legal(steps) && u < Run(steps).accepted
    ensures var s := Run(steps);
            var destroyed := exists i :: 0 <= i < |s.log| && s.log[i].Destroyed? && s.log[i].cmd.serial == u;
            && (destroyed <==> u !in Serials(s.requests) && u !in Serials(s.responses))
            && Serials(s.requests) !! Serials(s.responses)
            && (s.dead ==> destroyed)
    ensures forall i, j :: 0 <= i < j < |Run(steps).log| && Run(steps).log[i].Destroyed? ==>
                             SubjectOf(Run(steps).log[j]) != Some(Run(steps).log[i].cmd.serial)
  {
    RunsAreSafe(steps);
    var s := Run(steps);
    AcceptedIsLogged(s.log, u);
    var i :| 0 <= i < |s.log| && s.log[i].Accepted? && s.log[i].cmd.serial == u;
    AcceptedFate(s.log, i);
    assert Serials([]) == {};
    forall i | 0 <= i < |s.log| && s.log[i].Destroyed?
      ensures s.log[i].cmd.serial !in Audit(s.log).live
      ensures forall j :: i < j < |s.log| ==> SubjectOf(s.log[j]) != Some(s.log[i].cmd.serial)
    {
      DestroyedIsFinal(s.log, i);
    }
  }

  lemma {:induction false} AcceptedIsLogged(log: seq<Event>, u: nat)
    requires Audit(log).ok && u < Audit(log).next
    ensures exists i :: 0 <= i < |log| && log[i].Accepted? && log[i].cmd.serial == u
  {
    var before := log[..|log| - 1];
    if u < Audit(before).next {
      AcceptedIsLogged(before, u);
      var i :| 0 <= i < |before| && before[i].Accepted? && before[i].cmd.serial == u;
      assert log[i] == before[i];
    } else {
      assert log[|log| - 1].Accepted?;
    }
  }

  /**
   Although callbacks take and give back references: the write watch never
   outlives the object, and the object lives exactly as long as somebody refers to it.
   */
  lemma {:induction false} ReferencesAreExact(steps: seq<Step>)
    requires Legal(steps)
    ensures var s := Run(steps); s.refs == s.owners + (if s.watch then 1 else 0) && (s.dead <==> s.refs == 0)
  {
    RunsAreSafe(steps);
  }

  // ----- positions in the log of a run -----

  /** A result function runs at most once, never after its command was cancelled or destroyed. */
  lemma {:induction false} CallbacksRunAtMostOnce(steps: seq<Step>, i: nat, j: nat)
    requires Legal(steps) && i < j < |Run(steps).log|
    requires Run(steps).log[i].Called? || Run(steps).log[i].Cancelled? || Run(steps).log[i].Destroyed?
    requires Run(steps).log[j].Called?
    ensures Run(steps).log[i].cmd.serial != Run(steps).log[j].cmd.serial
  {
    RunsAreSafe(steps);
    var log := Run(steps).log;
    if log[i].Destroyed? { DestroyedIsFinal(log, i); } else { MutedIsFinal(log, i); }
  }

  /**
   A result function does run: a request or an indication submitted with one is
   destroyed only after it ran or was cancelled, unless the whole connection is
   freed.
   */
  lemma {:induction false} ResultsAreDelivered(steps: seq<Step>, i: nat, j: nat)
    requires Legal(steps) && !Run(steps).dead && i < j < |Run(steps).log|
    requires Run(steps).log[i].Accepted? && Run(steps).log[i].cmd.func && Asks(Run(steps).log[i].cmd.opcode)
    requires Run(steps).log[j].Destroyed? && Run(steps).log[j].cmd.serial == Run(steps).log[i].cmd.serial
    ensures SettledBetween(Run(steps).log, i, j)
  {
    RunsAreSafe(steps);
    RunsKeepContent(steps);
    AcceptedIsClassified(Run(steps).log, i);
    hide Read, Content, Core;
    SettledBeforeDestroyed(Run(steps).log, i, j);
  }

  /** The order of the wire: one transaction at a time, responses before requests, submission order within a queue. */
  lemma {:induction false} WireIsOrderly(steps: seq<Step>, i: nat, j: nat)
    requires Legal(steps) && i < j < |Run(steps).log| && Run(steps).log[j].Wrote?
    ensures var log := Run(steps).log; var c, d := log[i], log[j].cmd;
            && (c.Wrote? && c.cmd.expected != 0 && d.expected != 0 ==> RepliedBetween(log, i, j))
            && (c.Wrote? && c.cmd.tail && d.tail && c.cmd.response == d.response ==> c.cmd.serial < d.serial)
            && (c.Accepted? && c.cmd.response && !d.response ==>
                  exists k :: i < k < j && log[k].Destroyed? && log[k].cmd.serial == c.cmd.serial)
  {
    RunsAreSafe(steps);
    var log := Run(steps).log;
    var c, d := log[i], log[j].cmd;
    if c.Wrote? && c.cmd.expected != 0 && d.expected != 0 { OneTransactionAtATime(log, i, j); }
    if c.Wrote? && c.cmd.tail && d.tail && c.cmd.response == d.response { WrittenInOrder(log, i, j); }
    if c.Accepted? && c.cmd.response && !d.response { ResponsesFirst(log, i, j); }
  }

  /** A tail submission does not overtake: none is written before a request resent earlier is written or destroyed. */
  lemma {:induction false} ResentGoesNext(steps: seq<Step>, i: nat, j: nat)
    requires Legal(steps) && i < j < |Run(steps).log|
    requires Run(steps).log[i].Accepted? && !Run(steps).log[i].cmd.response && !Run(steps).log[i].cmd.tail
    requires Run(steps).log[j].Wrote? && !Run(steps).log[j].cmd.response && Run(steps).log[j].cmd.tail
    ensures GoneBetween(Run(steps).log, i, j)
  {
    RunsAreSafe(steps);
    ResentFirst(Run(steps).log, i, j);
  }

  /** A callback gets the reply that its own command consumed, and the status which that reply means. */
  lemma {:induction false} RepliesReachTheirOwner(steps: seq<Step>, j: nat)
    requires Legal(steps) && j < |Run(steps).log| && Run(steps).log[j].Called? && Run(steps).log[j].rx != []
    ensures var log := Run(steps).log;
            && (exists k ::
                  0 <= k < j && log[k].Replied? && log[k].rx == log[j].rx
                  && SerialOf(log[k].consumer) == Some(log[j].cmd.serial))
            && Honest(log[j].cmd, log[j].status, log[j].rx)
  {
    RunsAreSafe(steps);
    CommandsKeepTheirContents(steps, j);
    hide Honest;
    CalledWithOwnReply(Run(steps).log, j);
  }

  // ----- reply pairing over whole runs -----

  /** The k-th reply was consumed by the k-th transaction. */
  ghost predicate Paired(b: Book) {
    |b.answered| <= |b.asked| && forall k :: 0 <= k < |b.answered| ==> b.answered[k] == Some(b.asked[k])
  }

  predicate ConsumesReply(s: State, step: Step) {
    !s.stale && step.ReadableStep? && IsResponse(At(step.rx, 0)) && !RunScript(s, step.events, 0).dead
  }

  /** The peer, who sees only the wire, replied only when it owed a reply. */
  ghost predicate Solicited(steps: seq<Step>) {
    steps == [] ||
    var before, step := steps[..|steps| - 1], steps[|steps| - 1];
    && Solicited(before)
    && (ConsumesReply(Run(before), step) ==> |Audit(Run(before).log).asked| > |Audit(Run(before).log).answered|)
  }

  /** The books of a run whose replies were all solicited. */
  ghost predicate InStep(s: State) {
    var b := Audit(s.log);
    && Paired(b)
    && (!s.stale && !s.dead ==>
          && |b.asked| == |b.answered| + (if b.open.Some? then 1 else 0)
          && (b.open.Some? ==> b.asked[|b.asked| - 1] == b.open.value))
  }

  /** A reply went to nobody, or to a command other than the transaction it belongs to. */
  ghost predicate Broken(b: Book) {
    exists k :: 0 <= k < |b.answered| && Misplaced(b, k)
  }

  ghost predicate Misplaced(b: Book, k: nat)
    requires k < |b.answered|
  {
    if k < |b.asked| then b.answered[k] != Some(b.asked[k])
    else b.answered[k].None? || (b.answered[k].value < b.next && b.answered[k].value !in b.live)
  }

  /** How one step can change the two sides of the wire. */
  ghost predicate Effect(b: Book, d: Book) {
    && NothingRevived(b, d)
    && b.answered <= d.answered
    && (d.asked == b.asked || (b.asked <= d.asked && |d.asked| == |b.asked| + 1 && d.asked[|b.asked|] in b.live))
  }

  lemma {:induction false} BrokenStays(b: Book, d: Book)
    requires Broken(b) && Effect(b, d)
    ensures Broken(d)
  {
    var k :| 0 <= k < |b.answered| && Misplaced(b, k);
    assert Misplaced(d, k);
  }

  /** Writing: either nothing new is asked, or one transaction is opened while none was. */
  ghost predicate WriteEffect(b: Book, d: Book) {
    && Effect(b, d) && d.answered == b.answered
    && ((d.asked == b.asked && d.open == b.open)
        || (|d.asked| == |b.asked| + 1 && b.open.None? && d.open == Some(d.asked[|b.asked|])))
  }

  lemma {:induction false} WriteEffectThen(b: Book, c: Book, d: Book)
    ensures SameWire(b, d) ==> WriteEffect(b, d)
    ensures WriteEffect(b, c) && SameWire(c, d) ==> WriteEffect(b, d)
  {
  }

  lemma {:induction false} WritableWire(s: State, outcome: Outcome)
    requires Inv(s) && !s.dead && s.watch
    ensures WriteEffect(Audit(s.log), Audit(Writable(s, outcome).log))
  {
    var b := Audit(s.log);
    assert !s.stale ==> Core(s, {}) && Flight(s);
    hide Inv, Core, Flight, Release, WriteResponse, WriteCommand, WriteTransaction, Audit, WriteEffect, SameWire;
    if !s.stale && outcome.Done? && s.responses != [] {
      AnswerWire(s);
    } else if !s.stale && outcome.Done? && s.requests != [] && !s.requests[0].sent {
      if s.requests[0].expected == 0 { CommandWire(s); } else { TransactionWire(s); }
    } else {
      SleepWire(s);
      SleepWire(s.(faulted := true));
    }
  }

  lemma {:induction false} SleepWire(s: State)
    ensures WriteEffect(Audit(s.log), Audit(Sleep(s).log))
  {
    hide Release, Audit, WriteEffect, SameWire;
    ReleaseWire(s.(watch := false));
    WriteEffectThen(Audit(s.log), Audit(s.log), Audit(Sleep(s).log));
  }

  lemma {:induction false} AnswerWire(s: State)
    requires s.responses != [] && Core(s, {})
    ensures WriteEffect(Audit(s.log), Audit(WriteResponse(s).log))
  {
    var c := s.responses[0];
    AnswerOpensNothing(Audit(s.log), s.requests, s.responses);
    hide Core, WriteEffect, Audit, Post;
    AuditAppend(s.log, Wrote(c));
    AuditAppend(s.log + [Wrote(c)], Destroyed(c));
    SilentWrite(Audit(s.log), c);
  }

  lemma {:induction false} CommandWire(s: State)
    requires s.requests != [] && s.requests[0].expected == 0
    ensures WriteEffect(Audit(s.log), Audit(WriteCommand(s).log))
  {
    var c := s.requests[0];
    hide WriteEffect, Audit, Post;
    AuditAppend(s.log, Wrote(c));
    AuditAppend(s.log + [Wrote(c)], Destroyed(c));
    SilentWrite(Audit(s.log), c);
  }

  /** Writing what expects no reply opens nothing. */
  lemma {:induction false} SilentWrite(b: Book, c: Command)
    requires c.expected == 0
    ensures WriteEffect(b, Post(Post(b, Wrote(c)), Destroyed(c)))
  {
  }

  lemma {:induction false} TransactionWire(s: State)
    requires s.requests != [] && !s.requests[0].sent && s.requests[0].expected != 0 && Core(s, {}) && Flight(s)
    ensures WriteEffect(Audit(s.log), Audit(Sleep(WriteTransaction(s)).log))
  {
    var c, t := s.requests[0], WriteTransaction(s);
    HeadIsKnown(s);
    assert Audit(s.log).open.None?;
    hide Core, Flight, WriteEffect, Audit, Post, SameWire, Release, InFlight;
    AuditAppend(s.log, Wrote(c));
    OpeningWrite(Audit(s.log), c);
    ReleaseWire(t.(watch := false));
    WriteEffectThen(Audit(s.log), Audit(t.log), Audit(Sleep(t).log));
  }

  lemma {:induction false} OpeningWrite(b: Book, c: Command)
    requires c.serial in b.live && c.expected != 0 && b.open.None?
    ensures WriteEffect(b, Post(b, Wrote(c)))
  {
  }

  /**
   The reply goes to the open transaction if there is one, otherwise to nobody
   or to a command that was never sent.
   */
  ghost predicate ReplyEffect(b: Book, d: Book) {
    && Effect(b, d) && d.asked == b.asked && d.open.None? && |d.answered| == |b.answered| + 1 && d.crowded == b.crowded
    && var who := d.answered[|b.answered|];
       (b.open.Some? ==> who == b.open) && (who.Some? ==> who.value < d.next && who.value !in d.live)
  }

  lemma {:induction false} ReplyWire(s: State, rx: seq<byte>, script: Script)
    requires Core(s, {}) && !s.dead && Flight(s) && rx != [] && ProperReply(s, rx, script)
    ensures ReplyEffect(Audit(s.log), Audit(AfterReply(s, rx, script).log))
  {
    hide Core, Flight, ReplyEffect, Audit, Deliver, PopReplied, ProperReply;
    if s.requests == [] {
      UnclaimedWire(s, rx);
    } else {
      ClaimedWire(s, rx, script);
    }
  }

  lemma {:induction false} UnclaimedWire(s: State, rx: seq<byte>)
    requires Flight(s) && s.requests == []
    ensures ReplyEffect(Audit(s.log), Audit(Note(s.(timer := None), Replied(rx, None)).log))
  {
    assert Audit(s.log).open.None?;
    hide Flight;
    AuditAppend(s.log, Replied(rx, None));
  }

  lemma {:induction false} ClaimedWire(s: State, rx: seq<byte>, script: Script)
    requires Core(s, {}) && !s.dead && Flight(s) && rx != [] && s.requests != [] && ProperReply(s, rx, script)
    ensures var c := s.requests[0];
            ReplyEffect(Audit(s.log), Audit(Deliver(PopReplied(s, rx), c, StatusOf(c.expected, rx), rx, script).log))
  {
    PopRepliedKeeps(s, rx);
    HeadIsKnown(s);
    hide Core, Flight, Due, Deliver, StatusOf, ReplyEffect, SameWire, Post, ProperCall;
    var b, c, t := Audit(s.log), s.requests[0], PopReplied(s, rx);
    AuditAppend(s.log, Replied(rx, Some(c)));
    DeliverFrees(t, c, StatusOf(c.expected, rx), rx, script);
    PoppedWire(b, c, rx, Audit(Deliver(t, c, StatusOf(c.expected, rx), rx, script).log));
  }

  lemma {:induction false} HeadIsKnown(s: State)
    requires Core(s, {}) && Flight(s) && s.requests != []
    ensures var b, c := Audit(s.log), s.requests[0];
            c.serial in b.live && c.serial < b.next && (b.open.Some? ==> b.open == Some(c.serial))
  {
    assert s.requests[0].serial in Serials(s.requests);
  }

  lemma {:induction false} PoppedWire(b: Book, c: Command, rx: seq<byte>, d: Book)
    requires SameWire(Post(b, Replied(rx, Some(c))), d) && c.serial !in d.live
    requires c.serial in b.live && c.serial < b.next && (b.open.Some? ==> b.open == Some(c.serial))
    ensures ReplyEffect(b, d)
  {
  }

  lemma {:induction false} DeliverFrees(s: State, c: Command, status: byte, rx: seq<byte>, script: Script)
    requires Core(s, {c.serial}) && !s.dead && InFlight(s.requests).None?
    requires Due(Audit(s.log), c, status, rx) && ProperCall(s, c, status, rx, script)
    ensures var b, d := Audit(s.log), Audit(Deliver(s, c, status, rx, script).log);
            SameWire(b, d) && c.serial !in d.live
  {
    hide Core, Due, ProperCall, RunScript, SameWire, Audit, Counted, Gone, Undisturbed;
    DeliverKeeps(s, c, status, rx, script);
    var t := if c.func then RunScript(Note(s, Called(c, status, rx, script)), script, c.id) else s;
    AuditAppend(t.log, Destroyed(c));
  }

  lemma {:induction false} StepWire(s: State, step: Step)
    requires Inv(s) && Enabled(s, step)
    ensures Effect(Audit(s.log), Audit(Apply(s, step).log))
    ensures !ConsumesReply(s, step) && !step.WritableStep? ==> SameWire(Audit(s.log), Audit(Apply(s, step).log))
  {
    hide Inv, Audit, SameWire, Effect, WriteEffect, ReplyEffect, Writable, Readable, Act, Fire, RunScript,
        ProperReading, ProperFlush;
    var b, d := Audit(s.log), Audit(Apply(s, step).log);
    EffectOf(b, d);
    match step
    case UserCall(a) => UserCallWire(s, a);
    case WritableStep(outcome) => WritableWire(s, outcome);
    case ReadableStep(rx, events, script) => ReadableWire(s, rx, events, script);
    case ReadFailureStep => SameWireItself(b);
    case TimeoutStep(scripts) => FireWire(s, scripts);
  }

  lemma {:induction false} EffectOf(b: Book, d: Book)
    ensures SameWire(b, d) || WriteEffect(b, d) || ReplyEffect(b, d) ==> Effect(b, d)
  {
  }

  lemma {:induction false} UserCallWire(s: State, a: Action)
    requires Inv(s) && CanAct(s, a)
    ensures SameWire(Audit(s.log), Audit(Act(s, a, 0).log))
  {
    hide Core, SameWire, Act, Audit;
    ActKeeps(s, a, 0, {});
  }

  lemma {:induction false} FireWire(s: State, scripts: seq<Script>)
    requires Inv(s) && !s.dead && ProperFlush(Pin(s), ATT_ECODE_TIMEOUT, scripts)
    ensures SameWire(Audit(s.log), Audit(Fire(s, scripts).log))
  {
    PinKeeps(s);
    hide Inv, Core, SameWire, Flush, Audit, Release, ProperFlush, Counted;
    FlushKeeps(Pin(s), ATT_ECODE_TIMEOUT, scripts);
    var t := Flush(Pin(s), ATT_ECODE_TIMEOUT, scripts).(stale := true);
    var d := t.(mem := t.mem.(pins := t.mem.pins - 1));
    ReleaseWire(d);
    SameWireThen(Audit(s.log), Audit(d.log), Audit(Release(d).log));
  }

  lemma {:induction false} ReplyAfter(b: Book, c: Book, d: Book)
    requires SameWire(b, c) && ReplyEffect(c, d)
    ensures ReplyEffect(b, d)
  {
  }

  lemma {:induction false} ReadableWire(s: State, rx: seq<byte>, events: Script, script: Script)
    requires Inv(s) && !s.dead && (!s.stale ==> ProperReading(s, rx, events, script))
    ensures var b, d := Audit(s.log), Audit(Readable(s, rx, events, script).log);
            if s.stale || !IsResponse(At(rx, 0)) || RunScript(s, events, 0).dead then SameWire(b, d)
                else ReplyEffect(b, d)
  {
    if s.stale {
      SameWireItself(Audit(s.log));
    } else {
      var t := RunScript(s, events, 0);
      RunScriptKeeps(s, events, 0, {});
      EventsLeave(s, t);
      assert IsResponse(At(rx, 0)) ==> rx != [];
      hide Inv, Core, Flight, RunScript, AfterReply, SameWire, ReplyEffect, Wakeful, Counted, IsResponse, InFlight,
          Proper, ProperReply, Clean, Kept;
      if !t.dead && IsResponse(At(rx, 0)) {
        ReplyWire(t, rx, script);
        ReplyAfter(Audit(s.log), Audit(t.log), Audit(AfterReply(t, rx, script).log));
      }
    }
  }

  /**
   The k-th reply is consumed by the k-th transmitted transaction, for all k, if
   and only if every reply was solicited.
   */
  lemma {:induction false} RepliesArePaired(steps: seq<Step>)
    requires Legal(steps)
    ensures Paired(Audit(Run(steps).log)) <==> Solicited(steps)
  {
    PairingOfRun(steps);
    if !Solicited(steps) {
      var b := Audit(Run(steps).log);
      var k :| 0 <= k < |b.answered| && Misplaced(b, k);
    }
  }

  lemma {:induction false} PairingOfRun(steps: seq<Step>)
    requires Legal(steps)
    ensures if Solicited(steps) then InStep(Run(steps)) else Broken(Audit(Run(steps).log))
  {
    if steps != [] {
      var before, step := steps[..|steps| - 1], steps[|steps| - 1];
      var s := Run(before);
      RunsAreSafe(before);
      PairingOfRun(before);
      hide Legal, Run;
      PairingOfStep(s, step);
    }
  }

  lemma {:induction false} PairingOfStep(s: State, step: Step)
    requires Inv(s) && Enabled(s, step)
    ensures Broken(Audit(s.log)) ==> Broken(Audit(Apply(s, step).log))
    ensures InStep(s) ==>
              var owed := |Audit(s.log).asked| > |Audit(s.log).answered|;
              if ConsumesReply(s, step) && !owed then Broken(Audit(Apply(s, step).log)) else InStep(Apply(s, step))
  {
    var b, d := Audit(s.log), Audit(Apply(s, step).log);
    StepWire(s, step);
    if Broken(b) { BrokenStays(b, d); }
    if InStep(s) { StepInStep(s, step); }
  }

  lemma {:induction false} StepInStep(s: State, step: Step)
    requires Inv(s) && Enabled(s, step) && InStep(s)
    ensures var owed := |Audit(s.log).asked| > |Audit(s.log).answered|;
            if ConsumesReply(s, step) && !owed then Broken(Audit(Apply(s, step).log)) else InStep(Apply(s, step))
  {
    StepWire(s, step);
    StaleIsFinal(s, step);
    hide Inv, InStep, Writable, Readable, Act, Fire, Release, Broken, Effect, SameWire, ReplyEffect, WriteEffect;
    if step.WritableStep? {
      WritableWire(s, step.outcome);
      WrittenInStep(s, Apply(s, step));
    } else if ConsumesReply(s, step) {
      ReadableWire(s, step.rx, step.events, step.script);
      RepliedInStep(s, Apply(s, step));
    } else {
      SameInStep(s, Apply(s, step));
    }
  }

  lemma {:induction false} SameInStep(s: State, t: State)
    requires InStep(s) && SameWire(Audit(s.log), Audit(t.log)) && !s.dead && (s.stale ==> t.stale)
    ensures InStep(t)
  {
  }

  lemma {:induction false} WrittenInStep(s: State, t: State)
    requires InStep(s) && !s.dead && (s.stale ==> t.stale)
    requires WriteEffect(Audit(s.log), Audit(t.log))
    ensures InStep(t)
  {
  }

  lemma {:induction false} RepliedInStep(s: State, t: State)
    requires InStep(s) && !s.stale && !s.dead && ReplyEffect(Audit(s.log), Audit(t.log))
    ensures if |Audit(s.log).asked| > |Audit(s.log).answered| then InStep(t) else Broken(Audit(t.log))
  {
    var b, d := Audit(s.log), Audit(t.log);
    if |b.asked| <= |b.answered| { assert Misplaced(d, |b.answered|); }
  }

  lemma {:induction false} StaleIsFinal(s: State, step: Step)
    requires Inv(s) && Enabled(s, step)
    ensures s.stale ==> Apply(s, step).stale
  {
    hide Core, Act, DestroyAll, ProperReading, Flush, SameWire;
    if step.UserCall? { ActKeeps(s, step.action, 0, {}); }
  }

  function Unasked(op: byte, pdu: seq<byte>, rx: seq<byte>): seq<Step> {
    [UserCall(Send(op, pdu, true, false, Plain)), ReadableStep(rx, [], [])]
  }

  /**
   A reply nobody asked for, whatever it is, is taken by a request that was
   never written, whatever that is: its callback runs, it is destroyed, and
   the pairing of replies is off.
   */
  lemma {:induction false} UnsolicitedReplyMisleads(op: byte, pdu: seq<byte>, rx: seq<byte>)
    requires !IsResponse(op) && IsResponse(At(rx, 0))
    ensures var steps, c := Unasked(op, pdu, rx), NewCommand(INITIAL, 0, Send(op, pdu, true, false, Plain));
            && Legal(steps) && !Solicited(steps) && !Paired(Audit(Run(steps).log))
            && Run(steps).log == [Accepted(c), Replied(rx, Some(c)), Called(c, StatusOf(c.expected, rx), rx, []),
               Destroyed(c)]
  {
    var steps := Unasked(op, pdu, rx);
    var c := NewCommand(INITIAL, 0, steps[0].action);
    assert steps[..1] == [steps[0]] && [steps[0]][..0] == [];
    assert Run([]) == INITIAL && Legal([]);
    var s := Run([steps[0]]);
    assert s == Apply(INITIAL, steps[0]) && Legal([steps[0]]);
    hide NewCommand, StatusOf, IsResponse;
    assert s == State([c], [], None, true, false, c.id, 1, 2, 1, false, false, INITIAL.mem, [Accepted(c)]);
    assert Legal(steps) && Run(steps) == Readable(s, rx, [], []);
    TakenUnsent(s, c, rx);
    assert !Solicited(steps) by {
      AuditAppend([], Accepted(c));
      assert [] + [Accepted(c)] == [Accepted(c)];
    }
    RepliesArePaired(steps);
  }

  lemma {:induction false} TakenUnsent(s: State, c: Command, rx: seq<byte>)
    requires s.requests == [c] && s.responses == [] && !s.stale && !s.dead && c.func && IsResponse(At(rx, 0))
    requires s.log == [Accepted(c)]
    ensures Readable(s, rx, [], []).log == [Accepted(c), Replied(rx, Some(c)),
            Called(c, StatusOf(c.expected, rx), rx, []), Destroyed(c)]
  {
    hide StatusOf;
    assert [c][1..] == [];
  }

  // ----- timeouts -----

  /** Calls made by callbacks add no callback, no reply and no write to the log. */
  ghost predicate Appends(s: State, t: State) {
    && s.log <= t.log
    && forall j :: |s.log| <= j < |t.log| ==> !t.log[j].Called? && !t.log[j].Wrote? && !t.log[j].Replied?
  }

  lemma {:induction false} AppendsThen(s: State, t: State, u: State)
    requires Appends(s, t) && Appends(t, u)
    ensures Appends(s, u)
  {
    forall j | |s.log| <= j < |t.log| ensures u.log[j] == t.log[j] {}
  }

  lemma {:induction false} CancelRequestAppends(s: State, i: nat)
    requires i < |s.requests|
    ensures Appends(s, CancelRequest(s, i))
  {
  }

  lemma {:induction false} CancelRequestsFromAppends(s: State, keep: nat)
    ensures Appends(s, CancelRequestsFrom(s, keep))
    decreases |s.requests|
  {
    if keep < |s.requests| && !(keep == 0 && s.requests[0].sent) {
      var t := CancelRequest(s, keep);
      CancelRequestAppends(s, keep);
      assert |t.requests| < |s.requests|;
      hide Appends, CancelRequest;
      CancelRequestsFromAppends(t, keep);
      AppendsThen(s, t, CancelRequestsFrom(s, keep));
    }
  }

  lemma {:induction false} CancelRequestsFromLeaves(s: State, keep: nat)
    requires keep <= |s.requests| && (keep == 0 ==> InFlight(s.requests).None?)
    requires forall i :: 0 < i < |s.requests| ==> !s.requests[i].sent
    ensures CancelRequestsFrom(s, keep).requests == s.requests[..keep]
    decreases |s.requests|
  {
    if keep < |s.requests| {
      CancelRequestsFromLeaves(CancelRequest(s, keep), keep);
    }
  }

  lemma {:induction false} CancelAllResponsesAppends(s: State)
    ensures Appends(s, CancelAllResponses(s)) && CancelAllResponses(s).responses == []
    decreases |s.responses|
  {
    if s.responses != [] { CancelAllResponsesAppends(CancelResponse(s, 0)); }
  }

  lemma {:induction false} CancelAllAppends(s: State)
    ensures Appends(s, CancelAllResponses(CancelAllRequests(s)))
  {
    var flying := InFlight(s.requests).Some?;
    var t := s;
    if flying { CancelRequestAppends(s, 0); t := CancelRequest(s, 0); }
    var u := CancelAllRequests(s);
    CancelRequestsFromAppends(t, if flying then 1 else 0);
    CancelAllResponsesAppends(u);
    assert Appends(s, t);
    hide Appends;
    AppendsThen(s, t, u);
    AppendsThen(s, u, CancelAllResponses(u));
  }

  lemma {:induction false} EnqueueAppends(s: State, id: nat, a: Action)
    requires a.Send? || a.Resend?
    ensures Appends(s, Enqueue(s, id, a))
  {
    hide NewCommand, Push;
  }

  lemma {:induction false} CancelResponseAppends(s: State, i: nat)
    requires i < |s.responses|
    ensures Appends(s, CancelResponse(s, i))
  {
    hide RemoveAt;
  }

  lemma {:induction false} AppendsNothing(s: State)
    ensures Appends(s, s)
  {
  }

  lemma {:induction false} CancelByIdAppends(s: State, id: nat)
    ensures Appends(s, CancelById(s, id))
  {
    hide CancelRequest, CancelResponse, Appends;
    var i, j := IndexOfId(s.requests, id), IndexOfId(s.responses, id);
    if i >= 0 { CancelRequestAppends(s, i); }
    else if j >= 0 { CancelResponseAppends(s, j); }
    else { AppendsNothing(s); }
  }

  lemma {:induction false} ActAppends(s: State, a: Action, own: nat)
    ensures Appends(s, Act(s, a, own))
  {
    hide Appends, Enqueue, CancelById, CancelAllRequests, CancelAllResponses, Release;
    match a
    case Send(_, _, _, _, _) => EnqueueAppends(s, 0, a);
    case Resend(_, _, _, _, _) => EnqueueAppends(s, own, a);
    case Cancel(id) => CancelByIdAppends(s, id);
    case CancelAll => CancelAllAppends(s);
    case Hold => HoldAppends(s);
    case Drop => ReleaseAppends(s.(owners := s.owners - 1));
  }

  lemma {:induction false} HoldAppends(s: State)
    ensures Appends(s, s.(refs := s.refs + 1, owners := s.owners + 1))
  {
  }

  lemma {:induction false} ReleaseAppends(s: State)
    ensures forall t: State :: t.log == s.log ==> Appends(t, Release(s))
  {
    DestroyAllAppends(s.(refs := s.refs - 1));
    hide DestroyAll;
  }

  lemma {:induction false} RunScriptAppends(s: State, script: Script, own: nat)
    ensures Appends(s, RunScript(s, script, own))
    decreases script
  {
    if script != [] {
      var t := Act(s, script[0], own);
      ActAppends(s, script[0], own);
      hide Act, Appends;
      RunScriptAppends(t, script[1..], own);
      AppendsThen(s, t, RunScript(s, script, own));
    }
  }

  lemma {:induction false} DestroyAllAppends(s: State)
    ensures Appends(s, DestroyAll(s))
    decreases |s.requests| + |s.responses|
  {
    if s.requests != [] {
      DestroyAllAppends(Note(s.(requests := s.requests[1..]), Destroyed(s.requests[0])));
    } else if s.responses != [] {
      DestroyAllAppends(Note(s.(responses := s.responses[1..]), Destroyed(s.responses[0])));
    }
  }

  /** g_attrib_cancel_all leaves nothing but an in-flight head whose callback is cleared. */
  lemma {:induction false} CancelAllLeaves(s: State)
    requires Inv(s) && !s.dead
    ensures var t := Act(s, CancelAll, 0);
            t.responses == [] && t.requests == if InFlight(s.requests).Some? then [s.requests[0].(func := false)]
                else []
  {
    var flying := InFlight(s.requests).Some?;
    var t := if flying then CancelRequest(s, 0) else s;
    assert forall i :: 0 < i < |t.requests| ==> !t.requests[i].sent;
    CancelRequestsFromLeaves(t, if flying then 1 else 0);
    CancelAllResponsesAppends(CancelAllRequests(s));
  }

  /** The callbacks run from position n of a log on: the first is told `status`, the others ABORTED. */
  ghost predicate Told(log: seq<Event>, n: nat, status: byte) {
    forall j :: n <= j < |log| && log[j].Called? ==> log[j].status == (if j == n then status else 0x82)
  }

  /** In a timeout the head is told TIMEOUT and every later callback ABORTED, whatever the callbacks do. */
  lemma {:induction false} TimeoutStatuses(s: State, status: byte, scripts: seq<Script>)
    ensures var t := Flush(s, status, scripts); s.log <= t.log && Told(t.log, |s.log|, status)
    decreases |scripts|, |s.requests|
  {
    hide Deliver, Flush, Told;
    FlushUnfolds(s, status, scripts);
    if s.requests == [] {
      NobodyTold(s.log, status);
    } else {
      var c := s.requests[0];
      var script := if c.func && scripts != [] then scripts[0] else [];
      var rest := if c.func && scripts != [] then scripts[1..] else scripts;
      var p := s.(requests := s.requests[1..]);
      var t := Deliver(p, c, status, [], script);
      SilentDelivery(p, c, status);
      DeliverTells(p, c, status, script);
      TimeoutStatuses(t, ATT_ECODE_ABORTED, rest);
      ToldThen(s.log, t.log, Flush(s, status, scripts).log, status);
    }
  }

  lemma {:induction false} NobodyTold(log: seq<Event>, status: byte)
    ensures Told(log, |log|, status)
  {
  }

  lemma {:induction false} ToldThen(a: seq<Event>, b: seq<Event>, c: seq<Event>, status: byte)
    requires a < b <= c && Told(c, |b|, ATT_ECODE_ABORTED)
    requires forall j :: |a| <= j < |b| && b[j].Called? ==> j == |a| && b[j].status == status
    ensures a <= c && Told(c, |a|, status)
  {
    forall j | |a| <= j < |b| ensures c[j] == b[j] {}
  }

  lemma {:induction false} DeliverTells(s: State, c: Command, status: byte, script: Script)
    ensures var t := Deliver(s, c, status, [], script);
            s.log < t.log && forall j :: |s.log| <= j < |t.log| && t.log[j].Called? ==>
                 j == |s.log| && t.log[j].status == status
  {
    RunScriptAppends(Note(s, Called(c, status, [], script)), script, c.id);
    hide RunScript;
  }

  /** What one command leaves in the log when its callback makes no calls of its own. */
  function Parting(c: Command, status: byte): seq<Event> {
    if c.func then [Called(c, status, [], []), Destroyed(c)] else [Destroyed(c)]
  }

  function Farewell(q: seq<Command>, status: byte): seq<Event> {
    if q == [] then [] else Parting(q[0], status) + Farewell(q[1..], 0x82)
  }

  lemma {:induction false} FlushIsFarewell(s: State, status: byte)
    ensures Flush(s, status, []) == s.(requests := [], log := s.log + Farewell(s.requests, status))
    decreases |s.requests|
  {
    if s.requests != [] {
      var c := s.requests[0];
      var p := s.(requests := s.requests[1..]);
      DeliverIsParting(p, c, status);
      hide Deliver, Parting;
      var t := Deliver(p, c, status, [], []);
      FlushIsFarewell(t, ATT_ECODE_ABORTED);
      assert s.log + Parting(c, status) + Farewell(p.requests, ATT_ECODE_ABORTED)
          == s.log + (Parting(c, status) + Farewell(p.requests, ATT_ECODE_ABORTED));
    }
  }

  lemma {:induction false} DeliverIsParting(p: State, c: Command, status: byte)
    ensures Deliver(p, c, status, [], []) == p.(log := p.log + Parting(c, status))
  {
  }

  /** The same for the whole of disconnect_timeout. */
  lemma {:induction false} TimeoutTells(s: State, scripts: seq<Script>)
    ensures var t := Fire(s, scripts); s.log <= t.log && Told(t.log, |s.log|, 0x81)
  {
    hide Flush, Release;
    TimeoutStatuses(Pin(s), ATT_ECODE_TIMEOUT, scripts);
    var t := Flush(Pin(s), ATT_ECODE_TIMEOUT, scripts).(stale := true);
    ReleaseAppends(t.(mem := t.mem.(pins := t.mem.pins - 1)));
    var u := Fire(s, scripts);
    assert Appends(t, u);
    forall j | |s.log| <= j < |t.log| ensures u.log[j] == t.log[j] {}
  }

  /** A timeout empties the requests, tells the head TIMEOUT and the others ABORTED, and ends the connection's use. */
  lemma {:induction false} TimeoutEndsEverything(s: State)
    requires !s.dead && s.refs > 0
    ensures Fire(s, []) == s.(requests := [], stale := true, mem := s.mem.(fired := true),
                              log := s.log + Farewell(s.requests, 0x81))
  {
    hide Flush, Farewell;
    FlushIsFarewell(Pin(s), ATT_ECODE_TIMEOUT);
  }

  /** After a timeout nothing is written and no callback runs, whatever happens next. */
  lemma {:induction false} StaleIsSilent(s: State, step: Step)
    requires Inv(s) && Enabled(s, step) && s.stale
    ensures Apply(s, step).stale && Appends(s, Apply(s, step))
  {
    StaleIsFinal(s, step);
    hide Inv, Act, DestroyAll;
    match step
    case UserCall(a) => ActAppends(s, a, 0);
    case WritableStep(_) => DestroyAllAppends(s.(watch := false, refs := s.refs - 1));
    case ReadableStep(_, _, _) =>
    case ReadFailureStep =>
    case TimeoutStep(_) =>
  }

  lemma {:induction false} WireIsFrozen(steps: seq<Step>, n: nat)
    requires Legal(steps) && n <= |steps| && Run(steps[..n]).stale
    ensures Run(steps).stale && Appends(Run(steps[..n]), Run(steps))
  {
    if n == |steps| {
      assert steps[..n] == steps;
    } else {
      var before := steps[..|steps| - 1];
      assert before[..n] == steps[..n];
      WireIsFrozen(before, n);
      RunsAreSafe(before);
      StaleIsSilent(Run(before), steps[|steps| - 1]);
    }
  }
}
