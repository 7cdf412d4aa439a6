/**
 The order of a long read's requests on the wire.  The scheduler puts every
 request that reuses an id at the head of its queue, so two of them could
 overtake each other; with gatt.c as the only code that does so, there is never
 more than one, and it is the next request written.
 */
module Continuation {
  import opened Octets
  import opened Scheduler
  import opened Ledger
  import opened SchedulerSafety
  import opened SchedulerTheorems
  import opened LongRead
  import opened LongReadChain

  // ----- at most one resent request waits, at the head -----

  predicate Line(q: seq<Command>) {
    forall i :: 0 < i < |q| ==> q[i].tail
  }

  predicate AllTail(q: seq<Command>) {
    forall i :: 0 <= i < |q| ==> q[i].tail
  }

  lemma {:induction false} LineCancelled(s: State, i: nat)
    requires Line(s.requests) && i < |s.requests|
    ensures Line(CancelRequest(s, i).requests)
    ensures AllTail(s.requests) ==> AllTail(CancelRequest(s, i).requests)
  {
    RemovalAt(s.requests, i);
    hide RemoveAt;
  }

  lemma {:induction false} LineCancelledFrom(s: State, keep: nat)
    requires Line(s.requests)
    ensures Line(CancelRequestsFrom(s, keep).requests)
    ensures AllTail(s.requests) ==> AllTail(CancelRequestsFrom(s, keep).requests)
    decreases |s.requests|
  {
    if keep < |s.requests| && !(keep == 0 && s.requests[0].sent) {
      LineCancelled(s, keep);
      assert |CancelRequest(s, keep).requests| < |s.requests|;
      hide Line, AllTail, CancelRequest;
      LineCancelledFrom(CancelRequest(s, keep), keep);
    }
  }

  lemma {:induction false} LineCancelledAll(s: State)
    requires Line(s.requests)
    ensures Line(CancelAllRequests(s).requests)
    ensures AllTail(s.requests) ==> AllTail(CancelAllRequests(s).requests)
  {
    hide Line, AllTail, CancelRequest, CancelRequestsFrom;
    if InFlight(s.requests).Some? {
      LineCancelled(s, 0);
      LineCancelledFrom(CancelRequest(s, 0), 1);
    } else {
      LineCancelledFrom(s, 0);
    }
  }

  lemma {:induction false} LineSent(s: State, a: Action)
    requires Line(s.requests) && a.Send?
    ensures Line(Enqueue(s, 0, a).requests)
    ensures AllTail(s.requests) ==> AllTail(Enqueue(s, 0, a).requests)
  {
    hide NewCommand, Push;
  }

  /** No call but a resend puts anything in front. */
  lemma {:induction false} LineAct(s: State, a: Action, own: nat)
    requires Line(s.requests) && !a.Resend?
    ensures Line(Act(s, a, own).requests)
    ensures AllTail(s.requests) ==> AllTail(Act(s, a, own).requests)
  {
    match a
    case Send(_, _, _, _, _) => LineSent(s, a);
    case Cancel(id) =>
      if IndexOfId(s.requests, id) >= 0 { LineCancelled(s, IndexOfId(s.requests, id)); }
      hide CancelRequest;
    case CancelAll => LineCancelledAll(s);
    case Hold =>
    case Drop => hide DestroyAll;
  }

  lemma {:induction false} LineScript(s: State, script: Script, own: nat, w: World)
    requires Line(s.requests) && OrdinaryScript(script, w)
    ensures Line(RunScript(s, script, own).requests)
    ensures AllTail(s.requests) ==> AllTail(RunScript(s, script, own).requests)
    decreases script
  {
    if script != [] {
      assert Ordinary(script[0], w);
      assert !script[0].Resend?;
      LineAct(s, script[0], own);
      OrdinaryRest(script, w);
      hide Act, Line, AllTail, OrdinaryScript;
      LineScript(Act(s, script[0], own), script[1..], own, w);
    }
  }

  lemma {:induction false} OrdinaryRest(script: Script, w: World)
    requires OrdinaryScript(script, w) && script != []
    ensures OrdinaryScript(script[1..], w)
  {
  }

  /** The popped head leaves tail submissions only, and gatt.c puts at most one request in front of them. */
  lemma {:induction false} LineDelivered(s: State, c: Command, status: byte, rx: seq<byte>, script: Script, w: World)
    requires AllTail(s.requests) && Obeys(script, c, s.log, status, rx, w)
    ensures Line(Deliver(s, c, status, rx, script).requests)
  {
    if c.func {
      var p := Note(s, Called(c, status, rx, script));
      AllTailIsLine(s.requests);
      var asks := !c.role.Plain? && React(c, RecOf(s.log, c.id, w.mtu).bytes, status, rx, w.mtu).Ask?;
      if asks {
        var a := AskMore(c, React(c, RecOf(s.log, c.id, w.mtu).bytes, status, rx, w.mtu).bytes, w.mtu);
        hide React, RecOf, AskMore, Line, RunScript, Enqueue;
        AskIsResend(c, React(c, RecOf(s.log, c.id, w.mtu).bytes, status, rx, w.mtu).bytes, w.mtu);
        OneCall(p, a, c.id);
        LineResent(p, c.id, a);
      } else {
        hide React, RecOf, Line, AllTail, RunScript, OrdinaryScript;
        LineScript(p, script, c.id, w);
      }
    } else {
      AllTailIsLine(s.requests);
    }
  }

  lemma {:induction false} AskIsResend(c: Command, bytes: seq<byte>, mtu: nat)
    ensures AskMore(c, bytes, mtu).Resend?
  {
  }

  lemma {:induction false} AllTailIsLine(q: seq<Command>)
    requires AllTail(q)
    ensures Line(q)
  {
  }

  lemma {:induction false} LineResent(s: State, id: nat, a: Action)
    requires AllTail(s.requests) && a.Resend?
    ensures Line(Enqueue(s, id, a).requests)
  {
    hide NewCommand, Push;
  }

  lemma {:induction false} LineReplied(s: State, rx: seq<byte>, script: Script, w: World)
    requires Line(s.requests)
    requires s.requests != [] ==>
               var c := s.requests[0]; Obeys(script, c, PopReplied(s, rx).log, StatusOf(c.expected, rx), rx, w)
    ensures Line(AfterReply(s, rx, script).requests)
  {
    if s.requests != [] {
      var c, t := s.requests[0], PopReplied(s, rx);
      assert AllTail(t.requests);
      hide Line, AllTail, Obeys, Deliver, StatusOf, PopReplied;
      LineDelivered(t, c, StatusOf(c.expected, rx), rx, script, w);
    }
  }

  lemma {:induction false} LineStep(s: State, step: Step, w: World)
    requires 23 <= w.mtu && Line(s.requests) && Disciplined(s, step, w)
    ensures Line(Apply(s, step).requests)
  {
    match step
    case UserCall(a) => LineAct(s, a, 0);
    case WritableStep(_) => LineWritten(s, step);
    case ReadableStep(rx, events, script) => LineRead(s, rx, events, script, w);
    case ReadFailureStep =>
    case TimeoutStep(scripts) => NothingAfterTimeout(s, scripts);
  }

  lemma {:induction false} LineWritten(s: State, step: Step)
    requires Line(s.requests) && step.WritableStep?
    ensures Line(Apply(s, step).requests)
  {
    hide DestroyAll;
  }

  lemma {:induction false} LineRead(s: State, rx: seq<byte>, events: Script, script: Script, w: World)
    requires 23 <= w.mtu && Line(s.requests) && Disciplined(s, ReadableStep(rx, events, script), w)
    ensures Line(Readable(s, rx, events, script).requests)
  {
    if !s.stale {
      hide Line, AllTail, OrdinaryScript, RunScript, AfterReply, Obeys, PeerAnswers, StatusOf, PopReplied;
      LineScript(s, events, 0, w);
      var t := RunScript(s, events, 0);
      if IsResponse(At(rx, 0)) && !t.dead { LineReplied(t, rx, script, w); }
    }
  }

  lemma {:induction false} NothingAfterTimeout(s: State, scripts: seq<Script>)
    ensures Fire(s, scripts).requests == []
  {
    hide Flush, DestroyAll;
  }

  // ----- so the log is never crowded -----

  lemma {:induction false} OneUrgent(q: seq<Command>)
    requires q != [] && Line(q)
    ensures Urgent(q) <= {q[0].serial}
  {
  }

  lemma {:induction false} ResentIsHead(s: State)
    requires Core(s, {}) && s.requests != [] && Line(s.requests)
    ensures Audit(s.log).resent <= {s.requests[0].serial}
  {
    OneUrgent(s.requests);
    hide RequestLine, ResponseLine, Serials, Urgent, Owing, Line, Audit;
  }

  lemma {:induction false} PostUncrowded(b: Book, c: Command)
    requires c.response || b.resent <= {c.serial}
    ensures Post(b, Wrote(c)).crowded == b.crowded && Post(Post(b, Wrote(c)), Destroyed(c)).crowded == b.crowded
  {
  }

  lemma {:induction false} WriteAnswerUncrowded(s: State)
    requires s.responses != [] && s.responses[0].response
    ensures Audit(WriteResponse(s).log).crowded == Audit(s.log).crowded
  {
    hide Audit, Post;
    var c := s.responses[0];
    AuditAppend(s.log, Wrote(c));
    AuditAppend(s.log + [Wrote(c)], Destroyed(c));
    PostUncrowded(Audit(s.log), c);
  }

  lemma {:induction false} WriteRequestUncrowded(s: State)
    requires Core(s, {}) && s.requests != [] && Line(s.requests)
    ensures Audit(WriteCommand(s).log).crowded == Audit(s.log).crowded
    ensures Audit(Sleep(WriteTransaction(s)).log).crowded == Audit(s.log).crowded
  {
    hide Core, Audit, Post, Line, Sleep;
    ResentIsHead(s);
    var c := s.requests[0];
    AuditAppend(s.log, Wrote(c));
    AuditAppend(s.log + [Wrote(c)], Destroyed(c));
    PostUncrowded(Audit(s.log), c);
    SleepUncrowded(WriteTransaction(s));
  }

  lemma {:induction false} AnswersAreResponses(s: State)
    requires Core(s, {}) && s.responses != []
    ensures s.responses[0].response
  {
  }

  lemma {:induction false} SleepUncrowded(s: State)
    ensures Audit(Sleep(s).log).crowded == Audit(s.log).crowded
  {
    hide Audit, Release;
    ReleaseWire(s.(watch := false));
  }

  lemma {:induction false} WritableUncrowded(s: State, outcome: Outcome)
    requires Inv(s) && !s.dead && Line(s.requests)
    ensures Audit(Writable(s, outcome).log).crowded == Audit(s.log).crowded
  {
    assert Core(s, {});
    hide Inv, Core, Audit, Line, Sleep, WriteResponse, WriteCommand, WriteTransaction;
    var f := s.(faulted := true);
    if s.stale || outcome.HangUp? || outcome.Refused? {
      SleepUncrowded(s);
      SleepUncrowded(f);
    } else if s.responses != [] {
      AnswersAreResponses(s);
      WriteAnswerUncrowded(s);
    } else if s.requests == [] || s.requests[0].sent {
      SleepUncrowded(s);
    } else {
      WriteRequestUncrowded(s);
    }
  }

  lemma {:induction false} StepUncrowded(s: State, step: Step)
    requires Inv(s) && Enabled(s, step) && Line(s.requests)
    ensures Audit(Apply(s, step).log).crowded == Audit(s.log).crowded
  {
    hide Inv, Audit, Line, Writable, Readable, Act, Fire, RunScript, ProperReading, ProperFlush;
    StepWire(s, step);
    if step.WritableStep? {
      WritableUncrowded(s, step.outcome);
    } else if step.ReadableStep? {
      ReadableWire(s, step.rx, step.events, step.script);
    }
  }

  lemma {:induction false} NeverCrowded(steps: seq<Step>, w: World)
    requires 23 <= w.mtu && Legal(steps) && GattRun(steps, w)
    ensures Line(Run(steps).requests) && !Audit(Run(steps).log).crowded
  {
    if steps != [] {
      var before, step := steps[..|steps| - 1], steps[|steps| - 1];
      RunsAreSafe(before);
      hide Inv, Apply, Enabled, Disciplined, Line, Audit;
      NeverCrowded(before, w);
      LineStep(Run(before), step, w);
      StepUncrowded(Run(before), step);
    }
  }

  /**
   In every run in which gatt.c alone resends, a continuation is the next
   request written after it was accepted, unless it is destroyed before: no
   other request, of a read or not, is written first.
   */
  lemma {:induction false} ContinuationIsNext(steps: seq<Step>, w: World, i: nat, j: nat)
    requires 23 <= w.mtu && Legal(steps) && GattRun(steps, w) && i < j < |Run(steps).log|
    requires Run(steps).log[i].Accepted? && !Run(steps).log[i].cmd.response && !Run(steps).log[i].cmd.tail
    requires Run(steps).log[j].Wrote? && !Run(steps).log[j].cmd.response
    requires Run(steps).log[j].cmd.serial != Run(steps).log[i].cmd.serial
    ensures GoneBetween(Run(steps).log, i, j)
  {
    NeverCrowded(steps, w);
    hide Run, Legal, GattRun, Line, Audit;
    ResentNext(Run(steps).log, i, j);
  }

  // ----- without that discipline -----

  /** A callback that resends twice leaves the later request in front of the earlier one. */
  lemma {:induction false} TwoResentOvertake(s: State, a: Action, b: Action, own: nat)
    requires !s.stale && !s.dead && own != 0 && a.Resend? && b.Resend? && !IsResponse(a.opcode) && !IsResponse(b.opcode)
    ensures var q := RunScript(s, [a, b], own).requests;
            |q| >= 2 && q[0].serial == s.accepted + 1 && q[1].serial == s.accepted && !q[0].tail && !q[1].tail
  {
    assert [a, b][1..] == [b] && [b][1..] == [];
    var t := Enqueue(s, own, a);
    assert t.requests == [NewCommand(s, own, a)] + s.requests && t.accepted == s.accepted + 1 && !t.stale;
    var u := Enqueue(t, own, b);
    assert u.requests == [NewCommand(t, own, b)] + t.requests;
    hide Enqueue;
    assert RunScript(u, [], own) == u;
    assert RunScript(t, [b], own) == u;
  }
}
