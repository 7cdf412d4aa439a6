/**
 The connection object itself: the fields of struct _GAttrib updated in place,
 with the pop loops of gattrib.c.  Every method is proved to do exactly what
 the corresponding function of the state machine says.
 */
module GAttribObject {
  import opened Octets
  import opened Scheduler
  import opened Ledger
  import opened SchedulerSafety

  class GAttrib {
    var requests: seq<Command>
    var responses: seq<Command>
    var timer: Option<nat>
    var watch: bool
    var stale: bool
    var nextId: nat
    var serial: nat
    var refs: int
    var dead: bool
    ghost var owners: int
    ghost var faulted: bool
    ghost var mem: Memory
    ghost var log: seq<Event>

    ghost function View(): State
      reads this
    {
      State(requests, responses, timer, watch, stale, nextId, serial, refs, owners, dead, faulted, mem, log)
    }

    ghost predicate Valid()
      reads this
    {
      Inv(View()) && !dead
    }

    /** Nothing behind the head of the requests is in flight. */
    ghost predicate Tidy()
      reads this
    {
      && (forall i :: 0 < i < |requests| ==> !requests[i].sent)
      && (forall i :: 0 <= i < |responses| ==> !responses[i].sent)
    }

    ghost predicate Idle()
      reads this
    {
      InFlight(requests).None?
    }

    constructor ()
      ensures View() == INITIAL && Valid()
    {
      requests, responses, timer, watch, stale := [], [], None, false, false;
      nextId, serial, refs, dead := 0, 0, 1, false;
      owners, faulted, mem, log := 1, false, INITIAL.mem, [];
      new;
      RunsAreSafe([]);
    }

    method CommandDestroy(c: Command)
      modifies this`log
      ensures View() == Note(old(View()), Destroyed(c))
    {
      log := log + [Destroyed(c)];
    }

    method WakeUpSender()
      modifies this`watch, this`refs, this`mem
      ensures View() == WakeUp(old(View()))
    {
      if dead { mem := mem.(touched := true); return; }
      if watch { return; }
      refs := refs + 1;
      watch := true;
    }

    /** g_attrib_send. */
    method Submit(id: nat, a: Action) returns (r: nat)
      requires a.Send? || a.Resend?
      modifies this
      ensures View() == Enqueue(old(View()), id, a)
      ensures r == if old(stale) then 0 else if id != 0 then id else (old(nextId) + 1) % 0x1_0000_0000
    {
      hide IsResponse, OpcodeToExpected, Push;
      if stale { return 0; }
      var response := IsResponse(a.opcode);
      var newId := if id != 0 then id else (nextId + 1) % GUINT_MODULUS;
      var c := Command(serial, newId, a.opcode, OpcodeToExpected(a.opcode), response, id == 0 || response,
                       a.pdu, false, a.func, a.notify, a.role);
      log := log + [Accepted(c)];
      serial := serial + 1;
      if id == 0 { nextId := newId; }
      PushCommand(c);
      r := newId;
    }

    method PushCommand(c: Command)
      modifies this`requests, this`responses, this`watch, this`refs, this`mem
      ensures View() == Push(old(View()), c)
    {
      if c.response {
        responses := responses + [c];
        if |responses| == 1 { WakeUpSender(); }
      } else {
        if !c.tail { requests := [c] + requests; } else { requests := requests + [c]; }
        if |requests| == 1 { WakeUpSender(); }
      }
    }

    method CancelRequestAt(i: nat)
      requires i < |requests|
      modifies this`requests, this`log
      ensures View() == CancelRequest(old(View()), i)
    {
      var c := requests[i];
      log := log + [Cancelled(c)];
      if i == 0 && c.sent {
        requests := requests[0 := c.(func := false)];
      } else {
        requests := RemoveAt(requests, i);
        CommandDestroy(c);
      }
    }

    method CancelResponseAt(i: nat)
      requires i < |responses|
      modifies this`responses, this`log
      ensures View() == CancelResponse(old(View()), i)
    {
      var c := responses[i];
      log := log + [Cancelled(c)];
      responses := RemoveAt(responses, i);
      CommandDestroy(c);
    }

    /** g_attrib_cancel. */
    method CancelCommand(id: nat) returns (found: bool)
      modifies this`requests, this`responses, this`log
      ensures View() == CancelById(old(View()), id)
      ensures found <==> (exists i :: 0 <= i < |old(requests)| && old(requests)[i].id == id)
                         || (exists i :: 0 <= i < |old(responses)| && old(responses)[i].id == id)
    {
      hide CancelRequest, CancelResponse;
      var i := IndexOfId(requests, id);
      if i >= 0 {
        CancelRequestAt(i);
        return true;
      }
      var j := IndexOfId(responses, id);
      if j >= 0 {
        CancelResponseAt(j);
        return true;
      }
      return false;
    }

    /** cancel_all_per_queue on the requests: a sent head is set aside and put back. */
    method CancelAllRequestsLoop()
      requires Tidy()
      modifies this`requests, this`log
      ensures View() == CancelAllRequests(old(View()))
    {
      hide CancelRequest;
      if requests != [] && requests[0].sent {
        var head := SetHeadAside();
        DiscardBehind(head);
      } else {
        assert View() == View().(requests := [] + requests);
        DiscardBehind([]);
      }
    }

    method DiscardBehind(head: seq<Command>)
      requires forall i :: 0 <= i < |requests| ==> !requests[i].sent
      modifies this`requests, this`log
      ensures View() == CancelRequestsFrom(old(View()).(requests := head + old(requests)), |head|)
    {
      ghost var target := CancelRequestsFrom(View().(requests := head + requests), |head|);
      hide CancelRequestsFrom;
      while requests != []
        invariant forall i :: 0 <= i < |requests| ==> !requests[i].sent
        invariant target == CancelRequestsFrom(View().(requests := head + requests), |head|)
        decreases |requests|
      {
        DiscardOne(head);
      }
      CancelNothingBehind(View().(requests := head + requests), |head|);
      requests := head + requests;
    }

    method DiscardOne(ghost head: seq<Command>)
      requires requests != [] && !requests[0].sent
      modifies this`requests, this`log
      ensures CancelRequestsFrom(View().(requests := head + requests), |head|) ==
              CancelRequestsFrom(old(View()).(requests := head + old(requests)), |head|)
      ensures requests == old(requests)[1..]
    {
      CancelBehind(View(), head);
      hide CancelRequestsFrom;
      var c := requests[0];
      log := log + [Cancelled(c)];
      requests := requests[1..];
      CommandDestroy(c);
    }

    method SetHeadAside() returns (head: seq<Command>)
      requires requests != [] && requests[0].sent
      modifies this`requests, this`log
      ensures |head| == 1 && View().(requests := head + requests) == CancelRequest(old(View()), 0)
      ensures requests == old(requests)[1..]
    {
      var c := requests[0];
      log := log + [Cancelled(c)];
      head := [c.(func := false)];
      requests := requests[1..];
      assert head + requests == old(requests)[0 := c.(func := false)];
    }

    /** cancel_all_per_queue on the responses. */
    method CancelAllResponsesLoop()
      modifies this`responses, this`log
      ensures View() == CancelAllResponses(old(View()))
    {
      ghost var target := CancelAllResponses(View());
      while responses != []
        invariant target == CancelAllResponses(View())
        decreases |responses|
      {
        var c := responses[0];
        assert RemoveAt(responses, 0) == responses[1..];
        log := log + [Cancelled(c)];
        responses := responses[1..];
        CommandDestroy(c);
      }
    }

    /** The calls a callback makes, one after the other. */
    method RunCalls(script: Script, own: nat, ghost held: set<nat>)
      requires Core(View(), held) && Proper(View(), script, own) && (own != 0 ==> Idle())
      modifies this
      ensures View() == RunScript(old(View()), script, own)
    {
      ghost var target := RunScript(View(), script, own);
      var i := 0;
      assert script[0..] == script;
      hide RunScript, Proper, Core, Act;
      while i < |script|
        invariant 0 <= i <= |script| && Core(View(), held) && Proper(View(), script[i..], own) && (own != 0 ==> Idle())
        invariant target == RunScript(View(), script[i..], own)
      {
        NextCall(View(), script, i, own, held);
        Perform(script[i], own, held);
        i := i + 1;
      }
      NoMoreCalls(View(), script[i..], own);
    }

    method Perform(a: Action, own: nat, ghost held: set<nat>)
      requires Core(View(), held)
      modifies this
      ensures View() == Act(old(View()), a, own)
    {
      assert Tidy();
      hide Core, Enqueue, CancelById, CancelAllRequests, CancelAllResponses, Release;
      match a {
        case Send(_, _, _, _, _) => var _ := Submit(0, a);
        case Resend(_, _, _, _, _) => var _ := Submit(own, a);
        case Cancel(id) => var _ := CancelCommand(id);
        case CancelAll =>
          CancelAllRequestsLoop();
          CancelAllResponsesLoop();
        case Hold =>
          refs := refs + 1;
          owners := owners + 1;
        case Drop =>
          owners := owners - 1;
          Unref();
      }
    }

    /** Runs the result function of a popped command, then destroys the command. */
    method Finish(c: Command, status: byte, rx: seq<byte>, script: Script)
      requires Core(View(), {c.serial}) && !dead && Idle() && Due(Audit(log), c, status, rx)
      requires ProperCall(View(), c, status, rx, script)
      modifies this
      ensures View() == Deliver(old(View()), c, status, rx, script)
    {
      if c.func {
        CallKeeps(View(), c, status, rx, script);
        log := log + [Called(c, status, rx, script)];
        RunCalls(script, c.id, {c.serial});
      }
      CommandDestroy(c);
    }

    /** received_data after a successful read. */
    method ReceivedData(rx: seq<byte>, events: Script, script: Script)
      requires Valid() && (!stale ==> ProperReading(View(), rx, events, script))
      modifies this
      ensures View() == Readable(old(View()), rx, events, script) && Inv(View())
    {
      ReadableKeeps(View(), rx, events, script);
      if stale { return; }
      ghost var t := RunScript(View(), events, 0);
      RunScriptKeeps(View(), events, 0, {});
      EventsLeave(View(), t);
      hide Core, Flight, Inv, Quiet, RunScript, AfterReply, Proper, ProperReply, Counted, Clean, Kept, Wakeful;
      RunCalls(events, 0, {});
      if dead { mem := mem.(touched := true); return; }
      if IsResponse(At(rx, 0)) { HandleResponse(rx, script); }
    }

    /** The part of received_data that handles a response. */
    method HandleResponse(rx: seq<byte>, script: Script)
      requires Core(View(), {}) && !dead && Flight(View()) && rx != [] && ProperReply(View(), rx, script)
      modifies this
      ensures View() == AfterReply(old(View()), rx, script)
    {
      hide Core, Flight, Deliver, ProperCall, Due, Audit;
      if requests == [] {
        timer := None;
        log := log + [Replied(rx, None)];
      } else {
        PopRepliedKeeps(View(), rx);
        var c := PopHead(rx);
        var status := if At(rx, 0) == ATT_OP_ERROR then At(rx, 4) else if c.expected != At(rx, 0) then ATT_ECODE_IO
            else 0;
        var busy := requests != [] || responses != [];
        Finish(c, status, rx, script);
        if busy { WakeUpSender(); }
      }
    }

    method PopHead(rx: seq<byte>) returns (c: Command)
      requires requests != []
      modifies this`timer, this`requests, this`log
      ensures c == old(requests)[0] && View() == PopReplied(old(View()), rx)
    {
      c := requests[0];
      timer := None;
      requests := requests[1..];
      log := log + [Replied(rx, Some(c))];
    }

    /** g_attrib_unref. */
    method Unref()
      modifies this
      ensures View() == Release(old(View()))
    {
      hide DestroyAll;
      refs := refs - 1;
      if refs == 0 { AttribDestroy(); }
    }

    /** attrib_destroy. */
    method AttribDestroy()
      modifies this`requests, this`responses, this`log, this`dead, this`mem
      ensures View() == DestroyAll(old(View()))
    {
      DestroyRequests();
      DestroyResponses();
      dead := true;
      mem := mem.(wild := mem.fired);
    }

    method DestroyRequests()
      modifies this`requests, this`log
      ensures requests == [] && DestroyAll(View()) == DestroyAll(old(View()))
    {
      ghost var target := DestroyAll(View());
      while requests != []
        invariant target == DestroyAll(View())
        decreases |requests|
      {
        var c := requests[0];
        requests := requests[1..];
        CommandDestroy(c);
      }
    }

    method DestroyResponses()
      requires requests == []
      modifies this`responses, this`log
      ensures responses == [] && DestroyAll(View()) == DestroyAll(old(View()))
    {
      ghost var target := DestroyAll(View());
      while responses != []
        invariant target == DestroyAll(View())
        decreases |responses|
      {
        var c := responses[0];
        responses := responses[1..];
        CommandDestroy(c);
      }
    }

    /** destroy_sender. */
    method DestroySender()
      modifies this
      ensures View() == Sleep(old(View()))
    {
      watch := false;
      Unref();
    }

    /** can_write_data; `again` is what it returns, and destroy_sender runs when it is false. */
    method CanWriteData(outcome: Outcome) returns (again: bool)
      requires Valid() && watch
      modifies this
      ensures View() == Writable(old(View()), outcome) && Inv(View())
      ensures again <==> watch
    {
      WritableKeeps(View(), outcome);
      assert forall i :: 0 <= i < |responses| ==> !responses[i].sent && responses[i].expected == 0;
      hide Inv, Sleep, WriteResponse, WriteCommand, WriteTransaction;
      again := false;
      if stale { DestroySender(); return; }
      if outcome.HangUp? { faulted := true; DestroySender(); return; }
      if responses == [] && requests == [] { DestroySender(); return; }
      var c := if responses != [] then responses[0] else requests[0];
      if c.sent { DestroySender(); return; }
      if outcome.Refused? { faulted := true; DestroySender(); return; }
      again := Transmit(c);
    }

    /** The bookkeeping of can_write_data after a successful write. */
    method Transmit(c: Command) returns (again: bool)
      requires if responses != [] then c == responses[0] && c.expected == 0 else requests != [] && c == requests[0]
      modifies this
      ensures again <==> c.expected == 0
      ensures View() == if old(responses) != [] then WriteResponse(old(View()))
                        else if again then WriteCommand(old(View())) else Sleep(WriteTransaction(old(View())))
    {
      hide Release;
      log := log + [Wrote(c)];
      if c.expected == 0 {
        if responses != [] { responses := responses[1..]; } else { requests := requests[1..]; }
        CommandDestroy(c);
        return true;
      }
      requests := requests[0 := c.(sent := true)];
      if timer.None? { timer := Some(c.serial); }
      DestroySender();
      again := false;
    }

    /** disconnect_timeout. */
    method DisconnectTimeout(scripts: seq<Script>)
      requires Valid() && !stale && ProperFlush(Pin(View()), ATT_ECODE_TIMEOUT, scripts)
      modifies this
      ensures View() == Fire(old(View()), scripts) && Inv(View())
    {
      FireKeeps(View(), scripts);
      PinKeeps(View());
      assert Pin(View()).mem.pins > 0;
      hide Inv, Core, Counted, Fire, ProperFlush, Pin;
      RunTimeout(scripts);
    }

    method RunTimeout(scripts: seq<Script>)
      requires Core(Pin(View()), {}) && Counted(Pin(View())) && Pin(View()).mem.pins > 0
      requires ProperFlush(Pin(View()), ATT_ECODE_TIMEOUT, scripts)
      modifies this
      ensures View() == Fire(old(View()), scripts)
    {
      hide Core, Counted, Flush, Release, ProperFlush;
      BeginTimeout();
      FlushLoop(scripts);
      EndTimeout();
    }

    method BeginTimeout()
      modifies this`refs, this`mem
      ensures View() == Pin(old(View()))
    {
      refs := refs + 1;
      mem := mem.(pins := mem.pins + 1);
    }

    method EndTimeout()
      modifies this
      ensures var t := old(View()).(stale := true);
              var u := Release(t.(mem := t.mem.(pins := t.mem.pins - 1)));
              View() == if u.dead then u else u.(mem := u.mem.(fired := true))
    {
      hide Release;
      stale := true;
      mem := mem.(pins := mem.pins - 1);
      Unref();
      if !dead { mem := mem.(fired := true); }
    }

    /** Its pop loop: the first command is told TIMEOUT, the others ABORTED. */
    method FlushLoop(scripts: seq<Script>)
      requires Core(View(), {}) && Counted(View()) && mem.pins > 0 && ProperFlush(View(), ATT_ECODE_TIMEOUT, scripts)
      modifies this
      ensures View() == Flush(old(View()), ATT_ECODE_TIMEOUT, scripts)
    {
      hide Core, Counted, Flush, ProperFlush;
      ghost var target := Flush(View(), ATT_ECODE_TIMEOUT, scripts);
      var status := ATT_ECODE_TIMEOUT;
      var todo := scripts;
      while requests != []
        invariant Core(View(), {}) && Counted(View()) && mem.pins > 0 && ProperFlush(View(), status, todo)
        invariant target == Flush(View(), status, todo)
        invariant status == ATT_ECODE_TIMEOUT || status == ATT_ECODE_ABORTED
        decreases |todo|, |requests|
      {
        FlushUnfolds(View(), status, todo);
        ProperFlushUnfolds(View(), status, todo);
        var script: Script := [];
        if requests[0].func && todo != [] { script, todo := todo[0], todo[1..]; }
        TimeOutHead(status, script);
        status := ATT_ECODE_ABORTED;
      }
      FlushUnfolds(View(), status, todo);
    }

    method TimeOutHead(status: byte, script: Script)
      requires requests != [] && Core(View(), {}) && Counted(View()) && mem.pins > 0
      requires status == ATT_ECODE_TIMEOUT || status == ATT_ECODE_ABORTED
      requires ProperCall(View().(requests := requests[1..]), requests[0], status, [], script)
      modifies this
      ensures View() == Deliver(old(View()).(requests := old(requests)[1..]), old(requests)[0], status, [], script)
      ensures Core(View(), {}) && Counted(View()) && mem.pins > 0 && (script == [] ==> |requests| < |old(requests)|)
    {
      var c := requests[0];
      TakenByTimeout(View(), status);
      hide Core, Counted, Due, ProperCall, Quiet, Deliver;
      requests := requests[1..];
      ghost var p := View();
      DeliverKeeps(p, c, status, [], script);
      PinnedSurvives(p, Deliver(p, c, status, [], script));
      SilentDelivery(p, c, status);
      Finish(c, status, [], script);
    }
  }

  lemma {:induction false} NextCall(s: State, script: Script, i: nat, own: nat, held: set<nat>)
    requires i < |script| && Core(s, held) && Proper(s, script[i..], own) && (own != 0 ==> InFlight(s.requests).None?)
    ensures var t := Act(s, script[i], own);
            && Core(t, held) && Proper(t, script[i + 1..], own) && (own != 0 ==> InFlight(t.requests).None?)
            && RunScript(s, script[i..], own) == RunScript(t, script[i + 1..], own)
  {
    assert script[i..][0] == script[i] && script[i..][1..] == script[i + 1..];
    ActKeeps(s, script[i], own, held);
    hide Core, Act;
  }

  lemma {:induction false} NoMoreCalls(s: State, script: Script, own: nat)
    requires script == []
    ensures RunScript(s, script, own) == s
  {
  }

  lemma {:induction false} CancelNothingBehind(s: State, keep: nat)
    requires |s.requests| == keep
    ensures CancelRequestsFrom(s, keep) == s
  {
  }

  /** Taking the first request behind those set aside is a cancellation in place. */
  lemma {:induction false} CancelBehind(s: State, head: seq<Command>)
    requires s.requests != [] && !s.requests[0].sent
    ensures var c := s.requests[0];
            CancelRequestsFrom(s.(requests := head + s.requests), |head|) ==
            CancelRequestsFrom(Note(Note(s, Cancelled(c)).(requests := head + s.requests[1..]), Destroyed(c)), |head|)
  {
    var q := head + s.requests;
    assert q[|head|] == s.requests[0] && RemoveAt(q, |head|) == head + s.requests[1..];
  }
}
