/**
 The calls that users and callbacks make, against what the scheduler accepts:
 in every run the accepted commands are exactly the submissions performed, in
 the order in which they were made.
 */
module SchedulerCalls {
  import opened Octets
  import opened Scheduler
  import opened Ledger
  import opened SchedulerSafety
  import opened SchedulerContent

  /** The commands that a stretch of the log accepts, as the calls that submit them. */
  function Entries(log: seq<Event>): seq<Action> {
    if log == [] then []
    else
      var e := log[|log| - 1];
      Entries(log[..|log| - 1]) +
      if e.Accepted? then [Send(e.cmd.opcode, e.cmd.pdu, e.cmd.func, e.cmd.notify, e.cmd.role)] else []
  }

  /** The calls of the result functions that ran. */
  function Quotes(log: seq<Event>): seq<Script> {
    if log == [] then []
    else
      var e := log[|log| - 1];
      Quotes(log[..|log| - 1]) + if e.Called? then [e.script] else []
  }

  /** The submissions among the calls. */
  function Offers(calls: seq<Action>): seq<Action> {
    if calls == [] then []
    else
      var a := calls[|calls| - 1];
      Offers(calls[..|calls| - 1]) +
      if a.Send? || a.Resend? then [Send(a.opcode, a.pdu, a.func, a.notify, a.role)] else []
  }

  lemma {:induction false} EntriesJoin(a: seq<Event>, b: seq<Event>)
    ensures Entries(a + b) == Entries(a) + Entries(b) && Quotes(a + b) == Quotes(a) + Quotes(b)
  {
    if b == [] {
      assert a + b == a;
    } else {
      var init := b[..|b| - 1];
      assert (a + b)[..|a + b| - 1] == a + init && (a + b)[|a + b| - 1] == b[|b| - 1];
      EntriesJoin(a, init);
    }
  }

  lemma {:induction false} OffersJoin(a: seq<Action>, b: seq<Action>)
    ensures Offers(a + b) == Offers(a) + Offers(b)
  {
    if b == [] {
      assert a + b == a;
    } else {
      var init := b[..|b| - 1];
      assert (a + b)[..|a + b| - 1] == a + init && (a + b)[|a + b| - 1] == b[|b| - 1];
      OffersJoin(a, init);
    }
  }

  lemma {:induction false} JoinedJoin(a: seq<Script>, b: seq<Script>)
    ensures Joined(a + b) == Joined(a) + Joined(b)
  {
    if a == [] {
      assert a + b == b;
    } else {
      assert (a + b)[0] == a[0] && (a + b)[1..] == a[1..] + b;
      JoinedJoin(a[1..], b);
    }
  }

  /** What the log gains from s to t. */
  function New(s: State, t: State): seq<Event> {
    if |s.log| <= |t.log| then t.log[|s.log|..] else []
  }

  /** Exactly the `direct` calls and those of the result functions that ran were performed. */
  ghost predicate Made(s: State, t: State, direct: seq<Action>) {
    && s.log <= t.log && t.stale == s.stale
    && Entries(New(s, t)) == Offers(direct + Joined(Quotes(New(s, t))))
  }

  /** Nothing was submitted and no result function ran. */
  ghost predicate Discards(s: State, t: State) {
    && s.log <= t.log && t.stale == s.stale
    && forall i :: |s.log| <= i < |t.log| ==> !t.log[i].Accepted? && !t.log[i].Called?
  }

  lemma {:induction false} DiscardsThen(s: State, t: State, u: State)
    requires Discards(s, t) && Discards(t, u)
    ensures Discards(s, u)
  {
    forall i | |s.log| <= i < |t.log| ensures u.log[i] == t.log[i] {}
  }

  lemma {:induction false} Uneventful(log: seq<Event>)
    requires forall i :: 0 <= i < |log| ==> !log[i].Accepted? && !log[i].Called?
    ensures Entries(log) == [] && Quotes(log) == []
  {
    if log != [] { Uneventful(log[..|log| - 1]); }
  }

  lemma {:induction false} DiscardsMade(s: State, t: State)
    requires Discards(s, t)
    ensures Made(s, t, []) && Quotes(New(s, t)) == []
  {
    Uneventful(New(s, t));
  }

  lemma {:induction false} NewThen(s: State, t: State, u: State)
    requires s.log <= t.log <= u.log
    ensures New(s, u) == New(s, t) + New(t, u)
  {
    assert u.log[..|t.log|] == t.log;
  }

  lemma {:induction false} Single(direct: seq<Action>)
    ensures direct + Joined([]) == direct
  {
  }

  /** Result functions run, and then more of them do. */
  lemma {:induction false} MadeThen(s: State, t: State, u: State, direct: seq<Action>)
    requires Made(s, t, direct) && Made(t, u, [])
    ensures Made(s, u, direct) && Quotes(New(s, u)) == Quotes(New(s, t)) + Quotes(New(t, u))
  {
    hide Entries, Offers, Joined, Quotes, New;
    NewThen(s, t, u);
    var a, b := New(s, t), New(t, u);
    EntriesJoin(a, b);
    JoinedJoin(Quotes(a), Quotes(b));
    OffersJoin(direct + Joined(Quotes(a)), Joined(Quotes(b)));
    assert [] + Joined(Quotes(b)) == Joined(Quotes(b));
    assert direct + (Joined(Quotes(a)) + Joined(Quotes(b))) == direct + Joined(Quotes(a)) + Joined(Quotes(b));
  }

  /** Calls are made, and then result functions run. */
  lemma {:induction false} MadeBefore(s: State, t: State, u: State, direct: seq<Action>, more: seq<Action>)
    requires Made(s, t, direct) && Quotes(New(s, t)) == [] && Made(t, u, more)
    ensures Made(s, u, direct + more) && Quotes(New(s, u)) == Quotes(New(t, u))
  {
    hide Entries, Offers, Joined, Quotes, New;
    NewThen(s, t, u);
    var a, b := New(s, t), New(t, u);
    EntriesJoin(a, b);
    Single(direct);
    assert Quotes(a + b) == Quotes(b);
    var said := Joined(Quotes(b));
    OffersJoin(direct, more + said);
    assert direct + more + said == direct + (more + said);
  }

  // ----- calls -----

  lemma {:induction false} SendMakes(s: State, id: nat, a: Action)
    requires (a.Send? || a.Resend?) && !s.stale
    ensures Made(s, Enqueue(s, id, a), [a]) && Quotes(New(s, Enqueue(s, id, a))) == []
  {
    hide Push, IsResponse, OpcodeToExpected, Quotes, Entries, Offers;
    var c, t := NewCommand(s, id, a), Enqueue(s, id, a);
    assert New(s, t) == [Accepted(c)];
    OneEntry(c, a);
    Single([a]);
  }

  lemma {:induction false} OneEntry(c: Command, a: Action)
    requires Submits(a, c)
    ensures Entries([Accepted(c)]) == Offers([a]) && Quotes([Accepted(c)]) == []
  {
    assert [Accepted(c)][..0] == [] && [a][..0] == [];
  }

  lemma {:induction false} CancelRequestDiscards(s: State, i: nat)
    requires i < |s.requests|
    ensures Discards(s, CancelRequest(s, i))
  {
    hide RemoveAt;
  }

  lemma {:induction false} CancelRequestsFromDiscards(s: State, keep: nat)
    ensures Discards(s, CancelRequestsFrom(s, keep))
    decreases |s.requests|
  {
    if keep < |s.requests| && !(keep == 0 && s.requests[0].sent) {
      var t := CancelRequest(s, keep);
      CancelRequestDiscards(s, keep);
      assert |t.requests| < |s.requests|;
      hide Discards, CancelRequest;
      CancelRequestsFromDiscards(t, keep);
      DiscardsThen(s, t, CancelRequestsFrom(s, keep));
    }
  }

  lemma {:induction false} CancelResponseDiscards(s: State, i: nat)
    requires i < |s.responses|
    ensures Discards(s, CancelResponse(s, i))
  {
    hide RemoveAt;
  }

  lemma {:induction false} CancelAllResponsesDiscards(s: State)
    ensures Discards(s, CancelAllResponses(s))
    decreases |s.responses|
  {
    if s.responses != [] {
      CancelResponseDiscards(s, 0);
      hide Discards;
      CancelAllResponsesDiscards(CancelResponse(s, 0));
      DiscardsThen(s, CancelResponse(s, 0), CancelAllResponses(s));
    }
  }

  lemma {:induction false} CancelAllDiscards(s: State)
    ensures Discards(s, CancelAllResponses(CancelAllRequests(s)))
  {
    var flying := InFlight(s.requests).Some?;
    var t := s;
    assert Discards(s, s);
    hide Discards, CancelRequest, CancelRequestsFrom;
    if flying { CancelRequestDiscards(s, 0); t := CancelRequest(s, 0); }
    var u := CancelAllRequests(s);
    CancelRequestsFromDiscards(t, if flying then 1 else 0);
    CancelAllResponsesDiscards(u);
    DiscardsThen(s, t, u);
    DiscardsThen(s, u, CancelAllResponses(u));
  }

  lemma {:induction false} ReleaseDiscards(s: State, d: State)
    requires d.log == s.log && d.stale == s.stale
    ensures Discards(s, Release(d))
  {
    DestroysOnly(d.(refs := d.refs - 1));
    hide DestroyAll;
  }

  lemma {:induction false} CancelByIdDiscards(s: State, id: nat)
    ensures Discards(s, CancelById(s, id))
  {
    var i, j := IndexOfId(s.requests, id), IndexOfId(s.responses, id);
    if i >= 0 { CancelRequestDiscards(s, i); } else if j >= 0 { CancelResponseDiscards(s, j); }
    hide CancelRequest, CancelResponse;
  }

  lemma {:induction false} ActMakes(s: State, a: Action, own: nat)
    requires !s.stale
    ensures Made(s, Act(s, a, own), [a]) && Quotes(New(s, Act(s, a, own))) == []
  {
    if a.Send? {
      SendMakes(s, 0, a);
    } else if a.Resend? {
      SendMakes(s, own, a);
    } else {
      var t := Act(s, a, own);
      OtherCallDiscards(s, a, own);
      hide Act;
      DiscardsMade(s, t);
      assert [a][..0] == [] && [a] + [] == [a];
    }
  }

  lemma {:induction false} OtherCallDiscards(s: State, a: Action, own: nat)
    requires !a.Send? && !a.Resend?
    ensures Discards(s, Act(s, a, own))
  {
    if a.Hold? { assert Discards(s, Act(s, a, own)); }
    hide Discards, CancelById, CancelAllRequests, CancelAllResponses, Release;
    match a
    case Cancel(id) => CancelByIdDiscards(s, id);
    case CancelAll => CancelAllDiscards(s);
    case Hold =>
    case Drop => ReleaseDiscards(s, s.(owners := s.owners - 1));
  }

  /** A callback has all its calls performed, in order. */
  lemma {:induction false} RunScriptMakes(s: State, script: Script, own: nat)
    requires !s.stale
    ensures Made(s, RunScript(s, script, own), script) && Quotes(New(s, RunScript(s, script, own))) == []
    decreases script
  {
    if script == [] {
      assert New(s, s) == [];
      assert script + [] == script;
    } else {
      var t := Act(s, script[0], own);
      ActMakes(s, script[0], own);
      assert !t.stale && script == [script[0]] + script[1..];
      hide Act, Made, Quotes, New;
      RunScriptMakes(t, script[1..], own);
      MadeBefore(s, t, RunScript(s, script, own), [script[0]], script[1..]);
    }
  }

  // ----- steps -----

  /** The result function runs, if it is set, and its calls are performed before the command is destroyed. */
  lemma {:induction false} DeliverMakes(s: State, c: Command, status: byte, rx: seq<byte>, script: Script)
    requires !s.stale
    ensures var t := Deliver(s, c, status, rx, script);
            Made(s, t, []) && Quotes(New(s, t)) == if c.func then [script] else []
  {
    var e := Called(c, status, rx, script);
    var u := if c.func then RunScript(Note(s, e), script, c.id) else s;
    var t := Deliver(s, c, status, rx, script);
    assert t == Note(u, Destroyed(c));
    assert Discards(u, t);
    DiscardsMade(u, t);
    if c.func {
      RunScriptMakes(Note(s, e), script, c.id);
      hide RunScript, Deliver, Discards;
      CalledMakes(s, e, u);
      hide Made, Quotes, New;
      MadeThen(s, u, t, []);
      assert [script] + [] == [script];
    }
  }

  lemma {:induction false} CalledMakes(s: State, e: Event, u: State)
    requires e.Called? && Made(Note(s, e), u, e.script) && Quotes(New(Note(s, e), u)) == []
    ensures Made(s, u, []) && Quotes(New(s, u)) == [e.script]
  {
    var p := Note(s, e);
    assert New(s, p) == [e] && [e][..0] == [];
    assert Entries([e]) == [] && Quotes([e]) == [e.script];
    assert Joined([]) == [] && e.script + [] == e.script && Joined([e.script]) == e.script + [];
    hide Entries, Quotes, Offers, Joined, New;
    NewThen(s, p, u);
    EntriesJoin([e], New(p, u));
    assert [e.script] + [] == [e.script] && [] + e.script == e.script;
  }

  /** Calls that callbacks make during the step without being the result of a command. */
  function Direct(step: Step): seq<Action> {
    match step
    case UserCall(a) => [a]
    case ReadableStep(_, events, _) => events
    case _ => []
  }

  lemma {:induction false} AfterReplyMakes(s: State, rx: seq<byte>, script: Script)
    requires !s.stale
    ensures var t := AfterReply(s, rx, script);
            && Made(s, t, [])
            && Quotes(New(s, t)) == if s.requests != [] && s.requests[0].func then [script] else []
  {
    var u := AfterReply(s, rx, script);
    if s.requests == [] {
      assert Discards(s, u);
      DiscardsMade(s, u);
    } else {
      var c, p := s.requests[0], PopReplied(s, rx);
      var d := Deliver(p, c, StatusOf(c.expected, rx), rx, script);
      assert Discards(s, p);
      hide Deliver, StatusOf;
      assert Discards(d, u);
      hide Made, Quotes, New, AfterReply, Discards, PopReplied;
      DeliverMakes(p, c, StatusOf(c.expected, rx), rx, script);
      Between(s, p, d, u);
    }
  }

  /** Around what result functions do, nothing else is submitted. */
  lemma {:induction false} Between(s: State, p: State, d: State, u: State)
    requires Discards(s, p) && Made(p, d, []) && Discards(d, u)
    ensures Made(s, u, []) && Quotes(New(s, u)) == Quotes(New(p, d))
  {
    hide Made, Quotes, New, Discards;
    var none: seq<Action> := [];
    DiscardsMade(s, p);
    DiscardsMade(d, u);
    MadeBefore(s, p, d, none, none);
    assert none + none == none;
    MadeThen(s, d, u, none);
    assert Quotes(New(s, u)) == Quotes(New(s, d));
  }

  lemma {:induction false} ReadableMakes(s: State, rx: seq<byte>, events: Script, script: Script)
    requires !s.stale
    ensures var t, u := RunScript(s, events, 0), Readable(s, rx, events, script);
            && Made(s, u, events)
            && Quotes(New(s, u)) ==
               if !t.dead && IsResponse(At(rx, 0)) && t.requests != [] && t.requests[0].func then [script] else []
  {
    var t, u := RunScript(s, events, 0), Readable(s, rx, events, script);
    RunScriptMakes(s, events, 0);
    assert !t.stale;
    hide RunScript, Made, Quotes, New, AfterReply, IsResponse;
    if !t.dead && IsResponse(At(rx, 0)) {
      AfterReplyMakes(t, rx, script);
    } else {
      assert Discards(t, u);
      DiscardsMade(t, u);
    }
    MadeBefore(s, t, u, events, []);
    assert events + [] == events;
  }

  lemma {:induction false} WritableMakes(s: State, outcome: Outcome)
    ensures var t := Writable(s, outcome); Made(s, t, []) && Quotes(New(s, t)) == []
  {
    var t := Writable(s, outcome);
    WritableDiscards(s, outcome);
    DiscardsMade(s, t);
  }

  lemma {:induction false} WritableDiscards(s: State, outcome: Outcome)
    ensures Discards(s, Writable(s, outcome))
  {
    WritesDiscard(s);
    hide Release, WriteResponse, WriteCommand, WriteTransaction, Discards;
    ReleaseDiscards(s, s.(watch := false));
    ReleaseDiscards(s, s.(watch := false, faulted := true));
    if s.requests != [] {
      var w := WriteTransaction(s);
      ReleaseDiscards(w, w.(watch := false));
      DiscardsThen(s, w, Sleep(w));
    }
  }

  lemma {:induction false} WritesDiscard(s: State)
    ensures s.responses != [] ==> Discards(s, WriteResponse(s))
    ensures s.requests != [] ==> Discards(s, WriteCommand(s)) && Discards(s, WriteTransaction(s))
  {
  }

  /** What the callbacks of a timeout do: they take the scripts in order, and those left over do nothing. */
  ghost predicate InTurn(quotes: seq<Script>, scripts: seq<Script>) {
    forall k :: 0 <= k < |quotes| ==> quotes[k] == if k < |scripts| then scripts[k] else []
  }

  lemma {:induction false} FlushMakes(s: State, status: byte, scripts: seq<Script>)
    requires !s.stale
    ensures var t := Flush(s, status, scripts); Made(s, t, []) && InTurn(Quotes(New(s, t)), scripts)
    decreases |scripts|, |s.requests|
  {
    hide Deliver, Flush, Made, InTurn, Quotes, New;
    FlushUnfolds(s, status, scripts);
    if s.requests == [] {
      Standstill(s, scripts);
    } else {
      var c := s.requests[0];
      var script := if c.func && scripts != [] then scripts[0] else [];
      var rest := if c.func && scripts != [] then scripts[1..] else scripts;
      var p := s.(requests := s.requests[1..]);
      var t, u := Deliver(p, c, status, [], script), Flush(s, status, scripts);
      SilentDelivery(p, c, status);
      DeliverMakes(p, c, status, [], script);
      SameLog(s, p, t);
      FlushMakes(t, ATT_ECODE_ABORTED, rest);
      MadeThen(s, t, u, []);
      TakesTurns(Quotes(New(t, u)), c.func, scripts);
    }
  }

  lemma {:induction false} Standstill(s: State, scripts: seq<Script>)
    ensures Made(s, s, []) && InTurn(Quotes(New(s, s)), scripts)
  {
    DiscardsMade(s, s);
  }

  lemma {:induction false} SameLog(s: State, p: State, t: State)
    requires p.log == s.log && p.stale == s.stale && Made(p, t, [])
    ensures Made(s, t, []) && New(s, t) == New(p, t) && t.stale == s.stale
  {
    hide Entries, Quotes, Offers, Joined;
  }

  lemma {:induction false} TakesTurns(quotes: seq<Script>, func: bool, scripts: seq<Script>)
    requires InTurn(quotes, if func && scripts != [] then scripts[1..] else scripts)
    ensures var script := if func && scripts != [] then scripts[0] else [];
            InTurn((if func then [script] else []) + quotes, scripts)
  {
    if !func { assert [] + quotes == quotes; }
  }

  lemma {:induction false} FireMakes(s: State, scripts: seq<Script>)
    requires !s.stale
    ensures var t := Fire(s, scripts);
            && s.log <= t.log && Entries(New(s, t)) == Offers([] + Joined(Quotes(New(s, t))))
            && InTurn(Quotes(New(s, t)), scripts)
  {
    hide Flush, Release, Entries, Quotes, Offers, Joined;
    FlushMakes(Pin(s), ATT_ECODE_TIMEOUT, scripts);
    var f := Flush(Pin(s), ATT_ECODE_TIMEOUT, scripts);
    SameLog(s, Pin(s), f);
    var t := f.(stale := true, mem := f.mem.(pins := f.mem.pins - 1));
    var u := Release(t);
    ReleaseDiscards(t, t);
    hide Discards, InTurn;
    AfterFlush(s, f, u);
    assert New(s, Fire(s, scripts)) == New(s, u);
  }

  lemma {:induction false} AfterFlush(s: State, f: State, u: State)
    requires Made(s, f, []) && Discards(f.(stale := true), u)
    ensures s.log <= u.log && Entries(New(s, u)) == Offers([] + Joined(Quotes(New(s, u))))
    ensures Quotes(New(s, u)) == Quotes(New(s, f))
  {
    var v := u.(stale := f.stale);
    assert Discards(f, v) && New(s, v) == New(s, u);
    DiscardsMade(f, v);
    hide Entries, Quotes, Offers, Joined, New;
    MadeThen(s, f, v, []);
    assert Quotes(New(s, f)) + [] == Quotes(New(s, f));
  }

  // ----- whole runs -----

  /** What a step performs directly: nothing on a stale connection. */
  function Admitted(s: State, step: Step): seq<Action> {
    if s.stale then [] else Direct(step)
  }

  /** In a step, exactly the calls made are accepted, and the result functions that run are the step's own. */
  lemma {:induction false} StepMakes(s: State, step: Step)
    requires Enabled(s, step)
    ensures var t := Apply(s, step);
            && s.log <= t.log && Entries(New(s, t)) == Offers(Admitted(s, step) + Joined(Quotes(New(s, t))))
            && match step
               case ReadableStep(_, _, script) => InTurn(Quotes(New(s, t)), [script]) && |Quotes(New(s, t))| <= 1
               case TimeoutStep(scripts) => InTurn(Quotes(New(s, t)), scripts)
               case _ => Quotes(New(s, t)) == []
  {
    var t := Apply(s, step);
    if s.stale && !step.WritableStep? { StaleDiscards(s, step); DiscardsMade(s, t); }
    hide Act, Writable, Readable, ReadFailure, Fire, Entries, Quotes, Offers, Joined, New, Discards;
    match step
    case UserCall(a) => if !s.stale { ActMakes(s, a, 0); }
    case WritableStep(outcome) => WritableMakes(s, outcome);
    case ReadableStep(rx, events, script) => if !s.stale { ReadableMakes(s, rx, events, script); }
    case ReadFailureStep => FailureDiscards(s); DiscardsMade(s, t);
    case TimeoutStep(scripts) => FireMakes(s, scripts);
  }

  lemma {:induction false} StaleDiscards(s: State, step: Step)
    requires s.stale && Enabled(s, step) && !step.WritableStep?
    ensures Discards(s, Apply(s, step))
  {
    if step.UserCall? && !step.action.Send? && !step.action.Resend? {
      OtherCallDiscards(s, step.action, 0);
      hide Act;
    }
  }

  lemma {:induction false} FailureDiscards(s: State)
    ensures Discards(s, ReadFailure(s))
  {
  }

  /** All calls performed in a run, those of result functions when they ran. */
  function Performed(steps: seq<Step>): seq<Action> {
    if steps == [] then []
    else
      var before, step := steps[..|steps| - 1], steps[|steps| - 1];
      Performed(before) + Admitted(Run(before), step) + Joined(Quotes(New(Run(before), Run(steps))))
  }

  /** The commands a run accepts are its submissions: all of them, in order, field by field. */
  lemma {:induction false} SubmissionsAreAccepted(steps: seq<Step>)
    requires Legal(steps)
    ensures Entries(Run(steps).log) == Offers(Performed(steps))
  {
    if steps != [] {
      var before, step := steps[..|steps| - 1], steps[|steps| - 1];
      SubmissionsAreAccepted(before);
      StepMakes(Run(before), step);
      NextEntries(Run(before).log, Run(steps).log, Performed(before), Admitted(Run(before), step));
    }
  }

  lemma {:induction false} NextEntries(past: seq<Event>, now: seq<Event>, done: seq<Action>, direct: seq<Action>)
    requires past <= now && Entries(past) == Offers(done)
    requires Entries(now[|past|..]) == Offers(direct + Joined(Quotes(now[|past|..])))
    ensures Entries(now) == Offers(done + direct + Joined(Quotes(now[|past|..])))
  {
    var more := now[|past|..];
    var said := Joined(Quotes(more));
    hide Entries, Offers, Quotes, Joined;
    assert past + more == now;
    EntriesJoin(past, more);
    OffersJoin(done, direct + said);
    assert done + direct + said == done + (direct + said);
  }

  /** A result function runs once, with the id of its command at hand, before the command is destroyed. */
  lemma {:induction false} CallbackIsExact(s: State, c: Command, status: byte, rx: seq<byte>, script: Script)
    ensures !c.func ==> Deliver(s, c, status, rx, script) == s.(log := s.log + [Destroyed(c)])
    ensures c.func ==>
              var t := RunScript(s.(log := s.log + [Called(c, status, rx, script)]), script, c.id);
              Deliver(s, c, status, rx, script) == t.(log := t.log + [Destroyed(c)])
  {
    hide RunScript;
  }
}
