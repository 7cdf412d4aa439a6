/**
 What the scheduler does with the contents of a command: every PDU on the wire
 is one that a caller submitted, each is written at most once and not after a
 cancel, and a result function is told what its own reply says.  Nothing here
 depends on how callers behave, so the statements hold for all runs.
 */
module SchedulerContent {
  import opened Octets
  import opened Scheduler
  import opened Ledger
  import opened SchedulerSafety

  /**
   A second reading of the log, by contents.  `sheet` lists the commands as they
   were accepted, `spent` those that were written or cancelled.
   */
  datatype Manifest = Manifest(ok: bool, sheet: seq<Command>, spent: set<nat>)

  /** The same command later: only `sent` may have been set and `func` cleared. */
  predicate Later(a: Command, c: Command) {
    c == a.(sent := c.sent, func := c.func) && (c.func ==> a.func)
  }

  predicate Known(m: Manifest, c: Command) {
    c.serial < |m.sheet| && Later(m.sheet[c.serial], c)
  }

  /**
   The status told with a reply: the error code of an error response, 0 for the
   response that belongs to the request, and otherwise an I/O error.  Without a
   reply it is a time-out or an abort.
   */
  predicate Honest(c: Command, status: byte, rx: seq<byte>) {
    if rx == [] then status == 0x81 || status == 0x82
    else status == if At(rx, 0) == 0x01 then At(rx, 4)
                   else if Asks(c.opcode) && At(rx, 0) == c.opcode + 1 then 0 else 0x80
  }

  function Enter(m: Manifest, e: Event): Manifest {
    match e
    case Accepted(c) => m.(ok := m.ok && c.serial == |m.sheet| && Classified(c) && !c.sent, sheet := m.sheet + [c])
    case Wrote(c) => m.(ok := m.ok && Known(m, c) && c.serial !in m.spent, spent := m.spent + {c.serial})
    case Cancelled(c) => m.(ok := m.ok && Known(m, c), spent := m.spent + {c.serial})
    case Called(c, status, rx, _) => m.(ok := m.ok && Known(m, c) && c.func && Honest(c, status, rx))
    case Destroyed(c) => m.(ok := m.ok && Known(m, c))
    case Replied(_, c) => m.(ok := m.ok && (c.Some? ==> Known(m, c.value)))
  }

  function Read(log: seq<Event>): Manifest {
    if log == [] then Manifest(true, [], {}) else Enter(Read(log[..|log| - 1]), log[|log| - 1])
  }

  lemma {:induction false} ReadAppend(log: seq<Event>, e: Event)
    ensures Read(log + [e]) == Enter(Read(log), e)
  {
    assert (log + [e])[..|log|] == log;
  }

  // ----- what a good reading means, in terms of positions in the log -----

  lemma {:induction false} ReadPrefix(log: seq<Event>, n: nat)
    requires n <= |log|
    ensures Read(log).ok ==> Read(log[..n]).ok
    ensures Read(log[..n]).sheet <= Read(log).sheet && Read(log[..n]).spent <= Read(log).spent
  {
    hide Known, Honest, Classified;
    if n < |log| {
      ReadPrefix(log[..|log| - 1], n);
      assert log[..|log| - 1][..n] == log[..n];
    } else {
      assert log[..n] == log;
    }
  }

  lemma {:induction false} SheetIsLogged(log: seq<Event>, u: nat)
    requires Read(log).ok && u < |Read(log).sheet|
    ensures exists i :: 0 <= i < |log| && log[i] == Accepted(Read(log).sheet[u]) && log[i].cmd.serial == u
  {
    hide Known, Honest, Classified;
    var before := log[..|log| - 1];
    if u < |Read(before).sheet| {
      SheetIsLogged(before, u);
      var i :| 0 <= i < |before| && before[i] == Accepted(Read(before).sheet[u]) && before[i].cmd.serial == u;
      assert log[i] == before[i];
    } else {
      assert log[|log| - 1].Accepted?;
    }
  }

  /** The command of an event other than an acceptance is one accepted before. */
  lemma {:induction false} EventIsAboutAccepted(log: seq<Event>, j: nat)
    requires Read(log).ok && j < |log| && !log[j].Accepted? && !log[j].Replied?
    ensures exists i :: 0 <= i < j && log[i].Accepted? && log[i].cmd.serial == log[j].cmd.serial
                     && Later(log[i].cmd, log[j].cmd)
    ensures log[j].Called? ==> log[j].cmd.func && Honest(log[j].cmd, log[j].status, log[j].rx)
    ensures log[j].Wrote? ==> log[j].cmd.serial !in Read(log[..j]).spent
  {
    ReadPrefix(log, j + 1);
    assert log[..j + 1][..j] == log[..j];
    assert Known(Read(log[..j]), log[j].cmd);
    hide Enter, Honest, Later;
    var u := log[j].cmd.serial;
    SheetIsLogged(log[..j], u);
    var i :| 0 <= i < j && log[..j][i] == Accepted(Read(log[..j]).sheet[u]) && log[..j][i].cmd.serial == u;
    assert log[i] == log[..j][i];
  }

  /** A command that was written or cancelled is not written afterwards. */
  lemma {:induction false} SpentIsFinal(log: seq<Event>, i: nat, j: nat)
    requires Read(log).ok && i < j < |log| && (log[i].Wrote? || log[i].Cancelled?) && log[j].Wrote?
    ensures log[i].cmd.serial != log[j].cmd.serial
  {
    EventIsAboutAccepted(log, j);
    hide Known, Honest, Classified, Later;
    ReadPrefix(log[..j], i + 1);
    assert log[..j][..i + 1] == log[..i + 1] && log[..i + 1][i] == log[i];
  }

  // ----- what every operation keeps -----

  /** A queue holds known commands, those not in flight neither written nor cancelled. */
  ghost predicate Stocked(q: seq<Command>, m: Manifest, response: bool) {
    && Distinct(q)
    && forall i :: 0 <= i < |q| ==>
         && Known(m, q[i]) && q[i].response == response
         && (q[i].serial in m.spent ==> q[i].sent && !response)
  }

  ghost predicate Stock(m: Manifest, rq: seq<Command>, rs: seq<Command>) {
    && m.ok && Stocked(rq, m, false) && Stocked(rs, m, true)
    && forall u :: u in m.spent ==> u < |m.sheet|
  }

  ghost predicate Content(s: State) {
    |Read(s.log).sheet| == s.accepted && Stock(Read(s.log), s.requests, s.responses)
  }

  lemma {:induction false} StockedPush(q: seq<Command>, m: Manifest, c: Command)
    requires Stocked(q, m, c.response) && c.serial == |m.sheet| && !c.sent && c.serial !in m.spent
    ensures var n := m.(sheet := m.sheet + [c]);
            Stocked(q + [c], n, c.response) && Stocked([c] + q, n, c.response)
  {
    hide Later;
    StockedLonger(q, m, c, c.response);
    assert Later(c, c) by { LaterItself(c); }
    forall i | 0 <= i < |q| ensures q[i].serial != c.serial {}
  }

  lemma {:induction false} LaterItself(c: Command)
    ensures Later(c, c)
  {
  }

  lemma {:induction false} StockedLonger(q: seq<Command>, m: Manifest, c: Command, response: bool)
    requires Stocked(q, m, response)
    ensures Stocked(q, m.(sheet := m.sheet + [c]), response)
  {
    hide Later, Distinct;
    var n := m.(sheet := m.sheet + [c]);
    forall i | 0 <= i < |q| ensures Known(n, q[i]) {}
  }

  lemma {:induction false} AcceptStocks(m: Manifest, rq: seq<Command>, rs: seq<Command>, c: Command)
    requires Stock(m, rq, rs) && c.serial == |m.sheet| && Classified(c) && !c.sent
    ensures var n := Enter(m, Accepted(c));
            if c.response then Stock(n, rq, rs + [c]) else Stock(n, rq + [c], rs) && Stock(n, [c] + rq, rs)
  {
    hide Stocked, Classified;
    if c.response { StockedPush(rs, m, c); } else { StockedPush(rq, m, c); }
    StockedLonger(rq, m, c, false);
    StockedLonger(rs, m, c, true);
  }

  lemma {:induction false} StockedRemoval(q: seq<Command>, m: Manifest, response: bool, i: nat)
    requires i < |q| && Stocked(q, m, response)
    ensures Known(m, q[i]) && q[i].response == response
    ensures Stocked(RemoveAt(q, i), m, response)
    ensures Stocked(RemoveAt(q, i), m.(spent := m.spent + {q[i].serial}), response)
    ensures i == 0 ==> RemoveAt(q, i) == q[1..]
  {
    hide Known;
    RemovalAt(q, i);
    var r := RemoveAt(q, i);
    assert i == 0 ==> r == q[1..];
    hide RemoveAt;
    var n := m.(spent := m.spent + {q[i].serial});
    forall k | 0 <= k < |r| ensures r[k].serial != q[i].serial && Known(n, r[k]) {
      SheetDecides(m, n, r[k]);
    }
  }

  lemma {:induction false} SheetDecides(m: Manifest, n: Manifest, c: Command)
    requires m.sheet <= n.sheet
    ensures Known(m, c) ==> Known(n, c)
  {
  }

  /** Requests and responses are different commands. */
  lemma {:induction false} OtherQueueKeeps(q: seq<Command>, m: Manifest, response: bool, c: Command)
    requires Stocked(q, m, response) && Known(m, c) && c.response != response
    ensures Stocked(q, m.(spent := m.spent + {c.serial}), response)
  {
    var n := m.(spent := m.spent + {c.serial});
    forall i | 0 <= i < |q| ensures q[i].serial != c.serial && Known(n, q[i]) {}
  }

  /** An event that only reads: the command is known already. */
  lemma {:induction false} StockedSame(q: seq<Command>, m: Manifest, n: Manifest, response: bool)
    requires Stocked(q, m, response) && n.sheet == m.sheet && n.spent == m.spent
    ensures Stocked(q, n, response)
  {
    hide Known;
    forall i | 0 <= i < |q| ensures Known(n, q[i]) { SheetDecides(m, n, q[i]); }
  }

  lemma {:induction false} EnterStocks(m: Manifest, rq: seq<Command>, rs: seq<Command>, e: Event)
    requires Stock(m, rq, rs) && !e.Accepted? && !e.Wrote? && !e.Cancelled? && (m.ok ==> Enter(m, e).ok)
    ensures Stock(Enter(m, e), rq, rs)
  {
    hide Stocked, Known, Honest;
    StockedSame(rq, m, Enter(m, e), false);
    StockedSame(rs, m, Enter(m, e), true);
  }

  /** A request leaves its queue, is written or cancelled, or both. */
  lemma {:induction false} RequestLeaves(m: Manifest, rq: seq<Command>, rs: seq<Command>, i: nat)
    requires i < |rq| && Stock(m, rq, rs)
    ensures Known(m, rq[i]) && rq[i].serial < |m.sheet|
    ensures Stock(m, RemoveAt(rq, i), rs)
    ensures Stock(m.(spent := m.spent + {rq[i].serial}), RemoveAt(rq, i), rs)
    ensures !rq[i].sent ==> rq[i].serial !in m.spent
    ensures i == 0 ==> RemoveAt(rq, i) == rq[1..]
  {
    assert !rq[i].sent ==> rq[i].serial !in m.spent;
    assert rq[i].serial < |m.sheet|;
    hide Stocked, Known, RemoveAt;
    StockedRemoval(rq, m, false, i);
    OtherQueueKeeps(rs, m, true, rq[i]);
  }

  lemma {:induction false} ResponseLeaves(m: Manifest, rq: seq<Command>, rs: seq<Command>, i: nat)
    requires i < |rs| && Stock(m, rq, rs)
    ensures Known(m, rs[i]) && rs[i].serial < |m.sheet|
    ensures Stock(m, rq, RemoveAt(rs, i))
    ensures Stock(m.(spent := m.spent + {rs[i].serial}), rq, RemoveAt(rs, i))
    ensures rs[i].serial !in m.spent
    ensures i == 0 ==> RemoveAt(rs, i) == rs[1..]
  {
    assert rs[i].serial !in m.spent;
    assert rs[i].serial < |m.sheet|;
    hide Stocked, Known, RemoveAt;
    StockedRemoval(rs, m, true, i);
    OtherQueueKeeps(rq, m, false, rs[i]);
  }

  /** The head is written and stays, or is cancelled and stays. */
  lemma {:induction false} HeadStays(m: Manifest, rq: seq<Command>, rs: seq<Command>, c: Command)
    requires rq != [] && Stock(m, rq, rs) && (c == rq[0].(sent := true) || (rq[0].sent && c == rq[0].(func := false)))
    ensures Stock(m.(spent := m.spent + {c.serial}), rq[0 := c], rs)
  {
    RequestLeaves(m, rq, rs, 0);
    OtherQueueKeeps(rs, m, true, rq[0]);
    var n := m.(spent := m.spent + {c.serial});
    var r := rq[0 := c];
    assert Known(n, c);
    forall i | 0 < i < |r| ensures r[i] == rq[i] == rq[1..][i - 1] {}
    assert Stocked(rq[1..], n, false);
    hide Known;
  }

  // ----- calls and their submissions -----

  /** The command that a call submits, field by field. */
  predicate Submits(a: Action, c: Command) {
    && (a.Send? || a.Resend?)
    && c.opcode == a.opcode && c.pdu == a.pdu && c.func == a.func && c.notify == a.notify && c.role == a.role
  }

  ghost predicate Submitted(c: Command, calls: seq<Action>) {
    exists k :: 0 <= k < |calls| && Submits(calls[k], c)
  }

  /** From s to t the contents are kept, the log only grows, and what it accepts is submitted by `calls`. */
  ghost predicate Faithful(s: State, t: State, calls: seq<Action>) {
    Content(s) ==>
      && Content(t) && s.log <= t.log
      && forall i :: |s.log| <= i < |t.log| && t.log[i].Accepted? ==> Submitted(t.log[i].cmd, calls)
  }

  lemma {:induction false} FaithfulThen(s: State, t: State, u: State, calls: seq<Action>, more: seq<Action>)
    requires Faithful(s, t, calls) && Faithful(t, u, more)
    ensures Faithful(s, u, calls + more)
  {
    hide Content, Submits;
    var all := calls + more;
    forall i | Content(s) && |s.log| <= i < |u.log| && u.log[i].Accepted? ensures Submitted(u.log[i].cmd, all) {
      if i < |t.log| {
        assert u.log[i] == t.log[i];
        var k :| 0 <= k < |calls| && Submits(calls[k], u.log[i].cmd);
        assert all[k] == calls[k];
      } else {
        var k :| 0 <= k < |more| && Submits(more[k], u.log[i].cmd);
        assert all[|calls| + k] == more[k];
      }
    }
  }

  /** A state that differs only in what contents do not depend on. */
  lemma {:induction false} FaithfulFrame(s: State, t: State)
    requires t.requests == s.requests && t.responses == s.responses && t.log == s.log && t.accepted == s.accepted
    ensures Faithful(s, t, [])
  {
    hide Stock, Read;
  }

  /** Without submissions before or after. */
  lemma {:induction false} FaithfulAround(s: State, t: State, u: State, calls: seq<Action>)
    ensures Faithful(s, t, calls) && Faithful(t, u, []) ==> Faithful(s, u, calls)
    ensures Faithful(s, t, []) && Faithful(t, u, calls) ==> Faithful(s, u, calls)
  {
    hide Faithful;
    assert calls + [] == calls && [] + calls == calls;
    if Faithful(s, t, calls) && Faithful(t, u, []) { FaithfulThen(s, t, u, calls, []); }
    if Faithful(s, t, []) && Faithful(t, u, calls) { FaithfulThen(s, t, u, [], calls); }
  }

  /** What was accepted stays on the sheet. */
  lemma {:induction false} StillKnown(s: State, t: State, c: Command)
    requires s.log <= t.log && Known(Read(s.log), c)
    ensures Known(Read(t.log), c)
  {
    hide Known;
    ReadPrefix(t.log, |s.log|);
    assert t.log[..|s.log|] == s.log;
    SheetDecides(Read(s.log), Read(t.log), c);
  }

  lemma {:induction false} EnqueueIsFaithful(s: State, id: nat, a: Action)
    requires a.Send? || a.Resend?
    ensures Faithful(s, Enqueue(s, id, a), [a])
  {
    if s.stale {
      FaithfulFrame(s, s);
    } else {
      var c, t := NewCommand(s, id, a), Enqueue(s, id, a);
      OpcodeTables(a.opcode);
      assert Classified(c) && Submits(a, c) && c.serial == s.accepted && !c.sent;
      assert t.log == s.log + [Accepted(c)] && t.accepted == s.accepted + 1;
      ReadAppend(s.log, Accepted(c));
      assert t.responses == (if c.response then s.responses + [c] else s.responses);
      assert t.requests == (if c.response then s.requests else if c.tail then s.requests + [c] else [c] + s.requests);
      hide Enqueue, NewCommand, Classified, Submits, Stock, Read;
      if Content(s) { AcceptStocks(Read(s.log), s.requests, s.responses, c); }
      assert [a][0] == a;
    }
  }

  lemma {:induction false} CancelRequestIsFaithful(s: State, i: nat)
    requires i < |s.requests|
    ensures Faithful(s, CancelRequest(s, i), [])
  {
    hide Faithful, RemoveAt;
    if i == 0 && s.requests[i].sent { SilencedIsFaithful(s); } else { DroppedIsFaithful(s, i); }
  }

  lemma {:induction false} SilencedIsFaithful(s: State)
    requires s.requests != [] && s.requests[0].sent
    ensures var c := s.requests[0];
            Faithful(s, Note(s, Cancelled(c)).(requests := s.requests[0 := c.(func := false)]), [])
  {
    hide Stock, Known, RemoveAt, Read;
    var c := s.requests[0];
    ReadAppend(s.log, Cancelled(c));
    if Content(s) {
      RequestLeaves(Read(s.log), s.requests, s.responses, 0);
      HeadStays(Read(s.log), s.requests, s.responses, c.(func := false));
    }
  }

  lemma {:induction false} DroppedIsFaithful(s: State, i: nat)
    requires i < |s.requests|
    ensures var c := s.requests[i];
            Faithful(s, Note(Note(s, Cancelled(c)).(requests := RemoveAt(s.requests, i)), Destroyed(c)), [])
  {
    hide Stock, Known, RemoveAt, Read;
    var c := s.requests[i];
    ReadAppend(s.log, Cancelled(c));
    ReadAppend(s.log + [Cancelled(c)], Destroyed(c));
    if Content(s) {
      RequestLeaves(Read(s.log), s.requests, s.responses, i);
      KnownAndGone(Read(s.log), RemoveAt(s.requests, i), s.responses, c);
    }
  }

  /** A cancel followed by the destruction. */
  lemma {:induction false} KnownAndGone(m: Manifest, rq: seq<Command>, rs: seq<Command>, c: Command)
    requires Known(m, c) && Stock(m.(spent := m.spent + {c.serial}), rq, rs)
    ensures Enter(Enter(m, Cancelled(c)), Destroyed(c)) == m.(spent := m.spent + {c.serial})
  {
    hide Stocked;
  }

  lemma {:induction false} CancelResponseIsFaithful(s: State, i: nat)
    requires i < |s.responses|
    ensures Faithful(s, CancelResponse(s, i), [])
  {
    hide Stock, Known, RemoveAt, Read;
    var c, m := s.responses[i], Read(s.log);
    ReadAppend(s.log, Cancelled(c));
    ReadAppend(s.log + [Cancelled(c)], Destroyed(c));
    if Content(s) {
      ResponseLeaves(m, s.requests, s.responses, i);
      KnownAndGone(m, s.requests, RemoveAt(s.responses, i), c);
    }
  }

  lemma {:induction false} CancelByIdIsFaithful(s: State, id: nat)
    ensures Faithful(s, CancelById(s, id), [])
  {
    hide Faithful, CancelRequest, CancelResponse;
    var i, j := IndexOfId(s.requests, id), IndexOfId(s.responses, id);
    FaithfulFrame(s, s);
    if i >= 0 { CancelRequestIsFaithful(s, i); } else if j >= 0 { CancelResponseIsFaithful(s, j); }
  }

  lemma {:induction false} CancelRequestsFromIsFaithful(s: State, keep: nat)
    ensures Faithful(s, CancelRequestsFrom(s, keep), [])
    decreases |s.requests|
  {
    FaithfulFrame(s, s);
    hide Faithful;
    if keep < |s.requests| && !(keep == 0 && s.requests[0].sent) {
      var t := CancelRequest(s, keep);
      CancelRequestIsFaithful(s, keep);
      assert |t.requests| < |s.requests|;
      hide CancelRequest;
      CancelRequestsFromIsFaithful(t, keep);
      FaithfulAround(s, t, CancelRequestsFrom(s, keep), []);
    }
  }

  lemma {:induction false} CancelAllResponsesIsFaithful(s: State)
    ensures Faithful(s, CancelAllResponses(s), [])
    decreases |s.responses|
  {
    FaithfulFrame(s, s);
    hide Faithful;
    if s.responses != [] {
      var t := CancelResponse(s, 0);
      CancelResponseIsFaithful(s, 0);
      CancelAllResponsesIsFaithful(t);
      FaithfulAround(s, t, CancelAllResponses(s), []);
    }
  }

  lemma {:induction false} CancelAllIsFaithful(s: State)
    ensures Faithful(s, CancelAllResponses(CancelAllRequests(s)), [])
  {
    hide Faithful, CancelRequest, CancelRequestsFrom;
    FaithfulFrame(s, s);
    var flying := InFlight(s.requests).Some?;
    var t := s;
    if flying { CancelRequestIsFaithful(s, 0); t := CancelRequest(s, 0); }
    var u := CancelAllRequests(s);
    CancelRequestsFromIsFaithful(t, if flying then 1 else 0);
    FaithfulAround(s, t, u, []);
    CancelAllResponsesIsFaithful(u);
    FaithfulAround(s, u, CancelAllResponses(u), []);
  }

  lemma {:induction false} DestroyAllIsFaithful(s: State)
    ensures Faithful(s, DestroyAll(s), [])
    decreases |s.requests| + |s.responses|
  {
    hide Faithful;
    if s.requests != [] {
      var t := Note(s.(requests := s.requests[1..]), Destroyed(s.requests[0]));
      TakenRequest(s, t, Destroyed(s.requests[0]));
      DestroyAllIsFaithful(t);
      FaithfulAround(s, t, DestroyAll(s), []);
    } else if s.responses != [] {
      var t := Note(s.(responses := s.responses[1..]), Destroyed(s.responses[0]));
      TakenResponse(s, t);
      DestroyAllIsFaithful(t);
      FaithfulAround(s, t, DestroyAll(s), []);
    } else {
      FaithfulFrame(s, DestroyAll(s));
    }
  }

  /** The head is taken off the requests and an event about it is noted. */
  lemma {:induction false} TakenRequest(s: State, t: State, e: Event)
    requires s.requests != [] && t.requests == s.requests[1..] && t.responses == s.responses && t.accepted == s.accepted
    requires t.log == s.log + [e]
    requires e == Destroyed(s.requests[0]) || (e.Replied? && e.consumer == Some(s.requests[0]))
    ensures Faithful(s, t, []) && (Content(s) ==> Known(Read(t.log), s.requests[0]))
  {
    hide Stock, Known, RemoveAt, Read, Honest;
    ReadAppend(s.log, e);
    if Content(s) {
      RequestLeaves(Read(s.log), s.requests, s.responses, 0);
      EnterStocks(Read(s.log), t.requests, t.responses, e);
      SheetDecides(Read(s.log), Read(t.log), s.requests[0]);
    }
  }

  lemma {:induction false} TakenResponse(s: State, t: State)
    requires s.responses != [] && t.responses == s.responses[1..] && t.requests == s.requests
             && t.accepted == s.accepted
    requires t.log == s.log + [Destroyed(s.responses[0])]
    ensures Faithful(s, t, [])
  {
    hide Stock, Known, RemoveAt, Read;
    ReadAppend(s.log, Destroyed(s.responses[0]));
    if Content(s) {
      ResponseLeaves(Read(s.log), s.requests, s.responses, 0);
      EnterStocks(Read(s.log), t.requests, t.responses, Destroyed(s.responses[0]));
    }
  }

  lemma {:induction false} ReleaseIsFaithful(s: State)
    ensures Faithful(s, Release(s), [])
  {
    hide Faithful, DestroyAll;
    var t := s.(refs := s.refs - 1);
    FaithfulFrame(s, t);
    DestroyAllIsFaithful(t);
    FaithfulAround(s, t, DestroyAll(t), []);
  }

  lemma {:induction false} ActIsFaithful(s: State, a: Action, own: nat)
    ensures Faithful(s, Act(s, a, own), [a])
  {
    hide Faithful, Enqueue, CancelById, CancelAllRequests, CancelAllResponses, Release;
    var t := Act(s, a, own);
    match a
    case Send(_, _, _, _, _) => EnqueueIsFaithful(s, 0, a);
    case Resend(_, _, _, _, _) => EnqueueIsFaithful(s, own, a);
    case Cancel(id) => CancelByIdIsFaithful(s, id); SubmitsNothing(s, t, a);
    case CancelAll => CancelAllIsFaithful(s); SubmitsNothing(s, t, a);
    case Hold => FaithfulFrame(s, t); SubmitsNothing(s, t, a);
    case Drop =>
      var d := s.(owners := s.owners - 1);
      FaithfulFrame(s, d);
      ReleaseIsFaithful(d);
      FaithfulAround(s, d, t, []);
      SubmitsNothing(s, t, a);
  }

  lemma {:induction false} SubmitsNothing(s: State, t: State, a: Action)
    requires Faithful(s, t, [])
    ensures Faithful(s, t, [a])
  {
    hide Content;
  }

  lemma {:induction false} RunScriptIsFaithful(s: State, script: Script, own: nat)
    ensures Faithful(s, RunScript(s, script, own), script)
    decreases script
  {
    if script == [] {
      FaithfulFrame(s, s);
    } else {
      var t := Act(s, script[0], own);
      hide Faithful, Act;
      ActIsFaithful(s, script[0], own);
      RunScriptIsFaithful(t, script[1..], own);
      FaithfulThen(s, t, RunScript(s, script, own), [script[0]], script[1..]);
      assert [script[0]] + script[1..] == script;
    }
  }

  // ----- steps of the main loop -----

  /** A note about a known command that is in no queue. */
  lemma {:induction false} NotedIsFaithful(s: State, e: Event)
    requires e.Called? || e.Destroyed?
    requires Content(s) ==> Enter(Read(s.log), e).ok
    ensures Faithful(s, Note(s, e), [])
  {
    hide Stock, Enter, Read;
    ReadAppend(s.log, e);
    if Content(s) {
      EnterStocks(Read(s.log), s.requests, s.responses, e);
      NoteKeepsSheet(Read(s.log), e);
    }
  }

  lemma {:induction false} NoteKeepsSheet(m: Manifest, e: Event)
    requires e.Called? || e.Destroyed?
    ensures Enter(m, e).sheet == m.sheet
  {
  }

  lemma {:induction false} DeliverIsFaithful(s: State, c: Command, status: byte, rx: seq<byte>, script: Script)
    requires Content(s) ==> Known(Read(s.log), c) && Honest(c, status, rx)
    ensures Faithful(s, Deliver(s, c, status, rx, script), if c.func then script else [])
  {
    var e := Called(c, status, rx, script);
    var t := if c.func then RunScript(Note(s, e), script, c.id) else s;
    var calls := if c.func then script else [];
    assert Content(s) && c.func ==> Enter(Read(s.log), e).ok by { hide Stocked, Known, Honest, Read; }
    hide Content, Known, Honest, RunScript, Read, Enter;
    if c.func {
      NotedIsFaithful(s, e);
      RunScriptIsFaithful(Note(s, e), script, c.id);
      FaithfulAround(s, Note(s, e), t, script);
    } else {
      FaithfulFrame(s, s);
    }
    if Content(s) {
      StillKnown(s, t, c);
      KnownMayGo(t, c);
    }
    DestroyedIsFaithful(s, t, c, calls);
  }

  lemma {:induction false} KnownMayGo(t: State, c: Command)
    requires Known(Read(t.log), c)
    ensures Content(t) ==> Enter(Read(t.log), Destroyed(c)).ok
  {
    hide Known, Read, Stocked;
  }

  lemma {:induction false} DestroyedIsFaithful(s: State, t: State, c: Command, calls: seq<Action>)
    requires Faithful(s, t, calls) && (Content(s) && Content(t) ==> Enter(Read(t.log), Destroyed(c)).ok)
    ensures Faithful(s, Note(t, Destroyed(c)), calls)
  {
    hide Content, Enter, Read;
    if Content(s) {
      NotedIsFaithful(t, Destroyed(c));
      FaithfulAround(s, t, Note(t, Destroyed(c)), calls);
    }
  }

  /** StatusOf is honest about the reply to a known command. */
  lemma {:induction false} StatusIsHonest(c: Command, rx: seq<byte>)
    requires Classified(c) && IsResponse(At(rx, 0))
    ensures Honest(c, StatusOf(c.expected, rx), rx)
  {
  }

  lemma {:induction false} KnownIsClassified(log: seq<Event>, c: Command)
    requires Read(log).ok && Known(Read(log), c)
    ensures Classified(c)
  {
    var u := c.serial;
    hide Enter, Classified, Honest;
    SheetIsLogged(log, u);
    var i :| 0 <= i < |log| && log[i] == Accepted(Read(log).sheet[u]) && log[i].cmd.serial == u;
    AcceptedIsClassified(log, i);
    LaterIsClassified(log[i].cmd, c);
  }

  lemma {:induction false} LaterIsClassified(a: Command, c: Command)
    requires Later(a, c) && Classified(a)
    ensures Classified(c)
  {
  }

  lemma {:induction false} AcceptedIsClassified(log: seq<Event>, i: nat)
    requires Read(log).ok && i < |log| && log[i].Accepted?
    ensures Classified(log[i].cmd) && !log[i].cmd.sent
  {
    ReadPrefix(log, i + 1);
    assert log[..i + 1][..i] == log[..i];
    hide Classified;
  }

  lemma {:induction false} AfterReplyIsFaithful(s: State, rx: seq<byte>, script: Script)
    requires IsResponse(At(rx, 0))
    ensures Faithful(s, AfterReply(s, rx, script), script)
  {
    if s.requests == [] {
      UnclaimedIsFaithful(s, rx, script);
    } else {
      var c, t := s.requests[0], PopReplied(s, rx);
      TakenRequest(s, t, Replied(rx, Some(c)));
      hide Faithful, Content, Known, Read, Honest, PopReplied, Deliver, StatusOf, IsResponse;
      var u := Deliver(t, c, StatusOf(c.expected, rx), rx, script);
      ClaimedIsFaithful(s, t, c, rx, script);
      FaithfulFrame(u, WakeUp(u));
      FaithfulAround(s, u, WakeUp(u), script);
    }
  }

  lemma {:induction false} ClaimedIsFaithful(s: State, t: State, c: Command, rx: seq<byte>, script: Script)
    requires IsResponse(At(rx, 0)) && Faithful(s, t, []) && (Content(s) ==> Known(Read(t.log), c))
    ensures Faithful(s, Deliver(t, c, StatusOf(c.expected, rx), rx, script), script)
  {
    var status := StatusOf(c.expected, rx);
    var u := Deliver(t, c, status, rx, script);
    hide Known, Read, Honest, Deliver, StatusOf, IsResponse, Submitted, Stocked;
    if Content(s) {
      KnownIsClassified(t.log, c);
      hide Content;
      StatusIsHonest(c, rx);
      DeliverIsFaithful(t, c, status, rx, script);
      hide Faithful;
      WithoutCalls(t, u, script);
      FaithfulAround(s, t, u, script);
    }
  }

  lemma {:induction false} WithoutCalls(s: State, t: State, calls: seq<Action>)
    ensures Faithful(s, t, []) ==> Faithful(s, t, calls)
  {
    hide Content;
  }

  lemma {:induction false} UnclaimedIsFaithful(s: State, rx: seq<byte>, script: Script)
    ensures Faithful(s, Note(s.(timer := None), Replied(rx, None)), script)
  {
    hide Stock, Read;
    ReadAppend(s.log, Replied(rx, None));
    if Content(s) { EnterStocks(Read(s.log), s.requests, s.responses, Replied(rx, None)); }
  }

  lemma {:induction false} ReadableIsFaithful(s: State, rx: seq<byte>, events: Script, script: Script)
    ensures Faithful(s, Readable(s, rx, events, script), events + script)
  {
    hide Faithful, RunScript, AfterReply;
    FaithfulFrame(s, s);
    WithoutCalls(s, s, events + script);
    var t, u := RunScript(s, events, 0), Readable(s, rx, events, script);
    if !s.stale {
      RunScriptIsFaithful(s, events, 0);
      if !t.dead && IsResponse(At(rx, 0)) {
        AfterReplyIsFaithful(t, rx, script);
      } else {
        FaithfulFrame(t, u);
        WithoutCalls(t, u, script);
      }
      FaithfulThen(s, t, u, events, script);
    }
  }

  /** A response or a command without reply is written and destroyed. */
  lemma {:induction false} ResponseIsFaithful(s: State)
    requires s.responses != []
    ensures Faithful(s, WriteResponse(s), [])
  {
    hide Stock, Known, RemoveAt, Read, Enter;
    if Content(s) {
      ResponseLeaves(Read(s.log), s.requests, s.responses, 0);
      WrittenAndGone(s.log, s.requests, s.responses[1..], s.responses[0]);
    }
  }

  lemma {:induction false} CommandIsFaithful(s: State)
    requires s.requests != [] && !s.requests[0].sent
    ensures Faithful(s, WriteCommand(s), [])
  {
    hide Stock, Known, RemoveAt, Read, Enter;
    if Content(s) {
      RequestLeaves(Read(s.log), s.requests, s.responses, 0);
      WrittenAndGone(s.log, s.requests[1..], s.responses, s.requests[0]);
    }
  }

  lemma {:induction false} WrittenAndGone(log: seq<Event>, rq: seq<Command>, rs: seq<Command>, c: Command)
    requires Known(Read(log), c) && c.serial !in Read(log).spent
    requires Stock(Read(log).(spent := Read(log).spent + {c.serial}), rq, rs)
    ensures var m := Read(log + [Wrote(c)] + [Destroyed(c)]); Stock(m, rq, rs) && |m.sheet| == |Read(log).sheet|
  {
    hide Stocked, Read;
    ReadAppend(log, Wrote(c));
    ReadAppend(log + [Wrote(c)], Destroyed(c));
    assert Read(log + [Wrote(c)] + [Destroyed(c)]) == Read(log).(spent := Read(log).spent + {c.serial});
  }

  lemma {:induction false} TransactionIsFaithful(s: State)
    requires s.requests != [] && !s.requests[0].sent
    ensures Faithful(s, WriteTransaction(s), [])
  {
    hide Stock, Known, RemoveAt, Read;
    var c := s.requests[0];
    ReadAppend(s.log, Wrote(c));
    if Content(s) {
      RequestLeaves(Read(s.log), s.requests, s.responses, 0);
      HeadStays(Read(s.log), s.requests, s.responses, c.(sent := true));
    }
  }

  lemma {:induction false} SleepIsFaithful(s: State, t: State)
    requires Faithful(s, t, [])
    ensures Faithful(s, Sleep(t), [])
  {
    hide Faithful, Release;
    FaithfulFrame(t, t.(watch := false));
    ReleaseIsFaithful(t.(watch := false));
    FaithfulAround(t, t.(watch := false), Sleep(t), []);
    FaithfulAround(s, t, Sleep(t), []);
  }

  lemma {:induction false} WritableIsFaithful(s: State, outcome: Outcome)
    ensures Faithful(s, Writable(s, outcome), [])
  {
    hide Faithful, Sleep, WriteResponse, WriteCommand, WriteTransaction;
    FaithfulFrame(s, s);
    FaithfulFrame(s, s.(faulted := true));
    SleepIsFaithful(s, s);
    SleepIsFaithful(s, s.(faulted := true));
    if s.responses != [] { ResponseIsFaithful(s); }
    if s.requests != [] && !s.requests[0].sent {
      CommandIsFaithful(s);
      TransactionIsFaithful(s);
      SleepIsFaithful(s, WriteTransaction(s));
    }
  }

  function Joined(scripts: seq<Script>): seq<Action> {
    if scripts == [] then [] else scripts[0] + Joined(scripts[1..])
  }

  lemma {:induction false} FlushIsFaithful(s: State, status: byte, scripts: seq<Script>)
    requires status == 0x81 || status == 0x82
    ensures Faithful(s, Flush(s, status, scripts), Joined(scripts))
    decreases |scripts|, |s.requests|
  {
    hide Deliver, Flush, Faithful, Content, Known, Read, Joined;
    FlushUnfolds(s, status, scripts);
    if s.requests == [] {
      FaithfulFrame(s, s);
      WithoutCalls(s, s, Joined(scripts));
    } else if !Content(s) {
      NothingToKeep(s, Flush(s, status, scripts), Joined(scripts));
    } else {
      var c := s.requests[0];
      var script := if c.func && scripts != [] then scripts[0] else [];
      var rest := if c.func && scripts != [] then scripts[1..] else scripts;
      var p := s.(requests := s.requests[1..]);
      var t := Deliver(p, c, status, [], script);
      PoppedIsFaithful(s);
      SilentDelivery(p, c, status);
      DeliverIsFaithful(p, c, status, [], script);
      FaithfulAround(s, p, t, if c.func then script else []);
      FlushIsFaithful(t, 0x82, rest);
      FaithfulThen(s, t, Flush(s, status, scripts), if c.func then script else [], Joined(rest));
      JoinedUnfolds(scripts);
    }
  }

  lemma {:induction false} NothingToKeep(s: State, t: State, calls: seq<Action>)
    requires !Content(s)
    ensures Faithful(s, t, calls)
  {
    hide Content;
  }

  lemma {:induction false} JoinedUnfolds(scripts: seq<Script>)
    ensures scripts != [] ==> Joined(scripts) == scripts[0] + Joined(scripts[1..])
    ensures [] + Joined(scripts) == Joined(scripts)
  {
  }

  lemma {:induction false} PoppedIsFaithful(s: State)
    requires s.requests != []
    ensures var p := s.(requests := s.requests[1..]);
            Faithful(s, p, []) && (Content(s) ==> Known(Read(p.log), s.requests[0]))
  {
    hide Stock, Known, RemoveAt, Read;
    if Content(s) { RequestLeaves(Read(s.log), s.requests, s.responses, 0); }
  }

  lemma {:induction false} FireIsFaithful(s: State, scripts: seq<Script>)
    ensures Faithful(s, Fire(s, scripts), Joined(scripts))
  {
    hide Faithful, Flush, Release, Joined;
    FaithfulFrame(s, Pin(s));
    FlushIsFaithful(Pin(s), ATT_ECODE_TIMEOUT, scripts);
    var f, calls := Flush(Pin(s), ATT_ECODE_TIMEOUT, scripts), Joined(scripts);
    var t := f.(stale := true, mem := f.mem.(pins := f.mem.pins - 1));
    var u := Release(t);
    FaithfulAround(s, Pin(s), f, calls);
    FaithfulFrame(f, t);
    FaithfulAround(s, f, t, calls);
    ReleaseIsFaithful(t);
    FaithfulAround(s, t, u, calls);
    FaithfulFrame(u, Fire(s, scripts));
    FaithfulAround(s, u, Fire(s, scripts), calls);
  }

  /** Every call that users or callbacks make in a step. */
  function CallsOf(step: Step): seq<Action> {
    match step
    case UserCall(a) => [a]
    case WritableStep(_) => []
    case ReadableStep(_, events, script) => events + script
    case ReadFailureStep => []
    case TimeoutStep(scripts) => Joined(scripts)
  }

  lemma {:induction false} StepIsFaithful(s: State, step: Step)
    ensures Faithful(s, Apply(s, step), CallsOf(step))
  {
    hide Faithful, Act, Writable, Readable, Fire, Joined;
    match step
    case UserCall(a) => ActIsFaithful(s, a, 0);
    case WritableStep(outcome) => WritableIsFaithful(s, outcome);
    case ReadableStep(rx, events, script) => ReadableIsFaithful(s, rx, events, script);
    case ReadFailureStep => FaithfulFrame(s, ReadFailure(s));
    case TimeoutStep(scripts) => FireIsFaithful(s, scripts);
  }

  // ----- whole runs -----

  lemma {:induction false} RunsKeepContent(steps: seq<Step>)
    ensures Content(Run(steps))
  {
    if steps != [] {
      var before := steps[..|steps| - 1];
      RunsKeepContent(before);
      hide Content;
      StepIsFaithful(Run(before), steps[|steps| - 1]);
    }
  }

  lemma {:induction false} LogsGrow(steps: seq<Step>, n: nat)
    requires n <= |steps|
    ensures Run(steps[..n]).log <= Run(steps).log
  {
    if n == |steps| {
      assert steps[..n] == steps;
    } else {
      var before := steps[..|steps| - 1];
      LogsGrow(before, n);
      assert before[..n] == steps[..n];
      RunsKeepContent(before);
      hide Content;
      StepIsFaithful(Run(before), steps[|steps| - 1]);
    }
  }

  /** The k-th step made the call that event i accepted. */
  ghost predicate CausedBy(steps: seq<Step>, i: nat, k: nat)
    requires k < |steps| && i < |Run(steps).log| && Run(steps).log[i].Accepted?
  {
    && |Run(steps[..k]).log| <= i < |Run(steps[..k + 1]).log|
    && Submitted(Run(steps).log[i].cmd, CallsOf(steps[k]))
  }

  /** A command is accepted only because a call in that very step submitted it, with these very contents. */
  lemma {:induction false} AcceptedWasSubmitted(steps: seq<Step>, i: nat)
    requires i < |Run(steps).log| && Run(steps).log[i].Accepted?
    ensures exists k :: 0 <= k < |steps| && CausedBy(steps, i, k)
  {
    assert steps[..|steps|] == steps;
    hide Run;
    CauseWithin(steps, i, |steps|);
  }

  lemma {:induction false} FreshIsSilent(steps: seq<Step>)
    requires steps == []
    ensures Run(steps).log == []
  {
  }

  lemma {:induction false} CauseWithin(steps: seq<Step>, i: nat, n: nat)
    requires n <= |steps| && i < |Run(steps[..n]).log| && i < |Run(steps).log| && Run(steps).log[i].Accepted?
    ensures exists k :: 0 <= k < |steps| && CausedBy(steps, i, k)
  {
    hide Run;
    if n == 0 { FreshIsSilent(steps[..n]); }
    if i < |Run(steps[..n - 1]).log| {
      hide CausedBy;
      CauseWithin(steps, i, n - 1);
    } else {
      CauseHere(steps, i, n - 1);
    }
  }

  lemma {:induction false} CauseHere(steps: seq<Step>, i: nat, k: nat)
    requires k < |steps| && i < |Run(steps).log| && Run(steps).log[i].Accepted?
    requires |Run(steps[..k]).log| <= i < |Run(steps[..k + 1]).log|
    ensures CausedBy(steps, i, k)
  {
    var before, upto := steps[..k], steps[..k + 1];
    LogsGrow(steps, k + 1);
    assert upto[..k] == before && upto[k] == steps[k];
    assert Run(upto) == Apply(Run(before), steps[k]);
    hide Run, Apply, Content, Submitted, CallsOf;
    RunsKeepContent(before);
    StepIsFaithful(Run(before), steps[k]);
    assert Run(upto).log[i] == Run(steps).log[i];
  }

  /**
   The wire carries what callers submit: each PDU written is, octet for octet,
   the one of a call made earlier in the run, and it belongs to the command
   accepted for that call.
   */
  lemma {:induction false} WireCarriesSubmissions(steps: seq<Step>, j: nat)
    requires j < |Run(steps).log| && Run(steps).log[j].Wrote?
    ensures exists i, k, n ::
              && 0 <= i < j && 0 <= k < |steps| && 0 <= n < |CallsOf(steps[k])|
              && |Run(steps[..k]).log| <= i < |Run(steps[..k + 1]).log|
              && Run(steps).log[i].Accepted? && Run(steps).log[i].cmd.serial == Run(steps).log[j].cmd.serial
              && Carries(Run(steps).log[i].cmd, Run(steps).log[j].cmd, CallsOf(steps[k])[n])
  {
    RunsKeepContent(steps);
    var log := Run(steps).log;
    assert Read(log).ok;
    hide Content, Read, Run, CallsOf;
    EventIsAboutAccepted(log, j);
    var i :| 0 <= i < j && log[i].Accepted? && log[i].cmd.serial == log[j].cmd.serial && Later(log[i].cmd, log[j].cmd);
    AcceptedWasSubmitted(steps, i);
    var k :| 0 <= k < |steps| && CausedBy(steps, i, k);
    var n :| 0 <= n < |CallsOf(steps[k])| && Submits(CallsOf(steps[k])[n], log[i].cmd);
    assert Carries(log[i].cmd, log[j].cmd, CallsOf(steps[k])[n]);
  }

  /** Accepted and written with the opcode and the octets of the call. */
  predicate Carries(a: Command, w: Command, call: Action) {
    (call.Send? || call.Resend?) && a.opcode == w.opcode == call.opcode && a.pdu == w.pdu == call.pdu
  }

  /** No command is written twice, and none is written after it was cancelled. */
  lemma {:induction false} WrittenAtMostOnce(steps: seq<Step>, i: nat, j: nat)
    requires i < j < |Run(steps).log| && Run(steps).log[j].Wrote?
    requires Run(steps).log[i].Wrote? || Run(steps).log[i].Cancelled?
    ensures Run(steps).log[i].cmd.serial != Run(steps).log[j].cmd.serial
  {
    RunsKeepContent(steps);
    SpentIsFinal(Run(steps).log, i, j);
  }

  /** Whatever happens to a command happens to one accepted before, whose contents have not changed. */
  lemma {:induction false} CommandsKeepTheirContents(steps: seq<Step>, j: nat)
    requires j < |Run(steps).log| && !Run(steps).log[j].Accepted? && !Run(steps).log[j].Replied?
    ensures exists i :: 0 <= i < j && Run(steps).log[i].Accepted? && Later(Run(steps).log[i].cmd, Run(steps).log[j].cmd)
    ensures Run(steps).log[j].Called? ==>
              Run(steps).log[j].cmd.func
              && Honest(Run(steps).log[j].cmd, Run(steps).log[j].status, Run(steps).log[j].rx)
  {
    RunsKeepContent(steps);
    EventIsAboutAccepted(Run(steps).log, j);
  }

  // ----- single calls, outright -----

  /** Position i holds the first command of the queue with this id. */
  ghost predicate First(q: seq<Command>, id: nat, i: nat) {
    i < |q| && q[i].id == id && forall k :: 0 <= k < i ==> q[k].id != id
  }

  ghost predicate Absent(q: seq<Command>, id: nat) {
    forall k :: 0 <= k < |q| ==> q[k].id != id
  }

  /**
   g_attrib_cancel: the first command with the id, requests before responses, is
   cancelled, and destroyed unless it is the request in flight, which only loses
   its result function.  Everything else stays as it is.
   */
  lemma {:induction false} CancelIsExact(s: State, id: nat, own: nat)
    ensures var t := Act(s, Cancel(id), own);
            && (Absent(s.requests, id) && Absent(s.responses, id) ==> t == s)
            && (forall i :: First(s.requests, id, i) ==> t == WithoutRequest(s, i))
            && (Absent(s.requests, id) ==> forall i :: First(s.responses, id, i) ==> t == WithoutResponse(s, i))
    ensures Absent(s.requests, id) || exists i :: First(s.requests, id, i)
    ensures Absent(s.responses, id) || exists i :: First(s.responses, id, i)
  {
    hide IndexOfId, CancelRequest, CancelResponse, WithoutRequest, WithoutResponse, First, Absent;
    FirstIsFound(s.requests, id);
    FirstIsFound(s.responses, id);
    var i, j := IndexOfId(s.requests, id), IndexOfId(s.responses, id);
    if i >= 0 { CancelledRequest(s, i); assert First(s.requests, id, i); }
    if j >= 0 { CancelledResponse(s, j); assert First(s.responses, id, j); }
  }

  lemma {:induction false} FirstIsFound(q: seq<Command>, id: nat)
    ensures Absent(q, id) <==> IndexOfId(q, id) < 0
    ensures forall i :: First(q, id, i) <==> i == IndexOfId(q, id)
  {
    forall i | First(q, id, i) ensures i == IndexOfId(q, id) {}
  }

  function WithoutRequest(s: State, i: nat): State {
    if i >= |s.requests| then s
    else
      var c := s.requests[i];
      if i == 0 && c.sent
      then s.(requests := [c.(func := false)] + s.requests[1..], log := s.log + [Cancelled(c)])
      else s.(requests := s.requests[..i] + s.requests[i + 1..], log := s.log + [Cancelled(c), Destroyed(c)])
  }

  function WithoutResponse(s: State, i: nat): State {
    if i >= |s.responses| then s
    else
      var c := s.responses[i];
      s.(responses := s.responses[..i] + s.responses[i + 1..], log := s.log + [Cancelled(c), Destroyed(c)])
  }

  lemma {:induction false} CancelledRequest(s: State, i: nat)
    requires i < |s.requests|
    ensures CancelRequest(s, i) == WithoutRequest(s, i)
  {
    var c := s.requests[i];
    assert i == 0 ==> s.requests[0 := c.(func := false)] == [c.(func := false)] + s.requests[1..];
    assert s.log + [Cancelled(c)] + [Destroyed(c)] == s.log + [Cancelled(c), Destroyed(c)];
  }

  lemma {:induction false} CancelledResponse(s: State, i: nat)
    requires i < |s.responses|
    ensures CancelResponse(s, i) == WithoutResponse(s, i)
  {
    var c := s.responses[i];
    assert s.log + [Cancelled(c)] + [Destroyed(c)] == s.log + [Cancelled(c), Destroyed(c)];
  }

  /** What g_attrib_send makes of its arguments; `id` is 0 unless a callback reuses the id of its command. */
  function AsSubmitted(s: State, id: nat, a: Action): Command
    requires a.Send? || a.Resend?
  {
    Command(s.accepted, if id != 0 then id else (s.nextId + 1) % 0x1_0000_0000, a.opcode,
            if Asks(a.opcode) then a.opcode + 1 else 0, Answers(a.opcode), id == 0 || Answers(a.opcode),
            a.pdu, false, a.func, a.notify, a.role)
  }

  /**
   g_attrib_send: refused on a stale connection, and otherwise the command is put
   on its queue, at the head if it reuses an id, and a queue that was empty has
   the sender woken.
   */
  lemma {:induction false} SendIsExact(s: State, a: Action, own: nat)
    requires (a.Send? || a.Resend?) && !s.dead
    ensures s.stale ==> Act(s, a, own) == s
    ensures !s.stale ==>
              var t, id := Act(s, a, own), if a.Resend? then own else 0;
              var c := AsSubmitted(s, id, a);
              var wake := if c.response then s.responses == [] else s.requests == [];
              && t.log == s.log + [Accepted(c)]
              && t.responses == (if c.response then s.responses + [c] else s.responses)
              && t.requests == (if c.response then s.requests
                                else if id == 0 then s.requests + [c] else [c] + s.requests)
              && t.nextId == (if id == 0 then c.id else s.nextId)
              && t.watch == (s.watch || wake) && t.refs == s.refs + (if wake && !s.watch then 1 else 0)
              && t == s.(log := t.log, responses := t.responses, requests := t.requests, nextId := t.nextId,
                         accepted := s.accepted + 1, watch := t.watch, refs := t.refs)
  {
    OpcodeTables(a.opcode);
    hide Asks, Answers, OpcodeToExpected, IsResponse;
  }

  /** Callbacks that run one after the other are one callback that makes all the calls. */
  lemma {:induction false} ScriptsCompose(s: State, a: Script, b: Script, own: nat)
    ensures RunScript(s, a + b, own) == RunScript(RunScript(s, a, own), b, own)
    ensures forall x: Action :: RunScript(s, [x], own) == Act(s, x, own)
    decreases a
  {
    hide Act;
    forall x: Action ensures RunScript(s, [x], own) == Act(s, x, own) { assert [x][1..] == []; }
    if a == [] {
      assert a + b == b;
    } else {
      assert (a + b)[0] == a[0] && (a + b)[1..] == a[1..] + b;
      ScriptsCompose(Act(s, a[0], own), a[1..], b, own);
    }
  }

  /** The command that goes out next: the oldest response, and without one the head of the requests. */
  function Next(s: State): Option<Command> {
    if s.responses != [] then Some(s.responses[0])
    else if s.requests != [] && !s.requests[0].sent then Some(s.requests[0]) else None
  }

  /** can_write_data writes exactly the next command if the write succeeds, and nothing otherwise. */
  lemma {:induction false} WritableIsExact(s: State, outcome: Outcome)
    requires !s.dead
    ensures var t := Writable(s, outcome);
            var writes := !s.stale && outcome.Done? && Next(s).Some?;
            && s.log + (if writes then [Wrote(Next(s).value)] else []) <= t.log
            && (forall i :: |s.log| + (if writes then 1 else 0) <= i < |t.log| ==> t.log[i].Destroyed?)
            && (t.watch <==> writes && s.watch && (s.responses != [] || Next(s).value.expected == 0))
  {
    hide DestroyAll;
    SleepDestroys(s);
    SleepDestroys(s.(faulted := true));
    if s.requests != [] { SleepDestroys(WriteTransaction(s)); }
    hide Sleep;
  }

  lemma {:induction false} SleepDestroys(s: State)
    ensures s.log <= Sleep(s).log && !Sleep(s).watch
    ensures forall i :: |s.log| <= i < |Sleep(s).log| ==> Sleep(s).log[i].Destroyed?
  {
    DestroysOnly(s.(watch := false, refs := s.refs - 1));
    hide DestroyAll;
  }

  lemma {:induction false} DestroysOnly(s: State)
    ensures var t := DestroyAll(s); s.log <= t.log && forall i :: |s.log| <= i < |t.log| ==> t.log[i].Destroyed?
    decreases |s.requests| + |s.responses|
  {
    if s.requests != [] {
      DestroysOnly(Note(s.(requests := s.requests[1..]), Destroyed(s.requests[0])));
    } else if s.responses != [] {
      DestroysOnly(Note(s.(responses := s.responses[1..]), Destroyed(s.responses[0])));
    }
  }

  /** After a fault the sender is woken again by a read that fails, or by a reply that leaves something queued. */
  lemma {:induction false} ReadsWake(s: State, rx: seq<byte>, script: Script)
    requires !s.dead
    ensures ReadFailure(s) == if !s.stale && (s.requests != [] || s.responses != []) then WakeUp(s) else s
    ensures WakeUp(s).watch && WakeUp(s).refs == s.refs + (if s.watch then 0 else 1)
    ensures |s.requests| > 1 || (s.requests != [] && s.responses != []) ==>
              var t := AfterReply(s, rx, script); t.dead || t.watch
  {
    hide Deliver;
  }
}
