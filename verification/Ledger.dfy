/**
 An auditor that reads the log of a run from left to right and keeps its own
 books.  It knows the rules of sections 3.3.2 and 3.3.3 of Bluetooth Core
 Specification Vol 3 Part F and the life cycle of a command, and nothing about
 queues, watches or timers.
 */
module Ledger {
  import opened Octets
  import opened Scheduler

  /**
   - live: accepted and not destroyed; answers: those of them that are responses
   - muted: cancelled, or whose result function has already run
   - open: the transaction waiting for its reply; reply: who consumed the last reply, and the reply
   - asked, answered: transactions written and replies consumed, in order
   - owed: transactions whose result function is set and has neither run nor been cancelled; lost: destroyed while owed
   - crowded: a request was written while another one, resent earlier, was waiting
   - resent: requests that reuse an id and are neither written nor destroyed
   - mark, answerMark: last command of each queue written in submission order
   */
  datatype Book = Book(
    ok: bool, next: nat, live: set<nat>, answers: set<nat>, muted: set<nat>, open: Option<nat>,
        reply: Option<(nat, seq<byte>)>,
    asked: seq<nat>, answered: seq<Option<nat>>, owed: set<nat>, lost: set<nat>, resent: set<nat>, crowded: bool,
        mark: int, answerMark: int)

  const EMPTY := Book(true, 0, {}, {}, {}, None, None, [], [], {}, {}, {}, false, -1, -1)

  function SerialOf(c: Option<Command>): Option<nat> {
    if c.Some? then Some(c.value.serial) else None
  }

  /**
   Requests have the even opcodes from 0x02 to 0x18; there is none at 0x14. An
   indication asks for a confirmation in the same way.
   */
  predicate Asks(op: byte) {
    (op % 2 == 0 && 0x02 <= op <= 0x18 && op != 0x14) || op == 0x1D
  }

  /** Responses have the odd opcodes up to 0x19; there is none at 0x15. */
  predicate Answers(op: byte) {
    (op % 2 == 1 && op <= 0x19 && op != 0x15) || op == 0x1E
  }

  /** The two opcode tables: what waits for a reply waits for the next opcode, and is not itself a reply. */
  lemma OpcodeTables(op: byte)
    ensures OpcodeToExpected(op) == if Asks(op) then op + 1 else 0
    ensures IsResponse(op) <==> Answers(op)
    ensures !(Asks(op) && Answers(op))
  {
  }

  /** Every response opcode is expected by exactly one request opcode, and an error response (0x01) by none. */
  lemma {:induction false} OneRequestPerResponse(op: byte)
    requires IsResponse(op)
    ensures op != 0x01 ==>
              exists q: byte :: OpcodeToExpected(q) == op && forall p: byte :: OpcodeToExpected(p) == op ==> p == q
    ensures op == 0x01 ==> forall p: byte :: OpcodeToExpected(p) != op
  {
    if op != 0x01 {
      var q: byte := op - 1;
      OpcodeTables(q);
      forall p: byte | OpcodeToExpected(p) == op ensures p == q { OpcodeTables(p); }
    }
  }

  /** The expected reply and the queue of a command follow from its opcode. */
  predicate Classified(c: Command) {
    c.expected == (if Asks(c.opcode) then c.opcode + 1 else 0) && c.response == Answers(c.opcode)
  }

  /** A command may be written: it is alive, in its turn, and no second transaction is opened. */
  predicate MayWrite(b: Book, c: Command) {
    && c.serial in b.live
    && (c.response ==> c.serial in b.answers && c.expected == 0 && c.serial > b.answerMark)
    && (!c.response ==> b.answers == {} && (c.tail ==> c.serial > b.mark && b.resent == {}))
    && (c.expected != 0 ==> b.open.None?)
  }

  predicate MayReply(b: Book, c: Option<Command>) {
    && (c.Some? ==> c.value.serial in b.live)
    && (b.open.Some? ==> SerialOf(c) == b.open)
  }

  /**
   A result function may run: once, before destruction, not after a cancel, on
   its own reply, with an honest status.
   */
  predicate MayCall(b: Book, c: Command, status: byte, rx: seq<byte>) {
    && c.serial in b.live
    && c.serial !in b.muted
    && (rx != [] ==> b.reply == Some((c.serial, rx)))
    && (rx == [] ==> status == ATT_ECODE_TIMEOUT || status == ATT_ECODE_ABORTED)
    && (status == 0 ==> At(rx, 0) == c.expected || (At(rx, 0) == ATT_OP_ERROR && At(rx, 4) == 0))
  }

  /** A popped command whose result function is set may have it run; one whose function is cleared is not owed it. */
  predicate Due(b: Book, c: Command, status: byte, rx: seq<byte>) {
    if c.func then MayCall(b, c, status, rx) else c.serial !in b.owed
  }

  function Post(b: Book, e: Event): Book {
    match e
    case Accepted(c) =>
      b.(ok := b.ok && c.serial == b.next && Classified(c), next := b.next + 1, live := b.live + {c.serial},
         answers := if c.response then b.answers + {c.serial} else b.answers,
         owed := if c.func && c.expected != 0 then b.owed + {c.serial} else b.owed,
         resent := if !c.response && !c.tail then b.resent + {c.serial} else b.resent)
    case Wrote(c) =>
      b.(ok := b.ok && MayWrite(b, c),
         open := if c.expected != 0 then Some(c.serial) else b.open,
         asked := if c.expected != 0 then b.asked + [c.serial] else b.asked,
         resent := b.resent - {c.serial},
         crowded := b.crowded || (!c.response && !(b.resent <= {c.serial})),
         mark := if !c.response && c.tail then c.serial else b.mark,
         answerMark := if c.response then c.serial else b.answerMark)
    case Replied(rx, c) =>
      b.(ok := b.ok && MayReply(b, c), open := None, reply := if c.Some? then Some((c.value.serial, rx))
          else None, answered := b.answered + [SerialOf(c)])
    case Cancelled(c) =>
      b.(ok := b.ok && c.serial in b.live, muted := b.muted + {c.serial}, owed := b.owed - {c.serial})
    case Called(c, status, rx, _) =>
      b.(ok := b.ok && MayCall(b, c, status, rx), muted := b.muted + {c.serial}, owed := b.owed - {c.serial},
          reply := None)
    case Destroyed(c) =>
      b.(ok := b.ok && c.serial in b.live, live := b.live - {c.serial}, answers := b.answers - {c.serial},
          resent := b.resent - {c.serial},
         owed := b.owed - {c.serial}, lost := if c.serial in b.owed then b.lost + {c.serial} else b.lost)
  }

  function Audit(log: seq<Event>): Book {
    if log == [] then EMPTY else Post(Audit(log[..|log| - 1]), log[|log| - 1])
  }

  lemma {:induction false} AuditAppend(log: seq<Event>, e: Event)
    ensures Audit(log + [e]) == Post(Audit(log), e)
  {
    assert (log + [e])[..|log|] == log;
  }

  /** The command an event is about. */
  function SubjectOf(e: Event): Option<nat> {
    match e
    case Replied(_, c) => SerialOf(c)
    case _ => Some(e.cmd.serial)
  }

  // ----- what an accepted log means, in terms of positions in it -----

  lemma {:induction false} PrefixOk(log: seq<Event>, n: nat)
    requires Audit(log).ok && n <= |log|
    ensures Audit(log[..n]).ok
  {
    if n < |log| {
      PrefixOk(log[..|log| - 1], n);
      assert log[..|log| - 1][..n] == log[..n];
    } else {
      assert log[..n] == log;
    }
  }

  lemma {:induction false} LiveBound(log: seq<Event>)
    requires Audit(log).ok
    ensures forall u :: u in Audit(log).live ==> u < Audit(log).next
  {
    if log != [] { LiveBound(log[..|log| - 1]); }
  }

  /** A destroyed command is never heard of again: no second destruction, no callback, no write. */
  lemma {:induction false} DestroyedIsFinal(log: seq<Event>, i: nat)
    requires Audit(log).ok && i < |log| && log[i].Destroyed?
    ensures log[i].cmd.serial < Audit(log).next && log[i].cmd.serial !in Audit(log).live
    ensures forall j :: i < j < |log| ==> SubjectOf(log[j]) != Some(log[i].cmd.serial)
  {
    var before, e := log[..|log| - 1], log[|log| - 1];
    assert Audit(log) == Post(Audit(before), e);
    PrefixOk(log, |log| - 1);
    LiveBound(before);
    hide Audit;
    if i < |log| - 1 {
      assert before[i] == log[i];
      DestroyedIsFinal(before, i);
      GoneStep(Audit(before), e, log[i].cmd.serial);
      hide Post;
      forall j | i < j < |log| ensures SubjectOf(log[j]) != Some(log[i].cmd.serial) {
        if j < |log| - 1 { assert before[j] == log[j]; }
      }
    }
  }

  lemma {:induction false} GoneStep(b: Book, e: Event, u: nat)
    requires Post(b, e).ok && u < b.next && u !in b.live
    ensures u < Post(b, e).next && u !in Post(b, e).live && SubjectOf(e) != Some(u)
  {
    hide Classified;
  }

  /** A result function runs at most once, and not after its command was cancelled. */
  lemma {:induction false} MutedIsFinal(log: seq<Event>, i: nat)
    requires Audit(log).ok && i < |log| && (log[i].Called? || log[i].Cancelled?)
    ensures log[i].cmd.serial in Audit(log).muted
    ensures forall j :: i < j < |log| && log[j].Called? ==> log[j].cmd.serial != log[i].cmd.serial
  {
    var before := log[..|log| - 1];
    if i < |log| - 1 {
      MutedIsFinal(before, i);
      assert before[i] == log[i];
      forall j | i < j < |log| && log[j].Called? ensures log[j].cmd.serial != log[i].cmd.serial {
        if j < |log| - 1 { assert before[j] == log[j]; }
      }
    }
  }

  /** Every accepted command is still alive or has been destroyed. */
  lemma {:induction false} AcceptedFate(log: seq<Event>, i: nat)
    requires i < |log| && log[i].Accepted?
    ensures || (log[i].cmd.serial in Audit(log).live && (log[i].cmd.response ==>
            log[i].cmd.serial in Audit(log).answers))
            || exists k :: i < k < |log| && log[k].Destroyed? && log[k].cmd.serial == log[i].cmd.serial
  {
    var before := log[..|log| - 1];
    if i < |log| - 1 {
      AcceptedFate(before, i);
      assert before[i] == log[i];
      if k :| i < k < |before| && before[k].Destroyed? && before[k].cmd.serial == log[i].cmd.serial {
        assert log[k] == before[k];
      } else if log[|log| - 1].Destroyed? && log[|log| - 1].cmd.serial == log[i].cmd.serial {
      }
    }
  }

  /** A written transaction stays open until a reply is consumed by its own command. */
  lemma {:induction false} OpenUntilReplied(log: seq<Event>, i: nat)
    requires Audit(log).ok && i < |log| && log[i].Wrote? && log[i].cmd.expected != 0
    ensures Audit(log).open == Some(log[i].cmd.serial) || RepliedBetween(log, i, |log|)
  {
    var before := log[..|log| - 1];
    if i < |log| - 1 {
      OpenUntilReplied(before, i);
      assert before[i] == log[i];
      if RepliedBetween(before, i, |before|) {
        var k :| i < k < |before| && before[k].Replied? && SerialOf(before[k].consumer) == Some(before[i].cmd.serial);
        assert log[k] == before[k];
      } else if log[|log| - 1].Replied? {
        assert SerialOf(log[|log| - 1].consumer) == Some(log[i].cmd.serial);
      }
    }
  }

  ghost predicate RepliedBetween(log: seq<Event>, i: nat, j: nat)
    requires i < j <= |log| && log[i].Wrote?
  {
    exists k :: i < k < j && log[k].Replied? && SerialOf(log[k].consumer) == Some(log[i].cmd.serial)
  }

  /** Between two transactions on the wire, the first one consumed its reply. */
  lemma {:induction false} OneTransactionAtATime(log: seq<Event>, i: nat, j: nat)
    requires Audit(log).ok && i < j < |log|
    requires log[i].Wrote? && log[i].cmd.expected != 0 && log[j].Wrote? && log[j].cmd.expected != 0
    ensures RepliedBetween(log, i, j)
  {
    var upto := log[..j + 1];
    PrefixOk(log, j + 1);
    PrefixOk(log, j);
    assert upto[..j] == log[..j];
    OpenUntilReplied(log[..j], i);
    var k :| i < k < j && log[..j][k].Replied? && SerialOf(log[..j][k].consumer) == Some(log[..j][i].cmd.serial);
    assert log[k] == log[..j][k];
  }

  lemma {:induction false} MarksGrow(log: seq<Event>, i: nat)
    requires Audit(log).ok && i < |log| && log[i].Wrote? && log[i].cmd.tail
    ensures if log[i].cmd.response then log[i].cmd.serial <= Audit(log).answerMark
            else log[i].cmd.serial <= Audit(log).mark
  {
    if i < |log| - 1 {
      MarksGrow(log[..|log| - 1], i);
      assert log[..|log| - 1][i] == log[i];
    }
  }

  /** Commands of one queue submitted at its tail go out in submission order. */
  lemma {:induction false} WrittenInOrder(log: seq<Event>, i: nat, j: nat)
    requires Audit(log).ok && i < j < |log|
    requires log[i].Wrote? && log[j].Wrote? && log[i].cmd.tail && log[j].cmd.tail
    requires log[i].cmd.response == log[j].cmd.response
    ensures log[i].cmd.serial < log[j].cmd.serial
  {
    PrefixOk(log, j + 1);
    PrefixOk(log, j);
    assert log[..j + 1][..j] == log[..j];
    MarksGrow(log[..j], i);
  }

  /** A request is written only when every response accepted before has left the scheduler. */
  lemma {:induction false} ResponsesFirst(log: seq<Event>, i: nat, j: nat)
    requires Audit(log).ok && i < j < |log|
    requires log[i].Accepted? && log[i].cmd.response && log[j].Wrote? && !log[j].cmd.response
    ensures exists k :: i < k < j && log[k].Destroyed? && log[k].cmd.serial == log[i].cmd.serial
  {
    PrefixOk(log, j + 1);
    assert log[..j + 1][..j] == log[..j];
    AcceptedFate(log[..j], i);
    var k :| i < k < j && log[..j][k].Destroyed? && log[..j][k].cmd.serial == log[..j][i].cmd.serial;
    assert log[k] == log[..j][k];
  }

  /** A resent request waits until it is written or destroyed. */
  lemma {:induction false} ResentFate(log: seq<Event>, i: nat)
    requires i < |log| && log[i].Accepted? && !log[i].cmd.response && !log[i].cmd.tail
    ensures log[i].cmd.serial in Audit(log).resent || GoneBetween(log, i, |log|)
  {
    var before, e := log[..|log| - 1], log[|log| - 1];
    assert Audit(log) == Post(Audit(before), e);
    ResentStep(Audit(before), e, log[i].cmd.serial);
    hide Audit, Post;
    if i < |log| - 1 {
      ResentFate(before, i);
      assert before[i] == log[i];
      if GoneBetween(before, i, |before|) {
        var k :| i < k < |before| && (before[k].Wrote? || before[k].Destroyed?)
                 && before[k].cmd.serial == before[i].cmd.serial;
        assert log[k] == before[k];
      }
    }
  }

  lemma {:induction false} ResentStep(b: Book, e: Event, u: nat)
    ensures e.Accepted? && !e.cmd.response && !e.cmd.tail && e.cmd.serial == u ==> u in Post(b, e).resent
    ensures u in b.resent ==> u in Post(b, e).resent || ((e.Wrote? || e.Destroyed?) && e.cmd.serial == u)
  {
  }

  ghost predicate GoneBetween(log: seq<Event>, i: nat, j: nat)
    requires i < j <= |log| && log[i].Accepted?
  {
    exists k :: i < k < j && (log[k].Wrote? || log[k].Destroyed?) && log[k].cmd.serial == log[i].cmd.serial
  }

  /** No request submitted at the tail is written before a request resent earlier has been written or destroyed. */
  lemma {:induction false} ResentFirst(log: seq<Event>, i: nat, j: nat)
    requires Audit(log).ok && i < j < |log|
    requires log[i].Accepted? && !log[i].cmd.response && !log[i].cmd.tail && log[j].Wrote? && !log[j].cmd.response
             && log[j].cmd.tail
    ensures GoneBetween(log, i, j)
  {
    PrefixOk(log, j + 1);
    assert log[..j + 1][..j] == log[..j] && log[..j + 1][j] == log[j];
    assert Audit(log[..j]).resent == {};
    hide Audit;
    ResentFate(log[..j], i);
    var k :| i < k < j && (log[..j][k].Wrote? || log[..j][k].Destroyed?)
        && log[..j][k].cmd.serial == log[..j][i].cmd.serial;
    assert log[k] == log[..j][k];
  }

  lemma {:induction false} CrowdedStays(log: seq<Event>, n: nat)
    requires n <= |log| && Audit(log[..n]).crowded
    ensures Audit(log).crowded
  {
    if n < |log| {
      assert log[..|log| - 1][..n] == log[..n];
      CrowdedStays(log[..|log| - 1], n);
    } else {
      assert log[..n] == log;
    }
  }

  /** If the log is never crowded, a resent request is the next one written, unless it is destroyed before. */
  lemma {:induction false} ResentNext(log: seq<Event>, i: nat, j: nat)
    requires !Audit(log).crowded && i < j < |log|
    requires log[i].Accepted? && !log[i].cmd.response && !log[i].cmd.tail
    requires log[j].Wrote? && !log[j].cmd.response && log[j].cmd.serial != log[i].cmd.serial
    ensures GoneBetween(log, i, j)
  {
    if Audit(log[..j + 1]).crowded { CrowdedStays(log, j + 1); }
    assert log[..j + 1][..j] == log[..j] && log[..j + 1][j] == log[j];
    assert Audit(log[..j]).resent <= {log[j].cmd.serial};
    hide Audit;
    ResentFate(log[..j], i);
    var k :| i < k < j && (log[..j][k].Wrote? || log[..j][k].Destroyed?)
        && log[..j][k].cmd.serial == log[..j][i].cmd.serial;
    assert log[k] == log[..j][k];
  }

  ghost predicate SettledBetween(log: seq<Event>, i: nat, j: nat)
    requires i < j <= |log| && log[i].Accepted?
  {
    exists k :: i < k < j && (log[k].Called? || log[k].Cancelled?) && log[k].cmd.serial == log[i].cmd.serial
  }

  /** A transaction with a result function is owed it until the function runs or the command is cancelled or lost. */
  lemma {:induction false} OwedFate(log: seq<Event>, i: nat)
    requires i < |log| && log[i].Accepted? && log[i].cmd.func && log[i].cmd.expected != 0
    ensures log[i].cmd.serial in Audit(log).owed + Audit(log).lost || SettledBetween(log, i, |log|)
  {
    var before, e := log[..|log| - 1], log[|log| - 1];
    assert Audit(log) == Post(Audit(before), e);
    OwedStep(Audit(before), e, log[i].cmd.serial);
    hide Audit, Post;
    if i < |log| - 1 {
      OwedFate(before, i);
      assert before[i] == log[i];
      if SettledBetween(before, i, |before|) {
        var k :| i < k < |before| && (before[k].Called? || before[k].Cancelled?)
                 && before[k].cmd.serial == before[i].cmd.serial;
        assert log[k] == before[k];
      }
    }
  }

  lemma {:induction false} OwedStep(b: Book, e: Event, u: nat)
    ensures e.Accepted? && e.cmd.func && e.cmd.expected != 0 && e.cmd.serial == u ==> u in Post(b, e).owed
    ensures u in b.owed + b.lost ==>
              u in Post(b, e).owed + Post(b, e).lost || ((e.Called? || e.Cancelled?) && e.cmd.serial == u)
  {
  }

  lemma {:induction false} LostGrows(log: seq<Event>, n: nat)
    requires n <= |log|
    ensures Audit(log[..n]).lost <= Audit(log).lost
  {
    if n < |log| {
      LostGrows(log[..|log| - 1], n);
      assert log[..|log| - 1][..n] == log[..n];
    } else {
      assert log[..n] == log;
    }
  }

  /** If nothing was lost, a destroyed transaction with a result function had it run, or was cancelled, before. */
  lemma {:induction false} SettledBeforeDestroyed(log: seq<Event>, i: nat, j: nat)
    requires Audit(log).lost == {} && i < j < |log| && log[i].Accepted? && log[i].cmd.func && log[i].cmd.expected != 0
    requires log[j].Destroyed? && log[j].cmd.serial == log[i].cmd.serial
    ensures SettledBetween(log, i, j)
  {
    var upto := log[..j + 1];
    LostGrows(log, j + 1);
    OwedFate(upto, i);
    assert upto[|upto| - 1] == log[j];
    var k :| i < k < |upto| && (upto[k].Called? || upto[k].Cancelled?) && upto[k].cmd.serial == upto[i].cmd.serial;
    assert upto[k] == log[k];
  }

  /** A PDU handed to a result function is the reply its own command consumed; status 0 means the expected opcode. */
  lemma {:induction false} CalledWithOwnReply(log: seq<Event>, j: nat)
    requires Audit(log).ok && j < |log| && log[j].Called? && log[j].rx != []
    ensures exists k ::
              0 <= k < j && log[k].Replied? && log[k].rx == log[j].rx
              && SerialOf(log[k].consumer) == Some(log[j].cmd.serial)
    ensures log[j].status == 0 ==>
              At(log[j].rx, 0) == log[j].cmd.expected || (At(log[j].rx, 0) == ATT_OP_ERROR && At(log[j].rx, 4) == 0)
  {
    PrefixOk(log, j + 1);
    assert log[..j + 1][..j] == log[..j];
    ReplyWasRead(log[..j]);
    var k :| 0 <= k < j && log[..j][k].Replied? && log[..j][k].rx == log[j].rx
        && SerialOf(log[..j][k].consumer) == Some(log[j].cmd.serial);
    assert log[k] == log[..j][k];
  }

  lemma {:induction false} ReplyWasRead(log: seq<Event>)
    ensures Audit(log).reply.Some? ==>
              exists k :: 0 <= k < |log| && log[k].Replied? && log[k].rx == Audit(log).reply.value.1
                       && SerialOf(log[k].consumer) == Some(Audit(log).reply.value.0)
  {
    hide Classified, MayWrite, MayReply, MayCall;
    if log != [] {
      var before := log[..|log| - 1];
      ReplyWasRead(before);
      if Audit(before).reply.Some? {
        var k :| 0 <= k < |before| && before[k].Replied? && before[k].rx == Audit(before).reply.value.1
               && SerialOf(before[k].consumer) == Some(Audit(before).reply.value.0);
        assert log[k] == before[k];
      }
    }
  }
}
