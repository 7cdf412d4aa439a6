/** What every step of the scheduler keeps, and hence what holds in every reachable state. */
module SchedulerSafety {
  import opened Octets
  import opened Scheduler
  import opened Ledger

  function Serials(q: seq<Command>): set<nat> {
    set i | 0 <= i < |q| :: q[i].serial
  }

  /** The transactions whose result function is still set. */
  function Owing(q: seq<Command>): set<nat> {
    set i | 0 <= i < |q| && q[i].func && q[i].expected != 0 :: q[i].serial
  }

  /** The commands pushed at the head. */
  function Urgent(q: seq<Command>): set<nat> {
    set i | 0 <= i < |q| && !q[i].tail :: q[i].serial
  }

  ghost predicate Distinct(q: seq<Command>) {
    forall i, j :: 0 <= i < j < |q| ==> q[i].serial != q[j].serial
  }

  /** Commands pushed at the head precede the others, which are in submission order and not yet written. */
  ghost predicate InOrder(q: seq<Command>, mark: int) {
    && (forall i, j :: 0 <= i < j < |q| && q[i].tail ==> q[j].tail && q[i].serial < q[j].serial)
    && (forall i :: 0 <= i < |q| && q[i].tail && !q[i].sent ==> q[i].serial > mark)
  }

  ghost predicate Unmuted(q: seq<Command>, muted: set<nat>) {
    forall i :: 0 <= i < |q| && q[i].func ==> q[i].serial !in muted
  }

  /** The request queue: only the head can be in flight. */
  ghost predicate RequestLine(q: seq<Command>, mark: int, muted: set<nat>) {
    && Distinct(q) && InOrder(q, mark) && Unmuted(q, muted)
    && (forall i :: 0 <= i < |q| ==> !q[i].response && (q[i].sent ==> i == 0 && q[i].expected != 0))
  }

  /** The response queue: nothing in it is ever in flight, and it is first in, first out. */
  ghost predicate ResponseLine(q: seq<Command>, mark: int, muted: set<nat>) {
    && Distinct(q) && InOrder(q, mark) && Unmuted(q, muted)
    && (forall i :: 0 <= i < |q| ==> q[i].response && q[i].tail && q[i].expected == 0 && !q[i].sent)
  }

  /** The auditor's books agree with the queues; `held` is a command popped but not yet destroyed. */
  ghost predicate Agree(b: Book, rq: seq<Command>, rs: seq<Command>, held: set<nat>) {
    && b.ok
    && b.live == Serials(rq) + Serials(rs) + held
    && b.answers == Serials(rs)
    && Serials(rq) !! Serials(rs) !! held
    && (forall u :: u in b.live ==> u < b.next) && (forall u :: u in b.muted ==> u < b.next)
    && b.mark < b.next && b.answerMark < b.next
    && b.resent <= Urgent(rq) + held && b.owed <= Owing(rq) + held
    && RequestLine(rq, b.mark, b.muted)
    && ResponseLine(rs, b.answerMark, b.muted)
  }

  ghost predicate Core(s: State, held: set<nat>) {
    Audit(s.log).next == s.accepted && Agree(Audit(s.log), s.requests, s.responses, held)
  }

  /** The timer runs exactly for the transaction in flight, which is the one the auditor sees open. */
  ghost predicate Flight(s: State) {
    s.timer == InFlight(s.requests) && Audit(s.log).open == InFlight(s.requests)
  }

  predicate Work(s: State) {
    s.responses != [] || (s.requests != [] && !s.requests[0].sent)
  }

  /** Whatever can be written now will be: the write watch is armed. */
  predicate Wakeful(s: State) {
    !s.stale && !s.faulted && Work(s) ==> s.watch
  }

  /** No result function was dropped without a cancel. */
  ghost predicate Kept(s: State) {
    Audit(s.log).lost == {}
  }

  /** Users, the write watch and a timeout in progress are the only holders of references. */
  predicate Counted(s: State) {
    && !s.dead && s.owners >= 0 && s.mem.pins >= 0 && s.refs > 0
    && s.refs == s.owners + s.mem.pins + (if s.watch then 1 else 0)
  }

  /**
   The object has been freed: nobody refers to it, nothing is queued, and a
   timer that had fired was destroyed again.
   */
  predicate Gone(s: State) {
    && s.dead && s.refs == 0 && s.owners == 0 && s.mem.pins == 0 && !s.watch
    && s.requests == [] && s.responses == [] && s.mem.wild == s.mem.fired
  }

  /**
   Between callbacks of a live object, no freed memory has been touched, and the
   timer has fired exactly if it is stale.
   */
  predicate Clean(s: State) {
    s.mem.pins == 0 && !s.mem.touched && !s.mem.wild && (s.mem.fired <==> s.stale)
  }

  ghost predicate Inv(s: State) {
    && Core(s, {})
    && (s.dead ==> Gone(s))
    && (!s.dead ==>
          && Counted(s) && Clean(s) && Wakeful(s) && Kept(s)
          && (!s.stale ==> Flight(s)) && (s.stale ==> s.requests == []))
  }

  // ----- how queues change -----

  lemma {:induction false} PushRequest(q: seq<Command>, c: Command, mark: int, muted: set<nat>)
    requires RequestLine(q, mark, muted) && (forall u :: u in Serials(q) ==> u < c.serial)
    requires !c.response && !c.sent && mark < c.serial && c.serial !in muted
    ensures c.tail ==>
              RequestLine(q + [c], mark, muted) && Serials(q + [c]) == Serials(q) + {c.serial}
              && InFlight(q + [c]) == InFlight(q)
    ensures !c.tail && InFlight(q).None? ==>
              RequestLine([c] + q, mark, muted) && Serials([c] + q) == Serials(q) + {c.serial}
              && InFlight([c] + q).None?
  {
    SerialsOfPush(q, c);
    forall i | 0 <= i < |q| ensures q[i].serial < c.serial { assert q[i].serial in Serials(q); }
  }

  lemma {:induction false} PushResponse(q: seq<Command>, c: Command, mark: int, muted: set<nat>)
    requires ResponseLine(q, mark, muted) && (forall u :: u in Serials(q) ==> u < c.serial)
    requires c.response && c.tail && c.expected == 0 && !c.sent && mark < c.serial && c.serial !in muted
    ensures ResponseLine(q + [c], mark, muted) && Serials(q + [c]) == Serials(q) + {c.serial}
  {
    SerialsOfPush(q, c);
    forall i | 0 <= i < |q| ensures q[i].serial < c.serial { assert q[i].serial in Serials(q); }
  }

  lemma {:induction false} UrgentOfPush(q: seq<Command>, c: Command)
    ensures Urgent(q) <= Urgent(q + [c]) && Urgent(q) <= Urgent([c] + q) && (!c.tail ==> c.serial in Urgent([c] + q))
  {
    var q1, q2 := q + [c], [c] + q;
    assert q2[0] == c;
    forall u | u in Urgent(q) ensures u in Urgent(q1) && u in Urgent(q2) {
      var i :| 0 <= i < |q| && !q[i].tail && q[i].serial == u;
      assert q1[i] == q[i] && q2[i + 1] == q[i];
    }
  }

  lemma {:induction false} UrgentOfRemoval(q: seq<Command>, i: nat)
    requires i < |q|
    ensures Urgent(q) <= Urgent(RemoveAt(q, i)) + {q[i].serial}
    ensures i == 0 ==> Urgent(q) <= Urgent(q[1..]) + {q[0].serial}
  {
    var r := RemoveAt(q, i);
    forall u | u in Urgent(q) && u != q[i].serial ensures u in Urgent(r) {
      var k :| 0 <= k < |q| && !q[k].tail && q[k].serial == u;
      assert if k < i then r[k] == q[k] else r[k - 1] == q[k];
    }
    assert i == 0 ==> r == q[1..];
  }

  lemma {:induction false} UrgentOfMark(q: seq<Command>, c: Command)
    requires q != [] && c.serial == q[0].serial && c.tail == q[0].tail
    ensures Urgent(q) <= Urgent(q[0 := c])
  {
    var r := q[0 := c];
    forall u | u in Urgent(q) ensures u in Urgent(r) {
      var k :| 0 <= k < |q| && !q[k].tail && q[k].serial == u;
      assert r[k].serial == u && !r[k].tail;
    }
  }

  lemma {:induction false} OwingOfPush(q: seq<Command>, c: Command)
    ensures Owing(q) <= Owing(q + [c]) && Owing(q) <= Owing([c] + q)
    ensures c.func && c.expected != 0 ==> c.serial in Owing(q + [c]) && c.serial in Owing([c] + q)
  {
    var q1, q2 := q + [c], [c] + q;
    assert q1[|q|] == c && q2[0] == c;
    forall u | u in Owing(q) ensures u in Owing(q1) && u in Owing(q2) {
      var i :| 0 <= i < |q| && q[i].func && q[i].expected != 0 && q[i].serial == u;
      assert q1[i] == q[i] && q2[i + 1] == q[i];
    }
  }

  lemma {:induction false} OwingOfRemoval(q: seq<Command>, i: nat)
    requires i < |q|
    ensures Owing(q) <= Owing(RemoveAt(q, i)) + {q[i].serial}
    ensures i == 0 ==> Owing(q) <= Owing(q[1..]) + {q[0].serial}
  {
    var r := RemoveAt(q, i);
    forall u | u in Owing(q) && u != q[i].serial ensures u in Owing(r) {
      var k :| 0 <= k < |q| && q[k].func && q[k].expected != 0 && q[k].serial == u;
      assert if k < i then r[k] == q[k] else r[k - 1] == q[k];
    }
    assert i == 0 ==> r == q[1..];
  }

  lemma {:induction false} OwingOfMark(q: seq<Command>, c: Command)
    requires q != [] && c.serial == q[0].serial && c.expected == q[0].expected
    ensures Owing(q) <= Owing(q[0 := c]) + {c.serial}
    ensures c.func == q[0].func ==> Owing(q) <= Owing(q[0 := c])
  {
    var r := q[0 := c];
    forall u | u in Owing(q) && (u != c.serial || c.func == q[0].func) ensures u in Owing(r) {
      var k :| 0 <= k < |q| && q[k].func && q[k].expected != 0 && q[k].serial == u;
      assert r[k].serial == u && r[k].func && r[k].expected != 0;
    }
  }

  /** The head is owed its result function only if that is still set, and only as a transaction. */
  lemma {:induction false} OwingHead(q: seq<Command>)
    requires q != [] && Distinct(q) && q[0].serial in Owing(q)
    ensures q[0].func && q[0].expected != 0
  {
    var k :| 0 <= k < |q| && q[k].func && q[k].expected != 0 && q[k].serial == q[0].serial;
  }

  lemma {:induction false} OwingIsQueued(q: seq<Command>)
    ensures Owing(q) <= Serials(q)
  {
  }

  /** If the head was submitted at the tail, so was everything behind it. */
  lemma {:induction false} NothingUrgent(q: seq<Command>, mark: int)
    requires q != [] && q[0].tail && InOrder(q, mark)
    ensures Urgent(q) == {}
  {
    forall i | 0 <= i < |q| ensures q[i].tail { assert i > 0 ==> q[0].tail; }
  }

  lemma {:induction false} SerialsOfPush(q: seq<Command>, c: Command)
    ensures Serials(q + [c]) == Serials(q) + {c.serial} == Serials([c] + q)
  {
    var q1, q2 := q + [c], [c] + q;
    assert q1[|q|] == c && q2[0] == c;
    forall u | u in Serials(q) ensures u in Serials(q1) && u in Serials(q2) {
      var i :| 0 <= i < |q| && q[i].serial == u;
      assert q1[i].serial == u && q2[i + 1].serial == u;
    }
  }

  lemma {:induction false} SerialsOfRemoval(q: seq<Command>, i: nat)
    requires i < |q| && Distinct(q)
    ensures Serials(RemoveAt(q, i)) == Serials(q) - {q[i].serial} && q[i].serial in Serials(q)
    ensures i == 0 ==> RemoveAt(q, 0) == q[1..]
  {
    var r := RemoveAt(q, i);
    assert q[i].serial in Serials(q);
    forall u | u in Serials(q) - {q[i].serial} ensures u in Serials(r) {
      var k :| 0 <= k < |q| && q[k].serial == u;
      assert if k < i then r[k].serial == u else r[k - 1].serial == u;
    }
  }

  lemma {:induction false} RemovalAt(q: seq<Command>, i: nat)
    requires i < |q|
    ensures |RemoveAt(q, i)| == |q| - 1 && forall k :: 0 <= k < |q| - 1 ==>
            RemoveAt(q, i)[k] == q[if k < i then k else k + 1]
  {
  }

  /** The parts of both queue invariants that only look at serials, flags and marks. */
  lemma {:induction false} RemovalKeepsOrder(q: seq<Command>, i: nat, mark: int, muted: set<nat>, mark': int)
    requires i < |q| && Distinct(q) && InOrder(q, mark) && Unmuted(q, muted)
    requires mark' == mark || (i == 0 && mark' == q[0].serial && q[0].tail)
    ensures var r := RemoveAt(q, i);
            Distinct(r) && InOrder(r, mark') && Unmuted(r, muted) && Unmuted(r, muted + {q[i].serial})
  {
    RemovalAt(q, i);
    hide RemoveAt;
    var r := RemoveAt(q, i);
    forall k | 0 <= k < |r| && r[k].func ensures r[k].serial !in muted + {q[i].serial} {
      assert r[k].serial != q[i].serial;
    }
  }

  /** Taking a request that is not in flight, or the head, off its queue; it may then be muted. */
  lemma {:induction false} RemoveRequest(q: seq<Command>, i: nat, mark: int, muted: set<nat>, mark': int)
    requires i < |q| && RequestLine(q, mark, muted)
    requires mark' == mark || (i == 0 && mark' == q[0].serial && q[0].tail)
    ensures RequestLine(RemoveAt(q, i), mark', muted) && RequestLine(RemoveAt(q, i), mark', muted + {q[i].serial})
    ensures Serials(RemoveAt(q, i)) == Serials(q) - {q[i].serial} && q[i].serial in Serials(q)
    ensures i == 0 ==> RemoveAt(q, 0) == q[1..] && InFlight(q[1..]).None?
    ensures i > 0 ==> InFlight(RemoveAt(q, i)) == InFlight(q)
    ensures !q[i].sent ==> InFlight(RemoveAt(q, i)) == InFlight(q)
  {
    SerialsOfRemoval(q, i);
    RemovalKeepsOrder(q, i, mark, muted, mark');
    RemovalAt(q, i);
    hide Serials, Distinct, InOrder, Unmuted, RemoveAt;
  }

  lemma {:induction false} RemoveResponse(q: seq<Command>, i: nat, mark: int, muted: set<nat>, mark': int)
    requires i < |q| && ResponseLine(q, mark, muted)
    requires mark' == mark || (i == 0 && mark' == q[0].serial)
    ensures ResponseLine(RemoveAt(q, i), mark', muted) && ResponseLine(RemoveAt(q, i), mark', muted + {q[i].serial})
    ensures Serials(RemoveAt(q, i)) == Serials(q) - {q[i].serial} && q[i].serial in Serials(q)
    ensures i == 0 ==> RemoveAt(q, 0) == q[1..]
  {
    SerialsOfRemoval(q, i);
    RemovalKeepsOrder(q, i, mark, muted, mark');
    RemovalAt(q, i);
    hide Serials, Distinct, InOrder, Unmuted, RemoveAt;
  }

  /** Replacing the head by the same command with a flag changed. */
  lemma {:induction false} MarkHead(q: seq<Command>, c: Command, mark: int, muted: set<nat>, mark': int)
    requires q != [] && RequestLine(q, mark, muted)
    requires c == q[0].(func := false) || (c == q[0].(sent := true) && c.expected != 0)
    requires mark' == mark || (c.sent && c.tail && mark' == c.serial)
    requires c == q[0].(sent := true) && !q[0].sent && c.tail ==> mark' == c.serial
    ensures RequestLine(q[0 := c], mark', muted)
    ensures !c.func ==> RequestLine(q[0 := c], mark', muted + {c.serial})
    ensures Serials(q[0 := c]) == Serials(q) && c.serial in Serials(q)
    ensures q[0].sent ==> InFlight(q) == Some(c.serial)
    ensures InFlight(q[0 := c]) == if c.sent then Some(c.serial) else None
  {
    var r := q[0 := c];
    forall i | 0 <= i < |q| ensures r[i].serial == q[i].serial && (i > 0 ==> r[i] == q[i]) {}
    forall u | u in Serials(q) ensures u in Serials(r) {
      var i :| 0 <= i < |q| && q[i].serial == u;
      assert r[i].serial == u;
    }
    assert q[0].serial in Serials(q);
  }

  /** Muting a serial that is not queued changes nothing for the queues. */
  lemma {:induction false} MuteOther(q: seq<Command>, mark: int, muted: set<nat>, u: nat)
    requires u !in Serials(q)
    ensures RequestLine(q, mark, muted) ==> RequestLine(q, mark, muted + {u})
    ensures ResponseLine(q, mark, muted) ==> ResponseLine(q, mark, muted + {u})
  {
    forall i | 0 <= i < |q| ensures q[i].serial in Serials(q) {}
  }

  // ----- how the books change with the queues -----

  lemma {:induction false} AcceptRequest(b: Book, rq: seq<Command>, rs: seq<Command>, held: set<nat>, c: Command)
    requires Agree(b, rq, rs, held) && Classified(c) && c.serial == b.next && !c.sent && !c.response
    ensures c.tail ==> Agree(Post(b, Accepted(c)), rq + [c], rs, held) && InFlight(rq + [c]) == InFlight(rq)
    ensures !c.tail && InFlight(rq).None? ==>
              Agree(Post(b, Accepted(c)), [c] + rq, rs, held) && InFlight([c] + rq).None?
  {
    hide RequestLine, ResponseLine, Serials, InFlight, Classified, Urgent, Owing;
    UrgentOfPush(rq, c);
    OwingOfPush(rq, c);
    PushRequest(rq, c, b.mark, b.muted);
  }

  lemma {:induction false} AcceptResponse(b: Book, rq: seq<Command>, rs: seq<Command>, held: set<nat>, c: Command)
    requires Agree(b, rq, rs, held) && Classified(c) && c.serial == b.next && !c.sent && c.response && c.tail
             && c.expected == 0
    ensures Agree(Post(b, Accepted(c)), rq, rs + [c], held)
  {
    hide RequestLine, ResponseLine, Serials, Classified, Urgent, Owing;
    PushResponse(rs, c, b.answerMark, b.muted);
  }

  lemma {:induction false} DropRequest(b: Book, rq: seq<Command>, rs: seq<Command>, held: set<nat>, i: nat)
    requires i < |rq| && Agree(b, rq, rs, held)
    ensures Agree(Post(Post(b, Cancelled(rq[i])), Destroyed(rq[i])), RemoveAt(rq, i), rs, held)
  {
    hide RequestLine, ResponseLine, Serials, RemoveAt, Urgent, Owing;
    UrgentOfRemoval(rq, i);
    OwingOfRemoval(rq, i);
    RemoveRequest(rq, i, b.mark, b.muted, b.mark);
    MuteOther(rs, b.answerMark, b.muted, rq[i].serial);
  }

  lemma {:induction false} SilenceRequest(b: Book, rq: seq<Command>, rs: seq<Command>, held: set<nat>)
    requires rq != [] && rq[0].sent && Agree(b, rq, rs, held)
    ensures Agree(Post(b, Cancelled(rq[0])), rq[0 := rq[0].(func := false)], rs, held)
  {
    hide RequestLine, ResponseLine, Serials, Urgent, Owing;
    UrgentOfMark(rq, rq[0].(func := false));
    OwingOfMark(rq, rq[0].(func := false));
    MarkHead(rq, rq[0].(func := false), b.mark, b.muted, b.mark);
    MuteOther(rs, b.answerMark, b.muted, rq[0].serial);
  }

  lemma {:induction false} DropResponse(b: Book, rq: seq<Command>, rs: seq<Command>, held: set<nat>, i: nat)
    requires i < |rs| && Agree(b, rq, rs, held)
    ensures Agree(Post(Post(b, Cancelled(rs[i])), Destroyed(rs[i])), rq, RemoveAt(rs, i), held)
  {
    hide RequestLine, ResponseLine, Serials, RemoveAt, Urgent, Owing;
    RemoveResponse(rs, i, b.answerMark, b.muted, b.answerMark);
    MuteOther(rq, b.mark, b.muted, rs[i].serial);
  }

  /** A request leaves its queue to be held, or is destroyed at once. */
  lemma {:induction false} TakeRequest(b: Book, rq: seq<Command>, rs: seq<Command>, held: set<nat>)
    requires rq != [] && Agree(b, rq, rs, held)
    ensures Agree(b, rq[1..], rs, held + {rq[0].serial}) && InFlight(rq[1..]).None?
    ensures rq[0].func ==> rq[0].serial !in b.muted
    ensures rq[0].serial !in held && (rq[0].serial in b.owed ==> rq[0].func && rq[0].expected != 0)
  {
    assert rq[0].serial in Serials(rq);
    assert rq[0].func ==> rq[0].serial !in b.muted;
    if rq[0].serial in b.owed { OwingHead(rq); }
    hide RequestLine, ResponseLine, Serials, RemoveAt, InFlight, Urgent, Owing;
    UrgentOfRemoval(rq, 0);
    OwingOfRemoval(rq, 0);
    RemoveRequest(rq, 0, b.mark, b.muted, b.mark);
  }

  lemma {:induction false} TakeResponse(b: Book, rq: seq<Command>, rs: seq<Command>, held: set<nat>)
    requires rs != [] && Agree(b, rq, rs, held)
    ensures Agree(b.(answers := b.answers - {rs[0].serial}), rq, rs[1..], held + {rs[0].serial})
            && rs[0].serial !in held
  {
    hide RequestLine, ResponseLine, Serials, RemoveAt, Urgent, Owing;
    RemoveResponse(rs, 0, b.answerMark, b.muted, b.answerMark);
  }

  lemma {:induction false} DestroyHeld(b: Book, rq: seq<Command>, rs: seq<Command>, held: set<nat>, c: Command)
    requires Agree(b, rq, rs, held + {c.serial}) && c.serial !in held
    ensures Agree(Post(b, Destroyed(c)), rq, rs, held)
  {
    hide RequestLine, ResponseLine, Serials, Urgent, Owing;
  }

  lemma {:induction false} CallHeld(b: Book, rq: seq<Command>, rs: seq<Command>, c: Command, status: byte,
        rx: seq<byte>, script: Script)
    requires Agree(b, rq, rs, {c.serial}) && MayCall(b, c, status, rx)
    ensures Agree(Post(b, Called(c, status, rx, script)), rq, rs, {c.serial})
  {
    hide RequestLine, ResponseLine, Serials, MayCall, Urgent, Owing;
    MuteOther(rq, b.mark, b.muted, c.serial);
    MuteOther(rs, b.answerMark, b.muted, c.serial);
  }

  lemma {:induction false} ReplyHeld(b: Book, rq: seq<Command>, rs: seq<Command>, held: set<nat>, c: Option<Command>,
        rx: seq<byte>)
    requires Agree(b, rq, rs, held) && MayReply(b, c)
    ensures Agree(Post(b, Replied(rx, c)), rq, rs, held)
  {
    hide RequestLine, ResponseLine, Serials, MayReply, Urgent, Owing;
  }

  lemma {:induction false} OpenTransaction(b: Book, rq: seq<Command>, rs: seq<Command>)
    requires rq != [] && Agree(b, rq, rs, {}) && rs == [] && !rq[0].sent && rq[0].expected != 0 && b.open.None?
    ensures var c := rq[0].(sent := true);
            Agree(Post(b, Wrote(rq[0])), rq[0 := c], rs, {}) && InFlight(rq[0 := c]) == Some(c.serial)
  {
    assert rq[0].tail ==> rq[0].serial > b.mark;
    assert !rq[0].response;
    assert b.answers == {};
    if rq[0].tail { NothingUrgent(rq, b.mark); }
    hide RequestLine, ResponseLine, Serials, InFlight, Urgent, Owing;
    UrgentOfMark(rq, rq[0].(sent := true));
    OwingOfMark(rq, rq[0].(sent := true));
    MarkHead(rq, rq[0].(sent := true), b.mark, b.muted, if rq[0].tail then rq[0].serial else b.mark);
  }

  /** Writing a command that expects no reply, and destroying it. */
  lemma {:induction false} WriteHead(b: Book, rq: seq<Command>, rs: seq<Command>)
    requires rq != [] && Agree(b, rq, rs, {}) && rs == [] && rq[0].expected == 0
    ensures Agree(Post(Post(b, Wrote(rq[0])), Destroyed(rq[0])), rq[1..], rs, {}) && InFlight(rq[1..]).None?
            && InFlight(rq).None?
    ensures rq[0].serial !in b.owed
  {
    HeadMayGo(b, rq, rs);
    hide Agree, InFlight;
    HeadGoes(b, rq, rs);
  }

  /** The head may be written when no response waits and no transaction is open. */
  lemma {:induction false} HeadMayGo(b: Book, rq: seq<Command>, rs: seq<Command>)
    requires rq != [] && Agree(b, rq, rs, {}) && rs == [] && rq[0].expected == 0
    ensures MayWrite(b, rq[0]) && !rq[0].response && InFlight(rq).None? && rq[0].serial !in b.owed
  {
    assert rq[0].serial in Serials(rq);
    if rq[0].tail { NothingUrgent(rq, b.mark); }
    if rq[0].serial in b.owed { OwingHead(rq); }
  }

  lemma {:induction false} HeadGoes(b: Book, rq: seq<Command>, rs: seq<Command>)
    requires rq != [] && Agree(b, rq, rs, {}) && rs == [] && rq[0].expected == 0 && !rq[0].response
             && MayWrite(b, rq[0])
    ensures Agree(Post(Post(b, Wrote(rq[0])), Destroyed(rq[0])), rq[1..], rs, {}) && InFlight(rq[1..]).None?
  {
    hide RequestLine, ResponseLine, Serials, InFlight, RemoveAt, Urgent, Owing, MayWrite;
    UrgentOfRemoval(rq, 0);
    OwingOfRemoval(rq, 0);
    RemoveRequest(rq, 0, b.mark, b.muted, if rq[0].tail then rq[0].serial else b.mark);
  }

  lemma {:induction false} WriteAnswer(b: Book, rq: seq<Command>, rs: seq<Command>)
    requires rs != [] && Agree(b, rq, rs, {})
    ensures Agree(Post(Post(b, Wrote(rs[0])), Destroyed(rs[0])), rq, rs[1..], {})
    ensures rs[0].serial !in b.owed
  {
    assert rs[0].response && rs[0].expected == 0 && rs[0].serial > b.answerMark;
    OwingIsQueued(rq);
    hide RequestLine, ResponseLine, Serials, RemoveAt, Urgent, Owing;
    RemoveResponse(rs, 0, b.answerMark, b.muted, rs[0].serial);
  }

  // ----- calls into the scheduler, from users and from callbacks -----

  /** What such calls leave alone. */
  predicate SameFlags(s: State, t: State) {
    && t.timer == s.timer && t.stale == s.stale && t.faulted == s.faulted && t.mem.pins == s.mem.pins
    && t.mem.fired == s.mem.fired && t.mem.touched == s.mem.touched
  }

  /** Unless the object was freed, they also leave the transaction in flight alone, lose no wakeup and no result. */
  ghost predicate Undisturbed(s: State, t: State) {
    && t.mem.wild == s.mem.wild && InFlight(t.requests) == InFlight(s.requests)
    && (Kept(s) ==> Kept(t)) && (Wakeful(s) ==> Wakeful(t))
  }

  /** Nothing of it is seen on the wire, and references stay exact up to the end. */
  ghost predicate Quiet(s: State, t: State) {
    && SameFlags(s, t) && SameWire(Audit(s.log), Audit(t.log))
    && (s.dead ==> t.dead && t.requests == s.requests && t.responses == s.responses)
    && (!s.dead && t.dead ==> t.requests == [] && t.responses == [])
    && (!t.dead ==> Undisturbed(s, t))
    && (Gone(s) ==> Gone(t)) && (Counted(s) ==> if t.dead then Gone(t) else Counted(t))
  }

  ghost predicate SameWire(b: Book, d: Book) {
    && d.open == b.open && d.asked == b.asked && d.answered == b.answered && d.mark == b.mark
       && d.answerMark == b.answerMark
    && d.crowded == b.crowded && NothingRevived(b, d)
  }

  ghost predicate NothingRevived(b: Book, d: Book) {
    && d.next >= b.next
    && (forall u :: u < b.next && u !in b.live ==> u !in d.live)
    && (forall u :: u < b.next && u !in b.owed ==> u !in d.owed)
  }

  /** A call that does not give up a reference. */
  lemma {:induction false} LiveQuiet(s: State, t: State)
    requires !s.dead && !t.dead && SameFlags(s, t) && t.mem.wild == s.mem.wild && SameWire(Audit(s.log), Audit(t.log))
    requires InFlight(t.requests) == InFlight(s.requests) && (Kept(s) ==> Kept(t)) && (Wakeful(s) ==> Wakeful(t))
    requires Counted(s) ==> Counted(t)
    ensures Quiet(s, t)
  {
    hide SameWire, Audit, Wakeful, Counted, InFlight, Kept, SameFlags;
  }

  lemma {:induction false} EnqueueKeeps(s: State, id: nat, a: Action, held: set<nat>)
    requires a.Send? || a.Resend?
    requires Core(s, held) && !s.dead && (id != 0 ==> InFlight(s.requests).None?)
    ensures Core(Enqueue(s, id, a), held) && Quiet(s, Enqueue(s, id, a))
  {
    if s.stale {
      QuietSelf(s);
    } else {
      var c := NewCommand(s, id, a);
      assert Classified(c) by { OpcodeTables(a.opcode); }
      EnqueueWakes(s, id, a);
      hide NewCommand, Classified, Wakeful, Counted, Core, SameWire, Push, InFlight, Quiet, Kept, Audit;
      PushKeeps(s, c, if id == 0 then c.id else s.nextId, held);
      LiveQuiet(s, Enqueue(s, id, a));
    }
  }

  lemma {:induction false} PushKeeps(s: State, c: Command, n: nat, held: set<nat>)
    requires Core(s, held) && Classified(c) && c.serial == s.accepted && !c.sent
    requires c.response ==> c.tail && c.expected == 0
    requires !c.tail ==> InFlight(s.requests).None?
    ensures var t := Push(Note(s, Accepted(c)).(accepted := s.accepted + 1, nextId := n), c);
            && Core(t, held) && InFlight(t.requests) == InFlight(s.requests) && SameWire(Audit(s.log), Audit(t.log))
               && (Kept(s) ==> Kept(t))
  {
    hide Classified, Agree, InFlight, Push;
    AuditAppend(s.log, Accepted(c));
    if c.response {
      AcceptResponse(Audit(s.log), s.requests, s.responses, held, c);
    } else {
      AcceptRequest(Audit(s.log), s.requests, s.responses, held, c);
    }
  }

  lemma {:induction false} EnqueueWakes(s: State, id: nat, a: Action)
    requires a.Send? || a.Resend?
    requires !s.dead && (id != 0 ==> InFlight(s.requests).None?)
    ensures var t := Enqueue(s, id, a); (Wakeful(s) ==> Wakeful(t)) && (Counted(s) ==> Counted(t))
  {
    if !s.stale {
      var c := NewCommand(s, id, a);
      var p := Note(s, Accepted(c)).(accepted := s.accepted + 1, nextId := if id == 0 then c.id else s.nextId);
      hide NewCommand, Push, Wakeful, Counted, InFlight;
      NotedFrame(s, p);
      PushCounts(p, c);
      PushWakes(p, c);
    }
  }

  lemma {:induction false} NotedFrame(s: State, p: State)
    requires p == s.(log := p.log, accepted := p.accepted, nextId := p.nextId)
    ensures Wakeful(p) == Wakeful(s) && Counted(p) == Counted(s)
  {
  }

  lemma {:induction false} PushCounts(s: State, c: Command)
    requires !s.dead
    ensures Counted(s) ==> Counted(Push(s, c))
  {
  }

  lemma {:induction false} PushWakes(s: State, c: Command)
    requires !s.dead && !c.sent && (!c.tail ==> InFlight(s.requests).None?)
    ensures Wakeful(s) ==> Wakeful(Push(s, c))
  {
    if c.response {
      assert s.responses != [] ==> Work(s);
    } else {
      assert s.requests != [] && c.tail ==> (s.requests + [c])[0] == s.requests[0];
    }
  }

  lemma {:induction false} CancelRequestKeeps(s: State, i: nat, held: set<nat>)
    requires i < |s.requests| && Core(s, held) && !s.dead
    ensures Core(CancelRequest(s, i), held) && Quiet(s, CancelRequest(s, i))
  {
    var c := s.requests[i];
    CancelRequestWakes(s, i, held);
    assert c.sent ==> i == 0;
    CancelFrame(s, i);
    hide Core, Wakeful, Counted, SameWire, InFlight, Audit, Kept, RemoveAt, Quiet;
    if c.sent { SilenceKeeps(s, held); } else { DropKeeps(s, i, held); }
    LiveQuiet(s, CancelRequest(s, i));
  }

  lemma {:induction false} SilenceKeeps(s: State, held: set<nat>)
    requires s.requests != [] && s.requests[0].sent && Core(s, held)
    ensures var c := s.requests[0];
            var t := Note(s, Cancelled(c)).(requests := s.requests[0 := c.(func := false)]);
            Core(t, held) && SameWire(Audit(s.log), Audit(t.log)) && (Kept(s) ==> Kept(t))
  {
    hide Agree, SameWire, Post, Audit;
    AuditAppend(s.log, Cancelled(s.requests[0]));
    CancelWire(Audit(s.log), s.requests[0]);
    SilenceRequest(Audit(s.log), s.requests, s.responses, held);
  }

  lemma {:induction false} DropKeeps(s: State, i: nat, held: set<nat>)
    requires i < |s.requests| && Core(s, held)
    ensures var c := s.requests[i];
            var t := Note(Note(s, Cancelled(c)).(requests := RemoveAt(s.requests, i)), Destroyed(c));
            Core(t, held) && SameWire(Audit(s.log), Audit(t.log)) && (Kept(s) ==> Kept(t))
  {
    hide Agree, SameWire, Post, Audit, RemoveAt;
    var c := s.requests[i];
    AuditAppend(s.log, Cancelled(c));
    AuditAppend(s.log + [Cancelled(c)], Destroyed(c));
    CancelWire(Audit(s.log), c);
    DropRequest(Audit(s.log), s.requests, s.responses, held, i);
  }

  /** A cancel, with or without the destruction that follows it, is not seen on the wire and loses nothing. */
  lemma {:induction false} CancelWire(b: Book, c: Command)
    ensures var d := Post(b, Cancelled(c)); SameWire(b, d) && d.lost == b.lost && d.next == b.next
    ensures var d := Post(Post(b, Cancelled(c)), Destroyed(c)); SameWire(b, d) && d.lost == b.lost && d.next == b.next
  {
  }

  lemma {:induction false} CancelRequestWakes(s: State, i: nat, held: set<nat>)
    requires i < |s.requests| && Core(s, held)
    ensures var t := CancelRequest(s, i);
            (Wakeful(s) ==> Wakeful(t)) && (Counted(s) ==> Counted(t)) && InFlight(t.requests) == InFlight(s.requests)
  {
    assert s.requests[i].sent ==> i == 0;
    assert |s.requests| > 1 ==> !s.requests[1].sent;
    hide Core;
    var q, r := s.requests, CancelRequest(s, i).requests;
    assert q[0].sent ==> r != [] && r[0].sent && r[0].serial == q[0].serial;
    assert !q[0].sent && r != [] ==> !r[0].sent;
    CancelFrame(s, i);
    hide CancelRequest, RemoveAt;
  }

  lemma {:induction false} CancelFrame(s: State, i: nat)
    requires i < |s.requests|
    ensures var t := CancelRequest(s, i); t == s.(requests := t.requests, log := t.log)
  {
    hide RemoveAt;
  }

  lemma {:induction false} CancelResponseKeeps(s: State, i: nat, held: set<nat>)
    requires i < |s.responses| && Core(s, held) && !s.dead
    ensures Core(CancelResponse(s, i), held) && Quiet(s, CancelResponse(s, i))
  {
    hide Agree, SameWire, Post, Audit, RemoveAt, Quiet;
    var c := s.responses[i];
    AuditAppend(s.log, Cancelled(c));
    AuditAppend(s.log + [Cancelled(c)], Destroyed(c));
    CancelWire(Audit(s.log), c);
    DropResponse(Audit(s.log), s.requests, s.responses, held, i);
    LiveQuiet(s, CancelResponse(s, i));
  }

  lemma {:induction false} CancelRequestsFromKeeps(s: State, keep: nat, held: set<nat>)
    requires Core(s, held) && !s.dead
    ensures !CancelRequestsFrom(s, keep).dead
    ensures Core(CancelRequestsFrom(s, keep), held) && Quiet(s, CancelRequestsFrom(s, keep))
    decreases |s.requests|
  {
    if keep < |s.requests| && !(keep == 0 && s.requests[0].sent) {
      CancelRequestKeeps(s, keep, held);
      hide Core, Quiet;
      CancelRequestsFromKeeps(CancelRequest(s, keep), keep, held);
      QuietThen(s, CancelRequest(s, keep), CancelRequestsFrom(s, keep));
    } else {
      QuietSelf(s);
    }
  }

  lemma {:induction false} CancelAllResponsesKeeps(s: State, held: set<nat>)
    requires Core(s, held) && !s.dead
    ensures Core(CancelAllResponses(s), held) && Quiet(s, CancelAllResponses(s))
    decreases |s.responses|
  {
    if s.responses != [] {
      CancelResponseKeeps(s, 0, held);
      hide Core, Quiet;
      CancelAllResponsesKeeps(CancelResponse(s, 0), held);
      QuietThen(s, CancelResponse(s, 0), CancelAllResponses(s));
    } else {
      QuietSelf(s);
    }
  }

  lemma {:induction false} ActKeeps(s: State, a: Action, own: nat, held: set<nat>)
    requires Core(s, held) && CanAct(s, a) && (own != 0 ==> InFlight(s.requests).None?)
    ensures Core(Act(s, a, own), held) && Quiet(s, Act(s, a, own))
  {
    hide Core, Quiet, Enqueue, CancelRequest, CancelResponse, Release;
    match a
    case Send(_, _, _, _, _) => EnqueueKeeps(s, 0, a, held);
    case Resend(_, _, _, _, _) => EnqueueKeeps(s, own, a, held);
    case Cancel(id) =>
      QuietSelf(s);
      var i, j := IndexOfId(s.requests, id), IndexOfId(s.responses, id);
      if i >= 0 { CancelRequestKeeps(s, i, held); } else if j >= 0 { CancelResponseKeeps(s, j, held); }
    case CancelAll => CancelAllKeeps(s, held);
    case Hold => HoldKeeps(s, held);
    case Drop => DropReferenceKeeps(s, held);
  }

  lemma {:induction false} CancelAllKeeps(s: State, held: set<nat>)
    requires Core(s, held) && !s.dead
    ensures var t := CancelAllResponses(CancelAllRequests(s)); Core(t, held) && Quiet(s, t)
  {
    hide Core, Quiet;
    var keep := if InFlight(s.requests).Some? then 1 else 0;
    QuietSelf(s);
    var s1 := s;
    if keep == 1 { CancelRequestKeeps(s, 0, held); s1 := CancelRequest(s, 0); }
    CancelRequestsFromKeeps(s1, keep, held);
    var s2 := CancelRequestsFrom(s1, keep);
    CancelAllResponsesKeeps(s2, held);
    QuietThen(s, s1, s2);
    QuietThen(s, s2, CancelAllResponses(s2));
  }

  lemma {:induction false} HoldKeeps(s: State, held: set<nat>)
    requires Core(s, held) && !s.dead
    ensures var t := s.(refs := s.refs + 1, owners := s.owners + 1); Core(t, held) && Quiet(s, t)
  {
    hide Agree, Audit, SameWire;
    SameWireItself(Audit(s.log));
  }

  lemma {:induction false} DropReferenceKeeps(s: State, held: set<nat>)
    requires Core(s, held) && !s.dead && s.owners > 0
    ensures var t := Release(s.(owners := s.owners - 1)); Core(t, held) && Quiet(s, t)
  {
    var d := s.(owners := s.owners - 1, refs := s.refs - 1);
    SameBooks(s, d, held);
    hide Core, Audit, SameWire, Quiet, Wakeful, InFlight;
    SameWireItself(Audit(s.log));
    if d.refs == 0 {
      DestroyAllKeeps(d, held);
      DestroyAllWire(d);
      FreedQuiet(s, DestroyAll(d));
    } else {
      FewerReferences(s, d);
    }
  }

  lemma {:induction false} SameBooks(s: State, d: State, held: set<nat>)
    requires Core(s, held) && d.log == s.log && d.accepted == s.accepted
    requires d.requests == s.requests && d.responses == s.responses
    ensures Core(d, held)
  {
    hide Agree, Audit;
  }

  lemma {:induction false} FreedQuiet(s: State, t: State)
    requires !s.dead && s.refs == 1 && s.owners > 0 && t.dead && t.requests == [] && t.responses == []
             && SameFlags(s, t)
    requires t.refs == 0 && t.owners == s.owners - 1 && t.watch == s.watch && t.mem.wild == t.mem.fired
    requires SameWire(Audit(s.log), Audit(t.log))
    ensures Quiet(s, t)
  {
    hide SameWire, Audit, Wakeful, InFlight;
  }

  lemma {:induction false} FewerReferences(s: State, d: State)
    requires !s.dead && d == s.(owners := s.owners - 1, refs := s.refs - 1) && s.owners > 0 && d.refs != 0
    requires SameWire(Audit(s.log), Audit(s.log))
    ensures Quiet(s, d)
  {
    hide SameWire, Audit, InFlight;
  }

  lemma {:induction false} QuietSelf(s: State)
    ensures Quiet(s, s)
  {
  }

  lemma {:induction false} QuietThen(s: State, t: State, u: State)
    requires Quiet(s, t) && Quiet(t, u)
    ensures Quiet(s, u)
  {
  }

  lemma {:induction false} RunScriptKeeps(s: State, script: Script, own: nat, held: set<nat>)
    requires Core(s, held) && Proper(s, script, own) && (own != 0 ==> InFlight(s.requests).None?)
    ensures Core(RunScript(s, script, own), held) && Quiet(s, RunScript(s, script, own))
    decreases script
  {
    if script == [] {
      QuietSelf(s);
    } else {
      var t := Act(s, script[0], own);
      ActKeeps(s, script[0], own, held);
      assert own != 0 ==> InFlight(t.requests).None?;
      hide Core, Quiet, Act;
      RunScriptKeeps(t, script[1..], own, held);
      QuietThen(s, t, RunScript(s, script, own));
    }
  }

  // ----- received_data -----

  lemma {:induction false} DeliverKeeps(s: State, c: Command, status: byte, rx: seq<byte>, script: Script)
    requires Core(s, {c.serial}) && !s.dead && InFlight(s.requests).None?
    requires Due(Audit(s.log), c, status, rx) && ProperCall(s, c, status, rx, script)
    ensures Core(Deliver(s, c, status, rx, script), {}) && Quiet(s, Deliver(s, c, status, rx, script))
  {
    hide Core, Quiet, RunScript, MayCall, Proper;
    var t := s;
    QuietSelf(s);
    if c.func {
      var e := Called(c, status, rx, script);
      CallKeeps(s, c, status, rx, script);
      RunScriptKeeps(Note(s, e), script, c.id, {c.serial});
      t := RunScript(Note(s, e), script, c.id);
      QuietThen(s, Note(s, e), t);
      StillSettled(Note(s, e), t, {c.serial}, c.serial);
    }
    DestroyKeeps(t, c);
    QuietThen(s, t, Note(t, Destroyed(c)));
  }

  lemma {:induction false} CallKeeps(s: State, c: Command, status: byte, rx: seq<byte>, script: Script)
    requires Core(s, {c.serial}) && !s.dead && MayCall(Audit(s.log), c, status, rx) && InFlight(s.requests).None?
    ensures var t := Note(s, Called(c, status, rx, script));
            Core(t, {c.serial}) && Quiet(s, t) && InFlight(t.requests).None? && c.serial !in Audit(t.log).owed
  {
    hide Agree, MayCall;
    AuditAppend(s.log, Called(c, status, rx, script));
    CallHeld(Audit(s.log), s.requests, s.responses, c, status, rx, script);
  }

  /** What is not owed a result now will not be owed one later. */
  lemma {:induction false} StillSettled(s: State, t: State, held: set<nat>, u: nat)
    requires Core(s, held) && Quiet(s, t) && u in held && u !in Audit(s.log).owed
    ensures u !in Audit(t.log).owed
  {
    hide RequestLine, ResponseLine, Serials, Urgent, Owing;
  }

  lemma {:induction false} DestroyKeeps(s: State, c: Command)
    requires Core(s, {c.serial}) && c.serial !in Audit(s.log).owed
    ensures Core(Note(s, Destroyed(c)), {}) && Quiet(s, Note(s, Destroyed(c)))
  {
    hide Agree, Audit, Post, SameWire;
    AuditAppend(s.log, Destroyed(c));
    assert {} + {c.serial} == {c.serial};
    DestroyHeld(Audit(s.log), s.requests, s.responses, {}, c);
    DestroyedWire(Audit(s.log), c);
  }

  lemma {:induction false} DestroyedWire(b: Book, c: Command)
    ensures SameWire(b, Post(b, Destroyed(c))) && Post(b, Destroyed(c)).next == b.next
    ensures c.serial !in b.owed ==> Post(b, Destroyed(c)).lost == b.lost
  {
  }

  lemma {:induction false} PopRepliedKeeps(s: State, rx: seq<byte>)
    requires s.requests != [] && Core(s, {}) && Flight(s) && rx != []
    ensures var c, t := s.requests[0], PopReplied(s, rx);
            && Core(t, {c.serial}) && Flight(t) && InFlight(t.requests).None? && (Counted(s) ==> Counted(t))
               && (Kept(s) ==> Kept(t))
            && Due(Audit(t.log), c, StatusOf(c.expected, rx), rx)
            && Audit(t.log) == Post(Audit(s.log), Replied(rx, Some(c)))
            && t.dead == s.dead && SameFlags(s.(timer := None), t) && t.mem.wild == s.mem.wild
  {
    hide Agree, Audit, Post, MayReply, InFlight, Due, StatusOf;
    var c := s.requests[0];
    var b := Audit(s.log);
    AuditAppend(s.log, Replied(rx, Some(c)));
    HeadConsumes(s, rx);
    TakeRequest(b, s.requests, s.responses, {});
    assert {} + {c.serial} == {c.serial};
    ReplyHeld(b, s.requests[1..], s.responses, {c.serial}, Some(c), rx);
    DueOnReply(b, c, rx);
  }

  lemma {:induction false} HeadConsumes(s: State, rx: seq<byte>)
    requires s.requests != [] && Core(s, {}) && Flight(s)
    ensures MayReply(Audit(s.log), Some(s.requests[0])) && s.requests[0].serial in Audit(s.log).live
    ensures s.timer.None? || s.requests[0].sent
  {
    assert s.requests[0].serial in Serials(s.requests);
  }

  lemma {:induction false} DueOnReply(b: Book, c: Command, rx: seq<byte>)
    requires c.serial in b.live && rx != [] && (c.func ==> c.serial !in b.muted) && (c.serial in b.owed ==> c.func)
    ensures var d := Post(b, Replied(rx, Some(c)));
            && Due(d, c, StatusOf(c.expected, rx), rx) && d.next == b.next && d.open.None? && d.lost == b.lost
  {
  }

  lemma {:induction false} ReadableKeeps(s: State, rx: seq<byte>, events: Script, script: Script)
    requires Inv(s) && !s.dead && (!s.stale ==> ProperReading(s, rx, events, script))
    ensures Inv(Readable(s, rx, events, script))
  {
    if !s.stale {
      var t := RunScript(s, events, 0);
      RunScriptKeeps(s, events, 0, {});
      EventsLeave(s, t);
      hide Core, Quiet, RunScript, Flight, Inv, AfterReply, Proper, ProperReply, Wakeful, Kept, Counted, Clean;
      if t.dead {
        GoneIsSafe(t);
      } else if IsResponse(At(rx, 0)) {
        ReplyKeeps(t, rx, script);
      } else {
        LiveIsSafe(t);
      }
    }
  }

  lemma {:induction false} EventsLeave(s: State, t: State)
    requires Inv(s) && !s.dead && !s.stale && Quiet(s, t) && Core(t, {})
    ensures !t.stale && (t.dead ==> Gone(t))
    ensures !t.dead ==> Counted(t) && Clean(t) && Kept(t) && Flight(t) && Wakeful(t)
  {
    if !t.dead { FlightAcross(s, t); }
    hide Core, SameWire, InFlight, Audit, Flight, Work;
  }

  lemma {:induction false} GoneIsSafe(s: State)
    requires Core(s, {}) && Gone(s)
    ensures Inv(s) && Inv(s.(mem := s.mem.(touched := true)))
  {
    hide Agree;
  }

  lemma {:induction false} LiveIsSafe(s: State)
    requires Core(s, {}) && Counted(s) && Clean(s) && Kept(s) && Flight(s) && Wakeful(s) && !s.stale
    ensures Inv(s)
  {
  }

  lemma {:induction false} ReplyKeeps(s: State, rx: seq<byte>, script: Script)
    requires Core(s, {}) && Counted(s) && Clean(s) && Kept(s) && Flight(s) && Wakeful(s) && !s.stale && rx != []
    requires ProperReply(s, rx, script)
    ensures Inv(AfterReply(s, rx, script)) && !AfterReply(s, rx, script).stale
  {
    if s.requests == [] {
      IdleReplyKeeps(s, rx);
    } else {
      PoppedReplyKeeps(s, rx, script);
    }
  }

  lemma {:induction false} PoppedReplyKeeps(s: State, rx: seq<byte>, script: Script)
    requires s.requests != [] && Core(s, {}) && Counted(s) && Clean(s) && Kept(s) && Flight(s) && !s.stale && rx != []
    requires ProperReply(s, rx, script)
    ensures Inv(AfterReply(s, rx, script)) && !AfterReply(s, rx, script).stale
  {
    PopRepliedKeeps(s, rx);
    var c, t := s.requests[0], PopReplied(s, rx);
    var busy := t.requests != [] || t.responses != [];
    assert !busy ==> Wakeful(t);
    hide Core, Flight, PopReplied, Due, Deliver, StatusOf, Quiet, Inv, WakeUp, Wakeful, Counted, ProperCall;
    DeliverKeeps(t, c, StatusOf(c.expected, rx), rx, script);
    Settle(t, Deliver(t, c, StatusOf(c.expected, rx), rx, script), busy);
  }

  /**
   The last lines of received_data: the sender is woken if something was left in
   the queues, even of a freed object.
   */
  lemma {:induction false} Settle(s: State, t: State, busy: bool)
    requires Quiet(s, t) && Flight(s) && Counted(s) && Clean(s) && Kept(s) && (busy || Wakeful(s)) && !s.stale
             && Core(t, {})
    ensures Inv(if busy then WakeUp(t) else t) && !WakeUp(t).stale && !t.stale
  {
    CoreOfWakeUp(t);
    if t.dead {
      hide Core, Flight, SameWire, InFlight;
      GoneIsSafe(t);
    } else {
      FlightAcross(s, t);
      hide Core, Flight, SameWire, InFlight;
    }
  }

  lemma {:induction false} IdleReplyKeeps(s: State, rx: seq<byte>)
    requires Core(s, {}) && Counted(s) && Clean(s) && Kept(s) && Flight(s) && Wakeful(s) && !s.stale && s.requests == []
    ensures Inv(Note(s.(timer := None), Replied(rx, None)))
  {
    AuditAppend(s.log, Replied(rx, None));
    hide Agree;
    ReplyHeld(Audit(s.log), s.requests, s.responses, {}, None, rx);
  }

  lemma {:induction false} FlightAcross(s: State, t: State)
    requires Quiet(s, t) && !t.dead
    ensures Flight(s) ==> Flight(t)
  {
  }

  lemma {:induction false} CoreOfWakeUp(s: State)
    ensures Core(s, {}) ==> Core(WakeUp(s), {})
    ensures Flight(s) ==> Flight(WakeUp(s))
  {
  }

  // ----- can_write_data, unref -----

  lemma {:induction false} DestroyAllKeeps(s: State, held: set<nat>)
    requires Core(s, held)
    ensures Core(DestroyAll(s), held)
    decreases |s.requests| + |s.responses|
  {
    if s.requests != [] {
      FreeRequest(s, held);
      hide Core;
      DestroyAllKeeps(Note(s.(requests := s.requests[1..]), Destroyed(s.requests[0])), held);
    } else if s.responses != [] {
      FreeResponse(s, held);
      hide Core;
      DestroyAllKeeps(Note(s.(responses := s.responses[1..]), Destroyed(s.responses[0])), held);
    } else {
      hide Agree;
    }
  }

  lemma {:induction false} FreeRequest(s: State, held: set<nat>)
    requires Core(s, held) && s.requests != []
    ensures Core(Note(s.(requests := s.requests[1..]), Destroyed(s.requests[0])), held)
  {
    hide Agree, Post, Audit;
    var b, c := Audit(s.log), s.requests[0];
    TakeRequest(b, s.requests, s.responses, held);
    AuditAppend(s.log, Destroyed(c));
    DestroyHeld(b, s.requests[1..], s.responses, held, c);
    CancelWireNext(b, c);
  }

  lemma {:induction false} FreeResponse(s: State, held: set<nat>)
    requires Core(s, held) && s.responses != []
    ensures Core(Note(s.(responses := s.responses[1..]), Destroyed(s.responses[0])), held)
  {
    hide Agree, Post, Audit;
    var b, c := Audit(s.log), s.responses[0];
    TakeResponse(b, s.requests, s.responses, held);
    AuditAppend(s.log, Destroyed(c));
    DestroyHeld(b.(answers := b.answers - {c.serial}), s.requests, s.responses[1..], held, c);
    CancelWireNext(b, c);
  }

  lemma {:induction false} CancelWireNext(b: Book, c: Command)
    ensures Post(b, Destroyed(c)).next == b.next && Post(b.(answers := b.answers - {c.serial}), Destroyed(c)) ==
            Post(b, Destroyed(c))
  {
  }

  lemma {:induction false} DestroyAllWire(s: State)
    ensures SameWire(Audit(s.log), Audit(DestroyAll(s).log))
    decreases |s.requests| + |s.responses|
  {
    hide SameWire, Audit, Post;
    if s.requests != [] {
      DestroyOneWire(s, s.requests[0], Note(s.(requests := s.requests[1..]), Destroyed(s.requests[0])));
    } else if s.responses != [] {
      DestroyOneWire(s, s.responses[0], Note(s.(responses := s.responses[1..]), Destroyed(s.responses[0])));
    } else {
      SameWireItself(Audit(s.log));
    }
  }

  lemma {:induction false} DestroyOneWire(s: State, c: Command, t: State)
    requires t.log == s.log + [Destroyed(c)] && |t.requests| + |t.responses| < |s.requests| + |s.responses|
    ensures SameWire(Audit(s.log), Audit(DestroyAll(t).log))
    decreases |s.requests| + |s.responses|, 0
  {
    hide SameWire, Audit, Post, DestroyAll;
    AuditAppend(s.log, Destroyed(c));
    DestroyedWire(Audit(s.log), c);
    DestroyAllWire(t);
    SameWireThen(Audit(s.log), Audit(t.log), Audit(DestroyAll(t).log));
  }

  lemma {:induction false} ReleaseWire(s: State)
    ensures SameWire(Audit(s.log), Audit(Release(s).log))
  {
    hide SameWire, Audit, DestroyAll;
    SameWireItself(Audit(s.log));
    DestroyAllWire(s.(refs := s.refs - 1));
  }

  lemma {:induction false} ReleaseKeeps(s: State)
    requires Core(s, {}) && !s.dead && s.owners >= 0 && s.mem.pins >= 0
    requires s.refs == s.owners + s.mem.pins + (if s.watch then 1 else 0) + 1
    ensures var t := Release(s);
            Core(t, {}) && if t.dead then Gone(t) && t.stale == s.stale else t == s.(refs := s.refs - 1) && Counted(t)
  {
    var t := s.(refs := s.refs - 1);
    assert Core(t, {}) by { hide Agree; }
    hide Core;
    if t.refs == 0 { DestroyAllKeeps(t, {}); }
  }

  lemma {:induction false} SleepKeeps(s: State)
    requires Core(s, {}) && Counted(s) && Clean(s) && Kept(s) && s.watch
    requires s.stale || s.faulted || !Work(s)
    requires (!s.stale ==> Flight(s)) && (s.stale ==> s.requests == [])
    ensures Inv(Sleep(s))
  {
    assert Core(s.(watch := false), {});
    hide Core;
    ReleaseKeeps(s.(watch := false));
  }

  lemma {:induction false} WriteKeeps(s: State)
    requires Core(s, {}) && Flight(s)
    ensures s.responses != [] ==>
              Core(WriteResponse(s), {}) && Flight(WriteResponse(s)) && (Kept(s) ==> Kept(WriteResponse(s)))
    ensures s.responses == [] && s.requests != [] && s.requests[0].expected == 0 ==>
              Core(WriteCommand(s), {}) && Flight(WriteCommand(s)) && (Kept(s) ==> Kept(WriteCommand(s)))
    ensures s.responses == [] && s.requests != [] && s.requests[0].expected != 0 && !s.requests[0].sent
            ==> Core(WriteTransaction(s), {}) && Flight(WriteTransaction(s)) && (Kept(s) ==> Kept(WriteTransaction(s)))
                && WriteTransaction(s).requests[0].sent && s.timer.None?
  {
    hide Core, Flight, WriteResponse, WriteCommand, WriteTransaction;
    if s.responses != [] {
      WriteResponseKeeps(s);
    } else if s.requests != [] && s.requests[0].expected == 0 {
      WriteCommandKeeps(s);
    } else if s.requests != [] && !s.requests[0].sent {
      WriteTransactionKeeps(s);
    }
  }

  lemma {:induction false} WriteResponseKeeps(s: State)
    requires Core(s, {}) && Flight(s) && s.responses != []
    ensures Core(WriteResponse(s), {}) && Flight(WriteResponse(s)) && (Kept(s) ==> Kept(WriteResponse(s)))
  {
    hide Agree;
    var b, c := Audit(s.log), s.responses[0];
    AuditAppend(s.log, Wrote(c));
    AuditAppend(s.log + [Wrote(c)], Destroyed(c));
    AnswerOpensNothing(b, s.requests, s.responses);
    WriteAnswer(b, s.requests, s.responses);
  }

  lemma {:induction false} WriteCommandKeeps(s: State)
    requires Core(s, {}) && Flight(s) && s.responses == [] && s.requests != [] && s.requests[0].expected == 0
    ensures Core(WriteCommand(s), {}) && Flight(WriteCommand(s)) && (Kept(s) ==> Kept(WriteCommand(s)))
  {
    hide Agree;
    var b, c := Audit(s.log), s.requests[0];
    AuditAppend(s.log, Wrote(c));
    AuditAppend(s.log + [Wrote(c)], Destroyed(c));
    WriteHead(b, s.requests, s.responses);
  }

  lemma {:induction false} WriteTransactionKeeps(s: State)
    requires Core(s, {}) && Flight(s) && s.responses == [] && s.requests != [] && s.requests[0].expected != 0
             && !s.requests[0].sent
    ensures var t := WriteTransaction(s);
            Core(t, {}) && Flight(t) && (Kept(s) ==> Kept(t)) && t.requests[0].sent && s.timer.None?
  {
    hide Agree;
    var c := s.requests[0];
    AuditAppend(s.log, Wrote(c));
    OpenTransaction(Audit(s.log), s.requests, s.responses);
  }

  lemma {:induction false} AnswerOpensNothing(b: Book, rq: seq<Command>, rs: seq<Command>)
    requires rs != [] && Agree(b, rq, rs, {})
    ensures rs[0].expected == 0
  {
  }

  lemma {:induction false} WritableKeeps(s: State, outcome: Outcome)
    requires Inv(s) && !s.dead && s.watch
    ensures Inv(Writable(s, outcome))
  {
    var f := s.(faulted := true);
    assert Core(f, {}) && (!s.stale ==> Flight(f)) && Counted(f) && Clean(f);
    hide Core, Flight, Sleep, WriteResponse, WriteCommand, WriteTransaction;
    if s.stale {
      SleepKeeps(s);
    } else if outcome.HangUp? {
      SleepKeeps(f);
    } else {
      WriteKeeps(s);
      WriteLeaves(s);
      if s.responses != [] || (s.requests != [] && !s.requests[0].sent) {
        if outcome.Refused? {
          SleepKeeps(f);
        } else if s.responses == [] && s.requests[0].expected != 0 {
          SleepKeeps(WriteTransaction(s));
        }
      } else {
        SleepKeeps(s);
      }
    }
  }

  lemma {:induction false} WriteLeaves(s: State)
    ensures s.responses != [] ==> WriteFrame(s, WriteResponse(s))
    ensures s.requests != [] ==> WriteFrame(s, WriteCommand(s))
    ensures s.requests != [] ==> WriteFrame(s, WriteTransaction(s)) && WriteTransaction(s).responses == s.responses
  {
  }

  /** What writing leaves alone. */
  predicate WriteFrame(s: State, t: State) {
    && t.watch == s.watch && t.stale == s.stale && t.dead == s.dead
    && (Counted(s) ==> Counted(t)) && (Clean(s) ==> Clean(t))
  }

  // ----- disconnect_timeout -----

  lemma {:induction false} FlushKeeps(s: State, status: byte, scripts: seq<Script>)
    requires Core(s, {}) && Counted(s) && s.mem.pins > 0 && (status == ATT_ECODE_TIMEOUT || status == ATT_ECODE_ABORTED)
    requires ProperFlush(s, status, scripts)
    ensures var t := Flush(s, status, scripts);
            && Core(t, {}) && Counted(t) && SameFlags(s, t) && t.mem.wild == s.mem.wild
            && SameWire(Audit(s.log), Audit(t.log)) && (Kept(s) ==> Kept(t))
    decreases |scripts|, |s.requests|
  {
    hide Core, Deliver, SameWire, Due, Counted, Flush, Audit, ProperFlush, ProperCall, Quiet, Kept;
    FlushUnfolds(s, status, scripts);
    if s.requests == [] {
      SameWireItself(Audit(s.log));
    } else {
      ProperFlushUnfolds(s, status, scripts);
      var c := s.requests[0];
      var script := if c.func && scripts != [] then scripts[0] else [];
      var rest := if c.func && scripts != [] then scripts[1..] else scripts;
      var p := s.(requests := s.requests[1..]);
      var t := Deliver(p, c, status, [], script);
      SilentDelivery(p, c, status);
      TakenByTimeout(s, status);
      DeliverKeeps(p, c, status, [], script);
      PinnedSurvives(p, t);
      FlushKeeps(t, ATT_ECODE_ABORTED, rest);
      SameWireThen(Audit(p.log), Audit(t.log), Audit(Flush(s, status, scripts).log));
    }
  }

  /** While a timeout holds its own reference no callback can free the object. */
  lemma {:induction false} PinnedSurvives(s: State, t: State)
    requires Quiet(s, t) && Counted(s) && s.mem.pins > 0
    ensures !t.dead && Counted(t) && SameFlags(s, t) && t.mem.wild == s.mem.wild
    ensures SameWire(Audit(s.log), Audit(t.log)) && (Kept(s) ==> Kept(t))
  {
  }

  lemma {:induction false} ProperFlushUnfolds(s: State, status: byte, scripts: seq<Script>)
    requires ProperFlush(s, status, scripts) && s.requests != []
    ensures var c := s.requests[0];
            var script := if c.func && scripts != [] then scripts[0] else [];
            var rest := if c.func && scripts != [] then scripts[1..] else scripts;
            var p := s.(requests := s.requests[1..]);
            ProperCall(p, c, status, [], script) && ProperFlush(Deliver(p, c, status, [], script), ATT_ECODE_ABORTED,
                rest)
  {
    hide ProperCall, Deliver;
  }

  lemma {:induction false} FlushUnfolds(s: State, status: byte, scripts: seq<Script>)
    ensures Flush(s, status, scripts) ==
            if s.requests == [] then s
            else
              var c := s.requests[0];
              var script := if c.func && scripts != [] then scripts[0] else [];
              var rest := if c.func && scripts != [] then scripts[1..] else scripts;
              Flush(Deliver(s.(requests := s.requests[1..]), c, status, [], script), ATT_ECODE_ABORTED, rest)
  {
    hide Deliver;
  }

  lemma {:induction false} SameWireItself(b: Book)
    ensures SameWire(b, b)
  {
  }

  lemma {:induction false} SilentDelivery(s: State, c: Command, status: byte)
    ensures Deliver(s, c, status, [], []).requests == s.requests
  {
  }

  lemma {:induction false} TakenByTimeout(s: State, status: byte)
    requires s.requests != [] && Core(s, {}) && Counted(s) && (status == ATT_ECODE_TIMEOUT
             || status == ATT_ECODE_ABORTED)
    ensures var c, p := s.requests[0], s.(requests := s.requests[1..]);
            && Core(p, {c.serial}) && !p.dead && Counted(p) && p.mem.pins == s.mem.pins
            && InFlight(p.requests).None? && Due(Audit(p.log), c, status, []) && Kept(p) == Kept(s) && SameFlags(s, p)
  {
    TakeRequest(Audit(s.log), s.requests, s.responses, {});
    assert {} + {s.requests[0].serial} == {s.requests[0].serial};
    hide RequestLine, ResponseLine, InFlight;
  }

  lemma {:induction false} SameWireThen(b: Book, c: Book, d: Book)
    requires SameWire(b, c) && SameWire(c, d)
    ensures SameWire(b, d)
  {
  }

  lemma {:induction false} FireKeeps(s: State, scripts: seq<Script>)
    requires Inv(s) && !s.dead && !s.stale && ProperFlush(Pin(s), ATT_ECODE_TIMEOUT, scripts)
    ensures Inv(Fire(s, scripts)) && (!Fire(s, scripts).dead ==> Fire(s, scripts).stale)
  {
    PinKeeps(s);
    hide Inv, Core, Counted, Flush, Audit, SameWire, Flight, ProperFlush, Release;
    FlushKeeps(Pin(s), ATT_ECODE_TIMEOUT, scripts);
    Unpin(s, Flush(Pin(s), ATT_ECODE_TIMEOUT, scripts));
  }

  lemma {:induction false} PinKeeps(s: State)
    requires Inv(s) && !s.dead
    ensures Core(Pin(s), {}) && Counted(Pin(s)) && Kept(Pin(s)) && Clean(s)
  {
    hide Agree, Audit, Flight, Wakeful;
  }

  /** The end of disconnect_timeout. */
  lemma {:induction false} Unpin(s: State, t: State)
    requires Clean(s) && Core(t, {}) && Counted(t) && Kept(t) && SameFlags(Pin(s), t) && t.mem.wild == s.mem.wild
             && t.requests == []
    ensures var d := t.(stale := true);
            var u := Release(d.(mem := d.mem.(pins := d.mem.pins - 1)));
            Inv(if u.dead then u else u.(mem := u.mem.(fired := true))) && u.stale
  {
    var d := t.(stale := true, mem := t.mem.(pins := t.mem.pins - 1));
    assert Core(d, {}) by { hide Agree; }
    hide Core, Release, Audit;
    ReleaseKeeps(d);
    var u := Release(d);
    if !u.dead { FiredIsSafe(d, u); }
  }

  lemma {:induction false} FiredIsSafe(d: State, u: State)
    requires Core(u, {}) && Counted(u) && u == d.(refs := d.refs - 1)
    requires d.stale && d.requests == [] && Kept(d) && d.mem.pins == 0 && !d.mem.touched && !d.mem.wild
    ensures Inv(u.(mem := u.mem.(fired := true)))
  {
    hide Agree, Audit, Flight;
  }

  // ----- whole runs -----

  lemma {:induction false} StepKeeps(s: State, step: Step)
    requires Inv(s) && Enabled(s, step)
    ensures Inv(Apply(s, step))
  {
    hide Inv, Act, Writable, Readable, ReadFailure, Fire, Release, ProperReading, ProperFlush;
    match step
    case UserCall(a) => UserCallKeeps(s, a);
    case WritableStep(outcome) => WritableKeeps(s, outcome);
    case ReadableStep(rx, events, script) => ReadableKeeps(s, rx, events, script);
    case ReadFailureStep => ReadFailureKeeps(s);
    case TimeoutStep(scripts) => FireKeeps(s, scripts);
  }

  lemma {:induction false} UserCallKeeps(s: State, a: Action)
    requires Inv(s) && CanAct(s, a)
    ensures Inv(Act(s, a, 0))
  {
    var t := Act(s, a, 0);
    ActKeeps(s, a, 0, {});
    hide Act, Core, SameWire, InFlight, Flight;
    if !t.dead {
      FlightAcross(s, t);
      if s.stale { ActOnStale(s, a); }
    }
  }

  lemma {:induction false} ReadFailureKeeps(s: State)
    requires Inv(s) && !s.dead
    ensures Inv(ReadFailure(s))
  {
    hide Core, Flight;
    CoreOfWakeUp(s);
  }

  /** Nothing is accepted after a timeout. */
  lemma {:induction false} ActOnStale(s: State, a: Action)
    requires s.stale && s.requests == []
    ensures Act(s, a, 0).requests == []
  {
  }

  /** The invariant holds in every reachable state. */
  lemma {:induction false} RunsAreSafe(steps: seq<Step>)
    requires Legal(steps)
    ensures Inv(Run(steps))
  {
    if steps == [] {
      assert Serials([]) == {};
    } else {
      var before := steps[..|steps| - 1];
      RunsAreSafe(before);
      StepKeeps(Run(before), steps[|steps| - 1]);
    }
  }
}
