/**
 Long reads on top of the scheduler, with any other traffic around them: who
 owns the shared record of a read, when it is freed, and what its user gets.
 */
module LongReadChain {
  import opened Octets
  import opened Scheduler
  import opened Ledger
  import opened SchedulerSafety
  import opened SchedulerTheorems
  import opened AttPdu
  import opened LongRead

  /** What the user of a read was given; `cause` is the status the transport gave to the last callback. */
  datatype Result = Result(status: byte, bytes: seq<byte>, cause: byte)

  /**
   struct read_long_data as the code's own operations on it leave it.  `ok`
   records that none touched freed memory, `cancelled` that a command of the
   read was cancelled, `lost` that the record was freed with neither a result
   nor a cancel.
   */
  datatype Rec = Rec(
    ref: int, freed: bool, ok: bool, handle: u16, bytes: seq<byte>, result: Option<Result>, cancelled: bool, lost: bool)

  const UNUSED := Rec(0, false, true, 0, [], None, false, false)

  /** The setting: the MTU, and whether the peer is a server whose values are `srv`. */
  datatype World = World(mtu: nat, trust: bool, srv: u16 -> seq<byte>)

  predicate Mine(c: Command, x: nat) {
    c.id == x && !c.role.Plain?
  }

  function HandleOf(c: Command): u16 {
    GetU16(Window(c.pdu, 1, 2))
  }

  function React(c: Command, bytes: seq<byte>, status: byte, rx: seq<byte>, mtu: nat): Reaction {
    if c.role.ReadFirst? then ReadCharHelper(status, rx, mtu) else ReadBlobHelper(bytes, status, rx, mtu)
  }

  predicate Settled(r: Rec) {
    r.result.Some? || r.cancelled
  }

  /** The increments, decrements and uses that gatt.c makes of the record with id x. */
  function RecPost(r: Rec, e: Event, x: nat, mtu: nat): Rec {
    match e
    case Accepted(c) =>
      if !Mine(c, x) then r
      else if c.role.ReadFirst? then r.(ref := r.ref + 1, handle := HandleOf(c), ok := r == UNUSED)
      else r.(ref := r.ref + 1, ok := r.ok && !r.freed && r.ref == 1)
    case Called(c, status, rx, _) =>
      if !Mine(c, x) then r
      else
        var r' := r.(ok := r.ok && !r.freed && r.ref == 1 && r.result.None?);
        (match React(c, r.bytes, status, rx, mtu)
         case Ask(bytes) => r'.(bytes := bytes)
         case Report(st, bytes) => r'.(result := Some(Result(st, bytes, status))))
    case Destroyed(c) =>
      if !Mine(c, x) then r
      else r.(ref := r.ref - 1, freed := r.ref == 1, ok := r.ok && !r.freed && r.ref >= 1,
              lost := r.lost || (r.ref == 1 && !Settled(r)))
    case Cancelled(c) => if !Mine(c, x) then r else r.(cancelled := true)
    case _ => r
  }

  function RecOf(log: seq<Event>, x: nat, mtu: nat): Rec {
    if log == [] then UNUSED else RecPost(RecOf(log[..|log| - 1], x, mtu), log[|log| - 1], x, mtu)
  }

  lemma {:induction false} RecAppend(log: seq<Event>, e: Event, x: nat, mtu: nat)
    ensures RecOf(log + [e], x, mtu) == RecPost(RecOf(log, x, mtu), e, x, mtu)
    ensures !e.Destroyed? ==> RecOf(log + [e], x, mtu).lost == RecOf(log, x, mtu).lost
  {
    assert (log + [e])[..|log|] == log;
  }

  /** The queued commands that point at the record with id x. */
  function Own(q: seq<Command>, x: nat): seq<Command> {
    if q == [] then [] else OneOf(q[0], x) + Own(q[1..], x)
  }

  function OneOf(c: Command, x: nat): seq<Command> {
    if Mine(c, x) then [c] else []
  }

  lemma {:induction false} OwnConcat(p: seq<Command>, q: seq<Command>, x: nat)
    ensures Own(p + q, x) == Own(p, x) + Own(q, x)
  {
    hide Own, OneOf;
    if p == [] {
      OwnNothing(x);
      assert p + q == q && [] + Own(q, x) == Own(q, x);
    } else {
      OwnSplit(p + q, x);
      OwnSplit(p, x);
      OwnConcat(p[1..], q, x);
      assert (p + q)[1..] == p[1..] + q && (p + q)[0] == p[0];
      Associate(OneOf(p[0], x), Own(p[1..], x), Own(q, x));
    }
  }

  lemma {:induction false} OwnNothing(x: nat)
    ensures Own([], x) == []
  {
  }

  lemma {:induction false} OwnSplit(q: seq<Command>, x: nat)
    requires q != []
    ensures Own(q, x) == OneOf(q[0], x) + Own(q[1..], x)
  {
  }

  lemma {:induction false} Associate(a: seq<Command>, b: seq<Command>, c: seq<Command>)
    ensures a + (b + c) == a + b + c
  {
  }

  lemma {:induction false} OwnOne(c: Command, x: nat)
    ensures Own([c], x) == OneOf(c, x)
  {
    assert [c][1..] == [];
  }

  lemma {:induction false} OwnRemoved(q: seq<Command>, i: nat, x: nat)
    requires i < |q|
    ensures Mine(q[i], x) && |Own(q, x)| <= 1 ==> Own(q, x) == [q[i]] && Own(RemoveAt(q, i), x) == []
    ensures !Mine(q[i], x) ==> Own(RemoveAt(q, i), x) == Own(q, x)
  {
    assert q == q[..i] + ([q[i]] + q[i + 1..]);
    OwnConcat(q[..i], [q[i]] + q[i + 1..], x);
    OwnConcat([q[i]], q[i + 1..], x);
    OwnConcat(q[..i], q[i + 1..], x);
    OwnOne(q[i], x);
  }

  // ----- the invariant of one record -----

  /** The octets collected so far are the opcode and a prefix of the value. */
  predicate Collected(bytes: seq<byte>, value: seq<byte>) {
    1 <= |bytes| <= |value| + 1 && bytes == [0x0B] + value[..|bytes| - 1]
  }

  /** A command of the read asks for exactly what comes next. */
  predicate Good(c: Command, r: Rec, w: World) {
    && c.expected != 0 && c.notify && (c.func || r.cancelled) && HandleOf(c) == r.handle
    && (c.role.ReadFirst? ==> r.bytes == [] && c.opcode == 0x0A && c.pdu == EncWord(0x0A, r.handle, w.mtu))
    && (c.role.ReadNext? ==> c.opcode == 0x0C && c.pdu == EncWords(0x0C, r.handle, NextOffset(r.bytes), w.mtu))
    && (c.role.ReadNext? && w.trust ==> Collected(r.bytes, w.srv(r.handle)))
  }

  /**
   Success means a prefix of the value, and the whole value unless an error
   ended the read.  The user is told of an error only if it ended the first
   round; a later one is reported as success, with what had been collected.
   */
  predicate Honest(r: Rec, w: World) {
    w.trust && r.result.Some? ==>
      var all, res := [0x0B] + w.srv(r.handle), r.result.value;
      && (res.status == 0 ==> res.bytes <= all)
      && (res.cause == 0 ==> res.status == 0 && res.bytes == all)
      && res.status == (if r.bytes == [] then res.cause else 0)
      && (r.bytes != [] && res.cause != 0 ==> res.bytes == r.bytes)
  }

  /** `held` is 1 while a command of the read has been popped and not yet destroyed. */
  predicate Sound(r: Rec, own: seq<Command>, held: nat, w: World) {
    && r.ok && |own| <= 1 && r.ref == |own| + held
    && (r.ref > 0 ==> !r.freed) && (r.ref == 0 ==> r.freed || r == UNUSED)
    && (own != [] ==> r.result.None? && Good(own[0], r, w))
    && (r.freed ==> r.lost || Settled(r))
    && Honest(r, w)
  }

  /** What is said about values needs a server whose values can be delivered (LongRead.Deliverable). */
  predicate Usable(w: World) {
    23 <= w.mtu && (w.trust ==> w.mtu <= RX_BUFFER && forall h: u16 :: |w.srv(h)| + 1 < SIZE_MODULUS)
  }

  /** Identifiers have not wrapped around, and only requests carry reads. */
  predicate Numbered(s: State) {
    && s.nextId <= s.accepted
    && (forall i :: 0 <= i < |s.requests| ==> 0 < s.requests[i].id <= s.nextId)
    && (forall i :: 0 <= i < |s.responses| ==> s.responses[i].role.Plain?)
  }

  predicate Chain(s: State, x: nat, held: nat, w: World) {
    && Numbered(s)
    && Sound(RecOf(s.log, x, w.mtu), Own(s.requests, x), held, w)
    && (x > s.nextId ==> RecOf(s.log, x, w.mtu) == UNUSED)
    && (!s.dead ==> !RecOf(s.log, x, w.mtu).lost)
  }

  lemma {:induction false} NumberedRemoval(s: State, i: nat)
    requires Numbered(s)
    ensures i < |s.requests| ==> Numbered(s.(requests := RemoveAt(s.requests, i)))
    ensures i < |s.responses| ==> Numbered(s.(responses := RemoveAt(s.responses, i)))
  {
  }

  lemma {:induction false} NumberedHead(s: State)
    requires Numbered(s) && s.requests != []
    ensures Numbered(s.(requests := s.requests[1..]))
    ensures Numbered(s.(requests := s.requests[0 := s.requests[0].(func := false)]))
    ensures Numbered(s.(requests := s.requests[0 := s.requests[0].(sent := true)]))
  {
  }

  /** Numbered looks at nothing but the queues and the two counters. */
  lemma {:induction false} NumberedAcross(s: State, t: State)
    requires Numbered(s) && t.requests == s.requests && t.responses == s.responses && t.nextId == s.nextId
             && t.accepted == s.accepted
    ensures Numbered(t)
  {
  }

  // ----- what user code may do: gatt.c is the only caller that reuses an id -----

  /** gatt_read_char, or a call that has nothing to do with reads. */
  predicate Ordinary(a: Action, w: World) {
    && !a.Resend?
    && (a.Send? && !a.role.Plain? ==>
          && a.role.ReadFirst? && a.opcode == 0x0A && a.func && a.notify
          && |a.pdu| == 3 && a.pdu == EncWord(0x0A, GetU16(a.pdu[1..]), w.mtu))
  }

  predicate OrdinaryScript(script: Script, w: World) {
    forall i :: 0 <= i < |script| ==> Ordinary(script[i], w)
  }

  /** The one call read_char_helper and read_blob_helper make when they ask for more. */
  function AskMore(c: Command, bytes: seq<byte>, mtu: nat): Action {
    Resend(0x0C, EncWords(0x0C, HandleOf(c), NextOffset(bytes), mtu), true, true, ReadNext)
  }

  /** The calls of a result function: those of gatt.c for reads, anything ordinary otherwise. */
  predicate Obeys(script: Script, c: Command, log: seq<Event>, status: byte, rx: seq<byte>, w: World) {
    c.func ==>
      if c.role.Plain? then OrdinaryScript(script, w)
      else match React(c, RecOf(log, c.id, w.mtu).bytes, status, rx, w.mtu)
           case Ask(bytes) => script == [AskMore(c, bytes, w.mtu)]
           case Report(_, _) => OrdinaryScript(script, w)
  }

  // ----- calls into the scheduler -----

  lemma {:induction false} AcceptedSound(r: Rec, own: seq<Command>, c: Command, x: nat, w: World, held: nat)
    requires Sound(r, own, held, w) && (Mine(c, x) ==> r == UNUSED && StartsRead(c, w))
    ensures Sound(RecPost(r, Accepted(c), x, w.mtu), own + OneOf(c, x), held, w)
  {
    if Mine(c, x) { assert own == [] && held == 0; }
  }

  predicate StartsRead(c: Command, w: World) {
    && c.role.ReadFirst? && c.expected != 0 && c.notify && c.func && c.opcode == 0x0A
       && c.pdu == EncWord(0x0A, HandleOf(c), w.mtu)
  }

  lemma {:induction false} NumberedPush(s: State, c: Command, t: State)
    requires Numbered(s) && (!c.role.Plain? ==> !c.response) && 0 < c.id <= t.nextId
             && s.nextId <= t.nextId <= t.accepted
    requires t.requests == (if c.response then s.requests else if c.tail then s.requests + [c] else [c] + s.requests)
    requires t.responses == (if c.response then s.responses + [c] else s.responses)
    ensures Numbered(t)
  {
  }

  lemma {:induction false} OwnPush(q: seq<Command>, c: Command, x: nat)
    ensures Own(q + [c], x) == Own(q, x) + OneOf(c, x)
    ensures Own([c] + q, x) == OneOf(c, x) + Own(q, x)
  {
    OwnConcat(q, [c], x);
    OwnConcat([c], q, x);
    OwnOne(c, x);
  }

  lemma {:induction false} AcceptChain(s: State, c: Command, x: nat, held: nat, w: World)
    requires Chain(s, x, held, w) && c.id == s.nextId + 1 && c.tail
             && (!c.role.Plain? ==> StartsRead(c, w) && !c.response)
    ensures Chain(Push(Note(s, Accepted(c)).(accepted := s.accepted + 1, nextId := c.id), c), x, held, w)
  {
    hide Sound, StartsRead, RecOf, Own, Push, RecPost, Numbered, UNUSED;
    var t := Push(Note(s, Accepted(c)).(accepted := s.accepted + 1, nextId := c.id), c);
    NumberedCounters(s);
    NumberedPush(s, c, t);
    RecAppend(s.log, Accepted(c), x, w.mtu);
    OwnPush(s.requests, c, x);
    AcceptedSound(RecOf(s.log, x, w.mtu), Own(s.requests, x), c, x, w, held);
    if !Mine(c, x) { NotMine(RecOf(s.log, x, w.mtu), c, x, w.mtu); }
  }

  lemma {:induction false} NumberedCounters(s: State)
    requires Numbered(s)
    ensures s.nextId <= s.accepted
  {
  }

  lemma {:induction false} NotMine(r: Rec, c: Command, x: nat, mtu: nat)
    requires !Mine(c, x)
    ensures RecPost(r, Accepted(c), x, mtu) == r && RecPost(r, Destroyed(c), x, mtu) == r
  {
  }

  lemma {:induction false} NewRead(s: State, a: Action, w: World)
    requires Ordinary(a, w) && a.Send? && !s.stale && s.nextId + 1 < GUINT_MODULUS
    ensures var c := NewCommand(s, 0, a); c.id == s.nextId + 1 && (!c.role.Plain? ==> StartsRead(c, w) && !c.response)
  {
    if !a.role.Plain? {
      assert Window(a.pdu, 1, 2) == a.pdu[1..3] && a.pdu[1..3] == a.pdu[1..];
    }
  }

  lemma {:induction false} EnqueueChain(s: State, a: Action, x: nat, held: nat, w: World)
    requires Chain(s, x, held, w) && Ordinary(a, w) && a.Send? && s.accepted + 1 < GUINT_MODULUS
    ensures Chain(Enqueue(s, 0, a), x, held, w)
  {
    if !s.stale {
      var c := NewCommand(s, 0, a);
      NumberedCounters(s);
      NewRead(s, a, w);
      hide NewCommand, Push, Chain, StartsRead, Ordinary;
      AcceptChain(s, c, x, held, w);
    }
  }

  lemma {:induction false} DestroyedSound(r: Rec, own: seq<Command>, c: Command, x: nat, w: World, held: nat)
    requires Sound(r, own, held, w) && Mine(c, x) && (own == [c] || held >= 1)
    ensures own == [c] ==> Sound(RecPost(r, Destroyed(c), x, w.mtu), [], held, w)
    ensures held >= 1 ==> Sound(RecPost(r, Destroyed(c), x, w.mtu), own, held - 1, w)
  {
  }

  lemma {:induction false} CancelRequestChain(s: State, i: nat, x: nat, held: nat, w: World)
    requires i < |s.requests| && Chain(s, x, held, w)
    ensures Chain(CancelRequest(s, i), x, held, w)
  {
    var c := s.requests[i];
    if i == 0 && c.sent { SilencedChain(s, x, held, w); } else { RemovedChain(s, i, x, held, w); }
    hide Chain;
  }

  lemma {:induction false} SilencedChain(s: State, x: nat, held: nat, w: World)
    requires s.requests != [] && Chain(s, x, held, w)
    ensures var c := s.requests[0];
            Chain(Note(s, Cancelled(c)).(requests := s.requests[0 := c.(func := false)]), x, held, w)
  {
    hide Sound, RecOf, Own, Numbered, UNUSED;
    var c := s.requests[0];
    RecAppend(s.log, Cancelled(c), x, w.mtu);
    SilencedSound(RecOf(s.log, x, w.mtu), s.requests, x, held, w);
    if Mine(c, x) { IdBound(s, 0); }
    NumberedHead(s);
    var t := Note(s, Cancelled(c)).(requests := s.requests[0 := c.(func := false)]);
    NumberedAcross(s.(requests := t.requests), t);
  }

  lemma {:induction false} RemovedChain(s: State, i: nat, x: nat, held: nat, w: World)
    requires i < |s.requests| && Chain(s, x, held, w)
    ensures var c := s.requests[i];
            Chain(Note(Note(s, Cancelled(c)).(requests := RemoveAt(s.requests, i)), Destroyed(c)), x, held, w)
  {
    hide Sound, RecOf, Own, Numbered, RemoveAt, UNUSED;
    var c, r := s.requests[i], RecOf(s.log, x, w.mtu);
    RecAppend(s.log, Cancelled(c), x, w.mtu);
    RecAppend(s.log + [Cancelled(c)], Destroyed(c), x, w.mtu);
    OwnRemoved(s.requests, i, x);
    NumberedRemoval(s, i);
    var t := Note(Note(s, Cancelled(c)).(requests := RemoveAt(s.requests, i)), Destroyed(c));
    NumberedAcross(s.(requests := t.requests), t);
    if Mine(c, x) {
      OwnIsShort(r, s.requests, x, held, w);
      CancelledSound(r, Own(s.requests, x), c, x, held, w);
      DestroyedSound(RecPost(r, Cancelled(c), x, w.mtu), Own(s.requests, x), c, x, w, held);
      IdBound(s, i);
    }
  }

  lemma {:induction false} CancelledSound(r: Rec, own: seq<Command>, c: Command, x: nat, held: nat, w: World)
    requires Sound(r, own, held, w) && own == [c]
    ensures Sound(RecPost(r, Cancelled(c), x, w.mtu), own, held, w)
  {
  }

  lemma {:induction false} OwnIsShort(r: Rec, q: seq<Command>, x: nat, held: nat, w: World)
    requires Sound(r, Own(q, x), held, w)
    ensures |Own(q, x)| <= 1
  {
  }

  lemma {:induction false} IdBound(s: State, i: nat)
    requires Numbered(s) && i < |s.requests|
    ensures 0 < s.requests[i].id <= s.nextId
  {
  }

  lemma {:induction false} SilencedSound(r: Rec, q: seq<Command>, x: nat, held: nat, w: World)
    requires q != [] && Sound(r, Own(q, x), held, w)
    ensures Sound(RecPost(r, Cancelled(q[0]), x, w.mtu), Own(q[0 := q[0].(func := false)], x), held, w)
    ensures Sound(r, Own(q[0 := q[0].(sent := true)], x), held, w)
  {
    var quiet, sent := q[0].(func := false), q[0].(sent := true);
    assert q[0 := quiet][1..] == q[1..] && q[0 := sent][1..] == q[1..];
    OwnSplit(q, x);
    OwnSplit(q[0 := quiet], x);
    OwnSplit(q[0 := sent], x);
    hide Own;
    HeadSound(r, q[0], quiet, Own(q[1..], x), x, held, w);
    HeadSound(r, q[0], sent, Own(q[1..], x), x, held, w);
  }

  lemma {:induction false} HeadSound(r: Rec, c: Command, d: Command, rest: seq<Command>, x: nat, held: nat, w: World)
    requires Sound(r, OneOf(c, x) + rest, held, w) && (d == c.(func := false) || d == c.(sent := true))
    ensures Sound(if d.func == c.func then r else RecPost(r, Cancelled(c), x, w.mtu), OneOf(d, x) + rest, held, w)
    ensures d == c.(func := false) ==> Sound(RecPost(r, Cancelled(c), x, w.mtu), OneOf(d, x) + rest, held, w)
  {
  }

  lemma {:induction false} CancelResponseChain(s: State, i: nat, x: nat, held: nat, w: World)
    requires i < |s.responses| && Chain(s, x, held, w)
    ensures Chain(CancelResponse(s, i), x, held, w)
  {
    var c := s.responses[i];
    RecAppend(s.log, Cancelled(c), x, w.mtu);
    RecAppend(s.log + [Cancelled(c)], Destroyed(c), x, w.mtu);
    hide Sound;
  }

  lemma {:induction false} CancelRequestsFromChain(s: State, keep: nat, x: nat, held: nat, w: World)
    requires Chain(s, x, held, w)
    ensures Chain(CancelRequestsFrom(s, keep), x, held, w)
    decreases |s.requests|
  {
    if keep < |s.requests| && !(keep == 0 && s.requests[0].sent) {
      CancelRequestChain(s, keep, x, held, w);
      hide Chain;
      CancelRequestsFromChain(CancelRequest(s, keep), keep, x, held, w);
    }
  }

  lemma {:induction false} CancelAllResponsesChain(s: State, x: nat, held: nat, w: World)
    requires Chain(s, x, held, w)
    ensures Chain(CancelAllResponses(s), x, held, w)
    decreases |s.responses|
  {
    if s.responses != [] {
      CancelResponseChain(s, 0, x, held, w);
      hide Chain;
      CancelAllResponsesChain(CancelResponse(s, 0), x, held, w);
    }
  }

  lemma {:induction false} CancelAllChain(s: State, x: nat, held: nat, w: World)
    requires Chain(s, x, held, w)
    ensures Chain(CancelAllResponses(CancelAllRequests(s)), x, held, w)
  {
    hide Chain;
    var flying := InFlight(s.requests).Some?;
    var t := s;
    if flying { CancelRequestChain(s, 0, x, held, w); t := CancelRequest(s, 0); }
    CancelRequestsFromChain(t, if flying then 1 else 0, x, held, w);
    CancelAllResponsesChain(CancelAllRequests(s), x, held, w);
  }

  lemma {:induction false} ActChain(s: State, a: Action, own: nat, x: nat, held: nat, w: World)
    requires Chain(s, x, held, w) && CanAct(s, a) && Ordinary(a, w) && Act(s, a, own).accepted < GUINT_MODULUS
    ensures Chain(Act(s, a, own), x, held, w)
  {
    hide Chain, NewCommand, Push, CancelRequest, CancelResponse, Release;
    match a
    case Send(_, _, _, _, _) => if !s.stale { EnqueueChain(s, a, x, held, w); }
    case Cancel(id) =>
      var i, j := IndexOfId(s.requests, id), IndexOfId(s.responses, id);
      if i >= 0 { CancelRequestChain(s, i, x, held, w); } else if j >= 0 { CancelResponseChain(s, j, x, held, w); }
    case CancelAll => CancelAllChain(s, x, held, w);
    case Hold => SameChain(s, s.(refs := s.refs + 1, owners := s.owners + 1), x, held, w);
    case Drop =>
      SameChain(s, s.(owners := s.owners - 1), x, held, w);
      ReleaseChain(s.(owners := s.owners - 1), x, held, w);
  }

  lemma {:induction false} RunScriptChain(s: State, script: Script, own: nat, x: nat, held: nat, w: World,
        serials: set<nat>)
    requires Chain(s, x, held, w) && OrdinaryScript(script, w) && RunScript(s, script, own).accepted < GUINT_MODULUS
    requires Core(s, serials) && Proper(s, script, own) && (own != 0 ==> InFlight(s.requests).None?)
    ensures Chain(RunScript(s, script, own), x, held, w)
    decreases script
  {
    if script != [] {
      var t := Act(s, script[0], own);
      ActKeeps(s, script[0], own, serials);
      assert own != 0 ==> InFlight(t.requests).None?;
      hide Chain, Core, Quiet, Act, Ordinary;
      RunScriptKeeps(t, script[1..], own, serials);
      AcceptedGrows(t, RunScript(t, script[1..], own), serials);
      ActChain(s, script[0], own, x, held, w);
      RunScriptChain(t, script[1..], own, x, held, w, serials);
    }
  }

  lemma {:induction false} AcceptedGrows(s: State, t: State, serials: set<nat>)
    requires Core(s, serials) && Core(t, serials) && Quiet(s, t)
    ensures s.accepted <= t.accepted
  {
  }

  // ----- one reply -----

  function OffsetOf(c: Command): u16 {
    GetU16(Window(c.pdu, 3, 2))
  }

  /** Either an error, or exactly what the server holds. */
  predicate Truthful(c: Command, status: byte, rx: seq<byte>, w: World)
    requires 23 <= w.mtu
  {
    var value := w.srv(HandleOf(c));
    status == 0 ==>
      && (c.role.ReadFirst? ==> rx == AnswerRead(value, w.mtu))
      && (c.role.ReadNext? ==> OffsetOf(c) <= |value| && rx == AnswerBlob(value, OffsetOf(c), w.mtu))
  }

  lemma {:induction false} BlobRequestFields(c: Command, handle: u16, offset: u16, mtu: nat)
    requires mtu >= 5 && c.pdu == EncWords(0x0C, handle, offset, mtu)
    ensures HandleOf(c) == handle && OffsetOf(c) == offset
  {
    assert Window(c.pdu, 1, 2) == c.pdu[1..3] == PutU16(handle);
    assert Window(c.pdu, 3, 2) == c.pdu[3..5] == PutU16(offset);
  }

  /** The callbacks keep the octets collected so far correct, and report honestly. */
  lemma {:induction false} ReactsWell(c: Command, r: Rec, status: byte, rx: seq<byte>, w: World)
    requires Usable(w) && Good(c, r, w) && !c.role.Plain? && (w.trust ==> Truthful(c, status, rx, w))
    ensures match React(c, r.bytes, status, rx, w.mtu)
            case Ask(bytes) => status == 0 && (w.trust ==> Collected(bytes, w.srv(r.handle)))
            case Report(st, bytes) => Honest(r.(result := Some(Result(st, bytes, status))), w)
  {
    if w.trust {
      var value := w.srv(r.handle);
      if c.role.ReadFirst? {
        if status == 0 { assert |rx| < w.mtu ==> rx == [0x0B] + value; }
      } else {
        NextReacts(c, r, status, rx, w);
      }
    }
  }

  lemma {:induction false} NextReacts(c: Command, r: Rec, status: byte, rx: seq<byte>, w: World)
    requires Usable(w) && Good(c, r, w) && c.role.ReadNext? && w.trust && Truthful(c, status, rx, w)
    ensures match React(c, r.bytes, status, rx, w.mtu)
            case Ask(bytes) => status == 0 && Collected(bytes, w.srv(r.handle))
            case Report(st, bytes) => Honest(r.(result := Some(Result(st, bytes, status))), w)
  {
    hide EncWords, HandleOf, OffsetOf, AnswerBlob, AnswerRead, NextOffset, Round;
    var value := w.srv(r.handle);
    var k := |r.bytes| - 1;
    BlobRequestFields(c, r.handle, NextOffset(r.bytes), w.mtu);
    OffsetIsLength(r.bytes);
    assert r.bytes <= [0x0B] + value;
    if status == 0 { AnsweredBlob(value, w.mtu, k, r.bytes, rx); }
  }

  lemma {:induction false} OffsetIsLength(bytes: seq<byte>)
    requires 1 <= |bytes| <= SIZE_MODULUS
    ensures NextOffset(bytes) == |bytes| - 1
  {
  }

  /** The second callback on the server's own answer. */
  lemma {:induction false} AnsweredBlob(value: seq<byte>, mtu: nat, k: nat, bytes: seq<byte>, rx: seq<byte>)
    requires 2 <= mtu <= RX_BUFFER && k <= |value| && |value| + 1 < SIZE_MODULUS && bytes == [0x0B] + value[..k]
    requires rx == AnswerBlob(value, k, mtu)
    ensures ReadBlobHelper(bytes, 0, rx, mtu) ==
            if |value| - k < mtu - 1 then Report(0, [0x0B] + value) else Ask([0x0B] + value[..k + mtu - 1])
  {
    BlobRound(value, mtu, k);
    OffsetIsLength(bytes);
    hide AnswerBlob, NextOffset, ReadBlobHelper;
  }

  lemma {:induction false} CalledSound(r: Rec, c: Command, x: nat, status: byte, rx: seq<byte>, script: Script,
        w: World)
    requires Usable(w) && Mine(c, x) && Sound(r, [], 1, w) && r.result.None? && Good(c, r, w)
    requires w.trust ==> Truthful(c, status, rx, w)
    ensures Sound(RecPost(r, Called(c, status, rx, script), x, w.mtu), [], 1, w)
  {
    ReactsWell(c, r, status, rx, w);
    hide Good, Truthful, React;
  }

  lemma {:induction false} AskedSound(r: Rec, c: Command, d: Command, x: nat, status: byte, rx: seq<byte>,
        script: Script, w: World)
    requires Usable(w) && Mine(c, x) && Sound(r, [], 1, w) && r.result.None? && Good(c, r, w)
    requires w.trust ==> Truthful(c, status, rx, w)
    requires React(c, r.bytes, status, rx, w.mtu).Ask?
    requires d.id == x && d.role.ReadNext? && d.opcode == 0x0C && d.expected != 0 && d.notify && d.func
    requires d.pdu == EncWords(0x0C, HandleOf(c), NextOffset(React(c, r.bytes, status, rx, w.mtu).bytes), w.mtu)
    ensures var r' := RecPost(r, Called(c, status, rx, script), x, w.mtu);
            Sound(RecPost(r', Accepted(d), x, w.mtu), [d], 1, w)
  {
    ReactsWell(c, r, status, rx, w);
    BlobRequestFields(d, HandleOf(c), NextOffset(React(c, r.bytes, status, rx, w.mtu).bytes), w.mtu);
    hide Truthful, React, EncWords, NextOffset, HandleOf;
  }

  /** A popped command of the read is the one that asks for what comes next. */
  predicate Popped(r: Rec, c: Command, x: nat, w: World) {
    Mine(c, x) ==> r.result.None? && Good(c, r, w)
  }

  function HeldBy(c: Command, x: nat): nat {
    if Mine(c, x) then 1 else 0
  }

  lemma {:induction false} TakenSound(r: Rec, q: seq<Command>, x: nat, held: nat, w: World)
    requires q != [] && Sound(r, Own(q, x), held, w)
    ensures Sound(r, Own(q[1..], x), held + HeldBy(q[0], x), w) && Popped(r, q[0], x, w)
    ensures Mine(q[0], x) ==> Own(q, x) == [q[0]] && Own(q[1..], x) == [] && q[0].expected != 0
  {
  }

  lemma {:induction false} TakeChain(s: State, x: nat, held: nat, w: World)
    requires s.requests != [] && Chain(s, x, held, w)
    ensures var c := s.requests[0];
            && Chain(s.(requests := s.requests[1..]), x, held + HeldBy(c, x), w)
               && Popped(RecOf(s.log, x, w.mtu), c, x, w)
            && 0 < c.id <= s.nextId
  {
    hide Sound, RecOf, Own, Numbered, Popped;
    TakenSound(RecOf(s.log, x, w.mtu), s.requests, x, held, w);
    NumberedHead(s);
    IdBound(s, 0);
  }

  lemma {:induction false} DestroyChain(s: State, c: Command, x: nat, held: nat, w: World)
    requires Chain(s, x, held + HeldBy(c, x), w)
    requires s.dead || (Mine(c, x) ==> held == 0 && (Settled(RecOf(s.log, x, w.mtu)) || Own(s.requests, x) != []))
    ensures Chain(Note(s, Destroyed(c)), x, held, w)
  {
    hide Sound, RecOf, Own, Numbered, RecPost, UNUSED;
    RecAppend(s.log, Destroyed(c), x, w.mtu);
    NumberedAcross(s, Note(s, Destroyed(c)));
    if Mine(c, x) {
      UnusedIsIdle(s, x, held + 1, w);
      DestroyedSound(RecOf(s.log, x, w.mtu), Own(s.requests, x), c, x, w, held + 1);
      if !s.dead { NotLost(RecOf(s.log, x, w.mtu), Own(s.requests, x), c, x, w); }
    } else {
      NotMine(RecOf(s.log, x, w.mtu), c, x, w.mtu);
    }
  }

  lemma {:induction false} NotLost(r: Rec, own: seq<Command>, c: Command, x: nat, w: World)
    requires Sound(r, own, 1, w) && Mine(c, x) && !r.lost && (Settled(r) || own != [])
    ensures !RecPost(r, Destroyed(c), x, w.mtu).lost
  {
  }

  lemma {:induction false} UnusedIsIdle(s: State, x: nat, held: nat, w: World)
    requires Chain(s, x, held, w) && held >= 1
    ensures x <= s.nextId
  {
  }

  /** Events about other commands, and replies, do not touch the record. */
  lemma {:induction false} OtherEventChain(s: State, e: Event, x: nat, held: nat, w: World)
    requires Chain(s, x, held, w)
    requires e.Replied? || e.Wrote? || (e.Called? && !Mine(e.cmd, x))
    ensures Chain(Note(s, e), x, held, w)
  {
    hide Sound, Own, Numbered, UNUSED;
    RecAppend(s.log, e, x, w.mtu);
    NumberedAcross(s, Note(s, e));
  }

  lemma {:induction false} ResentCommand(s: State, c: Command, bytes: seq<byte>, w: World)
    requires !s.stale && c.id != 0
    ensures var a := AskMore(c, bytes, w.mtu); var d := NewCommand(s, c.id, a); var t := Enqueue(s, c.id, a);
            && d.id == c.id && d.role.ReadNext? && d.opcode == 0x0C && d.expected == 0x0D && d.notify && d.func
               && !d.response && !d.tail && d.pdu == a.pdu
            && t.log == s.log + [Accepted(d)] && t.requests == [d] + s.requests && t.responses == s.responses
            && t.nextId == s.nextId && t.accepted == s.accepted + 1 && t.dead == s.dead
  {
  }

  lemma {:induction false} ResendOther(s: State, c: Command, bytes: seq<byte>, x: nat, held: nat, w: World)
    requires Chain(s, x, held, w) && !s.stale && c.id != x && 0 < c.id <= s.nextId
    ensures Chain(Enqueue(s, c.id, AskMore(c, bytes, w.mtu)), x, held, w)
  {
    hide Sound, RecOf, Own, Numbered, RecPost, Enqueue, NewCommand, UNUSED;
    var a := AskMore(c, bytes, w.mtu);
    ResentCommand(s, c, bytes, w);
    var d, t := NewCommand(s, c.id, a), Enqueue(s, c.id, a);
    NumberedCounters(s);
    NumberedPush(s, d, t);
    RecAppend(s.log, Accepted(d), x, w.mtu);
    OwnPush(s.requests, d, x);
    assert OneOf(d, x) + Own(s.requests, x) == Own(s.requests, x);
    NotMine(RecOf(s.log, x, w.mtu), d, x, w.mtu);
  }

  lemma {:induction false} ResendMine(s: State, c: Command, x: nat, status: byte, rx: seq<byte>, script: Script,
        w: World)
    requires Usable(w) && Mine(c, x) && Chain(s, x, 1, w) && !s.stale && 0 < c.id <= s.nextId
             && Own(s.requests, x) == []
    requires Popped(RecOf(s.log, x, w.mtu), c, x, w) && (w.trust ==> Truthful(c, status, rx, w))
    requires React(c, RecOf(s.log, x, w.mtu).bytes, status, rx, w.mtu).Ask?
    ensures var a := AskMore(c, React(c, RecOf(s.log, x, w.mtu).bytes, status, rx, w.mtu).bytes, w.mtu);
            var t := Enqueue(Note(s, Called(c, status, rx, script)), c.id, a);
            Chain(t, x, 1, w) && Own(t.requests, x) != []
  {
    hide Sound, RecOf, Own, Numbered, RecPost, Enqueue, NewCommand, Good, Truthful, UNUSED, React;
    var r, e := RecOf(s.log, x, w.mtu), Called(c, status, rx, script);
    var bytes := React(c, r.bytes, status, rx, w.mtu).bytes;
    var p := Note(s, e);
    var a := AskMore(c, bytes, w.mtu);
    ResentCommand(p, c, bytes, w);
    var d, t := NewCommand(p, c.id, a), Enqueue(p, c.id, a);
    NumberedCounters(s);
    NumberedPush(s, d, t);
    RecAppend(s.log, e, x, w.mtu);
    RecAppend(p.log, Accepted(d), x, w.mtu);
    OwnPush(s.requests, d, x);
    assert OneOf(d, x) + [] == [d];
    AskedSound(r, c, d, x, status, rx, script, w);
  }

  lemma {:induction false} CallChain(s: State, c: Command, x: nat, status: byte, rx: seq<byte>, script: Script,
        w: World)
    requires Usable(w) && Chain(s, x, HeldBy(c, x), w) && (Mine(c, x) ==> Own(s.requests, x) == [])
    requires Popped(RecOf(s.log, x, w.mtu), c, x, w) && (w.trust ==> Truthful(c, status, rx, w))
    ensures Chain(Note(s, Called(c, status, rx, script)), x, HeldBy(c, x), w)
  {
    hide Sound, RecOf, Own, Numbered, RecPost, Good, Truthful, UNUSED;
    var e := Called(c, status, rx, script);
    if Mine(c, x) {
      UnusedIsIdle(s, x, 1, w);
      NumberedAcross(s, Note(s, e));
      RecAppend(s.log, e, x, w.mtu);
      CalledSound(RecOf(s.log, x, w.mtu), c, x, status, rx, script, w);
    } else {
      OtherEventChain(s, e, x, 0, w);
    }
  }

  lemma {:induction false} DeliverChain(s: State, c: Command, x: nat, status: byte, rx: seq<byte>, script: Script,
        w: World)
    requires Usable(w) && Chain(s, x, HeldBy(c, x), w) && (Mine(c, x) ==> Own(s.requests, x) == [])
    requires Popped(RecOf(s.log, x, w.mtu), c, x, w) && (w.trust && c.func ==> Truthful(c, status, rx, w))
    requires Obeys(script, c, s.log, status, rx, w) && (s.stale ==> status != 0) && 0 < c.id <= s.nextId
    requires Core(s, {c.serial}) && !s.dead && InFlight(s.requests).None? && Due(Audit(s.log), c, status, rx)
    requires ProperCall(s, c, status, rx, script)
    requires Deliver(s, c, status, rx, script).accepted < GUINT_MODULUS
    ensures Chain(Deliver(s, c, status, rx, script), x, 0, w)
  {
    var t := s;
    if c.func {
      CallKeeps(s, c, status, rx, script);
      CalledChain(s, c, x, status, rx, script, w);
      t := RunScript(Note(s, Called(c, status, rx, script)), script, c.id);
    } else if Mine(c, x) {
      SilencedIsSettled(RecOf(s.log, x, w.mtu), c, x, w);
    }
    hide Chain, RunScript;
    DestroyChain(t, c, x, 0, w);
  }

  lemma {:induction false} SilencedIsSettled(r: Rec, c: Command, x: nat, w: World)
    requires Popped(r, c, x, w) && Mine(c, x) && !c.func
    ensures Settled(r)
  {
  }

  /** Nothing but a callback changes the result, and a cancel is not taken back. */
  lemma {:induction false} SettledStays(s: State, t: State, n: nat, x: nat, mtu: nat)
    requires Appends(s, t) && |s.log| <= n <= |t.log| && Settled(RecOf(s.log, x, mtu))
    ensures Settled(RecOf(t.log[..n], x, mtu))
    decreases n
  {
    if n == |s.log| {
      assert t.log[..n] == s.log;
    } else {
      SettledStays(s, t, n - 1, x, mtu);
      assert t.log[..n][..n - 1] == t.log[..n - 1];
    }
  }

  lemma {:induction false} ScriptKeepsSettled(s: State, script: Script, own: nat, x: nat, mtu: nat)
    requires Settled(RecOf(s.log, x, mtu))
    ensures Settled(RecOf(RunScript(s, script, own).log, x, mtu))
  {
    hide RunScript, RecOf, Settled;
    var t := RunScript(s, script, own);
    RunScriptAppends(s, script, own);
    AppendsLength(s, t);
    SettledStays(s, t, |t.log|, x, mtu);
    assert t.log[..|t.log|] == t.log;
  }

  lemma {:induction false} AppendsLength(s: State, t: State)
    requires Appends(s, t)
    ensures |s.log| <= |t.log|
  {
  }

  /** A callback that does not ask for more has reported. */
  lemma {:induction false} ReportSettles(s: State, c: Command, x: nat, status: byte, rx: seq<byte>, script: Script,
        w: World)
    requires Mine(c, x) && React(c, RecOf(s.log, x, w.mtu).bytes, status, rx, w.mtu).Report?
    ensures Settled(RecOf(Note(s, Called(c, status, rx, script)).log, x, w.mtu))
  {
    hide React, RecOf;
    RecAppend(s.log, Called(c, status, rx, script), x, w.mtu);
  }

  lemma {:induction false} CalledChain(s: State, c: Command, x: nat, status: byte, rx: seq<byte>, script: Script,
        w: World)
    requires Usable(w) && Chain(s, x, HeldBy(c, x), w) && (Mine(c, x) ==> Own(s.requests, x) == [])
    requires Popped(RecOf(s.log, x, w.mtu), c, x, w) && (w.trust ==> Truthful(c, status, rx, w))
    requires c.func && Obeys(script, c, s.log, status, rx, w) && (s.stale ==> status != 0) && 0 < c.id <= s.nextId
    requires Core(Note(s, Called(c, status, rx, script)), {c.serial}) && InFlight(s.requests).None?
    requires Proper(Note(s, Called(c, status, rx, script)), script, c.id)
    requires RunScript(Note(s, Called(c, status, rx, script)), script, c.id).accepted < GUINT_MODULUS
    ensures var t := RunScript(Note(s, Called(c, status, rx, script)), script, c.id);
            Chain(t, x, HeldBy(c, x), w) && (Mine(c, x) ==> Settled(RecOf(t.log, x, w.mtu)) || Own(t.requests, x) != [])
  {
    var p := Note(s, Called(c, status, rx, script));
    var asks := !c.role.Plain? && React(c, RecOf(s.log, c.id, w.mtu).bytes, status, rx, w.mtu).Ask?;
    if asks {
      var bytes := React(c, RecOf(s.log, c.id, w.mtu).bytes, status, rx, w.mtu).bytes;
      AskMeansSuccess(c, RecOf(s.log, c.id, w.mtu).bytes, status, rx, w.mtu);
      OneCall(p, AskMore(c, bytes, w.mtu), c.id);
      hide Chain, Core, Enqueue, React, Truthful, RecOf, Own, RunScript;
      if Mine(c, x) {
        ResendMine(s, c, x, status, rx, script, w);
      } else {
        OtherEventChain(s, Called(c, status, rx, script), x, 0, w);
        ResendOther(p, c, bytes, x, 0, w);
      }
    } else {
      hide Chain, Core, Truthful, RecOf, Own, RunScript;
      CallChain(s, c, x, status, rx, script, w);
      RunScriptChain(p, script, c.id, x, HeldBy(c, x), w, {c.serial});
      if Mine(c, x) {
        ReportSettles(s, c, x, status, rx, script, w);
        ScriptKeepsSettled(p, script, c.id, x, w.mtu);
      }
    }
  }

  lemma {:induction false} AskMeansSuccess(c: Command, bytes: seq<byte>, status: byte, rx: seq<byte>, mtu: nat)
    requires React(c, bytes, status, rx, mtu).Ask?
    ensures status == 0
  {
  }

  lemma {:induction false} OneCall(s: State, a: Action, own: nat)
    requires a.Resend?
    ensures RunScript(s, [a], own) == Enqueue(s, own, a)
  {
    assert [a][1..] == [];
    assert RunScript(Act(s, a, own), [], own) == Act(s, a, own);
  }

  // ----- whole runs -----

  /**
   A reply from a server holding w.srv: an error with a non-zero code, or the
   proper answer to the request in flight.
   */
  predicate PeerAnswers(c: Command, rx: seq<byte>, w: World)
    requires 23 <= w.mtu
  {
    && c.sent
    && ((At(rx, 0) == ATT_OP_ERROR && At(rx, 4) != 0) || Truthful(c, 0, rx, w))
  }

  /** Callbacks act as gatt.c makes them act, and a trusted peer answers as a server does. */
  predicate Disciplined(s: State, step: Step, w: World)
    requires 23 <= w.mtu
  {
    match step
    case UserCall(a) => Ordinary(a, w)
    case ReadableStep(rx, events, script) =>
      !s.stale ==>
        && OrdinaryScript(events, w)
        && var t := RunScript(s, events, 0);
           IsResponse(At(rx, 0)) && t.requests != [] ==>
             var c := t.requests[0];
             && Obeys(script, c, PopReplied(t, rx).log, StatusOf(c.expected, rx), rx, w)
             && (w.trust ==> PeerAnswers(c, rx, w))
    case TimeoutStep(scripts) => forall i :: 0 <= i < |scripts| ==> OrdinaryScript(scripts[i], w)
    case _ => true
  }

  lemma {:induction false} PopChain(s: State, rx: seq<byte>, x: nat, w: World)
    requires s.requests != [] && Chain(s, x, 0, w)
    ensures var c, t := s.requests[0], PopReplied(s, rx);
            && Chain(t, x, HeldBy(c, x), w) && Popped(RecOf(t.log, x, w.mtu), c, x, w)
            && (Mine(c, x) ==> Own(t.requests, x) == []) && 0 < c.id <= t.nextId
  {
    hide Sound, RecOf, Own, Numbered, Popped;
    var c, p, e := s.requests[0], s.(requests := s.requests[1..]), Replied(rx, Some(s.requests[0]));
    TakeChain(s, x, 0, w);
    TakenSound(RecOf(s.log, x, w.mtu), s.requests, x, 0, w);
    OtherEventChain(p, e, x, HeldBy(c, x), w);
    SameChain(Note(p, e), PopReplied(s, rx), x, HeldBy(c, x), w);
    RecAppend(p.log, e, x, w.mtu);
  }

  lemma {:induction false} AnswersAreTruthful(c: Command, rx: seq<byte>, w: World)
    requires 23 <= w.mtu && PeerAnswers(c, rx, w)
    ensures Truthful(c, StatusOf(c.expected, rx), rx, w)
  {
  }

  lemma {:induction false} ReplyChain(s: State, rx: seq<byte>, script: Script, x: nat, w: World)
    requires Usable(w) && Chain(s, x, 0, w) && Core(s, {}) && Flight(s) && !s.stale && rx != [] && s.requests != []
    requires Obeys(script, s.requests[0], PopReplied(s, rx).log, StatusOf(s.requests[0].expected, rx), rx, w)
    requires w.trust ==> PeerAnswers(s.requests[0], rx, w)
    requires !s.dead && ProperReply(s, rx, script) && AfterReply(s, rx, script).accepted < GUINT_MODULUS
    ensures Chain(AfterReply(s, rx, script), x, 0, w)
  {
    hide Chain, Core, Flight, RecOf, Own, Obeys, Deliver, Due, ProperCall, Popped, PeerAnswers, Truthful, StatusOf,
        PopReplied, Usable, Mine;
    var c, t := s.requests[0], PopReplied(s, rx);
    PopRepliedKeeps(s, rx);
    PopChain(s, rx, x, w);
    assert 23 <= w.mtu by { UsableMtu(w); }
    if w.trust { AnswersAreTruthful(c, rx, w); }
    var u := Deliver(t, c, StatusOf(c.expected, rx), rx, script);
    DeliverChain(t, c, x, StatusOf(c.expected, rx), rx, script, w);
    SameChain(u, WakeUp(u), x, 0, w);
  }

  lemma {:induction false} UsableMtu(w: World)
    requires Usable(w)
    ensures 23 <= w.mtu
  {
  }

  /** The invariant of a record looks at nothing but the log, the queues and the two counters. */
  lemma {:induction false} SameChain(s: State, t: State, x: nat, held: nat, w: World)
    requires Chain(s, x, held, w)
    requires t.log == s.log && t.requests == s.requests && t.responses == s.responses && t.nextId == s.nextId
             && t.accepted == s.accepted
    requires s.dead ==> t.dead
    ensures Chain(t, x, held, w)
  {
    hide Sound;
  }

  lemma {:induction false} ReadableChain(s: State, rx: seq<byte>, events: Script, script: Script, x: nat, w: World)
    requires Usable(w) && Inv(s) && !s.dead && Chain(s, x, 0, w) && Disciplined(s, ReadableStep(rx, events, script), w)
    requires !s.stale ==> ProperReading(s, rx, events, script)
    requires Readable(s, rx, events, script).accepted < GUINT_MODULUS
    ensures Chain(Readable(s, rx, events, script), x, 0, w)
  {
    if !s.stale {
      var t := RunScript(s, events, 0);
      RunScriptKeeps(s, events, 0, {});
      EventsLeave(s, t);
      assert IsResponse(At(rx, 0)) ==> rx != [];
      hide Inv, Core, Flight, RunScript, AfterReply, Obeys, PeerAnswers, Chain, Sound, Proper, ProperReply, Counted,
          Clean, Kept, Wakeful, Quiet;
      if t.dead {
        RunScriptChain(s, events, 0, x, 0, w, {});
        SameChain(t, Readable(s, rx, events, script), x, 0, w);
      } else if IsResponse(At(rx, 0)) {
        ReplyGrows(t, rx, script);
        RunScriptChain(s, events, 0, x, 0, w, {});
        if t.requests == [] { IdleReplyChain(t, rx, script, x, w); } else { ReplyChain(t, rx, script, x, w); }
      } else {
        RunScriptChain(s, events, 0, x, 0, w, {});
      }
    }
  }

  lemma {:induction false} IdleReplyChain(s: State, rx: seq<byte>, script: Script, x: nat, w: World)
    requires s.requests == [] && Chain(s, x, 0, w)
    ensures Chain(AfterReply(s, rx, script), x, 0, w)
  {
    hide Chain;
    SameChain(s, s.(timer := None), x, 0, w);
    OtherEventChain(s.(timer := None), Replied(rx, None), x, 0, w);
  }

  lemma {:induction false} ReplyGrows(s: State, rx: seq<byte>, script: Script)
    requires Core(s, {}) && !s.dead && Flight(s) && rx != [] && ProperReply(s, rx, script)
    ensures s.accepted <= AfterReply(s, rx, script).accepted
  {
    if s.requests != [] {
      PopRepliedKeeps(s, rx);
      hide Core, Flight, Deliver, StatusOf, Due, ProperCall, Quiet;
      var c, t := s.requests[0], PopReplied(s, rx);
      var u := Deliver(t, c, StatusOf(c.expected, rx), rx, script);
      DeliverKeeps(t, c, StatusOf(c.expected, rx), rx, script);
      DeliveredGrows(t, u, c.serial);
    }
  }

  lemma {:induction false} DeliveredGrows(t: State, u: State, serial: nat)
    requires Core(t, {serial}) && Core(u, {}) && Quiet(t, u)
    ensures t.accepted <= u.accepted
  {
  }

  lemma {:induction false} WriteChain(s: State, x: nat, w: World)
    requires Chain(s, x, 0, w)
    ensures s.responses != [] ==> Chain(WriteResponse(s), x, 0, w)
    ensures s.requests != [] && s.requests[0].expected == 0 ==> Chain(WriteCommand(s), x, 0, w)
    ensures s.requests != [] ==> Chain(WriteTransaction(s), x, 0, w)
  {
    if s.responses != [] { WriteResponseChain(s, x, w); }
    if s.requests != [] { WriteRequestChain(s, x, w); }
  }

  lemma {:induction false} WriteResponseChain(s: State, x: nat, w: World)
    requires Chain(s, x, 0, w) && s.responses != []
    ensures Chain(WriteResponse(s), x, 0, w)
  {
    var c := s.responses[0];
    assert c.role.Plain?;
    assert RemoveAt(s.responses, 0) == s.responses[1..];
    hide Sound, RecOf, Own, Numbered;
    OtherEventChain(s, Wrote(c), x, 0, w);
    NumberedRemoval(s, 0);
    var p := Note(s, Wrote(c)).(responses := s.responses[1..]);
    NumberedAcross(s.(responses := s.responses[1..]), p);
    DestroyChain(p, c, x, 0, w);
  }

  lemma {:induction false} WriteRequestChain(s: State, x: nat, w: World)
    requires Chain(s, x, 0, w) && s.requests != []
    ensures s.requests[0].expected == 0 ==> Chain(WriteCommand(s), x, 0, w)
    ensures Chain(WriteTransaction(s), x, 0, w)
  {
    var c := s.requests[0];
    var p := Note(s, Wrote(c));
    hide Sound, RecOf, Own, Numbered;
    OtherEventChain(s, Wrote(c), x, 0, w);
    TakenSound(RecOf(s.log, x, w.mtu), s.requests, x, 0, w);
    SilencedSound(RecOf(p.log, x, w.mtu), p.requests, x, 0, w);
    NumberedHead(p);
    NumberedAcross(p.(requests := s.requests[0 := c.(sent := true)]), WriteTransaction(s));
    TakeChain(p, x, 0, w);
    if c.expected == 0 { DestroyChain(p.(requests := s.requests[1..]), c, x, 0, w); }
  }

  /** Freeing may lose results, so it is seen as happening to an object that is already dead. */
  lemma {:induction false} DestroyAllChain(s: State, x: nat, held: nat, w: World)
    requires Chain(s.(dead := true), x, held, w)
    ensures Chain(DestroyAll(s), x, held, w)
    decreases |s.requests| + |s.responses|
  {
    hide Chain, RecOf, Own, Popped;
    var d := s.(dead := true);
    if s.requests != [] {
      var c := s.requests[0];
      TakeChain(d, x, held, w);
      DestroyChain(d.(requests := s.requests[1..]), c, x, held, w);
      DestroyAllChain(Note(s.(requests := s.requests[1..]), Destroyed(c)), x, held, w);
    } else if s.responses != [] {
      ResponseDestroyedChain(d, x, held, w);
      DestroyAllChain(Note(s.(responses := s.responses[1..]), Destroyed(s.responses[0])), x, held, w);
    } else {
      SameChain(d, DestroyAll(s), x, held, w);
    }
  }

  lemma {:induction false} ResponseDestroyedChain(s: State, x: nat, held: nat, w: World)
    requires Chain(s, x, held, w) && s.responses != []
    ensures Chain(Note(s.(responses := s.responses[1..]), Destroyed(s.responses[0])), x, held, w)
  {
    var c := s.responses[0];
    assert c.role.Plain? && RemoveAt(s.responses, 0) == s.responses[1..];
    hide Sound, RecOf, Own, Numbered;
    NumberedRemoval(s, 0);
    DestroyChain(s.(responses := s.responses[1..]), c, x, held, w);
  }

  lemma {:induction false} ReleaseChain(s: State, x: nat, held: nat, w: World)
    requires Chain(s, x, held, w)
    ensures Chain(Release(s), x, held, w)
  {
    hide Chain, DestroyAll;
    SameChain(s, s.(refs := s.refs - 1), x, held, w);
    SameChain(s, s.(refs := s.refs - 1, dead := true), x, held, w);
    DestroyAllChain(s.(refs := s.refs - 1), x, held, w);
  }

  lemma {:induction false} SleepChain(s: State, x: nat, w: World)
    requires Chain(s, x, 0, w)
    ensures Chain(Sleep(s), x, 0, w) && Chain(Sleep(s.(faulted := true)), x, 0, w)
  {
    hide Chain;
    SameChain(s, s.(watch := false), x, 0, w);
    SameChain(s, s.(faulted := true, watch := false), x, 0, w);
    ReleaseChain(s.(watch := false), x, 0, w);
    ReleaseChain(s.(faulted := true, watch := false), x, 0, w);
  }

  lemma {:induction false} WritableChain(s: State, outcome: Outcome, x: nat, w: World)
    requires Chain(s, x, 0, w)
    ensures Chain(Writable(s, outcome), x, 0, w)
  {
    hide Chain, Sleep, WriteResponse, WriteCommand, WriteTransaction;
    SleepChain(s, x, w);
    WriteChain(s, x, w);
    if s.requests != [] { SleepChain(WriteTransaction(s), x, w); }
  }

  lemma {:induction false} TimedOutChain(s: State, status: byte, script: Script, x: nat, w: World)
    requires Usable(w) && s.requests != [] && Chain(s, x, 0, w) && Core(s, {}) && Counted(s)
    requires (status == ATT_ECODE_TIMEOUT || status == ATT_ECODE_ABORTED) && OrdinaryScript(script, w)
    requires ProperCall(s.(requests := s.requests[1..]), s.requests[0], status, [], script)
    requires Deliver(s.(requests := s.requests[1..]), s.requests[0], status, [], script).accepted < GUINT_MODULUS
    ensures Chain(Deliver(s.(requests := s.requests[1..]), s.requests[0], status, [], script), x, 0, w)
  {
    hide Chain, Core, Deliver, Due, ProperCall, RecOf, Own, Sound, Obeys, Truthful, OrdinaryScript, Usable, Popped,
        Counted;
    UsableMtu(w);
    TakenByTimeout(s, status);
    TakeChain(s, x, 0, w);
    TakenOwn(s, x, w);
    ErrorsReport(s.requests[0], s.log, status, script, w);
    DeliverChain(s.(requests := s.requests[1..]), s.requests[0], x, status, [], script, w);
  }

  lemma {:induction false} TakenOwn(s: State, x: nat, w: World)
    requires s.requests != [] && Chain(s, x, 0, w)
    ensures Mine(s.requests[0], x) ==> Own(s.requests[1..], x) == []
  {
    hide Sound, Own, RecOf;
    TakenSound(RecOf(s.log, x, w.mtu), s.requests, x, 0, w);
  }

  lemma {:induction false} FlushChain(s: State, status: byte, scripts: seq<Script>, x: nat, w: World)
    requires Usable(w) && Chain(s, x, 0, w) && Core(s, {}) && Counted(s) && s.mem.pins > 0
    requires (status == ATT_ECODE_TIMEOUT || status == ATT_ECODE_ABORTED) && ProperFlush(s, status, scripts)
    requires forall i :: 0 <= i < |scripts| ==> OrdinaryScript(scripts[i], w)
    requires Flush(s, status, scripts).accepted < GUINT_MODULUS
    ensures Chain(Flush(s, status, scripts), x, 0, w)
    decreases |scripts|, |s.requests|
  {
    hide Chain, Core, Deliver, Usable, Counted, SameWire, Due, Quiet, Flush, OrdinaryScript, Kept, ProperCall,
        ProperFlush;
    FlushUnfolds(s, status, scripts);
    if s.requests != [] {
      ProperFlushUnfolds(s, status, scripts);
      OrdinarySilence(w);
      var c := s.requests[0];
      var script := if c.func && scripts != [] then scripts[0] else [];
      var rest := if c.func && scripts != [] then scripts[1..] else scripts;
      var p := s.(requests := s.requests[1..]);
      var t := Deliver(p, c, status, [], script);
      TakenByTimeout(s, status);
      DeliverKeeps(p, c, status, [], script);
      PinnedSurvives(p, t);
      FlushKeeps(t, ATT_ECODE_ABORTED, rest);
      WireGrows(t, Flush(t, ATT_ECODE_ABORTED, rest));
      TimedOutChain(s, status, script, x, w);
      NoCallsNoRequests(p, c, status, script);
      FlushChain(t, ATT_ECODE_ABORTED, rest, x, w);
    }
  }

  lemma {:induction false} OrdinarySilence(w: World)
    ensures OrdinaryScript([], w)
  {
  }

  lemma {:induction false} NoCallsNoRequests(s: State, c: Command, status: byte, script: Script)
    ensures script == [] ==> Deliver(s, c, status, [], script).requests == s.requests
  {
  }

  lemma {:induction false} WireGrows(s: State, t: State)
    requires Core(s, {}) && Core(t, {}) && SameWire(Audit(s.log), Audit(t.log))
    ensures s.accepted <= t.accepted
  {
  }

  lemma {:induction false} ErrorsReport(c: Command, log: seq<Event>, status: byte, script: Script, w: World)
    requires status != 0 && 23 <= w.mtu && OrdinaryScript(script, w)
    ensures Obeys(script, c, log, status, [], w) && Truthful(c, status, [], w)
  {
  }

  lemma {:induction false} FireChain(s: State, scripts: seq<Script>, x: nat, w: World)
    requires Usable(w) && Inv(s) && !s.dead && !s.stale && Chain(s, x, 0, w)
             && ProperFlush(Pin(s), ATT_ECODE_TIMEOUT, scripts)
    requires forall i :: 0 <= i < |scripts| ==> OrdinaryScript(scripts[i], w)
    requires Fire(s, scripts).accepted < GUINT_MODULUS
    ensures Chain(Fire(s, scripts), x, 0, w)
  {
    PinKeeps(s);
    hide Inv, Chain, Core, Counted, Flush, Release, ProperFlush, OrdinaryScript, Usable, Clean, Kept;
    var t := Flush(Pin(s), ATT_ECODE_TIMEOUT, scripts);
    var d := t.(stale := true, mem := t.mem.(pins := t.mem.pins - 1));
    FlushKeeps(Pin(s), ATT_ECODE_TIMEOUT, scripts);
    assert t.accepted == Fire(s, scripts).accepted by { ReleaseAccepts(d); }
    SameChain(s, Pin(s), x, 0, w);
    FlushChain(Pin(s), ATT_ECODE_TIMEOUT, scripts, x, w);
    SameChain(t, d, x, 0, w);
    ReleaseChain(d, x, 0, w);
    SameChain(Release(d), Fire(s, scripts), x, 0, w);
  }

  lemma {:induction false} ReleaseAccepts(s: State)
    ensures Release(s).accepted == s.accepted
  {
    hide DestroyAll;
  }

  lemma {:induction false} StepChain(s: State, step: Step, x: nat, w: World)
    requires Usable(w) && Inv(s) && Enabled(s, step) && Chain(s, x, 0, w) && Disciplined(s, step, w)
    requires Apply(s, step).accepted < GUINT_MODULUS
    ensures Chain(Apply(s, step), x, 0, w)
  {
    hide Chain, Inv, Act, Writable, Readable, Fire, Release, OrdinaryScript, Obeys, PeerAnswers, RunScript,
        ProperReading, ProperFlush;
    match step
    case UserCall(a) => ActChain(s, a, 0, x, 0, w);
    case WritableStep(outcome) => WritableChain(s, outcome, x, w);
    case ReadableStep(rx, events, script) => ReadableChain(s, rx, events, script, x, w);
    case ReadFailureStep => SameChain(s, ReadFailure(s), x, 0, w);
    case TimeoutStep(scripts) => FireChain(s, scripts, x, w);
  }

  /** A whole run in which gatt.c is the only code that resends, and a trusted peer is a server. */
  predicate GattRun(steps: seq<Step>, w: World)
    requires 23 <= w.mtu
  {
    steps == [] ||
    (GattRun(steps[..|steps| - 1], w) && Disciplined(Run(steps[..|steps| - 1]), steps[|steps| - 1], w))
  }

  lemma {:induction false} StepGrows(s: State, step: Step)
    requires Inv(s) && Enabled(s, step) && Inv(Apply(s, step))
    ensures s.accepted <= Apply(s, step).accepted
  {
    StepWire(s, step);
    hide Agree, Apply, SameWire;
  }

  lemma {:induction false} RunChain(steps: seq<Step>, x: nat, w: World)
    requires Usable(w) && Legal(steps) && GattRun(steps, w) && Run(steps).accepted < GUINT_MODULUS
    ensures Chain(Run(steps), x, 0, w)
  {
    if steps != [] {
      var before, step := steps[..|steps| - 1], steps[|steps| - 1];
      RunsAreSafe(before);
      RunsAreSafe(steps);
      hide Inv, Chain, Apply, Disciplined, Enabled;
      StepGrows(Run(before), step);
      RunChain(before, x, w);
      StepChain(Run(before), step, x, w);
    }
  }

  ghost predicate CancelledIn(log: seq<Event>, x: nat) {
    exists i :: 0 <= i < |log| && log[i].Cancelled? && Mine(log[i].cmd, x)
  }

  lemma {:induction false} CancelIsLogged(log: seq<Event>, x: nat, mtu: nat)
    requires RecOf(log, x, mtu).cancelled
    ensures CancelledIn(log, x)
  {
    var before := log[..|log| - 1];
    if RecOf(before, x, mtu).cancelled {
      CancelIsLogged(before, x, mtu);
      var i :| 0 <= i < |before| && before[i].Cancelled? && Mine(before[i].cmd, x);
      assert log[i] == before[i];
    } else {
      assert log[|log| - 1].Cancelled?;
    }
  }

  /**
   The record of a long read, in every reachable state between callbacks: its
   count is the number of undestroyed commands that point at it, at most one;
   it is freed exactly when that number drops to zero; nothing ever touched it
   after it was freed, and its user was called at most once.  Once it is freed
   the user was called, unless the read was cancelled or the connection freed.
   */
  lemma {:induction false} RecordIsOwned(steps: seq<Step>, x: nat, w: World)
    requires Usable(w) && Legal(steps) && GattRun(steps, w) && Run(steps).accepted < GUINT_MODULUS
    ensures var s := Run(steps); var r, own := RecOf(s.log, x, w.mtu), Own(s.requests, x);
            && r.ok && r.ref == |own| <= 1
            && (r != UNUSED ==> (r.freed <==> own == []))
            && (own != [] ==> r.result.None?)
            && (r.freed && !s.dead ==> r.result.Some? || CancelledIn(s.log, x))
  {
    RunChain(steps, x, w);
    var s := Run(steps);
    if RecOf(s.log, x, w.mtu).cancelled { CancelIsLogged(s.log, x, w.mtu); }
    hide Run, RecOf, Own, Honest, Good;
  }

  /**
   End to end, with any other traffic around the read: if the peer is a server,
   a read reported as successful carries a prefix of the value; the user is told
   of an error if and only if it ended the first round; and what is reported as
   success is the whole value if and only if no error ended the read or the
   round that failed had asked at the very end of the value.
   */
  lemma {:induction false} ReadsAreHonest(steps: seq<Step>, x: nat, w: World)
    requires w.trust && Usable(w) && Legal(steps) && GattRun(steps, w) && Run(steps).accepted < GUINT_MODULUS
    ensures var r := RecOf(Run(steps).log, x, w.mtu);
            r.result.Some? ==>
              var all, res := [0x0B] + w.srv(r.handle), r.result.value;
              && (res.status == 0 ==> res.bytes <= all)
              && res.status == (if r.bytes == [] then res.cause else 0)
              && (r.bytes != [] && res.cause != 0 ==> res.bytes == r.bytes)
              && (res.status == 0 ==> (res.bytes == all <==>
                   res.cause == 0 || NextOffset(r.bytes) == |w.srv(r.handle)|))
  {
    RunChain(steps, x, w);
    var r := RecOf(Run(steps).log, x, w.mtu);
    hide Run, Own, NextOffset, RecOf;
    if r.result.Some? && r.bytes != [] && r.result.value.cause != 0 { OffsetIsLength(r.bytes); }
  }
}
