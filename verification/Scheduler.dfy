/**
 The ATT transport scheduler (gattrib.c) as a state machine on values.

 Every GLib callback and every call made by a user is one atomic step.  What a
 user callback does while it runs is an input of the step (a script of calls
 back into the scheduler), so statements about runs hold for every callback.
 All that happens to commands is written to a log, in the order in which the
 code does it.
 */
module Scheduler {
  import opened Octets

  const ATT_OP_ERROR: byte := 0x01
  const ATT_ECODE_IO: byte := 0x80
  const ATT_ECODE_TIMEOUT: byte := 0x81
  const ATT_ECODE_ABORTED: byte := 0x82
  const GUINT_MODULUS: nat := 0x1_0000_0000

  /** opcode2expected: the opcode that answers a request, 0 when nothing does. */
  function OpcodeToExpected(op: byte): (e: byte)
    ensures e != 0 ==> IsResponse(e) && !IsResponse(op) && e == op + 1
  {
    if op == 0x02 || op == 0x04 || op == 0x06 || op == 0x08 || op == 0x0A || op == 0x0C || op == 0x0E ||
       op == 0x10 || op == 0x12 || op == 0x16 || op == 0x18 || op == 0x1D
    then op + 1 else 0
  }

  predicate IsResponse(op: byte) {
    op == 0x01 || op == 0x03 || op == 0x05 || op == 0x07 || op == 0x09 || op == 0x0B || op == 0x0D ||
    op == 0x0F || op == 0x11 || op == 0x13 || op == 0x17 || op == 0x19 || op == 0x1E
  }

  /** What user_data and the two function pointers of a command belong to. */
  datatype Role = Plain | ReadFirst | ReadNext

  /**
   struct command.  `serial` stands for the address of the record, `response`
   for the queue it is put on, `tail` for the end it is pushed at; `func` is
   whether the result function is still set.
   */
  datatype Command = Command(
    serial: nat, id: nat, opcode: byte, expected: byte, response: bool, tail: bool,
    pdu: seq<byte>, sent: bool, func: bool, notify: bool, role: Role)

  /** A call that a user or a user callback makes.  Resend passes the id of the command being answered. */
  datatype Action =
    | Send(opcode: byte, pdu: seq<byte>, func: bool, notify: bool, role: Role)
    | Resend(opcode: byte, pdu: seq<byte>, func: bool, notify: bool, role: Role)
    | Cancel(id: nat)
    | CancelAll
    | Hold   // g_attrib_ref
    | Drop   // g_attrib_unref

  type Script = seq<Action>

  datatype Event =
    | Accepted(cmd: Command)
    | Wrote(cmd: Command)
    | Replied(rx: seq<byte>, consumer: Option<Command>)
    | Cancelled(cmd: Command)
    | Called(cmd: Command, status: byte, rx: seq<byte>, script: Script)
    | Destroyed(cmd: Command)

  /**
   struct _GAttrib.  `timer` names the transaction the running timeout was
   armed for, `owners` counts the references held by users, `faulted` records
   whether a write or a hang-up has ever put the sender to sleep early.
   */
  datatype State = State(
    requests: seq<Command>, responses: seq<Command>, timer: Option<nat>, watch: bool, stale: bool,
    nextId: nat, accepted: nat, refs: int, owners: int, dead: bool, faulted: bool, mem: Memory, log: seq<Event>)

  /**
   `pins` counts the references that disconnect_timeout holds for its own sake,
   `fired` is whether the main loop has disposed of the timer's source.
   `touched` records that the freed object was read, `wild` that freeing it
   destroyed a source already disposed of.
   */
  datatype Memory = Memory(pins: int, fired: bool, touched: bool, wild: bool)

  /** g_attrib_new: nothing queued, one reference for the creator. */
  const INITIAL := State([], [], None, false, false, 0, 0, 1, 1, false, false, Memory(0, false, false, false), [])

  function Note(s: State, e: Event): State {
    s.(log := s.log + [e])
  }

  /** wake_up_sender; it reads the object before anything else. */
  function WakeUp(s: State): State {
    if s.dead then s.(mem := s.mem.(touched := true))
    else if s.watch then s
    else s.(watch := true, refs := s.refs + 1)
  }

  /** The identifier g_attrib_send returns; 0 when it refuses. */
  function SendId(s: State, id: nat): nat {
    if s.stale then 0 else if id != 0 then id else (s.nextId + 1) % GUINT_MODULUS
  }

  function NewCommand(s: State, id: nat, a: Action): (c: Command)
    requires a.Send? || a.Resend?
    ensures c.serial == s.accepted && !c.sent && (c.response ==> c.expected == 0 && c.tail) && (id == 0 ==> c.tail)
  {
    Command(s.accepted, SendId(s, id), a.opcode, OpcodeToExpected(a.opcode), IsResponse(a.opcode),
            id == 0 || IsResponse(a.opcode), a.pdu, false, a.func, a.notify, a.role)
  }

  /** Puts an accepted command on its queue; a queue that was empty wakes the sender. */
  function Push(s: State, c: Command): (t: State)
    ensures t.log == s.log && t.accepted == s.accepted && t.nextId == s.nextId
    ensures t.responses == (if c.response then s.responses + [c] else s.responses)
    ensures t.requests == (if c.response then s.requests else if c.tail then s.requests + [c] else [c] + s.requests)
    ensures t.timer == s.timer && t.stale == s.stale && t.dead == s.dead && t.faulted == s.faulted
            && t.owners == s.owners
    ensures !s.dead ==> t.mem == s.mem
  {
    if c.response then
      var t := s.(responses := s.responses + [c]);
      if s.responses == [] then WakeUp(t) else t
    else
      var t := s.(requests := if c.tail then s.requests + [c] else [c] + s.requests);
      if s.requests == [] then WakeUp(t) else t
  }

  /** g_attrib_send. */
  function Enqueue(s: State, id: nat, a: Action): State
    requires a.Send? || a.Resend?
  {
    if s.stale then s
    else
      var c := NewCommand(s, id, a);
      Push(Note(s, Accepted(c)).(accepted := s.accepted + 1, nextId := if id == 0 then c.id else s.nextId), c)
  }

  function RemoveAt(q: seq<Command>, i: nat): seq<Command>
    requires i < |q|
  {
    q[..i] + q[i + 1..]
  }

  /** g_queue_find_custom with command_cmp_by_id. */
  function IndexOfId(q: seq<Command>, id: nat): (i: int)
    ensures -1 <= i < |q|
    ensures i >= 0 ==> q[i].id == id && forall j :: 0 <= j < i ==> q[j].id != id
    ensures i < 0 ==> forall j :: 0 <= j < |q| ==> q[j].id != id
  {
    if q == [] then -1
    else if q[0].id == id then 0
    else var i := IndexOfId(q[1..], id); if i < 0 then -1 else i + 1
  }

  function InFlight(q: seq<Command>): Option<nat> {
    if q != [] && q[0].sent then Some(q[0].serial) else None
  }

  /** Cancelling the request at position i: an in-flight head only loses its callback. */
  function CancelRequest(s: State, i: nat): State
    requires i < |s.requests|
  {
    var c := s.requests[i];
    var t := Note(s, Cancelled(c));
    if i == 0 && c.sent then t.(requests := s.requests[0 := c.(func := false)])
    else Note(t.(requests := RemoveAt(s.requests, i)), Destroyed(c))
  }

  function CancelResponse(s: State, i: nat): State
    requires i < |s.responses|
  {
    var c := s.responses[i];
    Note(Note(s, Cancelled(c)).(responses := RemoveAt(s.responses, i)), Destroyed(c))
  }

  /** g_attrib_cancel. */
  function CancelById(s: State, id: nat): State {
    var i := IndexOfId(s.requests, id);
    if i >= 0 then CancelRequest(s, i)
    else
      var j := IndexOfId(s.responses, id);
      if j >= 0 then CancelResponse(s, j) else s
  }

  /** cancel_all_per_queue on the requests behind the first `keep`. */
  function CancelRequestsFrom(s: State, keep: nat): (t: State)
    ensures t.responses == s.responses
    decreases |s.requests|
  {
    if keep < |s.requests| && !(keep == 0 && s.requests[0].sent)
    then CancelRequestsFrom(CancelRequest(s, keep), keep) else s
  }

  function CancelAllRequests(s: State): (t: State)
    ensures t.responses == s.responses
  {
    if InFlight(s.requests).Some? then CancelRequestsFrom(CancelRequest(s, 0), 1) else CancelRequestsFrom(s, 0)
  }

  function CancelAllResponses(s: State): (t: State)
    ensures t.requests == s.requests
    decreases |s.responses|
  {
    if s.responses == [] then s else CancelAllResponses(CancelResponse(s, 0))
  }

  /** attrib_destroy; among the rest it destroys the source of a timer that was ever armed and not answered. */
  function DestroyAll(s: State): (t: State)
    ensures t.dead && t.requests == [] && t.responses == [] && t.mem.wild == s.mem.fired
    ensures t == s.(requests := [], responses := [], dead := true, mem := s.mem.(wild := s.mem.fired), log := t.log)
    decreases |s.requests| + |s.responses|
  {
    if s.requests != [] then DestroyAll(Note(s.(requests := s.requests[1..]), Destroyed(s.requests[0])))
    else if s.responses != [] then DestroyAll(Note(s.(responses := s.responses[1..]), Destroyed(s.responses[0])))
    else s.(dead := true, mem := s.mem.(wild := s.mem.fired))
  }

  /** g_attrib_unref. */
  function Release(s: State): State {
    var t := s.(refs := s.refs - 1);
    if t.refs == 0 then DestroyAll(t) else t
  }

  function Act(s: State, a: Action, own: nat): State {
    match a
    case Send(_, _, _, _, _) => Enqueue(s, 0, a)
    case Resend(_, _, _, _, _) => Enqueue(s, own, a)
    case Cancel(id) => CancelById(s, id)
    case CancelAll => CancelAllResponses(CancelAllRequests(s))
    case Hold => s.(refs := s.refs + 1, owners := s.owners + 1)
    case Drop => Release(s.(owners := s.owners - 1))
  }

  /** A caller uses the object only while it exists, and gives back only references that users have. */
  predicate CanAct(s: State, a: Action) {
    !s.dead && (a.Drop? ==> s.owners > 0)
  }

  /** The calls made by a callback; `own` is the id of the command it answers, 0 for other callbacks. */
  function RunScript(s: State, script: Script, own: nat): State
    decreases script
  {
    if script == [] then s else RunScript(Act(s, script[0], own), script[1..], own)
  }

  predicate Proper(s: State, script: Script, own: nat)
    decreases script
  {
    script == [] || (CanAct(s, script[0]) && Proper(Act(s, script[0], own), script[1..], own))
  }

  /** The calls that the result function of a popped command makes, if it is still set, are proper. */
  predicate ProperCall(s: State, c: Command, status: byte, rx: seq<byte>, script: Script) {
    c.func ==> Proper(Note(s, Called(c, status, rx, script)), script, c.id)
  }

  /** Runs the result function of a popped command, if it is still set, and destroys the command. */
  function Deliver(s: State, c: Command, status: byte, rx: seq<byte>, script: Script): State {
    var t := if c.func then RunScript(Note(s, Called(c, status, rx, script)), script, c.id) else s;
    Note(t, Destroyed(c))
  }

  /** The status received_data computes for the command that is answered. */
  function StatusOf(expected: byte, rx: seq<byte>): byte {
    if At(rx, 0) == ATT_OP_ERROR then At(rx, 4)
    else if At(rx, 0) != expected then ATT_ECODE_IO
    else 0
  }

  /**
   received_data after a successful read of rx; `events` is what the
   notification handlers do, after each of which the list of handlers is read.
   */
  function Readable(s: State, rx: seq<byte>, events: Script, script: Script): State {
    if s.stale then s
    else
      var t := RunScript(s, events, 0);
      if t.dead then t.(mem := t.mem.(touched := true))
      else if IsResponse(At(rx, 0)) then AfterReply(t, rx, script)
      else t
  }

  /**
   The part of received_data that handles a response: the head of the requests
   is popped, sent or not.  Whether to wake the sender is decided before the
   callback runs.
   */
  function AfterReply(s: State, rx: seq<byte>, script: Script): State {
    if s.requests == [] then Note(s.(timer := None), Replied(rx, None))
    else
      var c, t := s.requests[0], PopReplied(s, rx);
      var u := Deliver(t, c, StatusOf(c.expected, rx), rx, script);
      if t.requests != [] || t.responses != [] then WakeUp(u) else u
  }

  function PopReplied(s: State, rx: seq<byte>): State
    requires s.requests != []
  {
    Note(s.(timer := None, requests := s.requests[1..]), Replied(rx, Some(s.requests[0])))
  }

  /** received_data when the read itself fails. */
  function ReadFailure(s: State): State {
    if !s.stale && (s.requests != [] || s.responses != []) then WakeUp(s) else s
  }

  /** destroy_sender: runs when can_write_data asks not to be called again. */
  function Sleep(s: State): State {
    Release(s.(watch := false))
  }

  datatype Outcome = Done | Refused | HangUp

  function WriteResponse(s: State): State
    requires s.responses != []
  {
    var c := s.responses[0];
    Note(Note(s, Wrote(c)).(responses := s.responses[1..]), Destroyed(c))
  }

  function WriteCommand(s: State): State
    requires s.requests != []
  {
    var c := s.requests[0];
    Note(Note(s, Wrote(c)).(requests := s.requests[1..]), Destroyed(c))
  }

  function WriteTransaction(s: State): State
    requires s.requests != []
  {
    var c := s.requests[0];
    Note(s, Wrote(c)).(requests := s.requests[0 := c.(sent := true)],
                       timer := if s.timer.None? then Some(c.serial) else s.timer)
  }

  /** can_write_data. */
  function Writable(s: State, outcome: Outcome): State {
    if s.stale then Sleep(s)
    else if outcome.HangUp? then Sleep(s.(faulted := true))
    else if s.responses != [] then
      if outcome.Refused? then Sleep(s.(faulted := true)) else WriteResponse(s)
    else if s.requests == [] || s.requests[0].sent then Sleep(s)
    else if outcome.Refused? then Sleep(s.(faulted := true))
    else if s.requests[0].expected == 0 then WriteCommand(s)
    else Sleep(WriteTransaction(s))
  }

  /** The pop loop of disconnect_timeout; each callback that runs takes the next script. */
  function Flush(s: State, status: byte, scripts: seq<Script>): (t: State)
    ensures t.requests == []
    decreases |scripts|, |s.requests|
  {
    if s.requests == [] then s
    else
      var c := s.requests[0];
      var script := if c.func && scripts != [] then scripts[0] else [];
      var rest := if c.func && scripts != [] then scripts[1..] else scripts;
      Flush(Deliver(s.(requests := s.requests[1..]), c, status, [], script), ATT_ECODE_ABORTED, rest)
  }

  predicate ProperFlush(s: State, status: byte, scripts: seq<Script>)
    decreases |scripts|, |s.requests|
  {
    s.requests == [] ||
    var c := s.requests[0];
    var script := if c.func && scripts != [] then scripts[0] else [];
    var rest := if c.func && scripts != [] then scripts[1..] else scripts;
    var p := s.(requests := s.requests[1..]);
    ProperCall(p, c, status, [], script) && ProperFlush(Deliver(p, c, status, [], script), ATT_ECODE_ABORTED, rest)
  }

  /** disconnect_timeout takes a reference of its own ... */
  function Pin(s: State): State {
    s.(refs := s.refs + 1, mem := s.mem.(pins := s.mem.pins + 1))
  }

  /** ... which it gives back at the end; a timeout that returns FALSE loses its source. */
  function Fire(s: State, scripts: seq<Script>): State {
    var t := Flush(Pin(s), ATT_ECODE_TIMEOUT, scripts).(stale := true);
    var u := Release(t.(mem := t.mem.(pins := t.mem.pins - 1)));
    if u.dead then u else u.(mem := u.mem.(fired := true))
  }

  datatype Step =
    | UserCall(action: Action)
    | WritableStep(outcome: Outcome)
    | ReadableStep(rx: seq<byte>, events: Script, script: Script)
    | ReadFailureStep
    | TimeoutStep(scripts: seq<Script>)

  /** What can happen next: callers and callbacks are proper, the rest is up to the main loop. */
  predicate Enabled(s: State, step: Step) {
    !s.dead &&
    match step
    case UserCall(_) => s.owners > 0
    case WritableStep(_) => s.watch
    case ReadableStep(rx, events, script) => !s.stale ==> ProperReading(s, rx, events, script)
    case ReadFailureStep => true
    case TimeoutStep(scripts) => s.timer.Some? && !s.stale && ProperFlush(Pin(s), ATT_ECODE_TIMEOUT, scripts)
  }

  predicate ProperReading(s: State, rx: seq<byte>, events: Script, script: Script) {
    && Proper(s, events, 0)
    && var t := RunScript(s, events, 0);
       !t.dead && IsResponse(At(rx, 0)) ==> ProperReply(t, rx, script)
  }

  predicate ProperReply(s: State, rx: seq<byte>, script: Script) {
    s.requests != [] ==>
      var c := s.requests[0];
      ProperCall(PopReplied(s, rx), c, StatusOf(c.expected, rx), rx, script)
  }

  function Apply(s: State, step: Step): State {
    match step
    case UserCall(a) => Act(s, a, 0)
    case WritableStep(outcome) => Writable(s, outcome)
    case ReadableStep(rx, events, script) => Readable(s, rx, events, script)
    case ReadFailureStep => ReadFailure(s)
    case TimeoutStep(scripts) => Fire(s, scripts)
  }

  /** The state after a whole run from a fresh connection. */
  function Run(steps: seq<Step>): State {
    if steps == [] then INITIAL else Apply(Run(steps[..|steps| - 1]), steps[|steps| - 1])
  }

  predicate Legal(steps: seq<Step>) {
    steps == [] ||
    (Legal(steps[..|steps| - 1]) && Enabled(Run(steps[..|steps| - 1]), steps[|steps| - 1]))
  }
}
