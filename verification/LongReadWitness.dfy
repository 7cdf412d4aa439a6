/** A run of the scheduler in which a long read is cut short and reported as a success. */
module LongReadWitness {
  import opened Octets
  import opened Scheduler
  import opened AttPdu
  import opened LongRead
  import opened LongReadChain

  // ----- the commands and replies of the run -----

  /** The read request, before and after it is written. */
  function FirstCommand(w: World, h: u16, sent: bool): Command {
    Command(0, 1, 0x0A, 0x0B, false, true, EncWord(0x0A, h, w.mtu), sent, true, true, ReadFirst)
  }

  function FirstReply(w: World, h: u16): seq<byte>
    requires w.mtu >= 1
  {
    AnswerRead(w.srv(h), w.mtu)
  }

  function MorePdu(w: World, h: u16): seq<byte>
    requires w.mtu >= 1
  {
    EncWords(0x0C, h, NextOffset(FirstReply(w, h)), w.mtu)
  }

  function More(w: World, h: u16): Action
    requires w.mtu >= 1
  {
    Resend(0x0C, MorePdu(w, h), true, true, ReadNext)
  }

  /** The blob request, before and after it is written. */
  function NextCommand(w: World, h: u16, sent: bool): Command
    requires w.mtu >= 1
  {
    Command(1, 1, 0x0C, 0x0D, false, false, MorePdu(w, h), sent, true, true, ReadNext)
  }

  function Failure(w: World, h: u16, err: byte): seq<byte> {
    EncError(0x0C, h, err, w.mtu)
  }

  // ----- its steps and states -----

  function Ask0(w: World, h: u16): Step {
    UserCall(Send(0x0A, EncWord(0x0A, h, w.mtu), true, true, ReadFirst))
  }

  const WRITE := WritableStep(Done)

  function Steps(w: World, h: u16, err: byte): seq<Step>
    requires w.mtu >= 1
  {
    [Ask0(w, h), WRITE, ReadableStep(FirstReply(w, h), [], [More(w, h)]), WRITE,
        ReadableStep(Failure(w, h, err), [], [])]
  }

  function Waiting(q: seq<Command>, accepted: nat, log: seq<Event>): State {
    State(q, [], None, true, false, 1, accepted, 2, 1, false, false, INITIAL.mem, log)
  }

  function Flying(c: Command, accepted: nat, log: seq<Event>): State {
    State([c], [], Some(c.serial), false, false, 1, accepted, 1, 1, false, false, INITIAL.mem, log)
  }

  function LogAsked(w: World, h: u16): seq<Event> { [Accepted(FirstCommand(w, h, false))] }

  function LogWritten(w: World, h: u16): seq<Event> { LogAsked(w, h) + [Wrote(FirstCommand(w, h, false))] }

  function LogCalled(w: World, h: u16): seq<Event>
    requires w.mtu >= 1
  {
    LogWritten(w, h) + [Replied(FirstReply(w, h), Some(FirstCommand(w, h, true)))]
                     + [Called(FirstCommand(w, h, true), 0, FirstReply(w, h), [More(w, h)])]
  }

  function LogMore(w: World, h: u16): seq<Event>
    requires w.mtu >= 1
  {
    LogCalled(w, h) + [Accepted(NextCommand(w, h, false))] + [Destroyed(FirstCommand(w, h, true))]
  }

  function LogWrittenMore(w: World, h: u16): seq<Event>
    requires w.mtu >= 1
  {
    LogMore(w, h) + [Wrote(NextCommand(w, h, false))]
  }

  function LogEnd(w: World, h: u16, err: byte): seq<Event>
    requires w.mtu >= 1
  {
    LogWrittenMore(w, h) + [Replied(Failure(w, h, err), Some(NextCommand(w, h, true)))]
                         + [Called(NextCommand(w, h, true), err, Failure(w, h, err), [])] +
                             [Destroyed(NextCommand(w, h, true))]
  }

  lemma {:induction false} Asked(w: World, h: u16)
    ensures Apply(INITIAL, Ask0(w, h)) == Waiting([FirstCommand(w, h, false)], 1, LogAsked(w, h))
  {
    hide EncWord;
  }

  lemma {:induction false} Written(c: Command, accepted: nat, log: seq<Event>)
    requires !c.sent && c.expected != 0
    ensures Apply(Waiting([c], accepted, log), WRITE) == Flying(c.(sent := true), accepted, log + [Wrote(c)])
  {
    assert [c][0 := c.(sent := true)] == [c.(sent := true)];
  }

  /** A reply full to the MTU makes the first callback ask for more. */
  lemma {:induction false} FullReply(w: World, h: u16)
    requires Usable(w) && w.trust && |w.srv(h)| >= w.mtu
    ensures var rx := FirstReply(w, h); |rx| == w.mtu && rx == [0x0B] + w.srv(h)[..w.mtu - 1]
  {
  }

  lemma {:induction false} Continued(w: World, h: u16)
    requires Usable(w) && w.trust && |w.srv(h)| >= w.mtu
    ensures Apply(Flying(FirstCommand(w, h, true), 1, LogWritten(w, h)),
            ReadableStep(FirstReply(w, h), [], [More(w, h)]))
            == Waiting([NextCommand(w, h, false)], 2, LogMore(w, h))
  {
    FullReply(w, h);
    hide EncWord, EncWords, AnswerRead, LogWritten;
    var c, rx, a := FirstCommand(w, h, true), FirstReply(w, h), More(w, h);
    var s := Flying(c, 1, LogWritten(w, h));
    assert [c][1..] == [];
    var t := PopReplied(s, rx);
    assert t == State([], [], None, false, false, 1, 1, 1, 1, false, false, INITIAL.mem,
           LogWritten(w, h) + [Replied(rx, Some(c))]);
    var u := Note(t, Called(c, 0, rx, [a]));
    OneCall(u, a, 1);
    assert Enqueue(u, 1, a) == Waiting([NextCommand(w, h, false)], 2,
           LogCalled(w, h) + [Accepted(NextCommand(w, h, false))]);
  }

  lemma {:induction false} Failed(w: World, h: u16, err: byte)
    requires w.mtu >= 23 && err != 0
    ensures Apply(Flying(NextCommand(w, h, true), 2, LogWrittenMore(w, h)),
            ReadableStep(Failure(w, h, err), [], [])).log == LogEnd(w, h, err)
    ensures Apply(Flying(NextCommand(w, h, true), 2, LogWrittenMore(w, h)),
            ReadableStep(Failure(w, h, err), [], [])).accepted == 2
  {
    var rx := Failure(w, h, err);
    assert rx[0] == 0x01 && rx[4] == err && |rx| == 5;
    hide EncWords, LogWrittenMore, EncError;
    assert [NextCommand(w, h, true)][1..] == [];
  }

  // ----- the record along the log -----

  lemma {:induction false} FirstFields(w: World, h: u16, sent: bool)
    requires w.mtu >= 23
    ensures HandleOf(FirstCommand(w, h, sent)) == h
  {
    var pdu := EncWord(0x0A, h, w.mtu);
    assert Window(pdu, 1, 2) == pdu[1..3] == PutU16(h);
  }

  lemma {:induction false} RecordAsked(w: World, h: u16)
    requires w.mtu >= 23
    ensures RecOf(LogWritten(w, h), 1, w.mtu) == Rec(1, false, true, h, [], None, false, false)
  {
    FirstFields(w, h, false);
    RecAppend([], Accepted(FirstCommand(w, h, false)), 1, w.mtu);
    RecAppend(LogAsked(w, h), Wrote(FirstCommand(w, h, false)), 1, w.mtu);
    assert [] + LogAsked(w, h) == LogAsked(w, h);
    hide EncWord;
  }

  lemma {:induction false} RecordMore(w: World, h: u16)
    requires Usable(w) && w.trust && |w.srv(h)| >= w.mtu
    ensures RecOf(LogWrittenMore(w, h), 1, w.mtu) == Rec(1, false, true, h, FirstReply(w, h), None, false, false)
  {
    FullReply(w, h);
    RecordAsked(w, h);
    hide EncWord, EncWords, AnswerRead, LogWritten, RecOf;
    var c, d, rx, log := FirstCommand(w, h, true), NextCommand(w, h, false), FirstReply(w, h), LogWritten(w, h);
    RecAppend(log, Replied(rx, Some(c)), 1, w.mtu);
    RecAppend(log + [Replied(rx, Some(c))], Called(c, 0, rx, [More(w, h)]), 1, w.mtu);
    RecAppend(LogCalled(w, h), Accepted(d), 1, w.mtu);
    RecAppend(LogCalled(w, h) + [Accepted(d)], Destroyed(c), 1, w.mtu);
    RecAppend(LogMore(w, h), Wrote(d), 1, w.mtu);
  }

  lemma {:induction false} RecordEnd(w: World, h: u16, err: byte)
    requires Usable(w) && w.trust && |w.srv(h)| >= w.mtu && err != 0
    ensures RecOf(LogEnd(w, h, err), 1, w.mtu) ==
            Rec(0, true, true, h, FirstReply(w, h), Some(Result(0, FirstReply(w, h), err)), false, false)
  {
    RecordMore(w, h);
    hide EncWords, AnswerRead, LogWrittenMore, RecOf, EncError;
    var d, rx, log := NextCommand(w, h, true), Failure(w, h, err), LogWrittenMore(w, h);
    RecAppend(log, Replied(rx, Some(d)), 1, w.mtu);
    RecAppend(log + [Replied(rx, Some(d))], Called(d, err, rx, []), 1, w.mtu);
    RecAppend(log + [Replied(rx, Some(d))] + [Called(d, err, rx, [])], Destroyed(d), 1, w.mtu);
  }

  // ----- the run -----

  /** A run one step longer. */
  lemma {:induction false} Longer(steps: seq<Step>, step: Step, w: World)
    requires w.mtu >= 23
    ensures var t := steps + [step];
            && Run(t) == Apply(Run(steps), step) && (Legal(t) <==> Legal(steps) && Enabled(Run(steps), step))
            && (GattRun(t, w) <==> GattRun(steps, w) && Disciplined(Run(steps), step, w))
  {
    hide Apply, Enabled, Disciplined;
    assert (steps + [step])[..|steps|] == steps;
  }

  lemma {:induction false} FirstIsDisciplined(w: World, h: u16)
    requires Usable(w) && w.trust && |w.srv(h)| >= w.mtu
    ensures Disciplined(INITIAL, Ask0(w, h), w)
    ensures Disciplined(Flying(FirstCommand(w, h, true), 1, LogWritten(w, h)),
            ReadableStep(FirstReply(w, h), [], [More(w, h)]), w)
  {
    var pdu := EncWord(0x0A, h, w.mtu);
    assert pdu[1..] == PutU16(h);
    FirstFields(w, h, true);
    FullReply(w, h);
    RecordAsked(w, h);
    var c, rx := FirstCommand(w, h, true), FirstReply(w, h);
    RecAppend(LogWritten(w, h), Replied(rx, Some(c)), 1, w.mtu);
    hide EncWords, AnswerRead, LogWritten, RecOf, EncWord, HandleOf;
    assert Obeys([More(w, h)], c, LogWritten(w, h) + [Replied(rx, Some(c))], 0, rx, w);
  }

  lemma {:induction false} LastIsDisciplined(w: World, h: u16, err: byte)
    requires Usable(w) && w.trust && |w.srv(h)| >= w.mtu && err != 0
    ensures Disciplined(Flying(NextCommand(w, h, true), 2, LogWrittenMore(w, h)),
            ReadableStep(Failure(w, h, err), [], []), w)
  {
    var rx := Failure(w, h, err);
    assert rx[0] == 0x01 && rx[4] == err && |rx| == 5;
    hide EncWords, AnswerRead, LogWrittenMore, RecOf, EncError, HandleOf;
  }

  lemma {:induction false} FirstHalf(w: World, h: u16)
    requires Usable(w) && w.trust && |w.srv(h)| >= w.mtu
    ensures var steps := [Ask0(w, h), WRITE];
            Legal(steps) && GattRun(steps, w) && Run(steps) == Flying(FirstCommand(w, h, true), 1, LogWritten(w, h))
  {
    var s1 := [Ask0(w, h)];
    assert [] + [Ask0(w, h)] == s1 && s1 + [WRITE] == [Ask0(w, h), WRITE];
    assert Run([]) == INITIAL && Legal([]) && GattRun([], w);
    hide Run, Legal, GattRun, Apply, Disciplined, LogWritten, LogAsked, EncWord;
    Longer([], Ask0(w, h), w);
    Longer(s1, WRITE, w);
    Asked(w, h);
    WritesAreDisciplined(Run(s1), w);
    Written(FirstCommand(w, h, false), 1, LogAsked(w, h));
    FirstIsDisciplined(w, h);
    LogsGrow(w, h);
  }

  lemma {:induction false} MoreIsProper(w: World, h: u16)
    requires w.mtu >= 1
    ensures Enabled(Flying(FirstCommand(w, h, true), 1, LogWritten(w, h)),
            ReadableStep(FirstReply(w, h), [], [More(w, h)]))
  {
    hide EncWord, AnswerRead, LogWritten, MorePdu, StatusOf;
    var s, c, rx, a := Flying(FirstCommand(w, h, true), 1, LogWritten(w, h)), FirstCommand(w, h, true),
        FirstReply(w, h), More(w, h);
    var u := Note(PopReplied(s, rx), Called(c, StatusOf(c.expected, rx), rx, [a]));
    assert [a][1..] == [] && Proper(Act(u, a, 1), [], 1);
    assert Proper(u, [a], 1) by { hide Act; }
  }

  lemma {:induction false} SecondHalf(w: World, h: u16)
    requires Usable(w) && w.trust && |w.srv(h)| >= w.mtu
    ensures var steps := [Ask0(w, h), WRITE, ReadableStep(FirstReply(w, h), [], [More(w, h)]), WRITE];
            Legal(steps) && GattRun(steps, w) && Run(steps) == Flying(NextCommand(w, h, true), 2, LogWrittenMore(w, h))
  {
    hide Run, Legal, GattRun, Apply, Disciplined, LogWritten, LogMore, LogWrittenMore, FirstReply, MorePdu, EncWord,
        Ask0, More;
    FirstHalf(w, h);
    var reply := ReadableStep(FirstReply(w, h), [], [More(w, h)]);
    var s2 := [Ask0(w, h), WRITE];
    var s3 := s2 + [reply];
    assert s3 + [WRITE] == [Ask0(w, h), WRITE, reply, WRITE];
    Longer(s2, reply, w);
    Longer(s3, WRITE, w);
    FirstIsDisciplined(w, h);
    MoreIsProper(w, h);
    Continued(w, h);
    WritesAreDisciplined(Run(s3), w);
    Written(NextCommand(w, h, false), 2, LogMore(w, h));
    LogsGrow(w, h);
  }

  lemma {:induction false} RunOf(w: World, h: u16, err: byte)
    requires Usable(w) && w.trust && |w.srv(h)| >= w.mtu && err != 0
    ensures Legal(Steps(w, h, err)) && GattRun(Steps(w, h, err), w)
    ensures Run(Steps(w, h, err)).log == LogEnd(w, h, err) && Run(Steps(w, h, err)).accepted == 2
  {
    hide Run, Legal, GattRun, Apply, Disciplined, LogEnd, LogWrittenMore, FirstReply, MorePdu, Failure, Ask0, More;
    SecondHalf(w, h);
    var s4, last := Steps(w, h, err)[..4], Steps(w, h, err)[4];
    assert s4 == [Ask0(w, h), WRITE, ReadableStep(FirstReply(w, h), [], [More(w, h)]), WRITE];
    assert s4 + [last] == Steps(w, h, err);
    Longer(s4, last, w);
    LastIsDisciplined(w, h, err);
    Failed(w, h, err);
  }

  lemma {:induction false} LogsGrow(w: World, h: u16)
    requires w.mtu >= 1
    ensures LogAsked(w, h) + [Wrote(FirstCommand(w, h, false))] == LogWritten(w, h)
    ensures LogMore(w, h) + [Wrote(NextCommand(w, h, false))] == LogWrittenMore(w, h)
  {
  }

  lemma {:induction false} WritesAreDisciplined(s: State, w: World)
    requires w.mtu >= 23
    ensures Disciplined(s, WRITE, w)
  {
  }

  /**
   Whatever the value, if it is longer than one reply, and whatever the error:
   when the second round fails, the user is told of a success and given the
   first piece only, on a connection that did nothing but this read.
   */
  lemma {:induction false} ErrorLooksLikeSuccess(w: World, h: u16, err: byte)
    requires Usable(w) && w.trust && |w.srv(h)| >= w.mtu && err != 0
    ensures var steps := Steps(w, h, err);
            && Legal(steps) && GattRun(steps, w) && Run(steps).accepted == 2
            && var r := RecOf(Run(steps).log, 1, w.mtu);
               && r.handle == h && r.result.Some? && r.result.value.status == 0
               && r.result.value.bytes < [0x0B] + w.srv(h)
  {
    RunOf(w, h, err);
    RecordEnd(w, h, err);
    FullReply(w, h);
    hide Run, Legal, GattRun, RecOf, LogEnd, AnswerRead, Steps;
  }
}
