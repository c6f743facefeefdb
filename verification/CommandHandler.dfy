/** Command validation, retransmission replay and the loss timer (fsw/src/comms/command_handler.cpp). */
module CommandHandler {
  import opened Wire
  import opened Catalog
  import ModeManager

  const TIMEOUT := 5000
  const DEDUP := TIMEOUT

  datatype Reject = Ok | UnknownId | IllegalInMode | BadArg

  /** command_t: a catalog id, one byte of argument and a 16-bit sequence number. */
  datatype Command = Command(id: Byte, arg: Byte, seqNo: nat)

  datatype Event = Event(t: nat, id: Byte, accepted: bool, reason: Reject, duplicate: bool)

  /** Where each command is legal. */
  function LegalModes(id: Byte): set<Mode>
    requires id < COMMANDS
  {
    if id == CAPTURE_IMAGE then {STANDBY, POINTING, DOWNLINK}
    else if id == SET_HEADING then {POINTING}
    else if id == PULSE_WHEEL then {STANDBY}
    else {BOOT, STANDBY, DETUMBLE, POINTING, DOWNLINK, SAFE}
  }

  predicate CommandableMode(arg: Byte) { arg < 6 && ModeOf(arg) != BOOT }

  function Verdict(c: Command, mode: Mode): Reject {
    if c.id >= COMMANDS then UnknownId
    else if mode !in LegalModes(c.id) then IllegalInMode
    else if (c.id == SET_MODE && !CommandableMode(c.arg)) || (c.id == CLEAR_FAULT && c.arg >= FAULTS)
         || (c.id == CAPTURE_IMAGE && c.arg >= RESOLUTIONS)
    then BadArg
    else if c.id == SET_MODE && !ModeManager.TransitionLegal(mode, Trigger.Command, ModeOf(c.arg)) then IllegalInMode
    else Ok
  }

  /** The last command's time, number and answer; `log` is every answer since power-on. */
  datatype Handler = Handler(lastAt: nat, last: Option<(nat, Event)>, log: seq<Event>)

  const INITIAL := Handler(0, None, [])

  predicate IsRepeat(h: Handler, c: Command, t: nat) {
    h.last.Some? && h.last.value.0 == c.seqNo && Since(t, h.lastAt) <= DEDUP
  }

  function Answer(h: Handler, c: Command, mode: Mode, t: nat): Event {
    if IsRepeat(h, c, t) then h.last.value.1.(t := t, duplicate := true)
    else var r := Verdict(c, mode); Event(t, c.id, r == Ok, r, false)
  }

  /** A repeat moves the loss timer and the log, and nothing else. */
  function Handled(h: Handler, c: Command, mode: Mode, t: nat): Handler {
    var e := Answer(h, c, mode, t);
    Handler(t, if IsRepeat(h, c, t) then h.last else Some((c.seqNo, e)), h.log + [e])
  }

  predicate LinkLost(h: Handler, t: nat) { Since(t, h.lastAt) > TIMEOUT }

  /** What the executive acts on: accepted, and not a retransmission. */
  predicate Executes(e: Event) { e.accepted && !e.duplicate }

  /** The modes by their wire values. */
  function IdOf(m: Mode): (id: nat)
    ensures id < 6 && ModeOf(id) == m
  {
    match m case BOOT => 0 case STANDBY => 1 case DETUMBLE => 2 case POINTING => 3 case DOWNLINK => 4 case SAFE => 5
  }

  /**
   * Which commands are taken, by number: NOOP and a telemetry request anywhere; a mode other than BOOT and the present
   * one, from BOOT only 1, 2 or 5 and from SAFE only 1; a fault number; one of three resolutions, in STANDBY, POINTING
   * or DOWNLINK; a heading in POINTING; a test pulse in STANDBY.
   */
  lemma TakenIff(c: Command, mode: Mode)
    ensures Verdict(c, mode) == Ok <==>
      || c.id in {0, 5}
      || (c.id == 1 && 1 <= c.arg <= 5 && c.arg != IdOf(mode)
          && (mode == BOOT ==> c.arg in {1, 2, 5}) && (mode == SAFE ==> c.arg == 1))
      || (c.id == 2 && c.arg <= 12)
      || (c.id == 3 && c.arg <= 2 && mode in {STANDBY, POINTING, DOWNLINK})
      || (c.id == 4 && mode == POINTING)
      || (c.id == 6 && mode == STANDBY)
  {
    if c.id == SET_MODE && CommandableMode(c.arg) {
      ModeManager.LegalIff(mode, Trigger.Command, ModeOf(c.arg));
      assert ModeOf(c.arg) == mode <==> c.arg == IdOf(mode);
    }
  }

  /** And why the others are not: no such command; no such mode, fault or resolution; or the wrong mode for it. */
  lemma RefusedFor(c: Command, mode: Mode)
    ensures Verdict(c, mode) == UnknownId <==> c.id >= 7
    ensures Verdict(c, mode) == BadArg <==>
      || (c.id == 1 && !(1 <= c.arg <= 5))
      || (c.id == 2 && c.arg >= 13)
      || (c.id == 3 && c.arg >= 3 && mode in {STANDBY, POINTING, DOWNLINK})
  {
  }

  /** An executed command passed validation, so its argument is in range. */
  lemma ExecutedIsValid(h: Handler, c: Command, mode: Mode, t: nat)
    requires Executes(Answer(h, c, mode, t))
    ensures Verdict(c, mode) == Ok && Answer(h, c, mode, t).id == c.id
    ensures c.id == SET_MODE ==> c.arg < 6 && ModeManager.TransitionLegal(mode, Trigger.Command, ModeOf(c.arg))
    ensures c.id == CLEAR_FAULT ==> c.arg < FAULTS
  {
  }

  class Handling {
    var log: seq<Event>
    var lastAt: nat
    var lastEvent: Event
    var lastSeq: nat
    var haveLast: bool
    ghost var all: seq<Event>

    ghost predicate Valid()
      reads this
    {
      log == Recent(all)
    }

    ghost function Now(): Handler
      reads this
    {
      Handler(lastAt, if haveLast then Some((lastSeq, lastEvent)) else None, all)
    }

    constructor ()
      ensures Valid() && Now() == INITIAL
    {
      log, lastAt, lastSeq, haveLast, all := [], 0, 0, false, [];
      lastEvent := Event(0, 0, false, Ok, false);
    }

    method Record(e: Event)
      requires Valid()
      modifies this`log, this`all
      ensures Valid() && all == old(all) + [e]
    {
      RingKeepsRecent(all, e);
      log := RingPush(log, e);
      all := all + [e];
    }

    method Silent(t: nat) returns (lost: bool)
      ensures lost == LinkLost(Now(), t)
    {
      lost := Since(t, lastAt) > TIMEOUT;
    }

    method Handle(c: Command, mode: Mode, t: nat) returns (e: Event)
      requires Valid()
      modifies this
      ensures Valid() && Now() == Handled(old(Now()), c, mode, t)
      ensures e == Answer(old(Now()), c, mode, t)
    {
      var sinceLast := Since(t, lastAt);
      lastAt := t;
      if haveLast && c.seqNo == lastSeq && sinceLast <= DEDUP {
        e := lastEvent.(t := t, duplicate := true);
        Record(e);
        return;
      }
      var reason := Ok;
      if c.id >= COMMANDS {
        reason := UnknownId;
      } else if mode !in LegalModes(c.id) {
        reason := IllegalInMode;
      } else if (c.id == SET_MODE && !CommandableMode(c.arg)) || (c.id == CLEAR_FAULT && c.arg >= FAULTS)
             || (c.id == CAPTURE_IMAGE && c.arg >= RESOLUTIONS) {
        reason := BadArg;
      } else if c.id == SET_MODE && !ModeManager.TransitionLegal(mode, Trigger.Command, ModeOf(c.arg)) {
        reason := IllegalInMode;
      }
      e := Event(t, c.id, reason == Ok, reason, false);
      Record(e);
      lastEvent := e;
      lastSeq := c.seqNo;
      haveLast := true;
    }
  }

  // ---- at most once ----

  /** A command as the vehicle met it: what, in which mode, and when on a clock that never wraps. */
  datatype Arrival = Arrival(c: Command, mode: Mode, at: nat)

  function AnswerTo(h: Handler, a: Arrival): Event { Answer(h, a.c, a.mode, a.at % WRAP) }

  function AfterArrival(h: Handler, a: Arrival): Handler { Handled(h, a.c, a.mode, a.at % WRAP) }

  function Answers(h: Handler, arrivals: seq<Arrival>): (es: seq<Event>)
    ensures |es| == |arrivals|
    decreases |arrivals|
  {
    if arrivals == [] then []
    else [AnswerTo(h, arrivals[0])] + Answers(AfterArrival(h, arrivals[0]), arrivals[1..])
  }

  function AfterAll(h: Handler, arrivals: seq<Arrival>): Handler
    decreases |arrivals|
  {
    if arrivals == [] then h else AfterAll(AfterArrival(h, arrivals[0]), arrivals[1..])
  }

  lemma {:induction false} AnswersSnoc(h: Handler, arrivals: seq<Arrival>, a: Arrival)
    ensures Answers(h, arrivals + [a]) == Answers(h, arrivals) + [AnswerTo(AfterAll(h, arrivals), a)]
    ensures AfterAll(h, arrivals + [a]) == AfterArrival(AfterAll(h, arrivals), a)
    decreases |arrivals|
  {
    if arrivals == [] {
      assert [] + [a] == [a] && [a][1..] == [];
    } else {
      assert (arrivals + [a])[1..] == arrivals[1..] + [a];
      AnswersSnoc(AfterArrival(h, arrivals[0]), arrivals[1..], a);
    }
  }

  /** Same number throughout, and no two neighbours more than the window apart. */
  predicate Block(arrivals: seq<Arrival>) {
    forall i :: 0 < i < |arrivals| ==>
      && arrivals[i].c.seqNo == arrivals[i - 1].c.seqNo
      && arrivals[i - 1].at <= arrivals[i].at <= arrivals[i - 1].at + DEDUP
  }

  lemma RepeatOf(h: Handler, a: Arrival, b: Arrival)
    requires a.c.seqNo == b.c.seqNo && a.at <= b.at <= a.at + DEDUP
    ensures IsRepeat(AfterArrival(h, a), b.c, b.at % WRAP)
  {
    SinceIsElapsed(a.at, b.at - a.at);
  }

  predicate Echoes(e: Event, first: Event) {
    e.duplicate && e.accepted == first.accepted && e.reason == first.reason && e.id == first.id
  }

  /** A copy that follows its predecessor within the window is answered with that one's verdict. */
  lemma {:induction false} CopyEchoes(h: Handler, arrivals: seq<Arrival>, i: nat)
    requires 0 < i < |arrivals| && arrivals[i].c.seqNo == arrivals[i - 1].c.seqNo
    requires arrivals[i - 1].at <= arrivals[i].at <= arrivals[i - 1].at + DEDUP
    ensures Echoes(Answers(h, arrivals)[i], Answers(h, arrivals)[i - 1])
    decreases |arrivals|
  {
    var next := AfterArrival(h, arrivals[0]);
    var rest := Answers(next, arrivals[1..]);
    if i == 1 {
      RepeatOf(h, arrivals[0], arrivals[1]);
      assert rest[0] == AnswerTo(next, arrivals[1]);
    } else {
      CopyEchoes(next, arrivals[1..], i - 1);
    }
  }

  /** However many copies arrive in whatever modes, every later one gets the first one's verdict and does not run. */
  lemma {:induction false} BlockAnswers(h: Handler, block: seq<Arrival>, i: nat)
    requires Block(block) && 0 < i < |block|
    ensures Echoes(Answers(h, block)[i], Answers(h, block)[0])
    decreases i
  {
    CopyEchoes(h, block, i);
    if i > 1 { BlockAnswers(h, block, i - 1); }
  }

  /** How many of a list of answers were acted on. */
  function Executed(es: seq<Event>): nat {
    if es == [] then 0 else (if Executes(es[0]) then 1 else 0) + Executed(es[1..])
  }

  lemma {:induction false} NoneExecuted(es: seq<Event>)
    requires forall i :: 0 <= i < |es| ==> !Executes(es[i])
    ensures Executed(es) == 0
  {
    if es != [] { NoneExecuted(es[1..]); }
  }

  lemma AtMostOnce(h: Handler, block: seq<Arrival>)
    requires Block(block)
    ensures Executed(Answers(h, block)) <= 1
  {
    if block != [] {
      var es := Answers(h, block);
      forall i | 0 <= i < |es| - 1 ensures !Executes(es[1..][i]) {
        BlockAnswers(h, block, i + 1);
      }
      NoneExecuted(es[1..]);
    }
  }

  /** After any arrivals the handler holds the last one's number and time, whatever it held before. */
  lemma {:induction false} LastIsRemembered(h: Handler, arrivals: seq<Arrival>)
    requires arrivals != []
    ensures var a, g := arrivals[|arrivals| - 1], AfterAll(h, arrivals);
      g.last.Some? && g.last.value.0 == a.c.seqNo && g.lastAt == a.at % WRAP
    decreases |arrivals|
  {
    if |arrivals| > 1 { LastIsRemembered(AfterArrival(h, arrivals[0]), arrivals[1..]); }
  }

  /**
   * Exactly when a command runs. After any arrivals ending in a, and less than a counter wrap later, b is acted on if
   * and only if it is not a copy of a inside the window and it is legal where it lands. Nothing before a matters.
   */
  lemma RunsIff(h: Handler, arrivals: seq<Arrival>, b: Arrival)
    requires arrivals != []
    requires var a := arrivals[|arrivals| - 1]; a.at <= b.at < a.at + WRAP
    ensures var a := arrivals[|arrivals| - 1];
      Executes(AnswerTo(AfterAll(h, arrivals), b)) <==>
        (a.c.seqNo != b.c.seqNo || b.at > a.at + DEDUP) && Verdict(b.c, b.mode) == Ok
  {
    var a := arrivals[|arrivals| - 1];
    LastIsRemembered(h, arrivals);
    SinceIsElapsed(a.at, b.at - a.at);
  }

  /** The log is every answer given, in order, and each says when, to which command, and why if it was refused. */
  lemma {:induction false} LogOfARun(h: Handler, arrivals: seq<Arrival>)
    ensures AfterAll(h, arrivals).log == h.log + Answers(h, arrivals)
    ensures forall i :: 0 <= i < |arrivals| ==>
      var a, e := arrivals[i], Answers(h, arrivals)[i];
      e.t == a.at % WRAP
      && (e.duplicate || (e.id == a.c.id && e.reason == Verdict(a.c, a.mode) && (e.accepted <==> e.reason == Ok)))
    decreases |arrivals|
  {
    if arrivals == [] {
      assert h.log + [] == h.log;
    } else {
      LogOfARun(AfterArrival(h, arrivals[0]), arrivals[1..]);
    }
  }

  /** After any arrivals the link counts as lost once more than five seconds have passed since the last of them. */
  lemma LostIff(h: Handler, arrivals: seq<Arrival>, at: nat)
    requires arrivals != [] && arrivals[|arrivals| - 1].at <= at < arrivals[|arrivals| - 1].at + WRAP
    ensures LinkLost(AfterAll(h, arrivals), at % WRAP) <==> at > arrivals[|arrivals| - 1].at + 5000
  {
    var a := arrivals[|arrivals| - 1];
    LastIsRemembered(h, arrivals);
    SinceIsElapsed(a.at, at - a.at);
  }

  /** In a list of arrivals, each under a wrap after the one before: which of them are acted on. */
  lemma {:induction false} WhichRun(h: Handler, arrivals: seq<Arrival>, i: nat)
    requires 0 < i < |arrivals| && arrivals[i - 1].at <= arrivals[i].at < arrivals[i - 1].at + WRAP
    ensures Executes(Answers(h, arrivals)[i]) <==>
      (arrivals[i - 1].c.seqNo != arrivals[i].c.seqNo || arrivals[i].at > arrivals[i - 1].at + DEDUP)
      && Verdict(arrivals[i].c, arrivals[i].mode) == Ok
  {
    AnswerAt(h, arrivals, i);
    RunsIff(h, arrivals[..i], arrivals[i]);
  }

  lemma {:induction false} AnswerAt(h: Handler, arrivals: seq<Arrival>, i: nat)
    requires i < |arrivals|
    ensures Answers(h, arrivals)[i] == AnswerTo(AfterAll(h, arrivals[..i]), arrivals[i])
    decreases |arrivals|
  {
    if i > 0 {
      AnswerAt(AfterArrival(h, arrivals[0]), arrivals[1..], i - 1);
      assert arrivals[..i][1..] == arrivals[1..][..i - 1];
    }
  }

  /** One number is all the vehicle remembers: another command between two copies lets both run. */
  lemma InterleavedCopiesRun(a: Arrival, b: Arrival, again: Arrival)
    requires a == Arrival(Command.Command(PULSE_WHEEL, 20, 1), STANDBY, 0) && again == a.(at := 1400)
    requires b == Arrival(Command.Command(NOOP, 0, 2), STANDBY, 700)
    ensures Executed(Answers(INITIAL, [a, b, again])) == 3
  {
    var h1, h2 := AfterArrival(INITIAL, a), AfterArrival(AfterArrival(INITIAL, a), b);
    assert [a, b, again][1..] == [b, again] && [b, again][1..] == [again] && [again][1..] == [];
    var e0, e1, e2 := AnswerTo(INITIAL, a), AnswerTo(h1, b), AnswerTo(h2, again);
    assert Answers(h2, [again]) == [e2];
    assert Answers(h1, [b, again]) == [e1, e2];
    assert Answers(INITIAL, [a, b, again]) == [e0, e1, e2];
    assert [e0, e1, e2][1..] == [e1, e2] && [e1, e2][1..] == [e2] && [e2][1..] == [];
    assert Executed([e2]) == 1 && Executed([e1, e2]) == 2;
  }
}
