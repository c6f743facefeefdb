/**
 * Commanding end to end: the ground's retries, two lossy first-in first-out links, and the vehicle's replay.
 * One command is outstanding at a time, and fewer than 65536 are ever issued.
 */
module CommandLink {
  import opened Wire
  import opened Catalog
  import opened CommandHandler
  import A = Attitude
  import E = Executive
  import WheelTorque
  import Safing
  import S = Session

  /** command_ack_t. */
  datatype Ack = Ack(id: Byte, seqNo: nat, accepted: bool, reason: Reject)

  function AckOf(c: Command, e: Event): Ack { Ack(c.id, c.seqNo, e.accepted, e.reason) }

  /** One transmission of a command and when it left. */
  datatype Copy = Copy(c: Command, sentAt: real)

  /** When a copy that reached the vehicle left the ground and when it got there. */
  datatype Trip = Trip(sentAt: real, gotAt: real)

  /**
   * `sent`, `heard`, `popped`: every transmission, every arrival at the vehicle and every ack the ground got; `trips`
   * times the arrivals. One clock, in seconds since the vehicle's boot, runs through the whole world.
   */
  datatype World = World(
    ground: S.Uplink, up: seq<Copy>, vehicle: Handler, down: seq<Ack>,
    sent: seq<Copy>, heard: seq<Arrival>, trips: seq<Trip>, popped: seq<Ack>, clock: real, ticked: real)

  datatype Action =
    | Issue(id: Byte, arg: Byte, retry: bool, now: real)
    | Tick(now: real)
    | LoseUp(i: nat)
    | Hear(mode: Mode, now: real)
    | LoseDown(i: nat)
    | HearAck

  /** Ticks come at most `tick` seconds apart, and the uplink takes between `floor` and `floor + spread`. */
  datatype Timing = Timing(tick: real, floor: real, spread: real)

  predicate Physical(p: Timing) { p.tick >= 0.0 && p.floor >= 0.0 && p.spread >= 0.0 }

  /** The last of four tries, as late as it can be, still lands inside the replay window of the first. */
  predicate Fits(p: Timing) { 3.0 * (S.RETRY_AFTER + p.tick) + p.spread <= 5.0 }

  predicate Possible(w: World, a: Action) {
    match a
    case Issue(_, _, _, now) => w.clock <= now && w.ground.outstanding == [] && w.ground.seqNo < 0xFFFF
    case Tick(now) => w.clock <= now
    case LoseUp(i) => i < |w.up|
    case Hear(_, now) => w.clock <= now && w.up != []
    case LoseDown(i) => i < |w.down|
    case HearAck => w.down != []
  }

  /** What the timing promises of one action. */
  predicate Meets(w: World, a: Action, p: Timing)
    requires Possible(w, a)
  {
    match a
    case Tick(now) => now <= w.ticked + p.tick
    case Hear(_, now) => p.floor <= now - w.up[0].sentAt <= p.floor + p.spread
    case _ => true
  }

  function Without<T>(s: seq<T>, i: nat): seq<T>
    requires i < |s|
  {
    s[..i] + s[i + 1..]
  }

  function Stamped(cs: seq<Command>, now: real): (copies: seq<Copy>)
    ensures |copies| == |cs| && forall i :: 0 <= i < |cs| ==> copies[i] == Copy(cs[i], now)
  {
    seq(|cs|, i requires 0 <= i < |cs| => Copy(cs[i], now))
  }

  /** What the vehicle's free-running counter reads, before it wraps. */
  function Millis(t: real): nat { if t < 0.0 then 0 else (1000.0 * t).Floor }

  function Landing(w: World, mode: Mode, now: real): Arrival
    requires w.up != []
  {
    Arrival(w.up[0].c, mode, Millis(now))
  }

  function Do(w: World, a: Action): World
    requires Possible(w, a)
  {
    match a
    case Issue(id, arg, retry, now) =>
      var u := S.Issued(w.ground, id, arg, retry, now);
      var tx := Stamped([Command.Command(id, arg, u.seqNo)], now);
      w.(ground := u, up := w.up + tx, sent := w.sent + tx, clock := now)
    case Tick(now) =>
      var tx := Stamped(S.Resent(w.ground.outstanding, now), now);
      w.(ground := w.ground.(outstanding := S.Kept(w.ground.outstanding, now)), up := w.up + tx, sent := w.sent + tx,
         clock := now, ticked := now)
    case LoseUp(i) => w.(up := Without(w.up, i))
    case Hear(mode, now) =>
      var h := Landing(w, mode, now);
      w.(up := w.up[1..], vehicle := AfterArrival(w.vehicle, h), heard := w.heard + [h],
         trips := w.trips + [Trip(w.up[0].sentAt, now)],
         down := w.down + [AckOf(h.c, AnswerTo(w.vehicle, h))], clock := now)
    case LoseDown(i) => w.(down := Without(w.down, i))
    case HearAck =>
      w.(ground := w.ground.(outstanding := S.Popped(w.ground.outstanding, w.down[0].seqNo)),
         down := w.down[1..], popped := w.popped + [w.down[0]])
  }

  const START := World(S.Uplink(0, []), [], INITIAL, [], [], [], [], [], 0.0, 0.0)

  function CountOf(cs: seq<Copy>, n: nat): nat {
    if cs == [] then 0 else (if cs[0].c.seqNo == n then 1 else 0) + CountOf(cs[1..], n)
  }

  lemma {:induction false} CountConcat(a: seq<Copy>, b: seq<Copy>, n: nat)
    ensures CountOf(a + b, n) == CountOf(a, n) + CountOf(b, n)
  {
    if a == [] {
      assert a + b == b;
    } else {
      assert (a + b)[1..] == a[1..] + b;
      CountConcat(a[1..], b, n);
    }
  }

  /** In transmission order: numbers never go back, and one number is one command. */
  ghost predicate InOrder(cs: seq<Command>) {
    forall i, j :: 0 <= i < j < |cs| ==>
      cs[i].seqNo <= cs[j].seqNo && (cs[i].seqNo == cs[j].seqNo ==> cs[i] == cs[j])
  }

  function HeardCommands(heard: seq<Arrival>): (cs: seq<Command>)
    ensures |cs| == |heard| && forall i :: 0 <= i < |cs| ==> cs[i] == heard[i].c
  {
    seq(|heard|, i requires 0 <= i < |heard| => heard[i].c)
  }

  function Commands(copies: seq<Copy>): (cs: seq<Command>)
    ensures |cs| == |copies| && forall i :: 0 <= i < |cs| ==> cs[i] == copies[i].c
  {
    seq(|copies|, i requires 0 <= i < |copies| => copies[i].c)
  }

  /** Everything on or past the uplink, oldest first, with the copy that would be sent next. */
  function Passage(w: World): seq<Command> {
    HeardCommands(w.heard) + Commands(w.up) + (if w.ground.outstanding == [] then [] else [w.ground.outstanding[0].c])
  }

  ghost predicate UplinkOk(w: World) {
    && |w.ground.outstanding| <= 1
    && InOrder(Passage(w))
    && (forall i :: 0 <= i < |Passage(w)| ==> Passage(w)[i].seqNo <= w.ground.seqNo)
    && (w.ground.outstanding != [] ==> w.ground.outstanding[0].c.seqNo == w.ground.seqNo)
  }

  ghost predicate SentOk(w: World) {
    && (forall n :: n > w.ground.seqNo ==> CountOf(w.sent, n) == 0)
    && (forall n :: CountOf(w.sent, n) <= S.RETRY_LIMIT)
    && (w.ground.outstanding != [] ==>
          CountOf(w.sent, w.ground.seqNo) == w.ground.outstanding[0].tries <= S.RETRY_LIMIT)
  }

  ghost predicate HeardOk(w: World) {
    && w.vehicle == AfterAll(INITIAL, w.heard)
    && |w.trips| == |w.heard|
    && (forall i :: 0 <= i < |w.heard| ==> w.heard[i].at == Millis(w.trips[i].gotAt) && w.trips[i].gotAt <= w.clock)
    && (forall i :: 0 < i < |w.trips| ==> w.trips[i - 1].gotAt <= w.trips[i].gotAt)
  }

  /** The ack answers copy i. */
  predicate Reports(w: World, ack: Ack, i: nat) {
    i < |w.heard| && ack == AckOf(w.heard[i].c, Answers(INITIAL, w.heard)[i])
  }

  ghost predicate Honest(w: World, ack: Ack) { exists i :: Reports(w, ack, i) }

  ghost predicate AcksOk(w: World) {
    && (forall k :: 0 <= k < |w.down| ==> Honest(w, w.down[k]))
    && (forall k :: 0 <= k < |w.popped| ==> Honest(w, w.popped[k]))
  }

  /** How far the retry after k tries can be behind the first try. */
  function Late(p: Timing, k: nat): real {
    if k == 0 then 0.0 else Late(p, k - 1) + (S.RETRY_AFTER + p.tick)
  }

  /** Transmissions of one number leave within what three retries can take. */
  ghost predicate Spans(sent: seq<Copy>, p: Timing) {
    forall a, b :: a in sent && b in sent && a.c.seqNo == b.c.seqNo ==>
      b.sentAt <= a.sentAt + 3.0 * (S.RETRY_AFTER + p.tick)
  }

  /** The outstanding command last went out 0.7 s before it is due, and first at most its tries' delays before that. */
  ghost predicate RetryOk(w: World, p: Timing) {
    w.ground.outstanding != [] ==>
      var o := w.ground.outstanding[0];
      && 1 <= o.tries <= S.RETRY_LIMIT && w.ticked < o.due
      && forall c :: c in w.sent && c.c.seqNo == w.ground.seqNo ==>
           o.due - S.RETRY_AFTER - Late(p, o.tries - 1) <= c.sentAt <= o.due - S.RETRY_AFTER
  }

  ghost predicate TimesOk(w: World, p: Timing) {
    && w.ticked <= w.clock
    && (forall c :: c in w.sent ==> c.c.seqNo <= w.ground.seqNo)
    && RetryOk(w, p) && Spans(w.sent, p)
  }

  /** Every copy in flight or heard was sent, and the heard ones took what the uplink takes. */
  ghost predicate FlightsOk(w: World, p: Timing) {
    && (forall c :: c in w.up ==> c in w.sent)
    && |w.trips| == |w.heard|
    && forall i :: 0 <= i < |w.trips| ==>
         && Copy(w.heard[i].c, w.trips[i].sentAt) in w.sent
         && p.floor <= w.trips[i].gotAt - w.trips[i].sentAt <= p.floor + p.spread
  }

  ghost predicate Inv(w: World, p: Timing) {
    UplinkOk(w) && SentOk(w) && HeardOk(w) && AcksOk(w) && TimesOk(w, p) && FlightsOk(w, p)
  }

  // ---- one step at a time ----

  lemma OneEntry(ps: seq<S.Unacked>, now: real, n: nat)
    requires |ps| == 1
    ensures S.Resent(ps, now) == if S.Overdue(ps[0], now) && ps[0].tries < S.RETRY_LIMIT then [ps[0].c] else []
    ensures S.Kept(ps, now) ==
      if !S.Overdue(ps[0], now) then ps
      else if ps[0].tries >= S.RETRY_LIMIT then []
      else [ps[0].(tries := ps[0].tries + 1, due := now + S.RETRY_AFTER)]
    ensures S.Popped(ps, n) == if ps[0].c.seqNo == n then [] else ps
  {
    assert ps == [ps[0]] && ps[1..] == [];
  }

  lemma Appended(cs: seq<Command>, c: Command)
    requires InOrder(cs) && forall i :: 0 <= i < |cs| ==> cs[i].seqNo < c.seqNo
    ensures InOrder(cs + [c]) && InOrder(cs + [c] + [c])
    ensures forall i :: 0 <= i < |cs| + 2 ==> (cs + [c] + [c])[i].seqNo <= c.seqNo
  {
    var twice := cs + [c] + [c];
    assert forall i :: 0 <= i < |twice| ==> twice[i] == if i < |cs| then cs[i] else c;
  }

  lemma IssueUplink(w: World, a: Action)
    requires UplinkOk(w) && a.Issue? && Possible(w, a)
    ensures UplinkOk(Do(w, a))
  {
    var c := Command.Command(a.id, a.arg, w.ground.seqNo + 1);
    var before := HeardCommands(w.heard) + Commands(w.up);
    assert Passage(w) == before;
    Appended(before, c);
    assert Commands(w.up + Stamped([c], a.now)) == Commands(w.up) + [c];
    assert Passage(Do(w, a)) == if a.retry then before + [c] + [c] else before + [c];
  }

  /** Sending the newest command again, or never again, keeps the order. */
  lemma NewestAgain(cs: seq<Command>, c: Command)
    requires InOrder(cs + [c])
    ensures InOrder(cs + [c] + [c]) && InOrder(cs)
  {
    var once, twice := cs + [c], cs + [c] + [c];
    assert once[|cs|] == c && twice[|cs|] == c;
    assert forall i :: 0 <= i < |cs| ==> once[i] == cs[i] == twice[i];
  }

  /** What a tick leaves in the passage: the same, the newest command once more, or no retry due. */
  lemma TickPassage(w: World, a: Action, before: seq<Command>, c: Command)
    requires |w.ground.outstanding| == 1 && a.Tick? && Possible(w, a) && c == w.ground.outstanding[0].c
    requires before == HeardCommands(w.heard) + Commands(w.up)
    ensures Passage(w) == before + [c]
    ensures var n := Do(w, a); Passage(n) == before + [c] || Passage(n) == before + [c] + [c] || Passage(n) == before
    ensures var n := Do(w, a);
      |n.ground.outstanding| <= 1 && n.ground.seqNo == w.ground.seqNo
      && (n.ground.outstanding != [] ==> n.ground.outstanding[0].c == c)
  {
    OneEntry(w.ground.outstanding, a.now, 0);
    var tx := S.Resent(w.ground.outstanding, a.now);
    assert Commands(w.up + Stamped(tx, a.now)) == Commands(w.up) + tx;
  }

  lemma TickUplink(w: World, a: Action)
    requires UplinkOk(w) && a.Tick? && Possible(w, a)
    ensures UplinkOk(Do(w, a))
  {
    var before := HeardCommands(w.heard) + Commands(w.up);
    var n := Do(w, a);
    if w.ground.outstanding == [] {
      assert Passage(n) == before == Passage(w);
    } else {
      var c := w.ground.outstanding[0].c;
      TickPassage(w, a, before, c);
      NewestAgain(before, c);
      assert (before + [c])[|before|] == c;
      assert forall i :: 0 <= i < |before| ==> (before + [c])[i] == before[i];
    }
  }

  lemma WithoutInOrder(cs: seq<Command>, k: nat)
    requires InOrder(cs) && k < |cs|
    ensures InOrder(Without(cs, k))
    ensures forall i :: 0 <= i < |cs| - 1 ==> Without(cs, k)[i] == if i < k then cs[i] else cs[i + 1]
  {
  }

  lemma PassageWithout(w: World, i: nat)
    requires i < |w.up|
    ensures Passage(Do(w, LoseUp(i))) == Without(Passage(w), |w.heard| + i)
  {
  }

  lemma LoseUplink(w: World, i: nat)
    requires UplinkOk(w) && i < |w.up|
    ensures UplinkOk(Do(w, LoseUp(i)))
  {
    WithoutInOrder(Passage(w), |w.heard| + i);
    PassageWithout(w, i);
  }

  lemma HearUplink(w: World, a: Action)
    requires UplinkOk(w) && a.Hear? && Possible(w, a)
    ensures UplinkOk(Do(w, a))
  {
    assert Passage(Do(w, a)) == Passage(w);
  }

  lemma AckUplink(w: World)
    requires UplinkOk(w) && w.down != []
    ensures UplinkOk(Do(w, HearAck))
  {
    var n := Do(w, HearAck);
    if w.ground.outstanding != [] { OneEntry(w.ground.outstanding, 0.0, w.down[0].seqNo); }
    assert Passage(n) == Passage(w) || Passage(n) == Passage(w)[..|w.heard| + |w.up|];
  }

  lemma StepUplink(w: World, a: Action)
    requires UplinkOk(w) && Possible(w, a)
    ensures UplinkOk(Do(w, a))
  {
    match a
    case Issue(_, _, _, _) => IssueUplink(w, a);
    case Tick(_) => TickUplink(w, a);
    case LoseUp(i) => LoseUplink(w, i);
    case Hear(_, _) => HearUplink(w, a);
    case LoseDown(_) => assert Passage(Do(w, a)) == Passage(w);
    case HearAck => AckUplink(w);
  }

  lemma IssueSent(w: World, a: Action)
    requires UplinkOk(w) && SentOk(w) && a.Issue? && Possible(w, a)
    ensures SentOk(Do(w, a))
  {
    var c := Command.Command(a.id, a.arg, w.ground.seqNo + 1);
    var tx := Stamped([c], a.now);
    assert tx == [Copy(c, a.now)];
    forall n ensures CountOf(w.sent + tx, n) == CountOf(w.sent, n) + (if n == c.seqNo then 1 else 0) {
      CountConcat(w.sent, tx, n);
    }
  }

  lemma TickSent(w: World, a: Action)
    requires UplinkOk(w) && SentOk(w) && a.Tick? && Possible(w, a)
    ensures SentOk(Do(w, a))
  {
    var tx := Stamped(S.Resent(w.ground.outstanding, a.now), a.now);
    if w.ground.outstanding == [] {
      assert w.sent + tx == w.sent;
    } else {
      var c := w.ground.outstanding[0].c;
      OneEntry(w.ground.outstanding, a.now, 0);
      forall n ensures CountOf(w.sent + tx, n) == CountOf(w.sent, n) + (if tx != [] && n == c.seqNo then 1 else 0) {
        CountConcat(w.sent, tx, n);
      }
    }
  }

  lemma StepSent(w: World, a: Action)
    requires UplinkOk(w) && SentOk(w) && Possible(w, a)
    ensures SentOk(Do(w, a))
  {
    match a
    case Issue(_, _, _, _) => IssueSent(w, a);
    case Tick(_) => TickSent(w, a);
    case HearAck =>
      if w.ground.outstanding != [] { OneEntry(w.ground.outstanding, 0.0, w.down[0].seqNo); }
    case _ =>
  }

  lemma StepHeard(w: World, a: Action)
    requires HeardOk(w) && Possible(w, a)
    ensures HeardOk(Do(w, a))
  {
    if a.Hear? { AnswersSnoc(INITIAL, w.heard, Landing(w, a.mode, a.now)); }
  }

  lemma HonestKeeps(w: World, a: Action, ack: Ack)
    requires HeardOk(w) && Possible(w, a) && Honest(w, ack)
    ensures Honest(Do(w, a), ack)
  {
    var i :| Reports(w, ack, i);
    if a.Hear? { AnswersSnoc(INITIAL, w.heard, Landing(w, a.mode, a.now)); }
    assert Reports(Do(w, a), ack, i);
  }

  lemma NewAckHonest(w: World, a: Action)
    requires HeardOk(w) && a.Hear? && Possible(w, a)
    ensures var n := Do(w, a); Honest(n, n.down[|w.down|])
  {
    var n := Do(w, a);
    AnswersSnoc(INITIAL, w.heard, Landing(w, a.mode, a.now));
    assert Reports(n, n.down[|w.down|], |w.heard|);
  }

  lemma StepAcks(w: World, a: Action)
    requires HeardOk(w) && AcksOk(w) && Possible(w, a)
    ensures AcksOk(Do(w, a))
  {
    var n := Do(w, a);
    forall ack | Honest(w, ack) ensures Honest(n, ack) { HonestKeeps(w, a, ack); }
    if a.Hear? { NewAckHonest(w, a); }
  }

  // ---- the clock ----

  lemma LateGrows(p: Timing, k: nat)
    requires Physical(p) && k <= 3
    ensures 0.0 <= Late(p, k) <= 3.0 * (S.RETRY_AFTER + p.tick)
  {
    assert Late(p, 1) == S.RETRY_AFTER + p.tick;
    assert Late(p, 2) == Late(p, 1) + (S.RETRY_AFTER + p.tick);
    assert Late(p, 3) == Late(p, 2) + (S.RETRY_AFTER + p.tick);
  }

  lemma IssueTimes(w: World, a: Action, p: Timing)
    requires Physical(p) && TimesOk(w, p) && a.Issue? && Possible(w, a)
    ensures TimesOk(Do(w, a), p)
  {
    var c := Copy(Command.Command(a.id, a.arg, w.ground.seqNo + 1), a.now);
    var n := Do(w, a);
    assert Stamped([c.c], a.now) == [c];
    assert forall x :: x in n.sent ==> x in w.sent || x == c;
    assert Late(p, 0) == 0.0;
  }

  /** A retry leaves at most 0.7 s and one tick after the try before it, and so within three of those of the first. */
  lemma RetryIsSoon(w: World, now: real, p: Timing)
    requires Physical(p) && TimesOk(w, p) && now <= w.ticked + p.tick
    requires w.ground.outstanding != [] && w.ground.outstanding[0].due <= now
    requires w.ground.outstanding[0].tries < S.RETRY_LIMIT
    ensures forall x :: x in w.sent && x.c.seqNo == w.ground.seqNo ==>
      now - Late(p, w.ground.outstanding[0].tries) <= x.sentAt <= now
  {
    var o := w.ground.outstanding[0];
    assert Late(p, o.tries) == Late(p, o.tries - 1) + (S.RETRY_AFTER + p.tick);
  }

  lemma RetryTimes(w: World, a: Action, p: Timing)
    requires Physical(p) && UplinkOk(w) && TimesOk(w, p) && a.Tick? && Possible(w, a) && Meets(w, a, p)
    requires w.ground.outstanding != [] && S.Overdue(w.ground.outstanding[0], a.now)
    requires w.ground.outstanding[0].tries < S.RETRY_LIMIT
    ensures TimesOk(Do(w, a), p)
  {
    var o, n := w.ground.outstanding[0], Do(w, a);
    OneEntry(w.ground.outstanding, a.now, 0);
    assert n.sent == w.sent + [Copy(o.c, a.now)];
    assert forall x :: x in n.sent ==> x in w.sent || x == Copy(o.c, a.now);
    RetryIsSoon(w, a.now, p);
    LateGrows(p, o.tries);
  }

  lemma StepTimes(w: World, a: Action, p: Timing)
    requires Physical(p) && UplinkOk(w) && TimesOk(w, p) && Possible(w, a) && Meets(w, a, p)
    ensures TimesOk(Do(w, a), p)
  {
    match a
    case Issue(_, _, _, _) => IssueTimes(w, a, p);
    case Tick(now) =>
      if w.ground.outstanding != [] {
        OneEntry(w.ground.outstanding, now, 0);
        if S.Overdue(w.ground.outstanding[0], now) && w.ground.outstanding[0].tries < S.RETRY_LIMIT {
          RetryTimes(w, a, p);
        }
      }
    case HearAck =>
      if w.ground.outstanding != [] { OneEntry(w.ground.outstanding, 0.0, w.down[0].seqNo); }
    case _ =>
  }

  lemma StepFlights(w: World, a: Action, p: Timing)
    requires FlightsOk(w, p) && Possible(w, a) && Meets(w, a, p)
    ensures FlightsOk(Do(w, a), p)
  {
    if a.Hear? { assert w.up[0] in w.up; }
  }

  lemma StepKeepsInv(w: World, a: Action, p: Timing)
    requires Physical(p) && Inv(w, p) && Possible(w, a) && Meets(w, a, p)
    ensures Inv(Do(w, a), p)
  {
    StepUplink(w, a);
    StepSent(w, a);
    StepHeard(w, a);
    StepAcks(w, a);
    StepTimes(w, a, p);
    StepFlights(w, a, p);
  }

  lemma MillisApart(t: real, u: real)
    requires t <= u <= t + 5.0
    ensures Millis(t) <= Millis(u) <= Millis(t) + DEDUP
  {
  }

  /** Whatever was lost between them, two copies of one number arrive within the replay window if the timing fits. */
  lemma CopiesInTime(w: World, i: nat, j: nat, p: Timing)
    requires Fits(p) && Inv(w, p) && i < j < |w.heard| && w.heard[i].c.seqNo == w.heard[j].c.seqNo
    ensures w.heard[i].at <= w.heard[j].at <= w.heard[i].at + DEDUP
  {
    LaterArrival(w, i, j);
    assert Copy(w.heard[i].c, w.trips[i].sentAt) in w.sent && Copy(w.heard[j].c, w.trips[j].sentAt) in w.sent;
    MillisApart(w.trips[i].gotAt, w.trips[j].gotAt);
  }

  lemma {:induction false} LaterArrival(w: World, i: nat, j: nat)
    requires HeardOk(w) && i <= j < |w.trips|
    ensures w.trips[i].gotAt <= w.trips[j].gotAt
    decreases j - i
  {
    if i < j { LaterArrival(w, i, j - 1); }
  }

  // ---- whole runs ----

  predicate Follows(w: World, acts: seq<Action>, p: Timing)
    decreases |acts|
  {
    acts == [] || (Possible(w, acts[0]) && Meets(w, acts[0], p) && Follows(Do(w, acts[0]), acts[1..], p))
  }

  function After(w: World, acts: seq<Action>, p: Timing): World
    requires Follows(w, acts, p)
    decreases |acts|
  {
    if acts == [] then w else After(Do(w, acts[0]), acts[1..], p)
  }

  lemma {:induction false} RunKeepsInv(w: World, acts: seq<Action>, p: Timing) returns (r: World)
    requires Physical(p) && Inv(w, p) && Follows(w, acts, p)
    ensures r == After(w, acts, p) && Inv(r, p)
    decreases |acts|
  {
    if acts == [] {
      r := w;
    } else {
      StepKeepsInv(w, acts[0], p);
      r := RunKeepsInv(Do(w, acts[0]), acts[1..], p);
    }
  }

  lemma StartInv(p: Timing)
    ensures Inv(START, p)
  {
    assert Passage(START) == [];
  }

  /** Copies of one command arrive together, so each later one echoes the first. */
  lemma {:induction false} CopiesEcho(w: World, i: nat, j: nat, p: Timing)
    requires Fits(p) && Inv(w, p) && i < j < |w.heard| && w.heard[i].c.seqNo == w.heard[j].c.seqNo
    ensures Echoes(Answers(INITIAL, w.heard)[j], Answers(INITIAL, w.heard)[i]) && w.heard[i].c == w.heard[j].c
    decreases j - i
  {
    var cs := Passage(w);
    assert cs[i] == w.heard[i].c && cs[j - 1] == w.heard[j - 1].c && cs[j] == w.heard[j].c;
    CopiesInTime(w, j - 1, j, p);
    CopyEchoes(INITIAL, w.heard, j);
    if i < j - 1 { CopiesEcho(w, i, j - 1, p); }
  }

  /** Of the copies of a number that reach the vehicle only the first can execute, and the rest get its verdict. */
  ghost predicate OnceEach(w: World) {
    var es := Answers(INITIAL, w.heard);
    forall i, j :: 0 <= i < j < |w.heard| && w.heard[i].c.seqNo == w.heard[j].c.seqNo ==>
      Echoes(es[j], es[i]) && !Executes(es[j])
  }

  lemma InvMeansOnce(w: World, p: Timing)
    requires Fits(p) && Inv(w, p)
    ensures OnceEach(w)
  {
    forall i, j | 0 <= i < j < |w.heard| && w.heard[i].c.seqNo == w.heard[j].c.seqNo
      ensures Echoes(Answers(INITIAL, w.heard)[j], Answers(INITIAL, w.heard)[i])
    {
      CopiesEcho(w, i, j, p);
    }
  }

  /** Copy i is the first of its number to reach the vehicle. */
  predicate FirstCopy(w: World, i: nat) {
    i < |w.heard| && forall j :: 0 <= j < i ==> w.heard[j].c.seqNo != w.heard[i].c.seqNo
  }

  lemma FirstCopyOf(w: World, k: nat) returns (i: nat)
    requires k < |w.heard|
    ensures i <= k && FirstCopy(w, i) && w.heard[i].c.seqNo == w.heard[k].c.seqNo
  {
    i := 0;
    while w.heard[i].c.seqNo != w.heard[k].c.seqNo
      invariant i <= k && forall j :: 0 <= j < i ==> w.heard[j].c.seqNo != w.heard[k].c.seqNo
      decreases k - i
    {
      i := i + 1;
    }
  }

  ghost predicate ReportsFirst(w: World, ack: Ack) { exists i :: FirstCopy(w, i) && Reports(w, ack, i) }

  lemma HonestReportsFirst(w: World, ack: Ack, p: Timing)
    requires Fits(p) && Inv(w, p) && Honest(w, ack)
    ensures ReportsFirst(w, ack)
  {
    var m :| Reports(w, ack, m);
    var i := FirstCopyOf(w, m);
    if i < m { CopiesEcho(w, i, m, p); }
    assert Reports(w, ack, i);
  }

  ghost predicate AcksReportFirst(w: World) {
    forall k :: 0 <= k < |w.popped| ==> ReportsFirst(w, w.popped[k])
  }

  lemma InvMeansAcksReportFirst(w: World, p: Timing)
    requires Fits(p) && Inv(w, p)
    ensures AcksReportFirst(w)
  {
    forall k | 0 <= k < |w.popped| ensures ReportsFirst(w, w.popped[k]) { HonestReportsFirst(w, w.popped[k], p); }
  }

  /** A number's transmissions, at most four, leave within 3 (0.7 s + the tick spacing) of each other. */
  lemma SendsOfARun(acts: seq<Action>, p: Timing) returns (w: World)
    requires Physical(p) && Follows(START, acts, p)
    ensures w == After(START, acts, p)
    ensures (forall n :: CountOf(w.sent, n) <= S.RETRY_LIMIT) && Spans(w.sent, p)
  {
    StartInv(p);
    w := RunKeepsInv(START, acts, p);
  }

  /**
   * If 3 (0.7 s + the tick spacing) and the uplink's delay spread are within 5 s, then over every run a number is acted
   * on at most once, every copy of it gets the first copy's verdict whatever the mode has become, and every
   * acknowledgement the ground gets reports that verdict.
   */
  lemma CommandingOfARun(acts: seq<Action>, p: Timing) returns (w: World)
    requires Physical(p) && Fits(p) && Follows(START, acts, p)
    ensures w == After(START, acts, p)
    ensures OnceEach(w) && AcksReportFirst(w)
  {
    StartInv(p);
    w := RunKeepsInv(START, acts, p);
    InvMeansOnce(w, p);
    InvMeansAcksReportFirst(w, p);
  }

  // ---- the vehicle alone ----

  /** The commands a run of cycles brings, each with the mode it found. */
  function Arrivals(g: A.Gains, e: E.Exec, beats: seq<WheelTorque.Beat>): seq<Arrival>
    requires A.Sane(g)
    decreases |beats|
  {
    if beats == [] then []
    else
      var rest := Arrivals(g, WheelTorque.Step(g, e, beats[0]), beats[1..]);
      match beats[0].inp.command
      case None => rest
      case Some(c) => [Arrival(c, e.modes.mode, beats[0].at)] + rest
  }

  /** How many of the run's cycles act on a command. */
  function Acted(g: A.Gains, e: E.Exec, beats: seq<WheelTorque.Beat>): nat
    requires A.Sane(g)
    decreases |beats|
  {
    if beats == [] then 0
    else
      (if E.Acts(e, beats[0].inp, beats[0].at % WRAP) then 1 else 0)
      + Acted(g, WheelTorque.Step(g, e, beats[0]), beats[1..])
  }

  lemma StepCommands(g: A.Gains, e: E.Exec, b: WheelTorque.Beat) returns (r: E.Exec)
    requires A.Sane(g)
    ensures r == WheelTorque.Step(g, e, b)
    ensures r.commands == match b.inp.command
      case None => e.commands
      case Some(c) => AfterArrival(e.commands, Arrival(c, e.modes.mode, b.at))
  {
    r := WheelTorque.Step(g, e, b);
    Safing.CycleKeepsDecided(g, e, b.inp, b.at % WRAP);
    Safing.DecidedKeepsSensed(e, b.inp, b.at % WRAP);
  }

  lemma {:induction false} ActsAreExecutions(g: A.Gains, e: E.Exec, beats: seq<WheelTorque.Beat>)
    requires A.Sane(g)
    ensures Acted(g, e, beats) == Executed(Answers(e.commands, Arrivals(g, e, beats)))
    decreases |beats|
  {
    if beats != [] {
      var r := StepCommands(g, e, beats[0]);
      ActsAreExecutions(g, r, beats[1..]);
    }
  }

  /** From any state: a run whose commands all carry one number, at most 5000 ms apart, acts at most once. */
  lemma VehicleActsAtMostOnce(g: A.Gains, e: E.Exec, beats: seq<WheelTorque.Beat>)
    requires A.Sane(g) && Block(Arrivals(g, e, beats))
    ensures Acted(g, e, beats) <= 1
  {
    ActsAreExecutions(g, e, beats);
    AtMostOnce(e.commands, Arrivals(g, e, beats));
  }
}
