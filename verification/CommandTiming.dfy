/** The retry timing is exact: a link and a console any slower than CommandLink allows have a run that acts twice. */
module CommandTiming {
  import opened Wire
  import opened Catalog
  import opened CommandHandler
  import opened CommandLink
  import S = Session

  // ---- building runs one action at a time ----

  ghost predicate Reachable(w: World, p: Timing) {
    exists acts :: Follows(START, acts, p) && After(START, acts, p) == w
  }

  lemma {:induction false} OneMore(w: World, acts: seq<Action>, a: Action, p: Timing)
    requires Follows(w, acts, p)
    requires var r := After(w, acts, p); Possible(r, a) && Meets(r, a, p)
    ensures Follows(w, acts + [a], p) && After(w, acts + [a], p) == Do(After(w, acts, p), a)
    decreases |acts|
  {
    if acts == [] {
      assert [] + [a] == [a] && [a][1..] == [];
    } else {
      assert (acts + [a])[1..] == acts[1..] + [a];
      OneMore(Do(w, acts[0]), acts[1..], a, p);
    }
  }

  lemma Extend(w: World, a: Action, p: Timing) returns (r: World)
    requires Reachable(w, p) && Possible(w, a) && Meets(w, a, p)
    ensures r == Do(w, a) && Reachable(r, p)
  {
    var acts :| Follows(START, acts, p) && After(START, acts, p) == w;
    OneMore(START, acts, a, p);
    r := Do(w, a);
    assert Follows(START, acts + [a], p);
  }

  // ---- waiting ----

  /** A tick at this time would find nothing overdue. */
  predicate Quiet(w: World, now: real) {
    w.ground.outstanding == [] || (|w.ground.outstanding| == 1 && now < w.ground.outstanding[0].due)
  }

  lemma QuietTick(w: World, now: real, p: Timing) returns (r: World)
    requires Reachable(w, p) && Quiet(w, now) && w.clock <= now <= w.ticked + p.tick
    ensures r == w.(clock := now, ticked := now) && Reachable(r, p)
  {
    if w.ground.outstanding != [] { OneEntry(w.ground.outstanding, now, 0); }
    r := Extend(w, Tick(now), p);
    assert w.up + [] == w.up && w.sent + [] == w.sent;
  }

  lemma {:induction false} IdleSteps(w: World, until: real, n: nat, p: Timing) returns (r: World)
    requires Reachable(w, p) && p.tick > 0.0 && Quiet(w, until)
    requires w.ticked == w.clock <= until <= w.clock + n as real * p.tick
    ensures r == w.(clock := until, ticked := until) && Reachable(r, p)
    decreases n
  {
    if until <= w.clock + p.tick {
      r := QuietTick(w, until, p);
    } else {
      assert n as real * p.tick == (n - 1) as real * p.tick + p.tick;
      var a := QuietTick(w, w.clock + p.tick, p);
      r := IdleSteps(a, until, n - 1, p);
    }
  }

  lemma ProductGrows(x: real, y: real, tick: real)
    requires x <= y && tick > 0.0
    ensures x * tick <= y * tick
  {
  }

  lemma StepsFor(d: real, tick: real) returns (n: nat)
    requires d >= 0.0 && tick > 0.0
    ensures d <= n as real * tick
  {
    var x := d / tick;
    n := if x < 0.0 then 0 else x.Floor + 1;
    ProductGrows(x, n as real, tick);
  }

  lemma Idle(w: World, until: real, p: Timing) returns (r: World)
    requires Reachable(w, p) && p.tick > 0.0 && Quiet(w, until) && w.ticked == w.clock <= until
    ensures r == w.(clock := until, ticked := until) && Reachable(r, p)
  {
    var n := StepsFor(until - w.clock, p.tick);
    r := IdleSteps(w, until, n, p);
  }

  // ---- four tries, of which the vehicle hears the first and the last ----

  const PING := Command.Command(NOOP, 0, 1)

  /** Sent first at `start`, then every `gap` seconds, and the last try is `late` slower on the way than the first. */
  datatype Plan = Plan(start: real, gap: real, late: real)

  predicate Doable(pl: Plan, p: Timing) {
    && Physical(p) && 0.0 <= pl.start && 0.0 <= pl.late <= p.spread
    && S.RETRY_AFTER <= pl.gap < S.RETRY_AFTER + p.tick
  }

  function FirstLands(pl: Plan, p: Timing): real { pl.start + p.floor }

  /** `rest` follows the first try up the link, which the vehicle has heard on time or is still to hear. */
  predicate FirstOnItsWay(w: World, pl: Plan, rest: seq<Copy>, p: Timing) {
    || (w.heard == [] && w.up == [Copy(PING, pl.start)] + rest && w.clock <= FirstLands(pl, p))
    || (w.heard == [Arrival(PING, STANDBY, Millis(FirstLands(pl, p)))] && w.up == rest)
  }

  /** The k-th try has just gone out, at time s. */
  ghost predicate Tried(w: World, pl: Plan, k: nat, s: real, rest: seq<Copy>, p: Timing) {
    && Reachable(w, p) && w.ticked == w.clock
    && w.ground == S.Uplink(1, [S.Unacked(PING, k, s + S.RETRY_AFTER)])
    && FirstOnItsWay(w, pl, rest, p)
  }

  lemma FirstTry(pl: Plan, p: Timing) returns (r: World)
    requires Doable(pl, p)
    ensures Tried(r, pl, 1, pl.start, [], p) && r.clock == pl.start
  {
    assert Follows(START, [], p);
    var a := Idle(START, pl.start, p);
    r := Extend(a, Issue(NOOP, 0, true, pl.start), p);
    assert r.up == [Copy(PING, pl.start)];
  }

  lemma HearFirst(w: World, pl: Plan, rest: seq<Copy>, p: Timing) returns (r: World)
    requires Physical(p) && Reachable(w, p)
    requires w.heard == [] && w.up == [Copy(PING, pl.start)] + rest && w.clock <= FirstLands(pl, p)
    ensures Reachable(r, p) && r.heard == [Arrival(PING, STANDBY, Millis(FirstLands(pl, p)))] && r.up == rest
    ensures r.ground == w.ground && r.ticked == w.ticked && r.clock == FirstLands(pl, p)
  {
    r := Extend(w, Hear(STANDBY, FirstLands(pl, p)), p);
  }

  lemma Wait(w: World, pl: Plan, k: nat, s: real, until: real, p: Timing) returns (r: World)
    requires Doable(pl, p) && Tried(w, pl, k, s, [], p) && w.clock <= until < s + S.RETRY_AFTER
    ensures Tried(r, pl, k, s, [], p) && r.clock == until
  {
    if w.heard == [] && FirstLands(pl, p) < until {
      var a := Idle(w, FirstLands(pl, p), p);
      var b := HearFirst(a, pl, [], p);
      r := Idle(b, until, p);
    } else {
      r := Idle(w, until, p);
    }
  }

  lemma TickSends(w: World, k: nat, s: real, now: real, p: Timing) returns (r: World)
    requires Reachable(w, p) && w.ground == S.Uplink(1, [S.Unacked(PING, k, s + S.RETRY_AFTER)]) && k < S.RETRY_LIMIT
    requires s + S.RETRY_AFTER <= now && w.clock <= now <= w.ticked + p.tick
    ensures Reachable(r, p) && r.ground == S.Uplink(1, [S.Unacked(PING, k + 1, now + S.RETRY_AFTER)])
    ensures r.up == w.up + [Copy(PING, now)] && r.heard == w.heard && r.ticked == r.clock == now
  {
    OneEntry(w.ground.outstanding, now, 0);
    r := Extend(w, Tick(now), p);
    assert Stamped([PING], now) == [Copy(PING, now)];
  }

  /** Idle until the last tick too early for the next try, which is less than a tick spacing before it. */
  lemma LastQuietTick(w: World, pl: Plan, k: nat, s: real, p: Timing) returns (r: World)
    requires Doable(pl, p) && Tried(w, pl, k, s, [], p) && w.clock == s
    ensures Tried(r, pl, k, s, [], p) && r.clock <= s + pl.gap <= r.clock + p.tick
  {
    r := Wait(w, pl, k, s, if pl.gap <= p.tick then s else s + pl.gap - p.tick, p);
  }

  /** The next try goes out `gap` after this one, the first landing before it if that is due. */
  lemma NextTry(w: World, pl: Plan, k: nat, s: real, p: Timing) returns (r: World)
    requires Doable(pl, p) && Tried(w, pl, k, s, [], p) && w.clock == s && k < S.RETRY_LIMIT
    ensures Tried(r, pl, k + 1, s + pl.gap, [Copy(PING, s + pl.gap)], p) && r.clock == s + pl.gap
  {
    var a := LastQuietTick(w, pl, k, s, p);
    var b := a;
    if a.heard == [] && FirstLands(pl, p) <= s + pl.gap { b := HearFirst(a, pl, [], p); }
    r := TickSends(b, k, s, s + pl.gap, p);
  }

  lemma LoseTry(w: World, pl: Plan, k: nat, s: real, c: Copy, p: Timing) returns (r: World)
    requires Tried(w, pl, k, s, [c], p)
    ensures Tried(r, pl, k, s, [], p) && r.clock == w.clock
  {
    r := Extend(w, LoseUp(|w.up| - 1), p);
    assert r.up == w.up[..|w.up| - 1];
  }

  lemma LastTry(pl: Plan, p: Timing) returns (r: World, s: real)
    requires Doable(pl, p)
    ensures s == pl.start + 3.0 * pl.gap && Tried(r, pl, 4, s, [Copy(PING, s)], p) && r.clock == s
  {
    var s1, s2 := pl.start + pl.gap, pl.start + pl.gap + pl.gap;
    var w1 := FirstTry(pl, p);
    var sent2 := NextTry(w1, pl, 1, pl.start, p);
    var w2 := LoseTry(sent2, pl, 2, s1, Copy(PING, s1), p);
    var sent3 := NextTry(w2, pl, 2, s1, p);
    var w3 := LoseTry(sent3, pl, 3, s2, Copy(PING, s2), p);
    r := NextTry(w3, pl, 3, s2, p);
    s := s2 + pl.gap;
  }

  lemma HearsBoth(pl: Plan, p: Timing) returns (r: World)
    requires Doable(pl, p)
    ensures Reachable(r, p)
    ensures var t := FirstLands(pl, p);
      r.heard == [Arrival(PING, STANDBY, Millis(t)), Arrival(PING, STANDBY, Millis(t + 3.0 * pl.gap + pl.late))]
  {
    var w, s := LastTry(pl, p);
    var b := w;
    if w.heard == [] { b := HearFirst(w, pl, [Copy(PING, s)], p); }
    r := Extend(b, Hear(STANDBY, s + p.floor + pl.late), p);
    assert s + p.floor + pl.late == FirstLands(pl, p) + 3.0 * pl.gap + pl.late;
  }

  // ---- how slow is too slow ----

  /** A retry spacing and an extra delay that put the last try just over five seconds behind the first. */
  lemma Spread(p: Timing) returns (gap: real, late: real, over: real)
    requires Physical(p) && p.tick > 0.0 && !Fits(p)
    ensures S.RETRY_AFTER <= gap < S.RETRY_AFTER + p.tick && 0.0 <= late <= p.spread
    ensures 0.0 < over <= 0.5 && 3.0 * gap + late == 5.0 + over
  {
    var excess := 3.0 * (S.RETRY_AFTER + p.tick) + p.spread - 5.0;
    over := if excess < 1.0 then excess / 2.0 else 0.5;
    late := if p.spread <= 5.0 + over - 3.0 * S.RETRY_AFTER then p.spread else 5.0 + over - 3.0 * S.RETRY_AFTER;
    gap := (5.0 + over - late) / 3.0;
  }

  /** A start that puts the first landing just before the vehicle's counter steps. */
  lemma JustBefore(floor: real, over: real) returns (start: real)
    requires floor >= 0.0 && 0.0 < over <= 0.5
    ensures start >= 0.0 && Millis(start + floor + 5.0 + over) > Millis(start + floor) + DEDUP
    ensures Millis(start + floor + 5.0 + over) < Millis(start + floor) + WRAP
  {
    var h := if over < 0.001 then over else 0.001;
    var m := (1000.0 * (h + floor)).Floor + 1;
    start := (m + 1) as real / 1000.0 - h - floor;
    assert 1000.0 * (start + floor) == (m + 1) as real - 1000.0 * h;
    assert Millis(start + floor) == m;
    assert 1000.0 * (start + floor + 5.0 + over) >= (m + 5001) as real;
  }

  lemma BothRun(w: World, t: nat, u: nat)
    requires w.heard == [Arrival(PING, STANDBY, t), Arrival(PING, STANDBY, u)] && t + DEDUP < u < t + WRAP
    ensures !OnceEach(w)
  {
    WhichRun(INITIAL, w.heard, 1);
    assert w.heard[0].c.seqNo == w.heard[1].c.seqNo;
  }

  lemma SlowRunActsTwice(p: Timing) returns (acts: seq<Action>)
    requires Physical(p) && p.tick > 0.0 && !Fits(p)
    ensures Follows(START, acts, p) && !OnceEach(After(START, acts, p))
  {
    var gap, late, over := Spread(p);
    var start := JustBefore(p.floor, over);
    var pl := Plan(start, gap, late);
    var w := HearsBoth(pl, p);
    assert FirstLands(pl, p) + 3.0 * gap + late == start + p.floor + 5.0 + over;
    BothRun(w, Millis(start + p.floor), Millis(start + p.floor + 5.0 + over));
    acts :| Follows(START, acts, p) && After(START, acts, p) == w;
  }

  /**
   * At most once, exactly: every copy after the first echoes it in every run if and only if three retries, each a tick
   * late, and the spread of the uplink's delay fit in five seconds.
   */
  lemma TimingIff(p: Timing)
    requires Physical(p) && p.tick > 0.0
    ensures Fits(p) <==> forall acts :: Follows(START, acts, p) ==> OnceEach(After(START, acts, p))
  {
    if Fits(p) {
      forall acts | Follows(START, acts, p) ensures OnceEach(After(START, acts, p)) {
        var w := CommandingOfARun(acts, p);
      }
    } else {
      var acts := SlowRunActsTwice(p);
    }
  }
}
