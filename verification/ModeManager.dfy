/** The current mode and its transition history (fsw/src/mode_manager.cpp). */
module ModeManager {
  import opened Catalog

  datatype Transition = Transition(t: nat, trigger: Trigger, from: Mode, to: Mode)

  const OPERATING: set<Mode> := {STANDBY, DETUMBLE, POINTING, DOWNLINK, SAFE}

  /** The autonomous row of the table. */
  function Allowed(from: Mode): set<Mode> {
    match from
    case BOOT => {STANDBY, DETUMBLE, SAFE}
    case SAFE => {}
    case _ => OPERATING
  }

  predicate TransitionLegal(from: Mode, trigger: Trigger, to: Mode) {
    || (from != to && to in Allowed(from))
    || (from == SAFE && trigger == Command && to == STANDBY)
  }

  /**
   * The table in words: never to BOOT, never to the mode already in, out of BOOT only to STANDBY, DETUMBLE or SAFE, and
   * out of SAFE only to STANDBY on a command. Everything else is legal, whatever asks for it.
   */
  lemma LegalIff(from: Mode, trigger: Trigger, to: Mode)
    ensures TransitionLegal(from, trigger, to) <==>
      && to != BOOT && to != from
      && (from == BOOT ==> to != POINTING && to != DOWNLINK)
      && (from == SAFE ==> to == STANDBY && trigger == Command)
  {
  }

  /** `history` is every transition since power-on; the logged ring is its tail. */
  datatype Modes = Modes(mode: Mode, history: seq<Transition>)

  const INITIAL := Modes(BOOT, [])

  function Request(m: Modes, to: Mode, trigger: Trigger, t: nat): Modes {
    if TransitionLegal(m.mode, trigger, to)
    then Modes(to, m.history + [Transition(t, trigger, m.mode, to)])
    else m
  }

  /** The history is a path of legal transitions from BOOT to the current mode. */
  ghost predicate Chains(m: Modes) {
    && (m.history == [] ==> m.mode == BOOT)
    && (m.history != [] ==> m.history[0].from == BOOT && m.history[|m.history| - 1].to == m.mode)
    && (forall i :: 0 < i < |m.history| ==> m.history[i].from == m.history[i - 1].to)
    && (forall i :: 0 <= i < |m.history| ==>
          TransitionLegal(m.history[i].from, m.history[i].trigger, m.history[i].to))
  }

  lemma RequestChains(m: Modes, to: Mode, trigger: Trigger, t: nat)
    requires Chains(m)
    ensures Chains(Request(m, to, trigger, t))
    ensures m.mode != BOOT ==> Request(m, to, trigger, t).mode != BOOT
  {
  }

  /** BOOT is only ever the first mode, and SAFE is left only for STANDBY on a command. */
  lemma ChainsNeverReboot(m: Modes, i: nat)
    requires Chains(m) && i < |m.history|
    ensures m.history[i].to != BOOT
    ensures m.history[i].from == BOOT <==> i == 0
    ensures m.history[i].from == SAFE ==> m.history[i].to == STANDBY && m.history[i].trigger == Command
  {
    if i > 0 { assert m.history[i].from == m.history[i - 1].to; }
  }

  class Manager {
    var current: Mode
    var log: seq<Transition>
    ghost var history: seq<Transition>

    ghost predicate Valid()
      reads this
    {
      log == Recent(history)
    }

    ghost function Now(): Modes
      reads this
    {
      Modes(current, history)
    }

    constructor ()
      ensures Valid() && Now() == INITIAL
    {
      current, log, history := BOOT, [], [];
    }

    method RequestMode(to: Mode, trigger: Trigger, t: nat) returns (ok: bool)
      requires Valid()
      modifies this
      ensures Valid() && Now() == Request(old(Now()), to, trigger, t)
      ensures ok == TransitionLegal(old(current), trigger, to)
    {
      if !TransitionLegal(current, trigger, to) {
        return false;
      }
      var row := Transition(t, trigger, current, to);
      RingKeepsRecent(history, row);
      log := RingPush(log, row);
      history := history + [row];
      current := to;
      ok := true;
    }
  }
}
