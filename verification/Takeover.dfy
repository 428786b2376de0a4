/**
 The togedemon takeover slot at the granularity the program really has: swapping the token, starting the
 live pipe, clearing the slot and stopping are separate steps, and any handler may run between them.
 */
module Takeover {
  import opened Prelude

  type Token = nat

  // ----- The slot's locked regions -----

  /** The tokens cancelled once whoever holds the slot is. */
  function HolderCancelled(slot: Option<Token>, cancelled: set<Token>): set<Token> {
    cancelled + (if slot.Some? then {slot.value} else {})
  }

  /** The slot after a push has ended: only one that finds itself uncancelled clears it. */
  function LetGo(slot: Option<Token>, cancelled: set<Token>, t: Token): Option<Token> {
    if t in cancelled then slot else None
  }

  class TokenSlot {
    var slot: Option<Token>
    var cancelled: set<Token>

    /** A new push takes the slot and cancels whoever held it. */
    method Replace(t: Token)
      modifies this
      ensures slot == Some(t)
      ensures cancelled == HolderCancelled(old(slot), old(cancelled))
    {
      if slot.Some? {
        cancelled := cancelled + {slot.value};
      }
      slot := Some(t);
    }

    /** A push that has ended clears the slot, unless it finds itself cancelled. */
    method Release(t: Token) returns (superseded: bool)
      modifies this`slot
      ensures superseded == (t in cancelled)
      ensures slot == LetGo(old(slot), cancelled, t)
    {
      if t in cancelled {
        return true;
      }
      slot := None;
      return false;
    }

    /** The player is switched off. */
    method TakeAndCancel()
      modifies this
      ensures slot == None
      ensures cancelled == HolderCancelled(old(slot), old(cancelled))
    {
      if slot.Some? {
        cancelled := cancelled + {slot.value};
      }
      slot := None;
    }
  }

  // ----- Interleaved handlers -----

  /** A push handler: token in the slot, then pumping into its own pipe, then past the pump, and so on. */
  datatype Phase = Slotted | Pumping | Ended | Released | Gone

  /** Who feeds the current pipe. */
  datatype Feeder = Nobody | File | Live(t: Token)

  /**
   `stopping` counts switch-offs that have taken the slot but not yet stopped the stream, `checked` the
   tasks that have seen an empty slot and are about to play a file or stop.
   */
  datatype State = State(slot: Option<Token>, cancelled: set<Token>, phase: map<Token, Phase>, feeder: Feeder,
                         stopping: nat, checked: nat)

  datatype Step =
    | Connect(t: Token)
    | PlayLive(t: Token)
    | EndPump(t: Token)
    | Release(t: Token)
    | StopReleased(t: Token)
    | SwitchOff
    | StopAfterSwitchOff
    | SeeEmpty
    | SwapAfterCheck(file: bool)

  predicate At(s: State, t: Token, p: Phase) {
    t in s.phase && s.phase[t] == p
  }

  function Apply(s: State, e: Step): State {
    match e
    case Connect(t) =>
      if t in s.phase then s
        else s.(slot := Some(t), cancelled := HolderCancelled(s.slot, s.cancelled), phase := s.phase[t := Slotted])
    case PlayLive(t) => if At(s, t, Slotted) then s.(phase := s.phase[t := Pumping], feeder := Live(t)) else s
    case EndPump(t) => if At(s, t, Pumping) then s.(phase := s.phase[t := Ended]) else s
    case Release(t) =>
      if !At(s, t, Ended) then s
      else s.(slot := LetGo(s.slot, s.cancelled, t), phase := s.phase[t := if t in s.cancelled then Gone else Released])
    case StopReleased(t) => if At(s, t, Released) then s.(phase := s.phase[t := Gone], feeder := Nobody) else s
    case SwitchOff => s.(slot := None, cancelled := HolderCancelled(s.slot, s.cancelled), stopping := s.stopping + 1)
    case StopAfterSwitchOff => if s.stopping > 0 then s.(stopping := s.stopping - 1, feeder := Nobody) else s
    case SeeEmpty => if s.slot.None? then s.(checked := s.checked + 1) else s
    case SwapAfterCheck(file) =>
      if s.checked > 0 then s.(checked := s.checked - 1, feeder := if file then File else Nobody) else s
  }

  function Run(s: State, steps: seq<Step>): State
    decreases |steps|
  {
    if steps == [] then s else Run(Apply(s, steps[0]), steps[1..])
  }

  const INITIAL: State := State(None, {}, map[], Nobody, 0, 0)

  /** A push that has connected and not yet let go of the slot. */
  predicate Connected(s: State, t: Token) {
    t in s.phase && (s.phase[t].Slotted? || s.phase[t].Pumping? || s.phase[t].Ended?)
  }

  ghost predicate Inv(s: State) {
    && (forall t: Token :: t in s.cancelled ==> t in s.phase)
    && (forall t: Token :: s.slot == Some(t) <==> Connected(s, t) && t !in s.cancelled)
  }

  lemma StepKeeps(s: State, e: Step)
    requires Inv(s)
    ensures Inv(Apply(s, e))
  {
    var u := Apply(s, e);
    forall t: Token ensures u.slot == Some(t) <==> Connected(u, t) && t !in u.cancelled {
      assert s.slot == Some(t) <==> Connected(s, t) && t !in s.cancelled;
    }
  }

  lemma {:induction false} RunKeeps(s: State, steps: seq<Step>)
    requires Inv(s)
    ensures Inv(Run(s, steps))
    decreases |steps|
  {
    if steps != [] {
      StepKeeps(s, steps[0]);
      RunKeeps(Apply(s, steps[0]), steps[1..]);
    }
  }

  /**
   On every interleaving the slot holds `t` exactly when `t` is connected, uncancelled and not yet
   released; so at most one push is, and every other connected one has been cancelled.
   */
  lemma SlotHoldsTheLiveOne(steps: seq<Step>, t: Token, x: Token)
    ensures var s := Run(INITIAL, steps);
      && (s.slot == Some(t) <==> Connected(s, t) && t !in s.cancelled)
      && (Connected(s, t) && Connected(s, x) && t != x ==> t in s.cancelled || x in s.cancelled)
  {
    RunKeeps(INITIAL, steps);
    var s := Run(INITIAL, steps);
    assert s.slot == Some(x) <==> Connected(s, x) && x !in s.cancelled;
  }

  /** A handler that finds itself uncancelled clears its own token, and only then does the slot empty. */
  lemma ReleaseClearsOwnToken(steps: seq<Step>, t: Token)
    ensures var s := Run(INITIAL, steps);
      At(s, t, Ended) ==>
        (t !in s.cancelled ==> s.slot == Some(t) && Apply(s, Release(t)).slot == None) &&
        (t in s.cancelled ==> Apply(s, Release(t)).slot == s.slot)
  {
    RunKeeps(INITIAL, steps);
  }

  // ----- The pipe beside the slot -----

  /** `t` holds the slot and is pumping. */
  predicate Pushing(s: State, t: Token) {
    s.slot == Some(t) && At(s, t, Pumping)
  }

  /** Whoever is pushing feeds the current pipe. */
  predicate PipeFollowsSlot(s: State) {
    s.slot.Some? && Pushing(s, s.slot.value) ==> s.feeder == Live(s.slot.value)
  }

  /**
   A step that would come too late if someone has taken over meanwhile: a pipe started for a token already
   cancelled, the stop of a push that has let go of the slot, the stop of a switch-off, or a swap decided
   when the slot was empty.
   */
  predicate Overruns(s: State, e: Step) {
    match e
    case PlayLive(t) => At(s, t, Slotted) && t in s.cancelled
    case StopReleased(t) => At(s, t, Released)
    case StopAfterSwitchOff => s.stopping > 0
    case SwapAfterCheck(_) => s.checked > 0
    case _ => false
  }

  /** One step takes the pipe away from the pushing token exactly when it comes too late. */
  lemma StepKeepsPipeIff(s: State, e: Step)
    requires Inv(s) && PipeFollowsSlot(s)
    ensures PipeFollowsSlot(Apply(s, e)) <==> !(s.slot.Some? && Pushing(s, s.slot.value) && Overruns(s, e))
  {
  }

  /** `t` has started its pipe and is no longer the one pushing. */
  predicate Past(s: State, t: Token) {
    t in s.phase && !At(s, t, Slotted) && !Pushing(s, t)
  }

  lemma PastStep(s: State, e: Step, t: Token)
    requires Inv(s) && Past(s, t)
    ensures Past(Apply(s, e), t)
  {
    assert s.slot == Some(t) <==> Connected(s, t) && t !in s.cancelled;
  }

  /** A push that is over does not come back. */
  lemma {:induction false} PastRun(s: State, steps: seq<Step>, t: Token)
    requires Inv(s) && Past(s, t)
    ensures Past(Run(s, steps), t)
    decreases |steps|
  {
    if steps != [] {
      StepKeeps(s, steps[0]);
      PastStep(s, steps[0], t);
      PastRun(Apply(s, steps[0]), steps[1..], t);
    }
  }

  lemma PushEndsForGood(s: State, e: Step, t: Token)
    requires Inv(s) && Pushing(s, t)
    ensures Pushing(Apply(s, e), t) || Past(Apply(s, e), t)
  {
  }

  /**
   Somebody still has a pipe to start or to stop: a push that has not started its own, one that has let
   go of the slot, a switch-off under way, or a task that once saw the slot empty.
   */
  ghost predicate Pending(s: State) {
    (exists x: Token :: At(s, x, Slotted)) || (exists x: Token :: At(s, x, Released)) || s.stopping > 0 || s.checked > 0
  }

  /** While `t` goes on pushing nobody new can join those. */
  lemma PushingStep(s: State, e: Step, t: Token)
    requires Inv(s) && Pushing(s, t) && s.feeder == Live(t) && !Pending(s) && Pushing(Apply(s, e), t)
    ensures !Pending(Apply(s, e)) && Apply(s, e).feeder == Live(t)
  {
    var u := Apply(s, e);
    forall x: Token ensures !At(u, x, Slotted) && !At(u, x, Released) {
      assert !At(s, x, Slotted) && !At(s, x, Released);
      assert s.slot == Some(x) <==> Connected(s, x) && x !in s.cancelled;
    }
  }

  lemma {:induction false} QuietRun(s: State, steps: seq<Step>, t: Token)
    requires Inv(s) && Pushing(s, t) && s.feeder == Live(t) && !Pending(s)
    ensures Pushing(Run(s, steps), t) ==> Run(s, steps).feeder == Live(t)
    decreases |steps|
  {
    if steps != [] {
      var u := Apply(s, steps[0]);
      StepKeeps(s, steps[0]);
      PushEndsForGood(s, steps[0], t);
      if Pushing(u, t) {
        PushingStep(s, steps[0], t);
        QuietRun(u, steps[1..], t);
      } else {
        PastRun(u, steps[1..], t);
      }
    }
  }

  /** The step by which somebody pending takes the pipe. */
  lemma PendingStep(s: State, t: Token) returns (e: Step)
    requires Inv(s) && Pushing(s, t) && Pending(s)
    ensures Pushing(Apply(s, e), t) && Apply(s, e).feeder != Live(t)
  {
    if x: Token :| At(s, x, Slotted) {
      e := PlayLive(x);
    } else if x: Token :| At(s, x, Released) {
      e := StopReleased(x);
    } else if s.stopping > 0 {
      e := StopAfterSwitchOff;
    } else {
      e := SwapAfterCheck(false);
    }
  }

  /**
   A push that feeds the current pipe will be heard for as long as it lasts, whatever happens, if and only
   if nobody else has a pipe left to start or to stop.
   */
  lemma PushIsHeardIff(s: State, t: Token)
    requires Inv(s) && Pushing(s, t) && s.feeder == Live(t)
    ensures (forall steps :: Pushing(Run(s, steps), t) ==> Run(s, steps).feeder == Live(t)) <==> !Pending(s)
  {
    if Pending(s) {
      var e := PendingStep(s, t);
      assert Run(s, [e]) == Run(Apply(s, e), []);
    } else {
      forall steps ensures Pushing(Run(s, steps), t) ==> Run(s, steps).feeder == Live(t) {
        QuietRun(s, steps, t);
      }
    }
  }

  /** The same of any push of any run, from the moment it goes live. */
  lemma GoingLiveIsHeardIff(steps: seq<Step>, t: Token)
    ensures var s := Run(INITIAL, steps);
      At(s, t, Slotted) && t !in s.cancelled ==>
        var u := Apply(s, PlayLive(t));
        (forall more :: Pushing(Run(u, more), t) ==> Run(u, more).feeder == Live(t)) <==> !Pending(u)
  {
    RunKeeps(INITIAL, steps);
    var s := Run(INITIAL, steps);
    if At(s, t, Slotted) && t !in s.cancelled {
      StepKeeps(s, PlayLive(t));
      assert s.slot == Some(t) <==> Connected(s, t) && t !in s.cancelled;
      PushIsHeardIff(Apply(s, PlayLive(t)), t);
    }
  }

  /** A late stop: `a` has cleared the slot, `b` connects and goes live, and `a`'s stop then retires `b`'s pipe. */
  lemma LateStopCutsOffNewPush(a: Token, b: Token)
    requires a != b
    ensures var s := Run(INITIAL,
      [Connect(a), PlayLive(a), EndPump(a), Release(a), Connect(b), PlayLive(b), StopReleased(a)]);
      s.slot == Some(b) && At(s, b, Pumping) && b !in s.cancelled && !PipeFollowsSlot(s)
  {
    var s3 := Apply(Apply(Apply(INITIAL, Connect(a)), PlayLive(a)), EndPump(a));
    var s6 := Apply(Apply(Apply(s3, Release(a)), Connect(b)), PlayLive(b));
    var steps := [Connect(a), PlayLive(a), EndPump(a), Release(a), Connect(b), PlayLive(b), StopReleased(a)];
    RunThree(INITIAL, steps);
    RunThree(s3, steps[3..]);
    assert steps[3..][3..] == [StopReleased(a)];
    assert Run(s6, [StopReleased(a)]) == Run(Apply(s6, StopReleased(a)), []);
  }

  /** Out of order: `b` takes over before `a` has started its pipe, and `a` then retires `b`'s. */
  lemma SlowStartCutsOffNewPush(a: Token, b: Token)
    requires a != b
    ensures var s := Run(INITIAL, [Connect(a), Connect(b), PlayLive(b), PlayLive(a)]);
      s.slot == Some(b) && At(s, b, Pumping) && b !in s.cancelled && !PipeFollowsSlot(s)
  {
    var steps := [Connect(a), Connect(b), PlayLive(b), PlayLive(a)];
    RunThree(INITIAL, steps);
    assert steps[3..] == [PlayLive(a)];
    var s3 := Apply(Apply(Apply(INITIAL, Connect(a)), Connect(b)), PlayLive(b));
    assert Run(s3, [PlayLive(a)]) == Run(Apply(s3, PlayLive(a)), []);
  }

  lemma RunThree(s: State, steps: seq<Step>)
    requires |steps| >= 3
    ensures Run(s, steps) == Run(Apply(Apply(Apply(s, steps[0]), steps[1]), steps[2]), steps[3..])
  {
    assert steps[1..][1..] == steps[2..];
    assert steps[2..][1..] == steps[3..];
    assert Run(s, steps) == Run(Apply(s, steps[0]), steps[1..]);
    assert Run(Apply(s, steps[0]), steps[1..]) == Run(Apply(Apply(s, steps[0]), steps[1]), steps[2..]);
  }
}
