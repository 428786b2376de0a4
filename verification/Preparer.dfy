/**
 The single-flight preparer. One task leads per track id, the others follow its channel; one download
 lock covers all ids; a failure starts a cooldown. The regions the program runs under a mutex are
 methods of `TrackPreparer`, each proved to be the map operation the protocol below is built from.
 A channel is named after the task that leads it.
 */
module Preparer {
  import opened Prelude

  type Id = string
  type Path = string
  type Task = nat

  /** Cooldowns in milliseconds. */
  const NO_SOURCE_COOLDOWN: nat := 600_000
  const RETRY_COOLDOWN: nat := 30_000

  datatype Result = Ready(path: Path) | Busy | NoSource | FetchFailed

  // ----- Regions under a mutex -----

  predicate RecentlyFailed(failed: map<Id, int>, id: Id, now: int) {
    id in failed && now < failed[id]
  }

  /** Above 64 entries the expired ones are dropped. */
  function Pruned(failed: map<Id, int>, now: int): (kept: map<Id, int>)
    ensures forall id :: RecentlyFailed(failed, id, now) <==> RecentlyFailed(kept, id, now)
    ensures forall id :: id in kept ==> id in failed && kept[id] == failed[id]
  {
    if |failed| > 64 then map id | id in failed && now < failed[id] :: failed[id] else failed
  }

  function Recorded(failed: map<Id, int>, id: Id, result: Result, now: int): map<Id, int> {
    match result
    case Ready(_) => failed - {id}
    case NoSource => failed[id := now + NO_SOURCE_COOLDOWN]
    case FetchFailed => failed[id := now + RETRY_COOLDOWN]
    case Busy => failed
  }

  class TrackPreparer {
    var inFlight: map<Id, Task>
    var failed: map<Id, int>

    /** The clock is read twice: pruning at `now` never changes the answer at `later`. */
    method RecentlyFailed(id: Id, now: int, later: int) returns (recent: bool)
      requires now <= later
      modifies this`failed
      ensures failed == Pruned(old(failed), now)
      ensures recent <==> id in old(failed) && later < old(failed)[id]
    {
      if |failed| > 64 {
        failed := map x | x in failed && now < failed[x] :: failed[x];
      }
      recent := id in failed && later < failed[id];
    }

    /** Joins the flight for `id`: the leader's channel to follow, or none if `task` now leads. */
    method Join(id: Id, task: Task) returns (leader: Option<Task>)
      modifies this`inFlight
      ensures id in old(inFlight) ==> leader == Some(old(inFlight)[id]) && inFlight == old(inFlight)
      ensures id !in old(inFlight) ==> leader == None && inFlight == old(inFlight)[id := task]
    {
      if id in inFlight {
        return Some(inFlight[id]);
      }
      inFlight := inFlight[id := task];
      return None;
    }

    method Record(id: Id, result: Result, now: int)
      modifies this`failed
      ensures failed == Recorded(old(failed), id, result, now)
      ensures match result
        case Ready(_) => failed == old(failed) - {id}
        case NoSource => failed == old(failed)[id := now + 600_000]
        case FetchFailed => failed == old(failed)[id := now + 30_000]
        case Busy => failed == old(failed)
    {
      match result {
        case Ready(_) => failed := failed - {id};
        case NoSource => failed := failed[id := now + NO_SOURCE_COOLDOWN];
        case FetchFailed => failed := failed[id := now + RETRY_COOLDOWN];
        case Busy =>
      }
    }

    method DropGuard(id: Id)
      modifies this`inFlight
      ensures inFlight == old(inFlight) - {id}
    {
      inFlight := inFlight - {id};
    }
  }

  // ----- The protocol -----

  /** Where a task stands; each step below runs one task from one phase to the next. */
  datatype Phase =
    | Started(id: Id)
    | Missed(id: Id)                      // not cached
    | Allowed(id: Id)                     // and not recently failed
    | Waiting(id: Id)                     // leads; waits for the download lock
    | Locked(id: Id)
    | MissedAgain(id: Id)
    | Fetching(id: Id)
    | Fetched(id: Id, result: Result)     // still holds the lock
    | Unlocked(id: Id, result: Result)    // lock released, failure not recorded yet
    | Finished(id: Id, result: Result)    // recorded; the guard is about to drop
    | Unregistered(id: Id, result: Result) // map entry gone, channel still open
    | Following(id: Id, leader: Task)
    | Woken(id: Id)
    | Done(id: Id, result: Result)

  datatype Event = Began(id: Id, at: int) | FailedAt(id: Id, at: int, cooldown: nat)

  /** `log` records fetches and failures, `evicted` the ids ever lost from the cache. */
  datatype State = State(now: int, cache: map<Id, Path>, inFlight: map<Id, Task>, failed: map<Id, int>,
                         lock: Option<Task>,
                         open: set<Task>, tasks: map<Task, Phase>, log: seq<Event>, evicted: set<Id>)

  /** `Act` takes a task one phase on; `result` is what its fetch returns if it is fetching. */
  datatype Step =
    | Tick(d: nat)
    | Evict(id: Id)
    | Spawn(t: Task, id: Id)
    | Act(t: Task, result: Result)
    | Abort(t: Task)      // the task's future is dropped at an await

  predicate Leads(p: Phase) {
    p.Waiting? || p.Locked? || p.MissedAgain? || p.Fetching? || p.Fetched? || p.Unlocked? || p.Finished?
  }

  predicate Holds(p: Phase) {
    p.Locked? || p.MissedAgain? || p.Fetching? || p.Fetched?
  }

  function Hit(s: State, id: Id): Result {
    if id in s.cache then Ready(s.cache[id]) else Busy
  }

  function Move(s: State, t: Task, p: Phase): State {
    s.(tasks := s.tasks[t := p])
  }

  /** Before a task joins the flight. */
  function EarlyStep(s: State, t: Task, p: Phase): State {
    match p
    case Started(id) => Move(s, t, if id in s.cache then Done(id, Hit(s, id)) else Missed(id))
    case Missed(id) =>
      var recent := RecentlyFailed(s.failed, id, s.now);
      Move(s.(failed := Pruned(s.failed, s.now)), t, if recent then Done(id, Busy) else Allowed(id))
    case Allowed(id) =>
      if id in s.inFlight then Move(s, t, Following(id, s.inFlight[id]))
      else Move(s.(inFlight := s.inFlight[id := t], open := s.open + {t}), t, Waiting(id))
    case Following(id, _) => Move(s, t, Woken(id))  // the channel closed, or 60 s passed
    case Woken(id) => Move(s, t, Done(id, Hit(s, id)))
    case _ => s
  }

  /** Under the download lock. */
  function LockedStep(s: State, t: Task, p: Phase, result: Result): State {
    match p
    case Waiting(id) => if s.lock.None? then Move(s.(lock := Some(t)), t, Locked(id)) else s
    case Locked(id) => Move(s, t, if id in s.cache then Fetched(id, Hit(s, id)) else MissedAgain(id))
    case MissedAgain(id) =>
      var u := s.(failed := Pruned(s.failed, s.now));
      if RecentlyFailed(s.failed, id, s.now) then Move(u, t, Fetched(id, Busy))
      else Move(u.(log := s.log + [Began(id, s.now)]), t, Fetching(id))
    case Fetching(id) =>
      if result.Busy? then s
      else Move(if result.Ready? then s.(cache := s.cache[id := result.path]) else s, t, Fetched(id, result))
    case Fetched(id, r) => Move(s.(lock := None), t, Unlocked(id, r))
    case _ => s
  }

  function FailureLog(log: seq<Event>, id: Id, result: Result, now: int): seq<Event> {
    match result
    case NoSource => log + [FailedAt(id, now, NO_SOURCE_COOLDOWN)]
    case FetchFailed => log + [FailedAt(id, now, RETRY_COOLDOWN)]
    case _ => log
  }

  /** After the download lock: record, drop the guard, close the channel. */
  function LateStep(s: State, t: Task, p: Phase): State {
    match p
    case Unlocked(id, r) =>
      Move(s.(failed := Recorded(s.failed, id, r, s.now), log := FailureLog(s.log, id, r, s.now)), t, Finished(id, r))
    case Finished(id, r) => Move(s.(inFlight := s.inFlight - {id}), t, Unregistered(id, r))
    case Unregistered(id, r) => Move(s.(open := s.open - {t}), t, Done(id, r))
    case _ => s
  }

  function AbortStep(s: State, t: Task, p: Phase): State {
    match p
    case Waiting(id) => Move(s, t, Finished(id, Busy))
    case Fetching(id) => Move(s.(lock := None), t, Finished(id, Busy))
    case Following(id, _) => Move(s, t, Done(id, Busy))
    case _ => s
  }

  function TaskStep(s: State, t: Task, p: Phase, result: Result): State {
    if p.Waiting? || Holds(p) then LockedStep(s, t, p, result)
    else if p.Unlocked? || p.Finished? || p.Unregistered? then LateStep(s, t, p)
    else EarlyStep(s, t, p)
  }

  function Apply(s: State, e: Step): State {
    match e
    case Tick(d) => s.(now := s.now + d)
    case Evict(id) => s.(cache := s.cache - {id}, evicted := s.evicted + {id})
    case Spawn(t, id) => if t in s.tasks then s else Move(s, t, Started(id))
    case Act(t, result) => if t in s.tasks then TaskStep(s, t, s.tasks[t], result) else s
    case Abort(t) => if t in s.tasks then AbortStep(s, t, s.tasks[t]) else s
  }

  function Initial(cache: map<Id, Path>): State {
    State(0, cache, map[], map[], None, {}, map[], [], {})
  }

  function Run(s: State, steps: seq<Step>): State
    decreases |steps|
  {
    if steps == [] then s else Run(Apply(s, steps[0]), steps[1..])
  }

  // ----- The shape of one task's step -----

  predicate Listed(p: Phase) {
    Leads(p) || p.Unregistered?
  }

  /** What moving task `t` from `p` to `q` does to the in-flight map, the open channels and the lock. */
  predicate Shape(s: State, u: State, t: Task, p: Phase, q: Phase) {
    && u.tasks == s.tasks[t := q] && q.id == p.id && u.now == s.now && u.evicted == s.evicted
    && (Leads(p) == Leads(q) ==> u.inFlight == s.inFlight)
    && (!Leads(p) && Leads(q) ==> p.id !in s.inFlight && u.inFlight == s.inFlight[p.id := t])
    && (Leads(p) && !Leads(q) ==> u.inFlight == s.inFlight - {p.id})
    && (Listed(p) == Listed(q) ==> u.open == s.open)
    && (!Listed(p) && Listed(q) ==> u.open == s.open + {t})
    && (Listed(p) && !Listed(q) ==> u.open == s.open - {t})
    && (Holds(p) == Holds(q) ==> u.lock == s.lock)
    && (!Holds(p) && Holds(q) ==> s.lock.None? && u.lock == Some(t))
    && (Holds(p) && !Holds(q) ==> u.lock.None?)
  }

  lemma EarlyStepShape(s: State, t: Task, p: Phase)
    requires t in s.tasks && s.tasks[t] == p && !Leads(p) && !p.Unregistered?
    ensures var u := EarlyStep(s, t, p);
      t in u.tasks && Shape(s, u, t, p, u.tasks[t])
  {
    assert s.tasks == s.tasks[t := p];
  }

  lemma LockedStepShape(s: State, t: Task, p: Phase, result: Result)
    requires t in s.tasks && s.tasks[t] == p && (p.Waiting? || Holds(p))
    ensures var u := LockedStep(s, t, p, result);
      t in u.tasks && Shape(s, u, t, p, u.tasks[t])
  {
    assert s.tasks == s.tasks[t := p];
  }

  lemma LateStepShape(s: State, t: Task, p: Phase)
    requires t in s.tasks && s.tasks[t] == p && (p.Unlocked? || p.Finished? || p.Unregistered?)
    ensures var u := LateStep(s, t, p);
      t in u.tasks && Shape(s, u, t, p, u.tasks[t])
  {
  }

  lemma TaskStepShape(s: State, t: Task, p: Phase, result: Result)
    requires t in s.tasks && s.tasks[t] == p
    ensures var u := TaskStep(s, t, p, result);
      t in u.tasks && Shape(s, u, t, p, u.tasks[t])
  {
    if p.Waiting? || Holds(p) {
      LockedStepShape(s, t, p, result);
    } else if p.Unlocked? || p.Finished? || p.Unregistered? {
      LateStepShape(s, t, p);
    } else {
      EarlyStepShape(s, t, p);
    }
  }

  lemma AbortStepShape(s: State, t: Task, p: Phase)
    requires t in s.tasks && s.tasks[t] == p
    ensures var u := AbortStep(s, t, p);
      t in u.tasks && Shape(s, u, t, p, u.tasks[t])
  {
    assert s.tasks == s.tasks[t := p];
  }

  // ----- Single flight -----

  /** The in-flight map holds exactly the leaders. */
  predicate LeaderInv(s: State) {
    && (forall id :: id in s.inFlight ==>
      s.inFlight[id] in s.tasks && Leads(s.tasks[s.inFlight[id]]) && s.tasks[s.inFlight[id]].id == id)
    && (forall t :: t in s.tasks && Leads(s.tasks[t]) ==> s.tasks[t].id in s.inFlight && s.inFlight[s.tasks[t].id] == t)
  }

  /** A channel is open exactly until its leader is done. */
  ghost predicate ChannelInv(s: State) {
    forall t :: t in s.open <==> t in s.tasks && Listed(s.tasks[t])
  }

  /** The lock is held exactly by the one task at work under it. */
  predicate LockInv(s: State) {
    && (s.lock.Some? ==> s.lock.value in s.tasks && Holds(s.tasks[s.lock.value]))
    && (forall t :: t in s.tasks && Holds(s.tasks[t]) ==> s.lock == Some(t))
  }

  ghost predicate FlightInv(s: State) {
    LeaderInv(s) && ChannelInv(s) && LockInv(s)
  }

  lemma ShapeKeepsLeaders(s: State, u: State, t: Task, p: Phase, q: Phase)
    requires t in s.tasks && s.tasks[t] == p && Shape(s, u, t, p, q) && LeaderInv(s)
    ensures LeaderInv(u)
  {
  }

  lemma ShapeKeepsLock(s: State, u: State, t: Task, p: Phase, q: Phase)
    requires t in s.tasks && s.tasks[t] == p && Shape(s, u, t, p, q) && LockInv(s)
    ensures LockInv(u)
  {
  }

  lemma ShapeKeepsFlight(s: State, u: State, t: Task, p: Phase, q: Phase)
    requires t in s.tasks && s.tasks[t] == p && Shape(s, u, t, p, q) && FlightInv(s)
    ensures FlightInv(u)
  {
    ShapeKeepsLeaders(s, u, t, p, q);
    ShapeKeepsLock(s, u, t, p, q);
  }

  lemma FlightKeeps(s: State, e: Step)
    requires FlightInv(s)
    ensures FlightInv(Apply(s, e))
  {
    match e
    case Act(t, result) =>
      if t in s.tasks {
        TaskStepShape(s, t, s.tasks[t], result);
        ShapeKeepsFlight(s, Apply(s, e), t, s.tasks[t], Apply(s, e).tasks[t]);
      }
    case Abort(t) =>
      if t in s.tasks {
        AbortStepShape(s, t, s.tasks[t]);
        ShapeKeepsFlight(s, Apply(s, e), t, s.tasks[t], Apply(s, e).tasks[t]);
      }
    case _ =>
  }

  // ----- Cooldowns -----

  /** Every recorded failure of `id` has cooled down. */
  predicate Cooled(log: seq<Event>, id: Id, now: int) {
    forall i :: 0 <= i < |log| && log[i].FailedAt? && log[i].id == id ==> log[i].at + log[i].cooldown <= now
  }

  /** The failure map's entry stems from a recorded failure. */
  predicate Source(log: seq<Event>, id: Id, until: int) {
    exists i :: 0 <= i < |log| && log[i].FailedAt? && log[i].id == id && log[i].at + log[i].cooldown == until
  }

  /** A leader that fetched, or found the track cached, did so after every recorded failure had cooled down. */
  predicate PastCooldown(p: Phase) {
    p.Fetching? || ((p.Fetched? || p.Unlocked?) && !p.result.Busy?)
  }

  /** A leader about to fetch, fetching, or back without a file: nobody else can have cached its track. */
  predicate Uncached(p: Phase) {
    p.MissedAgain? || p.Fetching? || ((p.Fetched? || p.Unlocked?) && (p.result.NoSource? || p.result.FetchFailed?))
  }

  predicate MapInv(log: seq<Event>, failed: map<Id, int>, now: int) {
    && (forall i :: 0 <= i < |log| && log[i].FailedAt? && now < log[i].at + log[i].cooldown ==>
          log[i].id in failed && failed[log[i].id] >= log[i].at + log[i].cooldown)
    && (forall id :: id in failed && now < failed[id] ==> Source(log, id, failed[id]))
  }

  /** No fetch begins before every earlier failure of its track has cooled down. */
  predicate Patient(log: seq<Event>) {
    forall i, j :: 0 <= i < j < |log| && log[i].FailedAt? && log[j].Began? && log[i].id == log[j].id ==>
      log[j].at >= log[i].at + log[i].cooldown
  }

  predicate TaskInv(s: State) {
    forall t :: t in s.tasks ==>
      (PastCooldown(s.tasks[t]) ==> Cooled(s.log, s.tasks[t].id, s.now)) &&
      (Uncached(s.tasks[t]) ==> s.tasks[t].id !in s.cache)
  }

  predicate CooldownInv(s: State) {
    && (forall id :: id in s.cache ==> Cooled(s.log, id, s.now))
    && MapInv(s.log, s.failed, s.now) && Patient(s.log) && TaskInv(s)
  }

  datatype Effect = Quiet | Begin | Fail(cooldown: nat) | Forget | Store

  /** What moving a task from `p` to `q` does to the log, the failure map and the cache. */
  predicate CoolShape(s: State, u: State, p: Phase, q: Phase, f: Effect) {
    && u.cache == (if f.Store? && q.Fetched? && q.result.Ready? then s.cache[p.id := q.result.path] else s.cache)
    && (Uncached(q) ==> Uncached(p) || (p.Locked? && p.id !in s.cache))
    && match f
       case Quiet =>
         u.log == s.log && (u.failed == s.failed || u.failed == Pruned(s.failed, s.now))
         && (PastCooldown(q) ==> PastCooldown(p) || (p.Locked? && p.id in s.cache))
       case Begin =>
         p.MissedAgain? && u.log == s.log + [Began(p.id, s.now)] && u.failed == Pruned(s.failed, s.now)
         && !RecentlyFailed(s.failed, p.id, s.now)
       case Fail(c) =>
         c > 0 && p.Unlocked? && q.Finished? && Uncached(p)
         && u.log == s.log + [FailedAt(p.id, s.now, c)] && u.failed == s.failed[p.id := s.now + c]
       case Forget => p.Unlocked? && q.Finished? && PastCooldown(p) && u.log == s.log && u.failed == s.failed - {p.id}
       case Store => p.Fetching? && q.Fetched? && q.result.Ready? && u.log == s.log && u.failed == s.failed
  }

  function EffectOf(s: State, p: Phase, result: Result): Effect {
    match p
    case MissedAgain(id) => if RecentlyFailed(s.failed, id, s.now) then Quiet else Begin
    case Fetching(_) => if result.Ready? then Store else Quiet
    case Unlocked(_, Ready(_)) => Forget
    case Unlocked(_, NoSource) => Fail(NO_SOURCE_COOLDOWN)
    case Unlocked(_, FetchFailed) => Fail(RETRY_COOLDOWN)
    case _ => Quiet
  }

  lemma EarlyStepCools(s: State, t: Task, p: Phase)
    requires t in s.tasks && s.tasks[t] == p && !Leads(p) && !p.Unregistered?
    ensures var u := EarlyStep(s, t, p);
      t in u.tasks && CoolShape(s, u, p, u.tasks[t], Quiet)
  {
  }

  lemma LockedStepCools(s: State, t: Task, p: Phase, result: Result)
    requires t in s.tasks && s.tasks[t] == p && (p.Waiting? || Holds(p))
    ensures var u := LockedStep(s, t, p, result);
      t in u.tasks && CoolShape(s, u, p, u.tasks[t], EffectOf(s, p, result))
  {
    match p
    case MissedAgain(id) => RecheckCools(s, t, p, result);
    case Fetching(id) => FetchCools(s, t, p, result);
    case _ =>
  }

  lemma RecheckCools(s: State, t: Task, p: Phase, result: Result)
    requires t in s.tasks && s.tasks[t] == p && p.MissedAgain?
    ensures var u := LockedStep(s, t, p, result);
      t in u.tasks && CoolShape(s, u, p, u.tasks[t], EffectOf(s, p, result))
  {
  }

  lemma FetchCools(s: State, t: Task, p: Phase, result: Result)
    requires t in s.tasks && s.tasks[t] == p && p.Fetching?
    ensures var u := LockedStep(s, t, p, result);
      t in u.tasks && CoolShape(s, u, p, u.tasks[t], EffectOf(s, p, result))
  {
  }

  lemma LateStepCools(s: State, t: Task, p: Phase, result: Result)
    requires t in s.tasks && s.tasks[t] == p && (p.Unlocked? || p.Finished? || p.Unregistered?)
    ensures var u := LateStep(s, t, p);
      t in u.tasks && CoolShape(s, u, p, u.tasks[t], EffectOf(s, p, result))
  {
    if p.Unlocked? {
      RecordCools(s, t, p, result);
    }
  }

  lemma RecordCools(s: State, t: Task, p: Phase, result: Result)
    requires t in s.tasks && s.tasks[t] == p && p.Unlocked?
    ensures var u := LateStep(s, t, p);
      t in u.tasks && CoolShape(s, u, p, u.tasks[t], EffectOf(s, p, result))
  {
  }

  lemma AbortStepCools(s: State, t: Task, p: Phase)
    requires t in s.tasks && s.tasks[t] == p
    ensures var u := AbortStep(s, t, p);
      t in u.tasks && CoolShape(s, u, p, u.tasks[t], Quiet)
  {
  }

  lemma PrunedMap(log: seq<Event>, failed: map<Id, int>, now: int)
    requires MapInv(log, failed, now)
    ensures MapInv(log, Pruned(failed, now), now)
  {
    var kept := Pruned(failed, now);
    forall i | 0 <= i < |log| && log[i].FailedAt? && now < log[i].at + log[i].cooldown
      ensures log[i].id in kept && kept[log[i].id] >= log[i].at + log[i].cooldown
    {
      assert RecentlyFailed(failed, log[i].id, now);
      assert RecentlyFailed(kept, log[i].id, now);
    }
  }

  lemma QuietKeeps(s: State, u: State, t: Task, p: Phase, q: Phase)
    requires t in s.tasks && s.tasks[t] == p && u.tasks == s.tasks[t := q] && q.id == p.id && u.now == s.now
    requires CooldownInv(s) && CoolShape(s, u, p, q, Quiet)
    ensures CooldownInv(u)
  {
    PrunedMap(s.log, s.failed, s.now);
  }

  lemma NewEventCools(log: seq<Event>, e: Event, id: Id, now: int)
    requires Cooled(log, id, now) && (e.FailedAt? && e.id == id ==> e.at + e.cooldown <= now)
    ensures Cooled(log + [e], id, now)
  {
  }

  lemma NotRecentIsCooled(log: seq<Event>, failed: map<Id, int>, id: Id, now: int)
    requires MapInv(log, failed, now) && !RecentlyFailed(failed, id, now)
    ensures Cooled(log, id, now)
  {
  }

  lemma SourceAppend(log: seq<Event>, e: Event, id: Id, until: int)
    requires Source(log, id, until)
    ensures Source(log + [e], id, until)
  {
    var i :| 0 <= i < |log| && log[i].FailedAt? && log[i].id == id && log[i].at + log[i].cooldown == until;
    assert (log + [e])[i] == log[i];
  }

  lemma BeginMap(log: seq<Event>, failed: map<Id, int>, id: Id, now: int)
    requires MapInv(log, failed, now)
    ensures MapInv(log + [Began(id, now)], failed, now)
  {
    forall x | x in failed && now < failed[x] ensures Source(log + [Began(id, now)], x, failed[x]) {
      SourceAppend(log, Began(id, now), x, failed[x]);
    }
  }

  lemma BeginPatient(log: seq<Event>, id: Id, now: int)
    requires Patient(log) && Cooled(log, id, now)
    ensures Patient(log + [Began(id, now)])
  {
  }

  lemma BeginKeeps(s: State, u: State, t: Task, p: Phase, q: Phase)
    requires t in s.tasks && s.tasks[t] == p && u.tasks == s.tasks[t := q] && q.id == p.id && u.now == s.now
    requires CooldownInv(s) && CoolShape(s, u, p, q, Begin)
    ensures CooldownInv(u)
  {
    var e := Began(p.id, s.now);
    NotRecentIsCooled(s.log, s.failed, p.id, s.now);
    PrunedMap(s.log, s.failed, s.now);
    BeginMap(s.log, u.failed, p.id, s.now);
    BeginPatient(s.log, p.id, s.now);
    forall id | Cooled(s.log, id, s.now) ensures Cooled(u.log, id, s.now) {
      NewEventCools(s.log, e, id, s.now);
    }
  }

  lemma FailMap(log: seq<Event>, failed: map<Id, int>, id: Id, now: int, c: nat)
    requires MapInv(log, failed, now) && Cooled(log, id, now)
    ensures MapInv(log + [FailedAt(id, now, c)], failed[id := now + c], now)
  {
    var e := FailedAt(id, now, c);
    assert (log + [e])[|log|] == e;
    forall x | x in failed && x != id && now < failed[x] ensures Source(log + [e], x, failed[x]) {
      SourceAppend(log, e, x, failed[x]);
    }
  }

  lemma FailPatient(log: seq<Event>, id: Id, now: int, c: nat)
    requires Patient(log)
    ensures Patient(log + [FailedAt(id, now, c)])
  {
  }

  /** Only the one leader of a track can be past its cooldown. */
  lemma OthersAreOtherTracks(s: State, t: Task, x: Task)
    requires FlightInv(s) && t in s.tasks && x in s.tasks && t != x && Leads(s.tasks[t]) && Leads(s.tasks[x])
    ensures s.tasks[t].id != s.tasks[x].id
  {
  }

  lemma FailTasks(s: State, u: State, t: Task, p: Phase, q: Phase, c: nat)
    requires t in s.tasks && s.tasks[t] == p && u.tasks == s.tasks[t := q] && q.id == p.id && u.now == s.now
    requires FlightInv(s) && TaskInv(s) && CoolShape(s, u, p, q, Fail(c))
    ensures TaskInv(u)
  {
    forall x | x in u.tasks && PastCooldown(u.tasks[x]) ensures Cooled(u.log, u.tasks[x].id, u.now) {
      OthersAreOtherTracks(s, t, x);
      NewEventCools(s.log, FailedAt(p.id, s.now, c), s.tasks[x].id, s.now);
    }
  }

  lemma FailKeeps(s: State, u: State, t: Task, p: Phase, q: Phase, c: nat)
    requires t in s.tasks && s.tasks[t] == p && u.tasks == s.tasks[t := q] && q.id == p.id && u.now == s.now
    requires FlightInv(s) && CooldownInv(s) && CoolShape(s, u, p, q, Fail(c))
    ensures CooldownInv(u)
  {
    FailTasks(s, u, t, p, q, c);
    FailMap(s.log, s.failed, p.id, s.now, c);
    FailPatient(s.log, p.id, s.now, c);
    forall id | id in u.cache ensures Cooled(u.log, id, u.now) {
      NewEventCools(s.log, FailedAt(p.id, s.now, c), id, s.now);
    }
  }

  lemma ForgetKeeps(s: State, u: State, t: Task, p: Phase, q: Phase)
    requires t in s.tasks && s.tasks[t] == p && u.tasks == s.tasks[t := q] && q.id == p.id && u.now == s.now
    requires CooldownInv(s) && CoolShape(s, u, p, q, Forget)
    ensures CooldownInv(u)
  {
    assert Cooled(s.log, p.id, s.now);
  }

  lemma StoreKeeps(s: State, u: State, t: Task, p: Phase, q: Phase)
    requires t in s.tasks && s.tasks[t] == p && u.tasks == s.tasks[t := q] && q.id == p.id && u.now == s.now
    requires FlightInv(s) && CooldownInv(s) && CoolShape(s, u, p, q, Store)
    ensures CooldownInv(u)
  {
    forall x | x in s.tasks && x != t && Leads(s.tasks[x]) ensures s.tasks[x].id != p.id {
      OthersAreOtherTracks(s, t, x);
    }
  }

  lemma ShapeKeepsCooldown(s: State, u: State, t: Task, p: Phase, q: Phase, f: Effect)
    requires t in s.tasks && s.tasks[t] == p && Shape(s, u, t, p, q)
    requires FlightInv(s) && CooldownInv(s) && CoolShape(s, u, p, q, f)
    ensures CooldownInv(u)
  {
    match f
    case Quiet => QuietKeeps(s, u, t, p, q);
    case Begin => BeginKeeps(s, u, t, p, q);
    case Fail(c) => FailKeeps(s, u, t, p, q, c);
    case Forget => ForgetKeeps(s, u, t, p, q);
    case Store => StoreKeeps(s, u, t, p, q);
  }

  // ----- Followers -----

  predicate HasResult(p: Phase) {
    p.Fetched? || p.Unlocked? || p.Finished? || p.Unregistered? || p.Done?
  }

  /** A path returned stays the cached one until its track is evicted; a follower follows a leader of its own track. */
  predicate PathInv(s: State) {
    forall t :: t in s.tasks ==>
      (HasResult(s.tasks[t]) && s.tasks[t].result.Ready? && s.tasks[t].id !in s.evicted ==>
         s.tasks[t].id in s.cache && s.cache[s.tasks[t].id] == s.tasks[t].result.path) &&
      (s.tasks[t].Following? ==> s.tasks[t].leader in s.tasks && s.tasks[s.tasks[t].leader].id == s.tasks[t].id)
  }

  predicate PathShape(s: State, u: State, p: Phase, q: Phase) {
    && (u.cache == s.cache ||
      (p.Fetching? && q.Fetched? && q.result.Ready? && u.cache == s.cache[p.id := q.result.path]))
    && (HasResult(q) && q.result.Ready? ==>
          (HasResult(p) && p.result == q.result) || (p.id in u.cache && u.cache[p.id] == q.result.path))
    && (q.Following? ==> p.id in s.inFlight && q.leader == s.inFlight[p.id])
  }

  lemma EarlyStepPaths(s: State, t: Task, p: Phase)
    requires t in s.tasks && s.tasks[t] == p && !Leads(p) && !p.Unregistered?
    ensures EarlyStep(s, t, p) == s ||
      (t in EarlyStep(s, t, p).tasks && PathShape(s, EarlyStep(s, t, p), p, EarlyStep(s, t, p).tasks[t]))
  {
  }

  lemma LockedStepPaths(s: State, t: Task, p: Phase, result: Result)
    requires t in s.tasks && s.tasks[t] == p && (p.Waiting? || Holds(p))
    ensures var u := LockedStep(s, t, p, result);
      t in u.tasks && PathShape(s, u, p, u.tasks[t])
  {
  }

  lemma LateStepPaths(s: State, t: Task, p: Phase)
    requires t in s.tasks && s.tasks[t] == p && (p.Unlocked? || p.Finished? || p.Unregistered?)
    ensures var u := LateStep(s, t, p);
      t in u.tasks && PathShape(s, u, p, u.tasks[t])
  {
  }

  lemma TaskStepPaths(s: State, t: Task, p: Phase, result: Result)
    requires t in s.tasks && s.tasks[t] == p
    ensures var u := TaskStep(s, t, p, result);
      u == s || (t in u.tasks && PathShape(s, u, p, u.tasks[t]))
  {
    if p.Waiting? || Holds(p) {
      LockedStepPaths(s, t, p, result);
    } else if p.Unlocked? || p.Finished? || p.Unregistered? {
      LateStepPaths(s, t, p);
    } else {
      EarlyStepPaths(s, t, p);
    }
  }

  lemma AbortStepPaths(s: State, t: Task, p: Phase)
    requires t in s.tasks && s.tasks[t] == p
    ensures var u := AbortStep(s, t, p);
      u == s || (t in u.tasks && PathShape(s, u, p, u.tasks[t]))
  {
  }

  lemma ShapeKeepsPaths(s: State, u: State, t: Task, p: Phase, q: Phase)
    requires t in s.tasks && s.tasks[t] == p && Shape(s, u, t, p, q) && PathShape(s, u, p, q)
    requires FlightInv(s) && TaskInv(s) && PathInv(s)
    ensures PathInv(u)
  {
  }

  // ----- Every run -----

  ghost predicate Inv(s: State) {
    FlightInv(s) && CooldownInv(s) && PathInv(s)
  }

  lemma TickCools(s: State, d: nat)
    requires CooldownInv(s)
    ensures CooldownInv(Apply(s, Tick(d)))
  {
  }

  lemma ActKeeps(s: State, t: Task, result: Result)
    requires Inv(s) && t in s.tasks
    ensures CooldownInv(Apply(s, Act(t, result))) && PathInv(Apply(s, Act(t, result)))
  {
    var p, u := s.tasks[t], Apply(s, Act(t, result));
    TaskStepShape(s, t, p, result);
    TaskStepCools(s, t, p, result);
    ShapeKeepsCooldown(s, u, t, p, u.tasks[t], EffectOf(s, p, result));
    TaskStepPaths(s, t, p, result);
    if u != s {
      ShapeKeepsPaths(s, u, t, p, u.tasks[t]);
    }
  }

  lemma AbortKeeps(s: State, t: Task)
    requires Inv(s) && t in s.tasks
    ensures CooldownInv(Apply(s, Abort(t))) && PathInv(Apply(s, Abort(t)))
  {
    var p, u := s.tasks[t], Apply(s, Abort(t));
    AbortStepShape(s, t, p);
    AbortStepCools(s, t, p);
    ShapeKeepsCooldown(s, u, t, p, u.tasks[t], Quiet);
    AbortStepPaths(s, t, p);
    if u != s {
      ShapeKeepsPaths(s, u, t, p, u.tasks[t]);
    }
  }

  lemma EvictKeeps(s: State, id: Id)
    requires Inv(s)
    ensures CooldownInv(Apply(s, Evict(id))) && PathInv(Apply(s, Evict(id)))
  {
  }

  lemma SpawnKeeps(s: State, t: Task, id: Id)
    requires Inv(s)
    ensures CooldownInv(Apply(s, Spawn(t, id))) && PathInv(Apply(s, Spawn(t, id)))
  {
  }

  lemma TickKeepsPaths(s: State, d: nat)
    requires PathInv(s)
    ensures PathInv(Apply(s, Tick(d)))
  {
  }

  lemma StepKeeps(s: State, e: Step)
    requires Inv(s)
    ensures Inv(Apply(s, e))
  {
    FlightKeeps(s, e);
    match e
    case Tick(d) =>
      TickCools(s, d);
      TickKeepsPaths(s, d);
    case Evict(id) => EvictKeeps(s, id);
    case Spawn(t, id) => SpawnKeeps(s, t, id);
    case Act(t, result) => if t in s.tasks { ActKeeps(s, t, result); }
    case Abort(t) => if t in s.tasks { AbortKeeps(s, t); }
  }

  lemma TaskStepCools(s: State, t: Task, p: Phase, result: Result)
    requires t in s.tasks && s.tasks[t] == p
    ensures var u := TaskStep(s, t, p, result);
      t in u.tasks && CoolShape(s, u, p, u.tasks[t], EffectOf(s, p, result))
  {
    if p.Waiting? || Holds(p) {
      LockedStepCools(s, t, p, result);
    } else if p.Unlocked? || p.Finished? || p.Unregistered? {
      LateStepCools(s, t, p, result);
    } else {
      EarlyStepCools(s, t, p);
    }
  }

  lemma {:induction false} RunKeeps(s: State, steps: seq<Step>)
    requires Inv(s)
    ensures Inv(Run(s, steps))
    decreases |steps|
  {
    if steps != [] {
      StepKeeps(s, steps[0]);
      RunKeeps(Apply(s, steps[0]), steps[1..]);
    }
  }

  ghost predicate Reachable(s: State) {
    exists cache: map<Id, Path>, steps: seq<Step> :: s == Run(Initial(cache), steps)
  }

  lemma ReachableInv(s: State)
    requires Reachable(s)
    ensures Inv(s)
  {
    var cache: map<Id, Path>, steps: seq<Step> :| s == Run(Initial(cache), steps);
    RunKeeps(Initial(cache), steps);
  }

  // ----- Main results -----

  /** A pruning above 64 entries leaves the unexpired ones, otherwise all. */
  lemma PrunedKeeps(failed: map<Id, int>, now: int)
    ensures |failed| <= 64 ==> Pruned(failed, now) == failed
    ensures |failed| > 64 ==> forall id :: id in Pruned(failed, now) <==> id in failed && now < failed[id]
  {
  }

  predicate CooldownIs(e: Event) {
    e.FailedAt? ==> e.cooldown == 600_000 || e.cooldown == 30_000
  }

  lemma {:induction false} CooldownsAre(s: State, steps: seq<Step>)
    requires forall i :: 0 <= i < |s.log| ==> CooldownIs(s.log[i])
    ensures forall i :: 0 <= i < |Run(s, steps).log| ==> CooldownIs(Run(s, steps).log[i])
    decreases |steps|
  {
    if steps != [] {
      CooldownsAre(Apply(s, steps[0]), steps[1..]);
    }
  }

  /** On every interleaving, no fetch of a track begins before any earlier failure of it has cooled down. */
  lemma CooldownsAreKept(s: State, i: nat, j: nat)
    requires Reachable(s) && i < j < |s.log|
    requires s.log[i].FailedAt? && s.log[j].Began? && s.log[i].id == s.log[j].id
    ensures s.log[j].at >= s.log[i].at + s.log[i].cooldown
    ensures s.log[i].cooldown == 600_000 || s.log[i].cooldown == 30_000
  {
    ReachableInv(s);
    var cache: map<Id, Path>, steps: seq<Step> :| s == Run(Initial(cache), steps);
    CooldownsAre(Initial(cache), steps);
    assert CooldownIs(s.log[i]);
  }

  /** Whatever a task brings back is recorded: ten minutes without a source, half a minute after a failure. */
  lemma OutcomeIsRecorded(s: State, t: Task, ignored: Result)
    requires t in s.tasks && s.tasks[t].Unlocked?
    ensures var u, id := Apply(s, Act(t, ignored)), s.tasks[t].id;
      match s.tasks[t].result
      case Ready(_) => u.log == s.log && u.failed == s.failed - {id}
      case NoSource => u.log == s.log + [FailedAt(id, s.now, 600_000)] && u.failed == s.failed[id := s.now + 600_000]
      case FetchFailed => u.log == s.log + [FailedAt(id, s.now, 30_000)] && u.failed == s.failed[id := s.now + 30_000]
      case Busy => u.log == s.log && u.failed == s.failed
  {
  }

  lemma FetchStartsFrom(s: State, t: Task, p: Phase, result: Result)
    requires t in s.tasks && s.tasks[t] == p && !p.Fetching?
    ensures var u := TaskStep(s, t, p, result);
      t in u.tasks && (u.tasks[t].Fetching? ==> p.MissedAgain? && u.tasks[t].id == p.id)
  {
  }

  lemma FetchStarts(s: State, t: Task, p: Phase, result: Result)
    requires t in s.tasks && s.tasks[t] == p && p.MissedAgain?
    ensures var u := TaskStep(s, t, p, result);
      t in u.tasks && (u.tasks[t].Fetching? ==>
        && u.log == s.log + [Began(p.id, s.now)] && u.lock == s.lock && u.cache == s.cache
        && !(p.id in s.failed && s.now < s.failed[p.id]))
  {
  }

  lemma OthersStand(s: State, e: Step, t: Task)
    requires t in Apply(s, e).tasks && Apply(s, e).tasks[t].Fetching? && !(t in s.tasks && s.tasks[t].Fetching?)
    ensures e.Act? && e.t == t && t in s.tasks
  {
    match e
    case Act(x, result) => if x in s.tasks { TaskStepShape(s, x, s.tasks[x], result); }
    case Abort(x) =>
      if x in s.tasks {
        AbortStepShape(s, x, s.tasks[x]);
        AbortNeverFetches(s, x, s.tasks[x]);
      }
    case _ =>
  }

  lemma AbortNeverFetches(s: State, t: Task, p: Phase)
    requires t in s.tasks && s.tasks[t] == p
    ensures var u := AbortStep(s, t, p);
      t in u.tasks && (u.tasks[t].Fetching? ==> p.Fetching?)
  {
  }

  /** A task starts to fetch under the lock, for a track neither cached nor cooling down, and that is noted. */
  lemma FetchIsNoted(s: State, e: Step, t: Task)
    requires Reachable(s) && t in Apply(s, e).tasks && Apply(s, e).tasks[t].Fetching?
    requires !(t in s.tasks && s.tasks[t].Fetching?)
    ensures var u, id := Apply(s, e), Apply(s, e).tasks[t].id;
      && u.log == s.log + [Began(id, s.now)] && u.lock == Some(t) && id !in u.cache
      && !(id in s.failed && s.now < s.failed[id])
  {
    ReachableInv(s);
    OthersStand(s, e, t);
    FetchStartsFrom(s, t, s.tasks[t], e.result);
    FetchStarts(s, t, s.tasks[t], e.result);
  }

  // ----- A task on its own -----

  /** `t` acts `n` times in a row, its fetch returning `result` if it makes one. */
  function Acts(s: State, t: Task, result: Result, n: nat): State
    decreases n
  {
    if n == 0 then s else Acts(Apply(s, Act(t, result)), t, result, n - 1)
  }

  lemma {:induction false} ActsAdd(s: State, t: Task, result: Result, m: nat, n: nat)
    ensures Acts(s, t, result, m + n) == Acts(Acts(s, t, result, m), t, result, n)
    decreases m
  {
    if m > 0 {
      ActsAdd(Apply(s, Act(t, result)), t, result, m - 1, n);
    }
  }

  /** (`three` is a parameter so that the verifier does not unfold `Acts` on a number.) */
  lemma ThreeActs(s: State, t: Task, result: Result, three: nat)
    requires three == 3
    ensures Acts(s, t, result, three) == Apply(Apply(Apply(s, Act(t, result)), Act(t, result)), Act(t, result))
  {
    var s1 := Apply(s, Act(t, result));
    var s2 := Apply(s1, Act(t, result));
    assert Acts(s, t, result, three) == Acts(s1, t, result, three - 1);
    assert Acts(s1, t, result, three - 1) == Acts(s2, t, result, three - 2);
    assert Acts(s2, t, result, three - 2) == Acts(Apply(s2, Act(t, result)), t, result, three - 3);
  }

  /** A task whose track is cached is done at once, with its path. */
  lemma CachedIsReady(s: State, t: Task, id: Id, ignored: Result)
    requires t !in s.tasks && id in s.cache
    ensures var u := Apply(Apply(s, Spawn(t, id)), Act(t, ignored));
      u == s.(tasks := s.tasks[t := Done(id, Ready(s.cache[id]))])
  {
    assert s.tasks[t := Started(id)][t := Done(id, Ready(s.cache[id]))] == s.tasks[t := Done(id, Ready(s.cache[id]))];
  }

  /** One whose track is cooling down is turned away. */
  lemma CoolingIsBusy(s: State, t: Task, id: Id, ignored: Result)
    requires t !in s.tasks && id !in s.cache && id in s.failed && s.now < s.failed[id]
    ensures var u := Apply(Apply(Apply(s, Spawn(t, id)), Act(t, ignored)), Act(t, ignored));
      u.tasks[t] == Done(id, Busy) && u.log == s.log && u.inFlight == s.inFlight && u.lock == s.lock
  {
  }

  /** A follower that wakes to nothing cached is turned away, else it gets the path. */
  lemma WokenLooks(s: State, t: Task, ignored: Result)
    requires t in s.tasks && s.tasks[t].Woken?
    ensures var id := s.tasks[t].id;
      Apply(s, Act(t, ignored)).tasks[t] == Done(id, if id in s.cache then Ready(s.cache[id]) else Busy)
  {
  }

  /** One whose track is in flight follows its leader, and changes nothing else. */
  lemma SecondFollows(s: State, t: Task, id: Id, ignored: Result, three: nat)
    requires three == 3 && t in s.tasks && s.tasks[t] == Started(id)
    requires id !in s.cache && !(id in s.failed && s.now < s.failed[id]) && id in s.inFlight
    ensures var u := Acts(s, t, ignored, three);
      && t in u.tasks && u.tasks[t] == Following(id, s.inFlight[id]) && u.inFlight == s.inFlight
      && u.open == s.open && u.lock == s.lock && u.cache == s.cache && u.log == s.log
  {
    ThreeActs(s, t, ignored, three);
    var s1 := Apply(s, Act(t, ignored));
    assert s1.tasks[t] == Missed(id);
    var s2 := Apply(s1, Act(t, ignored));
    assert s2.tasks[t] == Allowed(id);
  }

  /** A leader that gets the lock looks again: what has been cached meanwhile is its result, without a fetch. */
  lemma LateHitIsReady(s: State, t: Task, ignored: Result)
    requires t in s.tasks && s.tasks[t].Locked? && s.tasks[t].id in s.cache
    ensures var id := s.tasks[t].id;
      Apply(s, Act(t, ignored)) == s.(tasks := s.tasks[t := Fetched(id, Ready(s.cache[id]))])
  {
  }

  /** And a cooldown begun meanwhile turns it away, without a fetch. */
  lemma LateCoolingIsBusy(s: State, t: Task, ignored: Result)
    requires t in s.tasks && s.tasks[t].MissedAgain?
    requires s.tasks[t].id in s.failed && s.now < s.failed[s.tasks[t].id]
    ensures var u := Apply(s, Act(t, ignored));
      u.tasks == s.tasks[t := Fetched(s.tasks[t].id, Busy)] && u.log == s.log && u.cache == s.cache
  {
  }

  /** A leader dropped at an await records nothing, gives the lock back if it had it, and leaves through its guard. */
  lemma AbortedLeaves(s: State, t: Task)
    requires t in s.tasks && (s.tasks[t].Waiting? || s.tasks[t].Fetching?)
    ensures Apply(s, Abort(t)) == s.(tasks := s.tasks[t := Finished(s.tasks[t].id, Busy)],
                                     lock := if s.tasks[t].Fetching? then None else s.lock)
  {
  }

  /** What stands once a lone task has reached the lock, has fetched, and is done. */
  predicate Alone(s: State, u: State, t: Task, p: Phase, inFlight: map<Id, Task>, open: set<Task>, lock: Option<Task>) {
    && u.now == s.now && t in u.tasks && u.tasks[t] == p && u.inFlight == inFlight && u.open == open && u.lock == lock
    && u.evicted == s.evicted
  }

  lemma LoneJoins(s: State, t: Task, id: Id, result: Result, three: nat)
    requires three == 3
    requires t in s.tasks && s.tasks[t] == Started(id)
    requires id !in s.cache && id !in s.inFlight && !RecentlyFailed(s.failed, id, s.now)
    ensures var u := Acts(s, t, result, three);
      && Alone(s, u, t, Waiting(id), s.inFlight[id := t], s.open + {t}, s.lock)
      && u.log == s.log && u.cache == s.cache && !RecentlyFailed(u.failed, id, u.now)
      && u.failed == Pruned(s.failed, s.now)
  {
    ThreeActs(s, t, result, three);
    var s1 := Apply(s, Act(t, result));
    assert s1.tasks[t] == Missed(id);
    var s2 := Apply(s1, Act(t, result));
    assert s2.tasks[t] == Allowed(id);
  }

  lemma LoneBegins(s: State, t: Task, id: Id, result: Result, three: nat)
    requires three == 3
    requires t in s.tasks && s.tasks[t] == Waiting(id) && s.lock.None?
    requires id !in s.cache && !RecentlyFailed(s.failed, id, s.now)
    ensures var u := Acts(s, t, result, three);
      && Alone(s, u, t, Fetching(id), s.inFlight, s.open, Some(t))
      && u.log == s.log + [Began(id, s.now)] && u.cache == s.cache && u.failed == Pruned(s.failed, s.now)
  {
    ThreeActs(s, t, result, three);
    var s1 := Apply(s, Act(t, result));
    assert s1.tasks[t] == Locked(id);
    var s2 := Apply(s1, Act(t, result));
    assert s2.tasks[t] == MissedAgain(id);
  }

  /** The log and the failure map after an outcome, in numbers. */
  predicate Remembers(s: State, u: State, id: Id, result: Result) {
    match result
    case Ready(_) => u.log == s.log && u.failed == s.failed - {id}
    case NoSource => u.log == s.log + [FailedAt(id, s.now, 600_000)] && u.failed == s.failed[id := s.now + 600_000]
    case FetchFailed => u.log == s.log + [FailedAt(id, s.now, 30_000)] && u.failed == s.failed[id := s.now + 30_000]
    case Busy => u.log == s.log && u.failed == s.failed
  }

  lemma LoneFetches(s: State, t: Task, id: Id, result: Result, three: nat)
    requires three == 3
    requires t in s.tasks && s.tasks[t] == Fetching(id) && !result.Busy?
    ensures var u := Acts(s, t, result, three);
      && Alone(s, u, t, Finished(id, result), s.inFlight, s.open, None)
      && u.cache == (if result.Ready? then s.cache[id := result.path] else s.cache) && Remembers(s, u, id, result)
  {
    ThreeActs(s, t, result, three);
    var s1 := Apply(s, Act(t, result));
    assert s1.tasks[t] == Fetched(id, result);
    var s2 := Apply(s1, Act(t, result));
    assert s2.tasks[t] == Unlocked(id, result) && s2.log == s.log && s2.failed == s.failed && s2.now == s.now;
    OutcomeIsRecorded(s2, t, result);
  }

  lemma LoneLeaves(s: State, t: Task, id: Id, result: Result, r: Result, three: nat)
    requires three == 3
    requires t in s.tasks && s.tasks[t] == Finished(id, r)
    ensures var u := Acts(s, t, result, three);
      && Alone(s, u, t, Done(id, r), s.inFlight - {id}, s.open - {t}, s.lock)
      && u.cache == s.cache && u.log == s.log && u.failed == s.failed
  {
    ThreeActs(s, t, result, three);
    var s1 := Apply(s, Act(t, result));
    assert s1.tasks[t] == Unregistered(id, r);
    var s2 := Apply(s1, Act(t, result));
    assert s2.tasks[t] == Done(id, r);
  }

  /** From the lock on. */
  lemma LoneWork(s: State, t: Task, id: Id, result: Result, three: nat)
    requires three == 3 && t in s.tasks && s.tasks[t] == Waiting(id) && s.lock.None?
    requires id !in s.cache && !RecentlyFailed(s.failed, id, s.now) && !result.Busy?
    ensures var u := Acts(s, t, result, three + three);
      && Alone(s, u, t, Finished(id, result), s.inFlight, s.open, None)
      && u.cache == (if result.Ready? then s.cache[id := result.path] else s.cache)
      && u.log == s.log + [Began(id, s.now)] + Failures(id, s.now, result)
  {
    ActsAdd(s, t, result, three, three);
    LoneBegins(s, t, id, result, three);
    LoneFetches(Acts(s, t, result, three), t, id, result, three);
    assert s.log + [Began(id, s.now)] + [] == s.log + [Began(id, s.now)];
  }

  /** What a result adds to the log. */
  function Failures(id: Id, now: int, result: Result): seq<Event> {
    match result
    case NoSource => [FailedAt(id, now, 600_000)]
    case FetchFailed => [FailedAt(id, now, 30_000)]
    case _ => []
  }

  lemma LoneRest(s: State, t: Task, id: Id, result: Result, three: nat)
    requires three == 3 && t in s.tasks && s.tasks[t] == Waiting(id) && s.lock.None?
    requires id !in s.cache && !RecentlyFailed(s.failed, id, s.now) && !result.Busy?
    ensures var u := Acts(s, t, result, (three + three) + three);
      && Alone(s, u, t, Done(id, result), s.inFlight - {id}, s.open - {t}, None)
      && u.cache == (if result.Ready? then s.cache[id := result.path] else s.cache)
      && u.log == s.log + [Began(id, s.now)] + Failures(id, s.now, result)
  {
    ActsAdd(s, t, result, three + three, three);
    LoneWork(s, t, id, result, three);
    LoneLeaves(Acts(s, t, result, three + three), t, id, result, result, three);
  }

  /**
   A task nobody gets in the way of, of a track that is neither cached, in flight nor cooling down: it fetches
   once, ends with what the fetch returned, has that cached or recorded, and leaves no other trace.
   */
  lemma LoneTask(s: State, t: Task, id: Id, result: Result, three: nat)
    requires t !in s.tasks && t !in s.open && id !in s.cache && id !in s.inFlight && s.lock.None?
    requires !(id in s.failed && s.now < s.failed[id]) && !result.Busy? && three == 3
    ensures var u := Acts(Apply(s, Spawn(t, id)), t, result, three + ((three + three) + three));
      && Alone(s, u, t, Done(id, result), s.inFlight, s.open, None)
      && u.cache == (if result.Ready? then s.cache[id := result.path] else s.cache)
      && u.log == s.log + [Began(id, s.now)] + Failures(id, s.now, result)
  {
    var s0 := Apply(s, Spawn(t, id));
    ActsAdd(s0, t, result, three, (three + three) + three);
    LoneJoins(s0, t, id, result, three);
    LoneRest(Acts(s0, t, result, three), t, id, result, three);
    assert s.inFlight[id := t] - {id} == s.inFlight;
    assert s.open + {t} - {t} == s.open;
  }

  /** A failure entry that has not expired belongs to a track that is not cached. */
  lemma FailedIsNotCached(s: State, id: Id)
    requires Reachable(s) && RecentlyFailed(s.failed, id, s.now)
    ensures id !in s.cache
  {
    ReachableInv(s);
    var i :| 0 <= i < |s.log| && s.log[i].FailedAt? && s.log[i].id == id &&
      s.log[i].at + s.log[i].cooldown == s.failed[id];
    assert id in s.cache ==> Cooled(s.log, id, s.now);
  }

  /**
   Single flight: an id is in flight exactly while one task leads it, at most one task works under the
   download lock over all ids, and a guard about to drop finds its own entry, never a successor's.
   */
  lemma SingleFlight(s: State, t: Task, x: Task)
    requires Reachable(s) && t in s.tasks && x in s.tasks
    ensures Leads(s.tasks[t]) && Leads(s.tasks[x]) && s.tasks[t].id == s.tasks[x].id ==> t == x
    ensures Holds(s.tasks[t]) && Holds(s.tasks[x]) ==> t == x
    ensures Leads(s.tasks[t]) ==> s.tasks[t].id in s.inFlight && s.inFlight[s.tasks[t].id] == t
  {
    ReachableInv(s);
  }

  lemma InFlightHasLeader(s: State, id: Id)
    requires Reachable(s)
    ensures id in s.inFlight <==> exists t :: t in s.tasks && Leads(s.tasks[t]) && s.tasks[t].id == id
  {
    ReachableInv(s);
    if id in s.inFlight {
      assert s.inFlight[id] in s.tasks;
    }
  }

  /**
   No wake-up is lost: once the leader is done its channel is closed, and a follower that then looks
   gets the leader's path, unless the track has been evicted.
   */
  lemma FollowerGetsLeadersPath(s: State, t: Task, ignored: Result)
    requires Reachable(s) && t in s.tasks && s.tasks[t].Following?
    requires s.tasks[t].leader in s.tasks && s.tasks[s.tasks[t].leader].Done?
    ensures s.tasks[t].leader !in s.open
    ensures var leader := s.tasks[s.tasks[t].leader];
      leader.result.Ready? && leader.id !in s.evicted ==>
        Apply(Apply(s, Act(t, ignored)), Act(t, ignored)).tasks[t] == Done(leader.id, leader.result)
  {
    ReachableInv(s);
  }
}
