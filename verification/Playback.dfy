/**
 The playback controller: Spotify polls, finished prepares, the admin switch and togedemon connections
 all move one stream. Each of them is one atomic step here. `cached` is the outcome of the cache lookup
 the program makes for the track concerned.
 */
module Playback {
  import opened Prelude

  type Id = string

  const SEEK_DRIFT_MS: int := 3000
  const NEW_TRACK_INTRO_GRACE_MS: int := 2500

  /** A poll that found a track. */
  datatype Spotify = Spotify(track: Id, progress: int, isPlaying: bool)

  /** The track whose file is streaming and where it was started. */
  datatype Playing = Playing(track: Id, seekMs: int)

  datatype Player = Player(
    current: Option<Spotify>,  // latest poll, None while nothing is playing
    enabled: bool,             // the admin's player switch
    live: bool,                // a togedemon is connected
    file: Option<Playing>,     // Some while a cached file feeds the stream
    generation: nat,           // counts pipes retired
    lastTrack: Option<Id>,     // the monitor's own memory of its previous poll
    lastPlaying: bool,
    lastProgress: int,
    lastPoll: int)

  // ----- Building blocks -----

  function EffectiveSeek(progress: int): int {
    if progress < NEW_TRACK_INTRO_GRACE_MS then 0 else progress
  }

  function Swap(p: Player, file: Option<Playing>): Player {
    p.(generation := p.generation + 1, file := file)
  }

  predicate Playable(p: Player, s: Spotify) {
    s.isPlaying && !p.live && p.enabled
  }

  function MaybePlay(p: Player, s: Spotify): Player {
    if Playable(p, s) then Swap(p, Some(Playing(s.track, EffectiveSeek(s.progress)))) else p
  }

  function StopUnlessLive(p: Player): Player {
    if p.live then p else Swap(p, None)
  }

  function SwitchTrack(p: Player, s: Spotify, cached: bool): Player {
    if cached && Playable(p, s) then MaybePlay(p, s) else StopUnlessLive(p)
  }

  /** How far the reported progress is from what the clock predicts. */
  function Drift(p: Player, s: Spotify, now: int): int {
    var d := s.progress - p.lastProgress - (if p.lastPlaying then now - p.lastPoll else 0);
    if d < 0 then -d else d
  }

  function PollSameTrack(p: Player, s: Spotify, now: int, cached: bool): Player {
    var q := if Drift(p, s, now) > SEEK_DRIFT_MS && cached then MaybePlay(p, s) else p;
    if s.isPlaying != p.lastPlaying then
      if s.isPlaying then (if cached then MaybePlay(q, s) else q) else StopUnlessLive(q)
    else if q.file.None? && cached then MaybePlay(q, s)
    else q
  }

  function Remember(p: Player, s: Spotify, now: int): Player {
    p.(lastTrack := Some(s.track), lastPlaying := s.isPlaying, lastProgress := s.progress, lastPoll := now)
  }

  // ----- The steps -----

  datatype Action =
    | Poll(result: Option<Spotify>, now: int, cached: bool)
    | Prepared(track: Id)
    | Connect
    | Disconnect(cached: bool)
    | Switch(on: bool, cached: bool)

  function PollStep(p: Player, result: Option<Spotify>, now: int, cached: bool): Player {
    match result
    case None =>
      var q := p.(current := None);
      if p.lastTrack.Some? then StopUnlessLive(q).(lastTrack := None, lastPlaying := false) else q
    case Some(s) =>
      var q := p.(current := Some(s));
      Remember(if p.lastTrack != Some(s.track)
        then SwitchTrack(q, s, cached) else PollSameTrack(q, s, now, cached), s, now)
  }

  function PreparedStep(p: Player, track: Id): Player {
    if p.current.Some? && p.current.value.track == track && p.file.None? then MaybePlay(p, p.current.value) else p
  }

  function ConnectStep(p: Player): Player {
    if p.enabled then Swap(p.(live := true), None) else p
  }

  /** The live togedemon goes away: back to the cache. */
  function DisconnectStep(p: Player, cached: bool): Player {
    if !p.live then p
    else
      var q := Swap(p.(live := false), None);
      if q.current.Some? then SwitchTrack(q, q.current.value, cached) else q
  }

  function SwitchStep(p: Player, on: bool, cached: bool): Player {
    if on then
      var q := p.(enabled := true);
      if q.current.Some? && cached then MaybePlay(q, q.current.value) else q
    else Swap(p.(enabled := false, live := false), None)
  }

  function Apply(p: Player, a: Action): Player {
    match a
    case Poll(result, now, cached) => PollStep(p, result, now, cached)
    case Prepared(track) => PreparedStep(p, track)
    case Connect => ConnectStep(p)
    case Disconnect(cached) => DisconnectStep(p, cached)
    case Switch(on, cached) => SwitchStep(p, on, cached)
  }

  function Run(p: Player, actions: seq<Action>): Player
    decreases |actions|
  {
    if actions == [] then p else Run(Apply(p, actions[0]), actions[1..])
  }

  function Initial(enabled: bool): Player {
    Player(None, enabled, false, None, 0, None, false, 0, 0)
  }

  // ----- The object -----

  class Controller {
    var current: Option<Spotify>
    var enabled: bool
    var live: bool
    var file: Option<Playing>
    var generation: nat
    var lastTrack: Option<Id>
    var lastPlaying: bool
    var lastProgress: int
    var lastPoll: int

    ghost function View(): Player
      reads this
    {
      Player(current, enabled, live, file, generation, lastTrack, lastPlaying, lastProgress, lastPoll)
    }

    constructor (enabled: bool)
      ensures View() == Initial(enabled)
    {
      this.enabled := enabled;
      current, live, file, generation := None, false, None, 0;
      lastTrack, lastPlaying, lastProgress, lastPoll := None, false, 0, 0;
    }

    method SwapPipe(next: Option<Playing>)
      modifies this`generation, this`file
      ensures View() == Swap(old(View()), next)
    {
      generation := generation + 1;
      file := next;
    }

    method MaybePlayFile(s: Spotify) returns (play: bool)
      modifies this`generation, this`file
      ensures play == Playable(old(View()), s)
      ensures View() == MaybePlay(old(View()), s)
    {
      play := s.isPlaying && !live && enabled;
      if play {
        SwapPipe(Some(Playing(s.track, EffectiveSeek(s.progress))));
      }
    }

    method SwitchTo(s: Spotify, cached: bool)
      modifies this`generation, this`file
      ensures View() == SwitchTrack(old(View()), s, cached)
    {
      var played := false;
      if cached {
        played := MaybePlayFile(s);
      }
      if !played && !live {
        SwapPipe(None);
      }
    }

    /** Seeks, pauses and resumes, and silence where there should be sound. */
    method OnSameTrack(s: Spotify, now: int, cached: bool)
      modifies this`generation, this`file
      ensures View() == PollSameTrack(old(View()), s, now, cached)
    {
      var elapsed := if lastPlaying then now - lastPoll else 0;
      var d := s.progress - lastProgress - elapsed;
      var drift := if d < 0 then -d else d;
      if drift > SEEK_DRIFT_MS && cached {
        var _ := MaybePlayFile(s);
      }
      if s.isPlaying != lastPlaying {
        if s.isPlaying {
          if cached {
            var _ := MaybePlayFile(s);
          }
        } else if !live {
          SwapPipe(None);
        }
      } else if file.None? && cached {
        var _ := MaybePlayFile(s);
      }
    }

    method OnPoll(result: Option<Spotify>, now: int, cached: bool)
      modifies this
      ensures View() == PollStep(old(View()), result, now, cached)
    {
      if result.None? {
        current := None;
        if lastTrack.Some? {
          lastTrack := None;
          if !live {
            SwapPipe(None);
          }
          lastPlaying := false;
        }
        return;
      }
      var s := result.value;
      current := Some(s);
      if lastTrack != Some(s.track) {
        SwitchTo(s, cached);
        lastTrack := Some(s.track);
      } else {
        OnSameTrack(s, now, cached);
      }
      lastProgress, lastPoll, lastPlaying := s.progress, now, s.isPlaying;
    }

    method OnPrepared(track: Id)
      modifies this
      ensures View() == PreparedStep(old(View()), track)
    {
      if current.Some? && current.value.track == track && file.None? {
        var _ := MaybePlayFile(current.value);
      }
    }

    method OnConnect() returns (accepted: bool)
      modifies this
      ensures accepted == old(enabled)
      ensures View() == ConnectStep(old(View()))
    {
      if !enabled {
        return false;
      }
      live := true;
      SwapPipe(None);
      return true;
    }

    method OnDisconnect(cached: bool)
      modifies this
      ensures View() == DisconnectStep(old(View()), cached)
    {
      if live {
        live := false;
        SwapPipe(None);
        if current.Some? {
          SwitchTo(current.value, cached);
        }
      }
    }

    method OnSwitch(on: bool, cached: bool)
      modifies this
      ensures View() == SwitchStep(old(View()), on, cached)
    {
      enabled := on;
      if on {
        if current.Some? && cached {
          var _ := MaybePlayFile(current.value);
        }
      } else {
        live := false;
        SwapPipe(None);
      }
    }
  }

  // ----- What every run keeps -----

  /** A streaming file means player on, no togedemon, Spotify playing, and the file is the current track's. */
  predicate FileInv(p: Player) {
    p.file.Some? ==>
      p.enabled && !p.live && p.current.Some? && p.current.value.isPlaying &&
        p.current.value.track == p.file.value.track
  }

  /** The monitor's memory matches what it last published. */
  predicate MemoryInv(p: Player) {
    match p.current
    case None => p.lastTrack.None?
    case Some(s) => p.lastTrack == Some(s.track) && p.lastPlaying == s.isPlaying
  }

  predicate Inv(p: Player) {
    FileInv(p) && MemoryInv(p) && (p.live ==> p.enabled)
  }

  lemma StepKeeps(p: Player, a: Action)
    requires Inv(p)
    ensures Inv(Apply(p, a))
  {
  }

  lemma {:induction false} RunKeeps(p: Player, actions: seq<Action>)
    requires Inv(p)
    ensures Inv(Run(p, actions))
    decreases |actions|
  {
    if actions != [] {
      StepKeeps(p, actions[0]);
      RunKeeps(Apply(p, actions[0]), actions[1..]);
    }
  }

  /**
   On every run of polls, finished prepares, switches and togedemon connections, a cached file streams
   only while the player is on, no togedemon is live, Spotify is playing, and the file is that track's.
   */
  lemma FileOnlyWhenItShould(enabled: bool, actions: seq<Action>)
    ensures var p := Run(Initial(enabled), actions);
      p.file.Some? ==> p.current.Some? && Playable(p, p.current.value) && p.file.value.track == p.current.value.track
  {
    RunKeeps(Initial(enabled), actions);
  }

  /** The reported progress is more than 3 s from what the last poll and the clock predict. */
  predicate Seeked(p: Player, s: Spotify, now: int) {
    var predicted := p.lastProgress + (if p.lastPlaying then now - p.lastPoll else 0);
    s.progress > predicted + 3000 || s.progress < predicted - 3000
  }

  /** A file of the track from where Spotify is, or from the beginning within the first 2.5 s. */
  predicate StartsRight(f: Option<Playing>, s: Spotify) {
    f == Some(Playing(s.track, if s.progress < 2500 then 0 else s.progress))
  }

  /** Exactly what a poll leaves streaming. */
  predicate AfterPoll(p: Player, s: Spotify, now: int, cached: bool, file: Option<Playing>) {
    if p.live || !p.enabled || !s.isPlaying then file.None?
    else if cached && (p.lastTrack != Some(s.track) || Seeked(p, s, now) || !p.lastPlaying || p.file.None?)
    then StartsRight(file, s)
    else if p.lastTrack == Some(s.track) then file == p.file
    else file.None?
  }

  /** From any state a run can reach, a poll leaves streaming what `AfterPoll` says. */
  lemma PollDecidesFile(enabled: bool, actions: seq<Action>, s: Spotify, now: int, cached: bool)
    ensures var p := Run(Initial(enabled), actions);
      AfterPoll(p, s, now, cached, PollStep(p, Some(s), now, cached).file)
  {
    RunKeeps(Initial(enabled), actions);
  }

  /** After every poll that is playing, cached, enabled and not live, that track's file is streaming. */
  lemma PollStartsFile(enabled: bool, actions: seq<Action>, s: Spotify, now: int)
    ensures var p := Run(Initial(enabled), actions);
      var q := PollStep(p, Some(s), now, true);
      Playable(p, s) ==> q.file.Some? && q.file.value.track == s.track
  {
    RunKeeps(Initial(enabled), actions);
  }

  /** So does a finished prepare, a disconnect or a switch-on, for the track then current. */
  lemma OtherStartsFile(enabled: bool, actions: seq<Action>, a: Action)
    ensures var p := Run(Initial(enabled), actions);
      var q := Apply(p, a);
      (q.current.Some? && Playable(q, q.current.value) &&
       (a == Prepared(q.current.value.track) || a == Switch(true, true) || (p.live && a == Disconnect(true))))
      ==> q.file.Some? && q.file.value.track == q.current.value.track
  {
    RunKeeps(Initial(enabled), actions);
  }

  /**
   Listeners are cut off only for a reason: a poll retires the pipe if and only if the track changed
   (and nothing live), playback was paused, or a file is started because of a new track, a seek, a
   resume or silence.
   */
  lemma PollInterruptsIff(p: Player, s: Spotify, now: int, cached: bool)
    ensures var q := PollStep(p, Some(s), now, cached);
      var same := p.lastTrack == Some(s.track);
      q.generation >= p.generation &&
      (q.generation != p.generation <==>
        !p.live && (!same || (p.lastPlaying && !s.isPlaying) ||
                    (cached && Playable(p, s) && (Seeked(p, s, now) || !p.lastPlaying || p.file.None?))))
  {
  }

  /** What else retires the pipe, and when. */
  predicate Interrupts(p: Player, a: Action) {
    match a
    case Poll(result, _, _) => result.None? && p.lastTrack.Some? && !p.live
    case Prepared(track) =>
      p.file.None? && !p.live && p.enabled &&
      p.current.Some? && p.current.value.track == track && p.current.value.isPlaying
    case Connect => p.enabled
    case Disconnect(_) => p.live
    case Switch(on, cached) => !on || (cached && p.current.Some? && p.current.value.isPlaying && !p.live)
  }

  lemma OthersInterruptIff(p: Player, a: Action)
    requires a.Poll? ==> a.result.None?
    ensures Apply(p, a).generation > p.generation <==> Interrupts(p, a)
  {
  }

  /** Any step that starts a file starts that of the track then current, where Spotify is or from the beginning. */
  lemma StartPoint(p: Player, a: Action)
    ensures var q := Apply(p, a);
      q.generation > p.generation && q.file.Some? ==> q.current.Some? && StartsRight(q.file, q.current.value)
  {
  }

  lemma {:induction false} RunAppend(p: Player, a: seq<Action>, b: seq<Action>)
    ensures Run(p, a + b) == Run(Run(p, a), b)
    decreases |a|
  {
    if a == [] {
      assert a + b == b;
    } else {
      assert (a + b)[1..] == a[1..] + b;
      RunAppend(Apply(p, a[0]), a[1..], b);
    }
  }

  /** Between polls the monitor's memory of the last one stays. */
  lemma {:induction false} MemoryStays(p: Player, actions: seq<Action>)
    requires forall a :: a in actions ==> !a.Poll?
    ensures var q := Run(p, actions);
      && q.lastTrack == p.lastTrack && q.lastPlaying == p.lastPlaying
      && q.lastProgress == p.lastProgress && q.lastPoll == p.lastPoll
    decreases |actions|
  {
    if actions != [] {
      assert actions[0] in actions;
      MemoryStays(Apply(p, actions[0]), actions[1..]);
    }
  }

  /**
   Over any run: while a track goes on playing from its file, a poll restarts the file if and only if what it
   reports is more than 3 s from what the poll before it reported and the time between them make.
   */
  lemma SeekRestartsIff(enabled: bool, before: seq<Action>, was: Spotify, at: int, c: bool, between: seq<Action>,
                        s: Spotify, now: int)
    requires forall a :: a in between ==> !a.Poll?
    requires was.track == s.track && was.isPlaying && s.isPlaying
    ensures var p := Run(Initial(enabled), before + ([Poll(Some(was), at, c)] + between));
      var q := PollStep(p, Some(s), now, true);
      p.file.Some? ==>
        if s.progress - was.progress > now - at + 3000 || s.progress - was.progress < now - at - 3000
        then StartsRight(q.file, s) && q.generation > p.generation
        else q.file == p.file && q.generation == p.generation
  {
    var actions := before + ([Poll(Some(was), at, c)] + between);
    var p0 := Run(Initial(enabled), before);
    RunKeeps(Initial(enabled), actions);
    RunAppend(Initial(enabled), before, [Poll(Some(was), at, c)] + between);
    assert ([Poll(Some(was), at, c)] + between)[1..] == between;
    MemoryStays(Apply(p0, Poll(Some(was), at, c)), between);
  }

  /** Whenever the file or its start changes, so does the generation clients watch. */
  lemma ChangeBumpsGeneration(p: Player, a: Action)
    ensures Apply(p, a).generation >= p.generation
    ensures Apply(p, a).file != p.file || Apply(p, a).live != p.live ==> Apply(p, a).generation > p.generation
  {
  }

  // ----- Plays whose check and swap are apart -----

  /** The two reads of the check of `MaybePlay` come one after the other. */
  datatype Stage = Held | NotLive | Passed

  /**
   A play under way beside the controller's own steps: the track was read off the current poll, later no
   togedemon was seen live, later still the player was seen on, and at last the pipe is swapped. `since`,
   `sinceLive` and `sinceOn` are what happened after each reading; `on` is whether the player was on at the
   second.
   */
  datatype Waiting = Waiting(s: Spotify, stage: Stage, since: seq<Action>, sinceLive: seq<Action>, on: bool,
                             sinceOn: seq<Action>)

  datatype Split = Split(player: Player, waiting: map<nat, Waiting>)

  datatype SplitStep =
    | Whole(a: Action)
    | Read(t: nat)
    | CheckLive(t: nat)
    | CheckOn(t: nat)
    | Finish(t: nat)

  function Later(w: Waiting, a: Action): Waiting {
    w.(since := w.since + [a], sinceLive := w.sinceLive + [a], sinceOn := w.sinceOn + [a])
  }

  function Start(w: Waiting): Playing {
    Playing(w.s.track, EffectiveSeek(w.s.progress))
  }

  function CheckLiveStep(x: Split, t: nat, w: Waiting): Split {
    if w.s.isPlaying && !x.player.live then
      x.(waiting := x.waiting[t := w.(stage := NotLive, sinceLive := [], on := x.player.enabled)])
    else x.(waiting := x.waiting - {t})
  }

  function CheckOnStep(x: Split, t: nat, w: Waiting): Split {
    if x.player.enabled then x.(waiting := x.waiting[t := w.(stage := Passed, sinceOn := [])])
    else x.(waiting := x.waiting - {t})
  }

  function SplitApply(x: Split, e: SplitStep): Split {
    match e
    case Whole(a) => Split(Apply(x.player, a), map t | t in x.waiting :: Later(x.waiting[t], a))
    case Read(t) =>
      if t !in x.waiting && x.player.current.Some? then
        x.(waiting := x.waiting[t := Waiting(x.player.current.value, Held, [], [], false, [])])
      else x
    case CheckLive(t) => if t in x.waiting && x.waiting[t].stage.Held? then CheckLiveStep(x, t, x.waiting[t]) else x
    case CheckOn(t) => if t in x.waiting && x.waiting[t].stage.NotLive? then CheckOnStep(x, t, x.waiting[t]) else x
    case Finish(t) =>
      if t in x.waiting && x.waiting[t].stage.Passed? then
        Split(Swap(x.player, Some(Start(x.waiting[t]))), x.waiting - {t})
      else x
  }

  function SplitRun(x: Split, steps: seq<SplitStep>): Split
    decreases |steps|
  {
    if steps == [] then x else SplitRun(SplitApply(x, steps[0]), steps[1..])
  }

  // What a stretch of events leaves behind, read off the events alone.

  /** The last poll among them found something else than `track` playing. */
  predicate MovedOn(events: seq<Action>, track: Id) {
    events != [] &&
    match events[|events| - 1]
    case Poll(result, _, _) => result.None? || result.value.track != track || !result.value.isPlaying
    case _ => MovedOn(events[..|events| - 1], track)
  }

  /** The last switch among them was off; `on` says how the player stood before them. */
  predicate SwitchedOff(events: seq<Action>, on: bool) {
    if events == [] then !on
    else
      match events[|events| - 1]
      case Switch(now, _) => !now
      case _ => SwitchedOff(events[..|events| - 1], on)
  }

  /** A togedemon connected while the player was on, and has neither gone nor been switched off since. */
  predicate TakenOver(events: seq<Action>, on: bool) {
    events != [] &&
    var before := events[..|events| - 1];
    match events[|events| - 1]
    case Connect => !SwitchedOff(before, on) || TakenOver(before, on)
    case Disconnect(_) => false
    case Switch(now, _) => now && TakenOver(before, on)
    case _ => TakenOver(before, on)
  }

  /** The swap comes too late: what was read for it no longer holds. */
  predicate Overtaken(w: Waiting) {
    MovedOn(w.since, w.s.track) || TakenOver(w.sinceLive, w.on) || SwitchedOff(w.sinceOn, true)
  }

  predicate Follows(p: Player, w: Waiting) {
    && (w.s.isPlaying ==>
          (MovedOn(w.since, w.s.track) <==>
             !(p.current.Some? && p.current.value.track == w.s.track && p.current.value.isPlaying)))
    && (!w.stage.Held? ==>
          w.s.isPlaying && p.enabled == !SwitchedOff(w.sinceLive, w.on) && p.live == TakenOver(w.sinceLive, w.on))
    && (w.stage.Passed? ==> p.enabled == !SwitchedOff(w.sinceOn, true))
  }

  predicate SplitInv(x: Split) {
    Inv(x.player) && forall t :: t in x.waiting ==> Follows(x.player, x.waiting[t])
  }

  lemma SinceAppend(since: seq<Action>, track: Id, a: Action)
    ensures MovedOn(since + [a], track) <==>
      if a.Poll? then a.result.None? || a.result.value.track != track || !a.result.value.isPlaying
        else MovedOn(since, track)
  {
    assert (since + [a])[..|since|] == since;
  }

  lemma LaterAppend(events: seq<Action>, on: bool, a: Action)
    ensures SwitchedOff(events + [a], on) <==> if a.Switch? then !a.on else SwitchedOff(events, on)
    ensures TakenOver(events + [a], on) <==>
      match a
      case Connect => !SwitchedOff(events, on) || TakenOver(events, on)
      case Disconnect(_) => false
      case Switch(now, _) => now && TakenOver(events, on)
      case _ => TakenOver(events, on)
  {
    assert (events + [a])[..|events|] == events;
  }

  /** What one step does to the three things a play depends on. */
  lemma ApplyFlags(p: Player, a: Action)
    ensures var q := Apply(p, a);
      && q.current == (if a.Poll? then a.result else p.current)
      && q.enabled == (if a.Switch? then a.on else p.enabled)
      && q.live == match a
                   case Connect => p.enabled || p.live
                   case Disconnect(_) => false
                   case Switch(on, _) => on && p.live
                   case _ => p.live
  {
  }

  lemma LaterFollows(p: Player, w: Waiting, a: Action)
    requires Follows(p, w)
    ensures Follows(Apply(p, a), Later(w, a))
  {
    SinceAppend(w.since, w.s.track, a);
    LaterAppend(w.sinceLive, w.on, a);
    LaterAppend(w.sinceOn, true, a);
    ApplyFlags(p, a);
  }

  /** A swap leaves a file streaming wrongly exactly when it was overtaken. */
  lemma FinishIff(x: Split, t: nat)
    requires SplitInv(x) && t in x.waiting && x.waiting[t].stage.Passed?
    ensures Overtaken(x.waiting[t]) ==> !FileInv(SplitApply(x, Finish(t)).player)
    ensures !Overtaken(x.waiting[t]) ==> SplitInv(SplitApply(x, Finish(t)))
  {
    assert Follows(x.player, x.waiting[t]);
  }

  /** And it starts the track that was read, where Spotify was then or from the beginning. */
  lemma FinishStartsRight(x: Split, t: nat)
    requires t in x.waiting && x.waiting[t].stage.Passed?
    ensures StartsRight(SplitApply(x, Finish(t)).player.file, x.waiting[t].s)
  {
  }

  predicate TooLate(x: Split, e: SplitStep) {
    e.Finish? && e.t in x.waiting && x.waiting[e.t].stage.Passed? && Overtaken(x.waiting[e.t])
  }

  lemma SplitStepIff(x: Split, e: SplitStep)
    requires SplitInv(x)
    ensures TooLate(x, e) ==> !FileInv(SplitApply(x, e).player)
    ensures !TooLate(x, e) ==> SplitInv(SplitApply(x, e))
  {
    match e
    case Whole(a) =>
      StepKeeps(x.player, a);
      forall t | t in x.waiting ensures Follows(Apply(x.player, a), Later(x.waiting[t], a)) {
        LaterFollows(x.player, x.waiting[t], a);
      }
    case Finish(t) => if t in x.waiting && x.waiting[t].stage.Passed? { FinishIff(x, t); }
    case _ =>
  }

  /** Some point of the run swaps too late. */
  predicate AnyTooLate(x: Split, steps: seq<SplitStep>)
    decreases |steps|
  {
    steps != [] && (TooLate(x, steps[0]) || AnyTooLate(SplitApply(x, steps[0]), steps[1..]))
  }

  /** A streaming file is right at every point of the run. */
  predicate AlwaysRight(x: Split, steps: seq<SplitStep>)
    decreases |steps|
  {
    FileInv(x.player) && (steps != [] ==> AlwaysRight(SplitApply(x, steps[0]), steps[1..]))
  }

  lemma {:induction false} SplitRunIff(x: Split, steps: seq<SplitStep>)
    requires SplitInv(x)
    ensures AlwaysRight(x, steps) <==> !AnyTooLate(x, steps)
    decreases |steps|
  {
    if steps != [] {
      SplitStepIff(x, steps[0]);
      if !TooLate(x, steps[0]) {
        SplitRunIff(SplitApply(x, steps[0]), steps[1..]);
      }
    }
  }

  /**
   With the readings of a check and the swap apart, a file streams only when it should, at every point of a
   run, if and only if no swap of the run comes after a poll that found something else, a togedemon or a
   switch-off that the reading concerned was too early to see, and that nothing has undone.
   */
  lemma SplitPlaysAreRightIff(enabled: bool, steps: seq<SplitStep>)
    ensures var x := Split(Initial(enabled), map[]);
      AlwaysRight(x, steps) <==> !AnyTooLate(x, steps)
  {
    SplitRunIff(Split(Initial(enabled), map[]), steps);
  }

  /** The single actions that make a checked play wrong if they come before its swap, and no others do. */
  lemma SplitPlayBrokenByIff(p: Player, s: Spotify, a: Action)
    requires Inv(p) && p.current == Some(s) && Playable(p, s)
    ensures !FileInv(Swap(Apply(p, a), Some(Playing(s.track, EffectiveSeek(s.progress))))) <==>
      a.Connect? || (a.Switch? && !a.on) ||
      (a.Poll? && (a.result.None? || a.result.value.track != s.track || !a.result.value.isPlaying))
  {
  }

  predicate NoReads(steps: seq<SplitStep>) {
    forall e :: e in steps ==> !e.Read?
  }

  predicate NobodyPlays(x: Split) {
    forall t :: t in x.waiting ==> !x.waiting[t].s.isPlaying
  }

  lemma {:induction false} NobodyPlaysRun(x: Split, steps: seq<SplitStep>)
    requires SplitInv(x) && NobodyPlays(x) && NoReads(steps)
    ensures FileInv(SplitRun(x, steps).player)
    decreases |steps|
  {
    if steps != [] {
      assert steps[0] in steps;
      SplitStepIff(x, steps[0]);
      forall t | t in x.waiting ensures x.waiting[t].stage.Held? {
        assert Follows(x.player, x.waiting[t]);
      }
      NobodyPlaysRun(SplitApply(x, steps[0]), steps[1..]);
    }
  }

  /** The player is switched off and on, the check passes, the player is switched off again, the swap follows. */
  function LateSwap(t: nat): seq<SplitStep> {
    var off, on := Whole(Switch(false, false)), Whole(Switch(true, false));
    [off, on, CheckLive(t), CheckOn(t), off, Finish(t)]
  }

  lemma LateSwapEnds(x: Split, t: nat)
    requires t in x.waiting && x.waiting[t].s.isPlaying
    ensures var off, on := Whole(Switch(false, false)), Whole(Switch(true, false));
      var x4 := SplitApply(SplitApply(SplitApply(SplitApply(x, off), on), CheckLive(t)), CheckOn(t));
      !FileInv(SplitApply(SplitApply(x4, off), Finish(t)).player)
  {
    var off, on := Whole(Switch(false, false)), Whole(Switch(true, false));
    var x2 := SplitApply(SplitApply(x, off), on);
    assert t in x2.waiting && x2.waiting[t].s == x.waiting[t].s && x2.player.enabled && !x2.player.live;
    var x4 := SplitApply(SplitApply(x2, CheckLive(t)), CheckOn(t));
    assert t in x4.waiting && x4.waiting[t].stage.Passed?;
  }

  lemma SixSteps(x: Split, a: SplitStep, b: SplitStep, c: SplitStep, d: SplitStep, e: SplitStep, f: SplitStep)
    ensures SplitRun(x, [a, b, c, d, e, f])
         == SplitApply(SplitApply(SplitApply(SplitApply(SplitApply(SplitApply(x, a), b), c), d), e), f)
  {
    var x3 := SplitApply(SplitApply(SplitApply(x, a), b), c);
    ThreeSteps(x, a, b, c, [d, e, f]);
    assert [a, b, c, d, e, f] == [a, b, c] + [d, e, f];
    ThreeSteps(x3, d, e, f, []);
    assert [d, e, f] == [d, e, f] + [];
  }

  lemma ThreeSteps(x: Split, a: SplitStep, b: SplitStep, c: SplitStep, rest: seq<SplitStep>)
    ensures SplitRun(x, [a, b, c] + rest) == SplitRun(SplitApply(SplitApply(SplitApply(x, a), b), c), rest)
  {
    assert ([a, b, c] + rest)[1..] == [b, c] + rest;
    assert ([b, c] + rest)[1..] == [c] + rest;
    assert ([c] + rest)[1..] == rest;
    assert SplitRun(x, [a, b, c] + rest) == SplitRun(SplitApply(x, a), [b, c] + rest);
    assert SplitRun(SplitApply(x, a), [b, c] + rest) == SplitRun(SplitApply(SplitApply(x, a), b), [c] + rest);
  }

  lemma LateSwapIsWrong(x: Split, t: nat)
    requires t in x.waiting && x.waiting[t].s.isPlaying
    ensures !FileInv(SplitRun(x, LateSwap(t)).player)
  {
    var off, on := Whole(Switch(false, false)), Whole(Switch(true, false));
    SixSteps(x, off, on, CheckLive(t), CheckOn(t), off, Finish(t));
    LateSwapEnds(x, t);
  }

  lemma {:induction false} AlwaysRightAtEnd(x: Split, steps: seq<SplitStep>)
    requires AlwaysRight(x, steps)
    ensures FileInv(SplitRun(x, steps).player)
    decreases |steps|
  {
    if steps != [] {
      AlwaysRightAtEnd(SplitApply(x, steps[0]), steps[1..]);
    }
  }

  /** From the start to the swap of a play of `s`, with a togedemon connecting after the check or amid it. */
  function PlayWithConnect(s: Spotify, amid: bool): seq<SplitStep> {
    if amid then [Whole(Poll(Some(s), 0, false)), Read(0), CheckLive(0), Whole(Connect), CheckOn(0), Finish(0)]
    else [Whole(Poll(Some(s), 0, false)), Read(0), CheckLive(0), CheckOn(0), Whole(Connect), Finish(0)]
  }

  /** Both runs go wrong. */
  lemma ConnectDuringPlayIsWrong(s: Spotify, amid: bool)
    requires s.isPlaying
    ensures !AlwaysRight(Split(Initial(true), map[]), PlayWithConnect(s, amid))
  {
    var x, steps := Split(Initial(true), map[]), PlayWithConnect(s, amid);
    SixSteps(x, steps[0], steps[1], steps[2], steps[3], steps[4], steps[5]);
    if AlwaysRight(x, steps) {
      AlwaysRightAtEnd(x, steps);
    }
  }

  /**
   If nobody reads the current track any more, a file will stream only when it should, whatever happens, if
   and only if no play of a playing track is still waiting.
   */
  lemma WaitingPlaysAreSafeIff(x: Split)
    requires SplitInv(x)
    ensures (forall steps :: NoReads(steps) ==> FileInv(SplitRun(x, steps).player)) <==> NobodyPlays(x)
  {
    if NobodyPlays(x) {
      forall steps | NoReads(steps) ensures FileInv(SplitRun(x, steps).player) {
        NobodyPlaysRun(x, steps);
      }
    } else {
      var t :| t in x.waiting && x.waiting[t].s.isPlaying;
      LateSwapIsWrong(x, t);
      assert NoReads(LateSwap(t));
    }
  }
}
