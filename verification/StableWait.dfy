/** Waiting until the screen has been quiet for a window: a timed protocol between the waiter, the
    feeder, a resizer and the clock, which counts from the start of the wait. */
module StableWait {
  import opened Wrappers

  datatype Limits = Limits(window: nat, deadline: nat)

  datatype Feeder = Receiving | Owing | Ended

  /** How far the resizer holding the terminal lock has come. */
  datatype Resizer = Idle | Resized | Upgraded | Bumped

  /** The generation, and how many changes of the grid no bump has announced (for the proofs only). */
  datatype Look = Look(seen: nat, silent: nat)

  datatype Phase =
    | Looping
    | Marked(look: Look)
    | Waiting(look: Look, armedAt: nat)
    | Matched(look: Look, armedAt: nat, at: nat, end: Look)
    | Unmatched(at: nat, ended: bool)

  /** `changes` and `bumps` hold the time of every change of the grid and of every bump, so that
      |bumps| is the generation; `lost` counts the changes that will never be announced, `gone` is
      when the waiter noticed that the sender was dropped, and `slack` is how long the waiter was
      kept waiting although it had something to do (for the proofs only). */
  datatype State = State(
    now: nat,
    changes: seq<nat>,
    bumps: seq<nat>,
    lost: nat,
    feeder: Feeder,
    resizer: Resizer,
    gone: Option<nat>,
    slack: nat,
    phase: Phase)

  datatype Event =
    | Tick(d: nat)
    | Feed | FeedBump | FeederEnd
    | Resize | ResizeUpgrade | ResizeBump | ResizeDrop
    | Mark | Arm | TakeChange | TakeClosure | Fire

  function Initial(): State {
    State(0, [], [], 0, Receiving, Idle, None, 0, Looping)
  }

  /** Changes whose bump is still to come, or is about to be lost. */
  function Owed(s: State): nat {
    (if s.feeder.Owing? then 1 else 0) + (if s.resizer.Resized? || s.resizer.Upgraded? then 1 else 0)
  }

  function LookAt(s: State): Look {
    Look(|s.bumps|, Owed(s) + s.lost)
  }

  /** No strong handle to the sender is left: the feeder is gone and no resizer has upgraded. */
  predicate Closed(s: State) {
    s.feeder.Ended? && !s.resizer.Upgraded? && !s.resizer.Bumped?
  }

  /** When the timer of a waiter armed at `armedAt` fires. */
  function TimerEnd(c: Limits, armedAt: nat): nat {
    if armedAt + c.window <= c.deadline then armedAt + c.window else c.deadline
  }

  /** Start a new window unless time is up. */
  function Restart(c: Limits, s: State): State {
    s.(phase := if s.now >= c.deadline then Unmatched(s.now, s.gone.Some?) else Looping)
  }

  predicate ChangeReady(s: State) {
    s.phase.Waiting? && s.gone.None? && s.phase.look.seen != |s.bumps|
  }

  predicate ClosureReady(s: State) {
    s.phase.Waiting? && s.gone.None? && s.phase.look.seen == |s.bumps| && Closed(s)
  }

  /** How much of the next `d` units the waiter loses: all of them while it has a step to take, and
      what goes past its timer while it sleeps. */
  function Late(c: Limits, s: State, d: nat): nat {
    match s.phase
    case Matched(_, _, _, _) => 0
    case Unmatched(_, _) => 0
    case Looping => d
    case Marked(_) => d
    case Waiting(_, a) =>
      if ChangeReady(s) || ClosureReady(s) || s.now > TimerEnd(c, a) then d
      else if s.now + d <= TimerEnd(c, a) then 0
      else s.now + d - TimerEnd(c, a)
  }

  predicate IsBump(e: Event) {
    e.FeedBump? || e.ResizeBump?
  }

  predicate IsChange(e: Event) {
    e.Feed? || e.Resize?
  }

  predicate IsSession(e: Event) {
    IsBump(e) || IsChange(e) || e.FeederEnd? || e.ResizeUpgrade? || e.ResizeDrop?
  }

  /** The state after one event, or `None` where the event cannot happen. */
  function Apply(c: Limits, s: State, e: Event): Option<State> {
    if e.Tick? then Some(s.(now := s.now + e.d, slack := s.slack + Late(c, s, e.d)))
    else if IsSession(e) then ApplySession(s, e)
    else ApplyWaiter(c, s, e)
  }

  function ApplySession(s: State, e: Event): Option<State>
    requires IsSession(e)
  {
    match e
    case Feed =>
      if s.feeder.Receiving? && s.resizer.Idle? then Some(s.(feeder := Owing, changes := s.changes + [s.now]))
      else None
    case FeedBump =>
      if s.feeder.Owing? then Some(s.(feeder := Receiving, bumps := s.bumps + [s.now])) else None
    case FeederEnd => if s.feeder.Receiving? then Some(s.(feeder := Ended)) else None
    case Resize =>
      if s.resizer.Idle? then Some(s.(resizer := Resized, changes := s.changes + [s.now])) else None
    case ResizeUpgrade =>
      if !s.resizer.Resized? then None
      else if s.feeder.Ended? then Some(s.(resizer := Idle, lost := s.lost + 1))
      else Some(s.(resizer := Upgraded))
    case ResizeBump =>
      if s.resizer.Upgraded? then Some(s.(resizer := Bumped, bumps := s.bumps + [s.now])) else None
    case ResizeDrop => if s.resizer.Bumped? then Some(s.(resizer := Idle)) else None
  }

  function ApplyWaiter(c: Limits, s: State, e: Event): Option<State>
    requires !e.Tick? && !IsSession(e)
  {
    match e
    case Mark => if s.phase.Looping? then Some(s.(phase := Marked(LookAt(s)))) else None
    case Arm => if s.phase.Marked? then Some(s.(phase := Waiting(s.phase.look, s.now))) else None
    case TakeChange => if ChangeReady(s) then Some(Restart(c, s)) else None
    case TakeClosure => if ClosureReady(s) then Some(Restart(c, s.(gone := Some(s.now)))) else None
    case Fire =>
      if !s.phase.Waiting? || s.now < TimerEnd(c, s.phase.armedAt) then None
      else if s.phase.armedAt + c.window <= c.deadline then
        Some(s.(phase := Matched(s.phase.look, s.phase.armedAt, s.now, LookAt(s))))
      else Some(s.(phase := Unmatched(s.now, s.gone.Some?)))
  }

  /** The state after a run: any steps that can happen, with the clock moving at any time. */
  function Run(c: Limits, events: seq<Event>): Option<State> {
    if events == [] then Some(Initial())
    else
      var before := Run(c, events[..|events| - 1]);
      if before.None? then None else Apply(c, before.value, events[|events| - 1])
  }

  // ---------------------------------------------------------------- what lost time is

  /** The waiter has a step to take. */
  ghost predicate CanAct(c: Limits, s: State) {
    exists e :: e in {Mark, Arm, TakeChange, TakeClosure, Fire} && Apply(c, s, e).Some?
  }

  lemma CanActWhen(c: Limits, s: State)
    ensures CanAct(c, s) <==>
      || s.phase.Looping? || s.phase.Marked? || ChangeReady(s) || ClosureReady(s)
      || (s.phase.Waiting? && s.now >= TimerEnd(c, s.phase.armedAt))
  {
    var steps := {Mark, Arm, TakeChange, TakeClosure, Fire};
    assert Mark in steps && Arm in steps && TakeChange in steps && TakeClosure in steps && Fire in steps;
    hide Restart, TimerEnd, ApplySession;
    assert s.phase.Looping? ==> Apply(c, s, Mark).Some?;
    assert s.phase.Marked? ==> Apply(c, s, Arm).Some?;
    assert ChangeReady(s) ==> Apply(c, s, TakeChange).Some?;
    assert ClosureReady(s) ==> Apply(c, s, TakeClosure).Some?;
    assert s.phase.Waiting? && s.now >= TimerEnd(c, s.phase.armedAt) ==> Apply(c, s, Fire).Some?;
  }

  /** The waiter loses exactly the units of time at whose start it had a step to take: a tick of one
      unit costs it one or nothing, and a longer tick what its parts cost. */
  lemma LostTime(c: Limits, s: State, j: nat, k: nat)
    ensures Apply(c, s, Tick(1)).value.slack == s.slack + if CanAct(c, s) then 1 else 0
    ensures Apply(c, s, Tick(0)).value == s
    ensures Apply(c, Apply(c, s, Tick(j)).value, Tick(k)) == Apply(c, s, Tick(j + k))
  {
    CanActWhen(c, s);
    hide CanAct;
    var s' := Apply(c, s, Tick(j)).value;
    assert ChangeReady(s') == ChangeReady(s) && ClosureReady(s') == ClosureReady(s);
  }

  // ---------------------------------------------------------------- changes, bumps and debts

  function Total(look: Look): nat {
    look.seen + look.silent
  }

  /** Every change of the grid was announced by its bump, is owed one, or is lost. */
  ghost predicate Accounted(s: State) {
    |s.changes| == Total(LookAt(s))
  }

  ghost predicate LooksBack(s: State, look: Look) {
    look.seen <= |s.bumps| && Total(look) <= |s.changes|
  }

  /** The times up to `n` are at most `a`, and all are in the past. */
  ghost predicate Past(times: seq<nat>, n: nat, a: nat, now: nat) {
    && n <= |times|
    && (forall i :: 0 <= i < n ==> times[i] <= a)
    && (forall i :: 0 <= i < |times| ==> times[i] <= now)
  }

  /** The times from `n` on are at least `at`. */
  ghost predicate Since(times: seq<nat>, n: nat, at: nat) {
    n <= |times| && forall i :: n <= i < |times| ==> at <= times[i]
  }

  /** The times from `n` on are at most `slack` before `now`. */
  ghost predicate Recent(times: seq<nat>, n: nat, now: nat, slack: nat) {
    forall i :: n <= i < |times| ==> now <= times[i] + slack
  }

  // ---------------------------------------------------------------- the invariant

  /** A window starts with the wait, with a bump, or when the sender is found gone. */
  ghost predicate Starts(s: State, t: nat) {
    t == 0 || t in s.bumps || s.gone == Some(t)
  }

  /** `a` is no later than `slack` after a start. */
  ghost predicate StartsBefore(s: State, a: nat) {
    exists t: nat :: Starts(s, t) && t <= a <= t + s.slack
  }

  /** Some bump before `at` came too late for a whole window to pass after it. */
  ghost predicate LateBump(c: Limits, bumps: seq<nat>, at: nat, slack: nat) {
    exists t :: t in bumps && t <= at && (t + slack >= c.deadline || t + slack + c.window > c.deadline)
  }

  ghost predicate LoopHolds(c: Limits, s: State) {
    && s.now <= c.deadline + s.slack
    && StartsBefore(s, s.now)
    && (s.gone.Some? ==> s.gone.value <= s.now <= s.gone.value + s.slack && s.gone.value < c.deadline)
  }

  ghost predicate PhaseHolds(c: Limits, s: State) {
    match s.phase
    case Looping => LoopHolds(c, s)
    case Marked(look) =>
      && LoopHolds(c, s) && LooksBack(s, look)
      && Recent(s.bumps, look.seen, s.now, s.slack)
      && (s.gone.Some? ==> look.seen == |s.bumps|)
    case Waiting(look, a) =>
      && a <= s.now <= TimerEnd(c, a) + s.slack
      && StartsBefore(s, a) && LooksBack(s, look)
      && Past(s.bumps, look.seen, a, s.now) && Past(s.changes, Total(look), a, s.now)
      && Recent(s.bumps, look.seen, s.now, s.slack)
      && (s.gone.Some? ==>
            s.gone.value <= a <= s.gone.value + s.slack && s.gone.value < c.deadline && look.seen == |s.bumps|)
    case Matched(look, a, at, end) =>
      && a + c.window <= c.deadline && a + c.window <= at <= a + c.window + s.slack && at <= s.now
      && look.seen <= end.seen && Total(look) <= Total(end)
      && Past(s.bumps, look.seen, a, s.now) && Past(s.changes, Total(look), a, s.now)
      && Recent(s.bumps, look.seen, at, s.slack)
      && Since(s.bumps, end.seen, at) && Since(s.changes, Total(end), at)
      && (s.gone.Some? ==> s.gone.value <= a && s.gone.value < c.deadline)
    case Unmatched(at, ended) =>
      && c.deadline <= at <= c.deadline + s.slack && at <= s.now
      && ended == s.gone.Some?
      && (if ended then s.gone.value >= c.deadline || s.gone.value + s.slack + c.window > c.deadline
          else s.slack + c.window > c.deadline || LateBump(c, s.bumps, at, s.slack))
  }

  ghost predicate Holds(c: Limits, s: State) {
    && Accounted(s)
    && Past(s.bumps, 0, 0, s.now) && Past(s.changes, 0, 0, s.now)
    && (s.gone.Some? ==> Closed(s) && s.gone.value <= s.now)
    && PhaseHolds(c, s)
  }

  lemma StartsStay(c: Limits, s: State, s': State)
    requires s.bumps <= s'.bumps && s.gone == s'.gone && s.slack <= s'.slack
    ensures forall a: nat :: StartsBefore(s, a) ==> StartsBefore(s', a)
    ensures forall at: nat :: LateBump(c, s.bumps, at, s.slack) ==> LateBump(c, s'.bumps, at, s'.slack)
  {
    assert forall t :: t in s.bumps ==> t in s'.bumps;
    forall a: nat | StartsBefore(s, a)
      ensures StartsBefore(s', a)
    {
      var t: nat :| Starts(s, t) && t <= a <= t + s.slack;
      assert Starts(s', t);
    }
  }

  lemma TickKeeps(c: Limits, s: State, d: nat)
    requires Holds(c, s)
    ensures Holds(c, Apply(c, s, Tick(d)).value)
  {
    var s' := Apply(c, s, Tick(d)).value;
    StartsStay(c, s, s');
    if s.phase.Looping? || s.phase.Marked? {
      var t: nat :| Starts(s, t) && t <= s.now <= t + s.slack;
      assert Starts(s', t) && t <= s'.now <= t + s'.slack;
    }
    hide Starts, LateBump, Accounted;
  }

  lemma OneMoreTime(times: seq<nat>, n: nat, a: nat, now: nat, slack: nat)
    requires Past(times, 0, 0, now)
    ensures Past(times + [now], 0, 0, now)
    ensures Past(times, n, a, now) ==> Past(times + [now], n, a, now)
    ensures Since(times, n, a) && a <= now ==> Since(times + [now], n, a)
    ensures a <= now && Recent(times, n, a, slack) ==> Recent(times + [now], n, a, slack)
  {
  }

  /** What the phase remembers. */
  function LookOf(p: Phase): Look {
    match p
    case Marked(look) => look
    case Waiting(look, _) => look
    case Matched(look, _, _, _) => look
    case _ => Look(0, 0)
  }

  lemma BumpKeeps(c: Limits, s: State, e: Event)
    requires Holds(c, s) && IsBump(e) && Apply(c, s, e).Some?
    ensures Holds(c, Apply(c, s, e).value)
  {
    var s' := Apply(c, s, e).value;
    var at := if s.phase.Matched? then s.phase.at else s.now;
    assert Accounted(s') && s'.bumps == s.bumps + [s.now] && s'.changes == s.changes;
    assert s' == s.(bumps := s'.bumps, feeder := s'.feeder, resizer := s'.resizer) && !Closed(s);
    hide Apply, Accounted, Past, Since, Recent, StartsBefore, LateBump;
    StartsStay(c, s, s');
    OneMoreTime(s.bumps, LookOf(s.phase).seen, at, s.now, s.slack);
    if s.phase.Waiting? || s.phase.Matched? {
      OneMoreTime(s.bumps, LookOf(s.phase).seen, s.phase.armedAt, s.now, s.slack);
    }
    if s.phase.Matched? {
      OneMoreTime(s.bumps, s.phase.end.seen, at, s.now, s.slack);
    }
  }

  lemma ChangeKeeps(c: Limits, s: State, e: Event)
    requires Holds(c, s) && IsChange(e) && Apply(c, s, e).Some?
    ensures Holds(c, Apply(c, s, e).value)
  {
    var s' := Apply(c, s, e).value;
    StartsStay(c, s, s');
    hide Past, Since, Recent, StartsBefore, LateBump;
    OneMoreTime(s.changes, 0, 0, s.now, s.slack);
    if s.phase.Waiting? || s.phase.Matched? {
      OneMoreTime(s.changes, Total(s.phase.look), s.phase.armedAt, s.now, s.slack);
    }
    if s.phase.Matched? {
      OneMoreTime(s.changes, Total(s.phase.end), s.phase.at, s.now, s.slack);
    }
  }

  /** A step of the feeder or a resizer that neither changes the grid nor bumps. */
  lemma DebtKeeps(c: Limits, s: State, e: Event)
    requires Holds(c, s) && (e.FeederEnd? || e.ResizeUpgrade? || e.ResizeDrop?) && Apply(c, s, e).Some?
    ensures Holds(c, Apply(c, s, e).value)
  {
    StartsStay(c, s, Apply(c, s, e).value);
    hide Past, Since, Recent, StartsBefore, LateBump;
  }

  lemma WakeKeeps(c: Limits, s: State, e: Event)
    requires Holds(c, s) && (e.TakeChange? || e.TakeClosure?) && Apply(c, s, e).Some?
    ensures Holds(c, Apply(c, s, e).value)
  {
    var s' := Apply(c, s, e).value;
    if e.TakeChange? {
      assert Starts(s', s.bumps[s.phase.look.seen]);
    } else {
      assert Starts(s', s.now);
    }
  }

  lemma LookKeeps(c: Limits, s: State, e: Event)
    requires Holds(c, s) && (e.Mark? || e.Arm?) && Apply(c, s, e).Some?
    ensures Holds(c, Apply(c, s, e).value)
  {
    StartsStay(c, s, Apply(c, s, e).value);
    hide StartsBefore, LateBump;
  }

  lemma FireKeeps(c: Limits, s: State)
    requires Holds(c, s) && Apply(c, s, Fire).Some?
    ensures Holds(c, Apply(c, s, Fire).value)
  {
    var t: nat :| Starts(s, t) && t <= s.phase.armedAt <= t + s.slack;
    assert t in s.bumps && t + s.slack + c.window > c.deadline ==> LateBump(c, s.bumps, s.now, s.slack);
  }

  lemma StepKeeps(c: Limits, s: State, e: Event)
    requires Holds(c, s) && Apply(c, s, e).Some?
    ensures Holds(c, Apply(c, s, e).value)
  {
    hide Holds, Apply;
    if e.Tick? {
      TickKeeps(c, s, e.d);
    } else if e.TakeChange? || e.TakeClosure? {
      WakeKeeps(c, s, e);
    } else if e.Mark? || e.Arm? {
      LookKeeps(c, s, e);
    } else if e.Fire? {
      FireKeeps(c, s);
    } else if IsBump(e) {
      BumpKeeps(c, s, e);
    } else if IsChange(e) {
      ChangeKeeps(c, s, e);
    } else {
      DebtKeeps(c, s, e);
    }
  }

  lemma {:induction false} RunKeeps(c: Limits, events: seq<Event>)
    requires Run(c, events).Some?
    ensures Holds(c, Run(c, events).value)
    decreases |events|
  {
    hide Holds, Apply;
    if events == [] {
      InitialHolds(c);
    } else {
      var n := |events| - 1;
      RunKeeps(c, events[..n]);
      StepKeeps(c, Run(c, events[..n]).value, events[n]);
    }
  }

  lemma InitialHolds(c: Limits)
    ensures Holds(c, Initial())
  {
    assert Starts(Initial(), 0);
  }

  // ---------------------------------------------------------------- what happened since the mark

  /** The waiter marked the generation, and nothing that `hit` names came after that. */
  ghost predicate NoneSinceMark(events: seq<Event>, hit: Event -> bool) {
    exists m :: 0 <= m < |events| && events[m].Mark? && forall j :: m < j < |events| ==> !hit(events[j])
  }

  lemma NoneSinceMarkStep(events: seq<Event>, e: Event, hit: Event -> bool)
    ensures NoneSinceMark(events + [e], hit) <==> e.Mark? || (!hit(e) && NoneSinceMark(events, hit))
  {
    var all := events + [e];
    if e.Mark? {
      assert all[|events|] == e;
    } else if NoneSinceMark(events, hit) && !hit(e) {
      var m :| 0 <= m < |events| && events[m].Mark? && forall j :: m < j < |events| ==> !hit(events[j]);
      assert all[m] == events[m];
    }
    if NoneSinceMark(all, hit) && !e.Mark? {
      var m :| 0 <= m < |all| && all[m].Mark? && forall j :: m < j < |all| ==> !hit(all[j]);
      assert all[m] == events[m] && all[|events|] == e;
      assert forall j :: m < j < |events| ==> events[j] == all[j];
    }
  }

  ghost predicate Asleep(s: State) {
    s.phase.Marked? || s.phase.Waiting?
  }

  lemma MarkCounts(c: Limits, s: State)
    requires Accounted(s) && Apply(c, s, Mark).Some?
    ensures
      var s' := Apply(c, s, Mark).value;
      && s'.phase == Marked(LookAt(s)) && LookAt(s') == LookAt(s)
      && |s'.changes| == Total(LookAt(s)) && |s'.bumps| == LookAt(s).seen
  {
    hide Late, TimerEnd, Closed, Restart, ChangeReady, ClosureReady, ApplySession, Total;
    assert Apply(c, s, Mark).value == s.(phase := Marked(LookAt(s)));
  }

  lemma StepCounts(c: Limits, s: State, e: Event)
    requires Apply(c, s, e).Some? && Asleep(Apply(c, s, e).value) && !e.Mark?
    ensures
      var s' := Apply(c, s, e).value;
      && Asleep(s) && LookOf(s'.phase) == LookOf(s.phase)
      && |s'.bumps| == |s.bumps| + (if IsBump(e) then 1 else 0)
      && |s'.changes| == |s.changes| + (if IsChange(e) then 1 else 0)
  {
    hide Late, TimerEnd, LookAt, Owed, Closed;
  }

  /** While the waiter sleeps, what it marked is current exactly when nothing came since. */
  lemma {:induction false} MarkIsCurrentIff(c: Limits, events: seq<Event>)
    requires Run(c, events).Some? && Asleep(Run(c, events).value)
    ensures
      var s := Run(c, events).value;
      && LooksBack(s, LookOf(s.phase))
      && (NoneSinceMark(events, IsBump) <==> LookOf(s.phase).seen == |s.bumps|)
      && (NoneSinceMark(events, IsChange) <==> Total(LookOf(s.phase)) == |s.changes|)
    decreases |events|
  {
    var n := |events| - 1;
    var s := Run(c, events[..n]).value;
    assert events == events[..n] + [events[n]];
    NoneSinceMarkStep(events[..n], events[n], IsBump);
    NoneSinceMarkStep(events[..n], events[n], IsChange);
    RunKeeps(c, events[..n]);
    hide Apply, IsBump, IsChange, NoneSinceMark;
    if events[n].Mark? {
      MarkCounts(c, s);
    } else {
      StepCounts(c, s, events[n]);
      MarkIsCurrentIff(c, events[..n]);
    }
  }

  // ---------------------------------------------------------------- what a match says

  /** A match comes without a bump between the waiter's mark and the taking of its timer exactly when
      the change branch is not ready at that moment: both may be, and `select!` picks any. */
  lemma MatchIsQuietIff(c: Limits, events: seq<Event>)
    requires Run(c, events + [Fire]).Some? && Run(c, events + [Fire]).value.phase.Matched?
    ensures
      var s, p := Run(c, events).value, Run(c, events + [Fire]).value.phase;
      && (NoneSinceMark(events, IsBump) <==> !ChangeReady(s))
      && (NoneSinceMark(events, IsBump) <==> p.look.seen == p.end.seen)
  {
    assert (events + [Fire])[..|events|] == events;
    MarkIsCurrentIff(c, events);
    RunKeeps(c, events);
  }

  /** The grid is unchanged between the waiter's mark and the taking of its timer exactly when as many
      changes were announced since the mark as debts were settled: with the change branch not ready,
      exactly when as many changes are owed a bump or lost as at the mark. */
  lemma MatchIsUnchangedIff(c: Limits, events: seq<Event>)
    requires Run(c, events + [Fire]).Some? && Run(c, events + [Fire]).value.phase.Matched?
    ensures
      var s, p := Run(c, events).value, Run(c, events + [Fire]).value.phase;
      && p.end == LookAt(s)
      && (NoneSinceMark(events, IsChange) <==> Total(p.look) == Total(p.end))
      && (!ChangeReady(s) ==> (NoneSinceMark(events, IsChange) <==> p.look.silent == Owed(s) + s.lost))
  {
    assert (events + [Fire])[..|events|] == events;
    MarkIsCurrentIff(c, events);
    RunKeeps(c, events);
  }

  /** Every match comes at least a window after it was armed, with the window's end by the deadline,
      and later than that only by time the waiter lost. No change of the grid fell in between if the
      totals of announced and silent changes agree, and no bump if the generations do; any bump in
      between came only as long before the match as the waiter was late. */
  lemma {:induction false} StableMeansUnchanged(c: Limits, events: seq<Event>)
    requires Run(c, events).Some? && Run(c, events).value.phase.Matched?
    ensures
      var s := Run(c, events).value;
      var Matched(look, a, at, end) := s.phase;
      && a + c.window <= c.deadline
      && a + c.window <= at <= a + c.window + s.slack
      && (Total(look) == Total(end) ==> forall t :: t in s.changes ==> !(a < t < at))
      && (look.seen == end.seen ==> forall t :: t in s.bumps ==> !(a < t < at))
      && (forall t :: t in s.bumps && a < t < at ==> at <= t + s.slack)
  {
    RunKeeps(c, events);
  }

  /** A wait is decided by its deadline but for the time that the waiter lost, and it never times out
      before it. */
  lemma {:induction false} DecidedByDeadline(c: Limits, events: seq<Event>)
    requires Run(c, events).Some?
    ensures
      var s := Run(c, events).value;
      match s.phase
      case Matched(_, _, at, _) => at <= c.deadline + s.slack
      case Unmatched(at, _) => c.deadline <= at <= c.deadline + s.slack
      case _ => s.now <= c.deadline + s.slack
  {
    RunKeeps(c, events);
  }

  /** With the sender alive, a wait times out only if the window is longer than the whole wait or a
      bump came less than a window before the deadline, give or take the time that the waiter lost. */
  lemma {:induction false} TimeOutMeansActivity(c: Limits, events: seq<Event>)
    requires Run(c, events).Some?
    requires Run(c, events).value.phase.Unmatched? && !Run(c, events).value.phase.ended
    ensures
      var s := Run(c, events).value;
      s.slack + c.window > c.deadline || LateBump(c, s.bumps, s.phase.at, s.slack)
  {
    RunKeeps(c, events);
  }

  /** Once the sender is found gone a full new window starts. A match means that it fits before the
      deadline, and if it still fits after the time that the waiter lost, the wait does match. */
  lemma {:induction false} ClosureDecides(c: Limits, events: seq<Event>)
    requires Run(c, events).Some?
    requires
      var s := Run(c, events).value;
      s.gone.Some? && (s.phase.Matched? || s.phase.Unmatched?)
    ensures
      var s := Run(c, events).value;
      var g := s.gone.value;
      && (s.phase.Matched? ==> g < c.deadline && g + c.window <= c.deadline)
      && (g < c.deadline && g + s.slack + c.window <= c.deadline ==> s.phase.Matched?)
  {
    RunKeeps(c, events);
  }

  // ---------------------------------------------------------------- runs that go wrong

  lemma Begin(c: Limits, all: seq<Event>) returns (s: State)
    ensures Run(c, all[..0]) == Some(s)
    ensures s.phase.Looping? && s.feeder.Receiving? && s.resizer.Idle? && s.gone.None?
    ensures s.changes == [] && s.bumps == [] && s.lost == s.slack == s.now == 0
  {
    s := Initial();
    assert all[..0] == [];
  }

  /** The state after one more of the events `all`. */
  lemma Next(c: Limits, all: seq<Event>, i: nat, s: State) returns (s': State)
    requires i < |all| && Run(c, all[..i]) == Some(s) && Apply(c, s, all[i]).Some?
    ensures Apply(c, s, all[i]) == Some(s') && Run(c, all[..i + 1]) == Some(s')
  {
    s' := Apply(c, s, all[i]).value;
    assert all[..i + 1][..i] == all[..i];
  }

  /** A chunk is fed while the waiter sleeps. */
  lemma FedInWindow(c: Limits, all: seq<Event>, x: nat) returns (s: State)
    requires |all| > 4 && all[..4] == [Mark, Arm, Tick(x), Feed] && x <= TimerEnd(c, 0)
    ensures Run(c, all[..4]) == Some(s)
    ensures s.phase.Waiting? && s.phase.armedAt == s.phase.look.seen == 0 && s.now == x && s.gone.None?
    ensures s.feeder.Owing? && s.resizer.Idle?
    ensures s.changes == [x] && s.bumps == [] && s.slack == 0
  {
    assert all[0] == all[..4][0] && all[1] == all[..4][1] && all[2] == all[..4][2] && all[3] == all[..4][3];
    hide Run, Owed;
    s := Begin(c, all);
    s := Next(c, all, 0, s);
    s := Next(c, all, 1, s);
    s := Next(c, all, 2, s);
    s := Next(c, all, 3, s);
  }

  /** A waiter polled late takes its timer although a bump fell into the window. */
  lemma LateTimerHidesBump(c: Limits, x: nat, y: nat)
    requires 0 < x && 0 < y && x + y == c.window <= c.deadline
    ensures
      var end := Run(c, [Mark, Arm, Tick(x), Feed, FeedBump, Tick(y), Fire]);
      && end.Some? && end.value.phase.Matched? && end.value.phase.armedAt == 0 && end.value.phase.at == c.window
      && end.value.bumps == [x] && end.value.slack == y
  {
    var all := [Mark, Arm, Tick(x), Feed, FeedBump, Tick(y), Fire];
    assert all[..7] == all;
    assert all[..4] == [Mark, Arm, Tick(x), Feed];
    hide Run, Owed, LookAt;
    var s := FedInWindow(c, all, x);
    s := Next(c, all, 4, s);
    s := Next(c, all, 5, s);
    s := Next(c, all, 6, s);
  }

  /** A waiter that loses no time matches over a changed grid: the chunk is fed in the window, and its
      bump is still owed when the timer fires. */
  lemma OwedBumpIsMissed(c: Limits, x: nat, y: nat)
    requires 0 < x && 0 < y && x + y == c.window <= c.deadline
    ensures
      var end := Run(c, [Mark, Arm, Tick(x), Feed, Tick(y), Fire]);
      && end.Some? && end.value.phase.Matched? && end.value.phase.armedAt == 0 && end.value.phase.at == c.window
      && end.value.changes == [x] && end.value.bumps == [] && end.value.slack == 0
  {
    var all := [Mark, Arm, Tick(x), Feed, Tick(y), Fire];
    assert all[..6] == all;
    assert all[..4] == [Mark, Arm, Tick(x), Feed];
    hide Run, Owed, LookAt;
    var s := FedInWindow(c, all, x);
    s := Next(c, all, 4, s);
    s := Next(c, all, 5, s);
  }

  /** The sender goes away while the waiter sleeps, and the waiter starts a new window at once. */
  lemma WaitAfterClosure(c: Limits, all: seq<Event>, z: nat) returns (s: State)
    requires |all| > 7 && all[..7] == [Mark, Arm, Tick(z), FeederEnd, TakeClosure, Mark, Arm]
    requires 0 < z <= c.window && z < c.deadline
    ensures Run(c, all[..7]) == Some(s)
    ensures s.phase.Waiting? && s.phase.armedAt == s.now == z && s.gone == Some(z)
    ensures s.feeder.Ended? && s.resizer.Idle?
    ensures s.changes == [] && s.bumps == [] && s.lost == s.slack == s.phase.look.seen == 0
  {
    assert all[0] == all[..7][0] && all[1] == all[..7][1] && all[2] == all[..7][2];
    assert all[3] == all[..7][3] && all[4] == all[..7][4] && all[5] == all[..7][5] && all[6] == all[..7][6];
    hide Run, Owed;
    s := Begin(c, all);
    s := Next(c, all, 0, s);
    s := Next(c, all, 1, s);
    s := Next(c, all, 2, s);
    s := Next(c, all, 3, s);
    s := Next(c, all, 4, s);
    s := Next(c, all, 5, s);
    s := Next(c, all, 6, s);
  }

  /** With the sender gone, the waiter sleeps to the end of its window over a resize. */
  lemma ResizeInWindow(c: Limits, all: seq<Event>, i: nat, s: State) returns (s': State)
    requires i + 5 == |all| && Run(c, all[..i]) == Some(s)
    requires all[i].Tick? && all[i + 1] == Resize && all[i + 2] == ResizeUpgrade
    requires all[i + 3].Tick? && all[i + 4] == Fire
    requires s.phase.Waiting? && s.gone.Some? && s.feeder.Ended? && s.resizer.Idle? && s.phase.armedAt == s.now
    requires s.now + c.window <= c.deadline && all[i].d + all[i + 3].d == c.window
    ensures Run(c, all[..i + 5]) == Some(s')
    ensures s'.phase.Matched? && s'.phase.armedAt == s.now && s'.phase.at == s.now + c.window
    ensures s'.changes == s.changes + [s.now + all[i].d] && s'.bumps == s.bumps
    ensures s'.lost == s.lost + 1 && s'.slack == s.slack
  {
    hide Run, Owed, LookAt;
    s' := Next(c, all, i, s);
    s' := Next(c, all, i + 1, s');
    s' := Next(c, all, i + 2, s');
    s' := Next(c, all, i + 3, s');
    s' := Next(c, all, i + 4, s');
  }

  /** So does one whose screen is resized after the sender is gone: that is never announced. */
  lemma LateResizeIsMissed(c: Limits, z: nat, x: nat, y: nat)
    requires 0 < z <= c.window && 0 < x && 0 < y && x + y == c.window && z + c.window <= c.deadline
    ensures
      var end := Run(c,
        [Mark, Arm, Tick(z), FeederEnd, TakeClosure, Mark, Arm, Tick(x), Resize, ResizeUpgrade, Tick(y), Fire]);
      && end.Some? && end.value.phase.Matched?
      && end.value.phase.armedAt == z && end.value.phase.at == z + c.window
      && end.value.changes == [z + x] && end.value.bumps == [] && end.value.lost == 1 && end.value.slack == 0
  {
    var all :=
      [Mark, Arm, Tick(z), FeederEnd, TakeClosure, Mark, Arm, Tick(x), Resize, ResizeUpgrade, Tick(y), Fire];
    assert all[..12] == all && all[..7] == [Mark, Arm, Tick(z), FeederEnd, TakeClosure, Mark, Arm];
    hide Run, Owed, LookAt;
    var s := WaitAfterClosure(c, all, z);
    hide Apply;
    s := ResizeInWindow(c, all, 7, s);
  }

  /** The remaining window is not what counts: the screen never changes here and the window fits into
      the wait, yet the sender going away in the middle makes the wait time out. */
  lemma ClosureCutsShort(c: Limits, x: nat, y: nat)
    requires 0 < x && 0 < y && x + y == c.window == c.deadline
    ensures
      var end := Run(c, [Mark, Arm, Tick(x), FeederEnd, TakeClosure, Mark, Arm, Tick(y), Fire]);
      && end.Some? && end.value.phase == Unmatched(c.deadline, true)
      && end.value.changes == [] && end.value.slack == 0
  {
    var all := [Mark, Arm, Tick(x), FeederEnd, TakeClosure, Mark, Arm, Tick(y), Fire];
    assert all[..9] == all && all[..7] == [Mark, Arm, Tick(x), FeederEnd, TakeClosure, Mark, Arm];
    hide Run, Owed, LookAt;
    var s := WaitAfterClosure(c, all, x);
    s := Next(c, all, 7, s);
    s := Next(c, all, 8, s);
  }
}
