/** Waiters, the feeder and resizers of one terminal session, as steps over the terminal lock and
    the versioned generation watch. Any number of waiters run, each with its own condition. */
module WaitProtocol {
  import opened Wrappers

  /** The terminal and the waiters' conditions, taken as given. */
  datatype Session<!G, !B> = Session(
    feed: (G, B) -> G,
    resize: (G, nat, nat) -> G,
    met: (nat, G) -> bool)

  datatype Feeder<B> = Receiving | Got(bytes: B) | Fed | Owing | Ended

  /** How far the resizer holding the terminal lock has come. */
  datatype Stage = Locked | Resized | Upgraded | Bumped | Leaving

  datatype Holder = Free | ByFeeder | ByResizer(stage: Stage) | ByWaiter(id: nat)

  /** What a waiter's last check looked at (for the proofs only): the grid, and how many chunks
      had been fed and how many resizes had gone unannounced. */
  datatype Check<G> = Check(grid: G, feeds: nat, losses: nat)

  datatype Waiter<G> =
    | Looping
    | Marked(seen: nat)
    | Parked(seen: nat, check: Check<G>)
    | Ending(ended: bool, check: Check<G>)
    | Matched(grid: G)
    | Unmatched(ended: bool, check: Check<G>, screen: G)

  datatype State<G, B> = State(
    grid: G,
    generation: nat,
    feeder: Feeder<B>,
    lock: Holder,
    waiters: map<nat, Waiter<G>>,
    feeds: nat,
    losses: nat)

  datatype Event<B> =
    | Receive(bytes: B) | FeederLock | FeederFeed | FeederUnlock | FeederBump | FeederEnd
    | ResizeLock | ResizeFail | ResizeGrid(cols: nat, rows: nat) | ResizeUpgrade | ResizeBump
    | ResizeDrop | ResizeUnlock
    | Begin(id: nat) | Mark(id: nat) | WaiterLock(id: nat) | CheckGrid(id: nat)
    | Wake(id: nat) | SeeClosed(id: nat) | TimeOut(id: nat) | SnapLock(id: nat) | Snap(id: nat)

  /** No strong handle to the sender is left: the feeder is gone and no resizer has upgraded. */
  predicate Closed<G, B>(s: State<G, B>) {
    s.feeder.Ended? && s.lock != ByResizer(Upgraded) && s.lock != ByResizer(Bumped)
  }

  function Put<G, B>(s: State<G, B>, id: nat, w: Waiter<G>): State<G, B> {
    s.(waiters := s.waiters[id := w])
  }

  function Resizer<G, B(==)>(s: State<G, B>, from: Stage, to: Holder): Option<State<G, B>> {
    if s.lock == ByResizer(from) then Some(s.(lock := to)) else None
  }

  /** The state after one event, or `None` where the event cannot happen. */
  function Apply<G, B(==)>(t: Session<G, B>, s: State<G, B>, e: Event<B>): Option<State<G, B>> {
    match e
    case Receive(b) => if s.feeder.Receiving? then Some(s.(feeder := Got(b))) else None
    case FeederLock =>
      if s.feeder.Got? && s.lock == Free then Some(s.(lock := ByFeeder)) else None
    case FeederFeed =>
      if s.feeder.Got? && s.lock == ByFeeder then
        Some(s.(feeder := Fed, grid := t.feed(s.grid, s.feeder.bytes), feeds := s.feeds + 1))
      else None
    case FeederUnlock =>
      if s.feeder.Fed? && s.lock == ByFeeder then Some(s.(feeder := Owing, lock := Free)) else None
    case FeederBump =>
      if s.feeder.Owing? then Some(s.(feeder := Receiving, generation := s.generation + 1)) else None
    case FeederEnd => if s.feeder.Receiving? then Some(s.(feeder := Ended)) else None
    case ResizeLock => if s.lock == Free then Some(s.(lock := ByResizer(Locked))) else None
    case ResizeFail => Resizer(s, Locked, Free)
    case ResizeGrid(cols, rows) => Resizer(s.(grid := t.resize(s.grid, cols, rows)), Locked, ByResizer(Resized))
    case ResizeUpgrade =>
      if s.feeder.Ended? then Resizer(s.(losses := s.losses + 1), Resized, ByResizer(Leaving))
      else Resizer(s, Resized, ByResizer(Upgraded))
    case ResizeBump => Resizer(s.(generation := s.generation + 1), Upgraded, ByResizer(Bumped))
    case ResizeDrop => Resizer(s, Bumped, ByResizer(Leaving))
    case ResizeUnlock => Resizer(s, Leaving, Free)
    case Begin(id) => if id !in s.waiters then Some(Put(s, id, Looping)) else None
    case _ => if e.id in s.waiters then ApplyWaiter(t, s, e, s.waiters[e.id]) else None
  }

  function ApplyWaiter<G, B(==)>(t: Session<G, B>, s: State<G, B>, e: Event<B>, w: Waiter<G>): Option<State<G, B>> {
    match e
    case Mark(id) => if w.Looping? then Some(Put(s, id, Marked(s.generation))) else None
    case WaiterLock(id) => if w.Marked? && s.lock == Free then Some(s.(lock := ByWaiter(id))) else None
    case CheckGrid(id) =>
      if w.Marked? && s.lock == ByWaiter(id) then
        if t.met(id, s.grid) then Some(Put(s, id, Matched(s.grid)).(lock := Free))
        else Some(Put(s, id, Parked(w.seen, Check(s.grid, s.feeds, s.losses))).(lock := Free))
      else None
    case Wake(id) => if w.Parked? && w.seen != s.generation then Some(Put(s, id, Looping)) else None
    case SeeClosed(id) =>
      if w.Parked? && w.seen == s.generation && Closed(s) then Some(Put(s, id, Ending(true, w.check))) else None
    case TimeOut(id) => if w.Parked? then Some(Put(s, id, Ending(false, w.check))) else None
    case SnapLock(id) => if w.Ending? && s.lock == Free then Some(s.(lock := ByWaiter(id))) else None
    case Snap(id) =>
      if w.Ending? && s.lock == ByWaiter(id) then
        Some(Put(s, id, Unmatched(w.ended, w.check, s.grid)).(lock := Free))
      else None
    case _ => None
  }

  function Initial<G, B>(grid: G): State<G, B> {
    State(grid, 0, Receiving, Free, map[], 0, 0)
  }

  function Run<G, B(==)>(t: Session<G, B>, s: State<G, B>, events: seq<Event<B>>): Option<State<G, B>> {
    if events == [] then Some(s)
    else
      var before := Run(t, s, events[..|events| - 1]);
      if before.None? then None else Apply(t, before.value, events[|events| - 1])
  }

  // ---------------------------------------------------------------- the invariant

  /** A bump for the latest change of the grid is still to come, or is about to be lost. */
  predicate Owed<G, B>(s: State<G, B>) {
    FeederOwes(s) || s.lock == ByResizer(Resized) || s.lock == ByResizer(Upgraded)
  }

  predicate FeederOwes<G, B>(s: State<G, B>) {
    s.feeder.Fed? || s.feeder.Owing?
  }

  /** A failed check `c` of waiter `id` is up to date as far as bumps can tell. */
  ghost predicate Current<G, B>(s: State<G, B>, c: Check<G>) {
    && (c.feeds == s.feeds || FeederOwes(s))
    && (c.losses == s.losses && !Owed(s) ==> c.grid == s.grid)
  }

  ghost predicate WaiterInv<G, B>(t: Session<G, B>, s: State<G, B>, id: nat, w: Waiter<G>) {
    match w
    case Looping => true
    case Marked(seen) => seen <= s.generation
    case Parked(seen, c) =>
      && seen <= s.generation
      && !t.met(id, c.grid)
      && c.feeds <= s.feeds && c.losses <= s.losses
      && (seen == s.generation ==> Current(s, c))
    case Ending(ended, c) =>
      && !t.met(id, c.grid)
      && c.feeds <= s.feeds && c.losses <= s.losses
      && (ended ==> Closed(s) && Current(s, c))
    case Matched(g) => t.met(id, g)
    case Unmatched(ended, c, screen) =>
      && !t.met(id, c.grid)
      && c.feeds <= s.feeds && c.losses <= s.losses
      && (ended ==> Closed(s) && Current(s, c))
  }

  ghost predicate Inv<G, B>(t: Session<G, B>, s: State<G, B>) {
    && LockInv(s)
    && (forall id :: id in s.waiters ==> WaiterInv(t, s, id, s.waiters[id]))
  }

  ghost predicate LockInv<G, B>(s: State<G, B>) {
    && (s.lock == ByFeeder ==> s.feeder.Got? || s.feeder.Fed?)
    && (s.feeder.Fed? ==> s.lock == ByFeeder)
    && (s.feeder.Ended? ==> s.lock != ByFeeder)
  }

  predicate ByFeederOrResizer<B>(e: Event<B>) {
    || e.Receive? || e.FeederLock? || e.FeederFeed? || e.FeederUnlock? || e.FeederBump? || e.FeederEnd?
    || e.ResizeLock? || e.ResizeFail? || e.ResizeGrid? || e.ResizeUpgrade? || e.ResizeBump?
    || e.ResizeDrop? || e.ResizeUnlock?
  }

  lemma StepKeepsLock<G, B>(t: Session<G, B>, s: State<G, B>, e: Event<B>)
    requires LockInv(s) && Apply(t, s, e).Some?
    ensures LockInv(Apply(t, s, e).value)
  {
  }

  /** A step of the feeder or a resizer keeps the waiters' checks honest. */
  lemma SessionStepKeeps<G, B>(t: Session<G, B>, s: State<G, B>, e: Event<B>, id: nat)
    requires LockInv(s) && Apply(t, s, e).Some? && ByFeederOrResizer(e)
    requires id in s.waiters && WaiterInv(t, s, id, s.waiters[id])
    ensures WaiterInv(t, Apply(t, s, e).value, id, s.waiters[id])
  {
  }

  /** A waiter's step changes that waiter only, and neither grid nor generation. */
  lemma WaiterStepKeeps<G, B>(t: Session<G, B>, s: State<G, B>, e: Event<B>, id: nat)
    requires LockInv(s) && Apply(t, s, e).Some? && !ByFeederOrResizer(e)
    requires id in s.waiters ==> WaiterInv(t, s, id, s.waiters[id])
    requires id in Apply(t, s, e).value.waiters
    ensures WaiterInv(t, Apply(t, s, e).value, id, Apply(t, s, e).value.waiters[id])
  {
  }

  lemma StepKeepsInv<G, B>(t: Session<G, B>, s: State<G, B>, e: Event<B>)
    requires Inv(t, s) && Apply(t, s, e).Some?
    ensures Inv(t, Apply(t, s, e).value)
  {
    hide Apply, WaiterInv, LockInv;
    StepKeepsLock(t, s, e);
    var s' := Apply(t, s, e).value;
    if ByFeederOrResizer(e) {
      SameWaiters(t, s, e);
      forall id | id in s.waiters
        ensures WaiterInv(t, s', id, s.waiters[id])
      {
        SessionStepKeeps(t, s, e, id);
      }
    } else {
      forall id | id in s'.waiters
        ensures WaiterInv(t, s', id, s'.waiters[id])
      {
        WaiterStepKeeps(t, s, e, id);
      }
    }
  }

  lemma SameWaiters<G, B>(t: Session<G, B>, s: State<G, B>, e: Event<B>)
    requires Apply(t, s, e).Some? && ByFeederOrResizer(e)
    ensures Apply(t, s, e).value.waiters == s.waiters
  {
  }

  lemma {:induction false} RunKeepsInv<G, B>(t: Session<G, B>, grid: G, events: seq<Event<B>>)
    requires Run(t, Initial(grid), events).Some?
    ensures Inv(t, Run(t, Initial(grid), events).value)
    decreases |events|
  {
    if events != [] {
      RunKeepsInv(t, grid, events[..|events| - 1]);
      StepKeepsInv(t, Run(t, Initial(grid), events[..|events| - 1]).value, events[|events| - 1]);
    }
  }

  // ---------------------------------------------------------------- what follows for every run

  /** No lost wakeup: whenever a parked waiter's condition holds on the current grid and no
      resize since its check went unannounced, the waiter can wake at once or a bump is owed. */
  lemma NoLostWakeup<G, B>(t: Session<G, B>, grid: G, events: seq<Event<B>>, id: nat)
    requires Run(t, Initial(grid), events).Some?
    requires
      var s := Run(t, Initial(grid), events).value;
      && id in s.waiters && s.waiters[id].Parked? && s.waiters[id].check.losses == s.losses
      && t.met(id, Draw(t, grid, Changes(events)))
    ensures
      var s := Run(t, Initial(grid), events).value;
      Apply(t, s, Wake(id)) == Some(Put(s, id, Looping)) || Owed(s)
  {
    TheGrid(t, grid, events);
    RunKeepsInv(t, grid, events);
    var s := Run(t, Initial(grid), events).value;
    assert WaiterInv(t, s, id, s.waiters[id]);
  }

  /** An owed bump does come: feeder and resizer have a next step that nobody can block, and the
      step that settles the debt is a bump, or a resizer finding the sender gone. */
  lemma OwedBumpIsNext<G, B>(t: Session<G, B>, grid: G, events: seq<Event<B>>)
    requires Run(t, Initial(grid), events).Some? && Owed(Run(t, Initial(grid), events).value)
    ensures
      var s := Run(t, Initial(grid), events).value;
      || (s.feeder.Fed? && Apply(t, s, FeederUnlock).Some? && Apply(t, s, FeederUnlock).value.feeder == Owing)
      || (Apply(t, s, FeederBump).Some? && Apply(t, s, FeederBump).value.generation == s.generation + 1)
      || (Apply(t, s, ResizeBump).Some? && Apply(t, s, ResizeBump).value.generation == s.generation + 1)
      || (Apply(t, s, ResizeUpgrade).Some? &&
          if s.feeder.Ended? then Apply(t, s, ResizeUpgrade).value.losses == s.losses + 1
          else Apply(t, s, ResizeUpgrade).value.lock == ByResizer(Upgraded))
  {
    RunKeepsInv(t, grid, events);
  }

  /** No resize since the check went, or is about to go, unannounced. */
  ghost predicate NothingLostSince<G, B>(s: State<G, B>, c: Check<G>) {
    c.losses == s.losses && s.lock != ByResizer(Resized)
  }

  // ---------------------------------------------------------------- what the grid shows

  datatype Change<B> = Chunk(bytes: B) | Size(cols: nat, rows: nat)

  /** The chunks received, in order. */
  function Received<B>(events: seq<Event<B>>): seq<B> {
    if events == [] then []
    else
      var last := events[|events| - 1];
      Received(events[..|events| - 1]) + if last.Receive? then [last.bytes] else []
  }

  /** What one more event does to the grid: a feed puts the chunk received last on it. */
  function LatestChange<B>(before: seq<Event<B>>, e: Event<B>): seq<Change<B>> {
    if e.FeederFeed? && Received(before) != [] then [Chunk(Received(before)[|Received(before)| - 1])]
    else if e.ResizeGrid? then [Size(e.cols, e.rows)]
    else []
  }

  function Changes<B>(events: seq<Event<B>>): seq<Change<B>> {
    if events == [] then []
    else
      var before := events[..|events| - 1];
      Changes(before) + LatestChange(before, events[|events| - 1])
  }

  function Draw<G, B>(t: Session<G, B>, grid: G, changes: seq<Change<B>>): G {
    if changes == [] then grid
    else
      var before := Draw(t, grid, changes[..|changes| - 1]);
      match changes[|changes| - 1]
      case Chunk(b) => t.feed(before, b)
      case Size(cols, rows) => t.resize(before, cols, rows)
  }

  function Chunks<B>(changes: seq<Change<B>>): seq<B> {
    if changes == [] then []
    else
      var last := changes[|changes| - 1];
      Chunks(changes[..|changes| - 1]) + if last.Chunk? then [last.bytes] else []
  }

  /** The grid is drawn by the changes; they hold every chunk received, in order, up to the one the
      feeder has yet to feed. */
  ghost predicate Told<G, B>(t: Session<G, B>, grid: G, events: seq<Event<B>>, s: State<G, B>) {
    var received := Received(events);
    && s.grid == Draw(t, grid, Changes(events))
    && (s.feeder.Got? ==> received != [] && received[|received| - 1] == s.feeder.bytes)
    && Chunks(Changes(events)) == (if s.feeder.Got? then received[..|received| - 1] else received)
    && s.feeds == |Chunks(Changes(events))|
  }

  lemma OneMoreEvent<B>(events: seq<Event<B>>, e: Event<B>)
    ensures Received(events + [e]) == Received(events) + if e.Receive? then [e.bytes] else []
    ensures Changes(events + [e]) == Changes(events) + LatestChange(events, e)
  {
    assert (events + [e])[..|events|] == events;
  }

  lemma OneMoreChange<G, B>(t: Session<G, B>, grid: G, changes: seq<Change<B>>, c: Change<B>)
    ensures Draw(t, grid, changes + [c])
      == if c.Chunk? then t.feed(Draw(t, grid, changes), c.bytes)
         else t.resize(Draw(t, grid, changes), c.cols, c.rows)
    ensures Chunks(changes + [c]) == Chunks(changes) + if c.Chunk? then [c.bytes] else []
  {
    assert (changes + [c])[..|changes|] == changes;
  }

  lemma StepKeepsTold<G, B>(t: Session<G, B>, grid: G, events: seq<Event<B>>, s: State<G, B>, e: Event<B>)
    requires Told(t, grid, events, s) && Apply(t, s, e).Some?
    ensures Told(t, grid, events + [e], Apply(t, s, e).value)
  {
    OneMoreEvent(events, e);
    hide Changes, Draw, Chunks, Received;
    if e.FeederFeed? || e.ResizeGrid? {
      var c := LatestChange(events, e)[0];
      assert LatestChange(events, e) == [c];
      OneMoreChange(t, grid, Changes(events), c);
    } else {
      StepDrawsNothing(t, events, s, e);
      var received := Received(events);
      assert Changes(events) + [] == Changes(events);
      assert e.Receive? ==> (received + [e.bytes])[..|received|] == received;
    }
  }

  lemma StepDrawsNothing<G, B>(t: Session<G, B>, events: seq<Event<B>>, s: State<G, B>, e: Event<B>)
    requires Apply(t, s, e).Some? && !e.FeederFeed? && !e.ResizeGrid?
    ensures LatestChange(events, e) == []
    ensures
      var s' := Apply(t, s, e).value;
      && s'.grid == s.grid && s'.feeds == s.feeds
      && (e.Receive? ==> s'.feeder == Got(e.bytes) && s.feeder == Receiving)
      && (!e.Receive? ==> (s'.feeder.Got? <==> s.feeder.Got?) && (s.feeder.Got? ==> s'.feeder == s.feeder))
  {
  }

  /** In every run the grid is what the chunks fed and the resizes made draw on the first one. */
  lemma {:induction false} GridIsDrawn<G, B>(t: Session<G, B>, grid: G, events: seq<Event<B>>)
    requires Run(t, Initial(grid), events).Some?
    ensures Told(t, grid, events, Run(t, Initial(grid), events).value)
    decreases |events|
  {
    RunBefore(t, Initial(grid), events);
    hide *;
    if events != [] {
      var n := |events| - 1;
      GridIsDrawn(t, grid, events[..n]);
      StepKeepsTold(t, grid, events[..n], Run(t, Initial(grid), events[..n]).value, events[n]);
      assert events == events[..n] + [events[n]];
    } else {
      ToldAtStart(t, grid);
    }
  }

  lemma RunBefore<G, B>(t: Session<G, B>, s: State<G, B>, events: seq<Event<B>>)
    requires Run(t, s, events).Some?
    ensures events != [] ==>
      && Run(t, s, events[..|events| - 1]).Some?
      && Run(t, s, events) == Apply(t, Run(t, s, events[..|events| - 1]).value, events[|events| - 1])
  {
    hide Apply;
  }

  lemma ToldAtStart<G, B>(t: Session<G, B>, grid: G)
    ensures Run(t, Initial(grid), []) == Some(Initial(grid)) && Told(t, grid, [], Initial(grid))
  {
    hide Apply, LatestChange;
  }

  /** A waiter's check matches exactly when its condition holds on the grid drawn so far. */
  lemma CheckDecides<G, B>(t: Session<G, B>, grid: G, events: seq<Event<B>>, id: nat)
    requires Run(t, Initial(grid), events + [CheckGrid(id)]).Some?
    ensures
      var s := Run(t, Initial(grid), events + [CheckGrid(id)]).value;
      && id in s.waiters
      && (s.waiters[id].Matched? <==> t.met(id, Draw(t, grid, Changes(events))))
      && (s.waiters[id].Parked? <==> !t.met(id, Draw(t, grid, Changes(events))))
  {
    RunBefore(t, Initial(grid), events + [CheckGrid(id)]);
    assert (events + [CheckGrid(id)])[..|events|] == events;
    GridIsDrawn(t, grid, events);
    hide Run, Changes, Draw, Received, Chunks;
  }

  /** With the terminal free, a waiter at the top of its loop takes its turn: it ends on a match, and
      otherwise parks with the latest bump seen. */
  lemma TurnDecides<G, B>(t: Session<G, B>, s: State<G, B>, id: nat)
    requires id in s.waiters && s.waiters[id] == Looping && s.lock == Free
    ensures
      var end := Run(t, s, [Mark(id), WaiterLock(id), CheckGrid(id)]);
      && end.Some? && end.value.lock == Free && id in end.value.waiters
      && end.value.waiters[id]
         == if t.met(id, s.grid) then Matched(s.grid)
            else Parked(s.generation, Check(s.grid, s.feeds, s.losses))
  {
    var marked := Put(s, id, Marked(s.generation));
    RunThree(t, s, Mark(id), WaiterLock(id), CheckGrid(id), marked, marked.(lock := ByWaiter(id)));
  }

  /** A parked waiter that no bump woke ends once the session is closed, with the screen it then sees. */
  lemma ClosedWaiterEnds<G, B>(t: Session<G, B>, s: State<G, B>, id: nat)
    requires id in s.waiters && s.waiters[id].Parked? && s.waiters[id].seen == s.generation
    requires Closed(s) && s.lock == Free
    ensures
      var end := Run(t, s, [SeeClosed(id), SnapLock(id), Snap(id)]);
      && end.Some? && end.value.lock == Free && id in end.value.waiters
      && end.value.waiters[id] == Unmatched(true, s.waiters[id].check, s.grid)
  {
    var ending := Put(s, id, Ending(true, s.waiters[id].check));
    RunThree(t, s, SeeClosed(id), SnapLock(id), Snap(id), ending, ending.(lock := ByWaiter(id)));
  }

  lemma RunThree<G, B>(t: Session<G, B>, s: State<G, B>, d: Event<B>, e: Event<B>, f: Event<B>,
                       after: State<G, B>, later: State<G, B>)
    requires Apply(t, s, d) == Some(after) && Apply(t, after, e) == Some(later)
    ensures Run(t, s, [d, e, f]) == Apply(t, later, f)
  {
    hide Apply;
    assert [d, e, f][..2] == [d, e] && [d, e][..1] == [d] && [d][..0] == [];
    assert Run(t, s, [d]) == Some(after) && Run(t, s, [d, e]) == Some(later);
  }

  // ---------------------------------------------------------------- what a lost resize can hide

  function Resizes<B>(events: seq<Event<B>>): nat {
    if events == [] then 0
    else Resizes(events[..|events| - 1]) + if events[|events| - 1].ResizeGrid? then 1 else 0
  }

  /** How many resizes came before the last check of waiter `id`. */
  function LastCheck<B>(events: seq<Event<B>>, id: nat): (n: nat)
    ensures n <= Resizes(events)
  {
    if events == [] then 0
    else
      var n := |events| - 1;
      if events[n].CheckGrid? && events[n].id == id then Resizes(events[..n]) else LastCheck(events[..n], id)
  }

  /** The failed check that a waiter still holds on to. */
  function CheckOf<G>(w: Waiter<G>): Option<Check<G>> {
    match w
    case Parked(_, c) => Some(c)
    case Ending(_, c) => Some(c)
    case Unmatched(_, c, _) => Some(c)
    case _ => None
  }

  lemma StepLosesByResizing<G, B>(t: Session<G, B>, s: State<G, B>, e: Event<B>, id: nat)
    requires LockInv(s) && Apply(t, s, e).Some?
    requires id in Apply(t, s, e).value.waiters && CheckOf(Apply(t, s, e).value.waiters[id]).Some?
    ensures
      var s' := Apply(t, s, e).value;
      var c' := CheckOf(s'.waiters[id]).value;
      || (e == CheckGrid(id) && NothingLostSince(s', c'))
      || (e != CheckGrid(id) && id in s.waiters && CheckOf(s.waiters[id]) == Some(c')
          && (!e.ResizeGrid? && NothingLostSince(s, c') ==> NothingLostSince(s', c')))
  {
  }

  /** Without a resize since the last check, none was lost since. */
  lemma {:induction false} LossNeedsResize<G, B>(t: Session<G, B>, grid: G, events: seq<Event<B>>, id: nat)
    requires Run(t, Initial(grid), events).Some?
    requires
      var s := Run(t, Initial(grid), events).value;
      id in s.waiters && CheckOf(s.waiters[id]).Some?
    ensures
      var s := Run(t, Initial(grid), events).value;
      LastCheck(events, id) == Resizes(events) ==> NothingLostSince(s, CheckOf(s.waiters[id]).value)
    decreases |events|
  {
    if events != [] {
      var n := |events| - 1;
      var s := Run(t, Initial(grid), events[..n]).value;
      RunKeepsInv(t, grid, events[..n]);
      StepLosesByResizing(t, s, events[n], id);
      hide Apply, NothingLostSince;
      if events[n] != CheckGrid(id) {
        LossNeedsResize(t, grid, events[..n], id);
      }
    }
  }

  // ---------------------------------------------------------------- what an outcome tells

  /** The grid that the check of a waiter's outcome looked at. */
  function Looked<G>(w: Waiter<G>): Option<G> {
    if w.Matched? then Some(w.grid) else if CheckOf(w).Some? then Some(CheckOf(w).value.grid) else None
  }

  /** Event `k` is the last one of its kind. */
  ghost predicate LastAt<B>(events: seq<Event<B>>, e: Event<B>, k: nat) {
    k < |events| && events[k] == e && forall j :: k < j < |events| ==> events[j] != e
  }

  lemma LastEvent<B>(events: seq<Event<B>>)
    requires events != []
    ensures LastAt(events, events[|events| - 1], |events| - 1)
  {
  }

  lemma StillLast<B>(events: seq<Event<B>>, e: Event<B>, k: nat)
    requires events != [] && LastAt(events[..|events| - 1], e, k) && events[|events| - 1] != e
    ensures LastAt(events, e, k) && k < |events| && events[..|events| - 1][..k] == events[..k]
  {
    assert forall j :: 0 <= j < |events| - 1 ==> events[j] == events[..|events| - 1][j];
  }

  lemma TheGrid<G, B>(t: Session<G, B>, grid: G, events: seq<Event<B>>)
    requires Run(t, Initial(grid), events).Some?
    ensures
      var s := Run(t, Initial(grid), events).value;
      && s.grid == Draw(t, grid, Changes(events)) && s.feeds == |Chunks(Changes(events))|
      && Chunks(Changes(events)) <= Received(events)
      && (!s.feeder.Got? ==> Chunks(Changes(events)) == Received(events))
  {
    GridIsDrawn(t, grid, events);
  }

  lemma StepKeepsLooked<G, B>(t: Session<G, B>, s: State<G, B>, e: Event<B>, id: nat)
    requires Apply(t, s, e).Some? && id in Apply(t, s, e).value.waiters
    ensures
      var s' := Apply(t, s, e).value;
      var looked := Looked(s'.waiters[id]);
      && (e == CheckGrid(id) ==> looked == Some(s.grid))
      && (e == CheckGrid(id) && CheckOf(s'.waiters[id]).Some? ==> CheckOf(s'.waiters[id]).value.feeds == s.feeds)
      && (e != CheckGrid(id) && looked.Some? ==>
           id in s.waiters && Looked(s.waiters[id]) == looked && CheckOf(s.waiters[id]) == CheckOf(s'.waiters[id]))
  {
  }

  /** What a waiter's outcome rests on is the grid drawn before its last check. */
  lemma {:induction false} LookedAtCheck<G, B>(t: Session<G, B>, grid: G, events: seq<Event<B>>, id: nat)
    returns (k: nat)
    requires Run(t, Initial(grid), events).Some?
    requires
      var s := Run(t, Initial(grid), events).value;
      id in s.waiters && Looked(s.waiters[id]).Some?
    ensures LastAt(events, CheckGrid(id), k)
    ensures
      var w := Run(t, Initial(grid), events).value.waiters[id];
      && Looked(w) == Some(Draw(t, grid, Changes(events[..k])))
      && (CheckOf(w).Some? ==> CheckOf(w).value.feeds == |Chunks(Changes(events[..k]))|)
    decreases |events|
  {
    var n := |events| - 1;
    RunBefore(t, Initial(grid), events);
    StepKeepsLooked(t, Run(t, Initial(grid), events[..n]).value, events[n], id);
    hide *;
    if events[n] == CheckGrid(id) {
      k := n;
      LastEvent(events);
      TheGrid(t, grid, events[..n]);
    } else {
      k := LookedAtCheck(t, grid, events[..n], id);
      StillLast(events, CheckGrid(id), k);
    }
  }

  /** A matched outcome: the condition held on the grid drawn before the waiter's last check. */
  lemma MatchedMeansMet<G, B>(t: Session<G, B>, grid: G, events: seq<Event<B>>, id: nat) returns (k: nat)
    requires Run(t, Initial(grid), events).Some?
    requires
      var s := Run(t, Initial(grid), events).value;
      id in s.waiters && s.waiters[id].Matched?
    ensures LastAt(events, CheckGrid(id), k)
    ensures t.met(id, Draw(t, grid, Changes(events[..k])))
  {
    RunKeepsInv(t, grid, events);
    k := LookedAtCheck(t, grid, events, id);
    var s := Run(t, Initial(grid), events).value;
    assert WaiterInv(t, s, id, s.waiters[id]);
  }

  /** The screen of an unmatched outcome is the grid drawn before the waiter's snapshot. */
  lemma {:induction false} ScreenIsDrawn<G, B>(t: Session<G, B>, grid: G, events: seq<Event<B>>, id: nat)
    returns (k: nat)
    requires Run(t, Initial(grid), events).Some?
    requires
      var s := Run(t, Initial(grid), events).value;
      id in s.waiters && s.waiters[id].Unmatched?
    ensures LastAt(events, Snap(id), k)
    ensures Run(t, Initial(grid), events).value.waiters[id].screen == Draw(t, grid, Changes(events[..k]))
    decreases |events|
  {
    var n := |events| - 1;
    RunBefore(t, Initial(grid), events);
    StepKeepsScreen(t, Run(t, Initial(grid), events[..n]).value, events[n], id);
    hide *;
    if events[n] == Snap(id) {
      k := n;
      LastEvent(events);
      TheGrid(t, grid, events[..n]);
    } else {
      k := ScreenIsDrawn(t, grid, events[..n], id);
      StillLast(events, Snap(id), k);
    }
  }

  lemma StepKeepsScreen<G, B>(t: Session<G, B>, s: State<G, B>, e: Event<B>, id: nat)
    requires Apply(t, s, e).Some? && id in Apply(t, s, e).value.waiters
    requires Apply(t, s, e).value.waiters[id].Unmatched?
    ensures
      var w := Apply(t, s, e).value.waiters[id];
      if e == Snap(id) then w.screen == s.grid else id in s.waiters && s.waiters[id] == w
  {
  }

  /** Later events only add chunks. */
  lemma {:induction false} ReceivedGrows<B>(events: seq<Event<B>>, k: nat)
    requires k <= |events|
    ensures Received(events[..k]) <= Received(events)
    ensures Chunks(Changes(events[..k])) <= Chunks(Changes(events))
    decreases |events|
  {
    hide *;
    if k == |events| {
      assert events[..k] == events;
    } else {
      ReceivedGrows(events[..|events| - 1], k);
      assert events[..|events| - 1][..k] == events[..k];
      GrowsByOne(events);
    }
  }

  lemma GrowsByOne<B>(events: seq<Event<B>>)
    requires events != []
    ensures
      var front := events[..|events| - 1];
      Received(front) <= Received(events) && Chunks(Changes(front)) <= Chunks(Changes(events))
  {
    var front, last := events[..|events| - 1], events[|events| - 1];
    ChunksConcat(Changes(front), LatestChange(front, last));
  }

  lemma NoneReceived<B>(events: seq<Event<B>>, k: nat)
    requires k <= |events| && |Received(events[..k])| == |Received(events)|
    ensures forall j :: k <= j < |events| ==> !events[j].Receive?
  {
    hide Received, Changes, Chunks;
    forall j | k <= j < |events| && events[j].Receive?
      ensures false
    {
      assert events[..j][..k] == events[..k];
      ReceivedGrows(events[..j], k);
      ReceiveAdds(events, j);
      ReceivedGrows(events, j + 1);
    }
  }

  lemma ReceiveAdds<B>(events: seq<Event<B>>, j: nat)
    requires j < |events| && events[j].Receive?
    ensures |Received(events[..j + 1])| == |Received(events[..j])| + 1
  {
    assert events[..j + 1][..j] == events[..j] && events[..j + 1][j] == events[j];
  }

  lemma {:induction false} ChunksConcat<B>(a: seq<Change<B>>, b: seq<Change<B>>)
    ensures Chunks(a + b) == Chunks(a) + Chunks(b)
    decreases |b|
  {
    if b == [] {
      assert a + b == a;
    } else {
      assert (a + b)[..|a + b| - 1] == a + b[..|b| - 1];
      ChunksConcat(a, b[..|b| - 1]);
    }
  }

  /** An unmatched `ended` outcome: the condition failed on a grid drawn from every chunk ever received,
      in order; no chunk came after that check; and unless a resize went unannounced since then, the
      grid is still that one. */
  lemma EndedMeansNeverMet<G, B>(t: Session<G, B>, grid: G, events: seq<Event<B>>, id: nat) returns (k: nat)
    requires Run(t, Initial(grid), events).Some?
    requires
      var s := Run(t, Initial(grid), events).value;
      id in s.waiters && s.waiters[id].Unmatched? && s.waiters[id].ended
    ensures LastAt(events, CheckGrid(id), k)
    ensures
      var s := Run(t, Initial(grid), events).value;
      var checked := Changes(events[..k]);
      && !t.met(id, Draw(t, grid, checked))
      && Chunks(checked) == Received(events)
      && (forall j :: k <= j < |events| ==> !events[j].Receive?)
      && s.feeder.Ended?
      && (NothingLostSince(s, s.waiters[id].check) ==>
           s.grid == Draw(t, grid, checked) && Draw(t, grid, Changes(events)) == Draw(t, grid, checked))
  {
    RunKeepsInv(t, grid, events);
    k := LookedAtCheck(t, grid, events, id);
    EndedState(t, Run(t, Initial(grid), events).value, id);
    hide Run, Apply, Changes, Draw, Inv, Closed, Chunks, Received;
    TheGrid(t, grid, events);
    RunPrefix(t, Initial(grid), events, k);
    TheGrid(t, grid, events[..k]);
    ReceivedGrows(events, k);
    NoneReceived(events, k);
  }

  lemma EndedState<G, B>(t: Session<G, B>, s: State<G, B>, id: nat)
    requires Inv(t, s) && id in s.waiters && s.waiters[id].Unmatched? && s.waiters[id].ended
    ensures
      var c := s.waiters[id].check;
      && !t.met(id, c.grid) && s.feeder.Ended? && c.feeds == s.feeds
      && (NothingLostSince(s, c) ==> c.grid == s.grid)
  {
    assert WaiterInv(t, s, id, s.waiters[id]);
  }

  lemma {:induction false} RunPrefix<G, B>(t: Session<G, B>, s: State<G, B>, events: seq<Event<B>>, k: nat)
    requires Run(t, s, events).Some? && k <= |events|
    ensures Run(t, s, events[..k]).Some?
    decreases |events|
  {
    if k == |events| {
      assert events[..k] == events;
    } else {
      RunPrefix(t, s, events[..|events| - 1], k);
      assert events[..|events| - 1][..k] == events[..k];
    }
  }

  /** A grid and how often it was resized. */
  datatype Counted<G> = Counted(grid: G, resizes: nat)

  /** The same session, on grids that count their resizes; waiter `id` now also waits for the one
      with `limit` resizes. */
  function Counting<G, B>(t: Session<G, B>, id: nat, limit: nat): Session<Counted<G>, B> {
    Session(
      (g: Counted<G>, b: B) => Counted(t.feed(g.grid, b), g.resizes),
      (g: Counted<G>, cols: nat, rows: nat) => Counted(t.resize(g.grid, cols, rows), g.resizes + 1),
      (j: nat, g: Counted<G>) => (j == id && g.resizes == limit) || t.met(j, g.grid))
  }

  ghost predicate SameCheck<G>(c: Check<G>, c': Check<Counted<G>>) {
    c'.grid.grid == c.grid && c'.feeds == c.feeds && c'.losses == c.losses
  }

  ghost predicate SameWaiter<G>(w: Waiter<G>, w': Waiter<Counted<G>>) {
    match w
    case Looping => w'.Looping?
    case Marked(seen) => w' == Marked(seen)
    case Parked(seen, c) => w'.Parked? && w'.seen == seen && SameCheck(c, w'.check)
    case Ending(ended, c) => w'.Ending? && w'.ended == ended && SameCheck(c, w'.check)
    case Matched(g) => w'.Matched? && w'.grid.grid == g
    case Unmatched(ended, c, screen) =>
      w'.Unmatched? && w'.ended == ended && SameCheck(c, w'.check) && w'.screen.grid == screen
  }

  ghost predicate SameRun<G, B>(s: State<G, B>, s': State<Counted<G>, B>, resizes: nat) {
    && s'.grid == Counted(s.grid, resizes)
    && s'.generation == s.generation && s'.feeder == s.feeder && s'.lock == s.lock
    && s'.feeds == s.feeds && s'.losses == s.losses
    && s'.waiters.Keys == s.waiters.Keys
    && forall id :: id in s.waiters ==> SameWaiter(s.waiters[id], s'.waiters[id])
  }

  lemma SessionStepCounts<G, B>(
      t: Session<G, B>, id: nat, limit: nat, s: State<G, B>, s': State<Counted<G>, B>, n: nat, e: Event<B>)
    requires SameRun(s, s', n) && Apply(t, s, e).Some? && ByFeederOrResizer(e)
    ensures Apply(Counting(t, id, limit), s', e).Some?
    ensures SameRun(Apply(t, s, e).value, Apply(Counting(t, id, limit), s', e).value,
                    if e.ResizeGrid? then n + 1 else n)
  {
  }

  lemma WaiterStepCounts<G, B>(
      t: Session<G, B>, id: nat, limit: nat, s: State<G, B>, s': State<Counted<G>, B>, n: nat, e: Event<B>)
    requires SameRun(s, s', n) && Apply(t, s, e).Some? && !ByFeederOrResizer(e)
    requires e == CheckGrid(id) ==> n < limit
    ensures Apply(Counting(t, id, limit), s', e).Some?
    ensures SameRun(Apply(t, s, e).value, Apply(Counting(t, id, limit), s', e).value, n)
  {
  }

  /** As long as waiter `id` checks before that resize, the two sessions run alike. */
  lemma {:induction false} RunsCount<G, B>(t: Session<G, B>, id: nat, limit: nat, grid: G, events: seq<Event<B>>)
    requires Run(t, Initial(grid), events).Some? && LastCheck(events, id) < limit
    ensures Run(Counting(t, id, limit), Initial(Counted(grid, 0)), events).Some?
    ensures SameRun(Run(t, Initial(grid), events).value,
                    Run(Counting(t, id, limit), Initial(Counted(grid, 0)), events).value, Resizes(events))
    decreases |events|
  {
    if events != [] {
      hide Apply, SameRun, Counting;
      var n := |events| - 1;
      RunsCount(t, id, limit, grid, events[..n]);
      var s := Run(t, Initial(grid), events[..n]).value;
      var s' := Run(Counting(t, id, limit), Initial(Counted(grid, 0)), events[..n]).value;
      if ByFeederOrResizer(events[n]) {
        SessionStepCounts(t, id, limit, s, s', Resizes(events[..n]), events[n]);
      } else {
        WaiterStepCounts(t, id, limit, s, s', Resizes(events[..n]), events[n]);
      }
    } else {
      assert SameRun(Initial(grid), Initial<Counted<G>, B>(Counted(grid, 0)), 0);
    }
  }

  /** The proviso is exact for schedules: whenever a resize went unannounced after the last check,
      the same events are a run of another session in which the `ended` outcome is wrong. */
  lemma LostResizeCanMislead<G, B>(t: Session<G, B>, grid: G, events: seq<Event<B>>, id: nat)
    requires Run(t, Initial(grid), events).Some?
    requires
      var s := Run(t, Initial(grid), events).value;
      id in s.waiters && s.waiters[id].Unmatched? && s.waiters[id].ended
      && !NothingLostSince(s, s.waiters[id].check)
    ensures
      var t' := Counting(t, id, Resizes(events));
      var end := Run(t', Initial(Counted(grid, 0)), events);
      && end.Some?
      && id in end.value.waiters && end.value.waiters[id].Unmatched? && end.value.waiters[id].ended
      && t'.met(id, end.value.grid)
  {
    LossNeedsResize(t, grid, events, id);
    RunsCount(t, id, Resizes(events), grid, events);
    hide Run;
    assert SameWaiter(Run(t, Initial(grid), events).value.waiters[id],
                      Run(Counting(t, id, Resizes(events)), Initial(Counted(grid, 0)), events).value.waiters[id]);
  }

  /** Once the feeder has ended, only resizes change the grid, and each of them is unannounced. */
  lemma AfterTheEnd<G, B>(t: Session<G, B>, s: State<G, B>, e: Event<B>)
    requires Inv(t, s) && Closed(s) && Apply(t, s, e).Some?
    ensures
      var s' := Apply(t, s, e).value;
      && Closed(s') && s'.feeds == s.feeds && s'.generation == s.generation
      && (s'.grid != s.grid ==> s'.lock == ByResizer(Resized))
      && (s.lock == ByResizer(Resized) && s'.lock != s.lock ==> s'.losses == s.losses + 1)
  {
  }

  /** Without the proviso the claim fails: a resize after the feeder ended can make the condition
      true without waking a parked waiter, who then reports `ended`. */
  lemma LateResizeIsMissed()
    ensures
      var t := LateResizeSession();
      var end := Run(t, Initial(false), LateResizeEvents());
      && end.Some?
      && end.value.waiters == map[0 := Unmatched(true, Check(false, 0, 0), true)]
      && t.met(0, end.value.grid)
  {
    LateResizeRun(12);
    assert LateResizeEvents()[..12] == LateResizeEvents();
  }

  /** A grid that is just whether the awaited text shows, which any resize brings into view. */
  ghost function LateResizeSession(): Session<bool, nat> {
    Session((g, b) => g, (g, cols, rows) => true, (id, g) => g)
  }

  ghost function LateResizeEvents(): seq<Event<nat>> {
    [Begin(0), Mark(0), WaiterLock(0), CheckGrid(0), FeederEnd,
     ResizeLock, ResizeGrid(80, 24), ResizeUpgrade, ResizeUnlock,
     SeeClosed(0), SnapLock(0), Snap(0)]
  }

  /** The state after the first `i` of these events. */
  ghost function LateResizeState(i: nat): State<bool, nat> {
    var c := Check(false, 0, 0);
    State(
      i >= 7,
      0,
      if i >= 5 then Ended else Receiving,
      if i == 3 || i == 11 then ByWaiter(0)
      else if i == 6 then ByResizer(Locked)
      else if i == 7 then ByResizer(Resized)
      else if i == 8 then ByResizer(Leaving)
      else Free,
      if i == 0 then map[]
      else if i == 1 then map[0 := Looping]
      else if i <= 3 then map[0 := Marked(0)]
      else if i <= 9 then map[0 := Parked(0, c)]
      else if i <= 11 then map[0 := Ending(true, c)]
      else map[0 := Unmatched(true, c, true)],
      0,
      if i >= 8 then 1 else 0)
  }

  lemma LateResizeStep(i: nat)
    requires i < 12
    ensures Apply(LateResizeSession(), LateResizeState(i), LateResizeEvents()[i]) == Some(LateResizeState(i + 1))
  {
    var s, e := LateResizeState(i), LateResizeEvents()[i];
    if i in {4, 5, 6, 7, 8} {
      assert ByFeederOrResizer(e);
    } else {
      assert Apply(LateResizeSession(), s, e).value.waiters == LateResizeState(i + 1).waiters;
    }
  }

  lemma {:induction false} LateResizeRun(i: nat)
    requires i <= 12
    ensures Run(LateResizeSession(), Initial(false), LateResizeEvents()[..i]) == Some(LateResizeState(i))
  {
    if i > 0 {
      LateResizeRun(i - 1);
      LateResizeStep(i - 1);
      var prefix := LateResizeEvents()[..i];
      assert prefix[..i - 1] == LateResizeEvents()[..i - 1] && prefix[i - 1] == LateResizeEvents()[i - 1];
    }
  }
}
