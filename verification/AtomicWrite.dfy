/** Atomic replacement of one file: any number of writers in any number of processes, each of
    which may fail, or stop for good, at any step. */
module AtomicWrite {
  import opened Wrappers

  // ---------------------------------------------------------------- temporary names

  function Decimal(n: nat): string {
    if n < 10 then ['0' + n as char] else Decimal(n / 10) + ['0' + (n % 10) as char]
  }

  function TempName(final: string, pid: nat, nonce: nat): string {
    final + "." + Decimal(pid) + "." + Decimal(nonce) + ".tmp"
  }

  lemma {:induction false} DecimalDigits(n: nat)
    ensures Decimal(n) != "" && forall c :: c in Decimal(n) ==> '0' <= c <= '9'
  {
    if n >= 10 {
      DecimalDigits(n / 10);
    }
  }

  lemma {:induction false} DecimalInjective(m: nat, n: nat)
    requires Decimal(m) == Decimal(n)
    ensures m == n
    decreases m
  {
    var a, b := Decimal(m), Decimal(n);
    assert a[|a| - 1] == '0' + (m % 10) as char && b[|b| - 1] == '0' + (n % 10) as char;
    DecimalDigits(m / 10);
    DecimalDigits(n / 10);
    if m >= 10 {
      assert a[..|a| - 1] == Decimal(m / 10) && b[..|b| - 1] == Decimal(n / 10);
      DecimalInjective(m / 10, n / 10);
    }
  }

  /** Two strings of digits followed by a dot are equal only piece by piece. */
  lemma DigitsThenDot(a: string, x: string, b: string, y: string)
    requires forall c :: c in a ==> '0' <= c <= '9'
    requires forall c :: c in b ==> '0' <= c <= '9'
    requires a + "." + x == b + "." + y
    ensures a == b && x == y
  {
    var s := a + "." + x;
    assert forall i :: 0 <= i < |a| ==> s[i] == a[i] && a[i] in a;
    assert forall i :: 0 <= i < |b| ==> s[i] == b[i] && b[i] in b;
    assert s[|a|] == '.' && s[|b|] == '.';
    assert |a| == |b|;
    assert s[..|a|] == a && s[..|b|] == b;
    assert s[|a| + 1..] == x && s[|b| + 1..] == y;
  }

  /** Process id and counter make the temporary name unique, and never the final one. */
  lemma TempNamesDiffer(final: string, p: nat, m: nat, q: nat, n: nat)
    ensures TempName(final, p, m) == TempName(final, q, n) ==> p == q && m == n
    ensures TempName(final, p, m) != final
  {
    DecimalDigits(p);
    DecimalDigits(q);
    DecimalDigits(m);
    DecimalDigits(n);
    assert |TempName(final, p, m)| > |final|;
    if TempName(final, p, m) == TempName(final, q, n) {
      var x, y := Decimal(m) + ".tmp", Decimal(n) + ".tmp";
      TempNameParts(final, p, m);
      TempNameParts(final, q, n);
      DigitsThenDot(Decimal(p), x, Decimal(q), y);
      assert x == Decimal(m) + "." + "tmp" && y == Decimal(n) + "." + "tmp";
      DigitsThenDot(Decimal(m), "tmp", Decimal(n), "tmp");
      DecimalInjective(p, q);
      DecimalInjective(m, n);
    }
  }

  lemma TempNameParts(final: string, p: nat, m: nat)
    ensures TempName(final, p, m)[|final| + 1..] == Decimal(p) + "." + (Decimal(m) + ".tmp")
  {
  }

  // ---------------------------------------------------------------- the steps

  datatype Stage = Named | Opened(written: nat) | Written | Failed | Done(ok: bool) | Dead

  datatype Writer = Writer(pid: nat, nonce: nat, contents: string, stage: Stage)

  datatype State = State(
    files: map<string, string>,
    nonces: map<nat, nat>,
    writers: map<nat, Writer>,
    /** The writer whose rename came last (for the proofs only). */
    last: Option<nat>)

  datatype Event =
    | Begin(w: nat, pid: nat, contents: string)
    | Open(w: nat) | OpenFails(w: nat)
    | WriteUpTo(w: nat, n: nat) | WriteEnds(w: nat) | WriteFails(w: nat)
    | Rename(w: nat) | RenameFails(w: nat)
    | RemoveTemp(w: nat) | RemoveFails(w: nat)
    | Exit(pid: nat)

  function NextNonce(s: State, pid: nat): nat {
    if pid in s.nonces then s.nonces[pid] else 0
  }

  /** The writer has steps left to take. */
  predicate Live(x: Writer) {
    !x.stage.Done? && !x.stage.Dead?
  }

  /** A process exits: its writers stop where they are, and its counter is gone, so that a later
      process with the same id starts at 0 again. */
  function AfterExit(s: State, pid: nat): State {
    s.(nonces := s.nonces - {pid},
       writers := map w | w in s.writers ::
         if s.writers[w].pid == pid && Live(s.writers[w]) then s.writers[w].(stage := Dead) else s.writers[w])
  }

  function Move(s: State, w: nat, stage: Stage): State
    requires w in s.writers
  {
    s.(writers := s.writers[w := s.writers[w].(stage := stage)])
  }

  function Temp(final: string, x: Writer): string {
    TempName(final, x.pid, x.nonce)
  }

  /** The state after one step, or `None` where it cannot happen. */
  function Apply(final: string, s: State, e: Event): Option<State> {
    if e.Exit? then Some(AfterExit(s, e.pid))
    else if e.Begin? then
      if e.w in s.writers then None
      else
        var nonce := NextNonce(s, e.pid);
        Some(s.(nonces := s.nonces[e.pid := nonce + 1],
                writers := s.writers[e.w := Writer(e.pid, nonce, e.contents, Named)]))
    else if e.w !in s.writers then None
    else
      var x := s.writers[e.w];
      var tmp := Temp(final, x);
      match (e, x.stage)
      case (Open(w), Named) =>
        if tmp in s.files then Some(Move(s, w, Failed))
        else Some(Move(s, w, Opened(0)).(files := s.files[tmp := ""]))
      case (OpenFails(w), Named) => Some(Move(s, w, Failed))
      case (WriteUpTo(w, n), Opened(m)) =>
        if m < n <= |x.contents| then
          Some(Move(s, w, Opened(n)).(files := if tmp in s.files then s.files[tmp := x.contents[..n]] else s.files))
        else None
      case (WriteEnds(w), Opened(m)) => if m == |x.contents| then Some(Move(s, w, Written)) else None
      case (WriteFails(w), Opened(_)) => Some(Move(s, w, Failed))
      case (Rename(w), Written) =>
        if tmp in s.files then
          Some(Move(s, w, Done(true)).(files := (s.files - {tmp})[final := s.files[tmp]], last := Some(w)))
        else Some(Move(s, w, Failed))
      case (RenameFails(w), Written) => Some(Move(s, w, Failed))
      case (RemoveTemp(w), Failed) => Some(Move(s, w, Done(false)).(files := s.files - {tmp}))
      case (RemoveFails(w), Failed) => Some(Move(s, w, Done(false)))
      case _ => None
  }

  function Run(final: string, s: State, events: seq<Event>): Option<State> {
    if events == [] then Some(s)
    else
      var before := Run(final, s, events[..|events| - 1]);
      if before.None? then None else Apply(final, before.value, events[|events| - 1])
  }

  function Initial(files: map<string, string>): State {
    State(files, map[], map[], None)
  }

  function Content(s: State, path: string): Option<string> {
    if path in s.files then Some(s.files[path]) else None
  }

  // ---------------------------------------------------------------- the invariant

  /** No two writers that are still at work share both process id and counter. */
  ghost predicate NoncesUnique(s: State) {
    && (forall w :: w in s.writers && Live(s.writers[w]) ==> s.writers[w].nonce < NextNonce(s, s.writers[w].pid))
    && (forall v, w :: v in s.writers && w in s.writers && v != w && Live(s.writers[v]) && Live(s.writers[w]) ==>
          s.writers[v].pid != s.writers[w].pid || s.writers[v].nonce != s.writers[w].nonce)
  }

  /** While a writer is writing, its temporary file holds exactly what it wrote so far. */
  ghost predicate TempHolds(final: string, s: State, x: Writer) {
    match x.stage
    case Opened(n) => n <= |x.contents| && Content(s, Temp(final, x)) == Some(x.contents[..n])
    case Written => Content(s, Temp(final, x)) == Some(x.contents)
    case _ => true
  }

  ghost predicate FinalHolds(final: string, initial: Option<string>, s: State) {
    if s.last.None? then Content(s, final) == initial
    else
      && s.last.value in s.writers
      && s.writers[s.last.value].stage == Done(true)
      && Content(s, final) == Some(s.writers[s.last.value].contents)
  }

  ghost predicate Inv(final: string, initial: Option<string>, s: State) {
    && NoncesUnique(s)
    && (forall w :: w in s.writers ==> TempHolds(final, s, s.writers[w]))
    && FinalHolds(final, initial, s)
  }

  /** A step begins a writer with the next nonce, ends a process, or keeps every writer's name and
      revives none. */
  lemma StepNames(final: string, s: State, e: Event)
    requires Apply(final, s, e).Some?
    ensures
      var s' := Apply(final, s, e).value;
      if e.Exit? then s' == AfterExit(s, e.pid)
      else if e.Begin? then
        && e.w !in s.writers
        && s'.writers == s.writers[e.w := Writer(e.pid, NextNonce(s, e.pid), e.contents, Named)]
        && s'.nonces == s.nonces[e.pid := NextNonce(s, e.pid) + 1]
      else
        && s'.nonces == s.nonces
        && s'.writers.Keys == s.writers.Keys
        && forall w :: w in s.writers ==>
             && s'.writers[w].pid == s.writers[w].pid && s'.writers[w].nonce == s.writers[w].nonce
             && (Live(s'.writers[w]) ==> Live(s.writers[w]))
  {
  }

  lemma StepKeepsNonces(final: string, s: State, e: Event)
    requires NoncesUnique(s) && Apply(final, s, e).Some?
    ensures NoncesUnique(Apply(final, s, e).value)
  {
    StepNames(final, s, e);
    hide Apply;
  }

  /** What one writer does leaves the temporary files of the others alone. */
  lemma OthersKeepTemp(final: string, s: State, e: Event, w: nat)
    requires NoncesUnique(s) && Apply(final, s, e).Some? && !e.Exit? && !e.Begin?
    requires w in s.writers && e.w != w && Live(s.writers[w])
    ensures
      var s' := Apply(final, s, e).value;
      s'.writers[w] == s.writers[w]
      && Content(s', Temp(final, s.writers[w])) == Content(s, Temp(final, s.writers[w]))
  {
    var x, y := s.writers[w], s.writers[e.w];
    TempNamesDiffer(final, x.pid, x.nonce, x.pid, x.nonce);
    TempNamesDiffer(final, x.pid, x.nonce, y.pid, y.nonce);
    hide TempName;
  }

  lemma StepKeepsTemps(final: string, s: State, e: Event, w: nat)
    requires NoncesUnique(s) && Apply(final, s, e).Some?
    requires forall v :: v in s.writers ==> TempHolds(final, s, s.writers[v])
    requires w in Apply(final, s, e).value.writers
    ensures TempHolds(final, Apply(final, s, e).value, Apply(final, s, e).value.writers[w])
  {
    hide TempName, NoncesUnique;
    if w in s.writers && !e.Exit? && !e.Begin? {
      var x := s.writers[w];
      assert TempHolds(final, s, x);
      if e.w != w && Live(x) {
        OthersKeepTemp(final, s, e, w);
      } else if e.WriteEnds? {
        assert x.contents[..|x.contents|] == x.contents;
      }
    }
  }

  lemma StepKeepsFinal(final: string, initial: Option<string>, s: State, e: Event)
    requires Inv(final, initial, s) && Apply(final, s, e).Some?
    ensures FinalHolds(final, initial, Apply(final, s, e).value)
  {
    if !e.Begin? && !e.Exit? {
      var x := s.writers[e.w];
      TempNamesDiffer(final, x.pid, x.nonce, x.pid, x.nonce);
      assert TempHolds(final, s, x);
    }
  }

  lemma {:induction false} RunKeepsInv(final: string, files: map<string, string>, events: seq<Event>)
    requires Run(final, Initial(files), events).Some?
    ensures Inv(final, Content(Initial(files), final), Run(final, Initial(files), events).value)
    decreases |events|
  {
    if events != [] {
      var n := |events| - 1;
      RunKeepsInv(final, files, events[..n]);
      var s := Run(final, Initial(files), events[..n]).value;
      StepKeepsNonces(final, s, events[n]);
      StepKeepsFinal(final, Content(Initial(files), final), s, events[n]);
      forall w | w in Apply(final, s, events[n]).value.writers
        ensures TempHolds(final, Apply(final, s, events[n]).value, Apply(final, s, events[n]).value.writers[w])
      {
        StepKeepsTemps(final, s, events[n], w);
      }
    }
  }

  // ---------------------------------------------------------------- what readers see

  /** At every moment the final path holds its first contents or the complete contents of a
      writer that succeeded; once any writer has succeeded, the first contents are gone. */
  lemma NeverTorn(final: string, files: map<string, string>, events: seq<Event>)
    requires Run(final, Initial(files), events).Some?
    ensures
      var s := Run(final, Initial(files), events).value;
      || (Content(s, final) == Content(Initial(files), final)
          && forall w :: w in s.writers ==> s.writers[w].stage != Done(true))
      || (exists w :: w in s.writers && s.writers[w].stage == Done(true)
                      && Content(s, final) == Some(s.writers[w].contents))
  {
    RunKeepsInv(final, files, events);
    LastIsSet(final, files, events);
    var s := Run(final, Initial(files), events).value;
    if s.last.Some? {
      assert s.last.value in s.writers;
    }
  }

  lemma StepKeepsLast(final: string, s: State, e: Event)
    requires Apply(final, s, e).Some?
    requires s.last.None? ==> forall w :: w in s.writers ==> s.writers[w].stage != Done(true)
    ensures
      var s' := Apply(final, s, e).value;
      s'.last.None? ==> forall w :: w in s'.writers ==> s'.writers[w].stage != Done(true)
  {
  }

  lemma {:induction false} LastIsSet(final: string, files: map<string, string>, events: seq<Event>)
    requires Run(final, Initial(files), events).Some?
    ensures
      var s := Run(final, Initial(files), events).value;
      s.last.None? ==> forall w :: w in s.writers ==> s.writers[w].stage != Done(true)
    decreases |events|
  {
    if events != [] {
      LastIsSet(final, files, events[..|events| - 1]);
      StepKeepsLast(final, Run(final, Initial(files), events[..|events| - 1]).value, events[|events| - 1]);
      hide Apply;
    }
  }

  /** Only a rename that succeeds changes the final path, and it installs the writer's whole
      contents; every failing step, cleanup included, leaves it alone. */
  lemma OnlyRenameInstalls(final: string, files: map<string, string>, events: seq<Event>, e: Event)
    requires Run(final, Initial(files), events).Some?
    requires Apply(final, Run(final, Initial(files), events).value, e).Some?
    ensures
      var s := Run(final, Initial(files), events).value;
      var s' := Apply(final, s, e).value;
      if !e.Begin? && !e.Exit? && s'.writers[e.w].stage == Done(true) then
        && e.Rename?
        && Content(s', final) == Some(s'.writers[e.w].contents)
        && Content(s', Temp(final, s'.writers[e.w])) == None
      else Content(s', final) == Content(s, final)
  {
    RunKeepsInv(final, files, events);
    var s := Run(final, Initial(files), events).value;
    if !e.Begin? && !e.Exit? {
      var x := s.writers[e.w];
      TempNamesDiffer(final, x.pid, x.nonce, x.pid, x.nonce);
      assert TempHolds(final, s, x);
    }
  }

  /** A rename is never lost to a missing temporary file: no other writer removes it. */
  lemma RenameFindsTemp(final: string, files: map<string, string>, events: seq<Event>, w: nat)
    requires Run(final, Initial(files), events).Some?
    requires
      var s := Run(final, Initial(files), events).value;
      w in s.writers && s.writers[w].stage == Written
    ensures
      var s := Run(final, Initial(files), events).value;
      Apply(final, s, Rename(w)).Some? && Apply(final, s, Rename(w)).value.writers[w].stage == Done(true)
  {
    RunKeepsInv(final, files, events);
    var s := Run(final, Initial(files), events).value;
    assert TempHolds(final, s, s.writers[w]);
  }

  // ---------------------------------------------------------------- what cleanup removes

  /** The cleanup of a failed writer, after a collision of names too, removes no file that a writer
      still at work uses, and not the final one. */
  lemma CleanupSparesTheLive(final: string, files: map<string, string>, events: seq<Event>, v: nat, w: nat)
    requires Run(final, Initial(files), events).Some?
    requires Apply(final, Run(final, Initial(files), events).value, RemoveTemp(v)).Some?
    requires
      var s := Run(final, Initial(files), events).value;
      w in s.writers && w != v && Live(s.writers[w])
    ensures
      var s := Run(final, Initial(files), events).value;
      var s' := Apply(final, s, RemoveTemp(v)).value;
      && Content(s', Temp(final, s.writers[w])) == Content(s, Temp(final, s.writers[w]))
      && Content(s', final) == Content(s, final)
  {
    RunKeepsInv(final, files, events);
    OthersKeepTemp(final, Run(final, Initial(files), events).value, RemoveTemp(v), w);
    OnlyRenameInstalls(final, files, events, RemoveTemp(v));
  }

  /** A writer ends by renaming its temporary file or, after a failure, by trying to remove it; unless
      the removal itself fails, no temporary file is left under its name. */
  lemma EndingStep(final: string, s: State, e: Event)
    requires Apply(final, s, e).Some? && !e.Begin? && !e.Exit?
    ensures
      var s' := Apply(final, s, e).value;
      var before, after := s.writers[e.w].stage, s'.writers[e.w].stage;
      && !before.Done?
      && (after == Done(true) ==> e.Rename? && before == Written)
      && (after == Done(false) ==> (e.RemoveTemp? || e.RemoveFails?) && before == Failed)
      && (after.Done? && !e.RemoveFails? ==> Content(s', Temp(final, s.writers[e.w])) == None)
      && (e.RemoveFails? ==> s'.files == s.files)
      && (e.OpenFails? || e.WriteFails? || e.RenameFails? ==> after == Failed && s'.files == s.files)
  {
    var x := s.writers[e.w];
    TempNamesDiffer(final, x.pid, x.nonce, x.pid, x.nonce);
    hide TempName;
  }

  lemma OtherStageKept(final: string, s: State, e: Event, w: nat)
    requires Apply(final, s, e).Some? && w in Apply(final, s, e).value.writers
    requires Apply(final, s, e).value.writers[w].stage.Done?
    ensures w in s.writers
    ensures e.Begin? || e.Exit? || e.w != w ==> s.writers[w].stage == Apply(final, s, e).value.writers[w].stage
  {
    hide TempName;
  }

  /** So in every run: who succeeded renamed, and who failed went through the removal. */
  lemma {:induction false} EndedHow(final: string, files: map<string, string>, events: seq<Event>, w: nat)
    returns (k: nat)
    requires Run(final, Initial(files), events).Some?
    requires
      var s := Run(final, Initial(files), events).value;
      w in s.writers && s.writers[w].stage.Done?
    ensures k < |events|
    ensures
      if Run(final, Initial(files), events).value.writers[w].stage.ok then events[k] == Rename(w)
      else events[k] == RemoveTemp(w) || events[k] == RemoveFails(w)
    decreases |events|
  {
    var n := |events| - 1;
    var s, e := Run(final, Initial(files), events[..n]).value, events[n];
    OtherStageKept(final, s, e, w);
    if e.Begin? || e.Exit? || e.w != w {
      hide Apply;
      k := EndedHow(final, files, events[..n], w);
    } else {
      EndingStep(final, s, e);
      hide Apply;
      k := n;
    }
  }

  /** It can remove a file of a process that is gone: here process 7 dies with its temporary file in
      place, a new process 7 collides with it, fails, and takes it away. */
  lemma CleanupTakesDeadFile(final: string)
    ensures
      var tmp := TempName(final, 7, 0);
      var before, after := Run(final, Initial(map[]), DeadEvents()[..5]), Run(final, Initial(map[]), DeadEvents());
      && before.Some? && Content(before.value, tmp) == Some("")
      && before.value.writers.Keys == {0, 1}
      && before.value.writers[0].stage == Dead && before.value.writers[1].stage == Failed
      && after.Some? && Content(after.value, tmp) == None
  {
    DeadRun(final, 5);
    DeadRun(final, 6);
    assert DeadEvents()[..6] == DeadEvents();
    hide TempName;
  }

  ghost function DeadEvents(): seq<Event> {
    [Begin(0, 7, "x"), Open(0), Exit(7), Begin(1, 7, "y"), Open(1), RemoveTemp(1)]
  }

  /** The state after the first `i` of these events. */
  ghost function DeadState(final: string, i: nat): State {
    var old' := Writer(7, 0, "x", if i == 1 then Named else if i == 2 then Opened(0) else Dead);
    var new' := Writer(7, 0, "y", if i == 4 then Named else if i == 5 then Failed else Done(false));
    State(
      if 2 <= i <= 5 then map[TempName(final, 7, 0) := ""] else map[],
      if i == 0 || i == 3 then map[] else map[7 := 1],
      if i == 0 then map[] else if i <= 3 then map[0 := old'] else map[0 := old', 1 := new'],
      None)
  }

  lemma DeadStep(final: string, i: nat)
    requires i < 6
    ensures Apply(final, DeadState(final, i), DeadEvents()[i]) == Some(DeadState(final, i + 1))
  {
    hide TempName;
    var s := Apply(final, DeadState(final, i), DeadEvents()[i]).value;
    assert s.files == DeadState(final, i + 1).files;
    assert s.nonces == DeadState(final, i + 1).nonces;
    assert s.writers == DeadState(final, i + 1).writers;
  }

  lemma {:induction false} DeadRun(final: string, i: nat)
    requires i <= 6
    ensures Run(final, Initial(map[]), DeadEvents()[..i]) == Some(DeadState(final, i))
  {
    if i > 0 {
      hide Apply, DeadState;
      DeadRun(final, i - 1);
      DeadStep(final, i - 1);
      var prefix := DeadEvents()[..i];
      assert prefix[..i - 1] == DeadEvents()[..i - 1] && prefix[i - 1] == DeadEvents()[i - 1];
    }
  }
}
