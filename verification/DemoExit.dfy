/** Leaving the main loop of the demo application: exactly when, in every mode and over every fair
    behaviour, the exit thread ends the loop. */
module DemoExit {
  import opened Basics
  import opened DemoState
  import opened DemoProtocol

  // ---------------------------------------------------------------- EXIT stays published

  /** The main thread has noticed EXIT. */
  predicate Out(pc: Pc) { pc == Leaving || pc == Done }

  /** EXIT is published on both monitors, or was until the main thread noticed it. */
  ghost predicate Published(s: State) { s.sh.snep == SnepExit && (s.sh.dev == DevExit || Out(s.pc)) }

  /** A tag or reader arrives before the main thread has noticed EXIT. */
  predicate Undoes(s: State, a: Action) {
    && a.Finish? && a.t in s.threads && s.threads[a.t].todo != []
    && (s.threads[a.t].todo[0] == TagArrivalDev || s.threads[a.t].todo[0] == ActivatedDev)
    && !Out(s.pc)
  }

  /** Something that ends a wait for card emulation data: an APDU, the reader leaving, or a wakeup for no reason. */
  predicate Wakes(s: State, a: Action) {
    || a == Spurious
    || (a.Finish? && a.t in s.threads && s.threads[a.t].todo != [] && LockOf(s.threads[a.t].todo[0]) == HceLock)
  }

  /** Of all critical sections, exactly the two arrivals that carry a tag or a reader undo EXIT. */
  lemma ExitSurvivesIff(sec: Section, sh: Shared)
    requires sh.dev == DevExit
    ensures Effect(sec, sh).dev == DevExit <==> sec != TagArrivalDev && sec != ActivatedDev
    ensures sh.snep == SnepExit ==> Effect(sec, sh).snep == SnepExit
  {}

  /** The exit thread is somewhere in its two sections; once past the first, SNEP is at EXIT. */
  ghost predicate ExitProgress(s: State) {
    && Exit in s.threads
    && (s.threads[Exit].todo == EXIT_PROGRAM || s.threads[Exit].todo == [ExitDev] || s.threads[Exit].todo == [])
    && (s.threads[Exit].todo != EXIT_PROGRAM ==> s.sh.snep == SnepExit)
    && forall t, i :: t in s.threads && t != Exit && 0 <= i < |s.threads[t].todo| ==> s.threads[t].todo[i] != ExitDev
  }

  /** The last section of the exit thread. */
  predicate Publishes(s: State, a: Action) {
    a == Finish(Exit) && Exit in s.threads && s.threads[Exit].todo == [ExitDev]
  }

  lemma SnepExitPermanent(s: State, a: Action)
    requires Inv(s) && Enabled(s, a) && s.sh.snep == SnepExit
    ensures Next(s, a).sh.snep == SnepExit
  {
    hide MainHolds, MailboxOk, TypesOk, LocksOk, ModeOk;
  }

  lemma ExitProgressStep(s: State, a: Action)
    requires Inv(s) && Enabled(s, a) && ExitProgress(s)
    ensures ExitProgress(Next(s, a))
  {
    hide MailboxOk, TypesOk, LocksOk, ModeOk, Local, Wants;
    if s.sh.snep == SnepExit { SnepExitPermanent(s, a); }
    assert EXIT_PROGRAM[1..] == [ExitDev] && [ExitDev][1..] == [];
  }

  lemma PublishingPublishes(s: State, a: Action)
    requires Inv(s) && ExitProgress(s) && Enabled(s, a) && Publishes(s, a)
    ensures Published(Next(s, a)) && ExitOver(Next(s, a))
  {
    assert [ExitDev][1..] == [];
  }

  /** Steps left for the main thread; only a wait for card emulation data could hold it up. */
  function Measure(pc: Pc): nat {
    match pc
    case Done => 0
    case Leaving | Abandon => 1
    case Check | Loaded => 2
    case LoopTop | ArrivalSleep(_) => 3
    case LoopEnd => 4
    case Depart | DepartSleep(_) => 5
    case Relock | HceTest => 6
    case TagWork | OffDone | HceDev => 7
    case OffCheck | OffSleep(_) | HceSend => 8
    case OffTop | HceTake => 9
    case PushSend | DataSleep(_) => 10
    case PushDone | HceCheck => 11
    case PushBoth | ReadySleep(_) | PushArm | HceLoop => 12
    case PushDev | HceTop => 13
    case PushTop => 14
  }

  lemma WakeKeepsMeasure(pc: Pc)
    requires Asleep(pc).Some?
    ensures Measure(WakeUp(pc)) == Measure(pc)
  {}

  lemma LocalProgress(pc: Pc, sh: Shared, mode: Mode)
    requires (sh.dev == DevExit || Out(pc)) && sh.snep == SnepExit && LocalPoint(pc) && pc != PushArm
    ensures var (pc', sh') := Local(pc, sh, mode);
            Measure(pc') < Measure(pc) && sh'.dev == sh.dev && sh'.snep == sh.snep && (Out(pc) ==> Out(pc'))
  {
    hide MainHolds, Local, Wants;
    if ReaderPc(pc) { ReaderProgress(pc, sh, mode); } else { OtherProgress(pc, sh, mode); }
  }

  lemma ReaderProgress(pc: Pc, sh: Shared, mode: Mode)
    requires sh.dev == DevExit && LocalPoint(pc) && ReaderPc(pc)
    ensures var (pc', sh') := Local(pc, sh, mode); Measure(pc') < Measure(pc) && sh'.dev == sh.dev && sh'.snep == sh.snep
  {
    hide MainHolds;
  }

  lemma OtherProgress(pc: Pc, sh: Shared, mode: Mode)
    requires (sh.dev == DevExit || Out(pc)) && sh.snep == SnepExit && LocalPoint(pc) && pc != PushArm && !ReaderPc(pc)
    ensures var (pc', sh') := Local(pc, sh, mode); Measure(pc') < Measure(pc) && sh' == sh && (Out(pc) ==> Out(pc'))
  {
    hide MainHolds;
  }

  lemma LockingProgress(pc: Pc)
    requires Wants(pc).Some?
    ensures Measure(Wants(pc).value.1) < Measure(pc) && !Out(pc)
  {}

  /** With EXIT published the main thread can only be asleep waiting for card emulation data, and
      each of its steps is progress. */
  lemma MainStepProgress(s: State)
    requires Inv(s) && Published(s)
    ensures Asleep(s.pc).Some? ==> s.pc == DataSleep(false)
    ensures MainEnabled(s) ==> Measure(MainNext(s).pc) < Measure(s.pc) && Published(MainNext(s))
  {
    hide MainHolds, MailboxOk, TypesOk, LocksOk, Local, Wants, Measure;
    if MainEnabled(s) {
      if Wants(s.pc).Some? { LockingProgress(s.pc); } else { LocalProgress(s.pc, s.sh, s.mode); }
    }
  }

  lemma FinishKeepsPublished(s: State, t: Tid)
    requires Published(s) && Enabled(s, Finish(t)) && !Undoes(s, Finish(t))
    ensures Published(Next(s, Finish(t)))
    ensures Next(s, Finish(t)).pc == Woken(s.threads[t].todo[0], s.sh, s.pc)
  {
    hide Effect, Notifies;
    if s.sh.dev == DevExit { ExitSurvivesIff(s.threads[t].todo[0], s.sh); }
    SnepExitSurvives(s.threads[t].todo[0], s.sh);
  }

  lemma SnepExitSurvives(sec: Section, sh: Shared)
    requires sh.snep == SnepExit
    ensures Effect(sec, sh).snep == SnepExit
  {}

  /** EXIT stays published unless an arrival undoes it, and the measure never grows. */
  lemma PublishedStable(s: State, a: Action)
    requires Inv(s) && Published(s) && Enabled(s, a) && !Undoes(s, a)
    ensures Published(Next(s, a)) && Measure(Next(s, a).pc) <= Measure(s.pc)
    ensures a != MainStep && Asleep(s.pc).None? ==> Next(s, a).pc == s.pc
    ensures a == MainStep ==> Measure(Next(s, a).pc) < Measure(s.pc)
  {
    hide Local, Wants, Measure, Effect, Notifies, MailboxOk, TypesOk, LocksOk, WakeupsOk, ModeOk, MainHolds, LockOf;
    MainStepProgress(s);
    if Asleep(s.pc).Some? { WakeKeepsMeasure(s.pc); }
    if a.Finish? { FinishKeepsPublished(s, a.t); }
  }

  /** A main thread that waits for data is woken by whatever ends the wait. */
  lemma WakesDataSleep(s: State, a: Action)
    requires Inv(s) && Enabled(s, a) && Wakes(s, a) && s.pc == DataSleep(false)
    ensures Next(s, a).pc == DataSleep(true)
  {
    hide LocksOk, MailboxOk, TypesOk, ModeOk;
  }

  // ---------------------------------------------------------------- EXIT unnoticed and undone

  /** EXIT is not published and was not noticed. */
  predicate Barred(s: State) { s.sh.dev != DevExit && !Out(s.pc) }

  /** Only the exit thread can lead out of the loop. */
  lemma BarredStep(s: State, a: Action)
    requires Inv(s) && ExitProgress(s) && Barred(s) && Enabled(s, a) && !Publishes(s, a)
    ensures Barred(Next(s, a))
  {
    hide LocksOk, MailboxOk, TypesOk, WakeupsOk, ModeOk, MainHolds, Local, Wants, Effect, Notifies, Out, LockOf;
    match a
    case MainStep => if Wants(s.pc).Some? { LockingStaysIn(s.pc); } else { LocalStaysIn(s.pc, s.sh, s.mode); }
    case Finish(t) =>
      assert s.threads[t].todo[0] != ExitDev;
      SectionStaysBarred(s.threads[t].todo[0], s.sh);
      WakingStaysIn(s.threads[t].todo[0], s.sh, s.pc);
    case Spurious => WakeUpStaysIn(s.pc);
    case _ =>
  }

  lemma LockingStaysIn(pc: Pc)
    requires Wants(pc).Some?
    ensures !Out(Wants(pc).value.1)
  {}

  lemma LocalStaysIn(pc: Pc, sh: Shared, mode: Mode)
    requires sh.dev != DevExit && !Out(pc) && pc != Abandon
    ensures !Out(Local(pc, sh, mode).0) && Local(pc, sh, mode).1.dev != DevExit
  {}

  lemma SectionStaysBarred(sec: Section, sh: Shared)
    requires sh.dev != DevExit && sec != ExitDev
    ensures Effect(sec, sh).dev != DevExit
  {}

  lemma WakeUpStaysIn(pc: Pc)
    requires Asleep(pc).Some?
    ensures !Out(WakeUp(pc))
  {}

  lemma WakingStaysIn(sec: Section, sh: Shared, pc: Pc)
    requires !Out(pc)
    ensures !Out(Woken(sec, sh, pc))
  {
    hide Notifies, LockOf, Out, Asleep, WakeUp;
    if Asleep(pc).Some? { WakeUpStaysIn(pc); }
  }

  lemma UndoneIsBarred(s: State, a: Action)
    requires Inv(s) && Enabled(s, a) && Undoes(s, a)
    ensures Barred(Next(s, a))
  {
    hide LocksOk, MailboxOk, TypesOk, WakeupsOk, ModeOk;
  }

  ghost predicate ExitOver(s: State) { Exit in s.threads && s.threads[Exit].todo == [] }

  lemma ExitStaysOver(s: State, a: Action)
    requires ExitOver(s) && Enabled(s, a)
    ensures ExitOver(Next(s, a)) && !Publishes(s, a)
  {}

  /** Once EXIT has been undone the loop never ends: no run whatsoever, whatever callbacks and
      spurious wakeups it contains, leads out of it. */
  lemma {:induction false} UndoneNeverLeaves(s: State, acts: seq<Action>)
    requires Inv(s) && ExitProgress(s) && ExitOver(s) && Barred(s) && ValidRun(s, acts)
    ensures Barred(Run(s, acts)) && Run(s, acts).pc != Done
    decreases |acts|
  {
    hide Inv, ExitProgress, ExitOver, Barred, Enabled, Next, Publishes;
    if acts == [] {
      assert !Out(s.pc) by { BarredNotOut(s); }
    } else {
      StepKeepsInv(s, acts[0]);
      ExitProgressStep(s, acts[0]);
      ExitStaysOver(s, acts[0]);
      BarredStep(s, acts[0]);
      UndoneNeverLeaves(Next(s, acts[0]), acts[1..]);
    }
  }

  lemma BarredNotOut(s: State)
    requires Barred(s)
    ensures !Out(s.pc)
  {}

  // ---------------------------------------------------------------- infinite behaviours

  type Behavior = nat -> State

  type Schedule = nat -> Action

  ghost predicate IsBehavior(run: Behavior, act: Schedule) {
    forall n: nat :: Enabled(run(n), act(n)) && run(n + 1) == Next(run(n), act(n))
  }

  /** A thread inside a critical section eventually finishes it. */
  ghost predicate HoldersFinish(run: Behavior, act: Schedule) {
    forall n: nat, t :: Enabled(run(n), Finish(t)) ==> exists m: nat :: n <= m && act(m) == Finish(t)
  }

  ghost predicate MainReadyFrom(run: Behavior, k: nat) {
    exists m: nat :: k <= m && MainEnabled(run(m))
  }

  ghost predicate MainMovesFrom(act: Schedule, n: nat) {
    exists m: nat :: n <= m && act(m) == MainStep
  }

  /** If the main thread can move again and again, it eventually does. */
  ghost predicate MainFair(run: Behavior, act: Schedule) {
    forall n: nat :: (forall k: nat :: n <= k ==> MainReadyFrom(run, k)) ==> MainMovesFrom(act, n)
  }

  /** A behaviour under a fair scheduler. */
  ghost predicate IsFair(run: Behavior, act: Schedule) {
    IsBehavior(run, act) && HoldersFinish(run, act) && MainFair(run, act)
  }

  /** From step `n` on no arrival undoes EXIT. */
  ghost predicate NeverUndone(run: Behavior, act: Schedule, n: nat) {
    forall k: nat :: n <= k ==> !Undoes(run(k), act(k))
  }

  ghost predicate WokenFrom(run: Behavior, act: Schedule, k: nat) {
    exists j: nat :: k <= j && Wakes(run(j), act(j))
  }

  /** From step `n` on every wait for card emulation data is ended. */
  ghost predicate DataWaitsEnd(run: Behavior, act: Schedule, n: nat) {
    forall k: nat :: n <= k && run(k).pc == DataSleep(false) ==> WokenFrom(run, act, k)
  }

  /** The main thread leaves the loop at or after step `n`, with no lock held. */
  ghost predicate Leaves(run: Behavior, n: nat) {
    exists m: nat :: n <= m && run(m).pc == Done && Held(run(m), Main) == {}
  }

  lemma StepAt(run: Behavior, act: Schedule, k: nat)
    requires IsBehavior(run, act)
    ensures Enabled(run(k), act(k)) && run(k + 1) == Next(run(k), act(k))
  {
    hide Enabled, Next;
  }

  lemma HolderFinishes(run: Behavior, act: Schedule, k: nat, t: Tid) returns (m: nat)
    requires HoldersFinish(run, act) && Enabled(run(k), Finish(t))
    ensures k <= m && act(m) == Finish(t)
  {
    hide Enabled;
    m :| k <= m && act(m) == Finish(t);
  }

  lemma {:induction false} StaysPublished(run: Behavior, act: Schedule, n: nat, m: nat)
    requires IsBehavior(run, act) && NeverUndone(run, act, n) && n <= m
    requires Inv(run(n)) && Published(run(n))
    ensures Inv(run(m)) && Published(run(m)) && Measure(run(m).pc) <= Measure(run(n).pc)
    ensures Asleep(run(n).pc).None? && (forall k: nat :: n <= k < m ==> act(k) != MainStep) ==> run(m).pc == run(n).pc
    decreases m - n
  {
    hide Inv, Published, Measure, Next, Enabled, IsBehavior, Undoes, Asleep;
    if n < m {
      StaysPublished(run, act, n, m - 1);
      StepAt(run, act, m - 1);
      assert !Undoes(run(m - 1), act(m - 1));
      PublishedStable(run(m - 1), act(m - 1));
      StepKeepsInv(run(m - 1), act(m - 1));
    }
  }

  /** The first time at or after `k` that `t` finishes its section. */
  lemma {:induction false} FirstFinish(act: Schedule, t: Tid, k: nat, m: nat) returns (f: nat)
    requires k <= m && act(m) == Finish(t)
    ensures k <= f <= m && act(f) == Finish(t) && forall j: nat :: k <= j < f ==> act(j) != Finish(t)
    decreases m - k
  {
    if act(k) == Finish(t) { f := k; } else { f := FirstFinish(act, t, k + 1, m); }
  }

  lemma HolderKeeps(s: State, a: Action, t: Tid)
    requires Enabled(s, a) && Enabled(s, Finish(t)) && a != Finish(t)
    ensures Enabled(Next(s, a), Finish(t)) && Next(s, a).threads[t] == s.threads[t]
  {}

  lemma {:induction false} HolderKeepsUntil(run: Behavior, act: Schedule, t: Tid, k: nat, f: nat)
    requires IsBehavior(run, act) && k <= f && Enabled(run(k), Finish(t))
    requires forall j: nat :: k <= j < f ==> act(j) != Finish(t)
    ensures Enabled(run(f), Finish(t)) && t in run(k).threads && t in run(f).threads
    ensures run(f).threads[t] == run(k).threads[t]
    decreases f - k
  {
    hide Next, Enabled, IsBehavior;
    EnabledThread(run(k), t);
    if k < f {
      HolderKeepsUntil(run, act, t, k, f - 1);
      EnabledThread(run(f - 1), t);
      StepAt(run, act, f - 1);
      assert act(f - 1) != Finish(t);
      HolderKeeps(run(f - 1), act(f - 1), t);
    }
  }

  lemma EnabledThread(s: State, t: Tid)
    requires Enabled(s, Finish(t))
    ensures t in s.threads && s.threads[t].todo != []
  {}

  lemma FinishFrees(s: State, t: Tid)
    requires Enabled(s, Finish(t))
    ensures s.threads[t].todo != [] && LockOf(s.threads[t].todo[0]) !in Next(s, Finish(t)).owner
  {}

  /** Who blocks a main thread that is awake and cannot move. */
  lemma Blocker(s: State) returns (t: Tid)
    requires Inv(s) && s.pc != Done && Asleep(s.pc).None? && !MainEnabled(s)
    ensures Enabled(s, Finish(t)) && s.threads[t].todo != []
    ensures Wants(s.pc).Some? && LockOf(s.threads[t].todo[0]) == Wants(s.pc).value.0
  {
    t := s.owner[Wants(s.pc).value.0];
    WantsFresh(s.pc);
  }

  lemma WantsFresh(pc: Pc)
    requires Wants(pc).Some?
    ensures Wants(pc).value.0 !in MainHolds(pc)
  {}

  lemma ReadyWhenFree(s: State)
    requires s.pc != Done && Asleep(s.pc).None? && Wants(s.pc).Some? && Wants(s.pc).value.0 !in s.owner
    ensures MainEnabled(s)
  {}

  lemma MainGetsReady(run: Behavior, act: Schedule, n: nat, k: nat)
    requires IsBehavior(run, act) && HoldersFinish(run, act) && NeverUndone(run, act, n) && n <= k
    requires Inv(run(n)) && Published(run(n)) && run(n).pc != Done && Asleep(run(n).pc).None?
    requires !MainMovesFrom(act, n)
    ensures MainReadyFrom(run, k)
  {
    hide Inv, Published, Measure, Next, Enabled, MainEnabled, IsBehavior, HoldersFinish, Wants, Asleep, LockOf, NeverUndone;
    StaysPublished(run, act, n, k);
    if !MainEnabled(run(k)) {
      var t := Blocker(run(k));
      var m := HolderFinishes(run, act, k, t);
      var f := FirstFinish(act, t, k, m);
      HolderKeepsUntil(run, act, t, k, f);
      StaysPublished(run, act, n, f + 1);
      StepAt(run, act, f);
      FinishFrees(run(f), t);
      ReadyWhenFree(run(f + 1));
      assert MainEnabled(run(f + 1));
    }
  }

  /** A wait for data, if there is one, is over at some later step, without the measure growing. */
  lemma Awake(run: Behavior, act: Schedule, n: nat) returns (m: nat)
    requires IsBehavior(run, act) && NeverUndone(run, act, n) && DataWaitsEnd(run, act, n)
    requires Inv(run(n)) && Published(run(n))
    ensures n <= m && Asleep(run(m).pc).None? && Inv(run(m)) && Published(run(m))
    ensures Measure(run(m).pc) <= Measure(run(n).pc)
  {
    hide Inv, Published, Measure, Next, Enabled, IsBehavior, Undoes, Wakes, NeverUndone;
    MainStepProgress(run(n));
    if run(n).pc == DataSleep(false) {
      assert WokenFrom(run, act, n);
      var j: nat :| n <= j && Wakes(run(j), act(j));
      StaysPublished(run, act, n, j);
      StaysPublished(run, act, n, j + 1);
      StepAt(run, act, j);
      MainStepProgress(run(j));
      if run(j).pc == DataSleep(false) {
        WakesDataSleep(run(j), act(j));
        m := j + 1;
      } else {
        m := j;
      }
    } else {
      m := n;
    }
  }

  /** Exit terminates the main loop: once EXIT is published and as long as no arrival undoes it
      and no wait for card emulation data lasts for ever, the main thread leaves the loop and holds
      no lock, whatever callbacks and spurious wakeups interleave. */
  lemma {:induction false} ExitTerminates(run: Behavior, act: Schedule, n: nat)
    requires IsFair(run, act) && NeverUndone(run, act, n) && DataWaitsEnd(run, act, n)
    requires Inv(run(n)) && Published(run(n))
    ensures Leaves(run, n)
    decreases Measure(run(n).pc)
  {
    hide Inv, Published, Measure, Next, Enabled, MainEnabled, IsBehavior, HoldersFinish, NeverUndone, DataWaitsEnd, Held;
    var m := Awake(run, act, n);
    Later(run, act, n, m);
    if run(m).pc == Done {
      DoneHoldsNothing(run(m));
    } else {
      if !MainMovesFrom(act, m) {
        forall k: nat | m <= k ensures MainReadyFrom(run, k) { MainGetsReady(run, act, m, k); }
      }
      var j: nat :| m <= j && act(j) == MainStep;
      Later(run, act, m, j);
      StaysPublished(run, act, m, j);
      StaysPublished(run, act, m, j + 1);
      StepAt(run, act, j);
      MainMoveCounts(run(j));
      Later(run, act, j, j + 1);
      ExitTerminates(run, act, j + 1);
    }
  }

  lemma Later(run: Behavior, act: Schedule, n: nat, m: nat)
    requires n <= m
    ensures NeverUndone(run, act, n) ==> NeverUndone(run, act, m)
    ensures DataWaitsEnd(run, act, n) ==> DataWaitsEnd(run, act, m)
  {
    hide Undoes, WokenFrom;
  }

  lemma MainMoveCounts(s: State)
    requires Inv(s) && Published(s) && Enabled(s, MainStep)
    ensures Measure(Next(s, MainStep).pc) < Measure(s.pc)
  {
    hide Inv, Published, Measure, MainNext, MainEnabled;
    MainStepProgress(s);
  }

  lemma DoneHoldsNothing(s: State)
    requires Inv(s) && s.pc == Done
    ensures Held(s, Main) == {}
  {
    assert MainHolds(s.pc) == {};
  }

  // ---------------------------------------------------------------- when exactly the loop ends

  lemma {:induction false} BehaviorInv(mode: Mode, run: Behavior, act: Schedule, n: nat)
    requires IsBehavior(run, act) && run(0) == Init(mode)
    ensures Inv(run(n)) && ExitProgress(run(n))
  {
    if n == 0 {
      hide IsBehavior;
      InitInv(mode);
    } else {
      hide Inv, ExitProgress, Enabled, Next, IsBehavior, Init;
      BehaviorInv(mode, run, act, n - 1);
      StepAt(run, act, n - 1);
      StepKeepsInv(run(n - 1), act(n - 1));
      ExitProgressStep(run(n - 1), act(n - 1));
    }
  }

  /** As long as EXIT is not published the main thread stays in the loop. */
  lemma {:induction false} BarredUntil(mode: Mode, run: Behavior, act: Schedule, n: nat, m: nat)
    requires IsBehavior(run, act) && run(0) == Init(mode) && n <= m && Barred(run(n))
    requires forall k: nat :: n <= k < m ==> !Publishes(run(k), act(k))
    ensures Barred(run(m))
    decreases m - n
  {
    hide Inv, ExitProgress, Enabled, Next, IsBehavior, Init, Barred, Publishes;
    if n < m {
      BarredUntil(mode, run, act, n, m - 1);
      BehaviorInv(mode, run, act, m - 1);
      StepAt(run, act, m - 1);
      assert !Publishes(run(m - 1), act(m - 1));
      BarredStep(run(m - 1), act(m - 1));
    }
  }

  lemma {:induction false} OverFrom(run: Behavior, act: Schedule, n: nat, m: nat)
    requires IsBehavior(run, act) && n <= m && ExitOver(run(n))
    ensures ExitOver(run(m)) && !Publishes(run(m), act(m))
    decreases m - n
  {
    hide Enabled, Next, IsBehavior, ExitOver, Publishes;
    StepAt(run, act, m);
    if n < m {
      OverFrom(run, act, n, m - 1);
      StepAt(run, act, m - 1);
      ExitStaysOver(run(m - 1), act(m - 1));
    }
    ExitStaysOver(run(m), act(m));
  }

  lemma DoneStays(s: State, a: Action)
    requires Enabled(s, a) && s.pc == Done
    ensures Next(s, a).pc == Done
  {}

  lemma {:induction false} DoneForGood(run: Behavior, act: Schedule, m: nat, k: nat)
    requires IsBehavior(run, act) && m <= k && run(m).pc == Done
    ensures run(k).pc == Done
    decreases k - m
  {
    hide Enabled, Next, IsBehavior;
    if m < k {
      DoneForGood(run, act, m, k - 1);
      StepAt(run, act, k - 1);
      DoneStays(run(k - 1), act(k - 1));
    }
  }

  /** Step `n` publishes EXIT, later no arrival undoes it, and every later wait for card emulation data ends. */
  ghost predicate ExitTakesEffect(run: Behavior, act: Schedule, n: nat) {
    Publishes(run(n), act(n)) && NeverUndone(run, act, n + 1) && DataWaitsEnd(run, act, n + 1)
  }

  lemma SomePublication(run: Behavior, act: Schedule, m: nat) returns (n: nat)
    requires exists k: nat :: k < m && Publishes(run(k), act(k))
    ensures n < m && Publishes(run(n), act(n))
  {
    n :| n < m && Publishes(run(n), act(n));
  }

  /** A main thread that has left has noticed EXIT, which nothing undid before, and waits for nothing. */
  lemma LeavingTookEffect(mode: Mode, run: Behavior, act: Schedule, m: nat) returns (n: nat)
    requires IsBehavior(run, act) && run(0) == Init(mode) && run(m).pc == Done
    ensures ExitTakesEffect(run, act, n)
  {
    hide Inv, ExitProgress, Enabled, Next, IsBehavior, Publishes, ExitOver;
    if !(exists k: nat :: k < m && Publishes(run(k), act(k))) { BarredUntil(mode, run, act, 0, m); }
    n := SomePublication(run, act, m);
    BehaviorInv(mode, run, act, n);
    StepAt(run, act, n);
    PublishingPublishes(run(n), act(n));
    forall k: nat | n + 1 <= k ensures !Undoes(run(k), act(k)) {
      if Undoes(run(k), act(k)) { UndoneTooLate(mode, run, act, n + 1, k, m); }
    }
    forall k: nat | n + 1 <= k && run(k).pc == DataSleep(false) ensures WokenFrom(run, act, k) {
      WaitEnded(run, act, k, m);
    }
  }

  lemma UndoneTooLate(mode: Mode, run: Behavior, act: Schedule, n: nat, k: nat, m: nat)
    requires IsBehavior(run, act) && run(0) == Init(mode) && ExitOver(run(n)) && n <= k && Undoes(run(k), act(k))
    ensures run(m).pc != Done
  {
    hide Inv, ExitProgress, Enabled, Next, IsBehavior, Publishes, ExitOver;
    if run(m).pc == Done {
      if m <= k {
        DoneForGood(run, act, m, k);
      } else {
        BehaviorInv(mode, run, act, k);
        StepAt(run, act, k);
        UndoneIsBarred(run(k), act(k));
        forall j: nat | k + 1 <= j < m ensures !Publishes(run(j), act(j)) { OverFrom(run, act, n, j); }
        BarredUntil(mode, run, act, k + 1, m);
      }
    }
  }

  lemma UnwokenSleepsOn(s: State, a: Action)
    requires Enabled(s, a) && s.pc == DataSleep(false) && !Wakes(s, a)
    ensures Next(s, a).pc == DataSleep(false)
  {}

  lemma WaitEnded(run: Behavior, act: Schedule, k: nat, m: nat)
    requires IsBehavior(run, act) && run(k).pc == DataSleep(false) && run(m).pc == Done
    ensures WokenFrom(run, act, k)
  {
    hide Enabled, Next, IsBehavior, Wakes;
    if m <= k {
      DoneForGood(run, act, m, k);
    } else if !WokenFrom(run, act, k) {
      SleepsUntil(run, act, k, m);
    }
  }

  lemma {:induction false} SleepsUntil(run: Behavior, act: Schedule, k: nat, m: nat)
    requires IsBehavior(run, act) && k <= m && run(k).pc == DataSleep(false) && !WokenFrom(run, act, k)
    ensures run(m).pc == DataSleep(false)
    decreases m - k
  {
    hide Enabled, Next, IsBehavior, Wakes;
    if k < m {
      SleepsUntil(run, act, k, m - 1);
      StepAt(run, act, m - 1);
      assert !Wakes(run(m - 1), act(m - 1));
      UnwokenSleepsOn(run(m - 1), act(m - 1));
    }
  }

  /** Exactly when the program leaves its loop, in every mode and every fair behaviour from its
      start: the exit thread publishes EXIT, no tag or reader arrives between that and the main
      thread noticing it, and no wait for card emulation data lasts for ever. */
  lemma LoopEndsIff(mode: Mode, run: Behavior, act: Schedule)
    requires IsFair(run, act) && run(0) == Init(mode)
    ensures Leaves(run, 0) <==> exists n: nat :: ExitTakesEffect(run, act, n)
  {
    hide Inv, ExitProgress, Enabled, Next, IsBehavior, HoldersFinish, MainFair, Publishes, NeverUndone, DataWaitsEnd, ExitOver;
    if Leaves(run, 0) {
      var m: nat :| run(m).pc == Done && Held(run(m), Main) == {};
      var n := LeavingTookEffect(mode, run, act, m);
    }
    if exists n: nat :: ExitTakesEffect(run, act, n) {
      var n: nat :| ExitTakesEffect(run, act, n);
      BehaviorInv(mode, run, act, n);
      BehaviorInv(mode, run, act, n + 1);
      StepAt(run, act, n);
      PublishingPublishes(run(n), act(n));
      ExitTerminates(run, act, n + 1);
      var m: nat :| n + 1 <= m && run(m).pc == Done && Held(run(m), Main) == {};
    }
  }

  /** A tag arrives before the main thread has noticed EXIT. */
  predicate TagUndoes(s: State, a: Action) {
    a.Finish? && a.t in s.threads && s.threads[a.t].todo != [] && s.threads[a.t].todo[0] == TagArrivalDev && !Out(s.pc)
  }

  lemma {:induction false} ModeFixed(run: Behavior, act: Schedule, n: nat)
    requires IsBehavior(run, act)
    ensures run(n).mode == run(0).mode
  {
    hide IsBehavior;
    if n > 0 {
      ModeFixed(run, act, n - 1);
      StepAt(run, act, n - 1);
    }
  }

  lemma NoReader(s: State, a: Action)
    requires Inv(s) && Enabled(s, a) && s.mode != Share
    ensures s.pc != DataSleep(false) && (Undoes(s, a) <==> TagUndoes(s, a))
  {
    hide LocksOk, MailboxOk, TypesOk, WakeupsOk;
    if a.Finish? { assert !HceSection(s.threads[a.t].todo[0]); }
  }

  /** In poll, push and write mode: once the exit thread has published EXIT at step `n`, the main
      thread leaves the loop if and only if no tag arrives before it has noticed EXIT. */
  lemma WithoutShareLeavesIff(mode: Mode, run: Behavior, act: Schedule, n: nat)
    requires IsFair(run, act) && run(0) == Init(mode) && mode != Share && Publishes(run(n), act(n))
    ensures Leaves(run, n) <==> forall k: nat :: n < k ==> !TagUndoes(run(k), act(k))
  {
    hide Inv, ExitProgress, Enabled, Next, IsBehavior, HoldersFinish, MainFair, Publishes, ExitOver, Undoes, TagUndoes, Published;
    BehaviorInv(mode, run, act, n);
    BehaviorInv(mode, run, act, n + 1);
    StepAt(run, act, n);
    PublishingPublishes(run(n), act(n));
    forall k: nat ensures run(k).pc != DataSleep(false) && (Undoes(run(k), act(k)) <==> TagUndoes(run(k), act(k))) {
      BehaviorInv(mode, run, act, k);
      StepAt(run, act, k);
      ModeFixed(run, act, k);
      NoReader(run(k), act(k));
    }
    if Leaves(run, n) {
      var m: nat :| n <= m && run(m).pc == Done && Held(run(m), Main) == {};
      forall k: nat | n < k ensures !Undoes(run(k), act(k)) {
        if Undoes(run(k), act(k)) { UndoneTooLate(mode, run, act, n + 1, k, m); }
      }
    }
    if forall k: nat :: n < k ==> !TagUndoes(run(k), act(k)) {
      assert NeverUndone(run, act, n + 1);
      assert DataWaitsEnd(run, act, n + 1);
      ExitTerminates(run, act, n + 1);
      var m: nat :| n + 1 <= m && run(m).pc == Done && Held(run(m), Main) == {};
    }
  }

  // ---------------------------------------------------------------- after the last callback

  /** Every callback, and the exit thread, has finished. */
  ghost predicate Settled(s: State) { forall t :: t in s.threads ==> s.threads[t].todo == [] }

  /** No further callback and no spurious wakeup. */
  predicate Still(a: Action) { !a.Spawn? && a != Spurious }

  /** The main thread waits for card emulation data, or is bound to. */
  predicate Trapped(s: State) { TrappedAt(s.pc, s.sh) }

  predicate TrappedAt(pc: Pc, sh: Shared) {
    pc == DataSleep(false) || ((pc == HceTop || pc == HceLoop || pc == HceCheck) && sh.hce == HceNone)
  }

  lemma SettledStep(s: State, a: Action)
    requires Inv(s) && Published(s) && Settled(s) && Enabled(s, a) && Still(a)
    ensures Settled(Next(s, a)) && (Trapped(Next(s, a)) <==> Trapped(s))
    ensures !Undoes(s, a) && !Wakes(s, a)
  {
    hide LocksOk, MailboxOk, TypesOk, ModeOk, MainHolds, Local, Wants, Effect, Notifies, Trapped, Undoes, Wakes;
    if a == MainStep { MainStepTraps(s); }
    assert !Undoes(s, a) && !Wakes(s, a) by { NothingArrives(s, a); }
  }

  lemma NothingArrives(s: State, a: Action)
    requires Settled(s) && Enabled(s, a) && Still(a)
    ensures !Undoes(s, a) && !Wakes(s, a)
  {
    hide Effect, Notifies;
  }

  lemma MainStepTraps(s: State)
    requires Inv(s) && Published(s) && MainEnabled(s)
    ensures Trapped(MainNext(s)) <==> Trapped(s)
  {
    hide LocksOk, MailboxOk, TypesOk, WakeupsOk, ModeOk, MainHolds, Local, Wants;
    if Wants(s.pc).Some? { LockingTraps(s.pc, s.sh); } else { LocalTraps(s.pc, s.sh, s.mode); }
  }

  lemma LockingTraps(pc: Pc, sh: Shared)
    requires Wants(pc).Some?
    ensures TrappedAt(Wants(pc).value.1, sh) <==> TrappedAt(pc, sh)
  {}

  lemma LocalTraps(pc: Pc, sh: Shared, mode: Mode)
    requires (sh.dev == DevExit || Out(pc)) && LocalPoint(pc)
    ensures var (pc', sh') := Local(pc, sh, mode); TrappedAt(pc', sh') <==> TrappedAt(pc, sh)
  {
    hide MainHolds;
  }

  lemma {:induction false} SettledUntil(run: Behavior, act: Schedule, n: nat, m: nat)
    requires IsBehavior(run, act) && n <= m && Inv(run(n)) && Published(run(n)) && Settled(run(n))
    requires forall k: nat :: n <= k ==> Still(act(k))
    ensures Inv(run(m)) && Published(run(m)) && Settled(run(m)) && (Trapped(run(m)) <==> Trapped(run(n)))
    ensures !Undoes(run(m), act(m))
    decreases m - n
  {
    hide Inv, Published, Settled, Trapped, Enabled, Next, IsBehavior, Undoes, Wakes, Still;
    if n < m {
      SettledUntil(run, act, n, m - 1);
      StepAt(run, act, m - 1);
      SettledStep(run(m - 1), act(m - 1));
      StepKeepsInv(run(m - 1), act(m - 1));
      PublishedStable(run(m - 1), act(m - 1));
    }
    StepAt(run, act, m);
    SettledStep(run(m), act(m));
  }

  /** With EXIT published, all callbacks finished and none to come, the main thread leaves the loop
      if and only if it neither sleeps on card emulation data nor is about to, the mailbox being
      empty. In share mode that can fail: the exit thread never touches the card emulation monitor. */
  lemma SettledLeavesIff(run: Behavior, act: Schedule, n: nat)
    requires IsFair(run, act) && Inv(run(n)) && Published(run(n)) && Settled(run(n))
    requires forall k: nat :: n <= k ==> Still(act(k))
    ensures Leaves(run, n) <==> !Trapped(run(n))
  {
    hide Inv, Published, Settled, IsBehavior, HoldersFinish, MainFair, Undoes, Still, Held;
    forall m: nat | n <= m
      ensures !Undoes(run(m), act(m)) && (Trapped(run(m)) <==> Trapped(run(n)))
    {
      SettledUntil(run, act, n, m);
    }
    if !Trapped(run(n)) {
      assert NeverUndone(run, act, n);
      forall k: nat | n <= k ensures run(k).pc != DataSleep(false) { assert !Trapped(run(k)); }
      assert DataWaitsEnd(run, act, n);
      ExitTerminates(run, act, n);
    }
  }

  /** From publication on, the main thread takes at most this many steps, in any finite run. */
  lemma {:induction false} MainStepsBounded(s: State, acts: seq<Action>)
    requires Inv(s) && Published(s) && ValidRun(s, acts) && NoneUndoes(s, acts)
    ensures MainSteps(acts) + Measure(Run(s, acts).pc) <= Measure(s.pc) <= 14
    decreases |acts|
  {
    hide Inv, Published, Next, Enabled, Undoes;
    if acts != [] {
      PublishedStable(s, acts[0]);
      StepKeepsInv(s, acts[0]);
      MainStepsBounded(Next(s, acts[0]), acts[1..]);
    }
  }

  predicate NoneUndoes(s: State, acts: seq<Action>)
    requires ValidRun(s, acts)
    decreases |acts|
  {
    acts == [] || (!Undoes(s, acts[0]) && NoneUndoes(Next(s, acts[0]), acts[1..]))
  }

  function MainSteps(acts: seq<Action>): nat {
    if acts == [] then 0 else (if acts[0] == MainStep then 1 else 0) + MainSteps(acts[1..])
  }

  // ---------------------------------------------------------------- both failures happen

  lemma {:induction false} RunSnoc(s: State, acts: seq<Action>, a: Action)
    requires ValidRun(s, acts) && Enabled(Run(s, acts), a)
    ensures ValidRun(s, acts + [a]) && Run(s, acts + [a]) == Next(Run(s, acts), a)
    decreases |acts|
  {
    hide Next, Enabled;
    if acts == [] {
      assert acts + [a] == [a] && [a][1..] == [];
    } else {
      assert (acts + [a])[1..] == acts[1..] + [a];
      RunSnoc(Next(s, acts[0]), acts[1..], a);
    }
  }

  lemma StepReachable(mode: Mode, s: State, a: Action) returns (s': State)
    requires Reachable(mode, s) && Enabled(s, a)
    ensures s' == Next(s, a) && Reachable(mode, s')
  {
    hide Next, Enabled;
    var acts :| ValidRun(Init(mode), acts) && Run(Init(mode), acts) == s;
    RunSnoc(Init(mode), acts, a);
    s' := Next(s, a);
  }

  lemma InitReachable(mode: Mode)
    ensures Reachable(mode, Init(mode))
  {
    assert ValidRun(Init(mode), []) && Run(Init(mode), []) == Init(mode);
  }

  /** The exit thread runs to its end from a state where it has not begun. */
  lemma ExitRuns(mode: Mode, s: State) returns (s': State)
    requires Reachable(mode, s) && Exit in s.threads && s.threads[Exit] == Thread(EXIT_PROGRAM, false) && s.owner == map[]
    ensures Reachable(mode, s') && ExitOver(s') && s'.threads == s.threads[Exit := Thread([], false)] && s'.owner == map[]
    ensures s'.sh == s.sh.(snep := SnepExit, dev := DevExit) && s'.mode == s.mode
    ensures Asleep(s.pc) != Some(DevLock) && Asleep(s.pc) != Some(SnepLock) ==> s'.pc == s.pc
  {
    hide Reachable;
    var s1 := StepReachable(mode, s, Acquire(Exit));
    var s2 := StepReachable(mode, s1, Finish(Exit));
    assert EXIT_PROGRAM[1..] == [ExitDev] && s2.owner == map[];
    var s3 := StepReachable(mode, s2, Acquire(Exit));
    s' := StepReachable(mode, s3, Finish(Exit));
    assert [ExitDev][1..] == [] && s'.owner == map[];
  }

  /** A callback of one section runs from its call to its end. */
  lemma CallbackRuns(mode: Mode, s: State, cb: Callback) returns (s': State)
    requires Reachable(mode, s) && s.mode == mode && Registered(mode, cb) && |Program(cb)| == 1
    requires Cb(0) !in s.threads && s.owner == map[] && Asleep(s.pc).None?
    ensures Reachable(mode, s')
    ensures s' == s.(sh := Effect(Program(cb)[0], s.sh), threads := s.threads[Cb(0) := Thread([], false)])
  {
    hide Reachable, Program;
    var s1 := StepReachable(mode, s, Spawn(0, cb));
    var s2 := StepReachable(mode, s1, Acquire(Cb(0)));
    s' := StepReachable(mode, s2, Finish(Cb(0)));
    assert Program(cb)[1..] == [] && s'.owner == map[];
  }

  /** A tag that arrives after EXIT turns it into a departure: a reachable state after the end of
      the exit thread from which no run leaves the loop. */
  lemma TagArrivalCancelsExit() returns (s: State)
    ensures Reachable(Poll, s) && ExitOver(s) && Barred(s)
    ensures forall acts :: ValidRun(s, acts) ==> Run(s, acts).pc != Done
  {
    hide Reachable, Inv, ExitProgress;
    InitReachable(Poll);
    var s1 := ExitRuns(Poll, Init(Poll));
    s := CallbackRuns(Poll, s1, TagArrival);
    assert s.sh.dev == DevDeparted;
    ReachableInv(Poll, s);
    ReachableExitProgress(Poll, s);
    forall acts | ValidRun(s, acts) ensures Run(s, acts).pc != Done { UndoneNeverLeaves(s, acts); }
  }

  lemma {:induction false} RunExitProgress(s: State, acts: seq<Action>)
    requires Inv(s) && ExitProgress(s) && ValidRun(s, acts)
    ensures ExitProgress(Run(s, acts))
    decreases |acts|
  {
    hide Inv, ExitProgress, Enabled, Next;
    if acts != [] {
      StepKeepsInv(s, acts[0]);
      ExitProgressStep(s, acts[0]);
      RunExitProgress(Next(s, acts[0]), acts[1..]);
    }
  }

  lemma ReachableExitProgress(mode: Mode, s: State)
    requires Reachable(mode, s)
    ensures ExitProgress(s)
  {
    hide Inv;
    var acts :| ValidRun(Init(mode), acts) && Run(Init(mode), acts) == s;
    InitInv(mode);
    RunExitProgress(Init(mode), acts);
  }

  const READER_THREADS: map<Tid, Thread> := map[Exit := Thread(EXIT_PROGRAM, false), Cb(0) := Thread([], false)]

  lemma ReaderActivates() returns (s: State)
    ensures Reachable(Share, s)
    ensures s == State(Share, INITIAL.(dev := DevPresent, devType := TypeReader), LoopTop, map[], READER_THREADS)
  {
    hide Reachable;
    InitReachable(Share);
    s := CallbackRuns(Share, Init(Share), HceActivated);
    assert s.threads == READER_THREADS;
  }

  lemma ReaderArrives() returns (s: State)
    ensures Reachable(Share, s)
    ensures s == State(Share, INITIAL.(dev := DevPresent, devType := TypeReader), HceTop, map[DevLock := Main], READER_THREADS)
  {
    hide Reachable;
    var s0 := ReaderActivates();
    var s1 := StepReachable(Share, s0, MainStep);
    var s2 := StepReachable(Share, s1, MainStep);
    assert s2.pc == Loaded && s2.owner == map[DevLock := Main];
    s := StepReachable(Share, s2, MainStep);
    assert s.owner == map[DevLock := Main];
  }

  lemma ReaderHasItsLock() returns (s: State)
    ensures Reachable(Share, s)
    ensures s == State(Share, INITIAL.(dev := DevPresent, devType := TypeReader), HceCheck, map[HceLock := Main], READER_THREADS)
  {
    hide Reachable;
    var s3 := ReaderArrives();
    var s4 := StepReachable(Share, s3, MainStep);
    assert s4.pc == HceLoop && s4.owner == map[DevLock := Main, HceLock := Main];
    s := StepReachable(Share, s4, MainStep);
    assert s.owner == map[HceLock := Main];
  }

  lemma ReaderWaitsForData() returns (s: State)
    ensures Reachable(Share, s) && s.pc == DataSleep(false) && s.owner == map[] && s.mode == Share
    ensures s.threads == READER_THREADS && s.sh.dev == DevPresent
  {
    hide Reachable;
    var s5 := ReaderHasItsLock();
    s := StepReachable(Share, s5, MainStep);
    assert s.owner == map[];
  }

  /** In share mode EXIT can be published, with every thread finished, while the main thread waits
      for data: nothing but a new callback or a spurious wakeup can wake it. */
  lemma ShareModeSleepsThroughExit() returns (s: State)
    ensures Reachable(Share, s) && Published(s) && Settled(s) && Trapped(s)
  {
    hide Reachable;
    s := ReaderWaitsForData();
    s := ExitRuns(Share, s);
  }

  // ---------------------------------------------------------------- a behaviour that ends

  /** The exit thread runs at once, then the main thread; nothing else happens. */
  function PlainAction(n: nat): Action {
    match n
    case 0 | 2 => Acquire(Exit)
    case 1 | 3 => Finish(Exit)
    case 4 | 5 | 6 => MainStep
    case _ => Idle
  }

  const SNEP_OUT := INITIAL.(snep := SnepExit)

  const BOTH_OUT := INITIAL.(snep := SnepExit, dev := DevExit)

  function PlainState(n: nat): State {
    match n
    case 0 => Init(Poll)
    case 1 => State(Poll, INITIAL, LoopTop, map[SnepLock := Exit], map[Exit := Thread(EXIT_PROGRAM, true)])
    case 2 => State(Poll, SNEP_OUT, LoopTop, map[], map[Exit := Thread([ExitDev], false)])
    case 3 => State(Poll, SNEP_OUT, LoopTop, map[DevLock := Exit], map[Exit := Thread([ExitDev], true)])
    case 4 => State(Poll, BOTH_OUT, LoopTop, map[], map[Exit := Thread([], false)])
    case 5 => State(Poll, BOTH_OUT, Check, map[DevLock := Main], map[Exit := Thread([], false)])
    case 6 => State(Poll, BOTH_OUT, Leaving, map[DevLock := Main], map[Exit := Thread([], false)])
    case _ => State(Poll, BOTH_OUT, Done, map[], map[Exit := Thread([], false)])
  }

  lemma PlainStep(n: nat)
    ensures Enabled(PlainState(n), PlainAction(n)) && PlainState(n + 1) == Next(PlainState(n), PlainAction(n))
  {
    hide MainHolds, Wants, Local, Effect;
    if n < 4 { PlainExit(n); } else if n < 7 { PlainMain(n); }
  }

  lemma PlainExit(n: nat)
    requires n < 4
    ensures Enabled(PlainState(n), PlainAction(n)) && PlainState(n + 1) == Next(PlainState(n), PlainAction(n))
  {
    assert EXIT_PROGRAM[1..] == [ExitDev] && [ExitDev][1..] == [];
    assert Next(PlainState(n), PlainAction(n)).owner == PlainState(n + 1).owner;
    assert Next(PlainState(n), PlainAction(n)).threads == PlainState(n + 1).threads;
  }

  lemma PlainMain(n: nat)
    requires 4 <= n < 7
    ensures Enabled(PlainState(n), PlainAction(n)) && PlainState(n + 1) == Next(PlainState(n), PlainAction(n))
  {
    assert Next(PlainState(n), PlainAction(n)).owner == PlainState(n + 1).owner;
  }

  lemma PlainIsFair(run: Behavior, act: Schedule)
    requires forall n: nat :: run(n) == PlainState(n) && act(n) == PlainAction(n)
    ensures IsFair(run, act)
  {
    hide Enabled, Next, MainEnabled, PlainState;
    forall n: nat ensures Enabled(run(n), act(n)) && run(n + 1) == Next(run(n), act(n)) { PlainStep(n); }
    forall n: nat, t | Enabled(run(n), Finish(t)) ensures exists m: nat :: n <= m && act(m) == Finish(t) {
      PlainHolder(n, t);
      assert act(n) == Finish(t);
    }
    forall n: nat | forall k: nat :: n <= k ==> MainReadyFrom(run, k) ensures MainMovesFrom(act, n) {
      if n <= 6 {
        assert act(6) == MainStep;
      } else {
        assert MainReadyFrom(run, n);
        var m: nat :| n <= m && MainEnabled(run(m));
        assert false by { PlainDone(m); }
      }
    }
  }

  /** Fair behaviours exist, and in this one exit takes effect and the loop ends. */
  lemma SomeBehaviorEnds() returns (run: Behavior, act: Schedule)
    ensures IsFair(run, act) && run(0) == Init(Poll) && ExitTakesEffect(run, act, 3) && Leaves(run, 0)
  {
    hide Enabled, Next, Init, Held, IsFair, PlainState, PlainAction, Publishes, Undoes;
    run, act := (n: nat) => PlainState(n), (n: nat) => PlainAction(n);
    PlainIsFair(run, act);
    PlainExits();
    forall n: nat | 4 <= n ensures !Undoes(run(n), act(n)) && run(n).pc != DataSleep(false) { PlainQuiet(n); }
    LoopEndsIff(Poll, run, act);
  }

  lemma PlainExits()
    ensures PlainState(0) == Init(Poll) && Publishes(PlainState(3), PlainAction(3))
  {}

  lemma PlainQuiet(n: nat)
    requires 4 <= n
    ensures !Undoes(PlainState(n), PlainAction(n)) && PlainState(n).pc != DataSleep(false)
  {}

  lemma PlainHolder(n: nat, t: Tid)
    requires Enabled(PlainState(n), Finish(t))
    ensures PlainAction(n) == Finish(t)
  {}

  lemma PlainDone(n: nat)
    requires n > 6
    ensures !MainEnabled(PlainState(n))
  {}
}
