/** The three-monitor protocol of the demo application: the main loop (with SnepPush inlined),
    any number of callback threads and the exit thread, interleaved at every lock operation,
    critical section and wait; condition waits may wake up spuriously. */
module DemoProtocol {
  import opened Basics
  import opened DemoState

  datatype Tid = Main | Exit | Cb(id: nat)

  /** Poll, push, write and share (host card emulation). */
  datatype Mode = Poll | Push | Write | Share

  /** A callback or exit thread: its remaining critical sections, and whether it holds the lock of the first. */
  datatype Thread = Thread(todo: seq<Section>, holding: bool)

  /** Where the main thread is; a sleeping main thread is awake once its condition was broadcast. */
  datatype Pc =
    | LoopTop | Check | ArrivalSleep(awake: bool) | Loaded
    | TagWork
    | PushTop | PushDev | PushBoth | PushArm | ReadySleep(awake: bool) | PushDone | PushSend
    | OffTop | OffCheck | OffSleep(awake: bool) | OffDone
    | Relock
    | HceTop | HceLoop | HceCheck | DataSleep(awake: bool) | HceTake | HceSend | HceDev | HceTest
    | Depart | DepartSleep(awake: bool) | LoopEnd
    | Leaving | Abandon | Done

  datatype State = State(mode: Mode, sh: Shared, pc: Pc, owner: map<Lock, Tid>, threads: map<Tid, Thread>)

  function Init(mode: Mode): State {
    State(mode, INITIAL, LoopTop, map[], map[Exit := Thread(EXIT_PROGRAM, false)])
  }

  // ---------------------------------------------------------------- the main thread

  /** The locks the main thread holds at each point. */
  function MainHolds(pc: Pc): set<Lock> {
    match pc
    case Check | Loaded | PushDev | HceTop | Depart | LoopEnd | Leaving | Abandon => {DevLock}
    case PushBoth => {DevLock, SnepLock}
    case PushArm | PushDone | OffCheck | OffDone => {SnepLock}
    case HceLoop | HceTest => {DevLock, HceLock}
    case HceCheck | HceTake | HceDev => {HceLock}
    case _ => {}
  }

  /** The lock the main thread asks for next, and where it is once it has it. */
  function Wants(pc: Pc): Option<(Lock, Pc)> {
    match pc
    case LoopTop => Some((DevLock, Check))
    case ArrivalSleep(awake) => if awake then Some((DevLock, Loaded)) else None
    case PushTop => Some((DevLock, PushDev))
    case PushDev => Some((SnepLock, PushBoth))
    case ReadySleep(awake) => if awake then Some((SnepLock, PushDone)) else None
    case OffTop => Some((SnepLock, OffCheck))
    case OffSleep(awake) => if awake then Some((SnepLock, OffDone)) else None
    case Relock => Some((DevLock, Depart))
    case HceTop => Some((HceLock, HceLoop))
    case DataSleep(awake) => if awake then Some((HceLock, HceTake)) else None
    case HceSend => Some((HceLock, HceDev))
    case HceDev => Some((DevLock, HceTest))
    case DepartSleep(awake) => if awake then Some((DevLock, LoopEnd)) else None
    case _ => None
  }

  /** The condition the main thread sleeps on, not yet notified. */
  function Asleep(pc: Pc): Option<Lock> {
    match pc
    case ArrivalSleep(false) | DepartSleep(false) => Some(DevLock)
    case ReadySleep(false) | OffSleep(false) => Some(SnepLock)
    case DataSleep(false) => Some(HceLock)
    case _ => None
  }

  function WakeUp(pc: Pc): Pc
    requires Asleep(pc).Some?
  {
    match pc
    case ArrivalSleep(_) => ArrivalSleep(true)
    case DepartSleep(_) => DepartSleep(true)
    case ReadySleep(_) => ReadySleep(true)
    case OffSleep(_) => OffSleep(true)
    case DataSleep(_) => DataSleep(true)
  }

  /** Where a section leaves the main thread. */
  function Woken(sec: Section, sh: Shared, pc: Pc): Pc {
    if Notifies(sec, sh) && Asleep(pc) == Some(LockOf(sec)) then WakeUp(pc) else pc
  }

  /** The step that needs no further lock; a change from holding a lock to not holding it releases it. */
  function Local(pc: Pc, sh: Shared, mode: Mode): (Pc, Shared) {
    match pc
    case Check =>
      if sh.dev == DevExit then (Leaving, sh)
      else if sh.dev != DevPresent then (ArrivalSleep(false), sh.(dev := DevWaitArrival))
      else (Loaded, sh)
    case Loaded =>
      if sh.dev == DevExit then (Leaving, sh)
      else if sh.dev == DevPresent then
        (match sh.devType
         case TypeTag => (TagWork, sh)
         case TypeP2p => (if mode == Push then PushTop else OffTop, sh)
         case TypeReader => (HceTop, sh)
         case TypeNone => (Abandon, sh))
      else (LoopEnd, sh)
    case TagWork => (Relock, sh)
    case PushBoth =>
      if sh.snep != SnepReady && sh.snep != SnepExit && sh.dev == DevPresent then (PushArm, sh) else (PushDone, sh)
    case PushArm => (ReadySleep(false), sh.(snep := SnepWaitReady))
    case PushDone => (if sh.snep == SnepReady then PushSend else OffTop, sh)
    case PushSend => (OffTop, sh)
    case OffCheck => if sh.snep == SnepReady then (OffSleep(false), sh.(snep := SnepWaitOff)) else (OffDone, sh)
    case OffDone => (Relock, sh)
    case HceLoop => (HceCheck, sh)
    case HceCheck => if sh.hce == HceNone then (DataSleep(false), sh.(hce := HceWaitData)) else (HceTake, sh)
    case HceTake =>
      if sh.hce == HceDataReceived then
        (HceSend, if sh.data.Some? then
                    sh.(hce := HceNone, data := None, given := sh.given + [sh.data.value],
                        givenAt := sh.givenAt + [if sh.received == [] then 0 else |sh.received| - 1])
                  else sh.(hce := HceNone))
      else (HceDev, sh)
    case HceTest => (if sh.dev == DevPresent then HceLoop else Depart, sh)
    case Depart =>
      if sh.dev == DevPresent then (DepartSleep(false), sh.(dev := DevWaitDeparture)) else (LoopEnd, sh)
    case LoopEnd => (LoopTop, sh)
    case Leaving | Abandon => (Done, sh)
    case _ => (pc, sh)
  }

  predicate MainEnabled(s: State) {
    && s.pc != Done && Asleep(s.pc).None?
    && (Wants(s.pc).Some? ==> Wants(s.pc).value.0 !in s.owner)
  }

  function MainNext(s: State): State {
    if Wants(s.pc).Some? then
      var (l, pc) := Wants(s.pc).value;
      s.(pc := pc, owner := s.owner[l := Main])
    else
      var (pc, sh) := Local(s.pc, s.sh, s.mode);
      s.(pc := pc, sh := sh, owner := s.owner - (MainHolds(s.pc) - MainHolds(pc)))
  }

  // ---------------------------------------------------------------- all steps

  /** Registered callbacks: tag and peer-to-peer in the first three modes, card emulation in the last. */
  predicate Registered(mode: Mode, cb: Callback) {
    (cb.DataReceived? || cb.HceActivated? || cb.HceDeactivated?) <==> mode == Share
  }

  datatype Action =
    | MainStep
    | Acquire(t: Tid)              // a thread locks the mutex of its next section
    | Finish(t: Tid)               // it runs the section and unlocks
    | Spawn(id: nat, cb: Callback) // the stack calls a callback
    | Spurious                     // a condition wait returns without a broadcast
    | Idle

  predicate Enabled(s: State, a: Action) {
    match a
    case MainStep => MainEnabled(s)
    case Acquire(t) =>
      t in s.threads && s.threads[t].todo != [] && !s.threads[t].holding && LockOf(s.threads[t].todo[0]) !in s.owner
    case Finish(t) => t in s.threads && s.threads[t].todo != [] && s.threads[t].holding
    case Spawn(id, cb) => Cb(id) !in s.threads && Registered(s.mode, cb)
    case Spurious => Asleep(s.pc).Some?
    case Idle => true
  }

  function Next(s: State, a: Action): State
    requires Enabled(s, a)
  {
    match a
    case MainStep => MainNext(s)
    case Acquire(t) =>
      s.(owner := s.owner[LockOf(s.threads[t].todo[0]) := t], threads := s.threads[t := s.threads[t].(holding := true)])
    case Finish(t) =>
      var sec := s.threads[t].todo[0];
      s.(sh := Effect(sec, s.sh),
         pc := Woken(sec, s.sh, s.pc),
         owner := s.owner - {LockOf(sec)},
         threads := s.threads[t := Thread(s.threads[t].todo[1..], false)])
    case Spawn(id, cb) => s.(threads := s.threads[Cb(id) := Thread(Program(cb), false)])
    case Spurious => s.(pc := WakeUp(s.pc))
    case Idle => s
  }

  predicate ValidRun(s: State, acts: seq<Action>)
    decreases |acts|
  {
    acts == [] || (Enabled(s, acts[0]) && ValidRun(Next(s, acts[0]), acts[1..]))
  }

  function Run(s: State, acts: seq<Action>): State
    requires ValidRun(s, acts)
    decreases |acts|
  {
    if acts == [] then s else Run(Next(s, acts[0]), acts[1..])
  }

  // ---------------------------------------------------------------- the invariant

  /** The lock table agrees with the program counters. */
  ghost predicate LocksOk(s: State) {
    && Main !in s.threads
    && (forall l :: l in s.owner ==>
          if s.owner[l] == Main then l in MainHolds(s.pc)
          else && s.owner[l] in s.threads && s.threads[s.owner[l]].holding
               && s.threads[s.owner[l]].todo != [] && LockOf(s.threads[s.owner[l]].todo[0]) == l)
    && (forall l :: l in MainHolds(s.pc) ==> l in s.owner && s.owner[l] == Main)
    && (forall t :: t in s.threads && s.threads[t].holding ==>
          s.threads[t].todo != [] && LockOf(s.threads[t].todo[0]) in s.owner && s.owner[LockOf(s.threads[t].todo[0])] == t)
  }

  /** While the main thread sleeps un-notified, its variable is still in the state it waits to leave. */
  predicate WakeupsOk(sh: Shared, pc: Pc) {
    match pc
    case ArrivalSleep(false) => sh.dev == DevWaitArrival
    case DepartSleep(false) => sh.dev == DevWaitDeparture
    case ReadySleep(false) => sh.snep == SnepWaitReady
    case OffSleep(false) => sh.snep == SnepWaitOff
    case DataSleep(false) => sh.hce == HceWaitData
    case _ => true
  }

  predicate TypesOk(sh: Shared) {
    && (sh.dev == DevPresent || sh.dev == DevWaitDeparture ==> sh.devType != TypeNone)
    && (sh.dev == DevDeparted ==> sh.devType == TypeNone)
  }

  predicate Increasing(s: seq<nat>) { forall i, j :: 0 <= i < j < |s| ==> s[i] < s[j] }

  /** The APDU buffer holds the latest APDU and that one was not handed on; what was handed on are
      received APDUs at increasing positions. */
  predicate MailboxOk(sh: Shared) {
    && (sh.hce == HceDataReceived ==> sh.data.Some?)
    && sh.hce != HceExit
    && |sh.given| == |sh.givenAt| && Increasing(sh.givenAt)
    && (forall k :: 0 <= k < |sh.given| ==> sh.givenAt[k] < |sh.received| && sh.given[k] == sh.received[sh.givenAt[k]])
    && (sh.data.Some? ==>
          && sh.received != [] && sh.data.value == sh.received[|sh.received| - 1]
          && (sh.givenAt != [] ==> sh.givenAt[|sh.givenAt| - 1] < |sh.received| - 1))
  }

  predicate ReaderPc(pc: Pc) {
    pc.HceTop? || pc.HceLoop? || pc.HceCheck? || pc.DataSleep? || pc.HceTake? || pc.HceSend? || pc.HceDev? || pc.HceTest?
  }

  predicate HceSection(sec: Section) {
    sec == ActivatedDev || sec == DeactivatedDev || LockOf(sec) == HceLock
  }

  /** Without card emulation no reader ever appears. */
  ghost predicate ModeOk(s: State) {
    s.mode != Share ==>
      && s.sh.devType != TypeReader && !ReaderPc(s.pc)
      && forall t, i :: t in s.threads && 0 <= i < |s.threads[t].todo| ==> !HceSection(s.threads[t].todo[i])
  }

  ghost predicate Inv(s: State) {
    && LocksOk(s) && WakeupsOk(s.sh, s.pc) && TypesOk(s.sh) && MailboxOk(s.sh) && ModeOk(s)
    && s.pc != Abandon
    && (s.pc == PushArm ==> s.sh.snep != SnepReady && s.sh.snep != SnepExit)
  }

  // ---------------------------------------------------------------- every step keeps it

  lemma AcquireKeepsInv(s: State, t: Tid)
    requires Inv(s) && Enabled(s, Acquire(t))
    ensures Inv(Next(s, Acquire(t)))
  {}

  lemma SpawnKeepsInv(s: State, id: nat, cb: Callback)
    requires Inv(s) && Enabled(s, Spawn(id, cb))
    ensures Inv(Next(s, Spawn(id, cb)))
  {}

  lemma SpuriousKeepsInv(s: State)
    requires Inv(s) && Enabled(s, Spurious)
    ensures Inv(Next(s, Spurious))
  {}

  /** A section touches only the variables of its lock. */
  lemma SectionFrame(sec: Section, sh: Shared)
    ensures LockOf(sec) != DevLock ==> Effect(sec, sh).dev == sh.dev && Effect(sec, sh).devType == sh.devType
    ensures LockOf(sec) != SnepLock ==> Effect(sec, sh).snep == sh.snep
    ensures LockOf(sec) != HceLock ==>
              Effect(sec, sh).hce == sh.hce && Effect(sec, sh).data == sh.data && Effect(sec, sh).received == sh.received
    ensures Effect(sec, sh).given == sh.given && Effect(sec, sh).givenAt == sh.givenAt
  {}

  lemma DevSection(sec: Section, sh: Shared, pc: Pc)
    requires LockOf(sec) == DevLock && WakeupsOk(sh, pc) && TypesOk(sh)
    ensures WakeupsOk(Effect(sec, sh), Woken(sec, sh, pc)) && TypesOk(Effect(sec, sh))
  {}

  lemma SnepSection(sec: Section, sh: Shared, pc: Pc)
    requires LockOf(sec) == SnepLock && WakeupsOk(sh, pc)
    ensures WakeupsOk(Effect(sec, sh), Woken(sec, sh, pc))
  {}

  lemma HceLockSection(sec: Section, sh: Shared, pc: Pc)
    requires LockOf(sec) == HceLock && WakeupsOk(sh, pc) && MailboxOk(sh)
    ensures WakeupsOk(Effect(sec, sh), Woken(sec, sh, pc)) && MailboxOk(Effect(sec, sh))
  {}

  /** A section leaves the main thread asleep only with its variable still waiting. */
  lemma SectionKeepsShared(sec: Section, sh: Shared, pc: Pc)
    requires WakeupsOk(sh, pc) && TypesOk(sh) && MailboxOk(sh)
    ensures WakeupsOk(Effect(sec, sh), Woken(sec, sh, pc)) && TypesOk(Effect(sec, sh)) && MailboxOk(Effect(sec, sh))
  {
    hide Effect, Notifies, WakeupsOk, Asleep, WakeUp, Woken;
    SectionFrame(sec, sh);
    match LockOf(sec) {
      case DevLock => DevSection(sec, sh, pc);
      case SnepLock => SnepSection(sec, sh, pc);
      case HceLock => HceLockSection(sec, sh, pc);
    }
  }

  lemma FinishKeepsLocks(s: State, t: Tid)
    requires Inv(s) && Enabled(s, Finish(t))
    ensures LocksOk(Next(s, Finish(t)))
  {
    hide Effect, Notifies, Woken, MainHolds, LockOf, MailboxOk, TypesOk, WakeupsOk, ModeOk;
    WokenHolds(s.threads[t].todo[0], s.sh, s.pc);
  }

  lemma WokenHolds(sec: Section, sh: Shared, pc: Pc)
    ensures MainHolds(Woken(sec, sh, pc)) == MainHolds(pc)
  {
    hide Effect, Notifies, LockOf;
  }

  lemma NoReaderAppears(sec: Section, sh: Shared)
    requires !HceSection(sec) && sh.devType != TypeReader
    ensures Effect(sec, sh).devType != TypeReader
  {}

  lemma FinishKeepsMode(s: State, t: Tid)
    requires Inv(s) && Enabled(s, Finish(t))
    ensures ModeOk(Next(s, Finish(t)))
  {
    hide Effect, Notifies, MailboxOk, TypesOk, WakeupsOk, LocksOk;
    var sec := s.threads[t].todo[0];
    if s.mode != Share {
      assert !HceSection(s.threads[t].todo[0]);
      NoReaderAppears(sec, s.sh);
    }
  }

  lemma FinishKeepsInv(s: State, t: Tid)
    requires Inv(s) && Enabled(s, Finish(t))
    ensures Inv(Next(s, Finish(t)))
  {
    hide Effect, Notifies, MailboxOk, TypesOk, WakeupsOk, ModeOk;
    var sec := s.threads[t].todo[0];
    FinishKeepsLocks(s, t);
    FinishKeepsMode(s, t);
    SectionKeepsShared(sec, s.sh, s.pc);
    SectionFrame(sec, s.sh);
    if s.pc == PushArm { assert LockOf(sec) != SnepLock; }
  }

  lemma LocalKeepsMailbox(pc: Pc, sh: Shared, mode: Mode)
    requires MailboxOk(sh)
    ensures MailboxOk(Local(pc, sh, mode).1)
  {
    if pc == HceTake && sh.hce == HceDataReceived { TakeKeepsMailbox(sh); }
  }

  lemma TakeKeepsMailbox(sh: Shared)
    requires MailboxOk(sh) && sh.hce == HceDataReceived
    ensures MailboxOk(Local(HceTake, sh, Share).1)
  {
    var n := |sh.givenAt|;
    var at := sh.givenAt + [|sh.received| - 1];
    forall i | 0 <= i < n ensures sh.givenAt[i] < |sh.received| - 1 {
      assert i == n - 1 || sh.givenAt[i] < sh.givenAt[n - 1];
    }
    assert Increasing(at);
  }

  /** A point of the main loop where its next step needs no lock. */
  predicate LocalPoint(pc: Pc) { Wants(pc).None? && Asleep(pc).None? && pc != Done && pc != Abandon }

  lemma LocalKeepsShared(pc: Pc, sh: Shared, mode: Mode)
    requires TypesOk(sh) && LocalPoint(pc)
    requires pc == PushArm ==> sh.snep != SnepReady && sh.snep != SnepExit
    ensures var (pc', sh') := Local(pc, sh, mode);
            && WakeupsOk(sh', pc') && TypesOk(sh') && pc' != Abandon
            && (pc' == PushArm ==> sh'.snep != SnepReady && sh'.snep != SnepExit)
            && sh'.devType == sh.devType
  {
    hide MainHolds, ReaderPc;
  }

  lemma LocalMeetsReader(pc: Pc, sh: Shared, mode: Mode)
    ensures ReaderPc(Local(pc, sh, mode).0) ==> ReaderPc(pc) || sh.devType == TypeReader
  {
    hide MainHolds;
  }

  lemma LocalOnlyReleases(pc: Pc, sh: Shared, mode: Mode)
    requires LocalPoint(pc)
    ensures MainHolds(Local(pc, sh, mode).0) <= MainHolds(pc)
  {}

  lemma LockingKeepsPoint(pc: Pc, sh: Shared)
    requires Wants(pc).Some?
    ensures var (l, pc') := Wants(pc).value;
            && WakeupsOk(sh, pc') && pc' != Abandon && pc' != PushArm
            && (ReaderPc(pc') ==> ReaderPc(pc))
  {}

  lemma LockingAdds(pc: Pc)
    requires Wants(pc).Some?
    ensures MainHolds(Wants(pc).value.1) == MainHolds(pc) + {Wants(pc).value.0}
  {}

  lemma MainKeepsLocks(s: State)
    requires Inv(s) && MainEnabled(s)
    ensures LocksOk(MainNext(s))
  {
    hide Local, Wants, MainHolds, MailboxOk, TypesOk, WakeupsOk, ModeOk;
    if Wants(s.pc).Some? { LockingAdds(s.pc); } else { LocalOnlyReleases(s.pc, s.sh, s.mode); }
  }

  lemma MainKeepsInv(s: State)
    requires Inv(s) && MainEnabled(s)
    ensures Inv(MainNext(s))
  {
    hide Local, Wants, MainHolds, MailboxOk, TypesOk, WakeupsOk, ReaderPc, HceSection;
    MainKeepsLocks(s);
    if Wants(s.pc).Some? {
      LockingKeepsPoint(s.pc, s.sh);
    } else {
      LocalKeepsShared(s.pc, s.sh, s.mode);
      LocalMeetsReader(s.pc, s.sh, s.mode);
      LocalKeepsMailbox(s.pc, s.sh, s.mode);
    }
  }

  lemma StepKeepsInv(s: State, a: Action)
    requires Inv(s) && Enabled(s, a)
    ensures Inv(Next(s, a))
  {
    match a
    case MainStep => MainKeepsInv(s);
    case Acquire(t) => AcquireKeepsInv(s, t);
    case Finish(t) => FinishKeepsInv(s, t);
    case Spawn(id, cb) => SpawnKeepsInv(s, id, cb);
    case Spurious => SpuriousKeepsInv(s);
    case Idle =>
  }

  lemma {:induction false} RunKeepsInv(s: State, acts: seq<Action>)
    requires Inv(s) && ValidRun(s, acts)
    ensures Inv(Run(s, acts))
    decreases |acts|
  {
    if acts != [] {
      StepKeepsInv(s, acts[0]);
      RunKeepsInv(Next(s, acts[0]), acts[1..]);
    }
  }

  /** The reachable states of a mode. */
  ghost predicate Reachable(mode: Mode, s: State) {
    exists acts :: ValidRun(Init(mode), acts) && Run(Init(mode), acts) == s
  }

  lemma InitInv(mode: Mode)
    ensures Inv(Init(mode))
  {}

  lemma ReachableInv(mode: Mode, s: State)
    requires Reachable(mode, s)
    ensures Inv(s)
  {
    hide Inv, Init;
    var acts :| ValidRun(Init(mode), acts) && Run(Init(mode), acts) == s;
    InitInv(mode);
    RunKeepsInv(Init(mode), acts);
  }

  // ---------------------------------------------------------------- what it means

  /** No wakeup is lost, whatever callbacks interleave and with spurious wakeups allowed. */
  lemma NoLostWakeup(mode: Mode, s: State)
    requires Reachable(mode, s)
    ensures s.pc == ArrivalSleep(false) ==> s.sh.dev == DevWaitArrival
    ensures s.pc == DepartSleep(false) ==> s.sh.dev == DevWaitDeparture
    ensures s.pc == ReadySleep(false) ==> s.sh.snep == SnepWaitReady
    ensures s.pc == OffSleep(false) ==> s.sh.snep == SnepWaitOff
    ensures s.pc == DataSleep(false) ==> s.sh.hce == HceWaitData
  {
    ReachableInv(mode, s);
  }

  /** A present device has a type, so the branch of the loop that abandons polling is unreachable. */
  lemma PresentHasType(mode: Mode, s: State)
    requires Reachable(mode, s)
    ensures s.sh.dev == DevPresent || s.sh.dev == DevWaitDeparture ==> s.sh.devType != TypeNone
    ensures s.sh.dev == DevDeparted ==> s.sh.devType == TypeNone
    ensures s.pc != Abandon
  {
    ReachableInv(mode, s);
  }

  /** The emulator is given received APDUs, in order, each at most once; DATA_RECEIVED means the
      buffer holds the latest one, not yet given. */
  lemma MailboxInOrder(mode: Mode, s: State)
    requires Reachable(mode, s)
    ensures Increasing(s.sh.givenAt) && |s.sh.givenAt| == |s.sh.given|
    ensures forall k :: 0 <= k < |s.sh.given| ==>
              s.sh.givenAt[k] < |s.sh.received| && s.sh.given[k] == s.sh.received[s.sh.givenAt[k]]
    ensures s.sh.hce == HceDataReceived ==>
              && s.sh.received != [] && s.sh.data == Some(s.sh.received[|s.sh.received| - 1])
              && |s.sh.received| - 1 !in s.sh.givenAt
  {
    hide Reachable, LocksOk, WakeupsOk, TypesOk, ModeOk;
    ReachableInv(mode, s);
    if s.sh.hce == HceDataReceived {
      forall k | 0 <= k < |s.sh.givenAt| ensures s.sh.givenAt[k] < |s.sh.received| - 1 {
        assert k == |s.sh.givenAt| - 1 || s.sh.givenAt[k] < s.sh.givenAt[|s.sh.givenAt| - 1];
      }
    }
  }

  // ---------------------------------------------------------------- locks

  /** The locks a thread holds according to the lock table. */
  function Held(s: State, t: Tid): set<Lock> { set l | l in s.owner && s.owner[l] == t }

  function Requested(s: State, t: Tid): Option<Lock> {
    if t == Main then (if Wants(s.pc).Some? then Some(Wants(s.pc).value.0) else None)
    else if t in s.threads && s.threads[t].todo != [] && !s.threads[t].holding then Some(LockOf(s.threads[t].todo[0]))
    else None
  }

  /** Only the main thread ever holds two locks or asks for one while holding another; nobody asks
      for a lock it holds; a main thread that sleeps, or calls into the stack, holds none. */
  lemma LockDiscipline(mode: Mode, s: State, t: Tid)
    requires Reachable(mode, s)
    ensures Requested(s, t).Some? ==> Requested(s, t).value !in Held(s, t)
    ensures t != Main ==> (forall l, m :: l in Held(s, t) && m in Held(s, t) ==> l == m)
    ensures t != Main && Requested(s, t).Some? ==> Held(s, t) == {}
    ensures Held(s, Main) == MainHolds(s.pc)
    ensures Asleep(s.pc).Some? ==> Held(s, Main) == {}
    ensures s.pc == TagWork || s.pc == PushSend || s.pc == HceSend ==> Held(s, Main) == {}
  {
    ReachableInv(mode, s);
    forall l ensures l in Held(s, Main) <==> l in MainHolds(s.pc) {}
  }

  /** The thread that takes a step. */
  function Actor(a: Action): Tid {
    match a case Acquire(t) => t case Finish(t) => t case _ => Main
  }

  /** Every change of a monitor's variables is made by the thread that holds its lock. */
  lemma ChangesNeedLock(mode: Mode, s: State, a: Action)
    requires Reachable(mode, s) && Enabled(s, a)
    ensures var t := Next(s, a);
            && (t.sh.dev != s.sh.dev || t.sh.devType != s.sh.devType ==> DevLock in Held(s, Actor(a)))
            && (t.sh.snep != s.sh.snep ==> SnepLock in Held(s, Actor(a)))
            && (t.sh.hce != s.sh.hce || t.sh.data != s.sh.data ==> HceLock in Held(s, Actor(a)))
  {
    hide Reachable, Effect, Notifies, Woken, Local, Wants, MainHolds;
    ReachableInv(mode, s);
    match a
    case MainStep => if Wants(s.pc).None? { LocalUnderLock(s.pc, s.sh, s.mode); }
    case Finish(t) => SectionFrame(s.threads[t].todo[0], s.sh);
    case _ =>
  }

  lemma LocalUnderLock(pc: Pc, sh: Shared, mode: Mode)
    ensures var sh' := Local(pc, sh, mode).1;
            && (sh'.dev != sh.dev ==> DevLock in MainHolds(pc)) && sh'.devType == sh.devType
            && (sh'.snep != sh.snep ==> SnepLock in MainHolds(pc))
            && (sh'.hce != sh.hce || sh'.data != sh.data ==> HceLock in MainHolds(pc))
  {}

  /** `t` waits for a lock that `u` holds. */
  predicate WaitsFor(s: State, t: Tid, u: Tid) {
    Requested(s, t).Some? && Requested(s, t).value in s.owner && s.owner[Requested(s, t).value] == u
  }

  /** There is no static lock order, but the wait-for relation descends in this rank. */
  function Rank(s: State, t: Tid): nat {
    if t == Main then 1 else if t in s.threads && s.threads[t].holding then 0 else 2
  }

  lemma WaitsDescend(s: State, t: Tid, u: Tid)
    requires Inv(s) && WaitsFor(s, t, u)
    ensures Rank(s, u) < Rank(s, t)
  {}

  predicate WaitPath(s: State, path: seq<Tid>) {
    |path| >= 2 && WaitsFor(s, path[0], path[1]) && (|path| > 2 ==> WaitPath(s, path[1..]))
  }

  lemma {:induction false} PathDescends(s: State, path: seq<Tid>)
    requires Inv(s) && WaitPath(s, path)
    ensures Rank(s, path[|path| - 1]) + |path| - 1 <= Rank(s, path[0])
  {
    WaitsDescend(s, path[0], path[1]);
    if |path| > 2 { PathDescends(s, path[1..]); }
  }

  /** Deadlock freedom: no reachable state has a cycle of threads waiting for each other's locks,
      and no such chain has more than three threads. */
  lemma NoWaitCycle(mode: Mode, s: State, path: seq<Tid>)
    requires Reachable(mode, s) && WaitPath(s, path)
    ensures path[0] != path[|path| - 1] && |path| <= 3
  {
    ReachableInv(mode, s);
    PathDescends(s, path);
  }

  predicate Unfinished(s: State, t: Tid) { t in s.threads && s.threads[t].todo != [] }

  /** Something that is neither a new callback nor a spurious wakeup can happen as long as a thread
      is unfinished, or the main thread neither sleeps nor has left the loop. */
  lemma SomeoneCanMove(mode: Mode, s: State)
    requires Reachable(mode, s)
    requires (exists t :: Unfinished(s, t)) || (s.pc != Done && Asleep(s.pc).None?)
    ensures MainEnabled(s) || exists t :: Enabled(s, Acquire(t)) || Enabled(s, Finish(t))
  {
    ReachableInv(mode, s);
    if s.pc != Done && Asleep(s.pc).None? {
      if !MainEnabled(s) { assert Enabled(s, Finish(s.owner[Wants(s.pc).value.0])); }
    } else {
      var t :| Unfinished(s, t);
      var l := LockOf(s.threads[t].todo[0]);
      if s.threads[t].holding {
        assert Enabled(s, Finish(t));
      } else if l !in s.owner {
        assert Enabled(s, Acquire(t));
      } else {
        assert Enabled(s, Finish(s.owner[l]));
      }
    }
  }
}
