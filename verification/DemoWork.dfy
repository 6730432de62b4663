/** The work of the main thread, over every run: it matches the devices that arrive, it sleeps exactly
    while it waits, and left alone it comes to rest. */
module DemoWork {
  import opened Basics
  import opened DemoState
  import opened DemoProtocol
  import opened DemoHistory
  import opened DemoExit

  // ---------------------------------------------------------------- work matches the devices found

  /** Between finding a peer and the end of the wait for its client. */
  predicate PushWait(pc: Pc) {
    pc.PushTop? || pc.PushDev? || pc.PushBoth? || pc.PushArm? || pc.ReadySleep? || pc.PushDone?
  }

  /** Between finding a peer and looking whether to wait for its client. */
  predicate BeforePush(pc: Pc) { pc.PushTop? || pc.PushDev? || pc.PushBoth? }

  /** Between finding a peer and looking whether its client is off. */
  predicate ClientWork(pc: Pc) { PushWait(pc) || pc.PushSend? || pc.OffTop? || pc.OffCheck? }

  /** Between finding a device and looking whether it is still present. */
  predicate Working(pc: Pc) {
    pc.TagWork? || ClientWork(pc) || pc.OffSleep? || pc.OffDone? || ReaderPc(pc) || pc.Relock? || pc.Depart?
  }

  function One(b: bool): nat { if b then 1 else 0 }

  function Times(h: seq<Happening>, x: Happening): nat { multiset(h)[x] }

  /** Every device found gets exactly the work of its kind, in turn. */
  ghost predicate WorkOk(mode: Mode, pc: Pc, h: seq<Happening>) {
    && Times(h, ReadTag) + One(pc == TagWork) == Times(h, Found(TypeTag))
    && Times(h, Serve) + One(pc == HceTop) == Times(h, Found(TypeReader))
    && Times(h, PushOver(true)) + Times(h, PushOver(false)) + One(PushWait(pc))
       == (if mode == Push then Times(h, Found(TypeP2p)) else 0)
    && Times(h, PushLook(true)) + Times(h, PushLook(false)) + One(BeforePush(pc))
       == (if mode == Push then Times(h, Found(TypeP2p)) else 0)
    && Times(h, Armed) + One(pc == PushArm) == Times(h, PushLook(true))
    && Times(h, Put) + One(pc == PushSend) == Times(h, PushOver(true))
    && Times(h, OffLook(true)) + Times(h, OffLook(false)) + One(ClientWork(pc)) == Times(h, Found(TypeP2p))
    && Times(h, Again(true)) + Times(h, Again(false)) + One(Working(pc))
       == Times(h, Found(TypeTag)) + Times(h, Found(TypeP2p)) + Times(h, Found(TypeReader))
    && Times(h, Found(TypeNone)) == 0
  }

  function Is(e: Option<Happening>, x: Happening): nat { One(e == Some(x)) }

  /** One step of the main thread, as far as its work on devices is concerned. */
  predicate DeviceMoves(pc: Pc, e: Option<Happening>, pc': Pc) {
    && Is(e, ReadTag) + One(pc' == TagWork) == One(pc == TagWork) + Is(e, Found(TypeTag))
    && Is(e, Serve) + One(pc' == HceTop) == One(pc == HceTop) + Is(e, Found(TypeReader))
    && Is(e, OffLook(true)) + Is(e, OffLook(false)) + One(ClientWork(pc')) == One(ClientWork(pc)) + Is(e, Found(TypeP2p))
    && Is(e, Again(true)) + Is(e, Again(false)) + One(Working(pc'))
       == One(Working(pc)) + Is(e, Found(TypeTag)) + Is(e, Found(TypeP2p)) + Is(e, Found(TypeReader))
    && Is(e, Found(TypeNone)) == 0
  }

  /** The same for pushing a message. */
  predicate PushMoves(mode: Mode, pc: Pc, e: Option<Happening>, pc': Pc) {
    && Is(e, PushOver(true)) + Is(e, PushOver(false)) + One(PushWait(pc'))
       == One(PushWait(pc)) + (if mode == Push then Is(e, Found(TypeP2p)) else 0)
    && Is(e, PushLook(true)) + Is(e, PushLook(false)) + One(BeforePush(pc'))
       == One(BeforePush(pc)) + (if mode == Push then Is(e, Found(TypeP2p)) else 0)
    && Is(e, Armed) + One(pc' == PushArm) == One(pc == PushArm) + Is(e, PushLook(true))
    && Is(e, Put) + One(pc' == PushSend) == One(pc == PushSend) + Is(e, PushOver(true))
  }

  predicate WorkMoves(mode: Mode, pc: Pc, e: Option<Happening>, pc': Pc) {
    DeviceMoves(pc, e, pc') && PushMoves(mode, pc, e, pc')
  }

  lemma MainWorks(s: State)
    requires Inv(s) && MainEnabled(s)
    ensures WorkMoves(s.mode, s.pc, MainEvent(s, MainNext(s)), MainNext(s).pc)
  {
    hide WorkMoves, Local, Wants, MainHolds, MainEvent;
    if Wants(s.pc).Some? {
      LockingWorks(s);
    } else if s.pc == Loaded {
      FindingWorks(s);
    } else if ClientWork(s.pc) {
      ClientWorks(s);
    } else if ReaderPc(s.pc) {
      ReaderWorks(s);
    } else {
      OtherWorks(s);
    }
  }

  lemma LockingWorks(s: State)
    requires Inv(s) && MainEnabled(s) && Wants(s.pc).Some?
    ensures WorkMoves(s.mode, s.pc, MainEvent(s, MainNext(s)), MainNext(s).pc)
  {
    hide Inv, MainEnabled, MainNext, MainEvent, DeviceMoves, PushMoves, Wants, Local;
    LockingOnDevice(s);
    LockingOnPush(s);
  }

  lemma LockingOnDevice(s: State)
    requires Inv(s) && MainEnabled(s) && Wants(s.pc).Some?
    ensures DeviceMoves(s.pc, MainEvent(s, MainNext(s)), MainNext(s).pc)
  {
    hide MainHolds, LocksOk, MailboxOk, TypesOk, WakeupsOk, ModeOk;
  }

  lemma LockingOnPush(s: State)
    requires Inv(s) && MainEnabled(s) && Wants(s.pc).Some?
    ensures PushMoves(s.mode, s.pc, MainEvent(s, MainNext(s)), MainNext(s).pc)
  {
    hide MainHolds, LocksOk, MailboxOk, TypesOk, WakeupsOk, ModeOk;
  }

  lemma FindingWorks(s: State)
    requires Inv(s) && MainEnabled(s) && s.pc == Loaded
    ensures WorkMoves(s.mode, s.pc, MainEvent(s, MainNext(s)), MainNext(s).pc)
  {
    hide Inv, MainEnabled, MainNext, MainEvent, DeviceMoves, PushMoves, Wants, Local;
    FindingOnDevice(s);
    FindingOnPush(s);
  }

  lemma FindingOnDevice(s: State)
    requires Inv(s) && MainEnabled(s) && s.pc == Loaded
    ensures DeviceMoves(s.pc, MainEvent(s, MainNext(s)), MainNext(s).pc)
  {
    hide MainHolds, LocksOk, MailboxOk, WakeupsOk, ModeOk;
  }

  lemma FindingOnPush(s: State)
    requires Inv(s) && MainEnabled(s) && s.pc == Loaded
    ensures PushMoves(s.mode, s.pc, MainEvent(s, MainNext(s)), MainNext(s).pc)
  {
    hide MainHolds, LocksOk, MailboxOk, WakeupsOk, ModeOk;
  }

  lemma ClientWorks(s: State)
    requires Inv(s) && MainEnabled(s) && Wants(s.pc).None? && ClientWork(s.pc)
    ensures WorkMoves(s.mode, s.pc, MainEvent(s, MainNext(s)), MainNext(s).pc)
  {
    hide Inv, MainEnabled, MainNext, MainEvent, DeviceMoves, PushMoves, Wants, Local;
    ClientOnDevice(s);
    ClientOnPush(s);
  }

  lemma ClientOnDevice(s: State)
    requires Inv(s) && MainEnabled(s) && Wants(s.pc).None? && ClientWork(s.pc)
    ensures DeviceMoves(s.pc, MainEvent(s, MainNext(s)), MainNext(s).pc)
  {
    hide MainHolds, LocksOk, MailboxOk, TypesOk, WakeupsOk, ModeOk;
  }

  lemma ClientOnPush(s: State)
    requires Inv(s) && MainEnabled(s) && Wants(s.pc).None? && ClientWork(s.pc)
    ensures PushMoves(s.mode, s.pc, MainEvent(s, MainNext(s)), MainNext(s).pc)
  {
    hide MainHolds, LocksOk, MailboxOk, TypesOk, WakeupsOk, ModeOk;
  }

  lemma ReaderWorks(s: State)
    requires Inv(s) && MainEnabled(s) && Wants(s.pc).None? && ReaderPc(s.pc)
    ensures WorkMoves(s.mode, s.pc, MainEvent(s, MainNext(s)), MainNext(s).pc)
  {
    hide Inv, MainEnabled, MainNext, MainEvent, DeviceMoves, PushMoves, Wants, Local;
    ReaderOnDevice(s);
    ReaderOnPush(s);
  }

  lemma ReaderOnDevice(s: State)
    requires Inv(s) && MainEnabled(s) && Wants(s.pc).None? && ReaderPc(s.pc)
    ensures DeviceMoves(s.pc, MainEvent(s, MainNext(s)), MainNext(s).pc)
  {
    hide MainHolds, LocksOk, MailboxOk, TypesOk, WakeupsOk, ModeOk;
  }

  lemma ReaderOnPush(s: State)
    requires Inv(s) && MainEnabled(s) && Wants(s.pc).None? && ReaderPc(s.pc)
    ensures PushMoves(s.mode, s.pc, MainEvent(s, MainNext(s)), MainNext(s).pc)
  {
    hide MainHolds, LocksOk, MailboxOk, TypesOk, WakeupsOk, ModeOk;
  }

  lemma OtherWorks(s: State)
    requires Inv(s) && MainEnabled(s) && Wants(s.pc).None? && !ClientWork(s.pc) && !ReaderPc(s.pc) && s.pc != Loaded
    ensures WorkMoves(s.mode, s.pc, MainEvent(s, MainNext(s)), MainNext(s).pc)
  {
    hide Inv, MainEnabled, MainNext, MainEvent, DeviceMoves, PushMoves, Wants, Local;
    OtherOnDevice(s);
    OtherOnPush(s);
  }

  lemma OtherOnDevice(s: State)
    requires Inv(s) && MainEnabled(s) && Wants(s.pc).None? && !ClientWork(s.pc) && !ReaderPc(s.pc) && s.pc != Loaded
    ensures DeviceMoves(s.pc, MainEvent(s, MainNext(s)), MainNext(s).pc)
  {
    hide MainHolds, LocksOk, MailboxOk, TypesOk, WakeupsOk, ModeOk;
  }

  lemma OtherOnPush(s: State)
    requires Inv(s) && MainEnabled(s) && Wants(s.pc).None? && !ClientWork(s.pc) && !ReaderPc(s.pc) && s.pc != Loaded
    ensures PushMoves(s.mode, s.pc, MainEvent(s, MainNext(s)), MainNext(s).pc)
  {
    hide MainHolds, LocksOk, MailboxOk, TypesOk, WakeupsOk, ModeOk;
  }

  lemma NotedTimes(h: seq<Happening>, e: Option<Happening>, x: Happening)
    ensures Times(Noted(h, e), x) == Times(h, x) + Is(e, x)
  {}

  lemma WorkStep(mode: Mode, pc: Pc, h: seq<Happening>, e: Option<Happening>, pc': Pc)
    requires WorkOk(mode, pc, h) && WorkMoves(mode, pc, e, pc')
    ensures WorkOk(mode, pc', Noted(h, e))
  {
    hide Times, Noted, Is, One, BeforePush, PushWait, ClientWork, Working;
    NotedTimes(h, e, ReadTag);
    NotedTimes(h, e, Serve);
    NotedTimes(h, e, Put);
    NotedTimes(h, e, Armed);
    forall b: bool
      ensures Times(Noted(h, e), PushLook(b)) == Times(h, PushLook(b)) + Is(e, PushLook(b))
      ensures Times(Noted(h, e), PushOver(b)) == Times(h, PushOver(b)) + Is(e, PushOver(b))
      ensures Times(Noted(h, e), OffLook(b)) == Times(h, OffLook(b)) + Is(e, OffLook(b))
      ensures Times(Noted(h, e), Again(b)) == Times(h, Again(b)) + Is(e, Again(b))
    {
      NotedTimes(h, e, PushLook(b));
      NotedTimes(h, e, PushOver(b));
      NotedTimes(h, e, OffLook(b));
      NotedTimes(h, e, Again(b));
    }
    forall k: DevType ensures Times(Noted(h, e), Found(k)) == Times(h, Found(k)) + Is(e, Found(k)) {
      NotedTimes(h, e, Found(k));
    }
  }

  // ---------------------------------------------------------------- no arrival is worked on twice

  predicate Finds(x: Happening) { x.Found? }

  predicate ComesAnew(x: Happening) { ArrivalKind(x).Some? }

  /** A device has been found, and none has arrived since. */
  ghost predicate Stale(h: seq<Happening>) { Since(h, Finds, ComesAnew) }

  /** Whatever is found is the device that is here, by its latest arrival, and is found for the first time. */
  ghost predicate FoundOnce(h: seq<Happening>) {
    forall i :: 0 <= i < |h| && h[i].Found? ==> Here(h[..i], h[i].kind) && !Stale(h[..i])
  }

  /** Where the main thread looks for a device. */
  predicate Looking(pc: Pc) {
    pc.DepartSleep? || pc.LoopEnd? || pc.LoopTop? || pc.Check? || pc.ArrivalSleep? || pc.Loaded?
  }

  ghost predicate LookingOk(s: State, h: seq<Happening>) {
    FoundOnce(h) && (Looking(s.pc) && Stale(h) ==> s.sh.dev != DevPresent)
  }

  lemma FoundOnceSnoc(h: seq<Happening>, x: Happening)
    requires FoundOnce(h) && (x.Found? ==> Here(h, x.kind) && !Stale(h))
    ensures FoundOnce(h + [x])
  {
    hide Here, Stale;
    var g := h + [x];
    forall i | 0 <= i < |g| && g[i].Found? ensures Here(g[..i], g[i].kind) && !Stale(g[..i]) {
      if i < |h| { assert g[..i] == h[..i]; } else { assert g[..i] == h; }
    }
  }

  lemma MainLooks(s: State)
    requires Inv(s) && MainEnabled(s)
    ensures var e, t := MainEvent(s, MainNext(s)), MainNext(s);
            && (e.Some? && e.value.Found? ==> s.sh.dev == DevPresent && s.sh.devType == e.value.kind && Looking(s.pc) && !Looking(t.pc))
            && (e.Some? ==> ArrivalKind(e.value).None?)
            && (Looking(t.pc) && t.sh.dev == DevPresent ==> Looking(s.pc) && s.sh.dev == DevPresent)
  {
    hide MainHolds, LocksOk, MailboxOk, TypesOk, ModeOk;
  }

  lemma MainLookingOk(s: State, h: seq<Happening>)
    requires Inv(s) && MainEnabled(s) && Agrees(s.sh, h) && LookingOk(s, h)
    ensures LookingOk(MainNext(s), Noted(h, MainEvent(s, MainNext(s))))
  {
    hide Inv, MainEnabled, MainNext, MainEvent, FoundOnce, Since, Here, Looking, SnepAgrees, HceAgrees;
    var e := MainEvent(s, MainNext(s));
    MainLooks(s);
    if e.Some? {
      if e.value.Found? { assert Here(h, e.value.kind); }
      FoundOnceSnoc(h, e.value);
      SinceSnoc(h, e.value, Finds, ComesAnew);
    }
  }

  lemma WokenLooks(sec: Section, sh: Shared, pc: Pc)
    ensures Looking(Woken(sec, sh, pc)) <==> Looking(pc)
    ensures forall mode, h :: WorkOk(mode, pc, h) ==> WorkOk(mode, Woken(sec, sh, pc), h)
  {
    hide Notifies, Times;
  }

  /** Only an arrival makes a device present. */
  lemma OnlyArrivalsPresent(x: Happening, sec: Section, sh: Shared)
    requires Names(x, sec) && sh.hce != HceExit && ArrivalKind(x).None? && Effect(sec, sh).dev == DevPresent
    ensures sh.dev == DevPresent
  {
    hide Effect, Program;
    SectionMoves(x, sec, sh);
  }

  lemma FinishLookingOk(s: State, b: Book, t: Tid)
    requires BookInv(s, b) && Enabled(s, Finish(t)) && LookingOk(s, b.log)
    ensures LookingOk(Next(s, Finish(t)), BookNext(s, b, Finish(t)).log)
  {
    hide ThreadsOk, Effect, Agrees, BookNext, SectionEvent, Program, FoundOnce, Since, Looking, Woken, LocksOk, MailboxOk, TypesOk, WakeupsOk, ModeOk;
    HceNeverExits(s);
    MainIsNoThread(s);
    SectionOf(s, b, t);
    var x, sec := SectionEvent(b, t), s.threads[t].todo[0];
    SinceSnoc(b.log, x, Finds, ComesAnew);
    FoundOnceSnoc(b.log, x);
    WokenLooks(sec, s.sh, s.pc);
    if ArrivalKind(x).None? && Effect(sec, s.sh).dev == DevPresent { OnlyArrivalsPresent(x, sec, s.sh); }
  }

  ghost predicate DutyInv(s: State, b: Book) {
    BookInv(s, b) && WorkOk(s.mode, s.pc, b.log) && LookingOk(s, b.log)
  }

  lemma FinishWorkOk(s: State, b: Book, t: Tid)
    requires BookInv(s, b) && Enabled(s, Finish(t)) && WorkOk(s.mode, s.pc, b.log)
    ensures WorkOk(s.mode, Next(s, Finish(t)).pc, BookNext(s, b, Finish(t)).log)
  {
    hide ThreadsOk, Effect, Agrees, BookNext, SectionEvent, Program, Woken, WorkOk, LocksOk, MailboxOk, TypesOk, WakeupsOk, ModeOk;
    MainIsNoThread(s);
    SectionOf(s, b, t);
    var x, sec := SectionEvent(b, t), s.threads[t].todo[0];
    WokenLooks(sec, s.sh, s.pc);
    CallbacksDoNoWork(s.mode, Woken(sec, s.sh, s.pc), b.log, x);
  }

  lemma CallbacksDoNoWork(mode: Mode, pc: Pc, h: seq<Happening>, x: Happening)
    requires (x.Ran? || x.ExitRan?) && WorkOk(mode, pc, h)
    ensures WorkOk(mode, pc, h + [x])
  {
    hide BeforePush, PushWait, ClientWork, Working, Times;
    WorkStep(mode, pc, h, Some(x), pc);
  }

  lemma SpuriousWorkOk(s: State, h: seq<Happening>)
    requires Asleep(s.pc).Some? && WorkOk(s.mode, s.pc, h) && LookingOk(s, h)
    ensures WorkOk(s.mode, WakeUp(s.pc), h) && LookingOk(s.(pc := WakeUp(s.pc)), h)
  {
    hide Times, FoundOnce, Stale;
  }

  lemma DutyStep(s: State, b: Book, a: Action)
    requires DutyInv(s, b) && Enabled(s, a)
    ensures DutyInv(Next(s, a), BookNext(s, b, a))
  {
    hide Inv, ThreadsOk, Agrees, MainEnabled, MainNext, MainEvent, WorkOk, LookingOk;
    BookStep(s, b, a);
    assert Next(s, a).mode == s.mode by { NextMode(s, a); }
    match a
    case MainStep =>
      MainWorks(s);
      WorkStep(s.mode, s.pc, b.log, MainEvent(s, MainNext(s)), MainNext(s).pc);
      MainLookingOk(s, b.log);
    case Finish(t) => FinishWorkOk(s, b, t); FinishLookingOk(s, b, t);
    case Spurious => SpuriousWorkOk(s, b.log);
    case _ => SameLooking(s, Next(s, a), b.log);
  }

  lemma NextMode(s: State, a: Action)
    requires Enabled(s, a)
    ensures Next(s, a).mode == s.mode
  {}

  lemma SameLooking(s: State, t: State, h: seq<Happening>)
    requires s.pc == t.pc && s.sh == t.sh && LookingOk(s, h)
    ensures LookingOk(t, h)
  {}

  lemma {:induction false} DutyRun(s: State, b: Book, acts: seq<Action>)
    requires DutyInv(s, b) && ValidRun(s, acts)
    ensures DutyInv(Run(s, acts), BookRun(s, b, acts)) && Run(s, acts).mode == s.mode
    decreases |acts|
  {
    hide DutyInv, Enabled, Next, BookNext;
    if acts != [] {
      DutyStep(s, b, acts[0]);
      NextMode(s, acts[0]);
      DutyRun(Next(s, acts[0]), BookNext(s, b, acts[0]), acts[1..]);
    }
  }

  lemma InitDuty(mode: Mode)
    ensures DutyInv(Init(mode), BOOK)
  {
    InitBook(mode);
  }

  /** Over every run, in every mode: each tag found is worked on once, each reader found is served
      once, and after each peer found the client is looked after once. Messages are put in push mode
      only, one for each peer found whose client was ready when the push wait was over; the main
      thread waits for the client exactly if that is neither ready nor at EXIT with the device
      present. After its work the main thread looks once whether the device is still present. */
  lemma WorkMatchesFinds(mode: Mode, acts: seq<Action>)
    requires ValidRun(Init(mode), acts)
    ensures var pc, h := Run(Init(mode), acts).pc, History(mode, acts);
            && Times(h, ReadTag) + One(pc == TagWork) == Times(h, Found(TypeTag))
            && Times(h, Serve) + One(pc == HceTop) == Times(h, Found(TypeReader))
            && Times(h, OffLook(true)) + Times(h, OffLook(false)) + One(ClientWork(pc)) == Times(h, Found(TypeP2p))
            && (mode == Push ==>
                  && Times(h, PushLook(true)) + Times(h, PushLook(false)) + One(BeforePush(pc)) == Times(h, Found(TypeP2p))
                  && Times(h, PushOver(true)) + Times(h, PushOver(false)) + One(PushWait(pc)) == Times(h, Found(TypeP2p)))
            && Times(h, Armed) + One(pc == PushArm) == Times(h, PushLook(true))
            && (mode != Push ==>
                  Times(h, PushOver(true)) + Times(h, PushOver(false)) + One(PushWait(pc)) == 0)
            && Times(h, Put) + One(pc == PushSend) == Times(h, PushOver(true))
            && Times(h, Again(true)) + Times(h, Again(false)) + One(Working(pc))
               == Times(h, Found(TypeTag)) + Times(h, Found(TypeP2p)) + Times(h, Found(TypeReader))
            && Times(h, Found(TypeNone)) == 0
  {
    hide Run, BookRun, ValidRun, Init, BookInv, LookingOk, Times, BeforePush, PushWait, ClientWork, Working;
    InitDuty(mode);
    DutyRun(Init(mode), BOOK, acts);
    InitMode(mode);
  }

  lemma InitMode(mode: Mode)
    ensures Init(mode).mode == mode
  {}

  /** Over every run: whatever is found is the device of the latest arrival, still here, and no
      arrival is found twice. */
  lemma EachArrivalFoundOnce(mode: Mode, acts: seq<Action>, i: nat)
    requires ValidRun(Init(mode), acts) && i < |History(mode, acts)| && History(mode, acts)[i].Found?
    ensures var h := History(mode, acts);
            && Here(h[..i], h[i].kind)
            && forall j :: 0 <= j < i && h[j].Found? ==> exists k :: j < k < i && ArrivalKind(h[k]).Some?
  {
    hide Run, BookRun, ValidRun, Init, BookInv, WorkOk, Here;
    InitDuty(mode);
    DutyRun(Init(mode), BOOK, acts);
    var h := History(mode, acts);
    forall j | 0 <= j < i && h[j].Found? ensures exists k :: j < k < i && ArrivalKind(h[k]).Some? {
      var g := h[..i];
      assert Finds(g[j]) && !Stale(g);
      var k :| j < k < |g| && ComesAnew(g[k]);
      assert ArrivalKind(h[k]).Some?;
    }
  }

  // ---------------------------------------------------------------- the kind of work is the kind of device

  predicate FindsTag(x: Happening) { x == Found(TypeTag) }

  predicate FindsPeer(x: Happening) { x == Found(TypeP2p) }

  predicate FindsReader(x: Happening) { x == Found(TypeReader) }

  predicate FindsNoTag(x: Happening) { x.Found? && !FindsTag(x) }

  predicate FindsNoPeer(x: Happening) { x.Found? && !FindsPeer(x) }

  predicate FindsNoReader(x: Happening) { x.Found? && !FindsReader(x) }

  /** Between finding a peer and having seen its client off. */
  predicate PeerWork(pc: Pc) { ClientWork(pc) || pc.OffSleep? || pc.OffDone? }

  /** The device found last is of the kind that is worked on. */
  ghost predicate KindOk(pc: Pc, h: seq<Happening>) {
    && (pc == TagWork ==> Since(h, FindsTag, FindsNoTag))
    && (PeerWork(pc) ==> Since(h, FindsPeer, FindsNoPeer))
    && (ReaderPc(pc) ==> Since(h, FindsReader, FindsNoReader))
  }

  lemma MainKind(s: State)
    requires Inv(s) && MainEnabled(s)
    ensures var e, pc := MainEvent(s, MainNext(s)), MainNext(s).pc;
            && (pc == TagWork ==> e == Some(Found(TypeTag)))
            && (PeerWork(pc) ==> e == Some(Found(TypeP2p)) || (PeerWork(s.pc) && (e.None? || !e.value.Found?)))
            && (ReaderPc(pc) ==> e == Some(Found(TypeReader)) || (ReaderPc(s.pc) && (e.None? || !e.value.Found?)))
  {
    hide Inv, MainEnabled, MainNext, MainEvent, PeerWork, ReaderPc;
    MainKindTag(s);
    MainKindPeer(s);
    MainKindReader(s);
  }

  lemma MainKindTag(s: State)
    requires MainEnabled(s)
    ensures var e, pc := MainEvent(s, MainNext(s)), MainNext(s).pc;
            pc == TagWork ==> e == Some(Found(TypeTag))
  {
    hide MainHolds;
  }

  lemma MainKindPeer(s: State)
    requires MainEnabled(s)
    ensures var e, pc := MainEvent(s, MainNext(s)), MainNext(s).pc;
            PeerWork(pc) ==> e == Some(Found(TypeP2p)) || (PeerWork(s.pc) && (e.None? || !e.value.Found?))
  {
    hide MainHolds;
  }

  lemma MainKindReader(s: State)
    requires MainEnabled(s)
    ensures var e, pc := MainEvent(s, MainNext(s)), MainNext(s).pc;
            ReaderPc(pc) ==> e == Some(Found(TypeReader)) || (ReaderPc(s.pc) && (e.None? || !e.value.Found?))
  {
    hide MainHolds;
  }

  lemma MainKindOk(s: State, h: seq<Happening>)
    requires Inv(s) && MainEnabled(s) && KindOk(s.pc, h)
    ensures KindOk(MainNext(s).pc, Noted(h, MainEvent(s, MainNext(s))))
  {
    hide Inv, MainEnabled, MainNext, MainEvent, Since, PeerWork, ReaderPc;
    MainKind(s);
    var e := MainEvent(s, MainNext(s));
    if e.Some? { KindSnoc(h, e.value); }
  }

  lemma KindSnoc(h: seq<Happening>, x: Happening)
    ensures Since(h + [x], FindsTag, FindsNoTag) <==> FindsTag(x) || (Since(h, FindsTag, FindsNoTag) && !FindsNoTag(x))
    ensures Since(h + [x], FindsPeer, FindsNoPeer) <==> FindsPeer(x) || (Since(h, FindsPeer, FindsNoPeer) && !FindsNoPeer(x))
    ensures Since(h + [x], FindsReader, FindsNoReader) <==>
            FindsReader(x) || (Since(h, FindsReader, FindsNoReader) && !FindsNoReader(x))
  {
    hide Since;
    SinceSnoc(h, x, FindsTag, FindsNoTag);
    SinceSnoc(h, x, FindsPeer, FindsNoPeer);
    SinceSnoc(h, x, FindsReader, FindsNoReader);
  }

  lemma WakingKeepsKind(pc: Pc, h: seq<Happening>)
    requires Asleep(pc).Some? && KindOk(pc, h)
    ensures KindOk(WakeUp(pc), h)
  {
    hide Since;
  }

  lemma FinishKindOk(s: State, b: Book, t: Tid)
    requires BookInv(s, b) && Enabled(s, Finish(t)) && KindOk(s.pc, b.log)
    ensures KindOk(Next(s, Finish(t)).pc, BookNext(s, b, Finish(t)).log)
  {
    hide Inv, ThreadsOk, Agrees, BookNext, SectionEvent, Program, Effect, Notifies, Asleep, LockOf, WakeUp, KindOk;
    MainIsNoThread(s);
    SectionOf(s, b, t);
    var x := SectionEvent(b, t);
    if Asleep(s.pc).Some? { WakingKeepsKind(s.pc, b.log); }
    KindAfterSection(Next(s, Finish(t)).pc, b.log, x);
  }

  lemma KindAfterSection(pc: Pc, h: seq<Happening>, x: Happening)
    requires KindOk(pc, h) && !x.Found?
    ensures KindOk(pc, h + [x])
  {
    hide Since, PeerWork, ReaderPc;
    KindSnoc(h, x);
  }

  lemma KindStep(s: State, b: Book, a: Action)
    requires BookInv(s, b) && Enabled(s, a) && KindOk(s.pc, b.log)
    ensures KindOk(Next(s, a).pc, BookNext(s, b, a).log)
  {
    hide Inv, ThreadsOk, Agrees, MainEnabled, MainNext, MainEvent, KindOk;
    match a
    case MainStep => MainKindOk(s, b.log);
    case Finish(t) => FinishKindOk(s, b, t);
    case Spurious => WakingKeepsKind(s.pc, b.log);
    case _ =>
  }

  lemma {:induction false} KindRun(s: State, b: Book, acts: seq<Action>)
    requires BookInv(s, b) && KindOk(s.pc, b.log) && ValidRun(s, acts)
    ensures KindOk(Run(s, acts).pc, BookRun(s, b, acts).log)
    decreases |acts|
  {
    hide BookInv, KindOk, Enabled, Next, BookNext;
    if acts != [] {
      BookStep(s, b, acts[0]);
      KindStep(s, b, acts[0]);
      KindRun(Next(s, acts[0]), BookNext(s, b, acts[0]), acts[1..]);
    }
  }

  /** Over every run: while the main thread works on a tag, a peer or a reader, the device it found
      last was of that kind. */
  lemma WorkIsOfItsKind(mode: Mode, acts: seq<Action>)
    requires ValidRun(Init(mode), acts)
    ensures var pc, h := Run(Init(mode), acts).pc, History(mode, acts);
            && (pc == TagWork ==> Since(h, FindsTag, FindsNoTag))
            && (PeerWork(pc) ==> Since(h, FindsPeer, FindsNoPeer))
            && (ReaderPc(pc) ==> Since(h, FindsReader, FindsNoReader))
  {
    hide Run, BookRun, ValidRun, BookInv, Since;
    InitBook(mode);
    KindRun(Init(mode), BOOK, acts);
  }

  // ---------------------------------------------------------------- asleep exactly while waiting

  /** Whoever is not asleep has left no wait behind. */
  predicate NoWaitLeft(sh: Shared, pc: Pc) {
    && (sh.dev == DevWaitArrival ==> pc == ArrivalSleep(false))
    && (sh.dev == DevWaitDeparture ==> pc == DepartSleep(false))
    && (sh.snep == SnepWaitReady ==> pc == ReadySleep(false))
    && (sh.snep == SnepWaitOff ==> pc == OffSleep(false))
    && (sh.hce == HceWaitData ==> pc == DataSleep(false))
  }

  lemma MainLeavesNoWait(s: State)
    requires Inv(s) && MainEnabled(s) && NoWaitLeft(s.sh, s.pc)
    ensures NoWaitLeft(MainNext(s).sh, MainNext(s).pc)
  {
    hide MainHolds, LocksOk, MailboxOk, TypesOk, WakeupsOk, ModeOk;
  }

  lemma SectionLeavesNoWait(sec: Section, sh: Shared, pc: Pc)
    requires NoWaitLeft(sh, pc)
    ensures NoWaitLeft(Effect(sec, sh), Woken(sec, sh, pc))
  {
    hide Effect, Notifies, Asleep, WakeUp, Woken, NoWaitLeft;
    SectionFrame(sec, sh);
    match LockOf(sec) {
      case DevLock => DevLeavesNoWait(sec, sh, pc);
      case SnepLock => SnepLeavesNoWait(sec, sh, pc);
      case HceLock => HceLeavesNoWait(sec, sh, pc);
    }
  }

  lemma DevLeavesNoWait(sec: Section, sh: Shared, pc: Pc)
    requires LockOf(sec) == DevLock && NoWaitLeft(sh, pc)
    ensures NoWaitLeft(Effect(sec, sh), Woken(sec, sh, pc))
  {}

  lemma SnepLeavesNoWait(sec: Section, sh: Shared, pc: Pc)
    requires LockOf(sec) == SnepLock && NoWaitLeft(sh, pc)
    ensures NoWaitLeft(Effect(sec, sh), Woken(sec, sh, pc))
  {}

  lemma HceLeavesNoWait(sec: Section, sh: Shared, pc: Pc)
    requires LockOf(sec) == HceLock && NoWaitLeft(sh, pc)
    ensures NoWaitLeft(Effect(sec, sh), Woken(sec, sh, pc))
  {}

  lemma StepLeavesNoWait(s: State, a: Action)
    requires Inv(s) && Enabled(s, a) && a != Spurious && NoWaitLeft(s.sh, s.pc)
    ensures NoWaitLeft(Next(s, a).sh, Next(s, a).pc)
  {
    hide Inv, Effect, Woken, MainNext, MainEnabled, NoWaitLeft, LockOf;
    match a
    case MainStep => MainLeavesNoWait(s);
    case Finish(t) => SectionLeavesNoWait(s.threads[t].todo[0], s.sh, s.pc);
    case _ =>
  }

  lemma {:induction false} RunLeavesNoWait(s: State, acts: seq<Action>)
    requires Inv(s) && ValidRun(s, acts) && Spurious !in acts && NoWaitLeft(s.sh, s.pc)
    ensures Inv(Run(s, acts)) && NoWaitLeft(Run(s, acts).sh, Run(s, acts).pc)
    decreases |acts|
  {
    hide Inv, Enabled, Next, NoWaitLeft;
    if acts != [] {
      StepKeepsInv(s, acts[0]);
      StepLeavesNoWait(s, acts[0]);
      RunLeavesNoWait(Next(s, acts[0]), acts[1..]);
    }
  }

  /** In runs without spurious wakeups a monitor's variable says it waits exactly while the main
      thread sleeps on it un-notified: no wakeup is lost, none is needless, and no wait is skipped. */
  lemma SleepsIffWaiting(mode: Mode, acts: seq<Action>)
    requires ValidRun(Init(mode), acts) && Spurious !in acts
    ensures var s := Run(Init(mode), acts);
            && (s.pc == ArrivalSleep(false) <==> s.sh.dev == DevWaitArrival)
            && (s.pc == DepartSleep(false) <==> s.sh.dev == DevWaitDeparture)
            && (s.pc == ReadySleep(false) <==> s.sh.snep == SnepWaitReady)
            && (s.pc == OffSleep(false) <==> s.sh.snep == SnepWaitOff)
            && (s.pc == DataSleep(false) <==> s.sh.hce == HceWaitData)
  {
    hide Run, ValidRun, Inv;
    InitInv(mode);
    RunLeavesNoWait(Init(mode), acts);
    AwakeOnly(Run(Init(mode), acts));
  }

  lemma AwakeOnly(s: State)
    requires Inv(s)
    ensures WakeupsOk(s.sh, s.pc)
  {}

  // ---------------------------------------------------------------- left alone it comes to rest

  /** Asleep un-notified, or out of the loop. */
  predicate AtRest(s: State) { Asleep(s.pc).Some? || s.pc == Done }

  /** No other thread is inside a critical section. */
  predicate Undisturbed(s: State) { forall l :: l in s.owner ==> s.owner[l] == Main }

  /** The next `n` steps of the main thread, as long as it is not at rest. */
  function Alone(s: State, n: nat): State
    decreases n
  {
    if n == 0 || AtRest(s) || !MainEnabled(s) then s else Alone(MainNext(s), n - 1)
  }

  /** In the loop that serves a reader. */
  predicate Serving(pc: Pc) { ReaderPc(pc) && pc != DataSleep(false) }

  /** The wait for an APDU was left by a spurious wakeup: its flag is still up, so the loop neither
      waits nor finds an APDU, as long as the reader is present. */
  predicate Spins(s: State) {
    && s.sh.dev == DevPresent && s.sh.hce == HceWaitData
    && (Serving(s.pc) || (s.sh.devType == TypeReader && Looking(s.pc) && !AtRest(s)))
  }

  /** Steps to rest with a device present; an APDU in the mailbox is answered first. */
  function PresentSteps(pc: Pc, pending: bool): nat {
    match pc
    case Depart => 1
    case Relock => 2
    case TagWork | OffDone => 3
    case OffSleep(_) => 4
    case OffCheck => 5
    case OffTop => 6
    case PushSend => 7
    case PushDone => 8
    case ReadySleep(_) | PushArm => 9
    case PushBoth => 10
    case PushDev => 11
    case PushTop => 12
    case HceCheck => if pending then 8 else 1
    case HceLoop => if pending then 9 else 2
    case HceTop | HceTest => if pending then 10 else 3
    case HceDev => if pending then 11 else 4
    case HceSend => if pending then 12 else 5
    case HceTake => if pending then 7 else 6
    case DataSleep(_) => if pending then 8 else 7
    case Loaded => 13
    case Check | ArrivalSleep(_) => 14
    case LoopTop => 15
    case LoopEnd => 16
    case DepartSleep(_) => 17
    case Leaving | Abandon => 1
    case Done => 0
  }

  /** Steps to rest without one. */
  function AbsentSteps(pc: Pc): nat {
    match pc
    case Done => 0
    case Leaving | Abandon => 1
    case Check => 2
    case LoopTop => 3
    case LoopEnd => 4
    case Loaded | Depart | DepartSleep(_) => 5
    case Relock | HceTest | ArrivalSleep(_) => 6
    case TagWork | OffDone | HceDev => 7
    case OffSleep(_) | HceSend => 8
    case OffCheck | HceTake => 9
    case OffTop | DataSleep(_) | HceCheck => 10
    case PushSend | HceLoop => 11
    case PushDone | HceTop => 12
    case ReadySleep(_) | PushArm => 13
    case PushBoth => 14
    case PushDev => 15
    case PushTop => 16
  }

  function StepsLeft(s: State): nat {
    if s.sh.dev == DevPresent then PresentSteps(s.pc, s.sh.hce == HceDataReceived) else AbsentSteps(s.pc)
  }

  lemma StepTowardsRest(s: State)
    requires Inv(s) && MainEnabled(s) && !Spins(s)
    ensures AtRest(MainNext(s)) || (StepsLeft(MainNext(s)) < StepsLeft(s) && !Spins(MainNext(s)))
  {
    hide Wants, Local, MainHolds, Spins, StepsLeft, AtRest, MainNext, MainEnabled, LocksOk, MailboxOk, ModeOk, WakeupsOk;
    if Wants(s.pc).Some? {
      LockingTowardsRest(s);
    } else if s.sh.dev == DevPresent {
      HceNeverExits(s);
      PresentTowardsRest(s);
    } else {
      AbsentTowardsRest(s);
    }
  }

  lemma LockingTowardsRest(s: State)
    requires MainEnabled(s) && !Spins(s) && Wants(s.pc).Some?
    ensures StepsLeft(MainNext(s)) < StepsLeft(s) && !Spins(MainNext(s))
  {
    hide MainHolds;
  }

  lemma PresentTowardsRest(s: State)
    requires MainEnabled(s) && !Spins(s) && Wants(s.pc).None? && s.sh.dev == DevPresent && s.pc != Abandon
    requires TypesOk(s.sh) && s.sh.hce != HceExit
    ensures AtRest(MainNext(s)) || (StepsLeft(MainNext(s)) < StepsLeft(s) && !Spins(MainNext(s)))
  {
    hide MainHolds;
  }

  lemma AbsentTowardsRest(s: State)
    requires MainEnabled(s) && Wants(s.pc).None? && s.sh.dev != DevPresent && s.pc != Abandon
    ensures AtRest(MainNext(s)) || (StepsLeft(MainNext(s)) < StepsLeft(s) && !Spins(MainNext(s)))
  {
    hide MainHolds;
  }

  lemma SpinsOn(s: State)
    requires Inv(s) && MainEnabled(s) && Spins(s)
    ensures Spins(MainNext(s)) && !AtRest(MainNext(s))
  {
    hide MainHolds, LocksOk, MailboxOk, ModeOk;
  }

  lemma StaysUndisturbed(s: State)
    requires Undisturbed(s) && MainEnabled(s)
    ensures Undisturbed(MainNext(s))
  {
    hide Local, Wants, MainHolds;
  }

  lemma CanMove(s: State)
    requires Inv(s) && Undisturbed(s) && !AtRest(s)
    ensures MainEnabled(s)
  {
    if Wants(s.pc).Some? { WantsNothingHeld(s.pc); }
  }

  lemma WantsNothingHeld(pc: Pc)
    requires Wants(pc).Some?
    ensures Wants(pc).value.0 !in MainHolds(pc)
  {}

  lemma {:induction false} AloneSpins(s: State, n: nat)
    requires Inv(s) && Undisturbed(s) && Spins(s) && !AtRest(s)
    ensures !AtRest(Alone(s, n))
    decreases n
  {
    hide Inv, Undisturbed, Spins, AtRest, MainNext, MainEnabled;
    if n > 0 {
      CanMove(s);
      SpinsOn(s);
      MainKeepsInv(s);
      StaysUndisturbed(s);
      AloneSpins(MainNext(s), n - 1);
    }
  }

  lemma {:induction false} AloneRests(s: State, n: nat)
    requires Inv(s) && Undisturbed(s) && !Spins(s) && StepsLeft(s) <= n
    ensures AtRest(Alone(s, n))
    decreases n
  {
    hide Inv, Undisturbed, Spins, AtRest, MainNext, MainEnabled, StepsLeft;
    if !AtRest(s) {
      CanMove(s);
      StepTowardsRest(s);
      MainKeepsInv(s);
      StaysUndisturbed(s);
      if AtRest(MainNext(s)) {
        RestsAlready(MainNext(s), if n > 0 then n - 1 else 0);
      } else {
        AloneRests(MainNext(s), n - 1);
      }
      StepsPositive(s);
    }
  }

  lemma StepsPositive(s: State)
    ensures !AtRest(s) ==> StepsLeft(s) > 0
  {}

  lemma RestsAlready(s: State, n: nat)
    requires AtRest(s)
    ensures Alone(s, n) == s
  {}

  lemma StepsBounded(s: State)
    ensures StepsLeft(s) <= 17
  {}

  lemma SpinsNotAtRest(s: State)
    ensures Spins(s) ==> !AtRest(s)
  {}

  /** In every reachable state where no other thread is inside a section: left alone, the main thread
      falls asleep or leaves within 17 steps, unless its wait for an APDU was ended by a spurious
      wakeup while the reader stays; then, and only then, it spins until somebody else does something. */
  lemma RestsIffNotSpinning(mode: Mode, s: State)
    requires Reachable(mode, s) && Undisturbed(s)
    ensures AtRest(Alone(s, 17)) <==> !Spins(s)
    ensures (exists n: nat :: AtRest(Alone(s, n))) <==> !Spins(s)
  {
    hide Reachable, Inv, Undisturbed, Spins, AtRest, Alone, StepsLeft;
    ReachableInv(mode, s);
    if Spins(s) {
      SpinsNotAtRest(s);
      forall n: nat ensures !AtRest(Alone(s, n)) { AloneSpins(s, n); }
    } else {
      StepsBounded(s);
      AloneRests(s, 17);
    }
  }

  /** Without spurious wakeups it never spins. */
  lemma NeverSpins(mode: Mode, acts: seq<Action>)
    requires ValidRun(Init(mode), acts) && Spurious !in acts
    ensures !Spins(Run(Init(mode), acts))
  {
    hide Run, ValidRun;
    SleepsIffWaiting(mode, acts);
  }

  /** Spinning is reached: one spurious wakeup while a reader is served. */
  lemma SpinningHappens() returns (s: State)
    ensures Reachable(Share, s) && Undisturbed(s) && Spins(s)
  {
    hide Reachable;
    var s1 := ReaderWaitsForData();
    ReachableInv(Share, s1);
    s := StepReachable(Share, s1, Spurious);
  }
}
