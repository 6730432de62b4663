/** The history of a run: which callback sections ran and what the main thread did in between. Every
    monitor variable is a function of that history, and the main thread's work matches the arrivals. */
module DemoHistory {
  import opened Basics
  import opened DemoState
  import opened DemoProtocol

  datatype Happening =
    | Ran(cb: Callback, i: nat)  // a critical section of a callback, counted from 0
    | ExitRan(i: nat)            // a critical section of the exit thread
    | ArrivalAwaited             // from here on the main thread: it begins to wait for an arrival
    | Found(kind: DevType)       // it finds a device present
    | ReadTag                    // it works on a tag
    | PushLook(wait: bool)       // in push mode it looks whether to wait for the SNEP client
    | Armed                      // it begins to wait for the SNEP client
    | PushOver(ready: bool)      // its wait for the SNEP client is over
    | Put                        // it puts a message
    | OffLook(ready: bool)       // it looks whether the SNEP client is ready, and then waits until it is off
    | Serve                      // it begins to serve a reader
    | DataAwaited                // it begins to wait for an APDU
    | Given(apdu: Apdu)          // it hands an APDU on
    | Again(present: bool)       // it looks whether the device is still present, and then waits for its departure

  /** Which callback each thread runs and how many of its sections have run, and the history. */
  datatype Book = Book(running: map<nat, (Callback, nat)>, exited: nat, log: seq<Happening>)

  const BOOK := Book(map[], 0, [])

  /** What a step of the main thread from `s` to `t` is, seen from outside. */
  function MainEvent(s: State, t: State): Option<Happening> {
    if |t.sh.given| > |s.sh.given| then Some(Given(t.sh.given[|s.sh.given|]))
    else match s.pc
      case Check => if s.sh.dev != DevPresent && s.sh.dev != DevExit then Some(ArrivalAwaited) else None
      case Loaded => if s.sh.dev == DevPresent then Some(Found(s.sh.devType)) else None
      case TagWork => Some(ReadTag)
      case PushBoth => Some(PushLook(s.sh.snep != SnepReady && s.sh.snep != SnepExit && s.sh.dev == DevPresent))
      case PushArm => Some(Armed)
      case PushDone => Some(PushOver(s.sh.snep == SnepReady))
      case PushSend => Some(Put)
      case OffCheck => Some(OffLook(s.sh.snep == SnepReady))
      case HceTop => Some(Serve)
      case HceCheck => if s.sh.hce == HceNone then Some(DataAwaited) else None
      case Depart => Some(Again(s.sh.dev == DevPresent))
      case _ => None
  }

  function Noted(log: seq<Happening>, e: Option<Happening>): seq<Happening> {
    if e.Some? then log + [e.value] else log
  }

  /** Callback sections are recorded from the actions alone: the latest call of the thread, and how
      often it has finished a section since. */
  function BookNext(s: State, b: Book, a: Action): Book
    requires Enabled(s, a)
  {
    match a
    case MainStep => b.(log := Noted(b.log, MainEvent(s, Next(s, a))))
    case Spawn(id, cb) => b.(running := b.running[id := (cb, 0)])
    case Finish(Cb(id)) =>
      if id in b.running then
        var (cb, i) := b.running[id];
        b.(running := b.running[id := (cb, i + 1)], log := b.log + [Ran(cb, i)])
      else b
    case Finish(Exit) => b.(exited := b.exited + 1, log := b.log + [ExitRan(b.exited)])
    case _ => b
  }

  function BookRun(s: State, b: Book, acts: seq<Action>): Book
    requires ValidRun(s, acts)
    decreases |acts|
  {
    if acts == [] then b else BookRun(Next(s, acts[0]), BookNext(s, b, acts[0]), acts[1..])
  }

  /** The history of a run of the program from its start. */
  function History(mode: Mode, acts: seq<Action>): seq<Happening>
    requires ValidRun(Init(mode), acts)
  {
    BookRun(Init(mode), BOOK, acts).log
  }

  // ---------------------------------------------------------------- devices, from the history

  /** The device that an arrival section brings. */
  function ArrivalKind(x: Happening): Option<DevType> {
    match x
    case Ran(TagArrival, 0) => Some(TypeTag)
    case Ran(DeviceArrival, 0) => Some(TypeP2p)
    case Ran(SnepClientReady, 0) => Some(TypeP2p)
    case Ran(HceActivated, 0) => Some(TypeReader)
    case _ => None
  }

  predicate Departs(x: Happening) {
    x == Ran(TagDeparture, 0) || x == Ran(DeviceDeparture, 0) || x == Ran(SnepClientClosed, 0) || x == Ran(HceDeactivated, 0)
  }

  /** Something of the first kind has happened, and since then nothing of the second kind. */
  ghost predicate Since(h: seq<Happening>, begins: Happening -> bool, ends: Happening -> bool) {
    exists i :: 0 <= i < |h| && begins(h[i]) && forall j :: i < j < |h| ==> !ends(h[j])
  }

  /** A tag or a reader. */
  predicate UndoesExit(x: Happening) { x == Ran(TagArrival, 0) || x == Ran(HceActivated, 0) }

  predicate ExitsDevice(x: Happening) { x == ExitRan(1) }

  /** The exit thread has run its device section, and no tag or reader has arrived since. */
  ghost predicate ExitInForce(h: seq<Happening>) { Since(h, ExitsDevice, UndoesExit) }

  /** Leaves whatever device is here where it is. */
  predicate Stays(x: Happening) { ArrivalKind(x).None? && !Departs(x) && x != ExitRan(1) && x != ArrivalAwaited }

  /** The latest arrival, at `i`, brought a device of this kind, and neither a departure nor EXIT nor
      a wait for the next arrival has ended its stay. */
  ghost predicate HereSince(h: seq<Happening>, kind: DevType, i: nat) {
    && i < |h| && ArrivalKind(h[i]) == Some(kind) && !ExitInForce(h[..i])
    && forall j :: i < j < |h| ==> Stays(h[j])
  }

  ghost predicate Awaited(h: seq<Happening>, i: nat) {
    exists j :: i < j < |h| && h[j] == Again(true)
  }

  /** A device of this kind is here, and the main thread has not begun to wait for its departure. */
  ghost predicate Here(h: seq<Happening>, kind: DevType) {
    exists i: nat :: HereSince(h, kind, i) && !Awaited(h, i)
  }

  /** A device of this kind is here, and the main thread has begun to wait for its departure. */
  ghost predicate HereAwaited(h: seq<Happening>, kind: DevType) {
    exists i: nat :: HereSince(h, kind, i) && Awaited(h, i)
  }

  predicate AwaitsArrival(x: Happening) { x == ArrivalAwaited }

  predicate Arrives(x: Happening) { ArrivalKind(x).Some? || x == ExitRan(1) }

  /** The main thread has begun to wait for an arrival, and none has come, nor EXIT. */
  ghost predicate NoneHereAwaited(h: seq<Happening>) { Since(h, AwaitsArrival, Arrives) }

  /** A tag's or reader's departure. */
  predicate TagOrReaderLeaves(x: Happening) { x == Ran(TagDeparture, 0) || x == Ran(HceDeactivated, 0) }

  /** Nothing has concerned the device yet. */
  ghost predicate Untouched(h: seq<Happening>) {
    forall i :: 0 <= i < |h| ==> !Arrives(h[i]) && !TagOrReaderLeaves(h[i]) && h[i] != ArrivalAwaited
  }

  // ---------------------------------------------------------------- clients and readers, from the history

  predicate ClientComes(x: Happening) { x == Ran(SnepClientReady, 1) }

  predicate ClientGoes(x: Happening) { x == Ran(DeviceDeparture, 1) || x == Ran(SnepClientClosed, 1) }

  predicate AwaitsReady(x: Happening) { x == Armed }

  predicate AwaitsOff(x: Happening) { x == OffLook(true) }

  predicate ReplacesReady(x: Happening) { ClientGoes(x) || AwaitsReady(x) || AwaitsOff(x) }

  predicate ReplacesWait(x: Happening) { ClientComes(x) || ReplacesReady(x) }

  /** The latest client section was a ready one, and neither EXIT nor the main thread has replaced it. */
  ghost predicate ClientReady(h: seq<Happening>) { ExitRan(0) !in h && Since(h, ClientComes, ReplacesReady) }

  /** The main thread waits for the client to be ready, and no client section has run since. */
  ghost predicate ReadyAwaited(h: seq<Happening>) { ExitRan(0) !in h && Since(h, AwaitsReady, ReplacesWait) }

  /** The main thread waits for the client to be off, and no client section has run since. */
  ghost predicate OffAwaited(h: seq<Happening>) { ExitRan(0) !in h && Since(h, AwaitsOff, ReplacesWait) }

  predicate IsData(x: Happening) { x.Ran? && x.cb.DataReceived? && x.i == 0 }

  predicate AwaitsData(x: Happening) { x == DataAwaited }

  predicate ReplacesData(x: Happening) { x.Given? || x == DataAwaited || x == Ran(HceDeactivated, 1) }

  predicate ReplacesDataWait(x: Happening) { IsData(x) || ReplacesData(x) }

  /** An APDU has come, and neither the main thread has taken it nor the reader's departure voided it. */
  ghost predicate DataPending(h: seq<Happening>) { Since(h, IsData, ReplacesData) }

  /** The main thread waits for an APDU. */
  ghost predicate DataWaiting(h: seq<Happening>) { Since(h, AwaitsData, ReplacesDataWait) }

  function ApdusOf(h: seq<Happening>): seq<Apdu> {
    if h == [] then []
    else ApdusOf(h[..|h| - 1]) + if IsData(h[|h| - 1]) then [h[|h| - 1].cb.apdu] else []
  }

  function GivenOf(h: seq<Happening>): seq<Apdu> {
    if h == [] then []
    else GivenOf(h[..|h| - 1]) + if h[|h| - 1].Given? then [h[|h| - 1].apdu] else []
  }

  // ---------------------------------------------------------------- threads follow their callbacks

  ghost predicate ThreadOk(s: State, b: Book, id: nat) {
    && id in b.running && Cb(id) in s.threads
    && var (cb, i) := b.running[id];
       i <= |Program(cb)| && s.threads[Cb(id)].todo == Program(cb)[i..] && Registered(s.mode, cb)
  }

  ghost predicate ExitOk(s: State, b: Book) {
    Exit in s.threads && b.exited <= |EXIT_PROGRAM| && s.threads[Exit].todo == EXIT_PROGRAM[b.exited..]
  }

  /** The threads are where the actions have brought their callbacks. */
  ghost predicate ThreadsOk(s: State, b: Book) {
    ExitOk(s, b) && forall id :: id in b.running || Cb(id) in s.threads ==> ThreadOk(s, b, id)
  }

  /** In share mode the card emulation callbacks can come at any time, in the others those of tags,
      peers and clients, and in no mode any other. */
  lemma CallbacksOfModes(s: State, id: nat, cb: Callback)
    requires Cb(id) !in s.threads
    ensures Enabled(s, Spawn(id, cb)) <==>
            match cb
            case DataReceived(_) => s.mode == Share
            case HceActivated => s.mode == Share
            case HceDeactivated => s.mode == Share
            case TagArrival => s.mode != Share
            case TagDeparture => s.mode != Share
            case DeviceArrival => s.mode != Share
            case DeviceDeparture => s.mode != Share
            case SnepClientReady => s.mode != Share
            case SnepClientClosed => s.mode != Share
  {}

  lemma ThreadsSpawn(s: State, b: Book, called: nat, cb: Callback)
    requires ThreadsOk(s, b) && Enabled(s, Spawn(called, cb))
    ensures ThreadsOk(Next(s, Spawn(called, cb)), BookNext(s, b, Spawn(called, cb)))
  {
    hide Program;
    var t, c := Next(s, Spawn(called, cb)), BookNext(s, b, Spawn(called, cb));
    forall id | id in c.running || Cb(id) in t.threads ensures ThreadOk(t, c, id) {
      if id == called { assert Program(cb)[0..] == Program(cb); } else { assert ThreadOk(s, b, id); }
    }
  }

  lemma ThreadsFinish(s: State, b: Book, u: Tid)
    requires Main !in s.threads && ThreadsOk(s, b) && Enabled(s, Finish(u))
    ensures ThreadsOk(Next(s, Finish(u)), BookNext(s, b, Finish(u)))
  {
    hide Program, Effect, Woken, LockOf, Registered;
    var t, c := Next(s, Finish(u)), BookNext(s, b, Finish(u));
    if u.Cb? {
      assert ThreadOk(s, b, u.id);
      var p, i := Program(b.running[u.id].0), b.running[u.id].1;
      assert p[i..][1..] == p[i + 1..];
    } else {
      assert EXIT_PROGRAM[b.exited..][1..] == EXIT_PROGRAM[b.exited + 1..];
    }
    forall id | id in c.running || Cb(id) in t.threads ensures ThreadOk(t, c, id) {
      assert ThreadOk(s, b, id);
    }
  }

  lemma ThreadsStep(s: State, b: Book, a: Action)
    requires Main !in s.threads && ThreadsOk(s, b) && Enabled(s, a)
    ensures ThreadsOk(Next(s, a), BookNext(s, b, a))
  {
    hide Program, MainEvent, MainEnabled, LockOf, Wants, Local, MainHolds, Registered, ThreadsOk;
    match a
    case Spawn(id, cb) => ThreadsSpawn(s, b, id, cb);
    case Finish(t) => ThreadsFinish(s, b, t);
    case _ => ThreadsSame(s, b, Next(s, a), BookNext(s, b, a));
  }

  lemma ThreadsSame(s: State, b: Book, t: State, c: Book)
    requires ThreadsOk(s, b) && s.mode == t.mode && b.running == c.running && b.exited == c.exited
    requires s.threads.Keys == t.threads.Keys && forall u :: u in s.threads ==> s.threads[u].todo == t.threads[u].todo
    ensures ThreadsOk(t, c)
  {
    forall id | id in c.running || Cb(id) in t.threads ensures ThreadOk(t, c, id) { assert ThreadOk(s, b, id); }
  }

  /** What a history adds when a thread finishes a section. */
  function SectionEvent(b: Book, t: Tid): Happening
    requires t == Exit || (t.Cb? && t.id in b.running)
  {
    if t == Exit then ExitRan(b.exited) else Ran(b.running[t.id].0, b.running[t.id].1)
  }

  /** The section of a callback at a position, in terms of the source's code. */
  lemma SectionOf(s: State, b: Book, t: Tid)
    requires Main !in s.threads && ThreadsOk(s, b) && Enabled(s, Finish(t))
    ensures t == Exit || (t.Cb? && t.id in b.running)
    ensures BookNext(s, b, Finish(t)).log == b.log + [SectionEvent(b, t)]
    ensures match SectionEvent(b, t)
            case ExitRan(i) => i < |EXIT_PROGRAM| && s.threads[t].todo[0] == EXIT_PROGRAM[i]
            case Ran(cb, i) => i < |Program(cb)| && s.threads[t].todo[0] == Program(cb)[i]
            case _ => false
  {
    hide Program;
  }

  // ---------------------------------------------------------------- one more happening

  lemma SinceSnoc(h: seq<Happening>, x: Happening, begins: Happening -> bool, ends: Happening -> bool)
    ensures Since(h + [x], begins, ends) <==> begins(x) || (Since(h, begins, ends) && !ends(x))
  {
    var g := h + [x];
    assert g[|h|] == x;
    if Since(g, begins, ends) && !begins(x) {
      var i :| 0 <= i < |g| && begins(g[i]) && forall j :: i < j < |g| ==> !ends(g[j]);
      assert begins(h[i]) && forall j :: i < j < |h| ==> h[j] == g[j];
    }
    if Since(h, begins, ends) && !ends(x) {
      var i :| 0 <= i < |h| && begins(h[i]) && forall j :: i < j < |h| ==> !ends(h[j]);
      assert begins(g[i]);
    }
  }

  lemma HereSinceSnoc(h: seq<Happening>, x: Happening, kind: DevType, i: nat)
    requires i <= |h|
    ensures HereSince(h + [x], kind, i) <==>
            if i < |h| then HereSince(h, kind, i) && Stays(x) else ArrivalKind(x) == Some(kind) && !ExitInForce(h)
  {
    hide ExitInForce, Stays, ArrivalKind;
    var g := h + [x];
    assert g[..i] == h[..i] && g[|h|] == x;
    assert forall j :: 0 <= j < |h| ==> g[j] == h[j];
    assert h[..|h|] == h;
    if i < |h| && HereSince(g, kind, i) { assert Stays(g[|h|]); }
  }

  lemma AwaitedSnoc(h: seq<Happening>, x: Happening, i: nat)
    requires i < |h|
    ensures Awaited(h + [x], i) <==> Awaited(h, i) || x == Again(true)
  {
    var g := h + [x];
    assert g[|h|] == x;
    if Awaited(h, i) {
      var j :| i < j < |h| && h[j] == Again(true);
      assert g[j] == Again(true);
    }
  }

  lemma HereSnoc(h: seq<Happening>, x: Happening, kind: DevType)
    ensures Here(h + [x], kind) <==>
            (ArrivalKind(x) == Some(kind) && !ExitInForce(h)) || (Here(h, kind) && Stays(x) && x != Again(true))
  {
    hide ExitInForce, HereSince, Awaited, Stays, ArrivalKind;
    var g := h + [x];
    ArrivalsMove(x);
    if Here(g, kind) {
      var i: nat :| HereSince(g, kind, i) && !Awaited(g, i);
      Bounded(g, kind, i);
      HereSinceSnoc(h, x, kind, i);
      if i < |h| { AwaitedSnoc(h, x, i); }
    }
    if ArrivalKind(x) == Some(kind) && !ExitInForce(h) {
      HereSinceSnoc(h, x, kind, |h|);
      NotAwaitedYet(g);
    }
    if Here(h, kind) && Stays(x) && x != Again(true) {
      var i: nat :| HereSince(h, kind, i) && !Awaited(h, i);
      Bounded(h, kind, i);
      HereSinceSnoc(h, x, kind, i);
      AwaitedSnoc(h, x, i);
    }
  }

  lemma HereAwaitedSnoc(h: seq<Happening>, x: Happening, kind: DevType)
    ensures HereAwaited(h + [x], kind) <==>
            Stays(x) && (HereAwaited(h, kind) || (Here(h, kind) && x == Again(true)))
  {
    hide ExitInForce, HereSince, Awaited, Stays, ArrivalKind;
    var g := h + [x];
    if HereAwaited(g, kind) {
      var i: nat :| HereSince(g, kind, i) && Awaited(g, i);
      Bounded(g, kind, i);
      if i == |h| { NotAwaitedYet(g); }
      HereSinceSnoc(h, x, kind, i);
      AwaitedSnoc(h, x, i);
    }
    if Stays(x) && (HereAwaited(h, kind) || (Here(h, kind) && x == Again(true))) {
      var i: nat :| HereSince(h, kind, i) && (Awaited(h, i) || x == Again(true));
      Bounded(h, kind, i);
      HereSinceSnoc(h, x, kind, i);
      AwaitedSnoc(h, x, i);
    }
  }

  lemma ArrivalsMove(x: Happening)
    ensures ArrivalKind(x).Some? ==> !Stays(x)
  {}

  lemma NotAwaitedYet(g: seq<Happening>)
    requires g != []
    ensures !Awaited(g, |g| - 1)
  {}

  lemma Bounded(h: seq<Happening>, kind: DevType, i: nat)
    ensures HereSince(h, kind, i) ==> i < |h|
  {}

  lemma ApdusSnoc(h: seq<Happening>, x: Happening)
    ensures ApdusOf(h + [x]) == ApdusOf(h) + if IsData(x) then [x.cb.apdu] else []
    ensures GivenOf(h + [x]) == GivenOf(h) + if x.Given? then [x.apdu] else []
  {
    assert (h + [x])[..|h|] == h;
  }

  // ---------------------------------------------------------------- every monitor variable is its history

  ghost predicate DevAgrees(sh: Shared, h: seq<Happening>) {
    && (sh.dev == DevExit <==> ExitInForce(h))
    && (forall k :: sh.dev == DevPresent && sh.devType == k <==> Here(h, k))
    && (forall k :: sh.dev == DevWaitDeparture && sh.devType == k <==> HereAwaited(h, k))
    && (sh.dev == DevWaitArrival <==> NoneHereAwaited(h))
    && (sh.dev == DevNone <==> Untouched(h))
  }

  ghost predicate SnepAgrees(sh: Shared, h: seq<Happening>) {
    && (sh.snep == SnepExit <==> ExitRan(0) in h)
    && (sh.snep == SnepReady <==> ClientReady(h))
    && (sh.snep == SnepWaitReady <==> ReadyAwaited(h))
    && (sh.snep == SnepWaitOff <==> OffAwaited(h))
  }

  ghost predicate HceAgrees(sh: Shared, h: seq<Happening>) {
    && sh.hce != HceExit
    && (sh.hce == HceDataReceived <==> DataPending(h))
    && (sh.hce == HceWaitData <==> DataWaiting(h))
    && sh.received == ApdusOf(h) && sh.given == GivenOf(h)
  }

  ghost predicate Agrees(sh: Shared, h: seq<Happening>) { DevAgrees(sh, h) && SnepAgrees(sh, h) && HceAgrees(sh, h) }

  /** The section is the one that the happening names. */
  predicate Names(x: Happening, sec: Section) {
    match x
    case ExitRan(i) => i < |EXIT_PROGRAM| && sec == EXIT_PROGRAM[i]
    case Ran(cb, i) => i < |Program(cb)| && sec == Program(cb)[i]
    case _ => false
  }

  /** What a happening may do to the device variables. */
  predicate DevMoves(sh: Shared, x: Happening, sh': Shared) {
    if ArrivalKind(x).Some? && sh.dev != DevExit then sh'.dev == DevPresent && Some(sh'.devType) == ArrivalKind(x)
    else if UndoesExit(x) || (Departs(x) && (sh.dev == DevPresent || sh.dev == DevWaitDeparture)) then
      sh'.dev == DevDeparted
    else if x == ExitRan(1) then sh'.dev == DevExit
    else if x == ArrivalAwaited then sh'.dev == DevWaitArrival && sh.dev != DevExit && sh.dev != DevPresent
    else if x == Again(true) then
      sh'.dev == DevWaitDeparture && sh'.devType == sh.devType && sh.dev == DevPresent
    else if TagOrReaderLeaves(x) && sh.dev == DevNone then sh'.dev == DevDeparted
    else if Departs(x) then sh'.dev == sh.dev
    else sh'.dev == sh.dev && (sh.dev == DevPresent || sh.dev == DevWaitDeparture ==> sh'.devType == sh.devType)
  }

  lemma DevStep(sh: Shared, h: seq<Happening>, x: Happening, sh': Shared)
    requires DevAgrees(sh, h) && DevMoves(sh, x, sh')
    ensures DevAgrees(sh', h + [x])
  {
    hide Here, HereAwaited, ExitInForce, NoneHereAwaited, Untouched;
    ExitSnoc(h, x);
    UntouchedSnoc(h, x);
    forall k ensures sh'.dev == DevPresent && sh'.devType == k <==> Here(h + [x], k) { HereSnoc(h, x, k); }
    forall k ensures sh'.dev == DevWaitDeparture && sh'.devType == k <==> HereAwaited(h + [x], k) {
      HereAwaitedSnoc(h, x, k);
    }
  }

  lemma UntouchedSnoc(h: seq<Happening>, x: Happening)
    ensures Untouched(h + [x]) <==> Untouched(h) && !Arrives(x) && !TagOrReaderLeaves(x) && x != ArrivalAwaited
  {
    hide Arrives, TagOrReaderLeaves;
    var g := h + [x];
    assert g[|h|] == x && forall i :: 0 <= i < |h| ==> g[i] == h[i];
  }

  lemma ExitSnoc(h: seq<Happening>, x: Happening)
    ensures ExitInForce(h + [x]) <==> x == ExitRan(1) || (ExitInForce(h) && !UndoesExit(x))
    ensures NoneHereAwaited(h + [x]) <==>
            x == ArrivalAwaited || (NoneHereAwaited(h) && ArrivalKind(x).None? && x != ExitRan(1))
  {
    hide Since;
    SinceSnoc(h, x, ExitsDevice, UndoesExit);
    SinceSnoc(h, x, AwaitsArrival, Arrives);
  }

  predicate SnepMoves(sh: Shared, x: Happening, sh': Shared) {
    if x == ExitRan(0) then sh'.snep == SnepExit
    else if sh.snep == SnepExit then sh'.snep == SnepExit && !AwaitsReady(x) && !AwaitsOff(x)
    else if ClientComes(x) then sh'.snep == SnepReady
    else if ClientGoes(x) then sh'.snep == SnepOff
    else if AwaitsReady(x) then sh'.snep == SnepWaitReady
    else if AwaitsOff(x) then sh'.snep == SnepWaitOff
    else sh'.snep == sh.snep
  }

  lemma SnepStep(sh: Shared, h: seq<Happening>, x: Happening, sh': Shared)
    requires SnepAgrees(sh, h) && SnepMoves(sh, x, sh')
    ensures SnepAgrees(sh', h + [x])
  {
    hide Since;
    SinceSnoc(h, x, ClientComes, ReplacesReady);
    SinceSnoc(h, x, AwaitsReady, ReplacesWait);
    SinceSnoc(h, x, AwaitsOff, ReplacesWait);
  }

  predicate HceMoves(sh: Shared, x: Happening, sh': Shared) {
    && sh'.hce == (if IsData(x) then HceDataReceived
                   else if x == DataAwaited then HceWaitData
                   else if x.Given? || x == Ran(HceDeactivated, 1) then HceNone
                   else sh.hce)
    && sh'.received == sh.received + (if IsData(x) then [x.cb.apdu] else [])
    && sh'.given == sh.given + if x.Given? then [x.apdu] else []
  }

  lemma HceStep(sh: Shared, h: seq<Happening>, x: Happening, sh': Shared)
    requires HceAgrees(sh, h) && HceMoves(sh, x, sh')
    ensures HceAgrees(sh', h + [x])
  {
    hide Since;
    SinceSnoc(h, x, IsData, ReplacesData);
    SinceSnoc(h, x, AwaitsData, ReplacesDataWait);
    ApdusSnoc(h, x);
  }

  // ---------------------------------------------------------------- the steps

  /** Each callback section and each section of the exit thread moves the variables as its name says. */
  lemma SectionMoves(x: Happening, sec: Section, sh: Shared)
    requires Names(x, sec) && sh.hce != HceExit
    ensures DevMoves(sh, x, Effect(sec, sh)) && SnepMoves(sh, x, Effect(sec, sh)) && HceMoves(sh, x, Effect(sec, sh))
  {
    hide Effect, Program, DevMoves, SnepMoves, HceMoves;
    SectionMovesDev(x, sec, sh);
    SectionMovesSnep(x, sec, sh);
    SectionMovesHce(x, sec, sh);
  }

  lemma SectionMovesDev(x: Happening, sec: Section, sh: Shared)
    requires Names(x, sec)
    ensures DevMoves(sh, x, Effect(sec, sh))
  {}

  lemma SectionMovesSnep(x: Happening, sec: Section, sh: Shared)
    requires Names(x, sec)
    ensures SnepMoves(sh, x, Effect(sec, sh))
  {}

  lemma SectionMovesHce(x: Happening, sec: Section, sh: Shared)
    requires Names(x, sec) && sh.hce != HceExit
    ensures HceMoves(sh, x, Effect(sec, sh))
  {}

  /** What the main thread writes, and when. */
  lemma MainWrites(s: State)
    requires Inv(s) && MainEnabled(s)
    ensures var e, t := MainEvent(s, MainNext(s)), MainNext(s).sh;
            match e
            case Some(ArrivalAwaited) => s.sh.dev != DevPresent && s.sh.dev != DevExit && t == s.sh.(dev := DevWaitArrival)
            case Some(Again(true)) => s.sh.dev == DevPresent && t == s.sh.(dev := DevWaitDeparture)
            case Some(Armed) => s.sh.snep != SnepReady && s.sh.snep != SnepExit && t == s.sh.(snep := SnepWaitReady)
            case Some(OffLook(true)) => s.sh.snep == SnepReady && t == s.sh.(snep := SnepWaitOff)
            case Some(DataAwaited) => s.sh.hce == HceNone && t == s.sh.(hce := HceWaitData)
            case Some(Given(apdu)) =>
              && s.sh.hce == HceDataReceived && s.sh.data == Some(apdu)
              && t == s.sh.(hce := HceNone, data := None, given := s.sh.given + [apdu], givenAt := t.givenAt)
            case _ => t == s.sh
  {
    hide MainHolds, LocksOk, WakeupsOk, TypesOk, ModeOk;
  }

  lemma MainMoves(s: State, h: seq<Happening>)
    requires Inv(s) && MainEnabled(s) && Agrees(s.sh, h)
    ensures Agrees(MainNext(s).sh, Noted(h, MainEvent(s, MainNext(s))))
  {
    hide Inv, MainEnabled, MainNext, MainEvent, DevAgrees, SnepAgrees, HceAgrees;
    var e, t := MainEvent(s, MainNext(s)), MainNext(s);
    MainWrites(s);
    if e.Some? {
      MainEventKind(s, t);
      assert s.sh.hce != HceExit by { HceNeverExits(s); }
      assert DevMoves(s.sh, e.value, t.sh) && SnepMoves(s.sh, e.value, t.sh) && HceMoves(s.sh, e.value, t.sh);
      DevStep(s.sh, h, e.value, t.sh);
      SnepStep(s.sh, h, e.value, t.sh);
      HceStep(s.sh, h, e.value, t.sh);
    }
  }

  lemma HceNeverExits(s: State)
    requires Inv(s)
    ensures s.sh.hce != HceExit
  {}

  lemma MainEventKind(s: State, t: State)
    ensures MainEvent(s, t).Some? ==> !MainEvent(s, t).value.Ran? && !MainEvent(s, t).value.ExitRan?
  {}

  lemma FinishMoves(s: State, b: Book, t: Tid)
    requires Inv(s) && ThreadsOk(s, b) && Enabled(s, Finish(t)) && Agrees(s.sh, b.log)
    ensures Agrees(Next(s, Finish(t)).sh, BookNext(s, b, Finish(t)).log)
  {
    hide ThreadsOk, Effect, DevAgrees, SnepAgrees, HceAgrees, DevMoves, SnepMoves, HceMoves, BookNext, SectionEvent, Program;
    HceNeverExits(s);
    SectionOf(s, b, t);
    var x, sec := SectionEvent(b, t), s.threads[t].todo[0];
    SectionMoves(x, sec, s.sh);
    DevStep(s.sh, b.log, x, Effect(sec, s.sh));
    SnepStep(s.sh, b.log, x, Effect(sec, s.sh));
    HceStep(s.sh, b.log, x, Effect(sec, s.sh));
  }

  ghost predicate BookInv(s: State, b: Book) { Inv(s) && ThreadsOk(s, b) && Agrees(s.sh, b.log) }

  lemma BookStep(s: State, b: Book, a: Action)
    requires BookInv(s, b) && Enabled(s, a)
    ensures BookInv(Next(s, a), BookNext(s, b, a))
  {
    hide Inv, ThreadsOk, Agrees, MainEnabled, MainNext, MainEvent;
    assert Main !in s.threads by { MainIsNoThread(s); }
    StepKeepsInv(s, a);
    ThreadsStep(s, b, a);
    match a
    case MainStep => MainMoves(s, b.log);
    case Finish(t) => FinishMoves(s, b, t);
    case _ =>
  }

  lemma MainIsNoThread(s: State)
    requires Inv(s)
    ensures Main !in s.threads
  {}

  lemma InitBook(mode: Mode)
    ensures BookInv(Init(mode), BOOK)
  {
    InitInv(mode);
    assert EXIT_PROGRAM[0..] == EXIT_PROGRAM;
  }

  lemma {:induction false} BookRunInv(s: State, b: Book, acts: seq<Action>)
    requires BookInv(s, b) && ValidRun(s, acts)
    ensures BookInv(Run(s, acts), BookRun(s, b, acts))
    decreases |acts|
  {
    hide BookInv, Enabled, Next, BookNext;
    if acts != [] {
      BookStep(s, b, acts[0]);
      BookRunInv(Next(s, acts[0]), BookNext(s, b, acts[0]), acts[1..]);
    }
  }

  /** In every state of every run the monitor variables are what the history of callback sections,
      exit sections and waits of the main thread makes them: whether a device is here, of which kind
      (that of the latest arrival), whether EXIT is in force, whether a client is ready, whether an
      APDU is pending, which waits are on, and which APDUs came and were handed on. */
  lemma MonitorsAreHistory(mode: Mode, acts: seq<Action>)
    requires ValidRun(Init(mode), acts)
    ensures var sh, h := Run(Init(mode), acts).sh, History(mode, acts);
            && (sh.dev == DevExit <==> ExitInForce(h))
            && (forall k :: sh.dev == DevPresent && sh.devType == k <==> Here(h, k))
            && (forall k :: sh.dev == DevWaitDeparture && sh.devType == k <==> HereAwaited(h, k))
            && (sh.dev == DevWaitArrival <==> NoneHereAwaited(h))
            && (sh.dev == DevNone <==> Untouched(h))
            && (sh.snep == SnepExit <==> ExitRan(0) in h)
            && (sh.snep == SnepReady <==> ClientReady(h))
            && (sh.snep == SnepWaitReady <==> ReadyAwaited(h))
            && (sh.snep == SnepWaitOff <==> OffAwaited(h))
            && (sh.hce == HceDataReceived <==> DataPending(h))
            && (sh.hce == HceWaitData <==> DataWaiting(h))
            && sh.received == ApdusOf(h) && sh.given == GivenOf(h)
  {
    hide Run, BookRun, ValidRun, Init, Inv, ThreadsOk;
    InitBook(mode);
    BookRunInv(Init(mode), BOOK, acts);
  }

  /** The number of critical sections of each callback. */
  function Sections(cb: Callback): nat {
    match cb
    case DeviceDeparture | SnepClientReady | SnepClientClosed | HceDeactivated => 2
    case TagArrival | TagDeparture | DeviceArrival | DataReceived(_) | HceActivated => 1
  }

  /** A callback that has returned has run all its sections. */
  lemma CallbacksRunThrough(mode: Mode, acts: seq<Action>, id: nat)
    requires ValidRun(Init(mode), acts) && Cb(id) in Run(Init(mode), acts).threads
    ensures var b := BookRun(Init(mode), BOOK, acts);
            && id in b.running
            && (Run(Init(mode), acts).threads[Cb(id)].todo == [] ==> b.running[id].1 == Sections(b.running[id].0))
  {
    hide Run, BookRun, ValidRun, Init, Inv, Agrees;
    InitBook(mode);
    BookRunInv(Init(mode), BOOK, acts);
    assert ThreadOk(Run(Init(mode), acts), BookRun(Init(mode), BOOK, acts), id);
  }
}
