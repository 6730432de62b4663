/** The firmware download handshake: the downloading thread takes the mutex of a completion event,
    issues a request to the HAL and waits on the event's condition without testing any predicate;
    callbacks of the HAL, on other threads, signal the event. */
module FirmwareDownload {
  import opened Basics

  datatype Event = OpenCompleted | CoreResetCompleted | CoreInitCompleted | InitCompleted | CloseCompleted

  /** What the HAL calls back with: an event code, or a data packet. */
  datatype Message = HalEvent(code: nat) | HalData(packet: seq<nat>)

  /** The event a callback signals; data packets count only when the vendor extension is built in
      (CORE_RESET and CORE_INIT responses, sections 4.1 and 4.2 of NFC Forum NCI 1.0). */
  function Signals(m: Message, extended: bool): Option<Event> {
    match m
    case HalEvent(code) =>
      if code == 0 then Some(OpenCompleted) else if code == 2 then Some(InitCompleted)
      else if code == 1 then Some(CloseCompleted) else None
    case HalData(p) =>
      if extended && |p| > 3 then
        (if p[0] == 0x40 && p[1] == 0x00 then Some(CoreResetCompleted)
         else if p[0] == 0x40 && p[1] == 0x01 then Some(CoreInitCompleted) else None)
      else None
  }

  /** The requests, each named by the event that completes it. */
  function Plan(extended: bool): seq<Event> {
    if extended then [OpenCompleted, CoreResetCompleted, CoreInitCompleted, InitCompleted, CloseCompleted]
    else [OpenCompleted, CloseCompleted]
  }

  /** Where the downloading thread is within one request. */
  datatype Pc = BeforeLock | BeforeRequest | BeforeWait | Sleeping(woken: bool) | BeforeUnlock

  /** What the HAL has done about a request. */
  datatype HalPhase = NotAsked | Asked | Signalling | Answered

  datatype Owner = Downloader | Hal

  datatype State = State(extended: bool, k: nat, pc: Pc, owner: map<Event, Owner>, hal: map<Event, HalPhase>,
                         issued: seq<Event>, lost: nat)

  function Init(extended: bool): State {
    State(extended, 0, BeforeLock, map[], map[], [], 0)
  }

  predicate Finished(s: State) { s.k == |Plan(s.extended)| }

  datatype Action =
    | Step                        // the downloading thread
    | CallbackLock(m: Message)    // a HAL callback takes the event's mutex
    | CallbackSignal(m: Message)  // it signals and unlocks
    | Spurious                    // the condition wait returns by itself

  predicate WellFormed(s: State) { s.k <= |Plan(s.extended)| }

  function Phase(s: State, e: Event): HalPhase { if e in s.hal then s.hal[e] else NotAsked }

  function Current(s: State): Event
    requires WellFormed(s) && !Finished(s)
  {
    Plan(s.extended)[s.k]
  }

  predicate Enabled(s: State, a: Action)
    requires WellFormed(s)
  {
    match a
    case Step =>
      && !Finished(s) && s.pc != Sleeping(false)
      && (s.pc == BeforeLock || s.pc == Sleeping(true) ==> Current(s) !in s.owner)
    case CallbackLock(m) =>
      var e := Signals(m, s.extended);
      e.Some? && Phase(s, e.value) == Asked && e.value !in s.owner
    case CallbackSignal(m) =>
      var e := Signals(m, s.extended);
      e.Some? && Phase(s, e.value) == Signalling
    case Spurious => !Finished(s) && s.pc == Sleeping(false)
  }

  function Next(s: State, a: Action): State
    requires WellFormed(s) && Enabled(s, a)
  {
    match a
    case Step =>
      var e := Current(s);
      (match s.pc
       case BeforeLock => s.(owner := s.owner[e := Downloader], pc := BeforeRequest)
       case BeforeRequest => s.(hal := s.hal[e := Asked], issued := s.issued + [e], pc := BeforeWait)
       case BeforeWait => s.(owner := s.owner - {e}, pc := Sleeping(false))
       case Sleeping(_) => s.(owner := s.owner[e := Downloader], pc := BeforeUnlock)
       case BeforeUnlock => s.(owner := s.owner - {e}, k := s.k + 1, pc := BeforeLock))
    case CallbackLock(m) =>
      var e := Signals(m, s.extended).value;
      s.(owner := s.owner[e := Hal], hal := s.hal[e := Signalling])
    case CallbackSignal(m) =>
      var e := Signals(m, s.extended).value;
      var waiting := !Finished(s) && s.pc == Sleeping(false) && Current(s) == e;
      s.(owner := s.owner - {e}, hal := s.hal[e := Answered],
         pc := if waiting then Sleeping(true) else s.pc, lost := if waiting then s.lost else s.lost + 1)
    case Spurious => s.(pc := Sleeping(true))
  }

  ghost predicate ValidRun(s: State, acts: seq<Action>)
    decreases |acts|
  {
    acts == [] || (WellFormed(s) && Enabled(s, acts[0]) && ValidRun(Next(s, acts[0]), acts[1..]))
  }

  ghost function Run(s: State, acts: seq<Action>): State
    requires ValidRun(s, acts)
    decreases |acts|
  {
    if acts == [] then s else Run(Next(s, acts[0]), acts[1..])
  }

  // ---------------------------------------------------------------- the invariant

  /** A spurious wakeup while a callback holds the event's mutex; every other step is calm too. */
  predicate Calm(s: State, a: Action)
    requires WellFormed(s) && Enabled(s, a)
  {
    a == Spurious ==> Phase(s, Current(s)) == Signalling
  }

  ghost predicate CalmRun(s: State, acts: seq<Action>)
    requires ValidRun(s, acts)
    decreases |acts|
  {
    acts == [] || (Calm(s, acts[0]) && CalmRun(Next(s, acts[0]), acts[1..]))
  }

  /** What the HAL may have done about the request at position `j` of the plan. */
  predicate HalOk(s: State, j: nat, h: HalPhase) {
    if j < s.k then h == Answered
    else if j > s.k then h == NotAsked
    else match s.pc
      case BeforeLock | BeforeRequest => h == NotAsked
      case BeforeWait => h == Asked
      case Sleeping(woken) => h == Signalling || h == if woken then Answered else Asked
      case BeforeUnlock => h == Answered
  }

  predicate Holds(pc: Pc) { pc == BeforeRequest || pc == BeforeWait || pc == BeforeUnlock }

  ghost predicate HalsOk(s: State) {
    && (forall j :: 0 <= j < |Plan(s.extended)| ==> HalOk(s, j, Phase(s, Plan(s.extended)[j])))
    && (forall e :: e !in Plan(s.extended) ==> Phase(s, e) == NotAsked)
  }

  /** Who holds which event mutex. */
  ghost predicate OwnersOk(s: State)
    requires WellFormed(s)
  {
    && (forall e :: Phase(s, e) == Signalling <==> e in s.owner && s.owner[e] == Hal)
    && (forall e :: (!Finished(s) && Holds(s.pc) && Current(s) == e) <==> e in s.owner && s.owner[e] == Downloader)
  }

  predicate IssuedOk(s: State)
    requires WellFormed(s)
  {
    s.issued == Plan(s.extended)[..s.k]
                + if Finished(s) || s.pc == BeforeLock || s.pc == BeforeRequest then [] else [Current(s)]
  }

  ghost predicate Inv(s: State) {
    WellFormed(s) && (Finished(s) ==> s.pc == BeforeLock) && HalsOk(s) && OwnersOk(s) && IssuedOk(s)
  }

  lemma PlanDistinct(extended: bool)
    ensures forall i, j :: 0 <= i < j < |Plan(extended)| ==> Plan(extended)[i] != Plan(extended)[j]
  {}

  /** One after a wakeup that came before its signal: that signal will find nobody asleep. */
  function Owed(s: State): nat
    requires WellFormed(s)
  {
    if !Finished(s) && s.pc == Sleeping(true) && Phase(s, Current(s)) == Signalling then 1 else 0
  }

  /** A callback only ever locks or signals the event of the request in progress; when it locks, and
      when it signals unless a spurious wakeup came first, the downloader is asleep on it. */
  lemma SignalFindsSleeper(s: State, a: Action)
    requires Inv(s) && Enabled(s, a) && (a.CallbackLock? || a.CallbackSignal?)
    ensures !Finished(s) && Signals(a.m, s.extended) == Some(Current(s))
    ensures s.pc == Sleeping(false) || (a.CallbackSignal? && s.pc == Sleeping(true) && Owed(s) == 1)
  {
    hide Plan, Signals, IssuedOk;
    var e := Signals(a.m, s.extended).value;
    var j :| 0 <= j < |Plan(s.extended)| && Plan(s.extended)[j] == e;
    assert HalOk(s, j, Phase(s, Plan(s.extended)[j]));
  }

  lemma StepKeepsOwners(s: State)
    requires WellFormed(s) && OwnersOk(s) && Enabled(s, Step)
    requires s.pc == BeforeRequest ==> Phase(s, Current(s)) != Signalling
    ensures OwnersOk(Next(s, Step))
  {
    hide Plan, Signals;
    var t, e := Next(s, Step), Current(s);
    forall f ensures Phase(t, f) == Signalling <==> f in t.owner && t.owner[f] == Hal {
      assert Phase(s, f) == Signalling <==> f in s.owner && s.owner[f] == Hal;
      assert f != e ==> Phase(t, f) == Phase(s, f) && (f in t.owner <==> f in s.owner);
    }
    forall f ensures (!Finished(t) && Holds(t.pc) && Current(t) == f) <==> f in t.owner && t.owner[f] == Downloader {
      assert (!Finished(s) && Holds(s.pc) && Current(s) == f) <==> f in s.owner && s.owner[f] == Downloader;
      assert f != e ==> (f in t.owner <==> f in s.owner);
    }
  }

  lemma StepKeepsInv(s: State)
    requires Inv(s) && Enabled(s, Step)
    ensures Inv(Next(s, Step))
  {
    hide Plan, Signals, OwnersOk;
    PlanDistinct(s.extended);
    assert HalOk(s, s.k, Phase(s, Plan(s.extended)[s.k]));
    assert Plan(s.extended)[..s.k + 1] == Plan(s.extended)[..s.k] + [Current(s)];
    StepKeepsOwners(s);
    if s.pc.Sleeping? { OwnedBlocks(s); }
  }

  lemma CallbackKeepsInv(s: State, a: Action)
    requires Inv(s) && Enabled(s, a) && (a.CallbackLock? || a.CallbackSignal?)
    ensures Inv(Next(s, a))
  {
    hide Plan, Signals;
    PlanDistinct(s.extended);
    SignalFindsSleeper(s, a);
  }

  // ---------------------------------------------------------------- every run completes

  function Stage(s: State): nat
    requires WellFormed(s) && !Finished(s)
  {
    match s.pc
    case BeforeLock => 0
    case BeforeRequest => 1
    case BeforeWait => 2
    case Sleeping(woken) => if Phase(s, Current(s)) == Signalling then 4 else if woken then 5 else 3
    case BeforeUnlock => 6
  }

  /** The number of steps left: seven for each request. */
  function Remaining(s: State): nat
    requires WellFormed(s)
  {
    if Finished(s) then 0 else 7 * (|Plan(s.extended)| - s.k) - Stage(s)
  }

  /** Every calm step keeps the invariant and, spurious wakeups apart, brings the handshake one step
      closer to its end; every calm spurious wakeup makes one signal superfluous. */
  lemma EveryStepCounts(s: State, a: Action)
    requires Inv(s) && Enabled(s, a) && Calm(s, a)
    ensures var t := Next(s, a);
            && Inv(t) && t.extended == s.extended
            && Remaining(t) + (if a == Spurious then 0 else 1) == Remaining(s)
            && t.lost + Owed(t) == s.lost + Owed(s) + if a == Spurious then 1 else 0
  {
    hide Plan, Signals, IssuedOk, OwnersOk;
    if !Finished(s) { assert HalOk(s, s.k, Phase(s, Plan(s.extended)[s.k])); }
    match a {
      case Step => StepKeepsInv(s); if s.pc.Sleeping? { OwnedBlocks(s); }
      case Spurious => SpuriousKeepsInv(s);
      case _ => CallbackKeepsInv(s, a); SignalFindsSleeper(s, a);
    }
    var t := Next(s, a);
    if !Finished(t) { assert HalOk(t, t.k, Phase(t, Plan(t.extended)[t.k])); }
  }

  lemma SpuriousKeepsInv(s: State)
    requires Inv(s) && Enabled(s, Spurious) && Calm(s, Spurious)
    ensures Inv(Next(s, Spurious))
  {
    hide Plan, Signals;
    var t := Next(s, Spurious);
    forall j | 0 <= j < |Plan(t.extended)| ensures HalOk(t, j, Phase(t, Plan(t.extended)[j])) {
      assert HalOk(s, j, Phase(s, Plan(s.extended)[j]));
    }
  }

  /** A woken downloader waits for the mutex as long as the callback holds it. */
  lemma OwnedBlocks(s: State)
    requires WellFormed(s) && OwnersOk(s) && Enabled(s, Step) && s.pc.Sleeping?
    ensures s.pc == Sleeping(true) && Phase(s, Current(s)) != Signalling
  {
    hide Plan;
  }

  /** A message with which the HAL can answer a request. */
  function AnswerTo(e: Event): Message {
    match e
    case OpenCompleted => HalEvent(0)
    case CloseCompleted => HalEvent(1)
    case InitCompleted => HalEvent(2)
    case CoreResetCompleted => HalData([0x40, 0x00, 0x03, 0x00])
    case CoreInitCompleted => HalData([0x40, 0x01, 0x11, 0x00])
  }

  lemma AnswerSignals(s: State)
    requires WellFormed(s) && !Finished(s)
    ensures Signals(AnswerTo(Current(s)), s.extended) == Some(Current(s))
  {}

  lemma NeverStuck(s: State)
    requires Inv(s) && !Finished(s)
    ensures exists a :: a != Spurious && Enabled(s, a)
  {
    hide Plan, Signals, AnswerTo, IssuedOk;
    var e := Current(s);
    var m := AnswerTo(e);
    assert HalOk(s, s.k, Phase(s, Plan(s.extended)[s.k]));
    AnswerSignals(s);
    if s.pc.Sleeping? && Phase(s, e) == Signalling {
      assert Enabled(s, CallbackSignal(m));
    } else if s.pc == Sleeping(false) {
      assert Enabled(s, CallbackLock(m));
    } else {
      assert Enabled(s, Step);
    }
  }

  /** The steps of a run that are not spurious wakeups. */
  function Work(acts: seq<Action>): nat {
    if acts == [] then 0 else (if acts[0] == Spurious then 0 else 1) + Work(acts[1..])
  }

  lemma {:induction false} WorkBound(acts: seq<Action>)
    ensures Work(acts) <= |acts| && (Work(acts) == |acts| <==> Spurious !in acts)
  {
    if acts != [] {
      WorkBound(acts[1..]);
      assert acts == [acts[0]] + acts[1..];
    }
  }

  lemma {:induction false} RunCounts(s: State, acts: seq<Action>)
    requires Inv(s) && ValidRun(s, acts) && CalmRun(s, acts)
    ensures var t := Run(s, acts);
            && Inv(t) && t.extended == s.extended && Work(acts) <= |acts|
            && Remaining(t) + Work(acts) == Remaining(s)
            && t.lost + Owed(t) == s.lost + Owed(s) + |acts| - Work(acts)
    decreases |acts|
  {
    hide Inv, Remaining, Owed, Enabled, Next, Calm;
    if acts != [] {
      EveryStepCounts(s, acts[0]);
      RunCounts(Next(s, acts[0]), acts[1..]);
    }
  }

  lemma InitInv(extended: bool)
    ensures Inv(Init(extended)) && Remaining(Init(extended)) == 7 * |Plan(extended)| && Owed(Init(extended)) == 0
  {}

  /** In every state of every run whose spurious wakeups, if any, are calm: requests were issued in
      plan order, each after all earlier ones were answered, and without spurious wakeups no signal
      was lost; a run that cannot continue has completed the whole plan, in exactly seven steps a
      request, with every event mutex free. */
  lemma HandshakeCompletes(extended: bool, acts: seq<Action>)
    requires ValidRun(Init(extended), acts) && CalmRun(Init(extended), acts)
    ensures var s := Run(Init(extended), acts);
            && WellFormed(s) && s.extended == extended && s.issued <= Plan(extended)
            && (forall j :: 0 <= j < |s.issued| - 1 ==> Phase(s, s.issued[j]) == Answered)
            && (Spurious !in acts ==> s.lost == 0)
            && Work(acts) <= 7 * |Plan(extended)|
            && (Finished(s) <==> forall a :: a != Spurious ==> !Enabled(s, a))
            && (Finished(s) <==> Work(acts) == 7 * |Plan(extended)|)
            && (Finished(s) ==> s.issued == Plan(extended) && s.owner == map[])
  {
    hide Plan, Signals, HalOk, Enabled, Stage, CalmRun, Owed;
    InitInv(extended);
    RunCounts(Init(extended), acts);
    WorkBound(acts);
    var s := Run(Init(extended), acts);
    IssuedInOrder(s);
    if Finished(s) { FinishedIsQuiet(s); } else { NeverStuck(s); }
    RemainingZeroIff(s);
  }

  // ---------------------------------------------------------------- the order of the requests

  /** The message of the HAL that completes a request. */
  predicate IsAnswer(m: Message, e: Event) {
    match e
    case OpenCompleted => m == HalEvent(0)
    case CloseCompleted => m == HalEvent(1)
    case InitCompleted => m == HalEvent(2)
    case CoreResetCompleted => m.HalData? && |m.packet| > 3 && m.packet[0] == 0x40 && m.packet[1] == 0x00
    case CoreInitCompleted => m.HalData? && |m.packet| > 3 && m.packet[0] == 0x40 && m.packet[1] == 0x01
  }

  /** Some callback of the run has brought the answer to this request. */
  ghost predicate AnsweredBy(acts: seq<Action>, e: Event) {
    exists i :: 0 <= i < |acts| && acts[i].CallbackSignal? && IsAnswer(acts[i].m, e)
  }

  lemma SignalsMeans(m: Message, extended: bool, e: Event)
    requires Signals(m, extended) == Some(e)
    ensures IsAnswer(m, e)
  {}

  lemma OnlySignalsAnswer(s: State, a: Action, e: Event)
    requires WellFormed(s) && Enabled(s, a) && Phase(Next(s, a), e) == Answered && Phase(s, e) != Answered
    ensures a.CallbackSignal? && IsAnswer(a.m, e)
  {
    hide Plan, Signals, IsAnswer;
    assert a.CallbackSignal?;
    SignalsMeans(a.m, s.extended, e);
  }

  lemma {:induction false} AnsweredMeans(s: State, acts: seq<Action>, e: Event)
    requires ValidRun(s, acts) && Phase(Run(s, acts), e) == Answered && Phase(s, e) != Answered
    ensures AnsweredBy(acts, e)
    decreases |acts|
  {
    hide Enabled, Next, IsAnswer;
    if acts != [] {
      var t := Next(s, acts[0]);
      if Phase(t, e) == Answered {
        OnlySignalsAnswer(s, acts[0], e);
      } else {
        AnsweredMeans(t, acts[1..], e);
        var i :| 0 <= i < |acts[1..]| && acts[1..][i].CallbackSignal? && IsAnswer(acts[1..][i].m, e);
        assert acts[i + 1] == acts[1..][i];
      }
    }
  }

  /** Over every run whose spurious wakeups, if any, are calm, and so at the moment of each request:
      the HAL is opened first. With the vendor extension, CORE_INIT is sent only after the response
      to CORE_RESET (40 00) has come, the core is initialized only after the response to CORE_INIT
      (40 01), and the HAL is closed only after the completion of the initialization; without it
      the HAL is opened and closed and nothing else is requested. No request is made twice. */
  lemma DownloadOrder(extended: bool, acts: seq<Action>)
    requires ValidRun(Init(extended), acts) && CalmRun(Init(extended), acts)
    ensures var issued := Run(Init(extended), acts).issued;
            && (issued != [] ==> issued[0] == OpenCompleted)
            && (forall i, j :: 0 <= i < j < |issued| ==> issued[i] != issued[j])
            && (CoreResetCompleted in issued ==> extended && AnsweredBy(acts, OpenCompleted))
            && (CoreInitCompleted in issued ==> extended && AnsweredBy(acts, CoreResetCompleted))
            && (InitCompleted in issued ==> extended && AnsweredBy(acts, CoreInitCompleted))
            && (CloseCompleted in issued ==> AnsweredBy(acts, if extended then InitCompleted else OpenCompleted))
            && (CloseCompleted in issued ==> issued[|issued| - 1] == CloseCompleted)
            && (Finished(Run(Init(extended), acts)) ==>
                  AnsweredBy(acts, CloseCompleted) && |issued| == if extended then 5 else 2)
  {
    hide Inv, ValidRun, Run, CalmRun, Phase, AnsweredBy, Remaining, Owed, Work;
    InitInv(extended);
    RunCounts(Init(extended), acts);
    var s := Run(Init(extended), acts);
    IssuedInOrder(s);
    PlanDistinct(extended);
    PlanIs(extended, s.issued);
    NothingAnswered(extended);
    forall j | 0 <= j < |s.issued| - 1 ensures AnsweredBy(acts, s.issued[j]) {
      AnsweredMeans(Init(extended), acts, s.issued[j]);
    }
    if Finished(s) {
      AllAnswered(s);
      AnsweredMeans(Init(extended), acts, CloseCompleted);
    }
  }

  lemma NothingAnswered(extended: bool)
    ensures forall e :: Phase(Init(extended), e) != Answered
  {}

  lemma PlanIs(extended: bool, issued: seq<Event>)
    requires issued <= Plan(extended)
    ensures forall i, j :: 0 <= i < j < |issued| ==> issued[i] != issued[j]
    ensures issued != [] ==> issued[0] == OpenCompleted
    ensures CoreResetCompleted in issued ==> extended && |issued| > 1 && issued[0] == OpenCompleted
    ensures CoreInitCompleted in issued ==> extended && |issued| > 2 && issued[1] == CoreResetCompleted
    ensures InitCompleted in issued ==> extended && |issued| > 3 && issued[2] == CoreInitCompleted
    ensures CloseCompleted in issued ==> |issued| == |Plan(extended)| && issued[|issued| - 1] == CloseCompleted
    ensures CloseCompleted in issued ==> issued[|issued| - 2] == if extended then InitCompleted else OpenCompleted
    ensures |Plan(extended)| == if extended then 5 else 2
  {
    PlanDistinct(extended);
    forall i | 0 <= i < |issued| ensures issued[i] == Plan(extended)[i] {}
  }

  lemma AllAnswered(s: State)
    requires Inv(s) && Finished(s)
    ensures Phase(s, CloseCompleted) == Answered && s.issued == Plan(s.extended)
  {
    FinishedIsQuiet(s);
    var j := |Plan(s.extended)| - 1;
    assert Plan(s.extended)[j] == CloseCompleted;
    assert HalOk(s, j, Phase(s, Plan(s.extended)[j]));
  }

  lemma IssuedInOrder(s: State)
    requires Inv(s)
    ensures s.issued <= Plan(s.extended)
    ensures forall j :: 0 <= j < |s.issued| - 1 ==> Phase(s, s.issued[j]) == Answered
  {
    hide Plan, OwnersOk;
    forall j | 0 <= j < |s.issued| - 1 ensures Phase(s, s.issued[j]) == Answered {
      assert j < s.k && HalOk(s, j, Phase(s, Plan(s.extended)[j]));
    }
    if !Finished(s) { assert Plan(s.extended)[..s.k + 1] == Plan(s.extended)[..s.k] + [Current(s)]; }
  }

  lemma RemainingZeroIff(s: State)
    requires WellFormed(s)
    ensures Finished(s) <==> Remaining(s) == 0
  {
    hide Plan;
  }

  lemma FinishedIsQuiet(s: State)
    requires Inv(s) && Finished(s)
    ensures forall a :: a != Spurious ==> !Enabled(s, a)
    ensures s.owner == map[] && s.issued == Plan(s.extended)
  {
    forall e: Event ensures Phase(s, e) == NotAsked || Phase(s, e) == Answered {
      if e in Plan(s.extended) {
        var j :| 0 <= j < |Plan(s.extended)| && Plan(s.extended)[j] == e;
        assert HalOk(s, j, Phase(s, Plan(s.extended)[j]));
      }
    }
    assert forall e :: e !in s.owner;
  }

  // ---------------------------------------------------------------- which spurious wakeups do harm

  /** What holds in every reachable state, whatever wakes up when. */
  ghost predicate Coherent(s: State) {
    && WellFormed(s) && (Finished(s) ==> s.pc == BeforeLock) && OwnersOk(s)
    && (!Finished(s) ==>
          && (s.pc == BeforeLock || s.pc == BeforeRequest ==> Phase(s, Current(s)) == NotAsked)
          && (s.pc == BeforeWait ==> Phase(s, Current(s)) == Asked)
          && (s.pc == Sleeping(false) ==> Phase(s, Current(s)) == Asked || Phase(s, Current(s)) == Signalling)
          && forall j :: s.k < j < |Plan(s.extended)| ==> Phase(s, Plan(s.extended)[j]) == NotAsked)
  }

  lemma CoherentStep(s: State, a: Action)
    requires Coherent(s) && Enabled(s, a)
    ensures Coherent(Next(s, a)) && Next(s, a).extended == s.extended
  {
    hide Plan, Signals;
    match a
    case Step => CoherentDownloader(s);
    case CallbackLock(m) => CoherentLock(s, m);
    case CallbackSignal(m) => CoherentSignal(s, m);
    case Spurious =>
  }

  lemma CoherentDownloader(s: State)
    requires Coherent(s) && Enabled(s, Step)
    ensures Coherent(Next(s, Step)) && Next(s, Step).extended == s.extended
  {
    hide Plan, Signals, OwnersOk;
    PlanDistinct(s.extended);
    StepKeepsOwners(s);
  }

  lemma CoherentLock(s: State, m: Message)
    requires Coherent(s) && Enabled(s, CallbackLock(m))
    ensures Coherent(Next(s, CallbackLock(m))) && Next(s, CallbackLock(m)).extended == s.extended
  {
    hide Plan, Signals;
  }

  lemma CoherentSignal(s: State, m: Message)
    requires Coherent(s) && Enabled(s, CallbackSignal(m))
    ensures Coherent(Next(s, CallbackSignal(m))) && Next(s, CallbackSignal(m)).extended == s.extended
  {
    hide Plan, Signals;
  }

  lemma {:induction false} CoherentRun(s: State, acts: seq<Action>)
    requires Coherent(s) && ValidRun(s, acts)
    ensures Coherent(Run(s, acts)) && Run(s, acts).extended == s.extended
    decreases |acts|
  {
    hide Coherent, Enabled, Next;
    if acts != [] {
      CoherentStep(s, acts[0]);
      CoherentRun(Next(s, acts[0]), acts[1..]);
    }
  }

  /** The request in progress in `s` is not passed in `u` before it is answered. */
  predicate PassedAnswered(s: State, u: State)
    requires WellFormed(s) && !Finished(s)
  {
    u.k > s.k ==> Phase(u, Current(s)) == Answered
  }

  /** The callback that holds the mutex of `s`'s request keeps the downloader from passing it. */
  predicate Protected(s: State, u: State)
    requires WellFormed(s) && !Finished(s)
  {
    && u.extended == s.extended && s.k <= u.k
    && (if u.k == s.k && u.pc == Sleeping(true) then Phase(u, Current(s)) == Signalling || Phase(u, Current(s)) == Answered
        else Phase(u, Current(s)) == Answered && (u.k == s.k ==> u.pc == BeforeUnlock))
  }

  lemma ProtectedStep(s: State, u: State, a: Action)
    requires WellFormed(s) && !Finished(s) && Coherent(u) && Protected(s, u) && Enabled(u, a)
    ensures Protected(s, Next(u, a))
  {
    hide Plan, Signals;
    PlanDistinct(s.extended);
  }

  lemma {:induction false} ProtectedRun(s: State, u: State, acts: seq<Action>)
    requires WellFormed(s) && !Finished(s) && Coherent(u) && Protected(s, u) && ValidRun(u, acts)
    ensures PassedAnswered(s, Run(u, acts))
    decreases |acts|
  {
    hide Coherent, Enabled, Next, Current;
    if acts != [] {
      CoherentStep(u, acts[0]);
      ProtectedStep(s, u, acts[0]);
      ProtectedRun(s, Next(u, acts[0]), acts[1..]);
    }
  }

  /** After a spurious wakeup before the callback has taken the mutex, two steps pass the request. */
  lemma PassesUnanswered(s: State) returns (acts: seq<Action>)
    requires Coherent(s) && Enabled(s, Spurious) && Phase(s, Current(s)) == Asked
    ensures ValidRun(Next(s, Spurious), acts) && !PassedAnswered(s, Run(Next(s, Spurious), acts))
  {
    hide Plan, Signals;
    var t := Next(s, Spurious);
    assert Current(t) !in t.owner;
    var t1 := Next(t, Step);
    var t2 := Next(t1, Step);
    acts := [Step, Step];
    assert acts[1..] == [Step] && [Step][1..] == [];
    assert ValidRun(t2, []) && Run(t2, []) == t2;
    assert ValidRun(t1, [Step]) && Run(t1, [Step]) == t2;
  }

  /** Exactly which spurious wakeups do harm, in any reachable state, whatever wakeups came before:
      no continuation passes the request before it is answered if and only if a callback already
      holds the event's mutex when the wait returns. */
  lemma SpuriousHarmlessIff(extended: bool, before: seq<Action>)
    requires ValidRun(Init(extended), before)
    requires var s := Run(Init(extended), before); WellFormed(s) && Enabled(s, Spurious)
    ensures var s := Run(Init(extended), before);
            (forall acts :: ValidRun(Next(s, Spurious), acts) ==> PassedAnswered(s, Run(Next(s, Spurious), acts)))
            <==> Phase(s, Current(s)) == Signalling
  {
    hide Plan, Signals, ValidRun, Run;
    var s := Run(Init(extended), before);
    assert Coherent(Init(extended)) by { InitCoherent(extended); }
    CoherentRun(Init(extended), before);
    CoherentStep(s, Spurious);
    if Phase(s, Current(s)) == Signalling {
      forall acts | ValidRun(Next(s, Spurious), acts) ensures PassedAnswered(s, Run(Next(s, Spurious), acts)) {
        ProtectedRun(s, Next(s, Spurious), acts);
      }
    } else {
      var acts := PassesUnanswered(s);
    }
  }

  lemma InitCoherent(extended: bool)
    ensures Coherent(Init(extended))
  {}

  ghost predicate Leads(s: State, acts: seq<Action>, t: State) { ValidRun(s, acts) && Run(s, acts) == t }

  lemma Prepend(s: State, a: Action, s': State, acts: seq<Action>, t: State)
    requires WellFormed(s) && Enabled(s, a) && Next(s, a) == s' && Leads(s', acts, t)
    ensures Leads(s, [a] + acts, t)
  {
    assert ([a] + acts)[1..] == acts;
  }

  lemma AsleepOnOpen(acts: seq<Action>, t: State)
    requires Leads(State(true, 0, Sleeping(false), map[], map[OpenCompleted := Asked], [OpenCompleted], 0), acts, t)
    ensures Leads(Init(true), [Step] + ([Step] + ([Step] + acts)), t)
  {
    hide Leads;
    var s1 := Next(Init(true), Step);
    var s2 := Next(s1, Step);
    var s3 := Next(s2, Step);
    assert s3 == State(true, 0, Sleeping(false), map[], map[OpenCompleted := Asked], [OpenCompleted], 0);
    Prepend(s2, Step, s3, acts, t);
    Prepend(s1, Step, s2, [Step] + acts, t);
    Prepend(Init(true), Step, s1, [Step] + ([Step] + acts), t);
  }

  /** The waits test no predicate: one spurious wakeup and the second request goes out although the
      first was never answered. */
  lemma SpuriousWakeupBreaksOrder() returns (acts: seq<Action>)
    ensures ValidRun(Init(true), acts)
    ensures var t := Run(Init(true), acts);
            t.issued == [OpenCompleted, CoreResetCompleted] && Phase(t, OpenCompleted) == Asked
  {
    hide ValidRun, Run;
    var s3 := State(true, 0, Sleeping(false), map[], map[OpenCompleted := Asked], [OpenCompleted], 0);
    var s4 := Next(s3, Spurious);
    var s5 := Next(s4, Step);
    var s6 := Next(s5, Step);
    assert s6.owner == map[];
    var s7 := Next(s6, Step);
    var s8 := Next(s7, Step);
    Here(s8);
    Prepend(s7, Step, s8, [], s8);
    Prepend(s6, Step, s7, [Step] + [], s8);
    Prepend(s5, Step, s6, [Step] + ([Step] + []), s8);
    Prepend(s4, Step, s5, [Step] + ([Step] + ([Step] + [])), s8);
    acts := [Step] + ([Step] + ([Step] + ([Step] + [])));
    Prepend(s3, Spurious, s4, acts, s8);
    acts := [Spurious] + acts;
    AsleepOnOpen(acts, s8);
    acts := [Step] + ([Step] + ([Step] + acts));
  }

  lemma Here(s: State)
    ensures Leads(s, [], s)
  {}
}
