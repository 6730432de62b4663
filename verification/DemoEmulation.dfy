/** Card emulation end to end: the main loop hands received APDUs to the Type 4 Tag emulator and
    sends its answers, while activations on other threads reset the emulator. */
module DemoEmulation {
  import opened Basics
  import opened DemoState
  import opened DemoProtocol
  import opened DemoHistory
  import T = T4TEmulator

  // ---------------------------------------------------------------- the emulator beside the protocol

  /** The emulator's state, the response buffer of the main loop, and the answers sent. */
  datatype Card = Card(emu: T.State, rsp: T.Bytes, sent: seq<T.Bytes>)

  const CARD := Card(T.Ready, [], [])

  predicate HandsOn(s: State, a: Action) {
    a == MainStep && s.pc == HceTake && s.sh.hce == HceDataReceived && s.sh.data.Some?
  }

  /** The send precedes the lock that this step of the main thread takes. */
  predicate Sends(s: State, a: Action) { a == MainStep && s.pc == HceSend }

  predicate Resets(s: State, a: Action) {
    a.Finish? && a.t in s.threads && s.threads[a.t].todo != [] && s.threads[a.t].todo[0] == ActivatedDev
  }

  function CardNext(r: T.Record, s: State, c: Card, a: Action): Card
    requires T.ValidRecord(r)
  {
    if HandsOn(s, a) then
      var cmd := s.sh.data.value;
      Card(T.NextState(c.emu, r, cmd), T.Answer(c.emu, r, cmd), c.sent)
    else if Sends(s, a) then c.(sent := c.sent + [c.rsp])
    else if Resets(s, a) then c.(emu := T.Ready)
    else c
  }

  /** The card at the end of a run of the protocol. */
  function CardRun(r: T.Record, s: State, c: Card, acts: seq<Action>): Card
    requires T.ValidRecord(r) && ValidRun(s, acts)
    decreases |acts|
  {
    if acts == [] then c else CardRun(r, Next(s, acts[0]), CardNext(r, s, c, acts[0]), acts[1..])
  }

  // ---------------------------------------------------------------- what a history calls for

  /** What the history of a run means to the emulator: the sections of the activation callback, and
      the APDUs handed on. */
  function View(h: seq<Happening>): seq<T.Event> {
    if h == [] then []
    else View(h[..|h| - 1]) + match h[|h| - 1]
                              case Ran(HceActivated, 0) => [T.Activated]
                              case Given(cmd) => [T.Apdu(cmd)]
                              case _ => []
  }

  /** The answers that the emulator's specification gives to the commands of a trace. */
  function Answers(r: T.Record, t: seq<T.Event>): seq<T.Bytes>
    requires T.ValidRecord(r)
  {
    if t == [] then []
    else Answers(r, t[..|t| - 1])
         + match t[|t| - 1]
           case Activated => []
           case Apdu(cmd) => [T.Answer(T.StateAt(r, t, |t| - 1), r, cmd)]
  }

  lemma ViewSnoc(h: seq<Happening>, x: Happening)
    ensures View(h + [x]) == View(h) + match x
                                       case Ran(HceActivated, 0) => [T.Activated]
                                       case Given(cmd) => [T.Apdu(cmd)]
                                       case _ => []
  {
    assert (h + [x])[..|h|] == h;
  }

  lemma TraceSnoc(r: T.Record, t: seq<T.Event>, e: T.Event)
    requires T.ValidRecord(r)
    ensures Answers(r, t + [e]) ==
            Answers(r, t) + (match e case Activated => [] case Apdu(cmd) => [T.Answer(T.StateAt(r, t, |t|), r, cmd)])
    ensures T.StateAt(r, t + [e], |t + [e]|) ==
            match e case Activated => T.Ready case Apdu(cmd) => T.NextState(T.StateAt(r, t, |t|), r, cmd)
  {
    assert (t + [e])[..|t|] == t;
    T.StatePrefix(r, t, [e], |t|);
  }

  // ---------------------------------------------------------------- the invariant

  ghost predicate CardInv(r: T.Record, s: State, h: seq<Happening>, c: Card)
    requires T.ValidRecord(r)
  {
    && c.emu == T.StateAt(r, View(h), |View(h)|)
    && Answers(r, View(h)) == c.sent + if s.pc == HceSend then [c.rsp] else []
  }

  lemma SectionHandsNothing(sec: Section, sh: Shared, pc: Pc)
    ensures Effect(sec, sh).given == sh.given
    ensures Woken(sec, sh, pc) == HceSend <==> pc == HceSend
  {
    hide Notifies;
  }

  lemma LocalHandsOn(pc: Pc, sh: Shared, mode: Mode)
    requires LocalPoint(pc) && (sh.hce == HceDataReceived ==> sh.data.Some?)
    ensures var (pc', sh') := Local(pc, sh, mode);
            if pc == HceTake && sh.hce == HceDataReceived
            then pc' == HceSend && sh'.given == sh.given + [sh.data.value]
            else pc' != HceSend && sh'.given == sh.given
  {
    hide MainHolds;
  }

  lemma LockingSends(pc: Pc)
    requires Wants(pc).Some?
    ensures Wants(pc).value.1 != HceSend && pc != HceTake
  {}

  /** Only two steps concern the pending answer: handing an APDU on creates it, sending consumes it. */
  lemma StepHandsOn(s: State, a: Action)
    requires Inv(s) && Enabled(s, a)
    ensures if HandsOn(s, a)
            then s.pc != HceSend && Next(s, a).pc == HceSend && Next(s, a).sh.given == s.sh.given + [s.sh.data.value]
            else Next(s, a).sh.given == s.sh.given && (Next(s, a).pc == HceSend <==> s.pc == HceSend && !Sends(s, a))
  {
    hide LocksOk, WakeupsOk, TypesOk, ModeOk, MainHolds, Local, Wants, Effect, Notifies, Woken, LockOf;
    match a
    case MainStep =>
      if Wants(s.pc).Some? { LockingSends(s.pc); } else { LocalHandsOn(s.pc, s.sh, s.mode); SendPoint(); }
    case Finish(t) => SectionHandsNothing(s.threads[t].todo[0], s.sh, s.pc);
    case _ =>
  }

  lemma SendPoint()
    ensures Wants(HceSend).Some?
  {}

  lemma HandingOnIsNoted(s: State)
    requires Inv(s) && MainEnabled(s)
    ensures var e := MainEvent(s, MainNext(s));
            if HandsOn(s, MainStep) then e == Some(Given(s.sh.data.value)) else e.None? || !e.value.Given?
    ensures var e := MainEvent(s, MainNext(s)); e.None? || !e.value.Ran?
  {
    hide Local, Wants, MainHolds, MainEnabled, MainNext, Inv;
    StepHandsOn(s, MainStep);
    MainEventKind(s, MainNext(s));
    OnlyMoreIsGiven(s, MainNext(s));
  }

  lemma OnlyMoreIsGiven(s: State, t: State)
    ensures var e := MainEvent(s, t);
            if |t.sh.given| > |s.sh.given| then e == Some(Given(t.sh.given[|s.sh.given|])) else e.None? || !e.value.Given?
  {}

  /** The emulator is reset by the section of the activation callback and by no other. */
  lemma ActivationResets(x: Happening, sec: Section)
    requires Names(x, sec)
    ensures sec == ActivatedDev <==> x == Ran(HceActivated, 0)
  {}

  lemma SameView(h: seq<Happening>, x: Happening)
    requires x != Ran(HceActivated, 0) && !x.Given?
    ensures View(h + [x]) == View(h)
  {
    ViewSnoc(h, x);
  }

  lemma MainCardStep(r: T.Record, s: State, h: seq<Happening>, c: Card)
    requires T.ValidRecord(r) && Inv(s) && MainEnabled(s) && CardInv(r, s, h, c)
    ensures CardInv(r, MainNext(s), Noted(h, MainEvent(s, MainNext(s))), CardNext(r, s, c, MainStep))
  {
    hide Inv, MainEnabled, MainNext, View, Answers, MainEvent, HandsOn;
    var e := MainEvent(s, MainNext(s));
    StepHandsOn(s, MainStep);
    HandingOnIsNoted(s);
    if HandsOn(s, MainStep) {
      HasData(s);
      ViewSnoc(h, e.value);
      TraceSnoc(r, View(h), T.Apdu(s.sh.data.value));
    } else if e.Some? {
      SameView(h, e.value);
    }
  }

  lemma HasData(s: State)
    requires HandsOn(s, MainStep)
    ensures s.sh.data.Some?
  {}

  lemma FinishCardStep(r: T.Record, s: State, b: Book, c: Card, t: Tid)
    requires T.ValidRecord(r) && BookInv(s, b) && Enabled(s, Finish(t)) && CardInv(r, s, b.log, c)
    ensures CardInv(r, Next(s, Finish(t)), BookNext(s, b, Finish(t)).log, CardNext(r, s, c, Finish(t)))
  {
    hide Inv, ThreadsOk, Agrees, View, Answers, SectionEvent, BookNext, Effect, Program, Woken;
    MainIsNoThread(s);
    SectionOf(s, b, t);
    StepHandsOn(s, Finish(t));
    var x, sec := SectionEvent(b, t), s.threads[t].todo[0];
    ActivationResets(x, sec);
    if sec == ActivatedDev {
      ViewSnoc(b.log, x);
      TraceSnoc(r, View(b.log), T.Activated);
    } else {
      SameView(b.log, x);
    }
  }

  lemma CardStep(r: T.Record, s: State, b: Book, c: Card, a: Action)
    requires T.ValidRecord(r) && BookInv(s, b) && Enabled(s, a) && CardInv(r, s, b.log, c)
    ensures CardInv(r, Next(s, a), BookNext(s, b, a).log, CardNext(r, s, c, a))
  {
    hide Inv, ThreadsOk, Agrees, MainEnabled, MainNext, MainEvent, CardInv;
    match a
    case MainStep => MainCardStep(r, s, b.log, c);
    case Finish(t) => FinishCardStep(r, s, b, c, t);
    case _ => OtherCardStep(r, s, b.log, c, a);
  }

  lemma OtherCardStep(r: T.Record, s: State, h: seq<Happening>, c: Card, a: Action)
    requires T.ValidRecord(r) && Inv(s) && Enabled(s, a) && CardInv(r, s, h, c) && a != MainStep && !a.Finish?
    ensures CardInv(r, Next(s, a), h, CardNext(r, s, c, a))
  {
    hide Inv, Answers, View;
    StepHandsOn(s, a);
  }

  lemma {:induction false} CardRunInv(r: T.Record, s: State, b: Book, c: Card, acts: seq<Action>)
    requires T.ValidRecord(r) && BookInv(s, b) && ValidRun(s, acts) && CardInv(r, s, b.log, c)
    ensures CardInv(r, Run(s, acts), BookRun(s, b, acts).log, CardRun(r, s, c, acts))
    ensures BookInv(Run(s, acts), BookRun(s, b, acts))
    decreases |acts|
  {
    hide BookInv, Enabled, Next, CardInv, CardNext, BookNext;
    if acts != [] {
      BookStep(s, b, acts[0]);
      CardStep(r, s, b, c, acts[0]);
      CardRunInv(r, Next(s, acts[0]), BookNext(s, b, acts[0]), CardNext(r, s, c, acts[0]), acts[1..]);
    }
  }

  /** Over every run: the answers sent, with the one about to be sent, are those that the emulator's
      specification gives to the activations and APDUs of the history. */
  lemma SentIsSpecified(mode: Mode, r: T.Record, acts: seq<Action>)
    requires T.ValidRecord(r) && ValidRun(Init(mode), acts)
    ensures var s, c := Run(Init(mode), acts), CardRun(r, Init(mode), CARD, acts);
            && Answers(r, View(History(mode, acts))) == c.sent + (if s.pc == HceSend then [c.rsp] else [])
            && c.emu == T.StateAt(r, View(History(mode, acts)), |View(History(mode, acts))|)
            && s.sh.given == GivenOf(History(mode, acts))
  {
    hide Run, CardRun, ValidRun, BookRun, Inv, ThreadsOk;
    InitBook(mode);
    CardRunInv(r, Init(mode), BOOK, CARD, acts);
  }

  // ---------------------------------------------------------------- the k-th answer

  /** The answer to the APDU handed on at step `n` of a history comes after those to the earlier ones. */
  lemma {:induction false} AnswerAt(r: T.Record, h: seq<Happening>, n: nat)
    requires T.ValidRecord(r) && n < |h| && h[n].Given?
    ensures var v, k := View(h[..n]), |GivenOf(h[..n])|;
            && k < |Answers(r, View(h))| == |GivenOf(h)| && GivenOf(h)[k] == h[n].apdu
            && Answers(r, View(h))[k] == T.Answer(T.StateAt(r, v, |v|), r, h[n].apdu)
    decreases |h|
  {
    hide View, Answers, GivenOf, T.Answer, T.StateAt;
    var g, x := h[..|h| - 1], h[|h| - 1];
    assert h == g + [x];
    AnswersGrow(r, g, x);
    SameCount(r, g);
    SameCount(r, h);
    if n < |g| {
      AnswerAt(r, g, n);
      assert g[..n] == h[..n];
    } else {
      assert h[..n] == g;
    }
  }

  lemma AnswersGrow(r: T.Record, g: seq<Happening>, x: Happening)
    requires T.ValidRecord(r)
    ensures Answers(r, View(g + [x])) ==
            Answers(r, View(g)) + (if x.Given? then [T.Answer(T.StateAt(r, View(g), |View(g)|), r, x.apdu)] else [])
    ensures GivenOf(g + [x]) == GivenOf(g) + if x.Given? then [x.apdu] else []
  {
    hide View, Answers, T.Answer, T.StateAt;
    ApdusSnoc(g, x);
    ViewSnoc(g, x);
    if x.Given? {
      TraceSnoc(r, View(g), T.Apdu(x.apdu));
    } else if x == Ran(HceActivated, 0) {
      TraceSnoc(r, View(g), T.Activated);
    } else {
      SameView(g, x);
    }
  }

  lemma {:induction false} SameCount(r: T.Record, h: seq<Happening>)
    requires T.ValidRecord(r)
    ensures |Answers(r, View(h))| == |GivenOf(h)|
  {
    hide View, Answers, GivenOf, T.Answer, T.StateAt;
    if h == [] {
      NothingGiven(r);
    } else {
      SameCount(r, h[..|h| - 1]);
      AnswersGrow(r, h[..|h| - 1], h[|h| - 1]);
      assert h == h[..|h| - 1] + [h[|h| - 1]];
    }
  }

  lemma NothingGiven(r: T.Record)
    requires T.ValidRecord(r)
    ensures Answers(r, View([])) == [] && GivenOf([]) == []
  {}

  /** In every run the answer to an APDU handed on at step `n` of the history is the emulator's answer
      in the state that the earlier activations and APDUs have led to. It is sent after exactly the
      answers to the earlier APDUs, and every APDU handed on is a received one. */
  lemma KthAnswerSent(mode: Mode, r: T.Record, acts: seq<Action>, n: nat)
    requires T.ValidRecord(r) && ValidRun(Init(mode), acts) && n < |History(mode, acts)|
    requires History(mode, acts)[n].Given?
    ensures var s, sent, h := Run(Init(mode), acts), CardRun(r, Init(mode), CARD, acts).sent, History(mode, acts);
            var v, k := View(h[..n]), |GivenOf(h[..n])|;
            && |sent| + (if s.pc == HceSend then 1 else 0) == |s.sh.given| && k < |s.sh.given| && s.sh.given[k] == h[n].apdu
            && (k < |sent| ==> sent[k] == T.Answer(T.StateAt(r, v, |v|), r, h[n].apdu))
            && h[n].apdu in s.sh.received
  {
    hide Run, CardRun, ValidRun, BookRun, Init, Answers, View, GivenOf, T.Answer, T.StateAt;
    var s, h := Run(Init(mode), acts), History(mode, acts);
    SentIsSpecified(mode, r, acts);
    AnswerAt(r, h, n);
    assert Reachable(mode, s);
    MailboxInOrder(mode, s);
    var k := |GivenOf(h[..n])|;
    assert s.sh.given[k] == s.sh.received[s.sh.givenAt[k]];
  }

  predicate Selects(cmd: Apdu) {
    T.KindOf(cmd) == T.AppSelect || T.KindOf(cmd) == T.CcSelect || T.KindOf(cmd) == T.NdefSelect
  }

  /** The activation at `m` has reset the emulator, and nothing was selected since. */
  ghost predicate JustActivated(h: seq<Happening>, m: nat, n: nat) {
    && m < n <= |h| && h[m] == Ran(HceActivated, 0)
    && forall j :: m < j < n && h[j].Given? ==> !Selects(h[j].apdu)
  }

  lemma {:induction false} ReadyAfterActivation(r: T.Record, h: seq<Happening>, m: nat, n: nat)
    requires T.ValidRecord(r) && JustActivated(h, m, n)
    ensures var v := View(h[..n]); T.StateAt(r, v, |v|) == T.Ready
    decreases n
  {
    hide View, T.StateAt, T.KindOf;
    var g, x := h[..n - 1], h[n - 1];
    assert h[..n] == g + [x];
    ViewSnoc(g, x);
    if x == Ran(HceActivated, 0) {
      TraceSnoc(r, View(g), T.Activated);
    } else {
      ReadyAfterActivation(r, h, m, n - 1);
      if x.Given? {
        TraceSnoc(r, View(g), T.Apdu(x.apdu));
        UnselectedStaysReady(r, x.apdu);
      } else {
        SameView(g, x);
      }
    }
  }

  lemma UnselectedStaysReady(r: T.Record, cmd: Apdu)
    requires !Selects(cmd)
    ensures T.NextState(T.Ready, r, cmd) == T.Ready
  {
    hide T.KindOf;
  }

  /** In every run, after an activation and until the next SELECT is handed on, every READ is
      answered 6A82. */
  lemma ReadRefusedAfterActivation(mode: Mode, r: T.Record, acts: seq<Action>, m: nat, n: nat)
    requires T.ValidRecord(r) && ValidRun(Init(mode), acts) && n < |History(mode, acts)|
    requires JustActivated(History(mode, acts), m, n)
    requires History(mode, acts)[n].Given? && T.KindOf(History(mode, acts)[n].apdu) == T.ReadBinary
    ensures var sent, k := CardRun(r, Init(mode), CARD, acts).sent, |GivenOf(History(mode, acts)[..n])|;
            k < |sent| ==> sent[k] == [0x6A, 0x82]
  {
    hide Run, CardRun, ValidRun, BookRun, Init, Answers, View, GivenOf, T.StateAt, T.KindOf, JustActivated;
    KthAnswerSent(mode, r, acts, n);
    ReadyAfterActivation(r, History(mode, acts), m, n);
  }

  // ---------------------------------------------------------------- what the reader gets

  /** Answers put together, status bytes removed. */
  function Payload(rsps: seq<T.Bytes>): T.Bytes {
    if rsps == [] then []
    else rsps[0][..if |rsps[0]| < 2 then 0 else |rsps[0]| - 2] + Payload(rsps[1..])
  }

  lemma {:induction false} AnswersToReads(r: T.Record, t: seq<T.Event>, offset: nat, lengths: seq<Byte>)
    returns (u: seq<T.Bytes>)
    requires T.ValidRecord(r) && T.Partition(r, offset, lengths) && T.StateAt(r, t, |t|) == T.NDEF_Selected
    ensures offset <= r.size + 2 && |u| == |lengths| && Payload(u) == T.NdefFile(r)[offset..]
    ensures Answers(r, t + T.Reads(r, offset, lengths)) == Answers(r, t) + u
    decreases |lengths|
  {
    hide Answers, T.StateAt, T.NdefFile, T.ReadCmd, T.Answer;
    var f := T.NdefFile(r);
    T.FileLength(r);
    if lengths == [] {
      u := [];
      assert t + T.Reads(r, offset, lengths) == t;
    } else {
      var n := lengths[0];
      var cmd := T.ReadCmd(offset, n);
      T.FirstRead(r, t, offset, lengths);
      TraceSnoc(r, t, T.Apdu(cmd));
      T.ReadAnswer(r, offset, n);
      var rsp := f[offset..offset + n] + T.OK;
      var v := AnswersToReads(r, t + [T.Apdu(cmd)], offset + n, lengths[1..]);
      u := [rsp] + v;
      assert u[1..] == v && rsp[..|rsp| - 2] == f[offset..offset + n];
      assert f[offset..] == f[offset..offset + n] + f[offset + n..];
    }
  }

  /** Once a reader has selected the NDEF file and read it through in consecutive pieces, whatever
      came before, the last answers the main loop sent carry exactly the file. */
  lemma ReaderGetsFile(mode: Mode, r: T.Record, acts: seq<Action>, t: seq<T.Event>, lengths: seq<Byte>)
    requires T.ValidRecord(r) && T.Partition(r, 0, lengths) && T.StateAt(r, t, |t|) == T.NDEF_Selected
    requires ValidRun(Init(mode), acts) && Run(Init(mode), acts).pc != HceSend
    requires View(History(mode, acts)) == t + T.Reads(r, 0, lengths)
    ensures var sent := CardRun(r, Init(mode), CARD, acts).sent;
            |lengths| <= |sent| && Payload(sent[|sent| - |lengths|..]) == T.NdefFile(r)
  {
    hide Run, CardRun, ValidRun, BookRun, Init, Answers, View, Payload, T.StateAt, T.Partition, T.Reads, T.NdefFile;
    SentIsSpecified(mode, r, acts);
    var u := AnswersToReads(r, t, 0, lengths);
    var c := CardRun(r, Init(mode), CARD, acts);
    assert c.sent == Answers(r, t) + u;
    assert c.sent[|c.sent| - |lengths|..] == u;
    assert T.NdefFile(r)[0..] == T.NdefFile(r);
  }
}
