/** The variables that the demo application's threads share, and the critical sections of its
    callbacks and of its exit thread. */
module DemoState {
  import opened Basics

  datatype Lock = DevLock | SnepLock | HceLock

  datatype DevState = DevNone | DevWaitArrival | DevPresent | DevWaitDeparture | DevDeparted | DevExit

  datatype DevType = TypeNone | TypeTag | TypeP2p | TypeReader

  datatype SnepState = SnepWaitOff | SnepOff | SnepWaitReady | SnepReady | SnepExit

  datatype HceState = HceNone | HceWaitData | HceDataReceived | HceExit

  type Apdu = seq<Byte>

  /** The shared variables; `received` lists every APDU delivered so far, `given` those handed to
      the tag emulator, `givenAt` their positions among the received ones. */
  datatype Shared = Shared(dev: DevState, devType: DevType, snep: SnepState, hce: HceState,
                           data: Option<Apdu>, received: seq<Apdu>, given: seq<Apdu>, givenAt: seq<nat>)

  const INITIAL := Shared(DevNone, TypeNone, SnepOff, HceNone, None, [], [], [])

  /** One critical section of a callback or of the exit thread. */
  datatype Section =
    | TagArrivalDev | TagDepartureDev
    | ArriveDev     // onDeviceArrival, onSnepClientReady
    | DepartDev     // onDeviceDeparture, onSnepClientClosed
    | ReadySnep | ClosedSnep
    | ActivatedDev | DeactivatedDev | DeactivatedHce | DataHce(apdu: Apdu)
    | ExitSnep | ExitDev

  function LockOf(sec: Section): Lock {
    match sec
    case ReadySnep | ClosedSnep | ExitSnep => SnepLock
    case DeactivatedHce | DataHce(_) => HceLock
    case _ => DevLock
  }

  predicate DevWaits(sh: Shared) { sh.dev == DevWaitArrival || sh.dev == DevWaitDeparture }

  predicate SnepWaits(sh: Shared) { sh.snep == SnepWaitOff || sh.snep == SnepWaitReady }

  /** An arrival makes the device present; after EXIT it makes it departed instead. */
  function Arrival(sh: Shared, t: DevType): Shared {
    if sh.dev == DevExit then sh.(dev := DevDeparted, devType := TypeNone)
    else sh.(dev := DevPresent, devType := t)
  }

  function Departure(sh: Shared): Shared {
    if sh.dev == DevWaitArrival || sh.dev == DevExit then sh
    else sh.(dev := DevDeparted, devType := TypeNone)
  }

  /** What a critical section does to the shared variables. */
  function Effect(sec: Section, sh: Shared): Shared {
    match sec
    case TagArrivalDev => Arrival(sh, TypeTag)
    case ActivatedDev => Arrival(sh, TypeReader)
    case TagDepartureDev | DeactivatedDev => Departure(sh)
    case ArriveDev => sh.(dev := if sh.dev == DevExit then DevExit else DevPresent, devType := TypeP2p)
    case DepartDev =>
      sh.(dev := if sh.dev == DevWaitDeparture || sh.dev == DevPresent then DevDeparted else sh.dev,
          devType := TypeNone)
    case ReadySnep => if sh.snep == SnepExit then sh else sh.(snep := SnepReady)
    case ClosedSnep => if sh.snep == SnepExit then sh else sh.(snep := SnepOff)
    case DeactivatedHce => if sh.hce == HceExit then sh else sh.(hce := HceNone)
    case DataHce(a) =>
      sh.(data := Some(a), received := sh.received + [a],
          hce := if sh.hce == HceNone || sh.hce == HceWaitData then HceDataReceived else sh.hce)
    case ExitSnep => sh.(snep := SnepExit)
    case ExitDev => sh.(dev := DevExit)
  }

  /** Whether it broadcasts on the condition of its lock. */
  predicate Notifies(sec: Section, sh: Shared) {
    match sec
    case TagArrivalDev | ActivatedDev => DevWaits(sh) || sh.dev == DevExit
    case TagDepartureDev | DeactivatedDev => sh.dev == DevWaitDeparture
    case ArriveDev | ExitDev => DevWaits(sh)
    case DepartDev => sh.dev == DevWaitDeparture
    case ReadySnep | ClosedSnep | ExitSnep => SnepWaits(sh)
    case DeactivatedHce | DataHce(_) => sh.hce == HceWaitData
  }

  datatype Callback =
    | TagArrival | TagDeparture | DeviceArrival | DeviceDeparture | SnepClientReady | SnepClientClosed
    | DataReceived(apdu: Apdu) | HceActivated | HceDeactivated

  /** The critical sections of a callback, in order. */
  function Program(cb: Callback): seq<Section> {
    match cb
    case TagArrival => [TagArrivalDev]
    case TagDeparture => [TagDepartureDev]
    case DeviceArrival => [ArriveDev]
    case DeviceDeparture => [DepartDev, ClosedSnep]
    case SnepClientReady => [ArriveDev, ReadySnep]
    case SnepClientClosed => [DepartDev, ClosedSnep]
    case DataReceived(a) => [DataHce(a)]
    case HceActivated => [ActivatedDev]
    case HceDeactivated => [DeactivatedDev, DeactivatedHce]
  }

  const EXIT_PROGRAM: seq<Section> := [ExitSnep, ExitDev]

  /** The sections run one after the other. */
  function Effects(secs: seq<Section>, sh: Shared): Shared {
    if secs == [] then sh else Effects(secs[1..], Effect(secs[0], sh))
  }

  function Broadcasts(secs: seq<Section>, sh: Shared): seq<Lock> {
    if secs == [] then []
    else (if Notifies(secs[0], sh) then [LockOf(secs[0])] else []) + Broadcasts(secs[1..], Effect(secs[0], sh))
  }

  lemma OneSection(a: Section, sh: Shared)
    ensures Effects([a], sh) == Effect(a, sh)
    ensures Broadcasts([a], sh) == if Notifies(a, sh) then [LockOf(a)] else []
  {
    assert [a][1..] == [];
  }

  lemma TwoSections(a: Section, b: Section, sh: Shared)
    ensures Effects([a, b], sh) == Effect(b, Effect(a, sh))
    ensures Broadcasts([a, b], sh) == (if Notifies(a, sh) then [LockOf(a)] else [])
                                      + (if Notifies(b, Effect(a, sh)) then [LockOf(b)] else [])
  {
    assert [a, b][1..] == [b];
    OneSection(b, Effect(a, sh));
  }

  // ---------------------------------------------------------------- the callbacks as programs

  /** The globals; `held` are the locks of the running thread, `log` its broadcasts. */
  class Globals {
    var sh: Shared
    var held: set<Lock>
    var log: seq<Lock>

    constructor ()
      ensures sh == INITIAL && held == {} && log == []
    {
      sh, held, log := INITIAL, {}, [];
    }

    method LockMutex(l: Lock)
      requires l !in held
      modifies this`held
      ensures held == old(held) + {l}
    {
      held := held + {l};
    }

    method UnlockMutex(l: Lock)
      requires l in held
      modifies this`held
      ensures held == old(held) - {l}
    {
      held := held - {l};
    }

    method NotifyMutex(l: Lock)
      requires l in held
      modifies this`log
      ensures log == old(log) + [l]
    {
      log := log + [l];
    }

    twostate predicate Performed(secs: seq<Section>)
      reads this
    {
      sh == Effects(secs, old(sh)) && held == old(held) == {} && log == old(log) + Broadcasts(secs, old(sh))
    }

    method OnDataReceived(data: Apdu)
      requires held == {}
      modifies this
      ensures Performed(Program(DataReceived(data)))
      ensures log == old(log) + if old(sh.hce) == HceWaitData then [HceLock] else []
    {
      OneSection(DataHce(data), sh);
      LockMutex(HceLock);
      sh := sh.(data := Some(data), received := sh.received + [data]);
      if HceNone == sh.hce {
        sh := sh.(hce := HceDataReceived);
      } else if HceWaitData == sh.hce {
        sh := sh.(hce := HceDataReceived);
        NotifyMutex(HceLock);
      }
      UnlockMutex(HceLock);
    }

    method OnHostCardEmulationActivated()
      requires held == {}
      modifies this
      ensures Performed(Program(HceActivated))
      ensures log == old(log) + if old(sh.dev) in {DevWaitArrival, DevWaitDeparture, DevExit} then [DevLock] else []
    {
      OneSection(ActivatedDev, sh);
      LockMutex(DevLock);
      if DevWaitArrival == sh.dev {
        sh := sh.(dev := DevPresent, devType := TypeReader);
        NotifyMutex(DevLock);
      } else if DevWaitDeparture == sh.dev {
        sh := sh.(dev := DevPresent, devType := TypeReader);
        NotifyMutex(DevLock);
      } else if DevExit == sh.dev {
        sh := sh.(dev := DevDeparted, devType := TypeNone);
        NotifyMutex(DevLock);
      } else {
        sh := sh.(dev := DevPresent, devType := TypeReader);
      }
      UnlockMutex(DevLock);
    }

    method OnHostCardEmulationDeactivated()
      requires held == {}
      modifies this
      ensures Performed(Program(HceDeactivated))
      ensures log == old(log) + (if old(sh.dev) == DevWaitDeparture then [DevLock] else [])
                                + if old(sh.hce) == HceWaitData then [HceLock] else []
    {
      TwoSections(DeactivatedDev, DeactivatedHce, sh);
      LockMutex(DevLock);
      if DevWaitDeparture == sh.dev {
        sh := sh.(dev := DevDeparted, devType := TypeNone);
        NotifyMutex(DevLock);
      } else if DevPresent == sh.dev {
        sh := sh.(dev := DevDeparted, devType := TypeNone);
      } else if DevWaitArrival == sh.dev {
      } else if DevExit == sh.dev {
      } else {
        sh := sh.(dev := DevDeparted, devType := TypeNone);
      }
      UnlockMutex(DevLock);
      LockMutex(HceLock);
      if HceWaitData == sh.hce {
        sh := sh.(hce := HceNone);
        NotifyMutex(HceLock);
      } else if HceExit == sh.hce {
      } else {
        sh := sh.(hce := HceNone);
      }
      UnlockMutex(HceLock);
    }

    method OnTagArrival()
      requires held == {}
      modifies this
      ensures Performed(Program(TagArrival))
      ensures log == old(log) + if old(sh.dev) in {DevWaitArrival, DevWaitDeparture, DevExit} then [DevLock] else []
    {
      OneSection(TagArrivalDev, sh);
      LockMutex(DevLock);
      if DevWaitArrival == sh.dev {
        sh := sh.(dev := DevPresent, devType := TypeTag);
        NotifyMutex(DevLock);
      } else if DevWaitDeparture == sh.dev {
        sh := sh.(dev := DevPresent, devType := TypeTag);
        NotifyMutex(DevLock);
      } else if DevExit == sh.dev {
        sh := sh.(dev := DevDeparted, devType := TypeNone);
        NotifyMutex(DevLock);
      } else {
        sh := sh.(dev := DevPresent, devType := TypeTag);
      }
      UnlockMutex(DevLock);
    }

    method OnTagDeparture()
      requires held == {}
      modifies this
      ensures Performed(Program(TagDeparture))
      ensures log == old(log) + if old(sh.dev) == DevWaitDeparture then [DevLock] else []
    {
      OneSection(TagDepartureDev, sh);
      LockMutex(DevLock);
      if DevWaitDeparture == sh.dev {
        sh := sh.(dev := DevDeparted, devType := TypeNone);
        NotifyMutex(DevLock);
      } else if DevWaitArrival == sh.dev {
      } else if DevExit == sh.dev {
      } else {
        sh := sh.(dev := DevDeparted, devType := TypeNone);
      }
      UnlockMutex(DevLock);
    }

    /** The device switch shared by onDeviceArrival and onSnepClientReady. */
    method ArriveSwitch()
      requires held == {DevLock}
      modifies this`sh, this`log
      ensures sh == Effect(ArriveDev, old(sh))
      ensures log == old(log) + if Notifies(ArriveDev, old(sh)) then [DevLock] else []
    {
      match sh.dev {
        case DevWaitDeparture => sh := sh.(dev := DevPresent, devType := TypeP2p); NotifyMutex(DevLock);
        case DevExit => sh := sh.(devType := TypeP2p);
        case DevNone => sh := sh.(dev := DevPresent, devType := TypeP2p);
        case DevWaitArrival => sh := sh.(dev := DevPresent, devType := TypeP2p); NotifyMutex(DevLock);
        case DevPresent => sh := sh.(devType := TypeP2p);
        case DevDeparted => sh := sh.(devType := TypeP2p); sh := sh.(dev := DevPresent);
      }
    }

    /** The device switch shared by onDeviceDeparture and onSnepClientClosed. */
    method DepartSwitch()
      requires held == {DevLock}
      modifies this`sh, this`log
      ensures sh == Effect(DepartDev, old(sh))
      ensures log == old(log) + if Notifies(DepartDev, old(sh)) then [DevLock] else []
    {
      match sh.dev {
        case DevWaitDeparture => sh := sh.(dev := DevDeparted, devType := TypeNone); NotifyMutex(DevLock);
        case DevExit => sh := sh.(devType := TypeNone);
        case DevNone => sh := sh.(devType := TypeNone);
        case DevWaitArrival => sh := sh.(devType := TypeNone);
        case DevPresent => sh := sh.(devType := TypeNone); sh := sh.(dev := DevDeparted);
        case DevDeparted => sh := sh.(devType := TypeNone);
      }
    }

    /** The SNEP switch of the two departure callbacks. */
    method ClosedSwitch()
      requires held == {SnepLock}
      modifies this`sh, this`log
      ensures sh == Effect(ClosedSnep, old(sh))
      ensures log == old(log) + if Notifies(ClosedSnep, old(sh)) then [SnepLock] else []
    {
      match sh.snep {
        case SnepWaitOff => sh := sh.(snep := SnepOff); NotifyMutex(SnepLock);
        case SnepOff =>
        case SnepWaitReady => sh := sh.(snep := SnepOff); NotifyMutex(SnepLock);
        case SnepReady => sh := sh.(snep := SnepOff);
        case SnepExit =>
      }
    }

    method OnDeviceArrival()
      requires held == {}
      modifies this
      ensures Performed(Program(DeviceArrival))
      ensures log == old(log) + if old(sh.dev) in {DevWaitArrival, DevWaitDeparture} then [DevLock] else []
    {
      OneSection(ArriveDev, sh);
      LockMutex(DevLock);
      ArriveSwitch();
      UnlockMutex(DevLock);
    }

    method OnDeviceDeparture()
      requires held == {}
      modifies this
      ensures Performed(Program(DeviceDeparture))
      ensures log == old(log) + (if old(sh.dev) == DevWaitDeparture then [DevLock] else [])
                                + if old(sh.snep) in {SnepWaitOff, SnepWaitReady} then [SnepLock] else []
    {
      TwoSections(DepartDev, ClosedSnep, sh);
      LockMutex(DevLock);
      DepartSwitch();
      UnlockMutex(DevLock);
      LockMutex(SnepLock);
      ClosedSwitch();
      UnlockMutex(SnepLock);
    }

    method OnSnepClientReady()
      requires held == {}
      modifies this
      ensures Performed(Program(SnepClientReady))
      ensures log == old(log) + (if old(sh.dev) in {DevWaitArrival, DevWaitDeparture} then [DevLock] else [])
                                + if old(sh.snep) in {SnepWaitOff, SnepWaitReady} then [SnepLock] else []
    {
      TwoSections(ArriveDev, ReadySnep, sh);
      LockMutex(DevLock);
      ArriveSwitch();
      UnlockMutex(DevLock);
      LockMutex(SnepLock);
      match sh.snep {
        case SnepWaitOff => sh := sh.(snep := SnepReady); NotifyMutex(SnepLock);
        case SnepOff => sh := sh.(snep := SnepReady);
        case SnepWaitReady => sh := sh.(snep := SnepReady); NotifyMutex(SnepLock);
        case SnepReady =>
        case SnepExit =>
      }
      UnlockMutex(SnepLock);
    }

    method OnSnepClientClosed()
      requires held == {}
      modifies this
      ensures Performed(Program(SnepClientClosed))
      ensures log == old(log) + (if old(sh.dev) == DevWaitDeparture then [DevLock] else [])
                                + if old(sh.snep) in {SnepWaitOff, SnepWaitReady} then [SnepLock] else []
    {
      TwoSections(DepartDev, ClosedSnep, sh);
      LockMutex(DevLock);
      DepartSwitch();
      UnlockMutex(DevLock);
      LockMutex(SnepLock);
      ClosedSwitch();
      UnlockMutex(SnepLock);
    }

    /** ExitThread, once a key has been pressed. */
    method ExitThread()
      requires held == {}
      modifies this
      ensures Performed(EXIT_PROGRAM)
      ensures log == old(log) + (if old(sh.snep) in {SnepWaitOff, SnepWaitReady} then [SnepLock] else [])
                                + if old(sh.dev) in {DevWaitArrival, DevWaitDeparture} then [DevLock] else []
    {
      TwoSections(ExitSnep, ExitDev, sh);
      LockMutex(SnepLock);
      if SnepWaitOff == sh.snep || SnepWaitReady == sh.snep {
        sh := sh.(snep := SnepExit);
        NotifyMutex(SnepLock);
      } else {
        sh := sh.(snep := SnepExit);
      }
      UnlockMutex(SnepLock);
      LockMutex(DevLock);
      if DevWaitArrival == sh.dev || DevWaitDeparture == sh.dev {
        sh := sh.(dev := DevExit);
        NotifyMutex(DevLock);
      } else {
        sh := sh.(dev := DevExit);
      }
      UnlockMutex(DevLock);
    }
  }
}
