/** The Type 4 Tag emulator of the demo application: SELECT and READ BINARY commands
    (sections 7.1.1 and 7.2.3 of ISO/IEC 7816-4:2005) over a capability container and an NDEF file. */
module T4TEmulator {
  import opened Basics

  type Bytes = seq<Byte>

  const APP_SELECT: Bytes := [0x00, 0xA4, 0x04, 0x00, 0x07, 0xD2, 0x76, 0x00, 0x00, 0x85, 0x01, 0x01]
  const CC: Bytes := [0x00, 0x0F, 0x20, 0x00, 0xFF, 0x00, 0xFF, 0x04, 0x06, 0xE1, 0x04, 0x00, 0xFF, 0x00, 0xFF]
  const CC_SELECT: Bytes := [0x00, 0xA4, 0x00, 0x0C, 0x02, 0xE1, 0x03]
  const NDEF_SELECT: Bytes := [0x00, 0xA4, 0x00, 0x0C, 0x02, 0xE1, 0x04]
  const READ: Bytes := [0x00, 0xB0]
  const OK: Bytes := [0x90, 0x00]
  const NOK: Bytes := [0x6A, 0x82]

  datatype State = Ready | NDEF_Application_Selected | CC_Selected | NDEF_Selected

  datatype Kind = AppSelect | CcSelect | NdefSelect | ReadBinary | Other

  // ---------------------------------------------------------------- what one command means

  /** memcmp over the length of the pattern */
  predicate Matches(cmd: Bytes, pattern: Bytes) { pattern <= cmd }

  function KindOf(cmd: Bytes): Kind {
    if Matches(cmd, APP_SELECT) then AppSelect
    else if Matches(cmd, CC_SELECT) then CcSelect
    else if Matches(cmd, NDEF_SELECT) then NdefSelect
    else if Matches(cmd, READ) then ReadBinary
    else Other
  }

  /** No comparison runs past what can be read at the command pointer (the program ignores the
      length of the command): these bytes are no proper prefix of a pattern. */
  predicate Comparable(cmd: Bytes) {
    !(cmd < APP_SELECT) && !(cmd < CC_SELECT) && !(cmd < NDEF_SELECT) && !(cmd < READ)
  }

  /** The record the application set: a buffer, of which `size` bytes are the record proper. */
  datatype Record = Record(buffer: Bytes, size: nat, callback: bool)

  predicate ValidRecord(r: Record) { r.size <= |r.buffer| && r.size < 0x10000 }

  /** The NDEF file a reader sees: the size, big-endian, and the record. */
  function NdefFile(r: Record): Bytes
    requires ValidRecord(r)
  {
    [r.size / 256, r.size % 256] + r.buffer[..r.size]
  }

  /** The memory a READ can reach: the file and what follows the record in its buffer. */
  function Memory(r: Record): Bytes
    requires ValidRecord(r)
  {
    [r.size / 256, r.size % 256] + r.buffer
  }

  function At(cmd: Bytes, i: nat): Byte { if i < |cmd| then cmd[i] else 0 }

  function Offset(cmd: Bytes): nat { At(cmd, 2) * 256 + At(cmd, 3) }

  function Length(cmd: Bytes): Byte { At(cmd, 4) }

  predicate Guard(r: Record, cmd: Bytes) { Length(cmd) <= r.size + Offset(cmd) + 2 }

  function Slice(m: Bytes, offset: nat, length: nat): Bytes {
    m[Min(offset, |m|)..Min(offset + length, |m|)]
  }

  function NextState(s: State, r: Record, cmd: Bytes): State {
    match KindOf(cmd)
    case AppSelect => NDEF_Application_Selected
    case CcSelect => if s.NDEF_Application_Selected? then CC_Selected else Ready
    case NdefSelect => NDEF_Selected
    case ReadBinary => if s.CC_Selected? || (s.NDEF_Selected? && Guard(r, cmd)) then s else Ready
    case Other => Ready
  }

  /** The data of a successful answer. */
  function Data(s: State, r: Record, cmd: Bytes): Option<Bytes>
    requires ValidRecord(r)
  {
    match KindOf(cmd)
    case AppSelect => Some([])
    case CcSelect => if s.NDEF_Application_Selected? then Some([]) else None
    case NdefSelect => Some([])
    case ReadBinary =>
      if s.CC_Selected? then Some(CC)
      else if s.NDEF_Selected? && Guard(r, cmd) then Some(Slice(Memory(r), Offset(cmd), Length(cmd)))
      else None
    case Other => None
  }

  function Answer(s: State, r: Record, cmd: Bytes): Bytes
    requires ValidRecord(r)
  {
    match Data(s, r, cmd)
    case Some(data) => data + OK
    case None => NOK
  }

  /** Whether the command makes the emulator report that the whole record was sent. */
  predicate Pushes(s: State, r: Record, cmd: Bytes) {
    && KindOf(cmd) == ReadBinary && s.NDEF_Selected? && Guard(r, cmd)
    && r.callback && Offset(cmd) + Length(cmd) >= r.size + 2
  }

  /** A READ of the NDEF file that stays inside the buffer and whose copy lengths are not negative. */
  predicate InRange(r: Record, offset: nat, length: nat) {
    offset + length <= |r.buffer| + 2 && (offset == 0 ==> length >= 2) && (offset == 1 ==> length >= 1)
  }

  // ---------------------------------------------------------------- the constants

  /** A SELECT command (section 7.1.1 of ISO/IEC 7816-4:2005). */
  function Select(p1: Byte, p2: Byte, data: Bytes): Bytes
    requires |data| < 256
  {
    [0x00, 0xA4, p1, p2, |data|] + data
  }

  /** The three SELECT commands name the NDEF application, the CC file and the NDEF file; the CC file
      gives its own length, and names the same NDEF file, open to reading and closed to writing. */
  lemma ConstantsAgree()
    ensures APP_SELECT == Select(0x04, 0x00, [0xD2, 0x76, 0x00, 0x00, 0x85, 0x01, 0x01])
    ensures CC_SELECT == Select(0x00, 0x0C, [0xE1, 0x03]) && NDEF_SELECT == Select(0x00, 0x0C, [0xE1, 0x04])
    ensures READ == [0x00, 0xB0] && OK == [0x90, 0x00] && NOK == [0x6A, 0x82]
    ensures CC[0] * 256 + CC[1] == |CC| && CC[7] == 0x04 && CC[8] == 6 && CC[9..11] == NDEF_SELECT[5..7]
    ensures CC[2] == 0x20 && CC[3..5] == CC[5..7] == CC[11..13] == [0x00, 0xFF] && CC[13] == 0x00 && CC[14] == 0xFF
  {}

  // ---------------------------------------------------------------- the emulator

  /** memcpy */
  method Copy(dst: array<Byte>, at: nat, src: Bytes, from: nat, count: nat)
    requires at + count <= dst.Length && from + count <= |src|
    modifies dst
    ensures dst[..at] == old(dst[..at])
    ensures dst[at..at + count] == src[from..from + count]
    ensures dst[at + count..] == old(dst[at + count..])
  {
    for i := 0 to count
      invariant dst[..at] == old(dst[..at])
      invariant dst[at..at + i] == src[from..from + i]
      invariant dst[at + i..] == old(dst[at + i..])
    {
      dst[at + i] := src[from + i];
      assert dst[at..at + i + 1] == dst[at..at + i] + [src[from + i]];
    }
  }

  lemma MemorySlice(r: Record, from: nat, to: nat)
    requires ValidRecord(r) && 2 <= from <= to <= |r.buffer| + 2
    ensures Memory(r)[from..to] == r.buffer[from - 2..to - 2]
  {}

  lemma MemoryHead(r: Record)
    requires ValidRecord(r)
    ensures |Memory(r)| == |r.buffer| + 2 && Memory(r)[..2] == [r.size / 256, r.size % 256]
    ensures Memory(r)[1..2] == [r.size % 256]
  {}

  lemma Join(a: Bytes, n: nat, b: Bytes, k: nat)
    requires k <= n <= |a| && |b| == n && a[..k] == b[..k] && a[k..n] == b[k..]
    ensures a[..n] == b
  {
    assert a[..n] == a[..k] + a[k..n] && b == b[..k] + b[k..];
  }

  class Emulator {
    var state: State
    var record: Record
    var pushed: seq<(Bytes, nat)>  // the calls of the application's callback

    constructor ()
      ensures state == Ready && ValidRecord(record) && pushed == []
    {
      state := Ready;
      record := Record([], 0, false);
      pushed := [];
    }

    method SetRecord(buffer: Bytes, size: nat, callback: bool)
      requires size <= |buffer| && size < 0x10000
      modifies this`record
      ensures record == Record(buffer, size, callback) && ValidRecord(record)
    {
      record := Record(buffer, size, callback);
    }

    method Reset()
      modifies this`state
      ensures state == Ready
    {
      state := Ready;
    }

    method FillRsp(rsp: array<Byte>, offset: nat, length: nat)
      requires ValidRecord(record) && InRange(record, offset, length) && length <= rsp.Length
      modifies this`pushed, rsp
      ensures rsp[..length] == Memory(record)[offset..offset + length]
      ensures rsp[length..] == old(rsp[length..])
      ensures pushed == old(pushed) + if record.callback && offset + length >= record.size + 2
                                      then [(record.buffer, record.size)] else []
    {
      hide Memory;
      ghost var m := Memory(record);
      MemoryHead(record);
      if offset == 0 {
        rsp[0] := record.size / 256;
        rsp[1] := record.size % 256;
        assert rsp[..2] == m[..2];
        Copy(rsp, 2, record.buffer, 0, length - 2);
        MemorySlice(record, 2, length);
        assert m[..length][..2] == m[..2] && m[..length][2..] == m[2..length];
        Join(rsp[..], length, m[..length], 2);
      } else if offset == 1 {
        rsp[0] := record.size % 256;
        assert rsp[..1] == m[1..2];
        Copy(rsp, 1, record.buffer, 0, length - 1);
        MemorySlice(record, 2, length + 1);
        assert m[1..length + 1][..1] == m[1..2] && m[1..length + 1][1..] == m[2..length + 1];
        Join(rsp[..], length, m[1..length + 1], 1);
      } else {
        Copy(rsp, 0, record.buffer, offset - 2, length);
        MemorySlice(record, offset, offset + length);
      }
      if offset + length >= record.size + 2 {
        if record.callback { pushed := pushed + [(record.buffer, record.size)]; }
      }
    }

    /** One command; the answer is the first `rspSize` bytes of `rsp`, the memory from the response
        buffer on: the program does not compare the length of a read with the size of the buffer. */
    method Next(cmd: Bytes, rsp: array<Byte>) returns (rspSize: nat)
      requires ValidRecord(record) && Comparable(cmd) && rsp.Length >= |CC| + |OK|
      requires KindOf(cmd) == ReadBinary && state == NDEF_Selected ==>
                 && |cmd| >= 5
                 && (Guard(record, cmd) ==> InRange(record, Offset(cmd), Length(cmd)) && Length(cmd) + |OK| <= rsp.Length)
      modifies this`state, this`pushed, rsp
      ensures state == NextState(old(state), record, cmd)
      ensures rspSize <= rsp.Length && rsp[..rspSize] == Answer(old(state), record, cmd)
      ensures rsp[rspSize..] == old(rsp[rspSize..])
      ensures pushed == old(pushed) + if Pushes(old(state), record, cmd) then [(record.buffer, record.size)] else []
    {
      var eStatus;
      rspSize, eStatus := Execute(cmd, rsp);
      rspSize := Conclude(rsp, rspSize, eStatus);
    }

    /** The comparisons and the state change. */
    method Execute(cmd: Bytes, rsp: array<Byte>) returns (size: nat, eStatus: bool)
      requires ValidRecord(record) && rsp.Length >= |CC| + |OK|
      requires KindOf(cmd) == ReadBinary && state == NDEF_Selected ==>
                 && |cmd| >= 5
                 && (Guard(record, cmd) ==> InRange(record, Offset(cmd), Length(cmd)) && Length(cmd) + |OK| <= rsp.Length)
      modifies this`state, this`pushed, rsp
      ensures eStatus == Data(old(state), record, cmd).Some?
      ensures size + |OK| <= rsp.Length && rsp[size..] == old(rsp[size..])
      ensures if eStatus then rsp[..size] == Data(old(state), record, cmd).value else size == 0
      ensures state == if eStatus then NextState(old(state), record, cmd) else old(state)
      ensures pushed == old(pushed) + if Pushes(old(state), record, cmd) then [(record.buffer, record.size)] else []
    {
      hide Matches;
      eStatus, size := false, 0;
      if Matches(cmd, APP_SELECT) {
        eStatus := true;
        state := NDEF_Application_Selected;
      } else if Matches(cmd, CC_SELECT) {
        if state == NDEF_Application_Selected {
          eStatus := true;
          state := CC_Selected;
        }
      } else if Matches(cmd, NDEF_SELECT) {
        eStatus := true;
        state := NDEF_Selected;
      } else if Matches(cmd, READ) {
        if state == CC_Selected {
          Copy(rsp, 0, CC, 0, |CC|);
          size := |CC|;
          eStatus := true;
        } else if state == NDEF_Selected {
          var high: nat, low: nat, length := cmd[2], cmd[3], cmd[4];
          var offset := high * 256 + low;
          if length <= record.size + offset + 2 {
            FillRsp(rsp, offset, length);
            size := length;
            eStatus := true;
          }
        }
      }
    }

    /** The status bytes, and the reset on failure. */
    method Conclude(rsp: array<Byte>, size: nat, eStatus: bool) returns (rspSize: nat)
      requires size + |OK| <= rsp.Length
      modifies this`state, rsp
      ensures state == if eStatus then old(state) else Ready
      ensures rspSize == if eStatus then size + |OK| else |NOK|
      ensures rsp[..rspSize] == if eStatus then old(rsp[..size]) + OK else NOK
      ensures rsp[rspSize..] == old(rsp[rspSize..])
    {
      if eStatus {
        Copy(rsp, size, OK, 0, |OK|);
        rspSize := size + |OK|;
        assert rsp[..rspSize] == rsp[..size] + rsp[size..rspSize];
      } else {
        Copy(rsp, 0, NOK, 0, |NOK|);
        rspSize := |NOK|;
        Reset();
      }
    }
  }

  // ---------------------------------------------------------------- whole traces

  /** A command, or the reset when a reader activates the card. */
  datatype Event = Apdu(cmd: Bytes) | Activated

  function StateAt(r: Record, t: seq<Event>, k: nat): State
    requires k <= |t|
  {
    if k == 0 then Ready
    else match t[k - 1]
      case Apdu(cmd) => NextState(StateAt(r, t, k - 1), r, cmd)
      case Activated => Ready
  }

  predicate Is(e: Event, k: Kind) { e.Apdu? && KindOf(e.cmd) == k }

  ghost predicate CcSessionFrom(t: seq<Event>, j: nat, k: nat) {
    && j + 2 <= k <= |t| && Is(t[j], AppSelect) && Is(t[j + 1], CcSelect)
    && forall i :: j + 2 <= i < k ==> Is(t[i], ReadBinary)
  }

  /** The last commands before step `k`: application select, CC select, then only reads. */
  ghost predicate CcSession(t: seq<Event>, k: nat) {
    exists j: nat :: CcSessionFrom(t, j, k)
  }

  ghost predicate NdefSessionFrom(r: Record, t: seq<Event>, j: nat, k: nat) {
    && j < k <= |t| && Is(t[j], NdefSelect)
    && forall i :: j < i < k ==> Is(t[i], ReadBinary) && Guard(r, t[i].cmd)
  }

  /** The last commands before step `k`: NDEF select, then only reads that passed the length guard. */
  ghost predicate NdefSession(r: Record, t: seq<Event>, k: nat) {
    exists j: nat :: NdefSessionFrom(r, t, j, k)
  }

  /** The state is exactly what the recent history says. */
  lemma {:induction false} StateIsHistory(r: Record, t: seq<Event>, k: nat)
    requires k <= |t|
    ensures StateAt(r, t, k).NDEF_Application_Selected? <==> k > 0 && Is(t[k - 1], AppSelect)
    ensures StateAt(r, t, k).CC_Selected? <==> CcSession(t, k)
    ensures StateAt(r, t, k).NDEF_Selected? <==> NdefSession(r, t, k)
  {
    if k > 0 {
      StateIsHistory(r, t, k - 1);
      CcStep(t, k);
      NdefStep(r, t, k);
    }
  }

  lemma CcStep(t: seq<Event>, k: nat)
    requires 0 < k <= |t|
    ensures CcSession(t, k) <==>
            || (k >= 2 && Is(t[k - 2], AppSelect) && Is(t[k - 1], CcSelect))
            || (CcSession(t, k - 1) && Is(t[k - 1], ReadBinary))
  {
    if CcSession(t, k) {
      var j: nat :| CcSessionFrom(t, j, k);
      if j + 2 < k { assert CcSessionFrom(t, j, k - 1); }
    }
    if k >= 2 && Is(t[k - 2], AppSelect) && Is(t[k - 1], CcSelect) {
      assert CcSessionFrom(t, k - 2, k);
    }
    if CcSession(t, k - 1) && Is(t[k - 1], ReadBinary) {
      var j: nat :| CcSessionFrom(t, j, k - 1);
      assert CcSessionFrom(t, j, k);
    }
  }

  lemma NdefStep(r: Record, t: seq<Event>, k: nat)
    requires 0 < k <= |t|
    ensures NdefSession(r, t, k) <==>
            || Is(t[k - 1], NdefSelect)
            || (NdefSession(r, t, k - 1) && Is(t[k - 1], ReadBinary) && Guard(r, t[k - 1].cmd))
  {
    if NdefSession(r, t, k) {
      var j: nat :| NdefSessionFrom(r, t, j, k);
      if j < k - 1 { assert NdefSessionFrom(r, t, j, k - 1); }
    }
    if Is(t[k - 1], NdefSelect) {
      assert NdefSessionFrom(r, t, k - 1, k);
    }
    if NdefSession(r, t, k - 1) && Is(t[k - 1], ReadBinary) && Guard(r, t[k - 1].cmd) {
      var j: nat :| NdefSessionFrom(r, t, j, k - 1);
      assert NdefSessionFrom(r, t, j, k);
    }
  }

  /** Every answer of every trace, from the history alone. */
  lemma AnswerIsHistory(r: Record, t: seq<Event>, k: nat)
    requires ValidRecord(r) && k < |t| && t[k].Apdu?
    ensures var cmd := t[k].cmd; var rsp := Answer(StateAt(r, t, k), r, cmd);
            match KindOf(cmd)
            case AppSelect => rsp == OK
            case NdefSelect => rsp == OK
            case CcSelect => rsp == if k > 0 && Is(t[k - 1], AppSelect) then OK else NOK
            case ReadBinary =>
              rsp == if CcSession(t, k) then CC + OK
                     else if NdefSession(r, t, k) && Guard(r, cmd)
                     then Slice(Memory(r), Offset(cmd), Length(cmd)) + OK
                     else NOK
            case Other => rsp == NOK
    ensures Answer(StateAt(r, t, k), r, t[k].cmd) == NOK ==> StateAt(r, t, k + 1) == Ready
  {
    StateIsHistory(r, t, k);
    var rsp := Answer(StateAt(r, t, k), r, t[k].cmd);
    if rsp == NOK {
      assert rsp[|rsp| - 1] != 0x00;
    }
  }

  // ---------------------------------------------------------------- reassembly

  function ReadCmd(offset: nat, length: Byte): Bytes
    requires offset < 0x10000
  {
    [0x00, 0xB0, offset / 256, offset % 256, length]
  }

  lemma ReadCmdParses(offset: nat, length: Byte)
    requires offset < 0x10000
    ensures var c := ReadCmd(offset, length);
            KindOf(c) == ReadBinary && Comparable(c) && Offset(c) == offset && Length(c) == length
  {
    var c := ReadCmd(offset, length);
    assert c[1] != APP_SELECT[1] && c[1] != CC_SELECT[1] && c[1] != NDEF_SELECT[1];
    assert READ == c[..2];
  }

  /** Reads of the given lengths, one after the other from `offset`, that end exactly at the end of the file. */
  predicate Partition(r: Record, offset: nat, lengths: seq<Byte>)
    decreases |lengths|
  {
    if lengths == [] then offset == r.size + 2
    else && offset < 0x10000 && lengths[0] > 0 && (offset == 0 ==> lengths[0] >= 2)
         && offset + lengths[0] <= r.size + 2
         && Partition(r, offset + lengths[0], lengths[1..])
  }

  function Reads(r: Record, offset: nat, lengths: seq<Byte>): seq<Event>
    requires Partition(r, offset, lengths)
    decreases |lengths|
  {
    if lengths == [] then []
    else [Apdu(ReadCmd(offset, lengths[0]))] + Reads(r, offset + lengths[0], lengths[1..])
  }

  /** A READ inside the precondition of the emulator, answered with success within `room` bytes,
      that keeps the file selected. */
  predicate Served(r: Record, e: Event, room: nat)
    requires ValidRecord(r)
  {
    && Is(e, ReadBinary) && Comparable(e.cmd) && |e.cmd| >= 5 && Guard(r, e.cmd)
    && InRange(r, Offset(e.cmd), Length(e.cmd)) && NextState(NDEF_Selected, r, e.cmd) == NDEF_Selected
    && |Answer(NDEF_Selected, r, e.cmd)| <= room
  }

  /** The size of the response buffer of the main loop. */
  const RESPONSE_ROOM: nat := 255

  /** The only answers that run past the response buffer are those to reads of 254 and 255 bytes
      that pass the length guard; the capability container advertises reads of up to 255. */
  lemma AnswerFitsIff(s: State, r: Record, cmd: Bytes)
    requires ValidRecord(r)
    requires KindOf(cmd) == ReadBinary && s.NDEF_Selected? && Guard(r, cmd) ==> InRange(r, Offset(cmd), Length(cmd))
    ensures |Answer(s, r, cmd)| <= RESPONSE_ROOM <==>
            !(KindOf(cmd) == ReadBinary && s.NDEF_Selected? && Guard(r, cmd) && Length(cmd) >= 254)
    ensures CC[3..5] == [0, 255]
  {
    if KindOf(cmd) == ReadBinary && s.NDEF_Selected? && Guard(r, cmd) {
      assert |Slice(Memory(r), Offset(cmd), Length(cmd))| == Length(cmd);
    }
  }

  /** With the NDEF file selected a READ is refused if and only if its length exceeds the record's size
      plus its offset plus two; it reports the record as sent if and only if it is answered, a
      callback is set, and it reaches the end of the file. */
  lemma ReadRefusedIff(r: Record, offset: nat, n: Byte)
    requires ValidRecord(r) && offset < 0x10000
    ensures Answer(NDEF_Selected, r, ReadCmd(offset, n)) == [0x6A, 0x82] <==> n > r.size + offset + 2
    ensures n > r.size + offset + 2 ==> NextState(NDEF_Selected, r, ReadCmd(offset, n)) == Ready
    ensures Pushes(NDEF_Selected, r, ReadCmd(offset, n))
            <==> n <= r.size + offset + 2 && r.callback && offset + n >= r.size + 2
  {
    hide ReadCmd;
    ReadCmdParses(offset, n);
    if n <= r.size + offset + 2 {
      var rsp := Slice(Memory(r), offset, n) + OK;
      assert rsp[|rsp| - 1] == 0x00 && NOK[1] == 0x82;
    }
  }

  /** Such an answer is two commands away: the file is selected, and then 254 bytes are read. */
  lemma LongReadOverrunsBuffer(r: Record)
    requires ValidRecord(r) && r.size >= 252
    ensures var t := [Apdu(NDEF_SELECT), Apdu(ReadCmd(0, 254))];
            var rsp := Answer(StateAt(r, t, 1), r, t[1].cmd);
            InRange(r, 0, 254) && rsp == NdefFile(r)[..254] + OK && |rsp| > RESPONSE_ROOM
  {
    var t := [Apdu(NDEF_SELECT), Apdu(ReadCmd(0, 254))];
    assert StateAt(r, t, 0) == Ready;
    assert KindOf(NDEF_SELECT) == NdefSelect by {
      assert NDEF_SELECT[2] != APP_SELECT[2] && NDEF_SELECT[6] != CC_SELECT[6];
    }
    assert StateAt(r, t, 1) == NDEF_Selected;
    ReadAnswer(r, 0, 254);
  }

  lemma ReadAnswer(r: Record, offset: nat, n: Byte)
    requires ValidRecord(r) && offset < 0x10000 && 0 < n && offset + n <= r.size + 2
    ensures Answer(NDEF_Selected, r, ReadCmd(offset, n)) == NdefFile(r)[offset..offset + n] + OK
  {
    ReadCmdParses(offset, n);
    assert NdefFile(r) == Memory(r)[..r.size + 2];
  }

  lemma {:induction false} StatePrefix(r: Record, t: seq<Event>, u: seq<Event>, k: nat)
    requires k <= |t|
    ensures StateAt(r, t + u, k) == StateAt(r, t, k)
  {
    if k > 0 { StatePrefix(r, t, u, k - 1); }
  }

  /** The data of the answer at step `k` of a trace, status bytes removed. */
  function ChunkAt(r: Record, t: seq<Event>, k: nat): Bytes
    requires ValidRecord(r) && k < |t|
  {
    match t[k]
    case Activated => []
    case Apdu(cmd) =>
      var rsp := Answer(StateAt(r, t, k), r, cmd);
      rsp[..if |rsp| < 2 then 0 else |rsp| - 2]
  }

  function ChunksFrom(r: Record, t: seq<Event>, k: nat): Bytes
    requires ValidRecord(r) && k <= |t|
    decreases |t| - k
  {
    if k == |t| then [] else ChunkAt(r, t, k) + ChunksFrom(r, t, k + 1)
  }

  /** Whether the record is reported as sent at step `k` of a trace. */
  predicate PushAt(r: Record, t: seq<Event>, k: nat)
    requires k < |t|
  {
    t[k].Apdu? && Pushes(StateAt(r, t, k), r, t[k].cmd)
  }

  /** The first read of a partition, after any trace that left the NDEF file selected. */
  lemma FirstRead(r: Record, t: seq<Event>, offset: nat, lengths: seq<Byte>)
    requires Partition(r, offset, lengths) && lengths != [] && StateAt(r, t, |t|) == NDEF_Selected
    ensures var e := Apdu(ReadCmd(offset, lengths[0]));
            var w := t + Reads(r, offset, lengths);
            && w == t + [e] + Reads(r, offset + lengths[0], lengths[1..])
            && StateAt(r, w, |t|) == StateAt(r, t + [e], |t + [e]|) == NDEF_Selected
  {
    var n := lengths[0];
    var e := Apdu(ReadCmd(offset, n));
    ReadCmdParses(offset, n);
    assert t + Reads(r, offset, lengths) == t + [e] + Reads(r, offset + n, lengths[1..]);
    StatePrefix(r, t, Reads(r, offset, lengths), |t|);
    StatePrefix(r, t, [e], |t|);
  }

  /** After any trace that left the NDEF file selected, and whatever the chunk sizes, the chunks put
      together are the rest of the file, and the file stays selected. */
  lemma {:induction false} PartitionReassembles(r: Record, t: seq<Event>, offset: nat, lengths: seq<Byte>)
    requires ValidRecord(r) && Partition(r, offset, lengths) && StateAt(r, t, |t|) == NDEF_Selected
    ensures var w := t + Reads(r, offset, lengths);
            && offset <= r.size + 2 && ChunksFrom(r, w, |t|) == NdefFile(r)[offset..]
            && StateAt(r, w, |w|) == NDEF_Selected
    decreases |lengths|
  {
    hide StateAt, ChunkAt, ReadCmd, NdefFile;
    var w := t + Reads(r, offset, lengths);
    FileLength(r);
    if lengths == [] {
      assert w == t;
    } else {
      var n, f := lengths[0], NdefFile(r);
      FirstRead(r, t, offset, lengths);
      PartitionReassembles(r, t + [Apdu(ReadCmd(offset, n))], offset + n, lengths[1..]);
      ReadChunk(r, w, |t|, offset, n);
      assert f[offset..] == f[offset..offset + n] + f[offset + n..];
    }
  }

  lemma FileLength(r: Record)
    requires ValidRecord(r)
    ensures |NdefFile(r)| == r.size + 2
  {}

  lemma ReadChunk(r: Record, w: seq<Event>, k: nat, offset: nat, n: Byte)
    requires ValidRecord(r) && offset < 0x10000 && 0 < n && offset + n <= r.size + 2
    requires k < |w| && StateAt(r, w, k) == NDEF_Selected && w[k] == Apdu(ReadCmd(offset, n))
    ensures ChunkAt(r, w, k) == NdefFile(r)[offset..offset + n]
  {
    hide StateAt, ReadCmd, NdefFile, Answer;
    FileLength(r);
    ReadAnswer(r, offset, n);
    var rsp := NdefFile(r)[offset..offset + n] + OK;
    assert rsp[..|rsp| - 2] == NdefFile(r)[offset..offset + n];
  }

  lemma ReadPushes(r: Record, offset: nat, n: Byte)
    requires offset < 0x10000 && offset + n <= r.size + 2
    ensures Pushes(NDEF_Selected, r, ReadCmd(offset, n)) <==> r.callback && offset + n == r.size + 2
  {
    ReadCmdParses(offset, n);
  }

  /** Of those reads, the last one reports the record as sent, and no other does. */
  lemma {:induction false} PushedOnceAtTheEnd(r: Record, t: seq<Event>, offset: nat, lengths: seq<Byte>)
    requires Partition(r, offset, lengths) && StateAt(r, t, |t|) == NDEF_Selected
    ensures var w := t + Reads(r, offset, lengths);
            |w| == |t| + |lengths| && forall k :: |t| <= k < |w| ==> (PushAt(r, w, k) <==> r.callback && k == |w| - 1)
    decreases |lengths|
  {
    hide StateAt, ReadCmd, Pushes;
    if lengths != [] {
      var n := lengths[0];
      FirstRead(r, t, offset, lengths);
      PushedOnceAtTheEnd(r, t + [Apdu(ReadCmd(offset, n))], offset + n, lengths[1..]);
      ReadPushes(r, offset, n);
    }
  }

  /** Every read of a partition is inside the emulator's precondition, answered with success and
      leaves the file selected; it fits the response buffer exactly when its length does. */
  lemma {:induction false} PartitionIsServed(r: Record, offset: nat, lengths: seq<Byte>, room: nat)
    requires ValidRecord(r) && Partition(r, offset, lengths)
    ensures offset <= r.size + 2 && |Reads(r, offset, lengths)| == |lengths|
    ensures forall i :: 0 <= i < |lengths| ==>
              (Served(r, Reads(r, offset, lengths)[i], room) <==> lengths[i] + |OK| <= room)
    decreases |lengths|
  {
    if lengths != [] {
      ReadCmdParses(offset, lengths[0]);
      PartitionIsServed(r, offset + lengths[0], lengths[1..], room);
      ReadAnswer(r, offset, lengths[0]);
    }
  }

  /** The length guard is weaker than the file: it lets a read run past the end of the file
      exactly when the offset is positive and a length byte can reach that far. */
  lemma GuardAdmitsOverrun(r: Record, offset: nat)
    requires offset < 0x10000
    ensures (exists n: Byte :: Guard(r, ReadCmd(offset, n)) && offset + n > r.size + 2)
            <==> offset > 0 && r.size + 3 - offset <= 255
  {
    forall n: Byte ensures Guard(r, ReadCmd(offset, n)) <==> n <= r.size + offset + 2 {
      ReadCmdParses(offset, n);
    }
    if offset > 0 && r.size + 3 - offset <= 255 {
      var n: Byte := if r.size + 3 - offset <= 0 then 0 else r.size + 3 - offset;
      assert Guard(r, ReadCmd(offset, n));
    }
  }

  /** A read whose copy length is negative, or that runs past the end of the file. */
  predicate Unsafe(r: Record, offset: nat, n: Byte) {
    (offset == 0 && n < 2) || (offset == 1 && n < 1) || offset + n > r.size + 2
  }

  /** The offsets at which the length guard admits some unsafe read. */
  lemma GuardAdmitsUnsafeIff(r: Record, offset: nat)
    requires offset < 0x10000
    ensures (exists n: Byte :: Guard(r, ReadCmd(offset, n)) && Unsafe(r, offset, n))
            <==> offset <= 1 || r.size + 3 - offset <= 255
  {
    hide ReadCmd;
    GuardAdmitsOverrun(r, offset);
    forall n: Byte ensures Guard(r, ReadCmd(offset, n)) <==> n <= r.size + offset + 2 {
      ReadCmdParses(offset, n);
    }
    if offset <= 1 { assert Guard(r, ReadCmd(offset, 0)) && Unsafe(r, offset, 0); }
  }
}
