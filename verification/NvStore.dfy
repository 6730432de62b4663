/** The non-volatile store: one file a block, each a two-byte checksum (low byte first) and
    the data; five of the blocks are verified together and wiped together. */
module NvStore {
  import opened Basics
  import opened CrcChecksum

  datatype Status = Ok | Fail

  type Bytes = seq<bv8>

  type Files = map<nat, Bytes>

  const STORAGE_BIN: string := "/nfaStorage.bin"

  /** DH, HC_F3, HC_F4, HC_F2 and HC_F5, in the order the program visits them. */
  const BLOCKS: seq<nat> := [1, 2, 3, 4, 5]

  const BLOCKSET: set<nat> := {1, 2, 3, 4, 5}

  function Lookup(fs: Files, block: nat): Option<Bytes> {
    if block in fs then Some(fs[block]) else None
  }

  /** What a complete write leaves in a file. */
  function Image(data: Bytes): Bytes {
    [LowByte(Crc(data)), HighByte(Crc(data))] + data
  }

  function Payload(f: Bytes): Bytes { if |f| >= 2 then f[2..] else [] }

  /** A block is good when it is absent, or holds data that matches its checksum. */
  ghost predicate Good(file: Option<Bytes>) {
    file.None? || (file.value == Image(Payload(file.value)) && Payload(file.value) != [])
  }

  ghost predicate AllGood(fs: Files) {
    forall b :: b in BLOCKSET ==> Good(Lookup(fs, b))
  }

  // ---------------------------------------------------------------- runs

  /** One call, or one change of a file behind the program's back. A write may fail to open its
      file, and the disk takes no more than `room` bytes of it. */
  datatype Op =
    | Write(block: nat, data: Bytes, opens: bool, room: nat)
    | Read(block: nat)
    | Delete(force: bool)
    | Verify
    | Corrupt(block: nat, content: Option<Bytes>)

  datatype Store = Store(files: Files, firstTime: bool)

  ghost function Apply(s: Store, op: Op, pathFits: bool): Store {
    match op
    case Write(b, data, opens, room) =>
      if pathFits && opens then s.(files := s.files[b := Image(data)[..Min(room, |data| + 2)]]) else s
    case Read(_) => s
    case Delete(force) =>
      if !s.firstTime && !force then s
      else Store(if pathFits then s.files - BLOCKSET else s.files, false)
    case Verify =>
      if !pathFits || AllGood(s.files) then s else Store(s.files - BLOCKSET, false)
    case Corrupt(b, content) =>
      s.(files := if content.Some? then s.files[b := content.value] else s.files - {b})
  }

  ghost function Run(s: Store, ops: seq<Op>): Store
    decreases |ops|
  {
    if ops == [] then s else Run(Apply(s, ops[0], true), ops[1..])
  }

  /** crcChecksumVerifyIntegrity: reads the checksum, then the data 1024 bytes at a time. */
  method VerifyIntegrity(file: Option<Bytes>) returns (isGood: bool)
    ensures isGood <==> Good(file)
  {
    hide Crc, LowByte, HighByte;
    isGood := false;
    if file.Some? {
      var f := file.value;
      var actualReadCrc := Min(2, |f|);
      var pos := actualReadCrc;
      var data: Bytes := [];
      while true
        invariant actualReadCrc <= pos <= |f|
        invariant data == f[actualReadCrc..pos]
        decreases |f| - pos
      {
        var actualReadData := Min(1024, |f| - pos);
        if actualReadData == 0 { break; }
        data := data + f[pos..pos + actualReadData];
        pos := pos + actualReadData;
      }
      if actualReadCrc == 2 && |data| > 0 {
        var buffer := new bv8[|data|](i requires 0 <= i < |data| => data[i]);
        var crc := Compute(buffer, |data|);
        assert buffer[..|data|] == data;
        assert pos == |f| && data == f[2..];
        if f[0] == LowByte(crc) && f[1] == HighByte(crc) {
          isGood := true;
        }
        assert f == [f[0], f[1]] + data;
      }
    } else {
      isGood := true;
    }
  }

  /** File names longer than 200 characters are refused before the block number is added. */
  predicate FitsName(path: string) { |path + STORAGE_BIN| <= 200 }

  /** The program keeps the path in a buffer of 120 characters, so the limit never applies; with a
      longer path it would at 185. */
  lemma PathFitsIff(path: string)
    ensures FitsName(path) <==> |path| <= 185
    ensures |path| < 120 ==> FitsName(path)
    ensures FitsName("/usr/local/lib/")
  {}

  /** What a full disk leaves of checksum and data. */
  lemma TornImage(data: Bytes, room: nat)
    ensures var crc, n := [LowByte(Crc(data)), HighByte(Crc(data))], Min(room, 2);
            Image(data)[..Min(room, |data| + 2)] == crc[..n] + data[..Min(room - n, |data|)]
  {
    hide Crc, LowByte, HighByte;
  }

  class NvFiles {
    const storePath: string
    var files: Files
    var firstTime: bool

    constructor (path: string)
      ensures storePath == path && files == map[] && firstTime
    {
      storePath := path;
      files := map[];
      firstTime := true;
    }

    ghost function State(): Store
      reads this
    {
      Store(files, firstTime)
    }

    predicate PathFits() { FitsName(storePath) }

    /** nfa_nv_co_write; the answer is what the completion callback is told, if it is called. */
    method Write(buffer: array<bv8>, nbytes: nat, block: nat, opens: bool, room: nat) returns (answer: Option<Status>)
      requires nbytes <= buffer.Length
      modifies this`files
      ensures State() == Apply(old(State()), Op.Write(block, buffer[..nbytes], opens, room), PathFits())
      ensures answer == if !PathFits() then None else Some(if opens && room >= nbytes + 2 then Ok else Fail)
    {
      hide Crc, LowByte, HighByte;
      if !PathFits() { return None; }
      if !opens { return Some(Fail); }
      var checksum := Compute(buffer, nbytes);
      var header := [LowByte(checksum), HighByte(checksum)];
      var actualWrittenCrc := Min(room, 2);
      files := files[block := header[..actualWrittenCrc]];
      var actualWrittenData := Min(room - actualWrittenCrc, nbytes);
      files := files[block := files[block] + buffer[..actualWrittenData]];
      TornImage(buffer[..nbytes], room);
      assert buffer[..nbytes][..actualWrittenData] == buffer[..actualWrittenData];
      answer := Some(if actualWrittenData == nbytes && actualWrittenCrc == 2 then Ok else Fail);
    }

    /** nfa_nv_co_read: the data goes to the caller's buffer, the rest of which is untouched. */
    method Read(buffer: array<bv8>, nbytes: nat, block: nat) returns (answer: Option<(nat, Status)>)
      requires nbytes <= buffer.Length
      modifies buffer
      ensures State() == old(State())
      ensures PathFits() <==> answer.Some?
      ensures answer.Some? && block !in files ==> answer.value == (0, Fail)
      ensures answer.Some? && block in files ==>
                var n := Min(nbytes, |Payload(files[block])|);
                answer.value == (n, if n > 0 then Ok else Fail)
      ensures var n := if answer.Some? then answer.value.0 else 0;
              n <= nbytes && buffer[n..] == old(buffer[n..])
              && (n > 0 ==> block in files && n <= |Payload(files[block])| && buffer[..n] == Payload(files[block])[..n])
    {
      if !PathFits() { return None; }
      if block in files {
        var f := files[block];
        var actualReadCrc := Min(2, |f|);
        var actualReadData := Min(nbytes, |f| - actualReadCrc);
        for i := 0 to actualReadData
          invariant buffer[..i] == f[actualReadCrc..actualReadCrc + i]
          invariant buffer[i..] == old(buffer[i..])
          invariant files == old(files)
        {
          buffer[i] := f[actualReadCrc + i];
          assert buffer[..i + 1] == buffer[..i] + [buffer[i]];
          assert buffer[i + 1..] == buffer[i..][1..];
        }
        assert f[actualReadCrc..actualReadCrc + actualReadData] == Payload(f)[..actualReadData];
        answer := Some((actualReadData, if actualReadData > 0 then Ok else Fail));
      } else {
        answer := Some((0, Fail));
      }
    }

    /** delete_stack_non_volatile_store: without force it acts once. */
    method Delete(forceDelete: bool)
      modifies this
      ensures State() == Apply(old(State()), Op.Delete(forceDelete), PathFits())
    {
      if !firstTime && !forceDelete { return; }
      firstTime := false;
      if !PathFits() { return; }
      files := files - {BLOCKS[0]};
      files := files - {BLOCKS[1]};
      assert files == old(files) - {1, 2};
      files := files - {BLOCKS[2]};
      assert files == old(files) - {1, 2, 3};
      files := files - {BLOCKS[3]};
      assert files == old(files) - {1, 2, 3, 4};
      files := files - {BLOCKS[4]};
      assert files == old(files) - BLOCKSET;
    }

    /** verify_stack_non_volatile_store: the first bad block wipes all five. */
    method Verify()
      modifies this
      ensures State() == Apply(old(State()), Op.Verify, PathFits())
    {
      if !PathFits() { return; }
      var isValid := false;
      var good := VerifyIntegrity(Lookup(files, BLOCKS[0]));
      if good {
        good := VerifyIntegrity(Lookup(files, BLOCKS[1]));
        if good {
          good := VerifyIntegrity(Lookup(files, BLOCKS[2]));
          if good {
            good := VerifyIntegrity(Lookup(files, BLOCKS[3]));
            if good {
              good := VerifyIntegrity(Lookup(files, BLOCKS[4]));
              if good { isValid := true; }
            }
          }
        }
      }
      assert isValid <==> AllGood(files);
      if !isValid { Delete(true); }
    }
  }

  // ---------------------------------------------------------------- what a run keeps

  /** A call that cannot leave one of the five blocks bad: no outside change, no empty or torn write. */
  ghost predicate Clean(op: Op) {
    && !op.Corrupt?
    && (op.Write? && op.opens && op.block in BLOCKSET ==> op.data != [] && op.room >= |op.data| + 2)
  }

  lemma ImageGood(data: Bytes)
    ensures Payload(Image(data)) == data
    ensures Good(Some(Image(data))) <==> data != []
  {
    hide Crc, LowByte, HighByte;
    assert Image(data)[2..] == data;
  }

  /** Over any run of clean calls the five blocks stay good, so no verification ever wipes. */
  lemma {:induction false} CleanRunNeverWipes(s: Store, ops: seq<Op>)
    requires AllGood(s.files) && forall op :: op in ops ==> Clean(op)
    ensures AllGood(Run(s, ops).files)
    ensures Apply(Run(s, ops), Verify, true) == Run(s, ops)
    decreases |ops|
  {
    hide Crc, LowByte, HighByte;
    if ops != [] {
      var op := ops[0];
      if op.Write? {
        ImageGood(op.data);
        assert Image(op.data)[..|op.data| + 2] == Image(op.data);
      }
      assert Clean(op);
      var t := Apply(s, op, true);
      forall b | b in BLOCKSET ensures Good(Lookup(t.files, b)) {
        assert Good(Lookup(s.files, b));
      }
      CleanRunNeverWipes(t, ops[1..]);
    }
  }

  /** An over-long path or a failed open leaves every file as it is, and a deletion that acts takes
      exactly the files 1 to 5, whatever they hold. */
  lemma WhatCallsLeave(s: Store, op: Op, pathFits: bool)
    requires !op.Corrupt?
    ensures !pathFits ==> Apply(s, op, pathFits).files == s.files
    ensures op.Write? && !op.opens ==> Apply(s, op, pathFits) == s
    ensures op.Write? && op.opens && pathFits ==>
              forall b :: b != op.block ==> Lookup(Apply(s, op, pathFits).files, b) == Lookup(s.files, b)
    ensures op.Delete? && pathFits && (op.force || s.firstTime) ==>
              forall b :: Lookup(Apply(s, op, pathFits).files, b) == if 1 <= b <= 5 then None else Lookup(s.files, b)
    ensures op.Delete? && (op.force || s.firstTime) ==> !Apply(s, op, pathFits).firstTime
    ensures op.Delete? && !op.force && !s.firstTime ==> Apply(s, op, pathFits) == s
    ensures op.Verify? && pathFits && (exists b :: 1 <= b <= 5 && !Good(Lookup(s.files, b))) ==>
              forall b :: Lookup(Apply(s, op, pathFits).files, b) == if 1 <= b <= 5 then None else Lookup(s.files, b)
    ensures op.Verify? && (forall b :: 1 <= b <= 5 ==> Good(Lookup(s.files, b))) ==> Apply(s, op, pathFits) == s
  {
    hide Good;
    assert forall b :: b in BLOCKSET <==> 1 <= b <= 5;
  }

  /** A completed write of an empty buffer is the one write that makes the next verification wipe. */
  lemma CompletedWriteSurvivesIffNonempty(s: Store, block: nat, data: Bytes, room: nat)
    requires AllGood(s.files) && block in BLOCKSET && room >= |data| + 2
    ensures var t := Apply(s, Write(block, data, true, room), true);
            && (data != [] ==> Apply(t, Verify, true) == t && Lookup(t.files, block) == Some(Image(data)))
            && (data == [] ==> Apply(t, Verify, true).files == t.files - BLOCKSET != t.files)
  {
    hide Crc, LowByte, HighByte;
    ImageGood(data);
    var t := Apply(s, Write(block, data, true, room), true);
    assert t.files[block] == Image(data)[..|data| + 2] == Image(data);
    assert Lookup(t.files, block) == Some(Image(data));
    if data == [] { assert block in t.files && block !in t.files - BLOCKSET; }
  }

  /** A write that the disk cuts short is noticed unless some data was kept and the kept part
      happens to have the checksum of the whole. */
  lemma TornWriteGoodIff(data: Bytes, room: nat)
    requires room < |data| + 2
    ensures Good(Some(Image(data)[..room])) <==> room > 2 && Crc(data[..room - 2]) == Crc(data)
  {
    var f := Image(data)[..room];
    if room > 2 {
      assert Payload(f) == data[..room - 2];
      assert f == [LowByte(Crc(data)), HighByte(Crc(data))] + data[..room - 2];
      if f == Image(Payload(f)) {
        assert f[0] == LowByte(Crc(data[..room - 2])) && f[1] == HighByte(Crc(data[..room - 2]));
        BytesOfWord(Crc(data), Crc(data[..room - 2]));
      }
    }
  }

  /** After a write that the disk cuts short, the next verification of a good store wipes it unless
      some data was kept and the kept part has the checksum of the whole. */
  lemma TornWriteWipesIff(s: Store, block: nat, data: Bytes, room: nat)
    requires AllGood(s.files) && 1 <= block <= 5 && room < |data| + 2
    ensures var t := Apply(s, Write(block, data, true, room), true);
            && (Apply(t, Verify, true).files == t.files <==> room > 2 && Crc(data[..room - 2]) == Crc(data))
            && (Apply(t, Verify, true).files == t.files || forall b :: 1 <= b <= 5 ==> b !in Apply(t, Verify, true).files)
  {
    hide Crc, Good, LowByte, HighByte;
    TornWriteGoodIff(data, room);
    var t := Apply(s, Write(block, data, true, room), true);
    assert t.files[block] == Image(data)[..room];
    assert AllGood(t.files) <==> Good(Some(Image(data)[..room])) by {
      assert forall b :: b != block ==> Lookup(t.files, b) == Lookup(s.files, b);
      assert Lookup(t.files, block) == Some(Image(data)[..room]);
    }
    if !AllGood(t.files) { assert block in t.files && block !in t.files - BLOCKSET; }
  }

  lemma BytesOfWord(r: bv16, q: bv16)
    requires LowByte(r) == LowByte(q) && HighByte(r) == HighByte(q)
    ensures r == q
  {}

  /** Such a write exists: two zero bytes cut to one. */
  lemma TornWriteUnnoticed()
    ensures Good(Some(Image([0, 0])[..3]))
  {
    hide Crc, LowByte, HighByte;
    TornWriteGoodIff([0, 0], 3);
    assert [0 as bv8, 0][..1] == [0];
    CrcOfZeros();
  }

  lemma CrcOfZeros()
    ensures Crc([0]) == Crc([0, 0])
  {
    hide Lfsr, ByteBits;
    CrcSnoc([], 0);
    CrcSnoc([0], 0);
    assert [] + [0 as bv8] == [0] && [0 as bv8] + [0] == [0, 0];
    TableStepIsByte(0, 0);
    LfsrEmpty(0);
  }

  lemma TornTailGoodIff(prefix: Bytes, tail: Bytes)
    requires tail != []
    ensures Good(Some(Image(prefix + tail)[..|prefix| + 2])) <==> prefix != [] && Crc(prefix + tail) == Crc(prefix)
  {
    hide Crc;
    TornWriteGoodIff(prefix + tail, |prefix| + 2);
    assert (prefix + tail)[..|prefix|] == prefix;
  }

  /** A write that loses exactly its last byte: at most one value of that byte goes unnoticed, and
      one does exactly when the word named here fits a byte. */
  lemma LostByteUnnoticedIff(prefix: Bytes, b: bv8)
    requires prefix != []
    ensures Good(Some(Image(prefix + [b])[..|prefix| + 2]))
            <==> Word(b) == Plus(Crc(prefix), Unclock8(Crc(prefix)))
  {
    hide Crc, Word, Plus, Unclock8;
    TornTailGoodIff(prefix, [b]);
    OneByteTailIff(prefix, Crc(prefix), b);
  }

  /** There need not be one: after the single byte 1 every lost byte is noticed. */
  lemma LostByteAlwaysNoticed(b: bv8)
    ensures !Good(Some(Image([1, b])[..3]))
  {
    hide Crc, Lfsr, ByteBits, Clock8, Unclock8, Image, LowByte, HighByte;
    CrcSnoc([], 1);
    ByteStep(0, 1);
    LfsrEmpty(0);
    assert [] + [1 as bv8] == [1] && [1 as bv8] + [b] == [1, b];
    CrcEmpty();
    assert Plus(0, Word(1)) == 1;
    Clock8Bijective(1);
    Clock8One();
    LostByteUnnoticedIff([1], b);
  }

  lemma CrcEmpty()
    ensures Crc([]) == 0
  {}

  /** No byte is the sum of table entry 1 and its index. */
  lemma Clock8One()
    ensures Clock8(1) == 0xC0C1 && forall b: bv8 :: Word(b) != Plus(0xC0C1, 1)
  {}

  /** The sum that closes a lost tail whose last two bytes are still open. */
  function Closing(prefix: Bytes, front: Bytes): bv16 {
    Plus(Crc(prefix + front), Unclock16(Crc(prefix)))
  }

  /** A write that loses two or more bytes: whatever was kept and whatever the other lost bytes are,
      exactly one value of the last two goes unnoticed. */
  lemma LostTailUnnoticedIff(prefix: Bytes, front: Bytes, lo: bv8, hi: bv8)
    requires prefix != []
    ensures Good(Some(Image(prefix + (front + [lo, hi]))[..|prefix| + 2]))
            <==> lo == LowByte(Closing(prefix, front)) && hi == HighByte(Closing(prefix, front))
  {
    hide Crc, Plus, Unclock16, LowByte, HighByte;
    TornTailGoodIff(prefix, front + [lo, hi]);
    assert prefix + (front + [lo, hi]) == (prefix + front) + [lo, hi];
    TwoByteTailIff(prefix + front, Crc(prefix), lo, hi);
  }

  ghost predicate Touches(op: Op, block: nat) {
    (op.Write? && op.block == block) || (op.Corrupt? && op.block == block)
  }

  /** A deletion that takes effect, or a verification that finds a bad block. */
  ghost predicate Wipes(s: Store, op: Op) {
    (op.Delete? && (op.force || s.firstTime)) || (op.Verify? && !AllGood(s.files))
  }

  /** Some call of the run wipes the five blocks. */
  ghost predicate Wiped(s: Store, ops: seq<Op>)
    decreases |ops|
  {
    ops != [] && (Wipes(s, ops[0]) || Wiped(Apply(s, ops[0], true), ops[1..]))
  }

  /** Between two accesses a block keeps its content, unless it is one of the five and they are wiped. */
  lemma {:induction false} UntouchedBlock(s: Store, ops: seq<Op>, block: nat)
    requires forall op :: op in ops ==> !Touches(op, block)
    ensures Lookup(Run(s, ops).files, block) ==
            if block in BLOCKSET && Wiped(s, ops) then None else Lookup(s.files, block)
    decreases |ops|
  {
    if ops != [] {
      assert !Touches(ops[0], block);
      UntouchedBlock(Apply(s, ops[0], true), ops[1..], block);
    }
  }

  /** After a completed write and any calls that leave the block alone, its file is still exactly
      what was written, unless it is one of the five and one of the calls wiped them. */
  lemma WriteReadsBack(s: Store, block: nat, data: Bytes, room: nat, ops: seq<Op>)
    requires room >= |data| + 2 && forall op :: op in ops ==> !Touches(op, block)
    ensures var t := Run(Apply(s, Write(block, data, true, room), true), ops);
            if block in BLOCKSET && Wiped(Apply(s, Write(block, data, true, room), true), ops) then block !in t.files
            else block in t.files && Payload(t.files[block]) == data
  {
    hide Crc, LowByte, HighByte;
    ImageGood(data);
    assert Image(data)[..|data| + 2] == Image(data);
    UntouchedBlock(Apply(s, Write(block, data, true, room), true), ops, block);
  }

  ghost predicate SmallError(a: Bytes, b: Bytes) {
    && |a| == |b| && |BitsOf(a)| == |BitsOf(b)| && a != b
    && ((exists k :: DifferOnlyIn(BitsOf(a), BitsOf(b), k, 16)) || Distance(BitsOf(a), BitsOf(b)) % 2 == 1)
  }

  lemma SmallErrorChangesCrc(a: Bytes, b: Bytes)
    requires SmallError(a, b)
    ensures Crc(a) != Crc(b)
  {
    if Distance(BitsOf(a), BitsOf(b)) % 2 == 1 {
      OddErrorDetected(a, b);
    } else {
      var k :| DifferOnlyIn(BitsOf(a), BitsOf(b), k, 16);
      BurstDetected(a, b, k);
    }
  }

  lemma HeaderTellsCrc(data: Bytes, bad: Bytes)
    requires Crc(data) != Crc(bad)
    ensures Image(data)[..2] + bad != Image(bad)
  {
    hide Crc, LowByte, HighByte;
    var f := Image(data)[..2] + bad;
    assert f[0] == LowByte(Crc(data)) && f[1] == HighByte(Crc(data));
    if LowByte(Crc(data)) == LowByte(Crc(bad)) && HighByte(Crc(data)) == HighByte(Crc(bad)) {
      BytesOfWord(Crc(data), Crc(bad));
    }
  }

  /** In any history: once the data of one of the five blocks, as last written, has suffered a
      burst of at most 16 bits or an odd number of flips, then whatever else happens to the other
      blocks, the next verification removes all five and nothing else. */
  lemma SmallErrorAlwaysWipes(s: Store, block: nat, data: Bytes, bad: Bytes, ops: seq<Op>)
    requires block in BLOCKSET && Lookup(s.files, block) == Some(Image(data)) && SmallError(data, bad)
    requires forall op :: op in ops ==> !Touches(op, block) && !op.Verify? && !op.Delete?
    ensures var t := Run(Apply(s, Corrupt(block, Some(Image(data)[..2] + bad)), true), ops);
            && Apply(t, Verify, true) == Store(t.files - BLOCKSET, false)
            && forall b :: b in BLOCKSET ==> b !in Apply(t, Verify, true).files
  {
    hide Crc, LowByte, HighByte;
    var f := Image(data)[..2] + bad;
    assert Payload(f) == bad;
    SmallErrorChangesCrc(data, bad);
    HeaderTellsCrc(data, bad);
    BadBlockWipes(s, block, f, ops);
  }

  lemma BadBlockWipes(s: Store, block: nat, bad: Bytes, ops: seq<Op>)
    requires block in BLOCKSET && !Good(Some(bad))
    requires forall op :: op in ops ==> !Touches(op, block) && !op.Verify? && !op.Delete?
    ensures var t := Run(Apply(s, Corrupt(block, Some(bad)), true), ops);
            && Apply(t, Verify, true) == Store(t.files - BLOCKSET, false)
            && forall b :: b in BLOCKSET ==> b !in Apply(t, Verify, true).files
  {
    hide Crc, LowByte, HighByte;
    var u := Apply(s, Corrupt(block, Some(bad)), true);
    UntouchedWithoutWipe(u, ops, block);
    assert !Good(Lookup(Run(u, ops).files, block));
  }

  lemma {:induction false} UntouchedWithoutWipe(s: Store, ops: seq<Op>, block: nat)
    requires forall op :: op in ops ==> !Touches(op, block) && !op.Verify? && !op.Delete?
    ensures Lookup(Run(s, ops).files, block) == Lookup(s.files, block)
    decreases |ops|
  {
    if ops != [] {
      assert !Touches(ops[0], block);
      UntouchedWithoutWipe(Apply(s, ops[0], true), ops[1..], block);
    }
  }

  /** A block that is present is good exactly when its data followed by its stored checksum
      leaves the register at zero. */
  lemma GoodIffResidueZero(f: Bytes)
    ensures Good(Some(f)) <==> |f| > 2 && Crc(f[2..] + f[..2]) == 0
  {
    if |f| > 2 {
      ResidueZeroIffTrailerIsChecksum(f[2..], f[0], f[1]);
      assert f[..2] == [f[0], f[1]] && f == [f[0], f[1]] + f[2..];
    }
  }

  /** Once the store has been deleted, unforced deletion does nothing for the rest of the run. */
  lemma {:induction false} UnforcedDeleteActsOnce(s: Store, ops: seq<Op>)
    requires !s.firstTime
    ensures !Run(s, ops).firstTime && Apply(Run(s, ops), Delete(false), true) == Run(s, ops)
    decreases |ops|
  {
    if ops != [] { UnforcedDeleteActsOnce(Apply(s, ops[0], true), ops[1..]); }
  }

  // ---------------------------------------------------------------- bursts of a whole file

  /** The two files differ, and only inside sixteen consecutive bits, counted from the start of the
      file: its first sixteen bits are the checksum. */
  ghost predicate FileBurst(f: Bytes, g: Bytes, k: nat) {
    |f| == |g| && f != g && DifferOnlyIn(BitsOf(f), BitsOf(g), k, 16)
  }

  lemma {:induction false} BitsLength(msg: Bytes)
    ensures |BitsOf(msg)| == 8 * |msg|
  {
    hide ByteBits;
    if msg != [] { BitsLength(msg[1..]); }
  }

  lemma SplitBits(f: Bytes)
    requires |f| >= 2
    ensures |BitsOf(f[..2])| == 16 && BitsOf(f) == BitsOf(f[..2]) + BitsOf(f[2..])
  {
    BitsLength(f[..2]);
    BitsOfAppend(f[..2], f[2..]);
    assert f == f[..2] + f[2..];
  }

  /** A burst that is confined to the checksum, or does not touch it, is always detected. */
  lemma FileBurstDetected(f: Bytes, g: Bytes, k: nat)
    requires Good(Some(f)) && FileBurst(f, g, k) && (k == 0 || k >= 16)
    ensures !Good(Some(g))
  {
    hide BitsOf, Crc, LowByte, HighByte;
    var data, bad := f[2..], g[2..];
    SplitBits(f);
    SplitBits(g);
    var u, v := BitsOf(f), BitsOf(g);
    assert f == f[..2] + data && g == g[..2] + bad;
    BitsLength(data);
    BitsLength(bad);
    if k == 0 {
      forall i | 0 <= i < |BitsOf(data)| ensures BitsOf(data)[i] == BitsOf(bad)[i] {
        assert u[i + 16] == v[i + 16];
      }
      BitsOfInjective(data, bad);
    } else {
      forall i | 0 <= i < 16 ensures BitsOf(f[..2])[i] == BitsOf(g[..2])[i] { assert u[i] == v[i]; }
      BitsOfInjective(f[..2], g[..2]);
      forall i | 0 <= i < |BitsOf(data)| && !(k - 16 <= i < k) ensures BitsOf(data)[i] == BitsOf(bad)[i] {
        assert u[i + 16] == v[i + 16];
      }
      BurstDetected(data, bad, k - 16);
      assert f[..2] == Image(data)[..2];
      HeaderTellsCrc(data, bad);
    }
  }

  /** In any history: once one of the five blocks, good before, has suffered such a burst, the next
      verification removes all five and nothing else. */
  lemma FileBurstWipes(s: Store, block: nat, bad: Bytes, k: nat, ops: seq<Op>)
    requires block in BLOCKSET && block in s.files && Good(Some(s.files[block]))
    requires FileBurst(s.files[block], bad, k) && (k == 0 || k >= 16)
    requires forall op :: op in ops ==> !Touches(op, block) && !op.Verify? && !op.Delete?
    ensures var t := Run(Apply(s, Corrupt(block, Some(bad)), true), ops);
            && Apply(t, Verify, true) == Store(t.files - BLOCKSET, false)
            && forall b :: b in BLOCKSET ==> b !in Apply(t, Verify, true).files
  {
    hide FileBurst, Good;
    FileBurstDetected(s.files[block], bad, k);
    BadBlockWipes(s, block, bad, ops);
  }

  // The bursts that go unnoticed: files of zeros that become the image of these data.

  lemma {:induction false} BitAt(msg: Bytes, j: nat, i: nat)
    requires j < |msg| && i < 8
    ensures |BitsOf(msg)| == 8 * |msg| && BitsOf(msg)[8 * j + i] == Cell(Word(msg[j]), i)
  {
    hide Cell, Word;
    BitsLength(msg);
    if j > 0 {
      BitAt(msg[1..], j - 1, i);
    } else {
      assert ByteBits(msg[0])[i] == Cell(Word(msg[0]), i);
    }
  }

  /** Bits set only between `lo` and `hi`. */
  ghost predicate SetOnlyIn(g: Bytes, lo: nat, hi: nat) {
    forall j, i :: 0 <= j < |g| && 0 <= i < 8 && !(lo <= 8 * j + i < hi) ==> !Cell(Word(g[j]), i)
  }

  function Zeros(n: nat): Bytes { seq(n, i => 0) }

  lemma {:induction false} ZerosGood(n: nat)
    ensures Crc(Zeros(n)) == 0
  {
    hide Lfsr, ByteBits, TableStep;
    if n == 0 {
      CrcEmpty();
    } else {
      ZerosGood(n - 1);
      assert Zeros(n) == Zeros(n - 1) + [0];
      StepOnZero();
      CrcStep(Zeros(n - 1), 0, 0, 0);
    }
  }

  lemma StepOnZero()
    ensures TableStep(0, 0) == 0
  {}

  lemma CrcStep(msg: Bytes, b: bv8, c: bv16, next: bv16)
    requires Crc(msg) == c && TableStep(c, b) == next
    ensures Crc(msg + [b]) == next
  {
    hide Lfsr, ByteBits, TableStep;
    CrcSnoc(msg, b);
    TableStepIsByte(c, b);
  }

  lemma ZeroImage(n: nat)
    requires n > 0
    ensures Image(Zeros(n)) == Zeros(n + 2) && Good(Some(Zeros(n + 2)))
  {
    hide Crc;
    ZerosGood(n);
    ImageGood(Zeros(n));
  }

  lemma BurstOfZeros(g: Bytes, lo: nat, hi: nat, k: nat)
    requires k <= lo && hi <= k + 16 && g != Zeros(|g|) && SetOnlyIn(g, lo, hi)
    ensures FileBurst(Zeros(|g|), g, k)
  {
    hide Cell, BitsOf, Word;
    var z := Zeros(|g|);
    BitsLength(g);
    BitsLength(z);
    forall p | 0 <= p < 8 * |g| && !(k <= p < k + 16) ensures BitsOf(z)[p] == BitsOf(g)[p] {
      BitAt(z, p / 8, p % 8);
      BitAt(g, p / 8, p % 8);
      ZeroCell(p % 8);
    }
  }

  lemma ZeroCell(i: nat)
    ensures !Cell(Word(0), i)
  {
    HighCell(Word(0), 0, i);
  }

  /** A file of zeros and the image of `data` make an undetected burst. */
  lemma UndetectedFrom(data: Bytes, g: Bytes, lo: nat, hi: nat, k: nat)
    requires data != [] && data[0] != 0 && g == Image(data) && SetOnlyIn(g, lo, hi) && k <= lo && hi <= k + 16
    ensures Good(Some(Zeros(|g|))) && Good(Some(g)) && FileBurst(Zeros(|g|), g, k)
  {
    hide Crc, SetOnlyIn, LowByte, HighByte, FileBurst, Good;
    ImageGood(data);
    assert g[2] == data[0] && Zeros(|g|)[2] == 0;
    ZeroImage(|data|);
    BurstOfZeros(g, lo, hi, k);
  }

  lemma StepsFromOne()
    ensures TableStep(0, 1) == 0xC0C1 && TableStep(0xC0C1, 0) == 0x9001 && TableStep(0x9001, 0) == 0xC051
    ensures TableStep(0xC051, 0) == 0xFC01 && TableStep(0xFC01, 0) == 0xC03D && TableStep(0xC03D, 0) == 0xD101
    ensures TableStep(0xD101, 0) == 0xC010
  {}

  lemma CrcOfOne()
    ensures Image([1, 0, 0, 0, 0, 0, 0]) == [0x10, 0xC0, 1, 0, 0, 0, 0, 0, 0]
  {
    hide Crc, TableStep;
    StepsFromOne();
    CrcEmpty();
    CrcStep([], 1, 0, 0xC0C1);
    assert [] + [1 as bv8] == [1];
    CrcStep([1], 0, 0xC0C1, 0x9001);
    assert [1 as bv8] + [0] == [1, 0];
    CrcStep([1, 0], 0, 0x9001, 0xC051);
    assert [1 as bv8, 0] + [0] == [1, 0, 0];
    CrcStep([1, 0, 0], 0, 0xC051, 0xFC01);
    assert [1 as bv8, 0, 0] + [0] == [1, 0, 0, 0];
    CrcStep([1, 0, 0, 0], 0, 0xFC01, 0xC03D);
    assert [1 as bv8, 0, 0, 0] + [0] == [1, 0, 0, 0, 0];
    CrcStep([1, 0, 0, 0, 0], 0, 0xC03D, 0xD101);
    assert [1 as bv8, 0, 0, 0, 0] + [0] == [1, 0, 0, 0, 0, 0];
    CrcStep([1, 0, 0, 0, 0, 0], 0, 0xD101, 0xC010);
    assert [1 as bv8, 0, 0, 0, 0, 0] + [0] == [1, 0, 0, 0, 0, 0, 0];
  }

  lemma BitsFromOne()
    ensures SetOnlyIn([0x10, 0xC0, 1, 0, 0, 0, 0, 0, 0], 4, 17)
  {
    hide Cell, Word;
    var g: Bytes := [0x10, 0xC0, 1, 0, 0, 0, 0, 0, 0];
    forall j, i | 0 <= j < |g| && 0 <= i < 8 && !(4 <= 8 * j + i < 17) ensures !Cell(Word(g[j]), i) {
      ZeroCell(i);
      if j == 0 { LowClear10(i); } else if j == 2 { HighClear01(i); }
    }
  }

  lemma LowClear10(i: nat)
    requires i < 4
    ensures !Cell(Word(0x10), i)
  {
    assert !Cell(0x10, 0) && !Cell(0x10, 1) && !Cell(0x10, 2) && !Cell(0x10, 3);
  }

  lemma HighClear01(i: nat)
    requires i >= 1
    ensures !Cell(Word(1), i)
  {
    assert Fits(1, 1);
    HighCell(1, 1, i);
  }

  lemma StepsOfOneByte()
    ensures TableStep(0, 0x0C) == 0x0500 && TableStep(0, 0xC0) == 0x5000
  {}

  lemma CrcOfOneByte()
    ensures Image([0x0C]) == [0, 5, 0x0C] && Image([0xC0]) == [0, 0x50, 0xC0]
  {
    hide Crc, TableStep;
    StepsOfOneByte();
    CrcEmpty();
    CrcStep([], 0x0C, 0, 0x0500);
    CrcStep([], 0xC0, 0, 0x5000);
    assert [] + [0x0C as bv8] == [0x0C] && [] + [0xC0 as bv8] == [0xC0];
  }

  lemma BitsOfOneByte()
    ensures SetOnlyIn([0, 5, 0x0C], 8, 20) && SetOnlyIn([0, 0x50, 0xC0], 12, 24)
  {
    hide Cell, Word;
    var g: Bytes := [0, 5, 0x0C];
    forall j, i | 0 <= j < |g| && 0 <= i < 8 && !(8 <= 8 * j + i < 20) ensures !Cell(Word(g[j]), i) {
      ZeroCell(i);
      if j == 2 { HighClear0C(i); }
    }
    var h: Bytes := [0, 0x50, 0xC0];
    forall j, i | 0 <= j < |h| && 0 <= i < 8 && !(12 <= 8 * j + i < 24) ensures !Cell(Word(h[j]), i) {
      ZeroCell(i);
      if j == 1 { LowClear50(i); }
    }
  }

  lemma HighClear0C(i: nat)
    requires i >= 4
    ensures !Cell(Word(0x0C), i)
  {
    assert Fits(0x0C, 4);
    HighCell(0x0C, 4, i);
  }

  lemma LowClear50(i: nat)
    requires i < 4
    ensures !Cell(Word(0x50), i)
  {
    assert !Cell(0x50, 0) && !Cell(0x50, 1) && !Cell(0x50, 2) && !Cell(0x50, 3);
  }

  lemma StepsOfTwoBytes()
    ensures TableStep(0, 0x53) == 0x3D40 && TableStep(0x3D40, 0x15) == 0x3FFD
  {}

  lemma StepBeforePower()
    ensures TableStep(0x3FFD, 0) == 0x81FE
  {}

  lemma StepToPower()
    ensures TableStep(0x81FE, 0) == 0x8000
  {}

  lemma CrcOfTwoBytes()
    ensures Image([0x53, 0x15, 0, 0]) == [0, 0x80, 0x53, 0x15, 0, 0]
  {
    hide Crc, TableStep;
    StepsOfTwoBytes();
    StepBeforePower();
    StepToPower();
    CrcEmpty();
    CrcStep([], 0x53, 0, 0x3D40);
    assert [] + [0x53 as bv8] == [0x53];
    CrcStep([0x53], 0x15, 0x3D40, 0x3FFD);
    assert [0x53 as bv8] + [0x15] == [0x53, 0x15];
    CrcStep([0x53, 0x15], 0, 0x3FFD, 0x81FE);
    assert [0x53 as bv8, 0x15] + [0] == [0x53, 0x15, 0];
    CrcStep([0x53, 0x15, 0], 0, 0x81FE, 0x8000);
    assert [0x53 as bv8, 0x15, 0] + [0] == [0x53, 0x15, 0, 0];
  }

  lemma BitsOfTwoBytes()
    ensures SetOnlyIn([0, 0x80, 0x53, 0x15, 0, 0], 15, 29)
  {
    hide Cell, Word;
    var g: Bytes := [0, 0x80, 0x53, 0x15, 0, 0];
    forall j, i | 0 <= j < |g| && 0 <= i < 8 && !(15 <= 8 * j + i < 29) ensures !Cell(Word(g[j]), i) {
      ZeroCell(i);
      if j == 1 { LowClear80(i); } else if j == 3 { HighClear15(i); }
    }
  }

  lemma LowClear80(i: nat)
    requires i < 7
    ensures !Cell(Word(0x80), i)
  {
    assert !Cell(0x80, 0) && !Cell(0x80, 1) && !Cell(0x80, 2) && !Cell(0x80, 3);
    assert !Cell(8, 0) && !Cell(8, 1) && !Cell(8, 2);
    if i >= 4 { CellDown4(0x80, i - 4); }
  }

  lemma HighClear15(i: nat)
    requires i >= 5
    ensures !Cell(Word(0x15), i)
  {
    assert Fits(0x15, 5);
    HighCell(0x15, 5, i);
  }

  /** A burst that straddles checksum and data can pass, wherever it begins. */
  lemma StraddlingBurstPasses(k: nat) returns (f: Bytes, g: Bytes)
    requires 1 <= k <= 15
    ensures Good(Some(f)) && Good(Some(g)) && FileBurst(f, g, k)
  {
    hide Image, SetOnlyIn, FileBurst, Good;
    if k <= 4 {
      CrcOfOne();
      BitsFromOne();
      g := [0x10, 0xC0, 1, 0, 0, 0, 0, 0, 0];
      UndetectedFrom([1, 0, 0, 0, 0, 0, 0], g, 4, 17, k);
    } else if k <= 12 {
      CrcOfOneByte();
      BitsOfOneByte();
      g := if k <= 8 then [0, 5, 0x0C] else [0, 0x50, 0xC0];
      UndetectedFrom(if k <= 8 then [0x0C] else [0xC0], g, if k <= 8 then 8 else 12, if k <= 8 then 20 else 24, k);
    } else {
      CrcOfTwoBytes();
      BitsOfTwoBytes();
      g := [0, 0x80, 0x53, 0x15, 0, 0];
      UndetectedFrom([0x53, 0x15, 0, 0], g, 15, 29, k);
    }
    f := Zeros(|g|);
  }

  /** Exactly the windows of sixteen bits that begin with the file, or at or after its data, are
      those in which every error of every good file is detected. */
  lemma WindowDetectedIff(k: nat)
    ensures (forall f, g :: Good(Some(f)) && FileBurst(f, g, k) ==> !Good(Some(g))) <==> k == 0 || k >= 16
  {
    hide FileBurst, Good;
    if k == 0 || k >= 16 {
      forall f, g | Good(Some(f)) && FileBurst(f, g, k) ensures !Good(Some(g)) { FileBurstDetected(f, g, k); }
    } else {
      var f, g := StraddlingBurstPasses(k);
    }
  }
}
