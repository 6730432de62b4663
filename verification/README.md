# Verified core of the Linux NFC stack

A Dafny model of the parts of the NFC stack and its demo application that hold state, loops or
interleaving, with proofs about every input, every run or every reachable state. `dafny verify
dfyconfig.toml` checks it.

- **Demo application** (`DemoState`, `DemoProtocol`, `DemoHistory`, `DemoWork`, `DemoExit`): the main loop, the callbacks of
  the stack and the exit thread share three monitors (device, SNEP client, card emulation).
  `DemoState` holds each callback as an imperative method over the globals, equal to a table of
  critical sections. `DemoProtocol` interleaves the main loop (with `SnepPush` inlined) with any
  number of callback threads and the exit thread, at the granularity of lock, critical section,
  unlock and wait; a condition wait may wake up spuriously. `DemoHistory` states every monitor variable
  by the history of callbacks, `DemoWork` matches the main thread's work with it. `DemoExit` shows, over infinite fair
  behaviours, exactly when exit ends the loop.
- **Type 4 Tag emulator** (`T4TEmulator`): the APDU state machine and the NDEF file it serves.
  `DemoEmulation` runs it inside the protocol, up to the answers the main loop sends.
- **Configuration** (`ConfigParser`, `ConfigRoundTrip`, `ConfigLines`, `ConfigStore`): the
  character-driven parser, printing and reading back, what is left out, and the sorted parameter store.
- **Checksum and non-volatile store** (`CrcChecksum`, `NvStore`): the table-driven CRC-16 against its
  shift register, what it detects, and the five-block store it protects.
- **Firmware download** (`FirmwareDownload`): the chain of condition waits against HAL callbacks.
- `Basics` holds the definitions they share.

Words and conventions. `unsigned long` has 64 bits (`ULONG`). The multi-byte checksum is stored low byte first,
as on a little-endian host. File bytes of the configuration are characters. A file is a byte
sequence, or absent; reads fail only at the end of the file; a write may fail to open its file or
run out of room. Calls of the tag, SNEP and card emulation APIs are steps with arbitrary results.
Fairness in `DemoExit` means: a thread inside a critical section finishes it, and a main thread that can
move again and again moves.

Where the code differs from what one would expect, the model follows the code:

- `readConfig` clears the string flag just before it tests it, so an unclosed `{` group loses its
  last byte (and a single byte becomes a number): a list survives exactly when the character after
  its last digit is one of the delimiters (`ConfigRoundTrip.ListSurvivesIffDelimited`).
- Configuration files are not line oriented: an incomplete line swallows the next one. A file can be
  split exactly where the parser is at the beginning of a line.
- A lone `0` is a value only at the end of its line; before anything else the line assigns nothing.
- A hexadecimal number followed by a space becomes bytes; it reads back as the same number exactly up
  to six digits, or when it is zero.
- The length guard of the tag emulator is weaker than the file; the exact offsets at which it lets a
  read run over, or make a copy length negative, are stated. It does not look at the response buffer of 255 bytes either, although the
  capability container advertises reads of up to 255: exactly the reads of 254 and 255 bytes that pass
  the guard have answers longer than the buffer (`T4TEmulator.AnswerFitsIff`).
- A completed write of no data makes the next verification wipe the store. A write cut short is
  unnoticed exactly when its kept part has the checksum of the whole: of the lost tails of two or more
  bytes, exactly one value of the last two bytes; of a lost last byte, at most one value, sometimes none.
- Of the windows of 16 bits of a block file, errors are always detected exactly in the one that is the
  stored checksum and in those inside the data; a burst across the boundary can pass.
- A tag or reader that arrives after EXIT is published and before the main thread has noticed it undoes
  EXIT for good: no run leads out of the loop any more. In share mode the exit thread does not wake a
  main thread that waits for data. `DemoExit.LoopEndsIff` says exactly when the loop ends.
- A spurious wakeup while the main thread waits for an APDU leaves its flag up: the main thread then
  spins until another callback comes (`DemoWork.RestsIffNotSpinning`).
- The firmware download tolerates a spurious wakeup exactly when a callback already holds the event's
  mutex; any other lets the downloader pass a request that was never answered.

## Model

| member | source | states |
|---|---|---|
| CrcChecksum.Compute | src/libnfc-nci/adaptation/CrcChecksum.cpp:98-109 | the table-driven loop returns the checksum defined by the bit-at-a-time shift register, for every buffer and length |
| CrcChecksum.TableIsEightClocks | src/libnfc-nci/adaptation/CrcChecksum.cpp:52-86 | each of the 256 table entries is its index clocked eight times through polynomial 0xA001 |
| CrcChecksum.TableStepIsByte | src/libnfc-nci/adaptation/CrcChecksum.cpp:106 | one table step shifts in the eight bits of a byte, least significant first |
| CrcChecksum.ShiftBurst | src/libnfc-nci/adaptation/CrcChecksum.cpp:98-109 | from any register content, two bit strings that differ only inside 16 consecutive bits lead to different contents |
| CrcChecksum.BurstDetected | src/libnfc-nci/adaptation/CrcChecksum.cpp:98-109 | two equal-length messages that differ only inside a window of 16 consecutive bits have different checksums |
| CrcChecksum.CrcLinear | src/libnfc-nci/adaptation/CrcChecksum.cpp:98-109 | the checksum of the exclusive-or of two messages is the exclusive-or of their checksums |
| CrcChecksum.ResidueZeroIffTrailerIsChecksum | src/libnfc-nci/adaptation/CrcChecksum.cpp:98-109 | a message followed by two bytes has checksum 0 if and only if they are the message's checksum, low byte first |
| CrcChecksum.TwoByteTailIff | src/libnfc-nci/adaptation/CrcChecksum.cpp:98-109 | from every message every checksum is reached by exactly one tail of two bytes, named through the register run backwards |
| CrcChecksum.OneByteTailIff | src/libnfc-nci/adaptation/CrcChecksum.cpp:98-109 | a one-byte tail reaches a given checksum if and only if it is the named word, which need not be a byte |
| CrcChecksum.ParityPreserved | src/libnfc-nci/adaptation/CrcChecksum.cpp:98-109 | the parity of the checksum's bits is the parity of the message's bits |
| CrcChecksum.OddErrorDetected | src/libnfc-nci/adaptation/CrcChecksum.cpp:98-109 | any odd number of flipped message bits changes the checksum |
| NvStore.VerifyIntegrity | src/libnfc-nci/adaptation/CrcChecksum.cpp:122-158 | the chunked read loop accepts a file if and only if it is absent, or holds nonempty data preceded by that data's checksum |
| NvStore.NvFiles.Write | src/libnfc-nci/adaptation/libmain.c:166-207 | the file becomes as much of checksum and data as the disk takes; success is reported only if that is everything; over-long paths and failed opens change nothing |
| NvStore.NvFiles.Read | src/libnfc-nci/adaptation/libmain.c:107-146 | the caller's buffer receives the data after the checksum, its rest is untouched, and count and status are reported |
| NvStore.NvFiles.Delete | src/libnfc-nci/adaptation/libmain.c:220-250 | the five blocks and no others are removed; without force only the first time |
| NvStore.NvFiles.Verify | src/libnfc-nci/adaptation/libmain.c:263-301 | nothing changes if all five blocks are good, otherwise all five are removed |
| NvStore.CleanRunNeverWipes | src/libnfc-nci/adaptation/libmain.c:166-301 | over any run of complete nonempty writes, reads, deletions and verifications the blocks stay good and no verification wipes |
| NvStore.CompletedWriteSurvivesIffNonempty | src/libnfc-nci/adaptation/libmain.c:166-301 | after a completed write into a good store the next verification keeps everything if data was written and wipes if it was empty |
| NvStore.TornWriteGoodIff | src/libnfc-nci/adaptation/libmain.c:184-201 | a write cut short passes verification if and only if some data was kept and the kept part has the checksum of the whole |
| NvStore.TornWriteUnnoticed | src/libnfc-nci/adaptation/libmain.c:184-201 | a concrete write cut short that passes verification |
| NvStore.TornWriteWipesIff | src/libnfc-nci/adaptation/libmain.c:166-301 | after a write cut short into a good store the next verification wipes it, unless some data was kept and the kept part has the checksum of the whole |
| NvStore.LostTailUnnoticedIff | src/libnfc-nci/adaptation/libmain.c:184-201 | a write that loses two or more bytes passes verification for exactly one value of the last two, whatever was kept and whatever else was lost |
| NvStore.LostByteUnnoticedIff | src/libnfc-nci/adaptation/libmain.c:184-201 | a write that loses its last byte passes if and only if that byte is the named word, so for at most one value |
| NvStore.LostByteAlwaysNoticed | src/libnfc-nci/adaptation/libmain.c:184-201 | a kept part after which every lost byte is noticed |
| NvStore.WriteReadsBack | src/libnfc-nci/adaptation/libmain.c:107-207 | after a completed write and any run that does not touch the block, its data is what was written, unless the block is one of the five and some call of the run was an effective deletion or a verification that found a bad block; then it is absent |
| NvStore.SmallErrorAlwaysWipes | src/libnfc-nci/adaptation/libmain.c:263-301 | a burst of at most 16 bits, or an odd number of flips, in the data of one of the five blocks makes the next verification remove all five and nothing else |
| NvStore.WindowDetectedIff | src/libnfc-nci/adaptation/CrcChecksum.cpp:122-158 | every error of every good file inside 16 consecutive bits of the file is detected if and only if those bits are the stored checksum or begin in the data |
| NvStore.StraddlingBurstPasses | src/libnfc-nci/adaptation/CrcChecksum.cpp:122-158 | for each of the fifteen windows across the boundary, two good files that differ only there |
| NvStore.FileBurstWipes | src/libnfc-nci/adaptation/libmain.c:263-301 | in any history, such a detected burst in a good block makes the next verification remove all five and nothing else |
| NvStore.GoodIffResidueZero | src/libnfc-nci/adaptation/CrcChecksum.cpp:142-146 | a present file is accepted if and only if its data followed by its stored checksum has checksum 0 |
| NvStore.UnforcedDeleteActsOnce | src/libnfc-nci/adaptation/libmain.c:222-227 | after a deletion, unforced deletion has no effect for the rest of any run |
| NvStore.WhatCallsLeave | src/libnfc-nci/adaptation/libmain.c:166-301 | an over-long path or a failed open changes no file; a write touches its block only; an effective deletion, and a verification that finds a bad block, remove exactly the files 1 to 5 |
| NvStore.PathFitsIff | src/libnfc-nci/adaptation/NfcAdaptation.cpp:82-168 | a path fits up to 185 characters, so every path of the program's buffer of 120 does, the default one too |
| T4TEmulator.Emulator.FillRsp | demoapp/main.c:94-117 | the response is the requested slice of size and record, the rest of the buffer is untouched, and the callback fires if the end is reached |
| T4TEmulator.Emulator.Next | demoapp/main.c:128-183 | state, response bytes, response size and callback of one command, for every state and command, with nothing behind the answer overwritten |
| T4TEmulator.Emulator.Execute | demoapp/main.c:131-171 | data, state change and callback of the command comparisons |
| T4TEmulator.Emulator.Conclude | demoapp/main.c:172-182 | status 9000 is appended on success; on failure the answer is 6A82 and the state Ready |
| T4TEmulator.StateIsHistory | demoapp/main.c:128-183 | for every trace from Ready, each selection state holds if and only if the recent commands are of the matching form |
| T4TEmulator.AnswerIsHistory | demoapp/main.c:128-183 | every answer of every trace from the history alone: the CC file after application select, CC select and reads only; a record slice after NDEF select and guarded reads only; any failure returns to Ready |
| T4TEmulator.PartitionReassembles | demoapp/main.c:94-110 | after any trace that left the NDEF file selected, consecutive reads of any lengths are answered with chunks whose concatenation is the rest of the file, and the file stays selected |
| T4TEmulator.PartitionIsServed | demoapp/main.c:160-170 | each of those reads passes the guard, is in range and keeps the file selected; its answer fits the response buffer if and only if its length and the status do |
| T4TEmulator.AnswerFitsIff | demoapp/main.c:160-175 | for every state and command the answer fits the main loop's buffer of 255 bytes unless it is a guarded read of 254 or 255 bytes |
| T4TEmulator.LongReadOverrunsBuffer | demoapp/main.c:160-175 | for every record of at least 252 bytes, a trace of two commands whose answer is 256 bytes long |
| T4TEmulator.PushedOnceAtTheEnd | demoapp/main.c:111-116 | in those traces the callback, when set, fires on the last of the reads and on no other |
| T4TEmulator.GuardAdmitsOverrun | demoapp/main.c:162-165 | the exact offsets at which some length passes the guard yet runs past the end of the file |
| T4TEmulator.GuardAdmitsUnsafeIff | demoapp/main.c:98-106 | the exact offsets at which the guard admits some unsafe read: one past the end, or one with a negative copy length |
| T4TEmulator.ReadRefusedIff | demoapp/main.c:160-175 | with the NDEF file selected, exactly which reads are answered 6A82 and reset the emulator, and which report the record as sent |
| T4TEmulator.ConstantsAgree | demoapp/main.c:77-83 | the SELECT commands are those of the NDEF application, the CC file and the NDEF file; the CC file states its own length and names the file the NDEF SELECT names |
| ConfigParser.RegistersClear | src/libnfc-nci/adaptation/config.cpp:217-367 | in every reachable parser state, outside numeric values the number register is 0 and the string flag clear |
| ConfigParser.StaleRegistersInvisible | src/libnfc-nci/adaptation/config.cpp:217-367 | states that differ only in stale registers or the string flag add the same parameters for every continuation |
| ConfigParser.FreshLine | src/libnfc-nci/adaptation/config.cpp:217-367 | after a prefix that ends at the beginning of a line, the rest parses as a file of its own |
| ConfigParser.SplitsIffLineBegins | src/libnfc-nci/adaptation/config.cpp:217-367 | a prefix can be split off for all continuations if and only if it leaves the parser at the beginning of a line |
| ConfigParser.EofIsNewline | src/libnfc-nci/adaptation/config.cpp:219-228 | a file with and without a final newline adds the same parameters |
| ConfigParser.PrintableIff | src/libnfc-nci/adaptation/config.cpp:111-117 | the printable characters are exactly the 66 that are written out |
| ConfigRoundTrip.LineParses | src/libnfc-nci/adaptation/config.cpp:230-363 | one printed assignment parses to its one parameter |
| ConfigRoundTrip.RoundTrip | src/libnfc-nci/adaptation/config.cpp:173-373 | printing any list of decimal, hexadecimal (either size of letters), quoted and byte-list assignments and parsing gives exactly that list; names and the kept characters of quoted text are from a set written out, every other character inside quotes is dropped, and text gains its NUL |
| ConfigRoundTrip.UnclosedListParses | src/libnfc-nci/adaptation/config.cpp:303-345 | for every name and list of bytes, the line without the closing brace loses the last byte, or turns a single byte into a number |
| ConfigRoundTrip.ListSurvivesIffDelimited | src/libnfc-nci/adaptation/config.cpp:303-345 | whatever character follows the last byte, the list is read back if and only if it is a delimiter |
| ConfigRoundTrip.DigitsAre | src/libnfc-nci/adaptation/config.cpp:128-165 | decimal and hexadecimal digits and delimiters, written out |
| ConfigLines.CommentIgnored | src/libnfc-nci/adaptation/config.cpp:230-363 | a comment line, ended by either line end, changes nothing in any file |
| ConfigLines.StraySkipped | src/libnfc-nci/adaptation/config.cpp:232-243 | before a name, a character that cannot begin one is skipped |
| ConfigLines.BrokenNameIgnored | src/libnfc-nci/adaptation/config.cpp:244-254 | a name broken off by anything but `=` assigns nothing; broken off by a line end, it takes the next line with it |
| ConfigLines.BadValueIgnored | src/libnfc-nci/adaptation/config.cpp:255-280 | a value that begins with anything but a quote, a brace or a digit assigns nothing |
| ConfigLines.ZeroThenMoreIgnored | src/libnfc-nci/adaptation/config.cpp:281-302 | a lone zero followed by anything but an x, a digit or a line end assigns nothing |
| ConfigLines.TextThenMore | src/libnfc-nci/adaptation/config.cpp:346-362 | whatever follows a closing quote on its line is ignored |
| ConfigLines.DecimalThenMore | src/libnfc-nci/adaptation/config.cpp:303-345 | a decimal number of any length is its value modulo the word size; what follows it on its line is ignored |
| ConfigLines.DecimalLine | src/libnfc-nci/adaptation/config.cpp:303-345 | the same at the end of the line, leading zeros and zero included |
| ConfigLines.HexThenMore | src/libnfc-nci/adaptation/config.cpp:303-345 | a hexadecimal number of any length likewise, if neither a digit nor a delimiter follows |
| ConfigRoundTrip.FoldBigEndian | src/libnfc-nci/adaptation/config.cpp:738-746 | the big-endian fold recovers a number from its one to three bytes |
| ConfigRoundTrip.TrailingSpaceHarmlessIff | src/libnfc-nci/adaptation/config.cpp:303-345 | a hexadecimal number with and without a trailing space reads back equal if and only if it has at most six digits or is zero |
| ConfigStore.NfcConfig.ReadConfig | src/libnfc-nci/adaptation/config.cpp:173-373 | the reading loop leaves the vector as all parsed parameters inserted, in order, into the kept or reset content; return value and validity flag |
| ConfigStore.NfcConfig.Turn | src/libnfc-nci/adaptation/config.cpp:230-363 | one turn of the state switch updates registers and list like the parser's step |
| ConfigStore.NfcConfig.NumTurn | src/libnfc-nci/adaptation/config.cpp:303-345 | the numeric case, wrapping at the word size; the flush behind the cleared flag never runs |
| ConfigStore.NfcConfig.PushBytes | src/libnfc-nci/adaptation/config.cpp:314-319 | pushes the low bytes of the number, most significant first |
| ConfigStore.NfcConfig.Add | src/libnfc-nci/adaptation/config.cpp:585-600 | inserts before the first entry that is not less |
| ConfigStore.NfcConfig.MoveFromList | src/libnfc-nci/adaptation/config.cpp:611-619 | the list is appended to the vector and emptied |
| ConfigStore.NfcConfig.MoveToList | src/libnfc-nci/adaptation/config.cpp:630-638 | the vector replaces the list and is emptied |
| ConfigStore.NfcConfig.Find | src/libnfc-nci/adaptation/config.cpp:532-555 | on a sorted vector the early-exit scan returns the first entry of the name, or nothing if there is none |
| ConfigStore.NfcConfig.GetNumValue | src/libnfc-nci/adaptation/config.cpp:727-769 | the number of the found parameter, short byte strings folded, truncated to the caller's size; nothing for other sizes or names |
| ConfigStore.LastWriteWins | src/libnfc-nci/adaptation/config.cpp:532-638 | after any sequence of base and optional reads, failed opens and cleans the vector is a sorted permutation of the assignments since the last reset, and a name's first entry is its latest assignment |
| ConfigStore.PrintedFileReadsBack | src/libnfc-nci/adaptation/config.cpp:173-373 | a printed list read as base configuration answers each name with its last assignment |
| ConfigStore.LessIff | src/libnfc-nci/adaptation/config.cpp:585-600 | the order of names is lexicographic: decided at the first difference, shorter first |
| DemoState.Globals.OnDataReceived | demoapp/main.c:185-204 | performs exactly its critical section, broadcasts as the table says, releases its lock |
| DemoState.Globals.OnHostCardEmulationActivated | demoapp/main.c:205-236 | the same, including the overwriting of EXIT |
| DemoState.Globals.OnHostCardEmulationDeactivated | demoapp/main.c:237-282 | performs its device section and then its card emulation section |
| DemoState.Globals.OnTagArrival | demoapp/main.c:284-315 | performs its device section, including the overwriting of EXIT |
| DemoState.Globals.OnTagDeparture | demoapp/main.c:316-340 | performs its device section |
| DemoState.Globals.OnDeviceArrival | demoapp/main.c:341-380 | performs its device section |
| DemoState.Globals.OnDeviceDeparture | demoapp/main.c:382-445 | performs its device section and then its SNEP section |
| DemoState.Globals.OnSnepClientReady | demoapp/main.c:453-519 | performs its device section and then its SNEP section |
| DemoState.Globals.OnSnepClientClosed | demoapp/main.c:521-584 | performs its device section and then its SNEP section |
| DemoState.Globals.ExitThread | demoapp/main.c:2016-2049 | performs its SNEP section and then its device section, and no card emulation section |
| DemoProtocol.StepKeepsInv | demoapp/main.c:1171-1502 | every step of the main loop, of a callback or exit thread, and every spurious wakeup keeps the invariant of locks, waits, types, mailbox and mode |
| DemoProtocol.NoLostWakeup | demoapp/main.c:1180-1488 | in every reachable state, a main thread asleep and un-notified on a condition still has that monitor's variable in the state it waits to leave |
| DemoProtocol.PresentHasType | demoapp/main.c:1193-1195 | in every reachable state a present device has a type and a departed one none; the branch that abandons polling is unreachable |
| DemoProtocol.MailboxInOrder | demoapp/main.c:1428-1477 | in every reachable state DATA_RECEIVED means the buffer holds the latest APDU, not yet handed on, and the APDUs handed to the emulator are received ones at strictly increasing positions |
| DemoProtocol.LockDiscipline | demoapp/main.c:669-699 | only the main thread ever holds two locks or asks for one while holding one, nobody asks for a lock it holds, and a main thread that sleeps or calls into the stack holds none |
| DemoProtocol.ChangesNeedLock | demoapp/main.c:185-583 | in every reachable state every change of a monitor's variables is made by the thread that holds its lock |
| DemoProtocol.NoWaitCycle | demoapp/main.c:1428-1475 | in every reachable state no chain of threads waiting for each other's locks is a cycle or longer than three threads |
| DemoProtocol.SomeoneCanMove | demoapp/main.c:1171-1502 | a reachable state with an unfinished thread, or a main thread that neither sleeps nor has left, has an enabled step |
| DemoHistory.MonitorsAreHistory | demoapp/main.c:185-583 | in every state of every run the device state and type, the SNEP state, the card emulation state, the received and the handed-on APDUs are exactly those of the history of callback sections, exit sections and waits of the main thread |
| DemoHistory.CallbacksRunThrough | demoapp/main.c:185-583 | a callback that has returned has run one or two sections, as written out for each |
| DemoHistory.CallbacksOfModes | demoapp/main.c:586-640 | exactly which callbacks can come in which mode |
| DemoHistory.MainWrites | demoapp/main.c:1171-1502 | what each step of the main thread writes, and in which states of the variables |
| DemoWork.WorkMatchesFinds | demoapp/main.c:1192-1500 | over every run each tag found is worked on once, each reader served once, each peer's client looked after once; in push mode one message is put for each peer whose client was ready when the push wait was over, in the other modes none; the push wait takes place exactly when it should |
| DemoWork.EachArrivalFoundOnce | demoapp/main.c:1173-1500 | over every run whatever is found is the device of the latest arrival, still here, and no arrival is found twice |
| DemoWork.WorkIsOfItsKind | demoapp/main.c:1193-1480 | over every run, work on a tag, a peer or a reader follows finding one |
| DemoWork.SleepsIffWaiting | demoapp/main.c:1180-1488 | in runs without spurious wakeups, a monitor's variable is in a waiting state exactly while the main thread sleeps on it un-notified |
| DemoWork.RestsIffNotSpinning | demoapp/main.c:1171-1502 | in every reachable state without a thread inside a section: left alone, the main thread falls asleep or leaves within 17 steps if and only if it is not serving a reader with a wait for data that a spurious wakeup ended |
| DemoWork.SpinningHappens | demoapp/main.c:1433-1437 | such a spinning state is reached |
| DemoWork.NeverSpins | demoapp/main.c:1171-1502 | without spurious wakeups none is |
| DemoEmulation.SentIsSpecified | demoapp/main.c:1426-1477 | over every run of the protocol beside the emulator, the answers sent, with the pending one, are those its specification gives to the history of activation callbacks and APDUs handed on |
| DemoEmulation.KthAnswerSent | demoapp/main.c:1440-1460 | in every run the answer to an APDU handed on is the emulator's answer in the state that the earlier activations and APDUs of the history led to, sent after exactly the answers to the earlier APDUs |
| DemoEmulation.ReadRefusedAfterActivation | demoapp/main.c:205-210 | in every run, after an activation callback and until the next SELECT is handed on, every READ is answered 6A82 |
| DemoEmulation.ReaderGetsFile | demoapp/main.c:1426-1477 | in every run in which a reader has selected the NDEF file and read it through in consecutive pieces, the last answers sent carry exactly the file |
| DemoExit.MainStepProgress | demoapp/main.c:1171-1502 | with EXIT published the main thread can only be asleep waiting for card emulation data, and each of its steps decreases the measure and keeps EXIT published |
| DemoExit.PublishedStable | demoapp/main.c:1171-1502 | every step but an arrival that undoes EXIT keeps it published, and no step increases the measure |
| DemoExit.MainStepsBounded | demoapp/main.c:1171-1502 | with EXIT published the main thread takes at most 14 more steps in any run in which nothing undoes EXIT |
| DemoExit.ExitTerminates | demoapp/main.c:1171-1502 | in every mode, from publication on, a fair behaviour in which no arrival undoes EXIT and no wait for card emulation data lasts for ever reaches a state where the main thread has left the loop and holds no lock |
| DemoExit.LoopEndsIff | demoapp/main.c:2016-2049 | from the start of the program, in every mode: a fair behaviour leaves the loop if and only if some step is the exit thread's last section, after it no tag or reader arrives before the main thread has noticed EXIT, and every later wait for card emulation data is ended |
| DemoExit.SomeBehaviorEnds | demoapp/main.c:2016-2049 | a concrete fair behaviour of poll mode in which exit takes effect and the loop ends |
| DemoExit.WithoutShareLeavesIff | demoapp/main.c:284-315 | in poll, push and write mode, after publication: the loop is left if and only if no tag arrives before the main thread has noticed EXIT |
| DemoExit.SettledLeavesIff | demoapp/main.c:1426-1477 | with EXIT published, all callbacks finished and none to come: the loop is left if and only if the main thread neither sleeps on card emulation data nor is on its way to that wait with an empty mailbox |
| DemoExit.UndoneNeverLeaves | demoapp/main.c:284-315 | once the exit thread has finished and EXIT has been undone, no run of any callbacks and spurious wakeups leads out of the loop |
| DemoExit.TagArrivalCancelsExit | demoapp/main.c:303-308 | a reachable state of poll mode after the end of the exit thread from which no run leaves the loop |
| DemoExit.ShareModeSleepsThroughExit | demoapp/main.c:1433-1437 | a reachable state of share mode with EXIT published and every thread finished in which the main thread sleeps on card emulation data |
| FirmwareDownload.SignalFindsSleeper | src/libnfc-nci/adaptation/NfcAdaptation.cpp:660-711 | whenever a callback can lock or signal, its event is the one in progress and the downloader is asleep on it, or was woken spuriously while the callback held the mutex |
| FirmwareDownload.EveryStepCounts | src/libnfc-nci/adaptation/NfcAdaptation.cpp:606-649 | every step keeps the invariant and brings the handshake exactly one step closer to its end; a spurious wakeup while a callback holds the mutex keeps both and makes one signal superfluous |
| FirmwareDownload.HandshakeCompletes | src/libnfc-nci/adaptation/NfcAdaptation.cpp:606-711 | if spurious wakeups only come while a callback holds the mutex, requests go out in plan order each after all earlier answers, and a run stops exactly when the plan is complete, after seven steps a request, with all event mutexes free; without them no signal is lost |
| FirmwareDownload.DownloadOrder | src/libnfc-nci/adaptation/NfcAdaptation.cpp:619-645 | over every such run open is requested first, CORE_INIT only after the response 40 00, the core initialization only after the response 40 01, close only after its completion and last, none twice; without the vendor extension open and close only |
| FirmwareDownload.SpuriousHarmlessIff | src/libnfc-nci/adaptation/NfcAdaptation.cpp:816-864 | in every reachable state, whatever wakeups came before: after a spurious wakeup no continuation passes the request before it is answered if and only if a callback already holds the event's mutex |
| FirmwareDownload.SpuriousWakeupBreaksOrder | src/libnfc-nci/adaptation/NfcAdaptation.cpp:816-835 | a concrete run in which one spurious wakeup lets the second request go out before the first is answered |

## Left out

- The main loop and `SnepPush` (`demoapp/main.c:665-703`, `demoapp/main.c:1171-1502`) and `DownloadFirmware` are program counters of a step system, not methods: their point is what other threads do between two of their statements.
- Interleaving inside a critical section is not modelled: the variables of a monitor are only accessed with its lock held.
- DemoEmulation.SentIsSpecified: the emulator is reset under the device lock and used under the card emulation lock (`demoapp/main.c:209`, `demoapp/main.c:1453`); each is one step here, an overlap of the two is not modelled. For a command outside the precondition of `T4TEmulator.Emulator.Next` the C code has no defined answer, and the one stated is the model's.
- T4TEmulator.Emulator.Next: requires that no comparison runs past the memory readable at the command (the program ignores the command's length), that reads stay inside the memory of the record's buffer, that copy lengths are not negative, and that a guarded read's answer fits the memory from the response buffer on, because the C code has no defined behaviour otherwise.
- T4TEmulator.Emulator.Execute: the same.
- ConfigRoundTrip.TrailingSpaceHarmlessIff: stated for at most 16 digits, because a longer number makes the C code shift by more than the word size.
- ConfigStore.NfcConfig.PushBytes: a group of more than 16 digits makes the C code shift by the word size or more, which has no defined result; the model pushes zero bytes there.
- ConfigStore.NfcConfig.ReadConfig: the same for files with such groups (also `NumTurn` and `Turn`).
- Memory allocation, leaks and pointer identity of parameters and APDU buffers: parameters and buffers are values.
- `GetStrValue` and the three `getValue` overloads (`config.cpp:458-521`): copies over `find`.
- `GetInstance` and path building: which configuration file is opened; a file that cannot be opened is modelled.
- File errors other than a failed open and a full disk.
- Printing, NDEF display, command line, `help` and MIFARE transceive in `demoapp/main.c`; multiple tag selection.
- Mutex and thread creation and the allocation guards in `demoapp/tools.c`.
- The service wrappers in `src/service`, the stack below the HAL interface, logging and constant-only headers.
