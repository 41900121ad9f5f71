# A verified model of the x48 calculator emulator

x48 emulates the HP 48 SX and GX: a Saturn processor whose instructions are two to twenty-one
nibbles long, a memory map assembled at run time by a daisy chain of memory controllers, a
display refreshed from RAM, timers driven by the host's clock, and the tools around it (a
disassembler, a ROM checker, a printer for the calculator's decimal numbers). This project
models the logic of those parts in Dafny and proves what they are for.

## How it is organised

Most parts come twice: as functions on values, about which the theorems are stated, and as
classes or loops in the form the C code has, each proved to compute those functions.

* `Wrappers`, `Digits`, `Fields`, `Register`: optional values, positional numbers, the field
  arithmetic of the register unit in both bases, and its in-place loops over possibly aliased
  digit arrays.
* `ReturnStack`, `Interrupts`: the eight-deep return stack as a window on an unbounded one, and
  the masking, pending and chaining of interrupts.
* `DaisyChain`, `Memory`, `Bus`: the controllers, one decode from addresses to physical cells, and
  the six hand-written decoders proved to be that one decode.
* `Crc`, `CheckRom`: the nibble CRC as polynomial division, and the interleaved walk over a ROM.
* `Instructions`, `Machine`, `Step`, `Cpu`, `Transfers`: decoding, execution, the machine
  invariant over every run, and the nested-switch interpreter proved to be decode-then-execute.
* `Laws`: short programs, taken together: instructions that undo each other, what a test finds after
  an instruction, what goes through memory and back, and what no run changes.
* `Listing`, `Manual`, `Moves`, `Branches`: what one step does, nibble pattern by nibble pattern and
  without reference to the decoder's tables: the arithmetic and the comparisons as the equations
  and relations that the disassembler lists, and every other pattern that decodes.
* `Windows`, `Devices`: what the memory map shows where, and the device registers with a life of
  their own.
* `Handlers`: every run of the machine projected to a run of the interrupt protocol's own events.
* `Disasm`: the second decoder, with the agreement theorems.
* `Scheduler`: the batched countdown compared with counters decremented one by one: equal always
  for the counters no program can write to, and for the timers exactly until a write interferes.
* `Redraw`: the countdown from a change of the display's geometry to the redraw, shared by
  `Scheduler`, which calls it in time, and `Lcd`, which draws.
* `DisplayRegisters`, `Lcd`: derived display geometry, and the screen buffers as a cache of RAM.
* `Timer`: the access time and its reading.
* `RealPrinter`: printed decimal numbers, read back by an independent reader of decimal text.

## Where the code departs from its intent

These are stated as theorems, with the exact condition.

* On the GX, loads give the window 0x90000-0x90fff to the device controller and stores give it to
  the bank controller; the decodes agree everywhere else, and there unless exactly one of the two
  is based at 0x90000 (`Memory.StoresDecodeLikeLoads`, `Memory.WindowMismatch`).
* The disassembler comes out one nibble short on `D0=D0+n` and its three relatives, on the field
  form of the one-bit shift and on the five-nibble no-operation, and nowhere else
  (`Disasm.Disassemble`).
* The disassembler lists `X=-X` as `X=X-1`; apart from those negations every arithmetic, logic,
  copy and shift instruction does what is listed for it (`Listing.ListingRightExactly`).
* Addition and subtraction of constants and C+P+1 are hexadecimal in decimal mode too; what they
  leave is the decimal result exactly when the low digit absorbs, or covers, the constant
  (`Fields.ConstantAddIsHex`, `Fields.ConstantSubIsHex`, `Laws.CPlusPIsHex`).
* The program counter is not masked when it advances. No instruction can tell
  (`Step.StepCongruent`); the scheduler's test for the clock service can
  (`Scheduler.HighBitsShow`).
* The incremental screen update finds every visible cell exactly when rows are at least as long as
  the screen is wide, and every menu cell, inside the buffer, exactly for 55 and 63 display lines
  (`Lcd.DispFindsExactly`, `Lcd.MenuFindsExactly`).
* A line-count write leaves the window height that start-up would compute only from 55 lines up
  (`DisplayRegisters.Panel.WriteLineCount`).
* A pending redraw is lost when a batch charges it with exactly the instructions it had left. In a
  run that is two changes of the geometry fourteen instructions apart, the batch of the first not
  charging its new countdown, with the scheduler left alone between them and no third change, nor
  SHUTDN, in the next instruction (`Redraw.LostExactly`, `Redraw.LostExample`).
* With the display off a full redraw leaves the screen blank, but a store to the display area still
  lights its cell, exactly when the nibble is not zero (`Lcd.Screen.OffStoreLights`); the other
  results about the screen are for a display that is on.
* A write to timer 1 restarts its countdown before the batch is charged to it, and a write to
  timer 2 after the next batch has been decided on; the batched form then leaves the
  per-instruction form exactly as `Scheduler.SameExactly` says (`Scheduler.TimerOneExample`,
  `Scheduler.TimerTwoExample`).
* A clock gap is measured through a 32-bit absolute value: 2^32 ticks go unnoticed
  (`Timer.AbsorbedExactly`, `Timer.SixDaysAreNotAbsorbed`), and a clock set back a little moves
  timer 2 up after all when that carries it from below zero to zero or above
  (`Timer.BackwardsExactly`).
* The constant that start-up's time-out is computed with is named for ten minutes (src/timer.c:72);
  in ticks of 1/8192 s it is twenty-four (`Timer.TicksInTime`).
* A zero mantissa with a small negative exponent sends the printer's scan for the last non-zero
  digit past the front of its buffer; that is the one input `RealPrinter.RealNumber` excludes
  (`RealPrinter.SomeDigit`).

## Conventions

Nibbles are integers below 16 and numbers are digit strings, least significant digit first. C's
`& 0xf`, `& 0xfffff` and shifts by whole nibbles are written with `%` and `/`, which agree with
them for negative operands too. A card's address mask has the form 2^k - 1, so masking with it
is `%` by the card's size. Host input and output, the clock and the keyboard are parameters.

## Model

| member | source | states |
|---|---|---|
| `Fields.AddExact` | src/register.c:79-100 | sum: r1 + r2 = res + CARRY * base^n, hexadecimal and decimal, for every field length |
| `Fields.SubExact` | src/register.c:124-145 | difference: r1 - r2 = res - CARRY * base^n, in both bases |
| `Fields.RippleUpExact` | src/register.c:183-227 | increment and constant addition add exactly their constant although the loop stops at the first clear carry |
| `Fields.RippleDownExact` | src/register.c:229-273 | decrement and constant subtraction take away exactly their constant, with the borrow |
| `Fields.RippleUpStops` | src/register.c:190-199 | after the early exit every higher digit is as it was |
| `Fields.Complement2Exact` | src/register.c:147-169 | -r is base^n - r modulo base^n, and the sum the CARRY test looks at is zero exactly for r = 0 |
| `Fields.Complement1Exact` | src/register.c:171-181 | -r-1 and r add up to base^n - 1 |
| `Fields.ConstantAddIsHex` | src/register.c:206-227 | constant addition is hexadecimal; in decimal mode the digits and carry are those of the decimal sum exactly when the low digit absorbs the constant |
| `Fields.ConstantSubIsHex` | src/register.c:252-273 | constant subtraction is hexadecimal; in decimal mode the digits and borrow are those of the decimal difference exactly when the low digit covers the constant |
| `Fields.ShiftLeftExact` | src/register.c:340-361 | a left shift multiplies by 16, dropping the top digit |
| `Fields.ShiftRightExact` | src/register.c:363-388 | a right shift divides by 16, with the digit shifted out as remainder |
| `Fields.ShiftRightBitExact` | src/register.c:390-403 | the one-bit right shift halves the field, the bit shifted out being the remainder |
| `Fields.CompareIsOrder` | src/register.c:461-536 | the comparison from the top digit down is the order of the numbers, in any base |
| `Fields.CompareDual` | src/register.c:461-536 | exchanging the operands turns each order into its dual |
| `Fields.CompareIsBorrow` | src/register.c:124-145 | ?r1<r2 holds exactly when r1-r2 on the same field sets CARRY: any nibbles, either mode |
| `Fields.FieldsTile` | src/register.c:55-78 | the fields tile a register: X, M and S are all of it, B and XS make X, the address field is the low five digits, WP reaches up to P and P is the digit there |
| `Fields.FieldsRepeat` | src/register.c:55-78 | codes 8 to 14 name the same fields as 0 to 6, and the fields of IN and OUT are the low digits |
| `Register.Alu.AddRegister` | src/register.c:79-100 | the in-place loop, the result register being either operand or both, writes those digits into the field, sets CARRY and leaves the other digits alone |
| `Register.Alu.SubRegister` | src/register.c:124-145 | the same for subtraction |
| `Register.Alu.Complement2Register` | src/register.c:147-169 | the same for negation, CARRY telling zero from the rest |
| `Register.Alu.Complement1Register` | src/register.c:171-181 | the same for the digit complement, which clears CARRY |
| `Register.Alu.IncRegister` | src/register.c:183-204 | the increment loop with its early exit |
| `Register.Alu.DecRegister` | src/register.c:229-250 | the decrement loop with its early exit |
| `Register.Alu.AddRegisterConstant` | src/register.c:206-227 | constant addition, always in base 16 |
| `Register.Alu.SubRegisterConstant` | src/register.c:252-273 | constant subtraction, always in base 16 |
| `Register.Alu.AddPPlusOne` | src/register.c:102-122 | C+P+1 over the address field, always in base 16 |
| `Register.Alu.ShiftLeftRegister` | src/register.c:340-361 | plain and circular left shifts in place |
| `Register.Alu.ShiftRightRegister` | src/register.c:363-388 | plain and circular right shifts in place, with the sticky bit |
| `Register.Alu.ShiftRightBitRegister` | src/register.c:390-403 | the one-bit shift in place, with the sticky bit |
| `Register.Alu.LogicRegister` | src/register.c:284-304 | bitwise and and or in place, aliased or not |
| `Register.Alu.CopyRegister` | src/register.c:306-313 | a field copied, the rest kept |
| `Register.Alu.ExchangeRegister` | src/register.c:315-325 | a field exchanged between two registers, the rest of both kept |
| `Register.Alu.ZeroRegister` | src/register.c:275-282 | a field cleared, the rest kept |
| `Register.Alu.IsZeroRegister` | src/register.c:405-431 | the answer is whether the number in the field is zero |
| `Register.Alu.IsEqualRegister` | src/register.c:433-459 | the answer is whether the numbers in the two fields are equal |
| `Register.Alu.IsLessRegister` | src/register.c:461-478 | the early-exit loop answers the numeric order |
| `Register.Alu.IsLessOrEqualRegister` | src/register.c:480-497 | the same for <= |
| `Register.Alu.IsGreaterRegister` | src/register.c:499-516 | the same for > |
| `Register.Alu.IsGreaterOrEqualRegister` | src/register.c:518-536 | the same for >= |
| `ReturnStack.Stack.PushReturnAddr` | src/actions.c:537-558 | a push onto the array form; a full stack loses its oldest address |
| `ReturnStack.Stack.PopReturnAddr` | src/actions.c:560-573 | a pop from the array form; an empty stack answers 0 |
| `ReturnStack.BoundedIsSuffix` | src/actions.c:537-573 | after any run of pushes and pops the array holds the most recent outstanding addresses of an unbounded stack, eight at most |
| `ReturnStack.MatchedWithinEight` | src/actions.c:537-573 | every pop of a balanced run answers its matching push exactly when the run nests no deeper than eight |
| `ReturnStack.BalancedRun` | src/actions.c:537-573 | a balanced run answers every matching push and restores the stack exactly when its depth fits the free slots |
| `Interrupts.Control.DoKbdInt` | src/actions.c:267-282 | a keyboard interrupt is taken, or made pending while interrupts are off |
| `Interrupts.Control.DoInterrupt` | src/actions.c:255-265 | any other interrupt is taken, or lost while interrupts are off |
| `Interrupts.Control.DoReturnInterrupt` | src/actions.c:230-253 | RTI delivers a pending interrupt by going to the vector again without a pop |
| `Interrupts.Control.DoResetInterruptSystem` | src/actions.c:284-298 | RSI interrupts at once if a key is down |
| `Interrupts.PendingMeansMasked` | src/actions.c:230-298 | in every reachable state a pending interrupt implies that interrupts are off |
| `Interrupts.PendingIsDelivered` | src/actions.c:230-253 | a key pressed while interrupts are off is delivered at the next RTI, whatever else happens in between |
| `Interrupts.ShutdownDiscards` | src/actions.c:416-422 | except that SHUTDN with OUT zero discards it |
| `Interrupts.ChainUsesOneSlot` | src/actions.c:230-298 | any chain of interrupts delivered by RTI, with stack-balanced handlers, uses one return-stack slot and resumes the interrupted program |
| `DaisyChain.Controllers.DoReset` | src/actions.c:199-212 | every controller unconfigured |
| `DaisyChain.Controllers.DoConfigure` | src/actions.c:334-349 | the first controller that still wants an address gets it |
| `DaisyChain.Controllers.DoUnconfigure` | src/actions.c:300-320 | the first controller based at the address is reset |
| `DaisyChain.BaseMeansConfigured` | src/actions.c:199-349 | in every state reachable from RESET a non-zero base implies a fully configured controller |
| `DaisyChain.ConfigCountsDown` | src/actions.c:334-349 | each CONFIG lowers the number of outstanding addresses by exactly one, until there are none |
| `DaisyChain.ResetAsksForNine` | src/actions.c:199-212 | RESET leaves nine addresses outstanding |
| `DaisyChain.FillsInOrder` | src/actions.c:334-349 | the CONFIGs after RESET fill the chain from its head: one address for the first controller, then size and base of each of the next four |
| `DaisyChain.TakeOutAndRestore` | romdump/ROMDump.s:200-220 | unconfiguring controllers by their bases and then feeding masks and bases back in chain order restores the whole map |
| `Memory.StoresDecodeLikeLoads` | src/memory.c:574-1146 | loads and stores reach the same cell, except exactly in the GX window when one of two controllers is based at 0x90000 |
| `Memory.WindowMismatch` | src/memory.c:771-790 | what goes wrong in that window: stores lost, or stored nibbles unseen |
| `Memory.CellInRange` | src/memory.c:574-1384 | no address, in any configuration, reaches outside a buffer |
| `Memory.LoadAfterStore` | src/memory.c:574-1146 | what is stored in RAM or a RAM card is what is loaded |
| `Memory.StoreFrame` | src/memory.c:574-1146 | a store changes another address only if both decode to the same cell |
| `Memory.CrcLoadIsLoad` | src/memory.c:1148-1384 | the checking load is the plain load plus one CRC step on memory cells |
| `Memory.DeviceReadBack` | src/memory.c:123-572 | every device register that is not read-only, write-only or counting reads back what was written |
| `Memory.NumberReadBack` | src/memory.c:1386-1401 | a number written in n nibbles to distinct memory cells is read back |
| `Memory.StoreAllFrame` | src/memory.c:1396-1401 | a run of stores leaves every other cell alone |
| `Memory.StillLoads` | src/memory.c:429-572 | loads outside the bank-switch window and two registers have no effect |
| `Windows.LowMemory` | src/memory.c:914-924 | low memory is ROM but for the sixty-four device registers, which show only with the device controller at 0x100 |
| `Windows.RamWindow` | src/memory.c:932-1045 | RAM at its usual base fills exactly the window that its size leaves of the address space, offset by the base, on either model, apart from the bank switch |
| `Windows.RamElsewhere` | src/memory.c:965-999 | the same at the other bases the maps know |
| `Windows.CardsOnSx` | src/memory.c:944-977 | where each card shows on the SX, from which offset, and that RAM hides both and the first the second |
| `Windows.CardsOnGx` | src/memory.c:1065-1146 | where each card shows on the GX, the second one bank at a time |
| `Devices.LinesCount` | src/memory.c:529-536 | after a store to a line-count register the k-th load of either answers the digit of line k - 1 under the top bits; the sixty-fifth repeats line 63 and the count starts over |
| `Devices.ReceiveClears` | src/memory.c:476-487 | reading the received byte clears the low bit of the receive status and nothing else |
| `Devices.CommandsReadZero` | src/memory.c:476-487 | the write-only serial registers read zero, without effect |
| `Devices.CommandsAct` | src/memory.c:243-258 | which bit of which status a store to each serial command register changes, everything else being kept |
| `Devices.ReadOnly` | src/memory.c:243-258 | stores to the read-only registers change nothing |
| `Bus.Bus.ReadNibbleSx` | src/memory.c:914-977 | the SX load decoder is the one decode |
| `Bus.Bus.ReadNibbleGx` | src/memory.c:979-1146 | the GX load decoder is the one decode, bank switching included |
| `Bus.Bus.ReadNibbleCrcSx` | src/memory.c:1148-1211 | the SX checking load is the same decode with the CRC |
| `Bus.Bus.ReadNibbleCrcGx` | src/memory.c:1213-1384 | the GX checking load is the same decode with the CRC |
| `Bus.Bus.WriteNibbleSx` | src/memory.c:574-673 | the SX store decoder is the one decode, and tells whether system RAM was reached |
| `Bus.Bus.WriteNibbleGx` | src/memory.c:686-900 | the GX store decoder is the one decode, and tells whether system RAM was reached |
| `Bus.Bus.ReadNibbleCrc` | src/memory.c:1413-1416 | the checking load of either model gives the plain load's value, with one CRC step on memory cells |
| `Bus.Bus.ReadNibbles` | src/memory.c:1386-1394 | the number in a run of nibbles, loaded from the top down |
| `Bus.Bus.WriteNibbles` | src/memory.c:1396-1401 | the digits of a number stored from the bottom up |
| `Crc.StepIsFourBits` | src/memory.c:110-113 | the nibble step is four bit steps of division by x^16 + x^12 + x^5 + 1 (section 2 of ITU-T V.41) |
| `Crc.InjectiveInState` | src/memory.c:110-113 | the step loses nothing of the state |
| `Crc.InjectiveInNibble` | src/memory.c:110-113 | the step loses nothing of the nibble |
| `Crc.BurstDetected` | src/checkrom.c:54 | strings that differ only within four consecutive nibbles end in different CRCs |
| `CheckRom.WalkVisitsOnce` | src/checkrom.c:105-116 | the interleaved walk visits every nibble of a block exactly once |
| `CheckRom.CheckRom` | src/checkrom.c:84-125 | the nested loops report failure exactly when some block's CRC over the walk is not 0xffff |
| `CheckRom.OneNibbleFails` | src/checkrom.c:84-125 | changing any one nibble outside 0x100-0x13f of a passing ROM makes it fail |
| `CheckRom.BurstFails` | src/checkrom.c:84-125 | so does any change within four consecutive nibbles of the walk |
| `Instructions.IllegalExactly` | src/emulate.c:927-1118 | exactly 81A with a selector above 2 and 81B outside 2 to 7 are undecodable |
| `Instructions.LengthBounds` | src/emulate.c:131-2217 | every instruction takes 2 to 21 nibbles |
| `Machine.DataKeepsOk` | src/emulate.c:131-1971 | every register, status and bus instruction keeps the invariant on registers and memory |
| `Machine.WithBitOk` | src/actions.c:187-197 | setting or clearing a bit changes that bit and no other |
| `Step.StepKeepsOk` | src/emulate.c:1973-2217 | every step keeps all registers and RAM in nibbles, P, D0, D1, CARRY and the status bits in range, at most eight stacked addresses, and pending only while masked |
| `Step.Run` | src/emulate.c:2444-2481 | any run of instructions, key presses, interrupts, wake-ups and device updates keeps that invariant |
| `Step.StopsExactly` | src/emulate.c:2141-2216 | a step stops the emulator exactly on the two undecodable families, which change nothing, and on NOP5 with a non-zero last nibble, which only moves the program counter |
| `Step.StepCongruent` | src/emulate.c:1973-2217 | machines whose program counters and stacked addresses agree modulo 2^20 step to machines that agree the same way |
| `Step.FetchIsStill` | src/memory.c:979-1146 | fetching an instruction from cells without load effects changes nothing, so it can be read as one window |
| `Cpu.Cpu.DecodeGroup0` | src/emulate.c:1981-2110 | the switch of group 0 does what decoding first and executing then does |
| `Cpu.Cpu.DecodeGroup1` | src/emulate.c:303-698 | the same for group 1 |
| `Cpu.Cpu.DecodeGroup80` | src/emulate.c:131-301 | the same for group 80 |
| `Cpu.Cpu.DecodeGroup81` | src/emulate.c:708-1118 | the same for group 81, undecodable selectors included |
| `Cpu.Cpu.DecodeGroup8` | src/emulate.c:1119-1281 | the same for the rest of group 8: tests, long jumps and calls |
| `Cpu.Cpu.Decode8ThruF` | src/emulate.c:700-1971 | the same for groups 8 to F |
| `Cpu.Cpu.StepInstruction` | src/emulate.c:1973-2217 | the whole nested-switch interpreter is decode-then-execute, stop code included |
| `Cpu.Cpu.StoreRange` | src/actions.c:709-725 | the store loops, each nibble possibly raising a card interrupt on the way |
| `Transfers.RegisterToStatus` | src/actions.c:139-145 | ST=C bit by bit |
| `Transfers.StatusToRegister` | src/actions.c:147-157 | C=ST bit by bit, the other nibbles of C kept |
| `Transfers.SwapRegisterStatus` | src/actions.c:159-171 | CSTEX bit by bit |
| `Transfers.SwapTwice` | src/actions.c:159-171 | exchanging C and the status word twice restores both |
| `Transfers.LoadConstant` | src/actions.c:601-609 | constants go in from position P, wrapping |
| `Transfers.DatToAddr` | src/actions.c:654-664 | the address field is read as its number |
| `Transfers.AddrToDat` | src/actions.c:666-673 | an address goes into the address field as its low five digits, whatever lies above them |
| `Laws.AddThenSub` | src/register.c:79-145 | r=r+q then r=r-q restores the register, in either mode with valid digits, and the borrow is the carry |
| `Laws.IncThenDec` | src/register.c:183-250 | r=r+1 then r=r-1 restores the register, early loop exits and wrap-around included |
| `Laws.NegTwice` | src/register.c:147-169 | r=-r twice restores the register and repeats the carry |
| `Laws.NotTwice` | src/register.c:171-181 | r=-r-1 twice restores the register and leaves the carry clear |
| `Laws.RotateLeftThenRight` | src/register.c:351-388 | the circular shifts undo each other, left first; only the sticky bit can differ |
| `Laws.RotateRightThenLeft` | src/register.c:351-388 | the same, right first |
| `Laws.BorrowIsTest` | src/register.c:461-478 | the subtraction instruction sets CARRY exactly when the less-than test of the same field holds, for all nibbles in both modes |
| `Laws.CopyTestsEqual` | src/register.c:433-445 | two registers test equal on a field just copied |
| `Laws.ClearTestsZero` | src/register.c:405-417 | a field just cleared tests zero |
| `Laws.BitTests` | src/actions.c:187-197 | a bit just written tests as written, and every other bit as before |
| `Laws.ExchangeTwice` | src/register.c:315-325 | exchanging a field of two registers twice restores the processor |
| `Laws.ScratchTwice` | src/register.c:315-325 | so does exchanging a field with a scratch register twice |
| `Laws.SaveAndBringBack` | src/register.c:306-313 | a field saved in a scratch register comes back whatever was put into the register in between |
| `Laws.PointerReturns` | src/actions.c:675-683 | a pointer moved by n and by -n is where it was, around the end of the address space too, with the same carry both times |
| `Laws.PointerExchangeTwice` | src/register.c:327-338 | exchanging four or five nibbles of a pointer with a register twice restores both |
| `Laws.PushThenPop` | src/emulate.c:2010-2018 | RSTK=C then C=RSTK restores C and the stack, except that a full stack has lost its oldest address |
| `Laws.CPlusPIsHex` | src/register.c:102-122 | C+P+1 is hexadecimal; in decimal mode it is the decimal sum exactly when the low digit absorbs it |
| `Laws.StoreThenRecall` | src/actions.c:709-735 | storing a field through a pointer into distinct cells of RAM and recalling it into any register is copying the field; beyond those stores only the device CRC moves |
| `Laws.RunKeepsRom` | src/memory.c:574-912 | no run of instructions, keys, interrupts and device updates changes the ROM |
| `Listing.ListingHolds` | src/emulate.c:1300-1970 | at the nibbles of every arithmetic, logic, copy and shift instruction, and of AND and OR, the step leaves numbers that satisfy the equation the disassembler lists, with every other digit, register and flag kept; a negation leaves the negative |
| `Listing.ListingRightExactly` | src/disasm.c:1484-1668 | the listed equation is what happens exactly for the patterns other than the negations, which are listed as decrements |
| `Listing.QuestionsAnswered` | src/emulate.c:1112-1253 | every comparison test answers, between the numbers of the field, the relation listed for it, sets CARRY to the answer, and jumps, returns or goes on |
| `Listing.OpBits` | src/register.c:284-304 | each bit of the nibble AND and OR |
| `Manual.ModesAndP` | src/emulate.c:1999-2052 | SETHEX, SETDEC, P=n, P=P+1 and P=P-1: P counts modulo 16 and carries exactly when it wraps |
| `Manual.StatusWord` | src/emulate.c:2017-2032 | CLRST, C=ST, ST=C and CSTEX bit by bit, the other bits and nibbles kept |
| `Manual.BitWrites` | src/emulate.c:196-215 | ABIT and CBIT write the bit named and no other |
| `Manual.FlagWrites` | src/emulate.c:1029-1061 | ST=0 n, ST=1 n, and the hardware status bits of a mask cleared |
| `Manual.NibbleMoves` | src/emulate.c:276-298 | C=P n, P=C n, CPEX n and SREQ? |
| `Manual.Ports` | src/actions.c:111-131 | C=IN and A=IN bring a line up exactly when a row that the output register selects pulls it up; OUT=C and OUT=CS |
| `Manual.ChainCommands` | src/emulate.c:161-168 | UNCNFG, CONFIG and RESET act on the chain with the number in the address field of C |
| `Manual.ManoeuvreRestores` | romdump/ROMDump.s:200-220 | devices taken out by UNCNFG and their sizes and bases given back by CONFIG, all through C: the whole memory is as it was |
| `Manual.AddressedStays` | src/actions.c:300-362 | what CONFIG, UNCNFG and RESET leave in the controllers are addresses again |
| `Manual.Identifies` | src/actions.c:364-400 | C=ID brings zero exactly when no controller with an identity waits, else that of the first that does and of the address it waits for |
| `Manual.SystemCommands` | src/emulate.c:172-195 | SHUTDN, INTON and INTOFF set their flag; BUSCB, BUSCC and BUSCD do nothing |
| `Manual.PointerMoves` | src/actions.c:675-683 | D0 and D1 move by one to sixteen modulo 2^20, with a carry exactly when they pass the end |
| `Manual.PointerLoads` | src/actions.c:611-618 | two, four or five low nibbles of a pointer replaced, the others kept |
| `Manual.PointerTransfers` | src/emulate.c:464-533 | the sixteen transfers and exchanges between D0 or D1 and A or C, over five nibbles or four |
| `Moves.ScratchMoves` | src/emulate.c:303-463 | the transfers between A or C and the scratch registers, whole or by field, with the three numbers that two operands share |
| `Moves.Constants` | src/actions.c:601-609 | LC and LA put their digits into C or A from position P upwards, around its end, and keep the rest |
| `Moves.MemoryTransfers` | src/emulate.c:534-650 | which nibbles of A or C go to or come from memory, at D0 or D1, for the field and the counted forms |
| `Moves.CircularShifts` | src/emulate.c:712-743 | the circular shifts turn the whole register; to the right a nibble that is not zero sets the sticky bit |
| `Moves.BitShifts` | src/emulate.c:791-813 | the one-bit shifts halve the number of the register or field, the bit lost setting the sticky bit |
| `Moves.ConstantsAdded` | src/emulate.c:744-790 | one to sixteen added to or taken from the field of the register named, in base 16, with the carry |
| `Moves.PlusP` | src/register.c:102-122 | C+P+1 as a number, in base 16 |
| `Branches.Returns` | src/emulate.c:1984-1998 | each return: the address on top of the stack, or zero, with XM or CARRY; RTI enters the handler once more when an interrupt is pending |
| `Branches.StackMoves` | src/emulate.c:2007-2016 | RSTK=C pushes the address field and loses a ninth; C=RSTK brings the top modulo 2^20 |
| `Branches.CarryJumps` | src/emulate.c:2147-2182 | GOC and GONC jump by the signed displacement, return for zero, or go on; GOC by two is a NOP |
| `Branches.Jumps` | src/emulate.c:2183-2209 | the destination, the stacked return address and the stop of every jump and call, with the NOPs among them |
| `Branches.PcMoves` | src/emulate.c:975-1003 | PC=A, A=PC, APCEX and the same of C |
| `Branches.IndirectJumps` | src/emulate.c:245-257 | PC=(A) and PC=(C) go to the address stored there |
| `Branches.ResetsInterrupts` | src/actions.c:284-298 | RSI takes the interrupt at once or makes it pending when a key is down |
| `Branches.BitQuestionsAnswered` | src/emulate.c:1034-1111 | every test of flags, status bits, P and single bits answers as listed and jumps, returns or goes on |
| `Branches.AllDescribed` | src/emulate.c:1973-2217 | a pattern is covered by the results on single instructions exactly when it is one the emulator decodes |
| `Handlers.RunProjects` | src/emulate.c:1973-2217 | the flow of control of every run of the machine is that of a run of the interrupt protocol's events |
| `Handlers.PendingKeyIsDelivered` | src/actions.c:230-282 | in the machine: a key that interrupts while masked is delivered by the next RTI executed, without a pop, unless a SHUTDN with OUT zero comes first |
| `Handlers.ChainResumes` | src/actions.c:230-298 | in the machine: a chain of interrupts with stack-balanced handlers uses one return-stack slot and resumes the interrupted program |
| `Step.StoreRunFlow` | src/memory.c:206-212 | a run of stores leaves the flow of control alone exactly when interrupts are masked or no nibble reaches card control with its low bit set |
| `Disasm.Disassemble` | src/disasm.c:1229-1668 | for every legal opcode and both mnemonic modes the listing advances as the processor does, one nibble less in exactly three families, and names the processor's target |
| `Disasm.Disasm1` | src/disasm.c:452-679 | the same for group 1 |
| `Disasm.Disasm8` | src/disasm.c:681-1227 | the same for group 8 |
| `Disasm.AppendRAddr` | src/disasm.c:358-364 | a relative target is the sign-extended displacement added modulo 2^20 |
| `Disasm.NextIsFallThrough` | src/disasm.c:1229-1668 | the listing's next address is the processor's fall-through exactly outside those families, stores and RSI that raise no interrupt included |
| `Disasm.NextIsReturnAddress` | src/disasm.c:1459-1482 | for a call it is the return address pushed |
| `Disasm.TargetIsDestination` | src/disasm.c:358-364 | every jump, call and test that is taken goes to the address listed, modulo 2^20 |
| `Disasm.UnlistedBranch` | src/disasm.c:1396-1432 | the one branch listed without an address is GONC to the next instruction |
| `Disasm.SignExtension2` | src/emulate.c:1166-1170 | the processor's OR mask and the disassembler's complement of sign-1 are the same sign extension, two nibbles |
| `Disasm.SignExtension3` | src/emulate.c:2188-2207 | the same for three nibbles |
| `Disasm.SignExtension4` | src/emulate.c:1254-1279 | the same for four nibbles |
| `Scheduler.Emulator.Emulate` | src/emulate.c:2219-2481 | the loop with its countdowns, batches, device resets and redraw countdown computes the batched run that the next theorems are about |
| `Scheduler.FiresExactly` | src/emulate.c:2276-2414 | serial polling, time adjustment, statistics and rollover come at exactly the instructions at which counters decremented once per instruction run out, however often device accesses, timer writes and interrupt returns cut a batch short |
| `Scheduler.FixedPeriod` | src/emulate.c:2276-2414 | serial polling, statistics and rollover recur every so many instructions |
| `Scheduler.TimerPeriods` | src/emulate.c:2332-2344 | with no writes to them and interrupts enabled the timers come every t1_tick and t2_tick instructions; masked, once after as many and then every 0x1e00 and fifteen |
| `Scheduler.PollPeriods` | src/emulate.c:79-94 | the other periods in instructions |
| `Scheduler.AdjustmentPeriod` | src/emulate.c:2290-2323 | a time adjustment comes 0x1ffe instructions after the last, or at an RTI that finds one put off, and at no other instruction |
| `Scheduler.PutOffExactly` | src/emulate.c:2290-2323 | it is put off exactly while the program counter lies in the clock service, and made otherwise |
| `Scheduler.SameExactly` | src/device.c:100-111 | the batched machine is the per-instruction machine, events, world and counters, up to an instruction exactly if no batch of more than one instruction restarted timer 1 to count on and timer 2 was never overdue between batches |
| `Scheduler.PunctualIsSame` | src/device.c:100-111 | so it is if timer 1 is written only in the first instruction of a batch and timer 2 is given at least the batch to come |
| `Scheduler.SameWithoutTimerWrites` | src/emulate.c:2219-2414 | so it is between writes to the timer registers: both timers too fire at the same instructions, in the same order |
| `Scheduler.TimerOneExample` | src/device.c:100-106 | timer 1 written two instructions into a batch counts one instruction short |
| `Scheduler.TimerTwoExample` | src/device.c:107-111 | a run in which timer 2, written with less than the batch to come, is overlooked at the fifth instruction, where it runs out; up to there the two forms are the same machine |
| `Scheduler.HighBitsShow` | src/emulate.c:2294-2323 | whether the time adjustment is put off is decided as for the counter modulo 2^20, except exactly for a counter past 2^20 that lies inside the clock service |
| `Scheduler.ClockOfRun` | src/emulate.c:2252-2274 | in every run the scheduler charges and checks a pending redraw as its own model says, so what that loses the program loses |
| `Redraw.DropsExactly` | src/emulate.c:2254-2274 | a batch loses a pending redraw exactly when it is as long as the redraw had left |
| `Redraw.LostExactly` | src/emulate.c:2254-2274 | in a run that is exactly a change of the geometry whose own batch did not charge the new countdown, thirteen instructions that leave the scheduler alone, a second change, and an instruction that is neither a change nor SHUTDN |
| `Redraw.LostExample` | src/device.c:66-73 | such a run of sixteen instructions, after which nothing is pending over a screen not redrawn |
| `Redraw.RunsOut` | src/device.c:66-73 | ninety-two instructions after the last change nothing is pending, and the redraw was done unless lost in that way |
| `Redraw.AtReachable` | src/emulate.c:2267-2273 | between instructions at most fifteen checks are left, and the scheduler is called in time for them |
| `DisplayRegisters.Panel.WriteDevMem` | src/memory.c:123-427 | every device write keeps the derived geometry equal to what start-up computes, and a change of what is drawn sets the redraw countdown |
| `DisplayRegisters.WriteAll` | src/memory.c:123-427 | the same for any sequence of writes |
| `DisplayRegisters.PackedDigit` | src/memory.c:309-311 | replacing a nibble of a packed register is replacing a digit |
| `DisplayRegisters.RegistersMean` | src/memory.c:114-160 | the derived values as the registers' bits: switch and offset, even start, contrast from two registers, line count, both regions' lengths |
| `DisplayRegisters.RowsMean` | src/memory.c:129-143 | a row is 0x24 nibbles and the line offset exactly when bit 2 of DISPIO is set, else 0x22 and the line offset |
| `DisplayRegisters.Panel.WriteLineCount` | src/memory.c:345-357 | a line-count write updates the derived geometry, and the window height it sets is start-up's exactly from 55 lines up |
| `Lcd.Screen.UpdateDisplay` | src/lcd.c:179-222 | a full redraw leaves every visible cell equal to the nibble its address holds, or the screen blank |
| `Lcd.Screen.WriteNibble` | src/memory.c:674-683 | a store anywhere, device registers included, keeps a screen with no redraw pending or lost equal to memory |
| `Lcd.Screen.WriteAll` | src/memory.c:901-910 | after any run of stores to memory the screen is what a full redraw would make it |
| `Lcd.Screen.DispDrawNibble` | src/lcd.c:230-254 | the upper region's update shows one cell and keeps the others |
| `Lcd.Screen.MenuDrawNibble` | src/lcd.c:256-267 | the menu's update shows one cell and keeps the others |
| `Lcd.Screen.CheckDevices` | src/device.c:66-73 | one off the countdown, and the redraw when it runs out |
| `Lcd.Screen.Schedule` | src/emulate.c:2254-2274 | charge, clamp, check and redraw together: the countdown of the model, and a screen equal to memory unless a redraw is pending or was lost |
| `Lcd.Screen.Shutdown` | src/actions.c:408-411 | SHUTDN draws what is pending at once |
| `Lcd.Screen.Run` | src/device.c:66-73 | any run of stores, device writes, SHUTDNs and scheduler calls from start-up follows the countdown's model, and shows the memory whenever nothing is pending and no redraw was lost since the last one |
| `Lcd.Screen.Settles` | src/emulate.c:2252-2274 | ninety-two instructions after the last change of the geometry the screen shows the memory, unless that change was the second of two fourteen instructions apart |
| `Lcd.Screen.OffStoreLights` | src/memory.c:674-683 | with the display off a store to the display area lights a cell that a redraw leaves blank, exactly when the nibble is not zero |
| `Lcd.Screen.Remap` | src/actions.c:300-349 | after the controllers change under it the screen still shows the memory exactly when every visible address holds the nibble it held |
| `Lcd.DispFindsExactly` | src/lcd.c:230-246 | the upper region's update finds every visible cell exactly when rows do not overlap |
| `Lcd.RowsFit` | src/lcd.c:114-142 | in every panel the length of a row in memory is what the screen shows of it and the line offset |
| `Lcd.ShownOnce` | src/lcd.c:114-142 | with no line offset each address of the upper region is shown by exactly one visible cell |
| `Lcd.NarrowRowsShare` | src/lcd.c:230-246 | otherwise two visible cells share an address and only one is updated |
| `Lcd.MenuFindsExactly` | src/lcd.c:256-267 | the menu's update finds every visible cell, inside the buffer, exactly for 55 and 63 lines |
| `Lcd.SeenAfterStore` | src/memory.c:574-912 | what any store does to the nibble seen at an address of system RAM |
| `Lcd.PacksKept` | src/memory.c:123-427 | the packed display registers stay the nibbles the processor reads back |
| `Timer.RoundTrip` | src/timer.c:332-436 | d ticks after the access time was set timer 2 has counted down by d, or, for a gap over half a minute within 31 bits, stands while the clock is moved by the gap |
| `Timer.SuspendedCounts` | src/timer.c:376-396 | while adjustment is suspended every gap counts |
| `Timer.AbsorbedExactly` | src/timer.c:398-408 | a gap is absorbed exactly when its low 32 bits, signed, exceed half a minute |
| `Timer.SixDaysAreNotAbsorbed` | src/timer.c:403-408 | a gap of 2^32 ticks is not absorbed |
| `Timer.BackwardsExactly` | src/timer.c:420-433 | a clock set back by up to half a minute leaves timer 2 standing, unless that crosses zero |
| `Timer.WallTicksIsFloor` | src/timer.c:144-146 | the tick count is the host's time in 1/8192 s, rounded down |
| `Timer.RealTime.SetAccesstime` | src/timer.c:111-191 | RAM gets the access time in thirteen nibbles, the CRC of exactly those nibbles, and the time-out twenty-four minutes on, and nothing else changes |
| `Timer.RealTime.GetT2` | src/timer.c:332-436 | the reading computed from those nibbles, with the clock offset kept consistent |
| `Windows.TimerRecord` | src/timer.c:84-98 | with RAM at its usual base the operating system's addresses of the record are the places that start-up writes, on either model |
| `RealPrinter.Hxs2Real` | src/rpl.c:118-127 | the accumulating loop gives the value of the packed decimal digits |
| `RealPrinter.RealNumber` | src/rpl.c:140-237 | the text denotes exactly the sign, mantissa and exponent stored, in each layout and both formats, read back by an independent reader |
| `RealPrinter.InsideLayout` | src/rpl.c:172-193 | the layout with the point inside, bare points dropped |
| `RealPrinter.BeforeLayout` | src/rpl.c:195-219 | the layout with leading zeros after the point |
| `RealPrinter.ScientificLayout` | src/rpl.c:222-236 | the layout with an exponent |
| `RealPrinter.TrailingZero` | src/rpl.c:187-190 | a zero stripped from the end of a fraction changes nothing |
| `RealPrinter.SomeDigit` | src/rpl.c:199-200 | the scan for the last non-zero digit finds one exactly when the mantissa is not zero |

## Left out

- X11, fonts, icons, options, signals, serial lines, files and the debugger: input and output, not logic; a received byte or a key is an event of the model.
- Instruction fetch from cells whose loads have effects (the bank-switch window and four device registers): the model fetches an instruction as one window of nibbles; `Step.FetchIsStill` says when that is the same.
- Display reads in `Lcd` take the nibble a load gives and leave out the effects of loads from those same cells; under the conditions of the theorems the display lies in RAM, where there are none.
- `Cpu`: registers and memory are values in fields; `Register`, `Transfers` and `Bus` prove the same functions of the in-place loops and arrays, but no single class holds both, so aliasing between a register array and the caller is modelled in `Register` alone.
- `Cpu`: the `instructions` counter, breakpoints and trace output.
- `Lcd.Screen.WriteNibble`: excludes the stores to the menu that, with 56 to 62 display lines, make the C code write past the end of its buffer; `Lcd.Screen.Run` stops before one.
- `Lcd`: CONFIG, UNCNFG and RESET are not among the instructions of `Lcd.Screen.Run`; they ask for no redraw, and make the screen stale exactly when a visible address comes to decode to a cell with another nibble (`Lcd.Screen.Remap`).
- `Lcd`: pixel coordinates, which the code computes and does not use; the annunciators; a window that is mapped after having been unmapped.
- `Scheduler`: the work of each event is a parameter; what is proved is when and in which order it happens.
- `Timer`: timer 1, whose fraction of a second is counted in eighths while whole seconds count 512; the time zone and the wrap-around of 64-bit sums.
- `DisplayRegisters`: the touched flags of registers that do not affect the display.
- `Memory`: empty card slots; a configured port has a card.
- `Disasm`: mnemonic text; `Listing` models what the HP mnemonics of the arithmetic, logic, copy, shift and comparison instructions say, not their spelling.
- RPL objects other than real numbers, old save formats, and the annunciator drawing.
