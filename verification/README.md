# Verification of the OS simulator

Five parts of the simulator are modelled here, and properties of them are proved for all inputs and all
runs: the segmented memory with its compaction, the block file system, the process life cycle of the
kernel, the gate that keeps compaction and file transfers apart, and the packets the modules exchange.
`dafny verify dfyconfig.toml` checks everything.

Each part has its logic as functions and state machines on values, with the theorems about them; where the
program works by updating shared structures, a class does the same on real fields and arrays, and every
method is proved to compute exactly what the function on values says.

- **Memory** (`Holes`, `Memory`, `Compaction`, `MemoryRuns`, `MemoryEffects`, class in `MemoryModule`). Every
  byte belongs to one hole or one live segment after any run of requests. Compaction packs segments left, keeps
  their order and ends with one hole. `memset` runs after `memmove`, so a segment that slides by less than its
  size loses the bytes at or past the gap; the model does the same, and says exactly which bytes survive, in
  terms of the free bytes below the segment before compaction. `MemoryEffects` says of every request what it
  changes, apart from how it is computed: the hole each policy takes, the entry a deletion removes, every byte of
  memory after compaction. A free byte that is blank need not stay so without a write, since a segment may slide
  onto it; when it does stay blank is said exactly.
- **Address translation** (`Mmu`). Compaction is invisible to translation, processes are isolated outside
  segment 0, and translation is injective. The comment above `MMU` promises -1 for whatever exceeds the
  segment; an address between minus the maximal segment size and 0 names segment 0, which starts at 0, is
  accepted by its length alone and comes back as it is, before the first byte of memory
  (`NegativeAddressEscapes`; `InsideIff` for negative addresses in general). -1 then means both a refusal and
  an accepted address.
- **Packets** (`Wire`, `WireLayout`, encoders and decoders in `WireModule`). Contexts, table replies and the
  compaction broadcast are read back exactly, and every field stands where the formats put it.
- **Table agreement** (`TableSync`, `Exchange`, `ExchangeRuns`, `ExchangeRetry`, `ExchangeRace`, `ExchangeSame`,
  `ExchangeCrossed`). An exchange is a request, its turn in memory, and a reply. The kernel lets `mutexMemoria`
  go between request and reply (kernel.h:216-222, 488-494, 533-541), a compaction does not take it at all
  (kernel.h:911-923, 1257-1301), and a table reply does not say whose table it is, so the thread that admits
  processes and the scheduler can each take the other's reply. Kernel and memory agree on every table, flags mean
  what memory answered, processes are isolated and a refused allocation is retried at most once in every run
  whose exchanges do not overlap. `SendIsSafeIff` says for every single request when an overlap does harm, and
  `RepliesCross` is a run from start-up after which one process translates into the private segment of another.
- **File system** (`Disk`, `FileSystem`, `Files`, `Truncate`, `FileIo`, `FileRuns`, `FileTrap`, `FlatFile`,
  classes in `FileModule`). Pointers live in the same bytes as data. A bitmap bit is set iff one file uses the
  block in one role, and free blocks are all zero, so that new blocks read as zeros although a released pointer
  block is never wiped. Taking a pointer block ignores whether a data block can follow it;
  `GrowKeepsInvariantIff` says exactly when growth is safe, `PointerBlockTrap` shows the case, and in
  `TrapHitsAnotherFile` a write to the block that is missing lands in the first block of another file. A request
  that crosses a block, or ends on the last byte of one, skips that byte on both sides: writing and reading
  agree, but the file is not a flat byte string. `FlatFile` says exactly which reads and writes treat it as one.
- **Kernel** (`Kernel`, `KernelPlaces`, `KernelResources`, `KernelFiles`, `KernelFifo`, `KernelOrder`,
  `KernelSteps`, `KernelRuns`, `KernelBooks`, `KernelRace`, `KernelRaceRun`, `KernelWaitRace`, `KernelWaitRuns`,
  class in `KernelModule`). A state machine whose steps are what one thread does between two semaphore operations; posts
  may lag behind the lists they count. Conservation of processes, semaphore accounting, resource accounting,
  exclusive files and first-in first-out waiting hold after any interleaving of these steps. That one such step
  is not interrupted is an assumption: the program takes no lock around the system file table, the queues of
  files and the dictionaries of resources, although the thread that tears processes down changes them too.
  `KernelRace` drops the assumption for F_OPEN against `liberar_archivo`, goes through their ten schedules and
  says exactly when exclusivity survives; `KernelWaitRace` does the same for WAIT against
  `liberar_recurso_y_actualizar_ready` and their twenty schedules. In both, a process can end on no list at all.
  A comment in `liberar_archivo` says the process it wakes runs first; the code appends it to the ready list,
  and so does the model.
- **Compaction gate** (`Gate`). The flag, the counter and the two semaphores of `compaction_manager` and
  `operarFS`, whose loop head is four steps: the look at the counter, the look at the flag, the post and the
  clearing of the flag. Compaction runs with nothing pending iff one guard holds when it is asked for, and the
  scheduler is woken in every continuation iff another one does; three runs from start-up show that the guards
  can fail. `GatePetitions` puts the gate beside the memory: in guarded runs an address translated when a read
  or write is made still names the same place when it is served.

`Sums` holds finite sums and the list operations of the commons collections the program calls
(`list_find`, `list_remove`); the library itself is not part of this model.

## Model

| member | source | states |
|---|---|---|
| Holes.AlojarFreesSpan | Memoria/src/memoria.h:85-116 | Releasing a span adds exactly its bytes to the free bytes, in all four merge cases, and keeps the list free of empty, overlapping or touching holes |
| Holes.HoleSetIsUnique | Memoria/src/memoria.h:85-116 | A well-kept hole list is determined, as a set, by the bytes it covers |
| Holes.Pick | Memoria/src/memoria.h:127-239 | BEST, FIRST and WORST take a hole that fits and that the policy prefers to every other hole that fits; none only when none fits |
| Holes.FirstHole | Memoria/src/memoria.h:612-613 | The hole compaction works on is the lowest one |
| Memory.PlaceTakesSpan | Memoria/src/memoria.h:153-167 | Allocation takes exactly `size` bytes from the start of the chosen hole and drops a hole it fills |
| Memory.EntryOf | Memoria/src/memoria.h:502-512 | A delete finds the first entry of the table that carries the ID asked for, and none only when no entry does |
| Memory.EveryByteHasOnePlace | Memoria/src/memoria.h:85-116 | Under the partition invariant a byte is in one hole or in one live segment, never in both, never in two |
| Memory.CreateKeepsPartition | Memoria/src/memoria.h:127-239 | Creation keeps the partition of memory, whatever the policy and the answer |
| Memory.FreeSegKeepsPartition | Memoria/src/memoria.h:502-522 | Deletion keeps the partition and frees exactly the bytes of the deleted segment |
| Memory.FreeAllKeepsPartition | Memoria/src/memoria.h:550-563 | Process exit keeps the partition through the release of every segment, and the free total grows |
| Memory.FreeAllRemoves | Memoria/src/memoria.h:550-563 | Process exit removes exactly the segments of the table and leaves every other one as it was |
| Memory.FreeSegTotal | Memoria/src/memoria.h:502-522 | Deletion gives back exactly the size of the segment |
| Compaction.NextIsAdjacent | Memoria/src/memoria.h:580-593 | The lowest segment above the lowest hole starts where that hole ends, as the comment on `realloc_segment` assumes |
| Compaction.StepKeepsPartition | Memoria/src/memoria.h:610-626 | One turn of the compaction loop keeps the partition |
| Compaction.StepShrinksAbove | Memoria/src/memoria.h:611-626 | One turn takes exactly the moved segment out of those above the lowest hole: the loop terminates |
| Compaction.CompactAdvances | Memoria/src/memoria.h:611-626 | The order of the loop is forced: any way of picking the next segment leads to the same result |
| Compaction.Compact | Memoria/src/memoria.h:595-634 | Compaction ends with no segment above a hole and keeps the partition |
| Compaction.CompactKeeps | Memoria/src/memoria.h:595-634 | Segments, owners, IDs, sizes and the free total are kept; nothing moves up; what was below the lowest hole does not move |
| Compaction.CompactKeepsOrder | Memoria/src/memoria.h:595-634 | Compaction keeps the address order of segments |
| Compaction.CompactLeavesOneHole | Memoria/src/memoria.h:595-634 | One hole is left, reaching the end of memory, with all the free bytes |
| Compaction.CompactPacksLeft | Memoria/src/memoria.h:595-634 | Compaction puts every segment at the sum of the sizes of the segments that were below it before |
| Compaction.SlidesByGap | Memoria/src/memoria.h:595-634 | A segment slides by exactly the free bytes below it, a number known before compaction, and nothing else of it changes |
| Compaction.CompactBytes | Memoria/src/memoria.h:622-623 | Byte k of a segment that slid by `gap` survives iff gap is 0 or k < gap; the others are blanks; later turns touch no segment already moved |
| Compaction.BytesAfterCompact | Memoria/src/memoria.h:622-623 | The whole contents of a segment after compaction, byte by byte, in terms of the free bytes that were below it |
| Compaction.IntactIff | Memoria/src/memoria.h:622-623 | A segment keeps its contents iff no byte below it was free or its own bytes past that many were blank already; both sides of the condition speak of the state before |
| MemoryRuns.StartIsOk | Memoria/src/memoria.c:40-50 | Start-up, with segment 0 allocated from one hole, satisfies the invariant |
| MemoryRuns.ApplyKeepsInv | Memoria/src/memoria.h:526-578 | Every request (new process, create, delete, exit, compaction, write) keeps partition and tables |
| MemoryRuns.RunKeepsInv | Memoria/src/memoria.h:526-578 | Any sequence of requests keeps the invariant |
| MemoryRuns.EveryRunPartitionsMemory | Memoria/src/memoria.h:526-578 | From start-up, after any run, every byte is in exactly one hole or live segment, no hole is empty, no two touch, segment 0 is at 0 |
| MemoryRuns.CompactKeepsTables | Memoria/src/memoria.h:595-634 | Compaction keeps every table and the shared segment 0 |
| MemoryRuns.AnswerMeaning | Memoria/src/memoria.h:127-239 | -1 iff the free total is too small; 1 iff it suffices but no hole does; 0 iff some hole does |
| MemoryRuns.AnswerOneMeansWork | Memoria/src/memoria.h:127-239 | Answer 1 means at least two holes and at least one segment for compaction to move |
| MemoryRuns.RetrySucceeds | Memoria/src/memoria.h:595-634 | After answer 1, whatever is served meanwhile short of another creation, the request succeeds after compaction, under every policy |
| MemoryRuns.HolesFollowSegments | Memoria/src/memoria.h:85-116 | The hole set depends on the live segments alone |
| MemoryRuns.CreateThenDelete | Memoria/src/memoria.h:464-522 | Allocating and deleting a segment restores the state, holes as a set, under every policy |
| MemoryRuns.ReleaseOrderIsIrrelevant | Memoria/src/memoria.h:550-563 | Freeing a group of segments gives the same holes in any order |
| MemoryRuns.CompactionLosesAByte | Memoria/src/memoria.h:595-634 | A run from start-up after which compaction blanks a byte that was written: two segments, the lower one deleted, one free byte |
| MemoryEffects.NewEffect | Memoria/src/memoria.h:464-480 | A first request makes a table with segment 0 alone and changes nothing else |
| MemoryEffects.CreateEffect | Memoria/src/memoria.h:127-239 | Answer 0: ID and size as asked, at the start of a hole that fits, the smallest, lowest or largest such one as the configured algorithm says, the first in the list among equals; its bytes are no longer free, the entry is the last of its table, nothing else changes. Any other answer changes nothing |
| MemoryEffects.AlojarPlaces | Memoria/src/memoria.h:85-116 | A span that becomes free takes the holes it touches into one, in the place of the lower of them, or of the upper, or at the end of the list; the other holes keep their order |
| MemoryEffects.DeleteEffect | Memoria/src/memoria.h:502-522 | The first entry with the ID asked for leaves its table and its record is released; exactly its bytes become free, every other segment, table and byte is as it was; without a table nothing changes |
| MemoryEffects.ExitEffect | Memoria/src/memoria.h:550-563 | The table goes with every record it lists past the first; exactly their bytes become free, and nothing else changes |
| MemoryEffects.WriteEffect | Memoria/src/memoria.h:400-410 | The bytes sent stand at the address, every other byte and everything else is as it was |
| MemoryEffects.CompactSpace | Memoria/src/memoria.h:610-626 | Every byte of memory after compaction, from the state before: where a segment lands, the byte it brings or a blank past the gap; where only a segment that slid has been, a blank; anywhere else, what was there. A byte is free afterwards iff nothing lands on it |
| MemoryEffects.BlankStaysIff | Memoria/src/memoria.h:610-626 | A blank byte is blank after a request iff no write puts something else there and no segment slides something else onto it |
| MemoryEffects.RunStaysBlank | Memoria/src/memoria.h:526-578 | Over any run a blank byte stays blank as long as no request spoils it in one of these two ways, whoever gets it and gives it back meanwhile |
| MemoryEffects.BlankByteIsOverrun | Memoria/src/memoria.h:610-626 | A free blank byte that no write names is not blank for good: in the state reached by `CompactionLosesAByte`, compaction puts a written byte there |
| MemoryEffects.EveryByteIsBlankOrSent | Memoria/src/memoria.h:526-578 | From start-up, after any run, memory holds blanks and characters that some write sent, and a byte no request spoilt is blank |
| Mmu.RefusedIsMinusOne | cpu/src/cpu.h:485-505 | On non-negative addresses the MMU answers -1 iff it refuses; it accepts iff the first entry with the quotient as its ID has room for the range, which then lies inside its segment |
| Mmu.TranslateMeans | cpu/src/cpu.h:485-505 | The MMU looks at the first entry whose ID is the quotient and at no other: -1 without one, or when remainder plus length exceed its size; otherwise its base plus the remainder, which is also the displacement returned. On non-negative addresses the answer is not -1 iff such an entry exists and the range ends by its size |
| Mmu.InsideIff | cpu/src/cpu.h:485-505 | An accepted range lies inside its segment iff the address is not negative or its displacement is 0 |
| Mmu.NegativeAddressEscapes | cpu/src/cpu.h:485-505 | From start-up, after any run and for every process: an address between -tam and 0 is accepted iff address plus length is within the size of segment 0, and comes back unchanged, before the first byte of memory |
| Mmu.MinusFive | cpu/src/cpu.h:485-505 | Address -5 through the table of the first process translates to -5 |
| Mmu.CompactionIsTransparent | cpu/src/cpu.h:485-505 | For every process and non-negative range, translation succeeds after compaction iff it did before |
| Mmu.ReadAfterCompaction | Memoria/src/memoria.h:595-626 | What a process reads through the MMU after compaction: the byte it had, or a blank exactly where the slide lost it |
| Mmu.ProcessesAreIsolated | cpu/src/cpu.h:485-505 | Ranges two processes may access meet only inside segment 0 |
| Mmu.TranslationIsInjective | cpu/src/cpu.h:485-505 | Within one process, two accepted non-negative addresses translate to different bytes |
| MemoryModule.Memoria.constructor | Memoria/src/memoria.c:40-50 | The module starts in the start-up state |
| MemoryModule.Memoria.AlojarNuevoHueco | Memoria/src/memoria.h:85-116 | Updating the hole list in place is the release on values |
| MemoryModule.Memoria.CallocSegment | Memoria/src/memoria.h:127-239 | Allocation in place gives the state and the answer of the creation on values, with one fresh record iff the answer is 0 |
| MemoryModule.Memoria.CreateSegment | Memoria/src/memoria.h:464-500 | A first request makes a table holding segment 0; a later one allocates |
| MemoryModule.Memoria.DeleteSegment | Memoria/src/memoria.h:502-522 | Deletion in place is the deletion on values |
| MemoryModule.Memoria.ExitProcess | Memoria/src/memoria.h:550-563 | Process exit in place is the exit on values |
| MemoryModule.Memoria.LiberarTabla | Memoria/src/memoria.h:554-561 | The exit loop releases every entry past the first |
| MemoryModule.Memoria.TablaGlobal | Memoria/src/memoria.h:606-608 | The global list holds exactly the entries of all tables |
| MemoryModule.Memoria.PrimeroPorEncima | Memoria/src/memoria.h:614-620 | The segment to move is the lowest one that starts above the hole |
| MemoryModule.Memoria.Deslizar | Memoria/src/memoria.h:622-623 | The move and the blanking of one turn, on the byte buffer |
| MemoryModule.Memoria.ReallocSegment | Memoria/src/memoria.h:581-593 | The segment takes the start of the hole, and the hole reappears behind it |
| MemoryModule.Memoria.Turno | Memoria/src/memoria.h:611-626 | One turn of the loop stays on the path to the compacted state and gets closer to it |
| MemoryModule.Memoria.CompactarSegmentos | Memoria/src/memoria.h:595-634 | The loop over shared records and one byte buffer computes the compaction on values |
| MemoryModule.Memoria.Escribir | Memoria/src/memoria.h:401-412 | A write changes the named bytes only |
| Wire.IntRoundTrip | ganSOsLibrary/src/funciones.c:305-313 | Every 32-bit integer comes back from its four bytes, negative ones included |
| Wire.StringRoundTrip | ganSOsLibrary/src/funciones.c:268-284 | A string without zero bytes comes back from its terminated bytes |
| Wire.ReadsStrings | ganSOsLibrary/src/funciones.c:475-486 | The loop of the decoder reads back any list of strings, wherever it stands in the buffer |
| Wire.ReadsTable | ganSOsLibrary/src/funciones.c:364-393 | A counted table of triples is read back, wherever it stands in the buffer |
| Wire.ContextRoundTrip | ganSOsLibrary/src/funciones.c:445-545 | Decoding the stream of any context returns PID, lists, program counter, 12 registers and table, and consumes exactly the stream |
| Wire.ContextMessageRoundTrip | ganSOsLibrary/src/funciones.c:419-545 | The same through operation code and declared size |
| Wire.MessageRoundTrip | ganSOsLibrary/src/funciones.c:419-432 | A message is read off a connection whole, whatever follows it |
| Wire.TableReplyRoundTrip | ganSOsLibrary/src/funciones.c:354-393 | A table reply returns table and flag, flag -1 included |
| Wire.BroadcastRoundTrip | Memoria/src/memoria.h:644-663 | The compaction broadcast returns exactly the PIDs and tables packed, in order |
| WireLayout.IntLayout | ganSOsLibrary/src/funciones.c:286-293 | The four bytes of an `int`, least significant first, add up to the number, or to it plus two to the 32 when it is negative |
| WireLayout.TableLayout | ganSOsLibrary/src/funciones.c:286-303 | A table: number of entries, then ID, base and size of each, at twelve bytes an entry |
| WireLayout.StringsLayout | ganSOsLibrary/src/funciones.c:268-284 | Strings: each after its size with the terminator, in order |
| WireLayout.ContextLayout | ganSOsLibrary/src/funciones.c:445-458 | A context: where PID, instructions, program counter, registers, parameters and table stand |
| WireLayout.TablesLayout | Memoria/src/memoria.h:644-663 | A broadcast: each PID before its table, in order |
| WireLayout.MessageLayout | ganSOsLibrary/src/funciones.c:419-432 | A message: operation code, size of the stream, stream |
| WireModule.Paquete.constructor | ganSOsLibrary/src/funciones.c:254-266 | A new packet has an operation code and an empty stream |
| WireModule.Paquete.AgregarAPaquete | ganSOsLibrary/src/funciones.c:305-313 | The buffer grows by the size and the bytes |
| WireModule.Paquete.EmpaquetarLista | ganSOsLibrary/src/funciones.c:268-277 | The loop appends count and strings |
| WireModule.Paquete.EmpaquetarCadenas | ganSOsLibrary/src/funciones.c:279-284 | The loop appends the registers |
| WireModule.Paquete.AgregarSegmento | ganSOsLibrary/src/funciones.c:286-293 | A triple is appended |
| WireModule.Paquete.EmpaquetarListaSegmentos | ganSOsLibrary/src/funciones.c:295-303 | The loop appends count and triples |
| WireModule.Paquete.Serializar | ganSOsLibrary/src/funciones.c:419-432 | Operation code, size, stream |
| WireModule.PaqueteContexto | ganSOsLibrary/src/funciones.c:445-458 | Building a context message step by step gives its encoding |
| WireModule.RecibirPaqueteContexto | ganSOsLibrary/src/funciones.c:460-545 | The hand-written decoder, offset by offset, is the decoding of the stream, truncated input included |
| WireModule.LeerTabla | ganSOsLibrary/src/funciones.c:364-393 | The table loop is the decoding of a table |
| WireModule.EmpaquetarTablas | Memoria/src/memoria.h:644-663 | The loop over the PIDs builds the broadcast |
| WireModule.RecibirTablas | Kernel/src/kernel.h:1257-1301 | The kernel reading the broadcast is its decoding |
| TableSync.ReplyInstallsTable | ganSOsLibrary/src/funciones.c:354-393 | Whoever takes a reply gives the PCB in its hands exactly the table sent, and gets the flag; the reply does not say whose table it is |
| TableSync.BroadcastInstallsTables | Kernel/src/kernel.h:1257-1301 | The broadcast is taken iff the kernel lists every process memory has a table for; every PCB named in it then holds exactly the table of memory, and the others what they held |
| TableSync.FirstTableAsBroadcast | Kernel/src/kernel.h:1257-1301 | A first table read as a broadcast takes the segments of PID 0 away, or finds no PCB |
| TableSync.OthersUntouched | Memoria/src/memoria.h:464-522 | A request of one process leaves the tables of the others alone, compaction apart |
| TableSync.KeysAfterApply | Memoria/src/memoria.h:464-578 | Which processes memory has a table for after a request |
| Exchange.ServingKeeps | Memoria/src/memoria.h:464-578 | A request memory can serve leaves tables that fit the wire again |
| ExchangeRuns.ServeKeeps | Memoria/src/memoria.h:526-578 | Memory serving the oldest request keeps every table, reply and list in step, when exchanges do not overlap |
| ExchangeRetry.RoomStays | Memoria/src/memoria.h:85-116 | A hole that is large enough stays large enough through every request but a creation |
| ExchangeRetry.StepKeepsRunInv | Kernel/src/kernel.h:214-246 | Every step of either kernel thread, of the exit thread and of memory keeps the whole invariant when the request meets its guard |
| ExchangeRetry.EveryRunAgrees | Kernel/src/kernel.h:478-544 | From start-up, in every run whose requests meet their guard: no thread goes by a flag that is not the answer to its own request, every PCB holds the table of memory unless the reply to its own request or the broadcast is on its way, and kernel and memory agree on all processes whenever nothing is |
| ExchangeRetry.EveryRunIsolates | cpu/src/cpu.h:485-505 | In such runs, what two processes translate through their own PCBs meets only in segment 0 |
| ExchangeRetry.EveryRunTranslatesApart | cpu/src/cpu.h:485-505 | In such runs, two accepted addresses of one PCB never name the same byte |
| ExchangeRetry.CreateCompactsOnce | Kernel/src/kernel.h:478-527 | In such runs one call of `create_segment` asks for at most one compaction, and only with enough bytes free; the second request is answered 0 whatever is served in between; -1 iff the free total is too small, 0 iff a hole fits, 1 otherwise |
| ExchangeRace.CrossedFirst | Kernel/src/kernel.h:478-503 | When the scheduler takes a first table and the admitting thread the answer to the scheduler, harm is avoided only if the answer was 0 and the two tables are equally long |
| ExchangeRace.CrossedSecond | Kernel/src/kernel.h:214-224 | The same with the requests served in the other order |
| ExchangeRace.MixedUp | Kernel/src/kernel.h:1257-1301 | When the admitting thread takes the broadcast and the scheduler a first table, a message breaks off, a PCB is missing, or PID 0 is left without segments |
| ExchangeSame.SendIsSafeIff | Kernel/src/kernel.h:214-224 | A request does no harm, in whatever order memory serves and the threads take what is under way, iff nobody else waits for an answer, or the two answers are the same bytes (a deletion that leaves its process with segment 0 alone, beside a first table); a compaction iff moreover no PCB is on its way to the global list or off it |
| ExchangeSame.EverySendIsDecided | Kernel/src/kernel.h:478-544 | From start-up, after every run whose requests met their guard, the next request is settled in this way by what can be read off when it is sent |
| ExchangeSame.LeavingIsSafeIff | Kernel/src/kernel.h:1231-1239 | A process may leave the global list iff no broadcast is awaited; otherwise the broadcast can name a PCB that is not there |
| ExchangeCrossed.RepliesCross | Kernel/src/kernel.h:478-503 | A run from start-up in which process 1 asks for a segment while process 2 is admitted and the replies cross: all is over, no flag was wrong, and yet process 1 is refused its own segment and process 2 translates into it |
| Disk.PutInBlock | FileSystem/src/filesys.h:95-99 | A write inside a block changes that block at that place and no other |
| Disk.GetInBlock | FileSystem/src/filesys.h:101-108 | A read inside a block sees that block only |
| Disk.FirstFree | FileSystem/src/filesys.h:110-113 | The bitmap scan finds the first clear bit |
| FileSystem.TakeDirOk | FileSystem/src/filesys.h:116-118 | Taking a direct block keeps ownership and blank free blocks |
| FileSystem.TakeIndOk | FileSystem/src/filesys.h:119-122 | Taking a pointer block keeps the same |
| FileSystem.TakeDataOk | FileSystem/src/filesys.h:123-128 | Writing a pointer into the pointer block and counting it keeps the same |
| FileSystem.GiveDirOk | FileSystem/src/filesys.h:176-181 | Wiping and releasing the direct block keeps the same |
| FileSystem.GiveIndOk | FileSystem/src/filesys.h:168-173 | Releasing a pointer block that is not wiped keeps the same: its slots were all zero |
| FileSystem.GiveDataOk | FileSystem/src/filesys.h:153-166 | Wiping and releasing the last data block and its pointer keeps the same |
| FileSystem.UniqueOwner | FileSystem/src/filesys.h:110-184 | A block has one owner in one role |
| Files.Ocupar | FileSystem/src/filesys.h:110-136 | Taking a block, whatever the state of its file, keeps the sizes of device and bitmap and every other control block |
| Files.Liberar | FileSystem/src/filesys.h:151-184 | Releasing a block, whatever the state of its file, keeps the sizes of device and bitmap and every other control block |
| Files.OcuparTakesLowest | FileSystem/src/filesys.h:110-136 | Whatever the state: the block answered is the lowest free one, -1 iff there is none; it becomes the direct block or the pointer block of a file without one |
| Files.GrowTakesLowest | FileSystem/src/filesys.h:548-559 | Whatever the state and the answer, a file grows into the lowest free blocks |
| Files.OcuparGrows | FileSystem/src/filesys.h:110-136 | One call appends exactly one blank data block to its file and changes no other, or answers -1 and changes nothing, when no pointer block is left alone |
| Files.LiberarShrinks | FileSystem/src/filesys.h:151-184 | One call removes exactly the last data block and changes no other file |
| Files.GrowExtends | FileSystem/src/filesys.h:550-558 | A safe growth answers 1 iff the free blocks suffice, and then uses exactly those; a refused one has used all free blocks; the blocks are appended, blank, and the invariant holds either way |
| Files.GrowKeepsInvariantIff | FileSystem/src/filesys.h:110-136 | Growth keeps the ownership invariant iff it never ends on a pointer block without a data block and never overfills a pointer block |
| Files.ShrinkDrops | FileSystem/src/filesys.h:540-547 | The shrinking loop drops exactly the last k blocks |
| Truncate.TruncateEffect | FileSystem/src/filesys.h:534-596 | Answer, size, blocks and contents after any truncate that passes the check; a refused one leaves the recorded size as it was and no block free |
| Truncate.TruncateAnswers | FileSystem/src/filesys.h:534-596 | Whatever the state: answer 2 iff no file has the name, and then nothing changes; on -1 every recorded size is what it was; names and the other control blocks never change |
| Truncate.TruncateKeepsInvIff | FileSystem/src/filesys.h:534-596 | Truncate keeps the file system invariant iff the check passes |
| Truncate.TruncateIsExact | FileSystem/src/filesys.h:534-596 | On success a file with exactly the blocks of its old size has ceil(size / block size) data blocks, a pointer block iff that is at least 2, the surviving blocks in order, zeros after |
| Truncate.OpenKeepsInv | FileSystem/src/filesys.h:518-531 | Opening adds an empty file or nothing, and keeps every file and its contents |
| Truncate.OpenEffect | FileSystem/src/filesys.h:518-531 | A name some file has changes nothing; any other gets one control block, at the end, without size and blocks; names stay different |
| Truncate.UndoOcupar | FileSystem/src/filesys.h:110-184 | Taking a block and giving it back restores bitmap, pointers, counter and every device byte |
| Truncate.GrowThenShrink | FileSystem/src/filesys.h:534-560 | Growing and shrinking by k blocks restores bitmap, pointers, counter and device bytes |
| Truncate.TruncateUpAndBack | FileSystem/src/filesys.h:534-560 | Truncating up and back restores the whole state |
| FileIo.WriteEffect | FileSystem/src/filesys.h:632-673 | A write in range is answered 1 and changes the named bytes of its file and no control block, bitmap bit, pointer block or other file |
| FileIo.MissingFile | FileSystem/src/filesys.h:632-732 | Whatever the range: a write is answered -1 iff no file has the name, and then nothing changes; a read then gets nothing |
| FileIo.ReadIsContent | FileSystem/src/filesys.h:700-732 | A read in range returns bytes of the blocks of the file |
| FileIo.ReadAfterWrite | FileSystem/src/filesys.h:632-732 | Reading a range back after writing it returns the bytes written |
| FileRuns.FreshIsOk | FileSystem/src/filesys.h:319-413 | A new device with an empty bitmap satisfies the invariant, also when the block count is no multiple of 8 |
| FileRuns.ServeKeepsInv | FileSystem/src/filesys.h:265-304 | Every request keeps the invariant |
| FileRuns.FsRunKeepsInv | FileSystem/src/filesys.h:265-304 | Any interleaving of opens, truncates and writes keeps it |
| FileRuns.EveryRunOwnsItsBlocks | FileSystem/src/filesys.h:265-304 | From a new device, after any run, a bit is set iff its block belongs to one file in one role, and free blocks are all zero |
| FileRuns.ServeKeepsNames | FileSystem/src/filesys.h:265-304 | Every request keeps every name where it is and gives no second file the same one |
| FileRuns.EveryRunNamesOnce | FileSystem/src/filesys.h:255-261 | From a new device, after any run, a name belongs to one file |
| FileRuns.ServeKeepsExact | FileSystem/src/filesys.h:534-596 | Opens, writes, and truncates that do not run out of space keep every file at exactly the blocks of its size |
| FileRuns.EveryRunIsExact | FileSystem/src/filesys.h:534-596 | From a new device, after any run in which no truncate is answered -1, every file has exactly ceil(size / block size) data blocks, a direct block iff that is at least 1 and a pointer block iff it is at least 2 |
| FileTrap.PointerBlockTrap | FileSystem/src/filesys.h:119-122 | With one free block, growing from one block to two answers 1, records the size, and leaves the file a block short and with a pointer block that holds no pointer |
| FileTrap.WritesToBlockZero | FileSystem/src/filesys.h:602-660 | A write to the missing block reads the pointer 0 and changes block j of file m, whenever block 0 of the device is that block; the request is answered 1 and reading back returns what was written |
| FileTrap.FirstFileAtZero | FileSystem/src/filesys.h:110-118 | The first file of a new device begins in block 0 once it has got its space |
| FileTrap.TrapIsReached | FileSystem/src/filesys.h:119-122 | A run from a new device of eight blocks that ends one request before the trap, with another file in block 0 |
| FileTrap.TrapHitsAnotherFile | FileSystem/src/filesys.h:602-660 | From there, a truncate and a write of one byte to file "a" change the first byte of file "b" |
| FlatFile.OneBlockWriteIsFlat | FileSystem/src/filesys.h:632-673 | A request with offset + bytes < block size is a write to a flat byte file |
| FlatFile.CrossingWriteSkipsAByte | FileSystem/src/filesys.h:646-660 | A split request leaves out the last byte of its first block |
| FlatFile.WriteIsFlatIff | FileSystem/src/filesys.h:632-673 | A write in range is the flat write iff it stays in one block, or the byte left out has the value it should get, the bytes put one place too far are all equal, and so is the byte after them |
| FlatFile.ReadIsFlatPieces | FileSystem/src/filesys.h:700-732 | A read inside one block returns the bytes of the flat file at the pointer; a split one returns two flat pieces and leaves the byte between them out |
| FlatFile.ReadIsFlatIff | FileSystem/src/filesys.h:700-732 | A read in range is the flat read iff it stays in one block, or all bytes from the one left out to the one past the range are equal |
| FlatFile.SplitShows | FileSystem/src/filesys.h:646-660 | A run from a new device and a two-byte write whose bytes land at places 2 and 4 |
| FileModule.Archivos.constructor | FileSystem/src/filesys.h:319-413 | A new device, mapped as arrays |
| FileModule.Archivos.CrearOAbrir | FileSystem/src/filesys.h:518-531 | Opening in place is opening on values; old control blocks stay the same records |
| FileModule.Archivos.OcuparBloqueLibre | FileSystem/src/filesys.h:110-136 | The bitmap scan and the recursive call, in place, are the block step on values, also on a full pointer block |
| FileModule.Archivos.LiberarUltimoBloqueFCB | FileSystem/src/filesys.h:151-184 | Wiping and releasing in place is the release on values, whatever the file has |
| FileModule.Archivos.Achicar | FileSystem/src/filesys.h:542-547 | The shrinking loop in place |
| FileModule.Archivos.Agrandar | FileSystem/src/filesys.h:548-559 | The growing loop in place, with its early exit, for any file and any number of blocks |
| FileModule.Archivos.TruncarArchivo | FileSystem/src/filesys.h:534-596 | Truncate in place gives the state and the answer of truncate on values, for any file and any size |
| FileModule.Archivos.BlockPointerFromNumber | FileSystem/src/filesys.h:602-616 | The direct pointer, or the pointer read back from the pointer block, whether or not the file has the block |
| FileModule.Archivos.EscribirArchivo | FileSystem/src/filesys.h:632-673 | Writing in place is the write on values, for any range |
| FileModule.Archivos.LeerArchivo | FileSystem/src/filesys.h:700-732 | Reading is the read on values, for any range |
| Kernel.Tick | Kernel/src/kernel.h:226-230 | Posts and waits change no list |
| Kernel.Move | Kernel/src/kernel.h:998-1084 | Scheduler moves leave resources, open files and queues alone |
| KernelPlaces.TakeKeeps | Kernel/src/kernel.h:226-241 | Removing a process from a list leaves it on no list, and every other where it was |
| KernelPlaces.PutKeeps | Kernel/src/kernel.h:316-373 | Adding the process in hand puts it on that list only |
| KernelPlaces.AdmitPlaces | Kernel/src/kernel.h:226-241 | Admission moves the first new process to the end of the ready list, and nobody else |
| KernelPlaces.DispatchPlaces | Kernel/src/kernel.h:1159-1161 | Dispatch moves the head of the ready list to the CPU, and nobody else |
| KernelPlaces.IoDonePlaces | Kernel/src/kernel.h:450-463 | The end of an I/O moves its process to the ready list, whichever sleeper it is |
| KernelPlaces.CallFsPlaces | Kernel/src/kernel.h:729-753 | A file petition moves the running process to the end of the file-system queue |
| KernelPlaces.MovePlaces | Kernel/src/kernel.h:998-1084 | Every scheduler step moves one process, and nobody else |
| KernelPlaces.WaitPlaces | Kernel/src/kernel.h:316-373 | WAIT puts the process in exactly one place |
| KernelPlaces.SignalPlaces | Kernel/src/kernel.h:416-443 | SIGNAL puts the process, and whoever it wakes, in exactly one place |
| KernelPlaces.OpenFilePlaces | Kernel/src/kernel.h:640-700 | F_OPEN puts the process in exactly one place |
| KernelPlaces.CloseFilePlaces | Kernel/src/kernel.h:601-638 | F_CLOSE puts the process, and whoever it wakes, in exactly one place |
| KernelResources.WaitResources | Kernel/src/kernel.h:316-373 | WAIT keeps the balance of every resource: a use registered is an instance taken or a place in the queue |
| KernelResources.SignalResources | Kernel/src/kernel.h:375-443 | SIGNAL keeps every balance, except for one instance more when the process had not registered the resource |
| KernelResources.ReleaseResources | Kernel/src/kernel.h:388-414 | A release adds one instance: to the first in line, or to the free ones |
| KernelResources.ReleaseAllResources | Kernel/src/kernel.h:1192-1210 | An exiting process ends with nothing registered, and every balance is kept |
| KernelResources.BalanceIsFreePlusHeld | Kernel/src/kernel.h:299-443 | The balance is the free instances plus those processes have in hand |
| KernelFiles.OpenFiles | Kernel/src/kernel.h:640-700 | Opening makes the process the holder of a new file or the last in line of an open one |
| KernelFiles.NotWaitingHolds | Kernel/src/kernel.h:601-638 | A process that lists a file and waits for none is its holder, by exactly one entry |
| KernelFiles.FreeFileFiles | Kernel/src/kernel.h:577-598 | Freeing makes the first in line the holder, or takes the file out of the system table |
| KernelFiles.CloseFiles | Kernel/src/kernel.h:601-638 | Closing keeps one holder for every open file |
| KernelFiles.CloseAllFiles | Kernel/src/kernel.h:1212-1218 | An exiting process ends with no file open, and every open file keeps one holder |
| KernelFiles.EntriesOfOpenFile | Kernel/src/kernel.h:577-700 | Over all tables, an open file has one entry more than its queue is long |
| KernelFifo.ReleaseAdvances | Kernel/src/kernel.h:388-414 | A release moves the head of the queue of that resource, if it has one, to the end of the ready list; every other queue stays as it is |
| KernelFifo.StepIsFifo | Kernel/src/kernel.h:316-443 | In every step a queue for a resource or a file loses heads only, who become ready, or gains one process at its end |
| KernelFifo.DismissAdvances | Kernel/src/kernel.h:1192-1218 | The exit clean-up wakes heads of queues only and adds them at the end of the ready list |
| KernelOrder.StepKeepsOrder | Kernel/src/kernel.h:998-1084 | In every step a scheduler list loses its head only on its turn, keeps the rest in order, and gains in front only the process whose call was granted |
| KernelOrder.CloseKeepsOrder | Kernel/src/kernel.h:601-638 | A process that closes a file goes to the end of the ready list, ahead of whoever it wakes |
| KernelOrder.LatestIsFirst | Kernel/src/kernel.h:316-340 | Until the next dispatch the head of the ready list is the process whose call was granted last, whatever the other threads do |
| KernelOrder.GrantedRunsNext | Kernel/src/kernel.h:316-340 | From start-up, the process dispatched after a granted call is the one granted last; it is the same process when no other call was granted in between, posts, arrivals and appends notwithstanding |
| KernelOrder.StepEnds | Kernel/src/kernel.h:316-443 | The exit list gains exactly the process that finished, failed, named a missing resource, closed a file it had not opened, or got no space |
| KernelSteps.EnabledIsSafe | Kernel/src/kernel.h:226-250 | Under the invariant no step removes from an empty list or looks up a missing key |
| KernelSteps.WaitKeepsInv | Kernel/src/kernel.h:316-373 | WAIT keeps the whole invariant |
| KernelSteps.SignalKeepsInv | Kernel/src/kernel.h:416-443 | SIGNAL keeps the whole invariant |
| KernelSteps.OpenKeepsInv | Kernel/src/kernel.h:640-700 | F_OPEN keeps the whole invariant |
| KernelSteps.CloseKeepsInv | Kernel/src/kernel.h:601-638 | F_CLOSE keeps the whole invariant |
| KernelSteps.AttendKeepsInv | Kernel/src/kernel.h:929-983 | One turn of the file-system thread keeps the whole invariant |
| KernelSteps.DismissKeepsInv | Kernel/src/kernel.h:1220-1253 | One turn of the exit thread keeps the whole invariant and leaves nothing registered |
| KernelSteps.ArriveKeepsInv | Kernel/src/kernel.h:157-198 | A new console under a fresh PID keeps the whole invariant |
| KernelSteps.MoveKeepsInv | Kernel/src/kernel.h:998-1084 | Admission, dispatch, yielding, exiting, I/O and queueing keep the whole invariant |
| KernelSteps.StepKeepsInv | Kernel/src/kernel.h:998-1084 | Every step of every thread keeps the whole invariant |
| KernelRuns.BootIsOk | Kernel/src/kernel.c:180-185 | Start-up satisfies the invariant |
| KernelRuns.RunKeepsInv | Kernel/src/kernel.h:226-250 | Any interleaving of steps keeps the invariant |
| KernelRuns.EveryRunIsSafe | Kernel/src/kernel.h:1154-1163 | From start-up, whatever can happen next removes from no empty list and finds every dictionary entry |
| KernelRuns.EveryRunConservesProcesses | Kernel/src/kernel.h:226-250 | From start-up, after any run, every live process is in exactly one place, semaphores count their lists up to in-flight steps, and slots add up to the degree of multiprogramming |
| KernelRuns.StepBalance | Kernel/src/kernel.h:299-443 | A step moves the balance of a resource only by a signal of a process that had not registered it |
| KernelRuns.EveryRunAccountsForResources | Kernel/src/kernel.h:299-443 | From start-up, after any run, free plus held instances are the configured ones plus signals without a registration; free instances mean no queue; a queue is in the dictionary iff somebody waits |
| KernelRuns.TeardownLeavesNothing | Kernel/src/kernel.h:1220-1253 | A process torn down is on no list, holds no resource and has no file open |
| KernelRuns.FilesAreExclusive | Kernel/src/kernel.h:577-700 | The invariant gives exclusivity: one lister that is not in line, entries = 1 + queue length, a queue iff the file is open |
| KernelRuns.EveryRunKeepsFilesExclusive | Kernel/src/kernel.h:577-700 | From start-up, after any run, every file is exclusive |
| KernelRuns.StepKeepsTable | Kernel/src/kernel.h:601-700 | Only the process being served or torn down has its open-file table changed |
| KernelRuns.OpenedTwiceWaitsForever | Kernel/src/kernel.h:640-700 | A process that opens the same file twice waits for it in every state from then on |
| KernelModule.Nucleo.constructor | Kernel/src/kernel.c:180-185 | The kernel starts in the start-up state, with its invariant |
| KernelModule.Nucleo.WaitRecurso | Kernel/src/kernel.h:316-373 | WAIT on the dictionaries in place is the WAIT step |
| KernelModule.Nucleo.QuitarRecurso | Kernel/src/kernel.h:375-386 | The first matching entry is removed, or none |
| KernelModule.Nucleo.LiberarRecurso | Kernel/src/kernel.h:388-414 | A release in place is the release step |
| KernelModule.Nucleo.SignalRecurso | Kernel/src/kernel.h:416-443 | SIGNAL in place is the SIGNAL step |
| KernelModule.Nucleo.LiberarRecursosDelProceso | Kernel/src/kernel.h:1192-1210 | The exit loop releases everything the process has registered |
| KernelModule.Nucleo.LiberarArchivo | Kernel/src/kernel.h:577-598 | Freeing a file in place is the step on values |
| KernelModule.Nucleo.AbrirArchivo | Kernel/src/kernel.h:640-700 | F_OPEN in place is the step on values |
| KernelModule.Nucleo.CerrarArchivo | Kernel/src/kernel.h:601-638 | F_CLOSE in place is the step on values |
| KernelModule.Nucleo.CerrarArchivosDelProceso | Kernel/src/kernel.h:1212-1218 | The exit loop closes every file of the process |
| KernelModule.Nucleo.Admitir | Kernel/src/kernel.h:230-245 | Admission in place is the step, removes from no empty list, and keeps the invariant of the object |
| KernelModule.Nucleo.Despachar | Kernel/src/kernel.h:1159-1161 | Dispatch takes the head of the ready list, which is not empty, and keeps the invariant |
| KernelModule.Nucleo.EjecutarWait | Kernel/src/kernel.h:316-373 | WAIT of the running process in place is the step and keeps the invariant |
| KernelModule.Nucleo.EjecutarSignal | Kernel/src/kernel.h:416-443 | SIGNAL of the running process in place is the step and keeps the invariant |
| KernelModule.Nucleo.Atender | Kernel/src/kernel.h:949-978 | One turn of the file-system thread in place is the step and keeps the invariant |
| KernelModule.Nucleo.Terminar | Kernel/src/kernel.h:1220-1252 | One turn of the exit thread in place, both loops included, is the step and keeps the invariant |
| KernelBooks.StepRegisters | Kernel/src/kernel.h:299-386 | What every step does to the WAITs of every process: a WAIT of a known resource adds one at the end, a SIGNAL takes the first one for its resource, the teardown leaves none, anything else changes nothing |
| KernelBooks.StepLists | Kernel/src/kernel.h:601-700 | What every step does to the open files of every process: the file opened stands in front, the first entry of a closed file goes, the teardown leaves none, anything else changes nothing |
| KernelBooks.TeardownWakes | Kernel/src/kernel.h:1192-1218 | The ready list after an exit: at its end the first in line of each resource not given back, in the order of the WAITs, then of each file open, the one opened last first |
| KernelRace.HarmlessIsSerial | Kernel/src/kernel.h:577-700 | When the files differ or somebody is in line, every schedule of F_OPEN and `liberar_archivo` ends like one call after the other |
| KernelRace.RaceKeepsExclusiveIff | Kernel/src/kernel.h:577-700 | For each of the ten schedules: every file keeps its one holder iff the files differ, somebody is in line, or the calls do not overlap; the outcome is then that of one call after the other |
| KernelRace.NoScheduleHarmsIff | Kernel/src/kernel.h:577-700 | No schedule harms iff the files differ or somebody is in line: a condition on the state before the calls |
| KernelRace.OpenerIsLost | Kernel/src/kernel.h:689-693 | When the file is found and nobody is in line, overlapping calls leave the process that opens on no list at all |
| KernelRace.RaceStarts | Kernel/src/kernel.h:1212-1218 | In every state of the invariant with an F_OPEN in service and a leaving process, the two threads are about to overlap in this way for each file of that process, in its turn of the closing loop; the queue of the file is then the one it has now |
| KernelRace.EveryRunRacesSafelyIff | Kernel/src/kernel.h:1212-1218 | From start-up, after any run, for every file of the leaving process: no schedule beside an F_OPEN harms iff it is another file or somebody is in line for it now; no file is harmed iff the file opened is not in the table or has a queue; with nobody in line the process that opens can end on no list |
| KernelRaceRun.HolderLeavesAlone | Kernel/src/kernel.h:1212-1218 | A run from start-up that reaches an F_OPEN of the file its only holder is about to free |
| KernelWaitRace.WaitFirstIs | Kernel/src/kernel.h:316-373 | Turn by turn, WAIT and then the release are the two steps of the machine, one after the other |
| KernelWaitRace.ReleaseFirstIs | Kernel/src/kernel.h:388-414 | The same with the release first |
| KernelWaitRace.WaitRaceIsSerialIff | Kernel/src/kernel.h:316-414 | For each of the twenty schedules of WAIT and a release in the exit thread: the outcome is that of one call after the other iff the resources differ, an instance is free or owed, more than one process is in line, or the calls do not meet |
| KernelWaitRace.NoScheduleHarmsIff | Kernel/src/kernel.h:316-414 | No schedule harms iff the resources differ, an instance is free or owed, or more than one process is in line: a condition on the state before the calls |
| KernelWaitRace.TheyMeet | Kernel/src/kernel.h:316-414 | Where the calls meet, an instance ends up free with the process in line for it, or the process is in a queue the dictionary no longer has |
| KernelWaitRace.WaiterIsLost | Kernel/src/kernel.h:345-355 | A process that took its place in a queue already taken out is on no list, with the resource registered |
| KernelWaitRuns.RaceStarts | Kernel/src/kernel.h:1192-1210 | In every state of the invariant with a process running and another one leaving, a WAIT of the former is about to overlap with each release of the latter, in its turn of the loop |
| KernelWaitRuns.EveryRunWaitsSafelyIff | Kernel/src/kernel.h:1192-1210 | From start-up, after any run, for each resource the leaving process holds and each resource waited for: every schedule has the outcome of one call after the other iff that condition holds |
| KernelRaceRun.HolderOfTheOnlyInstance | Kernel/src/kernel.h:1192-1210 | A run from start-up in which the holder of the only instance is leaving while another process runs and nobody is in line: the condition fails there |
| Gate.CounterIsExact | Kernel/src/kernel.h:736-753 | The counter is zero iff no read or write is queued, in service or on its way |
| Gate.StepKeepsCounters | Kernel/src/kernel.h:736-753 | Counter and semaphore stay exact through every step of both threads |
| Gate.EveryGuardedRunIsSafe | Kernel/src/kernel.h:911-983 | When every request meets the guard, memory is compacted only with nothing pending, and nothing enters before the tables are back |
| Gate.EveryOrderlyRunIsSafe | Kernel/src/kernel.h:929-942 | With the loop head as one step, safety needs only that no permission is left over when compaction is asked for |
| Gate.RequestIsSafeIff | Kernel/src/kernel.h:911-923 | A request is safe however it goes on iff nothing is pending, or no permission is left over and the loop head is not half done |
| Gate.SkippedWaitLeavesAPermission | Kernel/src/kernel.h:911-942 | A run from start-up in which a compaction that did not wait makes a later one unsafe |
| Gate.HalfDoneHeadLetsItThrough | Kernel/src/kernel.h:933-942 | A run from start-up in which a read counted between the two looks of the loop head makes the first compaction unsafe |
| Gate.WhatARequestLeaves | Kernel/src/kernel.h:911-942 | Made with no permission outstanding and no flag about to be cleared, a request that waited leaves no permission and no standing flag; one that did not leaves exactly one of them |
| Gate.BusyStepIsDown | Kernel/src/kernel.h:911-983 | Inside a request every step of either thread uses up a bounded supply |
| Gate.RequestIsBounded | Kernel/src/kernel.h:911-983 | A request takes no more steps than the queued work allows |
| Gate.WaiterIsNotLost | Kernel/src/kernel.h:911-942 | While the scheduler waits without a permission and the flag stands, only the file-system thread can go on, and it can |
| Gate.RequestIsWokenIff | Kernel/src/kernel.h:911-942 | However a request goes on it ends in compaction, never in a scheduler that waits for good, iff nothing is pending, or a permission is at hand, or the file-system thread is not between its post and its clearing of the flag |
| Gate.EveryRequestIsDecided | Kernel/src/kernel.h:911-942 | From start-up, after any run, both whether a request is safe and whether it is woken are settled by what can be read off when it is made |
| Gate.SlowClearLosesARequest | Kernel/src/kernel.h:937-940 | A run from start-up after which a request can wait for good: an earlier one compacts and returns between post and clearing |
| GatePetitions.OthersKeepCurrent | Memoria/src/memoria.h:464-563 | A request of another process leaves a pending address naming the same place of the same segment |
| GatePetitions.StepKeepsCInv | Kernel/src/kernel.h:736-983 | Every step of scheduler, file-system thread and memory keeps every pending address current until its bytes are moved, when requests for compaction meet their guard; the process may run and make requests from then on, before the counter drops |
| GatePetitions.EveryGuardedRunKeepsAddresses | Kernel/src/kernel.h:736-983 | From start-up, in every guarded run: the address a read or write got when it was made is the one its logical address has when its bytes are moved, inside the same segment |

## Left out

- Sockets, handshakes, configuration parsing, logging, delays and clocks: a message is a byte sequence or an atomic step.
- Sizes passed to `malloc` and leaks: sequences and opaque names stand for buffers.
- `asentarFCB`, `crearArchivoFCB`, `inicializarListaFCB` and the answer -1 after a failed `config_save`: file control blocks live in memory only.
- HRRN dispatch: its comparator changes estimates while sorting; dispatch takes the head of the ready list.
- CPU instruction dispatch, register instructions and the console.
- An unknown ALGORITMO_ASIGNACION, which ends the memory module.
- Sizes of 0 or less in a creation request, IDs repeated by one process and the deletion of segment 0 or of an ID the process does not have.
- Signed overflow in address and hole arithmetic: those integers are unbounded. The wire format and the device pointers are bounded to 32 bits.
- The value -1 that marks an absent block pointer is compared as an integer.
- PID reuse: PIDs are socket numbers in the program; here a PID is fresh.
- Threads of the memory module: its requests are atomic. Transfers of files stay out of a compaction because of the gate, transfers of the CPU because the scheduler waits for the tables.
- WireLayout.IntLayout: the program copies its integers as the machine holds them; here that is least significant byte first.
- KernelBooks.StepRegisters: a resource is registered under its whole name, while the program copies nine bytes of it (kernel.h:307-308), which cuts names of more than eight characters.
- MemoryEffects.CreateEffect: of equal holes the first in the list is taken, as `list_get_minimum` and `list_get_maximum` do with comparisons that keep the first; those are functions of the commons library.
- WireModule.RecibirPaqueteContexto: input that would make the decoder read past its buffer is answered `OutOfBounds`, because what the program then reads is undefined.
- Disk.PutInBlock: an access off the device, undefined in the program, does nothing in `Put` and finds nothing in `Get`; every access the theorems speak of is proved to be inside.
- FileModule.Archivos.EscribirArchivo: requires that the file pointer is not negative; before the first block the program writes in front of it or ends.
- FileModule.Archivos.LeerArchivo: requires the same of the file pointer.
- FlatFile.WriteIsFlatIff: speaks of ranges inside the blocks of the file, at most two of them; the program checks neither, and past them the result depends on whatever the pointer block holds.
- FileRuns.FsRunKeepsInv: runs contain truncates that pass the check or run out of space, because one that does not pass it breaks the invariant, as `Truncate.TruncateKeepsInvIff` states.
- KernelModule.Nucleo.AgregarAReady: the post after an insertion is counted as owed, because another thread may run before it.
- KernelSteps.StepKeepsInv: the effects of one file petition, one WAIT, one SIGNAL and one teardown are one step each. The exit thread runs `liberar_archivo` and `liberar_recurso_y_actualizar_ready` beside them without a lock (kernel.h:577-598, 388-414; the comment at kernel.h:670 asks for one), so this is an assumption.
- KernelRuns.EveryRunKeepsFilesExclusive: rests on that assumption; `KernelRace.RaceKeepsExclusiveIff` says when it can be dropped for F_OPEN. For F_CLOSE beside the exit thread it is not dropped.
- KernelRuns.EveryRunAccountsForResources: rests on it too; `KernelWaitRace.WaitRaceIsSerialIff` says when it can be dropped for WAIT. For SIGNAL beside the exit thread, and for runs in which several calls overlap, it is not dropped.
- KernelWaitRace.WaitRaceIsSerialIff: registering the resource comes before the turns, reading and changing the number of instances is one turn each, and two threads inside one list or dictionary operation at once are left out.
- KernelRace.RaceKeepsExclusiveIff: what F_OPEN does after its look-up is one turn; two threads inside one list operation at once are left out.
- KernelRuns.EveryRunIsSafe: rests on the same assumption; a SIGNAL of a known resource is assumed to follow some WAIT of that process, F_READ and F_WRITE to name a file that is open in the system, and F_SEEK one that is open in the process's own table; the program dereferences a null pointer otherwise.
- Kernel and gate are separate state machines; the file petitions of one are the nodes of the other.
- GatePetitions.EveryGuardedRunKeepsAddresses: the process that waits for its petition makes no request of its own until the bytes are moved, and is not torn down before.
- GatePetitions and the exchanges are separate state machines: in the former a request to memory is one step.
- TableSync.ReplyInstallsTable: requires numbers and sizes that fit in the `int` of the wire.
- Exchange.ServingKeeps: a request that memory cannot serve is not sent. Sizes are positive, a deletion names a segment of its process, a first request has a fresh PID, and all tables together fit one message.
- ExchangeRetry.StepKeepsRunInv: messages are taken whole; two threads inside one receive at once are left out. A process makes requests once it is on the global list, although the ready list has it a moment earlier (kernel.h:236-239), and the process that leaves is not the one the scheduler works for.
- ExchangeRetry.EveryRunAgrees: speaks of runs whose requests meet the guard of `ExchangeRuns.Guard`, because the property fails in others, as `ExchangeCrossed.RepliesCross` shows.
- ExchangeSame.SendIsSafeIff: what is under way is brought to its end without further requests, and before the request the exchanges did not overlap.
