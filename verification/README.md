# Verification of ida-mcp

This project models the parts of ida-mcp where a mistake would be hardest to see, and proves what they
promise. It covers five areas.

* **The VM devirtualizer** (`skill/scripts/vm_devirt.py`). Intercepted calls become events with register
  and frame snapshots; consecutive events are diffed; the difference is emitted as straight-line code
  (`Registers`, `Reconstruct`). `Simulation`, `FrameReplay` and `TraceSimulation` run that code on a small
  register and stack machine and prove, for every event list, when it repeats the recorded calls, registers
  and frames; `Relocation` runs it with stack, image and imports anywhere and calls that return anything.
  `Fprem` is the exact arithmetic of the partial-remainder fix-up, `HookSpace` the allocator and the hook
  addresses, `FakePe` and `ImportArea`/`ImportWalk` the two binary printers with the walks that read them back,
  `DevrtLayout` the layout of the generated section, `DevrtImage` that section in the image and `DevrtImports`
  its import list, the loader and the calls.
* **The worker protocol** (`src/ida/loop_impl.rs`, `src/ida/worker.rs`, `src/ida/request.rs`). `WorkerLoop`
  is the receive loop with its database and lock, `WorkerProtocol` the state machine of all callers, the
  bounded queue and the loop, `WorkerRuns` what holds over every interleaving.
* **The lock files** (`src/ida/lock.rs`). `LockFile` is their text, `LockProtocol` the processes that
  acquire, release, crash and clean up.
* **The database store** (`src/idb_store.rs`). `Eviction` is oldest-first eviction of file groups,
  `IdbStore` the index and the directory, `StoreRuns` the operations and runs of them.
* **Parsers and printers**. `PatchBytes` (`src/rpc_dispatch.rs`), `PyEscape` (`src/dsc.rs`) and `Serialize`
  (`scripts/decompile_structured.py`) with `ReadBack`, a reader of its output.

`Align`, `Bytes`, `Chars`, `Decimal` and `Options` are the small vocabulary the others share. Code that
changes things step by step is modelled by methods and classes proved against functions; the theorems are
about those functions. Every induction is written out: all lemmas carry `{:induction false}`, so none relies
on an automatically added hypothesis. `dafny verify dfyconfig.toml` checks everything.

## Main results

* Call traces are preserved exactly when no block has a read-after-write hazard, an oversized immediate or an
  import slot with another address (`TraceSimulation.CallTraceExact`, for recorded traces by
  `TraceSimulation.RecordedSetup`), and frame slots exactly when each change survives its 32-bit store
  (`TraceSimulation.FrameExact`).
* The code is independent of where it was recorded: for every stack, image base, import resolution and return
  value it makes the recorded calls with what the recorded values stand for, exactly when no return marker came
  back from memory (`Relocation.RunsAnywhere`).
* Both PE printers decode back by the walk a loader makes (`FakePe.ExportRoundTrip`,
  `ImportWalk.ImportsDecode`). In the image, the generated section's import directory decodes from the address
  the generator reports, and its code runs at the addresses and against the slots it was assembled for
  (`DevrtImage.SectionDecodes`, `DevrtImage.CodeRuns`). Reconstruction and section meet in
  `DevrtImports.SectionCalls`: the calls reach the recorded targets exactly when the loader finds them.
* Repeating the partial-remainder step stops, in a bounded number of steps, for every divisor, and keeps the
  remainder exactly when a clamped step does not spoil it (`Fprem.IterateCorrect`).
* All hooked addresses of an emulator are distinct exactly when the imports stay within their space or there is
  no sentinel behind it (`FakePe.HookAll`).
* Every interleaving of the worker protocol keeps its order, outcome, skipping, lock and shutdown rules
  (`WorkerRuns`), and every run of the lock protocol its ownership rules (`LockProtocol.RunKeeps`); a stale lock
  file is cleaned exactly when `LockProtocol.StaleCleaned` says.
* Which groups an eviction takes is known beforehand, exactly (`Eviction.EvictedExactly`), and so are the files
  that stay, the index and the bytes it reports (`IdbStore`, `StoreRuns`).
* The parsers and printers round-trip on all inputs (`PatchBytes.RoundTrip`, `PyEscape.EscapeRoundTrip`,
  `PyEscape.ScriptSays`, `ReadBack.RoundTripS`), and pruning commutes with serialization (`Serialize.PruneS`).

## Where the code does not meet the promise

Each of these is stated with a concrete input or an if-and-only-if.

* The reconstruction loses register swaps and 64-bit immediates of 0xFFFFFFFF80000000 or more
  (`TraceSimulation.SwapIsUnclean`, `TraceSimulation.MinusOneIsUnclean`), and two hooks under one symbol cannot
  both be loaded from its slot (`TraceSimulation.SharedSymbol`; exactly when they share one:
  `HookSpace.SharedSymbols`). A return value that comes back from memory is emitted as its marker
  (`Relocation.MarkerFromMemory`).
* The FPREM exponent clamp makes steps, and the remainder, wrong at every divisor exponent below 63
  (`Fprem.ClampCanFire`; exactly when: `Fprem.StepExact`, `Fprem.StepKeepsRemainder`).
* More than 4096 imports run into the .rdata sentinels (`FakePe.HookAll`).
* The import area is misplaced, and not found, when the two assembly passes differ in length
  (`DevrtImage.SectionAgrees`, `DevrtImage.OneCallMisread`).
* If every worker handle is dropped without Shutdown while a database is open, the lock is given up before
  the database is closed and the lock file stays on disk (`WorkerLoop.DisconnectedEarly`,
  `WorkerRuns.AbandonedRun`).
* A held lock file names its holder exactly as long as nobody else tries to acquire the path
  (`LockProtocol.HeldNames`, `LockProtocol.NamesNobodyRun`).
* The file a crashed holder leaves is not cleaned while another process has its pid, unless somebody had tried to
  acquire the path (`LockProtocol.StaleCleaned`).
* The operands of an operator without a first operand are not in the serialized tree (`ReadBack.RoundTripE`, by
  what `KeptE` drops).
* Eviction can delete the index itself (`StoreRuns.IndexCanBeLost`, `IdbStore.EvictionIndex`).

## Model

| member | source | states |
|---|---|---|
| Registers.SentinelFamilies | skill/scripts/vm_devirt.py:94-126 | Return markers and clobber markers are disjoint families; every planted value is recognised as one of its own family and of no other. |
| Registers.FamilyIsShift | skill/scripts/vm_devirt.py:112-122 | The range tests of the model are the comparison of the top 16 bits. |
| Registers.ClobberParts | skill/scripts/vm_devirt.py:116-118 | A clobber marker holds the low 16 bits of the call index and, above them, the sum of the characters of the register name. |
| Registers.ClobbersDiffer | skill/scripts/vm_devirt.py:116-118 | Markers of two different caller-saved registers never coincide, whatever the calls. |
| Registers.VolatileList | skill/scripts/vm_devirt.py:90 | The list of caller-saved registers holds exactly those registers. |
| Reconstruct.FindVia | skill/scripts/vm_devirt.py:829-830 | The register a call went through is the first one in table order, rsp aside, that holds the address; none only if there is no such register. |
| Reconstruct.PlantClobbers | skill/scripts/vm_devirt.py:844-845 | After a call exactly the caller-saved registers hold their clobber markers. |
| Reconstruct.Recorder.constructor | skill/scripts/vm_devirt.py:269-302 | A recorder starts without events and with the given registers. |
| Reconstruct.Recorder.OnCall | skill/scripts/vm_devirt.py:826-850 | Appends one event with the registers, frame and position seen, leaves earlier events alone, returns through the saved address and leaves the registers the next diff starts from; the event names a hooked address, its return marker, and a register that holds the address, or none if no register does. |
| Reconstruct.Recorder.OnDarkCall | skill/scripts/vm_devirt.py:854-877 | The same for a call to an address that is not hooked, for which no register is looked for. |
| Reconstruct.FrameSnap | skill/scripts/vm_devirt.py:744-755 | A readable frame gives a complete snapshot: every dword and qword offset of the frame below 0x200, and no other, with the value in memory. |
| Reconstruct.ComputeFrameDelta | skill/scripts/vm_devirt.py:1656-1675 | The two passes emit, in order, the changed qwords from 0x20 to the scan limit and then the changed dwords no qword write has covered. |
| Reconstruct.ClassifyReg | skill/scripts/vm_devirt.py:1626-1654 | A register gets an operation exactly when its value changed and is not a clobber marker; the operation names a source that had the recorded value. Which kind it is, is what Relocation.RunsAnywhere depends on. |
| Reconstruct.ComputeClassifyDelta | skill/scripts/vm_devirt.py:1626-1654 | The loop over the register table yields the operations of the changed registers in table order. |
| Reconstruct.FindRegSrc | skill/scripts/vm_devirt.py:809-815 | A named source register is neither the destination nor rsp and held the value before; zero has none. |
| Reconstruct.FindRegNone | skill/scripts/vm_devirt.py:809-815 | There is no source exactly for zero and for a value no other register held. |
| Reconstruct.Reconstruct | skill/scripts/vm_devirt.py:1677-1742 | The loop that carries registers and frame from event to event emits, for each event, register operations, frame writes and the call, and a final jump. |
| Simulation.NonMoveExact | skill/scripts/vm_devirt.py:1626-1654 | An operation that is not a move writes the recorded value exactly when it is not an immediate of 0xFFFFFFFF80000000 or more and the import slot it loads from, if any, holds the value. |
| Simulation.SnocValue | skill/scripts/vm_devirt.py:1698-1718 | After a clean prefix the next operation produces the recorded value exactly when it is clean itself. |
| Simulation.BlockExact | skill/scripts/vm_devirt.py:1698-1742 | Running the operations of one event puts every recorded register in place, clobber markers and rsp aside, if and only if no move reads an overwritten register, no immediate is oversized and every import slot loaded from holds the recorded value. |
| TraceSimulation.RunIsTrace | skill/scripts/vm_devirt.py:1677-1742 | Running the whole reconstructed code is running its blocks one by one, each making one call, and then jumping to the VM exit. |
| TraceSimulation.CallTraceExact | skill/scripts/vm_devirt.py:1677-1742 | With the image where it was recorded and calls that return the recorded markers, for every event list without SDK markers and every content of the import slots: the code makes one call per event and then exits; every recorded register is right at every call if and only if every block is clean; and then the calls go to the recorded targets in order if and only if the slots of the calls that go through no register hold them. |
| TraceSimulation.RecordedSetup | skill/scripts/vm_devirt.py:826-877 | Traces of the two recorders, with the image where it was and calls that return the recorded markers, meet the conditions of the trace theorems. |
| TraceSimulation.SwapIsUnclean | skill/scripts/vm_devirt.py:1626-1654 | A recorded swap of two registers before the first call: on any machine the call of the reconstructed code finds 2 in rcx where 1 was recorded. |
| TraceSimulation.MinusOneIsUnclean | skill/scripts/vm_devirt.py:1626-1654 | A recorded load of -1 that is no hook and no address: on any machine the call of the reconstructed code finds 0xFFFFFFFF in rax. |
| TraceSimulation.SharedSymbol | skill/scripts/vm_devirt.py:1644-1645 | Two loads of different hooked addresses under one symbol are never both right, whatever the slot holds. |
| Relocation.NonMoveKind | skill/scripts/vm_devirt.py:1643-1653 | A value no register had is loaded from the import slot of its hook, else computed from rsp if it is in the frame, else addressed relative to the code if it is in the image, else an immediate. |
| Relocation.RunsAnywhere | skill/scripts/vm_devirt.py:1626-1742 | For every stack pointer, image base, content of the import slots and return values: with no read-after-write hazard and no oversized immediate, every register at every call holds what the recorded value stands for (what call j returned, the import of a hooked address, the same place in the moved frame or image, or itself) if every return marker was still in a register before, and only then unless a call returns what its marker would be taken for; each call goes to the import of its hooked address if and only if the slots of unhooked calls resolve; the code ends with the jump to the VM exit in the moved image. |
| Relocation.MarkerFromMemory | skill/scripts/vm_devirt.py:1626-1654 | Three calls in which the result of the first comes back from memory: wherever the code runs, the third call gets the marker itself. |
| FrameReplay.RunWrites | skill/scripts/vm_devirt.py:1720-1725 | Running emitted writes changes the frame as replaying them does and nothing else. |
| FrameReplay.DPassSilent | skill/scripts/vm_devirt.py:1668-1674 | Between complete snapshots the dword pass emits nothing. |
| FrameReplay.StoreExact | skill/scripts/vm_devirt.py:1720-1725 | A stored immediate reproduces a changed qword exactly when bit 31 is clear and the new high half is zero, or bit 31 is set and the high half is unchanged. |
| FrameReplay.ReplaySlot | skill/scripts/vm_devirt.py:1656-1675 | Replaying a frame difference makes the low dword of every compared slot the recorded one; the whole slot exactly when its change is reproducible. |
| TraceSimulation.FrameLowDwords | skill/scripts/vm_devirt.py:1656-1742 | Over a whole run the low dword of every compared slot is the recorded one at every call. |
| TraceSimulation.FrameExact | skill/scripts/vm_devirt.py:1656-1742 | Over a whole run a slot holds the recorded qword at every call if and only if each of its changes is reproducible by its store. |
| Fprem.StepExact | skill/scripts/vm_devirt.py:704-722 | When a fix-up applies, the sign is kept, the mantissa is normalised and fits 64 bits, and the value is abs(ST0) - Q * abs(ST1) * 2^(D-63) if and only if the exponent clamp does not fire. |
| Fprem.ExactForNormalDivisors | skill/scripts/vm_devirt.py:704-722 | With a divisor exponent of at least 63 the clamp never fires, so every step is exact. |
| Fprem.ClampCanFire | skill/scripts/vm_devirt.py:718 | At every divisor exponent below 63 there is a step, with normalised mantissas and a distance of 64, whose value is wrong and which changes abs(ST0) mod abs(ST1). |
| Fprem.StepShrinks | skill/scripts/vm_devirt.py:704-722 | For every divisor the exponent distance falls by at least 63 per step. |
| Fprem.StepKeepsRemainder | skill/scripts/vm_devirt.py:704-722 | For every divisor: a step leaves abs(ST0) mod abs(ST1) unchanged if and only if the excess the exponent clamp adds is a multiple of abs(ST1); without a clamp there is none. |
| Fprem.IterateCorrect | skill/scripts/vm_devirt.py:687-737 | For every divisor: repeating the fix-up stops below a distance of 64 after at most D / 63 steps and keeps the sign; abs(ST0) mod abs(ST1) is unchanged if and only if the excess of a clamped step, if there is one, is a multiple of abs(ST1), and none is clamped at divisor exponents of 63 or more. |
| Fprem.FpuHook.constructor | skill/scripts/vm_devirt.py:299-302 | A hook starts without a pending fix-up. |
| Fprem.TopOf | skill/scripts/vm_devirt.py:698-699 | The top-of-stack field is bits 11 to 13 of the status word. |
| Fprem.C2Of | skill/scripts/vm_devirt.py:734-735 | Setting C2 sets bit 10 and nothing else. |
| Fprem.FpuHook.Detect | skill/scripts/vm_devirt.py:687-724 | A fix-up becomes pending, with its value and register, exactly for the two-byte opcodes D9 F8 and D9 F5 whose operands, registers t and t + 1 mod 8 for the t in bits 11 to 13 of the status word, are a distance of 64 or more apart with a divisor that is not zero; nothing else changes. |
| Fprem.FpuHook.Apply | skill/scripts/vm_devirt.py:726-737 | A pending fix-up overwrites the recorded top register and sets C2, once. |
| Fprem.FpuHook.Emulate | skill/scripts/vm_devirt.py:687-737 | Detect, the emulator and apply together, for every status word: whatever the emulator wrote to register t and the other bits, a step that applies leaves its result in register t, with the sign kept, bit 10 set and the exact value if and only if the exponent clamp does not fire; otherwise what the emulator wrote stays. The other seven registers and the other bits are not touched. |
| HookSpace.Space.constructor | skill/scripts/vm_devirt.py:306-308 | The cursor starts 16 MB above every section end, on a 64 KB boundary. |
| HookSpace.Space.Alloc | skill/scripts/vm_devirt.py:310-316 | At power-of-two alignments of a page or more, regions are in order, apart and above every section. |
| HookSpace.MappedDisjoint | skill/scripts/vm_devirt.py:310-316 | Regions stay disjoint after each is rounded up to whole pages. |
| HookSpace.HookImports | skill/scripts/vm_devirt.py:564-577 | The import loop hooks one address per import, 16 apart. |
| HookSpace.SharedSymbols | skill/scripts/vm_devirt.py:572-575 | Two APIs get one symbol if and only if their names, joined by an underscore, only differ in characters that are no letters or digits. |
| HookSpace.SymbolsCollide | skill/scripts/vm_devirt.py:572-575 | Two different APIs that do. |
| HookSpace.HookDarkValues | skill/scripts/vm_devirt.py:596-626 | The .rdata loop gives every distinct dark value one sentinel, hooks it for the slot it was first seen in unless taken, and writes it over every slot with that value. |
| HookSpace.SentinelsDistinguish | skill/scripts/vm_devirt.py:596-626 | Two dark slots share a sentinel exactly when they hold the same value. |
| HookSpace.DedupExact | skill/scripts/vm_devirt.py:601-611 | The sentinels count exactly the values seen from the lower to below the upper end, each once. |
| HookSpace.Space.FillIat | skill/scripts/vm_devirt.py:561-577 | The import hooks start at a fresh region of 64 KB and are added to the hooks that were there. |
| HookSpace.Space.FillRdata | skill/scripts/vm_devirt.py:579-626 | The sentinels start at a fresh region of 128 KB; every dark slot, and no other, gets the sentinel of its value, and that sentinel is hooked. |
| HookSpace.FillHooks | skill/scripts/vm_devirt.py:561-626 | With nothing hooked above the cursor, the two fills add one hook per import and distinct dark value, all distinct and new, if and only if there are at most 4096 imports or no dark value. |
| FakePe.LayoutOf | skill/scripts/vm_devirt.py:489-496 | Header, three tables, names and stubs follow each other without overlap; the stubs start on a page and the image ends with the page of the last one. |
| FakePe.PackHeader | skill/scripts/vm_devirt.py:502-533 | Every packed header field reads back. |
| FakePe.PackTables | skill/scripts/vm_devirt.py:535-549 | Every table entry reads back, and stub i is hooked under the name of export i. |
| FakePe.BuildFakePe | skill/scripts/vm_devirt.py:480-559 | The image is mapped at a fresh address and consists of the packed fields, the names and the stubs; the hooks gain exactly one new address per export, below the cursor, and lose none. |
| FakePe.BuildFakes | skill/scripts/vm_devirt.py:413-417 | For any list of DLLs every export of every fake module is a hook of its own. |
| FakePe.HookAll | skill/scripts/vm_devirt.py:344-414 | For a fresh emulator with any fake modules, imports and .rdata: the hooked addresses number the exports, imports and distinct dark values together if and only if there are at most 4096 imports or no dark value. |
| FakePe.ExportRoundTrip | skill/scripts/vm_devirt.py:480-559 | An export-table walk (section 6.3 of the PE/COFF specification) over the image returns the names in order, name i at stub i, and the DLL name; the headers describe an x64 DLL at its base, of its size and with its number of functions. |
| FakePe.StubIsHooked | skill/scripts/vm_devirt.py:536-556 | The address an export resolves to is inside the image, filled with breakpoints and hooked under that name. |
| ImportArea.GroupsExact | skill/scripts/vm_devirt.py:1837-1839 | Grouping loses nothing, repeats nothing, orders the DLLs by first occurrence and keeps the order inside each. |
| ImportArea.GroupByDll | skill/scripts/vm_devirt.py:1837-1839 | The loop computes that grouping. |
| ImportArea.LayIat | skill/scripts/vm_devirt.py:1844-1852 | The address tables are zeroed, one slot per import and a terminator, and every symbol is mapped to the address of a slot. |
| ImportArea.LayIlt | skill/scripts/vm_devirt.py:1854-1857 | The lookup tables have the same shape right behind. |
| ImportArea.AppendNames | skill/scripts/vm_devirt.py:1859-1871 | Names and hint/name entries are appended as the layout says, on even offsets; duplicate functions share the later entry. |
| ImportArea.AppendEvenPads | skill/scripts/vm_devirt.py:1859-1871 | Names and entries are padded to an even length with at most one zero byte. |
| ImportArea.FillThunks | skill/scripts/vm_devirt.py:1873-1877 | Both tables hold the hint/name addresses group by group with a zero after each, and the rest of the buffer is unchanged. |
| ImportArea.BuildNewImports | skill/scripts/vm_devirt.py:1831-1897 | The finished area: tables, names, hint/name entries, copied and new descriptors and a null descriptor, at the address it was built for, with the directory address and the slot of every symbol. |
| ImportWalk.DirectoryRoundTrip | skill/scripts/vm_devirt.py:1879-1897 | Walking the directory gives the descriptors the image had and then the new ones, and stops there. |
| ImportWalk.ImportRoundTrip | skill/scripts/vm_devirt.py:1841-1897 | For each new descriptor: the DLL name, its functions by name in order, and the same entries in lookup and address table. |
| ImportWalk.ImportsDecode | skill/scripts/vm_devirt.py:1831-1897 | Walking the whole import directory (section 6.4 of the PE/COFF specification) gives the old descriptors and then exactly the requested DLLs and functions in order. |
| ImportWalk.SlotAddress | skill/scripts/vm_devirt.py:1844-1852 | With distinct symbols the slot map gives every symbol the address of its own slot in the table of its DLL. |
| DevrtLayout.AssembleSkipping | skill/scripts/vm_devirt.py:1939-1951 | The first pass assembles each function for the address after the previous one and skips those that fail. |
| DevrtLayout.AssembleAll | skill/scripts/vm_devirt.py:1958-1969 | The second pass fails as soon as one function does. |
| DevrtLayout.LayOut | skill/scripts/vm_devirt.py:1971-1976 | The section data holds the functions at their offsets with zero padding. |
| DevrtLayout.StrictAll | skill/scripts/vm_devirt.py:1961-1969 | After a second pass no function is missing. |
| DevrtLayout.SectionOk | skill/scripts/vm_devirt.py:1935-1980 | Every function stands at the address it was assembled for, on a 16-byte boundary, and the code ranges are disjoint. |
| DevrtLayout.LayoutAgreement | skill/scripts/vm_devirt.py:1935-1980 | If instruction lengths do not depend on addresses the kept pass ends where the first one did, with or without a second pass. |
| DevrtLayout.LengthsMatter | skill/scripts/vm_devirt.py:1953-1969 | An assembler with address-dependent lengths for which it does not. |
| DevrtImage.GenerateSection | skill/scripts/vm_devirt.py:1935-1980 | The section is the code of the pass that was kept followed by the import area built for the size the first pass found; the two failures happen exactly when nothing assembles or the second pass fails. |
| DevrtImage.SectionAgrees | skill/scripts/vm_devirt.py:1935-1980 | The area stands at the address it was built for if and only if both passes end at the same place, which they do when instruction lengths do not depend on addresses. |
| DevrtImage.SectionDecodes | skill/scripts/vm_devirt.py:1831-1980 | With the section in the image, the import walk from the reported directory address then gives the descriptors the image had and exactly the requested DLLs and functions. |
| DevrtImage.CodeRuns | skill/scripts/vm_devirt.py:1935-1980 | With the section in the image, every function stands at the address it was assembled for, against slot addresses that are, import by import, the entries of the address tables the loader fills in. |
| DevrtImage.ShiftedArea | skill/scripts/vm_devirt.py:1953-1980 | When the second pass is sixteen bytes shorter the walk from the reported directory does not give the imports. |
| DevrtImage.OneCallMisread | skill/scripts/vm_devirt.py:1953-1980 | A job with one function and one import for which that happens. |
| DevrtImage.OneCallPackable | skill/scripts/vm_devirt.py:1831-1980 | Nothing stands in the way of generating a section for that job. |
| DevrtImports.CollectApis | skill/scripts/vm_devirt.py:1920-1933 | The loop over functions and events collects the imports, the first hooked call under a symbol deciding. |
| DevrtImports.ApisDistinct | skill/scripts/vm_devirt.py:1920-1933 | No symbol is imported twice. |
| DevrtImports.ApisCover | skill/scripts/vm_devirt.py:1920-1933 | Every hooked call of every function has an import under its symbol. |
| DevrtImports.ApisFrom | skill/scripts/vm_devirt.py:1920-1933 | Every import is that of a hooked call. |
| DevrtImports.ImportLoaded | skill/scripts/vm_devirt.py:1831-1980 | After a loader has walked the directory of the section in the image, the slot the code uses for an import holds the address the loader found for its DLL and function. |
| DevrtImports.SectionCalls | skill/scripts/vm_devirt.py:1677-1980 | Reconstruction, import list, section and loader together: with clean blocks every recorded register is right at every call, and the calls go to the recorded targets in order if and only if the loader finds the target for the import under the symbol of each call that goes through no register. |
| WorkerLoop.Loop.constructor | src/ida/loop_impl.rs:36-40 | The loop starts without database, lock and library. |
| WorkerLoop.Loop.Serve | src/ida/loop_impl.rs:74-122 | Every arm keeps database, lock file and lock path in step, does not give up the lock while a database is open, and after Close and Shutdown neither is left. |
| WorkerLoop.Loop.Run | src/ida/loop_impl.rs:36-65 | The receive loop skips, serves and ends as the step function says, over every sequence of requests; at the end nothing is open, and the lock went too early and left its file exactly if the loop was not shut down and had a database open. |
| WorkerLoop.HandleConsistent | src/ida/loop_impl.rs:74-122 | Every arm keeps database, lock file and lock path all set or all unset, and never gives up the lock while a database is open. |
| WorkerLoop.DisconnectedEarly | src/ida/loop_impl.rs:36-42 | When the loop ends because every handle is gone, the lock is given up before the database and its file stays on disk, exactly if a database is open. |
| WorkerLoop.EarlyInbox | src/ida/loop_impl.rs:36-42 | The shortest inbox with such an end: one Open. |
| WorkerLoop.LoopSafe | src/ida/loop_impl.rs:36-122 | Over every inbox the lock is never given up while a database is open, and after Shutdown neither is left. |
| WorkerLoop.ControlServed | src/ida/loop_impl.rs:47-65 | Over every inbox: until the loop is shut down, Close and Shutdown are served whatever their age and caller, and any other request is skipped exactly when its caller is gone or it waited for more than 120,000 ms. |
| WorkerLoop.ClosedAfter | src/ida/loop_impl.rs:47-122 | Right after any Close or Shutdown of an inbox there is no database, no lock file, no lock path and no file on disk. |
| WorkerProtocol.Limit | src/ida/worker.rs:155-169 | A requested timeout is kept up to 600 seconds and cut there; without one it is 120. |
| WorkerProtocol.StepInv | src/ida/worker.rs:123-169 | Every step of every party keeps the invariant of calls, queue, order of service, verdicts, database and lock. |
| WorkerRuns.RunInv | src/ida/worker.rs:123-242 | The invariant holds in every state of every interleaving. |
| WorkerRuns.OneOutcome | src/ida/worker.rs:123-169 | A call never has two different outcomes. |
| WorkerRuns.BusyNeverTaken | src/ida/worker.rs:123-129 | A request refused as Busy is never accepted or taken from the queue, at any time of the run. |
| WorkerRuns.FirstInFirstOut | src/ida/loop_impl.rs:42-44 | What was taken is at any time a prefix of what was accepted, and nothing is taken twice. |
| WorkerRuns.ServedOrSkipped | src/ida/loop_impl.rs:47-65 | Over all runs a taken Close or Shutdown was served; a taken Open or tool request was skipped exactly if its caller was gone or it was more than 120,000 ms old. |
| WorkerRuns.TakenAsSeen | src/ida/request.rs:418-446 | Caller state and age in the log are those of the moment the request was taken. |
| WorkerRuns.ReplyWasServed | src/ida/loop_impl.rs:42-122 | A reply comes only from a request that was served. |
| WorkerRuns.ClosedNotServed | src/ida/loop_impl.rs:47-65 | A call that ends in WorkerClosed was not served. |
| WorkerRuns.LockAfterDb | src/ida/loop_impl.rs:113-122 | Unless every handle is dropped first, the lock is never given up while a database is open; after Shutdown neither is left and the lock file is gone. |
| WorkerRuns.AbandonedEarly | src/ida/loop_impl.rs:36-42 | When every handle is dropped first, the lock goes too early exactly if a database was open. |
| WorkerRuns.AbandonedRun | src/ida/loop_impl.rs:36-42 | A run that gets there: a database is opened, the caller gets the reply, the last handle is dropped. |
| WorkerRuns.AfterShutdown | src/ida/loop_impl.rs:1220-1229 | After Shutdown there is no database, lock or queue, nothing is taken or accepted, and unanswered and later calls can only end in WorkerClosed or their own timeout. |
| WorkerRuns.ShutdownDooms | src/ida/loop_impl.rs:1220-1229 | Shutdown leaves every queued and every unsent unfinished call in that state. |
| WorkerRuns.DoomedEnds | src/ida/worker.rs:123-129 | Such a call always has a step that ends it in WorkerClosed. |
| WorkerRuns.OutcomeByKind | src/ida/worker.rs:123-242 | Over all runs Shutdown ends as sent or with the worker closed, only tool calls time out and only after their limit, and a Close ends Busy only after 5 seconds. |
| WorkerRuns.AttemptFull | src/ida/worker.rs:123-153 | With 64 requests queued an attempt ends Busy at once for Open and tools, from 5 seconds on for a Close with that limit, and otherwise changes nothing. |
| WorkerRuns.NoCallerAbandoned | src/ida/loop_impl.rs:36-44 | Over all runs the loop ends for want of handles only when no caller is sending or waiting. |
| WorkerRuns.SendWithRetry | src/ida/worker.rs:131-153 | The first attempt that finds room, a closed channel, or a full queue once the limit has passed decides, with that outcome; every attempt before found the queue full within the limit. |
| WorkerRuns.AttemptConcludes | src/ida/worker.rs:123-153 | An attempt in the state machine has the outcome of an attempt of the retry loop. |
| LockFile.ReadLockFilePid | src/ida/lock.rs:180-190 | The line loop returns the number of the first pid line, or nothing. |
| LockFile.PidRoundTrip | src/ida/lock.rs:64-84 | The pid a holder writes is the pid that is read, for every host and path. |
| LockFile.FirstPidLine | src/ida/lock.rs:180-190 | In any text other lines are passed over and the first pid line decides. |
| LockFile.ParsePrinted | src/ida/lock.rs:180-190 | A number below 2^32 is read as itself and a larger one not at all. |
| LockFile.ParsedAreDigits | src/ida/lock.rs:180-190 | Nothing but digits, after at most one plus sign, is read as a number. |
| LockProtocol.OneHolder | src/ida/lock.rs:44-90 | A path has at most one holder. |
| LockProtocol.CleanHeld | src/ida/lock.rs:117-177 | Cleaning would remove a held file exactly when the cleaner is the holder itself and the file names no pid; so no other process ever does. |
| LockProtocol.FailedAcquireTruncates | src/ida/lock.rs:44-62 | A failed acquire empties the holder's file and changes no lock. |
| LockProtocol.StepNames | src/ida/lock.rs:34-177 | While a lock stays held, a step takes its pid out of the file exactly if it is an attempt to acquire the path, and none puts it back. |
| LockProtocol.HeldNames | src/ida/lock.rs:34-177 | Over every run the file of a held lock names its holder if and only if nobody has tried to acquire the path since. |
| LockProtocol.NamesNobodyRun | src/ida/lock.rs:44-62 | A run of two processes that ends with a held lock file that names nobody. |
| LockProtocol.StepKeeps | src/ida/lock.rs:34-177 | Acquire, release, crash and clean keep the invariant: a held file is at its path, names its live holder or nobody, and has one holder. |
| LockProtocol.RunKeeps | src/ida/lock.rs:34-177 | The invariant holds over every run. |
| LockProtocol.StaleCleaned | src/ida/lock.rs:117-177 | Over every run: after a process has crashed with the lock, and until somebody acquires or cleans the path, its file is there, and a clean by anyone removes it if and only if its pid is not in use again or somebody had tried to acquire the path while it was held. |
| LockProtocol.LiveStays | src/ida/lock.rs:117-177 | A file that names a running process stays, whoever cleans. |
| LockProtocol.Host.constructor | src/ida/lock.rs:44-90 | A host starts without files, locks and processes. |
| LockProtocol.Host.AcquireLock | src/ida/lock.rs:44-90 | The call sequence of acquiring; a refusal changes no lock and no ownership; the protocol invariant is kept and a new handle is the only one of its path. |
| LockProtocol.Host.ReleaseLock | src/ida/lock.rs:94-105 | The file and the lock go, the invariant is kept and every other lock is still held. |
| LockProtocol.Host.CleanStale | src/ida/lock.rs:117-177 | Reports exactly whether the file went from the directory; which files go is LockProtocol.StaleCleaned and LockProtocol.LiveStays. The invariant is kept and no held file goes. |
| Eviction.GroupFiles | src/idb_store.rs:273-295 | One group per stem with all its files, their bytes and their newest time; the groups account for all listed bytes unless the total saturates. |
| Eviction.StemCuts | src/idb_store.rs:286 | The stem of a name is what comes before its last dot, if anything does. |
| Eviction.StemKeeps | src/idb_store.rs:286 | A name whose only dot, if any, comes first is its own stem. |
| Eviction.NewestIs | src/idb_store.rs:290-293 | The time of a group is that of its newest file. |
| Eviction.GroupIs | src/idb_store.rs:286-289 | A group has the files of its stem in listing order and their bytes, saturated. |
| Eviction.SortedAscending | src/idb_store.rs:306-307 | Groups are visited oldest first. |
| Eviction.SortedRanked | src/idb_store.rs:273-307 | Groups of the same age are visited in the order of their stems, so the order does not depend on the listing. |
| Eviction.LessExact | src/idb_store.rs:273 | That order is by the first character in which two stems differ, a prefix first. |
| Eviction.SortedSum | src/idb_store.rs:306-307 | Sorting keeps the bytes. |
| Eviction.SortedDistinct | src/idb_store.rs:306-307 | Sorting keeps every group once. |
| Eviction.Conserved | src/idb_store.rs:309-328 | Evicted and remaining bytes make up the total. |
| Eviction.EvictedAre | src/idb_store.rs:313-328 | Only listed, unpinned groups are evicted. |
| Eviction.Stopped | src/idb_store.rs:313-328 | An unpinned group either goes or was met with the limit satisfied, after which nothing more goes. |
| Eviction.EvictedExactly | src/idb_store.rs:309-328 | A group goes if and only if it is unpinned and the unpinned groups before it do not bring the total down to the limit. |
| Eviction.LastNeeded | src/idb_store.rs:313-328 | Putting the last evicted group back would exceed the limit. |
| Eviction.OldestFirst | src/idb_store.rs:306-328 | No evicted group is newer than an unpinned one that stays. |
| IdbStore.NameMatches | src/idb_store.rs:136-143 | A database name matches its hash under every basename. |
| IdbStore.IndexNeverMatches | src/idb_store.rs:160-172 | No hash pattern matches the index file. |
| IdbStore.ContainsIff | src/idb_store.rs:160-172 | A name contains a pattern exactly if the pattern stands between two parts of it. |
| IdbStore.WriteIndex | src/idb_store.rs:210-215 | Writing replaces the index file, with its size and time, removes the temporary file and leaves every other file. |
| IdbStore.KindExact | src/idb_store.rs:187-191 | A binary is sbpf exactly if its path ends in .so after a character that is no slash, and native otherwise. |
| IdbStore.LookupByHash | src/idb_store.rs:160-172 | Finds a matching file exactly if there is one, in any listing order. |
| IdbStore.LookupFinds | src/idb_store.rs:154-172 | A stored database is found for any binary with the same content. |
| IdbStore.CleanExact | src/idb_store.rs:382-412 | After cleaning every key has a database file and exactly the orphans were dropped. |
| IdbStore.RecordExact | src/idb_store.rs:178-215 | Recording touches one key, stores hash, path, size and access time, and keeps its first creation time. |
| IdbStore.RemoveExact | src/idb_store.rs:344-376 | Removing drops the key and exactly the files with the hash. |
| IdbStore.FileGoes | src/idb_store.rs:313-328 | A file goes exactly if the group of its stem goes: whole groups or nothing. |
| IdbStore.SurvivorsAre | src/idb_store.rs:273-328 | The files that remain are exactly those whose groups, as known before the eviction, do not go. |
| IdbStore.PinnedStay | src/idb_store.rs:317-319 | Pinned stems are untouched. |
| IdbStore.EvictionOrder | src/idb_store.rs:306-328 | For every evicted file and every unpinned survivor, some file with the stem of the survivor is at least as new as the evicted one; and a survivor means the limit is met. |
| IdbStore.BytesConserved | src/idb_store.rs:273-338 | Evicted plus remaining bytes are the listed total, and the evicted bytes are those of the files that went. |
| IdbStore.LastEvictionNeeded | src/idb_store.rs:309-328 | Restoring the last evicted group would exceed the limit. |
| IdbStore.EvictionIndex | src/idb_store.rs:313-330 | After an eviction every key has a database file; exactly the orphans were dropped if and only if, as known beforehand, the group of the index does not go or no database that stays has a key. |
| IdbStore.PinnedIndexKept | src/idb_store.rs:317-330 | Pinning the stem of the index is enough. |
| StoreRuns.IndexCanBeLost | src/idb_store.rs:273-330 | A store whose index is evicted while a database it lists stays. |
| StoreRuns.Store.RecordBinary | src/idb_store.rs:178-215 | One key is touched and keeps its first creation time, all other entries and all database files stay. |
| StoreRuns.Store.RemoveFilesByHash | src/idb_store.rs:366-376 | The loop removes exactly the files with the pattern. |
| StoreRuns.Store.RemoveHash | src/idb_store.rs:344-362 | True exactly if the hash was in the index; otherwise nothing changes. |
| StoreRuns.Store.CleanIndex | src/idb_store.rs:382-412 | The loop drops and reports exactly the orphans and rewrites the index only if there are any. |
| StoreRuns.Store.EvictGroups | src/idb_store.rs:309-328 | The eviction loop, its counts and what it deletes. |
| StoreRuns.Store.EvictToLimit | src/idb_store.rs:252-338 | Grouping, eviction, cleaning and the reported numbers. |
| StoreRuns.StatsConserve | src/idb_store.rs:332-338 | The reported evicted and remaining bytes add up to the listed bytes unless they saturate. |
| StoreRuns.RunKeeps | src/idb_store.rs:178-412 | Over every run each index key is the hash of its entry. |
| StoreRuns.RunCreated | src/idb_store.rs:178-412 | Over every run a key keeps its first creation time for as long as it stays in the index. |
| PatchBytes.TokensScan | src/rpc_dispatch.rs:83-103 | Splitting into tokens and checking each equals one scan for the digit stream. |
| PatchBytes.CollectDigits | src/rpc_dispatch.rs:88-103 | The token loop collects that stream or stops at the first bad character. |
| PatchBytes.Pairs | src/rpc_dispatch.rs:113-118 | The pair loop turns digits into bytes. |
| PatchBytes.ParsePatchBytes | src/rpc_dispatch.rs:66-124 | The parser: arrays truncated to bytes, strings by their digit stream, failing exactly on a bad character, no digits or an odd number of them. |
| PatchBytes.RoundTrip | src/rpc_dispatch.rs:77-120 | Any byte list, spelled in hex and cut into tokens with any separators and prefixes, parses back. |
| PatchBytes.LayoutFails | src/rpc_dispatch.rs:82-112 | A text in any layout fails for want of bytes exactly if it has no digits, and for its length exactly if their number is odd. |
| PatchBytes.ForeignReported | src/rpc_dispatch.rs:88-103 | The first character after a layout that is no digit, no separator and, unless a 0 comes before it, an x, is the one reported, whatever follows. |
| PatchBytes.ArrayExact | src/rpc_dispatch.rs:67-76 | An array gives the low byte of every integer in it, in order, and passes over everything else; it fails exactly without an integer. |
| PatchBytes.HexLetters | src/rpc_dispatch.rs:113-118 | Hex digits have their values in both cases. |
| PyEscape.EscapeIsSub | src/dsc.rs:22-27 | The four replacements are one substitution per character. |
| PyEscape.EscapeOneLine | src/dsc.rs:22-27 | The result has no raw newline or carriage return. |
| PyEscape.EscapeQuotes | src/dsc.rs:22-27 | Every quote of the result is escaped. |
| PyEscape.EscapeRoundTrip | src/dsc.rs:22-27 | Lexed as a Python literal the result ends at its own closing quote and has the original value, whatever follows. |
| PyEscape.LoadScript | src/dsc.rs:99-129 | The script text is built line by line from the module and the frameworks. |
| PyEscape.ScriptSays | src/dsc.rs:99-154 | For all strings the script has exactly the lines it was built from, and read as statements they are the fixed ones and, per name, a print of the note and the name and a load of the name, each with one literal argument and nothing behind it. |
| PyEscape.ScriptLoads | src/dsc.rs:99-154 | If the fixed lines load nothing, the script loads exactly the module and then the frameworks, in order, for all strings. |
| Serialize.SerializeCases | scripts/decompile_structured.py:94-101 | The loop over switch cases. |
| Serialize.PruneE | scripts/decompile_structured.py:6-62 | Pruning the output of an expression for a larger bound gives its output for a smaller one. |
| Serialize.PruneS | scripts/decompile_structured.py:65-107 | The same for statements. |
| Serialize.DepthE | scripts/decompile_structured.py:6-62 | Nesting never goes past one marker level below the bound, and markers are nowhere else. |
| Serialize.DepthS | scripts/decompile_structured.py:65-107 | The same for statements. |
| Serialize.MarkerE | scripts/decompile_structured.py:6-62 | A marker appears exactly when the visited tree is deeper than the bound. |
| Serialize.MarkerS | scripts/decompile_structured.py:65-107 | The same for statements. |
| ReadBack.RoundTripE | scripts/decompile_structured.py:6-62 | An expression the bound does not cut is read back from its output by a reader that looks fields up by key: every operator, operand, number, text and name, and address and type as far as they are switched on. |
| ReadBack.RoundTripS | scripts/decompile_structured.py:65-107 | The same for statements: every branch, loop, case and body under its own key. |

## Left out

- Marker-DLL traces: changes before a marker call are not emitted, so the simulation is about traces
  without such events. Register changes between the last call and the VM exit are not emitted either and
  are not claimed.
- TraceSimulation.RecordedSetup: hooked addresses do not have 0xDEAD as their top 16 bits, which no mapped
  address of the emulator has.
- Relocation.RunsAnywhere: for traces of at most 2^32 calls whose recorded registers hold return markers of
  earlier calls only; frame slots are not claimed, because a changed slot is stored as a recorded number, be it an
  address or a marker.
- Emulation, assembly and disassembly (Unicorn, Keystone, Capstone): memory, register files, assembled
  bytes and instruction lengths are inputs.
- The single-function generator, the section headers and the .rdata patching around the layout in
  `vm_devirt.py`, and its entry-point initialisation, system-call stubs and printing.
- FakePe.BuildFakePe: requires at most 65536 exports, a 32-bit image size and names in ASCII without NUL,
  outside of which the packing raises.
- ImportArea.BuildNewImports: requires addresses that fit 32 bits and names in ASCII without NUL, outside of
  which the packing raises; the walk is claimed for areas that end below 2 GB, so that bit 31 of an
  entry is clear.
- DevrtImports.SectionCalls: the assembler is a parameter, so the calls are those of the abstract instructions;
  calls to unhooked addresses through no register are excluded, because their symbol has no slot and the
  function does not assemble.
- FakePe.HookAll: an image without an import directory or without .rdata, for which the emulator reserves no
  space, is treated as one with none to hook; modules faked on demand while the entry point runs are not part
  of it.
- DevrtImage.SectionDecodes: holds when both passes end at the same place; that it fails otherwise is shown for
  a difference of sixteen bytes and an image without imports of its own (DevrtImage.ShiftedArea), because bytes
  behind the section could spell a directory by chance.
- The per-tool arms of the worker loop are one generic request that leaves database and lock alone; panics
  in handlers are not modelled.
- The database reference tokens of the worker handle: plain set operations.
- Database open is one step with three outcomes; the debug-information and file-type options do not touch
  database or lock and are left out.
- The lock protocol is claimed for atomic steps; finer interleavings of open, lock and unlink, and the loss
  of a POSIX lock by closing another descriptor, are not modelled. Pids are below 2^32 and `kill` reports
  exactly the running processes.
- The unconditional removal of lock files at server start.
- Hashes, clocks, the encoded size of the index, its JSON encoding and failing file operations: hashes and
  clocks are inputs, the index reads back what was written, deletions succeed.
- PyEscape.EscapeRoundTrip: numeric and named escapes are not evaluated by the lexer; the escaped text never
  contains one that is not preceded by an escaped backslash. NUL characters, which Python rejects in source
  files, are treated as any other character.
- PyEscape.LoadScript: the fixed lines of the script are parameters; the incremental script is not modelled.
- ReadBack.RoundTripS: operators and statements without fields of their own must not bear the name of one that
  has; what is read back is `KeptS`, the tree without switched-off addresses and types and the address that means
  none. Statements below the bound are covered by Serialize.PruneS and Serialize.MarkerS.
- Serialize.MarkerS: looks for markers within the levels the bound allows, which by Serialize.DepthS is
  everywhere.
- Reading the decompiler's tree and printing JSON text.
- Server, command line, federation networking, sBPF support, response cache, tool tables.
