# A verified model of the zld linker's back end

zld links ELF and COFF objects. This project models, in Dafny, the parts of its back end in
which several pieces of code have to agree with each other without sharing a data structure,
together with the allocator everything runs on and two small codecs of the same repository.
It proves properties of that model; `dafny verify dfyconfig.toml` checks all of them.

## What is modelled

**The heap** (`Bitmap.dfy`, `Allocator.dfy`). A page is divided into 256 cells of 16 bytes. A
first-fit search reads the page's bitmap byte by byte, the marking of a run writes it in 64-bit
words, and the block's size in cells is stored in the byte *before* the block, inside the slack
of whatever lies there. Large requests get a mapping of their own and use up a bin record. The
main result is about whole runs of requests and of client writes inside granted blocks: blocks
never meet, never leave their page, never contain a header byte, every header keeps its count,
and every block is blank when it is handed out. The list builders of the linker rely on the
last point: they never initialise their links.

**Hashes and symbol indexes** (`Hashes.dfy`, `SysvIndex.dfy`, `GnuIndex.dfy`,
`SymbolTable.dfy`). The ELF hash of the System V ABI is implemented twice, once masking at every
byte and once at the end in a wider accumulator; both give the same value. The threaded-array
hash (`DT_HASH`, chapter 5 of the System V ABI, "Hash Table"), the GNU hash with its Bloom filter
and the bucket lists behind the ELF import memo are each proved to be an index of a plain list.
Two properties that one would expect turn out to need a condition, and the condition is proved
to be exact: index 0 is the end mark of the threaded array, so the COFF export table, which is
entered from index 0 on, does not find the name entered first; and no end-of-chain bit is ever
written by the GNU hash, so the walk ends exactly for names that are present.

**ELF dynamic tables** (`ElfDynamic.dfy`). String table, symbol table, PLT/GOT slots and
relocations filled together behind a memo. Checked requests for one name share a slot, different
names never do; every slot's stub jumps through the word that exactly one relocation fills, and
that relocation leads through the symbol and string tables back to the name. The needed libraries
are entered first; that the string table begins with them is part of the tables' invariant, kept by
every later entry, so the `DT_NEEDED` values written at the end of any run read them back.

**The dynamic side of an ELF link** (`ElfLink.dfy`). Exported symbols go into the string and symbol
tables and, in the same step, into the GNU hash; the relocation pass looks every name up there, through
those tables, before it asks for an import. In every link the index stays the index of the exported
symbols, a name that is exported with a value other than 0 resolves to its first export, and every other
call goes through the one slot of that very name. Symbols and relocations are exactly those that the
relocations of the input ask for: one for every slot and every data word, with its type and its symbol.

**COFF imports** (`CoffImports.dfy`, `CoffDirectory.dfy`). Names are resolved to PLT slots in
encounter order; the import list groups them by DLL; a byte count is kept one import at a time; later
the directory, both thunk tables, the strings and the stubs are written from the list.
Proved: the count is exactly the size of the directory in a 64-bit image and too large by eight
bytes per pair of thunks in a 32-bit one; a loader that follows section 6.4 of the Microsoft PE
and COFF Specification reads the import list back, by either thunk table; and the address put at
every call site is the stub of that very name **exactly if** the imports were first met grouped
by DLL. The code does not enforce that grouping (`symbol.c` hands out slots in encounter order,
`import.c` writes stubs in list order); `InterleavedStubsDiffer` is a concrete run that breaks it.

**COFF exports** (`CoffExport.dfy`). The size counted while reading symbols is exactly the size
of the directory, and a loader that takes counts, addresses and names from the bytes alone, starting
at the header, finds every symbol at its index (section 6.3 of the same specification).

**A COFF link from end to end** (`CoffCalls.dfy`, `CoffImage.dfy`). The relocation pass over static
symbols, exported names and imported names: an exported name is looked up through the hash table in the
bytes of the export directory, and resolves to its first export at an index other than 0; with imports
met grouped by DLL, the relative word of every call site leads to the stub that jumps through the
requested name's slot. With few section headers the directory that loads as the imports met, and every
stub, stand in the written file at header size + (address - 0x1000), where the stub's six bytes are an
indirect jump through the slot of the function at its place in the import list.

**Section lists** (`Sections.dfy`). Every section hangs in the list of a container and in that of
an object file at once. In every sequence of allocations both walks visit each section exactly
once and tail pointers stay last. The sixteen-bit section index, whose counters wrap at 256,
decodes to the section it was made for exactly if nothing earlier wraps around to it; encoding and
decoding are composed, on the values and on the heap.

**Layout and relocation** (`Layout.dfy`, `Reloc.dfy`). Addresses are assigned in one traversal and
bytes written in another; the two agree on every section, `.plt` and `.idata` included, and the
file offsets match the declared header size exactly if there are at most four section headers
(five in a 32-bit image). An image directory entry is the address of its section exactly if the section
was there when addresses were handed out. The size declared for the image's single section leaves `.plt` and
`.idata` out. Relocations with disjoint sites can be processed in any order, change nothing else,
and a relative word reaches its symbol modulo 2^32. A 64-bit absolute word reaches its symbol exactly
if the address fits 32 bits, because image base and address are added in 32 bits.

**callgen and bipatch** (`CallTable.dfy`, `Bipatch.dfy`). The scan for near calls finds every call,
forwards or backwards, of a function that the search knows, unless it lies inside the operand of
another one, and the table it fills decodes to exactly the edges found. The search that names a
call's target stops before the linkage-table entry entered last, and leaves a table without entries;
both are modelled. The patch parser reads the text form of a script back, with the net growth it
counts, exactly if the script fits its two pages; the interpreter is proved to compute its rounds for any script with which it ends; it ends on an in-order
script exactly if the input is empty or some edit moves the cursor off offset 0, and
then its output is the splice exactly if nothing is inserted at the end of the input.

## How the model is built

Code that works by updating things in place is a method, on a class where the source has a
record that it updates; its contract ties the new state to a function of the old one, and the
properties are lemmas about that function. A module whose name ends in `Spec` holds those
functions and lemmas; the module beside it holds the methods. Words are natural numbers with the
wrap-around written out; bitmaps are sequences of bits; memory is sequences of bytes. C strings
are byte sequences without NUL, and reading one stops at the first NUL. A fresh mapping is a new
region of zeros. Pointers are offsets or object references.

Lemmas carry `{:induction false}`: their bodies are their whole proofs.

## Model

| member | source | states |
|---|---|---|
| `Bitmap.FindConsecutive` | src/core/memory/__alloc.c:98-125 | for every map with cell 0 taken and every length up to 255: the result is the least start of a free run that ends inside the map, and 0 exactly if there is none |
| `Bitmap.SetRun` | src/core/memory/__alloc.c:127-147 | marking through 64-bit words takes exactly the cells of the run, seen through the bytes the search reads, and leaves all other maps alone |
| `Bitmap.OrWordMarksCell` | src/core/memory/__alloc.c:144 | one OR-ed bit of a little-endian word is exactly one cell of the byte view |
| `AllocatorSpec.SoundIsSafe` | src/core/memory/__alloc.c:236-251 | the invariant implies that user ranges never meet, stay in bounds and clear of every block's header byte |
| `AllocatorSpec.PlacedIsGranted` | src/core/memory/__alloc.c:222-269 | wherever a request is placed, the block is new, blank and fits, and no earlier block moves or changes |
| `AllocatorSpec.PokeSound` | src/core/memory/__alloc.c:243-251 | a client writing inside its own block cannot damage a header or another block |
| `AllocatorSpec.RunsAreSafe` | src/core/memory/__alloc.c:61-82 | in every run of requests and client writes after mem_init every state is safe and every block handed out is blank |
| `Allocator.Heap.constructor` | src/core/memory/__alloc.c:61-82 | mem_init leaves one bin with its first cell reserved and a zero page |
| `Allocator.Heap.ExpandHeap` | src/core/memory/__alloc.c:193-216 | a large request gets a region of its own, its bin record follows the last one and is full |
| `Allocator.Heap.Carve` | src/core/memory/__alloc.c:241-251 | marks the run, stores the header in the byte before it and returns the cell's address |
| `Allocator.Heap.Search` | src/core/memory/__alloc.c:232-253 | the bins are tried from the tail on and the first one with room is taken |
| `Allocator.Heap.NewPage` | src/core/memory/__alloc.c:258-267 | a new bin behind the last one, with a fresh page and its first cell reserved |
| `Allocator.Heap.Malloc` | src/core/memory/__alloc.c:222-269 | the whole request, in every state in which an existing page serves it or a bin record is free: the chain stays well formed and the result is a granted block of the size asked for |
| `Hashes.ComputeElfHash` | src/core/link/hashtable.c:18-28 | the masking loop computes the hash of the specification and stays below 2^28 |
| `Hashes.ComputeSysvHash` | src/core/link/hashtable.c:30-38 | the loop with one mask at the end, in an accumulator of 64 bits |
| `Hashes.ElfIsSysv` | src/core/link/hashtable.c:18-38 | both functions give the same value on every byte string although one accumulator carries past bit 31 |
| `Hashes.StepsAgree` | src/core/link/hashtable.c:20-37 | the invariant behind it: the low 28 bits agree after every byte |
| `Hashes.ComputeGnuHash` | src/core/link/hashtable.c:40-45 | truncating the 64-bit accumulator at the end equals truncating at every byte |
| `Hashes.GnuHashIsPolynomial` | src/core/link/hashtable.c:40-45 | the GNU hash of any name is 5381 and its bytes read as digits to base 33, modulo 2^32 |
| `SysvSpec.ChainAcyclic` | src/core/link/hashtable.c:210-223 | the chain of a bucket never visits an index twice |
| `SysvSpec.ChainsDisjoint` | src/core/link/hashtable.c:210-223 | an index stands in one bucket's chain only |
| `SysvSpec.ChainMembers` | src/core/link/hashtable.c:225-233 | a bucket's chain holds exactly the nonzero indices entered under names that hash there |
| `SysvSpec.AppendRepresents` | src/core/link/hashtable.c:210-239 | one insertion keeps the table an index of the list of insertions, in insertion order |
| `SysvSpec.ZeroChangesNothing` | src/core/link/hashtable.c:210-223 | entering index 0 leaves every chain as it was |
| `SysvSpec.ChainSearchIsListSearch` | src/core/link/hashtable.c:109-114 | walking the one chain finds what searching the whole list would |
| `SysvSpec.FirstIndexZeroIffAbsent` | src/core/link/hashtable.c:103-115 | the lookup's 0 means absent, as long as 0 was never an index |
| `SysvSpec.ExportFoundIffNotFirst` | src/core/link/coff/export.c:68-93 | of names exported from index 0 on, a lookup finds a name exactly if it was exported at an index other than 0 |
| `SysvSpec.FirstExportNotFound` | src/core/link/coff/export.c:68-93 | two exports f and g: the lookup finds g at index 1 and not f |
| `SysvIndex.HashTable.Thread` | src/core/link/hashtable.c:210-223 | the collision walk writes one word and appends the index to its bucket's chain |
| `SysvIndex.HashTable.Insert` | src/core/link/hashtable.c:225-239 | the table still represents the list, one insertion longer |
| `SysvIndex.HashTable.Lookup` | src/core/link/hashtable.c:81-101 | the walk of the lookup, with names read from the export directory, terminates with the first index entered under the name, 0 if there is none |
| `GnuSpec.NoFalseNegatives` | src/core/link/elf/dynamic.c:233-251 | once a hash is in the filter every later filter accepts it, for every filter size and shift below 32 |
| `GnuSpec.SetAccepts` | src/core/link/elf/dynamic.c:235-244 | setting one hash makes it accepted and keeps what was accepted before |
| `GnuSpec.FilterBits` | src/core/link/elf/dynamic.c:233-251 | bit x of word w of a filter of 2^k words is set exactly if a name entered has w == hash / 64 mod 2^k, and x == hash mod 64 or x == (hash >> shift) mod 64 |
| `GnuSpec.EnterRepresents` | src/core/link/elf/dynamic.c:215-231 | one insertion of the next index keeps buckets and chain words those of the list of names |
| `GnuSpec.WalkFinds` | src/core/link/hashtable.c:61-79 | for a present name the chain walk stops first at the first index carrying it |
| `GnuSpec.WalkEndsIffPresent` | src/core/link/hashtable.c:69-78 | as no end-of-chain bit is written, the walk inside the table ends exactly if the name is present |
| `GnuSpec.PresentWalks` | src/core/link/hashtable.c:117-134 | a present name always passes the filter and reaches the walk |
| `GnuIndex.GnuHashTable.SetBloomBits` | src/core/link/elf/dynamic.c:233-251 | the filter word gains exactly the two bits of the hash |
| `GnuIndex.GnuHashTable.Enter` | src/core/link/elf/dynamic.c:253-269 | a name under the next index: filter, bucket and chain represent the longer list |
| `GnuIndex.GnuHashTable.GnuLookup` | src/core/link/hashtable.c:61-79 | the walk, with names read through symbol and string table, returns the first index carrying the name |
| `GnuIndex.GnuHashTable.FindSym2` | src/core/link/hashtable.c:117-134 | lookup through the filter: terminates with the first index of a present name, and 0 when the filter rejects; FindValue applies it to the tables of every link |
| `SymbolSpec.BucketSearchIsListSearch` | src/core/link/elf/symbol.c:61-76 | searching one bucket finds what searching all recorded imports would |
| `SymbolTable.Table.Lookup` | src/core/link/elf/symbol.c:47-76 | the value recorded first under the name, 0 if there is none |
| `SymbolTable.Table.Link` | src/core/link/elf/symbol.c:82-97 | one pointer write hangs a node behind its bucket's last one and leaves the other buckets |
| `SymbolTable.Table.Append` | src/core/link/elf/symbol.c:82-97 | the table records one more import, in order |
| `ElfDynamicSpec.StubJumpsThroughItsSlot` | src/core/link/elf/dynamic.c:311-320 | the stub's six bytes at r jump through the word at r + 8 |
| `ElfDynamicSpec.AnswersFollowNames` | src/core/link/elf/dynamic.c:366-394 | in every run, requests answered alike are for one name, and checked requests for one name are answered alike |
| `ElfDynamicSpec.ExportsStay` | src/core/link/elf/dynamic.c:271-291 | one more imported symbol, without section and value, leaves the exported symbols in their places, with section, value and name |
| `ElfDynamicSpec.ExportAppended` | src/core/link/elf/dynamic.c:487-488 | a symbol entered right behind the exported ones with its section and value is one more of them |
| `ElfDynamicSpec.CheckedSlotsDistinct` | src/core/link/elf/dynamic.c:366-376 | with checking, no name has two slots |
| `ElfDynamicSpec.MemoFindsIndexOf` | src/core/link/elf/symbol.c:47-76 | the memo answers with the address of the name's first slot |
| `ElfDynamicSpec.SlotRelocAppended` | src/core/link/elf/dynamic.c:328-345 | after a new slot each slot still has exactly one relocation, and it names the slot's symbol |
| `ElfDynamicSpec.StringAppended` | src/core/link/elf/dynamic.c:271-308 | a new symbol with its string leaves every earlier symbol's name readable |
| `ElfDynamicSpec.NeededStay` | src/core/link/elf/dynamic.c:294-308 | a string entered at the fill mark leaves the needed libraries where they are |
| `ElfDynamicSpec.NeededAppended` | src/core/link/elf/dynamic.c:590-594 | a name entered right behind the needed libraries is one more of them |
| `ElfDynamicSpec.NeededIsPrefix` | src/core/link/elf/dynamic.c:596-608 | the libraries entered are those before the first that names no shared object |
| `ElfDynamicSpec.NamesSharedObjectIff` | src/core/link/elf/dynamic.c:601 | a library names a shared object exactly if ".so" stands somewhere in its name |
| `ElfDynamicSpec.NeededStands` | src/core/link/elf/dynamic.c:621-627 | in a table that begins with the needed names, the k-th one stands where the names of the ones before it end; the tables' invariant establishes the hypothesis |
| `ElfDynamic.NeededValues` | src/core/link/elf/dynamic.c:619-631 | the loop: on such a table the k-th DT_NEEDED value leads to the k-th needed library's name; DtNeeded applies it to every reachable state |
| `ElfDynamic.Tables.AddNeeded` | src/core/link/elf/dynamic.c:590-594 | one needed library more, at the front of the string table |
| `ElfDynamic.Tables.AddDtNeeded` | src/core/link/elf/dynamic.c:596-608 | on fresh tables: the string table begins with the libraries before the first that names no shared object |
| `ElfDynamic.Tables.DtNeeded` | src/core/link/elf/dynamic.c:619-631 | in every valid state, whatever was entered since, the k-th DT_NEEDED value leads to the k-th needed library |
| `ElfDynamic.Tables.AddExported` | src/core/link/elf/dynamic.c:487-488 | an exported symbol with its string, while the symbol table holds exported symbols only |
| `ElfDynamic.Tables.constructor` | src/core/link/elf/dynamic.c:311-345 | the fresh tables hold the empty string, the null symbol and nothing else |
| `ElfDynamic.Tables.AddPltGotEntry` | src/core/link/elf/dynamic.c:311-326 | the next 16-byte slot gets its stub; earlier stubs stay |
| `ElfDynamic.Tables.AddDynstrEntry` | src/core/link/elf/dynamic.c:294-308 | the string goes behind the last terminator and its offset is returned |
| `ElfDynamic.Tables.AddDynsymEntry` | src/core/link/elf/dynamic.c:271-291 | one more symbol, the others unchanged |
| `ElfDynamic.Tables.AddRelaPltEntry` | src/core/link/elf/dynamic.c:328-345 | one more relocation, relative to the image base, with symbol and type packed |
| `ElfDynamic.Tables.AddDynamicEntry` | src/core/link/elf/dynamic.c:366-394 | a checked known name is answered without a write; otherwise all tables gain an entry and stay coupled |
| `ElfDynamic.Tables.AddDynamicEntry2` | src/core/link/elf/dynamic.c:396-406 | a data word gets a symbol and a relocation of type 6 against it, but no slot |
| `ElfDynamic.Tables.AddRelative` | src/core/link/elf/reloc.c:268 | a data word with an address of the image gets a relocation of type 8 against no symbol, and the slots keep theirs |
| `ElfDynamic.Tables.NameOfSlot` | src/core/link/elf/dynamic.c:388-390 | from slot to relocation to symbol to string, the tables lead back to the name |
| `ElfLinkSpec.CallsShareIffSameName` | src/core/link/elf/reloc.c:271-276 | two calls of names that have to be imported get one address exactly if they are for one name, whatever other uses lie between |
| `ElfLinkSpec.CodeReaches` | src/core/link/elf/reloc.c:271-288 | an instruction is led to the exported function itself, or through a slot of the requested name |
| `ElfLinkSpec.WordHasRelocation` | src/core/link/elf/reloc.c:263-269 | every data word of a pass has its relocation: for an exported name with a value of type 8, without symbol and with the value as addend; for any other of type 6 against the symbol of that name |
| `ElfLinkSpec.SlotHasRelocation` | src/core/link/elf/reloc.c:271-286 | every slot of a pass has its relocation at the word behind the stub, of type 7 for a call and 6 for a GOT word, against the symbol of the requested name |
| `ElfLinkSpec.RelocationsCounted` | src/core/link/elf/reloc.c:263-286 | a pass leaves exactly one relocation for every slot and every data word |
| `ElfLinkSpec.CollidingNameNeverStops` | src/core/link/hashtable.c:61-79 | with only "Bb" exported, "CA" passes the filter and its walk stops at no word of the table |
| `ElfLink.FindValue` | src/core/link/elf/reloc.c:219-220 | in every state of a link a lookup gives the value of the first export of the name, 0 without one |
| `ElfLink.AddExportSymbol` | src/core/link/elf/dynamic.c:470-495 | one exported symbol in string table, symbol table and GNU hash: the index stays that of the exported symbols |
| `ElfLink.AddExports` | src/core/link/elf/dynamic.c:462-515 | all exported symbols, with the filter of exactly their names |
| `ElfLink.Resolve` | src/core/link/elf/reloc.c:201-288 | one relocation by symbol: lookup, then the exported value, a slot, or a relocation of the data word; slots, symbols and relocations grow by exactly that |
| `ElfLink.ResolveFrom` | src/core/link/elf/reloc.c:459-474 | the rest of a pass: slots, symbols, relocations and addresses are those of the uses, and the index stays that of the exported symbols |
| `ElfLink.LinkDynamic` | src/tools/zld.c:255-275 | needed libraries, exported symbols, relocations, DT_NEEDED entries: the tables stay coupled; slots, symbols, relocations and addresses are those of the uses; every data word has its relocation, whose symbol reads back as the requested name; and the values read the libraries back |
| `CoffImportSpec.GroupedIsStable` | src/core/link/coff/import.c:23-62 | the list holds the DLLs in order of first encounter, each with its functions in encounter order |
| `CoffImportSpec.StubOrderIffContiguous` | src/core/link/coff/import.c:131-189 | list order, which is stub order, equals encounter order exactly if encounters of a DLL are not interrupted |
| `CoffImportSpec.InterleavedStubsDiffer` | src/core/link/coff/reloc.c:141-145 | two DLLs met in turn: the second slot is the stub of the third name |
| `CoffImportSpec.CountIsSize` | src/core/link/coff/reloc.c:66-82 | the incremental count is the directory's size in a 64-bit image, and exceeds it by eight bytes per pair of thunks in a 32-bit one |
| `CoffImportSpec.AnswersAreFinal` | src/core/link/coff/symbol.c:65-75 | every request of a run is answered with the one slot its name has at the end of the run |
| `CoffImportSpec.EverStays` | src/core/link/coff/symbol.c:67-74 | a name keeps its slot while more imports come |
| `CoffImports.Importer.Find` | src/core/link/coff/symbol.c:51-83 | the walk over one of ten buckets gives the first candidate of the name |
| `CoffImports.Register` | src/core/link/coff/symbol.c:130-144 | every bucket holds exactly the candidates that hash there, in order |
| `CoffImports.Importer.AddResolved` | src/core/link/coff/import.c:23-62 | the function goes to its DLL's entry, a new one at the end if there is none, and the result says which |
| `CoffImports.Importer.AddFirst` | src/core/link/coff/reloc.c:141-145 | a first encounter takes the next six bytes of .plt, one list entry and its share of the count |
| `CoffImports.Importer.Resolve` | src/core/link/coff/reloc.c:125-147 | memo, list, count and slot cursor stay those of the encounters; the answer is the name's slot |
| `CoffCallSpec.FirstExportFound` | src/core/link/hashtable.c:81-101 | an exported name is found at the address of its first export at an index other than 0 |
| `CoffCallSpec.OthersNotFound` | src/core/link/hashtable.c:81-101 | a name exported only at index 0, or not at all, is found nowhere |
| `CoffCallSpec.AnswerIsFinal` | src/core/link/coff/symbol.c:65-75 | the answer a site gets when it is met is the one its name has at the end of the pass |
| `CoffCallSpec.CallLeads` | src/core/link/coff/reloc.c:18-44 | the relative word of a site leads where the site was resolved to, plus its addend, whatever the other sites are |
| `CoffCallSpec.StaticSite` | src/core/link/coff/reloc.c:93-112 | a site of a static symbol ends up with the symbol's address as its type asks, whatever the other sites are |
| `CoffCallSpec.ExportedSite` | src/core/link/coff/reloc.c:117-123 | a site of an exported name ends up with the address of the first export of that name at an index other than 0 |
| `CoffCalls.IndexExports` | src/core/link/coff/export.c:82-85 | the hash table holds every exported name under its number |
| `CoffCalls.WriteExports` | src/core/link/coff/export.c:12-96 | the bytes written, read through their header alone, give the file name and every symbol at its index |
| `CoffCalls.Exports.Lookup` | src/core/link/hashtable.c:81-101 | the lookup in the bytes of the directory gives the address of the first export of the name at an index other than 0 |
| `CoffCalls.ExportSymbols` | src/core/link/coff/export.c:12-96 | the written bytes read as the exports through their header alone, and directory and hash table of up to 148 symbols agree, so that lookups hold |
| `CoffCalls.ResolveSite` | src/core/link/coff/reloc.c:84-147 | static symbol, exported name, or imported name, in that order; nothing for an unknown one |
| `CoffCalls.RelocateAll` | src/core/link/coff/callback.c:124-175 | the whole pass: the bytes are those of all relocations, and memo, list and count are those of the imports met |
| `CoffDirectorySpec.DirectoryLoads` | src/core/link/coff/import.c:104-189 | a loader that stops only at an all-zero descriptor and at zero thunks reads the import list back from the bytes, by FirstThunk as by OriginalFirstThunk; addresses lie below 2^31 in a 32-bit image, where bit 31 of a thunk marks an ordinal |
| `CoffDirectorySpec.WrittenSize` | src/core/link/coff/import.c:104-125 | the parts of the directory fill it exactly, one behind the other |
| `CoffDirectorySpec.NamesLoad` | src/core/link/coff/import.c:150-186 | the thunks of a DLL up to their zero, none of them taken for an ordinal, lead to its functions' hint/name records |
| `CoffDirectorySpec.StubReadsItsSlot` | src/core/link/coff/import.c:151-176 | the stub is an indirect jump (ff 25) and, relative or absolute, takes its target from the slot it was written for |
| `CoffDirectorySpec.StubsFollowList` | src/core/link/coff/import.c:150-186 | stub t jumps through the IAT slot behind which the t-th function of the list stands |
| `CoffDirectorySpec.SlotsMatchIffContiguous` | src/core/link/coff/import.c:131-189 | every slot handed out is the stub of the name it was handed out for, exactly if imports were first met grouped by DLL |
| `CoffDirectorySpec.AllReach` | src/core/link/coff/reloc.c:125-147 | then every call site's address leads to the requested name |
| `CoffDirectory.IterateImport` | src/core/link/coff/import.c:64-83 | every thunk of a table gets the section address, the zero behind each DLL stays |
| `CoffDirectory.FixThunk` | src/core/link/coff/import.c:163-174 | the record's offset, added to the address a thunk holds, makes it final |
| `CoffDirectory.PutHintName` | src/core/link/coff/import.c:178-185 | hint, name and terminator behind the strings so far |
| `CoffDirectory.PutStub` | src/core/link/coff/import.c:151-176 | the next stub, for the slot the cursor stands on |
| `CoffDirectory.WriteGroup` | src/core/link/coff/import.c:131-189 | one DLL: name, thunks, records and stubs, with the zero thunks skipped |
| `CoffDirectory.FixDescriptor` | src/core/link/coff/import.c:131-140 | the descriptor's three words become addresses of the DLL's parts |
| `CoffDirectory.BlankDescriptors` | src/core/link/coff/import.c:104-119 | descriptors that hold the section address, and an empty one behind them |
| `CoffDirectory.AddImport` | src/core/link/coff/import.c:85-190 | the written buffer is the directory of the list and takes exactly the counted bytes; the stubs are those of the list, all of them indirect jumps |
| `CoffDirectory.LinkImports` | src/core/link/coff/reloc.c:84-147 | from relocation to the written sections: the sites filled, the directory's address behind the last slot, its size, that it loads, and reachable names when met grouped by DLL |
| `CoffImageSpec.StubsReadBack` | src/core/link/coff/import.c:151-176 | stub k stands at its place as six bytes, ff 25 and its operand |
| `CoffImage.EmitImports` | src/core/link/coff/import.c:90-102 | .plt and .idata stand in the written file at the offsets that belong to their addresses |
| `CoffImageSpec.CallReachesName` | src/core/link/coff/reloc.c:125-147 | in the finished image, with imports met grouped by DLL, the word at every relative site of an imported name leads to the stub that jumps through that name's slot |
| `CoffImageSpec.CalledStubJumps` | src/core/link/coff/import.c:151-176 | in the written file the six bytes of the stub that such a word leads to are ff 25 and an operand that leads to the slot behind which the requested name stands |
| `CoffImage.LinkCoff` | src/tools/zld.c:284-291 | the whole link: the sites are filled, the directory at header size + (va - 0x1000) in the file loads as the imports met, and the bytes at the offset of every slot's address are an indirect jump through the slot of the function at its place in the list |
| `CoffExportSpec.CountIsSize` | src/core/link/coff/callback.c:85-98 | the counter kept while reading symbols is exactly the size of the directory |
| `CoffExportSpec.DirectoryExports` | src/core/link/coff/export.c:12-96 | read through the header's own words, the bytes give the file name, the counts, and every symbol at its index with name, ordinal and address |
| `CoffExportSpec.HeaderReads` | src/core/link/coff/export.c:22-55 | the header's words stand where the format has them, and the others are zero |
| `CoffExport.CountExports` | src/core/link/coff/callback.c:85-98 | length and number of exports after all symbols |
| `CoffExport.AddExport` | src/core/link/coff/export.c:12-96 | with cursors for three tables and the strings, the buffer is the directory in the counted length; its header holds the addresses of file name, addresses, names and ordinals, in that order of the tables |
| `SectionSpec.WalksVisitAllOnce` | src/core/link/section.c:56-86 | lists by container and lists by object each hold every section exactly once |
| `SectionSpec.IndexRoundTripIff` | src/core/link/section.c:111-154 | decoding the index of a section gives it back exactly if its position fits eight bits and no earlier container wraps around to it |
| `SectionSpec.SmallTablesRoundTrip` | src/core/link/section.c:111-154 | with at most 256 containers of at most 256 sections every index decodes |
| `SectionSpec.CodeRoundTripIff` | src/core/link/section.c:111-154 | decoding the code of what the search finds gives it back exactly if nothing earlier wraps around to it |
| `SectionSpec.SmallCodesRoundTrip` | src/core/link/section.c:111-154 | with at most 256 containers of at most 256 sections, a header that is present has a code other than 0, which decodes to a section with that header in a container of that name |
| `SectionSpec.IndexDecodesElsewhere` | src/core/link/section.c:111-154 | the 257th section of a container decodes to its first one |
| `SectionSpec.FoundPlace` | src/core/link/section.c:111-129 | the search finds a section with that header in a container of that name, and misses none |
| `SectionSpec.ZeroIsAbsentIff` | src/core/link/section.c:116-128 | the code 0 means absent, except for the first sections of containers numbered by a positive multiple of 256 |
| `Sections.AppendToContainer` | src/core/link/section.c:69-75 | the chain gains the section at its end and the tail pointer follows |
| `Sections.AppendToObject` | src/core/link/object.c:38-46 | the object's list gains the section at its end and the tail pointer follows |
| `Sections.Config.constructor` | src/tools/zld.c:330-335 | one nameless container and one object |
| `Sections.Config.AllocSection` | src/core/link/section.c:56-86 | both lists gain the section, all others stay; the section remembers the object given, the list is the current object's |
| `Sections.Config.AllocContainer` | src/core/link/section.c:35-48 | a container behind the last one, with an empty chain |
| `Sections.Config.AllocObject` | src/core/link/object.c:15-36 | an object behind the last one, with an empty list |
| `Sections.Config.WalkContainers` | src/core/link/elf/section.c:10-19 | containers by next and sections by this, in allocation order |
| `Sections.Config.WalkObjects` | src/core/link/object.c:48-53 | objects by next and sections by next, in allocation order |
| `Sections.Config.WalksMeetAll` | src/core/link/section.c:56-86 | in every reachable state either walk meets every section exactly once |
| `Sections.Config.MatchSection` | src/core/link/section.c:93-104 | the first container of that name |
| `Sections.Config.IndexByName` | src/core/link/section.c:111-129 | the code of the first section found, computed with wrapping counters |
| `Sections.Config.ChainByIndex` | src/core/link/section.c:135-154 | the section at the first place whose wrapped counters match |
| `Sections.Config.FindAgain` | src/core/link/section.c:111-154 | both methods in turn, in a small table: a section with the header searched for |
| `LayoutSpec.RangesApart` | src/core/link/coff/callback.c:104-122 | an earlier section of the traversal ends before a later one begins |
| `LayoutSpec.RangesMeet` | src/core/link/coff/callback.c:111-120 | there is no gap between sections |
| `LayoutSpec.BytesHold` | src/core/link/coff/emit.c:300-317 | in the written bytes every section lies at its offset in the traversal |
| `LayoutSpec.HeadersFitIff` | src/core/link/coff/emit.c:29-38 | the computed header size is the offset at which raw data is written exactly if section headers are few |
| `LayoutSpec.HeadersCovered` | src/core/link/coff/emit.c:29-38 | the header size is the least multiple of 0x200 that holds all headers |
| `Layout.EntryRightIff` | src/core/link/coff/section.c:10-29 | an image directory entry is the address of its section exactly if the section was there when addresses were handed out; for .idata it is 0 |
| `Layout.ImageDirectoryEntry` | src/core/link/coff/emit.c:167-198 | the address that the last section header of the name announces |
| `Layout.TraversalsAgree` | src/core/link/coff/emit.c:469-477 | a section's bytes stand at the file offset that belongs to the address it was given |
| `Layout.Linker.SetVirtualAddress` | src/core/link/coff/callback.c:104-122 | consecutive addresses from the current offset on, and the offset and .plt cursor behind them |
| `Layout.Linker.SetAddresses` | src/tools/zld.c:286 | every section of every container has the address of the layout |
| `Layout.Linker.AddSection` | src/core/link/coff/section.c:10-29 | a container with one section at a given address, with no size recorded and address 0 in its header |
| `Layout.Linker.AppendImports` | src/core/link/coff/import.c:90-102 | .plt where the sections end and .idata where .plt ends keep the layout |
| `Layout.Linker.WriteRawData` | src/core/link/coff/emit.c:300-317 | the container's sections behind what is written already |
| `Layout.Linker.Emit` | src/core/link/coff/emit.c:469-477 | headers, padding to the file alignment, and the sections in the second traversal |
| `Layout.Linker.GetOutSize` | src/core/link/coff/emit.c:40-51 | headers plus the recorded container sizes |
| `Layout.LinkImage` | src/core/link/coff/emit.c:53-78 | every section stands where its address and the header size say; the declared size leaves .plt and .idata out |
| `RelocSpec.OutsideUntouched` | src/core/link/coff/callback.c:143-173 | bytes outside every site stay |
| `RelocSpec.SiteFilled` | src/core/link/coff/reloc.c:18-44 | with disjoint sites every word ends up as its own relocation asks, whatever the others are |
| `RelocSpec.OrderDoesNotMatter` | src/core/link/coff/callback.c:143-173 | any permutation of disjoint relocations gives the same image |
| `RelocSpec.RelativeWordReaches` | src/core/link/coff/reloc.c:32-37 | with disjoint sites, counted from behind the word, a relative word leads to its target plus the addend, modulo 2^32 |
| `RelocSpec.AbsoluteWordReachesIff` | src/core/link/coff/reloc.c:21-23 | a 64-bit word (type 1) holds base plus target plus addend exactly if base plus target is below 2^32 |
| `RelocSpec.ShortWordHolds` | src/core/link/coff/reloc.c:24-29 | a word of type 2 ends up with addend plus target plus base, one of type 3 with addend plus target whatever the base, modulo 2^32 |
| `RelocSpec.CarryOfWordLost` | src/core/link/coff/reloc.c:21-23 | a zero word for address 0xffffffff in an image at 0x40000 becomes 0x3ffff |
| `Reloc.FillAddress` | src/core/link/coff/reloc.c:18-44 | a word of type 1 grows by base plus target cut to 32 bits, one of type 2 by base plus target, of type 3 by the target, of type 4 or 0x14 by the distance from behind it, with wrap-around; any other type writes nothing |
| `CallTableSpec.FoundIffNotLastEntered` | callgen/src/callgen.c:424-429 | an address first met at entry k of the linkage table, and at no function, is named exactly if k is not the entry entered last |
| `CallTableSpec.SearchStaysIff` | callgen/src/callgen.c:414-431 | a search stays inside the tables exactly if a function is at the address or the linkage table has an entry |
| `CallTableSpec.OnlyImportNotFound` | callgen/src/callgen.c:276-277 | with one function in the linkage table a call to it has no name |
| `CallTableSpec.FunctionFound` | callgen/src/callgen.c:417-422 | the first function whose address, or whose slot address in the low 32 bits, is the one searched for gives the name |
| `CallTableSpec.SitesAreCalls` | callgen/src/callgen.c:433-460 | one name per site, the one the search gives for the address called there; sites are recognised calls and never overlap |
| `CallTableSpec.NoCallMissed` | callgen/src/callgen.c:433-460 | every recognised call is a site or lies in the operand of one |
| `CallTableSpec.EmittedNameIsCalled` | callgen/src/callgen.c:437-453 | if the bytes of a site are e8 and the signed distance to an address, forwards or backwards, the name emitted for it is the one the search gives for that address |
| `CallTableSpec.CallIsSite` | callgen/src/callgen.c:437-458 | such bytes anywhere in a function, for an address that the search knows, are a site or lie in the operand of one |
| `CallTableSpec.CallHasEdge` | callgen/src/callgen.c:470-495 | such a call in a function with an address has its edge in the graph, unless it lies in the operand of one taken before it |
| `CallTableSpec.EdgeIsCall` | callgen/src/callgen.c:470-495 | every edge of the graph comes from a byte e8 in the code of its caller, and names the function called there |
| `CallTableSpec.TableDecodes` | callgen/src/callgen.c:533-573 | reading the table with its zero tail gives exactly the encoded edges, in order |
| `CallTableSpec.PadFillsCells` | callgen/src/callgen.c:461 | the writer's padding and the reader's skip agree for every count |
| `CallTable.FindName` | callgen/src/callgen.c:414-431 | functions forwards, then the linkage table backwards down to the second-last entered entry; the first match wins, and below an empty table there is no answer |
| `CallTable.ScanInto` | callgen/src/callgen.c:437-460 | the words behind the header are the names of the scan |
| `CallTable.ParseBinary` | callgen/src/callgen.c:433-468 | callees, padding to a cell and the count patched into the header |
| `CallTable.IterateOnFunc` | callgen/src/callgen.c:470-495 | the table holds the record of every function with an address, and zeros behind |
| `CallTable.EmitCallGraph` | callgen/src/callgen.c:533-573 | the reader's loop computes the edges of the table |
| `CallTable.CallGraph` | callgen/src/callgen.c:719-748 | the graph is every function's recognised calls, in order: every call in the bytes, forwards or backwards, that the search knows and that lies in no operand has its edge, and every edge is such a site; calls to the linkage-table function entered last are not recognised |
| `BipatchSpec.EightDigitsIff31Bits` | src/tools/bipatch.c:19-40 | an eight-digit number reads back exactly if it is below 2^31, and as the error value exactly if it is 0xffffffff |
| `BipatchSpec.HighOffsetMisread` | src/tools/bipatch.c:19-40 | the offset 0x80000000 reads as 0xffffffff80000000 |
| `BipatchSpec.HexDigits` | src/tools/bipatch.c:19-40 | the digits are those of 0123456789abcdef with their usual values, and no other character is one |
| `BipatchSpec.HexDigitAt` | src/tools/bipatch.c:19-40 | digit k of a printed number is the digit of its weight |
| `BipatchSpec.PrintedScriptParsesIff` | src/tools/bipatch.c:42-113 | the text form of a well-formed script reads back as that script with its net growth exactly if it has at most 128 records and inserts at most 4096 bytes; otherwise something is written behind a page |
| `BipatchSpec.ResultLength` | src/tools/bipatch.c:200-201 | the result is longer than the input by the growth counted while reading |
| `BipatchSpec.StepKeepsTrack` | src/tools/bipatch.c:164-185 | after every round, output so far and splice still to come make up the result |
| `BipatchSpec.HaltsIffMoves` | src/tools/bipatch.c:157-186 | on an in-order script of fewer than 128 records, apply ends exactly if the input is empty or some edit moves the cursor off 0, and then the output is the splice without what is inserted at the end; otherwise the record cursor leaves its page of 128 with the input cursor at 0 |
| `BipatchSpec.SplicesIff` | src/tools/bipatch.c:157-186 | an in-order script of fewer than 128 records yields its splice exactly if it ends and inserts nothing at the end of the input |
| `BipatchSpec.EndInsertionLost` | src/tools/bipatch.c:164 | one byte inserted behind the only byte of the input is not in the output |
| `BipatchSpec.FrontInsertionSticks` | src/tools/bipatch.c:157-186 | with one byte inserted before the only byte of the input, the record cursor leaves its page with the input cursor at 0 |
| `Bipatch.ComputeAsciiToBin` | src/tools/bipatch.c:19-40 | the value of the token with the sign extension of its top digit, or the error value |
| `Bipatch.ReadLine` | src/tools/bipatch.c:68-108 | one command of the script, or why there is none |
| `Bipatch.ReadBytes` | src/tools/bipatch.c:96-106 | the bytes of an insertion up to the end of the line |
| `Bipatch.ReadPatch` | src/tools/bipatch.c:42-113 | the script the text denotes, with the net growth; rejection, running off the text and writing behind a page included |
| `Bipatch.ApplyOnce` | src/tools/bipatch.c:164-184 | one round of the loop on the output buffer |
| `Bipatch.Apply` | src/tools/bipatch.c:157-186 | for any script and room with which the loop ends: the output buffer begins with what the rounds write, and is unchanged behind it |
| `Bipatch.ApplyPatch` | src/tools/bipatch.c:196-208 | for any such script: the saved file is what the rounds write, cut or filled with zeros to the counted length; an empty result is not saved |
| `Bipatch.ApplyInOrder` | src/tools/bipatch.c:196-208 | for an in-order script: the splice, with zeros for what is inserted at the end of the input |
| `Bipatch.Run` | src/tools/bipatch.c:218-227 | the tool on the text of a well-formed, in-order script that fits the pages: the file is the splice exactly if the splice is not empty and only zeros are inserted at the end |

## Where the code and the obvious contract part

These are results of the model, each with its exact condition in the table above.

- A name exported first is not found by the COFF lookup (`ExportFoundIffNotFirst`,
  `FirstExportNotFound`).
- The GNU lookup of an absent name that passes the filter does not end inside the table
  (`WalkEndsIffPresent`, `CollidingNameNeverStops`).
- PLT slots and stubs disagree when imports of two DLLs are first met interleaved
  (`StubOrderIffContiguous`, `SlotsMatchIffContiguous`, `InterleavedStubsDiffer`).
- The import count is too large for 32-bit images (`CountIsSize`).
- A section index can decode to another section beyond 256 sections or containers
  (`IndexRoundTripIff`, `CodeRoundTripIff`, `IndexDecodesElsewhere`).
- The size declared for the image leaves `.plt` and `.idata` out (`LinkImage`).
- The import directory is announced at address 0: the section header of `.idata` is made after the
  addresses were handed out, and its address is never written (src/core/link/coff/section.c:10-29;
  `EntryRightIff`).
- A 64-bit absolute relocation loses the carry out of 32 bits (`AbsoluteWordReachesIff`,
  `CarryOfWordLost`).
- Calls to the linkage-table function entered last get no name, and without linkage-table entries
  the search for an address leaves the table, because the end pointer is decremented before an entry
  is written and the search stops on it (callgen/src/callgen.c:276-277 and 425-426). What it meets
  below, zeros, other entries and the mapped file, is not part of this model
  (`FoundIffNotLastEntered`, `SearchStaysIff`, `OnlyImportNotFound`).
- A patch offset from 0x80000000 on does not read back (`EightDigitsIff31Bits`,
  `HighOffsetMisread`), and a script of more than 128 records or 4096 inserted bytes is written
  behind its page (`PrintedScriptParsesIff`).
- `apply` on a script that never leaves offset 0 goes through the zero records behind the script
  until the record cursor leaves its page, with the input cursor still at 0, because the end pointer
  of the script is taken from the text cursor at src/tools/bipatch.c:111 (`HaltsIffMoves`,
  `FrontInsertionSticks`). Bytes inserted at the end of the input are lost, because the loop ends
  there (`SplicesIff`, `EndInsertionLost`).

## Left out

- Allocator.Heap.Malloc: does not model a failing mapping, nor a request that needs an 86th bin record; a negative size is no request.
- ElfDynamic.Tables.AddDynstrEntry: does not model the switch to a second buffer; the code's guard at src/core/link/elf/dynamic.c:298 does not count the terminator, so the contract asks for room for it.
- ElfDynamic.Tables.AddDynamicEntry: requires room in all four tables; what happens when one is full is not modelled.
- ElfDynamic.Tables.AddDtNeeded: requires room in the string table; the room in the DT_DYNAMIC table, and the entries behind the DT_NEEDED ones, are not modelled.
- GnuIndex.GnuHashTable.Enter: requires consecutive indices from symoffset on, hashes of at least 2 and room in the chain, which the code assumes.
- GnuIndex.GnuHashTable.FindSym2: claims nothing for absent names that pass the filter; ElfLink.LinkDynamic asks for names that are exported or that the filter turns away.
- ElfLink.LinkDynamic: the value of an exported symbol is an input; the filling of the site, entries of .init_array and .fini_array, section symbols and the DT_HASH table of an ELF output are not modelled.
- CoffImports.Importer.Find: buckets are lists of places, not linked nodes, and hold every name once; registering a name twice is not modelled.
- CoffDirectory.AddImport: the buffer is written through its four typed parts, arrays of descriptors, thunks and bytes; that the parts fill the buffer and read back from its bytes is proved, aliasing between the casts is not.
- CoffImage.LinkCoff: requires at least one import, as add_import returns at once without one; the headers are given, and the relocated bytes are those of the object files, whose way into the file is Layout's.
- CoffCalls.ExportSymbols: requires at most 148 symbols, as the hash table is an allocation of 1000 bytes with 100 buckets; it writes the tables and the hash table one after the other, the code entry by entry.
- CoffExport.AddExport: which address a symbol has is an input; the lookup of its section at src/core/link/elf/symbol.c:27 never advances, so nothing is claimed about it.
- Layout.Linker.SetVirtualAddress: the addresses of a container's sections are kept in the container; 32-bit wrap-around of an image of 4 GiB is not modelled.
- CallTable.IterateOnFunc: requires the whole table to fit the zeroed mapping; the code maps one more page only when the first one is full to the byte.
- CallTable.EmitCallGraph: gives edges as pairs of name offsets; the text of the graph file is not modelled.
- Bipatch.Apply: requires that the loop ends in mapped memory, with a record to read in every round; HaltsIffMoves says when an in-order script of fewer than 128 records does.
- Bipatch.ApplyPatch: requires a result whose mapped pages fit 32 bits, as the mapped length is masked to 32 bits at src/tools/bipatch.c:147.
- Bipatch.Run: scripts that parse; after a parse error the tool goes on with what it has.
- Bipatch.ReadPatch: reads onto empty pages and stops at the first write behind one; lengths are 16 bits wide; the unmapping of the record page at src/tools/bipatch.c:110 when it is aligned (no records, or a full page) is not modelled.
- `__free` and the reuse of freed memory: the bits cleared are not those set, and a neighbour's header is wiped.
- `src/core/memory/alloc.c`, a copy of the allocator.
- The bytes ELF relocation writes, ELF address assignment and the ELF section and symbol iterators.
- Guest/host address lookup in `src/core/memory.c`: linear searches that would only add easy members.
- Linker scripts, the sqlite reader, system calls, logging, command lines, the emulator and debugger glue.
- The make clones, `src/core/std/hash_table.c` and `src/core/std/thread.c`.
- Disassembler tables, header constants and format detection: finite case lists.
