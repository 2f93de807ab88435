# Mimick, modelled and proved

Mimick replaces functions of a running program by mocks. This project models its four hard pieces for x86-64 ELF
systems and proves what they promise.

* **The mock engine.** Every call of a mocked function is appended to, or merged into, a growing byte buffer
  (`call_log.dfy` over the record view of `call_records.dfy`). Contracts and matchers are linked lists that are built
  while a session is open (`matchers.dfy`, `contract_lists.dfy`, `sessions.dfy`).
* **Whole programs.** A test program creates mocks, defines contracts, verifies, calls and resets in any order, each
  time through a mock's handle or through the name of a patched function (`programs.dfy`). `Runs.Process.RunProgram`
  proves for every program that each statement comes to what is documented, and that afterwards mocks, table, memory
  and heap are what the program says; as it holds for every program, it holds after every statement. What is documented
  is given by `scripts.dfy`: the latest definition that covers a call decides it, and a verification counts earlier
  call statements; neither mentions buffers, lists or merged records. `promises.dfy` says what that comes to, statement
  by statement and setting by setting, and which mocks live; `one_mock_tests.dfy` has a test with its answers.
  `Runs.TestProgram` draws the conclusions for a program that has reset its mocks, and `whole_tests.dfy` those for the
  usual order of a test.
* **The symbol indexes.** `elf_hash.dfy` and `sysv_table.dfy` model the System V hash (64-bit accumulator against the
  32-bit one of the System V gABI, chapter 5, section "Hash Table") and its bucket chains, `gnu_hash.dfy` and
  `gnu_table.dfy` the GNU hash section. Both lookups are compared with a linear scan, and `real_functions.dfy` carries
  that over to the search through all loaded modules.
* **Table patching.** `got.dfy` models setting and resetting slots, `got_runs.dfy` arbitrary runs of stub creation and
  destruction, `hook_lists.dfy` stubs destroyed in the order of their creation, `stubs.dfy`, `freeing.dfy` and
  `lifetimes.dfy` the stubs of a mock from `mmk_mock` to `mmk_reset`, `program_tables.dfy` the table over whole
  programs, and `slot_histories.dfy` its slots where stubs share them.
* **The trampoline and the context handshake.** `machine.dfy` is a small x86-64 processor, `trampoline.dfy` holds
  the routine as a list of instructions, and `transparency.dfy` proves what a traversal does for all register and
  stack contents and all behaviours of the C routines it calls. `resets.dfy` composes the way from a function to its
  mock: table slot, trampoline, header word, stub, `stub->ctx`. `handshake.dfy` follows these links through nested
  calls, creations and resets of one thread.

C objects that are updated in place are classes here, with a ghost heap (`CHeap.Heap`) that knows which blocks are
allocated. Freeing needs a live block, and every access to a block comes with the claim that it is live, so no block is
freed twice or used after it was freed. Loops over arrays, strings and lists are loops. The meaning of each piece is
given by functions on values, and the methods are proved against those.

Where a property fails, the exact condition is proved:

* Hooks undone in the order in which they were made, as by a mock with two stubs or a test that resets its mocks in
  order, give the table back exactly when no slot was patched twice (`HookLists.SameOrderRestores`,
  `WholeTests.RunTest`). Otherwise a trampoline is left behind; and whoever calls it after its page has been unmapped
  crashes (`GotRuns.SharedSlotKeepsTrampoline`, `Handshake.DeadFunctionCrashes`). Over arbitrary programs the condition
  is one for each slot, on the program's statements alone (`SlotHistories.SlotIsGivenBack`, `Runs.TestProgram`).
* A scope of an unknown kind, as in "f@x", ends the program in a panic even where `.noabort` asks for an invalid mock.
  Apart from that `.noabort` does what it is documented to do (`Lifetimes.CreateMock`,
  `Targets.UnknownScopeIsUnreadable`). These scopes are exactly the ones outside the documented grammar
  (`Targets.ReadableIsPrintable`).
* `mmk_stub_destroy` may be given the invalid stub, says its documentation; that is NULL, and the function reads through
  it (`Stubs.Destroy`).
* A stub that cannot be created loses the copy of its name. A mock with a scope other than "self" tries a second stub
  in the main executable and loses a block exactly when that fails (`Lifetimes.CreateMock`,
  `Programs.LossesAreFailedStubs`, and the input of `WholeTests.ScopedTargetLosesItsName`).
* A verification whose expression makes more than one mocked call reads a freed block, before it panics
  (`Sessions.Thread.Verify`). The counter of these calls is an `unsigned`, so the panic fails to come, too, when the
  number of calls is 1 modulo 2^32 (`Sessions.Thread.When`, `Sessions.Thread.Verify`).
* `mmk_ctx()` is documented to give the stub whose function is running. It does exactly until another trampoline has
  been entered or a stub has been created since, or when the last such step entered the same stub again
  (`Handshake.ContextAfterRoutine`).
* A reset through a function that is not mocked runs that function with the question pending
  (`Handshake.FlagIsDownWhileCodeRuns`).
* `.times = 0` and `.at_most = 0` cannot be told from settings not given, and a setting beside a stronger one is not
  looked at (`Contracts.VerdictMeetsDocumentation`, `Contracts.DecisiveSettingsDecide`).
* The two tests for a "self" scope disagree on scopes that merely begin with "self" (`Targets.SelfTestsDiffer`).
* The 64-bit System V hash differs from the 32-bit one when one of the last eight characters carries
  (`ElfHash.HashesAgree`), and a table built with the latter then misses names (`SysvTable.FoundWhenBucketsAgree`).
* The GNU lookup does not test for an empty bucket, so an absent name that passes the filter makes it read outside
  its section (`GnuTable.Find`, `GnuTable.EmptyBucketIsWalked`).
* The trampoline tests all of rax although an `int` was returned (`Transparency.OutcomeIsWhatWasAsked`), and makes its
  second and third C call on a stack that is not aligned to 16 bytes (`Transparency.Alignment`). It saves the lower
  halves of the vector registers only, so a 256-bit argument arrives exactly when the last C routine leaves the upper
  half of its register as the caller set it (`Transparency.WideArguments`).

## Model

| member | source | states |
|---|---|---|
| Runs.Process.RunProgram | include/mimick/mock.h:292-372 | any program of creations, definitions, checks, calls and resets in any order: every statement comes to what is documented; afterwards the live mocks have the contracts and calls of the program, the table and the words in memory are the program's, the heap holds the live mocks' blocks, what was there before and one block per failed stub, and no session or question is open |
| Runs.TestProgram | include/mimick/mock.h:292-372 | the same from the first statement on; once no mock lives, heap and memory are as before but for the blocks of failed stubs, and so is the table if no live stub's slot was patched again. At any time, with new addresses for trampolines, the table is as before exactly when every slot is untouched or was last given back by a mock that listed it once and whose creation found it so |
| Runs.Process.RunStatement | include/mimick/mock.h:292-372 | one statement comes to what is documented and leaves all other mocks alone |
| Runs.Process.RunCreate | src/mock.c:58-110 | a creation with a scope the library knows, beside any number of live mocks: valid exactly when the first lookup found something, one block lost exactly when a stub failed |
| Runs.Process.RunDo | include/mimick/mock.h:292-372 | a definition, check or call through any function of its mock has the documented answer; its session is open and its matchers are collected when the function is called |
| Runs.Process.RunReset | src/core.c:59-68 | a reset through any function of a mock gives back exactly that mock's blocks, slots and words |
| Promises.ChecksAnswer | include/mimick/verify.h:43-51 | in every program a check answers whether the number of earlier call statements to its mock with arguments of its pattern meets the settings: `.never` alone, else both bounds, else `.matching`, else `.times` |
| Promises.CallsAnswer | include/mimick/mock.h:340-371 | in every program a call does what the latest earlier definition for it says: the errno exactly if one is given, the function, the pointee whenever a value is given, else what the function returned, else zero |
| Promises.UndefinedCallsAnswer | include/mimick/mock.h:340-371 | a call without such a definition sets no errno, calls nothing and returns zero |
| Promises.OthersAnswer | src/mock.c:94-110 | a creation yields a mock exactly when the lookup found a place |
| Promises.WhoLives | src/mock.c:94-131 | in every program exactly those mocks live whose lookup found a place and that no statement has reset |
| OneMockTests.UsesAreLegal | include/mimick/mock.h:292-372 | a mock that can be created can be defined, checked, called through its handle in any order, and reset |
| OneMockTests.OneTest | include/mimick/mock.h:292-372 | a possible test and all its answers |
| Resets.Ring | include/mimick/mock.h:298-301 | a call through a table slot or the handle ends up in the stub body with the mock whose trampoline is called, and only the stack changes |
| Programs.SoundNext | src/stub.c:75-86 | every statement keeps the live mocks' hooks, words and addresses apart and in place |
| Programs.PatchedLeadsThere | src/stub.c:83-86 | right after its creation every slot a mock patched, and its handle, leads to it |
| Programs.LeadsToOneMock | src/stub.c:83-86 | a slot leads to at most one mock |
| Programs.WordsAreKept | src/trampoline.c:84-100 | over every program the words in use are those from before and those of the live mocks |
| Programs.LossesAreFailedStubs | src/stub.c:50-73 | over every program as many blocks are lost as creations had a failing stub |
| ProgramTables.TableIsKept | src/plt-elf.c:305-332 | over every program in which no live stub's slot is patched again, each slot holds its owner's trampoline or its original contents, and the table is the original one whenever no mock lives |
| SlotHistories.SlotHistory | src/plt-elf.c:305-332 | over every program, whichever slots its stubs share: an untouched slot holds its original contents, one last patched a trampoline, one last given back what it held when the mock just reset was created, or a trampoline if that mock listed it twice |
| SlotHistories.SlotIsOriginal | src/plt-elf.c:305-332 | a slot holds its original contents exactly if nobody has touched it or it was last given back by a mock that listed it once and was created when the slot held them |
| SlotHistories.SlotIsGivenBack | src/plt-elf.c:305-332 | the same condition on the statements alone: no statement concerns the slot, or the last one that does resets a mock that listed it once and before whose creation the condition held |
| SlotHistories.TableIsGivenBack | src/plt-elf.c:305-332 | over every program with trampolines at new addresses, the table is the original one exactly when this holds of every slot |
| ProgramTables.OwnedSlotLeadsThere | src/stub.c:85-86 | in such programs every slot of a live stub leads to its mock at any time |
| WholeTests.RunTest | include/mimick/mock.h:292-372 | all mocks created, used, and reset in order: documented outcomes, one lost block per failed stub, and the table restored exactly when no slot was patched twice |
| WholeTests.TestRestores | src/mock.c:112-118 | the exact condition behind it |
| WholeTests.CreateThenReset | src/mock.c:94-131 | a mock created and reset through its handle or any slot it patched: the reset is possible, the heap is as before exactly when no stub failed, the table exactly when no slot was patched twice |
| WholeTests.ScopedTargetLosesItsName | src/mock.c:105-106 | a target with a scope, its slots and a program that loses one block |
| Resets.MmkReset | src/core.c:59-68 | from a function that leads to a stub, by way of the processor and the words in memory, to the mock: exactly its blocks, slots and words are given back |
| Resets.MmkCall | src/stub.c:37-42 | the routine is entered, and `mmk_stub_context(mmk_ctx())` is the mock of the function that was called |
| Scripts.LatestDefinitionWins | include/mimick/mock.h:340-368 | the most recent definition in a script that covers a call decides its errno, the function called and the value returned, each spelled out |
| Scripts.UncoveredCallReturnsZero | include/mimick/mock.h:340-371 | a call no definition covers has no effect but returning zero |
| Scripts.VerifyCountsStatements | include/mimick/mock.h:310-329 | the number a check compares is the number of earlier call statements to its mock whose arguments the pattern accepts |
| Sessions.Thread.StubBody | include/mimick/mock.h:299-371 | in a when session the call becomes a contract, in a verify session the accepted calls are counted, both return zero and log nothing; otherwise it is logged and the contracts decide, which do not change |
| Sessions.Thread.When | include/mimick/when.h:42-47 | panics unless the number of mocked calls is 1 modulo 2^32; one call, made through a function of the mock while the session is open, adds one contract, and the thread is between sessions again |
| Sessions.Thread.Verify | include/mimick/verify.h:43-51 | panics unless the number of mocked calls is 1 modulo 2^32; with one call the verdict is about the calls this pattern accepts, and log, contracts and heap are unchanged; a freed block is read exactly when there are several calls |
| Sessions.Thread.ResetCall | src/mock.c:41-54 | panics exactly when the 32-bit count is not one, and clears it otherwise |
| Sessions.Thread.OpenSession | src/matcher.c:35-42 | the session's list holds the matchers of the call, sorted, behind its head |
| Sessions.Thread.InWhen | include/mimick/mock.h:300-309 | the stub body in a when session adds a contract that takes over the session's matchers |
| Sessions.Thread.InVerify | include/mimick/mock.h:310-329 | the stub body in a verify session stores its own count of accepted calls and frees the session's matchers |
| MockContexts.LogCountIsCallCount | include/mimick/mock.h:312-323 | adding up the times of the merged records that fit gives the number of calls that fit |
| MockContexts.Mock.Call | include/mimick/mock.h:334-371 | an ordinary call has the effect of the latest contract that accepts it, setting by setting, and none if there is none; it is added to the calls either way |
| MockContexts.Mock.Count | include/mimick/mock.h:310-323 | the loop over the raw log yields the number of calls the pattern accepts |
| MockContexts.Mock.AddContract | include/mimick/mock.h:304-309 | a new contract is the latest one and owns the matchers it was written with |
| MockContexts.Mock.Destroy | src/mock.c:112-131 | frees exactly the blocks of this mock and resets the slots of its stubs in list order |
| Mocks.Dispatch | include/mimick/mock.h:340-369 | the walk over the prepended list acts as the most recently defined contract that covers the arguments |
| Mocks.CountRecords | include/mimick/mock.h:311-323 | the verify loop adds up the times of exactly the records that fit, each visited once |
| ContractLists.ContractList.WhenImpl | src/when.c:42-48 | prepending a binding appends its contract to the definitions |
| Contracts.Perform | include/mimick/mock.h:346-368 | errno is set exactly when one is given, the function given is called, a value given is returned even if a function is called, else what the function returned, else zero |
| Contracts.LatestContractDecides | include/mimick/mock.h:340-369 | the same of the effect of a whole list of contracts |
| Contracts.CountAcceptedIsSize | include/mimick/mock.h:310-323 | the count is the number of positions at which an accepted call was made |
| Contracts.VerdictDecides | src/verify.c:42-52 | which settings are looked at, and what they ask of the count |
| Contracts.NewContractOverrides | src/when.c:42-48 | a new contract changes the effect of exactly the calls it covers |
| Contracts.VerdictMeetsDocumentation | include/mimick.h:217-228 | when each setting on its own, and the two bounds together, mean what they are documented to mean, and when not |
| Contracts.DecisiveSettingsDecide | src/verify.c:42-52 | for every combination the verdict is the documented meaning of `.never`, else of the bounds, else of `.matching`, else of `.times`, zeros left out |
| Matchers.Judge | include/mimick/mock.h:108-126 | the bit tests on the kind mask decide exactly the relation each kind of matcher is named after |
| Matchers.FitsPattern | include/mimick/mock.h:106-129 | walking the matcher list along the parameters accepts exactly the calls that fit the pattern |
| Matchers.AddData | src/matcher.c:54-71 | the node is linked in place where the sorted insertion puts it, behind an untouched head |
| Patterns.CollectSorts | src/matcher.c:54-71 | insertion keeps exactly the inserted matchers, strictly sorted |
| Patterns.EvaluationOrderIsIrrelevant | src/matcher.c:54-71 | any evaluation order of the arguments yields the same list |
| Patterns.MatcherMeetsItsParameter | src/matcher.c:59-70 | the i-th matcher written meets the i-th parameter |
| Patterns.PatternAsks | include/mimick/mock.h:106-129 | what a pattern asks of each argument, kind by kind, and equality behind the last matcher |
| Patterns.NoMatchersIsEquality | include/mimick/mock.h:127-129 | a pattern without matchers accepts exactly its own values |
| CallLogs.CallLog.RegisterCall | src/verify.c:76-102 | in every state the buffer is the encoding of the merged log of all calls so far, and one call extends it by its own parameters |
| CallLogs.CallLog.Append | src/verify.c:88-101 | growth keeps all records, the copy stays in bounds, and the new record has times 1 |
| CallLogs.CallLog.Grow | src/verify.c:88-94 | reallocation keeps every byte of the earlier records |
| CallLogs.GrownSize | src/verify.c:89-91 | the growth loop ends with the smallest number of pages that fits |
| CallLogs.FindAndIncCallMatching | src/verify.c:55-74 | increments in place the times of the record with the same parameter bytes if there is one, and touches nothing else |
| CallLogs.FindRecord | src/verify.c:62-73 | finds the record with the given parameter bytes exactly when there is one |
| CallLogs.WriteRecord | src/verify.c:96-101 | writes length, times 1 and parameters behind the last record |
| CallLogs.ParamsBegin | src/mock.c:133-138 | points at the first record, NULL when there is none |
| CallLogs.ParamsNext | src/mock.c:140-147 | points at the next record, NULL behind the last one |
| CallRecords.LogCountsCalls | src/verify.c:55-102 | records have pairwise distinct parameter bytes, and each one's times is the number of calls made with them |
| CallRecords.KeysComeFromCalls | src/verify.c:96-99 | every record stems from some call |
| CallRecords.TotalTimesIsCalls | src/verify.c:68-69 | the times add up to the number of calls |
| CallRecords.TimesWhereIsCount | include/mimick/mock.h:320 | the times of the records with a property add up to the number of calls with it |
| CallRecords.EncodeInjective | src/verify.c:96-101 | the buffer decodes uniquely |
| CallRecords.RecordFields | src/mock.c:140-147 | length, times and parameters of a record are found at its place in the buffer |
| CallRecords.EncodeSetTimes | src/verify.c:68-69 | overwriting a times word in the buffer changes that record alone |
| ParamStructs.StructHoldsArgs | include/mimick/mock.h:334-337 | the parameter struct gives back the arguments whatever its padding bytes are |
| ParamStructs.ParamsIgnoreTimes | include/mimick/mock.h:141-164 | the parameters read from a record do not depend on its times |
| ParamStructs.FieldRoundTrip | include/mimick/mock.h:90 | an argument in the range of its field survives the struct |
| ParamStructs.SignIsTopBit | include/mimick/mock.h:90 | a signed field is negative exactly if its topmost bit is set, and stands for its bytes modulo its size |
| Freeing.FreeMatchers | src/mock.c:122-126 | frees each matcher of a list once, after its last use |
| Freeing.FreeBindings | src/mock.c:120-129 | frees each binding and each of its matchers once, after their last use |
| Freeing.DestroyStubs | src/mock.c:114-118 | destroys the stubs in list order, each block freed once |
| GotRuns.EveryRunRestores | src/plt-elf.c:305-332 | over every interleaving of creation and destruction with disjoint slots, a slot holds its owner's trampoline or its original value, and with no stub left the table is the original one |
| GotRuns.RunKeepsInvariant | src/stub.c:85-108 | the invariant behind it, kept by every event: live stubs apart, saved values the original ones |
| GotRuns.DestroyUndoesCreate | src/plt-elf.c:305-332 | destroying a stub right after creating it restores the table exactly when no slot is listed twice, but for slots that held that trampoline already |
| GotRuns.ReverseOrderRestores | src/plt-elf.c:305-332 | with overlapping slots, destruction in reverse order restores the table |
| GotRuns.CreationOrderRestores | src/mock.c:114-118 | destruction in creation order restores it exactly when the two stubs share no slot |
| HookLists.SameOrderRestores | src/mock.c:112-118 | any number of hooks undone in the order in which they were made restore the table exactly when no slot is patched twice |
| GotRuns.SharedSlotKeepsTrampoline | src/mock.c:114-118 | a shared slot keeps the first trampoline |
| Got.SetOffsets | src/plt-elf.c:305-325 | the slots hold the new value, the first value ever seen is saved |
| Got.ResetOffsets | src/plt-elf.c:327-332 | the slots hold the saved values, later entries last |
| Got.PatchedSaves | src/plt-elf.c:308-309 | what each entry saves, also when it is not the first for its slot |
| Got.PatchedKeeps | src/plt-elf.c:308-309 | what was saved before stays |
| Got.RestoredLast | src/plt-elf.c:327-332 | a slot gets the value of its last entry |
| Got.CreateEach | src/stub.c:75-86 | after creation with duplicate-free slots each holds the trampoline, its old value saved, all others unchanged |
| Got.DestroyEach | src/stub.c:105-108 | after destruction each slot holds its saved value, all others unchanged |
| Stubs.Create | src/stub.c:44-103 | panics exactly on a scope that cannot be read; apart from that fails exactly when the lookup found nothing, then losing the copy of the name; otherwise name, path, slots and the words in memory are set up |
| Stubs.Destroy | src/stub.c:105-117 | resets the slots, frees the stub's three blocks and gives back its words; exactly the invalid stub makes it read through NULL |
| Lifetimes.CreateMock | src/mock.c:58-110 | one stub for the target, and one for its bare name in the main executable exactly when the scope does not begin with "self" and something is found there; their names, paths, addresses and words in memory, and what every slot then holds; panic exactly on a scope that cannot be read or when nothing was found without `.noabort`; one block lost exactly when a stub failed |
| Targets.PrintedTargetIsReadBack | src/stub.c:50-63 | a printed target is read back as the same name, selector and value, whatever the value contains, and both "self" tests agree |
| Targets.TargetParts | src/stub.c:54-63 | name and scope are what stands in front of and behind the first '@'; what each test makes of the scope |
| Targets.SelfTestsDiffer | src/mock.c:92 | the two "self" tests differ exactly on scopes that begin with "self" and go on |
| Targets.ReadableIsPrintable | src/plt.c:27-51 | the lookup panics on exactly the targets that the documented grammar cannot print |
| Targets.UnknownScopeIsUnreadable | src/plt.c:38-46 | an input that panics |
| Targets.CutName | src/stub.c:54-63 | cuts the copied name at the first '@' and gives the path behind it, none for "self" |
| Targets.GetSelector | src/plt.c:27-51 | the selector and its value, or panic |
| Targets.IsSelfTarget | src/mock.c:73-92 | whether only the main executable is meant |
| ElfHash.Compute | src/plt-elf.c:334-344 | the loop computes the 64-bit hash |
| ElfHash.LowHalfIsGabiHash | src/plt-elf.c:334-344 | after every byte the low half is the gABI accumulator and below 2^28 |
| ElfHash.HashesAgree | src/plt-elf.c:334-344 | the whole value is the gABI hash exactly when none of the last eight characters carried |
| ElfHash.LastCarries | src/plt-elf.c:337-342 | the low d nibbles of the high half are zero exactly when none of the last d characters carried |
| ElfHash.HashCanExceed32Bits | src/plt-elf.c:334-344 | seven bytes that hash to 0x100000002 |
| ElfHash.SyscallHash | src/plt-elf.c:334-344 | both hashes of a name that makes the hash fold |
| SysvTable.Find | src/plt-elf.c:346-364 | walks the chain of one bucket and returns its first symbol of that name |
| SysvTable.LookupWalks | src/plt-elf.c:357-363 | with n buckets and a hash of q * n + b, the lookup yields the first symbol of that name on the walk from bucket b along the chain words |
| SysvTable.FoundWhenBucketsAgree | src/plt-elf.c:346-364 | a name is found exactly when it is defined and both hashes select the same bucket |
| SysvTable.LookupIsLinearScan | src/plt-elf.c:346-364 | with one symbol per name the lookup is the linear scan, but for names whose buckets differ |
| SysvTable.CarryFreeNamesAreFound | src/plt-elf.c:357-363 | a name whose last eight characters do not carry is found exactly when defined |
| SysvTable.CarryingNameIsMissed | src/plt-elf.c:357-363 | a properly built table in which a defined name is missed |
| GnuHash.Compute | src/plt-elf.c:373-380 | the loop computes 5381 * 33^n plus the characters weighted with powers of 33, modulo 2^32 |
| GnuHash.HashOfConcatenation | src/plt-elf.c:373-380 | the hash of a concatenation depends on the prefix only through its hash |
| GnuHash.SyscallHash | src/plt-elf.c:373-380 | the hash of a name that needs all 32 bits |
| GnuTable.Find | src/plt-elf.c:382-407 | returns the lowest hashed symbol of that name; for an absent name NULL, unless the filter lets it pass into an empty bucket, that of the hash modulo the number of buckets |
| GnuTable.RejectedIsAbsent | src/plt-elf.c:391-396 | the filter never rejects a defined name |
| GnuTable.BehindTheTerminator | src/plt-elf.c:403-404 | a chain ends where its bucket ends, inside the table |
| GnuTable.FilterNeverRejects | src/plt-elf.c:391-396 | a filter lets pass every hash that was put into it |
| GnuTable.FilterAsks | src/plt-elf.c:391-396 | which filter word and which two of its bits a hash selects, digit by digit |
| GnuTable.BucketIs | src/plt-elf.c:398 | with n buckets, a hash of q * n + b selects bucket b |
| GnuTable.EmptyBucketIsWalked | src/plt-elf.c:398-399 | a well-formed section and an absent name for which the walk leaves the section |
| RealFunctions.LookupDyn | src/plt-elf.c:409-432 | the GNU index whenever there is one, the SysV index otherwise |
| RealFunctions.GetRealFn | src/plt-elf.c:434-449 | the first module whose lookup yields a symbol of non-zero size decides; the address is the symbol's value plus the load address modulo 2^64 |
| RealFunctions.WalkIsLinearScan | src/plt-elf.c:409-449 | the address is that of the first module in whose linear scan the name has a non-zero size, NULL when there is none; only the indexes up to that module need to be faithful |
| RealFunctions.IndexIsLinearScan | src/plt-elf.c:409-432 | either index answers as the linear scan of its module |
| Transparency.Traversal | src/asm/trampoline-x86_64-systemv.S:41-109 | the routine is entered with all argument, preserved and vector registers, the stack pointer and the caller's stack unchanged, or the caller gets the stub; either way the stub is the context and the question is taken back |
| Transparency.RoutineFinds | src/asm/trampoline-x86_64-systemv.S:41-101 | the same register by register for the routine: all integer and vector arguments, the preserved registers, and the caller's memory |
| Transparency.CallerFinds | src/asm/trampoline-x86_64-systemv.S:41-109 | and for the caller who is answered |
| Transparency.WideArguments | src/asm/trampoline-x86_64-systemv.S:52-94 | when the routine is entered, a 256-bit argument has arrived exactly if the last C routine left the upper half of its register as the caller set it |
| Transparency.OutcomeIsWhatWasAsked | src/asm/trampoline-x86_64-systemv.S:96-97 | the choice is the one that was asked for exactly when a zero answer comes with a clear upper half of rax |
| Transparency.Alignment | src/asm/trampoline-x86_64-systemv.S:69-108 | of the C calls only the first is made on an aligned stack |
| Transparency.CreateTrampoline | src/trampoline.c:84-95 | the two header words lie right in front of the code, and nothing else changes |
| Transparency.CallThrough | src/asm/trampoline-x86_64-systemv.S:41-109 | the processor running the code: the outcome of a traversal, with all memory but the stack unchanged |
| Transparency.AskCtx | src/stub.c:119-123 | called with the question pending, the function returns the stub its header names, with the preserved registers and the stack pointer of a C call |
| Transparency.Inquires | src/asm/trampoline-x86_64-systemv.S:69-78 | both C calls keep the saved registers' stack and leave the answer in r11 |
| Trampoline.SaveAndRestore | src/asm/trampoline-x86_64-systemv.S:52-94 | saving any list of registers, anything that respects the stack, and restoring in the opposite order gives the registers back |
| Trampoline.Listing | src/asm/trampoline-x86_64-systemv.S:79-94 | the registers are restored in exactly the opposite order |
| Trampoline.SavesAll | src/asm/trampoline-x86_64-systemv.S:52-67 | saving lowers the stack pointer by the saved sizes and changes nothing above |
| Trampoline.RunThrough | src/asm/trampoline-x86_64-systemv.S:41-94 | code without jumps is executed from its first to its last instruction |
| Handshake.FlagIsDownWhileCodeRuns | src/stub.c:119-130 | over all nested runs no code runs with a question pending, exactly as long as no reset is given a real function |
| Handshake.RoutinesSeeTheirStub | src/stub.c:132-140 | every routine finds its own stub as the context when it starts |
| Handshake.AskAnswersOwner | src/stub.c:119-123 | after any nested run, asking through a mapped trampoline runs no routine and returns the stub that has this trampoline and is on the list of the mock it names |
| Handshake.ResetTearsDownTheMock | src/core.c:59-68 | after any nested run, a reset through any function of a mock unmaps the trampolines on the mock's list and no other, and runs no code |
| Handshake.AnyFunctionWillDo | src/core.c:59-68 | it does not matter through which of its functions a mock is reset |
| Handshake.DeadFunctionCrashes | src/trampoline.c:98-101 | calling or resetting through a function of a mock that has been reset crashes, and no code runs |
| Handshake.LinksAreKept | src/stub.c:75-116 | over all nested runs headers, stubs and the mocks' lists agree, and no trampoline is both mapped and unmapped |
| Handshake.LastTouchLeavesContext | src/stub.c:132-140 | the context is what the last entered trampoline or the last creation left, over all nested runs |
| Handshake.ContextAfterRoutine | include/mimick.h:53-62 | for every body, the context afterwards is the routine's own stub exactly when the body took no context-touching step or the last one entered this stub |
| Handshake.Thread.Act | src/core.c:59-68 | creation, calls and resets on the thread-local variables follow the model of runs |
| Handshake.Thread.CallFunction | src/asm/trampoline-x86_64-systemv.S:69-109 | entering through a trampoline as the C routines decide it |
| Handshake.Thread.AskCtx | src/stub.c:119-123 | a call with the question pending |
| Vitals.Memcmp | src/vitals.c:31-37 | zero exactly on equal bytes, else the order of the first difference as signed characters |
| Vitals.Memcpy | src/vitals.c:39-45 | copies exactly n bytes |
| Vitals.Strneq | src/vitals.c:47-54 | whether the first n characters of the reference, or all of it when shorter, begin the string |
| Vitals.Streq | src/vitals.c:56-63 | whether the strings are equal |
| Vitals.Strchr | src/vitals.c:65-71 | the first occurrence, never the terminator |
| Vitals.Strlen | src/vitals.c:89-94 | the length |
| Vitals.Strncpy | src/vitals.c:81-87 | at most n characters and the terminator, nothing behind it |
| Vitals.Strcpy | src/vitals.c:73-79 | the string and the terminator, nothing behind it |

## Left out

- Variadic mocks, with their serialisers and parameters stored behind pointers.
- The preprocessor that expands the stub body: the body is modelled for a list of integer parameters of any length.
- Floating-point and structure parameters: parameters are totally ordered values of one to eight bytes.
- Mach-O and PE back ends, other processors' trampolines, and threads running at the same time.
- `r_debug` and `dl_iterate_phdr`, the guess between absolute and relative pointers, library names, and the relocation
  scan: modules, symbol tables, hash sections and the slots a lookup found are inputs, and so are trampoline addresses.
- `mmap`, `mprotect`, cache flushing, failing allocations, the vital functions' bootstrapping and the text of panics;
  a panic is a result.
- Lazy binding by the dynamic linker behind the library's back.
- The struct of a stub that is allocated and freed again within a failing creation, and the errno that creation sets.
- `mmk_reset` of the invalid mock, which does nothing, as a statement of a program.
- User code reached from the stub body: predicates, `.matching` and result pointers give fixed answers during one
  call, and a function given as `.then_call` is reported as called but does not itself use the library.
- The fields of `mmk_mock_ctx` for the log and for the contracts are objects of their own that live as long as the mock.
- Sessions.Thread.Verify: of further mocked calls in one expression only their count and their reading of the freed
  head are modelled, since the session panics; where 2^32 of them go unnoticed, their effects are not.
- Sessions.Thread.When: of several mocked calls in one expression only the count is modelled, since the session panics;
  where 2^32 of them go unnoticed, the contracts they add are not.
- CallLogs.CallLog.RegisterCall: demands that neither the number of calls nor the buffer exceeds a size_t, where the
  program's counters would wrap around.
- Machine: memory is made of whole words at the addresses used, so overlapping unaligned accesses do
  not occur, and a word never written reads as zero.
- Machine: the C routines' code is replaced by their effect on the thread-local words and by
  arbitrary contents of their stack frame and of the registers they need not preserve.
- SysvTable.Find: chains are acyclic, as the format demands; on a circular chain the program does not end.
- GnuTable.Find: what an index outside the chain array makes the program do is a result of its own, not modelled
  further; bit-and with the terminator bit is written with division and remainder.
- Handshake.Thread.Act: after a reset through a function that is not mocked, or a call of an unmapped trampoline, the
  run is not followed.
- Runs.Process.RunProgram: the statements do not end the program in a panic, arguments have the types of their mock,
  malloc and mmap hand out addresses that are not in use, and the caller's stack has room for the trampoline.
- Runs.Process.RunDo: zero comes from `mmk_ctx_asked` with a clear upper half of rax; without that the trampoline
  answers a call nobody asked about.
