# WHUSP verification

A Dafny model of the parts of the WHUSP kernel and its host scripts whose
correctness is hardest to see by reading: the lock-free SMP protocols, the
hand-written fast paths, and the pairs of programs that must understand each
other's output.  `dafny verify dfyconfig.toml` checks everything.

**SMP protocols** (`os/src/cpu.rs`, `os/src/shutdown.rs`).  Each protocol is a
state machine over any number of CPUs; a label is one atomic operation of one
CPU, so a run is an interleaving.  `Enabled`/`Apply` give the steps, `Leads` the
runs, and every theorem quantifies over all runs.

- `Rendezvous*.dfy`: the remote barrier rendezvous.  `Rendezvous` is the code,
  `RendezvousInvariant` and `RendezvousSteps` the invariant and its
  preservation, `RendezvousSafety` ownership, assertions and fences,
  `RendezvousResults` the returned errors, `RendezvousOnce` and
  `RendezvousCounts` what happens how often, `RendezvousWakeup` the coalesced IPIs and the targets they can strand,
  `RendezvousLiveness` the measure and deadlock freedom, `RendezvousTermination`
  which fair runs finish.  Interrupts may nest in the polling loop, be spurious,
  and be rejected by `send_ipi`.
- `BringUp.dfy`, `BringUpOutcome.dfy`: secondary start, and how it ends.
- `Shutdown.dfy`, `ShutdownReport.dfy`: shutdown election, and what the leader's
  report says of the run.
- `NeedResched.dfy`, `NeedReschedCounts.dfy`: preemption requests and what their
  counters count.
- `CpuMask.dfy` over `Bits.dfy`: mask words are sets.  The protocol modules work
  on `set<nat>` and do not import it; it is the refinement that licenses them.
- `TlbElision.dfy`: the per-CPU return-flush elision, with a ghost TLB.

**Fast forms.** `VdsoTime.dfy` (64-bit clock arithmetic against the kernel's
128-bit conversion), `SysvHash.dfy`, `VdsoImage.dfy`, `VdsoFields.dfy` and
`VdsoBuild.dfy` (the ELF page, every word of it, its in-place construction, and an
ELF loader's lookup), `Memset.dfy`, `Random.dfy`.

**Producer and consumer.** `SdManifest.dfy`, `SdPrepare.dfy`, `SdChunks.dfy`,
`SdFlash.dfy` (image chunks, manifest, card), `PerfText.dfy`, `PerfPoints.dfy`, `PerfParser.dfy`, `PerfRoundTrip.dfy`,
`PerfPair.dfy`, `PerfSnapshot.dfy`, `PerfFigures.dfy` (`/proc/kperf` and its host parser, then both end to end),
`ShellQuote.dfy` (generated command lines).
`Bytes.dfy`, `Numerals.dfy`, `Quotients.dfy` and `Common.dfy` hold what several modules share.

Findings, stated as theorems:

- The rendezvous' failure rollback can strand another source: if source B
  coalesces on source A's IPI and `send_ipi` rejects that IPI, B stays pending
  on an idle target that nothing is left to wake, and its submission never
  returns (`LostWakeupExample`, `LostWakeupIsForever`).
- That is the only way to wait forever: a fair run, rejected IPIs included,
  finishes every submission if and only if it reaches no state with a stranded
  target (`FinishesExactly`), and `StrandsExactly` says which steps strand one.
  `WithdrawalLosesExactly` says exactly when a rollback takes the last wakeup away.
- A secondary that is refused before the boot CPU asks for it is forgotten: the
  request overwrites the failure mark and the gate opens (`RefusalForgotten`).
  `RefusalDooms` says exactly when a refusal is final; then the gate never opens
  and the boot CPU panics (`GateNeverOpens`, `DoomedPanics`).
- The vDSO clock is exact for every tick count if and only if the frequency is at
  most 18446744074 Hz (`ExactFrequencies`).
- `begin(true)` is reported exactly when it precedes the leader's load of the
  failure flag; a later one is not (`FailureIsNotLost`).

## Model

| member | source | states |
|---|---|---|
| RendezvousSafety.Always | os/src/cpu.rs:881-1019 | the protocol invariant holds in every state of every interleaving |
| RendezvousSafety.OwnershipLaw | os/src/cpu.rs:900-1018 | a target is in a source's remaining mask exactly when the pair is being inserted, pending, claimed by one handler activation, or being rolled back, and never two of these at once |
| RendezvousSafety.AssertionsHold | os/src/cpu.rs:881-1019 | none of the protocol's assertions (active, stale sequence, invalid action, already pending, already completed) can fire; only bad arguments, the deadline and a wrapped sequence stop a CPU |
| RendezvousSafety.SubmitAssertionsTrue | os/src/cpu.rs:900-945 | in every reachable state the condition of each assertion of the submission is true when it is evaluated |
| RendezvousSafety.HandlerAssertionsTrue | os/src/cpu.rs:994-1017 | likewise for the handler: not its own request, active, a newer sequence number, a valid action, still waiting for it |
| RendezvousSafety.IndicesInRange | os/src/cpu.rs:916-1018 | the CPU loops never index outside the request and mask arrays |
| RendezvousSafety.ReturnMeansFenced | os/src/cpu.rs:900-950 | after Ok every target ran the requested barrier for this sequence number between publication and return; after Err every target before the failing one did |
| RendezvousSafety.IdleLeavesNoTrace | os/src/cpu.rs:900-950 | after a submission returns, no remaining mask, pending mask or handler mentions it and its action is cleared |
| RendezvousSafety.FencesOnlyInWindow | os/src/cpu.rs:982-1017 | sequence numbers of one source strictly increase and a barrier is only ever run for a published, unreturned submission that names the target, an instruction barrier only if it was asked for |
| RendezvousResults.ErrExactly | os/src/cpu.rs:916-950 | a submission returns an error from a target if and only if `send_ipi` rejected that target with that error while this submission was sending to it |
| RendezvousResults.AcceptedReturnsOk | os/src/cpu.rs:916-950 | while every IPI is accepted every submission returns Ok and every one of its targets ran the barrier |
| RendezvousOnce.FencedOnce | os/src/cpu.rs:982-1017 | no target runs the same barrier twice for one submission |
| RendezvousCounts.SubmissionsAreNumbered | os/src/cpu.rs:881-914 | the k-th submission of a CPU has sequence number k, a valid action, and a non-empty set of online targets without the caller |
| RendezvousCounts.OneIpiPerFill | os/src/cpu.rs:925-933 | over every run, each time a pending mask becomes non-empty exactly one `send_ipi` follows or is still due; coalesced sources send none |
| RendezvousCounts.SettledIpis | os/src/cpu.rs:925-933 | once all submissions have returned, the IPIs sent to a CPU are exactly the times its mask was filled |
| RendezvousCounts.StopsExactly | os/src/cpu.rs:881-1019 | in every reachable state a step stops its CPU exactly on an invalid action, an offline target, itself as target, the deadline, or sequence number 2^64, and with that reason |
| RendezvousWakeup.OnlyWithdrawalLoses | os/src/cpu.rs:916-980 | every step but the rollback's removal keeps a pending mask covered by an IPI, a draining handler or a source about to send |
| RendezvousWakeup.WithdrawalLosesExactly | os/src/cpu.rs:932-943 | the rollback keeps the mask answered for if and only if it empties the mask, the target is already being woken, or another source is still to send to the target or to withdraw from it |
| RendezvousWakeup.NoLostWakeup | os/src/cpu.rs:916-980 | while no IPI is rejected, a non-empty pending mask always has a wakeup under way |
| RendezvousWakeup.StrandsExactly | os/src/cpu.rs:916-980 | a step leaves a target stranded (idle, with sources pending, no IPI, no handler and no source answering for it) if and only if it was, or the step withdraws the last answer for a mask others still wait in, or the target returns from its own call under such a mask |
| RendezvousWakeup.StrandedStays | os/src/cpu.rs:916-1018 | no step of the protocol frees a stranded target or a source waiting for it |
| RendezvousWakeup.LostWakeupExample | os/src/cpu.rs:932-943 | a concrete run of three CPUs in which a rejected IPI strands a coalesced source |
| RendezvousLiveness.ProgressFalls | os/src/cpu.rs:881-1019 | every non-spinning step, rejected sends and rollbacks included, lowers a lexicographic measure of outstanding insertions, IPIs, pending and claimed pairs |
| RendezvousLiveness.SpinKeeps | os/src/cpu.rs:952-971 | a turn of an idle wait loop leaves that measure unchanged |
| RendezvousLiveness.DeadlockFree | os/src/cpu.rs:929-1018 | unless everything is finished some CPU has a non-spinning step, even if all busy CPUs mask interrupts, or some target is stranded |
| RendezvousLiveness.NoDeadlock | os/src/cpu.rs:929-1018 | in every reachable unfinished state without a stranded target, whatever was rejected before, some CPU has a step that lowers the measure or stops it with a wrapped sequence number |
| RendezvousLiveness.ProgressPersists | os/src/cpu.rs:929-1018 | another CPU can take a CPU's next progress step away only by withdrawing as the last source of its mask |
| RendezvousTermination.FinishesExactly | os/src/cpu.rs:881-1019 | from every reachable state, once no new submission starts, a fair run, rejected IPIs included, reaches a state where all have returned if and only if no state of it has a stranded target |
| RendezvousTermination.StrandedForever | os/src/cpu.rs:929-980 | in such a run a source pending on a stranded target stays so at every later time and never returns |
| RendezvousTermination.EverySubmissionFinishes | os/src/cpu.rs:881-1019 | every fair run in which no withdrawal leaves a mask unanswered, before or during, finishes all submissions |
| RendezvousTermination.AcceptedRunsFinish | os/src/cpu.rs:881-1019 | in particular every fair run in which all IPIs are accepted |
| RendezvousTermination.LostWakeupIsForever | os/src/cpu.rs:929-980 | however the CPUs go on after the run of `LostWakeupExample`, the coalesced submission never returns |
| CpuMask.UnionOfWords | os/src/cpu.rs:217-225 | or-ing mask words is set union |
| CpuMask.DifferenceOfWords | os/src/cpu.rs:192-195 | and-not of mask words is set difference |
| CpuMask.ZeroIsEmpty | os/src/cpu.rs:157-182 | a zero word is exactly the empty set |
| CpuMask.EqualWords | os/src/cpu.rs:153-182 | words are equal exactly when their sets are |
| CpuMask.SubsetByDifference | os/src/cpu.rs:886-890 | the offline-target test on words is set inclusion |
| CpuMask.SubsetByIntersection | os/src/shutdown.rs:60-61 | the all-stopped test on words is set inclusion |
| CpuMask.SingleIsSingleton | os/src/cpu.rs:171-174 | `single` is the one-element set |
| CpuMask.ContainsIsMembership | os/src/cpu.rs:184-186 | `contains` is membership, for every id including those that do not fit |
| CpuMask.FirstIsInterval | os/src/cpu.rs:161-169 | `first(count)` is the interval of the first CPUs, cut at 64 |
| CpuMask.RemoveIsDifference | os/src/cpu.rs:192-195 | `remove` takes exactly one CPU out |
| CpuMask.CountIsCardinality | os/src/cpu.rs:188-190 | `count` is the cardinality |
| CpuMask.AtomicCpuMask.Swap | os/src/cpu.rs:213-215 | returns the old set and installs the new one |
| CpuMask.AtomicCpuMask.FetchInsert | os/src/cpu.rs:222-225 | returns the old set and adds one CPU |
| CpuMask.AtomicCpuMask.FetchRemove | os/src/cpu.rs:232-235 | returns the old set and removes one CPU |
| BringUp.Discover | os/src/cpu.rs:254-290 | the topology is a duplicate-free permutation of the compatible ids with the boot hart in slot 0; refused exactly on duplicates, none, too many, or an absent boot hart |
| BringUp.OneHartPerId | os/src/cpu.rs:601-634 | over all runs, harts entering twice or with wrong ids included, at most one entry per logical id passes and it has the topology's hardware id |
| BringUp.NobodyRunsEarly | os/src/cpu.rs:636-666 | no secondary runs tasks before the gate is open and every possible CPU has been published online by its own entry |
| BringUp.GateStaysClosed | os/src/cpu.rs:648-666 | whenever the gate is open every possible CPU is online |
| BringUp.EntryPanics | os/src/cpu.rs:517-646 | the CPU-local block is never installed twice, and the publication assertion fires only after a refused duplicate or a boot-side panic |
| BringUpOutcome.InstallsOnce | os/src/cpu.rs:517-538 | whenever an entry comes to install its CPU-local block the block is free |
| BringUpOutcome.EveryoneComesUp | os/src/cpu.rs:601-666 | for every topology there is a run in which every secondary runs tasks under its own ids |
| BringUpOutcome.EveryTopologyStarts | os/src/cpu.rs:254-290 | the protocol starts from every duplicate-free topology of 1 to 12 CPUs |
| BringUpOutcome.ReadyOpens | os/src/cpu.rs:1055-1079 | once all possible CPUs are online and none is marked failed, every step of the boot CPU before the deadline brings it closer to opening the gate, and the last one opens it |
| BringUpOutcome.BootGivesUp | os/src/cpu.rs:1021-1092 | the boot CPU gives up exactly when the firmware refuses a start, it sees a CPU marked failed, or the deadline has passed |
| BringUpOutcome.DeadlineMarks | os/src/cpu.rs:1073-1082 | after the deadline exactly the CPUs missing from the last look are marked failed, then it panics |
| BringUpOutcome.RefusalDooms | os/src/cpu.rs:601-634 | a refusal is final if and only if its CPU was asked, is not online, and no entry for it is past the state check |
| BringUpOutcome.GateNeverOpens | os/src/cpu.rs:1055-1079 | after a final refusal the gate stays closed and no secondary runs tasks in any continuation |
| BringUpOutcome.DoomedPanics | os/src/cpu.rs:1055-1079 | after a final refusal each step of the boot CPU brings it closer to its panic, and nobody else moves it |
| BringUpOutcome.RefusalForgotten | os/src/cpu.rs:601-634 | a run in which a refused id comes up all the same, because the boot CPU asked for it afterwards |
| Shutdown.OneLeader | os/src/shutdown.rs:33-72 | at most one CPU is ever elected, once, it never parks, and the leader word names it |
| Shutdown.PhaseOnlyAdvances | os/src/shutdown.rs:21-87 | the phase only moves running, stopping, resetting; the online and stopped masks only grow; failure flag and leader stay |
| Shutdown.StoppedForGood | os/src/shutdown.rs:25-31 | a CPU in the stopped mask is parked and has no further step |
| Shutdown.ReportIsAccurate | os/src/shutdown.rs:74-87 | stopped and missing partition the requested CPUs, only parked CPUs count as stopped, and the failure flag is the loaded one |
| Shutdown.FailureIsNotLost | os/src/shutdown.rs:33-87 | the leader reports failure if and only if some `begin(true)` came before its load |
| ShutdownReport.LeaderWaits | os/src/shutdown.rs:47-87 | the reported CPUs are the online ones at the leader's load without the leader, each was sent a stop, stopped and missing are what its last look found, and it stopped looking only because nobody was missing or the deadline had passed |
| ShutdownReport.OnlyRequestedAreStopped | os/src/shutdown.rs:51-55 | stop interrupts go to requested CPUs only |
| ShutdownReport.LooksUntil | os/src/shutdown.rs:59-70 | the leader keeps looking exactly while somebody is missing and the deadline has not passed |
| ShutdownReport.ResetAsReported | os/src/shutdown.rs:74-87 | the flag handed to the firmware is the reported one |
| ShutdownReport.LateCall | os/src/shutdown.rs:33-44 | a call after the election never leads: the leader goes to the raw reset, any other CPU parks in the stopped mask, and its failure is kept |
| ShutdownReport.PollParks | os/src/shutdown.rs:20-31 | an interrupted CPU parks in the stopped mask once the phase has left running, and goes on undisturbed before |
| ShutdownReport.CleanShutdown | os/src/shutdown.rs:33-91 | any CPU can lead a shutdown whose report has nobody missing and the caller's failure flag |
| NeedResched.Conservation | os/src/cpu.rs:696-871 | in every reachable state sets plus sets in flight are consumed plus consumes in flight plus raised flags; requests split into sets and coalesced; IPIs never exceed sets |
| NeedResched.SettledConservation | os/src/perf.rs:1757-1777 | once all calls have returned the counters alone balance |
| NeedReschedCounts.PreemptsExactly | os/src/cpu.rs:686-694 | a wake preempts if and only if its priority is above the current task's, none counting as 0 |
| NeedReschedCounts.UrgentWakeSetsFlag | os/src/cpu.rs:696-705 | a wake above the current priority sets exactly its CPU's flag |
| NeedReschedCounts.QuietWake | os/src/cpu.rs:696-705 | any other wake changes nothing but the check counter |
| NeedReschedCounts.FlagIsBalance | os/src/cpu.rs:696-871 | per CPU and over every run, the wakes that found the flag clear are the takes that found it set, plus one if it is raised now |
| NeedReschedCounts.CountersAreExact | os/src/perf.rs:1757-1777 | at every moment each counter plus the events it has yet to count are exactly the events of the run so far |
| NeedReschedCounts.SettledCounters | os/src/perf.rs:1757-1777 | once all calls have returned: checks are wakes, requests the outranking ones, sets and coalesced the flags found clear and set, IPIs the flags raised on another CPU, consumed the flags taken |
| NeedReschedCounts.InterruptsRaised | os/src/cpu.rs:707-731 | every flag raised on another CPU is followed by exactly one `send_ipi` to that CPU, sent or still owed |
| NeedReschedCounts.RejectionPanics | os/src/cpu.rs:714-724 | only a rejected IPI panics, after withdrawing the flag it was to announce |
| TlbElision.CpuMmuFastState.ObserveAddressSpace | os/src/cpu.rs:77-89 | what an observation leaves in the fields, and exactly when its assertion fires |
| TlbElision.CpuMmuFastState.SwapLastReturnUserToken | os/src/cpu.rs:65-67 | returns the previous token and installs the new one |
| TlbElision.CpuMmuFastState.TakeReturnTlbDirty | os/src/cpu.rs:69-71 | returns and clears the dirty flag |
| TlbElision.CpuMmuFastState.InstructionBarrierRequired | os/src/cpu.rs:91-104 | false exactly when the previous check named the same pair |
| TlbElision.ElisionIsExact | os/src/cpu.rs:69-89 | over every legal call sequence a take returns false if and only if some earlier take was followed by no mark and no new observation |
| TlbElision.CleanMeansFresh | os/src/cpu.rs:65-89 | while clean, the TLB holds only translations of the observed space and generation |
| TlbElision.NoStaleTranslation | os/src/cpu.rs:65-89 | after every take, flushed or elided, no translation of another space or older generation is left |
| TlbElision.RegressionWouldBeStale | os/src/cpu.rs:82-88 | without the generation assertion a regressed generation would be served stale |
| TlbElision.BarrierSkippedExactly | os/src/cpu.rs:91-104 | after every sequence of calls the instruction check answers no barrier if and only if the check before it named the same pair |
| TlbElision.SkippedBarrierWasRun | os/src/cpu.rs:91-104 | a skipped barrier was required by an earlier check of the pair, and no other pair was checked since |
| VdsoTime.ClockGettime | os/src/vdso.rs:48-97 | ids 1, 4, 6, 7 answer the kernel nanoseconds, ids 0 and 5 these plus the wall offset modulo 2^64, normalised, for every frequency up to 18446744074 Hz; every other id and frequency 0 answer -38 |
| VdsoTime.GettimeofdayRiscv | os/src/vdso.rs:106-144 | the inlined RISC-V sequence stores the wall time in whole microseconds, clears the zone when asked, and fails with -38 and no store at frequency 0 |
| VdsoTime.GettimeofdayLoongarch | os/src/vdso.rs:637-664 | so does the LoongArch call and divide, for the same inputs |
| VdsoTime.ExactIffNoOverflow | os/src/vdso.rs:66-97 | the 64-bit divide, remainder and multiply give the kernel's 128-bit nanoseconds if and only if the remainder product fits 64 bits |
| VdsoTime.ExactFrequencies | os/src/vdso.rs:66-97 | exact for every tick count up to 18446744074 Hz, and wrong for some tick count above |
| VdsoTime.MonotonicClockIsExact | os/src/perf.rs:1507-1513 | a normalised timespec equal to the kernel's conversion |
| VdsoTime.MonotonicClockNeverRunsBack | os/src/vdso.rs:596-629 | later ticks never give an earlier time |
| VdsoTime.RealtimeClockIsExact | os/src/vdso.rs:66-97 | REALTIME is kernel nanoseconds plus wall offset, modulo 2^64 |
| VdsoTime.GettimeofdayIsTruncatedRealtime | os/src/vdso.rs:109-143 | the specification of both is the 64-bit wall time in whole microseconds, split at the second |
| SysvHash.ComputeElfHash | os/src/vdso.rs:513-524 | the loop computes the hash as defined by arithmetic, a value below 2^28 |
| SysvHash.HashRound | os/src/vdso.rs:516-521 | the register operations of a round are: shift in a byte, add the top nibble to digits 4 to 7, drop it |
| SysvHash.RiscvVersionHash | os/src/vdso.rs:496-524 | LINUX_4.15 hashes to 0xae77f75 |
| SysvHash.LoongarchVersionHash | os/src/vdso.rs:496-524 | LINUX_5.10 hashes to 0xae78f70 |
| VdsoImage.AlignUpIsMask | os/src/vdso.rs:427-429 | the mask expression is the next multiple, for powers of two |
| VdsoImage.LayoutValues | os/src/vdso.rs:404-425 | the offsets computed for a ten-character version name |
| VdsoImage.PartOffsets | os/src/vdso.rs:200-321 | all tables, strings and code are disjoint, in order, inside the page, at the offsets the tables refer to |
| VdsoImage.LookupFindsExactly | os/src/vdso.rs:200-321 | for every name and version, following program headers, dynamic section, hash chain, symbols and versions of a built image terminates and answers the matching routine's address and size, and nothing else |
| VdsoFields.HeaderFields | os/src/vdso.rs:431-443 | every field of the ELF header of a built image, as numbers |
| VdsoFields.SegmentFields | os/src/vdso.rs:234-256 | kind, flags, offsets, sizes and alignment of the two program headers, as numbers |
| VdsoFields.DynamicFields | os/src/vdso.rs:257-271 | tag and value of each of the nine dynamic entries, as numbers |
| VdsoFields.ChainFields | os/src/vdso.rs:477-485 | the seven words of the hash table |
| VdsoFields.SymbolFields | os/src/vdso.rs:272-293 | name, kind, section, address and size of every symbol |
| VdsoFields.VersionFields | os/src/vdso.rs:294-298 | version indices and definition, with the hash of the version's name |
| VdsoFields.CodeBytes | os/src/vdso.rs:311-321 | behind the tables stands the code, unchanged but for its two data words, then zeros |
| VdsoFields.NamesAreText | os/src/vdso.rs:31-34 | the exported names and versions, as text |
| VdsoImage.DataWords | os/src/vdso.rs:311-321 | the routines' data words hold the frequency and the wall offset |
| VdsoImage.PatchIsRebuild | os/src/vdso.rs:386-394 | storing a new wall offset equals rebuilding the image with it |
| VdsoBuild.WriteElfHeader | os/src/vdso.rs:431-443 | leaves the ELF header's bytes |
| VdsoBuild.WriteProgramHeader | os/src/vdso.rs:449-467 | appends a program header's bytes |
| VdsoBuild.WriteDynamicEntries | os/src/vdso.rs:469-475 | appends the tag and value pairs |
| VdsoBuild.WriteSysvHash | os/src/vdso.rs:477-485 | appends the hash table |
| VdsoBuild.WriteSymbol | os/src/vdso.rs:487-494 | appends a symbol |
| VdsoBuild.WriteVersionDef | os/src/vdso.rs:496-506 | appends the version definition |
| VdsoBuild.BuildImage | os/src/vdso.rs:200-321 | refuses exactly the code that does not fit, else fills a fresh page with the specified image |
| VdsoBuild.PatchVdsoU64 | os/src/mm/memory_set.rs:256-282 | refuses exactly when the word leaves the mapping or the mapping is not R, X, U and not W, panics exactly when an unaligned start splits the word over two pages, else stores it; otherwise nothing changes |
| VdsoBuild.PatchWallTimeOffset | os/src/vdso.rs:386-394 | a patched image is the image built with the new offset |
| Memset.Memset | os/src/memops.rs:15-56 | for every address, length and value exactly `[dest, dest+len)` is filled, by ascending stores that touch each byte once, word stores aligned |
| Random.MixIsBijection | os/src/random.rs:7-13 | `mix64` has a two-sided inverse on 64-bit words |
| Random.FirstWordsRepeat | os/src/random.rs:29-36 | two requests start with the same eight bytes if and only if a multiple of 2^64 requests separates them |
| Random.KnownFirstWord | os/src/random.rs:7-36 | the first request after boot starts with the word 0x910a2dec89025cc1 |
| Random.StreamWordsRepeat | os/src/random.rs:38-42 | a stream's word recurs if and only if a multiple of 2^64 advances separates the two |
| Random.TakeReads | os/src/random.rs:38-69 | byte-at-a-time drawing reads the closed form: the word in hand, then the mixed states |
| Random.SegmentIndependence | os/src/random.rs:44-69 | filling consecutive segments gives the bytes and final position of one fill |
| Random.CompatibilityRandom.constructor | os/src/random.rs:28-36 | takes the next sequence number and starts at its first word |
| Random.CompatibilityRandom.Fill | os/src/random.rs:46-69 | word and byte copies together equal byte-at-a-time drawing, the counts sum to the length, and the word count is every whole word after the first boundary |
| SdManifest.ManifestRoundTrip | scripts/prepare_starfive_sd_image.py:318-373 | the JSON value built for a manifest decodes to the same manifest |
| SdManifest.NamesGrow | scripts/flash_starfive_sd.py:22 | the safe file names are one letter or digit followed by letters, digits, dots, underscores and dashes |
| SdManifest.ValidateManifest | scripts/flash_starfive_sd.py:59-138 | accepts exactly the manifests whose fields, names, offsets, sizes and digests are sound |
| SdPrepare.ReadChunk | scripts/prepare_starfive_sd_image.py:291-302 | whatever short reads occur, a chunk is full or ends the image |
| SdPrepare.PrepareImage | scripts/prepare_starfive_sd_image.py:241-379 | for any pattern of short reads the chunks are the image cut every chunk size; refused exactly on bad arguments, an empty or unaligned image, or an oversized chunk |
| SdPrepare.FileNameInjective | scripts/prepare_starfive_sd_image.py:280 | chunk file names are distinct for distinct indices, beyond three digits too |
| SdPrepare.SplitTiles | scripts/prepare_starfive_sd_image.py:275-343 | the pieces concatenate to the image and are whole blocks |
| SdPrepare.EmittedIsAccepted | scripts/flash_starfive_sd.py:81-138 | every manifest the preparer emits is accepted by the validator |
| SdChunks.PiecesAre | scripts/prepare_starfive_sd_image.py:275-343 | chunk i is the image from i times the chunk size to the next cut or the end |
| SdChunks.PieceCount | scripts/prepare_starfive_sd_image.py:275-343 | there are exactly the chunks that start inside the image |
| SdChunks.EmittedHead | scripts/prepare_starfive_sd_image.py:345-373 | schema, image size, image digest, block size and limit of an emitted manifest, under their JSON keys |
| SdChunks.EmittedChunk | scripts/prepare_starfive_sd_image.py:318-331 | every field of every emitted chunk, raw and compressed digests told apart, under its JSON key |
| SdChunks.VerifyLocalChunks | scripts/flash_starfive_sd.py:147-168 | passes exactly when every file is present with the recorded size, gzip header and compressed digest |
| SdChunks.PreparedVerifies | scripts/flash_starfive_sd.py:147-168 | the files the preparer writes pass |
| SdFlash.BuildFlashPlan | scripts/flash_starfive_sd.py:222-231 | per chunk a download of its file, a header dump and a write to the selected device, whose hexadecimal ranges read back as the chunk's extent |
| SdFlash.ExtentsDisjoint | scripts/flash_starfive_sd.py:81-138 | an accepted manifest's writes ascend and do not overlap |
| SdFlash.CoverExactly | scripts/flash_starfive_sd.py:81-138 | an address is written if and only if it is below the image size |
| SdFlash.FlashChunk | scripts/flash_starfive_sd.py:234-366 | succeeds exactly when the file is present, of the right size, starts with the gzip magic, and its raw size and CRC match; the card then holds the raw chunk at its offset |
| SdFlash.Flash | scripts/flash_starfive_sd.py:351-375 | on success the card starts with the decompressed chunks; in every case bytes beyond the image are untouched |
| SdFlash.FlashedIsSource | scripts/flash_starfive_sd.py:351-375 | every prepared file passes the flash tests, and the decompressed files in order are the source image |
| SdFlash.PrepareThenFlash | scripts/flash_starfive_sd.py:351-375 | prepare, validate, verify, flash: the card holds the source image at its start and its old contents behind, exactly when the preparer accepts; otherwise it is unchanged |
| PerfText.LineRoundTrip | scripts/run_rust_hello_bench.py:108 | a printed line is read back as its key and value |
| PerfText.SyscallKeyRoundTrip | scripts/run_rust_hello_bench.py:109-112 | a printed syscall key is read back as its id and metric |
| PerfText.AppendTimingStats | os/src/perf.rs:1515-1573 | appends the timing entries: all points, the sentinel, and the system calls that were made |
| PerfParser.CheckGroups | scripts/run_rust_hello_bench.py:478-529 | reports no error if and only if the syscall keys are one block of ascending five-metric groups right behind the sentinel, and returns their ids |
| PerfParser.CheckRequired | scripts/run_rust_hello_bench.py:464-470 | no error exactly when all required keys are present and in order |
| PerfParser.ParsePerfSnapshot | scripts/run_rust_hello_bench.py:437-541 | line errors exactly on no, too many, long, malformed or repeated lines; well-formed lines are recovered in order; required-key, switch and group errors exactly as specified |
| PerfRoundTrip.MistakenExactly | scripts/run_rust_hello_bench.py:109-112 | a point's key is taken for a syscall key if and only if its name is `syscall_` and digits |
| PerfRoundTrip.DispatchIsNotAGroup | os/src/perf.rs:1345-1346 | the dispatcher's keys are not syscall keys |
| PerfRoundTrip.PrintedSnapshotParses | os/src/perf.rs:1515-1573 | for every counter state all printed lines are well formed and distinct, the groups are the calls made, and the only possible line error is their number |
| PerfRoundTrip.ValuesRecovered | scripts/run_rust_hello_bench.py:437-464 | parsing well-formed printed lines recovers every key in order and every value |
| PerfRoundTrip.GroupsOnlyGrow | scripts/run_rust_hello_bench.py:560-561 | with growing counters no syscall group is lost between two snapshots |
| PerfPair.ComparePair | scripts/run_rust_hello_bench.py:547-561 | no error exactly when the other keys agree in order and every earlier group is still there |
| PerfPair.PrintedPairAgrees | scripts/run_rust_hello_bench.py:547-561 | two printed snapshots of growing counters print the same other keys and keep every earlier group |
| PerfPoints.PointNamesFit | os/src/perf.rs:1345-1400 | the kernel's 54 point names are printable, short, pairwise distinct, and none is `syscall_` and digits |
| PerfSnapshot.EnabledExactly | scripts/run_rust_hello_bench.py:471-477 | of the three switches only `perf_counters_enabled` depends on the other sections |
| PerfSnapshot.RequiredExactly | scripts/run_rust_hello_bench.py:464-470 | whether the required keys are present and in order does not depend on which calls were made |
| PerfSnapshot.ParsePrinted | scripts/run_rust_hello_bench.py:437-541 | what the parser returns on a printed snapshot: exactly the printed keys and values, the ids of the calls made, no group error, a line error exactly above 4096 lines |
| PerfSnapshot.ComparePrinted | scripts/run_rust_hello_bench.py:547-561 | two printed snapshots of growing counters, parsed and compared, give no key or group error |
| PerfSnapshot.KernelTableIsPrintable | os/src/perf.rs:1345-1400 | with the kernel's own point table the only assumptions left are on the counters' range and the other sections' lines |
| PerfFigures.FiguresMean | os/src/perf.rs:1499-1533 | calls and ticks as counted; total, average and longest time are ticks times 10^6 or 10^9 over the frequency (and calls), rounded down once; zero without a clock |
| PerfFigures.PointTells | scripts/run_rust_hello_bench.py:437-464 | a parsed snapshot holds those figures of every general point under its name |
| PerfFigures.SyscallTells | scripts/run_rust_hello_bench.py:437-464 | and of every system call made, under its number |
| ShellQuote.RoundTrip | scripts/export_preliminary_contest_case_scripts.py:281-282 | a POSIX shell reads exactly the rendered argument list, without expansion, split or merge, if and only if no argument holds a NUL |
| ShellQuote.StaticCommandReads | scripts/export_preliminary_contest_case_scripts.py:873-900 | the shell reads the LTP command line as the case's arguments, the program name as given if it has a slash and behind `./` otherwise |

## Left out

- Weak memory: every atomic operation is one sequentially consistent step; `Ordering` arguments and cache-line layout are not modelled.
- `send_ipi`, barriers, CSR and SBI calls are abstract steps; an IPI is one bit per target, cleared on interrupt entry.
- Deadlines are nondeterministic exits; wall-clock time is a parameter.
- RendezvousTermination.FinishesExactly: the runs judged start no new submission and receive no IPI for another purpose; either could revive a stranded target.  The safety theorems allow both.
- Idle detection, run queues and `remote_wake_pending`: their other half lies outside the modelled files.
- The activation and online guards in front of a scheduler wake, and wakes of idle CPUs without a priority: one test each.
- `startup_error` codes and boot logging: values stored for a message.
- The boolean result of `handle_remote_sync_ipi`: whether anything was pending.
- Device-tree string parsing: the list of compatible hart ids is an input.
- VdsoImage.LookupFindsExactly: the assembler's routine extents are a parameter constrained by `WellFormed` (extents inside the code, two disjoint data words, a ten-character version name as both architectures use).
- `clock_getres` arithmetic and the assembly's register saves: straight-line constants.
- The page-table walk before `patch_vdso_u64`: its result is a parameter.
- gzip, SHA-256 and CRC-32 are functions known by their laws; streaming digests are taken over the accumulated bytes, and the preparer's own re-verification of a chunk cannot fail under those laws.
- Manifest fields the validator does not read (creation time, source, compressor), existing-file checks and removal of partial files.
- U-Boot, TFTP and serial sessions: `gzwrite` is modelled as decompressing and storing at most the given size at the given offset.
- SdManifest.ManifestRoundTrip: does not model the JSON text, which Python's json library writes and reads.
- ShellQuote.StaticCommandReads: does not model the `LD_PRELOAD="..."` assignment put before the RISC-V musl splice07 command, which needs parameter expansion.
- PerfRoundTrip.PrintedSnapshotParses: the other sections' fixed lines are parameters required to be well formed, distinct and neither syscall nor point keys.
- The block-mode and counter-delta checks behind the pair comparison of scripts/run_rust_hello_bench.py: comparisons of single recovered values.
- The remaining counters of `os/src/perf.rs`, console, logging, configuration and the C shims: no property beyond their bodies.
