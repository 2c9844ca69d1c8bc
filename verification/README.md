# Verified model of the substrate kernel and its framework

A Dafny model of the run scheduler of `MemoryKernel`, of the ledger and stores
around it, and of the framework layer above it (cuts and resumption, memoised
steps, the drive loop). The Rust SDK is the one modelled. Check the whole
project with `dafny verify dfyconfig.toml`.

## What is modelled

A *run* works through an acyclic *assembly* of nodes. Callers claim ready work
units under leases, renew, fail or commit them; the kernel reaps expired leases,
bounds attempts and steps, detects stalls and closes the run. Nodes fire once,
once per key or once per delivery. Every call appends to one ledger.

Each call on the kernel is one atomic step; the clock is a parameter.

| layer | modules |
|---|---|
| messages, names, byte order | `Base`, `Types`, `Strings` |
| one run | `Scheduler` (what each call does), `Moves` (calls as sequences of small moves), `Safety`, `Accounting`, `Termination`, `NoStall`, `Provenance`, `Deliveries`, `Leases`, `Keys`, `Claims`, `Commits`, `Evaluator`, `Convergence` |
| start-up checks | `Assemblies` (what is demanded), `Validation` (the loops and the depth-first search), `Blueprints` (the demands place by place) |
| the kernel | `Kernel` (all calls as functions), `Memory` (class `MemoryKernel`, in place), `KernelRuns`, `Histories`, `Quotas`, `Limits`, `Closing`, `Starts`, `Injections`, `Registry`, `Integrity`, `Replay`, `Forgery`, `Reconstruction` |
| bytes and hashes | `Encoding`, `Canonical`, `Identity`, `Chain`, `Naming`, `Layouts` (known answers for each layout) |
| cuts | `Cut`, `Materialization`, `Seeds`, `CutMeaning`, `Resumption`, `CutValidity` |
| the host | `Policies`, `Memo`, `Steps`, `Driving`, `Traces`, `Waves`, `Outlook`, `Records`, `Hosting` (class `Host`), `Pipelines` |
| small pipelines that meet the premises of the theorems | `Example` (one node: runs, convergence, hosting, memo transparency, a stale holder), `Relay` (two nodes in a row that fire on every delivery: deliveries, typing, cuts, resumption), `Race` (two nodes side by side: a drive that errs, foreseen to; a pipeline started by policy) |

What each call does is also said without the functions that compute it, in terms of
ports, limits, places in a list and the request that was made: what makes a unit
(`Keys`), what a claim hands out (`Claims`), which commits are accepted (`Commits`),
that limits are those asked for (`Limits`), how runs close (`Closing`), which
assemblies and requests start a run (`Blueprints`, `Starts`), what injections change
(`Injections`), and what a host remembers (`Records`).

The scheduler's theorems are about every run: a run starts `Fresh` and takes any
sequence of enabled moves, each in its own state of the registry and store.
`Memory.MemoryKernel` changes its fields in place as the source does, and each
method is proved to do what the function of the same name in `Kernel` does;
`KernelRuns` proves that every run in every kernel history is such a sequence of
moves, so safety, accounting, provenance and references hold of the class
whatever calls are made on it. The theorems that ask something of a run's
callers (schedule independence, no spurious stall, typing, the claim bound) are
stated for histories of kernel calls in `Histories` and `Quotas`: what is asked
is a rule on the calls made since the run was started, in whatever order they
interleave with calls on other runs.

## Where the code keeps less than one might think

Each of these has a lemma with an input, or a family of inputs, for which the
property fails and, where there is one, the exact condition under which it holds.

- Work ids: within a run two units get one work id exactly when one is a ONCE
  node that is named like the other's unit key (`Naming.WorkIdsAgree`,
  `Naming.ShadowedUnit`). No node id that starts with `key:` or `always:` is a
  sufficient guard.
- A unit that is reclaimed keeps its work id, so the first holder's commit is
  accepted (`Example.StaleHolderCommits`). After a lease on an id has lapsed, a
  commit under that id gets past the refusal of unclaimed work if and only if
  the unit has been claimed again and that claim is still held and not expired
  (`Leases.StaleCommitIff`); what holds always is one commit per unit
  (`Accounting.OneCommitPerUnit`).
- In one claim wave, a commit after the terminal's commit is refused, so the
  drive loop can report an error on a completed run
  (`Race.DriveErrsOnCompletedRun`). A wave of a promising run errs if and only if
  it commits something after the terminal's item, in the order in which it
  commits: as claimed, or memo hits before executions
  (`Hosting.Host.DriveClaimWave`). The drive then ends with the run completed and
  errs if and only if the run is left holding claims; without memo records it errs
  if and only if the terminal is not the last node of the rounds that can be read
  off the assembly beforehand (`Hosting.Host.DriveUntilIdle`, `Outlook.Foreseen`);
  it does not err when it claims one unit at a time or every node reaches the
  terminal (`Waves.OrderlyWave`).
- A memo hit supplies what the execution supplied if and only if, for every
  output name, the first output is the last (`Memo.HitIsTransparent`,
  `Memo.RepeatedOutputNotTransparent`).
- `inject_input` checks no traits (`Relay.MisfitIsInjected`); typing survives an
  injection if and only if the injected artifact fits every port bound to it
  (`Provenance.InjectionTypedIff`).
- Injecting the artifact that is already there re-fires an ALWAYS node if and
  only if the input's 64-bit delivery counter is not saturated
  (`Deliveries.ReinjectionFiresIff`).
- Canonical bytes tell bags apart whose refs and bodies hold no NUL
  (`Canonical.CanonicalInjective`). Among all bags they identify exactly the empty
  one and those of one inline trait whose ref holds no NUL after its first
  character and whose body neither begins with text and a NUL nor holds a later
  ref between NULs (`Identity.IdentifiedIff`); among bags whose refs hold no NUL,
  the empty one and those of one inline trait whose body neither spells an object's
  ref nor holds a later ref between NULs (`Identity.IdentifiedAmongCleanIff`).
  `Identity.MergeCollides` gives every bag of two or more traits its twin.
- What is hashed of contracts and of memo keys agrees exactly when their fields,
  cut at their NULs, agree (`Identity.ContractsAgreeIff`, `Memo.MemoKeysAgreeIff`);
  it tells a contract apart from all others if and only if the contract names no
  compatible ref and holds no NUL (`Identity.ContractIdentifiedIff`).
- Its hashed bytes tell a ledger entry apart from every entry without NULs in kind
  and subject if and only if its own kind and subject hold none
  (`Chain.ToldApartIff`, `Chain.NulsBlurFields`, `Chain.NulsBlurDetail`).
- Two producer ports have one seed name exactly when they are one port, or one
  node id begins with the other and a slash and the ports make up for the rest
  (`Seeds.SeedNamesAgree`, `Seeds.SlashesBlurSeeds`); node ids without a slash
  are a sufficient guard (`Seeds.SeedNameInjective`).
- Anyone may append an entry of any kind, also of one of the kernel's
  (`Kernel.KernelKinds`). The ledger rebuilds the state when modules append only
  their own kinds. One more appended entry leaves it so if and only if it is
  harmless: it says nothing about what is there that is not so already
  (`Reconstruction.AppendMisleadsIff`, kind by kind in `Forgery.Harmless`); a
  forged start of a run misleads (`Reconstruction.ForgedEntryMisleads`).

The documentation of `MemoPlan` says that `require_digest` matters; the code
ignores it, and so does the model. `heartbeat` renews before it reaps, as the
Rust code does; the Go and Python kernels reap first.

## Hashes

SHA-256 (FIPS 180-4, section 6.2) is an arbitrary function on bytes. Nothing is
assumed injective. A statement that depends on a hash says "or these two inputs,
which are named, collide". The byte strings that are hashed are spelled out,
text as UTF-8 (RFC 3629), and proved readable back.

## Model

| member | source | states |
|---|---|---|
| Moves.ClaimIsPath | kernel/sdk/rust/src/lib.rs:1186-1298 | a claim call is reaping, then enabled takes within the in-flight limit, or a stall |
| Moves.HeartbeatIsPath | kernel/sdk/rust/src/lib.rs:1302-1340 | a heartbeat is renewals of held leases followed by reaping |
| Moves.HeartbeatKeeps | kernel/sdk/rust/src/lib.rs:1314-1334 | exactly which leases survive a heartbeat: a named one even when it has expired, unless its new end has passed too; any other if and only if it has not expired |
| Moves.FailIsPath | kernel/sdk/rust/src/lib.rs:1344-1414 | a failure is reaping, giving one held unit up, and perhaps a stall |
| Moves.CommitIsPath | kernel/sdk/rust/src/lib.rs:1461-1586 | a commit, refused or accepted, is reaping, then at most one enabled commit, and perhaps a stall |
| Moves.ServeKeeps | kernel/sdk/rust/src/lib.rs:1186-1616 | an induction principle for calls: a fact kept by every move a call may make is kept by the call |
| Moves.DropAllIsReap | kernel/sdk/rust/src/lib.rs:1417-1450 | what reaping leaves does not depend on the order in which the map of leases is walked |
| Moves.SameUnit | kernel/sdk/rust/src/lib.rs:2195-2272 | a node's current unit depends only on the frozen run and on artifact and generation of the sources bound to it |
| Moves.ChosenReady | kernel/sdk/rust/src/lib.rs:1206-1240 | the units a claim hands out are all ready, pairwise distinct and fit the in-flight limit |
| Claims.ClaimHandsOut | kernel/sdk/rust/src/lib.rs:1206-1280 | a claim hands out the first ready nodes its filter admits (module, modules, node ids), in assembly order, as many as asked for and as there is room for and no fewer; each with the inputs it is ready on, its next attempt and a lease from now |
| Claims.ReapSettles | kernel/sdk/rust/src/lib.rs:1417-1450 | reaping ends a lease exactly when its end is set and has passed; the unit is then done exactly if this was its last attempt |
| Claims.FailSettles | kernel/sdk/rust/src/lib.rs:1344-1414 | a failure of work that is not held conflicts; otherwise the unit is given up, and done exactly if it is said to be terminal or this was its last attempt |
| Claims.FailureEntry | kernel/sdk/rust/src/lib.rs:1366-1394 | an accepted failure is recorded with unit, attempt and reason, as terminal if the unit is now done |
| Claims.ReapEntries | kernel/sdk/rust/src/lib.rs:1417-1450 | what reaping leaves on the ledger: an entry with the item of each lease that has ended, a terminal failure if that was the last attempt, and nothing else |
| Claims.HeartbeatEnds | kernel/sdk/rust/src/lib.rs:1314-1334 | a lease that a heartbeat names and that survives ends the time asked for from now, or the run's own; others are as they were |
| Safety.AlwaysSafe | kernel/sdk/rust/src/lib.rs:1200-1280 | in every state of every run: claimed units pairwise distinct and not done, claims within max_in_flight, attempts equal to the stored count and at most max_attempts, a unit at its last attempt claimed or done |
| Safety.NoSharedUnit | kernel/sdk/rust/src/lib.rs:2323-2325 | two leases never hold one unit |
| Accounting.AlwaysAccounted | kernel/sdk/rust/src/lib.rs:1489-1586 | in every state of every run: steps, number of derivations and sum of node commits agree, latest is the last derivation per node, each unit is committed at most once, steps never exceed max_steps and a running run has a step left |
| Accounting.OneCommitPerUnit | kernel/sdk/rust/src/lib.rs:1514-1524 | two derivations of a run with one unit are one derivation: at most one commit per node under ONCE, per key under ONCE_PER_KEY |
| Keys.KeyedUnitIff | kernel/sdk/rust/src/lib.rs:2215-2242 | two resolved input lists make one ONCE_PER_KEY unit if and only if they hold the same artifacts on the ports marked `key`, or on all ports if none is marked |
| Keys.OncePerKeyHolds | kernel/sdk/rust/src/lib.rs:2195-2242 | in any history, two derivations of an ONCE_PER_KEY node of a run differ in what they read on some port that is part of its key |
| Keys.QuietOnSameKeys | kernel/sdk/rust/src/lib.rs:2215-2242 | a finished ONCE_PER_KEY node is not ready again while its key ports hold what they held |
| Keys.InjectionQuiet | kernel/sdk/rust/src/lib.rs:2215-2242 | injecting an input that no key port of a finished node reads does not make it ready |
| Leases.HeldIffReclaimed | kernel/sdk/rust/src/lib.rs:1186-1450 | after a lease on a work id has lapsed the id is held if and only if it was handed out again and that lease has not ended |
| Leases.StaleCommitIff | kernel/sdk/rust/src/lib.rs:1478-1493 | a commit under an id whose lease has lapsed gets past the refusal of unclaimed work if and only if the unit was claimed again and that claim is held and not expired, whoever commits |
| Example.StaleHolderCommits | kernel/sdk/rust/src/lib.rs:1461-1493 | a run in which a lease lapses, the unit is claimed again and the first holder's commit is accepted |
| Accounting.StepGuardIsDead | kernel/sdk/rust/src/lib.rs:1489-1491 | the extra step check inside commit never fires on a running run |
| Accounting.FrozenRun | kernel/sdk/rust/src/lib.rs:1083-1107 | identity, assembly, limits and policy of a run never change |
| Termination.PotentialFalls | kernel/sdk/rust/src/lib.rs:1186-1450 | every move but a lease renewal lowers the potential, and a claim spends one unit of a claim budget that nothing refills |
| Termination.RunsAreBounded | kernel/sdk/rust/src/lib.rs:1186-1586 | with the registry fixed and nothing injected, a run sees at most max_steps * nodes * max_attempts claims and at most twice as many moves plus one, renewals aside |
| NoStall.SomeAncestorReady | kernel/sdk/rust/src/lib.rs:2274-2298 | when nothing is claimed, an uncommitted node or one of its ancestors is ready |
| NoStall.AlwaysHealthy | kernel/sdk/rust/src/lib.rs:1546-1562 | along every cooperative run of an all-ONCE assembly, done units are exactly committed nodes and each committed node has supplied what is read from it |
| NoStall.NeverSpuriouslyStalled | kernel/sdk/rust/src/lib.rs:1282-1296 | such a run never stalls or fails: it is running with work ready or claimed, completed, or cancelled |
| Provenance.AlwaysSourced | kernel/sdk/rust/src/lib.rs:2094-2116 | every upstream input of the i-th derivation, and of every claim, is the first output of that port in an earlier derivation of the source node |
| Provenance.AlwaysTyped | kernel/sdk/rust/src/lib.rs:1988-2041 | in every run of a validated assembly whose injections fit, in a growing registry and store, all inputs of claimed items and all committed outputs carry the traits of their ports |
| Provenance.InjectionTypedIff | kernel/sdk/rust/src/lib.rs:1127-1171 | run inputs stay typed over an injection if and only if the injected artifact fits every port bound to its name |
| Relay.MisfitIsInjected | kernel/sdk/rust/src/lib.rs:1127-1171 | an artifact without the trait its port needs is injected all the same, and the run is no longer typed |
| Provenance.CommittedFits | kernel/sdk/rust/src/lib.rs:2340-2377 | what a commit accepts carries the traits its node's port had when the assembly was validated |
| Commits.CommitAcceptedIff | kernel/sdk/rust/src/lib.rs:1461-1493 | exactly when a commit is accepted: the work is held and its lease has not passed, the node is the one named, every required output port has an output, only ports marked `multiple` have two, and every output is declared and a stored artifact with its port's traits |
| Commits.CommitRefusedFor | kernel/sdk/rust/src/lib.rs:2340-2377 | what a commit is refused for: CONFLICT if not held, NOT_FOUND if the first bad output is one whose artifact is not stored, INVALID otherwise, so for a missing required output and for two on a single port |
| Commits.CommittedServes | kernel/sdk/rust/src/lib.rs:2340-2377 | in any history, every derivation has an output on each required port of its node and two of one name only on ports marked `multiple` |
| Blueprints.ClaimedServed | kernel/sdk/rust/src/lib.rs:2042-2062 | in any history, work is handed out with an input on each required port of its node and two only on ports marked `multiple` |
| Deliveries.NeverAhead | kernel/sdk/rust/src/lib.rs:2244-2272 | every ALWAYS unit ever claimed encodes a generation vector pointwise at most the current one |
| Keys.DeliveryUnitIff | kernel/sdk/rust/src/lib.rs:2244-2272 | two moments make one ALWAYS unit if and only if on every port the bound sources supply the same artifacts in the same generations, whatever the order of ports in the bindings |
| Deliveries.DeliveryFires | kernel/sdk/rust/src/lib.rs:1158-1171 | right after a delivery to an ALWAYS node its unit was never claimed, so the node is ready if its inputs and capability resolve |
| Deliveries.QuietUntilDelivery | kernel/sdk/rust/src/lib.rs:2244-2272 | a node whose current unit is done stays quiet until one of its sources delivers |
| Deliveries.ReinjectionFiresIff | kernel/sdk/rust/src/lib.rs:1170-1171 | injecting the same artifact again re-fires a finished ALWAYS node if and only if the delivery counter is not saturated |
| Convergence.ScheduleIndependence | kernel/sdk/rust/src/lib.rs:1461-1586 | if commits are a fixed function of node and inputs and nothing is injected, every interleaving commits what the recursive evaluator computes, output for output, and a completed run answers the evaluator's answer |
| Convergence.PortsIndependent | kernel/sdk/rust/src/lib.rs:1461-1586 | the same port for port: commits that supply what the function supplies on every port are enough for every derivation to supply what the evaluator computes |
| Convergence.ServeConverges | kernel/sdk/rust/src/lib.rs:1186-1616 | any call that follows the program keeps a run that is converging on the evaluator's values converging |
| Convergence.RunsAgree | kernel/sdk/rust/src/lib.rs:2094-2116 | two runs of one program, however scheduled, agree on every node both have committed and on their answers |
| Assemblies.NoInputFault | kernel/sdk/rust/src/lib.rs:1970-1986 | the input scan finds a fault if and only if some run input is unnamed, repeated, without artifact or not stored |
| Assemblies.AssemblyFault | kernel/sdk/rust/src/lib.rs:1915-2092 | there is no fault if and only if the assembly is valid: typed, bound, with right arities and acyclic |
| Assemblies.CapabilityStable | kernel/sdk/rust/src/lib.rs:1872-1896 | registering more modules leaves a node's capability as it was or makes it ambiguous, never different |
| Blueprints.ResolvesIff | kernel/sdk/rust/src/lib.rs:1872-1896 | a node resolves to a capability if and only if that is the only one at its exact module, version and capability name over all registered modules |
| Blueprints.AcceptableIff | kernel/sdk/rust/src/lib.rs:1915-2092 | the checks pass exactly for the assemblies that are acceptable place by place: ids, ports, terminal, inputs, sources of bindings, traits and arities, by index; and that have no cycle |
| Blueprints.NotFoundIff | kernel/sdk/rust/src/lib.rs:1915-1986 | a start is refused NotFound if and only if ids, nodes and terminal are good and the first run input at fault is named once, has an artifact and that artifact is not stored; every other refusal of an assembly is Invalid |
| Validation.IndexNodes | kernel/sdk/rust/src/lib.rs:1926-1950 | the node scan succeeds if and only if ids are distinct and named and ports well typed, and its index finds what a search of the list finds |
| Validation.IndexInputs | kernel/sdk/rust/src/lib.rs:1970-1986 | the loop over run inputs reports the first fault in order |
| Validation.ReadBindings | kernel/sdk/rust/src/lib.rs:1988-2041 | the binding scan succeeds if and only if every binding is valid; its edges are the upstream bindings and its counts the bindings per port |
| Validation.AritiesAreValid | kernel/sdk/rust/src/lib.rs:2042-2062 | every required port is bound and only multiple ports more than once |
| Validation.Visit | kernel/sdk/rust/src/lib.rs:2063-2082 | a depth-first visit terminates, and either finishes the node after all it leads to or exhibits a cycle |
| Validation.IsAcyclic | kernel/sdk/rust/src/lib.rs:2063-2091 | the cycle check is exact: it passes if and only if the bindings have a topological rank |
| Validation.ValidateAssembly | kernel/sdk/rust/src/lib.rs:1915-2092 | refuses exactly the assemblies that are not valid, with the error the source gives |
| KernelRuns.DoRefines | kernel/sdk/rust/src/lib.rs:635-1618 | to each run, a kernel call is the one call on that run it makes, if the run accepts it, and nothing otherwise, in a registry and store that only grow |
| KernelRuns.HistoryIsGenuine | kernel/sdk/rust/src/lib.rs:635-1618 | after any history of calls every run started fresh from a validated assembly and took only enabled moves |
| KernelRuns.KernelRunsAreSound | kernel/sdk/rust/src/lib.rs:635-1618 | slot safety, accounting, provenance and delivery bounds for every run of every kernel history |
| Histories.RunsConverge | kernel/sdk/rust/src/lib.rs:635-1618 | in any history of kernel calls whose calls on a run follow a program and inject nothing, every derivation of the run is the evaluator's on every port and a completed run has its answer |
| Histories.RunsTyped | kernel/sdk/rust/src/lib.rs:1127-1180 | in any history whose injections into a run fit, the run's claimed inputs and latest outputs carry the traits of their ports by the registry it was started in |
| Histories.RunsNeverStall | kernel/sdk/rust/src/lib.rs:1282-1296 | in any history, a run whose nodes fire once and whose callers cooperate is running with work ready or held, completed or cancelled, never stalled or failed |
| Histories.ClosedForever | kernel/sdk/rust/src/lib.rs:1186-1195 | a run that is not running never changes again, whatever is called |
| Histories.CancelCloses | kernel/sdk/rust/src/lib.rs:1601-1616 | cancelling a running run leaves it cancelled for good, without claims and with all it had committed; a closed run is not touched |
| Closing.StalledRunsIdle | kernel/sdk/rust/src/lib.rs:1282-1296 | in every history, a stalled run is not an open one, holds no claim and has no ready unit, whatever is registered since |
| Closing.OpenRunsStayOpen | kernel/sdk/rust/src/lib.rs:1284-1285 | in every history, a run whose closure is OPEN is never stalled and never completed |
| Closing.NeverLeftIdle | kernel/sdk/rust/src/lib.rs:1395-1412 | after a claim, failure or commit that is granted, a closing run that is still running holds a claim or has a ready unit |
| Closing.RunsAreExplained | kernel/sdk/rust/src/lib.rs:1527-1562 | in every history, a run's answer is what its terminal last put out, a closing run is completed exactly when it has one, a failed run has used up its steps, and the reason says what happened |
| Quotas.ClaimsBounded | kernel/sdk/rust/src/lib.rs:1048-1080 | in any history without forged entries that registers nothing and injects nothing into the run since its start, the ledger shows at most max_steps * nodes * max_attempts claims of it |
| Limits.LimitsHold | kernel/sdk/rust/src/lib.rs:1048-1080 | in any history, by the request that started the run: claims never exceed a limit in flight that was asked for, steps never what was asked for or the number of nodes, and no unit is handed out more often than asked for, or three times |
| Limits.LeasedAsAsked | kernel/sdk/rust/src/lib.rs:1064-1075 | what a claim hands out is leased for the time asked for at the start of its run, or 60000 ms |
| Limits.LeaseEndIs | kernel/sdk/rust/src/lib.rs:1243-1252 | the end of a lease is now plus its time, with the 64-bit wrap of the time and the saturation of the sum |
| Limits.LeaseStands | kernel/sdk/rust/src/lib.rs:1302-1340 | a lease that no heartbeat names stands as given for as long as the unit is held at the same attempt |
| Registry.OneStepAtMost | kernel/sdk/rust/src/lib.rs:697-724 | a call moves a module one lifecycle step forward exactly when it is the transition that asks for that of the first module of the name, and otherwise not at all |
| Registry.RegisteredLast | kernel/sdk/rust/src/lib.rs:642-668 | a module is registered last in the list, as REGISTERED |
| Registry.RegisterNames | kernel/sdk/rust/src/lib.rs:642-652 | registering names exactly the contracts asked for on some port, in or out, each by an empty placeholder unless it is there |
| Registry.LifecycleNeverGoesBack | kernel/sdk/rust/src/lib.rs:683-724 | however a history goes on, a module keeps its place and manifest and never goes back in its lifecycle |
| Registry.FilledOnce | kernel/sdk/rust/src/lib.rs:905-943 | in any history the contract under a ref changes at most once, from an empty placeholder, and then never again |
| Registry.TransitionRefusedIff | kernel/sdk/rust/src/lib.rs:697-706 | a transition is refused, as NotFound, if and only if no module has the name |
| Registry.ContractAcceptedIff | kernel/sdk/rust/src/lib.rs:911-943 | a contract is accepted if and only if it has a ref, no digest or the right one, and nothing else is under the ref, unless it is a placeholder to fill; a clash is a Conflict and a refusal changes nothing |
| Registry.SubmittedContract | kernel/sdk/rust/src/lib.rs:911-943 | a submitted contract is stored for good, or was already there, or is refused for a missing ref, a wrong digest or other content |
| Registry.BlobReadsBack | kernel/sdk/rust/src/lib.rs:800-844 | a blob within the limit is accepted and stays stored under its namespace and digest, these bytes or earlier ones of the same digest, and putting it again changes nothing |
| Integrity.StoredForever | kernel/sdk/rust/src/lib.rs:752-785 | stored artifacts and blobs never change, however the history goes on |
| Integrity.AlwaysReferenced | kernel/sdk/rust/src/lib.rs:2340-2377 | in every run of a validated assembly, inputs, claimed and committed work and the answer name stored artifacts |
| Integrity.NothingDangles | kernel/sdk/rust/src/lib.rs:1850-1870 | after any history content sits under its address, external refs name unharmed blobs of the stated size, and runs name only stored artifacts |
| Integrity.ReadBack | kernel/sdk/rust/src/lib.rs:738-797 | an accepted put reads back what was put unless two bags share an address, and a repeated put changes nothing |
| Integrity.PutAcceptedIff | kernel/sdk/rust/src/lib.rs:738-797 | a put is accepted if and only if the bag is not empty, no ref is, and every trait is a body within the limit or an object with a digest whose blob is stored with that size and digest; a new address then holds what was put, and nothing else changes |
| Integrity.PutRefusedFor | kernel/sdk/rust/src/lib.rs:738-797 | a refused put complains of what is so: of an empty bag, a missing ref or a wrong shape, of size, or, only when all that is sound, of a missing or a harmed blob |
| Integrity.StoredIsGood | kernel/sdk/rust/src/lib.rs:738-797 | in every history, all that is stored is so, under the address of its content |
| Reconstruction.LedgerReconstructs | kernel/sdk/rust/src/lib.rs:610-628 | after any history in which modules append only their own kinds, or entries that are harmless where they are appended, folding the ledger in order rebuilds modules, contracts, artifacts, blob refs, derivations and, per run, its state, claims, done units, attempts, latest, epochs and commit counts |
| Reconstruction.LedgerDetermines | kernel/sdk/rust/src/lib.rs:610-628 | two kernels with equal ledgers agree on modules, contracts, artifacts, derivations and, run by run, on inputs, answers, counts, done units and held work, whatever calls were made; all but lease ends, limits and blob bytes |
| Reconstruction.NothingCleared | kernel/sdk/rust/src/lib.rs:758-776 | clearing the bodies of external traits for the ledger clears nothing |
| Forgery.HarmlessIff | kernel/sdk/rust/src/lib.rs:989-994 | an entry of any kind leaves the rebuilt state as it was if and only if it is harmless, as decided kind by kind |
| Reconstruction.AppendMisleadsIff | kernel/sdk/rust/src/lib.rs:989-994 | after any such history, an appended entry of any kind leaves the ledger rebuilding the state if and only if it is harmless |
| Reconstruction.ForgedEntryMisleads | kernel/sdk/rust/src/lib.rs:991-994 | appending an entry of a kernel kind makes the ledger rebuild a run the kernel never had |
| Memory.MemoryKernel.Register | kernel/sdk/rust/src/lib.rs:645-681 | appends the module, names placeholders for all unseen port contracts and records it |
| Kernel.PutFault | kernel/sdk/rust/src/lib.rs:745-757 | a trait bag is refused for the first trait at fault in ascending order of refs, content before blobs, and accepted exactly when content is valid and all blobs are stored intact |
| Memory.MemoryKernel.CheckContent | kernel/sdk/rust/src/lib.rs:1808-1848 | the loop reports the first trait at fault: unnamed, both body and object, over the inline limit, or a malformed object |
| Memory.MemoryKernel.CheckExternals | kernel/sdk/rust/src/lib.rs:1850-1870 | the loop reports the first external ref whose blob is missing, or of another size or content than stated |
| Memory.MemoryKernel.PutArtifact | kernel/sdk/rust/src/lib.rs:738-785 | first write of an address wins and is recorded; a refusal has the reason of the first fault |
| Memory.MemoryKernel.StartRun | kernel/sdk/rust/src/lib.rs:1032-1118 | refuses what the checks refuse, otherwise freezes the run with its default limits |
| Starts.StartAcceptedIff | kernel/sdk/rust/src/lib.rs:1036-1052 | exactly which requests start a run, and that a known id, and only that, conflicts |
| Starts.RestrictionIs | kernel/sdk/rust/src/lib.rs:2118-2166 | `include_nodes` fits exactly if it lists known nodes once each with the terminal's among them; the run then gets these nodes in order and the bindings to them that read a run input or one of them |
| Starts.StartedAtStart | kernel/sdk/rust/src/lib.rs:1080-1110 | a run starts with nothing done, every input in generation zero, and limits, policy and inputs as asked for; other runs are not touched |
| Starts.StreamsStayOpen | framework/sdk/rust/src/policy.rs:340-349 | a pipeline started in a stream mode is closed by nothing but its step limit or a cancellation, in any history |
| Memory.MemoryKernel.InjectInput | kernel/sdk/rust/src/lib.rs:1127-1180 | replaces or adds the named input in place and bumps its delivery counter |
| Injections.InjectRefusedFor | kernel/sdk/rust/src/lib.rs:1127-1161 | exactly when an injection is accepted, and what it is refused for otherwise |
| Injections.InjectionSets | kernel/sdk/rust/src/lib.rs:1162-1180 | an accepted injection takes the place of the first input of its name, or comes last, counts one generation up to 2^64-1, and changes nothing else but one ledger entry |
| Memory.AssemblyAnyReady | kernel/sdk/rust/src/lib.rs:2274-2298 | true if and only if some node has a ready unit |
| Memory.ReadyCandidates | kernel/sdk/rust/src/lib.rs:1206-1231 | the ready units that pass the claim's filter, in node order |
| Memory.TakeEach | kernel/sdk/rust/src/lib.rs:1234-1270 | taking units one by one in a loop gives the slot and items of the specification |
| Memory.MemoryKernel.ReapExpired | kernel/sdk/rust/src/lib.rs:1417-1450 | drops exactly the expired leases, whatever the walk, and records each in the order walked |
| Memory.MemoryKernel.ClaimReady | kernel/sdk/rust/src/lib.rs:1186-1298 | new slot, ledger entries and claimed items of a claim, or the refusal |
| Memory.MemoryKernel.Heartbeat | kernel/sdk/rust/src/lib.rs:1302-1340 | new slot and ledger entries of a heartbeat, and which of the named ids it renewed and which it reports lost, in the order named |
| Memory.RenewedOrLost | kernel/sdk/rust/src/lib.rs:1320-1339 | the ids a heartbeat renews are those named and held, the lost those named and not held, each told as often as named |
| Memory.MemoryKernel.Fail | kernel/sdk/rust/src/lib.rs:1344-1414 | new slot and ledger entries of a failure; a refusal keeps the reaping |
| Memory.ValidateOutputs | kernel/sdk/rust/src/lib.rs:2340-2377 | the loops report the fault the specification gives, counts first and then output by output |
| Memory.MemoryKernel.CheckCommit | kernel/sdk/rust/src/lib.rs:1478-1493 | the checks of a commit in their order |
| Memory.MemoryKernel.AdvanceRun | kernel/sdk/rust/src/lib.rs:1527-1545 | the run after one more step: an answer closes it unless it is open, the last step fails it |
| Memory.MemoryKernel.ApplyCommit | kernel/sdk/rust/src/lib.rs:1495-1578 | an accepted commit ends its unit, advances and perhaps closes the run, and records derivation and run |
| Memory.MemoryKernel.Commit | kernel/sdk/rust/src/lib.rs:1461-1586 | new state of a commit; a refusal keeps the reaping |
| Memory.MemoryKernel.ListDerivations | kernel/sdk/rust/src/lib.rs:1625-1638 | exactly one run's derivations, in commit order |
| Memory.MemoryKernel.Handle | kernel/sdk/rust/src/lib.rs:1683-1753 | serving any call keeps the object equal to what its history of calls leads to |
| Memory.MemoryKernel.LedgerHoldsAll | kernel/sdk/rust/src/lib.rs:610-628 | at any moment, if what was appended was of foreign kinds or harmless, the object's ledger rebuilds the object, and with one more entry still does if and only if that is harmless |
| Memory.MemoryKernel.Append | kernel/sdk/rust/src/lib.rs:989-994 | appends one entry of whatever kind; one of a kernel kind is what its detail decodes to |
| Memory.MemoryKernel.RunsAreSound | kernel/sdk/rust/src/lib.rs:635-1618 | at any moment every run of the object is safe, accounted and sourced, and nothing it names is missing |
| Memory.MemoryKernel.RunsAsPromised | kernel/sdk/rust/src/lib.rs:635-1618 | at any moment, a run of the object whose calls followed a program converges on it, and one since whose start nothing was registered or injected has its claims bounded on a ledger without forged entries |
| Encoding.Utf8Injective | kernel/sdk/rust/src/lib.rs:446-457 | text is identified by its UTF-8 bytes |
| Encoding.Utf8Order | kernel/sdk/go/substrate.go:383-387 | sorting by UTF-8 bytes is sorting by characters |
| Encoding.BE64Injective | kernel/sdk/rust/src/lib.rs:203-213 | eight big-endian bytes identify a 64-bit counter |
| Encoding.TerminatedInjective | kernel/sdk/rust/src/lib.rs:408-427 | NUL-free fields, each closed by a NUL, can be read back |
| Canonical.ArtifactCanonicalBytes | kernel/sdk/rust/src/lib.rs:240-252 | collecting the keys in any order and sorting them gives the canonical bytes of the bag |
| Canonical.CanonicalInjective | kernel/sdk/rust/src/lib.rs:240-252 | plain bags, inline or external, with equal canonical bytes say the same |
| Identity.BodiesWithNulsCollide | kernel/sdk/rust/src/lib.rs:240-252 | two different bags with NULs in a body and equal canonical bytes |
| Identity.MergeCollides | kernel/sdk/rust/src/lib.rs:240-252 | every bag of two or more traits has the canonical bytes of another bag |
| Identity.IdentifiedIff | kernel/sdk/rust/src/lib.rs:240-252 | exactly which bags their canonical bytes identify among all bags of named traits |
| Identity.IdentifiedAmongCleanIff | kernel/sdk/rust/src/lib.rs:240-252 | exactly which bags their canonical bytes identify among bags whose refs hold no NUL |
| Identity.IdentifiedReadsBack | kernel/sdk/rust/src/lib.rs:738-797 | in any history, putting content that its bytes identify and reading it back gives the same content or a named hash collision |
| Identity.ContractsAgreeIff | kernel/sdk/rust/src/lib.rs:408-434 | exactly when two contracts are hashed alike |
| Identity.ContractIdentifiedIff | kernel/sdk/rust/src/lib.rs:408-434 | what is hashed tells a contract apart from all others if and only if it names no compatible ref and holds no NUL |
| Encoding.FieldsAgreeIff | kernel/sdk/rust/src/lib.rs:408-427 | lists of text fields, each closed by a NUL, have equal bytes if and only if cut at their NULs they are equal |
| Canonical.ContractBytesInjective | kernel/sdk/rust/src/lib.rs:408-434 | NUL-free contracts with equal hashed bytes have equal content |
| Canonical.PutReadsBack | kernel/sdk/rust/src/lib.rs:738-797 | in any history, putting plain content and reading it back gives the same content or a named hash collision |
| Canonical.OneAddressPerContent | kernel/sdk/rust/src/lib.rs:259-263 | in any reachable store one content has one address |
| Chain.VerifyChain | kernel/sdk/rust/src/lib.rs:463-476 | true if and only if each entry has its index, links to its predecessor and hashes itself |
| Chain.LinkedIff | kernel/sdk/rust/src/lib.rs:463-476 | entry by entry: numbered from zero, each naming the hash of the one before it (the first the empty one), and hashing its own five fields |
| Chain.Ledger.Append | kernel/sdk/rust/src/lib.rs:610-628 | appending keeps the chain verifying and changes no earlier entry |
| Chain.Ledger.Verify | kernel/sdk/rust/src/lib.rs:1003-1005 | a ledger built by appending always verifies |
| Chain.InscribedVerifies | kernel/sdk/rust/src/lib.rs:610-628 | the chained form of every kernel ledger verifies |
| Chain.PreimageInjective | kernel/sdk/rust/src/lib.rs:446-457 | for NUL-free kind and subject and any detail, the hashed bytes identify the entry |
| Chain.TamperEvident | kernel/sdk/rust/src/lib.rs:459-476 | two verifying ledgers ending in one hash agree entry by entry or hold two named entries that collide |
| Chain.NulsBlurFields | kernel/sdk/rust/src/lib.rs:446-457 | with a NUL in the kind, different kinds and subjects have equal hashed bytes |
| Chain.NulsBlurDetail | kernel/sdk/rust/src/lib.rs:446-457 | with a NUL in the subject, different subjects and details have equal hashed bytes |
| Chain.ToldApartIff | kernel/sdk/rust/src/lib.rs:446-457 | hashed bytes tell an entry apart from every entry without NULs if and only if its own kind and subject hold none |
| Naming.DeliveryFingerprint | kernel/sdk/rust/src/lib.rs:2244-2272 | hashes the sorted rows, and gives none if and only if a bound port has no artifact |
| Naming.UnitTextInjective | kernel/sdk/rust/src/lib.rs:2195-2213 | unit keys name their units whatever the node ids, up to a named hash collision |
| Naming.WorkIdsAgree | kernel/sdk/rust/src/lib.rs:1238-1245 | exactly when two units of a run share a work id |
| Naming.PlainNodesDoNotShadow | kernel/sdk/rust/src/lib.rs:1238-1245 | a node id that starts with neither prefix never makes two units share a work id |
| Naming.ShadowedUnit | kernel/sdk/rust/src/lib.rs:1238-1245 | two different units with one work id |
| Naming.IdsSpelled | kernel/sdk/rust/src/lib.rs:1238-1245 | how unit keys and work ids are spelled |
| Naming.DerivationIdsDistinct | kernel/sdk/rust/src/lib.rs:2379-2401 | all derivations ever committed, over all runs, have different ids or exhibit a hash collision |
| Layouts.BagLayout | kernel/sdk/rust/src/lib.rs:202-252 | known answer: the bytes hashed for a bag of a body and an object, contract refs ascending, the object as digest, eight-byte size and namespace |
| Layouts.ContractLayout | kernel/sdk/rust/src/lib.rs:408-426 | known answer: the bytes hashed for a contract |
| Layouts.EntryLayout | kernel/sdk/rust/src/lib.rs:446-457 | known answer: the bytes hashed for a ledger entry, the number in eight bytes, most significant first |
| Layouts.KeyLayout | framework/sdk/rust/src/memo.rs:190-223 | known answer: the bytes hashed for a memo key, ports ascending |
| Layouts.PairLayout | kernel/sdk/rust/src/lib.rs:2233-2241 | known answer: the bytes hashed for the key of a ONCE_PER_KEY unit |
| Layouts.RowLayout | kernel/sdk/rust/src/lib.rs:2262-2271 | known answer: the bytes hashed for a delivery of an ALWAYS node |
| Layouts.DerivationLayout | kernel/sdk/rust/src/lib.rs:2379-2401 | known answer: the fields hashed for a derivation, in order, an absent artifact as the empty text |
| Cut.ReachableFrom | framework/sdk/rust/src/cut.rs:415-441 | the forward search finds exactly the nodes data can reach from the start, the start included |
| Cut.TransitivePredecessors | framework/sdk/rust/src/cut.rs:385-413 | the backward search finds exactly the nodes that feed the start in one or more steps, also on cycles |
| Materialization.ResolveKept | framework/sdk/rust/src/cut.rs:73-168 | keeps exactly the nodes the plan asks for, and refuses exactly the plans that do not fit |
| Materialization.OnlyIff | framework/sdk/rust/src/cut.rs:97-124 | a list of nodes is taken if and only if it names nodes of the assembly, the terminal's among them, and has as many different names as entries; it then keeps just those |
| Materialization.AfterDropsPredecessors | framework/sdk/rust/src/cut.rs:125-148 | whatever feeds a dropped node is dropped |
| Materialization.FromKeepsSuccessors | framework/sdk/rust/src/cut.rs:150-166 | whatever a kept node feeds is kept |
| Materialization.RewriteBindings | framework/sdk/rust/src/cut.rs:202-241 | rewrites crossing bindings to seed inputs and keeps the rest, or reports a binding without source |
| Materialization.MaterializeCut | framework/sdk/rust/src/cut.rs:171-267 | the cut assembly, its skipped nodes, seeds and kept ids |
| Materialization.CutLosesNone | framework/sdk/rust/src/cut.rs:171-267 | every node is kept or skipped, none twice or lost, and the kept ids are those of the cut assembly's nodes in order |
| Materialization.SeedsExact | framework/sdk/rust/src/cut.rs:205-241 | required seeds are exactly the producer ports of crossing bindings, ascending and each once |
| Materialization.SeedsNamed | framework/sdk/rust/src/cut.rs:205-228 | every seed a cut asks for comes from a named node: a binding that neither reads an input nor names a node is refused |
| Seeds.SeedNameInjective | framework/sdk/rust/src/cut.rs:22-24 | for node ids without a slash a seed name names one port |
| Seeds.SeedNamesAgree | framework/sdk/rust/src/cut.rs:22-24 | exactly when two producer ports have one seed name |
| Seeds.SlashesBlurSeeds | framework/sdk/rust/src/cut.rs:22-24 | with slashes one seed name can name two ports |
| Seeds.SeedsFromRun | framework/sdk/rust/src/cut.rs:273-334 | collects seeds node by node in ascending order, or reports a node without derivation or an output without artifact |
| Seeds.NodesAdded | framework/sdk/rust/src/cut.rs:296-331 | under each port's seed name the collected artifact is the first output of that port in the node's last derivation, and no name occurs twice |
| Seeds.MergeInputs | framework/sdk/rust/src/cut.rs:337-349 | overlays seeds on inputs in an ordered map |
| Seeds.MergedFinds | framework/sdk/rust/src/cut.rs:337-349 | merging lists each name once, ascending, and seeds win |
| Seeds.ValidateSeedsPresent | framework/sdk/rust/src/cut.rs:352-383 | passes if and only if every required seed is given an artifact |
| Seeds.SeedsPresentIff | framework/sdk/rust/src/cut.rs:352-383 | no seed is missing exactly when, for each port that crosses the cut, the last input of its seed name has an artifact |
| CutMeaning.CutPreservesMeaning | framework/sdk/rust/src/cut.rs:171-267 | for every accepted plan, seeded with what dropped ports compute, every kept node computes in the cut what it computes in the whole assembly, and the answer is the same |
| Resumption.StartPipeline | framework/sdk/rust/src/lib.rs:458-506 | refuses a selective run of everything, an empty or known run id, a missing backend, a plan that does not fit and missing seeds, and otherwise gives the cut assembly and inputs to start |
| Resumption.PipelineStartIff | framework/sdk/rust/src/lib.rs:492-503 | a pipeline gets as far as the kernel exactly when its plan fits and every crossing port is seeded; it asks for the cut assembly and the inputs as given |
| Resumption.ResumeAfter | framework/sdk/rust/src/lib.rs:520-554 | assembly and inputs of a resumption, or its refusal, those of starting the pipeline included |
| Resumption.ResumedInputsAre | framework/sdk/rust/src/lib.rs:536-551 | a resumption's inputs are the seeds collected from the prior run and those of its inputs that are not seeds, each name once |
| Resumption.ResumeKeepsAnswer | framework/sdk/rust/src/lib.rs:520-554 | a resumption after any node of any run of a program, memoised or not, at any moment it is accepted, has the program's answer |
| CutValidity.CutKeepsValidity | framework/sdk/rust/src/cut.rs:205-241 | the kernel accepts the cut of any assembly it accepts, given typed seeds, also after the registry has grown |
| CutValidity.ResumeNeverRefused | framework/sdk/rust/src/lib.rs:520-554 | a resumption of a whole, injection-free run whose dropped nodes committed what kept nodes read passes the framework's and the kernel's checks |
| Memo.MemoKeyBytes | framework/sdk/rust/src/memo.rs:200-223 | writes the four fields and the sorted input map |
| Memo.MemoKeyInjective | framework/sdk/rust/src/memo.rs:200-223 | for NUL-free names, different work has different key bytes |
| Memo.MemoKeysAgreeIff | framework/sdk/rust/src/memo.rs:200-223 | exactly when two memo keys are hashed alike |
| Memo.CollectPorts | framework/sdk/rust/src/memo.rs:226-236 | the last named, non-empty artifact per port |
| Memo.PortMapIff | framework/sdk/rust/src/memo.rs:226-236 | a port is listed if and only if some item names it with a non-empty artifact, and with the artifact of the last one that does |
| Memo.RecordToNamedOutputs | framework/sdk/rust/src/memo.rs:239-250 | the record's ports in ascending order |
| Memo.HitIsTransparent | framework/sdk/rust/src/memo.rs:253-280 | a hit supplies on every port what the execution supplied if and only if first and last output of each name agree |
| Memo.RepeatedOutputNotTransparent | framework/sdk/rust/src/memo.rs:261-268 | with two outputs on one port a hit supplies the other one |
| Memo.HitPassesValidation | kernel/sdk/rust/src/lib.rs:2340-2377 | a hit never fails the output validation the execution passed |
| Steps.KeySeesAll | framework/sdk/rust/src/lib.rs:1174-1189 | the memo key leaves out nothing the step sees on its ports |
| Steps.HitIsExecution | framework/sdk/rust/src/lib.rs:1054-1087 | with a sound store, a hit is on the execution of this very unit |
| Steps.UnitTransparent | framework/sdk/rust/src/lib.rs:800-844 | what one unit commits, executed or by a memo hit, supplies on every port what its execution supplies, if the plugins give one artifact per output name |
| Traces.WorkConverges | framework/sdk/rust/src/lib.rs:691-1028 | work that commits only executions and hits on them, in any order and amount, keeps a run of the program converging on the evaluator's values |
| Waves.MemoTransparent | framework/sdk/rust/src/lib.rs:691-1172 | two hosts with the same plugins, at any moment of driving a run of one program, agree on every port of every node both have committed, whatever their memo policies, sound stores, clocks, claims and concurrency; completed runs have the same answer, which is the evaluator's |
| Driving.WaveClaims | framework/sdk/rust/src/lib.rs:716-764 | a wave on a run that is on course claims something |
| Driving.CommitEnds | kernel/sdk/rust/src/lib.rs:1527-1546 | on course, a commit completes the run if and only if it is the terminal's |
| Driving.OrderlyEndsLast | framework/sdk/rust/src/lib.rs:846-913 | when a wave is one item, or every node reaches the terminal, the terminal's item is the last to be committed in any order of the wave |
| Waves.OrderlyWave | framework/sdk/rust/src/lib.rs:716-775 | so a wave of a promising run that claims that way does not err |
| Hosting.Host.KernelCommit | framework/sdk/rust/src/lib.rs:965-974 | what a host's commit does to the run; on a closed run it is refused |
| Hosting.Host.TryMemoHit | framework/sdk/rust/src/lib.rs:1031-1087 | a hit exactly when the policy allows it, there is a record and all its artifacts are stored; it is then a hit on the execution of this unit |
| Records.HitsWhereAsked | framework/sdk/rust/src/lib.rs:1031-1087 | a hit is on a node the policy asks records of, whose plugin has a digest, and all it commits is stored |
| Records.NextTimeHits | framework/sdk/rust/src/lib.rs:1031-1172 | what a host has committed on a node that gets records is a hit whenever the same work comes again, in whatever run |
| Records.SameWorkIff | framework/sdk/rust/src/memo.rs:186-236 | a host takes two units for the same work if and only if module, version, digest and capability agree and the inputs are the same port by port, the last on each counting |
| Hosting.Host.StoreMemo | framework/sdk/rust/src/lib.rs:1134-1172 | without memo, for a node left out or a plugin without digest nothing changes; otherwise exactly the unit's record is set, which supplies on every port the last output of that name; records there already keep what they hold |
| Hosting.Host.ExecuteAndCommit | framework/sdk/rust/src/lib.rs:915-1028 | executes once and commits exactly the executed outputs, or reports the failure; in a wave it is refused exactly when the run has completed |
| Hosting.Host.FinishWorkUnit | framework/sdk/rust/src/lib.rs:800-844 | on success exactly this unit was committed: with the recorded outputs and no execution if it was a memo hit, with the executed ones if not; and it is a hit from then on if it gets records |
| Hosting.Host.FinishSerial | framework/sdk/rust/src/lib.rs:766-770 | commits the items one by one as claimed, each an execution or a hit on one; errs if and only if the terminal's item is not the last |
| Hosting.Host.FinishParallel | framework/sdk/rust/src/lib.rs:846-913 | commits the memo hits in claimed order and then the executions in claimed order, nothing else; errs if and only if the terminal's item is not the last of that order |
| Hosting.Host.MakeClaim | framework/sdk/rust/src/lib.rs:736-758 | the claim's filter admits exactly the modules the host works for |
| Hosting.Host.DriveClaimWave | framework/sdk/rust/src/lib.rs:716-775 | a wave commits all it claims in its order, or leaves the run idle for this host, or reports an error; on a promising run it errs if and only if something comes after the terminal's item |
| Hosting.Host.DriveUntilIdle | framework/sdk/rust/src/lib.rs:691-702 | terminates; commits only executions and hits on them; a promising run ends COMPLETED, without error if and only if it is left without claims, and then no node was executed twice; a run of a program has the program's values and answer; without memo records it commits exactly the foreseen rounds, and errs if and only if the terminal is not last in them; without memo it leaves the records as they were, with it it loses none and every unit it commits is a hit from then on |
| Race.DriveErrsOnCompletedRun | framework/sdk/rust/src/lib.rs:691-775 | a pipeline, host and wave for which the drive loop reports RUN_CLOSED on a completed run |
| Waves.FreshPromising | framework/sdk/rust/src/lib.rs:458-514 | a fresh all-ONCE pipeline of a validated assembly with reliable plugins, prompt waves and a host that claims all its modules is promising |
| Policies.ExecutionPolicyFor | framework/sdk/rust/src/policy.rs:351-384 | the loop pins one firing on every node, and the other plans as given |
| Policies.ApplyToRunRequest | framework/sdk/rust/src/policy.rs:403-442 | what the kernel is asked for: limits with their defaults, closure by mode, firing by plan |
| Policies.PlanHolds | framework/sdk/rust/src/policy.rs:344-384 | one firing for all is what every node of the assembly fires as, whatever its capability declares; without a plan each fires as declared, or once |
| Policies.MappingHolds | framework/sdk/rust/src/policy.rs:367-376 | a node mapped to a firing fires so; others as their capability declares, or by the plan's default |
| Policies.AskedOfKernel | framework/sdk/rust/src/policy.rs:340-442 | closure, steps, units in flight, lease and attempts that are asked of the kernel, by mode and policy |
| Policies.BatchIsMost | framework/sdk/rust/src/policy.rs:320-332 | a wave asks for the most that workers and batch allow, at least one |
| Policies.AllowsIff | framework/sdk/rust/src/memo.rs:44-68 | which nodes a memo plan leaves in |
| Policies.DefaultAloneIff | framework/sdk/rust/src/policy.rs:344-349 | a default that is not pinned is what a node fires as if and only if its capability declares nothing else |
| Pipelines.StartedConverging | framework/sdk/rust/src/policy.rs:403-442 | what the kernel starts for a converging policy without a step limit is fresh, closes at its terminal, fires once and has a step for every node |
| Pipelines.StartedPromising | framework/sdk/rust/src/lib.rs:458-514 | what it starts for such a policy, a host with reliable plugins, prompt waves and claims on all modules drives to completion: the run is promising |
| Outlook.ReadyIff | kernel/sdk/rust/src/lib.rs:2274-2298 | on course and with nothing claimed, a node is ready if and only if it has not committed and all it reads from has |
| Outlook.WaveIsRound | framework/sdk/rust/src/lib.rs:716-764 | what a wave of a promising run claims is the next round read off the assembly, in its order |
| Outlook.WaveEndsIff | framework/sdk/rust/src/lib.rs:846-913 | without memo records a wave ends with the terminal exactly when the round does |
| Race.ForeseenToErr | framework/sdk/rust/src/lib.rs:691-775 | for the pipeline whose drive errs this can be read off beforehand |

## Left out

- Idempotent replay of request keys, deadlines and the rest of the request context.
- The event bus: `publish` appends its entry; delivery, backlog and event numbers are not state.
- Protobuf: ledger details are typed values; `Chain` takes their bytes as a parameter. Unknown enum values on the wire.
- SHA-256 itself, and hexadecimal formatting beyond the shape of a digest.
- Error texts.
- Reads without state: `get_run`, `get_artifact`, `get_blob`, `has_blob`, `snapshot`.
- Copies the source keeps twice: a claim stores its work item once; the capability list beside the modules.
- Meta, producer, entity and supersedes fields of artifacts are one opaque list.
- Threads: plugins are functions, so running them side by side only matters through the order of commits, which is kept. When a side-by-side wave errs, the executions whose commits were not reached are not listed as executed.
- The step of `start_pipeline` after the kernel has started the run: opening storage tables.
- Presentation, step events and tabular storage of the host; its counters saturate as in the source but the count theorem is about the list of executed nodes.
- `drive_one_pass`, `try_step`, injection through the host, and the policy builders.
- The host drives one run, seen as one run sees the kernel (`KernelRuns` connects the two); plugins depend on module, version, digest, capability and inputs alone.
- Counters that the source keeps in 64 or 32 bits are unbounded where the model proves them bounded by a limit of the run; delivery counters saturate as in the source.
- Prior runs that were themselves cut: resumption is about runs started whole.
- Appended entries of a kernel kind whose detail does not decode; an entry of a kernel kind is what a reader decodes it to.
- Several hosts driving one run at a time: other callers act on the run only before the host takes it up.
- DriveUntilIdle: completion is promised of runs on which plugins are reliable and no lease expires within a wave; what a drive does when leases expire under it is not characterised. With memo records the error of a wave is characterised by its order, and that of several waves by the claims left at the end.
