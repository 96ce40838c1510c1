# Node provisioning: a Dafny model

This project models the logic of a Kubernetes controller that provisions cluster nodes, and proves
properties of it over every run: the NodeProvision reconciler, the VPN address allocator and peer
registry, resumable control-plane and worker provisioning, the credential cache, one-time codes and
the bootstrap token.

`dafny verify dfyconfig.toml` checks everything.

## How it is modelled

- **Runs.** A protocol is a state and a function `Next(state, event)`. One event is one answer to one
  outside call, one boundary of a background job, one act of somebody else, or a crash, so failures and
  crashes fall between any two calls. Theorems are lemmas over all event lists.
- **Code.** Where the repository changes state step by step there is a class or a loop that does the
  same: `NodeReconciler`, `ControlPlaneReconciler`, `WorkerReconciler`, `Credentials.CredentialManager`,
  `Ledger.NetConfigStatus`, `Jobs.Controller`, `JoinToken.NetConfig`, the awk loop, the dump parsers, the
  address scan and increment, and the phase loop.
- **Reconcilers.** Each gets a script of everything that will happen outside and takes events off it one
  by one. The ghost constants `final` and `total` say where the machine will be at the script's end and
  how many reconciles will have ended; every method keeps "the machine, run from here on what is left,
  still gets there", and returns only with one more reconcile ended or the script used up. A crash is
  possible only where the script has one. So `Serve` ends, for every script, in the machine's state.
- **API server.** `Status().Update` and `Update` need a matching resource version; a merge patch does
  not, and carries each list that changed since the read, whole. A lost answer leaves a write applied. A
  launch that returns an error created nothing.
- **Controller.** One reconcile at a time per object. A crash ends all goroutines and empties all maps.
- **Registry.** One node's steps are sequential: its clean-up does not run beside its own registration.
  A clean-up looks into the ledger and into the live table in two steps, with other nodes' steps possible in
  between. The results about whole runs have one condition on clean-ups (`PeerRegistry.Careful`): at each of
  the two looks, the address gone by is not, in the live table, at a key made for another node. That the key
  it resolves to is then harmless is proved (`PeerRegistrySafety.ResolvesOwnOrDead`); what happens without the
  condition are `PeerRegistrySafety.StaleAddressRemovesPeer` and `PeerRegistrySafety.LateLookRemovesPeer`, and
  when it keeps itself is `PeerRegistrySafety.LiveAddressStaysOwned`. The peer table is read before a peer is
  set; without that, `PeerRegistrySafety.UnreadRegisterStealsIff`. A run starts with no node in flight, on
  any table, conf and ledger that do not contradict each other.
- **VPN server.** Reading the peer table, the conflict check and `wg set` are one step (a registration whose
  reading is out of date by the time it sets is one that has not read: `PeerRegistrySafety.UnreadRegisterStealsIff`);
  each rewrite of wg0.conf is one step. Peer keys are 44 characters of base64 and each is new. A missing wg0.conf
  counts as empty.
- **IPv6.** Go's reading of addresses that are not dotted decimals is a parameter of the dump parsers; API
  endpoints in brackets are not read.
- **Tokens.** The state of the join command is its text alone; its token is what kubeadm would read from it. A
  command that the remote `kubeadm` prints names the token it made. The server's address and the certificate's
  hash hold no spaces (`JoinToken.Plain`).
- **Time.** In the credential cache calls take no time; in the token model all delays are explicit.

## What the code does differently from its comments

- `registerVPNPeer` is said to skip `wg set` for a pair already registered (provider/onprem/provisioner.go:483-485);
  it runs it again, which changes nothing (`PeerRegistrySafety.KeepRepeat`).
- Stale blocks are found by a substring search for `<address>/32`, so persisting 10.0.0.1 also removes
  the block of 110.0.0.1 (`WgPeers.PersistKeepsClaimIff`, `Dotted.SuffixWitness`). In a range with a
  prefix of at least eight bits this cannot happen (`AddressPool.RangeSuffixFree`), which is the one
  condition on the range in the registry theorems.
- A peer header directly after an unterminated block discards that block (`WgConf.UntouchedIff`).
- The allocator is said to return the next free address; it looks only above the last element of a list
  whose order is arbitrary, and nowhere when that element is of another network
  (`AddressPool.EveryOrderAllocatesIff`, `Scan.ScanIncomplete`, `Scan.ForeignStartRunsOut`).
- Without a persisted marker phase a second instance can be launched
  (`NodeLifecycleSafety.UnmarkedRunLaunchesTwice`).
- An MFA session reused from the secret is cached as one that never expires
  (`Credentials.CachedWithExpiryIff`), so the timed results are about role mode.
- `AssumeRole` is said to clamp its duration (provider/aws/mfa.go:231); an out-of-range one becomes the
  default, and that already in `parseRoleDuration`.
- The bootstrap-token secret is taken as created when one with its ID exists (`JoinToken.CollisionIff`).
- The ledger's patches are said not to clobber what others add; they do when both change the same list
  (`Ledger.RecordDropsIff`, `Ledger.ReleaseDropsIff`), and can leave a ledger that contradicts itself
  (`Ledger.PatchCanContradict`).
- A locally refreshed join command names the API server as cluster-info does; when that is a host name, AWS and
  GCP launches fail on it (`JoinEndpoint.LocalCommandRoute`).
- A finished on-prem job can delete its successor's progress entry (`Jobs.ProgressCanBeWiped`).

## Model

The rows are about whole runs, all inputs or whole procedures. The last ones, which begin with "one step" or
"only a crash", are corollaries that follow from a single step of a machine.

| member | source | states |
|---|---|---|
| `NodeLifecycleSafety.AtMostOneLaunch` | internal/controller/ml/nodeprovision_controller.go:242-509 | over every run with current reads in which each launch found ConfiguringVPN or CreatingInstance persisted, whatever crashes, failed launches, retries through Failed, foreign edits and lost writes it holds, at most one instance is launched |
| `NodeLifecycleSafety.LaunchPossibleIff` | internal/controller/ml/nodeprovision_controller.go:232-342 | between reconciles some continuation launches an instance exactly when the current object exists, is not being deleted, records no instance ID and is in a starting phase or Failed; so a marker phase blocks every launch until somebody edits the status |
| `NodeLifecycleSafety.CrashAfterLaunchIff` | internal/controller/ml/nodeprovision_controller.go:442-506 | after a launch followed by a crash another launch can follow exactly when no marker phase had been persisted |
| `NodeLifecycleSafety.UnmarkedRunLaunchesTwice` | internal/controller/ml/nodeprovision_controller.go:425-469 | a concrete run from a new object, all reads current, in which all three progress writes are refused and two instances are launched: what the marker hypothesis is for |
| `NodeLifecycleSafety.FinalizerRemovedAfterCleanup` | internal/controller/ml/nodeprovision_controller.go:1530-1707 | even when every read is stale: the step that takes the finalizer off the current object does so only if the node that object records was observed gone and the instance it records was terminated |
| `NodeLifecycleSafety.RecordedInstancesTerminated` | internal/controller/ml/nodeprovision_controller.go:1600-1707 | with current reads, when the finalizer comes off, every instance ID that any persisted version ever recorded has been terminated |
| `NodeLifecycleSafety.EveryVersionWellFormed` | internal/controller/ml/nodeprovision_controller.go:493-1285 | with current reads every version ever persisted is well formed: from WaitingForInstance to Ready the instance ID and VPN address are set and the address equals the VPN address, PrePullingImages and Ready have a node name, Ready has progress 100 and a completion time |
| `NodeLifecycleAnswers.EveryFieldAnswered` | internal/controller/ml/nodeprovision_controller.go:470-1285 | with current reads, in every version ever persisted: the instance ID and both addresses are the answer of one successful launch of the run; phases from Bootstrapping on come only after that very instance was reported running; a node name was found by a node list and stamped; PrePullingImages comes only after a list that names images, Ready only after one that names none or could not be read, or after the images were reported pulled; Failed only after an answer on which provisioning gives up |
| `NodeLifecycleAnswers.LaunchAfterAllCalls` | internal/controller/ml/nodeprovision_controller.go:378-469 | no read need be current: an instance is launched only in a reconcile in which the secret was read, the defaults resolved, the network config found, the VPN server reached and the provider's credentials obtained |
| `NodeLifecycleRuns.NewBecomesReady` | internal/controller/ml/nodeprovision_controller.go:188-1285 | from a new object, reconciles in which every call succeeds end with one launch and the status Ready, progress 100, completed, with the instance, address and node name that were answered |
| `NodeLifecycleRuns.AdoptionRuns` | internal/controller/ml/nodeprovision_controller.go:200-224 | an object without the finalizer gets it, and nothing else, before anything is done for it |
| `NodeLifecycleRuns.ProvisioningRuns` | internal/controller/ml/nodeprovision_controller.go:378-509 | the provisioning reconcile among them persists exactly four versions, in order, with phases Validating 5, ConfiguringVPN 15, CreatingInstance 25 and WaitingForInstance 30 |
| `NodeLifecycleRuns.BrokenLaunchRuns` | internal/controller/ml/nodeprovision_controller.go:470-482 | a launch that fails behind its address persists one version: Failed, with the address |
| `NodeLifecycleRuns.ResetRuns` | internal/controller/ml/nodeprovision_controller.go:307-339 | the retry of a failed object persists one version: no phase and no addresses |
| `NodeLifecycleRuns.JoinWithoutImagesRuns` | internal/controller/ml/nodeprovision_controller.go:1214-1242 | a stamped node with no images to pull, or no answer about them, makes the object Ready in the same reconcile |
| `NodeLifecycleRuns.NodeAwaited` | internal/controller/ml/nodeprovision_controller.go:1105-1130 | a node that is not there yet persists RegisteringNode 70 and no more |
| `NodeLifecycleRuns.RecordedAdvances` | internal/controller/ml/nodeprovision_controller.go:251-272 | a marker phase with a recorded instance moves on to WaitingForInstance without a launch |
| `NodeLifecycleRuns.RecordedSkips` | internal/controller/ml/nodeprovision_controller.go:386-399 | so does a starting phase with a recorded instance, once the secret has been read |
| `NodeLifecycleRuns.DeletionRuns` | internal/controller/ml/nodeprovision_controller.go:1530-1707 | one deletion in which every call succeeds and the node is found gone persists exactly Deleting, the cleared instance ID and the removed finalizer, in order, with node and instance gone, and the object can then be collected |
| `NodeLifecycleRuns.BareDeletionRuns` | internal/controller/ml/nodeprovision_controller.go:1530-1707 | a deletion of an object without node and instance persists Deleting and the removed finalizer and terminates nothing |
| `NodeLifecycleRuns.GivesUp` | internal/controller/ml/nodeprovision_controller.go:390-482 | an unusable spec, missing provider credentials and a launch that chose no address persist Failed and change nothing else |
| `NodeLifecycleRuns.RefusedWrite` | internal/controller/ml/nodeprovision_controller.go:380-1705 | a status write that is refused changes nothing on the server, one whose answer is lost is one version; either way a progress phase is read again, a deletion goes on and everything else returns |
| `NodeLifecycleRuns.EditedMeanwhile` | internal/controller/ml/nodeprovision_controller.go:425-1707 | an edit by somebody else after the read makes every status write and finalizer update of that reconcile persist nothing |
| `NodeLifecycleRuns.ReadyThenGone` | internal/controller/ml/nodeprovision_controller.go:1530-1707 | an object with node and instance whose deletion is asked for loses both in one reconcile in which every call succeeds, and the API server can then drop it |
| `NodeLifecycleRuns.GoneOnlyClean` | internal/controller/ml/nodeprovision_controller.go:200-240 | in every run the object is dropped only after its deletion was asked for and its finalizer taken off, and then nothing is persisted for it any more |
| `NodeLifecycleRecords.RememberedIff` | internal/controller/ml/nodeprovision_controller.go:488-509 | over any run, current reads or not: an instance ID is recorded in some persisted version at the end exactly when it was at the start or some reconcile reached the final write, its re-fetch answered, and that write was applied |
| `NodeLifecycleRecords.RecordsIff` | internal/controller/ml/nodeprovision_controller.go:488-509 | one step makes an instance ID recorded that was not exactly when it is the applied final write of that ID; no write, stale copy or foreign edit brings another one in |
| `NodeLifecycleRecords.OrphanIff` | internal/controller/ml/nodeprovision_controller.go:1600-1707 | with current reads, when the finalizer comes off, an instance has been terminated exactly when some applied final write recorded it: the orphans are exactly the launches whose write never took effect |
| `NodeReconciler.Reconciler.Reconcile` | internal/controller/ml/nodeprovision_controller.go:188-342 | one reconcile as sequential code takes up exactly the outside events that the machine's reconcile does, with other writers before any call and a crash only where one happens: afterwards the machine, run on what is left, still ends in the state and after the number of reconciles it was going to |
| `NodeReconciler.Reconciler.ReconcileProvisioning` | internal/controller/ml/nodeprovision_controller.go:378-480 | from the secret lookup on, through every error return, the code ends its reconcile, and in the state, where the machine does; on whatever answers come |
| `NodeReconciler.Reconciler.SetPhaseStatus` | internal/controller/ml/nodeprovision_controller.go:425-431 | goes on exactly to the machine's point after the marker when the write, or after its failure the re-fetch, succeeds; otherwise the reconcile has ended as the machine's does |
| `NodeReconciler.Reconciler.LaunchInstance` | internal/controller/ml/nodeprovision_controller.go:475-509 | from the launch on (instance noted, address kept in the copy even without an instance, ledger record, re-fetch, write of the ID) the code ends in the machine's state |
| `NodeReconciler.Reconciler.Write` | internal/controller/ml/nodeprovision_controller.go:505-507 | a status write takes effect only on a matching resource version, succeeds only when it did and was answered, and a lost answer leaves it applied |
| `NodeReconciler.Reconciler.ReconcileJoining` | internal/controller/ml/nodeprovision_controller.go:1084-1239 | from listing the nodes on (waiting, stamping the node, PrePullingImages or Ready) the code ends in the machine's state |
| `NodeReconciler.Reconciler.RetryFailed` | internal/controller/ml/nodeprovision_controller.go:307-339 | from the VPN clean-up of a failed object on (re-fetch, nothing when somebody else reset it, else phase and addresses cleared) the code ends in the machine's state |
| `NodeReconciler.Reconciler.HandleDelete` | internal/controller/ml/nodeprovision_controller.go:1530-1707 | from the Deleting write on (node, instance, cleared instance ID, VPN peer, finalizer) the code ends in the machine's state, at whichever stage it stops |
| `NodeReconciler.Serve` | internal/controller/ml/nodeprovision_controller.go:188-342 | for every script of outside events the controller built from the sequential code ends in exactly the state of the machine's run; hence at most one launch and only well-formed statuses under the machine's hypotheses |
| `IPv4.Increment` | provider/onprem/provisioner.go:782-795 | the in-place byte carry adds one modulo 2^32 |
| `IPv4.MaskEqualIff` | provider/onprem/provisioner.go:759-759 | comparing two addresses byte by byte under a prefix mask holds exactly when they agree without their host bits |
| `IPv4.BytesUnique` | provider/onprem/provisioner.go:782-795 | four bytes and an integer below 2^32 determine each other |
| `Dotted.ParseFormat` | provider/onprem/provisioner.go:752-763 | an address written as text reads back as itself |
| `Dotted.FormatParse` | provider/onprem/provisioner.go:752-763 | every text that reads as an address is exactly the text the address is written as, so comparing texts compares addresses |
| `Dotted.SuffixFree` | provider/onprem/provisioner.go:562-567 | of two addresses with the same first byte, the text of one ends with the other's only if they are equal |
| `Dotted.SuffixWitness` | provider/onprem/provisioner.go:562-567 | 110.0.0.1 ends with 10.0.0.1, the confusion the substring search allows |
| `AddressPool.RangeIsInterval` | provider/onprem/provisioner.go:746-761 | containment in a CIDR with a prefix of 1 to 32 bits is an integer interval inside the address space that holds the written address |
| `AddressPool.RangeIsPrefix` | provider/onprem/provisioner.go:746-761 | for every address: mask containment and the interval both mean sharing the written address's bits up to the prefix, and the interval holds one address for each value of the host bits |
| `AddressPool.RangeSuffixFree` | provider/onprem/provisioner.go:746-761 | in a range with a prefix of at least eight bits no address's text ends with another's |
| `Scan.FindsLeast` | provider/onprem/provisioner.go:757-767 | from any start, inside the range or not, the scan answers v exactly when v is the least unused address of those it looks at: above a start in the range, all of them for the start just below it, none otherwise |
| `Scan.RunsOutIff` | provider/onprem/provisioner.go:757-767 | from any start the scan reports exhaustion exactly when every address it looks at is used, and exactly when it does not succeed |
| `Scan.SucceedsIff` | provider/onprem/provisioner.go:757-767 | from any start the scan succeeds exactly when some address it looks at is free |
| `Scan.OneOutcome` | provider/onprem/provisioner.go:757-767 | a scan has one outcome: one address or exhaustion, never both |
| `Scan.EveryStartSucceedsIff` | provider/onprem/provisioner.go:441-458 | for arbitrary used addresses: the scan succeeds from every one of them exactly when each lies in the range or just below it and the range's highest address is free |
| `Scan.ScanIncomplete` | provider/onprem/provisioner.go:740-767 | a range of four addresses in which the scan runs out although an address is free |
| `Scan.ForeignStartRunsOut` | provider/onprem/provisioner.go:740-767 | with one used address of another network as the start, the scan runs out of a range that is entirely free |
| `AddressPool.ScanFrom` | provider/onprem/provisioner.go:757-767 | the loop ends for every start and answers what the scan specification says, comparing texts |
| `AddressPool.GetNextAvailableIP` | provider/onprem/provisioner.go:740-768 | errors exactly on an unreadable range or last element; otherwise the least address sharing the prefix above the last list element (or any sharing it, when that element is just below them) whose text is not listed, and exhaustion exactly when the texts of all those are listed |
| `AddressPool.Contains` | provider/onprem/provisioner.go:773-780 | list membership |
| `AddressPool.UnionOf` | provider/onprem/provisioner.go:441-453 | the list handed to the scan holds exactly the addresses of both sources, in any order |
| `AddressPool.AllocateVPNIP` | provider/onprem/provisioner.go:433-468 | in the iteration order taken: an allocated address is that least one, shares the prefix and is in neither source; a refusal is exactly an unreadable range, an unreadable last element or exhaustion; the final conflict error never occurs |
| `AddressPool.EveryOrderAllocatesIff` | provider/onprem/provisioner.go:433-468 | for any union of ledger and table texts, addresses or not, in the range or not: an address is allocated in every iteration order exactly when the highest address of the prefix is in neither source and each element, had it come last, shares the prefix or has a successor that does (empty ones count as none); with nothing used, when the written address is not the highest |
| `WgConf.FlattenParse` | internal/controller/ml/nodeprovision_controller.go:1788-1806 | cutting a conf into peer blocks and other lines and joining them gives the conf back |
| `WgConf.ParseFlatten` | internal/controller/ml/nodeprovision_controller.go:1788-1806 | joining pieces that awk could have cut and cutting again gives the pieces back |
| `WgConf.FilterExact` | internal/controller/ml/nodeprovision_controller.go:1788-1806 | on a conf without a peer header inside an open block, the awk filter removes exactly the peer blocks its rule discards and keeps every other line in order |
| `WgConf.FilterStable` | internal/controller/remotecluster_controller.go:2198-2216 | filtering keeps the layout, leaves exactly the kept pieces and is idempotent |
| `WgConf.UntouchedIff` | provider/onprem/provisioner.go:569-571 | a filter with nothing to discard leaves a conf alone exactly when no peer header stands inside an open block; otherwise the earlier block is lost |
| `WgConf.RunAwk` | provider/onprem/provisioner.go:562-587 | the script, run line by line with its in_peer, buf, has_ip and has_key variables, outputs what the filter function says |
| `WgConf.PatternTexts` | provider/onprem/provisioner.go:562-587 | what the script's patterns match, by the text of the line: a leading bracket, a leading peer header, and a public-key or allowed-ips line with the key or the address followed by /32, with anything around them |
| `WgPeers.StripAfterAppend` | provider/onprem/provisioner.go:590-594 | stripping a key right after appending its block to a conf without it gives the original lines and one blank line |
| `WgPeers.PersistIdempotent` | provider/onprem/provisioner.go:536-597 | persisting the same peer again changes nothing |
| `WgPeers.PersistEvictsStale` | provider/onprem/provisioner.go:562-587 | afterwards no block claims our address under another key |
| `WgPeers.StaleLineEvicts` | provider/onprem/provisioner.go:562-587 | a block that shows our key nowhere is gone afterwards when one of its allowed-ips lines holds our address followed by /32, whatever else is on that line |
| `WgPeers.PersistFreshKey` | provider/onprem/provisioner.go:562-594 | persisting a key no line shows removes exactly the blocks that claim its address and adds at the end a blank line, the header, the key, the address with /32 and the keepalive of 25 seconds |
| `WgPeers.PersistHoldsIff` | provider/onprem/provisioner.go:562-594 | afterwards the conf holds our block exactly when it did before or no line showed our key: a key present with another address is left as it is |
| `WgPeers.PersistKeepsIff` | provider/onprem/provisioner.go:562-587 | any block, whoever wrote it and however it is laid out, survives a persist exactly when it does not claim our address or does show our key |
| `WgPeers.PersistKeepsClaimIff` | provider/onprem/provisioner.go:562-587 | a block that claims one address, among whatever other lines, survives a persist exactly when it shows our key or its address, as text, does not end with ours |
| `WgPeers.StripKeepsIff` | internal/controller/ml/nodeprovision_controller.go:1788-1806 | after stripping a key the conf holds exactly the pieces it held before except the blocks, however laid out, with a line that shows the key |
| `WgPeers.KeyLineStripped` | internal/controller/ml/nodeprovision_controller.go:1788-1806 | a block with the key anywhere on a public-key line is gone when the key is stripped |
| `WgPeers.KeyLineIff` | provider/onprem/provisioner.go:573-577 | a PublicKey line mentions a key, and the grep for the append finds it, exactly when it is that key's line |
| `WgPeers.AllowedLineIff` | provider/onprem/provisioner.go:573-577 | an AllowedIPs line matches an address exactly when the line's address ends with it |
| `WgDump.ReadVPNServerPeers` | provider/onprem/provisioner.go:394-425 | the map holds for each address text, IPv4 or IPv6, the key of the last line that claims it, and nothing else |
| `WgDump.FindPeerKey` | internal/controller/remotecluster_controller.go:2165-2184 | the search answers the key of the first line that claims the address, and an empty key exactly when none does |
| `Text.FieldsOfJoined` | provider/onprem/provisioner.go:403-408 | words with tabs or spaces between them are read as these words |
| `WgDump.KernelLine` | provider/onprem/provisioner.go:403-417 | a tab-separated line of the dump claims for its first column exactly the comma-separated entries of its fourth |
| `Text.SpaceIff` | provider/onprem/provisioner.go:403-417 | the characters between fields are the blank and the five from tab to carriage return |
| `WgDump.KernelDumpRead` | internal/controller/remotecluster_controller.go:2165-2184 | from what wg prints for one peer at an address both parsers get that peer's key |
| `WgDump.PrefixedEntry` | provider/onprem/provisioner.go:403-420 | an entry of an address and a prefix length is read as that address exactly when the length is at most 32 |
| `WgDump.ParsersAgree` | internal/controller/remotecluster_controller.go:2165-2190 | in a dump that may hold IPv6 entries and malformed ones of other addresses: both parsers report absence of an IPv4 address alike, and the same key when it has one owner |
| `WgDump.AgreeInEveryOrderIff` | provider/onprem/provisioner.go:399-425 | for such a dump both parsers give the same key however the server orders its table exactly when the address has one owner |
| `Ledger.LedgerConsistent` | internal/controller/ml/nodeprovision_controller.go:2227-2281 | over any sequence of records and releases no address is listed twice, peers are pairwise distinct in key and address, and every peer's address is in use |
| `Ledger.RecordIff` | internal/controller/ml/nodeprovision_controller.go:2239-2266 | a record keeps both lists and appends its address unless listed, and its peer unless one with its key or its address is |
| `Ledger.ReleaseIff` | internal/controller/ml/nodeprovision_controller.go:1824-1841 | a release leaves exactly the peers of other nodes with other addresses, as often as before, and exactly the other addresses; all addresses when it has none |
| `Ledger.RecordIdempotent` | internal/controller/ml/nodeprovision_controller.go:2233-2266 | recording a peer again changes nothing, and afterwards its address and a peer with its key or address are listed |
| `Ledger.RecordReleaseIff` | internal/controller/ml/nodeprovision_controller.go:1824-1841 | recording a peer and releasing it restores both lists exactly when neither its address nor its node was in the ledger |
| `Ledger.PeerStays` | internal/controller/ml/nodeprovision_controller.go:1816-1841 | a recorded peer and its address stay through any operations until a release names its node or address |
| `Ledger.StaysIff` | internal/controller/ml/nodeprovision_controller.go:1816-1841 | one operation removes a recorded peer exactly when it is a release naming its node or its address |
| `Ledger.LostUpdateIff` | internal/controller/ml/nodeprovision_controller.go:2268-2278 | a merge patch computed before another record got in loses that record's address exactly when it changes the list and the addresses differ |
| `Ledger.RecordOutcome` | internal/controller/ml/nodeprovision_controller.go:2227-2281 | whatever other writers do before and within each of the attempts: when a record reports success, its address and its peer are listed exactly when its last attempt added them or the server still listed them, and it drops exactly the entries others added since that attempt's read, list by list |
| `Ledger.ReleaseOutcome` | internal/controller/ml/nodeprovision_controller.go:1816-1853 | likewise for a release: on success exactly its own address and peers, as far as its last attempt read them, and what others added since that read are gone |
| `Ledger.AloneOutcome` | internal/controller/ml/nodeprovision_controller.go:2227-2281 | with nobody else writing, through read errors, conflicts and lost answers, the ledger is as it was or has the whole operation, and has it on success |
| `Ledger.OnlyConflictsRetried` | internal/controller/ml/nodeprovision_controller.go:1824-1853 | behind an attempt that ends other than by a conflict no later attempt makes a difference |
| `Ledger.ConflictsOnly` | internal/controller/ml/nodeprovision_controller.go:1824-1853 | a release whose every attempt meets a conflict fails and has written nothing |
| `Ledger.RecordDropsIff` | internal/controller/ml/nodeprovision_controller.go:2268-2278 | a record's merge patch drops an address or a peer of the server exactly when it carries that list and the entry was added by others since the read |
| `Ledger.ReleaseDropsIff` | internal/controller/ml/nodeprovision_controller.go:1824-1841 | a release's merge patch drops exactly what it releases and what others added since the read, and nothing when there was nothing to release |
| `Ledger.PatchConsistent` | internal/controller/ml/nodeprovision_controller.go:2268-2278 | a patch that carries both lists or none keeps a consistent ledger consistent, whatever was written in between |
| `Ledger.PatchCanContradict` | internal/controller/ml/nodeprovision_controller.go:2268-2278 | a patch that carries one list can leave a peer whose address is not in use: a release overlapping a record of a listed address |
| `Ledger.NetConfigStatus.UpdateNetConfigStatus` | internal/controller/ml/nodeprovision_controller.go:2227-2281 | five attempts of read, existence checks, appends and merge patch, with others writing before and within each, leave exactly the ledger and report exactly the result of the retry specification |
| `Ledger.NetConfigStatus.ReleaseAddress` | internal/controller/ml/nodeprovision_controller.go:1816-1853 | five attempts of read, filtering both lists and merge patch, with others writing before and within each, leave exactly the ledger and report exactly the result of the retry specification |
| `Ledger.NetConfigStatus.Resolve` | internal/controller/ml/nodeprovision_controller.go:1733-1752 | the loop resolves key and address of a clean-up to the first ledger peer with the node's name or status address, else to the addresses in the status |
| `Ledger.ResolvedIff` | internal/controller/ml/nodeprovision_controller.go:1737-1760 | key and address are those of the first peer with the node's name or VPN address; where there is none, or it has no address, the address is the VPN address of the status, else its other one |
| `Ledger.NameAloneReleases` | internal/controller/ml/nodeprovision_controller.go:1737-1841 | a node whose status names no address any more is found by its name: its clean-up resolves to its key and address, and the release removes its peer and its address and nothing else |
| `Ledger.ResolvesOwn` | internal/controller/ml/nodeprovision_controller.go:1733-1752 | in a consistent ledger a clean-up of a node that owns its status address resolves to its own peer and leaves every other peer alone |
| `PeerRegistrySafety.NoSharedAddress` | provider/onprem/provisioner.go:433-600 | for every interleaving of allocation, registration, persisting, recording and clean-up steps of many nodes in which clean-ups go by addresses their nodes still own: every node past its registration is live at its address, no two of them hold one key or address, those that finished are in the conf too, the conf stays well formed, and the ledger never contradicts the table |
| `PeerRegistrySafety.RegisteredStays` | provider/onprem/provisioner.go:505-600 | a registered peer stays in the live table and in wg0.conf with the same address in every such run until its own node's clean-up |
| `PeerRegistrySafety.ResolvesOwnOrDead` | internal/controller/ml/nodeprovision_controller.go:1733-1771 | whatever mixture of ledger, live table and status a clean-up resolves its key from, with any steps of other nodes between its two look-ups, going by addresses the node still owns it has no key, a key made for the node, or a dead key that is neither live nor in use and never will be |
| `PeerRegistrySafety.LivePeerStays` | provider/onprem/provisioner.go:512-534 | in every such run no step overwrites, moves or removes a live peer, even one live before the run, except its own node's clean-up |
| `PeerRegistrySafety.CleanUpRemovesIff` | internal/controller/ml/nodeprovision_controller.go:1759-1814 | over the steps of any node's clean-up, careful or not, with no other step between them: a registered peer is gone from table and conf afterwards exactly when the first ledger peer with the node's name or VPN address is it, or there is none and the status address gone by is its address; otherwise it is still registered |
| `PeerRegistrySafety.CleanUpByName` | internal/controller/ml/nodeprovision_controller.go:1737-1814 | a registered peer that the ledger lists under the node's name leaves table and conf in the node's clean-up even when its status names no address |
| `PeerRegistrySafety.CleanBookIff` | internal/controller/ml/nodeprovision_controller.go:1816-1853 | the last step of a clean-up, whatever happened since it began, leaves exactly the ledger peers of other nodes with other addresses and the other addresses |
| `PeerRegistrySafety.RepeatOutcome` | provider/onprem/provisioner.go:486-597 | a registration repeated at its end leaves the peer in table and conf, unless another key has the address by then |
| `PeerRegistrySafety.FinishedCleanUp` | internal/controller/ml/nodeprovision_controller.go:1720-1853 | after a whole clean-up the ledger names neither the node nor its address, and the address can be allocated again once the table does not show it |
| `PeerRegistrySafety.ClearAndStorePersist` | provider/onprem/provisioner.go:536-597 | the two rewrites of a registration together are the persist script |
| `PeerRegistrySafety.FailedCleanUp` | internal/controller/ml/nodeprovision_controller.go:1790-1852 | a clean-up goes on past steps that fail, and where none is applied table, conf and ledger stay as they were |
| `PeerRegistrySafety.GivenUpAllocatesAgain` | provider/onprem/provisioner.go:430-500 | a registration given up before it set anything leaves its address to the node's next attempt |
| `PeerRegistrySafety.TargetIff` | internal/controller/ml/nodeprovision_controller.go:1739-1771 | a clean-up resolves to a live peer's key exactly when it brings the key from the ledger, or brings none and looks up the peer's address |
| `PeerRegistrySafety.LookRemovesIff` | internal/controller/ml/nodeprovision_controller.go:1762-1814 | from its look into the live table on, a clean-up removes a registered peer from table and conf exactly when it came with that peer's key, or with none and the peer's address; otherwise the peer is still registered |
| `PeerRegistrySafety.StaleAddressRemovesPeer` | internal/controller/ml/nodeprovision_controller.go:1733-1814 | a run: one node registers completely, and the clean-up of another whose status still names the address takes its peer out of table and conf |
| `PeerRegistrySafety.LateLookRemovesPeer` | internal/controller/ml/nodeprovision_controller.go:1724-1814 | a run in which every step is careful: a clean-up finds nothing in the ledger and its address is nobody's, another node then registers completely with that address, and the clean-up's later look into the table finds that node's peer and removes it |
| `PeerRegistrySafety.LiveAddressStaysOwned` | internal/controller/ml/nodeprovision_controller.go:1724-1771 | in no run can that happen to an address at which the table shows a key of the node: it stays the node's until the node's own clean-up removes the key |
| `PeerRegistrySafety.Keep` | provider/onprem/provisioner.go:433-600 | every step of every node keeps the invariant that ties table, conf, ledger and the nodes' progress together, the clean-ups' keys included |
| `PeerRegistrySafety.BookConsistent` | internal/controller/ml/nodeprovision_controller.go:2227-2281 | the ledger stays consistent through every interleaving of the nodes' steps |
| `Phases.Host.RunPhases` | pkg/kubeadm/kubeadm.go:62-80 | phases from the start index on run in order up to the first that breaks, each success is reported, earlier ones are skipped, and the result is success exactly when none broke |
| `Phases.TraceDone` | pkg/kubeadm/kubeadm.go:62-80 | when all earlier phases succeeded, so have all earlier and all run phases afterwards, and none was skipped |
| `Phases.RunsThroughIff` | pkg/kubeadm/kubeadm.go:62-80 | a run of phases gets to the end exactly when no command of the phases it was to run fails |
| `ControlPlane.ResumeSound` | internal/controller/remotecluster_controller.go:354-448 | in every run with crashes, failed phases and failed or lost patches: a persisted index n means phases 0 to n succeeded since the last Cleanup, and no phase ever started before all earlier ones had succeeded |
| `ControlPlane.IndexMonotone` | internal/controller/remotecluster_controller.go:405-432 | in no run does the persisted index go down before the cluster is sealed by init-complete or a join command |
| `ControlPlane.CleanupNeverAgain` | pkg/kubeadm/kubeadm.go:405-436 | once any progress is persisted, or init is complete, Cleanup never starts again in any continuation |
| `ControlPlane.SealedForever` | internal/controller/remotecluster_controller.go:337-350 | once init-complete or a join command is persisted, no continuation creates a job, has one in the table or adds to the host's log |
| `ControlPlane.ClearedOnlyJoined` | internal/controller/remotecluster_controller.go:1383-1402 | in every run, after init-complete was set it is still set or a join command is in the status, and a join command there is never replaced by an empty one |
| `ControlPlaneProgress.ReadIsPersisted` | internal/controller/remotecluster_controller.go:397-443 | in every run: once a job's result, success or failure, has been read and the next patch is applied, the index is the last phase in which the job succeeded by the host's log |
| `ControlPlaneProgress.FlushIsPersisted` | internal/controller/remotecluster_controller.go:434-448 | in every run: a poll that finds the job at work and the index behind leads to a patch, and once it is applied the index is the phase the job had come to |
| `ControlPlaneProgress.NextStarts` | internal/controller/remotecluster_controller.go:354-366 | whatever follows, with any crashes, failed connections and failed jobs, the next thing that happens on the host is the start of the phase after the persisted one |
| `ControlPlaneProgress.FailedJobResumes` | internal/controller/remotecluster_controller.go:354-443 | after a job that failed behind phase n, its result read and the patch applied, the next phase to start in any continuation is n + 1 |
| `ControlPlaneProgress.FlushThenCrashResumes` | internal/controller/remotecluster_controller.go:354-448 | after an applied flush of phase n and a crash the next phase to start in any continuation is n + 1 |
| `ControlPlaneProgress.SealedIsDone` | internal/controller/remotecluster_controller.go:337-443 | in every run an initialised or ready cluster has been through all phases since the last Cleanup |
| `ControlPlaneProgress.CommandWasAnswered` | internal/controller/remotecluster_controller.go:1354-1405 | the join command in the status is one that a job or a token refresh was answered with in this run |
| `ControlPlaneProgress.CompletesFromCache` | internal/controller/remotecluster_controller.go:341-350 | an initialised cluster without a join command becomes ready with the cached command, without another job |
| `ControlPlaneProgress.RefreshStores` | internal/controller/remotecluster_controller.go:1121-1150 | a token refresh that gets a command stores it and changes nothing else; one that gets none changes nothing |
| `ControlPlaneStale.InitialisesInOneRun` | internal/controller/remotecluster_controller.go:331-448 | left to succeed, a new cluster has every phase run once and in order and ends ready with the job's command, its index and flags cleared |
| `ControlPlane.RestartIff` | internal/controller/remotecluster_controller.go:354-366 | a cluster without a job and not sealed restarts at the phase after the persisted index, at Cleanup exactly when none is persisted |
| `ControlPlane.JobIsRunPhases` | pkg/kubeadm/kubeadm.go:405-436 | from any start phase to any phase that fails, or to the end, the background job leaves in the log, the progress and its channel what RunPhases leaves: the phases run, the failed one started, and an error or the join command as the result |
| `ControlPlane.JobRunsPhases` | pkg/kubeadm/kubeadm.go:405-436 | k phases of the job change log and progress to RunPhases' trace of those phases and nothing else |
| `ControlPlane.OneJob` | internal/controller/remotecluster_controller.go:354-403 | in every run at most one init job of the cluster is working |
| `ControlPlane.ReadOnceBeforeNext` | internal/controller/remotecluster_controller.go:354-403 | once a later init job exists, the earlier one was lost in a crash unread or its result was read exactly once |
| `ControlPlane.ProgressIsOwn` | internal/controller/remotecluster_controller.go:390-413 | a progress entry belongs to the latest job, which the table still names, and the phases it claims have succeeded |
| `ControlPlaneStale.StaleStartsIff` | internal/controller/remotecluster_controller.go:337-366 | a reconcile of an initialised, idle cluster that reads the object as of any earlier moment of the run starts another init job exactly when that moment is before init-complete was persisted |
| `ControlPlaneStale.StaleStartPhase` | internal/controller/remotecluster_controller.go:354-366 | that job's first step starts the phase after the one the old copy names, so it resets the host with Cleanup exactly when the copy is older than all persisted progress |
| `ControlPlaneStale.StaleReadTearsDown` | internal/controller/remotecluster_controller.go:337-448 | a run that initialises a cluster completely until it is ready, after which a reconcile with the copy of the run's beginning starts a job whose first step undoes all phases |
| `ControlPlaneReconciler.Reconciler.ReconcileControlPlane` | internal/controller/remotecluster_controller.go:331-448 | the reconcile as sequential code over annotations, status and the two maps takes up exactly the outside events the machine's reconcile does, with jobs working before any call and a crash only where one happens, and ends in the machine's state |
| `ControlPlaneReconciler.Reconciler.TakeResult` | internal/controller/remotecluster_controller.go:397-413 | taking a result out of the channel returns it with the progress entry, removes the cluster's entries from both maps, and goes on to persist the progress before the outcome is looked at |
| `ControlPlaneReconciler.Reconciler.CompleteControlPlane` | internal/controller/remotecluster_controller.go:1354-1405 | from the post-init steps on (write of the join command, clearing the flags) the code ends in the machine's state |
| `ControlPlaneReconciler.Reconciler.RefreshJoinToken` | internal/controller/remotecluster_controller.go:1121-1150 | a token refresh ends in the machine's state on whatever answers come |
| `ControlPlaneReconciler.Serve` | internal/controller/remotecluster_controller.go:331-448 | for every script of outside events the controller built from the sequential code ends in exactly the state of the machine's run; so the host has been through every phase its index claims and none was skipped |
| `Worker.ResumeSound` | internal/controller/remotecluster_controller.go:545-620 | in every run a worker's persisted index n means phases 0 to n succeeded since the last Cleanup, and a joined worker has been through all nine |
| `Worker.IndexMonotone` | internal/controller/remotecluster_controller.go:565-613 | in no run does the worker's index go down before the write that marks it as joined |
| `Worker.ReportResumes` | internal/controller/remotecluster_controller.go:565-613 | when phase n has just succeeded on a worker and the patch after it is applied, the index is n, and in any continuation the next phase to start is n + 1 |
| `Worker.CrashResumes` | internal/controller/remotecluster_controller.go:545-613 | after a crash between two phases the next reconcile goes on with the phase the crash came before |
| `Worker.NextStarts` | internal/controller/remotecluster_controller.go:551-560 | whatever follows, the next thing that happens on a worker's host is the start of the phase after the persisted one |
| `Worker.JoinsInOneRun` | internal/controller/remotecluster_controller.go:545-620 | a worker whose every call succeeds goes through all phases once and in order and is then joined, its index cleared |
| `Worker.CleanupNeverAgain` | internal/controller/remotecluster_controller.go:551-613 | once a worker's progress is persisted Cleanup never starts again; once it is joined no phase does |
| `WorkerReconciler.Reconciler.ReconcileWorker` | internal/controller/remotecluster_controller.go:545-620 | the worker reconcile as sequential code takes up exactly the outside events the machine's reconcile does, with a crash only where one happens, and ends in the machine's state |
| `WorkerReconciler.Reconciler.JoinWorkerNode` | pkg/kubeadm/kubeadm.go:62-80 | the phase loop from any start phase, with the callback that patches the annotation, ends where the machine's phase steps do, whichever phase fails |
| `WorkerReconciler.Serve` | internal/controller/remotecluster_controller.go:545-620 | for every script of outside events the worker's controller ends in exactly the state of the machine's run; so a worker marked as joined has been through all phases and none was skipped |
| `Jobs.OneJobPerKey` | internal/controller/ml/nodeprovision_controller.go:896-993 | in every run at most one job per key is working |
| `Jobs.ReadOnceBeforeNext` | internal/controller/ml/nodeprovision_controller.go:1015-1034 | once a later job of the same key exists, the earlier one was lost in a crash or its result was read exactly once |
| `Jobs.ProgressCanBeWiped` | internal/controller/ml/nodeprovision_controller.go:970-976 | a run in which a late exit removes the next job's progress entry |
| `Jobs.Controller.Provision` | internal/controller/ml/nodeprovision_controller.go:888-995 | a job is launched exactly when none is registered and the checks pass |
| `Jobs.Controller.PollBootstrap` | internal/controller/ml/nodeprovision_controller.go:1001-1034 | polling takes a finished result out with its map entry, leaves a working job alone, and without an entry starts over |
| `Credentials.EveryGetLeavesGrace` | provider/aws/credmanager.go:66-77 | after any run, with any refreshes failing and any time passing, every credential handed out in role mode, from cache, secret or STS, really runs for at least 300 s more |
| `Credentials.CachedIsServed` | provider/aws/credmanager.go:66-77 | a cached credential with at least five minutes left, or without an expiry, is answered and nothing changes, whatever the outside would have answered |
| `Credentials.StoredSessionIsServed` | provider/aws/credmanager.go:126-194 | a session in the secret with at least five minutes left is taken over without STS and only the cache changes |
| `Credentials.NewRoleSessionIsStored` | provider/aws/credmanager.go:126-194 | a new role session is cached with the end of its duration and stored in the secret with that second, and no other secret changes |
| `Credentials.NewMfaSessionIsStored` | provider/aws/credmanager.go:126-194 | the same without a role, for a session got with a one-time code; a failed write-back leaves all secrets as they were |
| `Credentials.OutageShowsIff` | provider/aws/credmanager.go:66-77 | when no secret can be read, a cached token is answered after any wait exactly while it has five minutes left or no expiry |
| `Credentials.NeverBelowThreeMinutes` | provider/aws/credmanager.go:94-106 | while ticks come at least every 120 s and succeed, no cached session ever has less than 180 s left, however gets, evictions and waits mix in |
| `Credentials.ScanRefreshes` | provider/aws/credmanager.go:229-253 | after a scan that succeeds every cached session has at least the grace left, in whatever order the map is scanned |
| `Credentials.RoleDuration` | provider/aws/credmanager.go:216-225 | a number from 900 to 43200 is taken as it is, anything else is 3600 |
| `Credentials.CredentialManager.RefreshEntry` | provider/aws/credmanager.go:126-194 | the refresh pipeline changes cache and secret exactly as specified and returns the token it cached |
| `Credentials.CredentialManager.GetCredentials` | provider/aws/credmanager.go:66-77 | a cached entry outside the grace is returned without any call, otherwise a refresh |
| `Credentials.CredentialManager.EvictSecret` | provider/aws/credmanager.go:82-90 | exactly the entries of that secret, in all regions, are removed |
| `Credentials.EvictIff` | provider/aws/credmanager.go:82-90 | exactly the entries of that secret's namespace and name leave the cache, the others keep their values, and nothing else changes |
| `Credentials.CredentialManager.RefreshExpiring` | provider/aws/credmanager.go:229-253 | exactly the entries inside the grace are refreshed, once each, and those whose secret is gone are evicted |
| `Credentials.PicksOnce` | provider/aws/credmanager.go:229-253 | the order of a scan is, as a multiset, the set of the entries with less than 300 s left |
| `Totp.PutUint64` | provider/aws/mfa.go:209-210 | the counter is written as eight bytes, most significant first |
| `Totp.BigEndianValue` | provider/aws/mfa.go:209-210 | those bytes are the counter's big-endian representation |
| `Totp.Truncate` | provider/aws/mfa.go:216-221 | masks, shifts and ors give the RFC 4226 section 5.3 value modulo a million, with all indices in bounds for every 20-byte MAC |
| `Totp.OrOfShifts` | provider/aws/mfa.go:218-221 | or-ing the shifted bytes puts them side by side as one big-endian number |
| `Totp.SixDigits` | provider/aws/mfa.go:216-223 | the text is six digits that read back as the truncated value modulo a million |
| `Totp.ConstantWithinStep` | provider/aws/mfa.go:208-210 | the code is the same throughout a 30 s step of RFC 6238 section 4.2, and any time outside the step hashes another counter |
| `Totp.GenerateTOTPCode` | provider/aws/mfa.go:198-224 | for any keyed hash the text is six digits that read as that number for the hash of the eight big-endian bytes of unix / 30 |
| `Totp.CodeOfBytes` | provider/aws/mfa.go:216-221 | the code is the four bytes from where the low four bits of the MAC's last byte point, big-endian without the top bit, modulo a million |
| `Totp.WorkedExample` | provider/aws/mfa.go:216-221 | the example of section 5.4 of RFC 4226 gives 872921 |
| `JoinToken.FourHoursLeft` | internal/controller/ml/nodeprovision_controller.go:1885-1919 | over every run of both refreshers with prompt writes, including clean-up of expired secrets: from every command requireNetConfig returns kubeadm reads a token, and the cluster accepts that token for at least four more hours less the delay from creation to stamp |
| `JoinToken.CollisionIff` | internal/controller/ml/nodeprovision_controller.go:1955-1977 | with the bootstrap secrets as a map from ID to secret: after a local refresh kubeadm reads the token made from the recorded command, and the cluster accepts it exactly when the drawn ID was not among them or named the very same secret; a new one for 86400 s |
| `JoinToken.JoinCommandWords` | internal/controller/ml/nodeprovision_controller.go:2023-2030 | a command built locally reads as kubeadm, join, the server without its scheme, --token, the ID and the secret with a dot between them, the hash flag and the hash |
| `JoinToken.ReadsBack` | internal/controller/ml/nodeprovision_controller.go:1953-2030 | the word after --token, cut at the dot, is the ID and the secret of the token made |
| `JoinToken.ServerOfUrl` | internal/controller/ml/nodeprovision_controller.go:2025-2026 | the server is the URL without https:// or http:// |
| `JoinToken.NameIff` | internal/controller/ml/nodeprovision_controller.go:1937-1953 | a token's ID and secret are made of digits and small letters |
| `JoinToken.RemoteRefreshRuns` | internal/controller/remotecluster_controller.go:1130-1150 | a remote refresh that goes through records the printed command with its stamp, and the cluster accepts its token for 86400 s |
| `JoinToken.RemoteAgain` | internal/controller/remotecluster_controller.go:1130-1150 | a remote refresh lost in a crash leaves its token in the cluster and the command as it was, and the next one goes through |
| `JoinToken.RefreshLasts` | internal/controller/ml/nodeprovision_controller.go:1885-1907 | after a local refresh has gone through another one starts exactly when more than 72000 s have passed |
| `JoinToken.FailedPatch` | internal/controller/ml/nodeprovision_controller.go:1932-2037 | a local refresh whose patch fails leaves its token in the cluster, and the command as it was exactly when the patch was not applied |
| `JoinToken.RefreshAgain` | internal/controller/ml/nodeprovision_controller.go:1891-2037 | a local refresh given up or lost in a crash changes no command, and is started again with another token |
| `JoinEndpoint.LocalCommandRoute` | provider/onprem/provisioner.go:650-670 | from a command built locally the provisioners read a route to the API server exactly when the server's host is an IPv4 address, and then it is that address with /32; a host name makes them fail |
| `JoinEndpoint.FirstJoin` | provider/onprem/provisioner.go:650-670 | the endpoint is the word after the first join; there is none when join does not come before the last word |
| `JoinEndpoint.KubernetesAPIAllowedIP` | provider/onprem/provisioner.go:650-670 | the loop over the words finds the endpoint after join and answers its address or an error, as specified |
| `JoinToken.NetConfig.RefreshLocalJoinToken` | internal/controller/ml/nodeprovision_controller.go:1932-2037 | exactly the machine's steps for the answers met are taken, on every error return too, and success is reported exactly when token, cluster info and patch all succeeded; the recorded text is the one JoinCommandWords reads |
| `JoinToken.NetConfig.RequireNetConfig` | internal/controller/ml/nodeprovision_controller.go:1891-1922 | a command stamped at most 72000 s ago is returned and nothing changes; otherwise the refresh runs and its command is returned exactly when refresh and re-read succeed, none otherwise |
| `NodeLifecycleSafety.OnlyStep` | internal/controller/ml/nodeprovision_controller.go:475-509 | one step: of all steps only a successful launch raises the launch count, and only the last step of a deletion takes the finalizer off |
| `PeerRegistry.SetStealsIff` | provider/onprem/provisioner.go:527-534 | one step: setting a peer in the table leaves every other peer alone exactly when no other peer has the address |
| `PeerRegistrySafety.UnreadRegisterStealsIff` | provider/onprem/provisioner.go:505-534 | one step: registering after a failed table read leaves every other peer alone exactly when no other peer has the address |
| `PeerRegistrySafety.NotedNotReallocated` | provider/onprem/provisioner.go:441-453 | one step: an address a node has just recorded is not allocated to another node |
| `ControlPlane.IndexStep` | internal/controller/remotecluster_controller.go:424-432 | one step: a single step takes the index down only by the one write that sets it to -1 together with init-complete and a non-empty cached command |
| `Jobs.ProgressWipedIff` | internal/controller/ml/nodeprovision_controller.go:970-976 | one step: a job's exit removes a working job's progress entry exactly when both have the same key |
| `Jobs.GivenUpStartsAgain` | internal/controller/ml/nodeprovision_controller.go:888-960 | two steps: a provisioning whose checks fail leaves the job table as it was, one whose checks pass registers a job |
| `Credentials.GetLeavesGrace` | provider/aws/credmanager.go:66-77 | one step: one Get in role mode keeps recorded times truthful and hands out only what outlives the grace |
| `Credentials.RefreshTruthful` | provider/aws/credmanager.go:126-194 | one step: a refresh records no expiry later than the token's real end, returns a token that is cached and outlives the grace, and touches no other entry |
| `Credentials.CachedWithExpiryIff` | provider/aws/credmanager.go:158-165 | one step: without a role a cached entry carries an expiry exactly when its session was obtained just now |
| `Credentials.ReusedSessionOutlivesItself` | provider/aws/mfa.go:109-133 | one step: an MFA session taken over from the secret is handed out even after its end |
| `Jobs.NothingLost` | internal/controller/ml/nodeprovision_controller.go:975-993 | only a crash loses a job: without one, no bootstrap job of any run is lost |
| `ControlPlane.NothingLost` | internal/controller/remotecluster_controller.go:354-403 | only a crash loses a job: without one, no init job of any run is lost |
| `NodeLifecycleRuns.FailedCallReturns` | internal/controller/ml/nodeprovision_controller.go:378-1707 | one step: a failed lookup or command, an instance not running yet, images not pulled yet, a node still there and a refused termination all end the reconcile with nothing written |
| `NodeLifecycleRuns.NothingToDo` | internal/controller/ml/nodeprovision_controller.go:242-306 | one step: a ready object, a deleted one without the finalizer and a progress marker without an instance are read and left alone |
| `NodeLifecycleRuns.FinalizerUpdate` | internal/controller/ml/nodeprovision_controller.go:200-224 | one step: the update of the finalizer ends the reconcile, and persists it exactly when the copy was current and the call applied |
| `NodeLifecycleRuns.DefaultsFilled` | internal/controller/ml/nodeprovision_controller.go:401-413 | one step: a spec with defaults filled in is one version with the same status, and the reconcile returns |
| `ControlPlaneProgress.FailedCallReturns` | internal/controller/remotecluster_controller.go:331-448 | one step: a failed connection, post-init step, token or write ends the reconcile and changes nothing |
| `JoinToken.RemoteRefused` | internal/controller/remotecluster_controller.go:1130-1160 | one step: a remote patch that is refused leaves command and stamp as they were |
| `PeerRegistrySafety.RegisterOutcome` | provider/onprem/provisioner.go:486-530 | one step: a registration is refused exactly when another key has the address in the table read, and otherwise succeeds exactly when the set is applied and answered |
| `Worker.RefusedReport` | internal/controller/remotecluster_controller.go:565-613 | one step: an index patch that is refused persists nothing and the next phase runs nevertheless |
| `ControlPlaneProgress.RefusedPatch` | internal/controller/remotecluster_controller.go:405-470 | one step: a patch of index, completion or flags that is refused persists nothing, and the reconcile goes on without it |
| `Worker.FailedCallReturns` | internal/controller/remotecluster_controller.go:545-620 | one step: a failed connection, phase, node lookup or final write ends the reconcile and persists nothing |
| `JoinToken.RefreshStartsIff` | internal/controller/ml/nodeprovision_controller.go:1902-1907 | one step: a local refresh starts exactly when there is no command, no stamp or one older than 72000 s |
| `JoinToken.CleanIff` | internal/controller/ml/nodeprovision_controller.go:1955-1977 | one step: the cluster removes a bootstrap token's secret exactly when it has expired, and no other |
| `Ledger.FirstAttemptDecides` | internal/controller/ml/nodeprovision_controller.go:2233-2281 | one step: a failed read or a refused patch fails at once and writes nothing, and a record that finds everything there succeeds without a patch |

## Left out

- SSH, AWS, GCP and STS calls, install and reset scripts: steps that succeed or fail.
- HMAC, base32 decoding, key generation, certificates and templates: the MAC is any function to 20 bytes.
- The on-prem status path after its job (ledger record and Joining write) and the pre-pull job itself:
  a job's end is one answer in the lifecycle model, which covers the AWS and GCP paths.
- IPv6, IPv4-mapped and /0 ranges, for which the scan can loop for ever: ranges have 1 to 32 prefix bits.
  A list element the IPv4 parser does not read counts as unreadable, an IPv6 one included.
- WgDump.ParsersAgree: for an IPv6 address asked for, and where an entry of the very address asked for has
  a malformed prefix length or is written as IPv4-mapped, which only one of the parsers understands; the
  kernel prints neither.
- PeerRegistrySafety.NoSharedAddress: for ranges with a prefix under eight bits, where the substring search
  can remove another peer's block; `WgPeers.PersistKeepsClaimIff` says exactly when.
- PeerRegistrySafety.RegisteredStays: a clean-up that runs while the same node's background registration
  is still in flight, which a deletion during an on-prem bootstrap allows.
- The RemoteCluster path that creates the network config and sets its used addresses anew.
- Ledger.LedgerConsistent: operations do not overlap; what overlapping patches do is `Ledger.RecordOutcome`,
  `Ledger.ReleaseOutcome`, `Ledger.PatchConsistent` and `Ledger.PatchCanContradict`.
- PeerRegistrySafety.BookConsistent: likewise, a node's record or release is one step there.
- Credentials.EveryGetLeavesGrace: the time STS takes to answer is not subtracted from what is left.
- JoinToken.FourHoursLeft: the write of the join command when a RemoteCluster creates the network config,
  which sets no stamp, is not one of the writers.
- Totp.GenerateTOTPCode: times before 1970, and times so late that the division of the source, in floating
  point, is no longer exact.
- Delete and recreate under the same name, edits of the status or of the annotations by people.
- ControlPlane.ResumeSound: reconciles read the current object; what one that does not can start is
  `ControlPlaneStale.StaleStartsIff`. Stale reads in the worker model.
- Phases are resumed, not repeated: that a repeated shell step has the same effect is not modelled.
- Liveness: that a node ever becomes Ready is not claimed; markers without an instance requeue for ever.
- Manifest building, package variants, RBAC, CRDs, configuration validators and small defaulting helpers.
