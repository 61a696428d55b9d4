# A verified model of the Clever Cloud provider for Karpenter

The provider turns each Karpenter NodeClaim into one Clever Cloud NodeGroup. This project models, in
Dafny 4.11, the parts of it whose correctness depends on what happens over time: launches that race
with deletions and late refusals, capacity learned from reports, drift across hash generations, and
controllers that decide from stale caches. `dafny verify dfyconfig.toml` checks all of it.

## What is modelled

**The launch protocol and its refusal memory.** `refusal_memory.dfy` says what the provider remembers:
quota rejections and flavor hold-outs, each with a sequence number, and what they make unavailable.
`acceptance_poll.dfy` says what one read of the acceptance poll decides and which read ends the poll.
`launch_protocol.dfy` is the protocol as a machine: one launch holds the creation lock and advances step
by step (resolve, check, mark, POST, poll, record), while any number of Deletes, late refusals and clock
ticks interleave at every critical section and API call. A step that is not enabled changes nothing, so
every sequence of actions is a run; the log and the list of answered DELETEs are history variables that
no step reads.
`launch_safety.dfy` proves an invariant of every run that pins the memory to that history;
`launch_theorems.dfy` draws the promises from it. `nodegroup_provider.dfy` is the Provider class with its
loops over maps in any order; each method is proved against the functions above, and `ResolveAndCreate`
is proved to end where its own run of the machine ends (`launch_script.dfy`). `launch_steps.dfy` runs the
class's critical sections in any interleaving and proves that the result is a run of the machine.
`cloud_provider.dfy` puts the resolver, the flavor selection and `Create` on top.

**The capacity catalogue.** `catalogue.dfy` has sizing, exact rational prices and the merge of the
overrides. `learned_capacity.dfy` is the instance type provider's mutable state and what it serves;
`capacity_theorems.dfy` proves what any sequence of reports and reference changes leaves.
`disk_snapshot.dfy` freezes a launch's disk in the group's annotations and reads it back.

**Drift.** `node_classes.dfy` has the label rule, the payload and the three generations of the hash;
`drift.dfy` is a fleet under edits, launches and take-overs of every generation, re-creations, and
migrations working from stale reads whose patches land on whatever group has the name; `migration.dfy` is the migration pass, the validation and the advice built on it. The hash function is
modelled by its input: two digests are equal exactly when what was hashed is, a nil map being different
from an empty one.

**Controllers under stale caches.** `garbage_collection.dfy` sweeps with an API server that changes
between any two requests. `provider_ids.dfy` and `late_refusals.dfy` are machines of read-check-write
workers among everyone else's writes, each with the controller's own code proved against its machine.

Time is in nanoseconds from an arbitrary origin, prices are in units of 1e-4, quantities are whole units
(and annotations 1e-9 units), and the 10% tolerance is exact. What the API server answers, the clock, map
iteration order and the content of caches are arbitrary.

## What the proofs found

- A quota rejection does not cover a flavor of the same size the way it covers the rejected one: the
  rejected flavor reopens one window earlier than its twin (`TwinsReopenApart`). Coverage is upward closed
  for strictly larger flavors, and among flavors at least as large `CoverageGap` says exactly where it is
  not.
- A late refusal does not take the creation lock, so one recorded between a launch's check and its POST
  does not stop that POST. The spacing promise holds for the rejections recorded before the check, which
  those of launches always are (`PostSpacing`), and for no others: from any state past the check the POST
  goes out (`CheckedLaunchPosts`, `LateRefusalMaySlipPast`).
- The comment on `migrateHashVersion` (pkg/controllers/nodeclass/controller.go:168-173) says that removing
  an ignored key drifts exactly the pending NodeGroups. A pending group built before that key was added is
  drifted already, and removing the key un-drifts it. `MigrationPromise` covers every group that is not
  pending, `PendingGroupAfterRemoval` gives the exact condition for one that is, and `RemovalCanUndrift` a
  family of inputs. The advice to remove keys, given with none pending, is sound.
- The migration's merge patch names no UID. Landing on a group re-created under the same name, it can stamp
  that group with a hash of what it was not built from. `PatchTellsTheTruth` says exactly when it does,
  `RunKeepsStamps` that the stamps of a run tell the truth throughout exactly when every patch of it is
  faithful in that sense. A patch that reaches the group that was read can be unfaithful in one case only:
  it sends just the version, over a hash that a controller of an unknown generation wrote meanwhile
  (`OwnPatchIsFaithful`).
- Provider-ID uniqueness rests on its two conditions: with two workers, or with a carrier whose group
  label is rewritten, two Nodes can end up with one ID (`TwoWorkersCollide`, `RelabelledCarrierCollides`).
  With one worker what matters is only that no list is blind: that every Node carrying the ID has the
  group's label when its siblings are listed (`SightedRunsStayUnique`, `BlindListCollides`).

## Model

| member | source | states |
|---|---|---|
| LaunchTheorems.PostSpacing | pkg/providers/nodegroup/nodegroup.go:478-500 | In every reachable state, a POST keeps a backoff (same flavor) or two (a flavor at least as large) from every rejection recorded before its check and not lifted by a DELETE begun after it; a rejection recorded by a launch always precedes the checks of later launches. |
| LaunchTheorems.CallWasCleared | pkg/providers/nodegroup/nodegroup.go:486-500 | Every logged POST comes from a launch that passed the quota check, never from an adoption; no rejection known and not lifted then was in force; and only late refusals were recorded between its check and it. |
| LaunchTheorems.CheckedLaunchPosts | pkg/providers/nodegroup/nodegroup.go:496-554 | The converse, from any state: past its check a launch sends its POST whatever other calls record, delete or wipe before and after its mark. |
| LaunchTheorems.FreshRejectionSpacing | pkg/providers/nodegroup/nodegroup.go:905-932 | A launch rejected after another launch's rejection keeps the same distances, by the flavor it POSTed, whatever group its poll read. |
| LaunchTheorems.ProbeBound | pkg/providers/nodegroup/nodegroup.go:233-258 | Fresh rejections within one half-open quota backoff: no later flavor is an earlier one or at least as large as one, and there are at most as many as flavors. |
| LaunchTheorems.ProbeRate | pkg/providers/nodegroup/nodegroup.go:233-258 | Over any number of backoffs, at most that many times the number of flavors. |
| LaunchTheorems.SmallestIsTheProbe | pkg/providers/nodegroup/nodegroup.go:237-249 | Within two backoffs of a rejection of the smallest sized flavor, no other sized flavor is POSTed by a launch checked after it, and that flavor only after one backoff. |
| LaunchTheorems.DeleteLinearises | pkg/providers/nodegroup/nodegroup.go:359-378 | In every interleaving, a flavor's rejection is remembered exactly when it is the last of its flavor and no clearing DELETE begun after it was confirmed; stored numbers stay distinct and at most the counter. |
| LaunchTheorems.OnlyFreeingDeletesLift | pkg/providers/nodegroup/nodegroup.go:1019-1045 | In every reachable state, each wipe comes from a DELETE of its own that was accepted, for a group that was synced or not refused, and begun where the wipe says; no DELETE wipes twice. |
| LaunchTheorems.BarrenDeleteLiftsNothing | pkg/providers/nodegroup/nodegroup.go:1019-1045 | The step that answers a failed DELETE, or one of a refused group that never synced, ends it without lifting anything. |
| LaunchTheorems.HoldOutSurvives | pkg/providers/nodegroup/nodegroup.go:341-357 | From a hold-out on, its flavor is unavailable for the whole flavor backoff unless a launch whose mark follows it is accepted on that very flavor; no DELETE and no earlier-marked acceptance lifts it. |
| LaunchTheorems.HoldOutsAreTheHistory | pkg/providers/nodegroup/nodegroup.go:322-357 | The hold-outs remembered are exactly the last of each flavor that no such acceptance released. |
| LaunchTheorems.CoverageStaysUpwardClosed | pkg/providers/nodegroup/nodegroup.go:217-258 | In every reachable state and at every instant, a quota that covers a sized flavor covers every strictly larger one. |
| LaunchTheorems.LateRefusalMaySlipPast | pkg/providers/nodegroup/nodegroup.go:486-500 | Hence the spacing ends exactly at the check: in any state past it, a late refusal of the launch's own flavor, or of one it is at least as large as, is in force when the POST goes out. |
| LaunchTheorems.OnlyALateRefusalCovers | pkg/providers/nodegroup/nodegroup.go:486-493 | A flavor the quota leaves available stays so through any steps of the others, unless a late refusal recorded since, of that flavor or of one it is at least as large as, is in force. |
| LaunchSafety.StepKeepsInv | pkg/providers/nodegroup/nodegroup.go:217-378 | Every step of the protocol keeps the invariant: memory equal to history, marks that separate the log in time, POSTs cleared by their check. |
| LaunchSafety.ReachableKeepsInv | pkg/providers/nodegroup/nodegroup.go:478-661 | Hence every reachable state satisfies it. |
| LaunchSafety.RunKeepsInv | pkg/providers/nodegroup/nodegroup.go:478-661 | The same along any run from any state that satisfies it. |
| LaunchScript.LaunchEndsEarly | pkg/providers/nodegroup/nodegroup.go:496-577 | A launch stopped at its check or its create call ends its run of the machine there, with that outcome, memory and number of POSTs. |
| LaunchScript.LaunchEndsWithPoll | pkg/providers/nodegroup/nodegroup.go:582-661 | Any other ends as the poll's first decisive read, or its time, leaves it. |
| LaunchScript.PollConcludes | pkg/providers/nodegroup/nodegroup.go:582-661 | What every end of the poll returns and leaves, from the answer alone: an optimistic success only when its time ran out and the controller is not shutting down, nothing recorded on an API error, a rejection for a vanish or over quota, a hold-out for another refusal, a release for an acceptance; and nothing else changes. |
| RefusalMemory.CoverageIsUpwardClosed | pkg/providers/nodegroup/nodegroup.go:233-258 | While a rejection keeps a sized flavor unavailable, some rejection keeps every strictly larger one unavailable. |
| RefusalMemory.CoverageGap | pkg/providers/nodegroup/nodegroup.go:233-258 | Exactly when a flavor is covered and one at least as large is not: the larger one is its twin in size, in the second window after its own rejection, with nothing else covering it. |
| RefusalMemory.TwinsReopenApart | pkg/providers/nodegroup/nodegroup.go:250-258 | Of two flavors of one size, the rejected one reopens after one backoff and the other after two. |
| RefusalMemory.CoveringIsUnique | pkg/providers/nodegroup/nodegroup.go:276-282 | At most one rejection can be the longest covering one with ties broken by name, so the answer does not depend on map order. |
| RefusalMemory.OneRejectionCovers | pkg/providers/nodegroup/nodegroup.go:233-258 | One rejection makes unavailable exactly its flavor for a minute and every other sized flavor at least as large in vCPUs and memory for two. |
| RefusalMemory.OneHoldOutHolds | pkg/providers/nodegroup/nodegroup.go:285-330 | One hold-out makes unavailable exactly its flavor, for five minutes. |
| AcceptancePoll.VerdictPrecedence | pkg/providers/nodegroup/nodegroup.go:857-985 | The exact meaning of each verdict, of every read: replaced or terminating first, then Ready, then quota, then another refusal, then in progress; NotFound is a vanish exactly once the group was seen; a failed read is an error, unless it was cut short by the poll's own end. |
| AcceptancePoll.EndsAtOnePlace | pkg/providers/nodegroup/nodegroup.go:857-985 | For any answers the poll ends at exactly one read, the first decisive one, or at its time. |
| AcceptancePoll.EndsAtTheFirstThatSettles | pkg/providers/nodegroup/nodegroup.go:857-985 | That read is the first that is neither a NotFound before the group was ever seen nor the group itself, staying, neither Ready, refused nor in progress. |
| AcceptancePoll.LastSurfacedIsLast | pkg/providers/nodegroup/nodegroup.go:875-882 | The transient failure kept is one a read surfaced with none after it, and there is none only if no read surfaced one. |
| AcceptancePoll.SurfacedMeans | pkg/providers/nodegroup/nodegroup.go:875-882 | A read surfaces the transient failure of the group the poll is for, and of no other. |
| NodeGroupProvider.Provider.constructor | pkg/providers/nodegroup/nodegroup.go:201-206 | A new provider remembers nothing. |
| NodeGroupProvider.Provider.RecordQuotaRejection | pkg/providers/nodegroup/nodegroup.go:217-231 | Records the rejection under the next number, sized by the catalogue. |
| NodeGroupProvider.Provider.QuotaRejectionCovering | pkg/providers/nodegroup/nodegroup.go:260-283 | Whatever the map order, finds a rejection exactly when one is in force, and then the one that covers the flavor longest, ties broken by least name. |
| NodeGroupProvider.Provider.IsUnavailable | pkg/providers/nodegroup/nodegroup.go:285-299 | Held out, or covered by some rejection in force. |
| NodeGroupProvider.Provider.QuotaFastFail | pkg/providers/nodegroup/nodegroup.go:301-320 | Fails exactly when the quota part of Unavailable holds at that instant, names the longest covering rejection, and announces the time left to the nearest second, at least one. |
| NodeGroupProvider.Provider.RecordFlavorRejection | pkg/providers/nodegroup/nodegroup.go:322-330 | Records the hold-out under the next number. |
| NodeGroupProvider.Provider.HoldOutMark | pkg/providers/nodegroup/nodegroup.go:332-339 | The mark is the number of the last hold-out. |
| NodeGroupProvider.Provider.ClearFlavorRejection | pkg/providers/nodegroup/nodegroup.go:341-357 | Releases the flavor's hold-out exactly when its number is at most the mark. |
| NodeGroupProvider.Provider.QuotaRejectionMark | pkg/providers/nodegroup/nodegroup.go:359-364 | The mark is the number of the last quota rejection. |
| NodeGroupProvider.Provider.ClearQuotaRejections | pkg/providers/nodegroup/nodegroup.go:366-378 | Walking the map in any order, removes exactly the rejections numbered up to the mark. |
| NodeGroupProvider.Provider.ConcludeDelete | pkg/providers/nodegroup/nodegroup.go:1038-1045 | After the request, and whatever was recorded during it: clears exactly the rejections up to the mark, exactly when the request was accepted for a group that is synced or not refused; no hold-out changes. |
| NodeGroupProvider.Provider.Delete | pkg/providers/nodegroup/nodegroup.go:1019-1045 | Mark, request and conclusion with nothing recorded in between; the parts, interleaved, are steps of LaunchSteps. |
| NodeGroupProvider.Provider.RecordLateRefusal | pkg/providers/nodegroup/nodegroup.go:1047-1089 | A refusal over quota is recorded as a quota rejection of the group's flavor, any other as a hold-out of it, and without a refusal nothing; it is the LateRefusal step of the machine. |
| NodeGroupProvider.Provider.PollOnce | pkg/providers/nodegroup/nodegroup.go:857-985 | In the code's own order of tests: the verdict, what was seen and surfaced; it sends a DELETE, and records a quota rejection, only on a refusal that the verdict names. |
| NodeGroupProvider.Provider.WaitForAcceptance | pkg/providers/nodegroup/nodegroup.go:837-999 | For every sequence of answers, the outcome is that of the first decisive read, or the time-out; one DELETE exactly on a refusal; the last transient failure read is returned unless the controller shuts down. |
| NodeGroupProvider.Provider.CreateOrAdopt | pkg/providers/nodegroup/nodegroup.go:496-577 | Ends like the machine's check, mark, create and settle steps; one POST, or none when the flavor is covered or there is a group to adopt; it goes on to the poll exactly with a created group or one owned by the claim, watched under its UID, and otherwise ends and records as the reply says. |
| NodeGroupProvider.Provider.AwaitDecision | pkg/providers/nodegroup/nodegroup.go:582-660 | The poll and its conclusion leave the outcome and the memory of the answer the poll ended at: an optimistic success exactly when it ran out of time without a shutdown, an error that changes nothing when a read failed; one DELETE exactly on a refusal. |
| NodeGroupProvider.Provider.Conclude | pkg/providers/nodegroup/nodegroup.go:589-660 | What each verdict of the poll records or releases, on the group's own flavor. |
| NodeGroupProvider.Provider.LaunchPlanned | pkg/providers/nodegroup/nodegroup.go:482-661 | A planned launch polls exactly when it has a group in hand, and its outcome, memory, POSTs and DELETEs are then told by the plan, the reply and the answers; alone, it is a run of the machine. |
| NodeGroupProvider.Provider.ResolveAndCreate | pkg/providers/nodegroup/nodegroup.go:471-661 | Left alone, the whole call refines a run of the machine: same outcome, same memory, same number of POSTs. An optimistic success means exactly that the poll ran out of time without a shutdown; an API error is an error and changes nothing; a success that was not created has an owner reference with the claim's name and UID, and an existing or AlreadyExists group no reference of which has that UID is refused, with the memory unchanged. |
| LaunchSteps.Perform | pkg/providers/nodegroup/nodegroup.go:478-661 | Each step of a launch, a Delete or a late refusal, made by the class's own critical section in any state of the others, is the machine's step. |
| LaunchSteps.Interleave | pkg/providers/nodegroup/nodegroup.go:217-378 | Any interleaving of the critical sections on a new provider is a run of the machine, so what is proved of every reachable state holds of the class. |
| NodeGroupApi.GetCondition | pkg/apis/nodegroup/v1/types.go:140-147 | A condition of the type, or none exactly when there is none. |
| NodeGroupApi.GetConditionIsFirst | pkg/apis/nodegroup/v1/types.go:140-147 | The condition found is the first of its type. |
| NodeGroupApi.FailureIsRefusalOrTransient | pkg/apis/nodegroup/v1/types.go:153-212 | A failing reconcile is a refusal or a transient failure, never both; refused is over quota or refused. |
| NodeGroupApi.FailureIsReadByItsReason | pkg/apis/nodegroup/v1/types.go:153-212 | A reported failure is over quota exactly by the phase or that reason, transient exactly for UpstreamError, and refused for any other reason, with the message reported. |
| NodeGroupApi.NoFailureIsReadByThePhase | pkg/apis/nodegroup/v1/types.go:153-192 | A group that reports no failure is refused by its phase alone. |
| NodeGroupApi.ReadyAndInProgress | pkg/apis/nodegroup/v1/types.go:214-234 | Ready, or in progress, exactly when the first condition of that type is True. |
| NodeGroupApi.NodeClaimOwners | pkg/providers/nodegroup/nodegroup.go:422-435 | Exactly the names of the karpenter.sh NodeClaim owner references. |
| NodeGroupApi.AdoptionNeedsTheUID | pkg/providers/nodegroup/nodegroup.go:663-677 | Adoption, exactly: the managed marker, the claim's name on the group and its label, and an owner reference with the claim's name and UID. |
| NodeGroupApi.OwnedGroupNamesItsClaim | pkg/providers/nodegroup/nodegroup.go:663-677 | What adoption accepts names its claim in both places the garbage collector looks. |
| NodeClaimApi.ProviderIDRoundTrip | pkg/providers/nodegroup/nodegroup.go:380-392 | Parsing a provider ID, the prefix and the name, gives back the group it was made of, and nothing else parses to that group. |
| CloudProvider.CheapestAvailable | pkg/cloudprovider/cloudprovider.go:511-519 | The least price of an available offering, or none. |
| CloudProvider.SelectCheapest | pkg/cloudprovider/cloudprovider.go:499-532 | The first of the cheapest flavors that serve the claim and have an available offering, none exactly when there is none, and the exact number that only availability ruled out. |
| CloudProvider.MarkUnavailable | pkg/cloudprovider/cloudprovider.go:267-293 | Every flavor stays listed; its offerings lose availability exactly while a launch of it is known to fail. |
| CloudProvider.ResolveInstanceType | pkg/cloudprovider/cloudprovider.go:468-533 | With the disk unknown, a claim that requests disk or whose pool limits it is refused, and one whose pool cannot be read is retried; otherwise it picks the first of the cheapest flavors, in catalogue order, that serve the claim, have an available offering and are not Unavailable; it fails exactly when there is none; the count is exactly the flavors that only availability ruled out. |
| CloudProvider.ChosenMeans | pkg/cloudprovider/cloudprovider.go:499-532 | The flavor chosen, in full: it has an available compatible offering, intersects and fits the claim and is not known to fail, and no such offering of another flavor is cheaper, nor as cheap in a flavor listed before. |
| CloudProvider.NoneToTake | pkg/cloudprovider/cloudprovider.go:499-532 | There is no flavor to choose exactly when the claim may take no offering at all. |
| CloudProvider.ExcludedCountCounts | pkg/cloudprovider/cloudprovider.go:496-519 | The count named in a failure is the number of flavors that serve the claim and have compatible offerings, none available. |
| CloudProvider.OnlyAvailableIsLaunchable | pkg/cloudprovider/cloudprovider.go:282-293 | A marked flavor can be launched exactly when it could before and is not Unavailable, and is ruled out by availability exactly otherwise. |
| CloudProvider.MarkingChooses | pkg/cloudprovider/cloudprovider.go:267-293 | The first cheapest among the marked flavors is the first cheapest among those that may be picked. |
| CloudProvider.SelectionIsAdmitted | pkg/providers/nodegroup/nodegroup.go:486-500 | Whatever the others do between a resolver's selection and the fast-fail, the launch is admitted, or it fails fast because a late refusal recorded meanwhile covers its flavor. |
| CloudProvider.TypeOf | pkg/cloudprovider/cloudprovider.go:209-240 | A running group's flavor always resolves to a type of that name: the served entry's, or a synthesized one. |
| CloudProvider.ServedTypeOf | pkg/cloudprovider/cloudprovider.go:209-228 | In any reachable state, of a served flavor: that very entry, with the reference, the learned minimum or the static figure of every resource. |
| CloudProvider.SynthesizedIsSound | pkg/providers/instancetype/instancetype.go:794-818 | In any reachable state a synthesized type allocates no more than there is; when the seed knows the flavor it allocates some of everything and serves the reference, the learned minimum or the seed's figure. |
| CloudProvider.ChooseType | pkg/cloudprovider/cloudprovider.go:475-533 | The type a fresh launch is for is the chosen flavor's, without any disk while the disk of new workers is unknown; each failure has its own error. |
| CloudProvider.DecideLaunch | pkg/cloudprovider/cloudprovider.go:85-97 | A fresh launch is planned exactly when the claim still is the one to launch, its class Ready and staying, the disk gate open and some flavor may be picked, an adoption exactly for an owned, readable group, described by its own flavor; the plan carries the class's hash and labels; every refusal has its exact error; with the disk unknown, what is planned records no disk. |
| CloudProvider.Create | pkg/cloudprovider/cloudprovider.go:79-134 | POSTs exactly for a fresh launch that is planned, left alone between its choice and its check, and then of the first cheapest flavor that may be picked; without a plan the error says why and nothing changes; what the launch came to is a run of the machine, and maps to a capacity error exactly for a refusal or a vanish; every success has an owner reference of the claim's name and UID and reports the group's own flavor and promised disk, zero when the disk was unknown; a group no reference of which has that UID is never adopted. |
| CloudProvider.LaunchResolved | pkg/cloudprovider/cloudprovider.go:98-134 | From the plan on: what the group, the error and the memory are, by what the launch came to. |
| CloudProvider.DescribeLaunched | pkg/cloudprovider/cloudprovider.go:117-133 | The group in hand is described by its own flavor and snapshot, without a snapshot by the disk of its flavor's type, and refused exactly when its snapshot is corrupt. |
| Catalogue.PriceFollowsSize | pkg/providers/instancetype/instancetype.go:187-191 | A flavor at least as large as another is never priced lower; the reference costs 1. |
| Catalogue.PriceIsTheFormula | pkg/providers/instancetype/instancetype.go:168-191 | The price is a third of the relative vCPUs and two thirds of the relative memory, to the nearest 1e-4. |
| Catalogue.ApplyOverrides | pkg/providers/instancetype/instancetype.go:464-512 | The loops split base-then-new names, in order, into result and skipped, each priced by its final size. |
| Catalogue.OrderOfAppearance | pkg/providers/instancetype/instancetype.go:464-512 | For distinct override names the merge order is that of first appearance, base names before the others. |
| Catalogue.Price | pkg/providers/instancetype/instancetype.go:485-511 | The last loop does so for any order of names. |
| Catalogue.MergedSizePrecedence | pkg/providers/instancetype/instancetype.go:453-512 | Field by field: the override, else the last base entry; for a name without a base entry, overridden or not, what no override sets is the seed's. |
| Catalogue.MergeIsAPartition | pkg/providers/instancetype/instancetype.go:453-512 | For distinct override names, no name is lost, repeated, or both served and skipped; skipped are exactly those without vCPUs or memory; prices follow sizes. |
| LearnedCapacity.Provider.constructor | pkg/providers/instancetype/instancetype.go:278-293 | A new provider has learned nothing and is in static disk mode. |
| LearnedCapacity.Provider.RecordObservedCapacity | pkg/providers/instancetype/instancetype.go:578-618 | A report changes nothing unless accepted, and then the flavor's figures become the pointwise minimum with what it contributes; the deviation is the reported memory over the entry's, less one. |
| LearnedCapacity.Provider.Examine | pkg/providers/instancetype/instancetype.go:578-611 | The checks in the code's order accept exactly the reports that contribute, with what they contribute. |
| LearnedCapacity.AcceptedMeans | pkg/providers/instancetype/instancetype.go:578-682 | Which reports of a catalogue flavor are learned from, exactly, resource by resource against the entry or the disk of before, and what of them. |
| LearnedCapacity.AcceptedWithoutEntry | pkg/providers/instancetype/instancetype.go:578-611 | And of a flavor without an entry: only their shape is checked. |
| LearnedCapacity.RatioMeans | pkg/providers/instancetype/instancetype.go:651-682 | The disk quotient is held within nine to eleven tenths of the profile's. |
| LearnedCapacity.DeviationIsWithin | pkg/providers/instancetype/instancetype.go:702-710 | The deviation of a figure within tolerance is at most a tenth either way. |
| LearnedCapacity.MergeMinimum | pkg/providers/instancetype/instancetype.go:714-725 | The loop computes the pointwise minimum over the union of the keys, in any order. |
| LearnedCapacity.Provider.RequireEphemeralStorageReference | pkg/providers/instancetype/instancetype.go:299-312 | Dynamic mode, once; exactly the disk minima are dropped. |
| LearnedCapacity.Provider.InvalidateEphemeralStorageReference | pkg/providers/instancetype/instancetype.go:326-330 | The reference is kept but no longer current. |
| LearnedCapacity.Provider.SetEphemeralStorageReference | pkg/providers/instancetype/instancetype.go:340-369 | Accepts exactly an ordered positive int64 pair in dynamic mode; says whether the promise to new launches changed. |
| LearnedCapacity.Provider.ListForProvisioning | pkg/providers/instancetype/instancetype.go:748-764 | One snapshot of every flavor. Without a current reference in dynamic mode every disk is zero, capacity and allocatable, and every other figure as built; otherwise all of it is as built. |
| CapacityTheorems.PerformAll | pkg/providers/instancetype/instancetype.go:299-369 | Any sequence of the class's operations on a new provider leaves the state the theorems are about. |
| CapacityTheorems.ObservationsAreMinima | pkg/providers/instancetype/instancetype.go:578-618 | After any sequence of reports, opt-ins and reference changes, every figure is the attained pointwise minimum of the accepted reports, with equal keys on both sides, and no disk is learned in dynamic mode. |
| CapacityTheorems.LearnedStaysNearEntry | pkg/providers/instancetype/instancetype.go:651-725 | No sequence of reports walks a catalogue flavor's figures away: cpu exact, everything else within 10% of the entry. |
| CapacityTheorems.LearnedIsSound | pkg/providers/instancetype/instancetype.go:684-725 | In every reachable state, what is learned of any flavor never allocates more than there is. |
| CapacityTheorems.BuildServes | pkg/providers/instancetype/instancetype.go:849-911 | A built type serves the disk reference, the learned minimum or the static entry, capacity and allocatable both. |
| CapacityTheorems.BuiltIsSound | pkg/providers/instancetype/instancetype.go:849-911 | The same of any flavor sized as its entry says, in the catalogue or only in the seed. |
| CapacityTheorems.ServedTypesAreSound | pkg/providers/instancetype/instancetype.go:849-911 | In every reachable state, of every resource a catalogue entry leaves any of (memory above the reserved 100Mi; disk and pods always), it does so with 0 < allocatable <= capacity. |
| CapacityTheorems.ProvisionedTypesServe | pkg/providers/instancetype/instancetype.go:748-764 | In every reachable state, what a launch is promised of each resource: no disk while it is unknown, and never a reference that was not set; else what the built type serves. |
| CapacityTheorems.SizingOfEntry | pkg/providers/instancetype/instancetype.go:624-645 | A served flavor is sized by its entry. |
| CapacityTheorems.SizingOfSeed | pkg/providers/instancetype/instancetype.go:624-645 | Any other by the seed, or not at all. |
| DiskSnapshot.ReadDiskSnapshot | pkg/cloudprovider/storage_snapshot.go:56-87 | Reads both figures, no snapshot, or the reason it is corrupt. |
| DiskSnapshot.SnapshotMeans | pkg/cloudprovider/storage_snapshot.go:48-87 | There is no snapshot exactly without both annotations, and a given one exactly when they hold those whole bytes, two positive figures in order or two zeros. |
| DiskSnapshot.NewGroupFields | pkg/providers/nodegroup/nodegroup.go:501-544 | What a new group is, field by field; only the stamp's two annotations are kept from the launch's. |
| DiskSnapshot.NewGroupIsOwnedAndHonest | pkg/providers/nodegroup/nodegroup.go:501-544 | A new group passes its claim's adoption test, and its stamp, which no launch annotation can replace, is not drifted against the spec it was built from. |
| DiskSnapshot.ServedDiskIsStorable | pkg/cloudprovider/storage_snapshot.go:46-87 | Any disk pair that can be served of any catalogue flavor in any reachable state is one the snapshot accepts. |
| DiskSnapshot.UnknownDiskIsFrozen | pkg/cloudprovider/storage_snapshot.go:44-55 | A launch made while the disk is unknown records zero and zero, and reports that for ever. |
| DiskSnapshot.SnapshotIsStable | pkg/cloudprovider/cloudprovider.go:574-581 | A launched group reads back, and reports for ever, exactly the disk its launch was promised (zero when it was unknown, else the reference, the learned minimum or the entry's), whatever describes it later and whether or not its stamp was migrated. |
| NodeClasses.Normalised | pkg/apis/v1alpha1/clevernodeclass.go:275-291 | The filtering loop keeps exactly the delivered labels, none being an absent map. |
| NodeClasses.NormalKeeps | pkg/apis/v1alpha1/clevernodeclass.go:275-291 | A label survives exactly when it is delivered, as it is; later fields all do; and no empty map is left. |
| NodeClasses.NodeGroupLabels | pkg/providers/nodegroup/nodegroup.go:1117-1130 | The payload is the delivered labels of the class overridden by those of the claim. |
| NodeClasses.ClaimLabelWins | pkg/providers/nodegroup/nodegroup.go:1117-1130 | Label by label: the claim's if it is delivered, else the class's, else none. |
| NodeClasses.LabelRule | pkg/apis/v1alpha1/labels.go:75-165 | Which labels are delivered, and which rejected ones are tolerated as legacy, by what the key contains and starts with. |
| NodeClasses.MatchMeans | pkg/apis/v1alpha1/clevernodeclass.go:215-245 | What a match proves for each generation, exactly, from the inputs of the two hashes. |
| NodeClasses.KnownVersions | pkg/apis/v1alpha1/clevernodeclass.go:215-245 | Known are exactly v1, which an absent version means, v2 and v3. |
| NodeClasses.NormalDecidesPayload | pkg/apis/v1alpha1/clevernodeclass.go:275-291 | Equal normalised specs give any claim equal payloads. |
| Drift.RunKeepsStamps | pkg/controllers/nodeclass/controller.go:145-230 | Over every run of edits, launches and take-overs by any generation, removals, re-creations and patches that land on any group of the name, from any stale stamp and spec: every stamp tells the truth throughout if and only if every landed patch is faithful. |
| Drift.PatchTellsTheTruth | pkg/controllers/nodeclass/controller.go:217-226 | For any generation of the stamp read and any stamp on the group it lands on, a patch leaves the truth exactly when: it sends a hash and both groups deliver the same, or it sends only the version and the hash there is the group's own v3 one. |
| Drift.OwnPatchIsFaithful | pkg/controllers/nodeclass/controller.go:201-226 | A patch that lands on the group that was read, however stale the reads, is faithful except exactly when it sends only the version and an unknown generation has re-stamped the group with another hash meanwhile. |
| Drift.PinnedRunIsFaithful | pkg/controllers/nodeclass/controller.go:201-226 | So a run whose patches all reach the group that was read, not re-stamped by an unknown generation, keeps every stamp true. |
| Drift.RestampIsHonest | pkg/controllers/nodeclass/controller.go:201-220 | A re-stamp written from a matching stale read describes what the group was built from. |
| Drift.NoHiddenEdit | pkg/apis/v1alpha1/clevernodeclass.go:215-245 | In every fleet reached with faithful patches, a known stamp that matches the current spec proves the group was built with the same delivered labels and the same payload. |
| Drift.DriftMeans | pkg/cloudprovider/cloudprovider.go:295-325 | What IsDrifted answers, exactly, for every group of every generation in every fleet reached with faithful patches. |
| Drift.RestampingHidesNothing | pkg/controllers/nodeclass/controller.go:151-159 | Re-stamping changes no answer at the spec it was made from; at any spec the new stamp drifts exactly when what is delivered changed, and it differs from the old one only where just undelivered labels did. |
| Drift.PatchingAnotherGroupLies | pkg/controllers/nodeclass/controller.go:217-226 | An unfaithful patch that sends a hash, whatever the generations, hides every edit back to what the group that was read was built with, and drifts the other against its own spec. |
| Drift.ALateArrivalLies | pkg/controllers/nodeclass/controller.go:217-226 | A run in which that happens: launch, remove, edit, launch again, and then the first group's patch arrives. |
| Migration.MigrateOne | pkg/controllers/nodeclass/controller.go:184-228 | An unstamped, current or foreign group is untouched; an older one waits exactly when it does not match, its claim is drifted or something failed; otherwise it is gone or gets, and only in its stamp, what the patch of Drift writes: a v3 stamp that matches the spec and describes what the group was built from whenever the old one did. |
| Migration.MigrateHashVersion | pkg/controllers/nodeclass/controller.go:174-230 | That of every group, whatever failed for others; pending and errors are the exact numbers of groups that wait and that met a failure. |
| Migration.PassMeans | pkg/controllers/nodeclass/controller.go:174-230 | The same of any pass the theorems below speak of. |
| Migration.MigrationPromise | pkg/controllers/nodeclass/controller.go:168-173 | Of any group the pass did not leave pending, changing any rejected labels leaves the drift answer as it was, whatever stamped it. |
| Migration.PendingGroupAfterRemoval | pkg/controllers/nodeclass/controller.go:168-173 | An older honest stamp drifts after a removal exactly when what remains is not what it was built from. |
| Migration.RemovalCanUndrift | pkg/controllers/nodeclass/controller.go:168-173 | Removing a rejected key can turn a pending group from drifted to not drifted. |
| Migration.Validate | pkg/controllers/nodeclass/controller.go:273-299 | The tolerated legacy keys, sorted, and the least other rejected key if any. |
| Migration.AdviceIsSound | pkg/controllers/nodeclass/controller.go:309-329 | The advice to remove the ignored keys is given only when removing any of them changes no group's drift answer. |
| Migration.AdviceIsExact | pkg/controllers/nodeclass/controller.go:309-329 | And it is given exactly when some key is ignored and no group waits. |
| GarbageCollection.ConfirmationIsSound | pkg/controllers/garbagecollection/controller.go:268-287 | A name of a claim that exists while the reads are made is never confirmed gone; names absent all along are. |
| GarbageCollection.NamesMeans | pkg/controllers/garbagecollection/controller.go:149-174 | The names confirmed are exactly the label's claim, or the group's own name without one, and those of its NodeClaim owner references. |
| GarbageCollection.AnyClaimAliveUncached | pkg/controllers/garbagecollection/controller.go:268-287 | Reads each distinct name once, in order, up to the first that is not NotFound, and answers as that read did. |
| GarbageCollection.ReapVanished | pkg/controllers/garbagecollection/controller.go:309-344 | Deletes a claim exactly when it is this provider's, staying, old enough, launched, unregistered, and its group is missing from the cache and from the API server. |
| GarbageCollection.ReapVanishedNodeClaims | pkg/controllers/garbagecollection/controller.go:289-357 | A claim whose group exists throughout is never deleted, one whose group is gone throughout is, whatever failed for the others. |
| GarbageCollection.Controller.ReapOrphan | pkg/controllers/garbagecollection/controller.go:170-190 | The DELETE follows exactly a full confirmation; its effect on the refusal memory is Delete's. |
| GarbageCollection.Controller.Examine | pkg/controllers/garbagecollection/controller.go:133-190 | One group, by its label, owners and age themselves: refused exactly when no owner reference names a claim or a cached claim is one of them, deleted exactly when suspect and every name, its label's first, is confirmed gone. |
| GarbageCollection.Controller.Sweep | pkg/controllers/garbagecollection/controller.go:133-200 | Every group is visited despite errors, with exact refused and resized counts. |
| GarbageCollection.Controller.Reconcile | pkg/controllers/garbagecollection/controller.go:101-205 | For any cached lists: only managed, staying, old, NodeClaim-owned groups each of whose names was read absent during the sweep are deleted, and those whose names were absent throughout are; likewise launched, unregistered claims and their groups; gauges are exact and set exactly when both lists were read; hold-outs are untouched. |
| GarbageCollection.OwnedGroupSurvives | pkg/controllers/garbagecollection/controller.go:149-181 | A group launched or adopted for a claim survives any sweep during which that claim exists, even with its labels rewritten. |
| GarbageCollection.LabelledGroupSurvives | pkg/controllers/garbagecollection/controller.go:149-181 | So does one whose nodeclaim label names a claim that exists, whoever owns it, and, without a label, one that has that claim's name. |
| ProviderIds.StepKeepsInv | pkg/controllers/providerid/controller.go:73-142 | With one worker and stable labels, every step keeps IDs unique and each on a Node of its own group. |
| ProviderIds.ProviderIDsStayUnique | pkg/controllers/providerid/controller.go:181-197 | Hence so does every run, for any cached views and any joins and departures between the list and the patch. |
| ProviderIds.UniqueIffClear | pkg/controllers/providerid/controller.go:116-137 | With any number of workers, labels and views, a run loses uniqueness only at a stamp that lands while another Node carries its ID, and always there. |
| ProviderIds.SightedRunsStayUnique | pkg/controllers/providerid/controller.go:116-142 | With one worker and any labels and views, the IDs are unique throughout every run in which no list missed a carrier of its ID for want of the label. |
| ProviderIds.BlindListCollides | pkg/controllers/providerid/controller.go:116-142 | An undisturbed reconcile that stamps keeps the IDs unique if and only if every other carrier of the ID has the group's label. |
| ProviderIds.CarrierStands | pkg/controllers/providerid/controller.go:144-179 | The Node carrying an ID keeps it and its nodepool label while it exists: only Nodes without an ID are ever stripped. |
| ProviderIds.ReconcileSettlesTheGroup | pkg/controllers/providerid/controller.go:111-141 | An undisturbed reconcile leaves exactly one carrier: it stamps this Node if and only if there was none, strips it otherwise, and touches no other Node. |
| ProviderIds.TwoWorkersCollide | pkg/controllers/providerid/controller.go:183-190 | Two concurrent reconciles give two Nodes one ID. |
| ProviderIds.RelabelledCarrierCollides | pkg/controllers/providerid/controller.go:116-132 | So does one, after a carrier's group label is rewritten. |
| ProviderIds.Controller.Reconcile | pkg/controllers/providerid/controller.go:73-179 | The loop over the listed siblings sends exactly the patch the machine decides from what the API server holds, and none without an ID-less cached Node of a managed group; the dedup sets follow. |
| LateRefusals.StepKeepsInv | pkg/controllers/nodegroupstatus/controller.go:176-207 | Every step of any worker, of core and of the API server keeps the numbering, deletion and record invariant. |
| LateRefusals.StepIsJustified | pkg/controllers/nodegroupstatus/controller.go:191-202 | Every deletion accepted was, as the claim stood then, of a launch to fail. |
| LateRefusals.CondemnedMeans | pkg/controllers/nodegroupstatus/controller.go:176-199 | Which launch is failed, exactly, by every field of the group and the claim. |
| LateRefusals.LateRefusalSafety | pkg/controllers/nodegroupstatus/controller.go:166-207 | In every run, only launched, unregistered, staying claims of this provider are deleted, whose provider ID names a managed, staying, refused and never synced group, each UID at most once; a refusal is recorded only for an accepted deletion, each UID at most once. |
| LateRefusals.ChangedClaimIsSpared | pkg/controllers/nodegroupstatus/controller.go:191-199 | Any write of the claim after the confirming read makes the delete a conflict that changes nothing. |
| LateRefusals.LoneFailureCompletes | pkg/controllers/nodegroupstatus/controller.go:176-207 | Left alone, the sequence deletes the claim and records the refusal. |
| LateRefusals.RecordArms | pkg/providers/nodegroup/nodegroup.go:1047-1080 | Any recorded refusal makes its flavor unavailable at once; a quota one besides exactly the flavors at least as large, any other no flavor else. |
| LateRefusals.Controller.FailLaunch | pkg/controllers/nodegroupstatus/controller.go:176-207 | Sends the pinned delete exactly for a launch to fail, looks again exactly after a failed read, a conflict or an error, and records exactly on acceptance. |
| LateRefusals.Controller.Reconcile | pkg/controllers/nodegroupstatus/controller.go:135-164 | Sends the delete exactly when both the cache and the uncached reads condemn the launch; says exactly when it is looked at again; the overdue set is exactly updated, and untouched by a failed read. |

## Left out

- NodeGroupProvider.Provider.ResolveAndCreate: a sequential method cannot be interrupted, so its own contract is for a call left alone; LaunchSteps.Interleave runs its critical sections interleaved with other calls, with the program counters kept by the machine.
- CloudProvider.Create: likewise for a call left alone; a late refusal between its choice of a flavor and the fast-fail can stop the POST, as CloudProvider.SelectionIsAdmitted says.
- NodeGroupProvider.Provider.Delete: likewise for a call left alone; its two halves are QuotaRejectionMark and ConcludeDelete.
- NodeGroupProvider.Provider.QuotaFastFail: the error text; its flavor, cause and remaining time are there.
- LearnedCapacity.Provider.RecordObservedCapacity: the deviation is a real number, without IEEE rounding; the error names no resource.
- LaunchTheorems.ProbeBound: counts the rejections of groups their own launch created, read under the flavor it POSTed (a group's flavor is immutable); rejections read on adopted groups and late ones follow no POST of their own.
- ProviderIds.ProviderIDsStayUnique: assumes serialised reconciles and stable group labels, as the controller does; neither can be dropped, and ProviderIds.SightedRunsStayUnique does without stable labels.
- Drift.NoHiddenEdit: over runs whose landed patches are faithful, a condition that fails only for a patch that reaches a group re-created under the same name, or one that a controller of an unknown generation has re-stamped meanwhile.
- Wrap-around of the unsigned 64-bit sequence counters, which are unbounded here.
- IEEE rounding: prices and the 10% tolerance are exact rationals, and a figure exactly at the tolerance may fall on either side in floating point.
- Sub-unit quantities in reports, and the parsing and printing of quantities: figures are whole units, and an annotation is what its readers make of it.
- The bytes of the drift hash and its collisions; the reflection of setsOnly, replaced by a map of the fields that are set.
- NodeClasses.LabelRule: the length of a label value counts characters where Go counts bytes.
- Kubernetes' own label syntax, a parameter of every theorem about labels.
- Karpenter's requirements algebra and resource fitting: Intersects, Compatible and Fits are given per candidate, and the labels buildNodeClaim derives from them are not modelled.
- The rules that read an admission error as a flavor refusal (admissionFlavorRefusal): the create call's answer is classified already.
- Parsing of flavor override files and the flavor name pattern.
- CloudProvider.Delete, Get and List beyond the disk they report, RepairPolicies, the NodeClass finalizer and its other conditions.
- The reports of the garbage collector on overdue deletions, and the once-per-group log lines of the controllers other than the provider-ID controller's.
- The ephemeralstorage and instancetypecapacity controllers, which appear only as the callers of the instance type provider.
- Client, informer and manager wiring, metrics, events, logs and message texts.
