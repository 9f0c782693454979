# KubeComp-MIG: model and proofs

KubeComp-MIG schedules, repartitions and autoscales NVIDIA MIG slices on Kubernetes. This Dafny project models its
algorithms and protocols and proves their correctness properties. The Kubernetes API is replaced by plain state in
which any call may fail wherever the code handles a failure.

| files | subject |
|---|---|
| `MigLayout`, `ConfigSelector` | partition profiles, their expansion per GPU, the choice of the profile that evicts the fewest pods |
| `NodeController` | what the node controller reads from the pods of a node |
| `ReconcileMachine`, `ReconcileProofs`, `ReconcileOutcome`, `ReconcileProgress`, `ReconcileRace` | taint, evict, wait, relabel, untaint, as steps interleaved with the rest of the cluster; what a call leaves behind, and that it can be completed |
| `AffinityQueue`, `Preprocess` | eviction tokens and the preprocessor that hands them to replacement pods |
| `Fit`, `FitInNumbers`, `QueueHints`, `Admission` | the scheduler's fit check and its meaning in the numbers of pods, nodes and GPUs, the queueing hints, admission from Filter to Permit |
| `ResourceScores`, `ResourceAllocation`, `NormalizeScore`, `BalancedAllocation` | scoring and normalisation |
| `Traffic` | traffic shares and revisions of an autoscaled service |
| `Grouping` | grouping of requests under a mutex in the dispatcher |
| `MigReporter` | the largest slice type still available on a node |
| `Common`, `Arithmetic`, `Text` | finite sums, Go map reads, products and quotients, and the string functions the components rely on |

Imperative code is modelled by methods with loops and by classes whose methods update fields; a method is proved equal
to a specification function, and the properties are lemmas about that function. A Go `range` over a map takes the next
key from `Common.Pick`, of which only membership is known, so every result holds for every iteration order. The three
concurrent protocols (Reconcile, the preprocessor, the dispatcher's workers) are state machines: one step per API call
or per access to shared state, with the results of the sequential methods inside the steps, and theorems about every
state of every run.

Where the code does not do what one would expect of it, the code is modelled and the deviation is proved:

- A slice type that the new layout no longer has is not seen by the comparison of layouts (`DroppedSliceTypeIsMissed`).
  Kept GPUs are unchanged exactly if the layouts have the same weight (`KeptGpuIsIdenticalIffSameWeight`).
- A device listed by two groups of a profile is counted twice by the filter (`OverlappingDevicesOversell`). The filter's
  count is right exactly if nothing of use is overwritten (`OverlapOversells`, `FeasibleIsEnoughIffNothingOverwritten`).
- A profile with the empty name is mistaken for "nothing chosen yet"; the choice is optimal exactly unless that profile
  would be the only best one (`GetBestConfig`).
- A pod that requests slices but whose `gpuIDs` label is missing, or was written empty before its devices were allocated,
  is not evicted; `SurvivorIffAtRisk` says exactly when such a pod can be caught on a repartitioned GPU, and
  `UnlabelledPodSurvives` is a run in which one with a missing label is.
- A pod with two slices on one GPU counts as two evictions (`PlacementsOfPod`).
- Pods without a template hash go round the channel unserved as long as any token is pending, and are served only from an
  empty table (`NoHashNoService`, `NoHashServedOnlyFromEmptyTable`).
- The node-change hint does not know of ignored resources and loses wake-ups in exactly one case
  (`WakeUpIsMissedIffShortOfIgnored`).
- Permit's JSON Patch `replace` (section 4.3 of RFC 6902) fails unless the label is already there, so the first request
  for a repartition ends in an error (`FirstReconfigurationReportsError`).
- After a scale-up, scale-down or scale-in the remaining revisions may get 99 percent of the traffic (`SurvivorShares`).
- A failed deletion of a revision is ignored and breaks the lockstep of traffic and revisions (`LockstepIffDeleted`), and
  an action repairs nothing: it needs as many targets as revisions to begin with (`LockstepIffPriorLength`).
- The reporter subtracts the slices in use from one map per profile once for every enabled group. Its answer is always
  the largest exactly if at most one enabled group supplies anything (`LargestIffOneSupplier`, `TwoSuppliersFail`).

## Model

| member | source | states |
|---|---|---|
| MigLayout.GetConfig | reconfig/kubecomp-mig/internal/controllers/node_controller.go:76-89 | the loops over profiles, groups and devices expand exactly the named profile, and to nothing if there is none, in any map order |
| MigLayout.LastGroupDecides | reconfig/kubecomp-mig/internal/controllers/node_controller.go:76-89 | a GPU is in the expansion iff some group lists it, and the last group listing it decides its slices |
| MigLayout.GetReconfigGPU | reconfig/kubecomp-mig/internal/controllers/node_controller.go:91-105 | returns, without repetition, exactly the GPUs of the new layout with a slice count that differs from the old layout |
| MigLayout.KeptGpuIsIdenticalIffSameWeight | reconfig/kubecomp-mig/internal/controllers/node_controller.go:91-105 | any GPU not returned, mentioned by the new layout or not, has every new slice count already; it keeps all its slices iff both layouts have the same total there under given positive slice weights |
| MigLayout.DroppedSliceTypeIsMissed | reconfig/kubecomp-mig/internal/controllers/node_controller.go:96-103 | a concrete layout change that drops a slice type and is not noticed |
| MigLayout.SupplyBoundsLayout | reconfig/kubecomp-mig/internal/controllers/config_selector.go:29-52 | the filter's count is at least what the expanded layout offers over all GPUs, and equal to it when no device is listed twice |
| MigLayout.OverlapOversells | reconfig/kubecomp-mig/internal/controllers/config_selector.go:29-52 | for non-negative counts, the filter's count equals what the expanded layout offers iff every listing of a device that a later listing overwrites provides none of that slice type |
| ConfigSelector.GetBestConfigFilter | reconfig/kubecomp-mig/internal/controllers/config_selector.go:29-52 | the candidates are, without repetition, exactly the profiles whose supply covers every requested count |
| ConfigSelector.GetBestConfigScore | reconfig/kubecomp-mig/internal/controllers/config_selector.go:54-65 | every candidate is scored with minus the number of pod placements on the GPUs it would repartition |
| ConfigSelector.GetBestConfig | reconfig/kubecomp-mig/internal/controllers/config_selector.go:8-27 | for every map order: fails iff no profile is feasible and otherwise returns one that evicts no more than any other feasible one, unless the profile with the empty name is feasible and evicts fewer than all others; exactly in that case what is returned is not optimal |
| ConfigSelector.HighestScore | reconfig/kubecomp-mig/internal/controllers/config_selector.go:14-27 | the loop finds the highest score in any map order, up to what the empty name, which doubles as "nothing chosen yet", can hide |
| ConfigSelector.EvictionsOfList | reconfig/kubecomp-mig/internal/controllers/config_selector.go:54-65 | the placements on the changed GPUs add up to the same number in whatever order they are listed |
| ConfigSelector.ChoosePlan | reconfig/kubecomp-mig/internal/controllers/node_controller.go:264-281 | the chosen profile is feasible, and optimal exactly unless the empty name would win; its GPU list is exact, and the stop list has as many entries as the profile's evictions |
| ConfigSelector.StopListMembers | reconfig/kubecomp-mig/internal/controllers/node_controller.go:275-279 | a pod is on the stop list iff it is recorded on some GPU to be repartitioned |
| ConfigSelector.StopListLength | reconfig/kubecomp-mig/internal/controllers/node_controller.go:275-279 | the stop list has one entry for every placement on those GPUs |
| ConfigSelector.FeasibleCurrentProfileStopsNobody | reconfig/kubecomp-mig/internal/controllers/config_selector.go:8-27 | if the current profile can serve the request, no pod is stopped, whichever profile is chosen |
| ConfigSelector.FeasibleLayoutHolds | reconfig/kubecomp-mig/internal/controllers/config_selector.go:29-52 | if no listing of any use is overwritten, the expansion of a feasible profile offers every requested count |
| ConfigSelector.FeasibleIsEnoughIffNothingOverwritten | reconfig/kubecomp-mig/internal/controllers/config_selector.go:29-52 | the expansion offers whatever the filter lets through, for every request, iff no listing that provides the slice type is overwritten |
| ConfigSelector.OverlappingDevicesOversell | reconfig/kubecomp-mig/internal/controllers/config_selector.go:29-52 | a concrete profile with a shared device that passes the filter although its layout is too small |
| NodeController.LabelRoundTrip | reconfig/kubecomp-mig/internal/reporter/gpu_reporter.go:212-236 | the controller parses from the gpuIDs label exactly the list of GPU indices that the reporter wrote, even an empty one |
| NodeController.GetPodLocation | reconfig/kubecomp-mig/internal/controllers/node_controller.go:168-188 | the loops compute the table of placements of the listed pods |
| NodeController.PlacementsOfPod | reconfig/kubecomp-mig/internal/controllers/node_controller.go:168-188 | a listed pod occurs at a GPU exactly as often as that GPU occurs in its label |
| NodeController.UnlistedPodHasNoPlace | reconfig/kubecomp-mig/internal/controllers/node_controller.go:168-188 | a pod that was not listed has no placement |
| NodeController.ExtractUsedGPU | reconfig/kubecomp-mig/internal/controllers/node_controller.go:42-74 | the nested loops with their flag compute the slice counts and the list of GPU pods of the unfinished pods |
| NodeController.UsedIsSum | reconfig/kubecomp-mig/internal/controllers/node_controller.go:42-74 | the count of each slice type is the sum over the listed pods of what each uses |
| NodeController.PodUseIsSum | reconfig/kubecomp-mig/internal/controllers/node_controller.go:42-74 | a pod uses the sum of what its containers request under each name that begins with nvidia.com/mig, and nothing once it has succeeded or failed |
| ReconcileMachine.RemoveOwnTaints | reconfig/kubecomp-mig/internal/controllers/node_controller.go:226-241 | the cleanup loop keeps exactly the taints with other keys, in order |
| ReconcileProofs.RunInv | reconfig/kubecomp-mig/internal/controllers/node_controller.go:190-305 | the invariant of taint, listings, plan, deletions and tokens holds in every state of every run |
| ReconcileProofs.EvictedBeforeRelabel | reconfig/kubecomp-mig/internal/controllers/node_controller.go:107-140 | in every run, when the profile label is written, no pod recorded on a GPU to be repartitioned exists any more |
| ReconcileProofs.NothingBoundUnderTaint | reconfig/kubecomp-mig/internal/controllers/node_controller.go:213-224 | from the taint to the cleanup no pod is added to the node |
| ReconcileProofs.StopListIsExact | reconfig/kubecomp-mig/internal/controllers/node_controller.go:243-281 | the stop list holds exactly the pods that, when they were listed, had a non-empty gpuIDs label and were on a GPU to be repartitioned |
| ReconcileProofs.RepartitionedGpusAreFree | reconfig/kubecomp-mig/internal/controllers/node_controller.go:190-305 | if the taint was written and all GPU pods had a non-empty label when listed, no pod on the node physically uses a repartitioned GPU when the profile label is written |
| ReconcileProofs.SurvivorIffAtRisk | reconfig/kubecomp-mig/internal/controllers/node_controller.go:190-305 | in every run, when the profile label is written under the taint, the rest of the cluster can have a running pod on a repartitioned GPU iff some running pod of the node requests slices, had no GPU in its label when listed, and either is on such a GPU or still has none in its label |
| ReconcileProofs.RunningPodsKeepTheirSlices | reconfig/kubecomp-mig/internal/controllers/node_controller.go:91-105 | in every run, unless a pod is at risk in that sense, each GPU in use by a running pod has the same slices in the old and the new layout, provided both fill it to the same total under some positive weights |
| ReconcileProofs.NewLayoutHoldsEveryone | reconfig/kubecomp-mig/internal/controllers/node_controller.go:251-269 | where no listing of any use is overwritten, the layout written offers for every requested slice type what the target pod and all pods measured before the evictions request together; under the taint the pods still there need no more |
| ReconcileProofs.TaintsAtExit | reconfig/kubecomp-mig/internal/controllers/node_controller.go:213-241 | if nobody else edits taints, other taints never change, and after a successful cleanup exactly they remain, in order |
| ReconcileProofs.TokensAreBounded | reconfig/kubecomp-mig/internal/controllers/node_controller.go:107-127 | every token pushed names the node, and there are at most as many as the evictions scored |
| ReconcileOutcome.JobIsWhatTheNodeSaid | reconfig/kubecomp-mig/internal/controllers/node_controller.go:191-200 | a call works, to its end, for the pod that the node's labels named when it began, and compares with the profile set then |
| ReconcileOutcome.TargetWasPending | reconfig/kubecomp-mig/internal/controllers/node_controller.go:200-208 | a node is tainted only after the target pod was read and found not bound |
| ReconcileOutcome.OnlyRelabelWrites | reconfig/kubecomp-mig/internal/controllers/node_controller.go:286-293 | the profile label changes in one step only |
| ReconcileOutcome.WrittenProfileServes | reconfig/kubecomp-mig/internal/controllers/node_controller.go:264-293 | in every run, from the write of the profile label to the end of the call, the label names a profile that can serve the slices in use and the target's, and that is optimal exactly unless the empty name would win |
| ReconcileOutcome.RecordedPodsAreGone | reconfig/kubecomp-mig/internal/controllers/node_controller.go:271-293 | after the write no pod recorded on a GPU that differs between the profile before and the profile now set ever exists again |
| ReconcileOutcome.WrittenLayoutHoldsEveryone | reconfig/kubecomp-mig/internal/controllers/node_controller.go:247-293 | where no listing of any use is overwritten, the layout of the profile now set has room for what the target pod's containers request and for all pods measured before the evictions |
| ReconcileOutcome.GivesUpOnlyIfNothingIsFeasible | reconfig/kubecomp-mig/internal/controllers/node_controller.go:264-268 | a call gives up for want of a profile only if none is feasible or the empty name would win |
| ReconcileOutcome.OnlyPlannedPodsAreStopped | reconfig/kubecomp-mig/internal/controllers/node_controller.go:107-166 | Reconcile changes no pod but by deleting those of its stop list and the reporters of its node |
| ReconcileOutcome.TaintStaysForTheOperator | reconfig/kubecomp-mig/internal/controllers/node_controller.go:226-304 | after the profile is written, the taint stays as long as the operator has not been seen to be done |
| ReconcileOutcome.TokenIsAnEviction | reconfig/kubecomp-mig/internal/controllers/node_controller.go:107-127 | in every run, each token comes from the deletion of one pod of the stop list and carries the template hash read from that pod, or none if it could not be read |
| ReconcileOutcome.EvictionPushesToken | reconfig/kubecomp-mig/internal/controllers/node_controller.go:119-126 | a deletion that takes effect pushes exactly one token, under the hash in hand |
| ReconcileProgress.PlanCanBeCarriedOut | reconfig/kubecomp-mig/internal/controllers/node_controller.go:107-304 | from every reachable state in which a plan has been made the call can be completed: the pods of the stop list are gone and no others, each existing entry left one token under its hash in order, the planned profile is set, and of the taints only the controller's own is gone |
| ReconcileRace.UnlabelledPodSurvives | reconfig/kubecomp-mig/internal/controllers/node_controller.go:168-188 | a concrete run in which a pod without label still uses a GPU when the label that repartitions it is written |
| AffinityQueue.KeyToQueue.IsEmpty | reconfig/kubecomp-mig/internal/controllers/util.go:56-58 | true iff nothing is stored, which means that no queue has a token |
| AffinityQueue.KeyToQueue.Add | reconfig/kubecomp-mig/internal/controllers/util.go:60-65 | the new table is the old one with the value appended to one queue |
| AffinityQueue.KeyToQueue.GetFirstVal | reconfig/kubecomp-mig/internal/controllers/util.go:67-72 | returns the head of the queue, or an error iff there is none |
| AffinityQueue.KeyToQueue.DeleteFirstVal | reconfig/kubecomp-mig/internal/controllers/util.go:74-83 | removes the head of one queue, and the key with the last value |
| AffinityQueue.KeyToQueue.DeleteKey | reconfig/kubecomp-mig/internal/controllers/util.go:85-87 | removes one queue and nothing else |
| AffinityQueue.KeyToQueue.GetAllKeys | reconfig/kubecomp-mig/internal/controllers/util.go:89-95 | lists every key once |
| AffinityQueue.QueueLaws | reconfig/kubecomp-mig/internal/controllers/util.go:52-95 | adding and removing keep first-in-first-out order per key, leave other keys alone and never store an empty queue |
| PreprocessProofs.TokenAccounting | reconfig/kubecomp-mig/internal/controllers/pod_controller.go:29-101 | in every run and for every template hash, the nodes added are, in order, those handed out or dropped followed by the pending queue |
| PreprocessProofs.DeletedTokenIsTheOneRead | reconfig/kubecomp-mig/internal/controllers/pod_controller.go:72-86 | the token deleted is the token read and written to the pod, even if evictions add tokens in between |
| PreprocessProofs.PodAccounting | reconfig/kubecomp-mig/internal/controllers/pod_controller.go:83-118 | every pod received is in the channel, in hand or finished, exactly once: requeueing loses and duplicates nothing |
| PreprocessProofs.OneTokenPerAssignment | reconfig/kubecomp-mig/internal/controllers/pod_controller.go:72-86 | the pods sent to a node are, in order, exactly those for which a token for that node was consumed |
| PreprocessProofs.NoHashNoService | reconfig/kubecomp-mig/internal/controllers/pod_controller.go:43-91 | while tokens are pending, a pod without template hash is never marked or assigned |
| PreprocessProofs.NoHashServedOnlyFromEmptyTable | reconfig/kubecomp-mig/internal/controllers/pod_controller.go:43-91 | a pod without template hash never gets a token, and it is finished other than by vanishing only if the table was empty when the handler looked at it for that pod |
| PreprocessProofs.HandlerWrites | reconfig/kubecomp-mig/internal/controllers/pod_controller.go:43-91 | the handler changes pods only by marking or by handing out a token, and never another pod than the one in hand |
| PreprocessProofs.TokenIsWrittenToPod | reconfig/kubecomp-mig/internal/controllers/pod_controller.go:74-86 | in every run, before a token is deleted the pod gets the node at the head of the queue of its own template hash as expected node, is marked and keeps its hash, and no other pod is touched |
| PreprocessProofs.AssignedPodSaysSo | reconfig/kubecomp-mig/internal/controllers/pod_controller.go:74-86 | a pod finished as assigned to a node carries exactly that node, its own hash and the mark, unless somebody else changed pods since |
| PreprocessProofs.MarkedPodKeepsItsNode | reconfig/kubecomp-mig/internal/controllers/pod_controller.go:51-72 | a pod finished as marked is marked, and its expected node, its hash and all other pods are unchanged |
| PreprocessProofs.ChannelIsInOrder | reconfig/kubecomp-mig/internal/controllers/pod_controller.go:89-118 | pods are taken exactly in the order in which they arrived or were put back |
| PreprocessProofs.PendingTokenIsHandedOut | reconfig/kubecomp-mig/internal/controllers/pod_controller.go:74-86 | if a token is pending for the pod's hash and every call succeeds, the handler gives the pod the first one and removes just that |
| PreprocessProofs.EmptyTableMarks | reconfig/kubecomp-mig/internal/controllers/pod_controller.go:51-72 | if the table is empty and every call succeeds, the handler marks the pod |
| PreprocessProofs.HandlerNeverStuck | reconfig/kubecomp-mig/internal/controllers/pod_controller.go:43-101 | only an idle handler with nothing in the channel waits |
| Fit.SliceNameRoundTrip | noderesourcesfit/pkg/plugins/noderesources/fit.go:641-651 | the two sizes are read back from a name such as 3g.20gb, for every digit and every non-negative 64-bit number |
| Fit.SizeBeginsName | noderesourcesfit/pkg/plugins/noderesources/fit.go:641-651 | whatever the name, a size that is read off it is the name's first digit |
| Fit.CheckScalars | noderesourcesfit/pkg/plugins/noderesources/fit.go:499-545 | in any map order, the loop reports exactly the lacking scalar resources and collects exactly the requested slice quantities and the size of one slice per type |
| Fit.CheckGpus | noderesourcesfit/pkg/plugins/noderesources/fit.go:550-633 | whatever order and early break, finds a GPU iff some GPU's max slice covers the request, and asks for reconfiguration iff none of those has enough free slices of some requested type |
| Fit.FitsRequest | noderesourcesfit/pkg/plugins/noderesources/fit.go:443-638 | reports exactly the insufficient resources, without repetition; reports nothing iff the order-free predicate holds; records the reconfiguration flag for the node exactly when it looks at GPUs |
| Fit.FitsMeansNothingReported | noderesourcesfit/pkg/plugins/noderesources/fit.go:443-638 | the fit predicate holds iff no reason for a report exists |
| FitInNumbers.FitMeansRoom | noderesourcesfit/pkg/plugins/noderesources/fit.go:443-545 | a pod passes exactly if there is a free pod slot, what it requests and what is requested on the node stay within what is allocatable in every dimension that counts, and its slices fit |
| FitInNumbers.FitMeansNothingIsOverbooked | noderesourcesfit/pkg/plugins/noderesources/fit.go:443-545 | a pod passes exactly if placing it on the node leaves the node's books within capacity in everything it asks for, and its slices fit |
| FitInNumbers.FitOnDescribedNode | noderesourcesfit/pkg/plugins/noderesources/fit.go:499-638 | on a node whose labels describe given GPUs, a pod that asks for given slice sizes passes exactly if there is room and, if it asks for any, the largest slice of some GPU covers one slice of every size together |
| FitInNumbers.ReadyOnDescribedNode | noderesourcesfit/pkg/plugins/noderesources/fit.go:583-631 | on such a node no reconfiguration is recorded exactly if such a GPU also has as many free slices of some requested size as are requested |
| QueueHints.FitIsMonotone | noderesourcesfit/pkg/plugins/noderesources/fit.go:443-638 | a pod that fits a node fits it as well when less is requested there |
| QueueHints.SkippedPodChangeWakesNobody | noderesourcesfit/pkg/plugins/noderesources/fit.go:222-302 | if the update or deletion of another pod is skipped, every node the pod did not fit before it does not fit after |
| QueueHints.PodHintIsExact | noderesourcesfit/pkg/plugins/noderesources/fit.go:222-302 | for a target without slices and nothing ignored, the update or deletion of another pod wakes it exactly if there is a node which it did not fit before and fits after |
| QueueHints.OwnHintIsExact | noderesourcesfit/pkg/plugins/noderesources/fit.go:263-302 | an update of the target itself, seen as before the update, wakes it exactly if some node is large enough now and was not before |
| QueueHints.IsFit | noderesourcesfit/pkg/plugins/noderesources/fit.go:324-331 | true iff the pod fits the node when nothing else runs there and nothing is ignored |
| QueueHints.SkippedNodeNeverFits | noderesourcesfit/pkg/plugins/noderesources/fit.go:306-331 | with nothing ignored, a pod fits a skipped node under no set of pods on it |
| QueueHints.WakeUpIsMissedIffShortOfIgnored | noderesourcesfit/pkg/plugins/noderesources/fit.go:306-331 | for pods without slices a skipped node could have taken the pod iff the pod fits it empty and asks for more of some ignored resource than the node has |
| QueueHints.IgnoredResourceMissesWakeUp | noderesourcesfit/pkg/plugins/noderesources/fit.go:306-331 | a concrete lost wake-up |
| Admission.Permit | noderesourcesfit/pkg/plugins/noderesources/fit.go:753-825 | the verdict and the labels written for every state of the objects and every failing call |
| Admission.FilterNodes | noderesourcesfit/pkg/plugins/noderesources/fit.go:419-436 | filtering nodes in some order finds exactly the fitting ones and leaves their records in the cycle state |
| Admission.RecordOfNode | noderesourcesfit/pkg/plugins/noderesources/fit.go:419-436 | after filtering any nodes in any order, a node's record says what its own check found |
| Admission.AdmissionChain | noderesourcesfit/pkg/plugins/noderesources/fit.go:753-825 | after Filter, a pod with slice requests has a GPU whose max slice covers them, and Permit succeeds iff some such GPU also has enough free slices of some requested type and expectedNode is absent or this node |
| Admission.AdmissionInNumbers | noderesourcesfit/pkg/plugins/noderesources/fit.go:419-825 | the same in numbers, on a node whose labels describe given GPUs: what Filter and Permit together guarantee and require |
| Admission.FirstReconfigurationReportsError | noderesourcesfit/pkg/plugins/noderesources/fit.go:753-810 | with every call going through, a needed reconfiguration is reported as an error unless the pod already has the label |
| ResourceScores.LeastResourceScorer | noderesourcesfit/pkg/plugins/noderesources/least_allocated.go:30-61 | the loop computes the weighted mean of the per-resource scores over the resources the node has |
| ResourceScores.MostResourceScorer | noderesourcesfit/pkg/plugins/noderesources/most_allocated.go:30-65 | the same for the most-allocated strategy, with requests clamped to the capacity |
| ResourceScores.NodeScoreInRange | noderesourcesfit/pkg/plugins/noderesources/least_allocated.go:30-61 | for non-negative requests and positive weights both scores lie in 0..100 |
| ResourceScores.LeastMostDuality | noderesourcesfit/pkg/plugins/noderesources/most_allocated.go:54-65 | one resource's two scores sum to 99 or 100, and to 100 iff the request exceeds the capacity or the division is exact |
| ResourceScores.NodeScoresComplement | noderesourcesfit/pkg/plugins/noderesources/most_allocated.go:30-65 | the two scores of a node with some capacity sum to 98..100 |
| ResourceScores.TwoPointsCanBeLost | noderesourcesfit/pkg/plugins/noderesources/most_allocated.go:30-65 | the bound 98 is attained |
| ResourceScores.NodeScoresMonotone | noderesourcesfit/pkg/plugins/noderesources/least_allocated.go:30-61 | more requested never lowers the most-allocated score and never raises the least-allocated score |
| ResourceScores.WeightIsCopies | noderesourcesfit/pkg/plugins/noderesources/least_allocated.go:30-61 | a resource of weight n scores like n resources of weight 1 with the same numbers |
| ResourceScores.SingleResourceScore | noderesourcesfit/pkg/plugins/noderesources/least_allocated.go:30-61 | one resource alone scores the same whatever its weight |
| ResourceScores.GoDivTruncates | noderesourcesfit/pkg/plugins/noderesources/least_allocated.go:44 | the division rounds toward zero |
| ResourceAllocation.NodeScore | noderesourcesfit/pkg/plugins/noderesources/resource_allocation.go:48-83 | the loop that fills the two slices feeds the scorer the amounts of every configured resource, leaving absent ones at zero; no configured resource is an error |
| ResourceAllocation.UnrequestedScalarDoesNotMatter | noderesourcesfit/pkg/plugins/noderesources/resource_allocation.go:48-114 | leaving out a configured scalar resource that the pod does not request changes no node's result if another one is configured; alone it scores 0 everywhere, and leaving it out is an error |
| ResourceAllocation.OtherResourcesAreUntouched | noderesourcesfit/pkg/plugins/noderesources/resource_allocation.go:89-114 | more use of one resource on the node changes the amounts of no other |
| ResourceAllocation.UseCountsLikeRequest | noderesourcesfit/pkg/plugins/noderesources/resource_allocation.go:89-114 | for a resource itself, more in use counts exactly like more requested by the pod, and the capacity is the node's |
| ResourceAllocation.SecondCountMatters | noderesourcesfit/pkg/plugins/noderesources/resource_allocation.go:89-114 | the count with defaults matters for CPU and memory only, and only if it is the one used |
| NormalizeScore.GetMinMaxScores | noderesourcesfit/pkg/plugins/noderesources/fit.go:737-751 | the loop finds minimum and maximum, starting from the extreme 64-bit values |
| NormalizeScore.Normalize | noderesourcesfit/pkg/plugins/noderesources/fit.go:711-734 | overwrites the array with its normalisation, position by position |
| NormalizeScore.NormalizedRange | noderesourcesfit/pkg/plugins/noderesources/fit.go:711-734 | final scores lie in 0..100; the minimum becomes 0 and the maximum 100 unless all are equal |
| NormalizeScore.NormalizedOrder | noderesourcesfit/pkg/plugins/noderesources/fit.go:711-734 | the order of raw scores is weakly preserved |
| NormalizeScore.NormalizeIsIdempotent | noderesourcesfit/pkg/plugins/noderesources/fit.go:711-734 | normalising twice is normalising once, on every list |
| NormalizeScore.NormalizeForgetsScale | noderesourcesfit/pkg/plugins/noderesources/fit.go:711-734 | a positive affine change of all raw scores does not change the result |
| NormalizeScore.FullRangeIsUnchanged | noderesourcesfit/pkg/plugins/noderesources/fit.go:711-734 | scores that run from 0 to 100 stay as they are |
| NormalizeScore.NormalizedIsRoundedPlace | noderesourcesfit/pkg/plugins/noderesources/fit.go:711-734 | unless all are equal, a final score is the raw score's place between the extremes in percent, rounded down |
| NormalizeScore.Score | noderesourcesfit/pkg/plugins/noderesources/fit.go:676-703 | the resource score, plus 100 iff the filter recorded that nothing needs reconfiguration |
| NormalizeScore.BonusSurvives | noderesourcesfit/pkg/plugins/noderesources/fit.go:676-751 | whatever the resources, a node that needs no reconfiguration ends at least as high as any node that needs one, all within 0..100 |
| BalancedAllocation.BalancedResourceScorer | noderesourcesfit/pkg/plugins/noderesources/balanced_allocation.go:138-173 | the loops compute the score from mean and deviation of the fractions of the resources present |
| BalancedAllocation.FractionsAreUnit | noderesourcesfit/pkg/plugins/noderesources/balanced_allocation.go:138-150 | the fractions are clamped to 0..1 |
| BalancedAllocation.VarianceBound | noderesourcesfit/pkg/plugins/noderesources/balanced_allocation.go:152-167 | however many fractions there are, their variance is at most a quarter |
| BalancedAllocation.ShortcutIsDeviation | noderesourcesfit/pkg/plugins/noderesources/balanced_allocation.go:152-167 | the shortcut for two resources, and zero for one, equal the general standard deviation |
| BalancedAllocation.BalancedScoreRange | noderesourcesfit/pkg/plugins/noderesources/balanced_allocation.go:138-173 | the score lies in 50..100 and is 100 iff all resources are used to the same degree |
| BalancedAllocation.FractionIsShare | noderesourcesfit/pkg/plugins/noderesources/balanced_allocation.go:138-150 | a fraction times the allocatable amount is the requested amount, and 1 if more is requested |
| BalancedAllocation.ScoreIsRoundedDeviation | noderesourcesfit/pkg/plugins/noderesources/balanced_allocation.go:152-173 | the score is what the standard deviation leaves of 100 points, rounded down |
| BalancedAllocation.LessSpreadScoresHigher | noderesourcesfit/pkg/plugins/noderesources/balanced_allocation.go:138-173 | a smaller variance never scores lower |
| Traffic.UpdateServiceTraffic | Autoscaler/scaler.go:254-352 | for every prior traffic list and every position of the retired revision on which the code does not panic: the shares of the listed revisions by position, targets beyond them kept, the last one appended, the retired position (or the first, if it is not listed) cut out |
| Traffic.SurvivorsShareIffPriorLength | Autoscaler/scaler.go:268-345 | the surviving revisions are exactly the names routed to, each with the share of its position, iff the prior list had as many targets as are overwritten in place or cut out |
| Traffic.ScaleOutShares | Autoscaler/scaler.go:323-345 | scaling out gives every revision a share, exactly 100 percent in all, differing by at most 1 |
| Traffic.SurvivorShares | Autoscaler/scaler.go:270-322 | when position r of n is retired, the others get 100 percent if r is at least 100 mod (n-1) and 99 otherwise, differing by at most 1 |
| Traffic.RetiringTheFirstOfFourLosesAPoint | Autoscaler/scaler.go:270-322 | a concrete split that adds up to 99 |
| ScalingRuns.Service.ApplyScale | Autoscaler/scaler.go:206-252 | success, traffic and revisions after the call, for every scaling decision and every failing step |
| ScalingRuns.LockstepIffPriorLength | Autoscaler/scaler.go:206-352 | a successful action leaves traffic and revisions in step iff there were as many targets as revisions before, whatever their names and shares |
| ScalingRuns.AppliedKeepsLockstep | Autoscaler/scaler.go:206-352 | after a successful action traffic and revisions are equal as name sequences, non-empty and without repetition, and the retired name is gone |
| ScalingRuns.AppliedShares | Autoscaler/scaler.go:254-352 | the percentages after a successful action on a service with as many targets as revisions |
| ScalingRuns.LockstepRun | Autoscaler/scaler.go:206-352 | any run of successful actions keeps the lockstep |
| ScalingRuns.GoneStaysGone | Autoscaler/scaler.go:206-352 | a retired name stays out of revisions and traffic for the rest of the run unless it is created again |
| ScalingRuns.LockstepIffDeleted | Autoscaler/scaler.go:241-247 | a call that reports success keeps the lockstep iff no deletion failed |
| Grouping.RequestGroups.AddRequest | Dispatcher/main.go:56-72 | the section under the mutex appends the request to its model's group and pops the group when it is complete |
| GroupingProofs.RunInv | Dispatcher/main.go:51-83 | the mutex, group, order and counting invariants hold in every run, for any threshold of at least 1 and any number of workers |
| GroupingProofs.MutualExclusion | Dispatcher/main.go:56-71 | two workers are never inside the section at once |
| GroupingProofs.GroupsAreComplete | Dispatcher/main.go:61-71 | every group passed on has exactly k requests of one model; with the mutex free every forming group has fewer |
| GroupingProofs.ReplayInOrder | Dispatcher/request.go:79-92 | per model, the popped groups followed by the forming group are that model's requests in the order they were stored |
| GroupingProofs.GroupsAreMaximal | Dispatcher/main.go:61-71 | with the mutex free, n stored requests of a model have become n / k groups and n mod k forming ones |
| GroupingProofs.RequestsAreConserved | Dispatcher/main.go:51-83 | every request received is in the inbox, with a worker, in a forming group or in a popped group, exactly once, and every popped group with a worker, in the channel or processed |
| GroupingProofs.SectionIsAddRequest | Dispatcher/main.go:56-72 | in every run, from the step in which a worker takes the mutex to the step in which it leaves the section, whatever others do in between, the groups, the popped groups and the order of requests change exactly as by the sequential method |
| GroupingProofs.InsideOwnsGroups | Dispatcher/main.go:56-71 | while a worker stays inside the section nobody else changes the groups, the mutex, the popped groups or the order |
| GroupingProofs.FirstInFirstOut | Dispatcher/main.go:51-83 | in every run, requests are taken in the order received and groups processed in the order sent |
| GroupingProofs.QueuesGrowAtTheEnd | Dispatcher/main.go:51-83 | between any two states of a run, what is taken, what is processed, and what is processed or in the channel grow at their end only |
| GroupingProofs.OneWorkerKeepsOrder | Dispatcher/main.go:51-83 | a single worker stores requests in the order received, and its complete groups are processed in the order of completion |
| GroupingProofs.NeverStuck | Dispatcher/main.go:51-83 | in every reachable state with work left some worker or the processor can take a step |
| MigReporter.GetMaxMigRemain | reconfig/kubecomp-mig/internal/reporter/gpu_reporter.go:69-90 | subtracts the slices in use (after a failure, of some covered types only) and returns the lexicographically last slice type left over, or nothing if the profile does not cover them or nothing is left |
| MigReporter.StringLeIsLexicographic | reconfig/kubecomp-mig/internal/reporter/gpu_reporter.go:85-89 | the order behind the last name: a prefix comes first, otherwise the first difference decides |
| MigReporter.UpdateNodeMaxMigLabel | reconfig/kubecomp-mig/internal/reporter/gpu_reporter.go:104-123 | the answer is a running maximum over a run through all groups of all profiles, each group refilling the profile's shared map before its call, in some map order |
| MigReporter.ReportIsOffered | reconfig/kubecomp-mig/internal/reporter/gpu_reporter.go:104-123 | for non-negative profiles with any number of groups the answer is a type that some profile could still offer |
| MigReporter.ReportIsLargest | reconfig/kubecomp-mig/internal/reporter/gpu_reporter.go:104-123 | if every profile has at most one enabled group that supplies anything, and names begin with a digit, no type that could be offered begins with a greater digit than the answer, which is empty iff nothing can be offered |
| MigReporter.LargestIffOneSupplier | reconfig/kubecomp-mig/internal/reporter/gpu_reporter.go:104-123 | the answer for a profile is the largest for every table of slices in use and every map order iff at most one enabled group of the profile supplies anything |
| MigReporter.TwoSuppliersFail | reconfig/kubecomp-mig/internal/reporter/gpu_reporter.go:109-116 | for every profile in which two enabled groups supply something, there are slices in use for which no group is ever answered although the profile could offer more |
| MigReporter.LargestIsUnique | reconfig/kubecomp-mig/internal/reporter/gpu_reporter.go:92-123 | a largest answer is empty iff nothing is left in any profile, and all largest answers begin with the same character |
| MigReporter.ReportsAgree | reconfig/kubecomp-mig/internal/reporter/gpu_reporter.go:104-123 | for such profiles, two reports for the same slices in use begin with the same character, whatever the map orders, or are both empty |

## Left out

Assumptions of the models:

- Reconcile: API reads are current, a read fails in the wait loop only if the pod is gone, pod names are not reused, nothing is bound to a node with the taint, and a non-empty gpuIDs label matches the allocation for good; an empty label promises nothing. Nobody else changes the profile label or the controller's own taint during a call.
- Preprocessor: the channel is a first-in-first-out queue. The code's channel is unbuffered and its receiver is also a sender, so blocking is not captured.
- Preprocessor: the API refuses the update of a pod whose labels have changed since it was read; the code's resource version refuses any change.
- AffinityQueue.KeyToQueue: each method is one atomic step; the code has no lock around them.
- The three protocols are modelled on values, so what concurrent access to one Go map does beyond the order of steps is not captured.
- Integers are unbounded, except the extremes in NormalizeScore and the parsed numbers, so overflow of 64-bit sums is not captured.
- NormalizeScore uses integers; for scores from 0 to 200 the code's floating-point quotient truncates to the same integer. BalancedAllocation uses reals and any square root function.
- Strings are sequences of characters; string comparison is by character.

Inputs on which the code panics are preconditions: resource names shorter than 15 characters in the profile filter,
resource names without a suffix of 3 characters and malformed slice types in the fit check, a GPU without a max label when
slices are requested, a slice request in the node-change hint (which has no cycle state), scaling with fewer than two
revisions, and traffic lists too short for the positions written.

- ReconcileProofs.RunningPodsKeepTheirSlices: speaks of the two layouts, not of what the GPU operator does with them.
- MigReporter.ReportIsLargest: for a table of several profiles the condition is sufficient; that it cannot be dropped is proved profile by profile, because another profile may hide a missed slice type.
- MigReporter.GetMaxMigRemain: returns the updated map instead of writing through a reference.
- Traffic.UpdateServiceTraffic: revision names are distinct.
- ScalingRuns.Service.ApplyScale: assumes that the new revision is listed last and that the order of the list is stable; whether Knative accepts targets that add up to 99 percent is not modelled, nor is the loss of an already applied update after a failure.

Not modelled:

- Kubernetes, Knative, Prometheus, NVML and kubelet clients, YAML and JSON decoding, logging, timers and retries.
- The scheduler reads labels with the prefix `kubecomp/`, the reporter writes `kubecomp.com/`; the labels are inputs here.
- PreFilter's gate on preprocessed pods, request extraction from pod specs, and feature gates other than their default.
- requested_to_capacity_ratio.go, whose interpolation function is not part of this model.
- DecideScale and its thresholds, metrics, the GPU tier registry; the dispatcher's request parser, processor and assigner.
- Fairness: that nobody gets stuck and that a plan can be carried out is proved, not that it happens.
