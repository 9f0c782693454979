/**
 * Reconcile of the node controller as a step machine. Every API call is one step, and between any two steps the rest
 * of the cluster may act: pods exit, are created, bound and labelled, other taints and labels change.
 */
module ReconcileMachine {
  import opened Common
  import opened Text
  import opened MigLayout
  import opened ConfigSelector
  import opened NodeController
  import AffinityQueue

  /** Taints by key: the reconfiguration state kept by this controller, or anything else. */
  datatype TaintKey = ReconfigState | OtherKey(name: string)

  datatype Effect = NoSchedule | PreferNoSchedule | NoExecute

  datatype Taint = Taint(key: TaintKey, value: string, effect: Effect)

  const PENDING := "pending"

  const OWN_TAINT := Taint(ReconfigState, PENDING, NoSchedule)

  /** One node and all pods; `used` holds every pod name that ever existed. The node's labels are fields. */
  datatype Cluster = Cluster(pods: map<Pod, PodObject>, used: set<Pod>, taints: seq<Taint>,
                             targetPod: string, targetNamespace: string, migConfig: string, migState: string)

  datatype PC =
    | Start | CheckTarget | AddTaint | Locate | Measure | Choose
    | FetchPod(i: nat) | DeletePod(i: nat, hash: string) | Poll(i: nat, gone: nat)
    | StopReporter | WriteLabel | AwaitOperator | Untaint
    | Done(untainted: bool) | Crashed

  /** The target pod, the profile the node had when it was read, and the slices the target asks for. */
  datatype Job = Job(target: Pod, cur: string, demand: map<string, int>)

  /**
   * What Reconcile saw of the node: whether the taint was written and which pods ran then, the pods of the first listing
   * and the locations computed from it, the pods of the second listing and the slice counts to provide.
   */
  datatype Memory = Memory(tainted: bool, atTaint: set<Pod>, listed: map<Pod, PodObject>, loc: Locations,
                           measured: map<Pod, PodObject>, request: map<string, int>)

  datatype State = State(c: Cluster, pc: PC, job: Job, mem: Memory, plan: Plan, tokens: seq<AffinityQueue.Token>)

  function NodePods(c: Cluster, node: string): map<Pod, PodObject> {
    map p | p in c.pods && c.pods[p].nodeName == node :: c.pods[p]
  }

  function Own(taints: seq<Taint>): seq<Taint> {
    if taints == [] then [] else
      var init, last := Own(taints[..|taints| - 1]), taints[|taints| - 1];
      if last.key.ReconfigState? then init + [last] else init
  }

  /** What the deferred cleanup keeps, in order. */
  function Others(taints: seq<Taint>): seq<Taint> {
    if taints == [] then [] else
      var init, last := Others(taints[..|taints| - 1]), taints[|taints| - 1];
      if !last.key.ReconfigState? then init + [last] else init
  }

  /** The cleanup's loop over the taints. */
  method RemoveOwnTaints(taints: seq<Taint>) returns (updated: seq<Taint>)
    ensures updated == Others(taints)
  {
    updated := [];
    for i := 0 to |taints|
      invariant updated == Others(taints[..i])
    {
      assert taints[..i + 1][..i] == taints[..i];
      if !taints[i].key.ReconfigState? {
        updated := updated + [taints[i]];
      }
    }
    assert taints[..|taints|] == taints;
  }

  // ---------------------------------------------------------------- the environment

  /** The gpuIDs label names some GPU. A pod may also carry an empty label, written before its devices were allocated. */
  predicate Labelled(obj: PodObject) {
    obj.gpuIDs.Some? && obj.gpuIDs.value != ""
  }

  /** A non-empty gpuIDs label describes the allocation; only pods that request MIG slices get GPUs. */
  ghost predicate GoodPod(obj: PodObject) {
    && (Labelled(obj) ==> obj.gpuIDs == Some(GpuLabel(obj.gpus)))
    && Int64s(obj.gpus)
    && (obj.gpus != [] ==> RequestsMig(obj))
    && (forall k, r :: 0 <= k < |obj.containers| && r in obj.containers[k] ==> obj.containers[k][r] >= 0)
  }

  ghost predicate GoodPods(pods: map<Pod, PodObject>) {
    forall p :: p in pods ==> GoodPod(pods[p])
  }

  ghost predicate WellFormed(c: Cluster) {
    c.pods.Keys <= c.used && GoodPods(c.pods)
  }

  /** Requests are fixed, a finished pod stays finished, and a pod whose label names its GPUs keeps them and the label. */
  predicate Later(was: PodObject, now: PodObject) {
    && now.containers == was.containers
    && (Live(now) ==> Live(was))
    && (Labelled(was) ==> Labelled(now) && now.gpus == was.gpus)
  }

  /** No pod name is reused, new pods are unbound, and nothing is bound to the node while it is tainted. */
  ghost predicate PodsMay(node: string, c: Cluster, c': Cluster) {
    && c.used <= c'.used
    && (forall p :: p in c'.pods && p !in c.pods ==> p !in c.used && c'.pods[p].nodeName == "" != node)
    && (forall p :: p in c'.pods && p in c.pods ==>
          && Later(c.pods[p], c'.pods[p])
          && (c.pods[p].nodeName != "" ==> c'.pods[p].nodeName == c.pods[p].nodeName)
          && (c.pods[p].nodeName != node && c'.pods[p].nodeName == node ==> OWN_TAINT !in c.taints))
  }

  /** Everything the rest of the cluster may do at once. */
  ghost predicate EnvMay(node: string, c: Cluster, c': Cluster) {
    && PodsMay(node, c, c')
    && WellFormed(c')
    && Own(c'.taints) == Own(c.taints)
    && c'.migConfig == c.migConfig
  }

  // ---------------------------------------------------------------- the steps of Reconcile

  /** `list` is what the API returns for the pods in `pods`, in any order. */
  ghost predicate Lists(list: seq<ListedPod>, pods: map<Pod, PodObject>) {
    && DistinctPods(list)
    && (forall i :: 0 <= i < |list| ==> list[i].id in pods && pods[list[i].id] == list[i].obj)
    && (forall p :: p in pods ==> exists i :: 0 <= i < |list| && list[i].id == p)
  }

  function Terminate(c: Cluster, p: Pod): Cluster
    requires p in c.pods
  {
    c.(pods := c.pods[p := c.pods[p].(terminating := true)])
  }

  /** The node is read: its current profile and the target pod's name. A failed read ends the call. */
  ghost predicate ReadNode(s: State, s': State) {
    && s.pc.Start?
    && (|| s' == s.(pc := Done(false))
        || s' == s.(pc := CheckTarget, job := Job(Pod(s.c.targetPod, s.c.targetNamespace), s.c.migConfig, map[])))
  }

  /** The target pod is read. The call ends if that fails or if the pod is already bound. */
  ghost predicate ReadTarget(s: State, s': State) {
    && s.pc.CheckTarget?
    && (|| s' == s.(pc := Done(false))
        || (&& s.job.target in s.c.pods && s.c.pods[s.job.target].nodeName == ""
            && s' == s.(pc := AddTaint, job := s.job.(demand := UsedByContainers(s.c.pods[s.job.target].containers)))))
  }

  /** The taint is written. A failed update is only logged. */
  ghost predicate WriteTaint(node: string, s: State, s': State) {
    && s.pc.AddTaint?
    && (|| s' == s.(pc := Locate, mem := s.mem.(tainted := false))
        || s' == s.(pc := Locate, mem := s.mem.(tainted := true, atTaint := NodePods(s.c, node).Keys),
                    c := s.c.(taints := s.c.taints + [OWN_TAINT])))
  }

  /** First listing: which pods sit on which GPU according to their labels. A failed listing ends the process. */
  ghost predicate LocatePods(node: string, s: State, s': State) {
    && s.pc.Locate?
    && (|| s' == s.(pc := Crashed)
        || exists list :: Lists(list, NodePods(s.c, node))
             && s' == s.(pc := Measure, mem := s.mem.(listed := NodePods(s.c, node), loc := LocationsOf(list))))
  }

  /** Second listing: the slices in use, plus what the target pod asks for. */
  ghost predicate MeasureUse(node: string, s: State, s': State) {
    && s.pc.Measure?
    && (|| s' == s.(pc := Crashed)
        || exists list :: Lists(list, NodePods(s.c, node))
             && s' == s.(pc := Choose, mem := s.mem.(measured := NodePods(s.c, node),
                                                    request := Plus(UsedByPods(list), s.job.demand))))
  }

  /** The profile is chosen; if none is found, only the cleanup is left. */
  ghost predicate Decide(cfgs: MigConfigs, s: State, s': State) {
    && s.pc.Choose?
    && Sliceable(s.mem.request)
    && (|| (&& (!EmptyNameWins(cfgs, s.mem.request, s.mem.loc, s.job.cur) ==>
                  forall p :: p in cfgs ==> !Feasible(cfgs[p], s.mem.request))
            && s' == s.(pc := Untaint))
        || (exists plan :: IsPlan(cfgs, s.mem.request, s.mem.loc, s.job.cur, plan) && s' == s.(pc := FetchPod(0), plan := plan)))
  }

  /** The next pod to stop is read for its template hash; a failed read leaves the hash empty. */
  ghost predicate Fetch(s: State, s': State) {
    && s.pc.FetchPod?
    && if s.pc.i >= |s.plan.stopPods| then s' == s.(pc := Poll(0, 0))
       else
         var p := s.plan.stopPods[s.pc.i];
         || s' == s.(pc := DeletePod(s.pc.i, ""))
         || (p in s.c.pods && s' == s.(pc := DeletePod(s.pc.i, LabelValue(s.c.pods[p].templateHash))))
  }

  /** The pod is deleted, which pushes a token; a failed delete does not. */
  ghost predicate Delete(node: string, s: State, s': State) {
    && s.pc.DeletePod?
    && s.pc.i < |s.plan.stopPods|
    && var p := s.plan.stopPods[s.pc.i];
    || s' == s.(pc := FetchPod(s.pc.i + 1))
    || (&& p in s.c.pods
        && s' == s.(pc := FetchPod(s.pc.i + 1), c := Terminate(s.c, p), tokens := s.tokens + [AffinityQueue.Token(s.pc.hash, node)]))
  }

  /** One pass over the stop list counts the pods that can no longer be read; it repeats until all are gone. */
  ghost predicate PollPods(s: State, s': State) {
    && s.pc.Poll?
    && if s.pc.i < |s.plan.stopPods| then
         s' == s.(pc := Poll(s.pc.i + 1, if s.plan.stopPods[s.pc.i] in s.c.pods then s.pc.gone else s.pc.gone + 1))
       else if s.pc.gone == |s.plan.stopPods| then s' == s.(pc := StopReporter)
       else s' == s.(pc := Poll(0, 0))
  }

  /** Reporter pods of the node are deleted. */
  ghost predicate StopReporters(node: string, s: State, s': State) {
    && s.pc.StopReporter?
    && (|| s' == s.(pc := WriteLabel)
        || exists p :: p in NodePods(s.c, node) && s.c.pods[p].reporter && s' == s.(c := Terminate(s.c, p)))
  }

  /** The profile label is written; a failed update ends the process without cleanup. */
  ghost predicate Relabel(s: State, s': State) {
    && s.pc.WriteLabel?
    && (|| s' == s.(pc := Crashed)
        || s' == s.(pc := AwaitOperator, c := s.c.(migConfig := s.plan.updateConfig)))
  }

  /** The GPU operator is awaited. */
  ghost predicate Await(s: State, s': State) {
    && s.pc.AwaitOperator?
    && (if s.c.migState != PENDING then s' == s.(pc := Untaint) else s' == s)
  }

  /** The deferred cleanup removes the taint; a failed update is only logged. */
  ghost predicate CleanUp(s: State, s': State) {
    && s.pc.Untaint?
    && (|| s' == s.(pc := Done(false))
        || s' == s.(pc := Done(true), c := s.c.(taints := Others(s.c.taints))))
  }

  ghost predicate ReconcileStep(cfgs: MigConfigs, node: string, s: State, s': State) {
    || ReadNode(s, s') || ReadTarget(s, s') || WriteTaint(node, s, s') || LocatePods(node, s, s')
    || MeasureUse(node, s, s') || Decide(cfgs, s, s') || Fetch(s, s') || Delete(node, s, s') || PollPods(s, s')
    || StopReporters(node, s, s') || Relabel(s, s') || Await(s, s') || CleanUp(s, s')
  }

  ghost predicate EnvStep(node: string, s: State, s': State) {
    EnvMay(node, s.c, s'.c) && s' == s.(c := s'.c)
  }

  ghost predicate Step(cfgs: MigConfigs, node: string, s: State, s': State) {
    EnvStep(node, s, s') || ReconcileStep(cfgs, node, s, s')
  }

  ghost predicate Init(s: State) {
    s.pc == Start && s.tokens == [] && !s.mem.tainted && WellFormed(s.c)
  }

  ghost predicate IsRun(cfgs: MigConfigs, node: string, run: seq<State>) {
    && |run| > 0 && Init(run[0])
    && forall i :: 0 <= i < |run| - 1 ==> Step(cfgs, node, run[i], run[i + 1])
  }

  // ---------------------------------------------------------------- invariants

  predicate AfterTaint(pc: PC) {
    !pc.Start? && !pc.CheckTarget? && !pc.AddTaint? && !pc.Done? && !pc.Crashed?
  }

  predicate AfterLocate(pc: PC) {
    AfterTaint(pc) && !pc.Locate?
  }

  predicate AfterMeasure(pc: PC) {
    AfterLocate(pc) && !pc.Measure?
  }

  predicate HasPlan(pc: PC) {
    pc.FetchPod? || pc.DeletePod? || pc.Poll? || pc.StopReporter? || pc.WriteLabel?
  }

  /** Each of the node's pods was already in `snap`, and has only moved on since. */
  ghost predicate From(c: Cluster, node: string, snap: map<Pod, PodObject>) {
    forall p :: p in c.pods && c.pods[p].nodeName == node ==> p in snap && Later(snap[p], c.pods[p])
  }

  ghost predicate TaintInv(node: string, c: Cluster, mem: Memory) {
    mem.tainted ==> OWN_TAINT in c.taints && NodePods(c, node).Keys <= mem.atTaint
  }

  ghost predicate ListedInv(node: string, c: Cluster, mem: Memory) {
    && GoodPods(mem.listed) && mem.listed.Keys <= c.used
    && (mem.tainted ==> From(c, node, mem.listed))
    && exists list :: Lists(list, mem.listed) && mem.loc == LocationsOf(list)
  }

  ghost predicate MeasuredInv(node: string, c: Cluster, mem: Memory, demand: map<string, int>) {
    && GoodPods(mem.measured)
    && (mem.tainted ==> From(c, node, mem.measured))
    && exists list :: Lists(list, mem.measured) && mem.request == Plus(UsedByPods(list), demand)
  }

  ghost predicate PlanInv(cfgs: MigConfigs, s: State) {
    HasPlan(s.pc) ==> Sliceable(s.mem.request) && IsPlan(cfgs, s.mem.request, s.mem.loc, s.job.cur, s.plan)
  }

  predicate Gone(c: Cluster, pods: seq<Pod>) {
    forall k :: 0 <= k < |pods| ==> pods[k] !in c.pods
  }

  ghost predicate GoneInv(s: State) {
    && (s.pc.Poll? ==> s.pc.gone <= s.pc.i <= |s.plan.stopPods|
                       && (s.pc.gone == s.pc.i ==> Gone(s.c, s.plan.stopPods[..s.pc.i])))
    && (s.pc.StopReporter? || s.pc.WriteLabel? ==> Gone(s.c, s.plan.stopPods))
    && (s.pc.FetchPod? || s.pc.DeletePod? ==> s.pc.i <= |s.plan.stopPods|)
  }

  ghost predicate UsedInv(s: State) {
    HasPlan(s.pc) ==> forall k :: 0 <= k < |s.plan.stopPods| ==> s.plan.stopPods[k] in s.c.used
  }

  ghost predicate DoneInv(s: State) {
    s.pc == Done(true) ==> Own(s.c.taints) == []
  }

  /** The number of deletes that may have happened by now. */
  function DeletesSoFar(s: State): nat {
    if s.pc.FetchPod? || s.pc.DeletePod? then s.pc.i else if HasPlan(s.pc) then |s.plan.stopPods| else 0
  }

  predicate BeforeRelabel(pc: PC) {
    !pc.AwaitOperator? && !pc.Untaint? && !pc.Done? && !pc.Crashed?
  }

  ghost predicate TokenInv(node: string, s: State) {
    && (forall k :: 0 <= k < |s.tokens| ==> s.tokens[k].node == node)
    && (BeforeRelabel(s.pc) ==> |s.tokens| <= DeletesSoFar(s))
  }

  /** What was remembered about the node's pods still bounds what is there now. */
  ghost predicate MemoryInv(node: string, s: State) {
    && WellFormed(s.c)
    && (AfterTaint(s.pc) ==> TaintInv(node, s.c, s.mem))
    && (AfterLocate(s.pc) ==> ListedInv(node, s.c, s.mem))
    && (AfterMeasure(s.pc) ==> MeasuredInv(node, s.c, s.mem, s.job.demand))
  }

  ghost predicate ProgressInv(cfgs: MigConfigs, node: string, s: State) {
    PlanInv(cfgs, s) && UsedInv(s) && GoneInv(s) && DoneInv(s) && TokenInv(node, s)
  }

  ghost predicate Inv(cfgs: MigConfigs, node: string, s: State) {
    MemoryInv(node, s) && ProgressInv(cfgs, node, s)
  }
}
