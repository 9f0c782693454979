/** The invariant of the Reconcile machine, and what it guarantees in every run. */
module ReconcileProofs {
  import opened Common
  import opened Text
  import opened MigLayout
  import opened ConfigSelector
  import opened NodeController
  import opened ReconcileMachine

  lemma {:induction false} OwnMembers(taints: seq<Taint>, t: Taint)
    ensures t in Own(taints) <==> t in taints && t.key.ReconfigState?
  {
    if taints != [] {
      OwnMembers(taints[..|taints| - 1], t);
      assert taints == taints[..|taints| - 1] + [taints[|taints| - 1]];
    }
  }

  lemma {:induction false} OthersHasNoOwn(taints: seq<Taint>)
    ensures Own(Others(taints)) == []
  {
    if taints != [] {
      var init, last := taints[..|taints| - 1], taints[|taints| - 1];
      OthersHasNoOwn(init);
      if !last.key.ReconfigState? {
        assert (Others(init) + [last])[..|Others(init)|] == Others(init);
      }
    }
  }

  lemma TerminateMay(node: string, c: Cluster, p: Pod)
    requires p in c.pods
    ensures PodsMay(node, c, Terminate(c, p))
    ensures WellFormed(c) ==> WellFormed(Terminate(c, p))
  {
  }

  /** The pods of a tainted node may leave or move on, but none arrives. */
  lemma PodsOnlyLeave(node: string, c: Cluster, c': Cluster, snap: map<Pod, PodObject>)
    requires PodsMay(node, c, c')
    requires OWN_TAINT in c.taints && From(c, node, snap)
    ensures From(c', node, snap)
    ensures NodePods(c', node).Keys <= NodePods(c, node).Keys
  {
    forall p | p in c'.pods && c'.pods[p].nodeName == node
      ensures p in c.pods && c.pods[p].nodeName == node && Later(c.pods[p], c'.pods[p])
    {
    }
  }

  lemma LocatedIsListed(list: seq<ListedPod>, p: Pod, id: int)
    requires p in GetSeq(LocationsOf(list), id)
    ensures exists k :: 0 <= k < |list| && list[k].id == p
  {
    if forall k :: 0 <= k < |list| ==> list[k].id != p {
      UnlistedPodHasNoPlace(list, p, id);
    }
  }

  /** A stop list names only pods that existed when they were located. */
  lemma StopListIsUsed(cfgs: MigConfigs, s: State)
    requires HasPlan(s.pc) && PlanInv(cfgs, s) && s.mem.listed.Keys <= s.c.used
    requires exists list :: Lists(list, s.mem.listed) && s.mem.loc == LocationsOf(list)
    ensures UsedInv(s)
  {
    var list :| Lists(list, s.mem.listed) && s.mem.loc == LocationsOf(list);
    forall k | 0 <= k < |s.plan.stopPods| ensures s.plan.stopPods[k] in s.c.used {
      var p := s.plan.stopPods[k];
      StopListMembers(s.plan.gpuIDs, s.mem.loc, p);
      var id :| id in s.plan.gpuIDs && p in GetSeq(s.mem.loc, id);
      LocatedIsListed(list, p, id);
    }
  }

  /** A change to pods that the environment could also make keeps what was remembered about them. */
  lemma PodChangeKeepsMemory(node: string, s: State, c': Cluster)
    requires MemoryInv(node, s) && PodsMay(node, s.c, c') && WellFormed(c')
    requires OWN_TAINT in s.c.taints <==> OWN_TAINT in c'.taints
    ensures MemoryInv(node, s.(c := c'))
  {
    hide GoodPods, LocationsOf, UsedByPods, Lists;
    if s.mem.tainted && AfterTaint(s.pc) {
      PodsOnlyLeave(node, s.c, c', NodePods(s.c, node));
      if AfterLocate(s.pc) {
        PodsOnlyLeave(node, s.c, c', s.mem.listed);
      }
      if AfterMeasure(s.pc) {
        PodsOnlyLeave(node, s.c, c', s.mem.measured);
      }
    }
  }

  lemma NodePodsAreGood(node: string, c: Cluster)
    requires WellFormed(c)
    ensures GoodPods(NodePods(c, node)) && NodePods(c, node).Keys <= c.used && From(c, node, NodePods(c, node))
  {
    hide GoodPod;
  }

  lemma ReadNodeKeepsInv(cfgs: MigConfigs, node: string, s: State, s': State)
    requires Inv(cfgs, node, s)
    requires ReadNode(s, s') || ReadTarget(s, s')
    ensures Inv(cfgs, node, s')
  {
    hide IsPlan, Sliceable, TaintInv, ListedInv, MeasuredInv, WellFormed;
  }

  lemma WriteTaintKeepsInv(cfgs: MigConfigs, node: string, s: State, s': State)
    requires Inv(cfgs, node, s) && WriteTaint(node, s, s')
    ensures Inv(cfgs, node, s')
  {
    hide IsPlan, Sliceable, ListedInv, MeasuredInv, GoodPods;
  }

  lemma LocateKeepsInv(cfgs: MigConfigs, node: string, s: State, s': State)
    requires Inv(cfgs, node, s) && LocatePods(node, s, s')
    ensures Inv(cfgs, node, s')
  {
    hide LocationsOf, UsedByPods, Lists, GoodPods, From, NodePods;
    NodePodsAreGood(node, s.c);
  }

  lemma MeasureKeepsInv(cfgs: MigConfigs, node: string, s: State, s': State)
    requires Inv(cfgs, node, s) && MeasureUse(node, s, s')
    ensures Inv(cfgs, node, s')
  {
    hide LocationsOf, UsedByPods, Lists, GoodPods, From, NodePods, Plus;
    NodePodsAreGood(node, s.c);
  }

  lemma DecideKeepsInv(cfgs: MigConfigs, node: string, s: State, s': State)
    requires Inv(cfgs, node, s) && Decide(cfgs, s, s')
    ensures Inv(cfgs, node, s')
  {
    hide IsPlan, Sliceable, GoodPods, LocationsOf, Lists, From, MeasuredInv;
    if HasPlan(s'.pc) {
      StopListIsUsed(cfgs, s');
    }
  }

  lemma FetchKeepsInv(cfgs: MigConfigs, node: string, s: State, s': State)
    requires Inv(cfgs, node, s) && Fetch(s, s')
    ensures Inv(cfgs, node, s')
  {
    hide IsPlan, Sliceable, TaintInv, ListedInv, MeasuredInv, WellFormed;
  }

  lemma DeleteKeepsInv(cfgs: MigConfigs, node: string, s: State, s': State)
    requires Inv(cfgs, node, s) && Delete(node, s, s')
    ensures Inv(cfgs, node, s')
  {
    hide IsPlan, Sliceable, TaintInv, ListedInv, MeasuredInv, WellFormed;
    if s'.c != s.c {
      TerminateMay(node, s.c, s.plan.stopPods[s.pc.i]);
      PodChangeKeepsMemory(node, s, s'.c);
    }
  }

  lemma PollKeepsInv(cfgs: MigConfigs, node: string, s: State, s': State)
    requires Inv(cfgs, node, s) && PollPods(s, s')
    ensures Inv(cfgs, node, s')
  {
    hide IsPlan, Sliceable, TaintInv, ListedInv, MeasuredInv, WellFormed;
    var stop, i := s.plan.stopPods, s.pc.i;
    if i == |stop| {
      assert stop[..i] == stop;
    } else {
      assert stop[..i + 1] == stop[..i] + [stop[i]];
    }
  }

  lemma TerminateKeepsProgress(cfgs: MigConfigs, node: string, s: State, p: Pod)
    requires ProgressInv(cfgs, node, s) && s.pc.StopReporter? && p in s.c.pods
    ensures ProgressInv(cfgs, node, s.(c := Terminate(s.c, p)))
  {
    hide IsPlan, Sliceable;
  }

  lemma TerminateKeepsInv(cfgs: MigConfigs, node: string, s: State, p: Pod)
    requires Inv(cfgs, node, s) && s.pc.StopReporter? && p in NodePods(s.c, node)
    ensures Inv(cfgs, node, s.(c := Terminate(s.c, p)))
  {
    assert WellFormed(s.c);
    hide MemoryInv, ProgressInv, WellFormed;
    TerminateMay(node, s.c, p);
    PodChangeKeepsMemory(node, s, Terminate(s.c, p));
    TerminateKeepsProgress(cfgs, node, s, p);
  }

  lemma StopReportersKeepsInv(cfgs: MigConfigs, node: string, s: State, s': State)
    requires Inv(cfgs, node, s) && StopReporters(node, s, s')
    ensures Inv(cfgs, node, s')
  {
    hide IsPlan, Sliceable, TaintInv, ListedInv, MeasuredInv, WellFormed;
    if s'.pc == s.pc {
      hide Inv;
      var p :| p in NodePods(s.c, node) && s' == s.(c := Terminate(s.c, p));
      TerminateKeepsInv(cfgs, node, s, p);
    }
  }

  lemma RelabelKeepsInv(cfgs: MigConfigs, node: string, s: State, s': State)
    requires Inv(cfgs, node, s) && Relabel(s, s')
    ensures Inv(cfgs, node, s')
  {
    hide IsPlan, Sliceable, GoodPods, LocationsOf, UsedByPods, Lists;
  }

  lemma CleanUpKeepsInv(cfgs: MigConfigs, node: string, s: State, s': State)
    requires Inv(cfgs, node, s) && (Await(s, s') || CleanUp(s, s'))
    ensures Inv(cfgs, node, s')
  {
    hide IsPlan, Sliceable, GoodPods, LocationsOf, UsedByPods, Lists, TaintInv, ListedInv, MeasuredInv;
    OthersHasNoOwn(s.c.taints);
  }

  lemma EnvKeepsInv(cfgs: MigConfigs, node: string, s: State, s': State)
    requires Inv(cfgs, node, s) && EnvStep(node, s, s')
    ensures Inv(cfgs, node, s')
  {
    hide IsPlan, Sliceable, TaintInv, ListedInv, MeasuredInv, WellFormed;
    OwnMembers(s.c.taints, OWN_TAINT);
    OwnMembers(s'.c.taints, OWN_TAINT);
    PodChangeKeepsMemory(node, s, s'.c);
  }

  lemma StepKeepsInv(cfgs: MigConfigs, node: string, s: State, s': State)
    requires Inv(cfgs, node, s) && Step(cfgs, node, s, s')
    ensures Inv(cfgs, node, s')
  {
    hide Inv;
    if EnvStep(node, s, s') {
      EnvKeepsInv(cfgs, node, s, s');
    } else if ReadNode(s, s') || ReadTarget(s, s') {
      ReadNodeKeepsInv(cfgs, node, s, s');
    } else if WriteTaint(node, s, s') {
      WriteTaintKeepsInv(cfgs, node, s, s');
    } else if LocatePods(node, s, s') {
      LocateKeepsInv(cfgs, node, s, s');
    } else if MeasureUse(node, s, s') {
      MeasureKeepsInv(cfgs, node, s, s');
    } else if Decide(cfgs, s, s') {
      DecideKeepsInv(cfgs, node, s, s');
    } else if Fetch(s, s') {
      FetchKeepsInv(cfgs, node, s, s');
    } else if Delete(node, s, s') {
      DeleteKeepsInv(cfgs, node, s, s');
    } else if PollPods(s, s') {
      PollKeepsInv(cfgs, node, s, s');
    } else if StopReporters(node, s, s') {
      StopReportersKeepsInv(cfgs, node, s, s');
    } else if Relabel(s, s') {
      RelabelKeepsInv(cfgs, node, s, s');
    } else {
      CleanUpKeepsInv(cfgs, node, s, s');
    }
  }

  /** The invariant holds in every state of every run. */
  lemma {:induction false} RunInv(cfgs: MigConfigs, node: string, run: seq<State>, i: nat)
    requires IsRun(cfgs, node, run) && i < |run|
    ensures Inv(cfgs, node, run[i])
  {
    if i > 0 {
      RunInv(cfgs, node, run, i - 1);
      assert Step(cfgs, node, run[i - 1], run[i - 1 + 1]);
      StepKeepsInv(cfgs, node, run[i - 1], run[i]);
    }
  }

  // ---------------------------------------------------------------- what every run guarantees

  /** The GPUs that the step to the new profile repartitions. */
  ghost predicate Repartitioned(cfgs: MigConfigs, s: State, id: int) {
    Changed(ProfileLayout(cfgs, s.job.cur), ProfileLayout(cfgs, s.plan.updateConfig), id)
  }

  /** When the profile label is written, no pod recorded on a repartitioned GPU exists any more. */
  lemma EvictedBeforeRelabel(cfgs: MigConfigs, node: string, run: seq<State>, i: nat, id: int, p: Pod)
    requires IsRun(cfgs, node, run) && i < |run| && run[i].pc.WriteLabel?
    requires Repartitioned(cfgs, run[i], id) && p in GetSeq(run[i].mem.loc, id)
    ensures p !in run[i].c.pods
  {
    RunInv(cfgs, node, run, i);
    StopListMembers(run[i].plan.gpuIDs, run[i].mem.loc, p);
    var k :| 0 <= k < |run[i].plan.stopPods| && run[i].plan.stopPods[k] == p;
  }

  lemma TaintedInRun(cfgs: MigConfigs, node: string, run: seq<State>, i: nat)
    requires IsRun(cfgs, node, run) && i < |run|
    requires run[i].mem.tainted && AfterTaint(run[i].pc)
    ensures OWN_TAINT in run[i].c.taints
  {
    RunInv(cfgs, node, run, i);
  }

  lemma StepShrinks(cfgs: MigConfigs, node: string, s: State, s': State)
    requires Step(cfgs, node, s, s') && OWN_TAINT in s.c.taints
    ensures NodePods(s'.c, node).Keys <= NodePods(s.c, node).Keys
  {
    hide ReconcileStep, EnvStep, PodsMay;
    StepMay(cfgs, node, s, s');
    PodsOnlyLeave(node, s.c, s'.c, NodePods(s.c, node));
  }

  /** From the moment the taint is written until the cleanup, the pods of the node can only become fewer. */
  lemma {:induction false} NothingBoundUnderTaint(cfgs: MigConfigs, node: string, run: seq<State>, j: nat, i: nat)
    requires IsRun(cfgs, node, run) && j <= i < |run|
    requires forall k :: j <= k <= i ==> run[k].mem.tainted && AfterTaint(run[k].pc)
    ensures NodePods(run[i].c, node).Keys <= NodePods(run[j].c, node).Keys
  {
    hide Step, Init, NodePods, AfterTaint;
    if j < i {
      NothingBoundUnderTaint(cfgs, node, run, j, i - 1);
      TaintedInRun(cfgs, node, run, i - 1);
      assert Step(cfgs, node, run[i - 1], run[i - 1 + 1]);
      StepShrinks(cfgs, node, run[i - 1], run[i]);
    }
  }

  lemma DeletionTouches(node: string, s: State, s': State)
    requires Delete(node, s, s') || StopReporters(node, s, s')
    ensures (s'.c.pods == s.c.pods && s'.c.used == s.c.used)
         || exists p :: p in s.c.pods && s'.c == Terminate(s.c, p)
  {
  }

  lemma EarlyStepsTouchNothing(cfgs: MigConfigs, node: string, s: State, s': State)
    requires ReadNode(s, s') || ReadTarget(s, s') || WriteTaint(node, s, s') || LocatePods(node, s, s')
          || MeasureUse(node, s, s') || Decide(cfgs, s, s')
    ensures s'.c.pods == s.c.pods && s'.c.used == s.c.used
  {
    hide IsPlan, Sliceable, LocationsOf, UsedByPods, Lists, EmptyNameWins, Feasible, UsedByContainers, Plus, NodePods;
  }

  lemma LateStepsTouchNothing(s: State, s': State)
    requires Fetch(s, s') || PollPods(s, s') || Relabel(s, s') || Await(s, s') || CleanUp(s, s')
    ensures s'.c.pods == s.c.pods && s'.c.used == s.c.used
  {
    hide LabelValue, Others;
  }

  /** A step of Reconcile leaves the pods alone or begins to delete one. */
  lemma StepTouches(cfgs: MigConfigs, node: string, s: State, s': State)
    requires ReconcileStep(cfgs, node, s, s')
    ensures (s'.c.pods == s.c.pods && s'.c.used == s.c.used)
         || exists p :: p in s.c.pods && s'.c == Terminate(s.c, p)
  {
    hide ReadNode, ReadTarget, WriteTaint, LocatePods, MeasureUse, Decide, Fetch, Delete, PollPods, StopReporters, Relabel,
         Await, CleanUp;
    if Delete(node, s, s') || StopReporters(node, s, s') {
      DeletionTouches(node, s, s');
    } else if Fetch(s, s') || PollPods(s, s') || Relabel(s, s') || Await(s, s') || CleanUp(s, s') {
      LateStepsTouchNothing(s, s');
    } else {
      EarlyStepsTouchNothing(cfgs, node, s, s');
    }
  }

  lemma SamePodsMay(node: string, c: Cluster, c': Cluster)
    requires c'.pods == c.pods && c'.used == c.used
    ensures PodsMay(node, c, c')
  {
  }

  lemma StepMay(cfgs: MigConfigs, node: string, s: State, s': State)
    requires Step(cfgs, node, s, s')
    ensures PodsMay(node, s.c, s'.c)
  {
    hide ReconcileStep, PodsMay, WellFormed;
    if !EnvStep(node, s, s') {
      StepTouches(cfgs, node, s, s');
      if p :| p in s.c.pods && s'.c == Terminate(s.c, p) {
        TerminateMay(node, s.c, p);
      } else {
        SamePodsMay(node, s.c, s'.c);
      }
    }
  }

  /** The stop list is exactly the pods whose label, when they were listed, named a repartitioned GPU. */
  lemma StopListIsExact(cfgs: MigConfigs, node: string, run: seq<State>, i: nat, p: Pod)
    requires IsRun(cfgs, node, run) && i < |run| && HasPlan(run[i].pc)
    ensures var s := run[i];
            p in s.plan.stopPods <==>
              p in s.mem.listed && Labelled(s.mem.listed[p])
              && exists id :: id in s.mem.listed[p].gpus && Repartitioned(cfgs, s, id)
  {
    hide IsRun, IsPlan, LocationsOf, MeasuredInv, WellFormed;
    RunInv(cfgs, node, run, i);
    StopListInState(cfgs, node, run[i], p);
  }

  lemma StopListInState(cfgs: MigConfigs, node: string, s: State, p: Pod)
    requires HasPlan(s.pc) && ListedInv(node, s.c, s.mem) && PlanInv(cfgs, s)
    ensures p in s.plan.stopPods <==>
              p in s.mem.listed && Labelled(s.mem.listed[p])
              && exists id :: id in s.mem.listed[p].gpus && Repartitioned(cfgs, s, id)
  {
    hide LocationsOf, StopList, Evictions, Changed, ProfileLayout, Feasible;
    var list :| Lists(list, s.mem.listed) && s.mem.loc == LocationsOf(list);
    StopListMembers(s.plan.gpuIDs, s.mem.loc, p);
    forall id ensures p in GetSeq(s.mem.loc, id) <==> p in s.mem.listed && Labelled(s.mem.listed[p]) && id in s.mem.listed[p].gpus {
      LocatedExactly(list, s.mem.listed, p, id);
    }
  }

  lemma LocatedExactly(list: seq<ListedPod>, listed: map<Pod, PodObject>, p: Pod, id: int)
    requires Lists(list, listed) && GoodPods(listed)
    ensures p in GetSeq(LocationsOf(list), id) <==> p in listed && Labelled(listed[p]) && id in listed[p].gpus
  {
    if p in listed {
      var k :| 0 <= k < |list| && list[k].id == p;
      PlacementsOfPod(list, k, id);
      if Labelled(listed[p]) {
        LabelRoundTrip(listed[p].gpus);
      } else {
        LabelRoundTrip([]);
      }
    } else {
      UnlistedPodHasNoPlace(list, p, id);
    }
  }

  /** A running pod of the node uses a GPU that the profile about to be written repartitions. */
  ghost predicate Survivor(cfgs: MigConfigs, node: string, s: State, p: Pod, id: int) {
    && p in NodePods(s.c, node) && Live(s.c.pods[p])
    && id in s.c.pods[p].gpus && Repartitioned(cfgs, s, id)
  }

  /**
   * What can be read off the cluster: a running pod that requests slices had no GPU in its label when the node was
   * listed, and by now it is on a GPU to be repartitioned, or its label still names none.
   */
  ghost predicate AtRisk(cfgs: MigConfigs, node: string, s: State, p: Pod, id: int) {
    && p in NodePods(s.c, node) && Live(s.c.pods[p]) && RequestsMig(s.c.pods[p])
    && p in s.mem.listed && !Labelled(s.mem.listed[p])
    && Repartitioned(cfgs, s, id) && MIN_INT64 <= id <= MAX_INT64
    && (id in s.c.pods[p].gpus || !Labelled(s.c.pods[p]))
  }

  /** The rest of the cluster can bring about, or already has, a pod on a GPU that is about to be repartitioned. */
  ghost predicate SurvivorPossible(cfgs: MigConfigs, node: string, s: State) {
    exists s', p, id :: EnvStep(node, s, s') && Survivor(cfgs, node, s', p, id)
  }

  /** A pod on the tainted node was there all along, has only moved on, and was not on the stop list. */
  lemma PodHistory(cfgs: MigConfigs, node: string, s: State, c': Cluster, p: Pod)
    requires MemoryInv(node, s) && GoneInv(s) && s.pc.WriteLabel? && s.mem.tainted
    requires EnvMay(node, s.c, c') && p in NodePods(c', node)
    ensures p in NodePods(s.c, node) && Later(s.c.pods[p], c'.pods[p]) && GoodPod(c'.pods[p])
    ensures p in s.mem.listed && Later(s.mem.listed[p], s.c.pods[p]) && p !in s.plan.stopPods
  {
    hide GoodPod, Later, MeasuredInv, Lists, LocationsOf;
    assert From(s.c, node, s.mem.listed) && OWN_TAINT in s.c.taints && Gone(s.c, s.plan.stopPods);
  }

  lemma SurvivorIsAtRisk(cfgs: MigConfigs, node: string, s: State, s': State, p: Pod, id: int)
    requires Inv(cfgs, node, s) && s.pc.WriteLabel? && s.mem.tainted
    requires EnvStep(node, s, s') && Survivor(cfgs, node, s', p, id)
    ensures AtRisk(cfgs, node, s, p, id)
  {
    hide IsPlan, MemoryInv, GoneInv, PlanInv, Changed, ProfileLayout, RequestsMig, GoodPod;
    PodHistory(cfgs, node, s, s'.c, p);
    GpusMeanRequest(s'.c.pods[p], s.c.pods[p], id);
    ListedWhenWritten(node, s);
    StopListInState(cfgs, node, s, p);
  }

  lemma ListedWhenWritten(node: string, s: State)
    requires MemoryInv(node, s) && s.pc.WriteLabel?
    ensures ListedInv(node, s.c, s.mem)
  {
  }

  lemma GpusMeanRequest(now: PodObject, was: PodObject, id: int)
    requires GoodPod(now) && id in now.gpus && now.containers == was.containers
    ensures RequestsMig(was) && MIN_INT64 <= id <= MAX_INT64
  {
  }

  /** The allocation of a pod whose label names no GPU is still open. */
  lemma AtRiskCanSurvive(cfgs: MigConfigs, node: string, s: State, p: Pod, id: int) returns (s': State)
    requires WellFormed(s.c) && AtRisk(cfgs, node, s, p, id)
    ensures EnvStep(node, s, s') && Survivor(cfgs, node, s', p, id)
  {
    var obj := s.c.pods[p];
    var onGpu := if id in obj.gpus then obj else obj.(gpus := [id], gpuIDs := None);
    s' := s.(c := s.c.(pods := s.c.pods[p := onGpu]));
    assert GoodPod(obj);
    assert GoodPod(onGpu) && Later(obj, onGpu);
    hide GoodPod, Later, Changed, ProfileLayout, RequestsMig;
    OnePodMayMove(node, s.c, p, onGpu);
  }

  lemma OnePodMayMove(node: string, c: Cluster, p: Pod, obj: PodObject)
    requires WellFormed(c) && p in c.pods && GoodPod(obj) && Later(c.pods[p], obj) && obj.nodeName == c.pods[p].nodeName
    ensures EnvMay(node, c, c.(pods := c.pods[p := obj]))
  {
    hide GoodPod, Own;
    forall q | q in c.pods ensures Later(c.pods[q], c.pods[q]) {
    }
  }

  /**
   * When the profile label is written under the taint, some pod can be caught on a repartitioned GPU exactly if some
   * pod is at risk.
   */
  lemma SurvivorIffAtRisk(cfgs: MigConfigs, node: string, run: seq<State>, i: nat)
    requires IsRun(cfgs, node, run) && i < |run| && run[i].pc.WriteLabel? && run[i].mem.tainted
    ensures SurvivorPossible(cfgs, node, run[i]) <==> exists p, id :: AtRisk(cfgs, node, run[i], p, id)
  {
    var s := run[i];
    RunInv(cfgs, node, run, i);
    assert WellFormed(s.c);
    hide Inv, WellFormed, IsRun, EnvStep, Survivor, AtRisk;
    if SurvivorPossible(cfgs, node, s) {
      var s', p, id :| EnvStep(node, s, s') && Survivor(cfgs, node, s', p, id);
      SurvivorIsAtRisk(cfgs, node, s, s', p, id);
    }
    if p, id :| AtRisk(cfgs, node, s, p, id) {
      var s' := AtRiskCanSurvive(cfgs, node, s, p, id);
    }
  }

  /**
   * If the taint was written and every pod that requests MIG slices had a GPU in its label when the node was listed,
   * then no pod on the node uses a repartitioned GPU when the profile label is written.
   */
  lemma RepartitionedGpusAreFree(cfgs: MigConfigs, node: string, run: seq<State>, i: nat, p: Pod)
    requires IsRun(cfgs, node, run) && i < |run| && run[i].pc.WriteLabel? && run[i].mem.tainted
    requires forall q :: q in run[i].mem.listed && RequestsMig(run[i].mem.listed[q]) ==> Labelled(run[i].mem.listed[q])
    requires p in NodePods(run[i].c, node)
    ensures forall id :: id in run[i].c.pods[p].gpus ==> !Repartitioned(cfgs, run[i], id)
  {
    var s := run[i];
    RunInv(cfgs, node, run, i);
    StopListIsExact(cfgs, node, run, i, p);
    ListedWhenWritten(node, s);
    assert EnvMay(node, s.c, s.c) by {
      NothingMayHappen(node, s.c);
    }
    hide IsRun, IsPlan, Lists, LocationsOf, GoodPod, Changed, ProfileLayout;
    PodHistory(cfgs, node, s, s.c, p);
    assert GoodPods(s.mem.listed) && RequestsMig(s.mem.listed[p]) == RequestsMig(s.c.pods[p]);
    forall id | id in s.c.pods[p].gpus ensures !Repartitioned(cfgs, s, id) {
      GpusMeanRequest(s.c.pods[p], s.mem.listed[p], id);
    }
  }

  /**
   * Pods left running keep their slices: unless a pod is at risk, a GPU in use by a running pod has the same slices in
   * the old and the new layout, provided that both fill it to the same total under some positive slice weights.
   */
  lemma RunningPodsKeepTheirSlices(cfgs: MigConfigs, node: string, run: seq<State>, i: nat, p: Pod, id: int,
                                   weight: string -> int, slice: string)
    requires IsRun(cfgs, node, run) && i < |run| && run[i].pc.WriteLabel? && run[i].mem.tainted
    requires forall q, k :: !AtRisk(cfgs, node, run[i], q, k)
    requires p in NodePods(run[i].c, node) && Live(run[i].c.pods[p]) && id in run[i].c.pods[p].gpus
    requires forall r :: weight(r) > 0 && Count(ProfileLayout(cfgs, run[i].job.cur), id, r) >= 0
    requires Weighted(SlicesAt(ProfileLayout(cfgs, run[i].job.cur), id), weight)
             == Weighted(SlicesAt(ProfileLayout(cfgs, run[i].plan.updateConfig), id), weight)
    ensures Count(ProfileLayout(cfgs, run[i].job.cur), id, slice)
            == Count(ProfileLayout(cfgs, run[i].plan.updateConfig), id, slice)
  {
    var s := run[i];
    RunInv(cfgs, node, run, i);
    assert WellFormed(s.c);
    hide Inv, WellFormed, IsRun, AtRisk, Weighted, ProfileLayout, Changed;
    if Repartitioned(cfgs, s, id) {
      assert EnvStep(node, s, s) && Survivor(cfgs, node, s, p, id) by {
        NothingMayHappen(node, s.c);
      }
      SurvivorIsAtRisk(cfgs, node, s, s, p, id);
    } else {
      KeptGpuIsIdenticalIffSameWeight(ProfileLayout(cfgs, s.job.cur), ProfileLayout(cfgs, s.plan.updateConfig), id, weight);
    }
  }

  lemma NothingMayHappen(node: string, c: Cluster)
    requires WellFormed(c)
    ensures EnvMay(node, c, c)
  {
  }

  // ---------------------------------------------------------------- capacity at the end

  ghost function Load(pods: map<Pod, PodObject>, r: string): int {
    SumOver(pods.Keys, p => if p in pods then Get(UsedByPod(pods[p]), r) else 0)
  }

  lemma ListsWithoutLast(list: seq<ListedPod>, pods: map<Pod, PodObject>)
    requires list != [] && Lists(list, pods)
    ensures var last := list[|list| - 1];
            last.id in pods && pods[last.id] == last.obj && Lists(list[..|list| - 1], pods - {last.id})
  {
    var init, last := list[..|list| - 1], list[|list| - 1];
    forall p | p in pods - {last.id} ensures exists i :: 0 <= i < |init| && init[i].id == p {
      var k :| 0 <= k < |list| && list[k].id == p;
      assert init[k].id == p;
    }
  }

  lemma {:induction false} ListedLoad(list: seq<ListedPod>, pods: map<Pod, PodObject>, r: string)
    requires Lists(list, pods)
    ensures Get(UsedByPods(list), r) == Load(pods, r)
  {
    hide UsedByPod, Lists;
    if list == [] {
      NobodyListed(list, pods);
    } else {
      var last := list[|list| - 1];
      var rest := pods - {last.id};
      var f := p => if p in pods then Get(UsedByPod(pods[p]), r) else 0;
      ListsWithoutLast(list, pods);
      ListedLoad(list[..|list| - 1], rest, r);
      assert rest.Keys == pods.Keys - {last.id};
      SumRemove(pods.Keys, last.id, f);
      SumEq(rest.Keys, f, p => if p in rest then Get(UsedByPod(rest[p]), r) else 0);
    }
  }

  lemma NobodyListed(list: seq<ListedPod>, pods: map<Pod, PodObject>)
    requires |list| == 0 && Lists(list, pods)
    ensures pods.Keys == {}
  {
    assert forall p :: p !in pods;
  }

  lemma UseIsNonNegative(obj: PodObject, r: string)
    requires GoodPod(obj)
    ensures Get(UsedByPod(obj), r) >= 0
  {
    UsedByContainersNonNegative(obj.containers, r);
  }

  /** Pods that only leave, finish or stay use no more than before. */
  lemma LoadShrinks(node: string, c: Cluster, snap: map<Pod, PodObject>, r: string)
    requires From(c, node, snap) && GoodPods(snap) && WellFormed(c)
    ensures Load(NodePods(c, node), r) <= Load(snap, r)
  {
    var now := NodePods(c, node);
    var f := p => if p in now then Get(UsedByPod(now[p]), r) else 0;
    var g := p => if p in snap then Get(UsedByPod(snap[p]), r) else 0;
    forall p | p in snap ensures g(p) >= 0 && (p in now ==> f(p) <= g(p)) {
      UseIsNonNegative(snap[p], r);
    }
    SumLe(now.Keys, f, g);
    SumSuperset(now.Keys, snap.Keys, g);
  }

  /**
   * Where no listing of any use is overwritten, the layout of the profile written to the label offers, for every slice
   * type requested, at least what the target pod and all pods that were on the node before the evictions request
   * together, so there is room for their replacements; under the taint the pods still there need no more than that.
   */
  lemma NewLayoutHoldsEveryone(cfgs: MigConfigs, node: string, run: seq<State>, i: nat, r: string)
    requires IsRun(cfgs, node, run) && i < |run| && run[i].pc.WriteLabel?
    requires run[i].plan.updateConfig in cfgs
    requires r in run[i].mem.request && |r| >= PREFIX_LENGTH
    requires NothingOverwritten(ListingsOf(cfgs[run[i].plan.updateConfig]), r[PREFIX_LENGTH..])
    requires forall g :: 0 <= g < |cfgs[run[i].plan.updateConfig]| ==>
               Get(cfgs[run[i].plan.updateConfig][g].migDevices, r[PREFIX_LENGTH..]) >= 0
    ensures Load(run[i].mem.measured, r) + Get(run[i].job.demand, r)
            <= LayoutTotal(ProfileLayout(cfgs, run[i].plan.updateConfig), r[PREFIX_LENGTH..])
    ensures run[i].mem.tainted ==> Load(NodePods(run[i].c, node), r) <= Load(run[i].mem.measured, r)
  {
    hide IsRun, Inv, LayoutTotal, LayoutOf, ListingsOf, NothingOverwritten, Load, Feasible, NodePods;
    RunInv(cfgs, node, run, i);
    HeldInState(cfgs, node, run[i], r);
    FeasibleLayoutHolds(cfgs[run[i].plan.updateConfig], run[i].mem.request, r);
  }

  lemma HeldInState(cfgs: MigConfigs, node: string, s: State, r: string)
    requires Inv(cfgs, node, s) && s.pc.WriteLabel? && r in s.mem.request
    ensures Sliceable(s.mem.request) && s.plan.updateConfig in cfgs && Feasible(cfgs[s.plan.updateConfig], s.mem.request)
    ensures s.mem.request[r] == Load(s.mem.measured, r) + Get(s.job.demand, r)
    ensures s.mem.tainted ==> Load(NodePods(s.c, node), r) <= Load(s.mem.measured, r)
  {
    hide Feasible, Lists, UsedByPods, Load, ListedInv, GoodPods, From, WellFormed, NodePods;
    var list :| Lists(list, s.mem.measured) && s.mem.request == Plus(UsedByPods(list), s.job.demand);
    ListedLoad(list, s.mem.measured, r);
    if s.mem.tainted {
      LoadShrinks(node, s.c, s.mem.measured, r);
    }
  }

  // ---------------------------------------------------------------- the taint at exit

  lemma {:induction false} NoOwnMeansOthers(taints: seq<Taint>)
    ensures Own(taints) == [] ==> taints == Others(taints)
  {
    if taints != [] {
      NoOwnMeansOthers(taints[..|taints| - 1]);
      assert taints == taints[..|taints| - 1] + [taints[|taints| - 1]];
    }
  }

  lemma {:induction false} OthersOfOthers(taints: seq<Taint>)
    ensures Others(Others(taints)) == Others(taints)
  {
    OthersHasNoOwn(taints);
    NoOwnMeansOthers(Others(taints));
  }

  lemma StepKeepsOthers(cfgs: MigConfigs, node: string, s: State, s': State)
    requires ReconcileStep(cfgs, node, s, s')
    ensures Others(s'.c.taints) == Others(s.c.taints)
  {
    hide IsPlan, Sliceable, LocationsOf, UsedByPods, Lists;
    if s'.c.taints != s.c.taints {
      OthersOfOthers(s.c.taints);
      assert (s.c.taints + [OWN_TAINT])[..|s.c.taints|] == s.c.taints;
    }
  }

  /** If nobody else edits taints, a call that ends with a successful cleanup leaves exactly the other taints, in order. */
  lemma {:induction false} TaintsAtExit(cfgs: MigConfigs, node: string, run: seq<State>, i: nat)
    requires IsRun(cfgs, node, run) && i < |run|
    requires forall k :: 0 <= k < |run| - 1 && EnvStep(node, run[k], run[k + 1]) ==> run[k + 1].c.taints == run[k].c.taints
    ensures Others(run[i].c.taints) == Others(run[0].c.taints)
    ensures run[i].pc == Done(true) ==> run[i].c.taints == Others(run[0].c.taints)
  {
    if i > 0 {
      TaintsAtExit(cfgs, node, run, i - 1);
      assert Step(cfgs, node, run[i - 1], run[i - 1 + 1]);
      if !EnvStep(node, run[i - 1], run[i]) {
        StepKeepsOthers(cfgs, node, run[i - 1], run[i]);
      }
    }
    RunInv(cfgs, node, run, i);
    NoOwnMeansOthers(run[i].c.taints);
  }

  /** The affinity tokens pushed by a call all name its node, and there are at most as many as evictions were scored. */
  lemma TokensAreBounded(cfgs: MigConfigs, node: string, run: seq<State>, i: nat)
    requires IsRun(cfgs, node, run) && i < |run| && HasPlan(run[i].pc)
    ensures forall k :: 0 <= k < |run[i].tokens| ==> run[i].tokens[k].node == node
    ensures |run[i].tokens| <= Evictions(ProfileLayout(cfgs, run[i].job.cur), ProfileLayout(cfgs, run[i].plan.updateConfig),
                                         run[i].mem.loc)
  {
    hide MemoryInv, IsRun, Evictions;
    RunInv(cfgs, node, run, i);
  }
}
