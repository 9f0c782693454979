/** What a run of Reconcile works on, what it leaves behind, and that it can be completed. */
module ReconcileOutcome {
  import opened Common
  import opened Text
  import opened MigLayout
  import opened ConfigSelector
  import opened NodeController
  import opened ReconcileMachine
  import opened ReconcileProofs
  import AffinityQueue

  lemma RunStep(cfgs: MigConfigs, node: string, run: seq<State>, i: nat)
    requires IsRun(cfgs, node, run) && i + 1 < |run|
    ensures Step(cfgs, node, run[i], run[i + 1])
  {
  }

  lemma RunStarts(cfgs: MigConfigs, node: string, run: seq<State>)
    requires IsRun(cfgs, node, run)
    ensures |run| > 0 && run[0].pc.Start? && run[0].tokens == [] && JobInv(run[0])
  {
  }

  // ---------------------------------------------------------------- the job

  /** The node and the target pod have been read, and the profile label has not been written yet. */
  predicate HasJob(pc: PC) {
    BeforeRelabel(pc) && !pc.Start? && !pc.CheckTarget?
  }

  predicate KnowsProfile(pc: PC) {
    BeforeRelabel(pc) && !pc.Start?
  }

  /** Until the label is written, it is what was read; and the demand is what the target pod asks for. */
  ghost predicate JobInv(s: State) {
    && (KnowsProfile(s.pc) ==> s.c.migConfig == s.job.cur)
    && (HasJob(s.pc) ==>
          && s.job.target in s.c.used
          && (s.job.target in s.c.pods ==> UsedByContainers(s.c.pods[s.job.target].containers) == s.job.demand))
  }

  /** What the target pod asks for cannot change. */
  lemma DemandStays(node: string, c: Cluster, c': Cluster, target: Pod, demand: map<string, int>)
    requires PodsMay(node, c, c') && target in c.used
    requires target in c.pods ==> UsedByContainers(c.pods[target].containers) == demand
    ensures target in c'.used && (target in c'.pods ==> UsedByContainers(c'.pods[target].containers) == demand)
  {
    hide UsedByContainers;
  }

  lemma ClusterKeepsJob(cfgs: MigConfigs, node: string, s: State, s': State)
    requires EnvStep(node, s, s')
    ensures s'.pc == s.pc && s'.job == s.job && s'.c.migConfig == s.c.migConfig
  {
    hide PodsMay, WellFormed;
  }

  /** How the job and the profile label may change in one step. */
  lemma JobMoves(cfgs: MigConfigs, node: string, s: State, s': State)
    requires Step(cfgs, node, s, s') && WellFormed(s.c)
    ensures KnowsProfile(s'.pc) ==> s'.c.migConfig == s.c.migConfig
                                    && (s'.job.cur == s.job.cur || (s.pc.Start? && s'.job.cur == s.c.migConfig))
    ensures KnowsProfile(s'.pc) && !KnowsProfile(s.pc) ==> s'.job.cur == s.c.migConfig
    ensures HasJob(s'.pc) ==> s'.job.target == s.job.target
                              && ((HasJob(s.pc) && s'.job.demand == s.job.demand)
                                  || (s'.c == s.c && s.job.target in s.c.pods && s.job.target in s.c.used
                                      && s'.job.demand == UsedByContainers(s.c.pods[s.job.target].containers)))
  {
    hide IsPlan, Sliceable, GoodPods, LocationsOf, UsedByPods, Lists, UsedByContainers, EmptyNameWins, Feasible, EnvStep, Plus,
         LabelValue, Others;
    if EnvStep(node, s, s') {
      ClusterKeepsJob(cfgs, node, s, s');
    }
  }

  lemma StepKeepsJob(cfgs: MigConfigs, node: string, s: State, s': State)
    requires JobInv(s) && WellFormed(s.c) && Step(cfgs, node, s, s')
    ensures JobInv(s')
  {
    hide Step, PodsMay, UsedByContainers, WellFormed;
    StepMay(cfgs, node, s, s');
    JobMoves(cfgs, node, s, s');
    if HasJob(s'.pc) && HasJob(s.pc) {
      DemandStays(node, s.c, s'.c, s.job.target, s.job.demand);
    }
  }

  lemma WellFormedInRun(cfgs: MigConfigs, node: string, run: seq<State>, i: nat)
    requires IsRun(cfgs, node, run) && i < |run|
    ensures WellFormed(run[i].c)
  {
    RunInv(cfgs, node, run, i);
  }

  lemma {:induction false} JobInRun(cfgs: MigConfigs, node: string, run: seq<State>, i: nat)
    requires IsRun(cfgs, node, run) && i < |run|
    ensures JobInv(run[i])
  {
    hide *;
    if i > 0 {
      JobInRun(cfgs, node, run, i - 1);
      WellFormedInRun(cfgs, node, run, i - 1);
      RunStep(cfgs, node, run, i - 1);
      StepKeepsJob(cfgs, node, run[i - 1], run[i]);
    } else {
      RunStarts(cfgs, node, run);
    }
  }

  /** The job never changes once it has been read. */
  lemma JobStep(cfgs: MigConfigs, node: string, s: State, s': State)
    requires Step(cfgs, node, s, s') && !s.pc.Start?
    ensures !s'.pc.Start? && s'.job.target == s.job.target && s'.job.cur == s.job.cur
  {
    hide IsPlan, Sliceable, GoodPods, LocationsOf, UsedByPods, Lists, EnvMay, EmptyNameWins, Feasible;
  }

  lemma JobIsRead(cfgs: MigConfigs, node: string, s: State, s': State)
    requires Step(cfgs, node, s, s') && s.pc.Start? && s'.pc.CheckTarget?
    ensures s'.job.target == Pod(s.c.targetPod, s.c.targetNamespace) && s'.job.cur == s.c.migConfig
  {
    hide IsPlan, Sliceable, GoodPods, LocationsOf, UsedByPods, Lists, EnvMay, EmptyNameWins, Feasible;
  }

  /** A call works for the pod that the node's labels named when it began, and compares with the profile set then. */
  lemma {:induction false} JobIsWhatTheNodeSaid(cfgs: MigConfigs, node: string, run: seq<State>, i: nat, j: nat)
    requires IsRun(cfgs, node, run) && i < j < |run| && run[i].pc.Start? && run[i + 1].pc.CheckTarget?
    ensures !run[j].pc.Start?
    ensures run[j].job.target == Pod(run[i].c.targetPod, run[i].c.targetNamespace)
    ensures run[j].job.cur == run[i].c.migConfig
  {
    hide IsRun, Step;
    RunStep(cfgs, node, run, j - 1);
    if j > i + 1 {
      JobIsWhatTheNodeSaid(cfgs, node, run, i, j - 1);
      JobStep(cfgs, node, run[j - 1], run[j]);
    } else {
      JobIsRead(cfgs, node, run[i], run[j]);
    }
  }

  lemma NoJobYet()
    ensures !HasJob(Start)
  {
  }

  lemma JobBegins(cfgs: MigConfigs, node: string, s: State, s': State)
    requires Step(cfgs, node, s, s') && HasJob(s'.pc) && !HasJob(s.pc)
    ensures s.pc.CheckTarget? && s'.pc.AddTaint? && s.job.target in s.c.pods && s.c.pods[s.job.target].nodeName == ""
  {
    hide IsPlan, Sliceable, GoodPods, LocationsOf, UsedByPods, Lists, EnvMay, EmptyNameWins, Feasible, UsedByContainers;
  }

  /** Only for a pod that is not bound yet does a call go on to taint the node. */
  lemma {:induction false} TargetWasPending(cfgs: MigConfigs, node: string, run: seq<State>, j: nat) returns (i: nat)
    requires IsRun(cfgs, node, run) && j < |run| && HasJob(run[j].pc)
    ensures i < j && run[i].pc.CheckTarget? && run[i + 1].pc.AddTaint?
    ensures run[i].job.target in run[i].c.pods && run[i].c.pods[run[i].job.target].nodeName == ""
  {
    hide IsRun, Step, HasJob;
    if j == 0 {
      RunStarts(cfgs, node, run);
      assert !HasJob(Start) by {
        NoJobYet();
      }
    } else {
      RunStep(cfgs, node, run, j - 1);
      if HasJob(run[j - 1].pc) {
        i := TargetWasPending(cfgs, node, run, j - 1);
      } else {
        JobBegins(cfgs, node, run[j - 1], run[j]);
        i := j - 1;
      }
    }
  }

  // ---------------------------------------------------------------- the profile that is written

  /** The step that writes the profile label. */
  predicate Writes(run: seq<State>, i: nat) {
    i + 1 < |run| && run[i].pc.WriteLabel? && run[i + 1].pc.AwaitOperator?
  }

  /** The profile label changes in no other step. */
  lemma OnlyRelabelWrites(cfgs: MigConfigs, node: string, s: State, s': State)
    requires Step(cfgs, node, s, s') && s'.c.migConfig != s.c.migConfig
    ensures s.pc.WriteLabel? && s'.pc.AwaitOperator?
  {
    hide IsPlan, Sliceable, GoodPods, LocationsOf, UsedByPods, Lists, PodsMay, EmptyNameWins, Feasible;
  }

  predicate AfterWrite(pc: PC) {
    pc.AwaitOperator? || pc.Untaint? || pc.Done?
  }

  lemma AfterWriteStep(cfgs: MigConfigs, node: string, s: State, s': State)
    requires Step(cfgs, node, s, s') && AfterWrite(s.pc)
    ensures AfterWrite(s'.pc) && s'.c.migConfig == s.c.migConfig && s'.job == s.job && s'.mem == s.mem && s'.plan == s.plan
  {
    hide IsPlan, Sliceable, GoodPods, LocationsOf, UsedByPods, Lists, PodsMay, EmptyNameWins, Feasible;
  }

  lemma WriteStep(cfgs: MigConfigs, node: string, s: State, s': State)
    requires Step(cfgs, node, s, s') && s.pc.WriteLabel? && s'.pc.AwaitOperator?
    ensures s'.c.migConfig == s.plan.updateConfig && s'.job == s.job && s'.mem == s.mem && s'.plan == s.plan
  {
    hide IsPlan, Sliceable, GoodPods, LocationsOf, UsedByPods, Lists, EnvMay, EmptyNameWins, Feasible;
  }

  lemma {:induction false} WrittenStays(cfgs: MigConfigs, node: string, run: seq<State>, i: nat, j: nat)
    requires IsRun(cfgs, node, run) && Writes(run, i) && i < j < |run|
    ensures AfterWrite(run[j].pc) && run[j].c.migConfig == run[i].plan.updateConfig
    ensures run[j].job == run[i].job && run[j].mem == run[i].mem && run[j].plan == run[i].plan
  {
    hide IsRun, Step;
    RunStep(cfgs, node, run, j - 1);
    if j > i + 1 {
      WrittenStays(cfgs, node, run, i, j - 1);
      AfterWriteStep(cfgs, node, run[j - 1], run[j]);
    } else {
      WriteStep(cfgs, node, run[i], run[j]);
    }
  }

  lemma StaysGone(node: string, c: Cluster, c': Cluster, p: Pod)
    requires PodsMay(node, c, c') && p in c.used && p !in c.pods
    ensures p in c'.used && p !in c'.pods
  {
  }

  /** A pod that is gone stays gone, because names are not reused. */
  lemma {:induction false} GoneForGood(cfgs: MigConfigs, node: string, run: seq<State>, i: nat, j: nat, p: Pod)
    requires IsRun(cfgs, node, run) && i <= j < |run| && p in run[i].c.used && p !in run[i].c.pods
    ensures p in run[j].c.used && p !in run[j].c.pods
  {
    hide Step, IsRun, PodsMay;
    if i < j {
      GoneForGood(cfgs, node, run, i, j - 1, p);
      RunStep(cfgs, node, run, j - 1);
      StepMay(cfgs, node, run[j - 1], run[j]);
      StaysGone(node, run[j - 1].c, run[j].c, p);
    }
  }

  /**
   * Once the profile label has been written, and until the call ends, it names a profile that can serve the slices in use
   * together with the target pod's, and that evicts the fewest pods of all such profiles unless the empty name would win.
   */
  lemma WrittenProfileServes(cfgs: MigConfigs, node: string, run: seq<State>, i: nat, j: nat)
    requires IsRun(cfgs, node, run) && Writes(run, i) && i < j < |run|
    ensures var now, s := run[j].c.migConfig, run[i];
            && Sliceable(s.mem.request) && now in cfgs && Feasible(cfgs[now], s.mem.request)
            && (IsOptimal(cfgs, s.mem.request, s.mem.loc, s.c.migConfig, now)
                <==> !EmptyNameWins(cfgs, s.mem.request, s.mem.loc, s.c.migConfig))
  {
    hide IsRun, IsOptimal, EmptyNameWins, Feasible, Sliceable, MemoryInv, UsedInv, GoneInv, DoneInv, TokenInv;
    WrittenStays(cfgs, node, run, i, j);
    RunInv(cfgs, node, run, i);
    JobInRun(cfgs, node, run, i);
  }

  /** No pod recorded on a GPU that differs between the profile before and the profile written exists ever after. */
  lemma RecordedPodsAreGone(cfgs: MigConfigs, node: string, run: seq<State>, i: nat, j: nat, id: int, p: Pod)
    requires IsRun(cfgs, node, run) && Writes(run, i) && i < j < |run|
    requires Changed(ProfileLayout(cfgs, run[i].c.migConfig), ProfileLayout(cfgs, run[j].c.migConfig), id)
    requires p in GetSeq(run[i].mem.loc, id)
    ensures p !in run[j].c.pods
  {
    WrittenStays(cfgs, node, run, i, j);
    JobInRun(cfgs, node, run, i);
    assert run[i].c.migConfig == run[i].job.cur;
    hide IsRun, Changed, ProfileLayout;
    EvictedBeforeRelabel(cfgs, node, run, i, id, p);
    RecordedIsUsed(cfgs, node, run, i, id, p);
    GoneForGood(cfgs, node, run, i, j, p);
  }

  lemma RecordedIsUsed(cfgs: MigConfigs, node: string, run: seq<State>, i: nat, id: int, p: Pod)
    requires IsRun(cfgs, node, run) && i < |run| && run[i].pc.WriteLabel? && p in GetSeq(run[i].mem.loc, id)
    ensures p in run[i].c.used
  {
    RunInv(cfgs, node, run, i);
    ListedWhenWritten(node, run[i]);
    var list :| Lists(list, run[i].mem.listed) && run[i].mem.loc == LocationsOf(list);
    LocatedIsListed(list, p, id);
  }

  /**
   * Where no listing of any use is overwritten, the layout of the profile that is now set has room for the slices that the
   * target pod requests and for those of all pods that were on the node before the evictions.
   */
  lemma WrittenLayoutHoldsEveryone(cfgs: MigConfigs, node: string, run: seq<State>, i: nat, j: nat, r: string)
    requires IsRun(cfgs, node, run) && Writes(run, i) && i < j < |run|
    requires run[j].c.migConfig in cfgs && r in run[i].mem.request && |r| >= PREFIX_LENGTH
    requires NothingOverwritten(ListingsOf(cfgs[run[j].c.migConfig]), r[PREFIX_LENGTH..])
    requires forall g :: 0 <= g < |cfgs[run[j].c.migConfig]| ==>
               Get(cfgs[run[j].c.migConfig][g].migDevices, r[PREFIX_LENGTH..]) >= 0
    ensures Load(run[i].mem.measured, r) + Get(run[i].job.demand, r)
            <= LayoutTotal(ProfileLayout(cfgs, run[j].c.migConfig), r[PREFIX_LENGTH..])
    ensures run[i].job.target in run[i].c.pods ==>
              run[i].job.demand == UsedByContainers(run[i].c.pods[run[i].job.target].containers)
    ensures run[i].mem.tainted ==> Load(NodePods(run[i].c, node), r) <= Load(run[i].mem.measured, r)
  {
    WrittenStays(cfgs, node, run, i, j);
    JobInRun(cfgs, node, run, i);
    hide IsRun, LayoutTotal, Load, NothingOverwritten, ListingsOf, UsedByContainers;
    NewLayoutHoldsEveryone(cfgs, node, run, i, r);
  }

  /** A call gives up for want of a profile only if none is feasible, or the empty name would win. */
  lemma GivesUpOnlyIfNothingIsFeasible(cfgs: MigConfigs, node: string, run: seq<State>, i: nat)
    requires IsRun(cfgs, node, run) && i + 1 < |run| && run[i].pc.Choose? && run[i + 1].pc.Untaint?
    ensures Sliceable(run[i].mem.request)
    ensures EmptyNameWins(cfgs, run[i].mem.request, run[i].mem.loc, run[i].job.cur)
         || forall p :: p in cfgs ==> !Feasible(cfgs[p], run[i].mem.request)
  {
    RunStep(cfgs, node, run, i);
    hide IsRun, IsPlan, Sliceable, GoodPods, LocationsOf, UsedByPods, Lists, EnvMay, EmptyNameWins, Feasible;
  }

  // ---------------------------------------------------------------- the pods that are stopped, and the taint

  /** Reconcile touches no pods but those on its stop list and the reporters of the node. */
  lemma OnlyPlannedPodsAreStopped(cfgs: MigConfigs, node: string, s: State, s': State, p: Pod)
    requires ReconcileStep(cfgs, node, s, s') && p in s.c.pods
    requires p !in s'.c.pods || s'.c.pods[p] != s.c.pods[p]
    ensures p in s'.c.pods && s'.c.pods[p] == s.c.pods[p].(terminating := true)
    ensures (s.pc.DeletePod? && p in s.plan.stopPods) || (s.c.pods[p].reporter && s.c.pods[p].nodeName == node)
  {
    hide IsPlan, Sliceable, GoodPods, LocationsOf, UsedByPods, Lists, EmptyNameWins, Feasible;
  }

  lemma UntaintStep(cfgs: MigConfigs, node: string, s: State, s': State)
    requires Step(cfgs, node, s, s') && s.pc.AwaitOperator?
    ensures s'.pc.AwaitOperator? || (s'.pc.Untaint? && s.c.migState != PENDING)
  {
    hide IsPlan, Sliceable, GoodPods, LocationsOf, UsedByPods, Lists, EnvMay, EmptyNameWins, Feasible;
  }

  /** After the profile label is written, the taint stays until the operator has been seen not to be pending. */
  lemma {:induction false} TaintStaysForTheOperator(cfgs: MigConfigs, node: string, run: seq<State>, i: nat, j: nat)
    requires IsRun(cfgs, node, run) && Writes(run, i) && i < j < |run| && run[i].mem.tainted
    requires forall k :: i < k < j ==> run[k].c.migState == PENDING
    ensures run[j].pc.AwaitOperator? && OWN_TAINT in run[j].c.taints
  {
    hide IsRun, Step;
    WrittenStays(cfgs, node, run, i, j);
    if j > i + 1 {
      TaintStaysForTheOperator(cfgs, node, run, i, j - 1);
      RunStep(cfgs, node, run, j - 1);
      UntaintStep(cfgs, node, run[j - 1], run[j]);
    }
    TaintedInRun(cfgs, node, run, j);
  }

  // ---------------------------------------------------------------- the tokens

  /** Step d deletes pod number m of the stop list, and its template hash was read in step f. */
  ghost predicate Evicts(node: string, run: seq<State>, f: nat, d: nat, m: nat, hash: string) {
    && f < d < |run| - 1 && run[f].pc == FetchPod(m) && m < |run[f].plan.stopPods|
    && run[d].pc == DeletePod(m, hash) && run[d].plan == run[f].plan
    && var p := run[f].plan.stopPods[m];
    && (hash == "" || (p in run[f].c.pods && run[f].c.pods[p].templateHash == Some(hash)))
    && p in run[d].c.pods && p in run[d + 1].c.pods && run[d + 1].c.pods[p].terminating
    && run[d + 1].tokens == run[d].tokens + [AffinityQueue.Token(hash, node)]
  }

  lemma TokenStep(cfgs: MigConfigs, node: string, s: State, s': State)
    requires Step(cfgs, node, s, s') && s'.tokens != s.tokens
    ensures s.pc.DeletePod? && s.pc.i < |s.plan.stopPods|
    ensures var p := s.plan.stopPods[s.pc.i];
            && p in s.c.pods && s'.c == Terminate(s.c, p)
            && s'.tokens == s.tokens + [AffinityQueue.Token(s.pc.hash, node)]
  {
    hide IsPlan, Sliceable, GoodPods, LocationsOf, UsedByPods, Lists, EnvMay, EmptyNameWins, Feasible, WellFormed;
  }

  lemma HashStep(cfgs: MigConfigs, node: string, s: State, s': State)
    requires Step(cfgs, node, s, s') && s'.pc.DeletePod?
    ensures s'.plan == s.plan && (s.pc.DeletePod? || s.pc.FetchPod?)
    ensures s.pc.DeletePod? ==> s'.pc == s.pc
    ensures s.pc.FetchPod? ==>
              s'.pc.i == s.pc.i < |s.plan.stopPods|
              && var p := s.plan.stopPods[s.pc.i];
              s'.pc.hash == "" || (p in s.c.pods && s'.pc.hash == LabelValue(s.c.pods[p].templateHash))
  {
    hide IsPlan, Sliceable, GoodPods, LocationsOf, UsedByPods, Lists, EnvMay, EmptyNameWins, Feasible, WellFormed;
  }

  /** The template hash in hand was read from the pod about to be deleted, or could not be read. */
  lemma {:induction false} HashWasRead(cfgs: MigConfigs, node: string, run: seq<State>, d: nat) returns (f: nat)
    requires IsRun(cfgs, node, run) && d < |run| && run[d].pc.DeletePod?
    ensures f < d && run[f].pc == FetchPod(run[d].pc.i) && run[f].plan == run[d].plan
    ensures run[d].pc.i < |run[d].plan.stopPods|
    ensures var p := run[d].plan.stopPods[run[d].pc.i];
            run[d].pc.hash == ""
            || (p in run[f].c.pods && run[d].pc.hash == LabelValue(run[f].c.pods[p].templateHash))
  {
    hide IsRun, Step;
    if d == 0 {
      RunStarts(cfgs, node, run);
      assert false;
    } else {
      RunStep(cfgs, node, run, d - 1);
      HashStep(cfgs, node, run[d - 1], run[d]);
      if run[d - 1].pc.DeletePod? {
        f := HashWasRead(cfgs, node, run, d - 1);
      } else {
        f := d - 1;
      }
    }
  }

  lemma TokensGrow(cfgs: MigConfigs, node: string, s: State, s': State, k: nat)
    requires Step(cfgs, node, s, s') && k < |s.tokens|
    ensures k < |s'.tokens| && s'.tokens[k] == s.tokens[k]
  {
    hide Step;
    if s'.tokens != s.tokens {
      TokenStep(cfgs, node, s, s');
    }
  }

  lemma ThatEvicts(node: string, run: seq<State>, f: nat, d: nat)
    requires f < d < |run| - 1 && run[d].pc.DeletePod? && run[f].pc == FetchPod(run[d].pc.i) && run[d].plan == run[f].plan
    requires run[d].pc.i < |run[d].plan.stopPods|
    requires var p := run[d].plan.stopPods[run[d].pc.i];
             && (run[d].pc.hash == "" || (p in run[f].c.pods && run[d].pc.hash == LabelValue(run[f].c.pods[p].templateHash)))
             && p in run[d].c.pods && run[d + 1].c == Terminate(run[d].c, p)
             && run[d + 1].tokens == run[d].tokens + [AffinityQueue.Token(run[d].pc.hash, node)]
    ensures Evicts(node, run, f, d, run[d].pc.i, run[d].pc.hash)
  {
  }

  /** Every token pushed is the eviction of a pod of the stop list, under the template hash read from that pod. */
  lemma {:induction false} TokenIsAnEviction(cfgs: MigConfigs, node: string, run: seq<State>, i: nat, k: nat)
    returns (f: nat, d: nat, m: nat)
    requires IsRun(cfgs, node, run) && i < |run| && k < |run[i].tokens|
    ensures d < i && Evicts(node, run, f, d, m, run[i].tokens[k].hash) && |run[d].tokens| == k
  {
    hide IsRun, Step, Evicts;
    if i == 0 {
      RunStarts(cfgs, node, run);
      assert false;
    } else {
      RunStep(cfgs, node, run, i - 1);
      if k < |run[i - 1].tokens| {
        f, d, m := TokenIsAnEviction(cfgs, node, run, i - 1, k);
        TokensGrow(cfgs, node, run[i - 1], run[i], k);
      } else {
        TokenStep(cfgs, node, run[i - 1], run[i]);
        d, m := i - 1, run[i - 1].pc.i;
        f := HashWasRead(cfgs, node, run, d);
        assert Evicts(node, run, f, d, m, run[i].tokens[k].hash) by {
          ThatEvicts(node, run, f, d);
        }
      }
    }
  }

  /** A delete that takes effect pushes one token, under the hash in hand. */
  lemma EvictionPushesToken(cfgs: MigConfigs, node: string, s: State, s': State)
    requires ReconcileStep(cfgs, node, s, s') && s.pc.DeletePod? && s'.c != s.c
    ensures s'.tokens == s.tokens + [AffinityQueue.Token(s.pc.hash, node)]
    ensures s.pc.i < |s.plan.stopPods| && s.plan.stopPods[s.pc.i] in s.c.pods
    ensures s'.c == Terminate(s.c, s.plan.stopPods[s.pc.i])
  {
  }
}
