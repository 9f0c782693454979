/** A plan that has been made can be carried out to the end, if calls succeed and deleted pods exit. */
module ReconcileProgress {
  import opened Common
  import opened MigLayout
  import opened ConfigSelector
  import opened NodeController
  import opened ReconcileMachine
  import opened ReconcileProofs
  import AffinityQueue

  /** t can be reached from s in n steps. */
  ghost predicate Reaches(cfgs: MigConfigs, node: string, s: State, t: State, n: nat)
    decreases n
  {
    if n == 0 then s == t else exists m :: Step(cfgs, node, s, m) && Reaches(cfgs, node, m, t, n - 1)
  }

  lemma ReachesFirst(cfgs: MigConfigs, node: string, s: State, m: State, t: State, n: nat)
    requires Step(cfgs, node, s, m) && Reaches(cfgs, node, m, t, n)
    ensures Reaches(cfgs, node, s, t, n + 1)
  {
  }

  /** The label is written, the operator finishes, and the taint is removed. */
  lemma CanWrite(cfgs: MigConfigs, node: string, s: State) returns (t: State, n: nat)
    requires s.pc.WriteLabel? && WellFormed(s.c)
    ensures Reaches(cfgs, node, s, t, n) && t.pc == Done(true) && t.tokens == s.tokens && t.c.pods == s.c.pods
    ensures t.c.migConfig == s.plan.updateConfig && t.c.taints == Others(s.c.taints)
  {
    var s1 := s.(pc := AwaitOperator, c := s.c.(migConfig := s.plan.updateConfig));
    var s2 := s1.(c := s1.c.(migState := ""));
    var s3 := s2.(pc := Untaint);
    t := s3.(pc := Done(true), c := s3.c.(taints := Others(s3.c.taints)));
    assert WellFormed(s1.c) && WellFormed(s2.c);
    assert EnvStep(node, s1, s2) by {
      SamePodsMay(node, s1.c, s2.c);
    }
    assert Relabel(s, s1) && Await(s2, s3) && CleanUp(s3, t);
    assert Reaches(cfgs, node, t, t, 0);
    hide WellFormed, Relabel, Await, CleanUp, EnvStep, Others;
    StepOfReconcile(cfgs, node, s3, t);
    ReachesFirst(cfgs, node, s3, t, t, 0);
    StepOfReconcile(cfgs, node, s2, s3);
    ReachesFirst(cfgs, node, s2, s3, t, 1);
    StepOfCluster(cfgs, node, s1, s2);
    ReachesFirst(cfgs, node, s1, s2, t, 2);
    StepOfReconcile(cfgs, node, s, s1);
    ReachesFirst(cfgs, node, s, s1, t, 3);
    n := 4;
  }

  lemma StepOfReconcile(cfgs: MigConfigs, node: string, s: State, s': State)
    requires Fetch(s, s') || Delete(node, s, s') || PollPods(s, s') || StopReporters(node, s, s') || Relabel(s, s')
          || Await(s, s') || CleanUp(s, s')
    ensures Step(cfgs, node, s, s')
  {
  }

  lemma StepOfCluster(cfgs: MigConfigs, node: string, s: State, s': State)
    requires EnvStep(node, s, s')
    ensures Step(cfgs, node, s, s')
  {
  }

  lemma CanStopReporters(cfgs: MigConfigs, node: string, s: State) returns (t: State, n: nat)
    requires s.pc.StopReporter? && WellFormed(s.c)
    ensures Reaches(cfgs, node, s, t, n) && t.pc == Done(true) && t.tokens == s.tokens && t.c.pods == s.c.pods
    ensures t.c.migConfig == s.plan.updateConfig && t.c.taints == Others(s.c.taints)
  {
    var s1 := s.(pc := WriteLabel);
    assert StopReporters(node, s, s1);
    hide *;
    var k;
    t, k := CanWrite(cfgs, node, s1);
    StepOfReconcile(cfgs, node, s, s1);
    ReachesFirst(cfgs, node, s, s1, t, k);
    n := k + 1;
  }

  /** Once the pods are gone, one pass finds that out. */
  lemma {:induction false} CanPoll(cfgs: MigConfigs, node: string, s: State, i: nat) returns (t: State, n: nat)
    requires s.pc == Poll(i, i) && i <= |s.plan.stopPods| && Gone(s.c, s.plan.stopPods) && WellFormed(s.c)
    ensures Reaches(cfgs, node, s, t, n) && t.pc == Done(true) && t.tokens == s.tokens && t.c.pods == s.c.pods
    ensures t.c.migConfig == s.plan.updateConfig && t.c.taints == Others(s.c.taints)
    decreases |s.plan.stopPods| - i
  {
    hide WellFormed, Reaches, Others;
    var s1, k := s.(pc := if i == |s.plan.stopPods| then StopReporter else Poll(i + 1, i + 1)), 0;
    if i == |s.plan.stopPods| {
      t, k := CanStopReporters(cfgs, node, s1);
    } else {
      t, k := CanPoll(cfgs, node, s1, i + 1);
    }
    assert PollPods(s, s1);
    StepOfReconcile(cfgs, node, s, s1);
    ReachesFirst(cfgs, node, s, s1, t, k);
    n := k + 1;
  }

  function Remaining(pods: map<Pod, PodObject>, stop: seq<Pod>): map<Pod, PodObject> {
    map p | p in pods && p !in stop :: pods[p]
  }

  /** The pods being deleted exit. */
  lemma CanExit(cfgs: MigConfigs, node: string, s: State) returns (t: State, n: nat)
    requires s.pc == Poll(0, 0) && WellFormed(s.c)
    ensures Reaches(cfgs, node, s, t, n) && t.pc == Done(true) && t.tokens == s.tokens
    ensures t.c.pods == Remaining(s.c.pods, s.plan.stopPods)
    ensures t.c.migConfig == s.plan.updateConfig && t.c.taints == Others(s.c.taints)
  {
    var s1, k := s.(c := s.c.(pods := Remaining(s.c.pods, s.plan.stopPods))), 0;
    PodsMayExit(node, s.c, s.plan.stopPods);
    NoneRemains(s.c.pods, s.plan.stopPods);
    assert EnvStep(node, s, s1) && WellFormed(s1.c) && Gone(s1.c, s1.plan.stopPods);
    hide *;
    t, k := CanPoll(cfgs, node, s1, 0);
    StepOfCluster(cfgs, node, s, s1);
    ReachesFirst(cfgs, node, s, s1, t, k);
    n := k + 1;
  }

  lemma PodsMayExit(node: string, c: Cluster, stop: seq<Pod>)
    requires WellFormed(c)
    ensures EnvMay(node, c, c.(pods := Remaining(c.pods, stop)))
  {
    hide GoodPod;
  }

  lemma NoneRemains(pods: map<Pod, PodObject>, stop: seq<Pod>)
    ensures forall k :: 0 <= k < |stop| ==> stop[k] !in Remaining(pods, stop)
  {
  }

  /** The tokens of the pods of the stop list, in its order: one for each entry that still exists. */
  function TokensFor(pods: map<Pod, PodObject>, stop: seq<Pod>, node: string): seq<AffinityQueue.Token> {
    if stop == [] then [] else
      var rest := TokensFor(pods, stop[1..], node);
      if stop[0] !in pods then rest
      else
        var hash := match pods[stop[0]].templateHash case Some(h) => h case None => "";
        [AffinityQueue.Token(hash, node)] + rest
  }

  lemma {:induction false} TokensAfterDelete(pods: map<Pod, PodObject>, p: Pod, stop: seq<Pod>, node: string)
    requires p in pods
    ensures TokensFor(pods[p := pods[p].(terminating := true)], stop, node) == TokensFor(pods, stop, node)
  {
    if stop != [] {
      TokensAfterDelete(pods, p, stop[1..], node);
    }
  }

  lemma TokensForNext(pods: map<Pod, PodObject>, stop: seq<Pod>, node: string)
    requires stop != []
    ensures TokensFor(pods, stop, node)
            == (if stop[0] in pods then [AffinityQueue.Token(LabelValue(pods[stop[0]].templateHash), node)] else [])
               + TokensFor(pods, stop[1..], node)
  {
  }

  lemma RemainingAfterDelete(pods: map<Pod, PodObject>, p: Pod, stop: seq<Pod>)
    requires p in pods && p in stop
    ensures Remaining(pods[p := pods[p].(terminating := true)], stop) == Remaining(pods, stop)
  {
  }

  /** The next pod of the stop list is read and deleted, if it still exists. */
  lemma EvictNext(cfgs: MigConfigs, node: string, s: State) returns (s1: State, s2: State)
    requires s.pc.FetchPod? && s.pc.i < |s.plan.stopPods| && WellFormed(s.c)
    ensures Step(cfgs, node, s, s1) && Step(cfgs, node, s1, s2)
    ensures s2.pc == FetchPod(s.pc.i + 1) && s2.plan == s.plan && s2.c.taints == s.c.taints && WellFormed(s2.c)
    ensures Remaining(s2.c.pods, s.plan.stopPods) == Remaining(s.c.pods, s.plan.stopPods)
    ensures s2.tokens + TokensFor(s2.c.pods, s.plan.stopPods[s.pc.i + 1..], node)
            == s.tokens + TokensFor(s.c.pods, s.plan.stopPods[s.pc.i..], node)
  {
    hide WellFormed, GoodPod;
    var stop, i := s.plan.stopPods, s.pc.i;
    var p := stop[i];
    assert stop[i..][1..] == stop[i + 1..] && stop[i..][0] == p;
    TokensForNext(s.c.pods, stop[i..], node);
    hide TokensFor;
    var hash := if p in s.c.pods then LabelValue(s.c.pods[p].templateHash) else "";
    s1 := s.(pc := DeletePod(i, hash));
    s2 := s1.(pc := FetchPod(i + 1));
    if p in s.c.pods {
      s2 := s2.(c := Terminate(s.c, p), tokens := s.tokens + [AffinityQueue.Token(hash, node)]);
      TerminateMay(node, s.c, p);
      TokensAfterDelete(s.c.pods, p, stop[i + 1..], node);
      RemainingAfterDelete(s.c.pods, p, stop);
    }
    hide Remaining, LabelValue;
    assert Fetch(s, s1) && Delete(node, s1, s2);
    hide Fetch, Delete;
    StepOfReconcile(cfgs, node, s, s1);
    StepOfReconcile(cfgs, node, s1, s2);
  }

  lemma AllEvicted(cfgs: MigConfigs, node: string, s: State) returns (t: State, n: nat)
    requires s.pc == FetchPod(|s.plan.stopPods|) && WellFormed(s.c)
    ensures Reaches(cfgs, node, s, t, n) && t.pc == Done(true)
    ensures t.tokens == s.tokens + TokensFor(s.c.pods, s.plan.stopPods[s.pc.i..], node)
    ensures t.c.pods == Remaining(s.c.pods, s.plan.stopPods)
    ensures t.c.migConfig == s.plan.updateConfig && t.c.taints == Others(s.c.taints)
  {
    var s1 := s.(pc := Poll(0, 0));
    assert Fetch(s, s1) && TokensFor(s.c.pods, s.plan.stopPods[s.pc.i..], node) == [];
    hide *;
    t, n := CanExit(cfgs, node, s1);
    StepOfReconcile(cfgs, node, s, s1);
    ReachesFirst(cfgs, node, s, s1, t, n);
    n := n + 1;
  }

  /** Every pod of the stop list is deleted, with one token each. */
  lemma {:induction false} CanEvict(cfgs: MigConfigs, node: string, s: State) returns (t: State, n: nat)
    requires s.pc.FetchPod? && s.pc.i <= |s.plan.stopPods| && WellFormed(s.c)
    ensures Reaches(cfgs, node, s, t, n) && t.pc == Done(true)
    ensures t.tokens == s.tokens + TokensFor(s.c.pods, s.plan.stopPods[s.pc.i..], node)
    ensures t.c.pods == Remaining(s.c.pods, s.plan.stopPods)
    ensures t.c.migConfig == s.plan.updateConfig && t.c.taints == Others(s.c.taints)
    decreases |s.plan.stopPods| - s.pc.i
  {
    hide *;
    if s.pc.i == |s.plan.stopPods| {
      t, n := AllEvicted(cfgs, node, s);
    } else {
      var s1, s2 := EvictNext(cfgs, node, s);
      t, n := CanEvict(cfgs, node, s2);
      ReachesFirst(cfgs, node, s1, s2, t, n);
      ReachesFirst(cfgs, node, s, s1, t, n + 1);
      n := n + 2;
    }
  }

  /**
   * From every state of every run in which a plan has just been made, the call can be completed: the pods of the stop
   * list are gone and no others, each left one token under its template hash, the planned profile is set, and of the
   * taints only the controller's own is gone.
   */
  lemma PlanCanBeCarriedOut(cfgs: MigConfigs, node: string, run: seq<State>, i: nat) returns (t: State, n: nat)
    requires IsRun(cfgs, node, run) && i < |run| && run[i].pc == FetchPod(0)
    ensures Reaches(cfgs, node, run[i], t, n) && t.pc == Done(true)
    ensures t.c.migConfig == run[i].plan.updateConfig && t.c.taints == Others(run[i].c.taints)
    ensures t.c.pods == Remaining(run[i].c.pods, run[i].plan.stopPods)
    ensures t.tokens == run[i].tokens + TokensFor(run[i].c.pods, run[i].plan.stopPods, node)
  {
    RunInv(cfgs, node, run, i);
    assert WellFormed(run[i].c);
    hide IsRun, Inv, WellFormed, Reaches, Remaining, TokensFor, Others;
    t, n := CanEvict(cfgs, node, run[i]);
    assert run[i].plan.stopPods[0..] == run[i].plan.stopPods;
  }
}
