/**
 * Why the labels matter: a complete run of Reconcile, with the taint written and every API call succeeding, in which a
 * pod that was bound but not yet labelled still uses a repartitioned GPU when the profile label is written.
 */
module ReconcileRace {
  import opened Common
  import opened Text
  import opened MigLayout
  import opened ConfigSelector
  import opened NodeController
  import opened ReconcileMachine
  import opened ReconcileProofs

  const ONE := "1g.5gb"
  const TWO := "2g.10gb"
  const REQUEST_ONE := "nvidia.com/mig-1g.5gb"
  const REQUEST_TWO := "nvidia.com/mig-2g.10gb"
  const NODE := "n"
  const OLD := "a"
  const NEW := "b"

  const PROFILES: MigConfigs := map[OLD := [MigConfig([0], true, map[ONE := 1])],
                                    NEW := [MigConfig([0], true, map[ONE := 2, TWO := 1])]]

  const RUNNER := Pod("r", "d")
  const TARGET := Pod("t", "d")

  /** Bound and using GPU 0, but the reporter has not labelled it yet. */
  const RUNNING_POD := PodObject(NODE, Running, None, None, [map[REQUEST_ONE := 1]], false, false, [0])
  const PENDING_POD := PodObject("", Pending, None, None, [map[REQUEST_TWO := 1]], false, false, [])

  const CLUSTER := Cluster(map[RUNNER := RUNNING_POD, TARGET := PENDING_POD], {RUNNER, TARGET}, [], "t", "d", OLD, "success")
  const TAINTED := CLUSTER.(taints := [OWN_TAINT])
  const LISTED := map[RUNNER := RUNNING_POD]
  const DEMAND := map[REQUEST_TWO := 1]
  const NEEDED := map[REQUEST_ONE := 1, REQUEST_TWO := 1]
  const PLAN := Plan(NEW, [0], [])

  const JOB := Job(TARGET, OLD, DEMAND)
  const NOTHING := Memory(false, {}, map[], map[], map[], map[])
  const SEEN := Memory(true, {RUNNER}, LISTED, map[], LISTED, NEEDED)
  const NO_PLAN := Plan("", [], [])

  const S0 := State(CLUSTER, Start, Job(TARGET, OLD, map[]), NOTHING, NO_PLAN, [])
  const S1 := State(CLUSTER, CheckTarget, Job(TARGET, OLD, map[]), NOTHING, NO_PLAN, [])
  const S2 := State(CLUSTER, AddTaint, JOB, NOTHING, NO_PLAN, [])
  const S3 := State(TAINTED, Locate, JOB, NOTHING.(tainted := true, atTaint := {RUNNER}), NO_PLAN, [])
  const S4 := State(TAINTED, Measure, JOB, NOTHING.(tainted := true, atTaint := {RUNNER}, listed := LISTED), NO_PLAN, [])
  const S5 := State(TAINTED, Choose, JOB, SEEN, NO_PLAN, [])
  const S6 := State(TAINTED, FetchPod(0), JOB, SEEN, PLAN, [])
  const S7 := State(TAINTED, Poll(0, 0), JOB, SEEN, PLAN, [])
  const S8 := State(TAINTED, StopReporter, JOB, SEEN, PLAN, [])
  const S9 := State(TAINTED, WriteLabel, JOB, SEEN, PLAN, [])

  const RUN := [S0, S1, S2, S3, S4, S5, S6, S7, S8, S9]

  lemma SingleGroup(g: MigConfig)
    requires g.devices == [0]
    ensures LayoutOf([g]) == map[0 := g.migDevices]
  {
    var empty: Layout := map[];
    assert [g][..0] == [] && g.devices[..0] == [];
    assert Assign(empty, g.devices, g.migDevices) == empty[0 := g.migDevices];
  }

  lemma Layouts()
    ensures ProfileLayout(PROFILES, OLD) == map[0 := map[ONE := 1]]
    ensures ProfileLayout(PROFILES, NEW) == map[0 := map[ONE := 2, TWO := 1]]
    ensures Supply(PROFILES[NEW], ONE) == 2 && Supply(PROFILES[NEW], TWO) == 1
  {
    var g := MigConfig([0], true, map[ONE := 1]);
    var h := MigConfig([0], true, map[ONE := 2, TWO := 1]);
    SingleGroup(g);
    SingleGroup(h);
    assert [h][..0] == [];
  }

  lemma Names()
    ensures REQUEST_ONE[PREFIX_LENGTH..] == ONE && REQUEST_TWO[PREFIX_LENGTH..] == TWO
    ensures HasPrefix(REQUEST_ONE, MIG_RESOURCES) && HasPrefix(REQUEST_TWO, MIG_RESOURCES)
    ensures REQUEST_ONE != REQUEST_TWO && ONE != TWO
  {
    assert ONE[0] != TWO[0];
    assert REQUEST_ONE[15] != REQUEST_TWO[15];
  }

  lemma Uses()
    ensures UsedByContainers(PENDING_POD.containers) == DEMAND
    ensures UsedByPods([ListedPod(RUNNER, RUNNING_POD)]) == map[REQUEST_ONE := 1]
    ensures Plus(map[REQUEST_ONE := 1], DEMAND) == NEEDED
  {
    hide HasPrefix;
    Names();
    var one: map<string, int> := map[REQUEST_ONE := 1];
    var two: map<string, int> := map[REQUEST_TWO := 1];
    assert MigPart(one) == one && MigPart(two) == two;
    assert [one][..0] == [] && [two][..0] == [];
    assert UsedByContainers([one]) == one;
    assert UsedByContainers([two]) == two;
    var listed := [ListedPod(RUNNER, RUNNING_POD)];
    assert listed[..0] == [];
    assert UsedByPods(listed) == one;
  }

  lemma NothingLocated()
    ensures LocationsOf([ListedPod(RUNNER, RUNNING_POD)]) == map[]
    ensures Lists([ListedPod(RUNNER, RUNNING_POD)], LISTED)
    ensures NodePods(CLUSTER, NODE) == LISTED && NodePods(TAINTED, NODE) == LISTED
  {
    var listed := [ListedPod(RUNNER, RUNNING_POD)];
    assert listed[..0] == [];
    LabelRoundTrip([]);
    assert listed[0].id == RUNNER;
  }

  lemma NobodyEvicted(old_: Layout, new_: Layout)
    ensures Evictions(old_, new_, map[]) == 0
  {
    var nowhere: Locations := map[];
    ZeroSum(ChangedGPUs(old_, new_), id => |GetSeq(nowhere, id)|);
  }

  lemma PlanIsRight()
    ensures Sliceable(NEEDED) && IsPlan(PROFILES, NEEDED, map[], OLD, PLAN)
  {
    Layouts();
    Names();
    var cur, best := ProfileLayout(PROFILES, OLD), ProfileLayout(PROFILES, NEW);
    assert best[0][ONE] != Count(cur, 0, ONE);
    forall id ensures id in PLAN.gpuIDs <==> Changed(cur, best, id) {
    }
    assert PLAN.gpuIDs[..0] == [];
    forall p: string ensures Evictions(cur, ProfileLayout(PROFILES, p), map[]) == 0 {
      NobodyEvicted(cur, ProfileLayout(PROFILES, p));
    }
    NobodyEvicted(cur, best);
  }

  lemma WellFormedStart()
    ensures Init(S0)
  {
    LabelRoundTrip([]);
    Names();
    assert REQUEST_ONE in MigPart(map[REQUEST_ONE := 1]);
    assert MigPart(RUNNING_POD.containers[0]) != map[];
  }

  lemma FirstSteps()
    ensures ReadNode(S0, S1) && ReadTarget(S1, S2) && WriteTaint(NODE, S2, S3)
  {
    hide HasPrefix;
    NothingLocated();
    Uses();
  }

  lemma MiddleSteps()
    ensures LocatePods(NODE, S3, S4) && MeasureUse(NODE, S4, S5)
  {
    hide Lists, LocationsOf, NodePods, UsedByPods, Plus;
    NothingLocated();
    Uses();
  }

  lemma LastSteps()
    ensures Decide(PROFILES, S5, S6) && Fetch(S6, S7) && PollPods(S7, S8) && StopReporters(NODE, S8, S9)
  {
    hide IsPlan, Sliceable, NodePods, Feasible;
    PlanIsRight();
  }

  lemma RaceIsRun()
    ensures IsRun(PROFILES, NODE, RUN)
  {
    hide ReadNode, ReadTarget, WriteTaint, LocatePods, MeasureUse, Decide, Fetch, PollPods, StopReporters, Init;
    WellFormedStart();
    FirstSteps();
    MiddleSteps();
    LastSteps();
  }

  lemma RunnerSurvives()
    ensures Survivor(PROFILES, NODE, S9, RUNNER, 0)
  {
    Layouts();
    Names();
    NothingLocated();
    assert ProfileLayout(PROFILES, NEW)[0][ONE] != Count(ProfileLayout(PROFILES, OLD), 0, ONE);
  }

  /** An unlabelled pod can outlive the eviction: SurvivorIffAtRisk is not about an impossible case. */
  lemma UnlabelledPodSurvives()
    ensures var s := RUN[|RUN| - 1];
            IsRun(PROFILES, NODE, RUN) && s.pc.WriteLabel? && s.mem.tainted && Survivor(PROFILES, NODE, s, RUNNER, 0)
  {
    hide IsRun, Survivor;
    RaceIsRun();
    RunnerSurvives();
  }
}
