/** The autoscaler's traffic split over the revisions of a service. */
module Traffic {
  import opened Arithmetic
  import opened Common

  datatype Target = Target(percent: int, name: string)

  datatype Decision = ScalingUp | ScalingDown | ScalingOut | ScalingIn

  /** The share of position i when 100 percent are split n ways. */
  function Share(i: nat, n: nat): int
    requires n > 0
  {
    100 / n + if i < 100 % n then 1 else 0
  }

  /** Position i of the list `names` gets the i-th of n shares. */
  function Split(names: seq<string>, n: nat): (targets: seq<Target>)
    requires n > 0
    ensures |targets| == |names|
    ensures forall i :: 0 <= i < |names| ==> targets[i] == Target(Share(i, n), names[i])
  {
    seq(|names|, i requires 0 <= i < |names| => Target(Share(i, n), names[i]))
  }

  function Names(targets: seq<Target>): (names: seq<string>)
    ensures |names| == |targets|
    ensures forall i :: 0 <= i < |targets| ==> names[i] == targets[i].name
  {
    seq(|targets|, i requires 0 <= i < |targets| => targets[i].name)
  }

  /** The position at which the retired revision is listed. */
  predicate ListedAt(revisions: seq<string>, retired: string, k: nat) {
    k < |revisions| && revisions[k] == retired && forall i :: 0 <= i < |revisions| && i != k ==> revisions[i] != retired
  }

  /** The position that is cut out: the retired revision's, or the first one if no such revision is listed. */
  predicate CutAt(revisions: seq<string>, retired: string, k: nat) {
    ListedAt(revisions, retired, k) || (retired !in revisions && k == 0)
  }

  // ---------------------------------------------------------------- what updateServiceTraffic writes

  /** The target of every listed revision, by position. The new revision of a replacement is known by another name. */
  function Targets(decision: Decision, revisions: seq<string>, latestReady: string): (targets: seq<Target>)
    requires |revisions| >= (if decision.ScalingOut? then 1 else 2)
    ensures |targets| == |revisions|
  {
    match decision
    case ScalingOut => Split(revisions, |revisions|)
    case ScalingIn => Split(revisions, |revisions| - 1)
    case _ => Split(revisions[|revisions| - 1 := latestReady], |revisions| - 1)
  }

  /** How many positions are overwritten in place; the last revision is appended unless it is scaled in or retired. */
  function InPlace(decision: Decision, revisions: seq<string>): int {
    if decision.ScalingIn? then |revisions| else |revisions| - 1
  }

  predicate Appends(decision: Decision, revisions: seq<string>, retired: string)
    requires revisions != []
  {
    decision.ScalingOut? || (!decision.ScalingIn? && revisions[|revisions| - 1] != retired)
  }

  /** The first m targets over the prior ones: what stood beyond them stays. */
  function Overwritten(targets: seq<Target>, traffic: seq<Target>, m: nat): seq<Target>
    requires m <= |targets|
  {
    if |traffic| >= m then targets[..m] + traffic[m..] else targets[..|traffic|]
  }

  /** The list before the retired position is cut out. */
  function Written(decision: Decision, traffic: seq<Target>, revisions: seq<string>, retired: string, latestReady: string): seq<Target>
    requires |revisions| >= (if decision.ScalingOut? then 1 else 2)
  {
    var targets := Targets(decision, revisions, latestReady);
    Overwritten(targets, traffic, InPlace(decision, revisions))
    + if Appends(decision, revisions, retired) then [targets[|revisions| - 1]] else []
  }

  /** No index is out of range and nothing is divided by zero. */
  predicate NoPanic(decision: Decision, traffic: seq<Target>, revisions: seq<string>, retired: string, k: nat) {
    && |revisions| >= (if decision.ScalingOut? then 1 else 2)
    && (forall i :: 0 <= i < InPlace(decision, revisions) ==>
          i < |traffic| || (!decision.ScalingOut? && revisions[i] == retired))
    && (!decision.ScalingOut? ==>
          CutAt(revisions, retired, k) && k < |traffic| + if Appends(decision, revisions, retired) then 1 else 0)
  }

  function NewTraffic(decision: Decision, traffic: seq<Target>, revisions: seq<string>, retired: string, latestReady: string,
                      k: nat): seq<Target>
    requires NoPanic(decision, traffic, revisions, retired, k)
  {
    var written := Written(decision, traffic, revisions, retired, latestReady);
    if decision.ScalingOut? then written else Without(written, k)
  }

  /** Position by position, what the loop has written when it ends; the retired position does not matter. */
  predicate IsWritten(decision: Decision, traffic: seq<Target>, revisions: seq<string>, retired: string, latestReady: string,
                      loop: seq<Target>)
    requires |revisions| >= (if decision.ScalingOut? then 1 else 2)
  {
    var targets := Targets(decision, revisions, latestReady);
    && |loop| == |traffic| + (if Appends(decision, revisions, retired) then 1 else 0)
    && (forall j :: 0 <= j < InPlace(decision, revisions) && j < |traffic| ==>
          (!decision.ScalingOut? && revisions[j] == retired) || loop[j] == targets[j])
    && (forall j :: InPlace(decision, revisions) <= j < |traffic| ==> loop[j] == traffic[j])
    && (Appends(decision, revisions, retired) ==> loop[|traffic|] == targets[|revisions| - 1])
  }

  lemma WrittenAt(decision: Decision, traffic: seq<Target>, revisions: seq<string>, retired: string, latestReady: string, j: nat)
    requires |revisions| >= (if decision.ScalingOut? then 1 else 2)
    ensures var w := Written(decision, traffic, revisions, retired, latestReady);
            var targets := Targets(decision, revisions, latestReady);
            && |w| == |traffic| + (if Appends(decision, revisions, retired) then 1 else 0)
            && (j < InPlace(decision, revisions) && j < |traffic| ==> w[j] == targets[j])
            && (InPlace(decision, revisions) <= j < |traffic| ==> w[j] == traffic[j])
            && (Appends(decision, revisions, retired) ==> w[|traffic|] == targets[|revisions| - 1])
  {
    hide Targets, Appends;
  }

  lemma LoopWritesAt(decision: Decision, traffic: seq<Target>, revisions: seq<string>, retired: string, latestReady: string,
                     k: nat, loop: seq<Target>, j: nat)
    requires NoPanic(decision, traffic, revisions, retired, k) && j < |loop| && (decision.ScalingOut? || j != k)
    requires IsWritten(decision, traffic, revisions, retired, latestReady, loop)
    ensures var w := Written(decision, traffic, revisions, retired, latestReady);
            |w| == |loop| && loop[j] == w[j]
  {
    WrittenAt(decision, traffic, revisions, retired, latestReady, j);
    hide Written, Targets, Appends;
  }

  lemma CutAlike(xs: seq<Target>, ys: seq<Target>, k: nat)
    requires k < |xs| == |ys| && forall j :: 0 <= j < |xs| && j != k ==> xs[j] == ys[j]
    ensures xs[..k] + xs[k + 1..] == Without(ys, k)
  {
  }

  lemma LoopWrites(decision: Decision, traffic: seq<Target>, revisions: seq<string>, retired: string, latestReady: string,
                   k: nat, loop: seq<Target>)
    requires NoPanic(decision, traffic, revisions, retired, k)
    requires IsWritten(decision, traffic, revisions, retired, latestReady, loop)
    ensures !decision.ScalingOut? ==>
              k < |loop| && loop[..k] + loop[k + 1..] == NewTraffic(decision, traffic, revisions, retired, latestReady, k)
    ensures decision.ScalingOut? ==> loop == NewTraffic(decision, traffic, revisions, retired, latestReady, k)
  {
    var w := Written(decision, traffic, revisions, retired, latestReady);
    WrittenAt(decision, traffic, revisions, retired, latestReady, 0);
    assert |w| == |loop| && (!decision.ScalingOut? ==> k < |loop|);
    hide NoPanic, IsWritten, Written, Without;
    forall j | 0 <= j < |loop| && (decision.ScalingOut? || j != k) ensures loop[j] == w[j] {
      LoopWritesAt(decision, traffic, revisions, retired, latestReady, k, loop, j);
    }
    if !decision.ScalingOut? {
      CutAlike(loop, w, k);
    }
  }

  // ---------------------------------------------------------------- updateServiceTraffic, case by case

  method ScaleInTraffic(traffic: seq<Target>, revisions: seq<string>, retired: string, latestReady: string, ghost k: nat)
    returns (newTraffic: seq<Target>)
    requires NoPanic(ScalingIn, traffic, revisions, retired, k)
    ensures newTraffic == NewTraffic(ScalingIn, traffic, revisions, retired, latestReady, k)
  {
    hide NewTraffic, Written, Overwritten;
    newTraffic := traffic;
    var n := |revisions| - 1;
    var basePercent, remainder := 100 / n, 100 % n;
    var revisionIdx := 0;
    for i := 0 to |revisions|
      invariant |newTraffic| == |traffic|
      invariant revisionIdx == if i > k then k else 0
      invariant forall j :: 0 <= j < i && revisions[j] != retired ==> newTraffic[j] == Target(Share(j, n), revisions[j])
      invariant forall j :: i <= j < |traffic| ==> newTraffic[j] == traffic[j]
    {
      if revisions[i] == retired {
        revisionIdx := i;
      } else {
        var percent := basePercent;
        if i < remainder {
          percent := percent + 1;
        }
        newTraffic := newTraffic[i := Target(percent, revisions[i])];
      }
    }
    LoopWrites(ScalingIn, traffic, revisions, retired, latestReady, k, newTraffic);
    newTraffic := newTraffic[..revisionIdx] + newTraffic[revisionIdx + 1..];
  }

  /** The new revision is the last one listed; its target is appended before the retired one is cut out. */
  method ReplaceTraffic(decision: Decision, traffic: seq<Target>, revisions: seq<string>, retired: string,
                        latestReady: string, ghost k: nat)
    returns (newTraffic: seq<Target>)
    requires (decision.ScalingUp? || decision.ScalingDown?) && NoPanic(decision, traffic, revisions, retired, k)
    ensures newTraffic == NewTraffic(decision, traffic, revisions, retired, latestReady, k)
  {
    hide NewTraffic, Written, Overwritten;
    newTraffic := traffic;
    var n := |revisions| - 1;
    var basePercent, remainder := 100 / n, 100 % n;
    var revisionIdx := 0;
    for i := 0 to |revisions|
      invariant revisionIdx == if i > k then k else 0
      invariant |newTraffic| == |traffic| + if i == |revisions| && revisions[n] != retired then 1 else 0
      invariant forall j :: 0 <= j < i && j < n && revisions[j] != retired ==>
                  newTraffic[j] == Target(Share(j, n), revisions[j])
      invariant forall j :: n <= j < |traffic| || i <= j < |traffic| ==> newTraffic[j] == traffic[j]
      invariant i == |revisions| && revisions[n] != retired ==> newTraffic[|traffic|] == Target(Share(n, n), latestReady)
    {
      if revisions[i] == retired {
        revisionIdx := i;
      } else {
        var percent := basePercent;
        if i < remainder {
          percent := percent + 1;
        }
        if i == |revisions| - 1 {
          newTraffic := newTraffic + [Target(percent, latestReady)];
        } else {
          newTraffic := newTraffic[i := Target(percent, revisions[i])];
        }
      }
    }
    LoopWrites(decision, traffic, revisions, retired, latestReady, k, newTraffic);
    newTraffic := newTraffic[..revisionIdx] + newTraffic[revisionIdx + 1..];
  }

  method ScaleOutTraffic(traffic: seq<Target>, revisions: seq<string>, retired: string, latestReady: string, ghost k: nat)
    returns (newTraffic: seq<Target>)
    requires NoPanic(ScalingOut, traffic, revisions, retired, k)
    ensures newTraffic == NewTraffic(ScalingOut, traffic, revisions, retired, latestReady, k)
  {
    hide NewTraffic, Written, Overwritten;
    newTraffic := traffic;
    var n := |revisions|;
    var basePercent, remainder := 100 / n, 100 % n;
    assert n > 1 ==> revisions[n - 2] == revisions[n - 2] && n - 2 < |traffic|;
    for i := 0 to n
      invariant |newTraffic| == |traffic| + if i == n then 1 else 0
      invariant forall j :: 0 <= j < i && j < n - 1 ==> newTraffic[j] == Target(Share(j, n), revisions[j])
      invariant forall j :: n - 1 <= j < |traffic| ==> newTraffic[j] == traffic[j]
      invariant i == n ==> newTraffic[|traffic|] == Target(Share(n - 1, n), revisions[n - 1])
    {
      var percent := basePercent;
      if i < remainder {
        percent := percent + 1;
      }
      if i == n - 1 {
        newTraffic := newTraffic + [Target(percent, revisions[i])];
      } else {
        newTraffic := newTraffic[i := Target(percent, revisions[i])];
      }
    }
    LoopWrites(ScalingOut, traffic, revisions, retired, latestReady, k, newTraffic);
  }

  method UpdateServiceTraffic(decision: Decision, traffic: seq<Target>, revisions: seq<string>, retired: string,
                              latestReady: string, ghost k: nat)
    returns (newTraffic: seq<Target>)
    requires NoPanic(decision, traffic, revisions, retired, k)
    ensures newTraffic == NewTraffic(decision, traffic, revisions, retired, latestReady, k)
  {
    match decision {
      case ScalingIn =>
        newTraffic := ScaleInTraffic(traffic, revisions, retired, latestReady, k);
      case ScalingOut =>
        newTraffic := ScaleOutTraffic(traffic, revisions, retired, latestReady, k);
      case _ =>
        newTraffic := ReplaceTraffic(decision, traffic, revisions, retired, latestReady, k);
    }
  }

  /** The revisions that are to share the traffic: all that are listed, but not the retired one. */
  function Survivors(decision: Decision, revisions: seq<string>, latestReady: string, k: nat): seq<string>
    requires revisions != [] && (!decision.ScalingOut? ==> k < |revisions|)
  {
    match decision
    case ScalingOut => revisions
    case ScalingIn => Without(revisions, k)
    case _ => Without(revisions[|revisions| - 1 := latestReady], k)
  }

  /** The survivors get the shares of their positions, one each, exactly if there were as many prior targets as are
   *  overwritten or cut out; otherwise the traffic has another length than the survivors. */
  lemma SurvivorsShareIffPriorLength(decision: Decision, traffic: seq<Target>, revisions: seq<string>, retired: string,
                                     latestReady: string, k: nat)
    requires NoPanic(decision, traffic, revisions, retired, k)
    ensures var now := NewTraffic(decision, traffic, revisions, retired, latestReady, k);
            var expected := |revisions| - if Appends(decision, revisions, retired) then 1 else 0;
            var targets := Targets(decision, revisions, latestReady);
            && (Names(now) == Survivors(decision, revisions, latestReady, k) <==> |traffic| == expected)
            && (|traffic| == expected ==> now == if decision.ScalingOut? then targets else Without(targets, k))
  {
    var now := NewTraffic(decision, traffic, revisions, retired, latestReady, k);
    var targets := Targets(decision, revisions, latestReady);
    var expected := |revisions| - if Appends(decision, revisions, retired) then 1 else 0;
    WrittenAt(decision, traffic, revisions, retired, latestReady, 0);
    SurvivorCount(decision, revisions, latestReady, k);
    if |traffic| == expected {
      hide Split, Targets, Survivors, NoPanic, Names;
      RightLength(decision, traffic, revisions, retired, latestReady, k);
      NamesOfTargets(decision, revisions, latestReady, k);
    } else {
      hide Split, Targets, Written, Survivors, NoPanic;
      assert |now| != |Survivors(decision, revisions, latestReady, k)|;
    }
  }

  lemma SurvivorCount(decision: Decision, revisions: seq<string>, latestReady: string, k: nat)
    requires revisions != [] && (!decision.ScalingOut? ==> k < |revisions|)
    ensures |Survivors(decision, revisions, latestReady, k)| == |revisions| - if decision.ScalingOut? then 0 else 1
  {
  }

  lemma RightLength(decision: Decision, traffic: seq<Target>, revisions: seq<string>, retired: string, latestReady: string,
                    k: nat)
    requires NoPanic(decision, traffic, revisions, retired, k)
    requires |traffic| == |revisions| - if Appends(decision, revisions, retired) then 1 else 0
    ensures !decision.ScalingOut? ==> k < |revisions|
    ensures var targets := Targets(decision, revisions, latestReady);
            NewTraffic(decision, traffic, revisions, retired, latestReady, k)
            == if decision.ScalingOut? then targets else Without(targets, k)
  {
    var w, targets := Written(decision, traffic, revisions, retired, latestReady), Targets(decision, revisions, latestReady);
    WrittenAt(decision, traffic, revisions, retired, latestReady, 0);
    forall j | 0 <= j < |w| && (decision.ScalingOut? || j != k) ensures w[j] == targets[j] {
      WrittenAt(decision, traffic, revisions, retired, latestReady, j);
      hide Written, Targets;
    }
    hide Written, Targets, Without;
    if !decision.ScalingOut? {
      CutAlike(w, targets, k);
      CutAlike(w, w, k);
    }
  }

  lemma NamesOfTargets(decision: Decision, revisions: seq<string>, latestReady: string, k: nat)
    requires |revisions| >= (if decision.ScalingOut? then 1 else 2) && (!decision.ScalingOut? ==> k < |revisions|)
    ensures var targets := Targets(decision, revisions, latestReady);
            Names(if decision.ScalingOut? then targets else Without(targets, k)) == Survivors(decision, revisions, latestReady, k)
  {
    var targets := Targets(decision, revisions, latestReady);
    var listed := if decision.ScalingUp? || decision.ScalingDown? then revisions[|revisions| - 1 := latestReady] else revisions;
    assert Names(targets) == listed;
    hide Split, Targets, Names;
    if !decision.ScalingOut? {
      NamesWithout(targets, k);
    }
  }

  lemma NamesWithout(targets: seq<Target>, k: nat)
    requires k < |targets|
    ensures Names(Without(targets, k)) == Without(Names(targets), k)
  {
  }

  // ---------------------------------------------------------------- the shares add up

  function TotalPercent(targets: seq<Target>): int {
    if targets == [] then 0 else TotalPercent(targets[..|targets| - 1]) + targets[|targets| - 1].percent
  }

  function Least(a: int, b: int): int {
    if a < b then a else b
  }

  lemma {:induction false} TotalOfSplit(names: seq<string>, n: nat)
    requires n > 0
    ensures TotalPercent(Split(names, n)) == |names| * (100 / n) + Least(|names|, 100 % n)
  {
    if names != [] {
      var m := |names| - 1;
      TotalOfSplit(names[..m], n);
      assert Split(names, n)[..m] == Split(names[..m], n);
      MulStep(100 / n, m);
    }
  }

  lemma {:induction false} TotalWithout(targets: seq<Target>, k: nat)
    requires k < |targets|
    ensures TotalPercent(Without(targets, k)) == TotalPercent(targets) - targets[k].percent
  {
    var m := |targets| - 1;
    if k == m {
      assert Without(targets, k) == targets[..m];
    } else {
      TotalWithout(targets[..m], k);
      var w := Without(targets, k);
      assert w[..|w| - 1] == Without(targets[..m], k);
    }
  }

  predicate Even(targets: seq<Target>) {
    forall i, j :: 0 <= i < |targets| && 0 <= j < |targets| ==> targets[i].percent - targets[j].percent <= 1
  }

  /** Scaling out splits exactly 100 percent as evenly as possible. */
  lemma ScaleOutShares(revisions: seq<string>)
    requires revisions != []
    ensures TotalPercent(Split(revisions, |revisions|)) == 100 && Even(Split(revisions, |revisions|))
  {
    TotalOfSplit(revisions, |revisions|);
  }

  /**
   * Retiring position r of n revisions splits 100 percent only if that position had no extra point; otherwise the
   * point that was meant for it is lost and the survivors get 99.
   */
  lemma SurvivorShares(names: seq<string>, r: nat)
    requires |names| >= 2 && r < |names|
    ensures var targets := Without(Split(names, |names| - 1), r);
            && TotalPercent(targets) == (if r >= 100 % (|names| - 1) then 100 else 99)
            && Even(targets)
  {
    var n := |names| - 1;
    SharesAreEven(names, n, r);
    hide *;
    TotalOfSplit(names, n);
    TotalWithout(Split(names, n), r);
    SharesOf100(n, r);
  }

  lemma SharesAreEven(names: seq<string>, n: nat, r: nat)
    requires n > 0 && r < |names|
    ensures Even(Without(Split(names, n), r))
  {
    hide Split;
  }

  /** n + 1 shares of 100 percent split n ways, less the share of position r. */
  lemma SharesOf100(n: nat, r: nat)
    requires n > 0
    ensures (n + 1) * (100 / n) + Least(n + 1, 100 % n) - Share(r, n) == if r >= 100 % n then 100 else 99
  {
    MulStep(100 / n, n);
    assert n * (100 / n) + 100 % n == 100;
  }

  /** For instance, with three revisions left the first of four takes its extra point with it. */
  lemma RetiringTheFirstOfFourLosesAPoint(a: string, b: string, c: string, d: string)
    ensures TotalPercent(Without(Split([a, b, c, d], 3), 0)) == 99
  {
    SurvivorShares([a, b, c, d], 0);
  }
}

/** Whole runs of the autoscaler on one service. */
module ScalingRuns {
  import opened Common
  import opened Traffic

  /** What happens to the calls ApplyScale makes: the update, the wait for it, the traffic update, the deletion. */
  datatype Outcome = CreateFails | WaitFails | TrafficFails | DeleteFails | AllSucceed

  /** One scaling action; `created` is the name Knative gives to the new revision. */
  datatype Action = Action(decision: Decision, retired: string, created: string)

  datatype ServiceState = ServiceState(traffic: seq<Target>, revisions: seq<string>)

  /** The service routes to exactly its revisions, in their order. */
  predicate Lockstep(s: ServiceState) {
    Names(s.traffic) == s.revisions && s.revisions != [] && NoDup(s.revisions)
  }

  /** What the autoscaler acts on: a revision of the service; the last one is never scaled in. */
  predicate Applicable(s: ServiceState, a: Action) {
    && a.created !in s.revisions
    && (a.decision.ScalingOut? || a.retired in s.revisions)
    && (a.decision.ScalingIn? ==> |s.revisions| >= 2)
  }

  function Index(xs: seq<string>, x: string): (k: nat)
    requires x in xs
    ensures k < |xs| && xs[k] == x
  {
    if xs[0] == x then 0 else 1 + Index(xs[1..], x)
  }

  /** The revisions listed when the traffic is split. */
  function Listed(s: ServiceState, a: Action): seq<string> {
    if a.decision.ScalingIn? then s.revisions else s.revisions + [a.created]
  }

  /** The position that is cut out of the traffic. */
  function Cut(s: ServiceState, a: Action): nat
    requires Applicable(s, a)
  {
    if a.decision.ScalingOut? then 0 else Index(Listed(s, a), a.retired)
  }

  /** The service has enough traffic targets for the update not to panic. */
  predicate Updatable(s: ServiceState, a: Action)
    requires Applicable(s, a)
  {
    NoPanic(a.decision, s.traffic, Listed(s, a), a.retired, Cut(s, a))
  }

  /** The effect of a scaling action in which every call succeeds. */
  function Applied(s: ServiceState, a: Action): ServiceState
    requires Applicable(s, a) && Updatable(s, a)
  {
    var revisions := Listed(s, a);
    ServiceState(NewTraffic(a.decision, s.traffic, revisions, a.retired, a.created, Cut(s, a)),
                 if a.decision.ScalingOut? then revisions else Without(revisions, Cut(s, a)))
  }

  /** The call gets as far as updating the traffic: scaling in creates nothing. */
  predicate ReachesTraffic(a: Action, outcome: Outcome) {
    a.decision.ScalingIn? || !(outcome.CreateFails? || outcome.WaitFails?)
  }

  /** A failed deletion is not noticed. */
  predicate Succeeds(a: Action, outcome: Outcome) {
    ReachesTraffic(a, outcome) && !outcome.TrafficFails?
  }

  /** What any outcome leaves behind. */
  function Performed(s: ServiceState, a: Action, outcome: Outcome): ServiceState
    requires Applicable(s, a) && (Succeeds(a, outcome) ==> Updatable(s, a))
  {
    if !Succeeds(a, outcome) then s.(revisions := if outcome.CreateFails? then s.revisions else Listed(s, a))
    else if outcome.DeleteFails? then Applied(s, a).(revisions := Listed(s, a))
    else Applied(s, a)
  }

  class Service {
    var traffic: seq<Target>
    var revisions: seq<string>
    var latestReady: string

    constructor (traffic: seq<Target>, revisions: seq<string>, latestReady: string)
      ensures this.traffic == traffic && this.revisions == revisions && this.latestReady == latestReady
    {
      this.traffic, this.revisions, this.latestReady := traffic, revisions, latestReady;
    }

    function State(): ServiceState
      reads this
    {
      ServiceState(traffic, revisions)
    }

    /** A failed deletion is ignored, so the call reports success although the retired revision is still listed. */
    method ApplyScale(a: Action, outcome: Outcome) returns (ok: bool)
      requires Applicable(State(), a) && (ReachesTraffic(a, outcome) ==> Updatable(State(), a))
      modifies this
      ensures ok <==> Succeeds(a, outcome)
      ensures State() == Performed(old(State()), a, outcome)
    {
      hide NoPanic, NewTraffic, Without;
      ghost var s := State();
      if !a.decision.ScalingIn? {
        if outcome.CreateFails? {
          return false;
        }
        revisions := revisions + [a.created];
        if outcome.WaitFails? {
          return false;
        }
        latestReady := a.created;
      }
      if outcome.TrafficFails? {
        return false;
      }
      LatestReadyDoesNotMatter(a.decision, traffic, revisions, a.retired, latestReady, a.created, Cut(s, a));
      traffic := UpdateServiceTraffic(a.decision, traffic, revisions, a.retired, latestReady, Cut(s, a));
      if !a.decision.ScalingOut? && !outcome.DeleteFails? {
        revisions := DeleteRevision(revisions, a.retired);
      }
      return true;
    }
  }

  /** Scaling in does not look at the name of the latest ready revision. */
  lemma LatestReadyDoesNotMatter(decision: Decision, traffic: seq<Target>, revisions: seq<string>, retired: string,
                           latestReady: string, other: string, k: nat)
    requires NoPanic(decision, traffic, revisions, retired, k)
    ensures decision.ScalingIn? ==>
              NewTraffic(decision, traffic, revisions, retired, latestReady, k)
              == NewTraffic(decision, traffic, revisions, retired, other, k)
  {
  }

  /** The revision the API lists under the retired name disappears. */
  method DeleteRevision(revisions: seq<string>, retired: string) returns (left: seq<string>)
    requires retired in revisions
    ensures left == Without(revisions, Index(revisions, retired))
  {
    var k := Index(revisions, retired);
    left := revisions[..k] + revisions[k + 1..];
  }

  lemma IndexIsListed(revisions: seq<string>, retired: string)
    requires NoDup(revisions) && retired in revisions
    ensures ListedAt(revisions, retired, Index(revisions, retired))
  {
  }

  lemma ListedBeforeAppended(revisions: seq<string>, created: string, retired: string)
    requires NoDup(revisions) && retired in revisions && created !in revisions
    ensures NoDup(revisions + [created])
    ensures ListedAt(revisions + [created], retired, Index(revisions + [created], retired))
    ensures Index(revisions + [created], retired) < |revisions|
  {
    NoDupConcat(revisions, [created]);
    IndexIsListed(revisions + [created], retired);
  }

  lemma NoDupWithout(xs: seq<string>, k: nat)
    requires NoDup(xs) && k < |xs|
    ensures NoDup(Without(xs, k)) && xs[k] !in Without(xs, k)
  {
    var w := Without(xs, k);
    assert forall i :: 0 <= i < |w| ==> w[i] == xs[if i < k then i else i + 1];
  }

  lemma ListedIsCut(s: ServiceState, a: Action)
    requires NoDup(s.revisions) && Applicable(s, a)
    ensures var revisions := Listed(s, a);
            && NoDup(revisions)
            && |revisions| >= (if a.decision.ScalingOut? then 1 else 2)
            && (!a.decision.ScalingOut? ==> ListedAt(revisions, a.retired, Cut(s, a)) && Cut(s, a) < |s.revisions|)
            && |revisions| == |s.revisions| + (if Appends(a.decision, revisions, a.retired) then 1 else 0)
  {
    if a.decision.ScalingIn? {
      IndexIsListed(s.revisions, a.retired);
    } else if a.decision.ScalingOut? {
      NoDupConcat(s.revisions, [a.created]);
    } else {
      ListedBeforeAppended(s.revisions, a.created, a.retired);
    }
  }

  /** A service in step can always be updated. */
  lemma LockstepIsUpdatable(s: ServiceState, a: Action)
    requires NoDup(s.revisions) && |s.traffic| == |s.revisions| && Applicable(s, a)
    ensures Updatable(s, a)
  {
    ListedIsCut(s, a);
    var revisions, k := Listed(s, a), Cut(s, a);
    assert |revisions| >= (if a.decision.ScalingOut? then 1 else 2);
    assert InPlace(a.decision, revisions) <= |s.traffic|;
    assert !a.decision.ScalingOut? ==> CutAt(revisions, a.retired, k);
    assert !a.decision.ScalingOut? ==> k < |s.traffic|;
    assert NoPanic(a.decision, s.traffic, revisions, a.retired, k);
  }

  /**
   * A successful action on revisions with distinct names leaves traffic and revisions in step exactly if there were as
   * many traffic targets as revisions before, whatever their names and shares.
   */
  lemma LockstepIffPriorLength(s: ServiceState, a: Action)
    requires NoDup(s.revisions) && Applicable(s, a) && Updatable(s, a)
    ensures Lockstep(Applied(s, a)) <==> |s.traffic| == |s.revisions|
    ensures |s.traffic| == |s.revisions| ==>
              var targets := Targets(a.decision, Listed(s, a), a.created);
              Applied(s, a).traffic == if a.decision.ScalingOut? then targets else Without(targets, Cut(s, a))
  {
    ListedIsCut(s, a);
    var revisions, k := Listed(s, a), Cut(s, a);
    SurvivorsShareIffPriorLength(a.decision, s.traffic, revisions, a.retired, a.created, k);
    assert !a.decision.ScalingIn? ==> revisions[|revisions| - 1 := a.created] == revisions;
    assert Survivors(a.decision, revisions, a.created, k) == Applied(s, a).revisions;
    if !a.decision.ScalingOut? {
      NoDupWithout(revisions, k);
    }
  }

  /** One successful action keeps traffic and revisions in step, and the retired name is gone from both. */
  lemma AppliedKeepsLockstep(s: ServiceState, a: Action)
    requires Lockstep(s) && Applicable(s, a)
    ensures Updatable(s, a) && Lockstep(Applied(s, a))
    ensures a.decision.ScalingOut? ==> Applied(s, a).revisions == s.revisions + [a.created]
    ensures !a.decision.ScalingOut? ==> a.retired !in Applied(s, a).revisions
    ensures a.decision.ScalingUp? || a.decision.ScalingDown? ==>
              |Applied(s, a).revisions| == |s.revisions| && Applied(s, a).revisions[|s.revisions| - 1] == a.created
    ensures a.decision.ScalingIn? ==> |Applied(s, a).revisions| == |s.revisions| - 1
  {
    hide NewTraffic, NoPanic;
    LockstepIsUpdatable(s, a);
    LockstepIffPriorLength(s, a);
    ListedIsCut(s, a);
    if !a.decision.ScalingOut? {
      NoDupWithout(Listed(s, a), Cut(s, a));
    }
  }

  /** How much of the traffic one successful action routes. */
  lemma AppliedShares(s: ServiceState, a: Action)
    requires NoDup(s.revisions) && |s.traffic| == |s.revisions| && Applicable(s, a) && Updatable(s, a)
    ensures Even(Applied(s, a).traffic)
    ensures a.decision.ScalingOut? ==> TotalPercent(Applied(s, a).traffic) == 100
    ensures !a.decision.ScalingOut? ==>
              TotalPercent(Applied(s, a).traffic)
              == (if Cut(s, a) >= 100 % |Applied(s, a).traffic| then 100 else 99)
  {
    hide Split, TotalPercent, Even, NewTraffic, NoPanic, NoDup, Targets, Index;
    ListedIsCut(s, a);
    LockstepIffPriorLength(s, a);
    SharesOfTargets(a.decision, Listed(s, a), a.created, Cut(s, a));
  }

  lemma SharesOfTargets(decision: Decision, revisions: seq<string>, latestReady: string, k: nat)
    requires |revisions| >= (if decision.ScalingOut? then 1 else 2) && (!decision.ScalingOut? ==> k < |revisions|)
    ensures var targets := Targets(decision, revisions, latestReady);
            if decision.ScalingOut? then Even(targets) && TotalPercent(targets) == 100
            else Even(Without(targets, k))
                 && TotalPercent(Without(targets, k)) == if k >= 100 % (|revisions| - 1) then 100 else 99
  {
    hide Split, Even, TotalPercent, Without;
    if decision.ScalingOut? {
      ScaleOutShares(revisions);
    } else if decision.ScalingIn? {
      SurvivorShares(revisions, k);
    } else {
      SurvivorShares(revisions[|revisions| - 1 := latestReady], k);
    }
  }

  /** Every action finds the service as its predecessors left it. */
  ghost predicate AllApplicable(s: ServiceState, actions: seq<Action>)
    decreases |actions|
  {
    actions == [] || (Applicable(s, actions[0]) && Updatable(s, actions[0])
                      && AllApplicable(Applied(s, actions[0]), actions[1..]))
  }

  ghost function After(s: ServiceState, actions: seq<Action>): ServiceState
    requires AllApplicable(s, actions)
    decreases |actions|
  {
    if actions == [] then s else After(Applied(s, actions[0]), actions[1..])
  }

  /** Any run of successful actions keeps traffic and revisions in step and never leaves the service without a revision. */
  lemma {:induction false} LockstepRun(s: ServiceState, actions: seq<Action>)
    requires Lockstep(s) && AllApplicable(s, actions)
    ensures Lockstep(After(s, actions))
    decreases |actions|
  {
    hide Lockstep, Applicable, Updatable, Applied;
    if actions != [] {
      AppliedKeepsLockstep(s, actions[0]);
      LockstepRun(Applied(s, actions[0]), actions[1..]);
    }
  }

  lemma GoneAfterOne(s: ServiceState, a: Action, x: string)
    requires Applicable(s, a) && Updatable(s, a) && x !in s.revisions && a.created != x
    ensures x !in Applied(s, a).revisions
  {
    hide NewTraffic, NoPanic;
    assert x !in Listed(s, a);
  }

  /** A revision that is gone stays gone, from the revisions and from the traffic, unless its name is created again. */
  lemma {:induction false} GoneStaysGone(s: ServiceState, actions: seq<Action>, x: string)
    requires Lockstep(s) && AllApplicable(s, actions)
    requires x !in s.revisions && forall i :: 0 <= i < |actions| ==> actions[i].created != x
    ensures x !in After(s, actions).revisions && x !in Names(After(s, actions).traffic)
    decreases |actions|
  {
    hide Applied, Applicable, Updatable;
    if actions != [] {
      AppliedKeepsLockstep(s, actions[0]);
      GoneAfterOne(s, actions[0], x);
      GoneStaysGone(Applied(s, actions[0]), actions[1..], x);
    }
  }

  /** A successful call keeps the lockstep exactly if no deletion failed: the failure is ignored, and it shows later. */
  lemma LockstepIffDeleted(s: ServiceState, a: Action, outcome: Outcome)
    requires Lockstep(s) && Applicable(s, a) && Updatable(s, a) && Succeeds(a, outcome)
    ensures Lockstep(Performed(s, a, outcome)) <==> a.decision.ScalingOut? || !outcome.DeleteFails?
  {
    hide NewTraffic, NoPanic;
    AppliedKeepsLockstep(s, a);
    if !a.decision.ScalingOut? {
      ListedIsCut(s, a);
      assert |Applied(s, a).traffic| == |Listed(s, a)| - 1;
    }
  }
}
