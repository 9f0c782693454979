/** The dispatcher: workers group requests by model under a mutex and pass complete groups on. */
module Grouping {
  import opened Common

  datatype Request = Request(model: string, body: string)

  type Group = seq<Request>

  type Groups = map<string, Group>

  /** The effect of the section under the mutex: the forming groups, and the group it completes, if any. */
  function Grouped(groups: Groups, req: Request, k: nat): (Groups, Option<Group>) {
    var group := GetSeq(groups, req.model) + [req];
    if |group| >= k then (groups - {req.model}, Some(group)) else (groups[req.model := group], None)
  }

  class RequestGroups {
    var modelGroups: Groups

    constructor ()
      ensures modelGroups == map[]
    {
      modelGroups := map[];
    }

    method GetOrCreateRequestGroup(model: string) returns (group: Group)
      ensures group == GetSeq(modelGroups, model)
    {
      group := [];
      if model in modelGroups {
        group := modelGroups[model];
      }
    }

    /** The body of the worker loop between Lock and Unlock. */
    method AddRequest(req: Request, k: nat) returns (complete: Option<Group>)
      modifies this
      ensures (modelGroups, complete) == Grouped(old(modelGroups), req, k)
    {
      var group := GetOrCreateRequestGroup(req.model);
      group := group + [req];
      modelGroups := modelGroups[req.model := group];
      complete := None;
      if |group| >= k {
        modelGroups := modelGroups - {req.model};
        complete := Some(group);
        assert modelGroups == old(modelGroups) - {req.model};
      }
    }
  }

  // ---------------------------------------------------------------- the workers as a step machine

  const CAPACITY := 100

  datatype Worker =
    | Idle
    | Got(req: Request)
    | Locked(req: Request)
    | Read(req: Request, group: Group)
    | Stored(model: string, group: Group)
    | Popped(group: Group)

  /** `received`, `taken`, `order`, `popped`, `sent` and `processed` record requests and groups in the order of the
   *  respective steps. */
  datatype State = State(inbox: seq<Request>, groups: Groups, lock: Option<nat>, workers: seq<Worker>,
                         channel: seq<Group>, received: seq<Request>, taken: seq<Request>, order: seq<Request>,
                         popped: seq<Group>, sent: seq<Group>, processed: seq<Group>)

  ghost predicate Receive(s: State, s': State) {
    && |s.inbox| < CAPACITY
    && exists req: Request :: req.model != "" && s' == s.(inbox := s.inbox + [req], received := s.received + [req])
  }

  ghost predicate Take(w: nat, s: State, s': State) {
    && w < |s.workers| && s.workers[w].Idle? && s.inbox != []
    && s' == s.(workers := s.workers[w := Got(s.inbox[0])], inbox := s.inbox[1..],
             taken := s.taken + [s.inbox[0]])
  }

  ghost predicate Lock(w: nat, s: State, s': State) {
    && w < |s.workers| && s.workers[w].Got? && s.lock == None
    && s' == s.(workers := s.workers[w := Locked(s.workers[w].req)], lock := Some(w))
  }

  ghost predicate ReadGroup(w: nat, s: State, s': State) {
    && w < |s.workers| && s.workers[w].Locked?
    && var req := s.workers[w].req;
    s' == s.(workers := s.workers[w := Read(req, GetSeq(s.groups, req.model))])
  }

  ghost predicate Store(w: nat, s: State, s': State) {
    && w < |s.workers| && s.workers[w].Read?
    && var req, group := s.workers[w].req, s.workers[w].group + [s.workers[w].req];
    s' == s.(workers := s.workers[w := Stored(req.model, group)], groups := s.groups[req.model := group],
             order := s.order + [req])
  }

  /** The group is complete: it is popped and the mutex released. */
  ghost predicate Pop(k: nat, w: nat, s: State, s': State) {
    && w < |s.workers| && s.workers[w].Stored? && |s.workers[w].group| >= k
    && s' == s.(workers := s.workers[w := Popped(s.workers[w].group)], groups := s.groups - {s.workers[w].model},
                lock := None, popped := s.popped + [s.workers[w].group])
  }

  ghost predicate Unlock(k: nat, w: nat, s: State, s': State) {
    && w < |s.workers| && s.workers[w].Stored? && |s.workers[w].group| < k
    && s' == s.(workers := s.workers[w := Idle], lock := None)
  }

  ghost predicate Send(w: nat, s: State, s': State) {
    && w < |s.workers| && s.workers[w].Popped? && |s.channel| < CAPACITY
    && s' == s.(workers := s.workers[w := Idle], channel := s.channel + [s.workers[w].group],
             sent := s.sent + [s.workers[w].group])
  }

  /** The sequential processor takes the next group. */
  ghost predicate Process(s: State, s': State) {
    && s.channel != []
    && s' == s.(channel := s.channel[1..], processed := s.processed + [s.channel[0]])
  }

  ghost predicate WorkerStep(k: nat, w: nat, s: State, s': State) {
    || Take(w, s, s') || Lock(w, s, s') || ReadGroup(w, s, s') || Store(w, s, s') || Pop(k, w, s, s')
    || Unlock(k, w, s, s') || Send(w, s, s')
  }

  ghost predicate Step(k: nat, s: State, s': State) {
    Receive(s, s') || Process(s, s') || exists w :: WorkerStep(k, w, s, s')
  }

  ghost predicate Init(s: State) {
    && s.inbox == [] && s.groups == map[] && s.lock == None && s.channel == []
    && (forall w :: 0 <= w < |s.workers| ==> s.workers[w].Idle?)
    && s.received == [] && s.taken == [] && s.order == [] && s.popped == [] && s.sent == [] && s.processed == []
  }

  ghost predicate IsRun(k: nat, run: seq<State>) {
    |run| > 0 && Init(run[0]) && forall i :: 0 <= i < |run| - 1 ==> Step(k, run[i], run[i + 1])
  }

  // ---------------------------------------------------------------- what is counted

  /** Requests a worker holds that are not in any group yet. */
  function Loose(w: Worker): multiset<Request> {
    if w.Got? || w.Locked? || w.Read? then multiset{w.req} else multiset{}
  }

  /** A complete group on its way from the mutex to the channel. */
  function Carried(w: Worker): multiset<Group> {
    if w.Popped? then multiset{w.group} else multiset{}
  }

  function AllLoose(ws: seq<Worker>): multiset<Request> {
    if ws == [] then multiset{} else AllLoose(ws[..|ws| - 1]) + Loose(ws[|ws| - 1])
  }

  function AllCarried(ws: seq<Worker>): multiset<Group> {
    if ws == [] then multiset{} else AllCarried(ws[..|ws| - 1]) + Carried(ws[|ws| - 1])
  }

  function OfModel(reqs: seq<Request>, model: string): seq<Request> {
    if reqs == [] then [] else
      var init, last := OfModel(reqs[..|reqs| - 1], model), reqs[|reqs| - 1];
      if last.model == model then init + [last] else init
  }

  predicate IsOfModel(group: Group, model: string) {
    forall i :: 0 <= i < |group| ==> group[i].model == model
  }

  /** The requests of the groups of one model, group after group. */
  function Replay(groups: seq<Group>, model: string): seq<Request> {
    if groups == [] then [] else
      var init, last := Replay(groups[..|groups| - 1], model), groups[|groups| - 1];
      if last != [] && last[0].model == model then init + last else init
  }

  predicate HoldsLock(w: Worker) {
    w.Locked? || w.Read? || w.Stored?
  }

  /** The mutex is held by exactly the worker inside its section. */
  ghost predicate LockInv(lock: Option<nat>, workers: seq<Worker>) {
    forall w :: 0 <= w < |workers| ==> (HoldsLock(workers[w]) <==> lock == Some(w))
  }

  /** What a worker inside the section remembers of the groups is still true. */
  ghost predicate ViewInv(groups: Groups, w: Worker) {
    && (w.Read? ==> w.group == GetSeq(groups, w.req.model))
    && (w.Stored? ==> w.model in groups && groups[w.model] == w.group)
  }

  ghost predicate ViewsInv(groups: Groups, workers: seq<Worker>) {
    forall w :: 0 <= w < |workers| ==> ViewInv(groups, workers[w])
  }

  /** Forming groups have one model and are incomplete, except one that has just been filled. */
  ghost predicate GroupsInv(k: nat, groups: Groups, workers: seq<Worker>) {
    forall m :: m in groups ==>
      && groups[m] != [] && IsOfModel(groups[m], m) && |groups[m]| <= k
      && (|groups[m]| == k ==> exists w :: 0 <= w < |workers| && workers[w].Stored? && workers[w].model == m)
  }

  predicate Complete(k: nat, group: Group) {
    |group| == k && group != [] && IsOfModel(group, group[0].model)
  }

  ghost predicate PoppedInv(k: nat, popped: seq<Group>) {
    forall i :: 0 <= i < |popped| ==> Complete(k, popped[i])
  }

  ghost predicate ReplayInv(order: seq<Request>, popped: seq<Group>, groups: Groups) {
    forall m :: OfModel(order, m) == Replay(popped, m) + GetSeq(groups, m)
  }

  ghost predicate RequestsInv(s: State) {
    multiset(s.received) == multiset(s.inbox) + AllLoose(s.workers) + multiset(s.order)
  }

  ghost predicate PassedOnInv(s: State) {
    multiset(s.popped) == AllCarried(s.workers) + multiset(s.channel) + multiset(s.processed)
  }
}

/** The dispatcher's laws hold in every state of every run, for any threshold and any number of workers. */
module GroupingProofs {
  import opened Arithmetic
  import opened Common
  import opened Grouping

  // ---------------------------------------------------------------- conservation

  lemma {:induction false} LooseChanges(ws: seq<Worker>, w: nat, now: Worker)
    requires w < |ws|
    ensures forall r :: AllLoose(ws[w := now])[r] + Loose(ws[w])[r] == AllLoose(ws)[r] + Loose(now)[r]
  {
    hide Loose;
    var n := |ws| - 1;
    var ws' := ws[w := now];
    if w == n {
      assert ws'[..n] == ws[..n];
    } else {
      LooseChanges(ws[..n], w, now);
      assert ws'[..n] == ws[..n][w := now] && ws[..n][w] == ws[w] && ws'[n] == ws[n];
    }
  }

  lemma {:induction false} CarriedChanges(ws: seq<Worker>, w: nat, now: Worker)
    requires w < |ws|
    ensures forall g :: AllCarried(ws[w := now])[g] + Carried(ws[w])[g] == AllCarried(ws)[g] + Carried(now)[g]
  {
    hide Carried;
    var n := |ws| - 1;
    var ws' := ws[w := now];
    if w == n {
      assert ws'[..n] == ws[..n];
    } else {
      CarriedChanges(ws[..n], w, now);
      assert ws'[..n] == ws[..n][w := now] && ws[..n][w] == ws[w] && ws'[n] == ws[n];
    }
  }

  /** What a worker's step does to the requests outside the groups. */
  ghost predicate MovesRequest(s: State, s': State, before: Worker, now: Worker) {
    || (s'.inbox == s.inbox && s'.order == s.order && Loose(now) == Loose(before))
    || (s.inbox != [] && s.inbox == [s.inbox[0]] + s'.inbox && s'.order == s.order
        && before.Idle? && now == Got(s.inbox[0]))
    || (s'.inbox == s.inbox && before.Read? && now.Stored? && s'.order == s.order + [before.req])
  }

  /** What a worker's step does to the complete groups. */
  ghost predicate MovesGroup(s: State, s': State, before: Worker, now: Worker) {
    || (s'.popped == s.popped && s'.channel == s.channel && Carried(now) == Carried(before))
    || (s'.channel == s.channel && before.Stored? && now == Popped(before.group)
        && s'.popped == s.popped + [before.group])
    || (s'.popped == s.popped && before.Popped? && now.Idle? && s'.channel == s.channel + [before.group])
  }

  lemma WorkerStepMoves(k: nat, w: nat, s: State, s': State)
    requires WorkerStep(k, w, s, s')
    ensures w < |s.workers| && w < |s'.workers| && s'.workers == s.workers[w := s'.workers[w]]
    ensures s'.received == s.received && s'.processed == s.processed
    ensures MovesRequest(s, s', s.workers[w], s'.workers[w]) && MovesGroup(s, s', s.workers[w], s'.workers[w])
  {
    if Take(w, s, s') {
      assert s.inbox == [s.inbox[0]] + s'.inbox;
    }
  }

  lemma WorkerStepConservesRequests(k: nat, w: nat, s: State, s': State)
    requires RequestsInv(s) && WorkerStep(k, w, s, s')
    ensures RequestsInv(s')
  {
    hide AllLoose, WorkerStep;
    WorkerStepMoves(k, w, s, s');
    LooseChanges(s.workers, w, s'.workers[w]);
  }

  lemma WorkerStepConservesGroups(k: nat, w: nat, s: State, s': State)
    requires PassedOnInv(s) && WorkerStep(k, w, s, s')
    ensures PassedOnInv(s')
  {
    hide AllCarried, WorkerStep;
    WorkerStepMoves(k, w, s, s');
    CarriedChanges(s.workers, w, s'.workers[w]);
  }

  lemma StepConserves(k: nat, s: State, s': State)
    requires RequestsInv(s) && PassedOnInv(s) && Step(k, s, s')
    ensures RequestsInv(s') && PassedOnInv(s')
  {
    hide AllLoose, AllCarried;
    if Receive(s, s') {
    } else if Process(s, s') {
      assert s.channel == [s.channel[0]] + s'.channel;
    } else {
      hide RequestsInv, PassedOnInv;
      var w :| WorkerStep(k, w, s, s');
      WorkerStepConservesRequests(k, w, s, s');
      WorkerStepConservesGroups(k, w, s, s');
    }
  }

  // ---------------------------------------------------------------- order

  lemma OfModelAppend(reqs: seq<Request>, req: Request, model: string)
    ensures OfModel(reqs + [req], model) == OfModel(reqs, model) + if req.model == model then [req] else []
  {
    assert (reqs + [req])[..|reqs|] == reqs;
  }

  lemma ReplayAppend(groups: seq<Group>, group: Group, model: string)
    requires group != []
    ensures Replay(groups + [group], model) == Replay(groups, model) + if group[0].model == model then group else []
  {
    assert (groups + [group])[..|groups|] == groups;
  }

  lemma StoreReplays(order: seq<Request>, popped: seq<Group>, groups: Groups, req: Request)
    requires ReplayInv(order, popped, groups)
    ensures ReplayInv(order + [req], popped, groups[req.model := GetSeq(groups, req.model) + [req]])
  {
    hide OfModel, Replay;
    var groups' := groups[req.model := GetSeq(groups, req.model) + [req]];
    forall m ensures OfModel(order + [req], m) == Replay(popped, m) + GetSeq(groups', m) {
      OfModelAppend(order, req, m);
    }
  }

  lemma PopReplays(order: seq<Request>, popped: seq<Group>, groups: Groups, model: string)
    requires ReplayInv(order, popped, groups) && model in groups
    requires groups[model] != [] && IsOfModel(groups[model], model)
    ensures ReplayInv(order, popped + [groups[model]], groups - {model})
  {
    hide OfModel, Replay;
    forall m ensures OfModel(order, m) == Replay(popped + [groups[model]], m) + GetSeq(groups - {model}, m) {
      ReplayAppend(popped, groups[model], m);
    }
  }

  // ---------------------------------------------------------------- groups under the mutex

  /** While one worker is inside the section, no other one remembers anything of the groups. */
  lemma InsideAlone(lock: Option<nat>, ws: seq<Worker>, w: nat)
    requires LockInv(lock, ws) && w < |ws| && HoldsLock(ws[w])
    ensures forall v :: 0 <= v < |ws| && v != w ==> !HoldsLock(ws[v])
  {
  }

  lemma OutsideKeepsGroups(k: nat, groups: Groups, ws: seq<Worker>, w: nat, now: Worker)
    requires w < |ws| && GroupsInv(k, groups, ws) && !ws[w].Stored?
    ensures GroupsInv(k, groups, ws[w := now])
  {
    hide IsOfModel;
    var ws' := ws[w := now];
    forall m | m in groups && |groups[m]| == k
      ensures exists v :: 0 <= v < |ws'| && ws'[v].Stored? && ws'[v].model == m
    {
      var v :| 0 <= v < |ws| && ws[v].Stored? && ws[v].model == m;
      assert ws'[v] == ws[v];
    }
  }

  lemma StoreKeepsGroups(k: nat, lock: Option<nat>, groups: Groups, ws: seq<Worker>, w: nat)
    requires k > 0 && w < |ws| && ws[w].Read?
    requires LockInv(lock, ws) && ViewsInv(groups, ws) && GroupsInv(k, groups, ws)
    ensures var req, group := ws[w].req, ws[w].group + [ws[w].req];
            GroupsInv(k, groups[req.model := group], ws[w := Stored(req.model, group)])
  {
    var req, group := ws[w].req, ws[w].group + [ws[w].req];
    var ws' := ws[w := Stored(req.model, group)];
    InsideAlone(lock, ws, w);
    assert ViewInv(groups, ws[w]);
    assert forall v :: 0 <= v < |ws| ==> !ws[v].Stored?;
    assert ws'[w].Stored? && ws'[w].model == req.model;
  }

  lemma StoredIsGroup(k: nat, groups: Groups, ws: seq<Worker>, w: nat)
    requires w < |ws| && ws[w].Stored? && ViewsInv(groups, ws) && GroupsInv(k, groups, ws)
    ensures var m := ws[w].model;
            && m in groups && groups[m] == ws[w].group && groups[m] != []
            && IsOfModel(groups[m], m) && |groups[m]| <= k
  {
    assert ViewInv(groups, ws[w]);
  }

  /** When the worker inside the section leaves, no full group is left behind. */
  lemma LeaveKeepsGroups(k: nat, lock: Option<nat>, groups: Groups, ws: seq<Worker>, w: nat, now: Worker)
    requires w < |ws| && ws[w].Stored?
    requires LockInv(lock, ws) && ViewsInv(groups, ws) && GroupsInv(k, groups, ws)
    ensures GroupsInv(k, if |ws[w].group| >= k then groups - {ws[w].model} else groups, ws[w := now])
  {
    hide IsOfModel;
    InsideAlone(lock, ws, w);
    StoredIsGroup(k, groups, ws, w);
    assert forall v :: 0 <= v < |ws| && ws[v].Stored? ==> v == w;
  }

  /** Every other worker's view survives a change made by the worker inside the section. */
  lemma InsideKeepsViews(lock: Option<nat>, groups: Groups, ws: seq<Worker>, w: nat, groups': Groups, now: Worker)
    requires w < |ws| && HoldsLock(ws[w]) && LockInv(lock, ws) && ViewsInv(groups, ws) && ViewInv(groups', now)
    ensures ViewsInv(groups', ws[w := now])
  {
    InsideAlone(lock, ws, w);
  }

  ghost predicate GroupingInv(k: nat, s: State) {
    && LockInv(s.lock, s.workers) && ViewsInv(s.groups, s.workers) && GroupsInv(k, s.groups, s.workers)
    && PoppedInv(k, s.popped) && ReplayInv(s.order, s.popped, s.groups)
  }

  /** Steps of worker w that leave the groups alone. */
  lemma OutsideKeeps(k: nat, w: nat, s: State, s': State)
    requires GroupingInv(k, s) && (Take(w, s, s') || Lock(w, s, s') || ReadGroup(w, s, s') || Send(w, s, s'))
    ensures GroupingInv(k, s')
  {
    hide PoppedInv, ReplayInv, GroupsInv;
    OutsideKeepsGroups(k, s.groups, s.workers, w, s'.workers[w]);
  }

  lemma StoreKeeps(k: nat, w: nat, s: State, s': State)
    requires k > 0 && GroupingInv(k, s) && Store(w, s, s')
    ensures GroupingInv(k, s')
  {
    hide PoppedInv, ReplayInv, GroupsInv;
    assert ViewInv(s.groups, s.workers[w]);
    StoreReplays(s.order, s.popped, s.groups, s.workers[w].req);
    StoreKeepsGroups(k, s.lock, s.groups, s.workers, w);
    InsideKeepsViews(s.lock, s.groups, s.workers, w, s'.groups, s'.workers[w]);
  }

  lemma PopKeeps(k: nat, w: nat, s: State, s': State)
    requires k > 0 && GroupingInv(k, s) && Pop(k, w, s, s')
    ensures GroupingInv(k, s')
  {
    hide ReplayInv, GroupsInv;
    StoredIsGroup(k, s.groups, s.workers, w);
    PopReplays(s.order, s.popped, s.groups, s.workers[w].model);
    LeaveKeepsGroups(k, s.lock, s.groups, s.workers, w, s'.workers[w]);
    InsideKeepsViews(s.lock, s.groups, s.workers, w, s'.groups, s'.workers[w]);
  }

  lemma UnlockKeeps(k: nat, w: nat, s: State, s': State)
    requires GroupingInv(k, s) && Unlock(k, w, s, s')
    ensures GroupingInv(k, s')
  {
    hide PoppedInv, ReplayInv, GroupsInv;
    LeaveKeepsGroups(k, s.lock, s.groups, s.workers, w, s'.workers[w]);
    InsideKeepsViews(s.lock, s.groups, s.workers, w, s'.groups, s'.workers[w]);
  }

  lemma StepKeepsGrouping(k: nat, s: State, s': State)
    requires k > 0 && GroupingInv(k, s) && Step(k, s, s')
    ensures GroupingInv(k, s')
  {
    if !Receive(s, s') && !Process(s, s') {
      hide GroupingInv;
      var w :| WorkerStep(k, w, s, s');
      if Store(w, s, s') {
        StoreKeeps(k, w, s, s');
      } else if Pop(k, w, s, s') {
        PopKeeps(k, w, s, s');
      } else if Unlock(k, w, s, s') {
        UnlockKeeps(k, w, s, s');
      } else {
        OutsideKeeps(k, w, s, s');
      }
    } else {
      hide LockInv, ViewsInv, GroupsInv, PoppedInv, ReplayInv;
    }
  }

  // ---------------------------------------------------------------- runs

  lemma {:induction false} NobodyBusy(ws: seq<Worker>)
    requires forall w :: 0 <= w < |ws| ==> ws[w].Idle?
    ensures AllLoose(ws) == multiset{} && AllCarried(ws) == multiset{}
  {
    if ws != [] {
      NobodyBusy(ws[..|ws| - 1]);
    }
  }

  ghost predicate Inv(k: nat, s: State) {
    GroupingInv(k, s) && RequestsInv(s) && PassedOnInv(s)
  }

  lemma {:induction false} RunInv(k: nat, run: seq<State>, i: nat)
    requires k > 0 && IsRun(k, run) && i < |run|
    ensures Inv(k, run[i])
  {
    if i > 0 {
      RunInv(k, run, i - 1);
      hide GroupingInv, RequestsInv, PassedOnInv;
      assert Step(k, run[i - 1], run[i - 1 + 1]);
      StepKeepsGrouping(k, run[i - 1], run[i]);
      StepConserves(k, run[i - 1], run[i]);
    } else {
      NobodyBusy(run[0].workers);
    }
  }

  /** Two workers are never inside the section at once. */
  lemma MutualExclusion(k: nat, run: seq<State>, i: nat, v: nat, w: nat)
    requires k > 0 && IsRun(k, run) && i < |run|
    requires v < |run[i].workers| && w < |run[i].workers|
    requires HoldsLock(run[i].workers[v]) && HoldsLock(run[i].workers[w])
    ensures v == w
  {
    RunInv(k, run, i);
  }

  /** Every group passed on has exactly k requests of one model, and no group that can be seen
   *  outside the section has k. */
  lemma GroupsAreComplete(k: nat, run: seq<State>, i: nat)
    requires k > 0 && IsRun(k, run) && i < |run|
    ensures var s := run[i];
            && (forall g :: g in s.channel || g in s.processed ==> Complete(k, g))
            && (forall w :: 0 <= w < |s.workers| && s.workers[w].Popped? ==> Complete(k, s.workers[w].group))
            && (s.lock == None ==> forall m :: m in s.groups ==>
                 0 < |s.groups[m]| < k && IsOfModel(s.groups[m], m))
  {
    hide ReplayInv, RequestsInv, AllCarried, AllLoose, Complete;
    RunInv(k, run, i);
    var s := run[i];
    forall g | g in s.channel || g in s.processed ensures Complete(k, g) {
      assert g in multiset(s.channel) || g in multiset(s.processed);
      assert g in multiset(s.popped);
    }
    forall w | 0 <= w < |s.workers| && s.workers[w].Popped? ensures Complete(k, s.workers[w].group) {
      CarriedByAll(s.workers, w);
      assert s.workers[w].group in multiset(s.popped);
    }
  }

  lemma {:induction false} CarriedByAll(ws: seq<Worker>, w: nat)
    requires w < |ws|
    ensures Carried(ws[w]) <= AllCarried(ws)
  {
    if w < |ws| - 1 {
      CarriedByAll(ws[..|ws| - 1], w);
    }
  }

  /** For every model, the popped groups in pop order followed by the forming group replay the requests of
   *  that model in the order in which they were stored under the mutex. */
  lemma ReplayInOrder(k: nat, run: seq<State>, i: nat, model: string)
    requires k > 0 && IsRun(k, run) && i < |run|
    ensures OfModel(run[i].order, model) == Replay(run[i].popped, model) + GetSeq(run[i].groups, model)
  {
    RunInv(k, run, i);
  }

  function GroupsOf(groups: seq<Group>, model: string): nat {
    if groups == [] then 0 else
      var init, last := GroupsOf(groups[..|groups| - 1], model), groups[|groups| - 1];
      if last != [] && last[0].model == model then init + 1 else init
  }

  lemma {:induction false} ReplayLength(k: nat, groups: seq<Group>, model: string)
    requires PoppedInv(k, groups)
    ensures |Replay(groups, model)| == k * GroupsOf(groups, model)
  {
    if groups != [] {
      var init, last := groups[..|groups| - 1], groups[|groups| - 1];
      ReplayLength(k, init, model);
      assert Complete(k, last);
      assert k * (GroupsOf(init, model) + 1) == k * GroupsOf(init, model) + k;
    }
  }

  /** Whenever the mutex is free, the requests stored for a model have been cut into as many groups of k as possible. */
  lemma GroupsAreMaximal(k: nat, run: seq<State>, i: nat, model: string)
    requires k > 0 && IsRun(k, run) && i < |run| && run[i].lock == None
    ensures var stored := |OfModel(run[i].order, model)|;
            GroupsOf(run[i].popped, model) == stored / k && |GetSeq(run[i].groups, model)| == stored % k
  {
    var s := run[i];
    RunInv(k, run, i);
    ReplayLength(k, s.popped, model);
    GroupsAreComplete(k, run, i);
    QuotientAndRest(k, GroupsOf(s.popped, model), |GetSeq(s.groups, model)|);
  }

  lemma QuotientAndRest(k: nat, q: nat, r: nat)
    requires r < k
    ensures (k * q + r) / k == q && (k * q + r) % k == r
  {
    MulStep(k, q);
    QuotientIs(k * q + r, k, q);
  }

  /** The requests of all groups, group after group. */
  function Flat(groups: seq<Group>): seq<Request> {
    if groups == [] then [] else Flat(groups[..|groups| - 1]) + groups[|groups| - 1]
  }

  lemma {:induction false} CountOfModel(reqs: seq<Request>, r: Request)
    ensures multiset(reqs)[r] == multiset(OfModel(reqs, r.model))[r]
  {
    if reqs != [] {
      var init, last := reqs[..|reqs| - 1], reqs[|reqs| - 1];
      CountOfModel(init, r);
      assert reqs == init + [last];
    }
  }

  lemma {:induction false} CountInReplay(k: nat, groups: seq<Group>, r: Request)
    requires PoppedInv(k, groups)
    ensures multiset(Flat(groups))[r] == multiset(Replay(groups, r.model))[r]
  {
    if groups != [] {
      var init, last := groups[..|groups| - 1], groups[|groups| - 1];
      CountInReplay(k, init, r);
      assert Complete(k, last);
      if last[0].model != r.model {
        assert forall i :: 0 <= i < |last| ==> last[i] != r;
        assert r !in last;
      }
    }
  }

  /** No request is lost, repeated or invented: each is in the inbox, with a worker, in the forming group of its
   *  model or in a complete group; and each complete group is with a worker, in the channel or processed. */
  lemma RequestsAreConserved(k: nat, run: seq<State>, i: nat)
    requires k > 0 && IsRun(k, run) && i < |run|
    ensures var s := run[i];
            && (forall r :: multiset(s.received)[r] == multiset(s.inbox)[r] + AllLoose(s.workers)[r]
                 + multiset(GetSeq(s.groups, r.model))[r] + multiset(Flat(s.popped))[r])
            && multiset(s.popped) == AllCarried(s.workers) + multiset(s.channel) + multiset(s.processed)
  {
    hide AllLoose, AllCarried, OfModel, Replay, Flat;
    RunInv(k, run, i);
    var s := run[i];
    forall r ensures multiset(s.order)[r] == multiset(GetSeq(s.groups, r.model))[r] + multiset(Flat(s.popped))[r] {
      CountOfModel(s.order, r);
      CountInReplay(k, s.popped, r);
      assert OfModel(s.order, r.model) == Replay(s.popped, r.model) + GetSeq(s.groups, r.model);
    }
  }

  /** Only the worker inside the section touches the groups, the mutex and what is recorded under it. */
  lemma OnlyInsideChanges(k: nat, w: nat, v: nat, s: State, s': State)
    requires LockInv(s.lock, s.workers) && WorkerStep(k, v, s, s')
    requires w < |s.workers| && HoldsLock(s.workers[w])
    ensures |s'.workers| == |s.workers|
    ensures v != w ==> SameInside(s, s') && s'.workers[w] == s.workers[w]
    ensures v == w ==> s'.workers[w] != s.workers[w]
                       && (ReadGroup(w, s, s') || Store(w, s, s') || Pop(k, w, s, s') || Unlock(k, w, s, s'))
  {
    InsideAlone(s.lock, s.workers, w);
  }

  /** What only the holder of the mutex may change is the same in both states. */
  ghost predicate SameInside(s: State, s': State) {
    s'.groups == s.groups && s'.lock == s.lock && s'.popped == s.popped && s'.order == s.order
  }

  /** Nobody else touches the groups while a worker is inside the section. */
  lemma InsideOwnsGroups(k: nat, run: seq<State>, i: nat, w: nat)
    requires k > 0 && IsRun(k, run) && i + 1 < |run|
    requires w < |run[i].workers| && HoldsLock(run[i].workers[w])
    requires w < |run[i + 1].workers| && run[i + 1].workers[w] == run[i].workers[w]
    ensures SameInside(run[i], run[i + 1])
  {
    RunInv(k, run, i);
    var s, s' := run[i], run[i + 1];
    assert Step(k, s, s') && LockInv(s.lock, s.workers);
    if !Receive(s, s') && !Process(s, s') {
      var v :| WorkerStep(k, v, s, s');
      OnlyInsideChanges(k, w, v, s, s');
    }
  }

  /** How far worker w, which took the mutex for `req` in state s0, has come in state s. */
  ghost predicate InSection(s0: State, s: State, w: nat, req: Request)
    requires w < |s.workers|
  {
    var group := GetSeq(s0.groups, req.model);
    match s.workers[w]
    case Locked(r) => r == req && s.groups == s0.groups && s.popped == s0.popped && s.order == s0.order
    case Read(r, g) => r == req && g == group && s.groups == s0.groups && s.popped == s0.popped && s.order == s0.order
    case Stored(m, g) =>
      && m == req.model && g == group + [req] && s.groups == s0.groups[m := g]
      && s.popped == s0.popped && s.order == s0.order + [req]
    case _ => false
  }

  /** Worker w takes the mutex in step h, is inside the section ever since, and leaves it in step j. */
  ghost predicate IsSection(k: nat, run: seq<State>, h: nat, j: nat, w: nat) {
    && h < j < |run| - 1 && Lock(w, run[h], run[h + 1])
    && (forall m :: h < m <= j ==> w < |run[m].workers| && HoldsLock(run[m].workers[w]))
    && (Pop(k, w, run[j], run[j + 1]) || Unlock(k, w, run[j], run[j + 1]))
  }

  lemma InSectionStep(k: nat, w: nat, s0: State, s: State, s': State, req: Request)
    requires LockInv(s.lock, s.workers) && Step(k, s, s')
    requires w < |s.workers| && w < |s'.workers| && HoldsLock(s.workers[w]) && HoldsLock(s'.workers[w])
    requires InSection(s0, s, w, req)
    ensures InSection(s0, s', w, req)
  {
    hide InSection, LockInv;
    if Receive(s, s') || Process(s, s') {
      SameInSection(s0, s, s', w, req);
    } else {
      var v :| WorkerStep(k, v, s, s');
      OnlyInsideChanges(k, w, v, s, s');
      if v != w {
        SameInSection(s0, s, s', w, req);
      } else {
        NextInSection(s0, s, s', w, req);
      }
    }
  }

  lemma SameInSection(s0: State, s: State, s': State, w: nat, req: Request)
    requires w < |s.workers| && w < |s'.workers| && s'.workers[w] == s.workers[w]
    requires SameInside(s, s') && InSection(s0, s, w, req)
    ensures InSection(s0, s', w, req)
  {
  }

  lemma NextInSection(s0: State, s: State, s': State, w: nat, req: Request)
    requires ReadGroup(w, s, s') || Store(w, s, s')
    requires InSection(s0, s, w, req)
    ensures InSection(s0, s', w, req)
  {
  }

  lemma StepOfRun(k: nat, run: seq<State>, i: nat)
    requires k > 0 && IsRun(k, run) && i + 1 < |run|
    ensures Step(k, run[i], run[i + 1]) && LockInv(run[i].lock, run[i].workers)
  {
    RunInv(k, run, i);
  }

  lemma SectionStarts(k: nat, run: seq<State>, h: nat, j: nat, w: nat)
    requires IsSection(k, run, h, j, w)
    ensures InSection(run[h], run[h + 1], w, run[h].workers[w].req)
  {
  }

  lemma {:induction false} SectionProgress(k: nat, run: seq<State>, h: nat, j: nat, w: nat, m: nat)
    requires k > 0 && IsRun(k, run) && IsSection(k, run, h, j, w) && h < m <= j
    ensures InSection(run[h], run[m], w, run[h].workers[w].req)
  {
    hide IsRun, Step, LockInv, InSection, Pop, Unlock;
    if m > h + 1 {
      SectionProgress(k, run, h, j, w, m - 1);
      StepOfRun(k, run, m - 1);
      InSectionStep(k, w, run[h], run[m - 1], run[m], run[h].workers[w].req);
    } else {
      SectionStarts(k, run, h, j, w);
    }
  }

  /**
   * Whatever other workers do in between, a worker's way through the section has the effect of AddRequest: on the groups
   * as they were when it took the mutex, and on the groups popped.
   */
  lemma SectionIsAddRequest(k: nat, run: seq<State>, h: nat, j: nat, w: nat)
    requires k > 0 && IsRun(k, run) && IsSection(k, run, h, j, w)
    ensures var req := run[h].workers[w].req;
            var (groups, complete) := Grouped(run[h].groups, req, k);
            && run[j + 1].groups == groups
            && run[j + 1].popped == run[h].popped + (if complete.Some? then [complete.value] else [])
            && run[j + 1].order == run[h].order + [req]
  {
    hide IsRun;
    SectionProgress(k, run, h, j, w, j);
    var groups, req := run[h].groups, run[h].workers[w].req;
    assert groups[req.model := GetSeq(groups, req.model) + [req]] - {req.model} == groups - {req.model};
  }

  // ---------------------------------------------------------------- first in, first out

  /** Both channels deliver in the order in which they were filled. */
  ghost predicate FifoInv(s: State) {
    s.received == s.taken + s.inbox && s.sent == s.processed + s.channel
  }

  lemma StepKeepsFifo(k: nat, s: State, s': State)
    requires FifoInv(s) && Step(k, s, s')
    ensures FifoInv(s')
    ensures s.taken <= s'.taken && s.order <= s'.order && s.processed <= s'.processed && s.sent <= s'.sent
  {
    if Receive(s, s') || Process(s, s') {
    } else {
      var w :| WorkerStep(k, w, s, s');
      if Take(w, s, s') {
        assert s.inbox == [s.inbox[0]] + s'.inbox;
      }
    }
  }

  /** Requests are taken exactly in the order received, and groups are processed exactly in the order sent. */
  lemma {:induction false} FirstInFirstOut(k: nat, run: seq<State>, i: nat)
    requires IsRun(k, run) && i < |run|
    ensures run[i].received == run[i].taken + run[i].inbox
    ensures run[i].sent == run[i].processed + run[i].channel
  {
    if i > 0 {
      FirstInFirstOut(k, run, i - 1);
      assert Step(k, run[i - 1], run[i - 1 + 1]);
      StepKeepsFifo(k, run[i - 1], run[i]);
    }
  }

  lemma StepIn(k: nat, run: seq<State>, i: nat)
    requires IsRun(k, run) && i + 1 < |run|
    ensures Step(k, run[i], run[i + 1])
  {
  }

  /** What is taken, processed, or on its way to be processed only grows at its end. */
  lemma {:induction false} QueuesGrowAtTheEnd(k: nat, run: seq<State>, i: nat, j: nat)
    requires IsRun(k, run) && i <= j < |run|
    ensures run[i].taken <= run[j].taken && run[i].processed <= run[j].processed
    ensures run[i].processed + run[i].channel <= run[j].processed + run[j].channel
    ensures run[i].taken + run[i].inbox <= run[j].taken + run[j].inbox
    decreases j - i
  {
    hide IsRun, Step;
    FirstInFirstOut(k, run, i);
    FirstInFirstOut(k, run, j);
    if i < j {
      QueuesGrowAtTheEnd(k, run, i, j - 1);
      FirstInFirstOut(k, run, j - 1);
      StepIn(k, run, j - 1);
      StepKeepsFifo(k, run[j - 1], run[j]);
      StepReceives(k, run[j - 1], run[j]);
    }
  }

  lemma StepReceives(k: nat, s: State, s': State)
    requires Step(k, s, s')
    ensures s.received <= s'.received
  {
  }

  function InHand(w: Worker): seq<Request> {
    if w.Got? || w.Locked? || w.Read? then [w.req] else []
  }

  function Carrying(w: Worker): seq<Group> {
    if w.Popped? then [w.group] else []
  }

  ghost predicate AloneInv(s: State) {
    |s.workers| == 1 && s.taken == s.order + InHand(s.workers[0]) && s.popped == s.sent + Carrying(s.workers[0])
  }

  lemma StepKeepsAlone(k: nat, s: State, s': State)
    requires AloneInv(s) && Step(k, s, s')
    ensures AloneInv(s')
  {
    if !Receive(s, s') && !Process(s, s') {
      var w :| WorkerStep(k, w, s, s');
      assert w == 0;
    }
  }

  lemma {:induction false} AloneInRun(k: nat, run: seq<State>, i: nat)
    requires IsRun(k, run) && i < |run| && |run[0].workers| == 1
    ensures AloneInv(run[i])
  {
    if i > 0 {
      AloneInRun(k, run, i - 1);
      assert Step(k, run[i - 1], run[i - 1 + 1]);
      StepKeepsAlone(k, run[i - 1], run[i]);
    }
  }

  /** A single worker stores requests in the order received, and its groups are processed in the order completed. */
  lemma OneWorkerKeepsOrder(k: nat, run: seq<State>, i: nat)
    requires IsRun(k, run) && i < |run| && |run[0].workers| == 1
    ensures |run[i].workers| == 1
    ensures run[i].received == run[i].order + InHand(run[i].workers[0]) + run[i].inbox
    ensures run[i].popped == run[i].processed + run[i].channel + Carrying(run[i].workers[0])
  {
    FirstInFirstOut(k, run, i);
    AloneInRun(k, run, i);
  }

  // ---------------------------------------------------------------- nobody gets stuck

  /** Everything received has been processed or waits in a forming group. */
  predicate IsQuiet(s: State) {
    s.inbox == [] && s.channel == [] && forall w :: 0 <= w < |s.workers| ==> s.workers[w].Idle?
  }

  /** As long as there is work, the dispatcher can take a step of its own: no deadlock on the mutex or the channels. */
  lemma NeverStuck(k: nat, run: seq<State>, i: nat) returns (s': State)
    requires k > 0 && IsRun(k, run) && i < |run| && run[i].workers != [] && !IsQuiet(run[i])
    ensures Process(run[i], s') || exists w :: WorkerStep(k, w, run[i], s')
  {
    LockIsHeld(k, run, i);
    var s := run[i];
    hide IsRun, HoldsLock, WorkerStep;
    if s.channel != [] {
      s' := s.(channel := s.channel[1..], processed := s.processed + [s.channel[0]]);
    } else if s.lock.Some? {
      s' := InsideCanMove(k, s, s.lock.value);
    } else if w: nat :| w < |s.workers| && !s.workers[w].Idle? {
      s' := OutsideCanMove(k, s, w);
    } else {
      s' := s.(workers := s.workers[0 := Got(s.inbox[0])], inbox := s.inbox[1..], taken := s.taken + [s.inbox[0]]);
      assert WorkerStep(k, 0, s, s') by {
        TakeIsStep(k, s, s');
      }
    }
  }

  lemma TakeIsStep(k: nat, s: State, s': State)
    requires Take(0, s, s')
    ensures WorkerStep(k, 0, s, s')
  {
  }

  lemma InsideCanMove(k: nat, s: State, w: nat) returns (s': State)
    requires w < |s.workers| && HoldsLock(s.workers[w])
    ensures WorkerStep(k, w, s, s')
  {
    match s.workers[w] {
      case Locked(req) =>
        s' := s.(workers := s.workers[w := Read(req, GetSeq(s.groups, req.model))]);
        assert ReadGroup(w, s, s');
      case Read(req, group) =>
        s' := s.(workers := s.workers[w := Stored(req.model, group + [req])],
                 groups := s.groups[req.model := group + [req]], order := s.order + [req]);
        assert Store(w, s, s');
      case Stored(model, group) =>
        if |group| >= k {
          s' := s.(workers := s.workers[w := Popped(group)], groups := s.groups - {model}, lock := None,
                   popped := s.popped + [group]);
          assert Pop(k, w, s, s');
        } else {
          s' := s.(workers := s.workers[w := Idle], lock := None);
          assert Unlock(k, w, s, s');
        }
    }
  }

  lemma OutsideCanMove(k: nat, s: State, w: nat) returns (s': State)
    requires w < |s.workers| && !s.workers[w].Idle? && !HoldsLock(s.workers[w]) && s.lock == None && s.channel == []
    ensures WorkerStep(k, w, s, s')
  {
    match s.workers[w] {
      case Got(req) =>
        s' := s.(workers := s.workers[w := Locked(req)], lock := Some(w));
        assert Lock(w, s, s');
      case Popped(group) =>
        s' := s.(workers := s.workers[w := Idle], channel := s.channel + [group], sent := s.sent + [group]);
        assert Send(w, s, s');
    }
  }

  lemma {:induction false} HolderExists(k: nat, run: seq<State>, i: nat)
    requires IsRun(k, run) && i < |run|
    ensures run[i].lock.Some? ==> run[i].lock.value < |run[i].workers|
  {
    if i > 0 {
      HolderExists(k, run, i - 1);
      assert Step(k, run[i - 1], run[i - 1 + 1]);
      hide IsRun;
      HolderStays(k, run[i - 1], run[i]);
    }
  }

  lemma HolderStays(k: nat, s: State, s': State)
    requires Step(k, s, s') && (s.lock.Some? ==> s.lock.value < |s.workers|)
    ensures s'.lock.Some? ==> s'.lock.value < |s'.workers|
  {
  }

  /** The mutex is held by some worker inside the section, or nobody is inside. */
  lemma LockIsHeld(k: nat, run: seq<State>, i: nat)
    requires k > 0 && IsRun(k, run) && i < |run|
    ensures var s := run[i];
            && (s.lock.Some? ==> s.lock.value < |s.workers| && HoldsLock(s.workers[s.lock.value]))
            && (s.lock.None? ==> forall w :: 0 <= w < |s.workers| ==> !HoldsLock(s.workers[w]))
  {
    RunInv(k, run, i);
    HolderExists(k, run, i);
    assert LockInv(run[i].lock, run[i].workers);
    hide IsRun, Inv, HoldsLock;
  }
}
