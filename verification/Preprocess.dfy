/**
 * The pod preprocessor as a step machine. Its handler reads a token, updates the pod and deletes the token in three
 * separate steps, while evictions keep adding tokens and new pods keep arriving.
 */
module Preprocess {
  import opened Common
  import opened AffinityQueue

  /** The labels the handler reads and writes. */
  datatype PodLabels = PodLabels(templateHash: Option<string>, preprocessed: bool, expectedNode: Option<string>)

  /** A token leaves the table by being handed to a pod, or with its whole queue when no replica set is left. */
  datatype Use = Handed(token: Token, pod: Pod) | Dropped(token: Token)

  datatype Outcome = Vanished | Marked | MarkFailed | Assigned(node: string)

  datatype Finish = Finish(pod: Pod, outcome: Outcome)

  datatype PC =
    | Idle
    | Got(po: Pod)
    | Fetched(po: Pod, seen: PodLabels)
    | Patching(po: Pod)
    | Peeking(po: Pod, key: string, seen: PodLabels)
    | Updating(po: Pod, key: string, node: string, seen: PodLabels)
    | Popping(po: Pod, key: string, node: string)
    | Listing(po: Pod)
    | Cleaning(po: Pod, keys: seq<string>)
    | Requeueing(po: Pod)

  /** `received`, `taken`, `finished`, `added` and `uses` record what has happened so far. */
  datatype State = State(lookup: Lookup, channel: seq<Pod>, pods: map<Pod, PodLabels>, pc: PC,
                         received: seq<Pod>, taken: seq<Pod>, finished: seq<Finish>, added: seq<Token>, uses: seq<Use>)

  // ---------------------------------------------------------------- the handler

  ghost predicate Receive(s: State, s': State) {
    && s.pc.Idle? && s.channel != []
    && s' == s.(pc := Got(s.channel[0]), channel := s.channel[1..], taken := s.taken + [s.channel[0]])
  }

  ghost predicate GetPod(s: State, s': State) {
    && s.pc.Got?
    && (|| s' == s.(pc := Idle, finished := s.finished + [Finish(s.pc.po, Vanished)])
        || (&& s.pc.po in s.pods
            && s' == s.(pc := Fetched(s.pc.po, s.pods[s.pc.po]))))
  }

  ghost predicate CheckEmpty(s: State, s': State) {
    && s.pc.Fetched?
    && s' == s.(pc := if s.lookup == map[] then Patching(s.pc.po)
                      else if s.pc.seen.templateHash.Some? then Peeking(s.pc.po, s.pc.seen.templateHash.value, s.pc.seen)
                      else Listing(s.pc.po))
  }

  ghost predicate Patch(s: State, s': State) {
    && s.pc.Patching?
    && (|| s' == s.(pc := Idle, finished := s.finished + [Finish(s.pc.po, MarkFailed)])
        || (&& s.pc.po in s.pods
            && s' == s.(pc := Idle, finished := s.finished + [Finish(s.pc.po, Marked)],
                        pods := s.pods[s.pc.po := s.pods[s.pc.po].(preprocessed := true)])))
  }

  ghost predicate Peek(s: State, s': State) {
    && s.pc.Peeking?
    && var first := First(s.lookup, s.pc.key);
    s' == s.(pc := if first.Some? then Updating(s.pc.po, s.pc.key, first.value, s.pc.seen) else Listing(s.pc.po))
  }

  /** The pod is written as it was read, with two labels set; the API refuses that if it has changed since. */
  ghost predicate Update(s: State, s': State) {
    && s.pc.Updating?
    && (|| s' == s.(pc := Listing(s.pc.po))
        || (&& s.pc.po in s.pods && s.pods[s.pc.po] == s.pc.seen
            && s' == s.(pc := Popping(s.pc.po, s.pc.key, s.pc.node),
                        pods := s.pods[s.pc.po := s.pc.seen.(preprocessed := true, expectedNode := Some(s.pc.node))])))
  }

  /** The token that is really removed is whatever heads the queue now. */
  ghost predicate Pop(s: State, s': State) {
    && s.pc.Popping?
    && var first := First(s.lookup, s.pc.key);
    s' == s.(pc := Idle, lookup := Popped(s.lookup, s.pc.key),
             finished := s.finished + [Finish(s.pc.po, Assigned(s.pc.node))],
             uses := if first.Some? then s.uses + [Handed(Token(s.pc.key, first.value), s.pc.po)] else s.uses)
  }

  ghost predicate ListKeys(s: State, s': State) {
    && s.pc.Listing?
    && exists keys: seq<string> :: (forall k :: k in keys <==> k in s.lookup) && s' == s.(pc := Cleaning(s.pc.po, keys))
  }

  function Drops(key: string, nodes: seq<string>): seq<Use> {
    seq(|nodes|, i requires 0 <= i < |nodes| => Dropped(Token(key, nodes[i])))
  }

  /** The next key still has a replica set, or there is no next key. */
  ghost predicate KeepKey(s: State, s': State) {
    && s.pc.Cleaning?
    && s' == s.(pc := if s.pc.keys == [] then Requeueing(s.pc.po) else Cleaning(s.pc.po, s.pc.keys[1..]))
  }

  ghost predicate DropKey(s: State, s': State) {
    && s.pc.Cleaning? && s.pc.keys != []
    && var key := s.pc.keys[0];
    s' == s.(pc := Cleaning(s.pc.po, s.pc.keys[1..]), lookup := s.lookup - {key},
             uses := s.uses + Drops(key, GetSeq(s.lookup, key)))
  }

  ghost predicate Requeue(s: State, s': State) {
    && s.pc.Requeueing?
    && s' == s.(pc := Idle, channel := s.channel + [s.pc.po])
  }

  ghost predicate HandlerStep(s: State, s': State) {
    || Receive(s, s') || GetPod(s, s') || CheckEmpty(s, s') || Patch(s, s') || Peek(s, s') || Update(s, s') || Pop(s, s')
    || ListKeys(s, s') || KeepKey(s, s') || DropKey(s, s') || Requeue(s, s')
  }

  // ---------------------------------------------------------------- everybody else

  ghost predicate Arrive(s: State, s': State) {
    exists po :: s' == s.(channel := s.channel + [po], received := s.received + [po])
  }

  ghost predicate Evict(s: State, s': State) {
    exists t: Token :: s' == s.(lookup := Added(s.lookup, t.hash, t.node), added := s.added + [t])
  }

  ghost predicate PodsChange(s: State, s': State) {
    s' == s.(pods := s'.pods)
  }

  ghost predicate Step(s: State, s': State) {
    HandlerStep(s, s') || Arrive(s, s') || Evict(s, s') || PodsChange(s, s')
  }

  ghost predicate Init(s: State) {
    && s.lookup == map[] && s.channel == [] && s.pc == Idle
    && s.received == [] && s.taken == [] && s.finished == [] && s.added == [] && s.uses == []
  }

  ghost predicate IsRun(run: seq<State>) {
    |run| > 0 && Init(run[0]) && forall i :: 0 <= i < |run| - 1 ==> Step(run[i], run[i + 1])
  }

  // ---------------------------------------------------------------- what is counted

  function NodesAdded(tokens: seq<Token>, key: string): seq<string> {
    if tokens == [] then [] else
      var init, last := NodesAdded(tokens[..|tokens| - 1], key), tokens[|tokens| - 1];
      if last.hash == key then init + [last.node] else init
  }

  function NodesUsed(uses: seq<Use>, key: string): seq<string> {
    if uses == [] then [] else
      var init, last := NodesUsed(uses[..|uses| - 1], key), uses[|uses| - 1];
      if last.token.hash == key then init + [last.token.node] else init
  }

  function Hands(uses: seq<Use>): seq<(Pod, string)> {
    if uses == [] then [] else
      var init, last := Hands(uses[..|uses| - 1]), uses[|uses| - 1];
      if last.Handed? then init + [(last.pod, last.token.node)] else init
  }

  function Assignments(finished: seq<Finish>): seq<(Pod, string)> {
    if finished == [] then [] else
      var init, last := Assignments(finished[..|finished| - 1]), finished[|finished| - 1];
      if last.outcome.Assigned? then init + [(last.pod, last.outcome.node)] else init
  }

  function Pods(finished: seq<Finish>): multiset<Pod> {
    if finished == [] then multiset{} else Pods(finished[..|finished| - 1]) + multiset{finished[|finished| - 1].pod}
  }

  function InHand(pc: PC): multiset<Pod> {
    if pc.Idle? then multiset{} else multiset{pc.po}
  }

  /** Tokens added are, in order, the tokens used followed by the ones pending. */
  ghost predicate TokensBalance(added: seq<Token>, uses: seq<Use>, lookup: Lookup) {
    && NoEmptyQueue(lookup)
    && forall key :: NodesAdded(added, key) == NodesUsed(uses, key) + GetSeq(lookup, key)
  }

  /** Between reading a token and deleting it, that token stays at the head of its queue. */
  ghost predicate ReadTokenIsFirst(pc: PC, lookup: Lookup) {
    pc.Updating? || pc.Popping? ==> First(lookup, pc.key) == Some(pc.node)
  }

  /** Every pod received is waiting, in hand or finished, exactly once. */
  ghost predicate PodsBalance(received: seq<Pod>, channel: seq<Pod>, hand: multiset<Pod>, finished: seq<Finish>) {
    multiset(received) == multiset(channel) + hand + Pods(finished)
  }

  /** The pods told to wait for a node are exactly those that consumed a token for that node, in the same order. */
  ghost predicate HandsBalance(uses: seq<Use>, finished: seq<Finish>) {
    Hands(uses) == Assignments(finished)
  }

  ghost predicate Inv(s: State) {
    && TokensBalance(s.added, s.uses, s.lookup)
    && ReadTokenIsFirst(s.pc, s.lookup)
    && PodsBalance(s.received, s.channel, InHand(s.pc), s.finished)
    && HandsBalance(s.uses, s.finished)
  }
}

/** The balance laws of the preprocessor hold in every state of every run. */
module PreprocessProofs {
  import opened Common
  import opened AffinityQueue
  import opened Preprocess

  lemma UsedAppend(uses: seq<Use>, u: Use, key: string)
    ensures NodesUsed(uses + [u], key) == NodesUsed(uses, key) + if u.token.hash == key then [u.token.node] else []
    ensures Hands(uses + [u]) == Hands(uses) + if u.Handed? then [(u.pod, u.token.node)] else []
  {
    assert (uses + [u])[..|uses|] == uses;
  }

  lemma AddedAppend(tokens: seq<Token>, t: Token, key: string)
    ensures NodesAdded(tokens + [t], key) == NodesAdded(tokens, key) + if t.hash == key then [t.node] else []
  {
    assert (tokens + [t])[..|tokens|] == tokens;
  }

  lemma FinishedAppend(finished: seq<Finish>, f: Finish)
    ensures Pods(finished + [f]) == Pods(finished) + multiset{f.pod}
    ensures Assignments(finished + [f]) == Assignments(finished) + if f.outcome.Assigned? then [(f.pod, f.outcome.node)] else []
  {
    assert (finished + [f])[..|finished|] == finished;
  }

  lemma DropsStep(dropped: string, nodes: seq<string>, last: string)
    ensures Drops(dropped, nodes + [last]) == Drops(dropped, nodes) + [Dropped(Token(dropped, last))]
  {
  }

  lemma {:induction false} DropsAppend(uses: seq<Use>, dropped: string, nodes: seq<string>, key: string)
    ensures NodesUsed(uses + Drops(dropped, nodes), key) == NodesUsed(uses, key) + if key == dropped then nodes else []
    ensures Hands(uses + Drops(dropped, nodes)) == Hands(uses)
  {
    if nodes == [] {
      assert uses + Drops(dropped, nodes) == uses;
    } else {
      var init, last := nodes[..|nodes| - 1], nodes[|nodes| - 1];
      assert init + [last] == nodes;
      DropsStep(dropped, init, last);
      hide Drops, NodesUsed, Hands;
      DropsAppend(uses, dropped, init, key);
      UsedAppend(uses + Drops(dropped, init), Dropped(Token(dropped, last)), key);
      assert uses + Drops(dropped, nodes) == uses + Drops(dropped, init) + [Dropped(Token(dropped, last))];
    }
  }

  lemma ReceiveKeeps(s: State, s': State)
    requires Inv(s) && Receive(s, s')
    ensures Inv(s')
  {
    hide TokensBalance, HandsBalance, Pods;
    assert s.channel == [s.channel[0]] + s'.channel;
  }

  lemma FinishKeeps(s: State, s': State)
    requires Inv(s) && (GetPod(s, s') || Patch(s, s'))
    ensures Inv(s')
  {
    hide TokensBalance, Pods, Hands, Assignments;
    if s'.pc.Idle? {
      FinishedAppend(s.finished, s'.finished[|s.finished|]);
    }
  }

  lemma MoveKeeps(s: State, s': State)
    requires Inv(s)
    requires CheckEmpty(s, s') || Peek(s, s') || Update(s, s') || ListKeys(s, s') || KeepKey(s, s') || PodsChange(s, s')
    ensures Inv(s')
  {
    hide TokensBalance, HandsBalance, PodsBalance, First;
  }

  lemma PopKeeps(s: State, s': State)
    requires Inv(s) && Pop(s, s')
    ensures Inv(s')
  {
    hide Pods, Hands, Assignments, NodesUsed, Popped;
    var use := Handed(Token(s.pc.key, s.pc.node), s.pc.po);
    FinishedAppend(s.finished, Finish(s.pc.po, Assigned(s.pc.node)));
    UsedAppend(s.uses, use, s.pc.key);
    PopBalances(s.added, s.uses, s.lookup, use);
  }

  lemma PopBalances(added: seq<Token>, uses: seq<Use>, lookup: Lookup, use: Use)
    requires TokensBalance(added, uses, lookup)
    requires First(lookup, use.token.hash) == Some(use.token.node)
    ensures TokensBalance(added, uses + [use], Popped(lookup, use.token.hash))
  {
    hide First, NodesUsed, NodesAdded, NoEmptyQueue, GetSeq, Popped;
    QueueLaws(lookup, use.token.hash, "", "");
    forall key ensures NodesAdded(added, key) == NodesUsed(uses + [use], key) + GetSeq(Popped(lookup, use.token.hash), key) {
      UsedAppend(uses, use, key);
      QueueLaws(lookup, use.token.hash, "", key);
    }
  }

  lemma DropBalances(added: seq<Token>, uses: seq<Use>, lookup: Lookup, dropped: string)
    requires TokensBalance(added, uses, lookup)
    ensures TokensBalance(added, uses + Drops(dropped, GetSeq(lookup, dropped)), lookup - {dropped})
  {
    hide First, NodesUsed, NodesAdded, NoEmptyQueue, Popped, Drops;
    QueueLaws(lookup, dropped, "", "");
    var uses' := uses + Drops(dropped, GetSeq(lookup, dropped));
    forall key ensures NodesAdded(added, key) == NodesUsed(uses', key) + GetSeq(lookup - {dropped}, key) {
      QueueLaws(lookup, dropped, "", key);
      DropsAppend(uses, dropped, GetSeq(lookup, dropped), key);
    }
  }

  lemma DropKeeps(s: State, s': State)
    requires Inv(s) && DropKey(s, s')
    ensures Inv(s')
  {
    hide TokensBalance, Drops;
    var dropped := s.pc.keys[0];
    DropBalances(s.added, s.uses, s.lookup, dropped);
    DropsAppend(s.uses, dropped, GetSeq(s.lookup, dropped), "");
  }

  lemma ArriveKeeps(s: State, s': State)
    requires Inv(s) && (Requeue(s, s') || Arrive(s, s'))
    ensures Inv(s')
  {
    hide TokensBalance, HandsBalance, Pods;
  }

  lemma AddBalances(added: seq<Token>, uses: seq<Use>, lookup: Lookup, t: Token)
    requires TokensBalance(added, uses, lookup)
    ensures TokensBalance(added + [t], uses, Added(lookup, t.hash, t.node))
  {
    hide First, NodesUsed, NodesAdded, NoEmptyQueue, Popped, AffinityQueue.Added, GetSeq;
    QueueLaws(lookup, t.hash, t.node, "");
    forall key ensures NodesAdded(added + [t], key) == NodesUsed(uses, key) + GetSeq(Added(lookup, t.hash, t.node), key) {
      QueueLaws(lookup, t.hash, t.node, key);
      AddedAppend(added, t, key);
    }
  }

  lemma EvictKeeps(s: State, s': State)
    requires Inv(s) && Evict(s, s')
    ensures Inv(s')
  {
    hide TokensBalance, HandsBalance, PodsBalance, NoEmptyQueue;
    var t: Token :| s' == s.(lookup := Added(s.lookup, t.hash, t.node), added := s.added + [t]);
    AddBalances(s.added, s.uses, s.lookup, t);
  }

  lemma StepKeepsInv(s: State, s': State)
    requires Inv(s) && Step(s, s')
    ensures Inv(s')
  {
    hide Inv;
    if Receive(s, s') {
      ReceiveKeeps(s, s');
    } else if GetPod(s, s') || Patch(s, s') {
      FinishKeeps(s, s');
    } else if Pop(s, s') {
      PopKeeps(s, s');
    } else if DropKey(s, s') {
      DropKeeps(s, s');
    } else if Requeue(s, s') || Arrive(s, s') {
      ArriveKeeps(s, s');
    } else if Evict(s, s') {
      EvictKeeps(s, s');
    } else {
      MoveKeeps(s, s');
    }
  }

  lemma {:induction false} RunInv(run: seq<State>, i: nat)
    requires IsRun(run) && i < |run|
    ensures Inv(run[i])
  {
    if i > 0 {
      RunInv(run, i - 1);
      assert Step(run[i - 1], run[i - 1 + 1]);
      StepKeepsInv(run[i - 1], run[i]);
    }
  }

  // ---------------------------------------------------------------- what every run guarantees

  /**
   * Tokens of a template hash leave the table in the order in which evictions added them, none is lost and none is used
   * twice; what has not left yet is the pending queue, and no empty queue is stored.
   */
  lemma TokenAccounting(run: seq<State>, i: nat, key: string)
    requires IsRun(run) && i < |run|
    ensures NodesAdded(run[i].added, key) == NodesUsed(run[i].uses, key) + GetSeq(run[i].lookup, key)
    ensures NoEmptyQueue(run[i].lookup)
  {
    RunInv(run, i);
  }

  /** The token deleted is the token read, even if evictions added tokens between the two. */
  lemma DeletedTokenIsTheOneRead(run: seq<State>, i: nat)
    requires IsRun(run) && i + 1 < |run| && run[i].pc.Popping? && run[i + 1].pc.Idle?
    ensures var pc := run[i].pc;
            run[i + 1].uses == run[i].uses + [Handed(Token(pc.key, pc.node), pc.po)]
  {
    RunInv(run, i);
    assert Step(run[i], run[i + 1]);
    assert Pop(run[i], run[i + 1]);
  }

  /** Requeueing neither loses nor duplicates a pod. */
  lemma PodAccounting(run: seq<State>, i: nat)
    requires IsRun(run) && i < |run|
    ensures multiset(run[i].received) == multiset(run[i].channel) + InHand(run[i].pc) + Pods(run[i].finished)
  {
    RunInv(run, i);
  }

  /** Every pod sent to a node consumed one token for that node, and no token was consumed for anyone else. */
  lemma OneTokenPerAssignment(run: seq<State>, i: nat)
    requires IsRun(run) && i < |run|
    ensures Hands(run[i].uses) == Assignments(run[i].finished)
  {
    RunInv(run, i);
  }

  /** po is not being served, and since position `from` it was finished with at most by vanishing. */
  ghost predicate Unserved(s: State, po: Pod, from: nat) {
    && !((s.pc.Patching? || s.pc.Peeking? || s.pc.Updating? || s.pc.Popping?) && s.pc.po == po)
    && (s.pc.Fetched? && s.pc.po == po ==> s.pc.seen.templateHash.None?)
    && (forall k :: from <= k < |s.finished| && s.finished[k].pod == po ==> s.finished[k].outcome.Vanished?)
  }

  lemma UnservedStep(s: State, s': State, po: Pod, from: nat)
    requires Unserved(s, po, from) && Step(s, s') && s.lookup != map[] && from <= |s.finished|
    requires po in s.pods ==> s.pods[po].templateHash.None?
    ensures Unserved(s', po, from) && from <= |s'.finished|
  {
    hide First, Popped, Added, Drops;
    if Pop(s, s') || GetPod(s, s') || Patch(s, s') {
    } else {
      assert s'.finished == s.finished;
    }
  }

  /** As long as any token is pending, a pod without a template hash is sent round the channel and never served. */
  lemma {:induction false} NoHashNoService(run: seq<State>, i: nat, po: Pod)
    requires i < |run| && forall k :: 0 <= k < |run| - 1 ==> Step(run[k], run[k + 1])
    requires run[0].pc.Idle?
    requires forall k :: 0 <= k < |run| ==>
               run[k].lookup != map[] && (po in run[k].pods ==> run[k].pods[po].templateHash.None?)
    ensures Unserved(run[i], po, |run[0].finished|) && |run[0].finished| <= |run[i].finished|
  {
    if i > 0 {
      NoHashNoService(run, i - 1, po);
      assert Step(run[i - 1], run[i - 1 + 1]);
      UnservedStep(run[i - 1], run[i], po, |run[0].finished|);
    }
  }

  /** The handler looked at the table while it held po, and found it empty. */
  ghost predicate FoundEmpty(run: seq<State>, j: nat, po: Pod) {
    j + 1 < |run| && run[j].pc.Fetched? && run[j].pc.po == po && run[j].lookup == map[] && CheckEmpty(run[j], run[j + 1])
  }

  ghost predicate PatchingSince(run: seq<State>, j: nat, i: nat, po: Pod) {
    j < i < |run| && FoundEmpty(run, j, po) && forall k :: j < k <= i ==> run[k].pc == Patching(po)
  }

  /** po is not about to get a token, and it is being marked only on the strength of an empty table. */
  ghost predicate NoToken(run: seq<State>, i: nat, po: Pod)
    requires i < |run|
  {
    var pc := run[i].pc;
    && !((pc.Peeking? || pc.Updating? || pc.Popping?) && pc.po == po)
    && (pc.Fetched? && pc.po == po ==> pc.seen.templateHash.None?)
    && (pc.Patching? && pc.po == po ==> exists j :: PatchingSince(run, j, i, po))
  }

  lemma NoTokenStep(run: seq<State>, i: nat, po: Pod)
    requires i + 1 < |run| && NoToken(run, i, po) && Step(run[i], run[i + 1])
    requires po in run[i].pods ==> run[i].pods[po].templateHash.None?
    ensures NoToken(run, i + 1, po)
  {
    hide First, Popped, Added, Drops;
    var s, s' := run[i], run[i + 1];
    if s'.pc.Patching? && s'.pc.po == po {
      if s.pc.Patching? {
        assert s'.pc == s.pc;
        var j :| PatchingSince(run, j, i, po);
        assert PatchingSince(run, j, i + 1, po);
      } else {
        assert CheckEmpty(s, s');
        assert FoundEmpty(run, i, po) && PatchingSince(run, i, i + 1, po);
      }
    }
  }

  lemma {:induction false} NoTokenInRun(run: seq<State>, i: nat, po: Pod)
    requires i < |run| && run[0].pc.Idle? && forall k :: 0 <= k < |run| - 1 ==> Step(run[k], run[k + 1])
    requires forall k :: 0 <= k < |run| && po in run[k].pods ==> run[k].pods[po].templateHash.None?
    ensures NoToken(run, i, po)
  {
    if i > 0 {
      NoTokenInRun(run, i - 1, po);
      assert Step(run[i - 1], run[i - 1 + 1]);
      assert po in run[i - 1].pods ==> run[i - 1].pods[po].templateHash.None?;
      hide *;
      NoTokenStep(run, i - 1, po);
    }
  }

  /**
   * The converse: a pod without a template hash never gets a token, and it is done with, other than by vanishing, only
   * if the table was empty when the handler looked at it for this pod.
   */
  lemma NoHashServedOnlyFromEmptyTable(run: seq<State>, i: nat, po: Pod, outcome: Outcome)
    requires i + 1 < |run| && run[0].pc.Idle? && forall k :: 0 <= k < |run| - 1 ==> Step(run[k], run[k + 1])
    requires forall k :: 0 <= k < |run| && po in run[k].pods ==> run[k].pods[po].templateHash.None?
    requires run[i + 1].finished == run[i].finished + [Finish(po, outcome)] && !outcome.Vanished?
    ensures outcome.Marked? || outcome.MarkFailed?
    ensures exists j :: PatchingSince(run, j, i, po)
  {
    hide First, Popped, Added, Drops, PatchingSince;
    NoTokenInRun(run, i, po);
    var s, s' := run[i], run[i + 1];
    assert Step(s, s');
    assert s'.finished[|s.finished|] == Finish(po, outcome);
    assert s'.finished != s.finished;
  }

  // ---------------------------------------------------------------- what the pods' labels say

  /** What is kept in hand between reading a pod and writing it. */
  ghost predicate SeenHasHash(pc: PC) {
    (pc.Peeking? || pc.Updating?) ==> pc.seen.templateHash == Some(pc.key)
  }

  lemma StepOfRun(run: seq<State>, i: nat)
    requires IsRun(run) && i + 1 < |run|
    ensures Step(run[i], run[i + 1])
  {
  }

  lemma {:induction false} SeenInRun(run: seq<State>, i: nat)
    requires IsRun(run) && i < |run|
    ensures SeenHasHash(run[i].pc)
  {
    if i > 0 {
      SeenInRun(run, i - 1);
      StepOfRun(run, i - 1);
      hide *;
      SeenStep(run[i - 1], run[i]);
    }
  }

  lemma OtherMoves(s: State, s': State)
    requires Requeue(s, s') || DropKey(s, s') || KeepKey(s, s') || ListKeys(s, s') || Patch(s, s')
    ensures !s'.pc.Peeking? && !s'.pc.Updating? && !s'.pc.Popping?
    ensures s'.pods == s.pods || s.pc.Patching?
  {
    hide Drops;
  }

  lemma SeenStep(s: State, s': State)
    requires SeenHasHash(s.pc) && Step(s, s')
    ensures SeenHasHash(s'.pc)
  {
    hide First, Popped, Added, Drops, Requeue, DropKey, KeepKey, ListKeys, Patch;
    if Requeue(s, s') || DropKey(s, s') || KeepKey(s, s') || ListKeys(s, s') || Patch(s, s') {
      OtherMoves(s, s');
    }
  }

  /** The handler changes a pod's labels in two ways only, and never those of another pod. */
  lemma HandlerWrites(s: State, s': State)
    requires Step(s, s') && !PodsChange(s, s') && s'.pods != s.pods
    ensures (s.pc.Patching? || s.pc.Updating?) && s.pc.po in s.pods
    ensures s'.pods == s.pods[s.pc.po := s'.pods[s.pc.po]]
  {
    hide First, Popped, Added, Drops;
  }

  /**
   * The update that precedes the deletion of a token: the pod gets the node that heads the queue of its own template
   * hash, is marked as preprocessed and keeps its hash; no other pod is touched.
   */
  lemma TokenIsWrittenToPod(run: seq<State>, i: nat)
    requires IsRun(run) && i + 1 < |run| && run[i].pc.Updating? && run[i + 1].pc.Popping?
    ensures var s, po := run[i], run[i].pc.po;
            && po in s.pods && s.pods[po].templateHash.Some?
            && First(s.lookup, s.pods[po].templateHash.value).Some?
            && run[i + 1].pods == s.pods[po := PodLabels(s.pods[po].templateHash, true,
                                                         First(s.lookup, s.pods[po].templateHash.value))]
  {
    RunInv(run, i);
    SeenInRun(run, i);
    assert Step(run[i], run[i + 1]);
    assert Update(run[i], run[i + 1]);
  }

  /** The update after which the token is being deleted. */
  ghost predicate WrittenAt(run: seq<State>, u: nat, i: nat) {
    && u < i < |run| && run[u].pc.Updating? && run[i].pc.Popping? && Update(run[u], run[u + 1])
    && forall k :: u < k <= i ==> run[k].pc == run[i].pc
  }

  lemma {:induction false} PoppingWasWritten(run: seq<State>, i: nat) returns (u: nat)
    requires IsRun(run) && i < |run| && run[i].pc.Popping?
    ensures WrittenAt(run, u, i)
  {
    assert i > 0;
    assert Step(run[i - 1], run[i - 1 + 1]);
    hide First, Popped, Added, Drops;
    if run[i - 1].pc.Popping? {
      assert run[i - 1].pc == run[i].pc;
      u := PoppingWasWritten(run, i - 1);
    } else {
      assert Update(run[i - 1], run[i]);
      u := i - 1;
    }
  }

  lemma PoppingKeepsPods(s: State, s': State)
    requires Step(s, s') && s.pc.Popping? && !PodsChange(s, s')
    ensures s'.pods == s.pods
  {
    hide First, Popped, Added, Drops;
  }

  lemma {:induction false} LabelsStay(run: seq<State>, u: nat, i: nat)
    requires IsRun(run) && u < i < |run| && forall k :: u < k < i ==> run[k].pc.Popping?
    requires forall k :: u < k < i && PodsChange(run[k], run[k + 1]) ==> run[k + 1].pods == run[k].pods
    ensures run[i].pods == run[u + 1].pods
  {
    hide IsRun, Step, PodsChange;
    if i > u + 1 {
      LabelsStay(run, u, i - 1);
      StepOfRun(run, i - 1);
      if !PodsChange(run[i - 1], run[i - 1 + 1]) {
        PoppingKeepsPods(run[i - 1], run[i]);
      }
    }
  }

  lemma PopStep(s: State, s': State)
    requires Step(s, s') && s.pc.Popping? && s'.pc.Idle?
    ensures s'.finished == s.finished + [Finish(s.pc.po, Assigned(s.pc.node))]
  {
    hide First, Popped, Added, Drops;
  }

  /**
   * A pod that is finished as assigned to a node carries that node as its expected node and is marked as preprocessed,
   * provided that nobody else has changed pods between the update of its labels and the end of its handling.
   */
  lemma AssignedPodSaysSo(run: seq<State>, i: nat) returns (u: nat)
    requires IsRun(run) && i + 1 < |run| && run[i].pc.Popping? && run[i + 1].pc.Idle?
    ensures WrittenAt(run, u, i)
    ensures var pc := run[i].pc;
            && run[i + 1].finished == run[i].finished + [Finish(pc.po, Assigned(pc.node))]
            && ((forall k :: u < k <= i && PodsChange(run[k], run[k + 1]) ==> run[k + 1].pods == run[k].pods) ==>
                 pc.po in run[i + 1].pods && run[i + 1].pods[pc.po] == PodLabels(Some(pc.key), true, Some(pc.node)))
  {
    hide Step, PodsChange, Update;
    u := PoppingWasWritten(run, i);
    SeenInRun(run, u);
    StepOfRun(run, i);
    PopStep(run[i], run[i + 1]);
    UpdateWrites(run, u, i);
    if forall k :: u < k <= i && PodsChange(run[k], run[k + 1]) ==> run[k + 1].pods == run[k].pods {
      LabelsStay(run, u, i + 1);
    }
  }

  lemma UpdateWrites(run: seq<State>, u: nat, i: nat)
    requires WrittenAt(run, u, i) && SeenHasHash(run[u].pc)
    ensures var pc := run[i].pc;
            pc.po in run[u + 1].pods && run[u + 1].pods[pc.po] == PodLabels(Some(pc.key), true, Some(pc.node))
  {
    assert run[u + 1].pc == run[i].pc;
    assert Update(run[u], run[u + 1]);
  }

  /** A pod that is finished as marked is marked as preprocessed, and nothing else about any pod has changed. */
  lemma MarkedPodKeepsItsNode(run: seq<State>, i: nat, po: Pod)
    requires IsRun(run) && i + 1 < |run| && run[i + 1].finished == run[i].finished + [Finish(po, Marked)]
    ensures po in run[i].pods
    ensures run[i + 1].pods == run[i].pods[po := PodLabels(run[i].pods[po].templateHash, true, run[i].pods[po].expectedNode)]
  {
    assert Step(run[i], run[i + 1]);
    assert run[i + 1].finished[|run[i].finished|] == Finish(po, Marked);
    hide First, Popped, Added, Drops;
    assert Patch(run[i], run[i + 1]);
  }

  // ---------------------------------------------------------------- order and progress

  /** Pods are taken exactly in the order in which they arrived or were put back. */
  lemma {:induction false} ChannelIsInOrder(run: seq<State>, i: nat, j: nat)
    requires IsRun(run) && i <= j < |run|
    ensures run[i].taken <= run[j].taken
    ensures run[i].taken + run[i].channel <= run[j].taken + run[j].channel
    decreases j - i
  {
    hide IsRun, Step;
    if i < j {
      ChannelIsInOrder(run, i, j - 1);
      StepOfRun(run, j - 1);
      ChannelStep(run[j - 1], run[j]);
    }
  }

  lemma ChannelStep(s: State, s': State)
    requires Step(s, s')
    ensures s.taken <= s'.taken && s.taken + s.channel <= s'.taken + s'.channel
  {
    hide First, Popped, Added, Drops;
    if Receive(s, s') {
      assert s.channel == [s.channel[0]] + s'.channel;
    } else {
      assert s.taken + s.channel <= s'.taken + s'.channel;
    }
  }

  /** The run of handler steps from s to t. */
  ghost predicate Handles(run: seq<State>, s: State, t: State) {
    |run| > 0 && run[0] == s && run[|run| - 1] == t && forall i :: 0 <= i < |run| - 1 ==> HandlerStep(run[i], run[i + 1])
  }

  /** If a token is pending for the pod's template hash and every call succeeds, the pod gets the first such token. */
  lemma PendingTokenIsHandedOut(s: State, po: Pod, hash: string) returns (run: seq<State>, t: State)
    requires s.pc == Got(po) && po in s.pods && s.pods[po].templateHash == Some(hash) && First(s.lookup, hash).Some?
    ensures Handles(run, s, t) && t.pc == Idle && t.channel == s.channel
    ensures var node := First(s.lookup, hash);
            && t.pods == s.pods[po := PodLabels(Some(hash), true, node)]
            && t.finished == s.finished + [Finish(po, Assigned(node.value))]
            && t.uses == s.uses + [Handed(Token(hash, node.value), po)] && t.lookup == Popped(s.lookup, hash)
  {
    var seen, node := s.pods[po], First(s.lookup, hash).value;
    hide First, Popped;
    var s1 := s.(pc := Fetched(po, seen));
    var s2 := s.(pc := Peeking(po, hash, seen));
    var s3 := s.(pc := Updating(po, hash, node, seen));
    var s4 := s.(pc := Popping(po, hash, node), pods := s.pods[po := seen.(preprocessed := true, expectedNode := Some(node))]);
    t := s4.(pc := Idle, lookup := Popped(s.lookup, hash), finished := s.finished + [Finish(po, Assigned(node))],
             uses := s.uses + [Handed(Token(hash, node), po)]);
    run := [s, s1, s2, s3, s4, t];
    NonEmptyTable(s.lookup, hash);
    assert GetPod(s, s1) && CheckEmpty(s1, s2) && Peek(s2, s3) && Update(s3, s4) && Pop(s4, t);
  }

  lemma NonEmptyTable(lookup: Lookup, hash: string)
    requires First(lookup, hash).Some?
    ensures lookup != map[]
  {
  }

  /** If the table is empty and every call succeeds, the pod is marked. */
  lemma EmptyTableMarks(s: State, po: Pod) returns (run: seq<State>, t: State)
    requires s.pc == Got(po) && po in s.pods && s.lookup == map[]
    ensures Handles(run, s, t) && t.pc == Idle && t.channel == s.channel && t.lookup == map[] && t.uses == s.uses
    ensures t.pods == s.pods[po := PodLabels(s.pods[po].templateHash, true, s.pods[po].expectedNode)]
    ensures t.finished == s.finished + [Finish(po, Marked)]
  {
    var s1 := s.(pc := Fetched(po, s.pods[po]));
    var s2 := s.(pc := Patching(po));
    t := s.(pc := Idle, finished := s.finished + [Finish(po, Marked)], pods := s.pods[po := s.pods[po].(preprocessed := true)]);
    run := [s, s1, s2, t];
    assert GetPod(s, s1) && CheckEmpty(s1, s2) && Patch(s2, t);
  }

  /** The handler never gets stuck: only an idle one with nothing in the channel waits. */
  lemma HandlerNeverStuck(s: State) returns (s': State)
    requires !s.pc.Idle? || s.channel != []
    ensures HandlerStep(s, s')
  {
    hide First, Popped;
    match s.pc {
      case Idle => s' := s.(pc := Got(s.channel[0]), channel := s.channel[1..], taken := s.taken + [s.channel[0]]);
      case Got(po) => s' := s.(pc := Idle, finished := s.finished + [Finish(po, Vanished)]);
      case Fetched(po, seen) =>
        s' := s.(pc := if s.lookup == map[] then Patching(po)
                       else if seen.templateHash.Some? then Peeking(po, seen.templateHash.value, seen) else Listing(po));
      case Patching(po) => s' := s.(pc := Idle, finished := s.finished + [Finish(po, MarkFailed)]);
      case Peeking(po, key, seen) =>
        var first := First(s.lookup, key);
        s' := s.(pc := if first.Some? then Updating(po, key, first.value, seen) else Listing(po));
      case Updating(po, _, _, _) => s' := s.(pc := Listing(po));
      case Popping(po, key, node) =>
        var first := First(s.lookup, key);
        s' := s.(pc := Idle, lookup := Popped(s.lookup, key), finished := s.finished + [Finish(po, Assigned(node))],
                 uses := if first.Some? then s.uses + [Handed(Token(key, first.value), po)] else s.uses);
      case Listing(po) =>
        var keys := Listed(s.lookup.Keys);
        s' := s.(pc := Cleaning(po, keys));
        assert ListKeys(s, s');
      case Cleaning(po, keys) => s' := s.(pc := if keys == [] then Requeueing(po) else Cleaning(po, keys[1..]));
      case Requeueing(po) => s' := s.(pc := Idle, channel := s.channel + [po]);
    }
  }

  lemma {:induction false} Listed(keys: set<string>) returns (list: seq<string>)
    ensures forall k :: k in list <==> k in keys
    decreases |keys|
  {
    list := [];
    if keys != {} {
      var key :| key in keys;
      var rest := Listed(keys - {key});
      list := [key] + rest;
    }
  }
}
