/** The reporter: the largest MIG slice type that some profile could still offer on the node. */
module MigReporter {
  import opened Common
  import opened Text
  import opened MigLayout

  // ---------------------------------------------------------------- sort.Strings

  predicate StringLe(a: string, b: string) {
    a == "" || (b != "" && (a[0] < b[0] || (a[0] == b[0] && StringLe(a[1..], b[1..]))))
  }

  lemma StringLeTotal(a: string, b: string)
    ensures StringLe(a, b) || StringLe(b, a)
  {
  }

  lemma {:induction false} StringLeTransitive(a: string, b: string, c: string)
    requires StringLe(a, b) && StringLe(b, c)
    ensures StringLe(a, c)
  {
    if a != "" && a[0] == b[0] == c[0] {
      StringLeTransitive(a[1..], b[1..], c[1..]);
    }
  }

  /** At position i the strings differ for the first time, and a has the smaller character there. */
  predicate DropsBelowAt(a: string, b: string, i: nat) {
    i < |a| && i < |b| && a[..i] == b[..i] && a[i] < b[i]
  }

  lemma DropsBelowLater(a: string, b: string, i: nat)
    requires a != "" && b != "" && a[0] == b[0]
    ensures DropsBelowAt(a, b, i + 1) <==> DropsBelowAt(a[1..], b[1..], i)
    ensures !DropsBelowAt(a, b, 0)
  {
    if i < |a| - 1 && i < |b| - 1 {
      assert a[..i + 1] == [a[0]] + a[1..][..i] && b[..i + 1] == [b[0]] + b[1..][..i];
    }
  }

  lemma DropsBelowFirst(a: string, b: string, i: nat)
    requires a != "" && b != "" && a[0] != b[0]
    ensures DropsBelowAt(a, b, i) <==> i == 0 && a[0] < b[0]
  {
    if 0 < i < |a| && i < |b| {
      assert a[..i][0] == a[0] && b[..i][0] == b[0];
    }
  }

  /** The order of sort.Strings: a prefix comes first, otherwise the first difference decides. */
  lemma {:induction false} StringLeIsLexicographic(a: string, b: string)
    ensures StringLe(a, b) <==> a <= b || exists i: nat :: DropsBelowAt(a, b, i)
    ensures StringLe(a, b) && StringLe(b, a) ==> a == b
  {
    hide DropsBelowAt;
    if a == "" || b == "" {
      NoDrop(a, b);
    } else if a[0] == b[0] {
      StringLeIsLexicographic(a[1..], b[1..]);
      assert a == [a[0]] + a[1..] && b == [b[0]] + b[1..];
      if i: nat :| DropsBelowAt(a, b, i) {
        DropsBelowLater(a, b, if i > 0 then i - 1 else 0);
      }
      if i: nat :| DropsBelowAt(a[1..], b[1..], i) {
        DropsBelowLater(a, b, i);
      }
    } else {
      forall i: nat ensures DropsBelowAt(a, b, i) <==> i == 0 && a[0] < b[0] {
        DropsBelowFirst(a, b, i);
      }
      assert DropsBelowAt(a, b, 0) <==> a[0] < b[0];
      assert !(a <= b);
    }
  }

  lemma NoDrop(a: string, b: string)
    requires a == "" || b == ""
    ensures forall i: nat :: !DropsBelowAt(a, b, i)
  {
  }

  predicate Ordered(xs: seq<string>) {
    forall i, j :: 0 <= i < j < |xs| ==> StringLe(xs[i], xs[j])
  }

  function Insert(x: string, xs: seq<string>): (r: seq<string>)
    requires Ordered(xs)
    ensures Ordered(r) && multiset(r) == multiset(xs) + multiset{x}
    ensures forall y :: y in r <==> y == x || y in xs
  {
    if xs == [] || StringLe(x, xs[0]) then
      InsertFirst(x, xs);
      [x] + xs
    else
      StringLeTotal(x, xs[0]);
      assert xs == [xs[0]] + xs[1..];
      var rest := Insert(x, xs[1..]);
      InsertLater(x, xs, rest);
      [xs[0]] + rest
  }

  lemma InsertFirst(x: string, xs: seq<string>)
    requires Ordered(xs) && (xs == [] || StringLe(x, xs[0]))
    ensures Ordered([x] + xs)
  {
    forall j | 0 <= j < |xs| ensures StringLe(x, xs[j]) {
      if j > 0 {
        StringLeTransitive(x, xs[0], xs[j]);
      }
    }
  }

  lemma InsertLater(x: string, xs: seq<string>, rest: seq<string>)
    requires Ordered(xs) && xs != [] && StringLe(xs[0], x) && Ordered(rest)
    requires forall y :: y in rest <==> y == x || y in xs[1..]
    ensures Ordered([xs[0]] + rest)
  {
    forall j | 0 <= j < |rest| ensures StringLe(xs[0], rest[j]) {
      assert rest[j] in rest;
    }
  }

  function Sorted(xs: seq<string>): (r: seq<string>)
    ensures Ordered(r) && multiset(r) == multiset(xs) && |r| == |xs|
    ensures forall y :: y in r <==> y in xs
  {
    if xs == [] then [] else
      assert xs == [xs[0]] + xs[1..];
      Insert(xs[0], Sorted(xs[1..]))
  }

  // ---------------------------------------------------------------- one call

  type Resources = map<string, int>

  /** Slices in use, counted up from nothing: a type that is present is used at least once. */
  type Positive = n: int | n > 0 witness 1

  type Requests = map<string, Positive>

  predicate Covers(have: Resources, requests: Requests) {
    forall t :: t in requests ==> t in have && have[t] >= requests[t]
  }

  function Subtract(have: Resources, requests: Requests): Resources {
    map t | t in have :: have[t] - Get(requests, t)
  }

  predicate IsLeft(have: Resources, requests: Requests, t: string) {
    t in have && have[t] > Get(requests, t)
  }

  /** Some of the requested slices have been taken out, in whatever order the loop came across them. */
  predicate IsPartlySubtracted(have: Resources, requests: Requests, left: Resources) {
    && left.Keys == have.Keys
    && forall t :: t in have ==>
         left[t] == have[t] || (t in requests && have[t] >= requests[t] && left[t] == have[t] - requests[t])
  }

  /** What a call promises: which slices it leaves in the profile's map, and what it answers. */
  ghost predicate Remains(have: Resources, requests: Requests, left: Resources, answer: string) {
    && IsPartlySubtracted(have, requests, left)
    && (Covers(have, requests) ==> left == Subtract(have, requests))
    && (if Covers(have, requests) && exists t :: IsLeft(have, requests, t) then
          IsLeft(have, requests, answer) && forall t :: IsLeft(have, requests, t) ==> StringLe(t, answer)
        else answer == "")
  }

  /** The first loop: the map is changed in place until a request is not covered. */
  method SubtractRequests(profileResource: Resources, requests: Requests) returns (left: Resources, covered: bool)
    ensures covered <==> Covers(profileResource, requests)
    ensures covered ==> left == Subtract(profileResource, requests)
    ensures IsPartlySubtracted(profileResource, requests, left)
  {
    left := profileResource;
    var rest := requests.Keys;
    while rest != {}
      invariant rest <= requests.Keys
      invariant left.Keys == profileResource.Keys
      invariant forall t :: t in requests && t !in rest ==> t in left && profileResource[t] >= requests[t]
      invariant forall t :: t in left && t in rest ==> left[t] == profileResource[t]
      invariant forall t :: t in left && t !in rest ==> left[t] == profileResource[t] - Get(requests, t)
      decreases |rest|
    {
      var requestMig := Pick(rest);
      rest := rest - {requestMig};
      if requestMig !in left || left[requestMig] < requests[requestMig] {
        return left, false;
      }
      left := left[requestMig := left[requestMig] - requests[requestMig]];
    }
    covered := true;
  }

  /** The second loop: the slice types left over, in any order. */
  method CollectRemaining(profileResource: Resources) returns (remainMigs: seq<string>)
    ensures forall t :: t in remainMigs <==> t in profileResource && profileResource[t] > 0
  {
    remainMigs := [];
    var rest := profileResource.Keys;
    while rest != {}
      invariant rest <= profileResource.Keys
      invariant forall t :: t in remainMigs <==> t in profileResource && t !in rest && profileResource[t] > 0
      decreases |rest|
    {
      var profileMig := Pick(rest);
      rest := rest - {profileMig};
      if profileResource[profileMig] > 0 {
        remainMigs := remainMigs + [profileMig];
      }
    }
  }

  method GetMaxMigRemain(profileResource: Resources, requests: Requests) returns (left: Resources, answer: string)
    ensures Remains(profileResource, requests, left, answer)
  {
    hide Covers, StringLe, IsPartlySubtracted;
    var covered;
    left, covered := SubtractRequests(profileResource, requests);
    if !covered {
      return left, "";
    }
    var remainMigs := CollectRemaining(left);
    assert forall t :: t in remainMigs <==> IsLeft(profileResource, requests, t);
    remainMigs := Sorted(remainMigs);
    if |remainMigs| == 0 {
      assert forall t :: IsLeft(profileResource, requests, t) ==> t in remainMigs;
      return left, "";
    }
    LastIsGreatest(remainMigs);
    answer := remainMigs[|remainMigs| - 1];
    assert answer in remainMigs;
  }

  lemma LastIsGreatest(xs: seq<string>)
    requires Ordered(xs) && |xs| > 0
    ensures forall t :: t in xs ==> StringLe(t, xs[|xs| - 1])
  {
    StringLeReflexive(xs[|xs| - 1]);
  }

  lemma {:induction false} StringLeReflexive(a: string)
    ensures StringLe(a, a)
  {
    if a != "" {
      StringLeReflexive(a[1..]);
    }
  }

  /** Some outcome is always possible. */
  lemma SomeRemains(have: Resources, requests: Requests) returns (left: Resources, answer: string)
    ensures Remains(have, requests, left, answer)
  {
    left, answer := if Covers(have, requests) then Subtract(have, requests) else have, "";
    var types := set t | t in have && IsLeft(have, requests, t);
    if Covers(have, requests) && types != {} {
      answer := Greatest(types);
    } else {
      assert forall t :: IsLeft(have, requests, t) ==> t in types;
    }
  }

  lemma {:induction false} Greatest(names: set<string>) returns (greatest: string)
    requires names != {}
    ensures greatest in names && forall t :: t in names ==> StringLe(t, greatest)
    decreases |names|
  {
    greatest :| greatest in names;
    StringLeReflexive(greatest);
    var others := names - {greatest};
    if others != {} {
      var best := Greatest(others);
      StringLeTotal(best, greatest);
      if StringLe(greatest, best) {
        greatest := best;
      } else {
        forall t | t in others ensures StringLe(t, greatest) {
          StringLeTransitive(t, best, greatest);
        }
      }
    }
  }

  // ---------------------------------------------------------------- the groups of a profile

  function Supplied(group: MigConfig): Resources {
    map t | t in group.migDevices :: group.migDevices[t] * |group.devices|
  }

  /** Enters a group's slice counts in the profile's map. */
  method FillIn(have: Resources, group: MigConfig) returns (profileResource: Resources)
    ensures profileResource == have + Supplied(group)
  {
    profileResource := have;
    var rest := group.migDevices.Keys;
    NothingFilled(have, group);
    while rest != {}
      invariant rest <= group.migDevices.Keys
      invariant profileResource == Filled(have, group, rest)
      decreases |rest|
    {
      hide *;
      var migType := Pick(rest);
      FilledStep(have, group, rest, migType);
      rest := rest - {migType};
      profileResource := profileResource[migType := group.migDevices[migType] * |group.devices|];
    }
    AllFilled(have, group);
  }

  function Filled(have: Resources, group: MigConfig, rest: set<string>): Resources {
    have + (Supplied(group) - rest)
  }

  lemma NothingFilled(have: Resources, group: MigConfig)
    ensures Filled(have, group, group.migDevices.Keys) == have
  {
    assert Supplied(group) - group.migDevices.Keys == map[];
  }

  lemma FilledStep(have: Resources, group: MigConfig, rest: set<string>, migType: string)
    requires migType in rest && rest <= group.migDevices.Keys
    ensures Filled(have, group, rest - {migType})
            == Filled(have, group, rest)[migType := group.migDevices[migType] * |group.devices|]
  {
    var supplied := Supplied(group);
    assert supplied - (rest - {migType}) == (supplied - rest)[migType := supplied[migType]];
  }

  lemma AllFilled(have: Resources, group: MigConfig)
    ensures Filled(have, group, {}) == have + Supplied(group)
  {
    assert Supplied(group) - {} == Supplied(group);
  }

  /** What one group's call leaves in the map, and its answer. */
  datatype Pass = Pass(left: Resources, answer: string)

  /** The map before group g. */
  function Before(passes: seq<Pass>, g: nat): Resources
    requires g <= |passes|
  {
    if g == 0 then map[] else passes[g - 1].left
  }

  ghost predicate IsPass(have: Resources, group: MigConfig, requests: Requests, pass: Pass) {
    if group.migEnabled then Remains(have + Supplied(group), requests, pass.left, pass.answer)
    else pass == Pass(have, "")
  }

  /** The groups of a profile share one map. */
  ghost predicate Passes(groups: seq<MigConfig>, requests: Requests, passes: seq<Pass>) {
    |passes| == |groups| && forall g :: 0 <= g < |groups| ==> IsPass(Before(passes, g), groups[g], requests, passes[g])
  }

  lemma PassesStep(groups: seq<MigConfig>, requests: Requests, passes: seq<Pass>, g: nat, pass: Pass)
    requires g < |groups| && Passes(groups[..g], requests, passes) && IsPass(Before(passes, g), groups[g], requests, pass)
    ensures Passes(groups[..g + 1], requests, passes + [pass])
  {
    hide IsPass;
    var more := passes + [pass];
    forall h | 0 <= h < g + 1 ensures IsPass(Before(more, h), groups[..g + 1][h], requests, more[h]) {
      assert Before(more, h) == Before(passes, h);
      if h < g {
        assert groups[..g][h] == groups[h];
      }
    }
  }

  lemma {:induction false} SomePasses(groups: seq<MigConfig>, requests: Requests, g: nat) returns (passes: seq<Pass>)
    requires g <= |groups|
    ensures Passes(groups[..g], requests, passes)
  {
    passes := [];
    if g > 0 {
      passes := SomePasses(groups, requests, g - 1);
      var have := Before(passes, g - 1);
      var pass := Pass(have, "");
      if groups[g - 1].migEnabled {
        var left, answer := SomeRemains(have + Supplied(groups[g - 1]), requests);
        pass := Pass(left, answer);
      }
      PassesStep(groups, requests, passes, g - 1, pass);
      passes := passes + [pass];
    }
  }

  // ---------------------------------------------------------------- the running maximum

  /** The number a slice type's name begins with, 0 if it begins with no digit. */
  function LeadingDigit(name: string): int
    requires name != ""
  {
    var parsed := Atoi([name[0]]);
    if parsed.Some? then parsed.value else 0
  }

  function IsLarger(large: string, small: string): bool {
    if large == "" then false
    else if small == "" then true
    else LeadingDigit(large) > LeadingDigit(small)
  }

  lemma NotLargerTransitive(a: string, b: string, c: string)
    requires !IsLarger(a, b) && (b == c || IsLarger(c, b))
    ensures !IsLarger(a, c)
  {
  }

  ghost predicate NoneLarger(passes: seq<Pass>, best: string) {
    forall g :: 0 <= g < |passes| ==> !IsLarger(passes[g].answer, best)
  }

  ghost predicate Attains(passes: seq<Pass>, best: string) {
    exists g :: 0 <= g < |passes| && passes[g].answer == best
  }

  /** `best` is a largest answer among the passes seen so far, or empty. */
  ghost predicate IsRunningMaximum(traces: map<string, seq<Pass>>, current: seq<Pass>, best: string) {
    && NoneLarger(current, best) && (forall p :: p in traces ==> NoneLarger(traces[p], best))
    && (best == "" || Attains(current, best) || exists p :: p in traces && Attains(traces[p], best))
  }

  lemma MaximumStep(traces: map<string, seq<Pass>>, current: seq<Pass>, best: string, pass: Pass, best': string)
    requires IsRunningMaximum(traces, current, best)
    requires best' == if IsLarger(pass.answer, best) then pass.answer else best
    ensures IsRunningMaximum(traces, current + [pass], best')
  {
    hide IsLarger;
    var more := current + [pass];
    forall a: string | !IsLarger(a, best) ensures !IsLarger(a, best') {
      NotLargerTransitive(a, best, best');
    }
    assert !IsLarger(pass.answer, best') by {
      NeverLargerThanItself(pass.answer);
    }
    assert forall g :: 0 <= g < |current| ==> more[g] == current[g];
    assert more[|current|] == pass;
    if best' == best && Attains(current, best) {
      var g :| 0 <= g < |current| && current[g].answer == best;
      assert more[g].answer == best;
    }
  }

  lemma NeverLargerThanItself(a: string)
    ensures !IsLarger(a, a)
  {
  }

  /** The profiles in `names` have been run through. */
  ghost predicate AllPasses(cfgs: MigConfigs, names: set<string>, requests: Requests, traces: map<string, seq<Pass>>) {
    traces.Keys == names && forall p :: p in names ==> p in cfgs && Passes(cfgs[p], requests, traces[p])
  }

  lemma MoreProfiles(cfgs: MigConfigs, names: set<string>, requests: Requests, traces: map<string, seq<Pass>>, p: string,
                     passes: seq<Pass>)
    requires AllPasses(cfgs, names, requests, traces) && p in cfgs && p !in names && Passes(cfgs[p], requests, passes)
    ensures AllPasses(cfgs, names + {p}, requests, traces[p := passes])
  {
    hide Passes;
  }

  lemma ProfileDone(cfgs: MigConfigs, names: set<string>, requests: Requests, traces: map<string, seq<Pass>>, p: string,
                    passes: seq<Pass>, best: string)
    requires AllPasses(cfgs, names, requests, traces) && p in cfgs && p !in names && Passes(cfgs[p], requests, passes)
    requires IsRunningMaximum(traces, passes, best)
    ensures AllPasses(cfgs, names + {p}, requests, traces[p := passes])
    ensures IsRunningMaximum(traces[p := passes], [], best)
  {
    MoreProfiles(cfgs, names, requests, traces, p, passes);
    assert NoneLarger([], best) && p !in traces;
    hide Passes, NoneLarger, Attains, AllPasses;
    var all := traces[p := passes];
    assert all[p] == passes;
    if q :| q in traces && Attains(traces[q], best) {
      assert all[q] == traces[q];
    }
  }

  /** The reported slice type, for some order in which the maps are visited. */
  ghost predicate Reports(cfgs: MigConfigs, requests: Requests, best: string) {
    exists traces :: AllPasses(cfgs, cfgs.Keys, requests, traces) && IsRunningMaximum(traces, [], best)
  }

  /** The loop over the groups of one profile, which raises the running maximum. */
  method UpdateForProfile(migConfig: seq<MigConfig>, requests: Requests, best: string, ghost traces: map<string, seq<Pass>>)
    returns (maxMigRemain: string, ghost passes: seq<Pass>)
    requires IsRunningMaximum(traces, [], best)
    ensures Passes(migConfig, requests, passes) && IsRunningMaximum(traces, passes, maxMigRemain)
  {
    maxMigRemain, passes := best, [];
    var profileResource: Resources := map[];
    for g := 0 to |migConfig|
      invariant Passes(migConfig[..g], requests, passes) && profileResource == Before(passes, g)
      invariant IsRunningMaximum(traces, passes, maxMigRemain)
    {
      hide IsRunningMaximum, Remains, IsLarger;
      var deviceConfig := migConfig[g];
      ghost var pass, before := Pass(profileResource, ""), maxMigRemain;
      if deviceConfig.migEnabled {
        profileResource := FillIn(profileResource, deviceConfig);
        var maxMigRemainOfProfile;
        profileResource, maxMigRemainOfProfile := GetMaxMigRemain(profileResource, requests);
        pass := Pass(profileResource, maxMigRemainOfProfile);
        if IsLarger(maxMigRemainOfProfile, maxMigRemain) {
          maxMigRemain := maxMigRemainOfProfile;
        }
      } else {
        NothingIsNotLarger(maxMigRemain);
      }
      assert IsPass(Before(passes, g), deviceConfig, requests, pass);
      hide *;
      MaximumStep(traces, passes, before, pass, maxMigRemain);
      PassesStep(migConfig, requests, passes, g, pass);
      assert Before(passes + [pass], g + 1) == pass.left by {
        LastBefore(passes, pass);
      }
      passes := passes + [pass];
    }
    assert migConfig[..|migConfig|] == migConfig;
  }

  lemma NothingIsNotLarger(best: string)
    ensures !IsLarger("", best)
  {
  }

  lemma LastBefore(passes: seq<Pass>, pass: Pass)
    ensures Before(passes + [pass], |passes| + 1) == pass.left
  {
  }

  method UpdateNodeMaxMigLabel(cfgs: MigConfigs, requests: Requests) returns (maxMigRemain: string)
    ensures Reports(cfgs, requests, maxMigRemain)
  {
    maxMigRemain := "";
    ghost var traces: map<string, seq<Pass>> := map[];
    var rest := cfgs.Keys;
    NothingReported(cfgs, requests, traces);
    hide *;
    while rest != {}
      invariant rest <= cfgs.Keys
      invariant AllPasses(cfgs, cfgs.Keys - rest, requests, traces)
      invariant IsRunningMaximum(traces, [], maxMigRemain)
      decreases |rest|
    {
      var profileName := Pick(rest);
      ghost var visited := cfgs.Keys - rest;
      ghost var passes;
      maxMigRemain, passes := UpdateForProfile(cfgs[profileName], requests, maxMigRemain, traces);
      ProfileDone(cfgs, visited, requests, traces, profileName, passes, maxMigRemain);
      traces := traces[profileName := passes];
      rest := rest - {profileName};
      assert visited + {profileName} == cfgs.Keys - rest;
    }
    assert cfgs.Keys - rest == cfgs.Keys;
    EverythingReported(cfgs, requests, traces, maxMigRemain);
  }

  lemma NothingReported(cfgs: MigConfigs, requests: Requests, traces: map<string, seq<Pass>>)
    requires traces == map[]
    ensures AllPasses(cfgs, cfgs.Keys - cfgs.Keys, requests, traces) && IsRunningMaximum(traces, [], "")
  {
  }

  lemma EverythingReported(cfgs: MigConfigs, requests: Requests, traces: map<string, seq<Pass>>, best: string)
    requires AllPasses(cfgs, cfgs.Keys, requests, traces) && IsRunningMaximum(traces, [], best)
    ensures Reports(cfgs, requests, best)
  {
  }

  // ---------------------------------------------------------------- what the report means

  /** What a group adds to the profile: a disabled group adds nothing. */
  function Share(group: MigConfig, t: string): int {
    if group.migEnabled then Get(Supplied(group), t) else 0
  }

  /** Slices of one type over all enabled groups of a profile. */
  function Total(groups: seq<MigConfig>, t: string): int {
    if groups == [] then 0 else Total(groups[..|groups| - 1], t) + Share(groups[|groups| - 1], t)
  }

  /** The most slices of one type that a single enabled group has. */
  function Peak(groups: seq<MigConfig>, t: string): nat {
    if groups == [] then 0 else
      var before, share := Peak(groups[..|groups| - 1], t), Share(groups[|groups| - 1], t);
      if share > before then share else before
  }

  /** The profile could serve all slices in use and one more of type t. */
  ghost predicate CouldOffer(groups: seq<MigConfig>, requests: Requests, t: string) {
    (forall u :: u in requests ==> Total(groups, u) >= requests[u]) && Total(groups, t) > Get(requests, t)
  }

  ghost predicate AnyOffers(cfgs: MigConfigs, requests: Requests, t: string) {
    exists p :: p in cfgs && CouldOffer(cfgs[p], requests, t)
  }

  predicate IsNonNegative(groups: seq<MigConfig>) {
    forall g :: 0 <= g < |groups| ==> forall t :: t in groups[g].migDevices ==> groups[g].migDevices[t] >= 0
  }

  predicate IsDigitLed(groups: seq<MigConfig>) {
    forall g :: 0 <= g < |groups| ==> forall t :: t in groups[g].migDevices ==> BeginsWithDigit(t)
  }

  /** An enabled group that has a slice of some type. */
  ghost predicate Supplies(group: MigConfig) {
    exists t :: Share(group, t) > 0
  }

  ghost predicate AtMostOneSupplier(groups: seq<MigConfig>) {
    forall g, h :: 0 <= g < h < |groups| ==> !(Supplies(groups[g]) && Supplies(groups[h]))
  }

  lemma ShareNonNegative(groups: seq<MigConfig>, g: nat, t: string)
    requires g < |groups| && IsNonNegative(groups)
    ensures Share(groups[g], t) >= 0
  {
  }

  lemma SumStep(groups: seq<MigConfig>, g: nat, t: string)
    requires g < |groups|
    ensures Total(groups[..g + 1], t) == Total(groups[..g], t) + Share(groups[g], t)
    ensures Peak(groups[..g + 1], t) == if Share(groups[g], t) > Peak(groups[..g], t) then Share(groups[g], t) else Peak(groups[..g], t)
  {
    assert groups[..g + 1][..g] == groups[..g];
  }

  /** Totals and peaks grow with the groups, and the peak is the share of some group. */
  lemma {:induction false} PeakIsShare(groups: seq<MigConfig>, n: nat, t: string)
    requires n <= |groups| && IsNonNegative(groups)
    ensures 0 <= Peak(groups[..n], t) <= Total(groups[..n], t)
    ensures forall g :: 0 <= g < n ==> Share(groups[g], t) <= Peak(groups[..n], t)
    ensures Peak(groups[..n], t) > 0 ==> exists g :: 0 <= g < n && Share(groups[g], t) == Peak(groups[..n], t)
  {
    hide Share, IsNonNegative;
    if n > 0 {
      PeakIsShare(groups, n - 1, t);
      SumStep(groups, n - 1, t);
      ShareNonNegative(groups, n - 1, t);
    }
  }

  lemma {:induction false} PeakGrows(groups: seq<MigConfig>, m: nat, n: nat, t: string)
    requires m <= n <= |groups|
    ensures Peak(groups[..m], t) <= Peak(groups[..n], t)
    decreases n - m
  {
    hide Share, Peak;
    if m < n {
      PeakGrows(groups, m, n - 1, t);
      SumStep(groups, n - 1, t);
    }
  }

  /** Two groups' shares are both in the total. */
  lemma {:induction false} TotalHoldsBoth(groups: seq<MigConfig>, n: nat, a: nat, b: nat, t: string)
    requires a < b < n <= |groups| && IsNonNegative(groups)
    ensures Share(groups[a], t) + Share(groups[b], t) <= Total(groups[..n], t)
  {
    hide Share, IsNonNegative;
    SumStep(groups, n - 1, t);
    ShareNonNegative(groups, n - 1, t);
    PeakIsShare(groups, n - 1, t);
    if b < n - 1 {
      TotalHoldsBoth(groups, n - 1, a, b, t);
    }
  }

  lemma EnabledShare(group: MigConfig, have: Resources, t: string)
    requires group.migEnabled && t in have + Supplied(group)
    ensures (have + Supplied(group))[t] == if t in Supplied(group) then Share(group, t) else have[t]
    ensures t !in Supplied(group) ==> Share(group, t) == 0
  {
  }

  lemma PassAt(groups: seq<MigConfig>, requests: Requests, passes: seq<Pass>, g: nat)
    requires Passes(groups, requests, passes) && g < |groups|
    ensures |passes| == |groups| && IsPass(Before(passes, g), groups[g], requests, passes[g])
  {
  }

  /** A call leaves no more of any type than the group's share, or than there was if the group does not set it. */
  lemma PassShrinks(have: Resources, group: MigConfig, requests: Requests, pass: Pass, t: string)
    requires IsPass(have, group, requests, pass) && t in pass.left
    ensures (group.migEnabled && t in Supplied(group) && pass.left[t] <= Share(group, t))
         || (t in have && pass.left[t] <= have[t])
  {
    hide Covers, IsLeft, Subtract, StringLe;
    if group.migEnabled {
      EnabledShare(group, have, t);
    }
  }

  /** The shared map never holds more of a type than one group had. */
  lemma {:induction false} MapWithinPeak(groups: seq<MigConfig>, requests: Requests, passes: seq<Pass>, g: nat, t: string)
    requires Passes(groups, requests, passes) && g <= |groups| == |passes|
    requires t in Before(passes, g)
    ensures Before(passes, g)[t] <= Peak(groups[..g], t)
  {
    hide Passes, IsPass, Share, Peak, Supplied;
    if g > 0 {
      PassAt(groups, requests, passes, g - 1);
      PassShrinks(Before(passes, g - 1), groups[g - 1], requests, passes[g - 1], t);
      SumStep(groups, g - 1, t);
      if t in Before(passes, g - 1) {
        MapWithinPeak(groups, requests, passes, g - 1, t);
      }
    }
  }

  /** The map that group g's call works on is within the peaks as well. */
  lemma FilledWithinPeak(groups: seq<MigConfig>, requests: Requests, passes: seq<Pass>, g: nat, t: string)
    requires Passes(groups, requests, passes) && g < |groups| == |passes| && groups[g].migEnabled
    requires t in Before(passes, g) + Supplied(groups[g])
    ensures (Before(passes, g) + Supplied(groups[g]))[t] <= Peak(groups, t)
  {
    hide Passes, IsPass, Share, Before, Peak;
    var have, group := Before(passes, g), groups[g];
    EnabledShare(group, have, t);
    SumStep(groups, g, t);
    if t in have {
      MapWithinPeak(groups, requests, passes, g, t);
    }
    PeakGrows(groups, g, |groups|, t);
    PeakGrows(groups, g + 1, |groups|, t);
    assert groups[..|groups|] == groups;
  }

  /** Every answer for a profile could be offered by it, however many groups it has. */
  lemma AnswerIsOffered(groups: seq<MigConfig>, requests: Requests, passes: seq<Pass>, g: nat)
    requires IsNonNegative(groups) && Passes(groups, requests, passes) && g < |groups| && passes[g].answer != ""
    ensures CouldOffer(groups, requests, passes[g].answer)
  {
    var have, answer := Before(passes, g) + Supplied(groups[g]), passes[g].answer;
    assert IsPass(Before(passes, g), groups[g], requests, passes[g]);
    assert groups[g].migEnabled && Covers(have, requests) && IsLeft(have, requests, answer);
    hide IsPass, Passes, IsNonNegative;
    assert groups[..|groups|] == groups;
    forall u | u in requests ensures Total(groups, u) >= requests[u] {
      FilledWithinPeak(groups, requests, passes, g, u);
      PeakIsShare(groups, |groups|, u);
    }
    FilledWithinPeak(groups, requests, passes, g, answer);
    PeakIsShare(groups, |groups|, answer);
  }

  predicate BeginsWithDigit(name: string) {
    name != "" && '0' <= name[0] <= '9'
  }

  lemma FirstLeads(a: string, b: string)
    requires StringLe(a, b) && a != "" && b != ""
    ensures a[0] <= b[0]
  {
  }

  /** Names that begin with a digit are compared by it. */
  lemma LargerBeginsHigher(large: string, small: string)
    requires BeginsWithDigit(large) && BeginsWithDigit(small)
    ensures IsLarger(large, small) <==> large[0] > small[0]
  {
    ParseOfOneCharacter(large[0]);
    ParseOfOneCharacter(small[0]);
  }

  /** If only group g supplies anything, every total is its share. */
  lemma {:induction false} OnlySupplier(groups: seq<MigConfig>, n: nat, g: nat, t: string)
    requires n <= |groups| && forall h :: 0 <= h < n && h != g ==> Share(groups[h], t) == 0
    ensures Total(groups[..n], t) == if g < n then Share(groups[g], t) else 0
    ensures g >= n ==> Peak(groups[..n], t) == 0
  {
    hide Share;
    if n > 0 {
      OnlySupplier(groups, n - 1, g, t);
      SumStep(groups, n - 1, t);
    }
  }

  /** A profile that could offer something has a supplier. */
  lemma OfferHasSupplier(groups: seq<MigConfig>, requests: Requests, t: string) returns (g: nat)
    requires IsNonNegative(groups) && CouldOffer(groups, requests, t)
    ensures g < |groups| && Supplies(groups[g])
  {
    hide Share, IsNonNegative;
    assert groups[..|groups|] == groups;
    if h: nat :| h < |groups| && Share(groups[h], t) > 0 {
      g := h;
    } else {
      forall h | 0 <= h < |groups| ensures Share(groups[h], t) == 0 {
        ShareNonNegative(groups, h, t);
      }
      g := 0;
      OnlySupplier(groups, |groups|, |groups|, t);
    }
  }

  /** The supplier's call works on its own slices: the map holds nothing else. */
  lemma SupplierSeesItsOwn(groups: seq<MigConfig>, requests: Requests, passes: seq<Pass>, g: nat, t: string)
    requires IsNonNegative(groups) && AtMostOneSupplier(groups) && Passes(groups, requests, passes)
    requires g < |groups| == |passes| && Supplies(groups[g])
    ensures Total(groups, t) == Share(groups[g], t)
    ensures var have := Before(passes, g) + Supplied(groups[g]);
            && (t in have ==> have[t] <= Share(groups[g], t))
            && (Share(groups[g], t) > 0 ==> t in have && have[t] == Share(groups[g], t))
  {
    hide Passes, IsPass, IsNonNegative;
    assert groups[g].migEnabled;
    forall h | 0 <= h < |groups| && h != g ensures Share(groups[h], t) == 0 {
      ShareNonNegative(groups, h, t);
      assert !Supplies(groups[h]);
    }
    hide Share, Supplies, AtMostOneSupplier;
    assert groups[..|groups|] == groups;
    OnlySupplier(groups, |groups|, g, t);
    OnlySupplier(groups, g, g, t);
    var have := Before(passes, g);
    if t in have {
      MapWithinPeak(groups, requests, passes, g, t);
    }
    if t in have + Supplied(groups[g]) {
      EnabledShare(groups[g], have, t);
      ShareNonNegative(groups, g, t);
    } else {
      NotSupplied(groups[g], t);
    }
  }

  lemma NotSupplied(group: MigConfig, t: string)
    requires t !in Supplied(group)
    ensures Share(group, t) == 0
  {
  }

  lemma ShareIsListed(group: MigConfig, t: string)
    requires Share(group, t) > 0
    ensures group.migEnabled && t in group.migDevices && t in Supplied(group)
  {
  }

  /** The answer for the only supplier is the best slice type the profile could offer. */
  lemma SupplierAnswersBest(groups: seq<MigConfig>, requests: Requests, passes: seq<Pass>, g: nat, t: string)
    requires IsNonNegative(groups) && IsDigitLed(groups) && AtMostOneSupplier(groups)
    requires Passes(groups, requests, passes) && g < |groups| == |passes| && Supplies(groups[g])
    requires CouldOffer(groups, requests, t)
    ensures BeginsWithDigit(t) && BeginsWithDigit(passes[g].answer) && t[0] <= passes[g].answer[0]
  {
    hide Passes, Share, Supplies, Before, AtMostOneSupplier, IsNonNegative, StringLe, IsPartlySubtracted, Total;
    var group, answer := groups[g], passes[g].answer;
    var have := Before(passes, g) + Supplied(group);
    PassAt(groups, requests, passes, g);
    forall u ensures Total(groups, u) == Share(group, u)
                     && (u in have ==> have[u] <= Share(group, u))
                     && (Share(group, u) > 0 ==> u in have && have[u] == Share(group, u))
    {
      SupplierSeesItsOwn(groups, requests, passes, g, u);
    }
    assert Total(groups, t) > 0;
    ShareIsListed(group, t);
    assert forall u :: u in requests ==> Total(groups, u) > 0;
    assert Covers(have, requests) && IsLeft(have, requests, t);
    assert IsLeft(have, requests, answer) && StringLe(t, answer);
    ShareIsListed(group, answer);
    FirstLeads(t, answer);
  }

  // ---------------------------------------------------------------- a request that two suppliers fail

  /** Whatever is visited when, no group of the profile gets an answer. */
  ghost predicate IsNeverAnswered(groups: seq<MigConfig>, requests: Requests) {
    forall passes: seq<Pass> :: Passes(groups, requests, passes) ==> forall g :: 0 <= g < |passes| ==> passes[g].answer == ""
  }

  function Types(groups: seq<MigConfig>): set<string> {
    set g, t | 0 <= g < |groups| && t in groups[g].migDevices :: t
  }

  /** Every slice type requested as often as the group that has most of it could provide. */
  function PeakRequests(groups: seq<MigConfig>): Requests {
    map t | t in Types(groups) && Peak(groups, t) > 0 :: Peak(groups, t)
  }

  lemma PeakIsRequested(groups: seq<MigConfig>, t: string)
    requires IsNonNegative(groups)
    ensures Get(PeakRequests(groups), t) == Peak(groups, t) <= Total(groups, t)
  {
    hide Share, IsNonNegative;
    assert groups[..|groups|] == groups;
    PeakIsShare(groups, |groups|, t);
    if Peak(groups, t) > 0 {
      var g :| 0 <= g < |groups| && Share(groups[g], t) == Peak(groups, t);
      ShareIsListed(groups[g], t);
    }
  }

  lemma AnswerIsLeft(groups: seq<MigConfig>, requests: Requests, passes: seq<Pass>, g: nat)
    requires Passes(groups, requests, passes) && g < |groups| == |passes| && passes[g].answer != ""
    ensures groups[g].migEnabled
    ensures var have := Before(passes, g) + Supplied(groups[g]);
            Covers(have, requests) && IsLeft(have, requests, passes[g].answer)
  {
    PassAt(groups, requests, passes, g);
  }

  /** A slice type that two groups have is missed when every type is requested up to its peak. */
  lemma SharedTypeIsMissed(groups: seq<MigConfig>, a: nat, b: nat, t: string)
    requires IsNonNegative(groups) && a < b < |groups| && Share(groups[a], t) > 0 && Share(groups[b], t) > 0
    ensures CouldOffer(groups, PeakRequests(groups), t) && IsNeverAnswered(groups, PeakRequests(groups))
  {
    hide Share, IsNonNegative, Passes, Before;
    var requests := PeakRequests(groups);
    assert groups[..|groups|] == groups;
    forall u ensures Get(requests, u) == Peak(groups, u) <= Total(groups, u) {
      PeakIsRequested(groups, u);
    }
    PeakIsShare(groups, |groups|, t);
    assert forall u :: u in requests ==> Get(requests, u) == requests[u];
    var p :| 0 <= p < |groups| && Share(groups[p], t) == Peak(groups, t);
    var other := if p == a then b else a;
    TotalHoldsBoth(groups, |groups|, if p < other then p else other, if p < other then other else p, t);
    assert CouldOffer(groups, requests, t);
    forall passes: seq<Pass>, g: nat | Passes(groups, requests, passes) && g < |passes| ensures passes[g].answer == "" {
      PeakLeavesNothing(groups, requests, passes, g);
    }
  }

  lemma PeakLeavesNothing(groups: seq<MigConfig>, requests: Requests, passes: seq<Pass>, g: nat)
    requires IsNonNegative(groups) && requests == PeakRequests(groups)
    requires Passes(groups, requests, passes) && g < |passes|
    ensures passes[g].answer == ""
  {
    assert |passes| == |groups|;
    hide Passes, PeakRequests, Before, Peak, Share, Supplied, IsNonNegative;
    if passes[g].answer != "" {
      AnswerIsLeft(groups, requests, passes, g);
      FilledWithinPeak(groups, requests, passes, g, passes[g].answer);
      PeakIsRequested(groups, passes[g].answer);
    }
  }

  /** Everything that one group supplies. */
  function RequestsOf(group: MigConfig): Requests {
    map t | t in Supplied(group) && Share(group, t) > 0 :: Share(group, t)
  }

  lemma RequestOfShare(group: MigConfig, t: string)
    ensures Get(RequestsOf(group), t) == if Share(group, t) > 0 then Share(group, t) else 0
    ensures t in RequestsOf(group) <==> Share(group, t) > 0
  {
    if Share(group, t) > 0 {
      ShareIsListed(group, t);
    }
  }

  /** Group k is the first supplier, and no other group has a type that it has. */
  ghost predicate IsFirstAndAlone(groups: seq<MigConfig>, k: nat) {
    && k < |groups| && Supplies(groups[k])
    && (forall h, t :: 0 <= h < k ==> Share(groups[h], t) == 0)
    && (forall h, t :: k < h < |groups| && Share(groups[k], t) > 0 ==> Share(groups[h], t) == 0)
  }

  /** Before group k the map is empty of everything, after it of what was requested. */
  lemma {:induction false} NothingLeftOfFirst(groups: seq<MigConfig>, passes: seq<Pass>, k: nat, g: nat, t: string)
    requires IsFirstAndAlone(groups, k) && Passes(groups, RequestsOf(groups[k]), passes)
    requires g <= |groups| == |passes| && Share(groups[k], t) > 0
    requires t in Before(passes, g)
    ensures Before(passes, g)[t] <= 0
  {
    hide Passes, IsPass, Share, Supplied, Supplies, RequestsOf;
    if g > 0 {
      var requests := RequestsOf(groups[k]);
      PassAt(groups, requests, passes, g - 1);
      if g - 1 == k {
        FirstTakesAll(groups[k], Before(passes, k), passes[k], t);
      } else {
        PassShrinks(Before(passes, g - 1), groups[g - 1], requests, passes[g - 1], t);
        if t in Before(passes, g - 1) {
          NothingLeftOfFirst(groups, passes, k, g - 1, t);
        }
      }
    }
  }

  lemma FirstTakesAll(group: MigConfig, have: Resources, pass: Pass, t: string)
    requires IsPass(have, group, RequestsOf(group), pass) && Share(group, t) > 0 && t in pass.left
    ensures pass.left[t] <= 0
  {
    hide Share, Supplied, RequestsOf, IsLeft;
    ShareIsListed(group, t);
    var filled := have + Supplied(group);
    forall u | u in RequestsOf(group) ensures u in filled && filled[u] == RequestsOf(group)[u] {
      RequestOfShare(group, u);
      ShareIsListed(group, u);
      EnabledShare(group, have, u);
    }
    RequestOfShare(group, t);
    assert Covers(filled, RequestsOf(group));
  }

  /** When all of the first supplier's slices are in use, later suppliers' slices are missed. */
  lemma LaterSupplierIsMissed(groups: seq<MigConfig>, k: nat, m: nat, t: string)
    requires IsNonNegative(groups) && IsFirstAndAlone(groups, k) && k < m < |groups| && Share(groups[m], t) > 0
    ensures CouldOffer(groups, RequestsOf(groups[k]), t) && IsNeverAnswered(groups, RequestsOf(groups[k]))
  {
    hide Share, IsNonNegative, Passes, RequestsOf, Supplies;
    var requests := RequestsOf(groups[k]);
    assert groups[..|groups|] == groups;
    forall u ensures Get(requests, u) <= Total(groups, u) && (u in requests ==> Share(groups[k], u) > 0) {
      RequestOfShare(groups[k], u);
      PeakIsShare(groups, |groups|, u);
    }
    assert forall u :: u in requests ==> Get(requests, u) == requests[u];
    RequestOfShare(groups[k], t);
    PeakIsShare(groups, |groups|, t);
    assert CouldOffer(groups, requests, t);
    forall passes: seq<Pass>, g: nat | Passes(groups, requests, passes) && g < |passes| ensures passes[g].answer == "" {
      FirstLeavesNothing(groups, passes, k, g);
    }
  }

  lemma FirstLeavesNothing(groups: seq<MigConfig>, passes: seq<Pass>, k: nat, g: nat)
    requires IsFirstAndAlone(groups, k) && Passes(groups, RequestsOf(groups[k]), passes) && g < |passes|
    ensures passes[g].answer == ""
  {
    assert |passes| == |groups|;
    hide Passes, RequestsOf, Before, Share, Supplied;
    var requests, answer := RequestsOf(groups[k]), passes[g].answer;
    if answer != "" {
      AnswerIsLeft(groups, requests, passes, g);
      var have := Before(passes, g) + Supplied(groups[g]);
      if g == k {
        EnabledShare(groups[k], Before(passes, k), answer);
        RequestOfShare(groups[k], answer);
        if answer in Before(passes, k) {
          NothingBeforeFirst(groups, requests, passes, k, k, answer);
        }
      } else {
        var t :| Share(groups[k], t) > 0;
        RequestOfShare(groups[k], t);
        assert t in have && have[t] >= requests[t];
        EnabledShare(groups[g], Before(passes, g), t);
        if t in Before(passes, g) {
          NothingLeftOfFirst(groups, passes, k, g, t);
        }
      }
    }
  }

  lemma NothingBeforeFirst(groups: seq<MigConfig>, requests: Requests, passes: seq<Pass>, k: nat, g: nat, t: string)
    requires IsFirstAndAlone(groups, k) && Passes(groups, requests, passes) && g <= k && |passes| == |groups|
    requires t in Before(passes, g)
    ensures Before(passes, g)[t] <= 0
  {
    hide Passes, Share, Before, Supplies;
    MapWithinPeak(groups, requests, passes, g, t);
    OnlySupplier(groups, g, k, t);
  }

  /** With two suppliers there are slices in use for which the profile is never answered although it could offer more. */
  lemma TwoSuppliersFail(groups: seq<MigConfig>) returns (requests: Requests, t: string)
    requires IsNonNegative(groups) && !AtMostOneSupplier(groups)
    ensures CouldOffer(groups, requests, t) && IsNeverAnswered(groups, requests)
  {
    hide Share, IsNonNegative, CouldOffer, IsNeverAnswered;
    if a: nat, b: nat, u :| a < b < |groups| && Share(groups[a], u) > 0 && Share(groups[b], u) > 0 {
      SharedTypeIsMissed(groups, a, b, u);
      requests, t := PeakRequests(groups), u;
    } else {
      var a: nat, b: nat :| a < b < |groups| && Supplies(groups[a]) && Supplies(groups[b]);
      var k := FirstSupplier(groups, a);
      forall h, u | 0 <= h < |groups| ensures Share(groups[h], u) >= 0 {
        ShareNonNegative(groups, h, u);
      }
      assert IsFirstAndAlone(groups, k);
      t :| Share(groups[b], t) > 0;
      LaterSupplierIsMissed(groups, k, b, t);
      requests := RequestsOf(groups[k]);
    }
  }

  lemma {:induction false} FirstSupplier(groups: seq<MigConfig>, a: nat) returns (k: nat)
    requires a < |groups| && Supplies(groups[a])
    ensures k <= a && Supplies(groups[k]) && forall h :: 0 <= h < k ==> !Supplies(groups[h])
  {
    k := a;
    if h: nat :| h < a && Supplies(groups[h]) {
      k := FirstSupplier(groups, h);
    }
  }

  // ---------------------------------------------------------------- the report

  /** `answer` could be offered by some profile, and no profile could offer a type whose name begins with a greater
   *  character; it is empty when no profile could offer anything. */
  ghost predicate IsLargest(cfgs: MigConfigs, requests: Requests, answer: string) {
    && (answer != "" ==> AnyOffers(cfgs, requests, answer))
    && (forall t :: AnyOffers(cfgs, requests, t) ==> t != "" && answer != "" && t[0] <= answer[0])
  }

  lemma OnePassEach(groups: seq<MigConfig>, requests: Requests, passes: seq<Pass>)
    requires Passes(groups, requests, passes)
    ensures |passes| == |groups|
  {
  }

  /** Whatever the profiles, the reported slice type is one that some profile could still offer. */
  lemma ReportIsOffered(cfgs: MigConfigs, requests: Requests, best: string)
    requires forall p :: p in cfgs ==> IsNonNegative(cfgs[p])
    requires Reports(cfgs, requests, best) && best != ""
    ensures AnyOffers(cfgs, requests, best)
  {
    hide CouldOffer, Passes, IsNonNegative, NoneLarger;
    var traces: map<string, seq<Pass>> :| AllPasses(cfgs, cfgs.Keys, requests, traces) && IsRunningMaximum(traces, [], best);
    var p :| p in traces && Attains(traces[p], best);
    var g: nat :| g < |traces[p]| && traces[p][g].answer == best;
    OnePassEach(cfgs[p], requests, traces[p]);
    AnswerIsOffered(cfgs[p], requests, traces[p], g);
  }

  /** A type that could be offered is listed by some group, so its name begins as the groups' names do. */
  lemma OfferBeginsWithDigit(cfgs: MigConfigs, requests: Requests, t: string)
    requires forall p :: p in cfgs ==> IsNonNegative(cfgs[p]) && IsDigitLed(cfgs[p])
    requires AnyOffers(cfgs, requests, t)
    ensures BeginsWithDigit(t)
  {
    hide Share, IsNonNegative, BeginsWithDigit;
    var p :| p in cfgs && CouldOffer(cfgs[p], requests, t);
    var groups := cfgs[p];
    assert groups[..|groups|] == groups && IsDigitLed(groups) && IsNonNegative(groups);
    if g: nat :| g < |groups| && Share(groups[g], t) > 0 {
      ShareIsListed(groups[g], t);
    } else {
      forall h | 0 <= h < |groups| ensures Share(groups[h], t) == 0 {
        ShareNonNegative(groups, h, t);
      }
      OnlySupplier(groups, |groups|, |groups|, t);
    }
  }

  /** If every profile has at most one supplier, the report is the largest, in whatever order maps are visited. */
  lemma ReportIsLargest(cfgs: MigConfigs, requests: Requests, best: string)
    requires forall p :: p in cfgs ==> IsNonNegative(cfgs[p]) && IsDigitLed(cfgs[p]) && AtMostOneSupplier(cfgs[p])
    requires Reports(cfgs, requests, best)
    ensures IsLargest(cfgs, requests, best)
  {
    hide Passes, IsNonNegative, IsDigitLed, AtMostOneSupplier, LeadingDigit, CouldOffer, Supplies;
    var traces: map<string, seq<Pass>> :| AllPasses(cfgs, cfgs.Keys, requests, traces) && IsRunningMaximum(traces, [], best);
    if best != "" {
      ReportIsOffered(cfgs, requests, best);
      OfferBeginsWithDigit(cfgs, requests, best);
    }
    forall t | AnyOffers(cfgs, requests, t) ensures t != "" && best != "" && t[0] <= best[0] {
      var p :| p in cfgs && CouldOffer(cfgs[p], requests, t);
      var g := OfferHasSupplier(cfgs[p], requests, t);
      PassAt(cfgs[p], requests, traces[p], g);
      SupplierAnswersBest(cfgs[p], requests, traces[p], g, t);
      var answer := traces[p][g].answer;
      assert !IsLarger(answer, best);
      if best != "" {
        LargerBeginsHigher(answer, best);
      }
    }
  }

  /**
   * The exact condition: the report for a profile is the largest slice type it could offer, whatever is in use and in
   * whatever order maps are visited, exactly if at most one enabled group of the profile supplies anything.
   */
  lemma LargestIffOneSupplier(name: string, groups: seq<MigConfig>)
    requires IsNonNegative(groups) && IsDigitLed(groups)
    ensures AtMostOneSupplier(groups)
            <==> forall requests, best :: Reports(map[name := groups], requests, best) ==>
                   IsLargest(map[name := groups], requests, best)
  {
    var cfgs := map[name := groups];
    hide IsNonNegative, IsDigitLed, AtMostOneSupplier, Reports, IsLargest;
    if AtMostOneSupplier(groups) {
      forall requests, best | Reports(cfgs, requests, best) ensures IsLargest(cfgs, requests, best) {
        ReportIsLargest(cfgs, requests, best);
      }
    } else {
      var requests, t := TwoSuppliersFail(groups);
      NothingIsReported(name, groups, requests, t);
    }
  }

  lemma NothingIsReported(name: string, groups: seq<MigConfig>, requests: Requests, t: string)
    requires CouldOffer(groups, requests, t) && IsNeverAnswered(groups, requests)
    ensures Reports(map[name := groups], requests, "") && !IsLargest(map[name := groups], requests, "")
  {
    hide Passes, CouldOffer;
    var cfgs := map[name := groups];
    var passes := SomePasses(groups, requests, |groups|);
    assert groups[..|groups|] == groups;
    assert Passes(groups, requests, passes);
    var traces := map[name := passes];
    assert AllPasses(cfgs, cfgs.Keys, requests, traces);
    assert NoneLarger(passes, "") && IsRunningMaximum(traces, [], "");
    assert AnyOffers(cfgs, requests, t) by {
      assert CouldOffer(cfgs[name], requests, t);
    }
  }

  /** The largest answer is empty iff nothing is left in any profile, and it begins the same for every map order. */
  lemma LargestIsUnique(cfgs: MigConfigs, requests: Requests, a: string, b: string)
    requires IsLargest(cfgs, requests, a) && IsLargest(cfgs, requests, b)
    ensures a == "" <==> forall t :: !AnyOffers(cfgs, requests, t)
    ensures a == "" <==> b == ""
    ensures a != "" ==> a[0] == b[0]
  {
  }

  /** So the report does not depend on the order in which maps are visited, as far as its first character. */
  lemma ReportsAgree(cfgs: MigConfigs, requests: Requests, a: string, b: string)
    requires forall p :: p in cfgs ==> IsNonNegative(cfgs[p]) && IsDigitLed(cfgs[p]) && AtMostOneSupplier(cfgs[p])
    requires Reports(cfgs, requests, a) && Reports(cfgs, requests, b)
    ensures a == "" <==> b == ""
    ensures a != "" ==> a[0] == b[0]
  {
    hide *;
    ReportIsLargest(cfgs, requests, a);
    ReportIsLargest(cfgs, requests, b);
    LargestIsUnique(cfgs, requests, a, b);
  }
}
