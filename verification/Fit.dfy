/** The scheduler plugin's resource check for one pod on one node. */
module Fit {
  import opened Common
  import opened Text

  const MIG := "mig"
  const GPU_COUNT_LABEL := "gpu-count"
  const DEVICE_PREFIX := "kubecomp/status-gpu-"

  datatype Resource = Resource(milliCPU: int, memory: int, ephemeralStorage: int, scalar: map<string, int>)

  datatype NodeInfo = NodeInfo(name: string, labels: map<string, string>, pods: nat, allowedPodNumber: int,
                               allocatable: Resource, requested: Resource)

  /** `extended` is the library's test for extended resource names. */
  datatype Ignored = Ignored(extended: string -> bool, resources: set<string>, groups: set<string>)

  datatype Kind = Pods | CPU | Memory | EphemeralStorage | Scalar(name: string) | NoGpu | Mig

  datatype InsufficientResource = InsufficientResource(kind: Kind, requested: int, used: int, capacity: int)

  datatype Size = Size(cpu: int, memory: int)

  // ---------------------------------------------------------------- resource names and labels

  function Suffix(name: string): string {
    var parts := Split(name, '/');
    if |parts| > 1 then parts[1] else ""
  }

  predicate IsIgnored(ig: Ignored, name: string) {
    ig.extended(name) && (name in ig.resources || (ig.groups != {} && Split(name, '/')[0] in ig.groups))
  }

  predicate IsMig(name: string) {
    |Suffix(name)| >= |MIG| && Suffix(name)[..|MIG|] == MIG
  }

  /** The part after "mig-". */
  function SliceType(name: string): string {
    if |Suffix(name)| > |MIG| then Suffix(name)[|MIG| + 1..] else ""
  }

  /** "3g.20gb" has size 3 and 20; None stands for a parse error. */
  function ExtractCPUAndMemory(slice: string): Option<Size> {
    if slice == "" then None else
      var cpu := ParseInt([slice[0]]);
      if !cpu.ok || |slice| < 5 then None else
        var memory := ParseInt(slice[3..|slice| - 2]);
        if memory.ok then Some(Size(cpu.value, memory.value)) else None
  }

  /** The Go code slices the string without checking its length. */
  predicate Extractable(slice: string) {
    |slice| > 0 && (ParseInt([slice[0]]).ok ==> |slice| >= 5)
  }

  function SizeOf(slice: string): Size {
    var size := ExtractCPUAndMemory(slice);
    if size.Some? then size.value else Size(0, 0)
  }

  function MaxLabel(gpu: nat): string {
    DEVICE_PREFIX + Itoa(gpu) + "-max-" + MIG
  }

  function FreeLabel(gpu: nat, slice: string): string {
    DEVICE_PREFIX + Itoa(gpu) + "-" + slice + "-free"
  }

  function LabelText(labels: map<string, string>, key: string): string {
    if key in labels then labels[key] else ""
  }

  function TotalGPU(node: NodeInfo): int {
    ParseInt(LabelText(node.labels, GPU_COUNT_LABEL)).value
  }

  // ---------------------------------------------------------------- the check, independent of any order

  /** The scalar resources that are looked at. */
  predicate Considered(req: Resource, ig: Ignored, name: string) {
    name in req.scalar && req.scalar[name] != 0 && !IsIgnored(ig, name)
  }

  /** Names on which the Go code does not panic. */
  predicate WellNamed(req: Resource, ig: Ignored) {
    forall r :: r in req.scalar && Considered(req, ig, r) ==>
      |Suffix(r)| >= |MIG| && (IsMig(r) ==> |Suffix(r)| > |MIG| && Extractable(SliceType(r)))
  }

  function MigNames(req: Resource, ig: Ignored): set<string> {
    set r | r in req.scalar && Considered(req, ig, r) && IsMig(r)
  }

  function CpuOf(name: string): int {
    SizeOf(SliceType(name)).cpu
  }

  function MemoryOf(name: string): int {
    SizeOf(SliceType(name)).memory
  }

  /** The size asked for: one slice of every requested type, whatever its quantity. */
  ghost function Need(names: set<string>): Size {
    Size(SumOver(names, CpuOf), SumOver(names, MemoryOf))
  }

  /** The quantity asked for, by slice type. */
  ghost function Wanted(req: Resource, names: set<string>, slice: string): int {
    SumOver((set r | r in names && SliceType(r) == slice), (r: string) => Get(req.scalar, r))
  }

  predicate Covers(node: NodeInfo, need: Size, gpu: nat) {
    && MaxLabel(gpu) in node.labels
    && var size := ExtractCPUAndMemory(node.labels[MaxLabel(gpu)]);
    size.Some? && size.value.cpu >= need.cpu && size.value.memory >= need.memory
  }

  ghost predicate SomeGpuCovers(node: NodeInfo, need: Size) {
    exists gpu: nat :: gpu < TotalGPU(node) && Covers(node, need, gpu)
  }

  function Free(node: NodeInfo, gpu: nat, slice: string): int {
    ParseInt(LabelText(node.labels, FreeLabel(gpu, slice))).value
  }

  /** The GPU covers the request and has enough free slices of some requested type. */
  ghost predicate Ready(node: NodeInfo, req: Resource, names: set<string>, gpu: nat) {
    && Covers(node, Need(names), gpu)
    && exists r :: r in names && Free(node, gpu, SliceType(r)) >= Wanted(req, names, SliceType(r))
  }

  ghost predicate SomeGpuReady(node: NodeInfo, req: Resource, names: set<string>) {
    exists gpu: nat :: gpu < TotalGPU(node) && Ready(node, req, names, gpu)
  }

  predicate NothingRequested(req: Resource) {
    req.milliCPU == 0 && req.memory == 0 && req.ephemeralStorage == 0 && req.scalar == map[]
  }

  predicate Lacks(req: int, allocatable: int, requested: int) {
    req > 0 && req > allocatable - requested
  }

  predicate LacksScalar(req: Resource, node: NodeInfo, ig: Ignored, r: string) {
    && Considered(req, ig, r) && !IsMig(r)
    && req.scalar[r] > Get(node.allocatable.scalar, r) - Get(node.requested.scalar, r)
  }

  ghost predicate MigFits(req: Resource, node: NodeInfo, ig: Ignored) {
    MigNames(req, ig) != {} ==>
      GPU_COUNT_LABEL in node.labels && SomeGpuCovers(node, Need(MigNames(req, ig)))
  }

  ghost predicate Fits(req: Resource, node: NodeInfo, ig: Ignored) {
    && node.pods + 1 <= node.allowedPodNumber
    && !Lacks(req.milliCPU, node.allocatable.milliCPU, node.requested.milliCPU)
    && !Lacks(req.memory, node.allocatable.memory, node.requested.memory)
    && !Lacks(req.ephemeralStorage, node.allocatable.ephemeralStorage, node.requested.ephemeralStorage)
    && (forall r :: r in req.scalar ==> !LacksScalar(req, node, ig, r))
    && MigFits(req, node, ig)
  }

  /** The plugin records its verdict on a node only if it gets as far as looking at the GPUs. */
  predicate Records(req: Resource, node: NodeInfo, ig: Ignored) {
    MigNames(req, ig) != {} && GPU_COUNT_LABEL in node.labels && TotalGPU(node) != 0
  }

  function ScalarReason(req: Resource, node: NodeInfo, r: string): InsufficientResource {
    InsufficientResource(Scalar(r), Get(req.scalar, r), Get(node.requested.scalar, r), Get(node.allocatable.scalar, r))
  }

  /** Exactly what is reported for a pod on a node. */
  ghost predicate Reported(req: Resource, node: NodeInfo, ig: Ignored, x: InsufficientResource) {
    match x.kind
    case Pods => node.pods + 1 > node.allowedPodNumber && x == InsufficientResource(Pods, 1, node.pods, node.allowedPodNumber)
    case CPU =>
      && Lacks(req.milliCPU, node.allocatable.milliCPU, node.requested.milliCPU)
      && x == InsufficientResource(CPU, req.milliCPU, node.requested.milliCPU, node.allocatable.milliCPU)
    case Memory =>
      && Lacks(req.memory, node.allocatable.memory, node.requested.memory)
      && x == InsufficientResource(Memory, req.memory, node.requested.memory, node.allocatable.memory)
    case EphemeralStorage =>
      && Lacks(req.ephemeralStorage, node.allocatable.ephemeralStorage, node.requested.ephemeralStorage)
      && x == InsufficientResource(EphemeralStorage, req.ephemeralStorage, node.requested.ephemeralStorage,
                                   node.allocatable.ephemeralStorage)
    case Scalar(r) => LacksScalar(req, node, ig, r) && x == ScalarReason(req, node, r)
    case NoGpu => MigNames(req, ig) != {} && !Records(req, node, ig) && x == InsufficientResource(NoGpu, 0, 0, 0)
    case Mig =>
      Records(req, node, ig) && !SomeGpuCovers(node, Need(MigNames(req, ig))) && x == InsufficientResource(Mig, 0, 0, 0)
  }

  // ---------------------------------------------------------------- the loops of fitsRequest

  method ExtractSize(slice: string) returns (size: Option<Size>)
    requires Extractable(slice)
    ensures size == ExtractCPUAndMemory(slice)
  {
    var cpu := ParseInt([slice[0]]);
    if !cpu.ok {
      return None;
    }
    var memory := ParseInt(slice[3..|slice| - 2]);
    if !memory.ok {
      return None;
    }
    return Some(Size(cpu.value, memory.value));
  }

  /** The name of a slice type, such as "3g.20gb". */
  function SliceName(cpu: nat, memory: nat): string {
    Itoa(cpu) + "g." + Itoa(memory) + "gb"
  }

  /** The two sizes are read back from the name of a slice type. */
  lemma SliceNameRoundTrip(cpu: nat, memory: nat)
    requires cpu < 10 && memory <= MAX_INT64
    ensures Extractable(SliceName(cpu, memory))
    ensures ExtractCPUAndMemory(SliceName(cpu, memory)) == Some(Size(cpu, memory))
  {
    var name, text := SliceName(cpu, memory), Itoa(memory);
    AtoiOfItoa(cpu);
    AtoiOfItoa(memory);
    assert Itoa(cpu) == [DigitChar(cpu)] && |text| > 0;
    hide Itoa, ParseInt;
    assert [name[0]] == Itoa(cpu);
    assert name[3..|name| - 2] == text;
  }

  /** The first size is the leading digit of the name; a name that begins otherwise has no size. */
  lemma SizeBeginsName(slice: string)
    ensures var size := ExtractCPUAndMemory(slice);
            size.Some? ==> 0 <= size.value.cpu < 10 && slice[..1] == Itoa(size.value.cpu)
  {
    if slice != "" {
      ParseOfOneCharacter(slice[0]);
      assert slice[..1] == [slice[0]];
    }
  }

  lemma WantedOfMore(req: Resource, names: set<string>, r: string, slice: string)
    requires r !in names
    ensures Wanted(req, names + {r}, slice)
            == Wanted(req, names, slice) + if SliceType(r) == slice then Get(req.scalar, r) else 0
  {
    var before := set x | x in names && SliceType(x) == slice;
    var after := set x | x in names + {r} && SliceType(x) == slice;
    if SliceType(r) == slice {
      assert after == before + {r};
      SumInsert(before, r, x => Get(req.scalar, x));
    } else {
      assert after == before;
    }
  }

  lemma NeedOfMore(names: set<string>, r: string)
    requires r !in names
    ensures Need(names + {r}) == Size(Need(names).cpu + CpuOf(r), Need(names).memory + MemoryOf(r))
  {
    hide CpuOf, MemoryOf;
    SumInsert(names, r, CpuOf);
    SumInsert(names, r, MemoryOf);
  }

  /** The map collects exactly the wanted quantities. */
  ghost predicate Collected(req: Resource, names: set<string>, wanted: map<string, int>) {
    && (forall r :: r in names ==> SliceType(r) in wanted)
    && (forall s :: s in wanted ==> (exists r :: r in names && SliceType(r) == s) && wanted[s] == Wanted(req, names, s))
  }

  lemma CollectedMore(req: Resource, names: set<string>, r: string, wanted: map<string, int>)
    requires r in req.scalar && r !in names && Collected(req, names, wanted)
    ensures Collected(req, names + {r}, wanted[SliceType(r) := Get(wanted, SliceType(r)) + req.scalar[r]])
  {
    hide SliceType, Wanted;
    var slice := SliceType(r);
    var wanted' := wanted[slice := Get(wanted, slice) + req.scalar[r]];
    NobodyWants(req, names, wanted, slice);
    forall s | s in wanted'
      ensures (exists x :: x in names + {r} && SliceType(x) == s) && wanted'[s] == Wanted(req, names + {r}, s)
    {
      WantedOfMore(req, names, r, s);
      if s == slice {
        assert r in names + {r};
      } else {
        var x :| x in names && SliceType(x) == s;
        assert x in names + {r};
      }
    }
  }

  method CollectMig(req: Resource, ghost names: set<string>, r: string, wanted: map<string, int>, need: Size)
    returns (wanted': map<string, int>, need': Size)
    requires r in req.scalar && r !in names && Extractable(SliceType(r))
    requires Collected(req, names, wanted) && need == Need(names)
    ensures Collected(req, names + {r}, wanted') && need' == Need(names + {r})
  {
    hide Extractable, ExtractCPUAndMemory, SliceType, Collected, Need;
    var slice := SliceType(r);
    wanted' := wanted[slice := Get(wanted, slice) + req.scalar[r]];
    CollectedMore(req, names, r, wanted);
    need' := need;
    var size := ExtractSize(slice);
    if size.Some? {
      need' := Size(need.cpu + size.value.cpu, need.memory + size.value.memory);
    }
    NeedOfMore(names, r);
  }

  lemma NobodyWants(req: Resource, names: set<string>, wanted: map<string, int>, slice: string)
    requires Collected(req, names, wanted)
    ensures Get(wanted, slice) == Wanted(req, names, slice)
  {
    if slice !in wanted {
      assert (set x | x in names && SliceType(x) == slice) == {};
    }
  }

  ghost predicate ScalarsReported(req: Resource, node: NodeInfo, ig: Ignored, done: set<string>, list: seq<InsufficientResource>) {
    && NoDup(list)
    && (forall i :: 0 <= i < |list| ==>
          && list[i].kind.Scalar? && list[i].kind.name in done
          && LacksScalar(req, node, ig, list[i].kind.name) && list[i] == ScalarReason(req, node, list[i].kind.name))
    && (forall r :: r in done && LacksScalar(req, node, ig, r) ==> ScalarReason(req, node, r) in list)
  }

  lemma ReportOne(req: Resource, node: NodeInfo, ig: Ignored, done: set<string>, list: seq<InsufficientResource>, r: string)
    requires r !in done && ScalarsReported(req, node, ig, done, list)
    ensures ScalarsReported(req, node, ig, done + {r},
                            if LacksScalar(req, node, ig, r) then list + [ScalarReason(req, node, r)] else list)
  {
    hide LacksScalar;
    if LacksScalar(req, node, ig, r) {
      var more := list + [ScalarReason(req, node, r)];
      assert more[|list|] == ScalarReason(req, node, r);
      forall x | x in done + {r} && LacksScalar(req, node, ig, x) ensures ScalarReason(req, node, x) in more {
      }
    }
  }

  /** The state of the loop over the scalar resources after looking at those in `done`, in any order. */
  datatype Scan = Scan(list: seq<InsufficientResource>, useMig: bool, need: Size, wanted: map<string, int>)

  ghost predicate Scanned(req: Resource, node: NodeInfo, ig: Ignored, done: set<string>, scan: Scan) {
    var names := set r | r in MigNames(req, ig) && r in done;
    && ScalarsReported(req, node, ig, done, scan.list)
    && (scan.useMig <==> names != {})
    && scan.need == Need(names) && Collected(req, names, scan.wanted)
  }

  method CheckScalar(req: Resource, node: NodeInfo, ig: Ignored, ghost done: set<string>, scan: Scan, rName: string)
    returns (next: Scan)
    requires WellNamed(req, ig) && rName in req.scalar && rName !in done
    requires Scanned(req, node, ig, done, scan)
    ensures Scanned(req, node, ig, done + {rName}, next)
  {
    hide IsIgnored, IsMig, SliceType, Extractable, ScalarsReported, Collected, Need, ScalarReason;
    ghost var names := set r | r in MigNames(req, ig) && r in done;
    ghost var names' := set r | r in MigNames(req, ig) && r in done + {rName};
    ReportOne(req, node, ig, done, scan.list, rName);
    next := scan;
    if Considered(req, ig, rName) && IsMig(rName) {
      assert names' == names + {rName};
      var wanted, need := CollectMig(req, names, rName, scan.wanted, scan.need);
      next := Scan(scan.list, true, need, wanted);
    } else {
      assert names' == names;
      if Considered(req, ig, rName)
         && req.scalar[rName] > Get(node.allocatable.scalar, rName) - Get(node.requested.scalar, rName) {
        next := scan.(list := scan.list + [ScalarReason(req, node, rName)]);
      }
    }
  }

  method CheckScalars(req: Resource, node: NodeInfo, ig: Ignored) returns (scan: Scan)
    requires WellNamed(req, ig)
    ensures Scanned(req, node, ig, req.scalar.Keys, scan)
  {
    hide Scanned;
    scan := Scan([], false, Size(0, 0), map[]);
    var rest := req.scalar.Keys;
    NothingYet(req, node, ig);
    assert req.scalar.Keys - rest == {};
    while rest != {}
      invariant rest <= req.scalar.Keys
      invariant Scanned(req, node, ig, req.scalar.Keys - rest, scan)
      decreases |rest|
    {
      var rName := Pick(rest);
      scan := CheckScalar(req, node, ig, req.scalar.Keys - rest, scan, rName);
      assert req.scalar.Keys - (rest - {rName}) == req.scalar.Keys - rest + {rName};
      rest := rest - {rName};
    }
    assert req.scalar.Keys - rest == req.scalar.Keys;
  }

  lemma NothingYet(req: Resource, node: NodeInfo, ig: Ignored)
    ensures Scanned(req, node, ig, {}, Scan([], false, Size(0, 0), map[]))
  {
    hide LacksScalar, CpuOf, MemoryOf, Wanted;
    assert (set r | r in MigNames(req, ig) && r in {}) == {};
    assert SumOver({}, CpuOf) == 0 && SumOver({}, MemoryOf) == 0;
  }

  /** Every GPU of the node has a label the Go code can cut up. */
  predicate WellLabelled(node: NodeInfo) {
    forall gpu: nat :: gpu < TotalGPU(node) ==> MaxLabel(gpu) in node.labels && Extractable(node.labels[MaxLabel(gpu)])
  }

  method CheckGpu(node: NodeInfo, gpu: nat, need: Size, wanted: map<string, int>) returns (covers: bool, ready: bool)
    requires MaxLabel(gpu) in node.labels && Extractable(node.labels[MaxLabel(gpu)])
    ensures covers <==> Covers(node, need, gpu)
    ensures ready <==> covers && exists s :: s in wanted && Free(node, gpu, s) >= wanted[s]
  {
    covers, ready := false, false;
    var size := ExtractSize(node.labels[MaxLabel(gpu)]);
    if size.Some? && size.value.cpu >= need.cpu && size.value.memory >= need.memory {
      covers := true;
      var rest := wanted.Keys;
      while rest != {}
        invariant rest <= wanted.Keys
        invariant ready <==> exists s :: s in wanted && s !in rest && Free(node, gpu, s) >= wanted[s]
        decreases |rest|
      {
        var s := Pick(rest);
        rest := rest - {s};
        if Free(node, gpu, s) >= wanted[s] {
          ready := true;
        }
      }
    }
  }

  method CheckGpus(req: Resource, node: NodeInfo, ghost names: set<string>, need: Size, wanted: map<string, int>)
    returns (sufficientGPU: bool, toReconfig: bool)
    requires WellLabelled(node)
    requires need == Need(names) && Collected(req, names, wanted)
    ensures sufficientGPU <==> SomeGpuCovers(node, need)
    ensures toReconfig <==> !SomeGpuReady(node, req, names)
  {
    hide Covers, Ready, Free, MaxLabel, Need, Collected, Extractable, TotalGPU;
    sufficientGPU, toReconfig := false, true;
    var total := TotalGPU(node);
    var i: nat := 0;
    while i < total
      invariant toReconfig
      invariant sufficientGPU <==> exists gpu: nat :: gpu < i && gpu < total && Covers(node, need, gpu)
      invariant forall gpu: nat :: gpu < i ==> !Ready(node, req, names, gpu)
    {
      var covers, ready := CheckGpu(node, i, need, wanted);
      ReadyMeansCollected(req, node, names, wanted, i);
      if covers {
        sufficientGPU := true;
        if ready {
          toReconfig := false;
          break;
        }
      }
      i := i + 1;
    }
  }

  lemma ReadyMeansCollected(req: Resource, node: NodeInfo, names: set<string>, wanted: map<string, int>, gpu: nat)
    requires Collected(req, names, wanted)
    ensures Ready(node, req, names, gpu)
            <==> Covers(node, Need(names), gpu) && exists s :: s in wanted && Free(node, gpu, s) >= wanted[s]
  {
    hide Covers, Free, SliceType, Need, Wanted;
    if s :| s in wanted && Free(node, gpu, s) >= wanted[s] {
      var r :| r in names && SliceType(r) == s;
      assert Free(node, gpu, SliceType(r)) >= Wanted(req, names, SliceType(r));
    }
    if r :| r in names && Free(node, gpu, SliceType(r)) >= Wanted(req, names, SliceType(r)) {
      assert SliceType(r) in wanted;
    }
  }

  // ---------------------------------------------------------------- fitsRequest

  /** The scheduling cycle's memory of the filter: for each node, whether using it means repartitioning a GPU. */
  class CycleState {
    var toReconfig: map<string, bool>

    constructor ()
      ensures toReconfig == map[]
    {
      toReconfig := map[];
    }
  }

  function Basic(x: InsufficientResource, reported: bool): seq<InsufficientResource> {
    if reported then [x] else []
  }

  function PodsReason(node: NodeInfo): InsufficientResource {
    InsufficientResource(Pods, 1, node.pods, node.allowedPodNumber)
  }

  function CPUReason(req: Resource, node: NodeInfo): InsufficientResource {
    InsufficientResource(CPU, req.milliCPU, node.requested.milliCPU, node.allocatable.milliCPU)
  }

  function MemoryReason(req: Resource, node: NodeInfo): InsufficientResource {
    InsufficientResource(Memory, req.memory, node.requested.memory, node.allocatable.memory)
  }

  function EphemeralReason(req: Resource, node: NodeInfo): InsufficientResource {
    InsufficientResource(EphemeralStorage, req.ephemeralStorage, node.requested.ephemeralStorage,
                         node.allocatable.ephemeralStorage)
  }

  predicate BasicKind(kind: Kind) {
    kind.Pods? || kind.CPU? || kind.Memory? || kind.EphemeralStorage?
  }

  method CheckBasics(req: Resource, node: NodeInfo, ig: Ignored) returns (list: seq<InsufficientResource>)
    ensures NoDup(list)
    ensures forall x :: x in list <==> BasicKind(x.kind) && Reported(req, node, ig, x)
  {
    list := [];
    if node.pods + 1 > node.allowedPodNumber {
      list := list + [PodsReason(node)];
    }
    if Lacks(req.milliCPU, node.allocatable.milliCPU, node.requested.milliCPU) {
      list := list + [CPUReason(req, node)];
    }
    if Lacks(req.memory, node.allocatable.memory, node.requested.memory) {
      list := list + [MemoryReason(req, node)];
    }
    if Lacks(req.ephemeralStorage, node.allocatable.ephemeralStorage, node.requested.ephemeralStorage) {
      list := list + [EphemeralReason(req, node)];
    }
  }

  /** A pod that requests nothing can only be reported for the number of pods. */
  lemma NothingElseReported(req: Resource, node: NodeInfo, ig: Ignored)
    requires NothingRequested(req)
    ensures MigNames(req, ig) == {} && forall x :: Reported(req, node, ig, x) ==> x.kind.Pods?
  {
  }

  /** What has been reported when the GPUs are about to be looked at: everything but GPU problems. */
  ghost predicate ReportedSoFar(req: Resource, node: NodeInfo, ig: Ignored, list: seq<InsufficientResource>) {
    NoDup(list) && forall x :: x in list <==> (BasicKind(x.kind) || x.kind.Scalar?) && Reported(req, node, ig, x)
  }

  lemma JoinReports(req: Resource, node: NodeInfo, ig: Ignored, basics: seq<InsufficientResource>, scalars: seq<InsufficientResource>)
    requires NoDup(basics) && forall x :: x in basics <==> BasicKind(x.kind) && Reported(req, node, ig, x)
    requires ScalarsReported(req, node, ig, req.scalar.Keys, scalars)
    ensures ReportedSoFar(req, node, ig, basics + scalars)
  {
    hide Lacks, LacksScalar;
    NoDupConcat(basics, scalars);
    forall x: InsufficientResource | x.kind.Scalar? && Reported(req, node, ig, x) ensures x in scalars {
      assert x == ScalarReason(req, node, x.kind.name);
      ScalarIsRequested(req, node, ig, x.kind.name);
    }
  }

  lemma ScalarIsRequested(req: Resource, node: NodeInfo, ig: Ignored, r: string)
    requires LacksScalar(req, node, ig, r)
    ensures r in req.scalar
  {
  }

  /** Order-free meaning of an empty report. */
  lemma FitsMeansNothingReported(req: Resource, node: NodeInfo, ig: Ignored)
    ensures Fits(req, node, ig) <==> forall x :: !Reported(req, node, ig, x)
  {
    hide LacksScalar, Lacks, SomeGpuCovers, Need, ParseInt, MigNames, Get;
    NoCountNoGpu(node);
    if forall x :: !Reported(req, node, ig, x) {
      assert !Reported(req, node, ig, PodsReason(node));
      assert !Reported(req, node, ig, CPUReason(req, node));
      assert !Reported(req, node, ig, MemoryReason(req, node));
      assert !Reported(req, node, ig, EphemeralReason(req, node));
      assert !Reported(req, node, ig, InsufficientResource(NoGpu, 0, 0, 0));
      assert !Reported(req, node, ig, InsufficientResource(Mig, 0, 0, 0));
      forall r | r in req.scalar ensures !LacksScalar(req, node, ig, r) {
        assert !Reported(req, node, ig, ScalarReason(req, node, r));
      }
    }
    if Fits(req, node, ig) {
      forall x ensures !Reported(req, node, ig, x) {
        if x.kind.Scalar? && LacksScalar(req, node, ig, x.kind.name) {
          ScalarIsRequested(req, node, ig, x.kind.name);
        }
        if MigNames(req, ig) != {} {
          SomeGpuMeansGpus(node, Need(MigNames(req, ig)));
        }
      }
    }
  }

  lemma NoCountNoGpu(node: NodeInfo)
    ensures GPU_COUNT_LABEL !in node.labels ==> TotalGPU(node) == 0
  {
  }

  lemma SomeGpuMeansGpus(node: NodeInfo, need: Size)
    ensures SomeGpuCovers(node, need) ==> TotalGPU(node) > 0
  {
  }

  /**
   * The whole check, proved for every iteration order. The report lists exactly what is insufficient, once each; it is
   * empty iff the pod fits; and the cycle state records whether a GPU would have to be repartitioned.
   */
  method FitsRequest(req: Resource, node: NodeInfo, ig: Ignored, cycleState: CycleState?)
    returns (list: seq<InsufficientResource>)
    requires WellNamed(req, ig) && (MigNames(req, ig) != {} ==> WellLabelled(node))
    requires cycleState == null ==> !Records(req, node, ig)
    modifies cycleState
    ensures NoDup(list) && forall x :: x in list <==> Reported(req, node, ig, x)
    ensures list == [] <==> Fits(req, node, ig)
    ensures cycleState != null ==>
              cycleState.toReconfig == if Records(req, node, ig)
                then old(cycleState.toReconfig)[node.name := !SomeGpuReady(node, req, MigNames(req, ig))]
                else old(cycleState.toReconfig)
  {
    hide Covers, Need, Ready, Collected, LacksScalar, WellNamed, WellLabelled, TotalGPU, Lacks, SomeGpuCovers, SomeGpuReady, Fits;
    list := CheckBasics(req, node, ig);
    if NothingRequested(req) {
      NothingElseReported(req, node, ig);
      EmptyReport(req, node, ig, list);
      return;
    }
    var scan := CheckScalars(req, node, ig);
    ghost var names := MigNames(req, ig);
    assert (set r | r in names && r in req.scalar.Keys) == names;
    JoinReports(req, node, ig, list, scan.list);
    list := list + scan.list;
    if scan.useMig {
      if GPU_COUNT_LABEL !in node.labels || TotalGPU(node) == 0 {
        AddReport(req, node, ig, list, InsufficientResource(NoGpu, 0, 0, 0));
        list := list + [InsufficientResource(NoGpu, 0, 0, 0)];
        EmptyReport(req, node, ig, list);
        return;
      }
      var sufficientGPU, toReconfig := CheckGpus(req, node, names, scan.need, scan.wanted);
      if !sufficientGPU {
        AddReport(req, node, ig, list, InsufficientResource(Mig, 0, 0, 0));
        list := list + [InsufficientResource(Mig, 0, 0, 0)];
      }
      cycleState.toReconfig := cycleState.toReconfig[node.name := toReconfig];
    }
    EmptyReport(req, node, ig, list);
  }

  lemma EmptyReport(req: Resource, node: NodeInfo, ig: Ignored, list: seq<InsufficientResource>)
    requires forall x :: x in list <==> Reported(req, node, ig, x)
    ensures list == [] <==> Fits(req, node, ig)
  {
    hide Reported, Fits;
    FitsMeansNothingReported(req, node, ig);
    if list != [] {
      assert list[0] in list;
    }
  }

  lemma AddReport(req: Resource, node: NodeInfo, ig: Ignored, list: seq<InsufficientResource>, x: InsufficientResource)
    requires ReportedSoFar(req, node, ig, list) && (x.kind.NoGpu? || x.kind.Mig?) && Reported(req, node, ig, x)
    ensures NoDup(list + [x]) && forall y :: y in list + [x] <==> Reported(req, node, ig, y)
  {
    hide Lacks, LacksScalar, SomeGpuCovers;
    NoDupConcat(list, [x]);
  }
}
