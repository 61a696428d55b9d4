/** What the catalogue learns over every sequence of reports and disk reference changes, and what it
    therefore serves. */
module CapacityTheorems {
  import opened Base
  import opened Catalogue
  import opened LearnedCapacity

  datatype Op =
    | Report(flavor: string, report: Pair)
    | Require
    | Invalidate
    | SetReference(capacity: int, allocatable: int)

  /** One accepted report: what it contributed to a flavor. */
  datatype Accepted = Accepted(flavor: string, pair: Pair)

  /** The provider's mutable state, with the accepted reports as a history variable. */
  datatype State = State(observed: map<string, Pair>, disk: DiskMode, history: seq<Accepted>)

  const START := State(map[], DiskMode(false, false, None), [])

  /** The effect of each Provider method, as its contract states it. */
  function Apply(flavors: seq<Flavor>, s: State, op: Op): State {
    match op
    case Report(flavor, report) =>
      var c := Contribution(SizingIn(flavors, flavor), s.disk.required, report);
      if c.None? then s
      else Reported(s, flavor, c.value)
    case Require =>
      if s.disk.required then s
      else s.(disk := s.disk.(required := true), observed := map f | f in s.observed :: WithoutDisk(s.observed[f]))
    case Invalidate => s.(disk := s.disk.(ready := false))
    case SetReference(capacity, allocatable) =>
      if ValidReference(capacity, allocatable) && s.disk.required
      then s.(disk := DiskMode(true, true, Some((capacity, allocatable)))) else s
  }

  function Run(flavors: seq<Flavor>, s: State, ops: seq<Op>): State
    decreases |ops|
  {
    if ops == [] then s else Run(flavors, Apply(flavors, s, ops[0]), ops[1..])
  }

  /** Each operation is the method of the class, and so is any sequence of them on a new provider. */
  method Perform(p: Provider, ghost s: State, op: Op)
    requires p.observed == s.observed && p.disk == s.disk
    modifies p
    ensures p.observed == Apply(p.flavors, s, op).observed && p.disk == Apply(p.flavors, s, op).disk
  {
    match op {
      case Report(flavor, report) => var _, _ := p.RecordObservedCapacity(flavor, report);
      case Require => p.RequireEphemeralStorageReference();
      case Invalidate => p.InvalidateEphemeralStorageReference();
      case SetReference(capacity, allocatable) => var _, _ := p.SetEphemeralStorageReference(capacity, allocatable);
    }
  }

  method PerformAll(flavors: seq<Flavor>, ops: seq<Op>) returns (p: Provider)
    ensures fresh(p) && p.flavors == flavors
    ensures p.observed == Run(flavors, START, ops).observed && p.disk == Run(flavors, START, ops).disk
  {
    p := new Provider(flavors);
    ghost var s := START;
    for i := 0 to |ops|
      invariant fresh(p) && p.flavors == flavors && p.observed == s.observed && p.disk == s.disk
      invariant Run(flavors, s, ops[i..]) == Run(flavors, START, ops)
    {
      assert ops[i..][0] == ops[i] && ops[i..][1..] == ops[i + 1..];
      Perform(p, s, ops[i]);
      s := Apply(flavors, s, ops[i]);
    }
  }

  /** Whether an accepted report bears on a resource of a flavor. */
  predicate Bears(a: Accepted, flavor: string, r: Resource) {
    a.flavor == flavor && r in a.pair.capacity && r in a.pair.allocatable
  }

  /** Figures are the pointwise minimum of the accepted reports that bear on a resource, attained by
      some of them, and there is a figure exactly when there is such a report. */
  ghost predicate IsMinimumOf(history: seq<Accepted>, flavor: string, r: Resource, p: Pair) {
    && (r in p.capacity <==> exists a :: a in history && Bears(a, flavor, r))
    && (r in p.allocatable <==> r in p.capacity)
    && (r in p.capacity && r in p.allocatable ==>
          && (forall a | a in history && Bears(a, flavor, r) ::
                p.capacity[r] <= a.pair.capacity[r] && p.allocatable[r] <= a.pair.allocatable[r])
          && (exists a :: a in history && Bears(a, flavor, r) && p.capacity[r] == a.pair.capacity[r])
          && (exists a :: a in history && Bears(a, flavor, r) && p.allocatable[r] == a.pair.allocatable[r]))
  }

  /** The disk is learned only in static mode. */
  ghost predicate LearnedAt(s: State, flavor: string, r: Resource) {
    if r == Disk && s.disk.required
    then r !in ObservedOf(s.observed, flavor).capacity && r !in ObservedOf(s.observed, flavor).allocatable
    else IsMinimumOf(s.history, flavor, r, ObservedOf(s.observed, flavor))
  }

  ghost predicate Learned(s: State) {
    && (forall a | a in s.history :: Consistent(a.pair))
    && (forall flavor, r :: LearnedAt(s, flavor, r))
  }

  predicate DiskSane(disk: DiskMode) {
    && (disk.reference.Some? ==> ValidReference(disk.reference.value.0, disk.reference.value.1))
    && (disk.ready ==> disk.required && disk.reference.Some?)
  }

  lemma ContributionIsConsistent(size: Option<Sizing>, required: bool, report: Pair)
    requires Contribution(size, required, report).Some?
    ensures Consistent(Contribution(size, required, report).value)
    ensures required ==> Disk !in Contribution(size, required, report).value.capacity
  {
  }

  lemma MergeAddsOne(history: seq<Accepted>, flavor: string, r: Resource, p: Pair, c: Pair)
    requires IsMinimumOf(history, flavor, r, p) && Consistent(c)
    ensures IsMinimumOf(history + [Accepted(flavor, c)], flavor, r, MinMergePair(p, c))
  {
    var a := Accepted(flavor, c);
    var next := history + [a];
    assert a in next;
    forall b | b in history ensures b in next {}
    forall b | b in next ensures b in history || b == a {}
  }

  lemma OthersKeep(history: seq<Accepted>, a: Accepted, flavor: string, r: Resource, p: Pair)
    requires IsMinimumOf(history, flavor, r, p) && !Bears(a, flavor, r)
    ensures IsMinimumOf(history + [a], flavor, r, p)
  {
    var next := history + [a];
    forall b | b in history ensures b in next {}
    forall b | b in next ensures b in history || b == a {}
  }

  function Reported(s: State, flavor: string, c: Pair): State {
    s.(observed := s.observed[flavor := MinMergePair(ObservedOf(s.observed, flavor), c)],
       history := s.history + [Accepted(flavor, c)])
  }

  lemma ReportKeepsLearned(s: State, flavor: string, c: Pair, g: string, r: Resource)
    requires LearnedAt(s, g, r) && Consistent(c) && (s.disk.required ==> Disk !in c.capacity)
    ensures LearnedAt(Reported(s, flavor, c), g, r)
  {
    if !(r == Disk && s.disk.required) {
      if g == flavor { MergeAddsOne(s.history, flavor, r, ObservedOf(s.observed, flavor), c); }
      else { OthersKeep(s.history, Accepted(flavor, c), g, r, ObservedOf(s.observed, g)); }
    }
  }

  lemma WithoutDiskKeeps(history: seq<Accepted>, flavor: string, r: Resource, p: Pair)
    requires IsMinimumOf(history, flavor, r, p) && r != Disk
    ensures IsMinimumOf(history, flavor, r, WithoutDisk(p))
  {
  }

  lemma RequireKeepsLearned(flavors: seq<Flavor>, s: State, g: string, r: Resource)
    requires LearnedAt(s, g, r)
    ensures LearnedAt(Apply(flavors, s, Require), g, r)
  {
    var t := Apply(flavors, s, Require);
    if !s.disk.required {
      assert ObservedOf(t.observed, g) == WithoutDisk(ObservedOf(s.observed, g));
      if r != Disk { WithoutDiskKeeps(s.history, g, r, ObservedOf(s.observed, g)); }
    }
  }

  lemma StepKeepsLearned(flavors: seq<Flavor>, s: State, op: Op, g: string, r: Resource)
    requires LearnedAt(s, g, r)
    ensures LearnedAt(Apply(flavors, s, op), g, r)
  {
    match op
    case Report(flavor, report) =>
      var c := Contribution(SizingIn(flavors, flavor), s.disk.required, report);
      if c.Some? {
        ContributionIsConsistent(SizingIn(flavors, flavor), s.disk.required, report);
        ReportKeepsLearned(s, flavor, c.value, g, r);
      }
    case Require => RequireKeepsLearned(flavors, s, g, r);
    case _ =>
  }

  lemma {:induction false} RunKeepsLearned(flavors: seq<Flavor>, s: State, ops: seq<Op>)
    requires Learned(s) && DiskSane(s.disk)
    ensures Learned(Run(flavors, s, ops)) && DiskSane(Run(flavors, s, ops).disk)
    decreases |ops|
  {
    if ops != [] {
      forall g, r: Resource ensures LearnedAt(Apply(flavors, s, ops[0]), g, r) {
        StepKeepsLearned(flavors, s, ops[0], g, r);
      }
      forall a | a in Apply(flavors, s, ops[0]).history && a !in s.history ensures Consistent(a.pair) {
        ContributionIsConsistent(SizingIn(flavors, ops[0].flavor), s.disk.required, ops[0].report);
      }
      RunKeepsLearned(flavors, Apply(flavors, s, ops[0]), ops[1..]);
    }
  }

  /** Learned capacity. After any sequence of reports, opt-ins and reference changes, every figure of a
      flavor is the pointwise minimum of the reports accepted for it, whatever their order; capacity and
      allocatable have the same keys; and in dynamic mode no disk is learned at all. */
  lemma ObservationsAreMinima(flavors: seq<Flavor>, ops: seq<Op>)
    ensures Learned(Run(flavors, START, ops)) && DiskSane(Run(flavors, START, ops).disk)
    ensures var s := Run(flavors, START, ops);
            forall f | f in s.observed :: s.observed[f].capacity.Keys == s.observed[f].allocatable.Keys
  {
    RunKeepsLearned(flavors, START, ops);
    var s := Run(flavors, START, ops);
    forall f | f in s.observed ensures s.observed[f].capacity.Keys == s.observed[f].allocatable.Keys {
      ObservedHasSameKeys(flavors, ops, f);
    }
  }

  predicate SameKeys(p: Pair) { p.capacity.Keys == p.allocatable.Keys }

  lemma ObservedHasSameKeys(flavors: seq<Flavor>, ops: seq<Op>, flavor: string)
    ensures SameKeys(ObservedOf(Run(flavors, START, ops).observed, flavor))
  {
    RunKeepsLearned(flavors, START, ops);
    var s := Run(flavors, START, ops);
    var p := ObservedOf(s.observed, flavor);
    forall r: Resource ensures r in p.capacity <==> r in p.allocatable {
      assert LearnedAt(s, flavor, r);
    }
  }

  // ---------------------------------------------------------------- bounds and served types

  /** Figures close enough to a catalogue entry: cpu exact, everything else within 10%. */
  predicate NearEntry(size: Sizing, p: Pair) {
    forall r | r in p.capacity && r in p.allocatable ::
      && (if r == Cpu then p.capacity[r] == size.cpu else Within(p.capacity[r], Get(Reference(size).capacity, r)))
      && Within(p.allocatable[r], Get(Reference(size).allocatable, r))
  }

  ghost predicate AllNearEntry(flavors: seq<Flavor>, history: seq<Accepted>) {
    forall a | a in history && SizingIn(flavors, a.flavor).Some? :: NearEntry(SizingIn(flavors, a.flavor).value, a.pair)
  }

  lemma ContributionIsNear(size: Sizing, required: bool, report: Pair)
    requires Contribution(Some(size), required, report).Some?
    ensures NearEntry(size, Contribution(Some(size), required, report).value)
  {
    var obs := if required then WithoutDisk(report) else report;
    var legacy := Within(Get(obs.capacity, Disk), LEGACY_DISK_BYTES);
    var ref := ReferenceFor(size, obs);
    var c := if legacy then WithoutDisk(obs) else obs;
    forall r | r in c.capacity && r in c.allocatable
      ensures if r == Cpu then c.capacity[r] == size.cpu else Within(c.capacity[r], Get(Reference(size).capacity, r))
      ensures Within(c.allocatable[r], Get(Reference(size).allocatable, r))
    {
      assert Plausible(ref, obs, r);
    }
  }

  lemma {:induction false} RunStaysNear(flavors: seq<Flavor>, s: State, ops: seq<Op>)
    requires AllNearEntry(flavors, s.history)
    ensures AllNearEntry(flavors, Run(flavors, s, ops).history)
    decreases |ops|
  {
    if ops != [] {
      var t := Apply(flavors, s, ops[0]);
      forall a | a in t.history && SizingIn(flavors, a.flavor).Some?
        ensures NearEntry(SizingIn(flavors, a.flavor).value, a.pair)
      {
        if a !in s.history {
          ContributionIsNear(SizingIn(flavors, a.flavor).value, s.disk.required, ops[0].report);
        }
      }
      RunStaysNear(flavors, t, ops[1..]);
    }
  }

  /** What is learned of a catalogue flavor stays near its entry: no report, and no sequence of reports,
      can walk a figure away from it. */
  lemma LearnedStaysNearEntry(flavors: seq<Flavor>, ops: seq<Op>, flavor: string)
    requires SizingIn(flavors, flavor).Some?
    ensures var s := Run(flavors, START, ops);
            NearEntry(SizingIn(flavors, flavor).value, ObservedOf(s.observed, flavor))
  {
    ObservationsAreMinima(flavors, ops);
    RunStaysNear(flavors, START, ops);
    var s := Run(flavors, START, ops);
    var p := ObservedOf(s.observed, flavor);
    forall r | r in p.capacity && r in p.allocatable
      ensures if r == Cpu then p.capacity[r] == SizingIn(flavors, flavor).value.cpu
              else Within(p.capacity[r], Get(Reference(SizingIn(flavors, flavor).value).capacity, r))
      ensures Within(p.allocatable[r], Get(Reference(SizingIn(flavors, flavor).value).allocatable, r))
    {
      assert LearnedAt(s, flavor, r);
      var a :| a in s.history && Bears(a, flavor, r) && p.capacity[r] == a.pair.capacity[r];
      var b :| b in s.history && Bears(b, flavor, r) && p.allocatable[r] == b.pair.allocatable[r];
      assert NearEntry(SizingIn(flavors, flavor).value, a.pair) && NearEntry(SizingIn(flavors, flavor).value, b.pair);
    }
  }

  lemma {:induction false} SizingOfEntry(flavors: seq<Flavor>, i: nat)
    requires i < |flavors| && Distinct(FlavorNames(flavors))
    ensures SizingIn(flavors, flavors[i].name) == Some(flavors[i].Size())
    decreases i
  {
    assert FlavorNames(flavors)[0] == flavors[0].name && FlavorNames(flavors)[i] == flavors[i].name;
    if i > 0 {
      forall a, b | 0 <= a < b < |flavors[1..]| ensures FlavorNames(flavors[1..])[a] != FlavorNames(flavors[1..])[b] {
        assert FlavorNames(flavors)[a + 1] != FlavorNames(flavors)[b + 1];
      }
      SizingOfEntry(flavors[1..], i - 1);
    }
  }

  /** What a served type promises of a resource: the disk reference if there is one, else the learned
      minimum, else the catalogue entry. */
  function ServedPair(size: Sizing, learned: Pair, disk: DiskMode, r: Resource): (int, int) {
    if r == Disk && disk.reference.Some? then disk.reference.value
    else if r in learned.capacity && r in learned.allocatable then (learned.capacity[r], learned.allocatable[r])
    else (Get(Reference(size).capacity, r), Get(Reference(size).allocatable, r))
  }

  /** Overhead stored as the difference gives the allocatable back. */
  lemma OverheadGivesBack(capacity: Quantities, allocatable: Quantities, r: Resource)
    requires r in capacity && r in allocatable
    ensures r in Subtract(capacity, Subtract(capacity, allocatable))
    ensures Subtract(capacity, Subtract(capacity, allocatable))[r] == allocatable[r]
  {
  }

  /** The type before the disk reference is laid over it. */
  lemma ObservedServes(f: Flavor, observed: map<string, Pair>, r: Resource)
    requires SameKeys(ObservedOf(observed, f.name))
    ensures var it := Build(f, observed, DiskMode(false, false, None));
            && r in it.capacity && r in it.Allocatable()
            && (it.capacity[r], it.Allocatable()[r]) ==
                  ServedPair(f.Size(), ObservedOf(observed, f.name), DiskMode(false, false, None), r)
  {
    var seen := ObservedOf(observed, f.name);
    var entry := StaticCapacity(f.Size());
    assert r in entry && (r in seen.capacity <==> r in seen.allocatable);
    OverheadGivesBack(entry + seen.capacity, Subtract(entry, STATIC_OVERHEAD) + seen.allocatable, r);
  }

  lemma ReferenceServes(it: InstanceType, capacity: int, allocatable: int, r: Resource)
    requires r in it.capacity
    ensures var cap := it.capacity[Disk := capacity];
            var alloc := it.Allocatable()[Disk := allocatable];
            var over := InstanceType(it.flavor, cap, Subtract(cap, alloc));
            && r in over.capacity && r in over.Allocatable()
            && (over.capacity[r], over.Allocatable()[r]) ==
               if r == Disk then (capacity, allocatable) else (it.capacity[r], it.Allocatable()[r])
  {
    OverheadGivesBack(it.capacity[Disk := capacity], it.Allocatable()[Disk := allocatable], r);
  }

  lemma BuildServes(f: Flavor, observed: map<string, Pair>, disk: DiskMode, r: Resource)
    requires SameKeys(ObservedOf(observed, f.name))
    ensures var it := Build(f, observed, disk);
            && r in it.capacity && r in it.Allocatable()
            && (it.capacity[r], it.Allocatable()[r]) == ServedPair(f.Size(), ObservedOf(observed, f.name), disk, r)
  {
    ObservedServes(f, observed, r);
    if disk.reference.Some? {
      var (capacity, allocatable) := disk.reference.value;
      ReferenceServes(Build(f, observed, DiskMode(false, false, None)), capacity, allocatable, r);
    }
  }

  /** Whether an entry leaves anything of a resource to allocate: it has vCPUs, and more memory than
      every node reserves; disk and pods are the same for all. */
  predicate Provisionable(f: Flavor, r: Resource) {
    && (r == Cpu ==> f.cpu > 0)
    && (r == Memory ==> f.memoryKi * 1024 > RESERVED_MEMORY)
  }

  /** What is learned of a flavor never allocates more than there is; and of a flavor that is sized, some. */
  lemma LearnedIsSound(flavors: seq<Flavor>, ops: seq<Op>, f: Flavor, r: Resource)
    requires r in ObservedOf(Run(flavors, START, ops).observed, f.name).capacity
    ensures var p := ObservedOf(Run(flavors, START, ops).observed, f.name);
            r in p.allocatable && p.allocatable[r] <= p.capacity[r]
    ensures SizingIn(flavors, f.name) == Some(f.Size()) && Provisionable(f, r) ==>
            var p := ObservedOf(Run(flavors, START, ops).observed, f.name);
            0 < p.allocatable[r] && (r == Cpu ==> p.capacity[r] == f.cpu)
  {
    var s := Run(flavors, START, ops);
    ObservationsAreMinima(flavors, ops);
    assert LearnedAt(s, f.name, r);
    var p := ObservedOf(s.observed, f.name);
    assert IsMinimumOf(s.history, f.name, r, p);
    var a :| a in s.history && Bears(a, f.name, r) && p.capacity[r] == a.pair.capacity[r];
    assert Consistent(a.pair);
    if SizingIn(flavors, f.name) == Some(f.Size()) && Provisionable(f, r) {
      LearnedStaysNearEntry(flavors, ops, f.name);
      EntryIsSound(f, r);
    }
  }

  lemma ReachableDiskIsSane(flavors: seq<Flavor>, ops: seq<Op>)
    ensures DiskSane(Run(flavors, START, ops).disk)
  {
    ObservationsAreMinima(flavors, ops);
  }

  /** A type built in any reachable state, of a flavor sized as its entry says: for every resource the entry
      leaves any of, exactly the reference, the learned minimum or the static entry, some of it allocatable
      and never more than there is. */
  lemma BuiltIsSound(flavors: seq<Flavor>, ops: seq<Op>, f: Flavor, r: Resource)
    requires SizingIn(flavors, f.name) == Some(f.Size()) && Provisionable(f, r)
    ensures var s := Run(flavors, START, ops);
            var it := Build(f, s.observed, s.disk);
            && r in it.capacity && r in it.Allocatable()
            && (it.capacity[r], it.Allocatable()[r]) ==
                  ServedPair(f.Size(), ObservedOf(s.observed, f.name), s.disk, r)
            && 0 < it.Allocatable()[r] <= it.capacity[r]
            && (r == Cpu ==> it.capacity[r] == f.cpu)
  {
    var s := Run(flavors, START, ops);
    ReachableDiskIsSane(flavors, ops);
    ObservedHasSameKeys(flavors, ops, f.name);
    BuildServes(f, s.observed, s.disk, r);
    EntryIsSound(f, r);
    if r in ObservedOf(s.observed, f.name).capacity { LearnedIsSound(flavors, ops, f, r); }
  }

  /** Served types. In every reachable state this holds of each catalogue flavor. */
  lemma ServedTypesAreSound(flavors: seq<Flavor>, ops: seq<Op>, i: nat, r: Resource)
    requires i < |flavors| && Distinct(FlavorNames(flavors)) && Provisionable(flavors[i], r)
    ensures var s := Run(flavors, START, ops);
            var it := Build(flavors[i], s.observed, s.disk);
            && r in it.capacity && r in it.Allocatable()
            && (it.capacity[r], it.Allocatable()[r]) ==
                  ServedPair(flavors[i].Size(), ObservedOf(s.observed, flavors[i].name), s.disk, r)
            && 0 < it.Allocatable()[r] <= it.capacity[r]
            && (r == Cpu ==> it.capacity[r] == flavors[i].cpu)
  {
    SizingOfEntry(flavors, i);
    BuiltIsSound(flavors, ops, flavors[i], r);
  }

  /** And what a launch is promised of it: without a current reference in dynamic mode no disk at all,
      whatever the entry or an older reference says; of everything else, and of a disk that is known, what
      the built type serves. */
  lemma ProvisionedTypesServe(flavors: seq<Flavor>, ops: seq<Op>, i: nat, r: Resource)
    requires i < |flavors|
    ensures var s := Run(flavors, START, ops);
            var it := ForProvisioning(Build(flavors[i], s.observed, s.disk), Ready(s.disk));
            && r in it.capacity && r in it.Allocatable()
            && (it.capacity[r], it.Allocatable()[r]) ==
               if r == Disk && s.disk.required && !s.disk.ready then (0, 0)
               else ServedPair(flavors[i].Size(), ObservedOf(s.observed, flavors[i].name), s.disk, r)
    ensures var disk := Run(flavors, START, ops).disk; disk.required && disk.reference.None? ==> !disk.ready
  {
    var s := Run(flavors, START, ops);
    ReachableDiskIsSane(flavors, ops);
    ObservedHasSameKeys(flavors, ops, flavors[i].name);
    BuildServes(flavors[i], s.observed, s.disk, r);
    ProvisioningServes(Build(flavors[i], s.observed, s.disk), Ready(s.disk), r);
  }

  lemma ProvisioningServes(built: InstanceType, ready: bool, r: Resource)
    requires r in built.capacity && r in built.Allocatable()
    ensures var it := ForProvisioning(built, ready);
            && r in it.capacity && r in it.Allocatable()
            && (it.capacity[r], it.Allocatable()[r]) ==
               if r == Disk && !ready then (0, 0) else (built.capacity[r], built.Allocatable()[r])
  {
    ProvisioningHidesTheDisk(built);
  }

  lemma {:induction false} SizingOfSeed(flavors: seq<Flavor>, flavor: string)
    requires flavor !in FlavorNames(flavors)
    ensures SizingIn(flavors, flavor) == if flavor in SEED then Some(SEED[flavor]) else None
    decreases |flavors|
  {
    if flavors == [] {
    } else {
      assert FlavorNames(flavors)[0] == flavors[0].name;
      forall n | n in FlavorNames(flavors[1..]) ensures n in FlavorNames(flavors) {
        var j :| 0 <= j < |flavors[1..]| && FlavorNames(flavors[1..])[j] == n;
        assert FlavorNames(flavors)[j + 1] == n;
      }
      SizingOfSeed(flavors[1..], flavor);
    }
  }

  lemma EntryIsSound(f: Flavor, r: Resource)
    requires Provisionable(f, r)
    ensures 0 < Get(Reference(f.Size()).allocatable, r) <= Get(Reference(f.Size()).capacity, r)
  {
  }
}
