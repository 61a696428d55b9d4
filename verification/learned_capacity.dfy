/** Learning node capacity from reports, under a replaceable disk reference, and the instance types
    served from it (pkg/providers/instancetype/instancetype.go). Quantities are whole units: bytes,
    vCPUs, pods. The 10% tolerance is exact. */
module LearnedCapacity {
  import opened Base
  import opened Catalogue

  /** The resources that generalize across VMs of a flavor. */
  datatype Resource = Cpu | Memory | Disk | Pods

  type Quantities = map<Resource, int>

  /** A capacity and allocatable pair. */
  datatype Pair = Pair(capacity: Quantities, allocatable: Quantities)

  const NOTHING := Pair(map[], map[])

  const DISK_BYTES := 102624184 * 1024
  const LEGACY_DISK_BYTES := 40971488 * 1024
  const LEGACY_DISK_ALLOCATABLE := 37759323279
  const MAX_PODS := 110
  const RESERVED_MEMORY := 100 * 1024 * 1024
  const EVICTION_DISK := 10262419 * 1024

  function Get(q: Quantities, r: Resource): int {
    if r in q then q[r] else 0
  }

  /** |got / want - 1| <= 1/10; a zero want is never within tolerance. */
  predicate Within(got: int, want: int) {
    want != 0 && 10 * Abs(got - want) <= Abs(want)
  }

  /** got / want - 1, of a figure the entry has. */
  method Deviation(got: int, want: int) returns (d: real)
    requires want != 0
    ensures DeviatesBy(got, want, d)
  {
    d := got as real / want as real - 1.0;
  }

  predicate DeviatesBy(got: int, want: int, d: real) {
    want != 0 && d * want as real == (got - want) as real
  }

  /** It is within the tolerance the report was accepted under. */
  lemma DeviationIsWithin(got: int, want: int, d: real)
    requires Within(got, want) && DeviatesBy(got, want, d)
    ensures -0.1 <= d <= 0.1
  {
    var w := if want > 0 then want as real else -(want as real);
    var gap := if want > 0 then d * w else -(d * w);
    assert -w <= 10.0 * gap <= w;
    assert (0.1 - d) * w == 0.1 * w - d * w && (0.1 + d) * w == 0.1 * w + d * w;
    SignOf(0.1 - d, w);
    SignOf(0.1 + d, w);
  }

  lemma SignOf(a: real, w: real)
    requires w > 0.0 && a * w >= 0.0
    ensures a >= 0.0
  {
  }

  /** |(got / capacity) / (want / reference) - 1| <= 1/10, with the quotients the code compares. */
  predicate RatioWithin(got: int, capacity: int, want: int, reference: int) {
    capacity * want != 0 ==> 10 * Abs(got * reference - capacity * want) <= Abs(capacity * want)
  }

  /** For figures that count something: between nine and eleven tenths of the entry's. */
  lemma WithinMeans(got: int, want: int)
    ensures want > 0 ==> (Within(got, want) <==> 9 * want <= 10 * got <= 11 * want)
    ensures want < 0 ==> (Within(got, want) <==> 11 * want <= 10 * got <= 9 * want)
    ensures !Within(got, 0)
  {
  }

  /** And the same of the quotients, allocatable over capacity. */
  lemma RatioMeans(got: int, capacity: int, want: int, reference: int)
    requires capacity > 0 && want > 0
    ensures RatioWithin(got, capacity, want, reference) <==>
            9 * (capacity * want) <= 10 * (got * reference) <= 11 * (capacity * want)
  {
    assert capacity * want > 0;
  }

  /** resources.Subtract: the keys of the left operand. */
  function Subtract(a: Quantities, b: Quantities): Quantities {
    map r | r in a :: if r in b then a[r] - b[r] else a[r]
  }

  function StaticCapacity(size: Sizing): Quantities {
    map[Cpu := size.cpu, Memory := size.memoryKi * 1024, Disk := DISK_BYTES, Pods := MAX_PODS]
  }

  const STATIC_OVERHEAD: Quantities := map[Memory := RESERVED_MEMORY, Disk := EVICTION_DISK]

  /** What a catalogue entry advertises before any report. */
  function Reference(size: Sizing): Pair {
    Pair(StaticCapacity(size), Subtract(StaticCapacity(size), STATIC_OVERHEAD))
  }

  predicate Consistent(obs: Pair) {
    forall r: Resource ::
      && (r in obs.capacity <==> r in obs.allocatable)
      && (r in obs.capacity && r in obs.allocatable ==> obs.allocatable[r] <= obs.capacity[r])
  }

  /** One resource of a report against the catalogue entry. A resource not reported is not checked. */
  predicate Plausible(ref: Pair, obs: Pair, r: Resource) {
    r in obs.capacity ==>
      && (if r == Cpu then obs.capacity[r] == Get(ref.capacity, r) else Within(obs.capacity[r], Get(ref.capacity, r)))
      && Within(Get(obs.allocatable, r), Get(ref.allocatable, r))
      && (r == Disk ==>
            RatioWithin(Get(obs.allocatable, r), obs.capacity[r], Get(ref.allocatable, r), Get(ref.capacity, r)))
  }

  predicate Observable(ref: Pair, obs: Pair) {
    Consistent(obs) && forall r: Resource :: Plausible(ref, obs, r)
  }

  function WithoutDisk(p: Pair): Pair {
    Pair(p.capacity - {Disk}, p.allocatable - {Disk})
  }

  function LegacyReference(ref: Pair): Pair {
    Pair(ref.capacity[Disk := LEGACY_DISK_BYTES], ref.allocatable[Disk := LEGACY_DISK_ALLOCATABLE])
  }

  /** What a report contributes to a flavor's observations: None when it is ignored or refused. `size`
      is the catalogue's sizing of the flavor, `required` the dynamic disk mode. */
  function Contribution(size: Option<Sizing>, required: bool, report: Pair): Option<Pair> {
    if Get(report.capacity, Cpu) == 0 || Get(report.capacity, Memory) == 0 then None
    else if required && !Consistent(report) then None
    else
      var obs := if required then WithoutDisk(report) else report;
      if size.None? then (if Consistent(obs) then Some(obs) else None)
      else
        if !Observable(ReferenceFor(size.value, obs), obs) then None
        else Some(if Within(Get(obs.capacity, Disk), LEGACY_DISK_BYTES) then WithoutDisk(obs) else obs)
  }

  /** What a catalogue entry advertises, figure by figure. */
  lemma EntryFigures(size: Sizing)
    ensures Reference(size).capacity ==
            map[Cpu := size.cpu, Memory := size.memoryKi * 1024, Disk := 102624184 * 1024, Pods := 110]
    ensures Reference(size).allocatable ==
            map[Cpu := size.cpu, Memory := size.memoryKi * 1024 - 100 * 1024 * 1024,
                Disk := (102624184 - 10262419) * 1024, Pods := 110]
  {
  }

  /** A disk the checks let pass: near the one of before, or near the entry's, its quotient too. */
  predicate DiskAccepted(c: int, a: int) {
    if Within(c, 40971488 * 1024)
    then Within(a, 37759323279) && RatioWithin(a, c, 37759323279, 40971488 * 1024)
    else
      && Within(c, 102624184 * 1024) && Within(a, 92361765 * 1024)
      && RatioWithin(a, c, 92361765 * 1024, 102624184 * 1024)
  }

  /** Every resource reported has both figures, and allocates no more than there is. */
  predicate WellFormed(p: Pair) {
    p.capacity.Keys == p.allocatable.Keys
    && forall r | r in p.capacity && r in p.allocatable :: p.allocatable[r] <= p.capacity[r]
  }

  predicate ResourceAccepted(size: Sizing, required: bool, report: Pair, r: Resource)
    requires r in report.capacity && r in report.allocatable
  {
    var (c, a) := (report.capacity[r], report.allocatable[r]);
    match r
    case Cpu => c == size.cpu && Within(a, size.cpu)
    case Memory => Within(c, size.memoryKi * 1024) && Within(a, size.memoryKi * 1024 - 104857600)
    case Pods => Within(c, 110) && Within(a, 110)
    case Disk => required || DiskAccepted(c, a)
  }

  /** Which reports of a catalogue flavor are learned from, exactly, and what of them: all but the disk in
      dynamic mode, and all but a disk of the size of before in static mode. */
  lemma AcceptedMeans(size: Sizing, required: bool, report: Pair)
    ensures Contribution(Some(size), required, report).Some? <==>
      && Cpu in report.capacity && report.capacity[Cpu] != 0
      && Memory in report.capacity && report.capacity[Memory] != 0
      && WellFormed(report)
      && forall r | r in report.capacity && r in report.allocatable :: ResourceAccepted(size, required, report, r)
    ensures Contribution(Some(size), required, report).Some? ==>
      Contribution(Some(size), required, report).value ==
        if required || (Disk in report.capacity && Within(report.capacity[Disk], 40971488 * 1024))
        then Pair(report.capacity - {Disk}, report.allocatable - {Disk}) else report
  {
    ConsistentMeans(report);
    if Consistent(report) { ObservableMeans(size, required, report); }
  }

  lemma ObservableMeans(size: Sizing, required: bool, report: Pair)
    requires Consistent(report)
    ensures var obs := if required then WithoutDisk(report) else report;
            Observable(ReferenceFor(size, obs), obs) <==>
            forall r | r in report.capacity && r in report.allocatable :: ResourceAccepted(size, required, report, r)
  {
    var obs := if required then WithoutDisk(report) else report;
    forall r | r in report.capacity && r in report.allocatable
      ensures Plausible(ReferenceFor(size, obs), obs, r) <==> ResourceAccepted(size, required, report, r)
    {
      PlausibleMeans(size, required, report, r);
    }
  }

  /** The figures a report is held against. */
  function ReferenceFor(size: Sizing, obs: Pair): Pair {
    if Within(Get(obs.capacity, Disk), LEGACY_DISK_BYTES) then LegacyReference(Reference(size)) else Reference(size)
  }

  lemma ConsistentMeans(p: Pair)
    ensures Consistent(p) <==> WellFormed(p)
  {
    if Consistent(p) {
      forall r: Resource ensures r in p.capacity <==> r in p.allocatable { }
    }
  }

  lemma PlausibleMeans(size: Sizing, required: bool, report: Pair, r: Resource)
    requires r in report.capacity && r in report.allocatable
    ensures var obs := if required then WithoutDisk(report) else report;
            Plausible(ReferenceFor(size, obs), obs, r) <==> ResourceAccepted(size, required, report, r)
  {
    EntryFigures(size);
  }

  /** Without a catalogue entry only the shape is checked. */
  lemma AcceptedWithoutEntry(required: bool, report: Pair)
    ensures Contribution(None, required, report) ==
      if && Cpu in report.capacity && report.capacity[Cpu] != 0
         && Memory in report.capacity && report.capacity[Memory] != 0 && WellFormed(report)
      then Some(if required then Pair(report.capacity - {Disk}, report.allocatable - {Disk}) else report) else None
  {
    ConsistentMeans(report);
  }

  function MinMerge(a: Quantities, b: Quantities): Quantities {
    map r | r in a.Keys + b.Keys :: if r !in b then a[r] else if r !in a then b[r] else Min(a[r], b[r])
  }

  function MinMergePair(a: Pair, b: Pair): Pair {
    Pair(MinMerge(a.capacity, b.capacity), MinMerge(a.allocatable, b.allocatable))
  }

  /** The disk profile of new workers, if one was ever set, and whether it is current. */
  datatype DiskMode = DiskMode(required: bool, ready: bool, reference: Option<(int, int)>)

  datatype InstanceType = InstanceType(flavor: Flavor, capacity: Quantities, overhead: Quantities) {
    function Allocatable(): Quantities { Subtract(capacity, overhead) }
  }

  /** newInstanceTypeLocked: the static entry, under what was observed, under the disk reference. */
  function Build(f: Flavor, observed: map<string, Pair>, disk: DiskMode): InstanceType {
    var entry := StaticCapacity(f.Size());
    var seen := if f.name in observed then observed[f.name] else NOTHING;
    var capacity := entry + seen.capacity;
    var allocatable := Subtract(entry, STATIC_OVERHEAD) + seen.allocatable;
    var overhead := if f.name in observed then Subtract(capacity, allocatable) else STATIC_OVERHEAD;
    if disk.reference.None? then InstanceType(f, capacity, overhead)
    else
      var cap := capacity[Disk := disk.reference.value.0];
      var alloc := Subtract(capacity, overhead)[Disk := disk.reference.value.1];
      InstanceType(f, cap, Subtract(cap, alloc))
  }

  /** ListForProvisioning: without a current reference in dynamic mode, an unknown disk. */
  function ForProvisioning(it: InstanceType, ready: bool): InstanceType {
    if ready then it else it.(capacity := it.capacity[Disk := 0], overhead := it.overhead - {Disk})
  }

  /** A type that promises no disk, and otherwise what the one it was built as promises. */
  ghost predicate DiskUnknown(it: InstanceType, built: InstanceType) {
    && it.flavor == built.flavor
    && Disk in it.capacity && it.capacity[Disk] == 0
    && Disk in it.Allocatable() && it.Allocatable()[Disk] == 0
    && forall r: Resource | r != Disk ::
         && (r in it.capacity <==> r in built.capacity)
         && (r in it.capacity && r in built.capacity ==>
               && it.capacity[r] == built.capacity[r]
               && it.Allocatable()[r] == built.Allocatable()[r])
  }

  lemma ProvisioningHidesTheDisk(built: InstanceType)
    ensures DiskUnknown(ForProvisioning(built, false), built)
  {
  }

  function Ready(disk: DiskMode): bool { !disk.required || disk.ready }

  const MAX_INT64 := 0x7FFF_FFFF_FFFF_FFFF

  predicate ValidReference(capacity: int, allocatable: int) {
    0 < allocatable <= capacity <= MAX_INT64
  }

  class Provider {
    const flavors: seq<Flavor>
    var observed: map<string, Pair>
    var disk: DiskMode

    constructor (flavors: seq<Flavor>)
      ensures this.flavors == flavors && observed == map[] && disk == DiskMode(false, false, None)
    {
      this.flavors := flavors;
      observed, disk := map[], DiskMode(false, false, None);
    }

    /** Sizing: the served entry, else the seed. */
    function Sizing(flavor: string): Option<Sizing> {
      SizingIn(flavors, flavor)
    }

    /** RecordObservedCapacity: the flavor's observations become the pointwise minimum of what they were
        and what the report contributes; a refused or ignored report changes nothing. `deviation` is the
        reported memory relative to the catalogue entry's, less one, and 0 without an entry or a record. */
    method RecordObservedCapacity(flavor: string, report: Pair) returns (accepted: bool, deviation: real)
      modifies this`observed
      ensures accepted == Contribution(Sizing(flavor), disk.required, report).Some?
      ensures observed ==
        if !accepted then old(observed)
        else
          var contributed := Contribution(Sizing(flavor), disk.required, report).value;
          old(observed)[flavor := MinMergePair(ObservedOf(old(observed), flavor), contributed)]
      ensures if accepted && Sizing(flavor).Some?
              then
                var entry := Reference(Sizing(flavor).value);
                DeviatesBy(Get(report.capacity, Memory), Get(entry.capacity, Memory), deviation)
              else deviation == 0.0
    {
      var obs;
      accepted, obs, deviation := Examine(flavor, report);
      if !accepted { return; }
      var prev := ObservedOf(observed, flavor);
      var capacity := MergeMinimum(prev.capacity, obs.capacity);
      var allocatable := MergeMinimum(prev.allocatable, obs.allocatable);
      observed := observed[flavor := Pair(capacity, allocatable)];
    }

    /** The checks of a report, in the code's order: what it contributes, if anything, and how far its
        memory is off. */
    method Examine(flavor: string, report: Pair) returns (accepted: bool, obs: Pair, deviation: real)
      ensures Contribution(Sizing(flavor), disk.required, report) == if accepted then Some(obs) else None
      ensures if accepted && Sizing(flavor).Some?
              then
                var entry := Reference(Sizing(flavor).value);
                DeviatesBy(Get(report.capacity, Memory), Get(entry.capacity, Memory), deviation)
              else deviation == 0.0
    {
      obs, deviation := report, 0.0;
      if Get(report.capacity, Cpu) == 0 || Get(report.capacity, Memory) == 0 { return false, obs, 0.0; }
      if disk.required {
        if !Consistent(obs) { return false, obs, 0.0; }
        obs := WithoutDisk(obs);
      }
      var size := Sizing(flavor);
      if size.None? { return Consistent(obs), obs, 0.0; }
      var ref := Reference(size.value);
      var legacy := Within(Get(obs.capacity, Disk), LEGACY_DISK_BYTES);
      if legacy { ref := LegacyReference(ref); }
      if !Observable(ref, obs) { return false, obs, 0.0; }
      assert Plausible(ref, obs, Memory);
      if legacy { obs := WithoutDisk(obs); }
      accepted := true;
      deviation := Deviation(obs.capacity[Memory], ref.capacity[Memory]);
    }

    /** RequireEphemeralStorageReference: dynamic mode, once; the disk minima of before are dropped. */
    method RequireEphemeralStorageReference()
      modifies this
      ensures disk == old(disk).(required := true)
      ensures observed == if old(disk).required then old(observed)
                          else map f | f in old(observed) :: WithoutDisk(old(observed)[f])
    {
      if disk.required { return; }
      disk := disk.(required := true);
      var rest := observed.Keys;
      while rest != {}
        invariant rest <= old(observed).Keys && disk == old(disk).(required := true)
        invariant observed ==
          map f | f in old(observed) :: if f in rest then old(observed)[f] else WithoutDisk(old(observed)[f])
      {
        var f :| f in rest;
        rest := rest - {f};
        observed := observed[f := WithoutDisk(observed[f])];
      }
    }

    method InvalidateEphemeralStorageReference()
      modifies this`disk
      ensures disk == old(disk).(ready := false)
    {
      disk := disk.(ready := false);
    }

    /** SetEphemeralStorageReference: `changed` says whether what new launches are promised changed. */
    method SetEphemeralStorageReference(capacity: int, allocatable: int) returns (changed: bool, ok: bool)
      modifies this`disk
      ensures ok <==> 0 < allocatable <= capacity <= 0x7FFF_FFFF_FFFF_FFFF && old(disk).required
      ensures disk == if ok then DiskMode(true, true, Some((capacity, allocatable))) else old(disk)
      ensures changed <==> ok && !(old(disk).ready && old(disk).reference == Some((capacity, allocatable)))
    {
      if capacity <= 0 || capacity > MAX_INT64 || allocatable <= 0 || allocatable > MAX_INT64 { return false, false; }
      if allocatable > capacity || !disk.required { return false, false; }
      changed := !disk.ready || disk.reference != Some((capacity, allocatable));
      disk := DiskMode(true, true, Some((capacity, allocatable)));
      ok := true;
    }

    /** ListForProvisioning: one coherent snapshot of every flavor, and whether its disks are known. While
        they are not, no disk is served at all, neither the entry's nor a reference out of date, and
        everything else as usual. */
    method ListForProvisioning() returns (its: seq<InstanceType>, ready: bool)
      ensures (ready <==> !disk.required || disk.ready) && |its| == |flavors|
      ensures forall i | 0 <= i < |flavors| :: its[i] == ForProvisioning(Build(flavors[i], observed, disk), ready)
      ensures ready ==> forall i | 0 <= i < |flavors| :: its[i] == Build(flavors[i], observed, disk)
      ensures !ready ==> forall i | 0 <= i < |flavors| :: DiskUnknown(its[i], Build(flavors[i], observed, disk))
    {
      ready := !disk.required || disk.ready;
      its := [];
      for i := 0 to |flavors|
        invariant |its| == i
        invariant forall j | 0 <= j < i :: its[j] == ForProvisioning(Build(flavors[j], observed, disk), ready)
        invariant !ready ==> forall j | 0 <= j < i :: DiskUnknown(its[j], Build(flavors[j], observed, disk))
      {
        var it := Build(flavors[i], observed, disk);
        ProvisioningHidesTheDisk(it);
        if !ready {
          it := it.(capacity := it.capacity[Disk := 0], overhead := it.overhead - {Disk});
        }
        its := its + [it];
      }
    }
  }

  function SizingIn(flavors: seq<Flavor>, flavor: string): Option<Sizing> {
    if flavors == [] then (if flavor in SEED then Some(SEED[flavor]) else None)
    else if flavors[0].name == flavor then Some(flavors[0].Size())
    else SizingIn(flavors[1..], flavor)
  }

  function ObservedOf(observed: map<string, Pair>, flavor: string): Pair {
    if flavor in observed then observed[flavor] else NOTHING
  }

  /** minMerge, walking each list in any order. */
  method MergeMinimum(prev: Quantities, next: Quantities) returns (out: Quantities)
    ensures out == MinMerge(prev, next)
  {
    out := prev;
    var rest := next.Keys;
    while rest != {}
      invariant rest <= next.Keys
      invariant out == MinMerge(prev, map r | r in next && r !in rest :: next[r])
    {
      var r :| r in rest;
      rest := rest - {r};
      if r !in out || next[r] < out[r] { out := out[r := next[r]]; }
    }
    assert next == map r | r in next && r !in rest :: next[r];
  }
}
