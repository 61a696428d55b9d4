/** The group a launch creates, with the disk it was promised frozen in its annotations, and how that
    disk is read back (ResolveAndCreate's literal in pkg/providers/nodegroup/nodegroup.go;
    pkg/cloudprovider/storage_snapshot.go; buildNodeClaim in pkg/cloudprovider/cloudprovider.go). */
module DiskSnapshot {
  import opened Base
  import opened NodeGroupApi
  import opened NodeClasses
  import opened LearnedCapacity
  import Catalogue
  import CapacityTheorems
  import Drift
  import Migration

  const NANO := 1_000_000_000

  datatype Snapshot = Snapshot(capacity: int, allocatable: int)

  /** Why a snapshot is refused. */
  datatype Corrupt = Malformed(annotation: string) | OneZero | AboveCapacity

  function DiskOf(q: Quantities): int { Get(q, Disk) }

  /** diskSnapshotAnnotations: the disk of the type the launch resolved, printed as quantities. */
  function SnapshotAnnotations(it: InstanceType): map<string, Annotation> {
    map[
      DISK_CAPACITY := Amount(DiskOf(it.capacity) * NANO),
      DISK_ALLOCATABLE := Amount(DiskOf(it.Allocatable()) * NANO)]
  }

  /** A non-negative whole number of bytes an int64 can hold; Quantity.Value rounds up. */
  function WholeBytes(a: Annotation): Option<int> {
    match a
    case Amount(nanos) =>
      var bytes := (nanos + NANO - 1) / NANO;
      if 0 <= bytes <= MAX_INT64 && bytes * NANO == nanos then Some(bytes) else None
    case _ => None
  }

  function TextOf(ng: NodeGroup, key: string): Annotation {
    if key in ng.annotations then ng.annotations[key] else Text("")
  }

  /** readDiskSnapshot. No annotation is a group older than the feature; a zero pair is a disk that was
      unknown at launch; anything partial or malformed is an error. */
  method ReadDiskSnapshot(ng: NodeGroup) returns (r: Result<Option<Snapshot>, Corrupt>)
    ensures r == SnapshotOf(ng)
  {
    if DISK_CAPACITY !in ng.annotations && DISK_ALLOCATABLE !in ng.annotations { return Ok(None); }
    var fields := [DISK_CAPACITY, DISK_ALLOCATABLE];
    var read: seq<int> := [];
    assert fields[0] == DISK_CAPACITY && fields[1] == DISK_ALLOCATABLE;
    for i := 0 to 2
      invariant |read| == i
      invariant forall j | 0 <= j < i :: WholeBytes(TextOf(ng, fields[j])) == Some(read[j])
    {
      var bytes := WholeBytes(TextOf(ng, fields[i]));
      if bytes.None? { return Err(Malformed(fields[i])); }
      read := read + [bytes.value];
    }
    if (read[0] == 0) != (read[1] == 0) { return Err(OneZero); }
    if read[1] > read[0] { return Err(AboveCapacity); }
    return Ok(Some(Snapshot(read[0], read[1])));
  }

  function SnapshotOf(ng: NodeGroup): Result<Option<Snapshot>, Corrupt> {
    if DISK_CAPACITY !in ng.annotations && DISK_ALLOCATABLE !in ng.annotations then Ok(None)
    else
      var capacity := WholeBytes(TextOf(ng, DISK_CAPACITY));
      var allocatable := WholeBytes(TextOf(ng, DISK_ALLOCATABLE));
      if capacity.None? then Err(Malformed(DISK_CAPACITY))
      else if allocatable.None? then Err(Malformed(DISK_ALLOCATABLE))
      else if (capacity.value == 0) != (allocatable.value == 0) then Err(OneZero)
      else if allocatable.value > capacity.value then Err(AboveCapacity)
      else Ok(Some(Snapshot(capacity.value, allocatable.value)))
  }

  /** An annotation holds so many bytes, in whole ones. */
  predicate Holds(ng: NodeGroup, key: string, bytes: int) {
    key in ng.annotations && ng.annotations[key] == Amount(bytes * 1_000_000_000)
  }

  /** A readable snapshot, by the two annotations: none without either; otherwise both hold whole bytes, two
      positive figures in order or two zeros. Everything else is an error. */
  lemma SnapshotMeans(ng: NodeGroup, capacity: int, allocatable: int)
    ensures SnapshotOf(ng) == Ok(None) <==>
      && "karpenter.clever-cloud.com/ephemeral-storage-capacity" !in ng.annotations
      && "karpenter.clever-cloud.com/ephemeral-storage-allocatable" !in ng.annotations
    ensures SnapshotOf(ng) == Ok(Some(Snapshot(capacity, allocatable))) <==>
      && Holds(ng, "karpenter.clever-cloud.com/ephemeral-storage-capacity", capacity)
      && Holds(ng, "karpenter.clever-cloud.com/ephemeral-storage-allocatable", allocatable)
      && ((capacity == 0 && allocatable == 0) || 0 < allocatable <= capacity <= 0x7FFF_FFFF_FFFF_FFFF)
  {
    WholeBytesMeans(TextOf(ng, DISK_CAPACITY), capacity);
    WholeBytesMeans(TextOf(ng, DISK_ALLOCATABLE), allocatable);
  }

  lemma WholeBytesMeans(a: Annotation, bytes: int)
    ensures WholeBytes(a) == Some(bytes) <==> a == Amount(bytes * NANO) && 0 <= bytes <= MAX_INT64
  {
  }

  /** The disk a claim built from a group reports: its snapshot, or the type's when it has none (or a
      corrupt one: Get and List must keep serving it). */
  function ReportedDisk(ng: NodeGroup, it: InstanceType): Snapshot {
    match SnapshotOf(ng)
    case Ok(Some(snapshot)) => snapshot
    case _ => Snapshot(DiskOf(it.capacity), DiskOf(it.Allocatable()))
  }

  /** The NodeGroup a launch creates: the managed marker, the claim's identity, the stamp of the
      NodeClass, and the launch's annotations under keys the stamp does not reserve. */
  function NewGroup(syntax: Syntax, claim: Claim, className: string, spec: Spec, flavor: string,
      extra: map<string, Annotation>): NodeGroup
  {
    var stamp := map[NODECLASS_HASH := Stamped(HashV3(syntax, spec)), NODECLASS_HASH_VERSION := Text(CURRENT)];
    NodeGroup(
      claim.name, "",
      map[
        MANAGED := "true", NODECLAIM := claim.name,
        NODEPOOL := Label(claim.labels, "karpenter.sh/nodepool"), NODECLASS := className],
      extra + stamp,
      [OwnerRef("karpenter.sh/v1", "NodeClaim", claim.name, claim.uid)],
      flavor, 1, Payload(syntax, claim.labels, spec), 0, false, "", [])
  }

  /** Field by field: one node of the flavor, owned and labelled for its claim, its class's and claim's labels
      delivered, and every annotation of the launch that the stamp does not reserve. */
  lemma NewGroupFields(syntax: Syntax, claim: Claim, className: string, spec: Spec, flavor: string,
      extra: map<string, Annotation>, key: string)
    ensures var ng := NewGroup(syntax, claim, className, spec, flavor, extra);
      && ng.name == claim.name && ng.flavor == flavor && ng.nodeCount == 1
      && ng.owners == [OwnerRef("karpenter.sh/v1", "NodeClaim", claim.name, claim.uid)]
      && ng.labels["karpenter.clever-cloud.com/managed"] == "true"
      && ng.labels["karpenter.clever-cloud.com/nodeclaim"] == claim.name
      && ng.labels["karpenter.clever-cloud.com/nodeclass"] == className
      && (ng.labels["karpenter.clever-cloud.com/nodepool"] ==
            if "karpenter.sh/nodepool" in claim.labels then claim.labels["karpenter.sh/nodepool"] else "")
      && (key != NODECLASS_HASH && key != NODECLASS_HASH_VERSION ==>
            (key in ng.annotations <==> key in extra) && (key in extra ==> ng.annotations[key] == extra[key]))
  {
  }

  /** A new group belongs to its claim, and its stamp says what it was built from: no drift until what
      the NodeClass delivers changes. */
  lemma NewGroupIsOwnedAndHonest(syntax: Syntax, claim: Claim, className: string, spec: Spec, flavor: string,
      extra: map<string, Annotation>, uid: string)
    ensures var ng := NewGroup(syntax, claim, className, spec, flavor, extra).(uid := uid);
      && OwnedByNodeClaim(ng, claim)
      && Migration.StampOf(ng) == Some(Drift.Stamp(CURRENT, Stamped(StampedBy(syntax, V3, spec))))
      && !Drift.IsDrifted(syntax, spec, Migration.StampOf(ng))
      && ng.payload == Payload(syntax, claim.labels, spec)
  {
    var ng := NewGroup(syntax, claim, className, spec, flavor, extra).(uid := uid);
    assert ng.annotations[NODECLASS_HASH] == Stamped(HashV3(syntax, spec));
    assert ng.labels[MANAGED] == "true" && ng.labels[NODECLAIM] == claim.name;
    assert OwnerRef("karpenter.sh/v1", "NodeClaim", claim.name, claim.uid) in ng.owners;
  }

  /** Any disk a launch can be promised, in any reachable state of the reference and the observations,
      is one the snapshot accepts: two positive figures in order, or the unknown zero pair. */
  predicate Storable(capacity: int, allocatable: int) {
    (capacity == 0 && allocatable == 0) || 0 < allocatable <= capacity <= MAX_INT64
  }

  lemma PrintedIsReadBack(bytes: int)
    requires 0 <= bytes <= MAX_INT64
    ensures WholeBytes(Amount(bytes * NANO)) == Some(bytes)
  {
  }

  lemma ServedDiskIsStorable(flavors: seq<Catalogue.Flavor>, ops: seq<CapacityTheorems.Op>, i: nat)
    requires i < |flavors| && Distinct(Catalogue.FlavorNames(flavors))
    ensures var s := CapacityTheorems.Run(flavors, CapacityTheorems.START, ops);
            var it := ForProvisioning(Build(flavors[i], s.observed, s.disk), Ready(s.disk));
            Storable(DiskOf(it.capacity), DiskOf(it.Allocatable()))
  {
    var s := CapacityTheorems.Run(flavors, CapacityTheorems.START, ops);
    CapacityTheorems.ServedTypesAreSound(flavors, ops, i, Disk);
    CapacityTheorems.ObservationsAreMinima(flavors, ops);
    CapacityTheorems.LearnedStaysNearEntry(flavors, ops, flavors[i].name) by {
      CapacityTheorems.SizingOfEntry(flavors, i);
    }
  }

  /** Snapshot stability. A group launched in any reachable state reports, for ever after, exactly the
      disk its launch was promised: whatever type describes it later (another reference, other
      observations, a restarted controller, a flavor gone from the catalogue), and whether or not its
      stamp was migrated since. */
  lemma SnapshotIsStable(syntax: Syntax, flavors: seq<Catalogue.Flavor>, ops: seq<CapacityTheorems.Op>, i: nat,
      claim: Claim, className: string, spec: Spec, uid: string, later: InstanceType, stamp: Drift.Stamp)
    requires i < |flavors| && Distinct(Catalogue.FlavorNames(flavors))
    ensures var s := CapacityTheorems.Run(flavors, CapacityTheorems.START, ops);
            var it := ForProvisioning(Build(flavors[i], s.observed, s.disk), Ready(s.disk));
            var ng := NewGroup(syntax, claim, className, spec, flavors[i].name, SnapshotAnnotations(it)).(uid := uid);
            var promised := Snapshot(DiskOf(it.capacity), DiskOf(it.Allocatable()));
            && SnapshotOf(ng) == Ok(Some(promised))
            && ReportedDisk(ng, later) == promised
            && ReportedDisk(Migration.WithStamp(ng, stamp), later) == promised
            && (s.disk.required && !s.disk.ready ==> promised == Snapshot(0, 0))
            && (!(s.disk.required && !s.disk.ready) ==>
                  var learned := ObservedOf(s.observed, flavors[i].name);
                  (promised.capacity, promised.allocatable) ==
                  CapacityTheorems.ServedPair(flavors[i].Size(), learned, s.disk, Disk))
  {
    var s := CapacityTheorems.Run(flavors, CapacityTheorems.START, ops);
    var it := ForProvisioning(Build(flavors[i], s.observed, s.disk), Ready(s.disk));
    ServedDiskIsStorable(flavors, ops, i);
    CapacityTheorems.ProvisionedTypesServe(flavors, ops, i, Disk);
    PrintedIsReadBack(DiskOf(it.capacity));
    PrintedIsReadBack(DiskOf(it.Allocatable()));
    SnapshotSurvives(syntax, claim, className, spec, flavors[i].name, uid, it, stamp);
  }

  /** The stamp's keys are not the snapshot's. */
  lemma KeysDiffer()
    ensures DISK_CAPACITY !in {NODECLASS_HASH, NODECLASS_HASH_VERSION}
        && DISK_ALLOCATABLE !in {NODECLASS_HASH, NODECLASS_HASH_VERSION}
    ensures DISK_CAPACITY != DISK_ALLOCATABLE
  {
    assert DISK_CAPACITY[27] == 'e' && DISK_ALLOCATABLE[27] == 'e' && NODECLASS_HASH[27] == 'c'
        && NODECLASS_HASH_VERSION[27] == 'c';
    assert |DISK_CAPACITY| != |DISK_ALLOCATABLE|;
  }

  lemma SnapshotSurvives(syntax: Syntax, claim: Claim, className: string, spec: Spec, flavor: string, uid: string,
      it: InstanceType, stamp: Drift.Stamp)
    ensures var ng := NewGroup(syntax, claim, className, spec, flavor, SnapshotAnnotations(it)).(uid := uid);
            && TextOf(ng, DISK_CAPACITY) == Amount(DiskOf(it.capacity) * NANO)
            && TextOf(ng, DISK_ALLOCATABLE) == Amount(DiskOf(it.Allocatable()) * NANO)
            && DISK_CAPACITY in ng.annotations
            && SnapshotOf(Migration.WithStamp(ng, stamp)) == SnapshotOf(ng)
  {
    KeysDiffer();
    RestampKeepsSnapshot(NewGroup(syntax, claim, className, spec, flavor, SnapshotAnnotations(it)).(uid := uid), stamp);
  }

  /** A launch made while the disk of new workers is unknown records just that, whatever the flavor and
      whatever was learned. */
  lemma UnknownDiskIsFrozen(syntax: Syntax, claim: Claim, className: string, spec: Spec, flavor: string, uid: string,
      built: InstanceType, later: InstanceType)
    ensures var it := ForProvisioning(built, false);
            var ng := NewGroup(syntax, claim, className, spec, flavor, SnapshotAnnotations(it)).(uid := uid);
            SnapshotOf(ng) == Ok(Some(Snapshot(0, 0))) && ReportedDisk(ng, later) == Snapshot(0, 0)
  {
    var it := ForProvisioning(built, false);
    ProvisioningHidesTheDisk(built);
    SnapshotSurvives(syntax, claim, className, spec, flavor, uid, it, Drift.Stamp("", Text("")));
  }

  lemma RestampKeepsSnapshot(ng: NodeGroup, stamp: Drift.Stamp)
    ensures SnapshotOf(Migration.WithStamp(ng, stamp)) == SnapshotOf(ng)
  {
    KeysDiffer();
  }
}
