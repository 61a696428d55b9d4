/** What a launch resolves to and what Create reports (pkg/cloudprovider/cloudprovider.go,
    existingDiskLaunch of storage_snapshot.go). */
module CloudProvider {
  import opened Base
  import opened NodeGroupApi
  import opened NodeClasses
  import opened DiskSnapshot
  import opened LaunchProtocol
  import LaunchTheorems
  import LearnedCapacity
  import RefusalMemory
  import CapacityTheorems
  import Catalogue
  import NodeGroupProvider
  import Drift
  import LaunchScript
  import AcceptancePoll

  datatype Offering = Offering(price: int, available: bool)

  /** One catalogue entry as the claim sees it: whether its requirements intersect the claim's, its
      resources fit, and the offerings compatible with the claim. */
  datatype Candidate = Candidate(name: string, intersects: bool, fits: bool, compatible: seq<Offering>)

  predicate Serves(c: Candidate) { c.intersects && c.fits }

  predicate Launchable(c: Candidate) {
    Serves(c) && exists o <- c.compatible :: o.available
  }

  /** Only its availability rules it out. */
  predicate RuledOut(c: Candidate) {
    Serves(c) && c.compatible != [] && forall o <- c.compatible :: !o.available
  }

  /** The cheapest available offering of a candidate. */
  ghost predicate PricedAt(c: Candidate, price: int) {
    && (exists o <- c.compatible :: o.available && o.price == price)
    && (forall o <- c.compatible :: o.available ==> price <= o.price)
  }

  method CheapestAvailable(offerings: seq<Offering>) returns (price: Option<int>)
    ensures price.None? <==> forall o <- offerings :: !o.available
    ensures price.Some? ==> exists o <- offerings :: o.available && o.price == price.value
    ensures price.Some? ==> forall o <- offerings :: o.available ==> price.value <= o.price
  {
    price := None;
    for i := 0 to |offerings|
      invariant price.None? <==> forall j | 0 <= j < i :: !offerings[j].available
      invariant price.Some? ==> exists o <- offerings :: o.available && o.price == price.value
      invariant price.Some? ==> forall j | 0 <= j < i :: offerings[j].available ==> price.value <= offerings[j].price
    {
      if offerings[i].available && (price.None? || offerings[i].price < price.value) {
        price := Some(offerings[i].price);
        assert offerings[i] in offerings;
      }
    }
  }

  /** The candidates that only availability rules out. */
  function RuledOutCount(cs: seq<Candidate>): nat {
    if cs == [] then 0 else RuledOutCount(cs[..|cs| - 1]) + (if RuledOut(cs[|cs| - 1]) then 1 else 0)
  }

  /** The first of the cheapest launchable candidates. */
  ghost predicate FirstCheapest(cs: seq<Candidate>, k: nat) {
    && k < |cs| && Launchable(cs[k])
    && exists price :: PricedAt(cs[k], price)
         && (forall j, p | 0 <= j < |cs| && Launchable(cs[j]) && PricedAt(cs[j], p) :: price <= p)
         && (forall j, p | 0 <= j < k && Launchable(cs[j]) && PricedAt(cs[j], p) :: price < p)
  }

  /** resolveInstanceType's selection: the first of the cheapest launchable flavors in catalogue order,
      or none exactly when no flavor is launchable; and how many only availability ruled out. */
  method SelectCheapest(cs: seq<Candidate>) returns (best: Option<nat>, unavailable: nat)
    ensures best.None? <==> forall c <- cs :: !Launchable(c)
    ensures best.Some? ==> FirstCheapest(cs, best.value)
    ensures unavailable == RuledOutCount(cs)
  {
    best, unavailable := None, 0;
    var bestPrice := 0;
    for i := 0 to |cs|
      invariant best.None? <==> forall j | 0 <= j < i :: !Launchable(cs[j])
      invariant best.Some? ==> best.value < i && Launchable(cs[best.value]) && PricedAt(cs[best.value], bestPrice)
      invariant best.Some? ==> forall j, p | 0 <= j < i && Launchable(cs[j]) && PricedAt(cs[j], p) :: bestPrice <= p
      invariant best.Some? ==>
          forall j, p | 0 <= j < best.value && Launchable(cs[j]) && PricedAt(cs[j], p) :: bestPrice < p
      invariant unavailable == RuledOutCount(cs[..i])
    {
      var c := cs[i];
      assert cs[..i + 1][..i] == cs[..i];
      if !c.intersects || !c.fits { continue; }
      var price := CheapestAvailable(c.compatible);
      if price.None? {
        if c.compatible != [] { unavailable := unavailable + 1; }
        continue;
      }
      assert PricedAt(c, price.value);
      if best.None? || price.value < bestPrice { best, bestPrice := Some(i), price.value; }
    }
    assert cs[..|cs|] == cs;
  }

  /** A candidate as the scheduler must see it: without an available offering while a launch of its
      flavor is known to fail. */
  function Marked(m: RefusalMemory.Memory, sizes: Catalogue.Sizes, now: nat, c: Candidate): Candidate {
    if RefusalMemory.Unavailable(m, sizes, c.name, now)
    then
      var offerings := c.compatible;
      c.(compatible := seq(|offerings|, i requires 0 <= i < |offerings| => offerings[i].(available := false)))
    else c
  }

  /** instanceTypes: every flavor stays in the list, whatever its availability. */
  method MarkUnavailable(provider: NodeGroupProvider.Provider, cs: seq<Candidate>, now: nat)
    returns (marked: seq<Candidate>)
    ensures |marked| == |cs|
    ensures forall i | 0 <= i < |cs| :: marked[i] == Marked(provider.Mem(), provider.catalogue, now, cs[i])
  {
    marked := cs;
    for i := 0 to |cs|
      invariant |marked| == |cs|
      invariant forall j | 0 <= j < i :: marked[j] == Marked(provider.Mem(), provider.catalogue, now, cs[j])
      invariant forall j | i <= j < |cs| :: marked[j] == cs[j]
    {
      var unavailable := provider.IsUnavailable(cs[i].name, now);
      if !unavailable { continue; }
      var offerings := cs[i].compatible;
      for k := 0 to |offerings|
        invariant |offerings| == |cs[i].compatible|
        invariant forall l | 0 <= l < k :: offerings[l] == cs[i].compatible[l].(available := false)
        invariant forall l | k <= l < |offerings| :: offerings[l] == cs[i].compatible[l]
      {
        offerings := offerings[k := offerings[k].(available := false)];
      }
      assert cs[i].(compatible := offerings) == Marked(provider.Mem(), provider.catalogue, now, cs[i]);
      marked := marked[i := cs[i].(compatible := offerings)];
    }
  }

  /** What resolveInstanceType refuses before selecting: with the disk of new workers unknown, no claim
      that requests disk, and none of a NodePool whose limits count it. */
  function DiskGate(diskReady: bool, requestedDisk: int, pool: PoolAnswer): Option<Failure> {
    if diskReady then None
    else if requestedDisk > 0 then Some(InsufficientCapacity)
    else if pool == PoolUnread then Some(Retryable)
    else if pool.Pool? && pool.diskLimit then Some(InsufficientCapacity)
    else None
  }

  /** A flavor a launch may pick at an instant. */
  predicate Open(m: RefusalMemory.Memory, sizes: Catalogue.Sizes, now: nat, c: Candidate) {
    Launchable(c) && !RefusalMemory.Unavailable(m, sizes, c.name, now)
  }

  /** It serves the claim, and nothing but its availability keeps it from being picked. */
  predicate Excluded(m: RefusalMemory.Memory, sizes: Catalogue.Sizes, now: nat, c: Candidate) {
    Serves(c) && c.compatible != [] && !Open(m, sizes, now, c)
  }

  /** The first of the cheapest flavors a launch may pick, in catalogue order. */
  ghost predicate Chosen(m: RefusalMemory.Memory, sizes: Catalogue.Sizes, now: nat, cs: seq<Candidate>, k: nat) {
    && k < |cs| && Open(m, sizes, now, cs[k])
    && exists price :: PricedAt(cs[k], price)
         && (forall j, p | 0 <= j < |cs| && Open(m, sizes, now, cs[j]) && PricedAt(cs[j], p) :: price <= p)
         && (forall j, p | 0 <= j < k && Open(m, sizes, now, cs[j]) && PricedAt(cs[j], p) :: price < p)
  }

  /** An offering a launch may take: available, of a flavor that serves the claim and is not known to fail. */
  predicate Takes(m: RefusalMemory.Memory, sizes: Catalogue.Sizes, now: nat, c: Candidate, o: Offering) {
    o in c.compatible && o.available && c.intersects && c.fits && !RefusalMemory.Unavailable(m, sizes, c.name, now)
  }

  /** In full: the flavor chosen has an offering the claim may take that none of another flavor undercuts, nor
      any of a flavor listed before equals. */
  lemma ChosenMeans(m: RefusalMemory.Memory, sizes: Catalogue.Sizes, now: nat, cs: seq<Candidate>, k: nat)
    ensures Chosen(m, sizes, now, cs, k) <==>
      k < |cs| && exists o :: Takes(m, sizes, now, cs[k], o)
                    && forall j, p | 0 <= j < |cs| && Takes(m, sizes, now, cs[j], p) ::
                         o.price <= p.price && (j < k ==> o.price < p.price)
  {
    if Chosen(m, sizes, now, cs, k) { ChosenUndercuts(m, sizes, now, cs, k); }
    if o :| k < |cs| && Takes(m, sizes, now, cs[k], o)
            && forall j, p | 0 <= j < |cs| && Takes(m, sizes, now, cs[j], p) ::
                 o.price <= p.price && (j < k ==> o.price < p.price)
    {
      assert forall p | p in cs[k].compatible && p.available :: Takes(m, sizes, now, cs[k], p);
      assert PricedAt(cs[k], o.price);
      forall j, price | 0 <= j < |cs| && Open(m, sizes, now, cs[j]) && PricedAt(cs[j], price)
        ensures o.price <= price && (j < k ==> o.price < price)
      {
        var p :| p in cs[j].compatible && p.available && p.price == price;
        assert Takes(m, sizes, now, cs[j], p);
      }
    }
  }

  lemma ChosenUndercuts(m: RefusalMemory.Memory, sizes: Catalogue.Sizes, now: nat, cs: seq<Candidate>, k: nat)
    requires Chosen(m, sizes, now, cs, k)
    ensures exists o :: Takes(m, sizes, now, cs[k], o)
              && forall j, p | 0 <= j < |cs| && Takes(m, sizes, now, cs[j], p) ::
                   o.price <= p.price && (j < k ==> o.price < p.price)
  {
    var price :| PricedAt(cs[k], price)
       && (forall j, p | 0 <= j < |cs| && Open(m, sizes, now, cs[j]) && PricedAt(cs[j], p) :: price <= p)
       && (forall j, p | 0 <= j < k && Open(m, sizes, now, cs[j]) && PricedAt(cs[j], p) :: price < p);
    var o :| o in cs[k].compatible && o.available && o.price == price;
    assert Takes(m, sizes, now, cs[k], o);
    forall j, p | 0 <= j < |cs| && Takes(m, sizes, now, cs[j], p)
      ensures o.price <= p.price && (j < k ==> o.price < p.price)
    {
      var cheapest := CheapestOf(cs[j], p);
      assert Open(m, sizes, now, cs[j]) && PricedAt(cs[j], cheapest);
    }
  }

  /** An available offering has a cheapest one beside it. */
  lemma CheapestOf(c: Candidate, p: Offering) returns (price: int)
    requires p in c.compatible && p.available
    ensures PricedAt(c, price) && price <= p.price
    decreases |c.compatible|
  {
    var last := |c.compatible| - 1;
    var rest := c.(compatible := c.compatible[..last]);
    assert c.compatible == rest.compatible + [c.compatible[last]];
    price := p.price;
    if q :| q in rest.compatible && q.available {
      price := CheapestOf(rest, if p in rest.compatible then p else q);
      if c.compatible[last].available && c.compatible[last].price < price { price := c.compatible[last].price; }
    }
  }

  /** No flavor may be picked exactly when the claim may take no offering. */
  lemma NoneToTake(m: RefusalMemory.Memory, sizes: Catalogue.Sizes, now: nat, cs: seq<Candidate>)
    ensures (forall c <- cs :: !Open(m, sizes, now, c)) <==> forall c, o | c in cs :: !Takes(m, sizes, now, c, o)
  {
    if c :| c in cs && Open(m, sizes, now, c) {
      var o :| o in c.compatible && o.available;
      assert Takes(m, sizes, now, c, o);
    }
  }

  function ExcludedCount(m: RefusalMemory.Memory, sizes: Catalogue.Sizes, now: nat, cs: seq<Candidate>): nat {
    if cs == [] then 0
    else ExcludedCount(m, sizes, now, cs[..|cs| - 1]) + (if Excluded(m, sizes, now, cs[|cs| - 1]) then 1 else 0)
  }

  /** It would serve the claim and has compatible offerings, but is known to fail or has none available. */
  predicate OutOfStock(m: RefusalMemory.Memory, sizes: Catalogue.Sizes, now: nat, c: Candidate) {
    c.intersects && c.fits && c.compatible != []
    && (RefusalMemory.Unavailable(m, sizes, c.name, now) || forall o <- c.compatible :: !o.available)
  }

  function PlacesOutOfStock(m: RefusalMemory.Memory, sizes: Catalogue.Sizes, now: nat, cs: seq<Candidate>): set<nat> {
    set i: nat | i < |cs| && OutOfStock(m, sizes, now, cs[i])
  }

  lemma ExcludedMeans(m: RefusalMemory.Memory, sizes: Catalogue.Sizes, now: nat, c: Candidate)
    ensures Excluded(m, sizes, now, c) <==> OutOfStock(m, sizes, now, c)
  {
  }

  lemma {:induction false} ExcludedCountCounts(m: RefusalMemory.Memory, sizes: Catalogue.Sizes, now: nat,
      cs: seq<Candidate>)
    ensures ExcludedCount(m, sizes, now, cs) == |PlacesOutOfStock(m, sizes, now, cs)|
  {
    if cs != [] {
      var n := |cs| - 1;
      ExcludedCountCounts(m, sizes, now, cs[..n]);
      ExcludedMeans(m, sizes, now, cs[n]);
      OneMorePlace(m, sizes, now, cs);
    } else if i :| i in PlacesOutOfStock(m, sizes, now, cs) {
    }
  }

  lemma OneMorePlace(m: RefusalMemory.Memory, sizes: Catalogue.Sizes, now: nat, cs: seq<Candidate>)
    requires cs != []
    ensures var n := |cs| - 1;
            |PlacesOutOfStock(m, sizes, now, cs)| ==
            |PlacesOutOfStock(m, sizes, now, cs[..n])| + (if OutOfStock(m, sizes, now, cs[n]) then 1 else 0)
  {
    var n := |cs| - 1;
    var before, after := PlacesOutOfStock(m, sizes, now, cs[..n]), PlacesOutOfStock(m, sizes, now, cs);
    forall i: nat | i < n ensures i in after <==> i in before {
      assert cs[..n][i] == cs[i];
    }
    assert n in after <==> OutOfStock(m, sizes, now, cs[n]);
    assert n !in before && forall i <- after :: i <= n;
    if n in after { assert after == before + {n}; } else { assert after == before; }
  }

  /** resolveInstanceType: past the disk gate it picks the first of the cheapest flavors that serve the
      claim and are not known to fail, fails exactly when there is none, and counts exactly the flavors
      that only availability ruled out. */
  method ResolveInstanceType(provider: NodeGroupProvider.Provider, cs: seq<Candidate>, diskReady: bool,
      requestedDisk: int, pool: PoolAnswer, now: nat)
    returns (r: Result<nat, Failure>, unavailable: nat)
    ensures r == Err(Retryable) <==> !diskReady && requestedDisk <= 0 && pool == PoolUnread
    ensures !diskReady && (requestedDisk > 0 || pool == Pool(true)) ==> r == Err(InsufficientCapacity)
    ensures diskReady || (requestedDisk <= 0 && (pool == NoPool || pool == Pool(false))) ==>
      && (r.Err? <==> forall c <- cs :: !Open(provider.Mem(), provider.catalogue, now, c))
      && (r.Err? ==> r.error == InsufficientCapacity)
      && unavailable == |PlacesOutOfStock(provider.Mem(), provider.catalogue, now, cs)|
    ensures r.Ok? ==> Chosen(provider.Mem(), provider.catalogue, now, cs, r.value)
  {
    var gate := DiskGate(diskReady, requestedDisk, pool);
    if gate.Some? { return Err(gate.value), 0; }
    var marked := MarkUnavailable(provider, cs, now);
    var best;
    best, unavailable := SelectCheapest(marked);
    MarkingCounts(provider.Mem(), provider.catalogue, now, cs, marked);
    ExcludedCountCounts(provider.Mem(), provider.catalogue, now, cs);
    MarkingChooses(provider.Mem(), provider.catalogue, now, cs, marked);
    if best.None? { return Err(InsufficientCapacity), unavailable; }
    return Ok(best.value), unavailable;
  }

  lemma OnlyAvailableIsLaunchable(m: RefusalMemory.Memory, sizes: Catalogue.Sizes, now: nat, c: Candidate)
    ensures Launchable(Marked(m, sizes, now, c)) <==> Open(m, sizes, now, c)
    ensures RuledOut(Marked(m, sizes, now, c)) <==> Excluded(m, sizes, now, c)
    ensures Open(m, sizes, now, c) ==> Marked(m, sizes, now, c) == c
  {
    var marked := Marked(m, sizes, now, c);
    if RefusalMemory.Unavailable(m, sizes, c.name, now) {
      forall o | o in marked.compatible ensures !o.available { }
    }
  }

  lemma {:induction false} MarkingCounts(m: RefusalMemory.Memory, sizes: Catalogue.Sizes, now: nat, cs: seq<Candidate>,
      marked: seq<Candidate>)
    requires |marked| == |cs| && forall i | 0 <= i < |cs| :: marked[i] == Marked(m, sizes, now, cs[i])
    ensures RuledOutCount(marked) == ExcludedCount(m, sizes, now, cs)
  {
    if cs == [] {
    } else {
      var n := |cs| - 1;
      MarkingCounts(m, sizes, now, cs[..n], marked[..n]);
      OnlyAvailableIsLaunchable(m, sizes, now, cs[n]);
    }
  }

  /** A choice among the marked flavors is one among the flavors that may be picked. */
  lemma MarkingChooses(m: RefusalMemory.Memory, sizes: Catalogue.Sizes, now: nat, cs: seq<Candidate>,
      marked: seq<Candidate>)
    requires |marked| == |cs| && forall i | 0 <= i < |cs| :: marked[i] == Marked(m, sizes, now, cs[i])
    ensures (forall c <- marked :: !Launchable(c)) <==> (forall c <- cs :: !Open(m, sizes, now, c))
    ensures forall k: nat | FirstCheapest(marked, k) :: Chosen(m, sizes, now, cs, k)
  {
    forall i | 0 <= i < |cs| ensures Launchable(marked[i]) <==> Open(m, sizes, now, cs[i]) {
      OnlyAvailableIsLaunchable(m, sizes, now, cs[i]);
    }
    forall i | 0 <= i < |cs| && Open(m, sizes, now, cs[i]) ensures marked[i] == cs[i] {
      OnlyAvailableIsLaunchable(m, sizes, now, cs[i]);
    }
    assert forall i | 0 <= i < |cs| :: marked[i] in marked && cs[i] in cs;
    forall k: nat | FirstCheapest(marked, k) ensures Chosen(m, sizes, now, cs, k) {
      var price :| PricedAt(marked[k], price)
         && (forall j, p | 0 <= j < |marked| && Launchable(marked[j]) && PricedAt(marked[j], p) :: price <= p)
         && (forall j, p | 0 <= j < k && Launchable(marked[j]) && PricedAt(marked[j], p) :: price < p);
      assert PricedAt(cs[k], price);
    }
  }

  /** A selection made under the lock reaches its create call unless a late refusal stops it: whatever the
      others do between the resolver's own check and the fast-fail, the launch passes, or it fails because
      one recorded meanwhile, of its flavor or of one it is at least as large as, is in force. */
  lemma SelectionIsAdmitted(sizes: Catalogue.Sizes, s: State, actions: seq<Action>)
    requires s.launch.Resolved? && s.launch.plan.existing.None? && RefusalMemory.SizedBy(s.mem, sizes)
    requires !RefusalMemory.Unavailable(s.mem, sizes, s.launch.plan.draft.flavor, s.now)
    requires LaunchTheorems.Others(actions)
    ensures var flavor := s.launch.plan.draft.flavor;
            var t := Run(sizes, s, actions);
            var checked := Apply(sizes, t, Check);
            if RefusalMemory.QuotaCovers(t.mem, sizes, flavor, t.now)
            then checked.last == Some(FastFailed(flavor)) && checked.launch == Free
                 && exists i: nat :: LaunchTheorems.LateCause(sizes, t, |s.log|, flavor, i)
            else checked.launch == Admitted(s.launch.claim, s.launch.plan, Passed(t.now, |t.log|))
  {
    LaunchTheorems.OthersPassBy(sizes, s, actions);
    LaunchTheorems.OnlyALateRefusalCovers(sizes, s, actions, s.launch.plan.draft.flavor);
  }

  // ---------------------------------------------------------------- Create

  /** What the API server answers about the claim itself. */
  datatype LiveClaim = ClaimGone | ClaimUnread | LiveClaim(uid: string, deleting: bool)

  /** checkNodeClaimWanted. */
  predicate Wanted(claim: Claim, live: LiveClaim) {
    live.LiveClaim? && live.uid == claim.uid && !live.deleting
  }

  datatype ExistingGroup = NoGroup | GroupUnread | ExistingGroup(ng: NodeGroup)

  datatype LiveClass = ClassGone | ClassUnread | LiveClass(name: string, spec: Spec, ready: bool, deleting: bool)

  datatype Failure = NotLaunched | InsufficientCapacity | Retryable

  /** The claim handed back to Karpenter, as far as launching decides it. */
  datatype View = View(name: string, providerGroup: string, flavor: string, disk: Snapshot)

  datatype PoolAnswer = NoPool | PoolUnread | Pool(diskLimit: bool)

  /** existingDiskLaunch: the group an earlier attempt created, if it is this claim's and readable. */
  function OwnGroup(claim: Claim, existing: ExistingGroup): Result<Option<NodeGroup>, Failure> {
    match existing
    case NoGroup => Ok(None)
    case GroupUnread => Err(Retryable)
    case ExistingGroup(ng) =>
      if OwnedByNodeClaim(ng, claim) && SnapshotOf(ng).Ok? then Ok(Some(ng)) else Err(Retryable)
  }

  /** What the catalogue serves, what it has learned, and the disk of new workers. */
  datatype Serving = Serving(
    flavors: seq<Catalogue.Flavor>, observed: map<string, LearnedCapacity.Pair>, disk: LearnedCapacity.DiskMode)

  function FlavorIn(flavors: seq<Catalogue.Flavor>, name: string): (f: Option<Catalogue.Flavor>)
    ensures f.Some? ==> f.value.name == name && f.value in flavors
    ensures f.None? <==> forall g <- flavors :: g.name != name
  {
    if flavors == [] then None else if flavors[0].name == name then Some(flavors[0]) else FlavorIn(flavors[1..], name)
  }

  /** The entry a synthesized type is built from: the seed's, or a name only. */
  function SeedEntry(name: string): Catalogue.Flavor {
    var size := Catalogue.SizeOf(Catalogue.SEED, name);
    var price := if name in Catalogue.SEED then Catalogue.RelativePrice(size) else 0;
    Catalogue.Flavor(name, size.cpu, size.memoryKi, price)
  }

  /** Synthesize: a type for a flavor the catalogue no longer serves, from its seed if it has one, under
      what was observed of it and the disk reference; without memory, it reserves nothing. */
  function Synthesized(flavor: string, serving: Serving): LearnedCapacity.InstanceType {
    var it := LearnedCapacity.Build(SeedEntry(flavor), serving.observed, serving.disk);
    if LearnedCapacity.Get(it.capacity, LearnedCapacity.Memory) == 0 then it.(overhead := map[]) else it
  }

  /** In any reachable state, a synthesized type allocates no more of a resource than there is, and some of
      each when the seed knows the flavor. */
  lemma SynthesizedIsSound(flavors: seq<Catalogue.Flavor>, ops: seq<CapacityTheorems.Op>, flavor: string,
      r: LearnedCapacity.Resource)
    requires flavor !in Catalogue.FlavorNames(flavors)
    ensures var s := CapacityTheorems.Run(flavors, CapacityTheorems.START, ops);
            var it := Synthesized(flavor, Serving(flavors, s.observed, s.disk));
            && r in it.capacity && r in it.Allocatable()
            && it.Allocatable()[r] <= it.capacity[r]
            && (flavor in Catalogue.SEED ==>
                  && 0 < it.Allocatable()[r]
                  && var learned := LearnedCapacity.ObservedOf(s.observed, flavor);
                     (it.capacity[r], it.Allocatable()[r]) ==
                     CapacityTheorems.ServedPair(Catalogue.SEED[flavor], learned, s.disk, r))
  {
    var s := CapacityTheorems.Run(flavors, CapacityTheorems.START, ops);
    var f := SeedEntry(flavor);
    CapacityTheorems.SizingOfSeed(flavors, flavor);
    if flavor in Catalogue.SEED {
      SeedIsProvisionable(flavor);
      CapacityTheorems.BuiltIsSound(flavors, ops, f, r);
      CapacityTheorems.BuiltIsSound(flavors, ops, f, LearnedCapacity.Memory);
    } else {
      NameOnlyIsSound(flavors, ops, flavor, r);
    }
  }

  lemma NameOnlyIsSound(flavors: seq<Catalogue.Flavor>, ops: seq<CapacityTheorems.Op>, flavor: string,
      r: LearnedCapacity.Resource)
    requires flavor !in Catalogue.SEED
    ensures var s := CapacityTheorems.Run(flavors, CapacityTheorems.START, ops);
            var it := LearnedCapacity.Build(SeedEntry(flavor), s.observed, s.disk);
            r in it.capacity && r in it.Allocatable() && it.Allocatable()[r] <= it.capacity[r]
  {
    var s := CapacityTheorems.Run(flavors, CapacityTheorems.START, ops);
    var f := SeedEntry(flavor);
    CapacityTheorems.ObservedHasSameKeys(flavors, ops, flavor);
    CapacityTheorems.ReachableDiskIsSane(flavors, ops);
    CapacityTheorems.BuildServes(f, s.observed, s.disk, r);
    if r in LearnedCapacity.ObservedOf(s.observed, flavor).capacity {
      CapacityTheorems.LearnedIsSound(flavors, ops, f, r);
    }
  }

  lemma SeedIsProvisionable(flavor: string)
    requires flavor in Catalogue.SEED
    ensures forall r :: CapacityTheorems.Provisionable(SeedEntry(flavor), r)
  {
  }

  /** resolveNodeGroupInstanceType: the catalogue's type of the group's own flavor, or a synthesized one. */
  function TypeOf(serving: Serving, flavor: string): (it: LearnedCapacity.InstanceType)
    ensures it.flavor.name == flavor
  {
    var found := FlavorIn(serving.flavors, flavor);
    if found.Some? then LearnedCapacity.Build(found.value, serving.observed, serving.disk)
    else Synthesized(flavor, serving)
  }

  lemma {:induction false} FlavorInFinds(flavors: seq<Catalogue.Flavor>, i: nat)
    requires i < |flavors| && Distinct(Catalogue.FlavorNames(flavors))
    ensures FlavorIn(flavors, flavors[i].name) == Some(flavors[i])
    decreases i
  {
    var names := Catalogue.FlavorNames(flavors);
    assert names[0] == flavors[0].name && names[i] == flavors[i].name;
    if i > 0 {
      assert Catalogue.FlavorNames(flavors[1..]) == names[1..];
      FlavorInFinds(flavors[1..], i - 1);
    }
  }

  /** In any reachable state a running group of a served flavor is described by that very entry, under the
      disk reference and what was learned, whatever is unavailable or unknown to new launches. */
  lemma ServedTypeOf(flavors: seq<Catalogue.Flavor>, ops: seq<CapacityTheorems.Op>, i: nat, r: LearnedCapacity.Resource)
    requires i < |flavors| && Distinct(Catalogue.FlavorNames(flavors))
    ensures var s := CapacityTheorems.Run(flavors, CapacityTheorems.START, ops);
            var it := TypeOf(Serving(flavors, s.observed, s.disk), flavors[i].name);
            var learned := LearnedCapacity.ObservedOf(s.observed, flavors[i].name);
            && it.flavor == flavors[i] && r in it.capacity && r in it.Allocatable()
            && (it.capacity[r], it.Allocatable()[r]) ==
               CapacityTheorems.ServedPair(flavors[i].Size(), learned, s.disk, r)
  {
    var s := CapacityTheorems.Run(flavors, CapacityTheorems.START, ops);
    FlavorInFinds(flavors, i);
    CapacityTheorems.ObservedHasSameKeys(flavors, ops, flavors[i].name);
    CapacityTheorems.BuildServes(flavors[i], s.observed, s.disk, r);
  }

  /** buildNodeClaim. */
  function Describe(ng: NodeGroup, it: LearnedCapacity.InstanceType): View {
    View(ng.name, ng.name, it.flavor.name, ReportedDisk(ng, it))
  }

  /** The resolver run under the creation lock: nothing is launched for a claim that is gone, replaced or
      being deleted, nor from a NodeClass that is not Ready or is terminating. An owned group makes the
      attempt an adoption, described by its own flavor. */
  function ResolveLaunch(syntax: Syntax, claim: Claim, existing: ExistingGroup, live: LiveClaim, nodeClass: LiveClass,
                         chosen: Result<LearnedCapacity.InstanceType, Failure>, serving: Serving)
    : Result<(Plan, LearnedCapacity.InstanceType), Failure>
  {
    var own := OwnGroup(claim, existing);
    if own.Err? then Err(own.error)
    else if !Wanted(claim, live) then Err(Retryable)
    else match nodeClass
      case ClassGone => Err(InsufficientCapacity)
      case ClassUnread => Err(Retryable)
      case LiveClass(name, spec, ready, deleting) =>
        if !ready || deleting then Err(NotLaunched)
        else if own.value.None? && chosen.Err? then Err(chosen.error)
        else
          var it := if own.value.Some? then TypeOf(serving, own.value.value.flavor) else chosen.value;
          Ok((Plan(NewGroup(syntax, claim, name, spec, it.flavor.name, SnapshotAnnotations(it)), own.value), it))
  }

  predicate Usable(nodeClass: LiveClass) { nodeClass.LiveClass? && nodeClass.ready && !nodeClass.deleting }

  /** What the resolver of an attempt reads of the catalogue: the flavors as candidates, what is served and
      learned of them, the disk the claim requests and the limits of its pool. */
  datatype Catalog = Catalog(cs: seq<Candidate>, serving: Serving, requestedDisk: int, pool: PoolAnswer)

  predicate Aligned(c: Catalog) {
    |c.serving.flavors| == |c.cs| && forall i | 0 <= i < |c.cs| :: c.serving.flavors[i].name == c.cs[i].name
  }

  predicate DiskReady(c: Catalog) { LearnedCapacity.Ready(c.serving.disk) }

  /** The k-th type ListForProvisioning hands out. */
  function ProvisioningType(c: Catalog, k: nat): LearnedCapacity.InstanceType
    requires k < |c.serving.flavors|
  {
    var it := LearnedCapacity.Build(c.serving.flavors[k], c.serving.observed, c.serving.disk);
    LearnedCapacity.ForProvisioning(it, DiskReady(c))
  }

  /** In dynamic mode without a current reference: a claim that requests disk, or whose pool counts it. */
  predicate Gated(c: Catalog) {
    c.serving.disk.required && !c.serving.disk.ready
    && (c.requestedDisk > 0 || c.pool == PoolUnread || c.pool == Pool(true))
  }

  /** A launch may go ahead as far as the claim and its class are concerned: the claim still is the one to
      launch, and the class is Ready and staying. */
  predicate MayLaunch(claim: Claim, live: LiveClaim, nodeClass: LiveClass) {
    live == LiveClaim(claim.uid, false) && nodeClass.LiveClass? && nodeClass.ready && !nodeClass.deleting
  }

  predicate Adoptable(claim: Claim, existing: ExistingGroup) {
    existing.ExistingGroup? && OwnedByNodeClaim(existing.ng, claim) && SnapshotOf(existing.ng).Ok?
  }

  lemma OthersAreNotAdoptable(claim: Claim, existing: ExistingGroup)
    requires existing.ExistingGroup? && forall ref <- existing.ng.owners :: ref.uid != claim.uid
    ensures !Adoptable(claim, existing)
  {
    AdoptionNeedsTheUID(existing.ng, claim);
  }

  /** The error of an attempt that plans nothing: another group in the way, an unwanted claim and a failed
      read are retried as they are; a class not Ready is reported as such; anything else frees the claim. */
  function WhyNot(claim: Claim, existing: ExistingGroup, live: LiveClaim, nodeClass: LiveClass, catalog: Catalog)
    : Failure
  {
    if !existing.NoGroup? && !Adoptable(claim, existing) then Retryable
    else if live != LiveClaim(claim.uid, false) || nodeClass.ClassUnread? then Retryable
    else if nodeClass.LiveClass? && !MayLaunch(claim, live, nodeClass) then NotLaunched
    else if nodeClass.LiveClass? && Gated(catalog) && catalog.requestedDisk <= 0 && catalog.pool == PoolUnread
    then Retryable
    else InsufficientCapacity
  }

  /** The type a fresh launch is for: that of the flavor chosen, without a disk while it is unknown. */
  method ChooseType(provider: NodeGroupProvider.Provider, catalog: Catalog, now: nat)
    returns (chosen: Result<LearnedCapacity.InstanceType, Failure>)
    requires Aligned(catalog)
    ensures chosen.Ok? <==>
      !Gated(catalog) && exists c <- catalog.cs :: Open(provider.Mem(), provider.catalogue, now, c)
    ensures chosen.Err? ==>
      chosen.error == if Gated(catalog) && catalog.requestedDisk <= 0 && catalog.pool == PoolUnread then Retryable
                      else InsufficientCapacity
    ensures chosen.Ok? ==>
      && (exists k: nat :: Chosen(provider.Mem(), provider.catalogue, now, catalog.cs, k)
                           && chosen.value == ProvisioningType(catalog, k))
      && (!DiskReady(catalog) ==> DiskOf(chosen.value.capacity) == 0 && DiskOf(chosen.value.Allocatable()) == 0)
  {
    var picked, unavailable :=
      ResolveInstanceType(provider, catalog.cs, DiskReady(catalog), catalog.requestedDisk, catalog.pool, now);
    if picked.Err? { return Err(picked.error); }
    ghost var built :=
      LearnedCapacity.Build(catalog.serving.flavors[picked.value], catalog.serving.observed, catalog.serving.disk);
    LearnedCapacity.ProvisioningHidesTheDisk(built);
    return Ok(ProvisioningType(catalog, picked.value));
  }

  /** The resolver of Create. A fresh launch is planned exactly when the claim is wanted, its class usable,
      the disk gate open and some flavor may be picked; and then for the first of the cheapest of them. */
  method DecideLaunch(provider: NodeGroupProvider.Provider, syntax: Syntax, claim: Claim, existing: ExistingGroup,
      live: LiveClaim, nodeClass: LiveClass, catalog: Catalog, now: nat)
    returns (resolved: Result<(Plan, LearnedCapacity.InstanceType), Failure>)
    requires Aligned(catalog)
    ensures existing.NoGroup? ==>
      (resolved.Ok? <==> && MayLaunch(claim, live, nodeClass) && !Gated(catalog)
                         && exists c <- catalog.cs :: Open(provider.Mem(), provider.catalogue, now, c))
    ensures !existing.NoGroup? ==> (resolved.Ok? <==> Adoptable(claim, existing) && MayLaunch(claim, live, nodeClass))
    ensures resolved.Err? ==> resolved.error == WhyNot(claim, existing, live, nodeClass, catalog)
    ensures resolved.Ok? ==>
      var (plan, it) := resolved.value;
      && plan.draft.flavor == it.flavor.name && plan.draft.nodeCount == 1
      && plan.draft.payload == Payload(syntax, claim.labels, nodeClass.spec)
      && NODECLASS_HASH in plan.draft.annotations && NODECLASS_HASH_VERSION in plan.draft.annotations
      && plan.draft.annotations[NODECLASS_HASH] == Stamped(HashV3(syntax, nodeClass.spec))
      && plan.draft.annotations[NODECLASS_HASH_VERSION] == Text("v3")
      && plan.existing == (if existing.NoGroup? then None else Some(existing.ng))
      && (existing.ExistingGroup? ==> it.flavor.name == existing.ng.flavor)
      && (existing.NoGroup? ==> exists k: nat :: Chosen(provider.Mem(), provider.catalogue, now, catalog.cs, k)
                                                 && it == ProvisioningType(catalog, k))
      && (existing.NoGroup? && !DiskReady(catalog) ==> RecordsNoDisk(plan.draft))
      && (existing.NoGroup? ==> !RefusalMemory.Unavailable(provider.Mem(), provider.catalogue, plan.draft.flavor, now))
    ensures resolved.Ok? ==> forall uid :: OwnedByNodeClaim(resolved.value.0.draft.(uid := uid), claim)
  {
    var chosen: Result<LearnedCapacity.InstanceType, Failure> := Err(Retryable);
    if existing.NoGroup? && Wanted(claim, live) && Usable(nodeClass) {
      chosen := ChooseType(provider, catalog, now);
    }
    resolved := ResolveLaunch(syntax, claim, existing, live, nodeClass, chosen, catalog.serving);
    if resolved.Ok? {
      var it := resolved.value.1;
      DraftIsOwned(syntax, claim, nodeClass.name, nodeClass.spec, it.flavor.name, SnapshotAnnotations(it));
      if existing.NoGroup? && !DiskReady(catalog) {
        DraftRecordsNoDisk(syntax, claim, nodeClass.name, nodeClass.spec, it);
      }
    }
  }

  lemma DraftIsOwned(syntax: Syntax, claim: Claim, className: string, spec: Spec, flavor: string,
      extra: map<string, Annotation>)
    ensures forall uid :: OwnedByNodeClaim(NewGroup(syntax, claim, className, spec, flavor, extra).(uid := uid), claim)
  {
    forall uid ensures OwnedByNodeClaim(NewGroup(syntax, claim, className, spec, flavor, extra).(uid := uid), claim) {
      NewGroupIsOwnedAndHonest(syntax, claim, className, spec, flavor, extra, uid);
    }
  }

  lemma DraftRecordsNoDisk(syntax: Syntax, claim: Claim, className: string, spec: Spec,
      it: LearnedCapacity.InstanceType)
    requires DiskOf(it.capacity) == 0 && DiskOf(it.Allocatable()) == 0
    ensures RecordsNoDisk(NewGroup(syntax, claim, className, spec, it.flavor.name, SnapshotAnnotations(it)))
  {
    forall uid
      ensures SnapshotOf(NewGroup(syntax, claim, className, spec, it.flavor.name, SnapshotAnnotations(it)).(uid := uid))
              == Ok(Some(Snapshot(0, 0)))
    {
      SnapshotSurvives(syntax, claim, className, spec, it.flavor.name, uid, it, Drift.Stamp("", Text("")));
    }
  }

  /** A group created as drafted, whatever its UID, reports for ever that its disk was unknown. */
  ghost predicate RecordsNoDisk(draft: NodeGroup) {
    forall uid :: SnapshotOf(draft.(uid := uid)) == Ok(Some(Snapshot(0, 0)))
  }

  /** Create: resolve, create or adopt, and describe the machine that exists. A fresh launch reaches the
      API exactly when one is planned, with the flavor chosen: left alone since its choice, it cannot fail
      fast (SelectionIsAdmitted says what can make it). A success is a group with an owner reference of this
      claim's UID, and a group without one is never adopted. `later` is what is served when the group turned
      out to run another flavor than the one resolved. */
  method Create(provider: NodeGroupProvider.Provider, syntax: Syntax, claim: Claim, existing: ExistingGroup,
      live: LiveClaim, nodeClass: LiveClass, catalog: Catalog, later: Serving,
      reply: PostReply, answers: seq<AcceptancePoll.Read>, shutdown: bool, now: nat, wait: nat)
    returns (r: Result<View, Failure>, posts: nat, group: Option<NodeGroup>, ghost plan: Option<Plan>,
      ghost ended: Outcome)
    requires Aligned(catalog)
    modifies provider
    ensures posts ==
      if existing.NoGroup? && MayLaunch(claim, live, nodeClass) && !Gated(catalog)
         && exists c <- catalog.cs :: Open(old(provider.Mem()), provider.catalogue, now, c) then 1 else 0
    ensures plan.Some? <==> posts == 1 || (Adoptable(claim, existing) && MayLaunch(claim, live, nodeClass))
    ensures plan.None? ==>
      r == Err(WhyNot(claim, existing, live, nodeClass, catalog)) && provider.Mem() == old(provider.Mem())
    ensures plan.Some? ==>
      && r.Ok? == (ended.Launched? && SnapshotOf(ended.group).Ok?)
      && (r == Err(InsufficientCapacity) <==>
            ended.FastFailed? || ended.QuotaRejected? || ended.FlavorRefused? || ended.GroupVanished?)
      && (r.Err? ==> r.error != NotLaunched)
    ensures var script := LaunchScript.Script(claim, plan, reply, wait, answers, shutdown);
            var end := Run(provider.catalogue, LaunchScript.Alone(now, old(provider.Mem())), script);
            end.last == Some(ended) && end.mem == provider.Mem()
    ensures existing.NoGroup? && r.Ok? && reply.Created? ==>
      exists k: nat :: Chosen(old(provider.Mem()), provider.catalogue, now, catalog.cs, k)
          && r.value.flavor == catalog.cs[k].name
    ensures existing.NoGroup? && r.Ok? && reply.Created? && !DiskReady(catalog) ==> r.value.disk == Snapshot(0, 0)
    ensures r.Ok? ==>
      && group.Some? && OwnedByNodeClaim(group.value, claim)
      && (exists ref <- group.value.owners ::
            && ref.apiVersion == "karpenter.sh/v1" && ref.kind == "NodeClaim"
            && ref.name == claim.name && ref.uid == claim.uid)
      && r.value.name == r.value.providerGroup == group.value.name == claim.name
      && r.value.flavor == group.value.flavor
      && SnapshotOf(group.value).Ok?
      && (SnapshotOf(group.value).value.Some? ==> r.value.disk == SnapshotOf(group.value).value.value)
    ensures existing.ExistingGroup? && (forall ref <- existing.ng.owners :: ref.uid != claim.uid) ==>
      posts == 0 && r.Err? && provider.Mem() == old(provider.Mem())
    ensures existing.NoGroup? && reply.AlreadyExists? && reply.found.Some?
            && (forall ref <- reply.found.value.owners :: ref.uid != claim.uid) ==>
      r.Err? && provider.Mem() == old(provider.Mem())
  {
    var resolved := DecideLaunch(provider, syntax, claim, existing, live, nodeClass, catalog, now);
    if existing.ExistingGroup? && forall ref <- existing.ng.owners :: ref.uid != claim.uid {
      OthersAreNotAdoptable(claim, existing);
    }
    if resolved.Err? {
      var outcome, sent, _, _ := provider.ResolveAndCreate(claim, None, reply, answers, shutdown, now, wait);
      return Err(resolved.error), sent, None, None, outcome;
    }
    var (launch, it) := resolved.value;
    r, posts, group, ended := LaunchResolved(provider, claim, launch, it, later, reply, answers, shutdown, now, wait);
    plan := Some(launch);
  }

  /** Create from a decision on: what is launched or adopted, and the machine that exists then. */
  method LaunchResolved(provider: NodeGroupProvider.Provider, claim: Claim, launch: Plan,
      it: LearnedCapacity.InstanceType, later: Serving, reply: PostReply, answers: seq<AcceptancePoll.Read>,
      shutdown: bool, now: nat, wait: nat)
    returns (r: Result<View, Failure>, posts: nat, group: Option<NodeGroup>, ended: Outcome)
    requires forall uid :: OwnedByNodeClaim(launch.draft.(uid := uid), claim)
    modifies provider
    ensures posts ==
      (if launch.existing.Some?
          || RefusalMemory.QuotaCovers(old(provider.Mem()), provider.catalogue, launch.draft.flavor, now)
       then 0 else 1)
    ensures r.Ok? == (ended.Launched? && SnapshotOf(ended.group).Ok?)
    ensures r == Err(InsufficientCapacity) <==>
            ended.FastFailed? || ended.QuotaRejected? || ended.FlavorRefused? || ended.GroupVanished?
    ensures r.Err? ==> r.error != NotLaunched
    ensures var script := LaunchScript.Script(claim, Some(launch), reply, wait, answers, shutdown);
            var end := Run(provider.catalogue, LaunchScript.Alone(now, old(provider.Mem())), script);
            end.last == Some(ended) && end.mem == provider.Mem()
    ensures r.Ok? ==>
      && group == Some(ended.group) && OwnedByNodeClaim(ended.group, claim) && NamesTheUID(ended.group, claim)
      && r.value.name == r.value.providerGroup == ended.group.name == claim.name
      && r.value.flavor == ended.group.flavor
      && (SnapshotOf(ended.group).value.Some? ==> r.value.disk == SnapshotOf(ended.group).value.value)
      && (launch.existing.None? && reply.Created? ==>
            ended.group == launch.draft.(uid := reply.uid))
    ensures launch.existing.None? && reply.AlreadyExists? && reply.found.Some?
            && (forall ref <- reply.found.value.owners :: ref.uid != claim.uid) ==>
      r.Err? && provider.Mem() == old(provider.Mem())
  {
    var outcome, sent, _, _ := provider.ResolveAndCreate(claim, Some(launch), reply, answers, shutdown, now, wait);
    ended, posts := outcome, sent;
    if !ended.Launched? {
      return Err(if ended.Aborted? || ended.NotOwned? then Retryable else InsufficientCapacity), posts, None, ended;
    }
    group := Some(ended.group);
    AdoptionNeedsTheUID(ended.group, claim);
    r := DescribeLaunched(ended.group, it, later);
  }

  /** What Create does with the group it ended up with: describe it by its own flavor and disk. */
  method DescribeLaunched(ng: NodeGroup, resolved: LearnedCapacity.InstanceType,
      later: Serving)
    returns (r: Result<View, Failure>)
    ensures r.Ok? <==> SnapshotOf(ng).Ok?
    ensures r.Err? ==> r.error == Retryable
    ensures r.Ok? ==>
      && r.value.name == r.value.providerGroup == ng.name && r.value.flavor == ng.flavor
      && (SnapshotOf(ng).value.Some? ==> r.value.disk == SnapshotOf(ng).value.value)
      && (SnapshotOf(ng).value.None? ==>
            var it := if ng.flavor == resolved.flavor.name then resolved else TypeOf(later, ng.flavor);
            r.value.disk == Snapshot(DiskOf(it.capacity), DiskOf(it.Allocatable())))
  {
    var it := resolved;
    if ng.flavor != it.flavor.name {
      it := TypeOf(later, ng.flavor);
    }
    var snapshot := ReadDiskSnapshot(ng);
    if snapshot.Err? { return Err(Retryable); }
    return Ok(Describe(ng, it));
  }
}
