/** The garbage collector (pkg/controllers/garbagecollection/controller.go). It decides from cached
    lists and confirms every destructive decision with uncached reads. The API server changes on its
    own in between: what a request meets depends on how many requests were made before it. */
module GarbageCollection {
  import opened Base
  import opened NodeGroupApi
  import opened NodeClaimApi
  import opened RefusalMemory
  import LaunchProtocol
  import NodeGroupProvider

  const MIN_AGE := 120_000_000_000

  /** What an uncached read answers, and what a DELETE answers. */
  datatype Presence = Present | Absent | Unreadable
  datatype Reply = Accepted | NotFound | Failed

  /** What the n-th request of a sweep meets, by the name it asks about. */
  datatype Server = Server(
    claim: (nat, string) -> Presence, group: (nat, string) -> Presence,
    deleteGroup: (nat, string) -> Reply, deleteClaim: (nat, string) -> Reply)

  /** What a sweep did about one object. */
  datatype Fate = Kept | Refused | Unconfirmed | Requested(reply: Reply)

  /** An object that exists from one request of the sweep to another: a read can fail, but never
      finds it absent. */
  ghost predicate Lives(read: (nat, string) -> Presence, name: string, from: nat, to: nat) {
    forall u: nat | from <= u < to :: read(u, name) != Absent
  }

  ghost predicate Dead(read: (nat, string) -> Presence, name: string, from: nat, to: nat) {
    forall u: nat | from <= u < to :: read(u, name) == Absent
  }

  /** The label selector of the managed list. */
  function Managed(stored: seq<NodeGroup>): (r: seq<NodeGroup>)
    ensures forall ng :: ng in r <==> ng in stored && IsManaged(ng)
  {
    if stored == [] then []
    else (if IsManaged(stored[0]) then [stored[0]] else []) + Managed(stored[1..])
  }

  /** The claim a group's mutable label names, or the one it shares its name with. */
  function ClaimName(ng: NodeGroup): string {
    if Label(ng.labels, NODECLAIM) == "" then ng.name else Label(ng.labels, NODECLAIM)
  }

  /** Every name that could prove a live claim. */
  function Names(ng: NodeGroup): seq<string> { [ClaimName(ng)] + NodeClaimOwners(ng.owners) }

  predicate OwnerAlive(ng: NodeGroup, cached: set<string>) {
    exists owner <- NodeClaimOwners(ng.owners) :: owner in cached
  }

  /** The group's label names the claim, or, without such a label, its own name does. */
  predicate Labelled(ng: NodeGroup, claim: string) {
    var key := "karpenter.clever-cloud.com/nodeclaim";
    claim == if key in ng.labels && ng.labels[key] != "" then ng.labels[key] else ng.name
  }

  /** An owner reference of the group names the claim. */
  predicate OwnedBy(ng: NodeGroup, claim: string) {
    exists ref <- ng.owners :: ref.kind == "NodeClaim" && "karpenter.sh/" <= ref.apiVersion && ref.name == claim
  }

  lemma NamesMeans(ng: NodeGroup, claim: string)
    ensures claim in Names(ng) <==> Labelled(ng, claim) || OwnedBy(ng, claim)
    ensures claim in NodeClaimOwners(ng.owners) <==> OwnedBy(ng, claim)
    ensures Labelled(ng, claim) <==> claim == ClaimName(ng)
  {
    assert claim in NodeClaimOwners(ng.owners) <==> exists ref <- ng.owners :: IsClaimRef(ref) && ref.name == claim;
    assert forall ref :: IsClaimRef(ref) <==> ref.kind == "NodeClaim" && "karpenter.sh/" <= ref.apiVersion;
  }

  /** Staying, two minutes old, and without a cached claim of the label's name. */
  predicate Unclaimed(ng: NodeGroup, cached: set<string>, now: int) {
    !ng.terminating && now - ng.createdAt >= 120_000_000_000 && forall claim <- cached :: !Labelled(ng, claim)
  }

  /** Nothing proves a claim of it existed, or a recorded owner is alive: never reaped. */
  predicate Misowned(ng: NodeGroup, cached: set<string>, now: int) {
    Unclaimed(ng, cached, now)
    && ((forall ref <- ng.owners :: !OwnedBy(ng, ref.name)) || exists claim <- cached :: OwnedBy(ng, claim))
  }

  predicate Suspect(ng: NodeGroup, cached: set<string>, now: int) {
    Unclaimed(ng, cached, now)
    && (exists ref <- ng.owners :: OwnedBy(ng, ref.name)) && forall claim <- cached :: !OwnedBy(ng, claim)
  }

  lemma OwnersMeans(ng: NodeGroup, cached: set<string>)
    ensures NodeClaimOwners(ng.owners) == [] <==> forall ref <- ng.owners :: !OwnedBy(ng, ref.name)
    ensures OwnerAlive(ng, cached) <==> exists claim <- cached :: OwnedBy(ng, claim)
    ensures (exists claim <- cached :: Labelled(ng, claim)) <==> ClaimName(ng) in cached
  {
    forall claim ensures claim in NodeClaimOwners(ng.owners) <==> OwnedBy(ng, claim) {
      NamesMeans(ng, claim);
    }
    NamesMeans(ng, ClaimName(ng));
    if NodeClaimOwners(ng.owners) != [] { assert NodeClaimOwners(ng.owners)[0] in NodeClaimOwners(ng.owners); }
  }

  /** The code's own tests, in its order. */
  lemma ExaminationSorts(ng: NodeGroup, cached: set<string>, now: int)
    ensures var unclaimed := !ng.terminating && now - ng.createdAt >= MIN_AGE && ClaimName(ng) !in cached;
            var refused := NodeClaimOwners(ng.owners) == [] || OwnerAlive(ng, cached);
            && (Misowned(ng, cached, now) <==> unclaimed && refused)
            && (Suspect(ng, cached, now) <==> unclaimed && !refused)
  {
    OwnersMeans(ng, cached);
  }

  predicate Resized(ng: NodeGroup) { !ng.terminating && ng.nodeCount != 1 }

  /** The first `n` of some names, read one after the other from request t on, were all absent. */
  ghost predicate AbsentSoFar(server: Server, t: nat, distinct: seq<string>, n: int) {
    0 <= n <= |distinct| && forall k | 0 <= k < n :: server.claim(t + k, distinct[k]) == Absent
  }

  ghost predicate ConfirmedGone(server: Server, t: nat, names: seq<string>) {
    AbsentSoFar(server, t, Dedup(names), |Dedup(names)|)
  }

  /** The k-th distinct name is the first that is not read absent. */
  ghost predicate FirstAnswer(server: Server, t: nat, names: seq<string>, k: int, answer: Presence) {
    && AbsentSoFar(server, t, Dedup(names), k)
    && k < |Dedup(names)|
    && server.claim(t + k, Dedup(names)[k]) == answer
  }

  /** A group one of whose names belongs to a claim that exists for as long as the reads take is not
      confirmed gone; one whose names all stay absent is. */
  lemma ConfirmationIsSound(server: Server, t: nat, names: seq<string>)
    ensures forall n | n in names && Lives(server.claim, n, t, t + |Dedup(names)|) :: !ConfirmedGone(server, t, names)
    ensures (forall n | n in names :: Dead(server.claim, n, t, t + |Dedup(names)|)) ==> ConfirmedGone(server, t, names)
  {
    var distinct := Dedup(names);
    forall n | n in names && Lives(server.claim, n, t, t + |distinct|) ensures !ConfirmedGone(server, t, names) {
      var k :| 0 <= k < |distinct| && distinct[k] == n;
      assert server.claim(t + k, distinct[k]) != Absent;
    }
    if forall n | n in names :: Dead(server.claim, n, t, t + |distinct|) {
      forall k | 0 <= k < |distinct| ensures server.claim(t + k, distinct[k]) == Absent {
        assert distinct[k] in names;
        assert Dead(server.claim, distinct[k], t, t + |distinct|);
      }
    }
  }

  /** The confirming reads: every distinct name once, until one answers anything but NotFound. */
  method AnyClaimAliveUncached(names: seq<string>, server: Server, t: nat) returns (answer: Presence, next: nat)
    ensures answer == Absent <==> ConfirmedGone(server, t, names)
    ensures answer == Absent ==> next == t + |Dedup(names)|
    ensures answer != Absent ==> FirstAnswer(server, t, names, next - 1 - t, answer)
  {
    var checked: set<string> := {};
    next := t;
    for i := 0 to |names|
      invariant forall n :: n in checked <==> n in Dedup(names[..i])
      invariant next == t + |Dedup(names[..i])| && AbsentSoFar(server, t, Dedup(names), next - t)
    {
      DedupGrows(names, i);
      if names[i] !in checked {
        checked := checked + {names[i]};
        answer := server.claim(next, names[i]);
        next := next + 1;
        OneMoreAnswer(server, t, names, next - 1 - t, answer);
        if answer != Absent { return; }
      }
    }
    assert names[..|names|] == names;
    answer := Absent;
  }

  lemma OneMoreAnswer(server: Server, t: nat, names: seq<string>, k: nat, answer: Presence)
    requires k < |Dedup(names)| && AbsentSoFar(server, t, Dedup(names), k)
        && server.claim(t + k, Dedup(names)[k]) == answer
    ensures answer == Absent ==> AbsentSoFar(server, t, Dedup(names), k + 1)
    ensures answer != Absent ==> FirstAnswer(server, t, names, k, answer) && !ConfirmedGone(server, t, names)
  {
  }

  lemma {:induction false} DedupIsPrefix(names: seq<string>, i: nat)
    requires i <= |names|
    ensures Dedup(names[..i]) <= Dedup(names)
  {
    if i == |names| {
      assert names[..i] == names;
    } else {
      DedupIsPrefix(names[..|names| - 1], i);
      assert names[..|names| - 1][..i] == names[..i];
    }
  }

  lemma DedupGrows(names: seq<string>, i: nat)
    requires i < |names|
    ensures Dedup(names[..i + 1]) == Dedup(names[..i]) + (if names[i] in Dedup(names[..i]) then [] else [names[i]])
    ensures Dedup(names[..i + 1]) <= Dedup(names)
  {
    assert names[..i + 1][..i] == names[..i];
    DedupIsPrefix(names, i + 1);
  }

  /** No object of a phase ended in an error. */
  predicate Clean(fates: seq<Fate>) { Unconfirmed !in fates && Requested(Failed) !in fates }

  /** The group a claim's machine runs in: the one its provider ID names, or, before it has one, the
      group that carries the claim's own name. */
  function GroupOf(claim: NodeClaim): string {
    if "clevercloud://" <= claim.providerID && |claim.providerID| > 14 then claim.providerID[14..] else claim.name
  }

  /** This provider's, staying, old enough, launched and never registered, its group in no cached list. */
  predicate Bereft(claim: NodeClaim, groupNames: set<string>, now: int) {
    && claim.ours && !claim.terminating && now - claim.createdAt >= 120_000_000_000
    && claim.launched && !claim.registered
    && GroupOf(claim) !in groupNames
  }

  /** One claim of the vanished-claims phase: deleted exactly when its group is read absent. */
  method ReapVanished(claim: NodeClaim, groupNames: set<string>, now: int, server: Server, t: nat)
    returns (fate: Fate, next: nat)
    ensures next >= t && fate != Refused
    ensures fate.Requested? <==> Bereft(claim, groupNames, now) && server.group(t, GroupOf(claim)) == Absent
    ensures fate.Requested? ==> fate.reply == server.deleteClaim(t + 1, claim.name)
    ensures fate == Unconfirmed <==> Bereft(claim, groupNames, now) && server.group(t, GroupOf(claim)) == Unreadable
    ensures next > t <==> Bereft(claim, groupNames, now)
  {
    if !claim.ours { return Kept, t; }
    if claim.terminating || now - claim.createdAt < MIN_AGE { return Kept, t; }
    if !claim.launched || claim.registered { return Kept, t; }
    var parsed := ParseProviderID(claim.providerID);
    var groupName := if parsed.Some? then parsed.value else claim.name;
    if groupName in groupNames { return Kept, t; }
    match server.group(t, groupName)
    case Present => return Kept, t + 1;
    case Unreadable => return Unconfirmed, t + 1;
    case Absent => return Requested(server.deleteClaim(t + 1, claim.name)), t + 2;
  }

  /** What a sweep may do about a claim, given everything the API server answered up to request `next`. */
  ghost predicate ClaimJudged(claim: NodeClaim, groupNames: set<string>, now: int, server: Server, next: nat,
      fate: Fate)
  {
    && (fate.Requested? ==> Bereft(claim, groupNames, now) && !Lives(server.group, GroupOf(claim), 0, next))
    && (Bereft(claim, groupNames, now) && Dead(server.group, GroupOf(claim), 0, next) ==> fate.Requested?)
  }

  ghost predicate AllClaimsJudged(claims: seq<NodeClaim>, groupNames: set<string>, now: int, server: Server, next: nat,
      fates: seq<Fate>)
  {
    && |fates| <= |claims|
    && forall i | 0 <= i < |fates| :: ClaimJudged(claims[i], groupNames, now, server, next, fates[i])
  }

  lemma ClaimJudgementsStand(claims: seq<NodeClaim>, groupNames: set<string>, now: int, server: Server, next: nat,
      after: nat, fates: seq<Fate>)
    requires AllClaimsJudged(claims, groupNames, now, server, next, fates) && next <= after
    ensures AllClaimsJudged(claims, groupNames, now, server, after, fates)
  {
    DeathsLast(server.group, 0, next, after);
    forall i | 0 <= i < |fates| ensures ClaimJudged(claims[i], groupNames, now, server, after, fates[i]) {
      assert ClaimJudged(claims[i], groupNames, now, server, next, fates[i]);
    }
  }

  /** A claim whose group exists throughout the phase is never deleted, and one it lost is, whatever
      happens to the claims before it. */
  method ReapVanishedNodeClaims(claims: seq<NodeClaim>, allGroups: Option<set<string>>, now: int, server: Server)
    returns (fates: seq<Fate>, ok: bool, next: nat)
    ensures allGroups.None? ==> !ok && fates == []
    ensures allGroups.Some? ==> |fates| == |claims| && (ok <==> Clean(fates))
    ensures allGroups.Some? ==> AllClaimsJudged(claims, allGroups.value, now, server, next, fates)
  {
    fates, next := [], 0;
    if allGroups.None? { return [], false, 0; }
    ok := true;
    for i := 0 to |claims|
      invariant |fates| == i && (ok <==> Clean(fates))
      invariant AllClaimsJudged(claims, allGroups.value, now, server, next, fates)
    {
      var fate, after := ReapVanished(claims[i], allGroups.value, now, server, next);
      ClaimJudgementsStand(claims, allGroups.value, now, server, next, after, fates);
      assert ClaimJudged(claims[i], allGroups.value, now, server, after, fate);
      fates := fates + [fate];
      ok := ok && fate != Unconfirmed && fate != Requested(Failed);
      next := after;
    }
  }

  /** What was once read absent did not live throughout, however long the sweep goes on; and what is
      absent throughout the sweep was absent throughout its start. */
  lemma DeathsLast(read: (nat, string) -> Presence, from: nat, to: nat, later: nat)
    requires to <= later
    ensures forall name | !Lives(read, name, from, to) :: !Lives(read, name, from, later)
    ensures forall name | Dead(read, name, from, later) :: Dead(read, name, from, to)
  {
    forall name | !Lives(read, name, from, to) ensures !Lives(read, name, from, later) {
      var u: nat :| from <= u < to && read(u, name) == Absent;
    }
  }

  /** What Delete leaves of the refusal memory. */
  function AfterDelete(mem: Memory, ng: NodeGroup, fate: Fate): Memory {
    if Lifts(ng, fate) then ClearQuota(mem, mem.quotaNumber) else mem
  }

  predicate SomeLifts(groups: seq<NodeGroup>, fates: seq<Fate>) {
    exists i :: 0 <= i < |fates| && i < |groups| && Lifts(groups[i], fates[i])
  }

  lemma LiftsStand(groups: seq<NodeGroup>, fates: seq<Fate>, fate: Fate)
    requires |fates| < |groups|
    ensures SomeLifts(groups, fates) || Lifts(groups[|fates|], fate) ==> SomeLifts(groups, fates + [fate])
  {
    if SomeLifts(groups, fates) {
      var i :| 0 <= i < |fates| && i < |groups| && Lifts(groups[i], fates[i]);
      assert Lifts(groups[i], (fates + [fate])[i]);
    } else {
      assert (fates + [fate])[|fates|] == fate;
    }
  }

  lemma CleanGrows(fates: seq<Fate>, fate: Fate)
    ensures Clean(fates + [fate]) <==> Clean(fates) && fate != Unconfirmed && fate != Requested(Failed)
  {
    assert forall f :: f in fates + [fate] <==> f in fates || f == fate;
  }

  /** An accepted DELETE of a group that may free capacity. */
  predicate Lifts(ng: NodeGroup, fate: Fate) { fate == Requested(Accepted) && (IsSynced(ng) || !IsRefused(ng)) }

  function CachedNames(claims: seq<NodeClaim>): (names: set<string>) {
    set claim <- claims :: claim.name
  }

  /** What a sweep may do about a group, given everything the API server answered up to request `next`. */
  ghost predicate Judged(ng: NodeGroup, cached: set<string>, now: int, server: Server, next: nat, fate: Fate) {
    && (fate == Refused <==> Misowned(ng, cached, now))
    && (fate.Requested? ==> Suspect(ng, cached, now))
    && (fate.Requested? ==> forall n | Labelled(ng, n) || OwnedBy(ng, n) :: !Lives(server.claim, n, 0, next))
    && (Suspect(ng, cached, now) && (forall n | Labelled(ng, n) || OwnedBy(ng, n) :: Dead(server.claim, n, 0, next)) ==>
          fate.Requested?)
  }

  lemma ExaminationJudges(ng: NodeGroup, cached: set<string>, now: int, server: Server, t: nat, next: nat, fate: Fate)
    requires fate == Refused <==> Misowned(ng, cached, now)
    requires fate.Requested? <==> Suspect(ng, cached, now) && ConfirmedGone(server, t, Names(ng))
    requires fate.Requested? ==> next == t + |Dedup(Names(ng))| + 1
    requires Suspect(ng, cached, now) && !fate.Requested? ==>
      FirstAnswer(server, t, Names(ng), next - 1 - t, if fate == Unconfirmed then Unreadable else Present)
    ensures Judged(ng, cached, now, server, next, fate)
  {
    var names := Names(ng);
    forall n ensures n in names <==> Labelled(ng, n) || OwnedBy(ng, n) { NamesMeans(ng, n); }
    ConfirmationIsSound(server, t, names);
    if fate.Requested? {
      forall n | n in names ensures !Lives(server.claim, n, 0, next) {
        var u: nat :| t <= u < t + |Dedup(names)| && server.claim(u, n) == Absent;
      }
    } else if Suspect(ng, cached, now) {
      var unlost := Dedup(names)[next - 1 - t];
      assert unlost in names && server.claim(next - 1, unlost) != Absent;
    }
  }

  /** GC safety, end to end: a group this provider launched or adopted for a claim survives every
      sweep during which that claim exists, whatever the caches list and whoever edits its labels
      afterwards. */
  lemma OwnedGroupSurvives(launched: NodeGroup, claim: Claim, swept: NodeGroup, cached: set<string>, now: int,
      server: Server, next: nat, fate: Fate)
    requires OwnedByNodeClaim(launched, claim) && swept.owners == launched.owners
    requires Judged(swept, cached, now, server, next, fate) && Lives(server.claim, claim.name, 0, next)
    ensures !fate.Requested?
  {
    OwnedGroupNamesItsClaim(launched, claim);
    NamesMeans(swept, claim.name);
  }

  /** And so does a group whose nodeclaim label names a claim that exists, whoever its owners are; without a
      label, or with an empty one, a group of that claim's name. */
  lemma LabelledGroupSurvives(swept: NodeGroup, claim: string, cached: set<string>, now: int, server: Server, next: nat,
      fate: Fate)
    requires Judged(swept, cached, now, server, next, fate) && Lives(server.claim, claim, 0, next)
    ensures NODECLAIM in swept.labels && swept.labels[NODECLAIM] == claim && claim != "" ==> !fate.Requested?
    ensures (NODECLAIM !in swept.labels || swept.labels[NODECLAIM] == "") && swept.name == claim ==> !fate.Requested?
  {
    NamesMeans(swept, claim);
  }

  lemma JudgementsStand(ng: NodeGroup, cached: set<string>, now: int, server: Server, next: nat, after: nat, fate: Fate)
    requires Judged(ng, cached, now, server, next, fate) && next <= after
    ensures Judged(ng, cached, now, server, after, fate)
  {
    DeathsLast(server.claim, 0, next, after);
  }

  /** Every group examined so far, each by its index. */
  ghost predicate AllJudged(groups: seq<NodeGroup>, cached: set<string>, now: int, server: Server, next: nat,
      fates: seq<Fate>)
  {
    |fates| <= |groups| && forall i | 0 <= i < |fates| :: Judged(groups[i], cached, now, server, next, fates[i])
  }

  lemma OneMoreJudged(groups: seq<NodeGroup>, cached: set<string>, now: int, server: Server, next: nat, after: nat,
      fates: seq<Fate>, fate: Fate)
    requires AllJudged(groups, cached, now, server, next, fates) && next <= after
    requires |fates| < |groups| && Judged(groups[|fates|], cached, now, server, after, fate)
    ensures AllJudged(groups, cached, now, server, after, fates + [fate])
  {
    forall j | 0 <= j < |fates| ensures Judged(groups[j], cached, now, server, after, fates[j]) {
      JudgementsStand(groups[j], cached, now, server, next, after, fates[j]);
    }
  }

  /** How many of the first n groups are refused, and how many were resized. */
  ghost function RefusedAmong(groups: seq<NodeGroup>, cached: set<string>, now: int, n: nat): nat
    requires n <= |groups|
  {
    |set i: nat | i < n && Misowned(groups[i], cached, now)|
  }

  ghost function ResizedAmong(groups: seq<NodeGroup>, n: nat): nat
    requires n <= |groups|
  {
    |set i: nat | i < n && Resized(groups[i])|
  }

  lemma OneMoreRefused(groups: seq<NodeGroup>, cached: set<string>, now: int, i: nat)
    requires i < |groups|
    ensures RefusedAmong(groups, cached, now, i + 1) ==
        RefusedAmong(groups, cached, now, i) + (if Misowned(groups[i], cached, now) then 1 else 0)
  {
    assert (set j: nat | j < i + 1 && Misowned(groups[j], cached, now)) ==
           (set j: nat | j < i && Misowned(groups[j], cached, now))
           + (if Misowned(groups[i], cached, now) then {i} else {});
  }

  lemma OneMoreResized(groups: seq<NodeGroup>, i: nat)
    requires i < |groups|
    ensures ResizedAmong(groups, i + 1) == ResizedAmong(groups, i) + (if Resized(groups[i]) then 1 else 0)
  {
    assert (set j: nat | j < i + 1 && Resized(groups[j])) ==
           (set j: nat | j < i && Resized(groups[j])) + (if Resized(groups[i]) then {i} else {});
  }

  /** What the groups phase has established once it has examined so many groups. */
  ghost predicate Tallied(groups: seq<NodeGroup>, cached: set<string>, now: int, server: Server, next: nat,
      fates: seq<Fate>, refused: nat, resized: nat, ok: bool)
  {
    && AllJudged(groups, cached, now, server, next, fates)
    && refused == RefusedAmong(groups, cached, now, |fates|)
    && resized == ResizedAmong(groups, |fates|)
    && (ok <==> Clean(fates))
  }

  lemma OneMoreTallied(groups: seq<NodeGroup>, cached: set<string>, now: int, server: Server, next: nat, after: nat,
      fates: seq<Fate>, fate: Fate, refused: nat, resized: nat, ok: bool)
    requires Tallied(groups, cached, now, server, next, fates, refused, resized, ok) && next <= after
    requires |fates| < |groups| && Judged(groups[|fates|], cached, now, server, after, fate)
    ensures Tallied(groups, cached, now, server, after, fates + [fate],
        refused + (if fate == Refused then 1 else 0), resized + (if Resized(groups[|fates|]) then 1 else 0),
        ok && fate != Unconfirmed && fate != Requested(Failed))
  {
    CleanGrows(fates, fate);
    OneMoreRefused(groups, cached, now, |fates|);
    OneMoreResized(groups, |fates|);
    OneMoreJudged(groups, cached, now, server, next, after, fates, fate);
  }

  class Controller {
    const provider: NodeGroupProvider.Provider
    var refusedGauge: nat
    var resizedGauge: nat

    constructor (provider: NodeGroupProvider.Provider)
      ensures this.provider == provider && refusedGauge == 0 && resizedGauge == 0
    {
      this.provider := provider;
      refusedGauge, resizedGauge := 0, 0;
    }

    /** A suspect's confirming reads, and its DELETE once they all found nothing. */
    method ReapOrphan(ng: NodeGroup, names: seq<string>, server: Server, t: nat) returns (fate: Fate, next: nat)
      modifies provider
      ensures next >= t && fate != Refused
      ensures fate.Requested? <==> ConfirmedGone(server, t, names)
      ensures fate.Requested? ==> next == t + |Dedup(names)| + 1 && fate.reply == server.deleteGroup(next - 1, ng.name)
      ensures !fate.Requested? ==>
          FirstAnswer(server, t, names, next - 1 - t, if fate == Unconfirmed then Unreadable else Present)
      ensures provider.Mem() == AfterDelete(old(provider.Mem()), ng, fate)
    {
      var answer, read := AnyClaimAliveUncached(names, server, t);
      if answer == Unreadable { return Unconfirmed, read; }
      if answer == Present { return Kept, read; }
      var reply := server.deleteGroup(read, ng.name);
      var _ := provider.Delete(ng, reply == Accepted);
      return Requested(reply), read + 1;
    }

    /** One group of the sweep. */
    method Examine(ng: NodeGroup, cached: set<string>, now: int, server: Server, t: nat) returns (fate: Fate, next: nat)
      modifies provider
      ensures next >= t
      ensures fate == Refused <==> Misowned(ng, cached, now)
      ensures fate.Requested? <==> Suspect(ng, cached, now) && ConfirmedGone(server, t, Names(ng))
      ensures fate.Requested? ==>
          next == t + |Dedup(Names(ng))| + 1 && fate.reply == server.deleteGroup(next - 1, ng.name)
      ensures fate == Unconfirmed ==> Suspect(ng, cached, now)
      ensures Suspect(ng, cached, now) && !fate.Requested? ==>
        FirstAnswer(server, t, Names(ng), next - 1 - t, if fate == Unconfirmed then Unreadable else Present)
      ensures provider.Mem() == AfterDelete(old(provider.Mem()), ng, fate)
    {
      ExaminationSorts(ng, cached, now);
      if ng.terminating || now - ng.createdAt < MIN_AGE { return Kept, t; }
      if ClaimName(ng) in cached { return Kept, t; }
      if NodeClaimOwners(ng.owners) == [] || OwnerAlive(ng, cached) { return Refused, t; }
      fate, next := ReapOrphan(ng, Names(ng), server, t);
    }

    /** The same, by what it tells the sweep. */
    method Visit(ng: NodeGroup, cached: set<string>, now: int, server: Server, t: nat) returns (fate: Fate, next: nat)
      modifies provider
      ensures next >= t && Judged(ng, cached, now, server, next, fate)
      ensures provider.rejectedFlavors == old(provider.rejectedFlavors)
      ensures provider.Mem() == old(provider.Mem()) || Lifts(ng, fate)
    {
      fate, next := Examine(ng, cached, now, server, t);
      ExaminationJudges(ng, cached, now, server, t, next, fate);
      assert provider.Mem().holds == old(provider.Mem()).holds;
    }

    /** The groups phase: every listed group is visited, whatever went wrong with the others. */
    method Sweep(groups: seq<NodeGroup>, cached: set<string>, now: int, server: Server, start: nat)
      returns (fates: seq<Fate>, refused: nat, resized: nat, ok: bool, next: nat)
      modifies provider
      ensures |fates| == |groups| && next >= start && (ok <==> Clean(fates))
      ensures AllJudged(groups, cached, now, server, next, fates)
      ensures refused == RefusedAmong(groups, cached, now, |groups|)
      ensures resized == ResizedAmong(groups, |groups|)
      ensures provider.rejectedFlavors == old(provider.rejectedFlavors)
      ensures provider.Mem() == old(provider.Mem()) || SomeLifts(groups, fates)
    {
      fates, refused, resized, ok, next := [], 0, 0, true, start;
      for i := 0 to |groups|
        invariant |fates| == i && next >= start
        invariant Tallied(groups, cached, now, server, next, fates, refused, resized, ok)
        invariant provider.rejectedFlavors == old(provider.rejectedFlavors)
        invariant provider.Mem() == old(provider.Mem()) || SomeLifts(groups, fates)
      {
        var fate, after := Visit(groups[i], cached, now, server, next);
        OneMoreTallied(groups, cached, now, server, next, after, fates, fate, refused, resized, ok);
        LiftsStand(groups, fates, fate);
        if !groups[i].terminating && groups[i].nodeCount != 1 { resized := resized + 1; }
        if fate == Refused { refused := refused + 1; }
        fates := fates + [fate];
        ok := ok && fate != Unconfirmed && fate != Requested(Failed);
        next := after;
      }
    }

    /** A whole sweep, over whatever the caches list. The gauges are set exactly when both lists were
        read, to exact counts; a group is deleted only if each name that could prove a claim was read
        absent during the sweep, and is when they all stayed absent; likewise a launched, unregistered
        claim and the name of its group; one object's error keeps no other from being visited; no flavor
        hold-out is touched. */
    method Reconcile(stored: Option<seq<NodeGroup>>, claims: Option<seq<NodeClaim>>, allGroups: Option<set<string>>,
        now: int, server: Server)
      returns (lost: seq<Fate>, fates: seq<Fate>, ok: bool, next: nat)
      modifies this, provider
      ensures stored.None? || claims.None? ==>
          !ok && lost == [] && fates == [] && unchanged(this) && provider.Mem() == old(provider.Mem())
      ensures stored.Some? && claims.Some? ==>
        var groups, cached := Managed(stored.value), CachedNames(claims.value);
        && |fates| == |groups|
        && refusedGauge == RefusedAmong(groups, cached, now, |groups|)
        && resizedGauge == ResizedAmong(groups, |groups|)
        && (forall ng <- groups :: IsManaged(ng)) && AllJudged(groups, cached, now, server, next, fates)
        && (ok <==> allGroups.Some? && Clean(lost) && Clean(fates))
        && (if allGroups.Some?
            then |lost| == |claims.value| && AllClaimsJudged(claims.value, allGroups.value, now, server, next, lost)
            else lost == [])
      ensures provider.rejectedFlavors == old(provider.rejectedFlavors)
      ensures provider.Mem() == old(provider.Mem())
              || (stored.Some? && SomeLifts(Managed(stored.value), fates))
    {
      if stored.None? || claims.None? { return [], [], false, 0; }
      var groups := Managed(stored.value);
      var reaped, start, swept;
      lost, reaped, start := ReapVanishedNodeClaims(claims.value, allGroups, now, server);
      fates, refusedGauge, resizedGauge, swept, next := Sweep(groups, CachedNames(claims.value), now, server, start);
      ok := reaped && swept;
      if allGroups.Some? { ClaimJudgementsStand(claims.value, allGroups.value, now, server, start, next, lost); }
    }
  }
}
