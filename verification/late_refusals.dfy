/** The nodegroup status controller (pkg/controllers/nodegroupstatus/controller.go): it fails a launch
    whose group the operator refused late, by a read-read-delete-record sequence. Any number of
    workers run it while karpenter-core and others create, write, delete and remove the claims. */
module LateRefusals {
  import opened Base
  import opened NodeGroupApi
  import opened NodeClaimApi
  import opened RefusalMemory
  import Catalogue
  import LaunchProtocol
  import NodeGroupProvider

  const SYNC_OVERDUE_AFTER := 300_000_000_000

  /** A group whose claim is worth reading. */
  predicate Followed(ng: NodeGroup) {
    IsManaged(ng) && !ng.terminating && ng.name in NodeClaimOwners(ng.owners)
  }

  /** The launch a group and a claim are: the group is managed, staying and owned by the claim it is
      named after; the claim is this provider's, staying, launched, not registered, on that group. */
  predicate LaunchOf(ng: NodeGroup, claim: NodeClaim) {
    && Followed(ng)
    && claim.ours && !claim.terminating && claim.launched && !claim.registered
    && claim.providerID == ProviderID(ng.name)
  }

  /** The launch the controller fails. */
  predicate Condemned(ng: NodeGroup, claim: NodeClaim) {
    LaunchOf(ng, claim) && !IsSynced(ng) && IsRefused(ng)
  }

  /** In full: a managed, staying group with an owner reference to the claim of its own name, refused and not
      Ready; and this provider's claim, staying, launched and not registered, on that very group. */
  lemma CondemnedMeans(ng: NodeGroup, claim: NodeClaim)
    ensures Followed(ng) <==>
      && "karpenter.clever-cloud.com/managed" in ng.labels && ng.labels["karpenter.clever-cloud.com/managed"] == "true"
      && !ng.terminating
      && exists ref <- ng.owners :: ref.kind == "NodeClaim" && "karpenter.sh/" <= ref.apiVersion && ref.name == ng.name
    ensures LaunchOf(ng, claim) <==>
      Followed(ng) && claim.ours && !claim.terminating && claim.launched && !claim.registered
      && claim.providerID == "clevercloud://" + ng.name
    ensures Condemned(ng, claim) <==> LaunchOf(ng, claim) && IsRefused(ng) && !IsSynced(ng)
  {
    assert ng.name in NodeClaimOwners(ng.owners) <==> exists ref <- ng.owners :: IsClaimRef(ref) && ref.name == ng.name;
    assert forall ref :: IsClaimRef(ref) <==> ref.kind == "NodeClaim" && "karpenter.sh/" <= ref.apiVersion;
  }

  /** A deletion the API server accepted: the claim as it stood, and the group read before. */
  datatype Deletion = Deletion(claim: NodeClaim, ng: NodeGroup)

  datatype Job =
    | Examining(ng: NodeGroup)
    | Confirmed(ng: NodeGroup, claim: NodeClaim)
    | Recording(deletion: Deletion)

  /** `issued` is the last number the API server handed out; deletions and records are histories. */
  datatype State = State(
    claims: map<string, NodeClaim>, issued: nat, jobs: map<nat, Job>, deletions: seq<Deletion>, records: seq<Deletion>)

  datatype Action =
    | Create(claim: NodeClaim)
    | Write(claim: NodeClaim)
    | Terminate(name: string)
    | Remove(name: string)
    | ReadGroup(worker: nat, ng: NodeGroup)
    | ReadClaim(worker: nat)
    | Delete(worker: nat, lost: bool)
    | Record(worker: nat)
    | Drop(worker: nat)

  function Store(s: State, claim: NodeClaim): State {
    s.(claims := s.claims[claim.name := claim.(version := s.issued + 1)], issued := s.issued + 1)
  }

  function Leave(s: State, w: nat): State { s.(jobs := s.jobs - {w}) }

  function Newborn(s: State, claim: NodeClaim): NodeClaim { claim.(uid := s.issued + 1, terminating := false) }

  /** Any write keeps the UID, and none takes a deletion back. */
  function Rewritten(s: State, claim: NodeClaim): NodeClaim
    requires claim.name in s.claims
  {
    claim.(uid := s.claims[claim.name].uid, terminating := s.claims[claim.name].terminating)
  }

  function Apply(s: State, a: Action): State {
    match a
    case Create(claim) =>
      if claim.name in s.claims then s else Store(s, Newborn(s, claim))
    case Write(claim) =>
      if claim.name !in s.claims then s else Store(s, Rewritten(s, claim))
    case Terminate(name) => if name !in s.claims then s else Store(s, s.claims[name].(terminating := true))
    case Remove(name) => s.(claims := s.claims - {name})
    case ReadGroup(w, ng) => if w in s.jobs then s else s.(jobs := s.jobs[w := Examining(ng)])
    case ReadClaim(w) => if w in s.jobs && s.jobs[w].Examining? then DoReadClaim(s, w, s.jobs[w].ng) else s
    case Delete(w, lost) =>
      if w in s.jobs && s.jobs[w].Confirmed? then DoDelete(s, w, s.jobs[w].ng, s.jobs[w].claim, lost) else s
    case Record(w) =>
      if w in s.jobs && s.jobs[w].Recording? then Leave(s, w).(records := s.records + [s.jobs[w].deletion]) else s
    case Drop(w) => Leave(s, w)
  }

  /** The uncached read of the claim named after the group. */
  function DoReadClaim(s: State, w: nat, ng: NodeGroup): State {
    if ng.name in s.claims && Condemned(ng, s.claims[ng.name])
    then s.(jobs := s.jobs[w := Confirmed(ng, s.claims[ng.name])])
    else Leave(s, w)
  }

  /** The UID and the resource version of the stored claim are still those that were read. */
  predicate Stands(s: State, claim: NodeClaim) {
    && claim.name in s.claims
    && s.claims[claim.name].uid == claim.uid && s.claims[claim.name].version == claim.version
  }

  /** The delete, pinned to the UID and resource version just read; its answer can be lost. */
  function DoDelete(s: State, w: nat, ng: NodeGroup, claim: NodeClaim, lost: bool): State {
    if Stands(s, claim) then
      var stood := s.claims[claim.name];
      var t := Store(s, stood.(terminating := true)).(deletions := s.deletions + [Deletion(stood, ng)]);
      if lost then Leave(t, w) else t.(jobs := s.jobs[w := Recording(Deletion(stood, ng))])
    else Leave(s, w)
  }

  function Run(s: State, actions: seq<Action>): State
    decreases |actions|
  {
    if actions == [] then s else Run(Apply(s, actions[0]), actions[1..])
  }

  predicate Numbered(s: State) {
    && (forall n | n in s.claims ::
          s.claims[n].name == n && s.claims[n].uid <= s.issued && s.claims[n].version <= s.issued)
    && (forall m, n | m in s.claims && n in s.claims && s.claims[m].uid == s.claims[n].uid :: m == n)
  }

  /** No two deletions are of one UID, and what is left of a deleted claim is going away. */
  predicate DeletionsSound(s: State) {
    && (forall i | 0 <= i < |s.deletions| ::
          && s.deletions[i].claim.uid <= s.issued
          && forall n | n in s.claims && s.claims[n].uid == s.deletions[i].claim.uid :: s.claims[n].terminating)
    && (forall i, j | 0 <= i < j < |s.deletions| :: s.deletions[i].claim.uid != s.deletions[j].claim.uid)
  }

  predicate RecordsSound(s: State) {
    && (forall i | 0 <= i < |s.records| :: s.records[i] in s.deletions)
    && (forall i, j | 0 <= i < j < |s.records| :: s.records[i].claim.uid != s.records[j].claim.uid)
  }

  /** What a worker in flight can rely on: as long as the version it read stands, so does the claim. */
  predicate JobSound(s: State, job: Job) {
    match job
    case Examining(_) => true
    case Confirmed(ng, claim) =>
      && !claim.terminating && claim.version <= s.issued
      && (claim.name in s.claims && s.claims[claim.name].version == claim.version ==> s.claims[claim.name] == claim)
    case Recording(d) => d in s.deletions && forall i | 0 <= i < |s.records| :: s.records[i].claim.uid != d.claim.uid
  }

  predicate JobsSound(s: State) {
    && (forall w | w in s.jobs :: JobSound(s, s.jobs[w]))
    && (forall v, w | v in s.jobs && w in s.jobs && v != w && s.jobs[v].Recording? && s.jobs[w].Recording? ::
          s.jobs[v].deletion.claim.uid != s.jobs[w].deletion.claim.uid)
  }

  predicate Inv(s: State) { Numbered(s) && DeletionsSound(s) && RecordsSound(s) && JobsSound(s) }

  /** Every claim deleted, or about to be, was of a launch to fail when the API server returned it. */
  predicate Justified(s: State) {
    && (forall d <- s.deletions :: Condemned(d.ng, d.claim))
    && (forall w | w in s.jobs && s.jobs[w].Confirmed? :: Condemned(s.jobs[w].ng, s.jobs[w].claim))
  }

  /** A write of a stored claim that never takes a deletion back, or of a claim of a new UID. */
  lemma StoreKeepsInv(s: State, claim: NodeClaim)
    requires Inv(s)
    requires if claim.name in s.claims
             then claim.uid == s.claims[claim.name].uid && (s.claims[claim.name].terminating ==> claim.terminating)
             else claim.uid == s.issued + 1
    ensures Inv(Store(s, claim))
  {
  }

  lemma LeaveKeepsInv(s: State, w: nat)
    requires Inv(s)
    ensures Inv(Leave(s, w))
  {
  }

  predicate FirstOfItsUID(s: State, d: Deletion) {
    && d.claim.uid <= s.issued
    && (forall i | 0 <= i < |s.deletions| :: s.deletions[i].claim.uid != d.claim.uid)
    && (forall n | n in s.claims && s.claims[n].uid == d.claim.uid :: s.claims[n].terminating)
  }

  function Deleted(s: State, w: nat, d: Deletion, lost: bool): State {
    s.(deletions := s.deletions + [d], jobs := if lost then s.jobs else s.jobs[w := Recording(d)])
  }

  lemma DeletionKeepsJobs(s: State, w: nat, d: Deletion, lost: bool)
    requires Inv(s) && w !in s.jobs && FirstOfItsUID(s, d)
    ensures JobsSound(Deleted(s, w, d, lost))
  {
    var t := Deleted(s, w, d, lost);
    assert forall e | e in s.deletions :: e in t.deletions;
    assert forall i | 0 <= i < |s.records| :: s.records[i].claim.uid != d.claim.uid;
    forall v | v in t.jobs ensures JobSound(t, t.jobs[v]) {
      if v in s.jobs { assert JobSound(s, s.jobs[v]); }
    }
    forall v | v in s.jobs && s.jobs[v].Recording? ensures s.jobs[v].deletion.claim.uid != d.claim.uid {
      assert JobSound(s, s.jobs[v]);
    }
  }

  /** One more accepted deletion, of a UID deleted for the first time. */
  lemma DeletionKeepsInv(s: State, w: nat, d: Deletion, lost: bool)
    requires Inv(s) && w !in s.jobs && FirstOfItsUID(s, d)
    ensures Inv(Deleted(s, w, d, lost))
  {
    DeletionKeepsJobs(s, w, d, lost);
  }

  lemma PinnedDeletionIsFirst(s: State, claim: NodeClaim, ng: NodeGroup)
    requires Inv(s) && claim.name in s.claims && s.claims[claim.name] == claim && !claim.terminating
    ensures FirstOfItsUID(Store(s, claim.(terminating := true)), Deletion(claim, ng))
  {
  }

  lemma DeleteKeepsInv(s: State, w: nat, lost: bool)
    requires Inv(s) && w in s.jobs && s.jobs[w].Confirmed?
    ensures Inv(DoDelete(s, w, s.jobs[w].ng, s.jobs[w].claim, lost))
  {
    var Confirmed(ng, claim) := s.jobs[w];
    var left := Leave(s, w);
    LeaveKeepsInv(s, w);
    if Stands(s, claim) {
      assert JobSound(s, s.jobs[w]) && s.claims[claim.name] == claim;
      PinnedDeletionIsFirst(left, claim, ng);
      StoreKeepsInv(left, claim.(terminating := true));
      DeletionKeepsInv(Store(left, claim.(terminating := true)), w, Deletion(claim, ng), lost);
      DeleteIs(s, w, ng, claim, lost);
    }
  }

  lemma DeleteIs(s: State, w: nat, ng: NodeGroup, claim: NodeClaim, lost: bool)
    requires claim.name in s.claims && s.claims[claim.name] == claim
    ensures DoDelete(s, w, ng, claim, lost) ==
        Deleted(Store(Leave(s, w), claim.(terminating := true)), w, Deletion(claim, ng), lost)
  {
    assert (s.jobs - {w})[w := Recording(Deletion(claim, ng))] == s.jobs[w := Recording(Deletion(claim, ng))];
  }

  lemma RecordKeepsInv(s: State, w: nat)
    requires Inv(s) && w in s.jobs && s.jobs[w].Recording?
    ensures Inv(Apply(s, Record(w)))
  {
    var t := Apply(s, Record(w));
    assert JobSound(s, s.jobs[w]);
    forall v | v in t.jobs ensures JobSound(t, t.jobs[v]) {
      assert JobSound(s, s.jobs[v]);
    }
  }

  lemma ReadClaimKeepsInv(s: State, w: nat, ng: NodeGroup)
    requires Inv(s)
    ensures Inv(DoReadClaim(s, w, ng))
  {
    LeaveKeepsInv(s, w);
    if ng.name in s.claims && Condemned(ng, s.claims[ng.name]) { JobKeepsInv(s, w, Confirmed(ng, s.claims[ng.name])); }
  }

  lemma JobKeepsInv(s: State, w: nat, job: Job)
    requires Inv(s) && !job.Recording? && JobSound(s, job)
    ensures Inv(s.(jobs := s.jobs[w := job]))
  {
  }

  lemma RemoveKeepsInv(s: State, name: string)
    requires Inv(s)
    ensures Inv(s.(claims := s.claims - {name}))
  {
    var t := s.(claims := s.claims - {name});
    forall w | w in t.jobs ensures JobSound(t, t.jobs[w]) { assert JobSound(s, s.jobs[w]); }
  }

  lemma OthersKeepInv(s: State, a: Action)
    requires Inv(s) && (a.Create? || a.Write? || a.Terminate? || a.Remove?)
    ensures Inv(Apply(s, a))
  {
    match a
    case Create(claim) => if claim.name !in s.claims { StoreKeepsInv(s, Newborn(s, claim)); }
    case Write(claim) => if claim.name in s.claims { StoreKeepsInv(s, Rewritten(s, claim)); }
    case Terminate(name) => if name in s.claims { StoreKeepsInv(s, s.claims[name].(terminating := true)); }
    case Remove(name) => RemoveKeepsInv(s, name);
  }

  lemma StepKeepsInv(s: State, a: Action)
    requires Inv(s)
    ensures Inv(Apply(s, a))
  {
    match a
    case ReadGroup(w, ng) => if w !in s.jobs { JobKeepsInv(s, w, Examining(ng)); }
    case ReadClaim(w) => if w in s.jobs && s.jobs[w].Examining? { ReadClaimKeepsInv(s, w, s.jobs[w].ng); }
    case Delete(w, lost) => if w in s.jobs && s.jobs[w].Confirmed? { DeleteKeepsInv(s, w, lost); }
    case Record(w) => if w in s.jobs && s.jobs[w].Recording? { RecordKeepsInv(s, w); }
    case Drop(w) => LeaveKeepsInv(s, w);
    case _ => OthersKeepInv(s, a);
  }

  /** Every claim deleted was, as it stood on the API server when the delete was accepted, one
      LaunchOf a refused group: it rests on the pin, since the claim that stood is the one read. */
  lemma StepIsJustified(s: State, a: Action)
    requires Inv(s) && Justified(s)
    ensures Justified(Apply(s, a))
  {
    if a.Delete? && a.worker in s.jobs && s.jobs[a.worker].Confirmed? {
      assert JobSound(s, s.jobs[a.worker]);
    }
  }

  lemma {:induction false} RunKeepsInv(s: State, actions: seq<Action>)
    requires Inv(s) && Justified(s)
    ensures Inv(Run(s, actions)) && Justified(Run(s, actions))
    decreases |actions|
  {
    if actions != [] {
      StepKeepsInv(s, actions[0]);
      StepIsJustified(s, actions[0]);
      RunKeepsInv(Apply(s, actions[0]), actions[1..]);
    }
  }

  const NOTHING := State(map[], 0, map[], [], [])

  /** Late-refusal safety, over every run. A claim is deleted only as a launched, unregistered claim of
      a refused group that never synced, at most once per UID; a refusal is recorded only for an
      accepted deletion, at most once per UID. */
  lemma LateRefusalSafety(actions: seq<Action>)
    ensures var s := Run(NOTHING, actions);
            && (forall d <- s.deletions ::
                  && d.claim.launched && !d.claim.registered && d.claim.ours && !d.claim.terminating
                  && d.claim.providerID == "clevercloud://" + d.ng.name
                  && IsManaged(d.ng) && !d.ng.terminating && IsRefused(d.ng) && !IsSynced(d.ng))
            && (forall i, j | 0 <= i < j < |s.deletions| :: s.deletions[i].claim.uid != s.deletions[j].claim.uid)
            && (forall r <- s.records :: r in s.deletions)
            && (forall i, j | 0 <= i < j < |s.records| :: s.records[i].claim.uid != s.records[j].claim.uid)
  {
    RunKeepsInv(NOTHING, actions);
  }

  /** Whatever is written on the claim between the confirming read and the delete, its registration
      first of all, makes the delete a conflict: nothing is deleted, and nothing recorded. */
  lemma ChangedClaimIsSpared(s: State, w: nat, between: Action, lost: bool)
    requires Inv(s) && w in s.jobs && s.jobs[w].Confirmed?
    requires between.Write? || between.Terminate?
    requires (if between.Write? then between.claim.name else between.name) == s.jobs[w].claim.name
    requires s.jobs[w].claim.name in s.claims
    ensures var written := Apply(s, between);
            Apply(written, Delete(w, lost)) == Leave(written, w)
  {
    assert JobSound(s, s.jobs[w]);
  }

  /** Left alone, the sequence fails the launch: the claim is on its way out and the refusal recorded. */
  lemma LoneFailureCompletes(s: State, w: nat, ng: NodeGroup)
    requires Inv(s) && w !in s.jobs && ng.name in s.claims && Condemned(ng, s.claims[ng.name])
    ensures var t := Apply(Apply(Apply(Apply(s, ReadGroup(w, ng)), ReadClaim(w)), Delete(w, false)), Record(w));
            && ng.name in t.claims && t.claims[ng.name].terminating
            && t.records == s.records + [Deletion(s.claims[ng.name], ng)]
            && w !in t.jobs
  {
    var claim := s.claims[ng.name];
    assert claim.name == ng.name;
    assert Apply(Apply(s, ReadGroup(w, ng)), ReadClaim(w)).jobs[w] == Confirmed(ng, claim);
  }

  /** What a record is for: whatever the refusal, the refused flavor is unavailable from that instant,
      so the launch core plans instead goes elsewhere. Over quota, so is exactly every flavor that is at least
      as large, besides those that were; any other refusal touches that flavor only. */
  lemma RecordArms(sizes: Catalogue.Sizes, mem: Memory, ng: NodeGroup, now: nat, other: string)
    requires IsRefused(ng)
    ensures var after := Recorded(sizes, mem, ng, now);
      && Unavailable(after, sizes, ng.flavor, now)
      && (IsQuotaExceeded(ng) && other != ng.flavor && ng.flavor !in mem.quota ==>
            (Unavailable(after, sizes, other, now) <==>
               Unavailable(mem, sizes, other, now)
               || (other in sizes && ng.flavor in sizes && Catalogue.AtLeast(sizes[other], sizes[ng.flavor]))))
      && (IsQuotaExceeded(ng) && other != ng.flavor && !Unavailable(mem, sizes, other, now)
          && !(other in sizes && ng.flavor in sizes && Catalogue.AtLeast(sizes[other], sizes[ng.flavor])) ==>
            !Unavailable(after, sizes, other, now))
      && (!IsQuotaExceeded(ng) && other != ng.flavor ==>
            (Unavailable(after, sizes, other, now) <==> Unavailable(mem, sizes, other, now)))
  {
    var after := Recorded(sizes, mem, ng, now);
    var f := ng.flavor;
    if IsQuotaExceeded(ng) {
      assert f in after.quota && InForce(after.quota[f], f, f, Catalogue.SizeOf(sizes, f), f in sizes, now);
      var r := after.quota[f];
      assert InForce(r, f, other, Catalogue.SizeOf(sizes, other), other in sizes, now) <==>
        other == f || (other in sizes && f in sizes && Catalogue.AtLeast(sizes[other], sizes[f]));
      assert forall g | g in mem.quota && g != f :: g in after.quota && after.quota[g] == mem.quota[g];
    }
  }

  /** The memory after the LateRefusal step of the launch protocol. */
  function Recorded(sizes: Catalogue.Sizes, mem: Memory, ng: NodeGroup, now: nat): Memory {
    LaunchProtocol.Apply(sizes, LaunchProtocol.State(now, mem, LaunchProtocol.Free, map[], None, [], []),
        LaunchProtocol.LateRefusal(ng)).mem
  }

  datatype Reply = Accepted | NotFound | Conflict | Failed

  /** A read: the object, NotFound, or an error. */
  datatype Answer<+T> = Got(value: T) | Missing | ReadFailed

  /** launchedNodeClaim found the claim of a launch in progress. */
  predicate Launched(ng: Answer<NodeGroup>, claim: Answer<NodeClaim>) {
    ng.Got? && claim.Got? && LaunchOf(ng.value, claim.value)
  }

  /** Its claim is read only for a group worth following. */
  predicate Unread(ng: Answer<NodeGroup>, claim: Answer<NodeClaim>) {
    ng.ReadFailed? || (ng.Got? && Followed(ng.value) && claim.ReadFailed?)
  }

  class Controller {
    const provider: NodeGroupProvider.Provider
    var overdue: set<string>

    constructor (provider: NodeGroupProvider.Provider)
      ensures this.provider == provider && overdue == {}
    {
      this.provider := provider;
      overdue := {};
    }

    /** The uncached reads, the pinned delete and the record. A delete is sent exactly for a launch to
        fail, the refusal is recorded exactly when the API server accepted it, and the launch is looked
        at again exactly when a read failed or the delete did, other than by finding nothing. */
    method FailLaunch(ng: Answer<NodeGroup>, claim: Answer<NodeClaim>, reply: Reply, now: nat)
      returns (sent: Option<(nat, nat)>, again: bool)
      modifies provider
      ensures sent == if Launched(ng, claim) && Condemned(ng.value, claim.value)
                      then Some((claim.value.uid, claim.value.version)) else None
      ensures again <==> Unread(ng, claim) || (sent.Some? && (reply == Conflict || reply == Failed))
      ensures provider.Mem() == if sent.Some? && reply == Accepted
                                then Recorded(provider.catalogue, old(provider.Mem()), ng.value, now)
                                else old(provider.Mem())
    {
      if !ng.Got? { return None, ng.ReadFailed?; }
      if !Followed(ng.value) { return None, false; }
      if !claim.Got? { return None, claim.ReadFailed?; }
      if !LaunchOf(ng.value, claim.value) { return None, false; }
      if IsSynced(ng.value) || !IsRefused(ng.value) { return None, false; }
      sent := Some((claim.value.uid, claim.value.version));
      if reply != Accepted { return sent, reply != NotFound; }
      provider.RecordLateRefusal(ng.value, now);
      again := false;
    }

    /** One reconcile from the cache. It fails a launch only after reading everything again, whatever
        the cache shows; a group is overdue while its launch is followed past the threshold, and leaves
        as soon as a reconcile finds it synced, refused, gone, or its claim registered or gone. A failed
        read of the cache leaves everything as it was. */
    method Reconcile(name: string, cached: Answer<NodeGroup>, cachedClaim: Answer<NodeClaim>,
                     ng: Answer<NodeGroup>, claim: Answer<NodeClaim>, reply: Reply, now: nat)
      returns (sent: Option<(nat, nat)>, again: bool)
      requires cached.Got? ==> cached.value.name == name
      modifies this, provider
      ensures sent.Some? <==>
        && Launched(cached, cachedClaim) && Condemned(cached.value, cachedClaim.value)
        && Launched(ng, claim) && Condemned(ng.value, claim.value)
      ensures sent.Some? ==> sent == Some((claim.value.uid, claim.value.version))
      ensures provider.Mem() == if sent.Some? && reply == Accepted
                                then Recorded(provider.catalogue, old(provider.Mem()), ng.value, now)
                                else old(provider.Mem())
      ensures Unread(cached, cachedClaim) ==> again && sent.None? && overdue == old(overdue)
      ensures !Unread(cached, cachedClaim) ==>
        var waiting := Launched(cached, cachedClaim) && !IsSynced(cached.value) && !IsRefused(cached.value);
        var failing := Launched(cached, cachedClaim) && Condemned(cached.value, cachedClaim.value);
        again <==> (waiting && now - cached.value.createdAt < 300_000_000_000)
                   || (failing && (Unread(ng, claim) || (sent.Some? && (reply == Conflict || reply == Failed))))
      ensures !Unread(cached, cachedClaim) ==>
        var waiting := Launched(cached, cachedClaim) && !IsSynced(cached.value) && !IsRefused(cached.value);
        overdue == if !waiting then old(overdue) - {name}
                   else if now - cached.value.createdAt >= 300_000_000_000 then old(overdue) + {name}
                   else old(overdue)
    {
      sent, again := None, false;
      if Unread(cached, cachedClaim) { return None, true; }
      if !Launched(cached, cachedClaim) || IsSynced(cached.value) {
        overdue := overdue - {name};
      } else if IsRefused(cached.value) {
        overdue := overdue - {name};
        sent, again := FailLaunch(ng, claim, reply, now);
      } else if now - cached.value.createdAt >= SYNC_OVERDUE_AFTER {
        overdue := overdue + {name};
      } else {
        again := true;
      }
    }
  }
}
