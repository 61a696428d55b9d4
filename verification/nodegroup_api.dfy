/** The NodeGroup object as the API server stores it, and what this provider reads off its
    status and ownership (pkg/apis/nodegroup/v1/types.go; IsManaged, NodeClaimOwners and
    OwnedByNodeClaim of pkg/providers/nodegroup/nodegroup.go). */
module NodeGroupApi {
  import opened Base

  datatype ConditionStatus = True | False | Unknown

  datatype Condition = Condition(kind: string, status: ConditionStatus, reason: string, message: string)

  datatype OwnerRef = OwnerRef(apiVersion: string, kind: string, name: string, uid: string)

  /** What a generation of Hash() fed to the hash function: the labels (None is a nil map, which
      hashes differently from an empty one) and every other field that is not zero. The digest is
      modelled by its input, so that two digests are equal exactly when their inputs are. */
  datatype Digest = Digest(labels: Option<map<string, string>>, later: map<string, string>)

  /** An annotation's text, by what its readers make of it: a digest, a quantity in 1e-9 units
      (the precision of a Kubernetes quantity), or anything else. */
  datatype Annotation = Text(text: string) | Stamped(digest: Digest) | Amount(nanos: int)

  datatype NodeGroup = NodeGroup(
    name: string,
    uid: string,
    labels: map<string, string>,
    annotations: map<string, Annotation>,
    owners: seq<OwnerRef>,
    flavor: string,
    nodeCount: int,
    payload: map<string, string>,
    createdAt: int,
    terminating: bool,
    phase: string,
    conditions: seq<Condition>)

  datatype Claim = Claim(name: string, uid: string, labels: map<string, string>)

  const MANAGED := "karpenter.clever-cloud.com/managed"
  const NODECLAIM := "karpenter.clever-cloud.com/nodeclaim"
  const NODEPOOL := "karpenter.clever-cloud.com/nodepool"
  const NODECLASS := "karpenter.clever-cloud.com/nodeclass"
  const NODECLASS_HASH := "karpenter.clever-cloud.com/clevernodeclass-hash"
  const NODECLASS_HASH_VERSION := "karpenter.clever-cloud.com/clevernodeclass-hash-version"
  const DISK_CAPACITY := "karpenter.clever-cloud.com/ephemeral-storage-capacity"
  const DISK_ALLOCATABLE := "karpenter.clever-cloud.com/ephemeral-storage-allocatable"

  const READY := "Ready"
  const RECONCILE_IN_PROGRESS := "ReconcileInProgress"
  const RECONCILE_FAILED := "ReconcileFailed"
  const QUOTA_EXCEEDED := "QuotaExceeded"
  const UPSTREAM_ERROR := "UpstreamError"

  /** The first condition of a type, as GetCondition finds it. */
  function GetCondition(conditions: seq<Condition>, kind: string): (r: Option<Condition>)
    ensures r.None? <==> forall c <- conditions :: c.kind != kind
    ensures r.Some? ==> r.value.kind == kind && r.value in conditions
  {
    if conditions == [] then None
    else if conditions[0].kind == kind then Some(conditions[0])
    else GetCondition(conditions[1..], kind)
  }

  /** It is the first: no condition before it has that type. */
  lemma {:induction false} GetConditionIsFirst(conditions: seq<Condition>, kind: string)
    requires GetCondition(conditions, kind).Some?
    ensures exists i :: 0 <= i < |conditions| && GetCondition(conditions, kind) == Some(conditions[i])
                        && forall j | 0 <= j < i :: conditions[j].kind != kind
  {
    if conditions[0].kind != kind {
      GetConditionIsFirst(conditions[1..], kind);
      var i :| 0 <= i < |conditions[1..]| && GetCondition(conditions[1..], kind) == Some(conditions[1..][i])
               && forall j | 0 <= j < i :: conditions[1..][j].kind != kind;
      forall j | 0 <= j < i + 1 ensures conditions[j].kind != kind {
        if j > 0 { assert conditions[1..][j - 1].kind != kind; }
      }
      assert GetCondition(conditions, kind) == Some(conditions[i + 1]);
    }
  }

  predicate Holds(ng: NodeGroup, kind: string) {
    var c := GetCondition(ng.conditions, kind);
    c.Some? && c.value.status == True
  }

  predicate IsSynced(ng: NodeGroup) { Holds(ng, READY) }

  predicate IsReconciling(ng: NodeGroup) { Holds(ng, RECONCILE_IN_PROGRESS) }

  predicate IsTransientReason(reason: string) { reason == UPSTREAM_ERROR }

  /** The ReconcileFailed condition when it is True. */
  function ReconcileFailed(ng: NodeGroup): Option<Condition> {
    if Holds(ng, RECONCILE_FAILED) then GetCondition(ng.conditions, RECONCILE_FAILED) else None
  }

  predicate IsQuotaExceeded(ng: NodeGroup) {
    ng.phase == QUOTA_EXCEEDED
    || (Holds(ng, RECONCILE_FAILED) && GetCondition(ng.conditions, RECONCILE_FAILED).value.reason == QUOTA_EXCEEDED)
  }

  datatype Failure = Failure(reason: string, message: string)

  function Refusal(ng: NodeGroup): Option<Failure> {
    var c := ReconcileFailed(ng);
    if c.None? || IsTransientReason(c.value.reason) then None else Some(Failure(c.value.reason, c.value.message))
  }

  predicate IsRefused(ng: NodeGroup) { IsQuotaExceeded(ng) || Refusal(ng).Some? }

  function TransientFailure(ng: NodeGroup): Option<Failure> {
    var c := ReconcileFailed(ng);
    if c.None? || !IsTransientReason(c.value.reason) then None else Some(Failure(c.value.reason, c.value.message))
  }

  /** A condition of a type is reported, before any other of that type, with that status. */
  predicate Reports(ng: NodeGroup, kind: string, status: ConditionStatus, reason: string, message: string) {
    exists i :: 0 <= i < |ng.conditions| && ng.conditions[i] == Condition(kind, status, reason, message)
                && forall j | 0 <= j < i :: ng.conditions[j].kind != kind
  }

  lemma ReportedIsFound(ng: NodeGroup, kind: string, status: ConditionStatus, reason: string, message: string)
    ensures Reports(ng, kind, status, reason, message) <==>
            GetCondition(ng.conditions, kind) == Some(Condition(kind, status, reason, message))
  {
    var c := Condition(kind, status, reason, message);
    if Reports(ng, kind, status, reason, message) {
      var i :| 0 <= i < |ng.conditions| && ng.conditions[i] == c
               && forall j | 0 <= j < i :: ng.conditions[j].kind != kind;
      FirstIsFound(ng.conditions, kind, i);
    }
    if GetCondition(ng.conditions, kind) == Some(c) { GetConditionIsFirst(ng.conditions, kind); }
  }

  lemma {:induction false} FirstIsFound(conditions: seq<Condition>, kind: string, i: nat)
    requires i < |conditions| && conditions[i].kind == kind && forall j | 0 <= j < i :: conditions[j].kind != kind
    ensures GetCondition(conditions, kind) == Some(conditions[i])
    decreases i
  {
    if i > 0 {
      assert forall j | 0 <= j < i - 1 :: conditions[1..][j] == conditions[j + 1];
      FirstIsFound(conditions[1..], kind, i - 1);
    }
  }

  /** What the status of a failing group is read as, by what the operator wrote: over quota by its phase
      or its reason, retried by the operator only for an upstream error, refused for any other reason. */
  lemma FailureIsReadByItsReason(ng: NodeGroup, reason: string, message: string)
    requires Reports(ng, "ReconcileFailed", True, reason, message)
    ensures IsQuotaExceeded(ng) <==> ng.phase == "QuotaExceeded" || reason == "QuotaExceeded"
    ensures Refusal(ng) == if reason == "UpstreamError" then None else Some(Failure(reason, message))
    ensures TransientFailure(ng) == if reason == "UpstreamError" then Some(Failure(reason, message)) else None
    ensures IsRefused(ng) <==> ng.phase == "QuotaExceeded" || reason != "UpstreamError"
    ensures QuotaMessage(ng) == message
  {
    ReportedIsFound(ng, "ReconcileFailed", True, reason, message);
  }

  /** A group that reports no failure is refused by its phase alone. */
  lemma NoFailureIsReadByThePhase(ng: NodeGroup)
    requires forall reason, message :: !Reports(ng, "ReconcileFailed", True, reason, message)
    ensures IsQuotaExceeded(ng) <==> ng.phase == "QuotaExceeded"
    ensures IsRefused(ng) <==> ng.phase == "QuotaExceeded"
    ensures Refusal(ng).None? && TransientFailure(ng).None?
  {
    var c := GetCondition(ng.conditions, "ReconcileFailed");
    if c.Some? { ReportedIsFound(ng, "ReconcileFailed", c.value.status, c.value.reason, c.value.message); }
  }

  /** Ready, and in progress: the first condition of the type, when it is True. */
  lemma ReadyAndInProgress(ng: NodeGroup)
    ensures IsSynced(ng) <==> exists reason, message :: Reports(ng, "Ready", True, reason, message)
    ensures IsReconciling(ng) <==> exists reason, message :: Reports(ng, "ReconcileInProgress", True, reason, message)
  {
    TrueIsReported(ng, "Ready");
    TrueIsReported(ng, "ReconcileInProgress");
  }

  lemma TrueIsReported(ng: NodeGroup, kind: string)
    ensures Holds(ng, kind) <==> exists reason, message :: Reports(ng, kind, True, reason, message)
  {
    var c := GetCondition(ng.conditions, kind);
    if Holds(ng, kind) { ReportedIsFound(ng, kind, True, c.value.reason, c.value.message); }
    if exists reason, message :: Reports(ng, kind, True, reason, message) {
      var reason, message :| Reports(ng, kind, True, reason, message);
      ReportedIsFound(ng, kind, True, reason, message);
    }
  }

  /** The message a quota rejection is recorded with: the ReconcileFailed condition's, True or not. */
  function QuotaMessage(ng: NodeGroup): string {
    var c := GetCondition(ng.conditions, RECONCILE_FAILED);
    if c.Some? then c.value.message else ""
  }

  /** A failing reconcile is read as a refusal or as a transient failure, never both, and the two
      exhaust it; refused means exactly "over quota by phase" or "failing for any other reason". */
  lemma FailureIsRefusalOrTransient(ng: NodeGroup)
    ensures Holds(ng, RECONCILE_FAILED) <==> (Refusal(ng).Some? || TransientFailure(ng).Some?)
    ensures !(Refusal(ng).Some? && TransientFailure(ng).Some?)
    ensures IsRefused(ng) <==> ng.phase == QUOTA_EXCEEDED || Refusal(ng).Some?
    ensures IsRefused(ng) && TransientFailure(ng).Some? ==> ng.phase == QUOTA_EXCEEDED
  {
  }

  predicate IsManaged(ng: NodeGroup) {
    MANAGED in ng.labels && ng.labels[MANAGED] == "true"
  }

  /** A label, with Go's empty string for a missing key. */
  function Label(labels: map<string, string>, key: string): string {
    if key in labels then labels[key] else ""
  }

  predicate HasPrefix(s: string, prefix: string) { prefix <= s }

  predicate IsClaimRef(ref: OwnerRef) {
    ref.kind == "NodeClaim" && HasPrefix(ref.apiVersion, "karpenter.sh/")
  }

  /** The names of the NodeClaim owner references, in order. */
  function NodeClaimOwners(refs: seq<OwnerRef>): (names: seq<string>)
    ensures forall n :: n in names <==> exists ref <- refs :: IsClaimRef(ref) && ref.name == n
  {
    if refs == [] then []
    else (if IsClaimRef(refs[0]) then [refs[0].name] else []) + NodeClaimOwners(refs[1..])
  }

  /** The complete identity adoption needs (OwnedByNodeClaim). */
  predicate OwnedByNodeClaim(ng: NodeGroup, claim: Claim) {
    && ng.name == claim.name
    && IsManaged(ng)
    && Label(ng.labels, NODECLAIM) == claim.name
    && OwnerRef("karpenter.sh/v1", "NodeClaim", claim.name, claim.uid) in ng.owners
  }

  /** The owner reference adoption rests on: of this very claim, by name and UID. */
  predicate NamesTheUID(ng: NodeGroup, claim: Claim) {
    exists ref <- ng.owners ::
      ref.apiVersion == "karpenter.sh/v1" && ref.kind == "NodeClaim" && ref.name == claim.name && ref.uid == claim.uid
  }

  /** Adoption, exactly: the managed marker, the claim's name on the group and on its label, and an owner
      reference with the claim's UID. A group of an earlier claim of the same name is not adopted. */
  lemma AdoptionNeedsTheUID(ng: NodeGroup, claim: Claim)
    ensures OwnedByNodeClaim(ng, claim) <==>
      && ng.name == claim.name
      && "karpenter.clever-cloud.com/managed" in ng.labels && ng.labels["karpenter.clever-cloud.com/managed"] == "true"
      && (if "karpenter.clever-cloud.com/nodeclaim" in ng.labels
          then ng.labels["karpenter.clever-cloud.com/nodeclaim"] == claim.name else claim.name == "")
      && NamesTheUID(ng, claim)
  {
    if NamesTheUID(ng, claim) {
      var ref :| ref in ng.owners && ref.apiVersion == "karpenter.sh/v1" && ref.kind == "NodeClaim"
                 && ref.name == claim.name && ref.uid == claim.uid;
      assert ref == OwnerRef("karpenter.sh/v1", "NodeClaim", claim.name, claim.uid);
    }
    if OwnedByNodeClaim(ng, claim) {
      assert OwnerRef("karpenter.sh/v1", "NodeClaim", claim.name, claim.uid) in ng.owners;
    }
  }

  /** A group owned by a claim names it both ways the garbage collector looks: no sweep can take an
      adopted or launched group for an orphan while that claim exists. */
  lemma OwnedGroupNamesItsClaim(ng: NodeGroup, claim: Claim)
    requires OwnedByNodeClaim(ng, claim)
    ensures claim.name in NodeClaimOwners(ng.owners)
    ensures NODECLAIM in ng.labels && claim.name != "" ==> ng.labels[NODECLAIM] == claim.name
  {
    assert IsClaimRef(OwnerRef("karpenter.sh/v1", "NodeClaim", claim.name, claim.uid));
  }
}
