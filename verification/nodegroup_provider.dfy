/** The nodegroup Provider (pkg/providers/nodegroup/nodegroup.go). Each method is one critical
    section, or the sequence of them that one call performs; answers of the API server and readings
    of the clock are parameters. The contracts tie the fields to the functions of RefusalMemory and
    to the machine of LaunchProtocol; LaunchSteps runs them interleaved. */
module NodeGroupProvider {
  import opened Base
  import opened NodeGroupApi
  import opened Catalogue
  import opened RefusalMemory
  import opened AcceptancePoll
  import opened LaunchProtocol
  import opened LaunchScript

  const SECOND: nat := 1_000_000_000

  /** What a fast-failed launch is told: the rejection that covers it and for how much longer. */
  datatype FastFail = FastFail(rejected: string, message: string, remaining: nat)

  /** Duration.Round(time.Second) of a non-negative duration. */
  function RoundToSecond(d: nat): (r: nat)
    ensures r % SECOND == 0 && d < r + SECOND / 2 && r <= d + SECOND / 2
  {
    (d + SECOND / 2) / SECOND * SECOND
  }

  /** Where the group a launch ends up with comes from: the one it created, or an owned one. */
  predicate Obtained(claim: Claim, plan: Plan, reply: PostReply, ng: NodeGroup) {
    if plan.existing.Some? then ng == plan.existing.value && OwnedByNodeClaim(ng, claim)
    else match reply
      case Created(uid) => ng == plan.draft.(uid := uid)
      case AlreadyExists(found) => found == Some(ng) && OwnedByNodeClaim(ng, claim)
      case _ => false
  }

  /** The poll a launch reached: the group in hand, the UID it watches, and the answers it used up. */
  datatype Polled = Polled(group: NodeGroup, watched: Option<string>, used: nat)

  /** What a launch that reached its poll came to: the group obtained, watched under its UID if it was there
      before, and the outcome and memory that group's answers decide; a refused group is deleted. */
  ghost predicate PolledAs(sizes: Sizes, before: Memory, claim: Claim, plan: Plan, reply: PostReply, answers: seq<Read>,
      now: nat, shutdown: bool, poll: Polled, outcome: Outcome, deletes: nat, after: Memory)
  {
    && Obtained(claim, plan, reply, poll.group)
    && poll.watched == (if plan.existing.None? && reply.Created? then None else Some(poll.group.uid))
    && EndsAt(poll.watched, answers, poll.used)
    && Concludes(sizes, before, poll.watched, answers, poll.used, poll.group, before.holdNumber, now, shutdown, outcome,
                 after)
    && deletes == (if outcome.QuotaRejected? || outcome.FlavorRefused? then 1 else 0)
  }

  /** No owner reference carries the claim's UID. */
  predicate OfAnotherClaim(ng: NodeGroup, claim: Claim) { forall ref <- ng.owners :: ref.uid != claim.uid }

  lemma OnlyItsUIDAdopts(claim: Claim, plan: Plan, reply: PostReply, covered: bool)
    ensures plan.existing.Some? && OfAnotherClaim(plan.existing.value, claim) ==>
      !ReachesPoll(claim, plan, reply, covered)
    ensures plan.existing.None? && reply.AlreadyExists? && reply.found.Some?
            && OfAnotherClaim(reply.found.value, claim) ==>
      !ReachesPoll(claim, plan, reply, covered)
  {
    if plan.existing.Some? { AdoptionNeedsTheUID(plan.existing.value, claim); }
    if reply.AlreadyExists? && reply.found.Some? { AdoptionNeedsTheUID(reply.found.value, claim); }
  }

  /** What a launch adopts is owned by the claim's name and UID. */
  lemma AdoptedHasItsUID(claim: Claim, plan: Plan, reply: PostReply, ng: NodeGroup)
    requires Obtained(claim, plan, reply, ng) && !(plan.existing.None? && reply.Created?)
    ensures exists ref <- ng.owners :: IsClaimRef(ref) && ref.name == claim.name && ref.uid == claim.uid
  {
    AdoptionNeedsTheUID(ng, claim);
    var ref :| ref in ng.owners && ref.apiVersion == "karpenter.sh/v1" && ref.kind == "NodeClaim"
               && ref.name == claim.name && ref.uid == claim.uid;
    assert IsClaimRef(ref);
  }

  class Provider {
    const catalogue: Sizes
    var quotaRejections: map<string, QuotaRejection>
    var quotaRejectionSeq: nat
    var rejectedFlavors: map<string, HoldOut>
    var holdOutSeq: nat

    ghost function Mem(): Memory
      reads this
    {
      Memory(quotaRejections, quotaRejectionSeq, rejectedFlavors, holdOutSeq)
    }

    constructor (catalogue: Sizes)
      ensures Mem() == EMPTY && this.catalogue == catalogue
    {
      this.catalogue := catalogue;
      quotaRejections, quotaRejectionSeq, rejectedFlavors, holdOutSeq := map[], 0, map[], 0;
    }

    method RecordQuotaRejection(flavor: string, message: string, now: nat)
      modifies this
      ensures Mem() == RecordQuota(old(Mem()), catalogue, flavor, message, now)
    {
      quotaRejectionSeq := quotaRejectionSeq + 1;
      quotaRejections := quotaRejections[flavor :=
        QuotaRejection(now, message, quotaRejectionSeq, SizeOf(catalogue, flavor), flavor in catalogue)];
    }

    /** The covering rejection, found by walking the map in any order. */
    method QuotaRejectionCovering(flavor: string, size: Sizing, sized: bool, now: nat)
      returns (coveredBy: string, covering: QuotaRejection, until: nat, found: bool)
      ensures found <==> exists r :: r in quotaRejections && InForce(quotaRejections[r], r, flavor, size, sized, now)
      ensures found ==> Covering(quotaRejections, flavor, size, sized, now, coveredBy)
                        && covering == quotaRejections[coveredBy]
                        && Some(until) == Coverage(covering, coveredBy, flavor, size, sized)
    {
      coveredBy, covering, until, found := "", QuotaRejection(0, "", 0, UNSIZED, false), 0, false;
      var rest := quotaRejections.Keys;
      while rest != {}
        invariant rest <= quotaRejections.Keys
        invariant found ==>
            && coveredBy in quotaRejections && coveredBy !in rest && covering == quotaRejections[coveredBy]
            && InForce(covering, coveredBy, flavor, size, sized, now)
            && Some(until) == Coverage(covering, coveredBy, flavor, size, sized)
        invariant forall r | r in quotaRejections && r !in rest
                             && InForce(quotaRejections[r], r, flavor, size, sized, now) ::
            found && Outlasts(quotaRejections, flavor, size, sized, coveredBy, r)
      {
        var rejected :| rejected in rest;
        ghost var seen := quotaRejections.Keys - rest;
        rest := rest - {rejected};
        var r := quotaRejections[rejected];
        var end := Coverage(r, rejected, flavor, size, sized);
        if end.None? || !(now < end.value) { continue; }
        if !found || end.value > until || (end.value == until && StringLess(rejected, coveredBy)) {
          forall other | other in seen && InForce(quotaRejections[other], other, flavor, size, sized, now)
            ensures Outlasts(quotaRejections, flavor, size, sized, rejected, other)
          {
            OutlastsIsTransitive(quotaRejections, flavor, size, sized, rejected, coveredBy, other);
          }
          coveredBy, covering, until, found := rejected, r, end.value, true;
        } else {
          StringLessIsTotal(rejected, coveredBy);
        }
      }
    }

    method IsUnavailable(flavor: string, now: nat) returns (unavailable: bool)
      ensures unavailable == Unavailable(Mem(), catalogue, flavor, now)
    {
      if flavor in rejectedFlavors && now - rejectedFlavors[flavor].at < FLAVOR_BACKOFF { return true; }
      var _, _, _, covered := QuotaRejectionCovering(flavor, SizeOf(catalogue, flavor), flavor in catalogue, now);
      return covered;
    }

    /** Fails exactly when the quota part of Unavailable holds at that instant, and names the same
        rejection whatever the map order; the wait it announces is at least a second and otherwise
        the time left, to the nearest second. */
    method QuotaFastFail(flavor: string, now: nat) returns (err: Option<FastFail>)
      ensures err.Some? <==> QuotaCovers(Mem(), catalogue, flavor, now)
      ensures err.Some? ==>
        var f := err.value;
        && Covering(quotaRejections, flavor, SizeOf(catalogue, flavor), flavor in catalogue, now, f.rejected)
        && f.message == quotaRejections[f.rejected].message
        && var (size, sized) := (SizeOf(catalogue, flavor), flavor in catalogue);
           var end := Coverage(quotaRejections[f.rejected], f.rejected, flavor, size, sized).value;
           f.remaining >= SECOND && Abs(f.remaining - (end - now)) <= SECOND
    {
      var rejected, r, until, covered :=
          QuotaRejectionCovering(flavor, SizeOf(catalogue, flavor), flavor in catalogue, now);
      if !covered { return None; }
      return Some(FastFail(rejected, r.message, Max(RoundToSecond(until - now), SECOND)));
    }

    method RecordFlavorRejection(flavor: string, now: nat)
      modifies this
      ensures Mem() == RecordHold(old(Mem()), flavor, now)
    {
      holdOutSeq := holdOutSeq + 1;
      rejectedFlavors := rejectedFlavors[flavor := HoldOut(now, holdOutSeq)];
    }

    method ClearFlavorRejection(flavor: string, mark: nat)
      modifies this
      ensures Mem() == ReleaseHold(old(Mem()), flavor, mark)
    {
      if flavor in rejectedFlavors && rejectedFlavors[flavor].number <= mark {
        rejectedFlavors := rejectedFlavors - {flavor};
      }
    }

    /** Forgets the rejections up to the mark, walking the map in any order. */
    method ClearQuotaRejections(mark: nat)
      modifies this
      ensures Mem() == ClearQuota(old(Mem()), mark)
    {
      var rest := quotaRejections.Keys;
      while rest != {}
        invariant rest <= old(quotaRejections).Keys
        invariant quotaRejections ==
          map f | f in old(quotaRejections) && (f in rest || old(quotaRejections)[f].number > mark) ::
            old(quotaRejections)[f]
        invariant quotaRejectionSeq == old(quotaRejectionSeq) && rejectedFlavors == old(rejectedFlavors)
            && holdOutSeq == old(holdOutSeq)
      {
        var flavor :| flavor in rest;
        rest := rest - {flavor};
        if quotaRejections[flavor].number <= mark { quotaRejections := quotaRejections - {flavor}; }
      }
    }

    /** The mark an acceptance releases up to, taken just before the create call. */
    method HoldOutMark() returns (mark: nat)
      ensures mark == Mem().holdNumber
    {
      mark := holdOutSeq;
    }

    /** The mark a DELETE clears up to, taken just before its request: Delete's first critical section. */
    method QuotaRejectionMark() returns (mark: nat)
      ensures mark == Mem().quotaNumber
    {
      mark := quotaRejectionSeq;
    }

    /** What Delete does once its request is answered, with whatever was recorded since its mark: it
        forgets the rejections up to the mark, and only once the API accepted the DELETE of a group that
        may hold capacity; no hold-out is ever touched. */
    method ConcludeDelete(ng: NodeGroup, mark: nat, accepted: bool) returns (ok: bool)
      modifies this
      ensures ok == accepted
      ensures Mem() == if accepted && (IsSynced(ng) || !IsRefused(ng)) then ClearQuota(old(Mem()), mark) else old(Mem())
      ensures rejectedFlavors == old(rejectedFlavors)
    {
      if !accepted { return false; }
      if IsSynced(ng) || !IsRefused(ng) { ClearQuotaRejections(mark); }
      return true;
    }

    /** Delete, with nothing recorded while its request was under way. */
    method Delete(ng: NodeGroup, accepted: bool) returns (ok: bool)
      modifies this
      ensures ok == accepted
      ensures Mem() ==
        if accepted && (IsSynced(ng) || !IsRefused(ng)) then ClearQuota(old(Mem()), old(quotaRejectionSeq))
        else old(Mem())
      ensures rejectedFlavors == old(rejectedFlavors)
    {
      var mark := QuotaRejectionMark();
      ok := ConcludeDelete(ng, mark, accepted);
    }

    /** RecordLateRefusal is the LateRefusal step of the protocol: a refusal over quota is a quota rejection of
        the group's flavor, any other refusal a hold-out of it, and a group that is not refused nothing. */
    method RecordLateRefusal(ng: NodeGroup, now: nat)
      modifies this
      ensures Mem() == Apply(catalogue, State(now, old(Mem()), Free, map[], None, [], []), LateRefusal(ng)).mem
      ensures IsQuotaExceeded(ng) ==> Mem() == RecordQuota(old(Mem()), catalogue, ng.flavor, QuotaMessage(ng), now)
      ensures !IsQuotaExceeded(ng) ==>
        Mem() == if IsRefused(ng) then RecordHold(old(Mem()), ng.flavor, now) else old(Mem())
    {
      if IsQuotaExceeded(ng) {
        RecordQuotaRejection(ng.flavor, QuotaMessage(ng), now);
      } else if Refusal(ng).Some? {
        RecordFlavorRejection(ng.flavor, now);
      }
    }

    /** One read of the poll: its verdict, in the code's own order of tests. The rejection is recorded,
        and the DELETE sent, exactly on a refusal of a group that is neither going away nor Ready. */
    method PollOnce(observed: Option<string>, seen: bool, retried: Option<Failure>, answer: Read, now: nat)
      returns (verdict: Verdict, seen': bool, retried': Option<Failure>, deletes: nat)
      modifies this
      ensures verdict == Decide(observed, seen, answer)
      ensures seen' == (seen || answer.Found?)
      ensures retried' == if Surfaced(observed, answer).Some? then Surfaced(observed, answer) else retried
      ensures deletes == if Frees(verdict) then 1 else 0
      ensures Mem() == if verdict.OverQuota?
                       then RecordQuota(old(Mem()), catalogue, answer.group.flavor, verdict.message, now)
                       else old(Mem())
    {
      seen', retried', deletes := seen, retried, 0;
      if answer.Missing? { return if seen then Vanished else Undecided, seen', retried', 0; }
      if answer.Unreadable? { return if answer.interrupted then Cut else Broken, seen', retried', 0; }
      var ng := answer.group;
      seen' := true;
      if observed.Some? && observed.value != ng.uid { return Vanished, seen', retried', 0; }
      var transient := TransientFailure(ng);
      if transient.Some? { retried' := transient; }
      if ng.terminating { return Vanished, seen', retried', 0; }
      if IsSynced(ng) { return IsReady, seen', retried', 0; }
      if IsQuotaExceeded(ng) {
        RecordQuotaRejection(ng.flavor, QuotaMessage(ng), now);
        return OverQuota(QuotaMessage(ng)), seen', retried', 1;
      }
      var refusal := Refusal(ng);
      if refusal.Some? { return Refused(refusal.value), seen', retried', 1; }
      return if IsReconciling(ng) then Acknowledged else Undecided, seen', retried', 0;
    }

    /** The acceptance poll. `used` is how many reads it consumed before the decisive one, whose verdict
        is the outcome; with none, or with a read its deadline cut short, the poll ran out of time. The
        transient failure handed back is the last one read, unless the controller shut down. */
    method WaitForAcceptance(observed: Option<string>, answers: seq<Read>, shutdown: bool, now: nat)
      returns (verdict: Verdict, retried: Option<Failure>, deletes: nat, used: nat)
      modifies this
      ensures EndsAt(observed, answers, used)
      ensures verdict == Judged(observed, answers, used)
      ensures deletes == if Frees(verdict) then 1 else 0
      ensures retried == if verdict.Cut? && shutdown then None else LastSurfaced(observed, Consumed(answers, used))
      ensures Mem() == if verdict.OverQuota?
                       then RecordQuota(old(Mem()), catalogue, answers[used].group.flavor, verdict.message, now)
                       else old(Mem())
    {
      var seen := observed.Some?;
      verdict, retried, deletes, used := Undecided, None, 0, 0;
      while used < |answers|
        invariant 0 <= used <= |answers| && Mem() == old(Mem()) && deletes == 0
        invariant seen == SeenIn(observed, answers[..used])
        invariant retried == LastSurfaced(observed, answers[..used])
        invariant forall j: nat | j < used :: VerdictAt(observed, answers, j) == Undecided
      {
        OneMoreRead(observed, answers, used);
        verdict, seen, retried, deletes := PollOnce(observed, seen, retried, answers[used], now);
        if verdict != Undecided {
          if verdict.Cut? && shutdown { retried := None; }
          return;
        }
        used := used + 1;
      }
      assert answers[..|answers|] == answers;
      verdict := Cut;
      if shutdown { retried := None; }
    }

    /** ResolveAndCreate up to its poll: the fast-fail, the mark, the create call or the adoption. */
    method CreateOrAdopt(claim: Claim, plan: Plan, reply: PostReply, now: nat)
      returns (ended: Option<Outcome>, ng: NodeGroup, watched: Option<string>, mark: nat, posts: nat)
      modifies this
      ensures var l := Launching(catalogue, Alone(now, old(Mem())), claim, plan, reply);
        && Mem() == l.mem && posts == PostsIn(l.log)
        && (ended.Some? ==> l.launch == Free && l.last == ended)
        && (ended.None? ==> l.launch.Polling? && l.launch.group == ng && l.launch.watched == watched
                            && l.launch.mark == mark && l.launch.seen == watched.Some?)
      ensures ended.None? ==> Obtained(claim, plan, reply, ng) && mark == old(Mem()).holdNumber && Mem() == old(Mem())
      ensures ended.None? ==>
        watched == if plan.existing.None? && reply.Created? then None else Some(ng.uid)
      ensures var covered := QuotaCovers(old(Mem()), catalogue, plan.draft.flavor, now);
        && (ended.None? <==> ReachesPoll(claim, plan, reply, covered))
        && (ended.Some? ==> EndsEarly(old(Mem()), plan, reply, covered, now, ended.value, Mem()))
      ensures posts ==
        if plan.existing.Some? || QuotaCovers(old(Mem()), catalogue, plan.draft.flavor, now) then 0 else 1
    {
      var Plan(draft, existing) := plan;
      ng, watched, posts, mark := draft, None, 0, 0;
      PostsAppend([], Posted(draft.flavor, now, Passed(now, 0)));
      if existing.None? {
        var err := QuotaFastFail(draft.flavor, now);
        if err.Some? { return Some(FastFailed(draft.flavor)), ng, watched, mark, 0; }
      }
      mark := HoldOutMark();
      if existing.Some? {
        if !OwnedByNodeClaim(existing.value, claim) { return Some(NotOwned), ng, watched, mark, 0; }
        return None, existing.value, Some(existing.value.uid), mark, 0;
      }
      posts := 1;
      assert [] + [Posted(draft.flavor, now, Passed(now, 0))] == [Posted(draft.flavor, now, Passed(now, 0))];
      match reply {
        case Created(uid) => return None, draft.(uid := uid), None, mark, 1;
        case FlavorInvalid =>
          PostsAppend([Posted(draft.flavor, now, Passed(now, 0))], Held(draft.flavor, HoldOut(now, mark + 1)));
          RecordFlavorRejection(draft.flavor, now);
          return Some(FlavorRefused(draft.flavor)), ng, watched, mark, 1;
        case PostFailed => return Some(Aborted), ng, watched, mark, 1;
        case AlreadyExists(found) =>
          if found.None? { return Some(Aborted), ng, watched, mark, 1; }
          if !OwnedByNodeClaim(found.value, claim) { return Some(NotOwned), ng, watched, mark, 1; }
          return None, found.value, Some(found.value.uid), mark, 1;
      }
    }

    /** A planned launch, left alone, is a run of the protocol machine: same outcome, same memory, as many
        create calls; and its outcome is told by the plan, the reply and the answers. */
    method LaunchPlanned(claim: Claim, plan: Plan, reply: PostReply, answers: seq<Read>, shutdown: bool,
        now: nat, wait: nat)
      returns (outcome: Outcome, posts: nat, deletes: nat, ghost poll: Option<Polled>)
      modifies this
      ensures var end :=
                Run(catalogue, Alone(now, old(Mem())), Script(claim, Some(plan), reply, wait, answers, shutdown));
              end.last == Some(outcome) && end.mem == Mem() && end.launch == Free && posts == PostsIn(end.log)
      ensures var covered := QuotaCovers(old(Mem()), catalogue, plan.draft.flavor, now);
        && posts == (if plan.existing.Some? || covered then 0 else 1)
        && (poll.Some? <==> ReachesPoll(claim, plan, reply, covered))
        && (poll.None? ==> EndsEarly(old(Mem()), plan, reply, covered, now, outcome, Mem()) && deletes == 0)
      ensures poll.Some? ==> PolledAs(catalogue, old(Mem()), claim, plan, reply, answers, now + wait, shutdown,
                                      poll.value, outcome, deletes, Mem())
    {
      ghost var start := Alone(now, Mem());
      poll := None;
      var ended, ng, watched, mark, sent := CreateOrAdopt(claim, plan, reply, now);
      if ended.Some? {
        LaunchEndsEarly(catalogue, start, claim, plan, reply, wait, answers, shutdown);
        return ended.value, sent, 0, None;
      }
      ghost var used;
      outcome, deletes, used := AwaitDecision(ng, watched, mark, answers, shutdown, now + wait);
      LaunchEndsWithPoll(catalogue, start, claim, plan, reply, wait, answers, shutdown, used);
      posts, poll := sent, Some(Polled(ng, watched, used));
    }

    /** ResolveAndCreate, left alone, is a run of the protocol machine. An optimistic success is only for a
        poll that ran out of time; an API error is an error, and changes nothing; what is adopted has an owner
        reference of this claim's UID, and a group without one is refused and changes nothing. */
    method ResolveAndCreate(claim: Claim, plan: Option<Plan>, reply: PostReply, answers: seq<Read>, shutdown: bool,
        now: nat, wait: nat)
      returns (outcome: Outcome, posts: nat, deletes: nat, ghost poll: Option<Polled>)
      modifies this
      ensures var end := Run(catalogue, Alone(now, old(Mem())), Script(claim, plan, reply, wait, answers, shutdown));
              end.last == Some(outcome) && end.mem == Mem() && end.launch == Free && posts == PostsIn(end.log)
      ensures plan.None? ==>
        outcome == Aborted && poll.None? && posts == 0 && deletes == 0 && Mem() == old(Mem())
      ensures plan.Some? ==>
        var covered := QuotaCovers(old(Mem()), catalogue, plan.value.draft.flavor, now);
        && posts == (if plan.value.existing.Some? || covered then 0 else 1)
        && (poll.Some? <==> ReachesPoll(claim, plan.value, reply, covered))
        && (poll.None? ==> EndsEarly(old(Mem()), plan.value, reply, covered, now, outcome, Mem()) && deletes == 0)
      ensures poll.Some? ==>
        && PolledAs(catalogue, old(Mem()), claim, plan.value, reply, answers, now + wait, shutdown,
                    poll.value, outcome, deletes, Mem())
        && (outcome == Launched(poll.value.group, Unacknowledged) <==>
              !shutdown && (poll.value.used == |answers| || answers[poll.value.used] == Unreadable(true)))
        && (poll.value.used < |answers| && answers[poll.value.used] == Unreadable(false) ==>
              outcome == Aborted && Mem() == old(Mem()))
      ensures outcome.Launched? ==>
        && poll.Some? && outcome.group == poll.value.group && Obtained(claim, plan.value, reply, outcome.group)
        && (plan.value.existing.Some? || !reply.Created? ==>
              exists ref <- outcome.group.owners :: IsClaimRef(ref) && ref.name == claim.name && ref.uid == claim.uid)
      ensures plan.Some? && plan.value.existing.Some?
              && (forall ref <- plan.value.existing.value.owners :: ref.uid != claim.uid) ==>
        outcome == NotOwned && Mem() == old(Mem())
      ensures plan.Some? && plan.value.existing.None? && reply.AlreadyExists? && reply.found.Some?
              && (forall ref <- reply.found.value.owners :: ref.uid != claim.uid) ==>
        (outcome == NotOwned || outcome == FastFailed(plan.value.draft.flavor)) && Mem() == old(Mem())
    {
      if plan.None? {
        GivesUp(catalogue, Alone(now, Mem()), claim, plan, reply, wait, answers, shutdown);
        return Aborted, 0, 0, None;
      }
      OnlyItsUIDAdopts(claim, plan.value, reply, QuotaCovers(Mem(), catalogue, plan.value.draft.flavor, now));
      outcome, posts, deletes, poll := LaunchPlanned(claim, plan.value, reply, answers, shutdown, now, wait);
      if poll.Some? && (plan.value.existing.Some? || !reply.Created?) {
        AdoptedHasItsUID(claim, plan.value, reply, poll.value.group);
      }
    }

    /** The poll and what it leaves to record. */
    method AwaitDecision(ng: NodeGroup, watched: Option<string>, mark: nat, answers: seq<Read>, shutdown: bool,
        now: nat)
      returns (outcome: Outcome, deletes: nat, ghost used: nat)
      modifies this
      ensures EndsAt(watched, answers, used)
      ensures var v := Judged(watched, answers, used);
              (outcome, Mem()) ==
              Aftermath(catalogue, old(Mem()), v, ng, RefusedFlavor(v, answers, used), mark, now, shutdown)
      ensures outcome.Launched? ==> outcome.group == ng
      ensures Concludes(catalogue, old(Mem()), watched, answers, used, ng, mark, now, shutdown, outcome, Mem())
      ensures outcome == Launched(ng, Unacknowledged) <==>
        !shutdown && (used == |answers| || answers[used] == Unreadable(true))
      ensures used < |answers| && answers[used] == Unreadable(false) ==> outcome == Aborted && Mem() == old(Mem())
      ensures deletes == if outcome.QuotaRejected? || outcome.FlavorRefused? then 1 else 0
    {
      ghost var before := Mem();
      var verdict, retried, freed, consumed := WaitForAcceptance(watched, answers, shutdown, now);
      outcome := Conclude(verdict, ng, RefusedFlavor(verdict, answers, consumed), mark, now, shutdown, before);
      deletes, used := freed, consumed;
      PollConcludes(catalogue, before, watched, answers, used, ng, mark, now, shutdown);
    }

    /** What ResolveAndCreate does once its poll has returned; an over-quota poll has recorded already. */
    method Conclude(verdict: Verdict, ng: NodeGroup, flavor: string, mark: nat, now: nat, shutdown: bool,
        ghost before: Memory)
      returns (outcome: Outcome)
      modifies this
      requires Mem() == if verdict.OverQuota? then RecordQuota(before, catalogue, flavor, verdict.message, now)
          else before
      ensures (outcome, Mem()) == Aftermath(catalogue, before, verdict, ng, flavor, mark, now, shutdown)
      ensures outcome.Launched? ==> outcome.group == ng
    {
      match verdict {
        case Vanished =>
          RecordQuotaRejection(ng.flavor, VANISH_MESSAGE, now);
          outcome := GroupVanished;
        case OverQuota(_) => outcome := QuotaRejected(flavor);
        case Refused(_) =>
          RecordFlavorRejection(flavor, now);
          outcome := FlavorRefused(flavor);
        case IsReady =>
          ClearFlavorRejection(ng.flavor, mark);
          outcome := Launched(ng, ReadyAtOnce);
        case Acknowledged =>
          ClearFlavorRejection(ng.flavor, mark);
          outcome := Launched(ng, AcknowledgedByOperator);
        case Cut => outcome := if shutdown then Aborted else Launched(ng, Unacknowledged);
        case _ => outcome := Aborted;
      }
    }
  }

  lemma OutlastsIsTransitive(quota: map<string, QuotaRejection>, flavor: string, size: Sizing, sized: bool, a: string,
      b: string, c: string)
    requires a in quota && Coverage(quota[a], a, flavor, size, sized).Some?
    requires b in quota && Coverage(quota[b], b, flavor, size, sized).Some?
    requires c in quota && Coverage(quota[c], c, flavor, size, sized).Some?
    requires Outlasts(quota, flavor, size, sized, a, b) && Outlasts(quota, flavor, size, sized, b, c)
    ensures Outlasts(quota, flavor, size, sized, a, c)
  {
    if StringLess(a, b) && StringLess(b, c) { StringLessIsTransitive(a, b, c); }
  }
}
