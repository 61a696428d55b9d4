/** One launch left alone: the actions ResolveAndCreate performs, in its order, as a run of the
    protocol machine. The Provider class is proved to end where this run ends. */
module LaunchScript {
  import opened Base
  import opened NodeGroupApi
  import opened Catalogue
  import opened RefusalMemory
  import opened AcceptancePoll
  import opened LaunchProtocol

  function Polls(answers: seq<Read>, shutdown: bool): seq<Action>
    decreases |answers|
  {
    if answers == [] then [TimeOut(shutdown), Settle]
    else [Poll(answers[0], shutdown)] + Polls(answers[1..], shutdown)
  }

  /** The launch of a claim: resolve or give up; then the check, the mark, the create call and what
      it leaves to record; `wait` later the poll and what that leaves to record. */
  function Script(claim: Claim, plan: Option<Plan>, reply: PostReply, wait: nat, answers: seq<Read>,
      shutdown: bool): seq<Action>
  {
    if plan.None? then [Lock(claim), GiveUp]
    else [Lock(claim), Resolve(plan.value), Check, Mark, Send(reply), Settle, Tick(wait)] + Polls(answers, shutdown)
  }

  /** Whether a verdict comes with the deletion of the group it is about. */
  predicate Frees(v: Verdict) { v.OverQuota? || v.Refused? }

  /** How many create calls a run sent. */
  function PostsIn(log: seq<Event>): nat {
    if log == [] then 0
    else PostsIn(log[..|log| - 1]) + (if log[|log| - 1].Posted? then 1 else 0)
  }

  /** The state in which the poll starts, or the launch has ended. */
  function BeforePoll(sizes: Sizes, s: State, claim: Claim, plan: Plan, reply: PostReply, wait: nat): State {
    var checked := Apply(sizes, Apply(sizes, Apply(sizes, s, Lock(claim)), Resolve(plan)), Check);
    var sent := Apply(sizes, Apply(sizes, checked, Mark), Send(reply));
    Apply(sizes, Apply(sizes, sent, Settle), Tick(wait))
  }

  lemma RunCons(sizes: Sizes, s: State, a: Action, rest: seq<Action>)
    ensures Run(sizes, s, [a] + rest) == Run(sizes, Apply(sizes, s, a), rest)
  {
    assert ([a] + rest)[1..] == rest;
  }

  lemma RunThree(sizes: Sizes, s: State, a: Action, b: Action, c: Action, rest: seq<Action>)
    ensures Run(sizes, s, [a, b, c] + rest) == Run(sizes, Apply(sizes, Apply(sizes, Apply(sizes, s, a), b), c), rest)
  {
    assert [a, b, c] + rest == [a] + ([b] + ([c] + rest));
    RunCons(sizes, s, a, [b] + ([c] + rest));
    RunCons(sizes, Apply(sizes, s, a), b, [c] + rest);
    RunCons(sizes, Apply(sizes, Apply(sizes, s, a), b), c, rest);
  }

  lemma ScriptStarts(sizes: Sizes, s: State, claim: Claim, plan: Plan, reply: PostReply, wait: nat, answers: seq<Read>,
      shutdown: bool)
    ensures Run(sizes, s, Script(claim, Some(plan), reply, wait, answers, shutdown)) ==
            Run(sizes, BeforePoll(sizes, s, claim, plan, reply, wait), Polls(answers, shutdown))
  {
    var polls := Polls(answers, shutdown);
    assert Script(claim, Some(plan), reply, wait, answers, shutdown) ==
           [Lock(claim), Resolve(plan), Check] + ([Mark, Send(reply), Settle] + ([Tick(wait)] + polls));
    RunThree(sizes, s, Lock(claim), Resolve(plan), Check, [Mark, Send(reply), Settle] + ([Tick(wait)] + polls));
    var checked := Apply(sizes, Apply(sizes, Apply(sizes, s, Lock(claim)), Resolve(plan)), Check);
    RunThree(sizes, checked, Mark, Send(reply), Settle, [Tick(wait)] + polls);
    RunCons(sizes, Apply(sizes, Apply(sizes, Apply(sizes, checked, Mark), Send(reply)), Settle), Tick(wait), polls);
  }

  /** Outside a poll, reads and time-outs change nothing. */
  lemma {:induction false} PollsRest(sizes: Sizes, s: State, answers: seq<Read>, shutdown: bool)
    requires !s.launch.Polling?
    ensures Run(sizes, s, Polls(answers, shutdown)) == DoSettle(sizes, s)
    decreases |answers|
  {
    if answers == [] {
      assert Run(sizes, s, [TimeOut(shutdown), Settle]) == Run(sizes, s, [Settle]) == DoSettle(sizes, s);
    } else {
      assert Polls(answers, shutdown)[1..] == Polls(answers[1..], shutdown);
      PollsRest(sizes, s, answers[1..], shutdown);
    }
  }

  /** A poll ends on its first decisive read, or with its time. */
  function PollEnd(sizes: Sizes, s: State, answers: seq<Read>, k: nat, shutdown: bool): State
    requires s.launch.Polling? && k <= |answers|
  {
    var watched := s.launch.watched;
    var at := s.(launch := s.launch.(seen := SeenIn(watched, answers[..k])));
    if k == |answers| then DoTimeOut(at, shutdown)
    else DoSettle(sizes, OnVerdict(sizes, at, VerdictAt(watched, answers, k), answers[k], shutdown))
  }

  /** The next read of a poll. */
  lemma PollsStep(sizes: Sizes, s: State, answers: seq<Read>, j: nat, shutdown: bool)
    requires s.launch.Polling? && j < |answers| && s.launch.seen == SeenIn(s.launch.watched, answers[..j])
    ensures var t := OnVerdict(sizes, s, VerdictAt(s.launch.watched, answers, j), answers[j], shutdown);
            Run(sizes, s, Polls(answers[j..], shutdown)) == Run(sizes, t, Polls(answers[j + 1..], shutdown))
  {
    assert answers[j..][0] == answers[j] && answers[j..][1..] == answers[j + 1..];
    RunCons(sizes, s, Poll(answers[j], shutdown), Polls(answers[j + 1..], shutdown));
  }

  lemma PollsTimeOut(sizes: Sizes, s: State, shutdown: bool)
    requires s.launch.Polling?
    ensures Run(sizes, s, Polls([], shutdown)) == DoTimeOut(s, shutdown)
  {
    var t := DoTimeOut(s, shutdown);
    assert Run(sizes, s, [TimeOut(shutdown), Settle]) == Run(sizes, t, [Settle]) == t;
  }

  lemma {:induction false} PollsEnd(sizes: Sizes, s: State, answers: seq<Read>, j: nat, k: nat, shutdown: bool)
    requires s.launch.Polling? && EndsAt(s.launch.watched, answers, k) && j <= k
    requires s.launch.seen == SeenIn(s.launch.watched, answers[..j])
    ensures Run(sizes, s, Polls(answers[j..], shutdown)) == PollEnd(sizes, s, answers, k, shutdown)
    decreases k - j
  {
    if j == |answers| {
      assert answers[j..] == [];
      PollsTimeOut(sizes, s, shutdown);
    } else {
      PollsStep(sizes, s, answers, j, shutdown);
      if j < k {
        assert answers[..j + 1] == answers[..j] + [answers[j]];
        PollsEnd(sizes, s.(launch := s.launch.(seen := SeenIn(s.launch.watched, answers[..j + 1]))), answers, j + 1, k,
            shutdown);
      } else {
        PollsRest(sizes, OnVerdict(sizes, s, VerdictAt(s.launch.watched, answers, j), answers[j], shutdown),
            answers[j + 1..], shutdown);
      }
    }
  }

  /** A script whose launch has ended before the poll ends there. */
  lemma ScriptEndsEarly(sizes: Sizes, s: State, claim: Claim, plan: Plan, reply: PostReply, wait: nat,
      answers: seq<Read>, shutdown: bool)
    requires BeforePoll(sizes, s, claim, plan, reply, wait).launch == Free
    ensures Run(sizes, s, Script(claim, Some(plan), reply, wait, answers, shutdown)) ==
        BeforePoll(sizes, s, claim, plan, reply, wait)
  {
    ScriptStarts(sizes, s, claim, plan, reply, wait, answers, shutdown);
    PollsRest(sizes, BeforePoll(sizes, s, claim, plan, reply, wait), answers, shutdown);
  }

  /** One that reaches the poll ends with the poll's first decisive read, or its time. */
  lemma ScriptEndsWithPoll(sizes: Sizes, s: State, claim: Claim, plan: Plan, reply: PostReply, wait: nat,
      answers: seq<Read>, shutdown: bool, k: nat)
    requires var b := BeforePoll(sizes, s, claim, plan, reply, wait);
             b.launch.Polling? && b.launch.seen == b.launch.watched.Some? && EndsAt(b.launch.watched, answers, k)
    ensures Run(sizes, s, Script(claim, Some(plan), reply, wait, answers, shutdown)) ==
            PollEnd(sizes, BeforePoll(sizes, s, claim, plan, reply, wait), answers, k, shutdown)
  {
    ScriptStarts(sizes, s, claim, plan, reply, wait, answers, shutdown);
    assert answers[0..] == answers;
    PollsEnd(sizes, BeforePoll(sizes, s, claim, plan, reply, wait), answers, 0, k, shutdown);
  }

  /** What is left of a launch once its poll is over: the outcome and the memory, from the memory the
      poll started with, the group in hand and the flavor of the group that was read. */
  function Aftermath(sizes: Sizes, mem: Memory, v: Verdict, ng: NodeGroup, flavor: string, mark: nat, now: nat,
      shutdown: bool): (Outcome, Memory)
  {
    match v
    case Vanished => (GroupVanished, RecordQuota(mem, sizes, ng.flavor, VANISH_MESSAGE, now))
    case OverQuota(message) => (QuotaRejected(flavor), RecordQuota(mem, sizes, flavor, message, now))
    case Refused(_) => (FlavorRefused(flavor), RecordHold(mem, flavor, now))
    case IsReady => (Launched(ng, ReadyAtOnce), ReleaseHold(mem, ng.flavor, mark))
    case Acknowledged => (Launched(ng, AcknowledgedByOperator), ReleaseHold(mem, ng.flavor, mark))
    case Cut => (if shutdown then Aborted else Launched(ng, Unacknowledged), mem)
    case _ => (Aborted, mem)
  }

  /** The flavor a refusal is about. */
  function RefusedFlavor(v: Verdict, answers: seq<Read>, k: nat): string
    requires Frees(v) ==> k < |answers| && answers[k].Found?
  {
    if Frees(v) then answers[k].group.flavor else ""
  }

  /** What the poll of b leaves, once it has ended at its k-th answer. */
  predicate Leaves(sizes: Sizes, b: State, answers: seq<Read>, k: nat, shutdown: bool, end: State)
    requires b.launch.Polling? && k <= |answers|
  {
    var v := Judged(b.launch.watched, answers, k);
    var flavor := RefusedFlavor(v, answers, k);
    var left := Aftermath(sizes, b.mem, v, b.launch.group, flavor, b.launch.mark, b.now, shutdown);
    && end.last == Some(left.0) && end.mem == left.1
    && end.launch == Free && PostsIn(end.log) == PostsIn(b.log)
  }

  lemma PollLeaves(sizes: Sizes, b: State, answers: seq<Read>, k: nat, shutdown: bool)
    requires b.launch.Polling? && EndsAt(b.launch.watched, answers, k)
    ensures Leaves(sizes, b, answers, k, shutdown, PollEnd(sizes, b, answers, k, shutdown))
  {
    var watched := b.launch.watched;
    var at := b.(launch := b.launch.(seen := SeenIn(watched, answers[..k])));
    if k < |answers| {
      VerdictLeaves(sizes, at, VerdictAt(watched, answers, k), answers[k], shutdown);
    }
  }

  lemma VerdictLeaves(sizes: Sizes, b: State, v: Verdict, read: Read, shutdown: bool)
    requires b.launch.Polling? && v != Undecided && (Frees(v) ==> read.Found?)
    ensures var flavor := if Frees(v) then read.group.flavor else "";
            var left := Aftermath(sizes, b.mem, v, b.launch.group, flavor, b.launch.mark, b.now, shutdown);
            var end := DoSettle(sizes, OnVerdict(sizes, b, v, read, shutdown));
            && end.last == Some(left.0) && end.mem == left.1
            && end.launch == Free && PostsIn(end.log) == PostsIn(b.log)
  {
    var flavor := if Frees(v) then read.group.flavor else "";
    match v
    case Vanished =>
      var lost := b.launch.group.flavor;
      PostsAppend(b.log, Rejected(lost, NewRejection(b.mem, sizes, lost, VANISH_MESSAGE, b.now), b.launch.origin));
    case OverQuota(message) =>
      PostsAppend(b.log, Rejected(flavor, NewRejection(b.mem, sizes, flavor, message, b.now), b.launch.origin));
    case Refused(_) => PostsAppend(b.log, Held(flavor, HoldOut(b.now, b.mem.holdNumber + 1)));
    case IsReady => PostsAppend(b.log, Released(b.launch.group.flavor, b.launch.markedAt));
    case Acknowledged => PostsAppend(b.log, Released(b.launch.group.flavor, b.launch.markedAt));
    case _ =>
  }

  lemma PostsAppend(log: seq<Event>, e: Event)
    ensures PostsIn(log + [e]) == PostsIn(log) + (if e.Posted? then 1 else 0)
  {
    assert (log + [e])[..|log|] == log;
  }

  /** The state after the create call and its records, by what the resolver found and the API answered. */
  function Launching(sizes: Sizes, s: State, claim: Claim, plan: Plan, reply: PostReply): State {
    if plan.existing.Some? then AdoptGroup(s, claim, plan.existing.value, s.mem.holdNumber, |s.log|)
    else
      var flavor := plan.draft.flavor;
      if QuotaCovers(s.mem, sizes, flavor, s.now) then Finish(s, FastFailed(flavor))
      else
        var sent := s.(log := s.log + [Posted(flavor, s.now, Passed(s.now, |s.log|))]);
        match reply
        case Created(uid) =>
          sent.(launch := Polling(plan.draft.(uid := uid), None, Fresh(|s.log|), s.mem.holdNumber, |s.log|, false))
        case FlavorInvalid => Finish(Hold(sent, flavor), FlavorRefused(flavor))
        case AlreadyExists(found) =>
          if found.None? then Finish(sent, Aborted) else AdoptGroup(sent, claim, found.value, s.mem.holdNumber, |s.log|)
        case PostFailed => Finish(sent, Aborted)
  }

  lemma BeforePollIs(sizes: Sizes, s: State, claim: Claim, plan: Plan, reply: PostReply, wait: nat)
    requires s.launch == Free
    ensures BeforePoll(sizes, s, claim, plan, reply, wait) ==
            Launching(sizes, s, claim, plan, reply).(now := s.now + wait)
  {
    ChecksFirst(sizes, s, claim, plan);
    var checked := DoCheck(sizes, s.(launch := Resolved(claim, plan)));
    if checked.launch.Admitted? {
      MarksThenSends(sizes, checked, reply);
      SettlesRefusal(sizes, DoSend(checked.(launch := MarkedBy(checked)), reply));
      SendsAndSettles(sizes, s, claim, plan, reply);
    } else {
      RestsWhenFree(sizes, checked, reply);
      FailsFast(sizes, s, claim, plan, reply);
    }
  }

  lemma SendsAndSettles(sizes: Sizes, s: State, claim: Claim, plan: Plan, reply: PostReply)
    requires s.launch == Free && DoCheck(sizes, s.(launch := Resolved(claim, plan))).launch.Admitted?
    ensures var checked := DoCheck(sizes, s.(launch := Resolved(claim, plan)));
            DoSettle(sizes, DoSend(checked.(launch := MarkedBy(checked)), reply)) ==
            Launching(sizes, s, claim, plan, reply)
  {
  }

  lemma FailsFast(sizes: Sizes, s: State, claim: Claim, plan: Plan, reply: PostReply)
    requires s.launch == Free && !DoCheck(sizes, s.(launch := Resolved(claim, plan))).launch.Admitted?
    ensures DoCheck(sizes, s.(launch := Resolved(claim, plan))) == Launching(sizes, s, claim, plan, reply)
    ensures DoCheck(sizes, s.(launch := Resolved(claim, plan))).launch == Free
  {
  }

  function MarkedBy(s: State): Launch
    requires s.launch.Admitted?
  {
    Marked(s.launch.claim, s.launch.plan, s.launch.admission, s.mem.holdNumber, |s.log|)
  }

  lemma ChecksFirst(sizes: Sizes, s: State, claim: Claim, plan: Plan)
    requires s.launch == Free
    ensures Apply(sizes, Apply(sizes, Apply(sizes, s, Lock(claim)), Resolve(plan)), Check) ==
        DoCheck(sizes, s.(launch := Resolved(claim, plan)))
  {
  }

  lemma MarksThenSends(sizes: Sizes, s: State, reply: PostReply)
    requires s.launch.Admitted?
    ensures Apply(sizes, Apply(sizes, s, Mark), Send(reply)) == DoSend(s.(launch := MarkedBy(s)), reply)
  {
  }

  lemma SettlesRefusal(sizes: Sizes, s: State)
    ensures Apply(sizes, s, Settle) == DoSettle(sizes, s)
  {
  }

  lemma RestsWhenFree(sizes: Sizes, s: State, reply: PostReply)
    requires s.launch == Free
    ensures Apply(sizes, Apply(sizes, Apply(sizes, s, Mark), Send(reply)), Settle) == s
  {
  }

  /** A provider no other goroutine is using. */
  function Alone(now: nat, mem: Memory): State {
    State(now, mem, Free, map[], None, [], [])
  }

  lemma GivesUp(sizes: Sizes, s: State, claim: Claim, plan: Option<Plan>, reply: PostReply, wait: nat,
      answers: seq<Read>, shutdown: bool)
    requires plan.None? && s.launch == Free
    ensures Run(sizes, s, Script(claim, plan, reply, wait, answers, shutdown)) == Finish(s, Aborted)
  {
    assert Script(claim, plan, reply, wait, answers, shutdown) == [Lock(claim)] + ([GiveUp] + []);
    RunCons(sizes, s, Lock(claim), [GiveUp] + []);
    RunCons(sizes, s.(launch := Holding(claim)), GiveUp, []);
  }

  /** A launch that ends at its check or its create call ends the script there. */
  lemma LaunchEndsEarly(sizes: Sizes, s: State, claim: Claim, plan: Plan, reply: PostReply, wait: nat,
      answers: seq<Read>, shutdown: bool)
    requires s.launch == Free && Launching(sizes, s, claim, plan, reply).launch == Free
    ensures var l := Launching(sizes, s, claim, plan, reply);
            var end := Run(sizes, s, Script(claim, Some(plan), reply, wait, answers, shutdown));
            end.last == l.last && end.mem == l.mem && end.launch == Free && PostsIn(end.log) == PostsIn(l.log)
  {
    BeforePollIs(sizes, s, claim, plan, reply, wait);
    ScriptEndsEarly(sizes, s, claim, plan, reply, wait, answers, shutdown);
  }

  /** Any other ends as its poll leaves it. */
  lemma LaunchEndsWithPoll(sizes: Sizes, s: State, claim: Claim, plan: Plan, reply: PostReply, wait: nat,
      answers: seq<Read>, shutdown: bool, k: nat)
    requires var l := Launching(sizes, s, claim, plan, reply).launch;
             s.launch == Free && l.Polling? && l.seen == l.watched.Some? && EndsAt(l.watched, answers, k)
    ensures Leaves(sizes, Launching(sizes, s, claim, plan, reply).(now := s.now + wait), answers, k, shutdown,
        Run(sizes, s, Script(claim, Some(plan), reply, wait, answers, shutdown)))
  {
    var b := Launching(sizes, s, claim, plan, reply).(now := s.now + wait);
    LaunchPolls(sizes, s, claim, plan, reply, wait, answers, shutdown, k);
    PollLeaves(sizes, b, answers, k, shutdown);
  }

  /** The script of a launch that polls is its poll, from the state its create call left. */
  lemma LaunchPolls(sizes: Sizes, s: State, claim: Claim, plan: Plan, reply: PostReply, wait: nat,
      answers: seq<Read>, shutdown: bool, k: nat)
    requires var l := Launching(sizes, s, claim, plan, reply).launch;
             s.launch == Free && l.Polling? && l.seen == l.watched.Some? && EndsAt(l.watched, answers, k)
    ensures Run(sizes, s, Script(claim, Some(plan), reply, wait, answers, shutdown)) ==
            PollEnd(sizes, Launching(sizes, s, claim, plan, reply).(now := s.now + wait), answers, k, shutdown)
  {
    BeforePollIs(sizes, s, claim, plan, reply, wait);
    ScriptEndsWithPoll(sizes, s, claim, plan, reply, wait, answers, shutdown, k);
  }

  // ---------------------------------------------------------------- outcomes, from the answers alone

  /** What a poll that ended at its k-th answer returns, and what it leaves of the memory, by that answer:
      the group in hand decides what is launched or lost, the group read decides what was refused. */
  ghost predicate Concludes(sizes: Sizes, before: Memory, observed: Option<string>, answers: seq<Read>, k: nat,
      ng: NodeGroup, mark: nat, now: nat, shutdown: bool, outcome: Outcome, after: Memory)
    requires k <= |answers|
  {
    if k == |answers| || answers[k] == Unreadable(true) then
      outcome == (if shutdown then Aborted else Launched(ng, Unacknowledged)) && after == before
    else match answers[k]
      case Unreadable(_) => outcome == Aborted && after == before
      case Missing => outcome == GroupVanished && Rejecting(sizes, before, ng.flavor, now, after)
      case Found(g) =>
        if g.terminating || (observed.Some? && observed.value != g.uid)
        then outcome == GroupVanished && Rejecting(sizes, before, ng.flavor, now, after)
        else if IsSynced(g) then outcome == Launched(ng, ReadyAtOnce) && Releasing(before, ng.flavor, mark, after)
        else if IsQuotaExceeded(g) then
          outcome == QuotaRejected(g.flavor) && Rejecting(sizes, before, g.flavor, now, after)
        else if IsRefused(g) then outcome == FlavorRefused(g.flavor) && HoldingOut(before, g.flavor, now, after)
        else outcome == Launched(ng, AcknowledgedByOperator) && Releasing(before, ng.flavor, mark, after)
  }

  /** The flavor is covered from now on, every other rejection stands, and so do the hold-outs. */
  ghost predicate Rejecting(sizes: Sizes, before: Memory, flavor: string, now: nat, after: Memory) {
    && flavor in after.quota && after.quota[flavor].at == now && after.quota[flavor].number == before.quotaNumber + 1
    && QuotaCovers(after, sizes, flavor, now)
    && (forall f | f != flavor :: f in after.quota <==> f in before.quota)
    && (forall f | f != flavor && f in before.quota :: after.quota[f] == before.quota[f])
    && after.holds == before.holds
  }

  /** The flavor is held out from now on, every other hold-out stands, and so do the rejections. */
  ghost predicate HoldingOut(before: Memory, flavor: string, now: nat, after: Memory) {
    && flavor in after.holds && after.holds[flavor].at == now && after.holds[flavor].number == before.holdNumber + 1
    && HeldOut(after, flavor, now)
    && (forall f | f != flavor :: f in after.holds <==> f in before.holds)
    && (forall f | f != flavor && f in before.holds :: after.holds[f] == before.holds[f])
    && after.quota == before.quota
  }

  /** The flavor's hold-out is released if it precedes the mark, and nothing else changes. */
  ghost predicate Releasing(before: Memory, flavor: string, mark: nat, after: Memory) {
    && (flavor in after.holds <==> flavor in before.holds && before.holds[flavor].number > mark)
    && (forall f | f != flavor :: f in after.holds <==> f in before.holds)
    && (forall f | f in after.holds :: f in before.holds && after.holds[f] == before.holds[f])
    && after.quota == before.quota
  }

  lemma PollConcludes(sizes: Sizes, before: Memory, observed: Option<string>, answers: seq<Read>, k: nat,
      ng: NodeGroup, mark: nat, now: nat, shutdown: bool)
    requires EndsAt(observed, answers, k)
    ensures var v := Judged(observed, answers, k);
            var left := Aftermath(sizes, before, v, ng, RefusedFlavor(v, answers, k), mark, now, shutdown);
            Concludes(sizes, before, observed, answers, k, ng, mark, now, shutdown, left.0, left.1)
  {
    var v := Judged(observed, answers, k);
    var flavor := RefusedFlavor(v, answers, k);
    EndsAtTheFirstThatSettles(observed, answers, k);
    RejectionRejects(sizes, before, ng.flavor, VANISH_MESSAGE, now);
    if v.OverQuota? { RejectionRejects(sizes, before, flavor, v.message, now); }
  }

  lemma RejectionRejects(sizes: Sizes, before: Memory, flavor: string, message: string, now: nat)
    ensures Rejecting(sizes, before, flavor, now, RecordQuota(before, sizes, flavor, message, now))
  {
    var after := RecordQuota(before, sizes, flavor, message, now);
    assert InForce(after.quota[flavor], flavor, flavor, SizeOf(sizes, flavor), flavor in sizes, now);
  }

  /** The launches that reach their poll: an owned group to adopt, or a flavor that is not covered and a
      create call that made a group or found an owned one. */
  predicate ReachesPoll(claim: Claim, plan: Plan, reply: PostReply, covered: bool) {
    if plan.existing.Some? then OwnedByNodeClaim(plan.existing.value, claim)
    else
      && !covered
      && (reply.Created?
          || (reply.AlreadyExists? && reply.found.Some? && OwnedByNodeClaim(reply.found.value, claim)))
  }

  /** How the others end: an unowned group is refused, a covered flavor fails fast, and only a flavor the
      API server refuses is recorded. */
  ghost predicate EndsEarly(before: Memory, plan: Plan, reply: PostReply, covered: bool, now: nat, outcome: Outcome,
      after: Memory)
  {
    if plan.existing.Some? then outcome == NotOwned && after == before
    else if covered then outcome == FastFailed(plan.draft.flavor) && after == before
    else if reply.FlavorInvalid?
    then outcome == FlavorRefused(plan.draft.flavor) && HoldingOut(before, plan.draft.flavor, now, after)
    else outcome == (if reply.AlreadyExists? && reply.found.Some? then NotOwned else Aborted) && after == before
  }
}
