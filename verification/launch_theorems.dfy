/** The promises of the launch protocol, over every run: any plans, any answers of the API server,
    any interleaving with Deletes, late refusals and the clock. */
module LaunchTheorems {
  import opened Base
  import opened NodeGroupApi
  import opened Catalogue
  import opened RefusalMemory
  import opened LaunchProtocol
  import opened LaunchSafety

  /** DELETE linearisation. In every reachable state a flavor's rejection is remembered exactly when
      the history's last rejection of it was followed by no clearing DELETE begun after it; what is
      remembered is that rejection; and the sequence numbers stay distinct and at most the counter.
      So a clearing DELETE removes the rejections recorded before it began, and no other, even at a
      single instant of the clock. */
  lemma DeleteLinearises(sizes: Sizes, s: State)
    requires Reachable(sizes, s)
    ensures && (forall i: nat | Remembered(s.log, i) ::
                  s.log[i].flavor in s.mem.quota && s.mem.quota[s.log[i].flavor] == s.log[i].record)
            && (forall f | f in s.mem.quota :: exists i: nat :: Remembered(s.log, i) && s.log[i].flavor == f)
            && (forall f | f in s.mem.quota :: s.mem.quota[f].number <= s.mem.quotaNumber)
            && (forall f, g | f in s.mem.quota && g in s.mem.quota && f != g ::
                  s.mem.quota[f].number != s.mem.quota[g].number)
  {
    ReachableKeepsInv(sizes, s);
    forall f, g | f in s.mem.quota && g in s.mem.quota && f != g
      ensures s.mem.quota[f].number != s.mem.quota[g].number
    {
      NumbersDiffer(sizes, s, f, g);
    }
  }

  lemma NumbersDiffer(sizes: Sizes, s: State, f: string, g: string)
    requires Chronicle(sizes, s) && QuotaIsHistory(s.log, s.mem.quota)
    requires f in s.mem.quota && g in s.mem.quota && f != g
    ensures s.mem.quota[f].number != s.mem.quota[g].number
  {
    var i: nat :| Remembered(s.log, i) && s.log[i].flavor == f;
    var j: nat :| Remembered(s.log, j) && s.log[j].flavor == g;
    assert i < j || j < i;
  }

  /** A DELETE that fails, or that removes a group the operator refused before it ever synced, lifts
      nothing: it ends without a wipe, whatever happened while it was in flight. */
  lemma BarrenDeleteLiftsNothing(sizes: Sizes, s: State, id: nat, accepted: bool)
    requires id in s.deletes && s.deletes[id].Sent?
    requires !accepted || (!IsSynced(s.deletes[id].target) && IsRefused(s.deletes[id].target))
    ensures var t := Apply(sizes, s, DeleteReply(id, accepted));
            && t.mem == s.mem && t.log == s.log && id !in t.deletes
            && Apply(sizes, t, Wipe(id)) == t
  {
  }

  /** An answered DELETE that was accepted, for a group that may hold capacity. */
  predicate Freed(calls: seq<Call>, c: nat, begun: nat) {
    c < |calls| && calls[c].accepted && calls[c].begun == begun
    && (IsSynced(calls[c].target) || !IsRefused(calls[c].target))
  }

  /** Every wipe of the history comes from an accepted DELETE of its own. */
  ghost predicate WipesTraced(log: seq<Event>, calls: seq<Call>) {
    && (forall k | 0 <= k < |log| && log[k].Wiped? :: Freed(calls, log[k].call, log[k].begun))
    && (forall k, l | 0 <= k < l < |log| && log[k].Wiped? && log[l].Wiped? :: log[k].call != log[l].call)
  }

  /** And so will those still to come. */
  ghost predicate PendingTraced(deletes: map<nat, Deletion>, log: seq<Event>, calls: seq<Call>) {
    && (forall id | id in deletes && deletes[id].Confirmed? ::
          && Freed(calls, deletes[id].call, deletes[id].begun)
          && forall k | 0 <= k < |log| && log[k].Wiped? :: log[k].call != deletes[id].call)
    && (forall i, j | i in deletes && j in deletes && i != j && deletes[i].Confirmed? && deletes[j].Confirmed? ::
          deletes[i].call != deletes[j].call)
  }

  ghost predicate Traced(s: State) { WipesTraced(s.log, s.calls) && PendingTraced(s.deletes, s.log, s.calls) }

  lemma ReplyKeepsTrace(sizes: Sizes, s: State, id: nat, accepted: bool)
    requires Traced(s)
    ensures Traced(Apply(sizes, s, DeleteReply(id, accepted)))
  {
  }

  lemma WipeKeepsTrace(sizes: Sizes, s: State, id: nat)
    requires Traced(s)
    ensures Traced(Apply(sizes, s, Wipe(id)))
  {
  }

  lemma OthersKeepTrace(sizes: Sizes, s: State, a: Action)
    requires Traced(s) && !a.DeleteReply? && !a.Wipe?
    ensures Traced(Apply(sizes, s, a))
  {
    var t := Apply(sizes, s, a);
    StepHasItsEffect(sizes, s, a);
    assert !EffectOf(sizes, s, a).Wipes?;
    assert forall k | 0 <= k < |t.log| && t.log[k].Wiped? :: k < |s.log| && t.log[k] == s.log[k];
    assert forall id | id in t.deletes && t.deletes[id].Confirmed? :: id in s.deletes && t.deletes[id] == s.deletes[id];
  }

  lemma {:induction false} RunKeepsTrace(sizes: Sizes, s: State, actions: seq<Action>)
    requires Traced(s)
    ensures Traced(Run(sizes, s, actions))
    decreases |actions|
  {
    if actions == [] {
    } else {
      match actions[0]
      case DeleteReply(id, accepted) => ReplyKeepsTrace(sizes, s, id, accepted);
      case Wipe(id) => WipeKeepsTrace(sizes, s, id);
      case a => OthersKeepTrace(sizes, s, a);
    }
    if actions != [] { RunKeepsTrace(sizes, Apply(sizes, s, actions[0]), actions[1..]); }
  }

  /** In every run, each wipe is the doing of one DELETE: an accepted one, begun where the wipe says, of
      a group that was synced or not refused. A DELETE that failed, or of a group refused before it ever
      synced, never lifts anything, and none lifts twice. */
  lemma OnlyFreeingDeletesLift(sizes: Sizes, s: State)
    requires Reachable(sizes, s)
    ensures forall k | 0 <= k < |s.log| && s.log[k].Wiped? :: Freed(s.calls, s.log[k].call, s.log[k].begun)
    ensures forall k, l | 0 <= k < l < |s.log| && s.log[k].Wiped? && s.log[l].Wiped? :: s.log[k].call != s.log[l].call
  {
    var start: nat, actions: seq<Action> :| s == Run(sizes, Init(start), actions);
    RunKeepsTrace(sizes, Init(start), actions);
  }

  /** Hold-out survival. From the moment a flavor is held out it stays unavailable for flavorBackoff,
      through every DELETE, unless a launch whose mark follows the hold-out is accepted on a group of
      that very flavor. In particular the launch that was being polled meanwhile cannot release it. */
  lemma HoldOutSurvives(sizes: Sizes, s: State, i: nat, t: nat)
    requires Reachable(sizes, s)
    requires && i < |s.log| && s.log[i].Held?
             && t < s.log[i].hold.at + FLAVOR_BACKOFF
             && (forall k | i < k < |s.log| && s.log[k].Released? && s.log[k].flavor == s.log[i].flavor ::
                   s.log[k].markedAt <= i)
    ensures Unavailable(s.mem, sizes, s.log[i].flavor, t)
  {
    var log := s.log;
    ReachableKeepsInv(sizes, s);
    var last := LatestHold(log, i);
    assert StillHeld(log, last);
    assert i == last || log[i].hold.at <= log[last].hold.at;
  }

  lemma LatestHold(log: seq<Event>, i: nat) returns (last: nat)
    requires i < |log| && log[i].Held?
    requires forall k | i < k < |log| && log[k].Released? && log[k].flavor == log[i].flavor :: log[k].markedAt <= i
    ensures last >= i && StillHeld(log, last) && log[last].flavor == log[i].flavor
  {
    last := i;
    for k := i + 1 to |log|
      invariant i <= last < k && log[last].Held? && log[last].flavor == log[i].flavor
      invariant forall j | last < j < k && log[j].Held? :: log[j].flavor != log[i].flavor
    {
      if log[k].Held? && log[k].flavor == log[i].flavor { last := k; }
    }
  }

  /** The hold-outs in force are exactly those of the history no such acceptance released. */
  lemma HoldOutsAreTheHistory(sizes: Sizes, s: State)
    requires Reachable(sizes, s)
    ensures && (forall i: nat | StillHeld(s.log, i) ::
                  s.log[i].flavor in s.mem.holds && s.mem.holds[s.log[i].flavor] == s.log[i].hold)
            && (forall f | f in s.mem.holds :: exists i: nat :: StillHeld(s.log, i) && s.log[i].flavor == f)
  {
    ReachableKeepsInv(sizes, s);
  }

  /** How long a flavor must wait after a rejection of another, or of itself. */
  function Spacing(sizes: Sizes, rejected: string, flavor: string): nat {
    if rejected == flavor then QUOTA_BACKOFF
    else if rejected in sizes && flavor in sizes && AtLeast(sizes[flavor], sizes[rejected]) then 2 * QUOTA_BACKOFF
    else 0
  }

  /** Every create call was sent by a launch that passed the check, so never by one that found an owned
      group to adopt; no rejection it knew, and no DELETE had lifted, was in force then; and between its
      check and its call only the status controller recorded anything. */
  lemma CallWasCleared(sizes: Sizes, s: State, p: nat)
    requires Reachable(sizes, s) && p < |s.log| && s.log[p].Posted?
    ensures var admission := s.log[p].admission;
            && admission.Passed? && admission.index <= p && admission.at <= s.log[p].at
            && NoneInForce(sizes, s.log, admission.index, s.log[p].flavor, admission.at)
            && OnlyLateSince(s.log, admission.index, p)
            && (forall i | 0 <= i < admission.index && s.log[i].Rejected? :: s.log[i].record.at <= admission.at)
  {
    ReachableKeepsInv(sizes, s);
  }

  /** Every create call keeps its distance from every rejection recorded before its check, unless a
      clearing DELETE begun after that rejection came first; and it was sent by a launch that passed
      the check, so never by one that found an owned group to adopt. A rejection recorded by a launch
      always precedes the check of the launches after it. */
  lemma PostSpacing(sizes: Sizes, s: State, i: nat, p: nat)
    requires Reachable(sizes, s)
    requires var log := s.log;
             p < |log| && log[p].Posted? && i < p && log[i].Rejected?
    ensures var log := s.log;
            && log[p].admission.Passed?
            && log[p].admission.index <= p
            && (log[i].origin != Late ==> i < log[p].admission.index)
            && (i < log[p].admission.index && Unwiped(log, i, log[p].admission.index) ==>
                  log[p].at >= log[i].record.at + Spacing(sizes, log[i].flavor, log[p].flavor))
  {
    var log := s.log;
    CallWasCleared(sizes, s, p);
    if i < log[p].admission.index && Unwiped(log, i, log[p].admission.index) {
      var f := log[p].flavor;
      assert !InForce(log[i].record, log[i].flavor, f, SizeOf(sizes, f), f in sizes, log[p].admission.at);
      RejectionIsSized(sizes, s, i);
    }
  }

  lemma RejectionIsSized(sizes: Sizes, s: State, i: nat)
    requires Reachable(sizes, s) && i < |s.log| && s.log[i].Rejected?
    ensures s.log[i].record.sized == (s.log[i].flavor in sizes)
        && s.log[i].record.size == SizeOf(sizes, s.log[i].flavor)
  {
    ReachableKeepsInv(sizes, s);
  }

  /** A rejection recorded by the launch that sent a POST of this log. */
  predicate FromPost(log: seq<Event>, j: nat) {
    && j < |log| && log[j].Rejected? && log[j].origin.Fresh?
    && log[j].origin.post < |log| && log[log[j].origin.post].Posted?
  }

  function PostedFlavor(log: seq<Event>, j: nat): string
    requires FromPost(log, j)
  {
    log[log[j].origin.post].flavor
  }

  /** It is of the very group that POST created: a group's flavor is immutable. */
  predicate FreshRejection(log: seq<Event>, j: nat) { FromPost(log, j) && PostedFlavor(log, j) == log[j].flavor }

  /** No clearing DELETE begun after rejection i wiped it before the check of the launch rejected at j. */
  predicate NotLifted(log: seq<Event>, i: nat, j: nat) {
    FromPost(log, j) && log[log[j].origin.post].admission.Passed? ==>
      var n := log[log[j].origin.post].admission.index;
      n <= |log| && Unwiped(log, i, n)
  }

  /** A launch rejected after another launch's rejection comes at least a backoff later when it POSTed that
      flavor, two for a larger one, whatever group its poll read. */
  lemma FreshRejectionSpacing(sizes: Sizes, s: State, i: nat, j: nat)
    requires Reachable(sizes, s)
    requires var log := s.log;
             i < j && FromPost(log, j) && log[i].Rejected? && log[i].origin != Late && NotLifted(log, i, j)
    ensures var log := s.log;
            log[j].record.at >= log[i].record.at + Spacing(sizes, log[i].flavor, PostedFlavor(log, j))
  {
    var log := s.log;
    ReachableKeepsInv(sizes, s);
    var p := log[j].origin.post;
    assert SentBy(log, log[j].origin, j);
    assert log[p].at <= log[j].record.at;
    if i < p { PostSpacing(sizes, s, i, p); }
  }

  /** Some fresh rejections of a run, in order, within a half-open span of time, no two lifted by a
      DELETE in between. */
  predicate FreshWithin(log: seq<Event>, js: seq<nat>, from: nat, to: nat, flavors: set<string>) {
    && (forall a | 0 <= a < |js| ::
          FreshRejection(log, js[a]) && log[js[a]].flavor in flavors && from <= log[js[a]].record.at < to)
    && (forall a, b | 0 <= a < b < |js| :: js[a] < js[b] && NotLifted(log, js[a], js[b]))
  }

  /** The probe bound. Of the fresh rejections within one window of length QuotaBackoff, no later
      flavor is an earlier one or at least as large as one, so there are no more than flavors. */
  lemma ProbeBound(sizes: Sizes, s: State, js: seq<nat>, from: nat, flavors: set<string>)
    requires Reachable(sizes, s) && FreshWithin(s.log, js, from, from + QUOTA_BACKOFF, flavors)
    ensures var log := s.log;
            forall a, b | 0 <= a < b < |js| :: Spacing(sizes, log[js[a]].flavor, log[js[b]].flavor) == 0
    ensures |js| <= |flavors|
  {
    var log := s.log;
    forall a, b | 0 <= a < b < |js| ensures Spacing(sizes, log[js[a]].flavor, log[js[b]].flavor) == 0 {
      FreshRejectionSpacing(sizes, s, js[a], js[b]);
    }
    var names := seq(|js|, a requires 0 <= a < |js| => log[js[a]].flavor);
    DistinctFitsIn(names, flavors);
  }

  /** Over a longer time the rate follows: in so many windows, at most that many times the number of
      flavors, however many claims are pending. */
  lemma {:induction false} ProbeRate(sizes: Sizes, s: State, js: seq<nat>, from: nat, windows: nat,
      flavors: set<string>)
    requires Reachable(sizes, s) && FreshWithin(s.log, js, from, from + windows * QUOTA_BACKOFF, flavors)
    ensures |js| <= windows * |flavors|
    decreases windows
  {
    if js != [] {
      assert from <= s.log[js[0]].record.at < from + windows * QUOTA_BACKOFF;
      var n := FirstWindow(sizes, s, js, from, from + windows * QUOTA_BACKOFF, flavors);
      ProbeBound(sizes, s, js[..n], from, flavors);
      ProbeRate(sizes, s, js[n..], from + QUOTA_BACKOFF, windows - 1, flavors);
      assert windows * |flavors| == (windows - 1) * |flavors| + |flavors|;
    }
  }

  lemma FirstWindow(sizes: Sizes, s: State, js: seq<nat>, from: nat, to: nat, flavors: set<string>) returns (n: nat)
    requires Reachable(sizes, s) && FreshWithin(s.log, js, from, to, flavors)
    ensures n <= |js|
    ensures FreshWithin(s.log, js[..n], from, from + QUOTA_BACKOFF, flavors)
    ensures FreshWithin(s.log, js[n..], from + QUOTA_BACKOFF, to, flavors)
  {
    n := 0;
    while n < |js| && s.log[js[n]].record.at < from + QUOTA_BACKOFF
      invariant n <= |js| && forall a | 0 <= a < n :: s.log[js[a]].record.at < from + QUOTA_BACKOFF
    {
      n := n + 1;
    }
    forall a | n <= a < |js| ensures s.log[js[a]].record.at >= from + QUOTA_BACKOFF {
      RejectionsInOrder(sizes, s, js[n], js[a]);
    }
  }

  lemma RejectionsInOrder(sizes: Sizes, s: State, i: nat, j: nat)
    requires Reachable(sizes, s) && i <= j < |s.log| && s.log[i].Rejected? && s.log[j].Rejected?
    ensures s.log[i].record.at <= s.log[j].record.at
  {
    ReachableKeepsInv(sizes, s);
  }

  /** The smallest sized flavor is the only probe: within two backoffs of a rejection of it no other
      sized flavor is POSTed by a launch that checked after it, and itself only after one backoff. */
  lemma SmallestIsTheProbe(sizes: Sizes, s: State, i: nat, p: nat)
    requires Reachable(sizes, s)
    requires var log := s.log;
             && p < |log| && log[p].Posted? && i < p && log[i].Rejected?
             && log[i].flavor in sizes && (forall f | f in sizes :: AtLeast(sizes[f], sizes[log[i].flavor]))
             && (log[i].origin != Late || (log[p].admission.Passed? && i < log[p].admission.index))
             && (log[p].admission.Passed? && log[p].admission.index <= |log| ==>
                   Unwiped(log, i, log[p].admission.index))
             && log[p].at < log[i].record.at + 2 * QUOTA_BACKOFF
    ensures var log := s.log;
            log[p].flavor in sizes ==> log[p].flavor == log[i].flavor && log[p].at >= log[i].record.at + QUOTA_BACKOFF
  {
    PostSpacing(sizes, s, i, p);
  }

  /** Steps that are not the launch's own. */
  predicate Others(actions: seq<Action>) {
    forall a <- actions :: a.Tick? || a.BeginDelete? || a.DeleteReply? || a.Wipe? || a.LateRefusal?
  }

  lemma {:induction false} RunAppends(sizes: Sizes, s: State, front: seq<Action>, back: seq<Action>)
    ensures Run(sizes, s, front + back) == Run(sizes, Run(sizes, s, front), back)
    decreases |front|
  {
    if front == [] {
      assert front + back == back;
    } else {
      assert (front + back)[1..] == front[1..] + back;
      RunAppends(sizes, Apply(sizes, s, front[0]), front[1..], back);
    }
  }

  lemma {:induction false} OthersPassBy(sizes: Sizes, s: State, actions: seq<Action>)
    requires Others(actions)
    ensures Run(sizes, s, actions).launch == s.launch
    ensures s.log <= Run(sizes, s, actions).log
    decreases |actions|
  {
    if actions == [] {
    } else {
      assert actions[0] in actions;
      OthersLeaveTheLaunch(sizes, s, actions[0]);
      OthersPassBy(sizes, Apply(sizes, s, actions[0]), actions[1..]);
    }
  }

  /** The converse of PostSpacing, from any state: once a launch has passed its check its POST goes out,
      whatever is recorded, deleted or wiped before and after its mark, and whatever the clock says. */
  lemma CheckedLaunchPosts(sizes: Sizes, s: State, before: seq<Action>, after: seq<Action>, reply: PostReply)
    requires s.launch.Admitted? && s.launch.plan.existing.None? && Others(before) && Others(after)
    ensures var t := Run(sizes, s, before + ([Mark] + after));
            && s.log <= t.log
            && Run(sizes, s, before + ([Mark] + (after + [Send(reply)]))).log ==
               t.log + [Posted(s.launch.plan.draft.flavor, t.now, s.launch.admission)]
  {
    OthersPassBy(sizes, s, before);
    var met := Run(sizes, s, before);
    var marked := Apply(sizes, met, Mark);
    var t := Run(sizes, marked, after);
    OthersPassBy(sizes, marked, after);
    RunAppends(sizes, s, before, [Mark] + after);
    RunAppends(sizes, s, before, [Mark] + (after + [Send(reply)]));
    assert ([Mark] + after)[1..] == after && ([Mark] + (after + [Send(reply)]))[1..] == after + [Send(reply)];
    RunAppends(sizes, marked, after, [Send(reply)]);
    SendPosts(sizes, t, reply);
  }

  lemma SendPosts(sizes: Sizes, s: State, reply: PostReply)
    requires s.launch.Marked? && s.launch.plan.existing.None?
    ensures Run(sizes, s, [Send(reply)]).log == s.log + [Posted(s.launch.plan.draft.flavor, s.now, s.launch.admission)]
  {
    assert Run(sizes, s, [Send(reply)]) == Apply(sizes, s, Send(reply));
  }

  /** So the spacing ends exactly at the check. In any state past it, a late refusal over quota, of the
      launch's own flavor or of one its flavor is at least as large as, is in force when the POST it does
      not stop goes out. It is recorded at the check's position or later, which PostSpacing leaves out. */
  lemma LateRefusalMaySlipPast(sizes: Sizes, s: State, refused: NodeGroup, reply: PostReply)
    requires s.launch.Admitted? && s.launch.plan.existing.None? && IsQuotaExceeded(refused)
    requires Spacing(sizes, refused.flavor, s.launch.plan.draft.flavor) > 0
    ensures var flavor := s.launch.plan.draft.flavor;
            var log := Run(sizes, s, [LateRefusal(refused)] + ([Mark] + ([] + [Send(reply)]))).log;
            var i, p := |s.log|, |s.log| + 1;
            && |log| == p + 1
            && log[i].Rejected? && log[i].flavor == refused.flavor && log[i].origin == Late
            && log[p] == Posted(flavor, s.now, s.launch.admission)
            && log[p].at < log[i].record.at + Spacing(sizes, log[i].flavor, log[p].flavor)
  {
    var late := Apply(sizes, s, LateRefusal(refused));
    CheckedLaunchPosts(sizes, s, [LateRefusal(refused)], [], reply);
    LateRefusalIsLogged(sizes, s, refused);
    MarkIsQuiet(sizes, late);
    RunOfTwo(sizes, s, LateRefusal(refused), Mark);
    assert [LateRefusal(refused)] + ([Mark] + []) == [LateRefusal(refused), Mark];
  }

  lemma RunOfTwo(sizes: Sizes, s: State, a: Action, b: Action)
    ensures Run(sizes, s, [a, b]) == Apply(sizes, Apply(sizes, s, a), b)
  {
    assert [a, b][1..] == [b];
    assert Run(sizes, Apply(sizes, s, a), [b]) == Apply(sizes, Apply(sizes, s, a), b);
  }

  lemma LateRefusalIsLogged(sizes: Sizes, s: State, refused: NodeGroup)
    requires IsQuotaExceeded(refused)
    ensures var late := Apply(sizes, s, LateRefusal(refused));
            && late.launch == s.launch && late.now == s.now
            && |late.log| == |s.log| + 1 && late.log[|s.log|].Rejected? && late.log[|s.log|].flavor == refused.flavor
            && late.log[|s.log|].origin == Late && late.log[|s.log|].record.at == s.now
  {
  }

  lemma MarkIsQuiet(sizes: Sizes, s: State)
    ensures Apply(sizes, s, Mark).log == s.log && Apply(sizes, s, Mark).now == s.now
  {
  }

  /** Event i is a late refusal recorded from position n on, and it keeps the flavor unavailable. */
  predicate LateCause(sizes: Sizes, s: State, n: nat, flavor: string, i: nat) {
    && n <= i < |s.log| && s.log[i].Rejected? && s.log[i].origin == Late
    && Spacing(sizes, s.log[i].flavor, flavor) > 0
    && s.now < s.log[i].record.at + Spacing(sizes, s.log[i].flavor, flavor)
  }

  /** The rejection remembered of a flavor is the one remembered before, or a late one of the log since. */
  ghost predicate KeptOrLate(sizes: Sizes, s: State, t: State, f: string)
    requires f in t.mem.quota
  {
    || (f in s.mem.quota && t.mem.quota[f] == s.mem.quota[f])
    || exists i: nat :: |s.log| <= i < |t.log| && LateRecord(sizes, t.log[i], f, t.mem.quota[f])
  }

  predicate LateRecord(sizes: Sizes, e: Event, f: string, r: QuotaRejection) {
    && e.Rejected? && e.origin == Late && e.flavor == f && e.record == r
    && r.sized == (f in sizes) && r.size == SizeOf(sizes, f)
  }

  lemma OtherStepKeepsOrRecords(sizes: Sizes, s: State, t: State, a: Action)
    requires Others([a]) && |s.log| <= |t.log|
    requires forall f | f in t.mem.quota :: KeptOrLate(sizes, s, t, f)
    ensures var u := Apply(sizes, t, a);
            forall f | f in u.mem.quota :: KeptOrLate(sizes, s, u, f)
  {
    assert a in [a];
    var u := Apply(sizes, t, a);
    OthersLeaveTheLaunch(sizes, t, a);
    forall f | f in u.mem.quota ensures KeptOrLate(sizes, s, u, f) {
      var e := EffectOf(sizes, t, a);
      if e.Rejects? && e.flavor == f {
        assert LateRecord(sizes, u.log[|t.log|], f, u.mem.quota[f]);
      } else if !(f in s.mem.quota && t.mem.quota[f] == s.mem.quota[f]) {
        var i: nat :| |s.log| <= i < |t.log| && LateRecord(sizes, t.log[i], f, t.mem.quota[f]);
        assert u.log[i] == t.log[i];
      }
    }
  }

  lemma {:induction false} OthersKeepOrRecord(sizes: Sizes, s: State, t: State, actions: seq<Action>)
    requires Others(actions) && |s.log| <= |t.log| && s.now <= t.now
    requires forall f | f in t.mem.quota :: KeptOrLate(sizes, s, t, f)
    ensures var u := Run(sizes, t, actions);
            s.now <= u.now && forall f | f in u.mem.quota :: KeptOrLate(sizes, s, u, f)
    decreases |actions|
  {
    if actions == [] {
    } else {
      assert actions[0] in actions;
      OthersLeaveTheLaunch(sizes, t, actions[0]);
      OtherStepKeepsOrRecords(sizes, s, t, actions[0]);
      OthersKeepOrRecord(sizes, s, Apply(sizes, t, actions[0]), actions[1..]);
    }
  }

  /** A flavor the quota leaves available stays so, through any steps of the others, unless a late refusal
      recorded since, of that flavor or of one it is at least as large as, is in force. */
  lemma OnlyALateRefusalCovers(sizes: Sizes, s: State, actions: seq<Action>, flavor: string)
    requires Others(actions) && SizedBy(s.mem, sizes) && !QuotaCovers(s.mem, sizes, flavor, s.now)
    ensures var t := Run(sizes, s, actions);
            QuotaCovers(t.mem, sizes, flavor, t.now) ==> exists i: nat :: LateCause(sizes, t, |s.log|, flavor, i)
  {
    var t := Run(sizes, s, actions);
    OthersKeepOrRecord(sizes, s, s, actions);
    if QuotaCovers(t.mem, sizes, flavor, t.now) {
      var size, sized := SizeOf(sizes, flavor), flavor in sizes;
      var cause :| cause in t.mem.quota && InForce(t.mem.quota[cause], cause, flavor, size, sized, t.now);
      assert KeptOrLate(sizes, s, t, cause);
      if cause in s.mem.quota && t.mem.quota[cause] == s.mem.quota[cause] {
        assert InForce(s.mem.quota[cause], cause, flavor, size, sized, s.now);
      } else {
        var i: nat :| |s.log| <= i < |t.log| && LateRecord(sizes, t.log[i], cause, t.mem.quota[cause]);
        assert LateCause(sizes, t, |s.log|, flavor, i);
      }
    }
  }

  /** In every reachable state the memory's records carry the catalogue's sizings. */
  lemma ReachableIsSized(sizes: Sizes, s: State)
    requires Reachable(sizes, s)
    ensures SizedBy(s.mem, sizes)
  {
    ReachableKeepsInv(sizes, s);
    forall f | f in s.mem.quota
      ensures s.mem.quota[f].sized == (f in sizes) && s.mem.quota[f].size == SizeOf(sizes, f)
    {
      var i: nat :| Remembered(s.log, i) && s.log[i].flavor == f;
    }
  }

  /** In every reachable state the coverage of the quota is upward closed, at every instant. */
  lemma CoverageStaysUpwardClosed(sizes: Sizes, s: State, smaller: string, larger: string, t: nat)
    requires Reachable(sizes, s)
    requires smaller in sizes && larger in sizes
    requires AtLeast(sizes[larger], sizes[smaller]) && sizes[larger] != sizes[smaller]
    ensures QuotaCovers(s.mem, sizes, smaller, t) ==> QuotaCovers(s.mem, sizes, larger, t)
  {
    ReachableIsSized(sizes, s);
    if QuotaCovers(s.mem, sizes, smaller, t) {
      CoverageIsUpwardClosed(s.mem, sizes, smaller, larger, t);
    }
  }
}
