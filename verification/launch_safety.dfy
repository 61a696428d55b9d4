/** What every run of the launch protocol keeps. The refusal memory is pinned to the history: it
    holds exactly the rejections and hold-outs no later event lifted, and every create call carries
    the proof that no rejection known at its check was in force. */
module LaunchSafety {
  import opened NodeGroupApi
  import opened Catalogue
  import opened RefusalMemory
  import opened AcceptancePoll
  import opened LaunchProtocol

  /** No accepted DELETE begun after event i has wiped the rejections by event n. */
  predicate Unwiped(log: seq<Event>, i: nat, n: nat)
    requires n <= |log|
  {
    forall k | i < k < n && log[k].Wiped? :: log[k].begun <= i
  }

  /** Event i is the last rejection of its flavor, and nothing has wiped it. */
  predicate Remembered(log: seq<Event>, i: nat) {
    && i < |log| && log[i].Rejected?
    && (forall k | i < k < |log| && log[k].Rejected? :: log[k].flavor != log[i].flavor)
    && Unwiped(log, i, |log|)
  }

  /** Event i is the last hold-out of its flavor, and no acceptance of that flavor by a launch whose
      mark follows it has released it. */
  predicate StillHeld(log: seq<Event>, i: nat) {
    && i < |log| && log[i].Held?
    && (forall k | i < k < |log| && log[k].Held? :: log[k].flavor != log[i].flavor)
    && (forall k | i < k < |log| && log[k].Released? && log[k].flavor == log[i].flavor :: log[k].markedAt <= i)
  }

  predicate Chronicle(sizes: Sizes, s: State) {
    && (forall i | 0 <= i < |s.log| && s.log[i].Rejected? ::
          && s.log[i].record.at <= s.now
          && s.log[i].record.number <= s.mem.quotaNumber
          && s.log[i].record.sized == (s.log[i].flavor in sizes)
          && s.log[i].record.size == SizeOf(sizes, s.log[i].flavor))
    && (forall i, j | 0 <= i < j < |s.log| && s.log[i].Rejected? && s.log[j].Rejected? ::
          s.log[i].record.at <= s.log[j].record.at && s.log[i].record.number < s.log[j].record.number)
    && (forall i | 0 <= i < |s.log| && s.log[i].Held? ::
          s.log[i].hold.at <= s.now && s.log[i].hold.number <= s.mem.holdNumber)
    && (forall i, j | 0 <= i < j < |s.log| && s.log[i].Held? && s.log[j].Held? ::
          s.log[i].hold.at <= s.log[j].hold.at && s.log[i].hold.number < s.log[j].hold.number)
  }

  ghost predicate QuotaIsHistory(log: seq<Event>, quota: map<string, QuotaRejection>) {
    && (forall i: nat | Remembered(log, i) :: log[i].flavor in quota && quota[log[i].flavor] == log[i].record)
    && (forall f | f in quota :: exists i: nat :: Remembered(log, i) && log[i].flavor == f)
  }

  ghost predicate HoldsAreHistory(log: seq<Event>, holds: map<string, HoldOut>) {
    && (forall i: nat | StillHeld(log, i) :: log[i].flavor in holds && holds[log[i].flavor] == log[i].hold)
    && (forall f | f in holds :: exists i: nat :: StillHeld(log, i) && log[i].flavor == f)
  }

  /** A DELETE's mark separates the rejections recorded before it was taken from the later ones. */
  predicate QuotaMark(log: seq<Event>, mark: nat, begun: nat) {
    && begun <= |log|
    && forall i | 0 <= i < |log| && log[i].Rejected? :: log[i].record.number <= mark <==> i < begun
  }

  predicate HoldMark(log: seq<Event>, mark: nat, markedAt: nat) {
    && markedAt <= |log|
    && forall i | 0 <= i < |log| && log[i].Held? :: log[i].hold.number <= mark <==> i < markedAt
  }

  predicate DeletesMarked(s: State) {
    forall id | id in s.deletes ::
      QuotaMark(s.log, s.deletes[id].mark, s.deletes[id].begun) && s.deletes[id].mark <= s.mem.quotaNumber
  }

  /** No rejection recorded before position n, and not wiped by then, is in force at an instant. */
  ghost predicate NoneInForce(sizes: Sizes, log: seq<Event>, n: nat, flavor: string, at: nat) {
    && n <= |log|
    && forall i: nat | i < n && log[i].Rejected? && Unwiped(log, i, n) ::
         !InForce(log[i].record, log[i].flavor, flavor, SizeOf(sizes, flavor), flavor in sizes, at)
  }

  ghost predicate Cleared(sizes: Sizes, log: seq<Event>, now: nat, flavor: string, admission: Admission) {
    && admission.Passed? && admission.at <= now
    && NoneInForce(sizes, log, admission.index, flavor, admission.at)
    && (forall i | 0 <= i < admission.index && log[i].Rejected? :: log[i].record.at <= admission.at)
  }

  /** Since position n only the status controller has recorded rejections. */
  predicate OnlyLateSince(log: seq<Event>, n: nat, m: nat)
    requires m <= |log|
  {
    forall i | n <= i < m && log[i].Rejected? :: log[i].origin == Late
  }

  predicate SentBy(log: seq<Event>, origin: Origin, m: nat)
    requires m <= |log|
  {
    origin.Fresh? ==>
      && origin.post < m && log[origin.post].Posted? && log[origin.post].admission.Passed?
      && OnlyLateSince(log, log[origin.post].admission.index, m)
  }

  ghost predicate LaunchInOrder(sizes: Sizes, s: State) {
    match s.launch
    case Admitted(_, plan, admission) =>
      plan.existing.None? ==> Cleared(sizes, s.log, s.now, plan.draft.flavor, admission)
                              && OnlyLateSince(s.log, admission.index, |s.log|)
    case Marked(_, plan, admission, mark, markedAt) =>
      && (plan.existing.None? ==> Cleared(sizes, s.log, s.now, plan.draft.flavor, admission)
                                  && OnlyLateSince(s.log, admission.index, |s.log|))
      && HoldMark(s.log, mark, markedAt) && mark <= s.mem.holdNumber
    case Polling(_, _, origin, mark, markedAt, _) =>
      SentBy(s.log, origin, |s.log|) && HoldMark(s.log, mark, markedAt) && mark <= s.mem.holdNumber
    case Losing(_, origin) => SentBy(s.log, origin, |s.log|)
    case Accepting(_, _, mark, markedAt) => HoldMark(s.log, mark, markedAt) && mark <= s.mem.holdNumber
    case _ => true
  }

  /** Every create call was cleared by its check; every rejection of a fresh launch names its POST,
      and no launch recorded a rejection between that launch's check and its own. */
  ghost predicate CallsInOrder(sizes: Sizes, s: State) {
    && (forall p | 0 <= p < |s.log| && s.log[p].Posted? ::
          && Cleared(sizes, s.log, s.log[p].at, s.log[p].flavor, s.log[p].admission)
          && s.log[p].admission.index <= p && s.log[p].at <= s.now
          && OnlyLateSince(s.log, s.log[p].admission.index, p))
    && (forall j | 0 <= j < |s.log| && s.log[j].Rejected? ::
          && SentBy(s.log, s.log[j].origin, j)
          && (s.log[j].origin.Fresh? ==> s.log[s.log[j].origin.post].at <= s.log[j].record.at))
  }

  ghost predicate Inv(sizes: Sizes, s: State) {
    && Chronicle(sizes, s)
    && QuotaIsHistory(s.log, s.mem.quota)
    && HoldsAreHistory(s.log, s.mem.holds)
    && DeletesMarked(s)
    && LaunchInOrder(sizes, s)
    && CallsInOrder(sizes, s)
  }

  // ---------------------------------------------------------------- appending one event

  lemma RememberedAfter(log: seq<Event>, e: Event, i: nat)
    ensures i < |log| ==>
      (Remembered(log + [e], i) <==>
          Remembered(log, i) && !(e.Rejected? && e.flavor == log[i].flavor) && !(e.Wiped? && e.begun > i))
    ensures i == |log| ==> (Remembered(log + [e], i) <==> e.Rejected?)
  {
    var next := log + [e];
    if i < |log| {
      assert next[i] == log[i] && next[|log|] == e;
      if Remembered(next, i) {
        forall k | i < k < |log| && log[k].Rejected? ensures log[k].flavor != log[i].flavor {
          assert next[k] == log[k];
        }
        forall k | i < k < |log| && log[k].Wiped? ensures log[k].begun <= i { assert next[k] == log[k]; }
      }
    }
  }

  lemma StillHeldAfter(log: seq<Event>, e: Event, i: nat)
    ensures i < |log| ==>
      (StillHeld(log + [e], i) <==> StillHeld(log, i) && !(e.Held? && e.flavor == log[i].flavor)
                                    && !(e.Released? && e.flavor == log[i].flavor && e.markedAt > i))
    ensures i == |log| ==> (StillHeld(log + [e], i) <==> e.Held?)
  {
    var next := log + [e];
    if i < |log| {
      assert next[i] == log[i] && next[|log|] == e;
      if StillHeld(next, i) {
        forall k | i < k < |log| && log[k].Held? ensures log[k].flavor != log[i].flavor { assert next[k] == log[k]; }
        forall k | i < k < |log| && log[k].Released? && log[k].flavor == log[i].flavor ensures log[k].markedAt <= i {
          assert next[k] == log[k];
        }
      }
    }
  }

  /** Appending an event that is neither a rejection nor a wipe leaves the remembered rejections be. */
  lemma QuotaUntouched(log: seq<Event>, e: Event, quota: map<string, QuotaRejection>)
    requires QuotaIsHistory(log, quota) && !e.Rejected? && !e.Wiped?
    ensures QuotaIsHistory(log + [e], quota)
  {
    forall i: nat | Remembered(log + [e], i) ensures Remembered(log, i) { RememberedAfter(log, e, i); }
    forall f | f in quota ensures exists i: nat :: Remembered(log + [e], i) && (log + [e])[i].flavor == f {
      var i: nat :| Remembered(log, i) && log[i].flavor == f;
      RememberedAfter(log, e, i);
    }
  }

  lemma QuotaRejectedEvent(log: seq<Event>, e: Event, quota: map<string, QuotaRejection>)
    requires QuotaIsHistory(log, quota) && e.Rejected?
    ensures QuotaIsHistory(log + [e], quota[e.flavor := e.record])
  {
    var next := quota[e.flavor := e.record];
    forall i: nat | Remembered(log + [e], i)
      ensures (log + [e])[i].flavor in next && next[(log + [e])[i].flavor] == (log + [e])[i].record
    {
      RememberedAfter(log, e, i);
    }
    forall f | f in next ensures exists i: nat :: Remembered(log + [e], i) && (log + [e])[i].flavor == f {
      if f == e.flavor {
        RememberedAfter(log, e, |log|);
      } else {
        var i: nat :| Remembered(log, i) && log[i].flavor == f;
        RememberedAfter(log, e, i);
      }
    }
  }

  /** A wipe removes exactly the rejections recorded before its DELETE took its mark. */
  lemma QuotaWipedEvent(log: seq<Event>, mem: Memory, mark: nat, begun: nat, call: nat)
    requires QuotaIsHistory(log, mem.quota) && QuotaMark(log, mark, begun)
    ensures QuotaIsHistory(log + [Wiped(begun, call)], ClearQuota(mem, mark).quota)
  {
    var next := ClearQuota(mem, mark).quota;
    var e := Wiped(begun, call);
    forall i: nat | Remembered(log + [e], i)
      ensures (log + [e])[i].flavor in next && next[(log + [e])[i].flavor] == (log + [e])[i].record
    {
      RememberedAfter(log, e, i);
    }
    forall f | f in next ensures exists i: nat :: Remembered(log + [e], i) && (log + [e])[i].flavor == f {
      var i: nat :| Remembered(log, i) && log[i].flavor == f;
      RememberedAfter(log, e, i);
    }
  }

  lemma HoldsUntouched(log: seq<Event>, e: Event, holds: map<string, HoldOut>)
    requires HoldsAreHistory(log, holds) && !e.Held? && !e.Released?
    ensures HoldsAreHistory(log + [e], holds)
  {
    forall i: nat | StillHeld(log + [e], i) ensures StillHeld(log, i) { StillHeldAfter(log, e, i); }
    forall f | f in holds ensures exists i: nat :: StillHeld(log + [e], i) && (log + [e])[i].flavor == f {
      var i: nat :| StillHeld(log, i) && log[i].flavor == f;
      StillHeldAfter(log, e, i);
    }
  }

  lemma HoldsHeldEvent(log: seq<Event>, e: Event, holds: map<string, HoldOut>)
    requires HoldsAreHistory(log, holds) && e.Held?
    ensures HoldsAreHistory(log + [e], holds[e.flavor := e.hold])
  {
    var next := holds[e.flavor := e.hold];
    forall i: nat | StillHeld(log + [e], i)
      ensures (log + [e])[i].flavor in next && next[(log + [e])[i].flavor] == (log + [e])[i].hold
    {
      StillHeldAfter(log, e, i);
    }
    forall f | f in next ensures exists i: nat :: StillHeld(log + [e], i) && (log + [e])[i].flavor == f {
      if f == e.flavor {
        StillHeldAfter(log, e, |log|);
      } else {
        var i: nat :| StillHeld(log, i) && log[i].flavor == f;
        StillHeldAfter(log, e, i);
      }
    }
  }

  /** An acceptance releases its flavor's hold-out exactly when it was recorded before the mark. */
  lemma HoldsReleasedEvent(log: seq<Event>, mem: Memory, flavor: string, mark: nat, markedAt: nat)
    requires HoldsAreHistory(log, mem.holds) && HoldMark(log, mark, markedAt)
    ensures HoldsAreHistory(log + [Released(flavor, markedAt)], ReleaseHold(mem, flavor, mark).holds)
  {
    var next := ReleaseHold(mem, flavor, mark).holds;
    var e := Released(flavor, markedAt);
    forall i: nat | StillHeld(log + [e], i)
      ensures (log + [e])[i].flavor in next && next[(log + [e])[i].flavor] == (log + [e])[i].hold
    {
      StillHeldAfter(log, e, i);
    }
    forall f | f in next ensures exists i: nat :: StillHeld(log + [e], i) && (log + [e])[i].flavor == f {
      var i: nat :| StillHeld(log, i) && log[i].flavor == f;
      StillHeldAfter(log, e, i);
    }
  }

  // ---------------------------------------------------------------- one step

  /** What a step does to the memory and the log, apart from moving the launch, the clock and the
      DELETEs in flight. */
  datatype Effect =
    | Quiet
    | Rejects(flavor: string, message: string, origin: Origin)
    | Holds(flavor: string)
    | Posts(flavor: string, admission: Admission)
    | Wipes(mark: nat, begun: nat, call: nat)
    | Releases(flavor: string, mark: nat, markedAt: nat)

  function EffectOf(sizes: Sizes, s: State, a: Action): Effect {
    match a
    case Send(_) =>
      if s.launch.Marked? && s.launch.plan.existing.None?
      then Posts(s.launch.plan.draft.flavor, s.launch.admission)
      else Quiet
    case Poll(read, _) =>
      if s.launch.Polling? then VerdictEffect(s, Decide(s.launch.watched, s.launch.seen, read), read) else Quiet
    case Settle =>
      (match s.launch
       case Refusing(flavor) => Holds(flavor)
       case Losing(group, origin) => Rejects(group.flavor, VANISH_MESSAGE, origin)
       case Accepting(group, _, mark, markedAt) => Releases(group.flavor, mark, markedAt)
       case _ => Quiet)
    case Wipe(id) =>
      if id in s.deletes && s.deletes[id].Confirmed?
      then Wipes(s.deletes[id].mark, s.deletes[id].begun, s.deletes[id].call)
      else Quiet
    case LateRefusal(ng) =>
      if IsQuotaExceeded(ng) then Rejects(ng.flavor, QuotaMessage(ng), Late)
      else if Refusal(ng).Some? then Holds(ng.flavor)
      else Quiet
    case _ => Quiet
  }

  function VerdictEffect(s: State, v: Verdict, read: Read): Effect
    requires s.launch.Polling? && (v.OverQuota? ==> read.Found?)
  {
    if v.OverQuota? then Rejects(read.group.flavor, v.message, s.launch.origin) else Quiet
  }

  function Trace(sizes: Sizes, s: State, e: Effect): seq<Event> {
    match e
    case Quiet => []
    case Rejects(flavor, message, origin) =>
      [Rejected(flavor, NewRejection(s.mem, sizes, flavor, message, s.now), origin)]
    case Holds(flavor) => [Held(flavor, HoldOut(s.now, s.mem.holdNumber + 1))]
    case Posts(flavor, admission) => [Posted(flavor, s.now, admission)]
    case Wipes(_, begun, call) => [Wiped(begun, call)]
    case Releases(flavor, _, markedAt) => [Released(flavor, markedAt)]
  }

  function Remembering(sizes: Sizes, s: State, e: Effect): Memory {
    match e
    case Rejects(flavor, message, _) => RecordQuota(s.mem, sizes, flavor, message, s.now)
    case Holds(flavor) => RecordHold(s.mem, flavor, s.now)
    case Wipes(mark, _, _) => ClearQuota(s.mem, mark)
    case Releases(flavor, mark, _) => ReleaseHold(s.mem, flavor, mark)
    case _ => s.mem
  }

  ghost predicate HasEffect(sizes: Sizes, s: State, t: State, e: Effect) {
    && t.log == s.log + Trace(sizes, s, e)
    && t.mem == Remembering(sizes, s, e)
    && t.now >= s.now
    && (e != Quiet ==> t.now == s.now)
  }

  lemma VerdictHasItsEffect(sizes: Sizes, s: State, v: Verdict, read: Read, shutdown: bool)
    requires s.launch.Polling? && (v.OverQuota? || v.Refused? ==> read.Found?)
    ensures HasEffect(sizes, s, OnVerdict(sizes, s, v, read, shutdown), VerdictEffect(s, v, read))
    ensures OnVerdict(sizes, s, v, read, shutdown).deletes == s.deletes
        && OnVerdict(sizes, s, v, read, shutdown).calls == s.calls
  {
  }

  lemma AdoptionIsQuiet(s: State, claim: Claim, ng: NodeGroup, mark: nat, markedAt: nat)
    ensures var t := AdoptGroup(s, claim, ng, mark, markedAt);
            t.log == s.log && t.mem == s.mem && t.now == s.now && t.deletes == s.deletes && t.calls == s.calls
  {
  }

  lemma SendHasItsEffect(sizes: Sizes, s: State, reply: PostReply)
    ensures HasEffect(sizes, s, Apply(sizes, s, Send(reply)), EffectOf(sizes, s, Send(reply)))
    ensures Apply(sizes, s, Send(reply)).deletes == s.deletes && Apply(sizes, s, Send(reply)).calls == s.calls
  {
    if s.launch.Marked? {
      var Marked(claim, plan, admission, mark, markedAt) := s.launch;
      if plan.existing.Some? {
        AdoptionIsQuiet(s, claim, plan.existing.value, mark, markedAt);
      } else if reply.AlreadyExists? && reply.found.Some? {
        AdoptionIsQuiet(s.(log := s.log + [Posted(plan.draft.flavor, s.now, admission)]), claim, reply.found.value,
            mark, markedAt);
      }
    }
  }

  lemma SettleHasItsEffect(sizes: Sizes, s: State)
    ensures HasEffect(sizes, s, Apply(sizes, s, Settle), EffectOf(sizes, s, Settle))
    ensures Apply(sizes, s, Settle).deletes == s.deletes && Apply(sizes, s, Settle).calls == s.calls
  {
  }

  lemma LateRefusalHasItsEffect(sizes: Sizes, s: State, ng: NodeGroup)
    ensures HasEffect(sizes, s, Apply(sizes, s, LateRefusal(ng)), EffectOf(sizes, s, LateRefusal(ng)))
    ensures Apply(sizes, s, LateRefusal(ng)).deletes == s.deletes && Apply(sizes, s, LateRefusal(ng)).calls == s.calls
    ensures Apply(sizes, s, LateRefusal(ng)).launch == s.launch
  {
  }

  lemma StepHasItsEffect(sizes: Sizes, s: State, a: Action)
    ensures HasEffect(sizes, s, Apply(sizes, s, a), EffectOf(sizes, s, a))
    ensures !a.BeginDelete? && !a.DeleteReply? && !a.Wipe? ==> Apply(sizes, s, a).deletes == s.deletes
    ensures !a.DeleteReply? ==> Apply(sizes, s, a).calls == s.calls
  {
    match a
    case Poll(read, shutdown) =>
      if s.launch.Polling? {
        VerdictHasItsEffect(sizes, s, Decide(s.launch.watched, s.launch.seen, read), read, shutdown);
      }
    case Send(reply) => SendHasItsEffect(sizes, s, reply);
    case Settle => SettleHasItsEffect(sizes, s);
    case LateRefusal(ng) => LateRefusalHasItsEffect(sizes, s, ng);
    case _ =>
  }

  /** One more event, numbered after those before it and dated now. */
  lemma AppendKeepsChronicle(sizes: Sizes, s: State, t: State, e: Event)
    requires Chronicle(sizes, s) && t.log == s.log + [e] && s.now == t.now
    requires s.mem.quotaNumber <= t.mem.quotaNumber && s.mem.holdNumber <= t.mem.holdNumber
    requires e.Rejected? ==>
      && e.record.at == s.now && s.mem.quotaNumber < e.record.number <= t.mem.quotaNumber
      && e.record.sized == (e.flavor in sizes) && e.record.size == SizeOf(sizes, e.flavor)
    requires e.Held? ==> e.hold.at == s.now && s.mem.holdNumber < e.hold.number <= t.mem.holdNumber
    ensures Chronicle(sizes, t)
  {
    assert forall i | 0 <= i < |s.log| :: t.log[i] == s.log[i];
  }

  lemma KeepsChronicle(sizes: Sizes, s: State, t: State, e: Effect)
    requires Chronicle(sizes, s)
    requires HasEffect(sizes, s, t, e)
    ensures Chronicle(sizes, t)
  {
    if e == Quiet {
      assert t.log == s.log;
    } else {
      var event := Trace(sizes, s, e)[0];
      assert t.log == s.log + [event];
      AppendKeepsChronicle(sizes, s, t, event);
    }
  }

  /** The marks an effect carries were taken where it says. */
  predicate WellMarked(log: seq<Event>, e: Effect) {
    && (e.Wipes? ==> QuotaMark(log, e.mark, e.begun))
    && (e.Releases? ==> HoldMark(log, e.mark, e.markedAt))
  }

  lemma KeepsQuotaHistory(sizes: Sizes, s: State, e: Effect)
    requires QuotaIsHistory(s.log, s.mem.quota) && WellMarked(s.log, e)
    ensures QuotaIsHistory(s.log + Trace(sizes, s, e), Remembering(sizes, s, e).quota)
  {
    match e
    case Quiet => assert s.log + Trace(sizes, s, e) == s.log;
    case Rejects(flavor, message, origin) =>
      QuotaRejectedEvent(s.log, Rejected(flavor, NewRejection(s.mem, sizes, flavor, message, s.now), origin),
          s.mem.quota);
    case Wipes(mark, begun, call) => QuotaWipedEvent(s.log, s.mem, mark, begun, call);
    case Holds(flavor) => QuotaUntouched(s.log, Held(flavor, HoldOut(s.now, s.mem.holdNumber + 1)), s.mem.quota);
    case Posts(flavor, admission) => QuotaUntouched(s.log, Posted(flavor, s.now, admission), s.mem.quota);
    case Releases(flavor, _, markedAt) => QuotaUntouched(s.log, Released(flavor, markedAt), s.mem.quota);
  }

  lemma KeepsHoldsHistory(sizes: Sizes, s: State, e: Effect)
    requires HoldsAreHistory(s.log, s.mem.holds) && WellMarked(s.log, e)
    ensures HoldsAreHistory(s.log + Trace(sizes, s, e), Remembering(sizes, s, e).holds)
  {
    match e
    case Quiet => assert s.log + Trace(sizes, s, e) == s.log;
    case Rejects(flavor, message, origin) =>
      HoldsUntouched(s.log, Rejected(flavor, NewRejection(s.mem, sizes, flavor, message, s.now), origin), s.mem.holds);
    case Wipes(_, begun, call) => HoldsUntouched(s.log, Wiped(begun, call), s.mem.holds);
    case Holds(flavor) => HoldsHeldEvent(s.log, Held(flavor, HoldOut(s.now, s.mem.holdNumber + 1)), s.mem.holds);
    case Posts(flavor, admission) => HoldsUntouched(s.log, Posted(flavor, s.now, admission), s.mem.holds);
    case Releases(flavor, mark, markedAt) => HoldsReleasedEvent(s.log, s.mem, flavor, mark, markedAt);
  }

  lemma MarksStand(sizes: Sizes, s: State, t: State, e: Effect, mark: nat, at: nat)
    requires HasEffect(sizes, s, t, e)
    ensures QuotaMark(s.log, mark, at) && mark <= s.mem.quotaNumber ==>
        QuotaMark(t.log, mark, at) && mark <= t.mem.quotaNumber
    ensures HoldMark(s.log, mark, at) && mark <= s.mem.holdNumber ==>
        HoldMark(t.log, mark, at) && mark <= t.mem.holdNumber
  {
  }

  lemma KeepsDeletes(sizes: Sizes, s: State, a: Action)
    requires Chronicle(sizes, s) && DeletesMarked(s)
    ensures DeletesMarked(Apply(sizes, s, a))
  {
    var t := Apply(sizes, s, a);
    StepHasItsEffect(sizes, s, a);
    forall id | id in t.deletes
      ensures QuotaMark(t.log, t.deletes[id].mark, t.deletes[id].begun) && t.deletes[id].mark <= t.mem.quotaNumber
    {
      if a.BeginDelete? && id == a.id && id !in s.deletes {
        assert t.mem == s.mem && t.log == s.log;
      } else {
        assert id in s.deletes && t.deletes[id].mark == s.deletes[id].mark
            && t.deletes[id].begun == s.deletes[id].begun;
        MarksStand(sizes, s, t, EffectOf(sizes, s, a), s.deletes[id].mark, s.deletes[id].begun);
      }
    }
  }

  // ---------------------------------------------------------------- the check and the calls it admits

  /** Every rejection nothing has wiped is still represented in the memory, by itself or by a later
      one of its flavor. */
  lemma LatestIsRemembered(log: seq<Event>, i: nat) returns (last: nat)
    requires i < |log| && log[i].Rejected? && Unwiped(log, i, |log|)
    ensures last >= i && Remembered(log, last) && log[last].flavor == log[i].flavor
  {
    last := i;
    for k := i + 1 to |log|
      invariant i <= last < k && log[last].Rejected? && log[last].flavor == log[i].flavor
      invariant forall j | last < j < k && log[j].Rejected? :: log[j].flavor != log[i].flavor
    {
      if log[k].Rejected? && log[k].flavor == log[i].flavor { last := k; }
    }
  }

  /** A flavor the check lets through is covered by no rejection of the whole history that has not
      been wiped, remembered or not. */
  lemma CheckClears(sizes: Sizes, s: State, flavor: string)
    requires Chronicle(sizes, s) && QuotaIsHistory(s.log, s.mem.quota)
    requires !QuotaCovers(s.mem, sizes, flavor, s.now)
    ensures NoneInForce(sizes, s.log, |s.log|, flavor, s.now)
  {
    forall i: nat | i < |s.log| && s.log[i].Rejected? && Unwiped(s.log, i, |s.log|)
      ensures !InForce(s.log[i].record, s.log[i].flavor, flavor, SizeOf(sizes, flavor), flavor in sizes, s.now)
    {
      var last := LatestIsRemembered(s.log, i);
      var earlier, r := s.log[i], s.log[last];
      assert earlier.flavor in s.mem.quota && s.mem.quota[earlier.flavor] == r.record;
      assert !InForce(r.record, earlier.flavor, flavor, SizeOf(sizes, flavor), flavor in sizes, s.now);
      LaterLastsLonger(earlier.record, r.record, earlier.flavor, flavor, SizeOf(sizes, flavor), flavor in sizes, s.now);
    }
  }

  /** Of two rejections of one flavor the later is in force whenever the earlier is. */
  lemma LaterLastsLonger(r: QuotaRejection, later: QuotaRejection, rejected: string, flavor: string, size: Sizing,
      sized: bool, now: nat)
    requires r.at <= later.at && r.size == later.size && r.sized == later.sized
    ensures InForce(r, rejected, flavor, size, sized, now) ==> InForce(later, rejected, flavor, size, sized, now)
  {
  }

  predicate Extends(log: seq<Event>, longer: seq<Event>) {
    |log| <= |longer| && forall k | 0 <= k < |log| :: longer[k] == log[k]
  }

  lemma UnwipedStands(log: seq<Event>, longer: seq<Event>, i: nat, n: nat)
    requires Extends(log, longer) && n <= |log|
    ensures Unwiped(log, i, n) <==> Unwiped(longer, i, n)
  {
    if Unwiped(longer, i, n) {
      forall k | i < k < n && log[k].Wiped? ensures log[k].begun <= i { assert longer[k] == log[k]; }
    }
  }

  lemma ClearedStands(sizes: Sizes, log: seq<Event>, longer: seq<Event>, now: nat, later: nat, flavor: string,
      admission: Admission)
    requires Extends(log, longer) && now <= later
    requires Cleared(sizes, log, now, flavor, admission)
    ensures Cleared(sizes, longer, later, flavor, admission)
  {
    forall i: nat | i < admission.index && longer[i].Rejected? && Unwiped(longer, i, admission.index)
      ensures log[i] == longer[i] && Unwiped(log, i, admission.index)
    {
      UnwipedStands(log, longer, i, admission.index);
    }
  }

  lemma SentByStands(log: seq<Event>, longer: seq<Event>, origin: Origin, m: nat)
    requires Extends(log, longer) && m <= |log| && SentBy(log, origin, m)
    ensures SentBy(longer, origin, m)
  {
  }

  /** Effects that are not a launch's own rejection. */
  predicate Bystander(e: Effect) { e.Rejects? ==> e.origin == Late }

  lemma LateStands(sizes: Sizes, s: State, t: State, e: Effect)
    requires HasEffect(sizes, s, t, e) && Bystander(e)
    ensures Extends(s.log, t.log)
    ensures forall n: nat | OnlyLateSince(s.log, n, |s.log|) :: OnlyLateSince(t.log, n, |t.log|)
    ensures forall o: Origin | SentBy(s.log, o, |s.log|) :: SentBy(t.log, o, |t.log|)
  {
    forall n: nat | OnlyLateSince(s.log, n, |s.log|) ensures OnlyLateSince(t.log, n, |t.log|) {
      forall i | n <= i < |t.log| && t.log[i].Rejected? ensures t.log[i].origin == Late {
        if i < |s.log| { assert t.log[i] == s.log[i]; }
      }
    }
  }

  lemma KeepsCalls(sizes: Sizes, s: State, t: State, e: Effect)
    requires HasEffect(sizes, s, t, e) && CallsInOrder(sizes, s)
    requires e.Posts? ==>
        Cleared(sizes, s.log, s.now, e.flavor, e.admission) && OnlyLateSince(s.log, e.admission.index, |s.log|)
    requires e.Rejects? ==> SentBy(s.log, e.origin, |s.log|)
    ensures CallsInOrder(sizes, t)
  {
    assert Extends(s.log, t.log);
    forall p | 0 <= p < |t.log| && t.log[p].Posted?
      ensures Cleared(sizes, t.log, t.log[p].at, t.log[p].flavor, t.log[p].admission)
      ensures t.log[p].admission.index <= p && t.log[p].at <= t.now && OnlyLateSince(t.log, t.log[p].admission.index, p)
    {
      var at := if p < |s.log| then s.log[p].at else s.now;
      assert Cleared(sizes, s.log, at, t.log[p].flavor, t.log[p].admission) by {
        if p < |s.log| { assert t.log[p] == s.log[p]; }
      }
      ClearedStands(sizes, s.log, t.log, at, t.log[p].at, t.log[p].flavor, t.log[p].admission);
    }
    forall j | 0 <= j < |t.log| && t.log[j].Rejected?
      ensures SentBy(t.log, t.log[j].origin, j)
      ensures t.log[j].origin.Fresh? ==> t.log[t.log[j].origin.post].at <= t.log[j].record.at
    {
      if j < |s.log| { assert t.log[j] == s.log[j]; }
      SentByStands(s.log, t.log, t.log[j].origin, j);
    }
  }

  /** A step that leaves the launch where it is. */
  lemma LaunchStands(sizes: Sizes, s: State, t: State, e: Effect)
    requires HasEffect(sizes, s, t, e) && Bystander(e) && t.launch == s.launch && LaunchInOrder(sizes, s)
    ensures LaunchInOrder(sizes, t)
  {
    LateStands(sizes, s, t, e);
    match s.launch
    case Admitted(_, plan, admission) =>
      if plan.existing.None? { ClearedStands(sizes, s.log, t.log, s.now, t.now, plan.draft.flavor, admission); }
    case Marked(_, plan, admission, mark, markedAt) =>
      if plan.existing.None? { ClearedStands(sizes, s.log, t.log, s.now, t.now, plan.draft.flavor, admission); }
      MarksStand(sizes, s, t, e, mark, markedAt);
    case Polling(_, _, _, mark, markedAt, _) => MarksStand(sizes, s, t, e, mark, markedAt);
    case Accepting(_, _, mark, markedAt) => MarksStand(sizes, s, t, e, mark, markedAt);
    case _ =>
  }

  lemma CheckAdmits(sizes: Sizes, s: State)
    requires Chronicle(sizes, s) && QuotaIsHistory(s.log, s.mem.quota) && LaunchInOrder(sizes, s)
    ensures LaunchInOrder(sizes, Apply(sizes, s, Check))
  {
    if s.launch.Resolved? && s.launch.plan.existing.None?
        && !QuotaCovers(s.mem, sizes, s.launch.plan.draft.flavor, s.now) {
      CheckClears(sizes, s, s.launch.plan.draft.flavor);
    }
  }

  lemma MarkMarks(sizes: Sizes, s: State)
    requires Chronicle(sizes, s) && LaunchInOrder(sizes, s)
    ensures LaunchInOrder(sizes, Apply(sizes, s, Mark))
  {
  }

  lemma SendKeepsOrder(sizes: Sizes, s: State, reply: PostReply)
    requires LaunchInOrder(sizes, s) && s.launch.Marked?
    ensures LaunchInOrder(sizes, DoSend(s, reply))
  {
    var Marked(claim, plan, admission, mark, markedAt) := s.launch;
    var sent := s.log + [Posted(plan.draft.flavor, s.now, admission)];
    assert HoldMark(sent, mark, markedAt);
    if plan.existing.None? {
      assert SentBy(sent, Fresh(|s.log|), |sent|);
    }
  }

  lemma VerdictKeepsOrder(sizes: Sizes, s: State, v: Verdict, read: Read, shutdown: bool)
    requires LaunchInOrder(sizes, s) && s.launch.Polling? && (v.OverQuota? || v.Refused? ==> read.Found?)
    ensures LaunchInOrder(sizes, OnVerdict(sizes, s, v, read, shutdown))
  {
  }

  lemma OthersLeaveTheLaunch(sizes: Sizes, s: State, a: Action)
    requires a.Tick? || a.BeginDelete? || a.DeleteReply? || a.Wipe? || a.LateRefusal?
    ensures HasEffect(sizes, s, Apply(sizes, s, a), EffectOf(sizes, s, a))
    ensures Bystander(EffectOf(sizes, s, a)) && Apply(sizes, s, a).launch == s.launch
  {
    if a.LateRefusal? { LateRefusalHasItsEffect(sizes, s, a.refused); }
  }

  lemma KeepsLaunch(sizes: Sizes, s: State, a: Action)
    requires Chronicle(sizes, s) && QuotaIsHistory(s.log, s.mem.quota) && LaunchInOrder(sizes, s)
    ensures LaunchInOrder(sizes, Apply(sizes, s, a))
  {
    match a
    case Check => CheckAdmits(sizes, s);
    case Mark => MarkMarks(sizes, s);
    case Send(reply) => if s.launch.Marked? { SendKeepsOrder(sizes, s, reply); }
    case Poll(read, shutdown) =>
      if s.launch.Polling? {
        VerdictKeepsOrder(sizes, s, Decide(s.launch.watched, s.launch.seen, read), read, shutdown);
      }
    case Settle =>
    case Lock(_) =>
    case Resolve(_) =>
    case GiveUp =>
    case TimeOut(_) =>
    case _ =>
      OthersLeaveTheLaunch(sizes, s, a);
      LaunchStands(sizes, s, Apply(sizes, s, a), EffectOf(sizes, s, a));
  }

  lemma EffectIsBacked(sizes: Sizes, s: State, a: Action)
    requires DeletesMarked(s) && LaunchInOrder(sizes, s)
    ensures var e := EffectOf(sizes, s, a);
            && WellMarked(s.log, e)
            && (e.Posts? ==>
                  Cleared(sizes, s.log, s.now, e.flavor, e.admission)
                  && OnlyLateSince(s.log, e.admission.index, |s.log|))
            && (e.Rejects? ==> SentBy(s.log, e.origin, |s.log|))
  {
  }

  lemma StepKeepsInv(sizes: Sizes, s: State, a: Action)
    requires Inv(sizes, s)
    ensures Inv(sizes, Apply(sizes, s, a))
  {
    var t := Apply(sizes, s, a);
    var e := EffectOf(sizes, s, a);
    StepHasItsEffect(sizes, s, a);
    EffectIsBacked(sizes, s, a);
    KeepsChronicle(sizes, s, t, e);
    KeepsQuotaHistory(sizes, s, e);
    KeepsHoldsHistory(sizes, s, e);
    KeepsDeletes(sizes, s, a);
    KeepsLaunch(sizes, s, a);
    KeepsCalls(sizes, s, t, e);
  }

  /** The invariant holds in every reachable state, whatever interleaves with the launches. */
  lemma {:induction false} RunKeepsInv(sizes: Sizes, s: State, actions: seq<Action>)
    requires Inv(sizes, s)
    ensures Inv(sizes, Run(sizes, s, actions))
    decreases |actions|
  {
    if actions != [] {
      StepKeepsInv(sizes, s, actions[0]);
      RunKeepsInv(sizes, Apply(sizes, s, actions[0]), actions[1..]);
    }
  }

  /** The states some run leads to, from an empty memory at some instant. */
  ghost predicate Reachable(sizes: Sizes, s: State) {
    exists start: nat, actions: seq<Action> :: s == Run(sizes, Init(start), actions)
  }

  lemma ReachableKeepsInv(sizes: Sizes, s: State)
    requires Reachable(sizes, s)
    ensures Inv(sizes, s)
  {
    var start: nat, actions: seq<Action> :| s == Run(sizes, Init(start), actions);
    assert Inv(sizes, Init(start));
    RunKeepsInv(sizes, Init(start), actions);
  }
}
