/** The Provider's critical sections, interleaved: what any sequence of steps of launches, Deletes and
    late refusals does to the class is the run of the protocol machine with those steps. The program
    counters of the calls under way are the machine's; every reading and writing of what the provider
    remembers is the class's own. */
module LaunchSteps {
  import opened Base
  import opened NodeGroupApi
  import opened Catalogue
  import opened AcceptancePoll
  import opened LaunchProtocol
  import LaunchSafety
  import NodeGroupProvider

  type Provider = NodeGroupProvider.Provider

  /** quotaFastFail decides the check, unless there is a group to adopt. */
  method PerformCheck(p: Provider, s: State) returns (t: State)
    requires p.Mem() == s.mem && s.launch.Resolved?
    ensures t == DoCheck(p.catalogue, s) && p.Mem() == t.mem
  {
    var Resolved(claim, plan) := s.launch;
    if plan.existing.Some? { return s.(launch := Admitted(claim, plan, Adoption)); }
    var err := p.QuotaFastFail(plan.draft.flavor, s.now);
    if err.Some? { return Finish(s, FastFailed(plan.draft.flavor)); }
    return s.(launch := Admitted(claim, plan, Passed(s.now, |s.log|)));
  }

  method PerformMark(p: Provider, s: State) returns (t: State)
    requires p.Mem() == s.mem && s.launch.Admitted?
    ensures t == Apply(p.catalogue, s, Mark) && p.Mem() == t.mem
  {
    var mark := p.HoldOutMark();
    t := s.(launch := Marked(s.launch.claim, s.launch.plan, s.launch.admission, mark, |s.log|));
  }

  /** One read of the poll, which records a rejection itself. */
  method PerformPoll(p: Provider, s: State, read: Read, shutdown: bool) returns (t: State)
    requires p.Mem() == s.mem && s.launch.Polling?
    modifies p
    ensures t == DoPoll(p.catalogue, s, read, shutdown) && p.Mem() == t.mem
  {
    var verdict, _, _, _ := p.PollOnce(s.launch.watched, s.launch.seen, None, read, s.now);
    t := OnVerdict(p.catalogue, s, verdict, read, shutdown);
  }

  /** What a launch records once its poll or its create call has returned. */
  method PerformSettle(p: Provider, s: State) returns (t: State)
    requires p.Mem() == s.mem
    modifies p
    ensures t == DoSettle(p.catalogue, s) && p.Mem() == t.mem
  {
    match s.launch {
      case Refusing(flavor) => p.RecordFlavorRejection(flavor, s.now);
      case Losing(group, _) => p.RecordQuotaRejection(group.flavor, VANISH_MESSAGE, s.now);
      case Accepting(group, _, mark, _) => p.ClearFlavorRejection(group.flavor, mark);
      case _ =>
    }
    t := DoSettle(p.catalogue, s);
  }

  /** The first critical section of a Delete, and what is left of it after the request. */
  method PerformBeginDelete(p: Provider, s: State, id: nat, target: NodeGroup) returns (t: State)
    requires p.Mem() == s.mem
    ensures t == Apply(p.catalogue, s, BeginDelete(id, target)) && p.Mem() == t.mem
  {
    if id in s.deletes { return s; }
    var mark := p.QuotaRejectionMark();
    t := s.(deletes := s.deletes[id := Sent(mark, |s.log|, target)]);
  }

  method PerformWipe(p: Provider, s: State, id: nat) returns (t: State)
    requires p.Mem() == s.mem
    modifies p
    ensures t == Apply(p.catalogue, s, Wipe(id)) && p.Mem() == t.mem
  {
    if id !in s.deletes || !s.deletes[id].Confirmed? { return s; }
    p.ClearQuotaRejections(s.deletes[id].mark);
    t := Apply(p.catalogue, s, Wipe(id));
  }

  method PerformLateRefusal(p: Provider, s: State, ng: NodeGroup) returns (t: State)
    requires p.Mem() == s.mem
    modifies p
    ensures t == Apply(p.catalogue, s, LateRefusal(ng)) && p.Mem() == t.mem
  {
    p.RecordLateRefusal(ng, s.now);
    t := Apply(p.catalogue, s, LateRefusal(ng));
  }

  /** One step, of whichever call. The steps that touch no memory only move a program counter. */
  method Perform(p: Provider, s: State, a: Action) returns (t: State)
    requires p.Mem() == s.mem
    modifies p
    ensures t == Apply(p.catalogue, s, a) && p.Mem() == t.mem
  {
    t := s;
    match a {
      case Check => if s.launch.Resolved? { t := PerformCheck(p, s); }
      case Mark => if s.launch.Admitted? { t := PerformMark(p, s); }
      case Poll(read, shutdown) => if s.launch.Polling? { t := PerformPoll(p, s, read, shutdown); }
      case Settle => t := PerformSettle(p, s);
      case BeginDelete(id, target) => t := PerformBeginDelete(p, s, id, target);
      case Wipe(id) => t := PerformWipe(p, s, id);
      case LateRefusal(ng) => t := PerformLateRefusal(p, s, ng);
      case _ =>
        t := Apply(p.catalogue, s, a);
        QuietSteps(p.catalogue, s, a);
    }
  }

  lemma QuietSteps(sizes: Sizes, s: State, a: Action)
    requires a.Tick? || a.Lock? || a.Resolve? || a.GiveUp? || a.Send? || a.TimeOut? || a.DeleteReply?
    ensures Apply(sizes, s, a).mem == s.mem
  {
    if a.Send? && s.launch.Marked? {
      var found := if s.launch.plan.existing.Some? then s.launch.plan.existing
                   else if a.reply.AlreadyExists? then a.reply.found else None;
      if found.Some? { LaunchSafety.AdoptionIsQuiet(s, s.launch.claim, found.value, s.launch.mark, s.launch.markedAt); }
    }
  }

  /** Any interleaving of the critical sections, on a new provider, is a run of the machine from its
      initial state: what is proved of every reachable state holds of the class. */
  method Interleave(catalogue: Sizes, start: nat, actions: seq<Action>) returns (p: Provider, t: State)
    ensures fresh(p) && p.catalogue == catalogue
    ensures t == Run(catalogue, Init(start), actions) && p.Mem() == t.mem
    ensures LaunchSafety.Reachable(catalogue, t)
  {
    p := new NodeGroupProvider.Provider(catalogue);
    t := Init(start);
    for i := 0 to |actions|
      invariant fresh(p) && p.catalogue == catalogue && p.Mem() == t.mem
      invariant Run(catalogue, t, actions[i..]) == Run(catalogue, Init(start), actions)
    {
      assert actions[i..][0] == actions[i] && actions[i..][1..] == actions[i + 1..];
      t := Perform(p, t, actions[i]);
    }
  }
}
