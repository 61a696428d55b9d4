/** The launch protocol as a machine (ResolveAndCreate, waitForAcceptance, Delete and
    RecordLateRefusal of pkg/providers/nodegroup/nodegroup.go).

    One launch at a time holds the creation lock and advances step by step; any number of Delete
    calls, late refusals and clock ticks interleave with it at every critical section and every API
    call. A step that is not enabled changes nothing, so every sequence of actions is a run. The log
    and the answered calls are history variables: they record what happened, and no step reads them. */
module LaunchProtocol {
  import opened Base
  import opened NodeGroupApi
  import opened Catalogue
  import opened RefusalMemory
  import opened AcceptancePoll

  /** What the resolver decided under the lock: the group to create, or an owned one to adopt. */
  datatype Plan = Plan(draft: NodeGroup, existing: Option<NodeGroup>)

  /** The API server's answer to the create call; AlreadyExists carries the group the follow-up
      read returned, if it returned one. */
  datatype PostReply = Created(uid: string) | FlavorInvalid | AlreadyExists(found: Option<NodeGroup>) | PostFailed

  datatype Acceptance = Unacknowledged | AcknowledgedByOperator | ReadyAtOnce

  datatype Outcome =
    | Launched(group: NodeGroup, acceptance: Acceptance)
    | FastFailed(flavor: string)
    | QuotaRejected(flavor: string)
    | FlavorRefused(flavor: string)
    | GroupVanished
    | NotOwned
    | Aborted

  /** How a launch got past the quota check: adoptions skip it; the others passed it at an instant
      and at a position of the log. */
  datatype Admission = Adoption | Passed(at: nat, index: nat)

  /** Who recorded a rejection: the status controller, an adoption, or the launch that sent the
      POST logged at an index. */
  datatype Origin = Late | Adopted | Fresh(post: nat)

  datatype Launch =
    | Free
    | Holding(claim: Claim)
    | Resolved(claim: Claim, plan: Plan)
    | Admitted(claim: Claim, plan: Plan, admission: Admission)
    | Marked(claim: Claim, plan: Plan, admission: Admission, mark: nat, markedAt: nat)
    | Polling(group: NodeGroup, watched: Option<string>, origin: Origin, mark: nat, markedAt: nat, seen: bool)
    | Refusing(flavor: string)
    | Losing(group: NodeGroup, origin: Origin)
    | Accepting(group: NodeGroup, acceptance: Acceptance, mark: nat, markedAt: nat)

  /** A DELETE in flight, or accepted and about to clear; `call` is its place among the answered ones. */
  datatype Deletion =
    | Sent(mark: nat, begun: nat, target: NodeGroup)
    | Confirmed(mark: nat, begun: nat, call: nat)

  /** An answered DELETE of the group that was passed to Delete. */
  datatype Call = Call(target: NodeGroup, begun: nat, accepted: bool)

  datatype Event =
    | Rejected(flavor: string, record: QuotaRejection, origin: Origin)
    | Held(flavor: string, hold: HoldOut)
    | Posted(flavor: string, at: nat, admission: Admission)
    | Wiped(begun: nat, call: nat)
    | Released(flavor: string, markedAt: nat)

  datatype State = State(
    now: nat, mem: Memory, launch: Launch, deletes: map<nat, Deletion>, last: Option<Outcome>,
    log: seq<Event>, calls: seq<Call>)

  datatype Action =
    | Tick(d: nat)
    | Lock(claim: Claim)
    | Resolve(plan: Plan)
    | GiveUp
    | Check
    | Mark
    | Send(reply: PostReply)
    | Poll(read: Read, shutdown: bool)
    | TimeOut(shutdown: bool)
    | Settle
    | BeginDelete(id: nat, target: NodeGroup)
    | DeleteReply(id: nat, accepted: bool)
    | Wipe(id: nat)
    | LateRefusal(refused: NodeGroup)

  function Init(now: nat): State {
    State(now, EMPTY, Free, map[], None, [], [])
  }

  function Finish(s: State, outcome: Outcome): State {
    s.(launch := Free, last := Some(outcome))
  }

  function Reject(s: State, sizes: Sizes, flavor: string, message: string, origin: Origin): State {
    s.(mem := RecordQuota(s.mem, sizes, flavor, message, s.now),
       log := s.log + [Rejected(flavor, NewRejection(s.mem, sizes, flavor, message, s.now), origin)])
  }

  function Hold(s: State, flavor: string): State {
    s.(mem := RecordHold(s.mem, flavor, s.now),
       log := s.log + [Held(flavor, HoldOut(s.now, s.mem.holdNumber + 1))])
  }

  const VANISH_MESSAGE := "an accepted nodegroup was reclaimed upstream (vanish); capacity is likely exhausted"

  /** Whether an accepted DELETE of a group may free capacity. */
  predicate MayFree(ng: NodeGroup) { IsSynced(ng) || !IsRefused(ng) }

  function Apply(sizes: Sizes, s: State, a: Action): State {
    match a
    case Tick(d) => s.(now := s.now + d)
    case Lock(claim) => if s.launch.Free? then s.(launch := Holding(claim)) else s
    case Resolve(plan) => if s.launch.Holding? then s.(launch := Resolved(s.launch.claim, plan)) else s
    case GiveUp => if s.launch.Holding? then Finish(s, Aborted) else s
    case Check => if s.launch.Resolved? then DoCheck(sizes, s) else s
    case Mark =>
      if s.launch.Admitted? then
        s.(launch := Marked(s.launch.claim, s.launch.plan, s.launch.admission, s.mem.holdNumber, |s.log|))
      else s
    case Send(reply) => if s.launch.Marked? then DoSend(s, reply) else s
    case Poll(read, shutdown) => if s.launch.Polling? then DoPoll(sizes, s, read, shutdown) else s
    case TimeOut(shutdown) => if s.launch.Polling? then DoTimeOut(s, shutdown) else s
    case Settle => DoSettle(sizes, s)
    case BeginDelete(id, target) =>
      if id in s.deletes then s
      else s.(deletes := s.deletes[id := Sent(s.mem.quotaNumber, |s.log|, target)])
    case DeleteReply(id, accepted) =>
      if id in s.deletes && s.deletes[id].Sent? then
        var d := s.deletes[id];
        var answered := s.(calls := s.calls + [Call(d.target, d.begun, accepted)]);
        if accepted && MayFree(d.target) then
          answered.(deletes := s.deletes[id := Confirmed(d.mark, d.begun, |s.calls|)])
        else answered.(deletes := s.deletes - {id})
      else s
    case Wipe(id) =>
      if id in s.deletes && s.deletes[id].Confirmed? then
        var d := s.deletes[id];
        s.(mem := ClearQuota(s.mem, d.mark), deletes := s.deletes - {id}, log := s.log + [Wiped(d.begun, d.call)])
      else s
    case LateRefusal(ng) =>
      if IsQuotaExceeded(ng) then Reject(s, sizes, ng.flavor, QuotaMessage(ng), Late)
      else if Refusal(ng).Some? then Hold(s, ng.flavor)
      else s
  }

  /** The fast-fail check, skipped by an adoption: its group already holds its reservation. */
  function DoCheck(sizes: Sizes, s: State): State
    requires s.launch.Resolved?
  {
    var Resolved(claim, plan) := s.launch;
    if plan.existing.Some? then s.(launch := Admitted(claim, plan, Adoption))
    else if QuotaCovers(s.mem, sizes, plan.draft.flavor, s.now) then Finish(s, FastFailed(plan.draft.flavor))
    else s.(launch := Admitted(claim, plan, Passed(s.now, |s.log|)))
  }

  function DoSend(s: State, reply: PostReply): State
    requires s.launch.Marked?
  {
    var Marked(claim, plan, admission, mark, markedAt) := s.launch;
    if plan.existing.Some? then AdoptGroup(s, claim, plan.existing.value, mark, markedAt)
    else
      var sent := s.(log := s.log + [Posted(plan.draft.flavor, s.now, admission)]);
      match reply
      case Created(uid) =>
        sent.(launch := Polling(plan.draft.(uid := uid), None, Fresh(|s.log|), mark, markedAt, false))
      case FlavorInvalid => sent.(launch := Refusing(plan.draft.flavor))
      case AlreadyExists(found) =>
        if found.None? then Finish(sent, Aborted) else AdoptGroup(sent, claim, found.value, mark, markedAt)
      case PostFailed => Finish(sent, Aborted)
  }

  function AdoptGroup(s: State, claim: Claim, ng: NodeGroup, mark: nat, markedAt: nat): State {
    if OwnedByNodeClaim(ng, claim) then s.(launch := Polling(ng, Some(ng.uid), Adopted, mark, markedAt, true))
    else Finish(s, NotOwned)
  }

  function DoPoll(sizes: Sizes, s: State, read: Read, shutdown: bool): State
    requires s.launch.Polling?
  {
    OnVerdict(sizes, s, Decide(s.launch.watched, s.launch.seen, read), read, shutdown)
  }

  function OnVerdict(sizes: Sizes, s: State, v: Verdict, read: Read, shutdown: bool): State
    requires s.launch.Polling?
    requires v.OverQuota? || v.Refused? ==> read.Found?
  {
    var Polling(group, watched, origin, mark, markedAt, seen) := s.launch;
    match v
    case Undecided => s.(launch := s.launch.(seen := seen || read.Found?))
    case Vanished => s.(launch := Losing(group, origin))
    case IsReady => s.(launch := Accepting(group, ReadyAtOnce, mark, markedAt))
    case Acknowledged => s.(launch := Accepting(group, AcknowledgedByOperator, mark, markedAt))
    case OverQuota(message) =>
      Finish(Reject(s, sizes, read.group.flavor, message, origin), QuotaRejected(read.group.flavor))
    case Refused(_) => s.(launch := Refusing(read.group.flavor))
    case Broken => Finish(s, Aborted)
    case Cut => DoTimeOut(s, shutdown)
  }

  /** The poll's time is over: a shutdown is an error, anything else an optimistic success. */
  function DoTimeOut(s: State, shutdown: bool): State
    requires s.launch.Polling?
  {
    if shutdown then Finish(s, Aborted) else Finish(s, Launched(s.launch.group, Unacknowledged))
  }

  /** What a launch records once the poll has returned, in a critical section of its own. */
  function DoSettle(sizes: Sizes, s: State): State {
    match s.launch
    case Refusing(flavor) => Finish(Hold(s, flavor), FlavorRefused(flavor))
    case Losing(group, origin) => Finish(Reject(s, sizes, group.flavor, VANISH_MESSAGE, origin), GroupVanished)
    case Accepting(group, acceptance, mark, markedAt) =>
      Finish(s.(mem := ReleaseHold(s.mem, group.flavor, mark), log := s.log + [Released(group.flavor, markedAt)]),
             Launched(group, acceptance))
    case _ => s
  }

  function Run(sizes: Sizes, s: State, actions: seq<Action>): State
    decreases |actions|
  {
    if actions == [] then s else Run(sizes, Apply(sizes, s, actions[0]), actions[1..])
  }
}
