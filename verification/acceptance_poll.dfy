/** What one read of the acceptance poll decides, and which read ends the poll
    (waitForAcceptance in pkg/providers/nodegroup/nodegroup.go). */
module AcceptancePoll {
  import opened Base
  import opened NodeGroupApi

  /** An answer of the API server: NotFound, another error (`interrupted` when it wraps the poll's
      own deadline or cancellation), or the group. */
  datatype Read = Missing | Unreadable(interrupted: bool) | Found(group: NodeGroup)

  datatype Verdict =
    | Undecided
    | Vanished                        // gone after it was seen, replaced, or being deleted
    | IsReady
    | OverQuota(message: string)
    | Refused(failure: Failure)
    | Acknowledged
    | Broken                          // the read failed for good
    | Cut                             // the read failed because the poll's time is over

  predicate Replaced(observed: Option<string>, ng: NodeGroup) {
    observed.Some? && observed.value != ng.uid
  }

  function Decide(observed: Option<string>, seen: bool, read: Read): (v: Verdict)
    ensures v.OverQuota? || v.Refused? ==> read.Found?
  {
    match read
    case Missing => if seen then Vanished else Undecided
    case Unreadable(interrupted) => if interrupted then Cut else Broken
    case Found(ng) =>
      if Replaced(observed, ng) || ng.terminating then Vanished
      else if IsSynced(ng) then IsReady
      else if IsQuotaExceeded(ng) then OverQuota(QuotaMessage(ng))
      else if Refusal(ng).Some? then Refused(Refusal(ng).value)
      else if IsReconciling(ng) then Acknowledged
      else Undecided
  }

  /** The transient failure a read adds: a group read under another UID adds none. */
  function Surfaced(observed: Option<string>, read: Read): Option<Failure> {
    if read.Found? && !Replaced(observed, read.group) then TransientFailure(read.group) else None
  }

  predicate SeenIn(observed: Option<string>, answers: seq<Read>) {
    observed.Some? || exists r <- answers :: r.Found?
  }

  /** The verdict of the k-th read, given the answers before it. */
  function VerdictAt(observed: Option<string>, answers: seq<Read>, k: nat): Verdict
    requires k < |answers|
  {
    Decide(observed, SeenIn(observed, answers[..k]), answers[k])
  }

  /** How many answers the poll consumes before its first decisive one (all of them if there is none). */
  ghost predicate EndsAt(observed: Option<string>, answers: seq<Read>, k: nat) {
    && k <= |answers|
    && (forall j: nat | j < k :: VerdictAt(observed, answers, j) == Undecided)
    && (k < |answers| ==> VerdictAt(observed, answers, k) != Undecided)
  }

  /** What a poll that ended there found: its decisive verdict, or that its time was over. */
  function Judged(observed: Option<string>, answers: seq<Read>, k: nat): (v: Verdict)
    requires k <= |answers|
    ensures v.OverQuota? || v.Refused? ==> k < |answers| && answers[k].Found?
  {
    if k < |answers| then VerdictAt(observed, answers, k) else Cut
  }

  /** The reads a poll that ended there made. */
  function Consumed(answers: seq<Read>, k: nat): seq<Read>
    requires k <= |answers|
  {
    if k < |answers| then answers[..k + 1] else answers
  }

  /** For any answers, however many, the poll ends at exactly one place. */
  lemma EndsAtOnePlace(observed: Option<string>, answers: seq<Read>)
    ensures exists k: nat :: EndsAt(observed, answers, k) && forall l: nat | EndsAt(observed, answers, l) :: l == k
  {
    var k: nat := 0;
    while k < |answers| && VerdictAt(observed, answers, k) == Undecided
      invariant k <= |answers| && forall j: nat | j < k :: VerdictAt(observed, answers, j) == Undecided
    {
      k := k + 1;
    }
    assert EndsAt(observed, answers, k);
  }

  /** The last transient failure among a list of reads. */
  function LastSurfaced(observed: Option<string>, answers: seq<Read>): Option<Failure>
  {
    if answers == [] then None
    else
      var n := |answers| - 1;
      if Surfaced(observed, answers[n]).Some? then Surfaced(observed, answers[n])
      else LastSurfaced(observed, answers[..n])
  }

  /** It is one a read surfaced, with none after it; there is none only if no read surfaced one. */
  lemma {:induction false} LastSurfacedIsLast(observed: Option<string>, answers: seq<Read>)
    ensures var r := LastSurfaced(observed, answers);
            && (r.None? ==> forall i | 0 <= i < |answers| :: Surfaced(observed, answers[i]).None?)
            && (r.Some? ==> exists i :: 0 <= i < |answers| && Surfaced(observed, answers[i]) == r
                                        && forall j | i < j < |answers| :: Surfaced(observed, answers[j]).None?)
  {
    if answers != [] {
      var n := |answers| - 1;
      if Surfaced(observed, answers[n]).None? {
        LastSurfacedIsLast(observed, answers[..n]);
        var r := LastSurfaced(observed, answers[..n]);
        if r.Some? {
          var i :| 0 <= i < n && Surfaced(observed, answers[..n][i]) == r
                   && forall j | i < j < n :: Surfaced(observed, answers[..n][j]).None?;
          forall j | i < j < |answers| ensures Surfaced(observed, answers[j]).None? {
            if j < n { assert Surfaced(observed, answers[..n][j]).None?; }
          }
          assert Surfaced(observed, answers[i]) == r;
        } else {
          forall i | 0 <= i < |answers| ensures Surfaced(observed, answers[i]).None? {
            if i < n { assert Surfaced(observed, answers[..n][i]).None?; }
          }
        }
      } else {
        assert Surfaced(observed, answers[n]).Some?;
      }
    }
  }

  /** What one more read adds to what the poll has seen. */
  lemma OneMoreRead(observed: Option<string>, answers: seq<Read>, k: nat)
    requires k < |answers|
    ensures SeenIn(observed, answers[..k + 1]) == (SeenIn(observed, answers[..k]) || answers[k].Found?)
    ensures LastSurfaced(observed, answers[..k + 1]) ==
            if Surfaced(observed, answers[k]).Some? then Surfaced(observed, answers[k])
            else LastSurfaced(observed, answers[..k])
  {
    assert answers[..k + 1] == answers[..k] + [answers[k]];
    assert answers[..k + 1][..k] == answers[..k];
  }

  /** The precedence of the verdicts on a group that was read, each by what it means for the group:
      going away first, then Ready whatever else is set, then the quota, then any other refusal, and
      an acknowledgement or nothing only on a group nobody refused. A NotFound is a vanish exactly
      when the group had been seen; any other error is final, unless it is the poll's own interruption. */
  lemma VerdictPrecedence(observed: Option<string>, seen: bool, ng: NodeGroup)
    ensures var v := Decide(observed, seen, Found(ng));
            var gone := (observed.Some? && observed.value != ng.uid) || ng.terminating;
            && (v == Vanished <==> gone)
            && (v == IsReady <==> !gone && IsSynced(ng))
            && (v.OverQuota? || v.Refused? <==> !gone && !IsSynced(ng) && IsRefused(ng))
            && (v.OverQuota? ==> IsQuotaExceeded(ng))
            && (v.Refused? ==>
                  !IsQuotaExceeded(ng) && v.failure.reason != QUOTA_EXCEEDED && v.failure.reason != UPSTREAM_ERROR)
            && (v == Acknowledged <==> !gone && !IsSynced(ng) && !IsRefused(ng) && IsReconciling(ng))
            && v != Broken && v != Cut
    ensures Decide(observed, seen, Missing) == if seen then Vanished else Undecided
    ensures Decide(observed, seen, Unreadable(false)) == Broken && Decide(observed, seen, Unreadable(true)) == Cut
  {
  }

  /** A read that settles nothing, from the answers alone: a NotFound before the group was ever seen, or the
      group itself, staying, its status neither Ready, nor refused, nor in progress. */
  predicate Waits(observed: Option<string>, answers: seq<Read>, j: nat)
    requires j < |answers|
  {
    match answers[j]
    case Missing => observed.None? && forall i | 0 <= i < j :: !answers[i].Found?
    case Unreadable(_) => false
    case Found(ng) =>
      && (observed.Some? ==> observed.value == ng.uid) && !ng.terminating
      && !IsSynced(ng) && !IsRefused(ng) && !IsReconciling(ng)
  }

  lemma WaitingIsUndecided(observed: Option<string>, answers: seq<Read>, j: nat)
    requires j < |answers|
    ensures Waits(observed, answers, j) <==> VerdictAt(observed, answers, j) == Undecided
  {
    assert SeenIn(observed, answers[..j]) <==> observed.Some? || exists i :: 0 <= i < j && answers[i].Found? by {
      if exists i :: 0 <= i < j && answers[i].Found? {
        var i :| 0 <= i < j && answers[i].Found?;
        assert answers[..j][i] == answers[i] && answers[i] in answers[..j];
      }
    }
  }

  /** The poll ends at its first read that settles something. */
  lemma EndsAtTheFirstThatSettles(observed: Option<string>, answers: seq<Read>, k: nat)
    ensures EndsAt(observed, answers, k) <==>
      && k <= |answers| && (forall j: nat | j < k :: Waits(observed, answers, j))
      && (k < |answers| ==> !Waits(observed, answers, k))
  {
    forall j: nat | j < |answers|
      ensures Waits(observed, answers, j) <==> VerdictAt(observed, answers, j) == Undecided
    {
      WaitingIsUndecided(observed, answers, j);
    }
  }

  /** A read surfaces the transient failure of the group it was made for, and of no other. */
  lemma SurfacedMeans(observed: Option<string>, ng: NodeGroup)
    ensures Surfaced(observed, Found(ng)) ==
            if observed.Some? && observed.value != ng.uid then None else TransientFailure(ng)
    ensures Surfaced(observed, Missing).None? && Surfaced(observed, Unreadable(true)).None?
            && Surfaced(observed, Unreadable(false)).None?
  {
  }
}
