/** The nodeclass controller's migration pass and label validation
    (pkg/controllers/nodeclass/controller.go). */
module Migration {
  import opened Base
  import opened NodeGroupApi
  import opened NodeClasses
  import opened Drift

  /** The stamp of a listed group, as the migration and IsDrifted read it. */
  function StampOf(ng: NodeGroup): Option<Stamp> {
    if NODECLASS_HASH in ng.annotations then
      Some(Stamp(VersionText(ng), ng.annotations[NODECLASS_HASH]))
    else None
  }

  /** The version annotation, with Go's empty string for a missing one. */
  function VersionText(ng: NodeGroup): string {
    if NODECLASS_HASH_VERSION !in ng.annotations then ""
    else match ng.annotations[NODECLASS_HASH_VERSION]
      case Text(text) => text
      case _ => "unreadable"
  }

  function WithStamp(ng: NodeGroup, stamp: Stamp): NodeGroup {
    ng.(annotations := ng.annotations[NODECLASS_HASH := stamp.hash][NODECLASS_HASH_VERSION := Text(stamp.version)])
  }

  /** What the reads and writes the pass makes for one group answer: is its NodeClaim drifted, and
      does the patch succeed, find nothing, or fail? */
  datatype ClaimAnswer = NotDrifted | AlreadyDrifted | ClaimReadFailed
  datatype PatchAnswer = Patched | GroupGone | PatchFailed
  datatype Answers = Answers(claim: ClaimAnswer, patch: PatchAnswer)

  datatype Step = Left | Kept | Failed | Vanished | Migrated

  /** What the pass does with one group. */
  function StepFor(syntax: Syntax, spec: Spec, ng: NodeGroup, answers: Answers): Step {
    if VersionText(ng) == CURRENT then Left
    else if NODECLASS_HASH !in ng.annotations then Left
    else
      var m := HashMatches(syntax, spec, VersionText(ng), ng.annotations[NODECLASS_HASH]);
      if !m.known then Left
      else if !m.matches then Kept
      else match answers.claim
        case ClaimReadFailed => Failed
        case AlreadyDrifted => Kept
        case NotDrifted =>
          (match answers.patch
           case Patched => Migrated
           case GroupGone => Vanished
           case PatchFailed => Failed)
  }

  /** What a step leaves of a group: nothing if it was gone, a v3 stamp if it migrated, else itself. */
  function LeftOf(syntax: Syntax, spec: Spec, ng: NodeGroup, step: Step): Option<NodeGroup> {
    match step
    case Vanished => None
    case Migrated => Some(WithStamp(ng, Stamp(CURRENT, Stamped(HashV3(syntax, spec)))))
    case _ => Some(ng)
  }

  /** What the pass does with each group. */
  function StepsOf(syntax: Syntax, spec: Spec, groups: seq<NodeGroup>, answers: seq<Answers>): seq<Step>
    requires |groups| <= |answers|
  {
    seq(|groups|, i requires 0 <= i < |groups| => StepFor(syntax, spec, groups[i], answers[i]))
  }

  /** The pass, group by group. */
  ghost predicate Passed(syntax: Syntax, spec: Spec, groups: seq<NodeGroup>, answers: seq<Answers>,
                         steps: seq<Step>, after: seq<Option<NodeGroup>>)
  {
    && |after| == |steps| == |groups| <= |answers|
    && forall i | 0 <= i < |groups| ::
         steps[i] == StepFor(syntax, spec, groups[i], answers[i])
             && after[i] == LeftOf(syntax, spec, groups[i], steps[i])
  }

  /** Stamped by an older generation this controller knows; an absent version means v1. */
  predicate Older(ng: NodeGroup) {
    StampOf(ng).Some? && (StampOf(ng).value.version == "" || StampOf(ng).value.version == "v1"
                          || StampOf(ng).value.version == "v2")
  }

  /** Left on its older stamp: it no longer matches, its NodeClaim is drifted already, or something failed. */
  predicate Waiting(syntax: Syntax, spec: Spec, ng: NodeGroup, answers: Answers) {
    Older(ng) && (IsDrifted(syntax, spec, StampOf(ng)) || answers.claim != NotDrifted || answers.patch == PatchFailed)
  }

  /** Something failed, that was needed. */
  predicate Failing(syntax: Syntax, spec: Spec, ng: NodeGroup, answers: Answers) {
    && Older(ng) && !IsDrifted(syntax, spec, StampOf(ng))
    && (answers.claim == ClaimReadFailed || (answers.claim == NotDrifted && answers.patch == PatchFailed))
  }

  /** A migrated group: nothing but its stamp changed, as a patch computed from this very read changes it; the
      stamp is a v3 one, matches the spec of the pass, and still describes what the group was built from. */
  ghost predicate RestampedTo(syntax: Syntax, spec: Spec, ng: NodeGroup, after: NodeGroup)
    requires StampOf(ng).Some?
  {
    && after == ng.(annotations := after.annotations)
    && (forall k | k != NODECLASS_HASH && k != NODECLASS_HASH_VERSION ::
          (k in after.annotations <==> k in ng.annotations)
          && (k in after.annotations && k in ng.annotations ==> after.annotations[k] == ng.annotations[k]))
    && var (before, stamp) := (StampOf(ng).value, StampOf(after));
       && stamp == Restamped(before, Stamped(HashV3(syntax, spec)), Some(before))
       && stamp.Some? && stamp.value.version == "v3" && !IsDrifted(syntax, spec, stamp)
       && forall built | Honest(syntax, built, before) :: Honest(syntax, built, stamp.value)
  }

  /** What the pass leaves of a group: untouched without an older stamp and while it waits, gone if it was
      gone, and otherwise migrated. */
  ghost predicate HandledAs(syntax: Syntax, spec: Spec, ng: NodeGroup, answers: Answers, left: Option<NodeGroup>) {
    if !Older(ng) || Waiting(syntax, spec, ng, answers) then left == Some(ng)
    else if answers.patch == GroupGone then left.None?
    else left.Some? && RestampedTo(syntax, spec, ng, left.value)
  }

  lemma StepMeans(syntax: Syntax, spec: Spec, ng: NodeGroup, answers: Answers)
    ensures HandledAs(syntax, spec, ng, answers, LeftOf(syntax, spec, ng, StepFor(syntax, spec, ng, answers)))
  {
    if Older(ng) && !Waiting(syntax, spec, ng, answers) && answers.patch == Patched {
      StampIsTold(syntax, spec, ng);
    }
  }

  lemma StepCounts(syntax: Syntax, spec: Spec, ng: NodeGroup, answers: Answers)
    ensures StepFor(syntax, spec, ng, answers) in {Kept, Failed} <==> Waiting(syntax, spec, ng, answers)
    ensures StepFor(syntax, spec, ng, answers) in {Failed} <==> Failing(syntax, spec, ng, answers)
  {
  }

  lemma StampIsTold(syntax: Syntax, spec: Spec, ng: NodeGroup)
    requires Older(ng) && !IsDrifted(syntax, spec, StampOf(ng))
    ensures RestampedTo(syntax, spec, ng, WithStamp(ng, Stamp(CURRENT, Stamped(HashV3(syntax, spec)))))
  {
    var before := StampOf(ng).value;
    var after := WithStamp(ng, Stamp(CURRENT, Stamped(HashV3(syntax, spec))));
    assert StampOf(after) == Some(Stamp(CURRENT, Stamped(HashV3(syntax, spec))));
    forall built | Honest(syntax, built, before) ensures Honest(syntax, built, StampOf(after).value) {
      MatchMeans(syntax, before.version, built, spec);
    }
  }

  function CountOf(steps: seq<Step>, what: set<Step>): nat {
    if steps == [] then 0
    else CountOf(steps[..|steps| - 1], what) + (if steps[|steps| - 1] in what then 1 else 0)
  }

  lemma {:induction false} CountZero(steps: seq<Step>, what: set<Step>)
    ensures CountOf(steps, what) == 0 <==> forall i | 0 <= i < |steps| :: steps[i] !in what
  {
    if steps != [] {
      var n := |steps| - 1;
      CountZero(steps[..n], what);
      if CountOf(steps, what) == 0 {
        forall i | 0 <= i < |steps| ensures steps[i] !in what {
          if i < n { assert steps[..n][i] !in what; }
        }
      } else if steps[n] !in what {
        var i :| 0 <= i < n && steps[..n][i] in what;
        assert steps[i] in what;
      }
    }
  }

  function PlacesOf(steps: seq<Step>, what: set<Step>): set<nat> {
    set i: nat | i < |steps| && steps[i] in what
  }

  /** It counts the places. */
  lemma {:induction false} CountIsHowMany(steps: seq<Step>, what: set<Step>)
    ensures CountOf(steps, what) == |PlacesOf(steps, what)|
  {
    var places := PlacesOf(steps, what);
    if steps != [] {
      var n := |steps| - 1;
      CountIsHowMany(steps[..n], what);
      assert places == PlacesOf(steps[..n], what) + (if steps[n] in what then {n} else {});
    } else if i :| i in places {
    }
  }

  /** The groups of a pass that stay pending, and those that met a failure, by their places. */
  function AllWaiting(syntax: Syntax, spec: Spec, groups: seq<NodeGroup>, answers: seq<Answers>): set<nat>
    requires |groups| <= |answers|
  {
    set i: nat | i < |groups| && Waiting(syntax, spec, groups[i], answers[i])
  }

  function AllFailing(syntax: Syntax, spec: Spec, groups: seq<NodeGroup>, answers: seq<Answers>): set<nat>
    requires |groups| <= |answers|
  {
    set i: nat | i < |groups| && Failing(syntax, spec, groups[i], answers[i])
  }

  /** The pass, in full: what it leaves of every group, how many it leaves pending and how many failures. */
  lemma PassMeans(syntax: Syntax, spec: Spec, groups: seq<NodeGroup>, answers: seq<Answers>,
                  steps: seq<Step>, after: seq<Option<NodeGroup>>)
    requires Passed(syntax, spec, groups, answers, steps, after)
    ensures forall i | 0 <= i < |groups| :: HandledAs(syntax, spec, groups[i], answers[i], after[i])
    ensures CountOf(steps, {Kept, Failed}) == |AllWaiting(syntax, spec, groups, answers)|
    ensures CountOf(steps, {Failed}) == |AllFailing(syntax, spec, groups, answers)|
  {
    forall i | 0 <= i < |groups| ensures HandledAs(syntax, spec, groups[i], answers[i], after[i]) {
      StepMeans(syntax, spec, groups[i], answers[i]);
    }
    CountIsHowMany(steps, {Kept, Failed});
    CountIsHowMany(steps, {Failed});
    PassPlaces(syntax, spec, groups, answers, steps);
  }

  lemma PassPlaces(syntax: Syntax, spec: Spec, groups: seq<NodeGroup>, answers: seq<Answers>, steps: seq<Step>)
    requires |steps| == |groups| <= |answers|
    requires forall i | 0 <= i < |groups| :: steps[i] == StepFor(syntax, spec, groups[i], answers[i])
    ensures PlacesOf(steps, {Kept, Failed}) == AllWaiting(syntax, spec, groups, answers)
    ensures PlacesOf(steps, {Failed}) == AllFailing(syntax, spec, groups, answers)
  {
    forall i: nat | i < |groups|
      ensures i in PlacesOf(steps, {Kept, Failed}) <==> i in AllWaiting(syntax, spec, groups, answers)
      ensures i in PlacesOf(steps, {Failed}) <==> i in AllFailing(syntax, spec, groups, answers)
    {
      StepCounts(syntax, spec, groups[i], answers[i]);
    }
  }

  lemma CountGrows(steps: seq<Step>, step: Step, what: set<Step>)
    ensures CountOf(steps + [step], what) == CountOf(steps, what) + (if step in what then 1 else 0)
  {
    assert (steps + [step])[..|steps|] == steps;
  }

  lemma PassGrows(syntax: Syntax, spec: Spec, groups: seq<NodeGroup>, answers: seq<Answers>, i: nat,
                  steps: seq<Step>, after: seq<Option<NodeGroup>>, left: Option<NodeGroup>)
    requires i < |groups| <= |answers| && Passed(syntax, spec, groups[..i], answers, steps, after)
    requires left == LeftOf(syntax, spec, groups[i], StepFor(syntax, spec, groups[i], answers[i]))
    ensures Passed(syntax, spec, groups[..i + 1], answers, steps + [StepFor(syntax, spec, groups[i], answers[i])],
        after + [left])
  {
  }

  /** One group of the pass: what is left of it, and whether it stays pending or failed. */
  method MigrateOne(syntax: Syntax, spec: Spec, ng: NodeGroup, answers: Answers)
    returns (left: Option<NodeGroup>, pending: bool, failed: bool)
    ensures var step := StepFor(syntax, spec, ng, answers);
            && left == LeftOf(syntax, spec, ng, step)
            && pending == (step in {Kept, Failed}) && failed == (step == Failed)
    ensures HandledAs(syntax, spec, ng, answers, left)
    ensures pending == Waiting(syntax, spec, ng, answers) && failed == Failing(syntax, spec, ng, answers)
  {
    StepMeans(syntax, spec, ng, answers);
    left, pending, failed := Some(ng), false, false;
    var version := VersionText(ng);
    if version == CURRENT || NODECLASS_HASH !in ng.annotations { return; }
    var m := HashMatches(syntax, spec, version, ng.annotations[NODECLASS_HASH]);
    if !m.known { return; }
    if !m.matches || answers.claim == AlreadyDrifted { return Some(ng), true, false; }
    if answers.claim == ClaimReadFailed || answers.patch == PatchFailed { return Some(ng), true, true; }
    if answers.patch == GroupGone { return None, false, false; }
    left := Some(WithStamp(ng, Stamp(CURRENT, Stamped(HashV3(syntax, spec)))));
  }

  /** migrateHashVersion: one pass over the listed groups. `pending` counts the groups left on an older
      known generation, `errors` the failed reads and writes; a failure never stops the pass. */
  method MigrateHashVersion(syntax: Syntax, spec: Spec, groups: seq<NodeGroup>, answers: seq<Answers>)
    returns (pending: nat, errors: nat, after: seq<Option<NodeGroup>>)
    requires |answers| == |groups|
    ensures var steps := StepsOf(syntax, spec, groups, answers);
            && Passed(syntax, spec, groups, answers, steps, after)
            && pending == CountOf(steps, {Kept, Failed}) && errors == CountOf(steps, {Failed})
    ensures |after| == |groups|
    ensures forall i | 0 <= i < |groups| :: HandledAs(syntax, spec, groups[i], answers[i], after[i])
    ensures pending == |AllWaiting(syntax, spec, groups, answers)|
    ensures errors == |AllFailing(syntax, spec, groups, answers)|
  {
    pending, errors, after := 0, 0, [];
    ghost var steps: seq<Step> := [];
    for i := 0 to |groups|
      invariant Passed(syntax, spec, groups[..i], answers, steps, after)
      invariant pending == CountOf(steps, {Kept, Failed}) && errors == CountOf(steps, {Failed})
    {
      var left, waits, failed := MigrateOne(syntax, spec, groups[i], answers[i]);
      if waits { pending := pending + 1; }
      if failed { errors := errors + 1; }
      after := after + [left];
      CountGrows(steps, StepFor(syntax, spec, groups[i], answers[i]), {Kept, Failed});
      CountGrows(steps, StepFor(syntax, spec, groups[i], answers[i]), {Failed});
      PassGrows(syntax, spec, groups, answers, i, steps, after[..i], left);
      steps := steps + [StepFor(syntax, spec, groups[i], answers[i])];
    }
    assert groups[..|groups|] == groups;
    assert steps == StepsOf(syntax, spec, groups, answers);
    PassMeans(syntax, spec, groups, answers, steps, after);
  }

  /** Two specs that differ only by labels the rule rejects. */
  predicate SameButRejected(syntax: Syntax, a: Spec, b: Spec) {
    a.later == b.later && DeliveredOf(syntax, LabelsOf(a)) == DeliveredOf(syntax, LabelsOf(b))
  }

  /** The migration promise. Of any group a pass did not leave pending, removing (or adding) any labels
      the rule rejects does not change the drift answer, whatever stamped it, whatever became of the other
      groups, and whatever the NodeClass says by then. */
  lemma MigrationPromise(syntax: Syntax, spec: Spec, groups: seq<NodeGroup>, answers: seq<Answers>,
                         steps: seq<Step>, after: seq<Option<NodeGroup>>, i: nat, current: Spec, edited: Spec)
    requires Passed(syntax, spec, groups, answers, steps, after) && i < |groups|
    requires steps[i] !in {Kept, Failed}
    requires SameButRejected(syntax, current, edited)
    ensures after[i].Some? ==>
              var stamp := StampOf(after[i].value);
              IsDrifted(syntax, current, stamp) <==> IsDrifted(syntax, edited, stamp)
  {
    assert steps[i] == StepFor(syntax, spec, groups[i], answers[i]);
    assert Normal(syntax, current) == Normal(syntax, edited);
  }

  /** What removing rejected labels does to a group the pass left pending, exactly: an honest older
      stamp compares raw labels, so the group drifts afterwards unless what remains is what it was
      built from. A pending group is not always one the removal drifts: one built before a rejected
      label was added reads as drifted until that label is removed again. */
  lemma PendingGroupAfterRemoval(syntax: Syntax, built: Spec, stamp: Stamp, edited: Spec)
    requires Honest(syntax, built, stamp) && (GenerationOf(stamp.version) == V1 || GenerationOf(stamp.version) == V2)
    ensures IsDrifted(syntax, edited, Some(stamp)) <==> !SameLabels(edited, built) || edited.later != map[]
  {
    MatchMeans(syntax, stamp.version, built, edited);
  }

  lemma RemovalCanUndrift(syntax: Syntax, labels: Labels, key: string, value: string)
    requires key !in labels && !Delivered(syntax, key, value)
    ensures var built := Spec(Some(labels), map[]);
            var current := Spec(Some(labels[key := value]), map[]);
            var stamp := Some(Stamp("v2", Stamped(StampedBy(syntax, V2, built))));
            && SameButRejected(syntax, current, built)
            && IsDrifted(syntax, current, stamp) && !IsDrifted(syntax, built, stamp)
  {
    var built := Spec(Some(labels), map[]);
    var current := Spec(Some(labels[key := value]), map[]);
    MatchMeans(syntax, "v2", built, current);
    MatchMeans(syntax, "v2", built, built);
    assert key in LabelsOf(current);
  }

  // ---------------------------------------------------------------- validation

  ghost predicate SortedKeys(keys: seq<string>, labels: Labels) {
    && (forall k :: k in keys <==> k in labels)
    && (forall i, j | 0 <= i < j < |keys| :: StringLess(keys[i], keys[j]))
  }

  predicate Ignored(syntax: Syntax, labels: Labels, k: string) {
    k in labels && !Delivered(syntax, k, labels[k]) && IsLegacy(k, labels[k])
  }

  predicate Fatal(syntax: Syntax, labels: Labels, k: string) {
    k in labels && !Delivered(syntax, k, labels[k]) && !IsLegacy(k, labels[k])
  }

  /** validate: the tolerated legacy keys, in order, and the first other rejected key in key order. */
  method Validate(syntax: Syntax, labels: Labels, keys: seq<string>)
    returns (ignored: seq<string>, fatal: Option<string>)
    requires SortedKeys(keys, labels)
    ensures forall k :: k in ignored <==> Ignored(syntax, labels, k)
    ensures forall i, j | 0 <= i < j < |ignored| :: StringLess(ignored[i], ignored[j])
    ensures fatal.None? <==> forall k | k in labels :: !Fatal(syntax, labels, k)
    ensures fatal.Some? ==> Fatal(syntax, labels, fatal.value)
                            && forall k | Fatal(syntax, labels, k) && k != fatal.value :: StringLess(fatal.value, k)
  {
    ignored, fatal := [], None;
    for i := 0 to |keys|
      invariant forall k :: k in ignored <==> k in keys[..i] && Ignored(syntax, labels, k)
      invariant forall a, b | 0 <= a < b < |ignored| :: StringLess(ignored[a], ignored[b])
      invariant fatal.None? ==> forall k | k in keys[..i] :: !Fatal(syntax, labels, k)
      invariant fatal.Some? ==> Fatal(syntax, labels, fatal.value) && fatal.value in keys[..i]
                                && forall k | k in keys[..i] && Fatal(syntax, labels, k) && k != fatal.value ::
                                     StringLess(fatal.value, k)
    {
      var k := keys[i];
      assert keys[..i + 1] == keys[..i] + [k];
      assert forall earlier | earlier in keys[..i] :: StringLess(earlier, k);
      if Delivered(syntax, k, labels[k]) { continue; }
      if IsLegacy(k, labels[k]) { ignored := ignored + [k]; }
      else if fatal.None? { fatal := Some(k); }
    }
    assert keys[..|keys|] == keys;
  }

  /** The advice of the LabelsIgnored condition. */
  datatype Advice = NoneIgnored | RemoveThem | MigrationPending

  /** reportIgnoredLabels: `pending` is None when the groups could not be listed. */
  function AdviceFor(ignored: seq<string>, pending: Option<nat>): Advice {
    if ignored == [] then NoneIgnored
    else if pending.None? || pending.value > 0 then MigrationPending
    else RemoveThem
  }

  /** Removal is advised exactly when there is something to remove and the pass left no group waiting. */
  lemma AdviceIsExact(syntax: Syntax, spec: Spec, groups: seq<NodeGroup>, answers: seq<Answers>, steps: seq<Step>,
                      after: seq<Option<NodeGroup>>, ignored: seq<string>)
    requires Passed(syntax, spec, groups, answers, steps, after)
    ensures var advice := AdviceFor(ignored, Some(CountOf(steps, {Kept, Failed})));
            && (advice == RemoveThem <==>
                  ignored != [] && forall i | 0 <= i < |groups| :: !Waiting(syntax, spec, groups[i], answers[i]))
            && (advice == NoneIgnored <==> ignored == [])
    ensures AdviceFor(ignored, None) == if ignored == [] then NoneIgnored else MigrationPending
  {
    CountZero(steps, {Kept, Failed});
    forall i | 0 <= i < |groups| ensures steps[i] in {Kept, Failed} <==> Waiting(syntax, spec, groups[i], answers[i]) {
      StepCounts(syntax, spec, groups[i], answers[i]);
    }
  }

  /** The advice to remove the ignored keys is only given when it drifts no node: the pass that yields
      it leaves every group answering the same with and without them. */
  lemma AdviceIsSound(syntax: Syntax, spec: Spec, groups: seq<NodeGroup>, answers: seq<Answers>, steps: seq<Step>,
                      after: seq<Option<NodeGroup>>, ignored: seq<string>, removed: set<string>, i: nat)
    requires Passed(syntax, spec, groups, answers, steps, after) && i < |groups|
    requires forall k :: k in ignored <==> Ignored(syntax, LabelsOf(spec), k)
    requires removed <= set k | k in ignored
    requires AdviceFor(ignored, Some(CountOf(steps, {Kept, Failed}))) == RemoveThem
    ensures var edited := spec.(labels := Some(LabelsOf(spec) - removed));
            after[i].Some? ==>
              var stamp := StampOf(after[i].value);
              IsDrifted(syntax, spec, stamp) <==> IsDrifted(syntax, edited, stamp)
  {
    var edited := spec.(labels := Some(LabelsOf(spec) - removed));
    assert DeliveredOf(syntax, LabelsOf(spec)) == DeliveredOf(syntax, LabelsOf(edited)) by {
      forall k | k in LabelsOf(spec) && k in removed ensures !Delivered(syntax, k, LabelsOf(spec)[k]) {
        assert Ignored(syntax, LabelsOf(spec), k);
      }
    }
    CountZero(steps, {Kept, Failed});
    MigrationPromise(syntax, spec, groups, answers, steps, after, i, spec, edited);
  }
}
