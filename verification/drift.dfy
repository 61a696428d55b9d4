/** Drift across hash generations: a NodeClass under edits, groups stamped by controllers of several
    generations, and migration passes working from stale reads (IsDrifted of
    pkg/cloudprovider/cloudprovider.go, migrateHashVersion of pkg/controllers/nodeclass/controller.go). */
module Drift {
  import opened Base
  import opened NodeGroupApi
  import opened NodeClasses

  datatype Stamp = Stamp(version: string, hash: Annotation)

  /** A group as the fleet keeps it: its UID, what it was built from (its spec is immutable), and its
      stamp (None when the hash annotation is absent). */
  datatype Built = Built(uid: nat, spec: Spec, stamp: Option<Stamp>)

  /** A stamp some group of a name has carried, under the UID and the spec of that group. Any of them
      may still be what a cache shows, also once another group has taken the name. */
  datatype View = View(name: string, uid: nat, spec: Spec, stamp: Stamp)

  datatype Fleet = Fleet(current: Spec, groups: map<string, Built>, views: set<View>, issued: nat)

  /** IsDrifted: only a stamp of a known generation that no longer matches proves anything. */
  predicate IsDrifted(syntax: Syntax, current: Spec, stamp: Option<Stamp>) {
    && stamp.Some?
    && var m := HashMatches(syntax, current, stamp.value.version, stamp.value.hash);
       m.known && !m.matches
  }

  /** What one migration step leaves of the stamp on the API server: the merge patch is computed from
      the group as the controller read it, so it sends the version, and the hash only if it differs from
      the one that was read; it names the group, not its UID. */
  function Restamped(view: Stamp, hash: Annotation, live: Option<Stamp>): Option<Stamp> {
    if hash != view.hash then Some(Stamp(CURRENT, hash))
    else if live.Some? then Some(Stamp(CURRENT, live.value.hash))
    else None
  }

  /** The migration re-stamps a group it read with an older stamp that matches the spec it read. */
  predicate Restamps(syntax: Syntax, seen: Spec, view: Stamp) {
    && view.version != CURRENT
    && var m := HashMatches(syntax, seen, view.version, view.hash);
       m.known && m.matches
  }

  datatype Action =
    | Edit(spec: Spec)
    | Launch(name: string, generation: Generation, foreign: Option<Stamp>)
    | Migrate(view: View, seen: Spec)
    | Takeover(name: string, stamp: Stamp)
    | Remove(name: string)

  function VersionOf(generation: Generation): string {
    match generation
    case V1 => ""
    case V2 => "v2"
    case _ => CURRENT
  }

  /** A group built now by a controller of a generation; a foreign one leaves any stamp, or none. */
  function Launched(syntax: Syntax, uid: nat, current: Spec, generation: Generation, foreign: Option<Stamp>): Built {
    var stamp :=
      if generation == Foreign then foreign
      else Some(Stamp(VersionOf(generation), Stamped(StampedBy(syntax, generation, DecodedBy(generation, current)))));
    Built(uid, DecodedBy(generation, current), stamp)
  }

  function Put(f: Fleet, name: string, g: Built): Fleet {
    f.(groups := f.groups[name := g],
       views := f.views + (if g.stamp.Some? then {View(name, g.uid, g.spec, g.stamp.value)} else {}))
  }

  /** The patch of a pass that read a view goes out, and there is a group of that name to take it. */
  predicate Lands(syntax: Syntax, f: Fleet, view: View, seen: Spec) {
    view in f.views && view.name in f.groups && Restamps(syntax, seen, view.stamp)
  }

  function Patched(syntax: Syntax, g: Built, view: View, seen: Spec): Built {
    g.(stamp := Restamped(view.stamp, Stamped(HashV3(syntax, seen)), g.stamp))
  }

  /** What another generation's controller, leading for a while, may re-stamp a live group with: a newer
      one anything in its own version, the v2 one a v1 group with its v2 hash. */
  predicate TakesOver(syntax: Syntax, g: Built, stamp: Stamp) {
    || GenerationOf(stamp.version) == Foreign
    || (&& g.stamp.Some? && GenerationOf(g.stamp.value.version) == V1
        && stamp == Stamp("v2", Stamped(StampedBy(syntax, V2, g.spec))))
  }

  /** A pass may act on any stamp a group of the name has ever carried and on any spec, however stale,
      and its patch lands on whatever group has the name by then. A group the controller skips, for a
      drifted NodeClaim or a failed read or write, is a step not taken. */
  function Apply(syntax: Syntax, f: Fleet, a: Action): Fleet {
    match a
    case Edit(spec) => f.(current := spec)
    case Launch(name, generation, foreign) =>
      if name in f.groups
         || (generation == Foreign && foreign.Some? && GenerationOf(foreign.value.version) != Foreign)
      then f
      else Put(f.(issued := f.issued + 1), name, Launched(syntax, f.issued + 1, f.current, generation, foreign))
    case Migrate(view, seen) =>
      if Lands(syntax, f, view, seen) then Put(f, view.name, Patched(syntax, f.groups[view.name], view, seen)) else f
    case Takeover(name, stamp) =>
      if name in f.groups && TakesOver(syntax, f.groups[name], stamp)
      then Put(f, name, f.groups[name].(stamp := Some(stamp))) else f
    case Remove(name) => f.(groups := f.groups - {name})
  }

  function Run(syntax: Syntax, f: Fleet, actions: seq<Action>): Fleet
    decreases |actions|
  {
    if actions == [] then f else Run(syntax, Apply(syntax, f, actions[0]), actions[1..])
  }

  /** The stamp is one its own generation computes for the spec the group was built from. A stamp of
      a generation this controller cannot compute promises nothing. */
  ghost predicate Honest(syntax: Syntax, built: Spec, stamp: Stamp) {
    var g := GenerationOf(stamp.version);
    g != Foreign ==> built == DecodedBy(g, built) && stamp.hash == Stamped(StampedBy(syntax, g, built))
  }

  ghost predicate Truthful(syntax: Syntax, g: Built) {
    g.stamp.Some? ==> Honest(syntax, g.spec, g.stamp.value)
  }

  ghost predicate AllTruthful(syntax: Syntax, f: Fleet) {
    forall name | name in f.groups :: Truthful(syntax, f.groups[name])
  }

  /** When a patch leaves the truth, exactly. It sends a hash: the group it lands on delivers what the
      one that was read was built with. It sends only the version: the hash already there is the
      group's own v3 hash. */
  predicate Faithful(syntax: Syntax, first: Spec, view: Stamp, seen: Spec, g: Built) {
    if Stamped(HashV3(syntax, seen)) != view.hash then Normal(syntax, first) == Normal(syntax, g.spec)
    else g.stamp.Some? ==> g.stamp.value.hash == Stamped(HashV3(syntax, g.spec))
  }

  /** Whatever generation stamped the view, and whatever the group it lands on carries. */
  lemma PatchTellsTheTruth(syntax: Syntax, first: Spec, view: Stamp, seen: Spec, g: Built)
    requires Honest(syntax, first, view) && Restamps(syntax, seen, view)
    ensures var h := Stamped(HashV3(syntax, seen));
            Truthful(syntax, g.(stamp := Restamped(view, h, g.stamp))) <==> Faithful(syntax, first, view, seen, g)
  {
    MatchMeans(syntax, view.version, first, seen);
  }

  // ---------------------------------------------------------------- every run

  /** A stamp of another generation is only ever left by a launch or a migration of that generation, so
      it is honest about the group that carried it. */
  ghost predicate ViewsSound(syntax: Syntax, views: set<View>, issued: nat) {
    && (forall v | v in views :: v.uid <= issued && (v.stamp.version != CURRENT ==> Honest(syntax, v.spec, v.stamp)))
    && (forall v, w | v in views && w in views && v.uid == w.uid :: SameGroup(v, w))
  }

  predicate SameGroup(v: View, w: View) { v.name == w.name && v.spec == w.spec }

  /** A UID names one group, which has carried the stamps seen under it; a v1 stamp is its first. */
  ghost predicate GroupsSound(f: Fleet) {
    && (forall n | n in f.groups :: f.groups[n].uid <= f.issued)
    && (forall n, v | n in f.groups && v in f.views && v.uid == f.groups[n].uid ::
          v.name == n && v.spec == f.groups[n].spec)
    && (forall m, n | m in f.groups && n in f.groups && f.groups[m].uid == f.groups[n].uid :: m == n)
    && (forall n | n in f.groups && f.groups[n].stamp.Some? ::
          View(n, f.groups[n].uid, f.groups[n].spec, f.groups[n].stamp.value) in f.views)
    && (forall n, v | n in f.groups && v in f.views && v.uid == f.groups[n].uid && IsV1(f.groups[n].stamp) ::
          Some(v.stamp) == f.groups[n].stamp)
  }

  predicate IsV1(stamp: Option<Stamp>) { stamp.Some? && GenerationOf(stamp.value.version) == V1 }

  /** What every run keeps, faithful or not. */
  ghost predicate Chronicled(syntax: Syntax, f: Fleet) { ViewsSound(syntax, f.views, f.issued) && GroupsSound(f) }

  lemma ViewIsAdded(syntax: Syntax, views: set<View>, issued: nat, v: View, later: nat)
    requires ViewsSound(syntax, views, issued) && v.uid <= later && issued <= later
    requires v.stamp.version != CURRENT ==> Honest(syntax, v.spec, v.stamp)
    requires forall w | w in views && w.uid == v.uid :: SameGroup(v, w)
    ensures ViewsSound(syntax, views + {v}, later)
  {
  }

  lemma LaunchIsChronicled(syntax: Syntax, f: Fleet, name: string, generation: Generation, foreign: Option<Stamp>)
    requires Chronicled(syntax, f) && name !in f.groups
    requires generation == Foreign && foreign.Some? ==> GenerationOf(foreign.value.version) == Foreign
    ensures var g := Launched(syntax, f.issued + 1, f.current, generation, foreign);
            Truthful(syntax, g) && Chronicled(syntax, Put(f.(issued := f.issued + 1), name, g))
  {
    var g := Launched(syntax, f.issued + 1, f.current, generation, foreign);
    if g.stamp.Some? {
      ViewIsAdded(syntax, f.views, f.issued, View(name, g.uid, g.spec, g.stamp.value), f.issued + 1);
    }
    PutKeepsGroups(f, f.(issued := f.issued + 1), name, g);
  }

  lemma RestampIsChronicled(syntax: Syntax, f: Fleet, name: string, g: Built)
    requires Chronicled(syntax, f) && name in f.groups
    requires g.uid == f.groups[name].uid && g.spec == f.groups[name].spec && !IsV1(g.stamp)
    requires g.stamp.Some? && g.stamp.value.version != CURRENT ==> Honest(syntax, g.spec, g.stamp.value)
    ensures Chronicled(syntax, Put(f, name, g))
  {
    if g.stamp.Some? { ViewIsAdded(syntax, f.views, f.issued, View(name, g.uid, g.spec, g.stamp.value), f.issued); }
    PutKeepsGroups(f, f, name, g);
  }

  /** Of a new UID, or of the UID and spec of the group that has the name. */
  lemma PutKeepsGroups(f: Fleet, base: Fleet, name: string, g: Built)
    requires GroupsSound(f) && base == f.(issued := base.issued) && f.issued <= base.issued && g.uid <= base.issued
    requires forall v | v in f.views :: v.uid <= f.issued
    requires if name in f.groups
             then g.uid == f.groups[name].uid && g.spec == f.groups[name].spec && !IsV1(g.stamp)
             else g.uid > f.issued
    ensures GroupsSound(Put(base, name, g))
  {
  }

  lemma StepIsChronicled(syntax: Syntax, f: Fleet, a: Action)
    requires Chronicled(syntax, f)
    ensures Chronicled(syntax, Apply(syntax, f, a))
  {
    match a
    case Edit(_) =>
    case Launch(name, generation, foreign) =>
      if Apply(syntax, f, a) != f { LaunchIsChronicled(syntax, f, name, generation, foreign); }
    case Migrate(view, seen) => if Lands(syntax, f, view, seen) { PatchIsChronicled(syntax, f, view, seen); }
    case Takeover(name, stamp) =>
      if name in f.groups && TakesOver(syntax, f.groups[name], stamp) { TakeoverIsChronicled(syntax, f, name, stamp); }
    case Remove(name) => RemovalIsChronicled(syntax, f, name);
  }

  lemma PatchIsChronicled(syntax: Syntax, f: Fleet, view: View, seen: Spec)
    requires Chronicled(syntax, f) && Lands(syntax, f, view, seen)
    ensures Chronicled(syntax, Put(f, view.name, Patched(syntax, f.groups[view.name], view, seen)))
  {
    RestampIsChronicled(syntax, f, view.name, Patched(syntax, f.groups[view.name], view, seen));
  }

  lemma TakeoverIsChronicled(syntax: Syntax, f: Fleet, name: string, stamp: Stamp)
    requires Chronicled(syntax, f) && name in f.groups && TakesOver(syntax, f.groups[name], stamp)
    ensures Chronicled(syntax, Put(f, name, f.groups[name].(stamp := Some(stamp))))
  {
    TakeoverIsHonest(syntax, f, name, stamp);
    RestampIsChronicled(syntax, f, name, f.groups[name].(stamp := Some(stamp)));
  }

  lemma RemovalIsChronicled(syntax: Syntax, f: Fleet, name: string)
    requires Chronicled(syntax, f)
    ensures Chronicled(syntax, f.(groups := f.groups - {name}))
  {
  }

  lemma TakeoverIsHonest(syntax: Syntax, f: Fleet, name: string, stamp: Stamp)
    requires Chronicled(syntax, f) && name in f.groups && TakesOver(syntax, f.groups[name], stamp)
    ensures Honest(syntax, f.groups[name].spec, stamp) && !IsV1(Some(stamp)) && stamp.version != CURRENT
  {
    var g := f.groups[name];
    if g.stamp.Some? { assert View(name, g.uid, g.spec, g.stamp.value) in f.views; }
  }

  /** The landed patches of a run are all faithful. */
  predicate FaithfulStep(syntax: Syntax, f: Fleet, a: Action) {
    a.Migrate? && Lands(syntax, f, a.view, a.seen) ==>
      Faithful(syntax, a.view.spec, a.view.stamp, a.seen, f.groups[a.view.name])
  }

  predicate FaithfulRun(syntax: Syntax, f: Fleet, actions: seq<Action>)
    decreases |actions|
  {
    actions == []
    || (FaithfulStep(syntax, f, actions[0]) && FaithfulRun(syntax, Apply(syntax, f, actions[0]), actions[1..]))
  }

  /** No stamp lies at any point of a run. */
  ghost predicate TruthThroughout(syntax: Syntax, f: Fleet, actions: seq<Action>)
    decreases |actions|
  {
    AllTruthful(syntax, f) && (actions == [] || TruthThroughout(syntax, Apply(syntax, f, actions[0]), actions[1..]))
  }

  lemma StepTellsTheTruth(syntax: Syntax, f: Fleet, a: Action)
    requires Chronicled(syntax, f) && AllTruthful(syntax, f)
    ensures AllTruthful(syntax, Apply(syntax, f, a)) <==> FaithfulStep(syntax, f, a)
  {
    var t := Apply(syntax, f, a);
    match a
    case Launch(name, generation, foreign) =>
      if t != f { LaunchIsChronicled(syntax, f, name, generation, foreign); }
    case Migrate(view, seen) =>
      if Lands(syntax, f, view, seen) {
        PatchTellsTheTruth(syntax, view.spec, view.stamp, seen, f.groups[view.name]);
        assert t.groups[view.name] == Patched(syntax, f.groups[view.name], view, seen);
      }
    case Takeover(name, stamp) =>
      if name in f.groups && TakesOver(syntax, f.groups[name], stamp) { TakeoverIsHonest(syntax, f, name, stamp); }
    case _ =>
  }

  /** Over any run whatsoever, of edits, launches and take-overs by any generation, removals and
      re-creations, and patches that land on any group of the name: the stamps tell the truth throughout exactly when
      every landed patch is faithful. */
  lemma {:induction false} RunKeepsStamps(syntax: Syntax, f: Fleet, actions: seq<Action>)
    requires Chronicled(syntax, f) && AllTruthful(syntax, f)
    ensures Chronicled(syntax, Run(syntax, f, actions))
    ensures TruthThroughout(syntax, f, actions) <==> FaithfulRun(syntax, f, actions)
    ensures FaithfulRun(syntax, f, actions) ==> AllTruthful(syntax, Run(syntax, f, actions))
    decreases |actions|
  {
    if actions == [] {
    } else {
      var next := Apply(syntax, f, actions[0]);
      StepIsChronicled(syntax, f, actions[0]);
      StepTellsTheTruth(syntax, f, actions[0]);
      if AllTruthful(syntax, next) {
        RunKeepsStamps(syntax, next, actions[1..]);
      } else {
        AnyRunIsChronicled(syntax, next, actions[1..]);
      }
    }
  }

  lemma {:induction false} AnyRunIsChronicled(syntax: Syntax, f: Fleet, actions: seq<Action>)
    requires Chronicled(syntax, f)
    ensures Chronicled(syntax, Run(syntax, f, actions))
    decreases |actions|
  {
    if actions == [] {
    } else {
      StepIsChronicled(syntax, f, actions[0]);
      AnyRunIsChronicled(syntax, Apply(syntax, f, actions[0]), actions[1..]);
    }
  }

  /** A patch that lands on the very group that was read is faithful, however stale the reads, but for one
      case: it sends only the version, and a controller of a generation unknown to this one has re-stamped
      the group meanwhile with another hash, which then passes for a v3 one. */
  lemma OwnPatchIsFaithful(syntax: Syntax, f: Fleet, view: View, seen: Spec)
    requires Chronicled(syntax, f) && AllTruthful(syntax, f) && Lands(syntax, f, view, seen)
    requires view.uid == f.groups[view.name].uid
    ensures var live := f.groups[view.name].stamp;
            Faithful(syntax, view.spec, view.stamp, seen, f.groups[view.name]) <==>
              (Stamped(HashV3(syntax, seen)) == view.stamp.hash && IsForeign(live) ==>
                 live.value.hash == view.stamp.hash)
  {
    MatchMeans(syntax, view.stamp.version, view.spec, seen);
  }

  predicate IsForeign(stamp: Option<Stamp>) { stamp.Some? && GenerationOf(stamp.value.version) == Foreign }

  /** Every patch of a run lands on the group that was read, not re-stamped meanwhile by a controller of
      an unknown generation: pinning it to the UID and the resource version would enforce more. */
  predicate PinnedRun(syntax: Syntax, f: Fleet, actions: seq<Action>)
    decreases |actions|
  {
    actions == []
    || ((actions[0].Migrate? && Lands(syntax, f, actions[0].view, actions[0].seen) ==>
           && actions[0].view.uid == f.groups[actions[0].view.name].uid
           && !IsForeign(f.groups[actions[0].view.name].stamp))
        && PinnedRun(syntax, Apply(syntax, f, actions[0]), actions[1..]))
  }

  lemma {:induction false} PinnedRunIsFaithful(syntax: Syntax, f: Fleet, actions: seq<Action>)
    requires Chronicled(syntax, f) && AllTruthful(syntax, f) && PinnedRun(syntax, f, actions)
    ensures FaithfulRun(syntax, f, actions)
    decreases |actions|
  {
    if actions == [] {
    } else {
      var a := actions[0];
      if a.Migrate? && Lands(syntax, f, a.view, a.seen) { OwnPatchIsFaithful(syntax, f, a.view, a.seen); }
      StepIsChronicled(syntax, f, a);
      StepTellsTheTruth(syntax, f, a);
      PinnedRunIsFaithful(syntax, Apply(syntax, f, a), actions[1..]);
    }
  }

  function Start(spec: Spec): Fleet { Fleet(spec, map[], {}, 0) }

  /** The fleets some run with faithful patches leads to. */
  ghost predicate Reachable(syntax: Syntax, f: Fleet) {
    exists start: Spec, actions: seq<Action> ::
      FaithfulRun(syntax, Start(start), actions) && f == Run(syntax, Start(start), actions)
  }

  lemma ReachableIsTruthful(syntax: Syntax, f: Fleet)
    requires Reachable(syntax, f)
    ensures AllTruthful(syntax, f)
  {
    var start: Spec, actions: seq<Action> :|
      FaithfulRun(syntax, Start(start), actions) && f == Run(syntax, Start(start), actions);
    RunKeepsStamps(syntax, Start(start), actions);
  }

  /** No hidden edit. Whichever generation stamped a group, however stale the reads of the migrations,
      and whichever groups of its name their patches landed on, as long as those were faithful: a stamp
      of a known generation that matches the current spec proves the group was built alike. A group
      built now for the same claim would carry the very labels it carries. */
  lemma NoHiddenEdit(syntax: Syntax, f: Fleet, name: string, claimLabels: Labels)
    requires Reachable(syntax, f) && name in f.groups && f.groups[name].stamp.Some?
    requires GenerationOf(f.groups[name].stamp.value.version) != Foreign
    requires !IsDrifted(syntax, f.current, f.groups[name].stamp)
    ensures Normal(syntax, f.current) == Normal(syntax, f.groups[name].spec)
    ensures Payload(syntax, claimLabels, f.current) == Payload(syntax, claimLabels, f.groups[name].spec)
  {
    ReachableIsTruthful(syntax, f);
    var g := f.groups[name];
    MatchMeans(syntax, g.stamp.value.version, g.spec, f.current);
    NormalDecidesPayload(syntax, f.current, g.spec, claimLabels);
  }

  /** What IsDrifted answers of every reachable group, exactly: a v3 stamp drifts when what is delivered
      changed; an older one when any label changed, or a field it did not have is set; a foreign stamp
      or none, never. */
  lemma DriftMeans(syntax: Syntax, f: Fleet, name: string)
    requires Reachable(syntax, f) && name in f.groups
    ensures var g := f.groups[name];
      IsDrifted(syntax, f.current, g.stamp) <==>
        && g.stamp.Some?
        && match GenerationOf(g.stamp.value.version) {
             case V3 => Normal(syntax, f.current) != Normal(syntax, g.spec)
             case Foreign => false
             case _ => !SameLabels(f.current, g.spec) || f.current.later != map[]
           }
  {
    ReachableIsTruthful(syntax, f);
    var g := f.groups[name];
    if g.stamp.Some? && GenerationOf(g.stamp.value.version) != Foreign {
      MatchMeans(syntax, g.stamp.value.version, g.spec, f.current);
    }
  }

  /** Whatever spec the pass read, the stamp it leaves on the group it read describes what that group
      was built from. */
  lemma RestampIsHonest(syntax: Syntax, g: Built, view: Stamp, seen: Spec)
    requires Honest(syntax, g.spec, view) && Truthful(syntax, g) && Restamps(syntax, seen, view)
    requires g.stamp.Some? && (g.stamp.value.version != CURRENT ==> g.stamp.value == view)
    ensures var restamped := Restamped(view, Stamped(HashV3(syntax, seen)), g.stamp);
            && restamped.Some? && Honest(syntax, g.spec, restamped.value)
            && GenerationOf(restamped.value.version) == V3
  {
    MatchMeans(syntax, view.version, g.spec, seen);
  }

  /** What re-stamping changes. At the moment the pass wrote from the spec in force, nothing: both stamps
      say "not drifted". At any spec, the new stamp answers exactly whether what is delivered changed;
      it differs from the older stamp's answer only on a spec that delivers what the group was built
      with and yet has other labels, so it never hides an edit. */
  lemma RestampingHidesNothing(syntax: Syntax, built: Spec, view: Stamp, seen: Spec, current: Spec)
    requires Honest(syntax, built, view) && Restamps(syntax, seen, view)
    ensures var restamped := Restamped(view, Stamped(HashV3(syntax, seen)), Some(view));
      && (IsDrifted(syntax, current, restamped) <==> Normal(syntax, current) != Normal(syntax, built))
      && (current == seen ==> !IsDrifted(syntax, current, restamped) && !IsDrifted(syntax, current, Some(view)))
      && (IsDrifted(syntax, current, restamped) ==> IsDrifted(syntax, current, Some(view)))
      && (IsDrifted(syntax, current, Some(view)) && !IsDrifted(syntax, current, restamped) <==>
            Normal(syntax, current) == Normal(syntax, built) && !SameLabels(current, built))
  {
    MatchMeans(syntax, view.version, built, seen);
    MatchMeans(syntax, view.version, built, current);
    MatchMeans(syntax, CURRENT, built, current);
  }

  /** What an unfaithful patch costs: landed on a group re-created meanwhile from a spec that delivers
      other labels, a hash computed for the first group hides every edit back to what that one was built
      with, and drifts the group against its own spec. */
  lemma PatchingAnotherGroupLies(syntax: Syntax, first: Spec, view: Stamp, seen: Spec, g: Built)
    requires Honest(syntax, first, view) && Restamps(syntax, seen, view)
    requires Stamped(HashV3(syntax, seen)) != view.hash && !Faithful(syntax, first, view, seen, g)
    ensures var patched := Restamped(view, Stamped(HashV3(syntax, seen)), g.stamp);
            !IsDrifted(syntax, first, patched) && IsDrifted(syntax, g.spec, patched)
  {
    MatchMeans(syntax, view.version, first, seen);
    MatchMeans(syntax, CURRENT, first, first);
    MatchMeans(syntax, CURRENT, first, g.spec);
  }

  /** It does happen: a group of a name is launched, removed, and launched again from an edited class,
      and then the patch of a pass that read the first one arrives. */
  lemma ALateArrivalLies(syntax: Syntax, name: string, first: Spec, second: Spec)
    requires first.later == map[] && Normal(syntax, first) != Normal(syntax, second)
    requires Stamped(HashV3(syntax, first)) != Stamped(StampedBy(syntax, V2, first))
    ensures var view := View(name, 1, first, Stamp("v2", Stamped(StampedBy(syntax, V2, first))));
            var before := [Launch(name, V2, None), Remove(name), Edit(second), Launch(name, V3, None)];
            var f := Run(syntax, Start(first), before);
            && FaithfulRun(syntax, Start(first), before)
            && Lands(syntax, f, view, first)
            && !AllTruthful(syntax, Apply(syntax, f, Migrate(view, first)))
  {
    var view := View(name, 1, first, Stamp("v2", Stamped(StampedBy(syntax, V2, first))));
    RelaunchRuns(syntax, name, first, second);
    var g := Launched(syntax, 2, second, V3, None);
    var f := Put(Fleet(second, map[], {view}, 2), name, g);
    MatchMeans(syntax, "v2", first, first);
    PatchTellsTheTruth(syntax, first, view.stamp, first, g);
    assert Apply(syntax, f, Migrate(view, first)).groups[name] == Patched(syntax, g, view, first);
  }

  lemma RelaunchRuns(syntax: Syntax, name: string, first: Spec, second: Spec)
    requires first.later == map[]
    ensures var view := View(name, 1, first, Stamp("v2", Stamped(StampedBy(syntax, V2, first))));
            var actions := [Launch(name, V2, None), Remove(name), Edit(second), Launch(name, V3, None)];
            var f := Put(Fleet(second, map[], {view}, 2), name, Launched(syntax, 2, second, V3, None));
            Run(syntax, Start(first), actions) == f && FaithfulRun(syntax, Start(first), actions)
  {
    var view := View(name, 1, first, Stamp("v2", Stamped(StampedBy(syntax, V2, first))));
    var f1 := Fleet(first, map[name := Built(1, first, Some(view.stamp))], {view}, 1);
    var f2 := Fleet(first, map[], {view}, 1);
    var f3 := Fleet(second, map[], {view}, 1);
    var f4 := Put(Fleet(second, map[], {view}, 2), name, Launched(syntax, 2, second, V3, None));
    var actions := [Launch(name, V2, None), Remove(name), Edit(second), Launch(name, V3, None)];
    assert Apply(syntax, Start(first), actions[0]) == f1;
    assert Apply(syntax, f1, actions[1]) == f2 by { assert f1.groups - {name} == map[]; }
    RunsThrough(syntax, Start(first), f1, f2, f3, f4, actions);
  }

  lemma RunsThrough(syntax: Syntax, f: Fleet, f1: Fleet, f2: Fleet, f3: Fleet, f4: Fleet, actions: seq<Action>)
    requires |actions| == 4 && (forall a <- actions :: !a.Migrate?)
    requires Apply(syntax, f, actions[0]) == f1 && Apply(syntax, f1, actions[1]) == f2
    requires Apply(syntax, f2, actions[2]) == f3 && Apply(syntax, f3, actions[3]) == f4
    ensures Run(syntax, f, actions) == f4 && FaithfulRun(syntax, f, actions)
  {
    assert actions[1..][0] == actions[1] && actions[1..][1..] == actions[2..];
    assert actions[2..][0] == actions[2] && actions[2..][1..] == actions[3..];
    assert actions[3..] == [actions[3]];
    assert Run(syntax, f3, actions[3..]) == f4 && FaithfulRun(syntax, f3, actions[3..]);
    assert Run(syntax, f2, actions[2..]) == f4 && FaithfulRun(syntax, f2, actions[2..]);
    assert Run(syntax, f1, actions[1..]) == f4 && FaithfulRun(syntax, f1, actions[1..]);
  }
}
