/** The provider-ID controller (pkg/controllers/providerid/controller.go): a cached read of a Node,
    an uncached list of its group's Nodes, and a patch. Nodes join and leave between any two of these;
    the cached view may be of any age. A provider ID names a group, so it must be on one Node only. */
module ProviderIds {
  import opened Base
  import opened NodeClaimApi

  /** A Node: its group label, its provider ID ("" until stamped), and whether it carries
      karpenter.sh/nodepool. */
  datatype Node = Node(group: Option<string>, id: string, pooled: bool)

  /** A reconcile under way: it read the cache, or listed the group and is about to patch. */
  datatype Job =
    | Looking(name: string, view: Node)
    | Stamping(name: string, group: string)
    | Stripping(name: string)

  datatype State = State(nodes: map<string, Node>, jobs: map<nat, Job>)

  datatype Action =
    | Join(name: string, group: Option<string>, pooled: bool)
    | Leave(name: string)
    | Relabel(name: string, group: Option<string>)
    | Start(worker: nat, name: string, view: Node, managed: bool)
    | List(worker: nat)
    | Patch(worker: nat)
    | GiveUp(worker: nat)

  /** Some other Node of the group carries the group's ID. */
  predicate Taken(nodes: map<string, Node>, name: string, group: string) {
    exists other :: other in nodes && other != name && nodes[other].group == Some(group)
        && nodes[other].id == ProviderID(group)
  }

  /** What the list decides: the patch to send, if any. */
  function Decide(nodes: map<string, Node>, name: string, view: Node): Option<Job>
    requires view.group.Some?
  {
    if !Taken(nodes, name, view.group.value) then Some(Stamping(name, view.group.value))
    else if view.pooled then Some(Stripping(name))
    else None
  }

  /** One step, with so many concurrent reconciles allowed; a step that is not enabled changes nothing. */
  function Apply(workers: nat, s: State, a: Action): State {
    match a
    case Join(name, group, pooled) =>
      if name in s.nodes then s else s.(nodes := s.nodes[name := Node(group, "", pooled)])
    case Leave(name) => s.(nodes := s.nodes - {name})
    case Relabel(name, group) =>
      if name in s.nodes then s.(nodes := s.nodes[name := s.nodes[name].(group := group)]) else s
    case Start(w, name, view, managed) =>
      if w >= workers || w in s.jobs || view.id != "" || view.group.None? || !managed then s
      else s.(jobs := s.jobs[w := Looking(name, view)])
    case List(w) =>
      if w in s.jobs && s.jobs[w].Looking? && s.jobs[w].view.group.Some? then
        var next := Decide(s.nodes, s.jobs[w].name, s.jobs[w].view);
        if next.Some? then s.(jobs := s.jobs[w := next.value]) else s.(jobs := s.jobs - {w})
      else s
    case Patch(w) =>
      if w in s.jobs && !s.jobs[w].Looking? then State(Patched(s.nodes, s.jobs[w]), s.jobs - {w}) else s
    case GiveUp(w) => s.(jobs := s.jobs - {w})
  }

  /** A merge patch changes its one field of the Node, if the Node is still there. */
  function Patched(nodes: map<string, Node>, job: Job): map<string, Node>
    requires !job.Looking?
  {
    if job.name !in nodes then nodes
    else match job
      case Stamping(name, group) => nodes[name := nodes[name].(id := ProviderID(group))]
      case Stripping(name) => nodes[name := nodes[name].(pooled := false)]
  }

  function Run(workers: nat, s: State, actions: seq<Action>): State
    decreases |actions|
  {
    if actions == [] then s else Run(workers, Apply(workers, s, actions[0]), actions[1..])
  }

  /** Group labels are stable: a Node of a given name only ever carries one, in the cache too. */
  predicate Stable(home: string -> Option<string>, a: Action) {
    match a
    case Join(name, group, _) => group == home(name)
    case Relabel(_, _) => false
    case Start(_, name, view, _) => view.group == home(name)
    case _ => true
  }

  predicate Unique(nodes: map<string, Node>) {
    forall m, n | m in nodes && n in nodes && nodes[m].id != "" && nodes[m].id == nodes[n].id :: m == n
  }

  /** Every ID is that of the Node's own group. */
  predicate AtHome(home: string -> Option<string>, nodes: map<string, Node>) {
    forall n | n in nodes ::
      && nodes[n].group == home(n)
      && (nodes[n].id != "" ==> home(n).Some? && nodes[n].id == ProviderID(home(n).value))
  }

  predicate Sound(home: string -> Option<string>, nodes: map<string, Node>, job: Job) {
    match job
    case Looking(name, view) => view.group == home(name) && view.group.Some?
    case Stamping(name, group) => home(name) == Some(group) && !Taken(nodes, name, group)
    case Stripping(name) => name in nodes ==> nodes[name].id == ""
  }

  /** What one serialised worker keeps. */
  predicate Inv(home: string -> Option<string>, s: State) {
    && Unique(s.nodes) && AtHome(home, s.nodes)
    && forall w | w in s.jobs :: w == 0 && Sound(home, s.nodes, s.jobs[w])
  }

  /** A listing tells the truth when the patch is decided; joins and departures do not undo it. */
  lemma DecisionIsSound(home: string -> Option<string>, nodes: map<string, Node>, name: string, view: Node)
    requires Unique(nodes) && AtHome(home, nodes) && view.group == home(name) && view.group.Some?
    ensures var next := Decide(nodes, name, view); next.Some? ==> Sound(home, nodes, next.value)
  {
  }

  lemma PatchKeepsInv(home: string -> Option<string>, nodes: map<string, Node>, job: Job)
    requires Unique(nodes) && AtHome(home, nodes) && !job.Looking? && Sound(home, nodes, job)
    ensures Unique(Patched(nodes, job)) && AtHome(home, Patched(nodes, job))
  {
    if job.Stamping? && job.name in nodes {
      forall other | other in nodes && nodes[other].id == ProviderID(job.group) ensures other == job.name {
        var g := home(other).value;
        ProviderIDRoundTrip(g, "");
        assert ProviderID(g)[|PROVIDER_ID_PREFIX|..] == g && ProviderID(job.group)[|PROVIDER_ID_PREFIX|..] == job.group;
      }
    }
  }

  lemma StepKeepsInv(home: string -> Option<string>, s: State, a: Action)
    requires Inv(home, s) && Stable(home, a)
    ensures Inv(home, Apply(1, s, a))
  {
    match a
    case List(w) =>
      if w in s.jobs && s.jobs[w].Looking? { DecisionIsSound(home, s.nodes, s.jobs[w].name, s.jobs[w].view); }
    case Patch(w) =>
      if w in s.jobs && !s.jobs[w].Looking? { PatchKeepsInv(home, s.nodes, s.jobs[w]); }
    case _ =>
  }

  /** Provider-ID uniqueness. If reconciles are serialised and group labels are stable, then whatever
      the cached views, and whatever joins or leaves between the list and the patch, in every reachable
      state no two Nodes carry one provider ID, and each that carries one carries its own group's. */
  lemma {:induction false} ProviderIDsStayUnique(home: string -> Option<string>, s: State, actions: seq<Action>)
    requires Inv(home, s) && forall a <- actions :: Stable(home, a)
    ensures Inv(home, Run(1, s, actions))
    decreases |actions|
  {
    if actions != [] {
      assert actions[0] in actions;
      StepKeepsInv(home, s, actions[0]);
      ProviderIDsStayUnique(home, Apply(1, s, actions[0]), actions[1..]);
    }
  }

  /** The Node that carries an ID keeps it, and keeps karpenter.sh/nodepool, for as long as it exists:
      a refusal only ever strips a Node without an ID. */
  lemma {:induction false} CarrierStands(home: string -> Option<string>, s: State, actions: seq<Action>, n: string)
    requires Inv(home, s) && (forall a <- actions :: Stable(home, a) && a != Leave(n))
    requires n in s.nodes && s.nodes[n].id != ""
    ensures var t := Run(1, s, actions); n in t.nodes && t.nodes[n] == s.nodes[n]
    decreases |actions|
  {
    if actions != [] {
      assert actions[0] in actions;
      StepKeepsInv(home, s, actions[0]);
      CarrierStands(home, Apply(1, s, actions[0]), actions[1..], n);
    }
  }

  /** The Nodes after an undisturbed reconcile of an up-to-date view. */
  function Reconciled(nodes: map<string, Node>, name: string): map<string, Node>
    requires name in nodes && nodes[name].group.Some?
  {
    var decided := Decide(nodes, name, nodes[name]);
    if decided.None? then nodes else Patched(nodes, decided.value)
  }

  lemma ReconcileRuns(workers: nat, s: State, name: string)
    requires workers > 0 && s.jobs == map[] && name in s.nodes && s.nodes[name].group.Some? && s.nodes[name].id == ""
    ensures Run(workers, s, [Start(0, name, s.nodes[name], true), List(0), Patch(0)]) ==
        State(Reconciled(s.nodes, name), map[])
  {
    var s1 := s.(jobs := map[0 := Looking(name, s.nodes[name])]);
    var s2 := Apply(workers, s1, List(0));
    var t := Apply(workers, s2, Patch(0));
    calc {
      Run(workers, s, [Start(0, name, s.nodes[name], true), List(0), Patch(0)]);
      Run(workers, s1, [List(0), Patch(0)]);
      Run(workers, s2, [Patch(0)]);
      Run(workers, t, []);
      t;
    }
  }

  /** It stamps this Node, or strips it, and touches no other. */
  lemma ReconciledIs(nodes: map<string, Node>, name: string, g: string)
    requires name in nodes && nodes[name].group == Some(g)
    ensures Reconciled(nodes, name) ==
      nodes[name := if Taken(nodes, name, g) then nodes[name].(pooled := false)
                    else nodes[name].(id := "clevercloud://" + g)]
  {
  }

  /** An undisturbed reconcile of an up-to-date view leaves exactly one carrier of the group's ID:
      this Node if there was none, the one there was otherwise. */
  lemma ReconcileSettlesTheGroup(home: string -> Option<string>, s: State, name: string, g: string)
    requires Inv(home, s) && s.jobs == map[] && name in s.nodes && s.nodes[name].group == Some(g)
        && s.nodes[name].id == ""
    ensures var nodes := Run(1, s, [Start(0, name, s.nodes[name], true), List(0), Patch(0)]).nodes;
            && name in nodes
            && nodes[name] == (if Taken(s.nodes, name, g) then s.nodes[name].(pooled := false)
                               else s.nodes[name].(id := "clevercloud://" + g))
            && nodes.Keys == s.nodes.Keys && (forall n | n in nodes && n != name :: nodes[n] == s.nodes[n])
            && Unique(nodes)
            && exists carrier :: carrier in nodes && nodes[carrier].id == ProviderID(g)
  {
    ReconcileRuns(1, s, name);
    ReconciledIs(s.nodes, name, g);
    DecisionIsSound(home, s.nodes, name, s.nodes[name]);
    var decided := Decide(s.nodes, name, s.nodes[name]);
    if decided.Some? { PatchKeepsInv(home, s.nodes, decided.value); }
    if Taken(s.nodes, name, g) {
      var other :| other in s.nodes && other != name && s.nodes[other].group == Some(g)
          && s.nodes[other].id == ProviderID(g);
      assert Reconciled(s.nodes, name)[other] == s.nodes[other];
    } else {
      assert Reconciled(s.nodes, name)[name].id == ProviderID(g);
    }
  }

  /** Without either hypothesis, exactly: a stamp that lands keeps the IDs unique when, at that moment, no
      other Node carries the one it writes. */
  predicate Clear(s: State, a: Action) {
    a.Patch? && a.worker in s.jobs && s.jobs[a.worker].Stamping? && s.jobs[a.worker].name in s.nodes ==>
      forall other | other in s.nodes && other != s.jobs[a.worker].name ::
        s.nodes[other].id != ProviderID(s.jobs[a.worker].group)
  }

  predicate ClearRun(workers: nat, s: State, actions: seq<Action>)
    decreases |actions|
  {
    actions == [] || (Clear(s, actions[0]) && ClearRun(workers, Apply(workers, s, actions[0]), actions[1..]))
  }

  predicate UniqueThroughout(workers: nat, s: State, actions: seq<Action>)
    decreases |actions|
  {
    Unique(s.nodes) && (actions == [] || UniqueThroughout(workers, Apply(workers, s, actions[0]), actions[1..]))
  }

  lemma StepIsClear(workers: nat, s: State, a: Action)
    requires Unique(s.nodes)
    ensures Unique(Apply(workers, s, a).nodes) <==> Clear(s, a)
  {
    if a.Patch? && a.worker in s.jobs && s.jobs[a.worker].Stamping? {
      var t := Apply(workers, s, a);
      var name, id := s.jobs[a.worker].name, ProviderID(s.jobs[a.worker].group);
      if name in s.nodes {
        assert t.nodes[name].id == id != "";
        assert forall other | other in s.nodes && other != name :: t.nodes[other] == s.nodes[other];
      }
    }
  }

  /** With any number of workers, any labels and any cached views, the IDs are unique at every point of a
      run if and only if every stamp of it is clear when it lands. */
  lemma {:induction false} UniqueIffClear(workers: nat, s: State, actions: seq<Action>)
    requires Unique(s.nodes)
    ensures UniqueThroughout(workers, s, actions) <==> ClearRun(workers, s, actions)
    decreases |actions|
  {
    if actions == [] {
    } else {
      StepIsClear(workers, s, actions[0]);
      if Clear(s, actions[0]) { UniqueIffClear(workers, Apply(workers, s, actions[0]), actions[1..]); }
    }
  }

  /** Where the listing is not blind: every other Node that carries the group's ID has the group's label. */
  predicate Visible(nodes: map<string, Node>, name: string, group: string) {
    forall other | other in nodes && other != name && nodes[other].id == ProviderID(group) ::
      nodes[other].group == Some(group)
  }

  predicate SeesAll(s: State, a: Action) {
    a.List? && a.worker in s.jobs && s.jobs[a.worker].Looking? && s.jobs[a.worker].view.group.Some? ==>
      Visible(s.nodes, s.jobs[a.worker].name, s.jobs[a.worker].view.group.value)
  }

  predicate SeesThroughout(workers: nat, s: State, actions: seq<Action>)
    decreases |actions|
  {
    actions == [] || (SeesAll(s, actions[0]) && SeesThroughout(workers, Apply(workers, s, actions[0]), actions[1..]))
  }

  /** The ID a pending stamp is about to write is on no other Node. */
  predicate Pending(s: State) {
    forall w | w in s.jobs :: w == 0 && (s.jobs[w].Stamping? ==>
      forall other | other in s.nodes && other != s.jobs[w].name :: s.nodes[other].id != ProviderID(s.jobs[w].group))
  }

  lemma SightedStep(s: State, a: Action)
    requires Unique(s.nodes) && Pending(s) && SeesAll(s, a)
    ensures var t := Apply(1, s, a); Unique(t.nodes) && Pending(t)
  {
    StepIsClear(1, s, a);
  }

  /** With one worker, whatever labels are rewritten and whatever the cached views: the IDs are unique
      throughout any run in which no list was blind to a carrier of the ID it was made for. */
  lemma {:induction false} SightedRunsStayUnique(s: State, actions: seq<Action>)
    requires Unique(s.nodes) && Pending(s) && SeesThroughout(1, s, actions)
    ensures UniqueThroughout(1, s, actions)
    decreases |actions|
  {
    if actions == [] {
    } else {
      SightedStep(s, actions[0]);
      SightedRunsStayUnique(Apply(1, s, actions[0]), actions[1..]);
    }
  }

  /** And exactly then: an undisturbed reconcile that stamps keeps them unique if and only if its list saw
      every other carrier. */
  lemma BlindListCollides(nodes: map<string, Node>, name: string, group: string)
    requires Unique(nodes) && name in nodes && nodes[name].group == Some(group) && !Taken(nodes, name, group)
    ensures Unique(Reconciled(nodes, name)) <==> Visible(nodes, name, group)
  {
    StepIsClear(1, State(nodes, map[0 := Stamping(name, group)]), Patch(0));
  }

  /** Two jobs of two Nodes of one group. */
  function Both(nodes: map<string, Node>, first: Job, second: Job): State { State(nodes, map[0 := first, 1 := second]) }

  /** Neither hypothesis can be dropped. Two reconciles at a time: each lists before the other patches. */
  lemma TwoWorkersCollide(g: string, a: string, b: string)
    requires a != b
    ensures var view := Node(Some(g), "", false);
            var nodes := Run(2, State(map[a := view, b := view], map[]),
              [Start(0, a, view, true), Start(1, b, view, true)]
                  + ([List(0), List(1)] + ([Patch(0), Patch(1)] + []))).nodes;
            a in nodes && b in nodes && nodes[a].id == ProviderID(g) == nodes[b].id
  {
    var view := Node(Some(g), "", false);
    var nodes := map[a := view, b := view];
    var lists, patches := [List(0), List(1)] + ([Patch(0), Patch(1)] + []), [Patch(0), Patch(1)] + [];
    RunTwo(2, State(nodes, map[]), Start(0, a, view, true), Start(1, b, view, true), lists);
    RunTwo(2, Both(nodes, Looking(a, view), Looking(b, view)), List(0), List(1), patches);
    BothList(nodes, view, g, a, b);
    RunTwo(2, Both(nodes, Stamping(a, g), Stamping(b, g)), Patch(0), Patch(1), []);
    BothPatch(nodes, g, a, b);
  }

  lemma BothList(nodes: map<string, Node>, view: Node, g: string, a: string, b: string)
    requires view.group == Some(g) && !Taken(nodes, a, g) && !Taken(nodes, b, g)
    ensures Apply(2, Apply(2, Both(nodes, Looking(a, view), Looking(b, view)), List(0)), List(1)) ==
        Both(nodes, Stamping(a, g), Stamping(b, g))
  {
  }

  lemma BothPatch(nodes: map<string, Node>, g: string, a: string, b: string)
    requires a != b && a in nodes && b in nodes
    ensures var t := Apply(2, Apply(2, Both(nodes, Stamping(a, g), Stamping(b, g)), Patch(0)), Patch(1)).nodes;
            a in t && b in t && t[a].id == ProviderID(g) == t[b].id
  {
  }

  lemma RunTwo(workers: nat, s: State, a: Action, b: Action, rest: seq<Action>)
    ensures Run(workers, s, [a, b] + rest) == Run(workers, Apply(workers, Apply(workers, s, a), b), rest)
  {
    assert ([a, b] + rest)[1..] == [b] + rest && ([b] + rest)[1..] == rest;
  }

  /** One worker, but a carrier whose group label is rewritten: the list no longer returns it. */
  lemma RelabelledCarrierCollides(g: string, h: string, a: string, b: string)
    requires a != b && g != h
    ensures var view := Node(Some(g), "", false);
            var nodes := Run(1, State(map[a := view.(id := ProviderID(g)), b := view], map[]),
              [Relabel(a, Some(h)), Start(0, b, view, true), List(0), Patch(0)]).nodes;
            a in nodes && b in nodes && nodes[a].id == ProviderID(g) == nodes[b].id
  {
    var view := Node(Some(g), "", false);
    var s := State(map[a := view.(id := ProviderID(g)), b := view], map[]);
    var s1 := Apply(1, s, Relabel(a, Some(h)));
    calc {
      Run(1, s, [Relabel(a, Some(h)), Start(0, b, view, true), List(0), Patch(0)]);
      Run(1, s1, [Start(0, b, view, true), List(0), Patch(0)]);
      { ReconcileRuns(1, s1, b); }
      State(Reconciled(s1.nodes, b), map[]);
    }
  }

  datatype Sibling = Sibling(name: string, node: Node)

  /** An uncached list by label returns exactly the group's Nodes. */
  ghost predicate Lists(siblings: seq<Sibling>, nodes: map<string, Node>, group: string) {
    && (forall i | 0 <= i < |siblings| ::
          && siblings[i].name in nodes && nodes[siblings[i].name] == siblings[i].node
          && siblings[i].node.group == Some(group))
    && (forall n | n in nodes && nodes[n].group == Some(group) ::
          exists i :: 0 <= i < |siblings| && siblings[i].name == n)
  }

  class Controller {
    var warnedResized: set<string>
    var warnedStripped: set<string>

    constructor ()
      ensures warnedResized == {} && warnedStripped == {}
    {
      warnedResized, warnedStripped := {}, {};
    }

    /** One reconcile: the patch it sends is the machine's decision on what the API server holds, and
        it sends none without an ID-less cached Node of a managed group and a list. A Node that is
        stamped leaves the dedup sets even when its patch fails; one is recorded as stripped only
        when its patch went through. */
    method Reconcile(name: string, cached: Option<Node>, managed: Option<bool>, siblings: Option<seq<Sibling>>,
        patched: bool, ghost nodes: map<string, Node>)
      returns (sent: Option<Job>)
      requires siblings.Some? && cached.Some? && cached.value.group.Some? ==>
          Lists(siblings.value, nodes, cached.value.group.value)
      modifies this
      ensures var view := cached.Some? && cached.value.id == "" && cached.value.group.Some?;
              var acts := view && managed == Some(true) && siblings.Some?;
              && sent == (if acts then Decide(nodes, name, cached.value) else None)
              && warnedResized == (if !acts then old(warnedResized)
                                   else if Taken(nodes, name, cached.value.group.value) then old(warnedResized) + {name}
                                   else old(warnedResized) - {name})
              && warnedStripped == (if sent == Some(Stripping(name)) && patched then old(warnedStripped) + {name}
                                    else if sent.Some? && sent.value.Stamping? then old(warnedStripped) - {name}
                                    else old(warnedStripped))
    {
      if cached.None? || cached.value.id != "" || cached.value.group.None? { return None; }
      var view, group := cached.value, cached.value.group.value;
      if managed != Some(true) || siblings.None? { return None; }
      var providerID := ProviderID(group);
      for i := 0 to |siblings.value|
        invariant forall j | 0 <= j < i :: siblings.value[j].name == name || siblings.value[j].node.id != providerID
      {
        if siblings.value[i].name == name || siblings.value[i].node.id != providerID { continue; }
        assert Taken(nodes, name, group);
        warnedResized := warnedResized + {name};
        if !view.pooled { return None; }
        if patched { warnedStripped := warnedStripped + {name}; }
        return Some(Stripping(name));
      }
      warnedResized := warnedResized - {name};
      warnedStripped := warnedStripped - {name};
      return Some(Stamping(name, group));
    }
  }
}
