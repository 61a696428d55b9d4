/** NodeClass labels, what of them reaches a node, and the generations of their drift hash
    (pkg/apis/v1alpha1/labels.go and clevernodeclass.go; nodeGroupLabels of nodegroup.go). */
module NodeClasses {
  import opened Base
  import opened NodeGroupApi

  type Labels = map<string, string>

  /** Kubernetes' own label syntax (IsQualifiedName of the key, IsValidLabelValue of the value).
      Everything here holds for any such rule. */
  type Syntax = (string, string) -> bool

  predicate Contains(s: string, part: string) {
    HasPrefix(s, part) || (s != "" && Contains(s[1..], part))
  }

  lemma {:induction false} ContainsMeans(s: string, part: string)
    ensures Contains(s, part) <==> exists i :: 0 <= i <= |s| && part <= s[i..]
    decreases |s|
  {
    if HasPrefix(s, part) {
      assert s[0..] == s;
    } else if s == "" {
      assert forall i | 0 <= i <= |s| :: s[i..] == s;
    } else {
      ContainsMeans(s[1..], part);
      assert forall i | 1 <= i <= |s| :: s[i..] == s[1..][i - 1..];
      if Contains(s[1..], part) {
        var i :| 0 <= i <= |s[1..]| && part <= s[1..][i..];
        assert part <= s[i + 1..];
      }
      if exists i :: 0 <= i <= |s| && part <= s[i..] {
        var i :| 0 <= i <= |s| && part <= s[i..];
        assert s[0..] == s && part <= s[1..][i - 1..];
      }
    }
  }

  predicate InKubernetesIODomain(key: string) { Contains(key, "kubernetes.io/") }

  predicate InKarpenterDomain(key: string) {
    HasPrefix(key, "karpenter.sh/") || Contains(key, ".karpenter.sh/")
  }

  /** ValidateNodeClassLabel accepts the label: it is delivered to nodes. */
  predicate Delivered(syntax: Syntax, key: string, value: string) {
    && !InKubernetesIODomain(key)
    && !HasPrefix(key, "clever-cloud.com/")
    && !InKarpenterDomain(key)
    && syntax(key, value)
  }

  /** A rejected label v0.12.0 accepted, in a domain the payload no longer carries. */
  predicate IsLegacy(key: string, value: string) {
    && (InKubernetesIODomain(key) || InKarpenterDomain(key))
    && !HasPrefix(key, "kubernetes.io/") && !HasPrefix(key, "node.kubernetes.io/")
        && !HasPrefix(key, "clever-cloud.com/")
    && |value| <= 63
  }

  /** The text occurs somewhere in the key. */
  predicate Occurs(key: string, part: string) { exists i :: 0 <= i <= |key| && part <= key[i..] }

  /** Which labels reach a node, and which rejected ones are tolerated, by what the key and value are. */
  lemma LabelRule(syntax: Syntax, key: string, value: string)
    ensures Delivered(syntax, key, value) <==>
      && syntax(key, value)
      && !Occurs(key, "kubernetes.io/") && !("clever-cloud.com/" <= key)
      && !("karpenter.sh/" <= key) && !Occurs(key, ".karpenter.sh/")
    ensures IsLegacy(key, value) <==>
      && (Occurs(key, "kubernetes.io/") || "karpenter.sh/" <= key || Occurs(key, ".karpenter.sh/"))
      && !("kubernetes.io/" <= key) && !("node.kubernetes.io/" <= key) && !("clever-cloud.com/" <= key)
      && |value| <= 63
  {
    ContainsMeans(key, "kubernetes.io/");
    ContainsMeans(key, ".karpenter.sh/");
  }

  /** A NodeClass spec: its labels (None for an absent map) and the fields later generations add,
      those that are not zero. */
  datatype Spec = Spec(labels: Option<Labels>, later: map<string, string>)

  function LabelsOf(spec: Spec): Labels {
    if spec.labels.Some? then spec.labels.value else map[]
  }

  function DeliveredOf(syntax: Syntax, labels: Labels): Labels {
    map k | k in labels && Delivered(syntax, k, labels[k]) :: labels[k]
  }

  function NilIfEmpty(labels: Labels): Option<Labels> {
    if labels == map[] then None else Some(labels)
  }

  /** The spec reduced to what it contributes to a NodeGroup. */
  function Normal(syntax: Syntax, spec: Spec): Spec {
    Spec(NilIfEmpty(DeliveredOf(syntax, LabelsOf(spec))), spec.later)
  }

  /** normalised: the filtering loop, in whatever order the map is walked. */
  method Normalised(syntax: Syntax, spec: Spec) returns (n: Spec)
    ensures n == Normal(syntax, spec)
  {
    var labels := AddDelivered(syntax, LabelsOf(spec), map[]);
    assert labels == DeliveredOf(syntax, LabelsOf(spec));
    n := Spec(if labels == map[] then None else Some(labels), spec.later);
  }

  method AddDelivered(syntax: Syntax, from: Labels, to: Labels) returns (labels: Labels)
    ensures labels == to + DeliveredOf(syntax, from)
  {
    labels := to;
    var rest := from.Keys;
    while rest != {}
      invariant rest <= from.Keys
      invariant forall k :: k in labels <==> k in to || (k in from && k !in rest && Delivered(syntax, k, from[k]))
      invariant forall k | k in labels ::
          labels[k] == if k in from && k !in rest && Delivered(syntax, k, from[k]) then from[k] else to[k]
    {
      var k :| k in rest;
      rest := rest - {k};
      if Delivered(syntax, k, from[k]) { labels := labels[k := from[k]]; }
    }
  }

  /** The labels a NodeGroup payload carries: the NodeClass's, overridden by the NodeClaim's. */
  function Payload(syntax: Syntax, claimLabels: Labels, spec: Spec): Labels {
    DeliveredOf(syntax, LabelsOf(spec)) + DeliveredOf(syntax, claimLabels)
  }

  /** Label by label: the claim's if it is delivered, else the class's if that is, else none. */
  lemma ClaimLabelWins(syntax: Syntax, claimLabels: Labels, spec: Spec, k: string)
    ensures var p := Payload(syntax, claimLabels, spec);
      if k in claimLabels && Delivered(syntax, k, claimLabels[k]) then k in p && p[k] == claimLabels[k]
      else if spec.labels.Some? && k in spec.labels.value && Delivered(syntax, k, spec.labels.value[k])
      then k in p && p[k] == spec.labels.value[k]
      else k !in p
  {
  }

  /** What normalising keeps: the delivered labels as they are, no map rather than an empty one, and every
      later field. */
  lemma NormalKeeps(syntax: Syntax, spec: Spec, k: string)
    ensures var n := Normal(syntax, spec);
      && n.later == spec.later && n.labels != Some(map[])
      && (n.labels.Some? && k in n.labels.value <==>
            spec.labels.Some? && k in spec.labels.value && Delivered(syntax, k, spec.labels.value[k]))
      && (n.labels.Some? && k in n.labels.value ==> n.labels.value[k] == spec.labels.value[k])
  {
    if spec.labels.Some? && k in spec.labels.value && Delivered(syntax, k, spec.labels.value[k]) {
      assert k in DeliveredOf(syntax, LabelsOf(spec));
    }
  }

  method NodeGroupLabels(syntax: Syntax, claimLabels: Labels, spec: Spec) returns (labels: Labels)
    ensures labels == Payload(syntax, claimLabels, spec)
    ensures forall k | k in labels :: Delivered(syntax, k, labels[k])
  {
    labels := AddDelivered(syntax, LabelsOf(spec), map[]);
    labels := AddDelivered(syntax, claimLabels, labels);
  }

  // ---------------------------------------------------------------- hash generations

  const CURRENT := "v3"

  datatype Generation = V1 | V2 | V3 | Foreign

  /** The generation a version annotation names; an absent or empty one means v1. */
  function GenerationOf(version: string): Generation {
    if version == CURRENT then V3
    else if version == "" || version == "v1" then V1
    else if version == "v2" then V2
    else Foreign
  }

  function HashV3(syntax: Syntax, spec: Spec): Digest {
    var n := Normal(syntax, spec);
    Digest(n.labels, n.later)
  }

  /** Every digest a frozen generation may have stamped for a configuration like this spec. */
  function FrozenHashes(generation: Generation, spec: Spec): seq<Digest> {
    match generation
    case V1 =>
      if LabelsOf(spec) == map[] then [Digest(None, map[]), Digest(Some(map[]), map[])]
      else [Digest(Some(LabelsOf(spec)), map[])]
    case V2 => [Digest(NilIfEmpty(LabelsOf(spec)), map[])]
    case _ => []
  }

  datatype Match = Match(matches: bool, known: bool)

  /** HashMatches: does a stamp of some generation still describe the spec? Frozen generations had
      labels only, so a normalised spec that sets anything else matches none of them. */
  function HashMatches(syntax: Syntax, spec: Spec, version: string, hash: Annotation): Match {
    match GenerationOf(version)
    case V3 => Match(hash == Stamped(HashV3(syntax, spec)), true)
    case Foreign => Match(false, false)
    case g =>
      if Normal(syntax, spec).later != map[] then Match(false, true)
      else Match(hash.Stamped? && hash.digest in FrozenHashes(g, spec), true)
  }

  /** The versions this controller can compute: an absent or empty annotation means v1. */
  lemma KnownVersions(syntax: Syntax, spec: Spec, version: string, hash: Annotation)
    ensures HashMatches(syntax, spec, version, hash).known <==> version in {"", "v1", "v2", "v3"}
    ensures GenerationOf("") == GenerationOf("v1") == V1 && GenerationOf("v2") == V2 && GenerationOf("v3") == V3
  {
  }

  /** What a controller of a generation stamps on a group it builds. */
  function StampedBy(syntax: Syntax, generation: Generation, spec: Spec): Digest
    requires generation != Foreign
  {
    match generation
    case V1 => Digest(spec.labels, map[])
    case V2 => Digest(NilIfEmpty(LabelsOf(spec)), map[])
    case _ => HashV3(syntax, spec)
  }

  /** What it builds the group from: the fields that generation could decode. */
  function DecodedBy(generation: Generation, spec: Spec): Spec {
    if generation == V1 || generation == V2 then spec.(later := map[]) else spec
  }

  /** Frozen generations tell specs apart by their labels, an absent map being an empty one. */
  predicate SameLabels(a: Spec, b: Spec) {
    LabelsOf(a) == LabelsOf(b)
  }

  /** What a match means, exactly, for each generation: v3 compares what is delivered; v1 and v2
      compare the raw labels, and no field they did not have may be set. */
  lemma MatchMeans(syntax: Syntax, version: string, built: Spec, current: Spec)
    requires GenerationOf(version) != Foreign
    requires built == DecodedBy(GenerationOf(version), built)
    ensures var m := HashMatches(syntax, current, version, Stamped(StampedBy(syntax, GenerationOf(version), built)));
      && m.known
      && (GenerationOf(version) == V3 ==> (m.matches <==> Normal(syntax, current) == Normal(syntax, built)))
      && (GenerationOf(version) != V3 ==> (m.matches <==> SameLabels(current, built) && current.later == map[]))
      && (m.matches ==> Normal(syntax, current) == Normal(syntax, built))
  {
  }

  /** Equal normal specs deliver equal payloads to the groups of any one claim. */
  lemma NormalDecidesPayload(syntax: Syntax, a: Spec, b: Spec, claimLabels: Labels)
    requires Normal(syntax, a) == Normal(syntax, b)
    ensures Payload(syntax, claimLabels, a) == Payload(syntax, claimLabels, b)
  {
  }
}
