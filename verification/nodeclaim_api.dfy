/** The NodeClaim object as the API server stores it, as far as this provider's controllers read it,
    and the provider ID that ties a claim and a Node to a group. UIDs and resource versions are
    numbers the API server hands out in increasing order. */
module NodeClaimApi {
  import opened Base

  /** `ours`: the claim's class reference names a CleverNodeClass. */
  datatype NodeClaim = NodeClaim(
    name: string, uid: nat, version: nat, ours: bool, terminating: bool, createdAt: int,
    launched: bool, registered: bool, providerID: string)

  const PROVIDER_ID_PREFIX := "clevercloud://"

  function ProviderID(group: string): string { PROVIDER_ID_PREFIX + group }

  function ParseProviderID(id: string): Option<string> {
    var n := |PROVIDER_ID_PREFIX|;
    if PROVIDER_ID_PREFIX <= id && id[n..] != "" then Some(id[n..]) else None
  }

  /** A provider ID names one group, and parsing gives that group back; only the IDs of named groups
      parse at all. */
  lemma ProviderIDRoundTrip(group: string, id: string)
    ensures ProviderID(group) == "clevercloud://" + group
    ensures ParseProviderID(ProviderID(group)) == (if group == "" then None else Some(group))
    ensures ParseProviderID(id) == Some(group) ==> id == ProviderID(group)
  {
    assert ProviderID(group)[|PROVIDER_ID_PREFIX|..] == group;
    if ParseProviderID(id) == Some(group) {
      assert id == PROVIDER_ID_PREFIX + id[|PROVIDER_ID_PREFIX|..];
    }
  }
}
