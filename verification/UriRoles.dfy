/** Which URIs fit which role. */
module UriRoles {
  import opened Datamodel
  import opened Bits
  import opened UriValidator

  /** The wildcards of a URI put together from its fields: ue_id holds the instance above the
      service. */
  lemma WildcardIff(authority: string, instance: nat, service: nat, version: Word32, resource: Word32)
    requires instance <= 0xFFFF && service <= 0xFFFF
    ensures HasWildcard(UUri(authority, instance * 0x1_0000 + service, version, resource)) <==>
      authority == "*" || instance == 0xFFFF || service == 0xFFFF || version == 0xFF || resource == 0xFFFF
  {
    DivModUnique(instance * 0x1_0000 + service, 0x1_0000, instance, service);
  }

  /** Resource 0 is for responses, 1 to 7FFF for methods and 8000 to FFFE for topics: a URI without
      wildcards fits exactly the role of its resource, and one with wildcards fits none. */
  lemma RolesPartition(u: UUri)
    ensures IsValidRpcResponse(u).ok <==> !HasWildcard(u) && u.resource == 0
    ensures IsValidRpcMethod(u).ok <==> !HasWildcard(u) && 1 <= u.resource <= 0x7FFF
    ensures IsValidPublishTopic(u).ok <==> !HasWildcard(u) && 0x8000 <= u.resource <= 0xFFFE
    ensures IsValidNotificationSource(u).ok <==> IsValidPublishTopic(u).ok
    ensures IsValidNotificationSink(u).ok <==> IsValidRpcResponse(u).ok
    ensures forall v | v in [IsValidRpcResponse(u), IsValidRpcMethod(u), IsValidPublishTopic(u)] ::
      v.reason == if v.ok then None else Some(if HasWildcard(u) then DisallowedWildcard else BadResourceId)
  {
  }

  /** The filter check bounds version, resource and authority; what it calls empty it would
      refuse anyway, for its version. */
  lemma FilterIff(u: UUri)
    ensures var verdict := IsValidFilter(u);
      var empty := u.ueId == 0 && u.version == 0 && u.resource == 0 && forall c | c in u.authority :: IsSpace(c);
      && (verdict.ok <==> 1 <= u.version <= 0xFF && u.resource <= 0xFFFF && |u.authority| <= 128)
      && (verdict.ok <==> verdict.reason == None)
      && (verdict.reason == Some(Empty) <==> empty)
      && (verdict.reason == Some(ReservedVersion) <==> u.version == 0 && !empty)
      && (verdict.reason == Some(VersionOverflow) <==> u.version > 0xFF)
      && (verdict.reason == Some(ResourceOverflow) <==> 1 <= u.version <= 0xFF && u.resource > 0xFFFF)
      && (verdict.reason == Some(AuthorityTooLong) <==>
            1 <= u.version <= 0xFF && u.resource <= 0xFFFF && |u.authority| > 128)
  {
  }
}
