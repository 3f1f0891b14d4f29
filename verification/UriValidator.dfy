/** The UUri checks of the datamodel validator. */
module UriValidator {
  import opened Datamodel

  datatype Reason =
    | Empty | ReservedVersion | ReservedResource | DisallowedWildcard | BadResourceId
    | LocalAuthority | VersionOverflow | ResourceOverflow | AuthorityTooLong

  datatype Verdict = Verdict(ok: bool, reason: Option<Reason>)

  const Valid := Verdict(true, None)
  function Invalid(reason: Reason): Verdict { Verdict(false, Some(reason)) }

  const AUTHORITY_MAX_LENGTH := 128
  const START_OF_TOPICS := 0x8000
  const MAX_RESOURCE_ID := 0xFFFF

  predicate IsSpace(ch: char) {
    ch == ' ' || '\t' <= ch <= '\r'
  }

  predicate IsLocal(u: UUri) { u.authority == "" }

  predicate IsEmpty(u: UUri) {
    && (forall i | 0 <= i < |u.authority| :: IsSpace(u.authority[i]))
    && u.ueId == 0 && u.version == 0 && u.resource == 0
  }

  function CommonChecks(u: UUri): Verdict {
    if u.version == 0 then Invalid(ReservedVersion)
    else if u.version > 0xFF then Invalid(VersionOverflow)
    else if u.resource > 0xFFFF then Invalid(ResourceOverflow)
    else if |u.authority| > AUTHORITY_MAX_LENGTH then Invalid(AuthorityTooLong)
    else Valid
  }

  function IsValidFilter(u: UUri): Verdict {
    if IsEmpty(u) then Invalid(Empty) else CommonChecks(u)
  }

  /** The low and the high half of ue_id are the service and its instance. */
  predicate HasWildcard(u: UUri) {
    || u.authority == "*"
    || u.ueId % 0x1_0000 == 0xFFFF
    || u.ueId / 0x1_0000 == 0xFFFF
    || u.version == 0xFF
    || u.resource == 0xFFFF
  }

  function IsValidRpcMethod(u: UUri): Verdict {
    if HasWildcard(u) then Invalid(DisallowedWildcard)
    else if u.resource == 0 || u.resource >= START_OF_TOPICS then Invalid(BadResourceId)
    else Valid
  }

  function IsValidRpcResponse(u: UUri): Verdict {
    if HasWildcard(u) then Invalid(DisallowedWildcard)
    else if u.resource != 0 then Invalid(BadResourceId)
    else Valid
  }

  function IsValidPublishTopic(u: UUri): Verdict {
    if HasWildcard(u) then Invalid(DisallowedWildcard)
    else if u.resource < START_OF_TOPICS || u.resource > MAX_RESOURCE_ID then Invalid(BadResourceId)
    else Valid
  }

  function IsValidNotificationSource(u: UUri): Verdict { IsValidPublishTopic(u) }

  function IsValidNotificationSink(u: UUri): Verdict { IsValidRpcResponse(u) }
}
