/** The uProtocol messages, as far as this library reads and writes them. */
module Datamodel {
  datatype Option<T> = None | Some(value: T)

  type Word32 = n: nat | n < 0x1_0000_0000
  type Word64 = n: nat | n < 0x1_0000_0000_0000_0000

  datatype UUID = UUID(msb: Word64, lsb: Word64)

  datatype UUri = UUri(authority: string, ueId: Word32, version: Word32, resource: Word32)

  datatype MessageType = Unspecified | Publish | Request | Response | Notification | Unknown

  /** Fields a message may leave unset are optional; the enums are open integers. */
  datatype UAttributes = UAttributes(
    id: Option<UUID>,
    kind: MessageType,
    source: Option<UUri>,
    sink: Option<UUri>,
    priority: int,
    ttl: Option<Word32>,
    permissionLevel: Option<Word32>,
    commstatus: Option<int>,
    reqid: Option<UUID>,
    token: Option<string>,
    payloadFormat: int)

  datatype UMessage = UMessage(attributes: UAttributes, payload: Option<seq<nat>>)

  /** Reading an unset field gives the default value. */
  function OrDefault<T>(field: Option<T>, default: T): T {
    if field.Some? then field.value else default
  }

  const NIL_UUID := UUID(0, 0)
  const UCODE_OK := 0

  function IdOf(m: UMessage): UUID { OrDefault(m.attributes.id, NIL_UUID) }
  function ReqidOf(m: UMessage): UUID { OrDefault(m.attributes.reqid, NIL_UUID) }
  function CommStatusOf(m: UMessage): int { OrDefault(m.attributes.commstatus, UCODE_OK) }
}
