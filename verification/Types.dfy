/** Identifiers and small values shared by the bridge's modules. */
module Types {

  datatype Option<+T> = None | Some(value: T)

  datatype Result<+T, +E> = Ok(value: T) | Err(error: E)

  type Byte = b: int | 0 <= b < 256

  type InstallId = string
  type AppId = string
  type ConnectorToken = string
  type EndpointToken = string
  type PersistentId = seq<Byte>

  datatype Transport = WebSocket | UnifiedPush

  datatype MessageKind = Fcm | Distributor

  /** A resume cursor is pulled into `0..maximum`; the source's `clamp` panics if that range is empty. */
  function Clamp(cursor: int, maximum: int): (c: int)
    requires 0 <= maximum
    ensures 0 <= c <= maximum
    ensures 0 <= cursor ==> c <= cursor
    ensures 0 <= cursor <= maximum ==> c == cursor
  {
    if cursor < 0 then 0 else if cursor > maximum then maximum else cursor
  }
}
