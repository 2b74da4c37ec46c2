/** Message directions and the columns derived from a payload. */
module Protocol {
  import opened Json

  const U64_MAX: nat := 0xFFFF_FFFF_FFFF_FFFF

  datatype Direction = ClientToServer | ServerToClient {
    function Opposite(): Direction {
      if this == ClientToServer then ServerToClient else ClientToServer
    }

    function Name(): string {
      if this == ClientToServer then "c2s" else "s2c"
    }
  }

  function FromName(name: string): Option<Direction> {
    if name == "c2s" then Some(ClientToServer) else if name == "s2c" then Some(ServerToClient) else None
  }

  /** The six columns that are functions of the payload alone. */
  datatype Fields = Fields(kind: string, rpcId: Option<string>, method_: Option<string>, tool: Option<string>,
                           isError: bool, errorCode: Option<int>)

  function KindName(payload: Json): string {
    var hasId, hasMethod := payload.Get("id").Some?, GetStr(payload, "method").Some?;
    if hasId && !hasMethod then "response" else if !hasId && hasMethod then "notification" else "request"
  }

  function IdJson(payload: Json): Option<string> {
    match payload.Get("id") case Some(id) => Some(Text(id)) case None => None
  }

  function ToolName(payload: Json): Option<string> {
    if GetStr(payload, "method") != Some("tools/call") then None else
    match payload.Get("params") case Some(params) => GetStr(params, "name") case None => None
  }

  /** `params`, null when there are none. */
  function Params(payload: Json): Json {
    match payload.Get("params") case Some(params) => params case None => Null
  }

  function ErrorCode(payload: Json): Option<int> {
    match payload.Get("error")
    case None => None
    case Some(error) => match error.Get("code") case Some(code) => code.AsI64() case None => None
  }

  /** What `write_messages` stores beside the payload, and `validate` derives again. */
  function Derived(payload: Json): Fields {
    Fields(KindName(payload), IdJson(payload), GetStr(payload, "method"), ToolName(payload),
           payload.Get("error").Some?, ErrorCode(payload))
  }

  /** A row of the message table; `payload` is its text as `serde_json` reads it, none if it is no JSON. */
  datatype StoredMessage = StoredMessage(num: nat, ts: int, direction: string, fields: Fields, payload: Option<Json>,
                                         payloadBytes: nat)
}
