/** Values that travel between a client and the server. */
module Wire {

  /** A JSON value; its text form is not modelled. */
  datatype Json =
    | JNull
    | JBool(b: bool)
    | JNum(n: int)
    | JStr(s: string)
    | JArr(items: seq<Json>)
    | JObj(fields: map<string, Json>)

  /** An event, or the method and parameters of a request. */
  datatype Event = Event(name: string, data: Json)

  /** The envelope kinds of the protocol. `Id` is the type of request ids: the
      decimal text of a counter (RpcChannel) or a random id (WsClient). */
  datatype Envelope<+Id> =
    | EventEnv(num: nat, event: Event)
    | RequestEnv(id: Id, call: Event)
    | ResponseEnv(reply: Id, result: RpcResult)
    | ResumeEnv(lastSeq: nat)
    | Ping
    | Pong

  /** `ok: true` with data, or `ok: false` with an error text. */
  datatype RpcResult = Ok(data: Json) | Err(error: string)

  /** An event envelope as it leaves a server-side socket. */
  datatype Frame = Frame(num: nat, event: Event)

  /** The frames a socket that has already stamped `base` events makes of `events`. */
  function Stamp(base: nat, events: seq<Event>): seq<Frame> {
    seq(|events|, i requires 0 <= i < |events| => Frame(base + i + 1, events[i]))
  }

  /** Sent by the middleware when a resume cannot be answered from the buffer. */
  const REFRESH := Event("state:refresh_required", JObj(map[]))
}
