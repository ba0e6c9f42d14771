/**
 * The WebSocket message envelope: parsing an incoming frame and sending an
 * outgoing one. A socket is modelled by whether it is open and by the list of
 * values it has been asked to send, each being what `JSON.stringify` serialises.
 */
module WsUtils {
  import opened Wrappers
  import opened Json

  /**
   * `parseClientMessage`: the frame's text through `JSON.parse` (`parse`,
   * with `None` for a parse that throws). The shape check has no effect on
   * the result: a parsed value is returned whatever its shape, and a frame
   * that does not parse gives `null` (here `None`).
   */
  function ParseClientMessage(frame: string, parse: string -> Option<Json>): (r: Option<Json>)
    ensures r == parse(frame)
    ensures parse(frame).None? ==> r.None?
  {
    match parse(frame)
    case None => None
    case Some(parsedData) =>
      if Truthy(Some(parsedData)) && AsString(Get(parsedData, "event")).Some?
        && parsedData.JObject? && "text" in parsedData.fields
      then Some(parsedData)
      else Some(parsedData)
  }

  /**
   * The server message `{event, payload, text: payload, inReplyTo}` as
   * serialised: an `undefined` `inReplyTo` is left out of the object.
   */
  function Envelope(event: string, payload: Json, inReplyTo: Option<Json>): Json {
    var base := map["event" := JString(event), "payload" := payload, "text" := payload];
    JObject(if inReplyTo.Some? then base["inReplyTo" := inReplyTo.value] else base)
  }

  /** Reading an envelope's fields back gives the event, the payload (twice) and the reply id. */
  lemma EnvelopeFields(event: string, payload: Json, inReplyTo: Option<Json>)
    ensures var r := Envelope(event, payload, inReplyTo);
      && r.JObject?
      && r.fields.Keys == {"event", "payload", "text"} + (if inReplyTo.Some? then {"inReplyTo"} else {})
      && Get(r, "event") == Some(JString(event))
      && Get(r, "payload") == Some(payload)
      && Get(r, "text") == Get(r, "payload")
      && Get(r, "inReplyTo") == inReplyTo
  {
  }

  /** The event name of a sent envelope. */
  function EventOf(frame: Json): Option<string> {
    AsString(Get(frame, "event"))
  }

  /** What reaches the client of a socket that is (or is not) open. */
  function Delivered(open: bool, frames: seq<Json>): (r: seq<Json>)
    ensures open ==> r == frames
    ensures !open ==> r == []
  {
    if open then frames else []
  }

  lemma DeliveredAppend(open: bool, a: seq<Json>, b: seq<Json>)
    ensures Delivered(open, a + b) == Delivered(open, a) + Delivered(open, b)
  {
  }

  /** A client connection: whether it is `OPEN`, and every value sent on it so far. */
  class Socket {
    var open: bool
    var sent: seq<Json>

    constructor(open: bool)
      ensures this.open == open && sent == []
    {
      this.open := open;
      sent := [];
    }
  }

  /**
   * `sendMessage`: a socket that is not open gets nothing; an open one gets
   * exactly one more envelope at the end of what it was sent.
   */
  method SendMessage(ws: Socket, event: string, payload: Json, inReplyTo: Option<Json>)
    modifies ws
    ensures ws.open == old(ws.open)
    ensures ws.sent == old(ws.sent) + Delivered(ws.open, [Envelope(event, payload, inReplyTo)])
  {
    if !ws.open {
      return;
    }
    var message := Envelope(event, payload, inReplyTo);
    ws.sent := ws.sent + [message];
  }
}
