/** The dictionary-shaped C-ITS message payloads, the record a bus request
    event is assembled into, and the accessors that read a node's position
    and dynamics back out of a received message. */
module MessageHandler {
  import opened Wrappers

  /** A value stored in a message: an integer, a text, or a nested record. */
  datatype Value = Int(i: int) | Str(s: string) | Dict(fields: map<string, Value>)

  /** A message is a record from field names to values. */
  type Message = map<string, Value>

  const EventKeys: set<string> :=
    {"event_type", "event_src_x", "event_src_y", "event_dest_x", "event_dest_y",
     "event_arrival_max_secs", "event_id"}

  /** The bus request event built from the six answers the user typed. Every
      answer is kept as the text that was typed, under its own key, and the
      event is always tagged as a bus request. */
  function TriggerEvent(srcX: string, srcY: string, destX: string, destY: string,
                        arrivalMaxSecs: string, eventId: string): (e: Message)
    ensures e.Keys == EventKeys && |e.Keys| == 7
    ensures e["event_type"] == Str("bus_request")
    ensures e["event_src_x"] == Str(srcX) && e["event_src_y"] == Str(srcY)
    ensures e["event_dest_x"] == Str(destX) && e["event_dest_y"] == Str(destY)
    ensures e["event_arrival_max_secs"] == Str(arrivalMaxSecs)
    ensures e["event_id"] == Str(eventId)
  {
    map["event_type" := Str("bus_request"),
        "event_src_x" := Str(srcX), "event_src_y" := Str(srcY),
        "event_dest_x" := Str(destX), "event_dest_y" := Str(destY),
        "event_arrival_max_secs" := Str(arrivalMaxSecs),
        "event_id" := Str(eventId)]
  }

  predicate HasPosition(msg: Message) {
    "pos_x" in msg && "pos_y" in msg && "time" in msg
  }

  predicate HasMovement(msg: Message) {
    "speed" in msg && "dir" in msg && "heading" in msg
  }

  /** The sender's (x, y, t); None where a field is missing (a KeyError). */
  function PositionNode(msg: Message): (r: Option<(Value, Value, Value)>)
    ensures r.Some? <==> HasPosition(msg)
    ensures r.Some? ==> r.value.0 == msg["pos_x"] && r.value.1 == msg["pos_y"] && r.value.2 == msg["time"]
  {
    if HasPosition(msg) then Some((msg["pos_x"], msg["pos_y"], msg["time"])) else None
  }

  /** The sender's (speed, direction, heading); None where a field is missing. */
  function MovementNode(msg: Message): (r: Option<(Value, Value, Value)>)
    ensures r.Some? <==> HasMovement(msg)
    ensures r.Some? ==> r.value.0 == msg["speed"] && r.value.1 == msg["dir"] && r.value.2 == msg["heading"]
  {
    if HasMovement(msg) then Some((msg["speed"], msg["dir"], msg["heading"])) else None
  }
}
