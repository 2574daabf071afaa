/** Facilities-layer constructors of Cooperative Awareness (CA) and
    Decentralized Environmental Notification (DEN) messages. What a message
    carries depends on whether the sender is an on-board unit (OBU) or a
    roadside unit (RSU). */
module Services {
  import opened LocationFunctions
  import opened MessageHandler
  import opened Wrappers

  predicate KnownRole(nodeType: string) {
    nodeType == "OBU" || nodeType == "RSU"
  }

  /** A position triple as it is stored in a message. */
  function PositionValues(p: (int, int, int)): (Value, Value, Value) {
    (Int(p.0), Int(p.1), Int(p.2))
  }

  const ObuCaKeys: set<string> :=
    {"msg_type", "node", "msg_id", "pos_x", "pos_y", "time", "speed", "dir", "heading"}

  const RsuCaKeys: set<string> := {"msg_type", "node", "node_type"}

  const ObuDenKeys: set<string> :=
    {"msg_type", "node", "msg_id", "pos_x", "pos_y", "time", "event"}

  /** A CA message. An OBU reports its identity, the message id, its last known
      position and its dynamics, each of which reads back through the
      message accessors; an RSU announces only itself and its role. */
  function CreateCaMessage(node: int, nodeType: string, msgId: int,
                           coordinates: Coordinates, vehicle: VehicleInfo): (m: Message)
    requires KnownRole(nodeType)
    reads coordinates
    ensures "msg_type" in m && m["msg_type"] == Str("CA")
    ensures "node" in m && m["node"] == Int(node)
    ensures nodeType == "OBU" ==>
              && m.Keys == ObuCaKeys
              && m["msg_id"] == Int(msgId)
              && PositionNode(m) == Some(PositionValues(PositionRead(coordinates)))
              && MovementNode(m) == Some((Int(vehicle.speed), Str(vehicle.direction), Str(vehicle.heading)))
    ensures nodeType == "RSU" ==>
              && m.Keys == RsuCaKeys
              && m["node_type"] == Str(nodeType)
              && PositionNode(m) == None
              && MovementNode(m) == None
  {
    if nodeType == "OBU" then
      var (x, y, t) := PositionRead(coordinates);
      map["msg_type" := Str("CA"), "node" := Int(node), "msg_id" := Int(msgId),
          "pos_x" := Int(x), "pos_y" := Int(y), "time" := Int(t),
          "speed" := Int(vehicle.speed), "dir" := Str(vehicle.direction),
          "heading" := Str(vehicle.heading)]
    else
      map["msg_type" := Str("CA"), "node" := Int(node), "node_type" := Str(nodeType)]
  }

  /** A DEN message. An OBU sends its identity, the message id, its last known
      position and the event exactly as it was handed over; an RSU builds the
      empty record. */
  function CreateDenMessage(node: int, nodeType: string, msgId: int,
                            coordinates: Coordinates, event: Value): (m: Message)
    requires KnownRole(nodeType)
    reads coordinates
    ensures nodeType == "OBU" ==>
              && m.Keys == ObuDenKeys
              && m["msg_type"] == Str("DEN")
              && m["node"] == Int(node)
              && m["msg_id"] == Int(msgId)
              && m["event"] == event
              && PositionNode(m) == Some(PositionValues(PositionRead(coordinates)))
              && MovementNode(m) == None
    ensures nodeType == "RSU" ==> m.Keys == {}
  {
    if nodeType == "OBU" then
      var (x, y, t) := PositionRead(coordinates);
      map["msg_type" := Str("DEN"), "node" := Int(node), "msg_id" := Int(msgId),
          "pos_x" := Int(x), "pos_y" := Int(y), "time" := Int(t), "event" := event]
    else
      map[]
  }
}
