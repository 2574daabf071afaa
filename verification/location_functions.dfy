/** In-vehicle location: the node's last known position cell and the
    dead-reckoning step that moves it by a fixed delta per update. */
module LocationFunctions {

  /** What get_vehicle_info reports about the vehicle: speed, direction
      ('f' forward, 'b' backward, '-' stopped) and heading ('N', 'S', 'E', 'O'). */
  datatype VehicleInfo = VehicleInfo(speed: int, direction: string, heading: string)

  /** Fixed per-update displacement along each axis. */
  const DummyDeltaX: int := 5
  const DummyDeltaY: int := 2

  /** The direction value that means the vehicle does not move. */
  const Stopped: string := "-"

  predicate EastMove(heading: string, direction: string) {
    (heading == "E" && direction == "f") || (heading == "O" && direction == "b")
  }

  predicate WestMove(heading: string, direction: string) {
    (heading == "E" && direction == "b") || (heading == "O" && direction == "f")
  }

  predicate NorthMove(heading: string, direction: string) {
    (heading == "N" && direction == "f") || (heading == "S" && direction == "b")
  }

  predicate SouthMove(heading: string, direction: string) {
    (heading == "N" && direction == "b") || (heading == "S" && direction == "f")
  }

  /** The heading/direction pairs for which a new position is defined. */
  predicate KnownMove(heading: string, direction: string) {
    EastMove(heading, direction) || WestMove(heading, direction) ||
    NorthMove(heading, direction) || SouthMove(heading, direction)
  }

  /** The (dx, dy) one update applies for a known heading/direction pair. */
  function Displacement(heading: string, direction: string): (d: (int, int))
    requires KnownMove(heading, direction)
    ensures EastMove(heading, direction) <==> d == (DummyDeltaX, 0)
    ensures WestMove(heading, direction) <==> d == (-DummyDeltaX, 0)
    ensures NorthMove(heading, direction) <==> d == (0, DummyDeltaY)
    ensures SouthMove(heading, direction) <==> d == (0, -DummyDeltaY)
    ensures (d.0 == 0) != (d.1 == 0)
  {
    if EastMove(heading, direction) then (DummyDeltaX, 0)
    else if WestMove(heading, direction) then (-DummyDeltaX, 0)
    else if NorthMove(heading, direction) then (0, DummyDeltaY)
    else (0, -DummyDeltaY)
  }

  /** Driving backwards along a heading undoes driving forwards along it. */
  lemma ReverseUndoes(heading: string)
    requires KnownMove(heading, "f")
    ensures KnownMove(heading, "b")
    ensures Displacement(heading, "b") == (-Displacement(heading, "f").0, -Displacement(heading, "f").1)
  {
  }

  /** The shared position cell: last known (x, y) and the time t it was taken. */
  class Coordinates {
    var x: int
    var y: int
    var t: int

    constructor (x0: int, y0: int, t0: int)
      ensures x == x0 && y == y0 && t == t0
    {
      x, y, t := x0, y0, t0;
    }

    /** Dead-reckoning step at time `now`: a stopped vehicle keeps its cell
        untouched; otherwise exactly one coordinate moves by its fixed delta and
        t becomes `now`. Speed plays no part. */
    method PositionUpdate(vehicle: VehicleInfo, now: int)
      requires vehicle.direction == Stopped || KnownMove(vehicle.heading, vehicle.direction)
      modifies this
      ensures vehicle.direction == Stopped ==> x == old(x) && y == old(y) && t == old(t)
      ensures vehicle.direction != Stopped ==>
                var d := Displacement(vehicle.heading, vehicle.direction);
                x == old(x) + d.0 && y == old(y) + d.1 && t == now
    {
      var direction, heading := vehicle.direction, vehicle.heading;
      if direction == Stopped {
        return;
      }
      var nx, ny;
      if EastMove(heading, direction) {
        nx := x + DummyDeltaX;
        ny := y;
      } else if WestMove(heading, direction) {
        nx := x - DummyDeltaX;
        ny := y;
      } else if NorthMove(heading, direction) {
        nx := x;
        ny := y + DummyDeltaY;
      } else {
        nx := x;
        ny := y - DummyDeltaY;
      }
      x, y, t := nx, ny, now;
    }
  }

  /** The last known position, as the (x, y, t) triple stored in the cell. */
  function PositionRead(coordinates: Coordinates): (p: (int, int, int))
    reads coordinates
    ensures p.0 == coordinates.x && p.1 == coordinates.y && p.2 == coordinates.t
  {
    (coordinates.x, coordinates.y, coordinates.t)
  }
}
