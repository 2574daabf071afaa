# C-ITS node core, modelled in Dafny

This project models the core of a small vehicular network node (C-ITS).
A node is either a roadside unit (RSU) or an on-board unit (OBU). The model
covers four parts of the node:

- **Location** (`location_functions.dfy`, module `LocationFunctions`). The
  shared position cell is the class `Coordinates` with fields `x`, `y`, `t`.
  `PositionUpdate` is the dead-reckoning step, which moves the cell by a fixed
  delta chosen from the heading/direction table. `PositionRead` reads the
  stored `(x, y, t)` triple. It is a function with `reads coordinates`, so it
  cannot change the cell.
- **Message accessors** (`message_handler.dfy`, module `MessageHandler`).
  Messages are dictionaries. They are modelled as `map<string, Value>`, so key
  sets can be stated. This module also holds the bus-request event record
  assembled from the user's six answers, and `PositionNode` / `MovementNode`,
  which read fields back out of a message.
- **Facilities services** (`services.dfy`, module `Services`). The CA and DEN
  message constructors. Their contracts state the key set for each role, and
  state that the position and dynamics read back unchanged through the
  accessors.
- **Application** (`application.dfy`, module `Application`).
  - The fleet table `obu_list` is the class `FleetTable`, whose field
    `entries` is a sequence of `FleetEntry` rows.
  - `FindObu` is the for/break search. `AddNewObu` is the in-place upsert.
  - `UpdateObuList` is the expiry filter. It returns a new list and leaves the
    table as it is.
  - `MySystem.Step` is one pass of the business-logic loop.
  - The pure functions `FirstMatch`, `Upsert`, `UpsertAll` and `Expired`
    specify these methods. The lemmas beside them state the uniqueness
    invariant, the timer rule, and order preservation.

`wrappers.dfy` holds only an `Option` type.

Parameters replace the parts of the system outside the model:

- The wall clock (`time.time()`) is a parameter `now: int`.
- `get_vehicle_info` is replaced by a `VehicleInfo` value passed in.
- `car_ack_route_ch` is a function parameter `ackRouteCh` of `Step`.

Behaviour of the code worth noting:

- A first report about a vehicle stores the report's originating RSU and
  timer verbatim (application.py:240). The `now + 4` refresh applies only
  to rows that are already in the table.
- `update_obu_list` keeps the entries whose timer has already passed,
  `now - timer > 0` (application.py:202).
- `my_system` discards the list `update_obu_list` returns (application.py:169),
  so the table is never pruned.

## Model

| member | source | states |
|---|---|---|
| LocationFunctions.Displacement | C-ITS/C-ITS/in_vehicle_network/location_functions.py:24-35 | Gives the heading/direction table in both directions: (E,f)/(O,b) iff +5 on x; (E,b)/(O,f) iff -5 on x; (N,f)/(S,b) iff +2 on y; (N,b)/(S,f) iff -2 on y. Exactly one coordinate moves. |
| LocationFunctions.ReverseUndoes | C-ITS/C-ITS/in_vehicle_network/location_functions.py:24-35 | A backward step on a heading is defined whenever the forward step is, and it is the exact opposite displacement. |
| LocationFunctions.PositionRead | C-ITS/C-ITS/in_vehicle_network/location_functions.py:45-51 | Returns the stored (x, y, t) in that order; it only reads the cell. |
| LocationFunctions.Coordinates.PositionUpdate | C-ITS/C-ITS/in_vehicle_network/location_functions.py:14-39 | Direction '-' leaves x, y and t untouched. Otherwise x and y move by the table's displacement and t becomes `now`. Speed is ignored. An unknown heading/direction pair is excluded by the precondition, because it leaves x/y unbound in the code. |
| MessageHandler.TriggerEvent | C-ITS/C-ITS/application/message_handler.py:27-36 | The event record has exactly seven keys. `event_type` is always "bus_request". Each of the six answers is stored as text, unconverted, under its own key. |
| MessageHandler.PositionNode | C-ITS/C-ITS/application/message_handler.py:41-47 | Returns (pos_x, pos_y, time) in that order. The result is None exactly when one of those fields is missing (the KeyError case). |
| MessageHandler.MovementNode | C-ITS/C-ITS/application/message_handler.py:53-59 | Returns (speed, dir, heading) in that order. The result is None exactly when one of those fields is missing. |
| Services.CreateCaMessage | C-ITS/C-ITS/facilities/services.py:17-25 | Every CA carries msg_type 'CA' and the sender. An OBU CA has exactly the nine OBU keys and its msg_id. PositionNode reads back position_read(coordinates), and MovementNode reads back the vehicle's (speed, direction, heading). An RSU CA has exactly msg_type, node and node_type, with no position and no dynamics. |
| Services.CreateDenMessage | C-ITS/C-ITS/facilities/services.py:34-40 | An OBU DEN has exactly the seven keys, msg_type 'DEN', the sender, msg_id and the event carried unchanged. PositionNode reads back position_read(coordinates), and there are no dynamics. An RSU DEN is the empty record. |
| Application.FirstMatch | C-ITS/C-ITS/application/application.py:211-215 | None iff no row has the id. Otherwise the result is an in-range index of a row with that id, and no earlier row has that id. |
| Application.FleetTable.FindObu | C-ITS/C-ITS/application/application.py:211-215 | The scan reports presence iff some row has the id. When present, it returns the position of the first such row. |
| Application.UpsertAppendsUnseen | C-ITS/C-ITS/application/application.py:239-240 | For an unseen id, the table gains exactly one row at the end: the report copied verbatim, including timer = obu_info[6] and originating_rsu = obu_info[4]. Earlier rows are untouched. |
| Application.UpsertRefreshesFirstMatch | C-ITS/C-ITS/application/application.py:211-222 | For a known id, only the first matching row changes, and it becomes the refreshed row. Its id and the table length are kept. Every other row is untouched. |
| Application.RefreshTimerRule | C-ITS/C-ITS/application/application.py:224-237 | After a refresh, originating_rsu is the report's. The timer is now + 4 when that RSU is this node, and the report's timer otherwise. |
| Application.FleetTable.AddNewObu | C-ITS/C-ITS/application/application.py:207-242 | The in-place update takes the table to Upsert of the old table. This proves that the unchanged-RSU and handoff branches apply the same timer rule. The method returns the very table it was given. |
| Application.UpsertKeepsDistinct | C-ITS/C-ITS/application/application.py:211-240 | If the ids were distinct before an upsert, they are distinct after it, and the id set gains exactly the report's id. |
| Application.UpsertAllKeepsDistinct | C-ITS/C-ITS/application/application.py:171-174 | Folding a whole CA fleet report keeps ids distinct. Afterwards the ids are the old ones plus every reported id. |
| Application.Expired | C-ITS/C-ITS/application/application.py:197-205 | The filter is never longer than the table. |
| Application.ExpiredMembers | C-ITS/C-ITS/application/application.py:200-203 | A row is in the filter iff it is in the table and now - timer > 0, so the filter keeps rows whose timer has already passed. |
| Application.ExpiredSnoc | C-ITS/C-ITS/application/application.py:200-203 | A row added at the end of the table is added at the end of the filter exactly when now - timer > 0. |
| Application.ExpiredAppend | C-ITS/C-ITS/application/application.py:200-203 | The filter distributes over concatenation, so rows stay in their original order. |
| Application.FleetTable.UpdateObuList | C-ITS/C-ITS/application/application.py:197-205 | Returns exactly Expired of the table. It has no modifies clause, so the table is unchanged. |
| Application.FleetTable.constructor | C-ITS/C-ITS/ITS_core.py:98 | A new fleet table is empty. |
| Application.MySystem.constructor | C-ITS/C-ITS/application/application.py:123 | The worker starts with an empty route and an empty outgoing queue, on the node, role and shared table it is given. |
| Application.MySystem.Step | C-ITS/C-ITS/application/application.py:168-190 | At an RSU, a CA folds each fleet-report element into the table, in order. An OBU named by a DEN from the other role adopts the DEN's route and enqueues exactly one acknowledgement. Any other case changes nothing: a DEN of our own role, a DEN at an RSU, a CA at an OBU, or another OBU's DEN. Distinct ids stay distinct. |

## Left out

- Thread start-up, the start flag busy-wait, queues between layers, and the forwarding loops `application_txd` and `application_rxd`. These are concurrency plumbing. Only the per-message step of `my_system` is modelled, and its outgoing queue is a sequence field.
- `time_estimate`: it uses floating-point `sqrt` and does not run as written. The bus-matching engine it would serve does not exist in the code.
- Console input (`trigger_ca`, the `input()` calls of `trigger_event`) and the console prints. `TriggerEvent` takes the six answers as parameters.
- The car-control calls (`enter_car`, `turn_on_car`, `car_move_forward`). `get_vehicle_info` becomes a `VehicleInfo` parameter, and `car_ack_route_ch` becomes a function parameter.
- Wall-clock time and the float `t`: time is an integer `now`. `Step` uses one `now` throughout. The code reads the clock in `update_obu_list` before waiting for the message, and again for each refreshed row whose RSU is this node.
- Aliasing of the row dictionaries. A row is a value, and the table's list is a sequence field that the methods reassign.
- The message shapes read by `my_system` (`info`, `node_type`, `status`, `obu_id`, `route`) are not the ones the service constructors build. The step works on the abstract record `Received`.
- A KeyError from a missing field in `my_system`'s message is not modelled, because `Received` always has every field.
- LocationFunctions.Coordinates.PositionUpdate: an unknown heading/direction pair (direction not '-') is a precondition, not an error result. The same holds for `Services.CreateCaMessage` and `Services.CreateDenMessage` with a role other than OBU/RSU.
- The thread bootstrap in ITS_core.py is not part of this model. That includes its calls to `application_txd` and `my_system` with the wrong number of arguments.
