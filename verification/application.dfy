/** Application layer: the fleet table (`obu_list`) an RSU keeps from the CA
    reports it receives, and the business-logic step that handles one
    received message. */
module Application {
  import opened Wrappers

  type Waypoint = (int, int)

  /** One vehicle in a fleet report, positionally: id, x, y, t, the RSU the
      report originated at, the route and the remote expiry time. This is the
      positional `obu_info` tuple; `FleetEntry` is the row the table stores. */
  datatype ObuReport = ObuReport(obuId: int, x: int, y: int, t: int,
                                 originatingRsu: int, route: seq<Waypoint>, timer: int)

  /** One row of the fleet table. */
  datatype FleetEntry = FleetEntry(obuId: int, x: int, y: int, t: int,
                                   originatingRsu: int, route: seq<Waypoint>, timer: int)

  /** Lifetime, in seconds, of an entry this node is the originating RSU for. */
  const RefreshSeconds: int := 4

  ghost predicate DistinctIds(s: seq<FleetEntry>) {
    forall i, j :: 0 <= i < j < |s| ==> s[i].obuId != s[j].obuId
  }

  function Ids(s: seq<FleetEntry>): set<int> {
    set e | e in s :: e.obuId
  }

  function ReportIds(reports: seq<ObuReport>): set<int> {
    set r | r in reports :: r.obuId
  }

  /** The row created for a vehicle not yet in the table: the report verbatim. */
  function NewEntry(r: ObuReport): FleetEntry {
    FleetEntry(r.obuId, r.x, r.y, r.t, r.originatingRsu, r.route, r.timer)
  }

  /** A known row after a report about it: position, time and route are taken
      from the report, the originating RSU becomes the report's, and the
      expiry is `now + RefreshSeconds` when that RSU is this node, the
      report's own expiry otherwise. */
  function Refreshed(e: FleetEntry, r: ObuReport, selfNode: int, now: int): FleetEntry {
    e.(x := r.x, y := r.y, t := r.t, route := r.route,
       originatingRsu := r.originatingRsu,
       timer := if r.originatingRsu == selfNode then now + RefreshSeconds else r.timer)
  }

  /** The position of the first row with the given id, if there is one. */
  function FirstMatch(s: seq<FleetEntry>, id: int): (k: Option<nat>)
    ensures k.None? <==> forall i :: 0 <= i < |s| ==> s[i].obuId != id
    ensures k.Some? ==> k.value < |s| && s[k.value].obuId == id
    ensures k.Some? ==> forall j :: 0 <= j < k.value ==> s[j].obuId != id
  {
    if s == [] then None
    else if s[0].obuId == id then Some(0)
    else match FirstMatch(s[1..], id)
      case None => None
      case Some(k) => Some(k + 1)
  }

  /** The table after one report: the first row with the report's id is
      refreshed, or a new row is appended when there is none. */
  function Upsert(s: seq<FleetEntry>, r: ObuReport, selfNode: int, now: int): seq<FleetEntry> {
    match FirstMatch(s, r.obuId)
    case None => s + [NewEntry(r)]
    case Some(k) => s[k := Refreshed(s[k], r, selfNode, now)]
  }

  /** The table after a sequence of reports, applied in order. */
  function UpsertAll(s: seq<FleetEntry>, reports: seq<ObuReport>, selfNode: int, now: int): seq<FleetEntry>
    decreases |reports|
  {
    if reports == [] then s
    else Upsert(UpsertAll(s, reports[..|reports| - 1], selfNode, now), reports[|reports| - 1], selfNode, now)
  }

  /** A report about an unseen vehicle appends exactly one row, a verbatim
      copy of the report, and leaves the earlier rows as they were. */
  lemma UpsertAppendsUnseen(s: seq<FleetEntry>, r: ObuReport, selfNode: int, now: int)
    requires r.obuId !in Ids(s)
    ensures Upsert(s, r, selfNode, now) == s + [NewEntry(r)]
    ensures Upsert(s, r, selfNode, now)[|s|].timer == r.timer
    ensures Upsert(s, r, selfNode, now)[|s|].originatingRsu == r.originatingRsu
  {
  }

  /** A report about a known vehicle rewrites only the first row with its id;
      that row keeps its id, the table keeps its length, and every other row
      is untouched. */
  lemma UpsertRefreshesFirstMatch(s: seq<FleetEntry>, r: ObuReport, selfNode: int, now: int, k: nat)
    requires k < |s| && s[k].obuId == r.obuId
    requires forall j :: 0 <= j < k ==> s[j].obuId != r.obuId
    ensures |Upsert(s, r, selfNode, now)| == |s|
    ensures Upsert(s, r, selfNode, now)[k] == Refreshed(s[k], r, selfNode, now)
    ensures Upsert(s, r, selfNode, now)[k].obuId == s[k].obuId
    ensures forall i :: 0 <= i < |s| && i != k ==> Upsert(s, r, selfNode, now)[i] == s[i]
  {
  }

  /** After a refresh the originating RSU is the report's, and the expiry
      follows the report's RSU: `now + RefreshSeconds` for this node, the
      report's expiry otherwise, whether or not the RSU changed. */
  lemma RefreshTimerRule(e: FleetEntry, r: ObuReport, selfNode: int, now: int)
    ensures Refreshed(e, r, selfNode, now).originatingRsu == r.originatingRsu
    ensures r.originatingRsu == selfNode ==> Refreshed(e, r, selfNode, now).timer == now + RefreshSeconds
    ensures r.originatingRsu != selfNode ==> Refreshed(e, r, selfNode, now).timer == r.timer
  {
  }

  /** Upsert keeps ids distinct, and the ids afterwards are the old ones plus
      the report's. */
  lemma UpsertKeepsDistinct(s: seq<FleetEntry>, r: ObuReport, selfNode: int, now: int)
    requires DistinctIds(s)
    ensures DistinctIds(Upsert(s, r, selfNode, now))
    ensures Ids(Upsert(s, r, selfNode, now)) == Ids(s) + {r.obuId}
  {
    var s' := Upsert(s, r, selfNode, now);
    match FirstMatch(s, r.obuId)
    case None =>
      assert s' == s + [NewEntry(r)];
      forall i, j | 0 <= i < j < |s'| ensures s'[i].obuId != s'[j].obuId {
        if j == |s| {
          assert s'[i] == s[i];
        }
      }
      assert Ids(s') == Ids(s) + {r.obuId} by {
        forall id | id in Ids(s')  ensures id in Ids(s) + {r.obuId} {
          var e :| e in s' && e.obuId == id;
          var i :| 0 <= i < |s'| && s'[i] == e;
          if i < |s| { assert s[i] in s; }
        }
        forall id | id in Ids(s) + {r.obuId} ensures id in Ids(s') {
          if id == r.obuId {
            assert s'[|s|] in s';
          } else {
            var e :| e in s && e.obuId == id;
            var i :| 0 <= i < |s| && s[i] == e;
            assert s'[i] in s';
          }
        }
      }
    case Some(k) =>
      assert s'[k].obuId == s[k].obuId == r.obuId;
      forall i | 0 <= i < |s'| ensures s'[i].obuId == s[i].obuId {
      }
      assert Ids(s') == Ids(s) + {r.obuId} by {
        forall id | id in Ids(s') ensures id in Ids(s) {
          var e :| e in s' && e.obuId == id;
          var i :| 0 <= i < |s'| && s'[i] == e;
          assert s[i] in s;
        }
        forall id | id in Ids(s) ensures id in Ids(s') {
          var e :| e in s && e.obuId == id;
          var i :| 0 <= i < |s| && s[i] == e;
          assert s'[i] in s';
        }
        assert s[k] in s;
      }
  }

  /** Folding a whole fleet report into a table with distinct ids keeps them
      distinct, and every reported vehicle has a row afterwards. */
  lemma {:induction false} UpsertAllKeepsDistinct(s: seq<FleetEntry>, reports: seq<ObuReport>, selfNode: int, now: int)
    requires DistinctIds(s)
    ensures DistinctIds(UpsertAll(s, reports, selfNode, now))
    ensures Ids(UpsertAll(s, reports, selfNode, now)) == Ids(s) + ReportIds(reports)
    decreases |reports|
  {
    if reports != [] {
      var init, last := reports[..|reports| - 1], reports[|reports| - 1];
      UpsertAllKeepsDistinct(s, init, selfNode, now);
      UpsertKeepsDistinct(UpsertAll(s, init, selfNode, now), last, selfNode, now);
      assert reports == init + [last];
      assert ReportIds(reports) == ReportIds(init) + {last.obuId};
    }
  }

  /** The rows whose expiry time lies strictly before `now`, in table order. */
  function Expired(s: seq<FleetEntry>, now: int): (r: seq<FleetEntry>)
    ensures |r| <= |s|
  {
    if s == [] then []
    else
      var last := s[|s| - 1];
      assert s == s[..|s| - 1] + [last];
      Expired(s[..|s| - 1], now) + (if now - last.timer > 0 then [last] else [])
  }

  /** A row is in the filter exactly when it is in the table and its expiry
      time lies strictly before `now`. */
  lemma {:induction false} ExpiredMembers(s: seq<FleetEntry>, e: FleetEntry, now: int)
    ensures e in Expired(s, now) <==> e in s && now - e.timer > 0
    decreases |s|
  {
    if s != [] {
      var init, last := s[..|s| - 1], s[|s| - 1];
      assert s == init + [last];
      ExpiredMembers(init, e, now);
    }
  }

  /** Adding a row at the end adds it to the filter exactly when it has expired. */
  lemma ExpiredSnoc(s: seq<FleetEntry>, e: FleetEntry, now: int)
    ensures Expired(s + [e], now) == Expired(s, now) + (if now - e.timer > 0 then [e] else [])
  {
  }

  /** Expired distributes over concatenation: it never reorders rows. */
  lemma {:induction false} ExpiredAppend(a: seq<FleetEntry>, b: seq<FleetEntry>, now: int)
    ensures Expired(a + b, now) == Expired(a, now) + Expired(b, now)
    decreases |b|
  {
    if b == [] {
      assert a + b == a;
    } else {
      var init, last := b[..|b| - 1], b[|b| - 1];
      assert b == init + [last];
      assert a + b == (a + init) + [last];
      ExpiredAppend(a, init, now);
      ExpiredSnoc(a + init, last, now);
      ExpiredSnoc(init, last, now);
    }
  }

  /** The fleet table, shared by reference between the threads of a node. */
  class FleetTable {
    var entries: seq<FleetEntry>

    constructor ()
      ensures entries == []
    {
      entries := [];
    }

    /** Scans the table for the first row with the given id. */
    method FindObu(id: int) returns (present: bool, pos: nat)
      ensures present <==> exists i :: 0 <= i < |entries| && entries[i].obuId == id
      ensures present ==> pos < |entries| && entries[pos].obuId == id
      ensures present ==> forall j :: 0 <= j < pos ==> entries[j].obuId != id
    {
      present, pos := false, 0;
      var i := 0;
      while i < |entries|
        invariant 0 <= i <= |entries|
        invariant forall j :: 0 <= j < i ==> entries[j].obuId != id
      {
        if entries[i].obuId == id {
          // The first row equal to this one is this one, as no earlier row
          // carries the id: a search by value lands on the same position.
          present, pos := true, i;
          return;
        }
        i := i + 1;
      }
    }

    /** Folds one vehicle report into the table in place and hands back the
        same table. */
    method AddNewObu(info: ObuReport, selfNode: int, now: int) returns (table: FleetTable)
      modifies this
      ensures table == this
      ensures entries == Upsert(old(entries), info, selfNode, now)
    {
      var present, pos := FindObu(info.obuId);
      if present {
        entries := entries[pos := entries[pos].(x := info.x)];
        entries := entries[pos := entries[pos].(y := info.y)];
        entries := entries[pos := entries[pos].(t := info.t)];
        entries := entries[pos := entries[pos].(route := info.route)];
        if entries[pos].originatingRsu == info.originatingRsu {
          // the originating RSU did not change
          if entries[pos].originatingRsu == selfNode {
            entries := entries[pos := entries[pos].(timer := now + RefreshSeconds)];
          } else {
            entries := entries[pos := entries[pos].(timer := info.timer)];
          }
        } else {
          // handoff to a new originating RSU
          entries := entries[pos := entries[pos].(originatingRsu := info.originatingRsu)];
          if info.originatingRsu == selfNode {
            entries := entries[pos := entries[pos].(timer := now + RefreshSeconds)];
          } else {
            entries := entries[pos := entries[pos].(timer := info.timer)];
          }
        }
      } else {
        entries := entries + [NewEntry(info)];
      }
      table := this;
    }

    /** Builds a new list of the rows whose expiry time has passed; the table
        itself is left as it is. */
    method UpdateObuList(now: int) returns (newList: seq<FleetEntry>)
      ensures newList == Expired(entries, now)
    {
      newList := [];
      var i := 0;
      while i < |entries|
        invariant 0 <= i <= |entries|
        invariant newList == Expired(entries[..i], now)
      {
        var expTime := entries[i].timer;
        if now - expTime > 0 {
          newList := newList + [entries[i]];
        }
        assert entries[..i + 1][..i] == entries[..i];
        i := i + 1;
      }
      assert entries[..|entries|] == entries;
    }
  }

  /** The fields of a received message the business logic looks at. */
  datatype Received = Received(msgType: string, nodeType: string, info: seq<ObuReport>,
                               status: string, obuId: int, route: seq<Waypoint>)

  /** A CA message at an RSU carries a fleet report to fold into the table. */
  predicate FoldsFleetReport(nodeType: string, msg: Received) {
    msg.msgType == "CA" && nodeType == "RSU"
  }

  /** A DEN message from the other role, received by the OBU it names. */
  predicate AdoptsRoute(node: int, nodeType: string, msg: Received) {
    msg.msgType == "DEN" && msg.nodeType != nodeType && nodeType == "OBU" && msg.obuId == node
  }

  /** The business-logic worker of one node: its identity, the shared fleet
      table, the route it follows and the queue of messages it hands to the
      transmitting side. */
  class MySystem<Ack> {
    const node: int
    const nodeType: string
    const obuList: FleetTable
    var route: seq<Waypoint>
    var txdQueue: seq<Ack>

    constructor (node: int, nodeType: string, obuList: FleetTable)
      ensures this.node == node && this.nodeType == nodeType && this.obuList == obuList
      ensures route == [] && txdQueue == []
    {
      this.node, this.nodeType, this.obuList := node, nodeType, obuList;
      route, txdQueue := [], [];
    }

    /** Handles one received message at time `now`. An RSU folds the fleet
        report of a CA message into the table, in order; an OBU named by a DEN
        message from the other role adopts its route and queues exactly one
        acknowledgement; nothing else changes any state. */
    method Step(msg: Received, now: int, ackRouteCh: Received -> Ack)
      modifies this, obuList
      ensures obuList.entries ==
                if FoldsFleetReport(nodeType, msg) then UpsertAll(old(obuList.entries), msg.info, node, now)
                else old(obuList.entries)
      ensures route == if AdoptsRoute(node, nodeType, msg) then msg.route else old(route)
      ensures txdQueue ==
                if AdoptsRoute(node, nodeType, msg) then old(txdQueue) + [ackRouteCh(msg)]
                else old(txdQueue)
      ensures DistinctIds(old(obuList.entries)) ==> DistinctIds(obuList.entries)
    {
      // The pruned list is computed and dropped, as `my_system` does.
      var pruned := obuList.UpdateObuList(now);
      if msg.msgType == "CA" {
        if nodeType == "RSU" {
          var i := 0;
          while i < |msg.info|
            invariant 0 <= i <= |msg.info|
            invariant obuList.entries == UpsertAll(old(obuList.entries), msg.info[..i], node, now)
            invariant route == old(route) && txdQueue == old(txdQueue)
          {
            assert msg.info[..i + 1][..i] == msg.info[..i];
            var same := obuList.AddNewObu(msg.info[i], node, now);
            i := i + 1;
          }
          assert msg.info[..|msg.info|] == msg.info;
        }
      }
      if msg.msgType == "DEN" {
        if msg.nodeType == nodeType {
          // a DEN of our own role is ignored
        } else if nodeType == "RSU" {
          // the RSU only reports the request outcome on its console
        } else if nodeType == "OBU" {
          if msg.obuId == node {
            route := msg.route;
            txdQueue := txdQueue + [ackRouteCh(msg)];
          }
        }
      }
      if FoldsFleetReport(nodeType, msg) && DistinctIds(old(obuList.entries)) {
        UpsertAllKeepsDistinct(old(obuList.entries), msg.info, node, now);
      }
    }
  }
}
