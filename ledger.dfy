/** The shipment ledger and GPS simulation of the tracking backend
    (precursor-backend/server.js): the three tables as values, the route, the
    pure part of one simulation tick, request validation and the read queries.
    The class that owns the tables and performs the writes is `Backend.Database`. */
module Ledger {
  import opened Wrappers
  import opened Geo
  import Ordering

  // ---------------------------------------------------------------------------
  // Configuration
  // ---------------------------------------------------------------------------

  /** Deviation from the target waypoint, in km, beyond which a position is off route. */
  const OFF_ROUTE_THRESHOLD: real := 0.3
  /** Weight, in kg, that every simulation tick subtracts from the active shipment. */
  const WEIGHT_DECREMENT: real := 0.01
  /** Half-width, in degrees, of the uniform jitter added to each axis. */
  const JITTER: real := 0.001
  /** The regulator's global event listing returns at most this many events. */
  const EVENT_LISTING_LIMIT: nat := 100

  /** The authorized route: six waypoints in Pune, visited cyclically. */
  const AUTHORIZED_ROUTE: seq<Coord> := [
    Coord(18.5204, 73.8567),
    Coord(18.5314, 73.8446),
    Coord(18.5362, 73.8253),
    Coord(18.5435, 73.8258),
    Coord(18.5562, 73.8090),
    Coord(18.5074, 73.8077)
  ]

  const MISSING_FIELDS: string := "Missing required fields: productId, origin, destination, initialWeight"
  const WEIGHT_NOT_POSITIVE: string := "initialWeight must be a positive number"
  const WEIGHT_NOT_NUMBER: string := "weight must be a number"
  const SHIPMENT_NOT_FOUND: string := "Shipment not found"

  // ---------------------------------------------------------------------------
  // Rows
  // ---------------------------------------------------------------------------

  /** The status column. Only the first three are ever written by the backend. */
  datatype Status = Pending | InTransit | OffRoute | Delivered

  /** The text stored in the status column, which the front end reads. */
  function StatusText(s: Status): string {
    match s
    case Pending => "Pending"
    case InTransit => "In Transit"
    case OffRoute => "OFF_ROUTE"
    case Delivered => "Delivered"
  }

  /** A row of the shipments table. Timestamps are instants; the ISO-8601 text the
      backend stores sorts in the same order. */
  datatype Shipment = Shipment(
    id: string,
    productId: string,
    origin: string,
    destination: string,
    initialWeight: real,
    currentWeight: real,
    status: Status,
    createdAt: nat)

  datatype EventKind = GpsUpdate | CheckpointScan

  /** A row of the events table; `None` is SQL NULL. */
  datatype Event = Event(
    id: string,
    shipmentId: string,
    kind: EventKind,
    latitude: Option<real>,
    longitude: Option<real>,
    temperature: Option<real>,
    humidity: Option<real>,
    weight: Option<real>,
    offRoute: bool,
    timestamp: nat)

  /** The single row of the simulation table. */
  datatype Simulation = Simulation(
    lat: real,
    lon: real,
    offRoute: bool,
    indexPos: nat,
    activeShipmentId: Option<string>)

  function ShipmentIds(rows: seq<Shipment>): set<string> {
    set k | 0 <= k < |rows| :: rows[k].id
  }

  function EventIds(evs: seq<Event>): set<string> {
    set k | 0 <= k < |evs| :: evs[k].id
  }

  /** The primary key of the shipments table. */
  predicate UniqueShipmentIds(rows: seq<Shipment>) {
    forall i, j :: 0 <= i < j < |rows| ==> rows[i].id != rows[j].id
  }

  /** The primary key of the events table, and the foreign key to shipments. */
  predicate EventTableOk(rows: seq<Shipment>, evs: seq<Event>) {
    && (forall i, j :: 0 <= i < j < |evs| ==> evs[i].id != evs[j].id)
    && (forall k :: 0 <= k < |evs| ==> evs[k].shipmentId in ShipmentIds(rows))
  }

  /** The route index is a waypoint index and the active shipment, if any, exists. */
  predicate SimulationOk(sim: Simulation, rows: seq<Shipment>) {
    && sim.indexPos < |AUTHORIZED_ROUTE|
    && (sim.activeShipmentId.Some? ==> sim.activeShipmentId.value in ShipmentIds(rows))
  }

  /** `SELECT * FROM shipments WHERE id = ?`: the first row with that id. */
  function Lookup(rows: seq<Shipment>, id: string): (r: Option<Shipment>)
    ensures r.Some? <==> id in ShipmentIds(rows)
    ensures r.Some? ==> r.value in rows && r.value.id == id
  {
    if rows == [] then None
    else if rows[0].id == id then Some(rows[0])
    else
      assert ShipmentIds(rows) == {rows[0].id} + ShipmentIds(rows[1..]) by {
        assert rows == [rows[0]] + rows[1..];
      }
      Lookup(rows[1..], id)
  }

  /** The SET clause of an `UPDATE shipments` statement. */
  datatype RowUpdate =
    | Tick(offRoute: bool)        // a simulation step: status from the flag, weight - 0.01
    | Claim                       // the shipment becomes the active one: 'In Transit'
    | OverwriteWeight(w: real)    // a checkpoint scan that reports a weight

  function Apply(u: RowUpdate, s: Shipment): (r: Shipment)
    ensures r.id == s.id && r.productId == s.productId && r.origin == s.origin
    ensures r.destination == s.destination && r.initialWeight == s.initialWeight
    ensures r.createdAt == s.createdAt
    ensures u.Tick? ==> r.currentWeight == s.currentWeight - WEIGHT_DECREMENT
    ensures u.Tick? ==> (r.status == OffRoute <==> u.offRoute) && (r.status == InTransit <==> !u.offRoute)
    ensures u.Claim? ==> r.status == InTransit && r.currentWeight == s.currentWeight
    ensures u.OverwriteWeight? ==> r.currentWeight == u.w && r.status == s.status
  {
    match u
    case Tick(off) =>
      s.(status := if off then OffRoute else InTransit, currentWeight := s.currentWeight - WEIGHT_DECREMENT)
    case Claim => s.(status := InTransit)
    case OverwriteWeight(w) => s.(currentWeight := w)
  }

  /** `UPDATE shipments SET ... WHERE id = ?`: every row with that id is updated, no other row changes. */
  function UpdateWhere(rows: seq<Shipment>, id: string, u: RowUpdate): (r: seq<Shipment>)
    ensures |r| == |rows|
    ensures forall k :: 0 <= k < |rows| ==> r[k] == if rows[k].id == id then Apply(u, rows[k]) else rows[k]
  {
    if rows == [] then []
    else [if rows[0].id == id then Apply(u, rows[0]) else rows[0]] + UpdateWhere(rows[1..], id, u)
  }

  /** An update keeps every key, hence the primary key and what refers to it. */
  lemma UpdateWhereKeepsKeys(rows: seq<Shipment>, id: string, u: RowUpdate)
    ensures ShipmentIds(UpdateWhere(rows, id, u)) == ShipmentIds(rows)
    ensures UniqueShipmentIds(rows) ==> UniqueShipmentIds(UpdateWhere(rows, id, u))
  {
    var r := UpdateWhere(rows, id, u);
    assert forall k :: 0 <= k < |rows| ==> r[k].id == rows[k].id;
  }

  /** With a primary key, the one row with the id is the looked-up row, updated. */
  lemma UpdateWhereAtKey(rows: seq<Shipment>, id: string, u: RowUpdate)
    requires UniqueShipmentIds(rows) && id in ShipmentIds(rows)
    ensures Lookup(UpdateWhere(rows, id, u), id) == Some(Apply(u, Lookup(rows, id).value))
  {
    if rows[0].id != id {
      assert rows == [rows[0]] + rows[1..];
      assert ShipmentIds(rows) == {rows[0].id} + ShipmentIds(rows[1..]);
      UpdateWhereAtKey(rows[1..], id, u);
      assert UpdateWhere(rows, id, u)[1..] == UpdateWhere(rows[1..], id, u);
    }
  }

  /** Appending a row with a new key keeps the primary key. */
  lemma AppendKeepsKeys(rows: seq<Shipment>, s: Shipment)
    requires UniqueShipmentIds(rows) && s.id !in ShipmentIds(rows)
    ensures UniqueShipmentIds(rows + [s])
    ensures ShipmentIds(rows + [s]) == ShipmentIds(rows) + {s.id}
  {
    var r := rows + [s];
    forall x | x in ShipmentIds(r) ensures x in ShipmentIds(rows) + {s.id} {
      var k :| 0 <= k < |r| && r[k].id == x;
      if k < |rows| { assert rows[k].id == x; }
    }
    forall x | x in ShipmentIds(rows) + {s.id} ensures x in ShipmentIds(r) {
      if x == s.id {
        assert r[|rows|].id == x;
      } else {
        var k :| 0 <= k < |rows| && rows[k].id == x;
        assert r[k].id == x;
      }
    }
  }

  /** With a primary key, the looked-up row of a new key is the appended row. */
  lemma LookupAppended(rows: seq<Shipment>, s: Shipment)
    requires s.id !in ShipmentIds(rows)
    ensures Lookup(rows + [s], s.id) == Some(s)
    decreases |rows|
  {
    if rows != [] {
      assert (rows + [s])[1..] == rows[1..] + [s];
      assert rows[0] in rows;
      assert ShipmentIds(rows[1..]) <= ShipmentIds(rows) by {
        forall x | x in ShipmentIds(rows[1..]) ensures x in ShipmentIds(rows) {
          var t :| t in rows[1..] && t.id == x;
        }
      }
      LookupAppended(rows[1..], s);
    }
  }

  /** Appending an event with a new key that refers to an existing shipment keeps both keys. */
  lemma AppendEventKeepsKeys(rows: seq<Shipment>, evs: seq<Event>, e: Event)
    requires EventTableOk(rows, evs) && e.id !in EventIds(evs) && e.shipmentId in ShipmentIds(rows)
    ensures EventTableOk(rows, evs + [e])
  {
    forall i | 0 <= i < |evs| ensures evs[i].id != e.id {
      assert evs[i] in evs;
    }
  }

  // ---------------------------------------------------------------------------
  // Seeding (initializeDatabase)
  // ---------------------------------------------------------------------------

  /** The row `initializeDatabase` inserts into an empty simulation table. */
  function SeedSimulation(): (r: Simulation)
    ensures r.lat == AUTHORIZED_ROUTE[0].lat && r.lon == AUTHORIZED_ROUTE[0].lon
    ensures !r.offRoute && r.indexPos == 0 && r.activeShipmentId == None
    ensures forall rows :: SimulationOk(r, rows)
  {
    Simulation(AUTHORIZED_ROUTE[0].lat, AUTHORIZED_ROUTE[0].lon, false, 0, None)
  }

  // ---------------------------------------------------------------------------
  // One simulation tick (simulateGPSStep), without its writes
  // ---------------------------------------------------------------------------

  /** The random numbers one tick draws from `Math.random()`, each in [0, 1). */
  datatype StepDraws = StepDraws(jitterLat: real, jitterLon: real, temperature: real, humidity: real)

  predicate ValidDraws(d: StepDraws) {
    && 0.0 <= d.jitterLat < 1.0 && 0.0 <= d.jitterLon < 1.0
    && 0.0 <= d.temperature < 1.0 && 0.0 <= d.humidity < 1.0
  }

  /** `(i + 1) % AUTHORIZED_ROUTE.length`: the route index is always a waypoint index. */
  function NextIndex(i: nat): (r: nat)
    ensures r < |AUTHORIZED_ROUTE|
    ensures i < |AUTHORIZED_ROUTE| - 1 ==> r == i + 1
    ensures i == |AUTHORIZED_ROUTE| - 1 ==> r == 0
  {
    (i + 1) % |AUTHORIZED_ROUTE|
  }

  /** `(Math.random() - 0.5) * 0.002`: a displacement of less than `JITTER` degrees. */
  function Jitter(u: real): (j: real)
    requires 0.0 <= u < 1.0
    ensures -JITTER <= j < JITTER
  {
    (u - 0.5) * 0.002
  }

  /** The simulation row after one tick from `sim`: the next waypoint, jittered,
      with the off-route flag from the distance to that waypoint. */
  function SteppedSimulation(sim: Simulation, d: StepDraws, km: DistanceFn): (r: Simulation)
    requires ValidDraws(d)
    ensures r.indexPos < |AUTHORIZED_ROUTE| && r.indexPos == (sim.indexPos + 1) % |AUTHORIZED_ROUTE|
    ensures -JITTER <= r.lat - AUTHORIZED_ROUTE[r.indexPos].lat < JITTER
    ensures -JITTER <= r.lon - AUTHORIZED_ROUTE[r.indexPos].lon < JITTER
    ensures r.offRoute <==>
      km(r.lat, r.lon, AUTHORIZED_ROUTE[r.indexPos].lat, AUTHORIZED_ROUTE[r.indexPos].lon) > OFF_ROUTE_THRESHOLD
    ensures r.activeShipmentId == sim.activeShipmentId
  {
    var next := NextIndex(sim.indexPos);
    var target := AUTHORIZED_ROUTE[next];
    var newLat := target.lat + Jitter(d.jitterLat);
    var newLon := target.lon + Jitter(d.jitterLon);
    var off := km(newLat, newLon, target.lat, target.lon) > OFF_ROUTE_THRESHOLD;
    Simulation(newLat, newLon, off, next, sim.activeShipmentId)
  }

  /** The `GPS_UPDATE` event a tick logs for the active shipment: the new position and
      flag, simulated temperature and humidity, no weight. */
  function GpsEvent(eventId: string, shipmentId: string, sim: Simulation, d: StepDraws, now: nat): (e: Event)
    requires ValidDraws(d)
    ensures e.id == eventId && e.shipmentId == shipmentId && e.kind == GpsUpdate
    ensures e.latitude == Some(sim.lat) && e.longitude == Some(sim.lon)
    ensures e.weight == None && e.offRoute == sim.offRoute && e.timestamp == now
    ensures e.temperature.Some? && 20.0 <= e.temperature.value < 30.0
    ensures e.humidity.Some? && 40.0 <= e.humidity.value < 60.0
  {
    Event(eventId, shipmentId, GpsUpdate, Some(sim.lat), Some(sim.lon),
          Some(20.0 + d.temperature * 10.0), Some(40.0 + d.humidity * 20.0),
          None, sim.offRoute, now)
  }

  /** The simulation row after one tick per element of `ds`. */
  function RunSteps(sim: Simulation, ds: seq<StepDraws>, km: DistanceFn): Simulation
    requires forall k :: 0 <= k < |ds| ==> ValidDraws(ds[k])
    decreases |ds|
  {
    if ds == [] then sim else RunSteps(SteppedSimulation(sim, ds[0], km), ds[1..], km)
  }

  /** `n` ticks advance the route index by `n` modulo the route length, and keep the active shipment. */
  lemma {:induction false} RunStepsAdvance(sim: Simulation, ds: seq<StepDraws>, km: DistanceFn)
    requires forall k :: 0 <= k < |ds| ==> ValidDraws(ds[k])
    requires sim.indexPos < |AUTHORIZED_ROUTE|
    ensures RunSteps(sim, ds, km).indexPos == (sim.indexPos + |ds|) % |AUTHORIZED_ROUTE|
    ensures RunSteps(sim, ds, km).activeShipmentId == sim.activeShipmentId
    decreases |ds|
  {
    if ds != [] {
      var next := SteppedSimulation(sim, ds[0], km);
      RunStepsAdvance(next, ds[1..], km);
      ModAddOne(sim.indexPos + |ds| - 1);
    }
  }

  lemma ModAddOne(a: nat)
    ensures ((a % |AUTHORIZED_ROUTE|) + 1) % |AUTHORIZED_ROUTE| == (a + 1) % |AUTHORIZED_ROUTE|
  {
    var n := |AUTHORIZED_ROUTE|;
    var q, m := a / n, a % n;
    assert a == n * q + m;
    if m + 1 < n {
      assert a + 1 == n * q + (m + 1);
    } else {
      assert a + 1 == n * (q + 1) + 0;
    }
  }

  /** As many ticks as the route has waypoints bring the route index back to where it started. */
  lemma RouteIsCyclic(sim: Simulation, ds: seq<StepDraws>, km: DistanceFn)
    requires forall k :: 0 <= k < |ds| ==> ValidDraws(ds[k])
    requires sim.indexPos < |AUTHORIZED_ROUTE| && |ds| == |AUTHORIZED_ROUTE|
    ensures RunSteps(sim, ds, km).indexPos == sim.indexPos
  {
    RunStepsAdvance(sim, ds, km);
  }

  /** The shipment row after one `Tick` per flag in `offs`. */
  function RunTicks(s: Shipment, offs: seq<bool>): Shipment
    decreases |offs|
  {
    if offs == [] then s else RunTicks(Apply(Tick(offs[0]), s), offs[1..])
  }

  /** Every tick lowers the current weight by exactly 0.01 kg, without a floor, and
      leaves the initial weight alone; the last flag decides the status. */
  lemma {:induction false} RunTicksLowerWeight(s: Shipment, offs: seq<bool>)
    ensures RunTicks(s, offs).currentWeight == s.currentWeight - WEIGHT_DECREMENT * (|offs| as real)
    ensures RunTicks(s, offs).initialWeight == s.initialWeight && RunTicks(s, offs).id == s.id
    ensures offs != [] ==> RunTicks(s, offs).status == (if offs[|offs| - 1] then OffRoute else InTransit)
    decreases |offs|
  {
    if offs != [] {
      RunTicksLowerWeight(Apply(Tick(offs[0]), s), offs[1..]);
      if |offs| > 1 {
        assert offs[1..][|offs[1..]| - 1] == offs[|offs| - 1];
      }
    }
  }

  // ---------------------------------------------------------------------------
  // Request validation
  // ---------------------------------------------------------------------------

  /** A JavaScript number after `Number(...)` coercion. */
  datatype JsNumber = Finite(value: real) | NaN | PosInfinity | NegInfinity

  /** Result of a handler or a validation step: success, 400 or 404. */
  datatype Reply<+T> = Ok(value: T) | BadRequest(error: string) | NotFound(error: string)

  /** The body of POST /shipments. A missing field is `None`; `initialWeight` is
      the number it coerces to. */
  datatype CreateRequest = CreateRequest(
    productId: Option<string>,
    origin: Option<string>,
    destination: Option<string>,
    initialWeight: Option<JsNumber>)

  /** JavaScript truthiness of an optional string field. */
  predicate Truthy(f: Option<string>) {
    f.Some? && f.value != ""
  }

  predicate RequiredFieldsPresent(req: CreateRequest) {
    Truthy(req.productId) && Truthy(req.origin) && Truthy(req.destination) && req.initialWeight.Some?
  }

  /** The checks of POST /shipments, in their order: the required fields, then a finite positive weight. */
  function ValidateCreate(req: CreateRequest): (r: Reply<real>)
    ensures r.Ok? || r.BadRequest?
    ensures !RequiredFieldsPresent(req) ==> r == BadRequest(MISSING_FIELDS)
    ensures RequiredFieldsPresent(req) && !(req.initialWeight.value.Finite? && req.initialWeight.value.value > 0.0)
      ==> r == BadRequest(WEIGHT_NOT_POSITIVE)
    ensures r.Ok? <==> RequiredFieldsPresent(req) && req.initialWeight.value.Finite? && req.initialWeight.value.value > 0.0
    ensures r.Ok? ==> r.value == req.initialWeight.value.value && r.value > 0.0
  {
    if !RequiredFieldsPresent(req) then BadRequest(MISSING_FIELDS)
    else
      match req.initialWeight.value
      case Finite(w) => if w <= 0.0 then BadRequest(WEIGHT_NOT_POSITIVE) else Ok(w)
      case _ => BadRequest(WEIGHT_NOT_POSITIVE)
  }

  /** The row POST /shipments inserts: status 'Pending', current weight equal to the initial weight. */
  function NewShipment(req: CreateRequest, id: string, weight: real, now: nat): (s: Shipment)
    requires RequiredFieldsPresent(req)
    ensures s.id == id && s.status == Pending && s.createdAt == now
    ensures s.initialWeight == weight && s.currentWeight == s.initialWeight
    ensures s.productId == req.productId.value && s.origin == req.origin.value
    ensures s.destination == req.destination.value
  {
    Shipment(id, req.productId.value, req.origin.value, req.destination.value, weight, weight, Pending, now)
  }

  /** The body of POST /shipments/:id/scan. `weight` is `None` when undefined or null. */
  datatype ScanRequest = ScanRequest(
    latitude: Option<real>,
    longitude: Option<real>,
    temperature: Option<real>,
    humidity: Option<real>,
    weight: Option<JsNumber>)

  /** The optional weight of a scan: absent is accepted, present must be finite. */
  function ValidateScanWeight(w: Option<JsNumber>): (r: Reply<Option<real>>)
    ensures r.Ok? || r == BadRequest(WEIGHT_NOT_NUMBER)
    ensures r.Ok? <==> (w.None? || w.value.Finite?)
    ensures r.Ok? ==> (r.value.Some? <==> w.Some?)
    ensures r.Ok? && w.Some? ==> r.value.value == w.value.value
  {
    match w
    case None => Ok(None)
    case Some(Finite(v)) => Ok(Some(v))
    case Some(_) => BadRequest(WEIGHT_NOT_NUMBER)
  }

  /** The `CHECKPOINT_SCAN` event of a scan: the reported readings, never off route. */
  function ScanEvent(eventId: string, shipmentId: string, req: ScanRequest, weight: Option<real>, now: nat): (e: Event)
    ensures e.id == eventId && e.shipmentId == shipmentId && e.kind == CheckpointScan
    ensures !e.offRoute && e.weight == weight && e.timestamp == now
    ensures e.latitude == req.latitude && e.longitude == req.longitude
    ensures e.temperature == req.temperature && e.humidity == req.humidity
  {
    Event(eventId, shipmentId, CheckpointScan, req.latitude, req.longitude,
          req.temperature, req.humidity, weight, false, now)
  }

  // ---------------------------------------------------------------------------
  // Read queries (GET /shipments, GET /shipments/:id, GET /events)
  // ---------------------------------------------------------------------------

  function CreatedAt(s: Shipment): int { s.createdAt }
  function Timestamp(e: Event): int { e.timestamp }

  /** GET /shipments: every row, newest first by creation time. */
  function ListShipments(rows: seq<Shipment>): (r: seq<Shipment>)
    ensures multiset(r) == multiset(rows)
    ensures forall i, j :: 0 <= i < j < |r| ==> r[i].createdAt >= r[j].createdAt
  {
    var r := Ordering.SortNewestFirst(rows, CreatedAt);
    assert forall i, j :: 0 <= i < j < |r| ==> CreatedAt(r[i]) >= CreatedAt(r[j]);
    r
  }

  /** `WHERE shipmentId = ?`: the events of one shipment, in table order. */
  function EventsOf(evs: seq<Event>, id: string): (r: seq<Event>)
    ensures forall e :: multiset(r)[e] == if e.shipmentId == id then multiset(evs)[e] else 0
  {
    if evs == [] then []
    else
      assert evs == [evs[0]] + evs[1..];
      (if evs[0].shipmentId == id then [evs[0]] else []) + EventsOf(evs[1..], id)
  }

  /** A shipment with its events, as GET /shipments/:id returns them. */
  datatype ShipmentDetail = ShipmentDetail(shipment: Shipment, events: seq<Event>)

  /** GET /shipments/:id: 404 for an unknown id, otherwise the row and exactly its
      events, newest first. */
  function GetShipment(rows: seq<Shipment>, evs: seq<Event>, id: string): (r: Reply<ShipmentDetail>)
    ensures r.NotFound? <==> id !in ShipmentIds(rows)
    ensures r.NotFound? ==> r.error == SHIPMENT_NOT_FOUND
    ensures r.Ok? || r.NotFound?
    ensures r.Ok? ==> r.value.shipment in rows && r.value.shipment.id == id
    ensures r.Ok? ==> forall e :: multiset(r.value.events)[e] == if e.shipmentId == id then multiset(evs)[e] else 0
    ensures r.Ok? ==> forall i, j :: 0 <= i < j < |r.value.events| ==>
      r.value.events[i].timestamp >= r.value.events[j].timestamp
  {
    match Lookup(rows, id)
    case None => NotFound(SHIPMENT_NOT_FOUND)
    case Some(s) =>
      var own := Ordering.SortNewestFirst(EventsOf(evs, id), Timestamp);
      assert forall i, j :: 0 <= i < j < |own| ==> Timestamp(own[i]) >= Timestamp(own[j]);
      Ok(ShipmentDetail(s, own))
  }

  /** GET /events: the 100 newest events of all shipments, newest first; no event left
      out is newer than one returned. */
  function ListEvents(evs: seq<Event>): (r: seq<Event>)
    ensures |r| == Ordering.Min(EVENT_LISTING_LIMIT, |evs|)
    ensures multiset(r) <= multiset(evs)
    ensures forall i, j :: 0 <= i < j < |r| ==> r[i].timestamp >= r[j].timestamp
    ensures forall x, y :: x in multiset(evs) - multiset(r) && y in r ==> x.timestamp <= y.timestamp
  {
    Ordering.Newest(evs, Timestamp, EVENT_LISTING_LIMIT)
  }
}
