/** The backend's database and the handlers that write to it
    (precursor-backend/server.js): `initializeDatabase`, `simulateGPSStep`,
    POST /shipments, POST /shipments/:id/scan and POST /simulate/step. Each method performs the
    source's writes in the source's order; its contract gives the whole new
    state in terms of the `Ledger` functions. */
module Backend {
  import opened Wrappers
  import opened Geo
  import opened Ledger

  class Database {
    /** The simulation table: empty, or its single row (id = 1). */
    var simulation: Option<Simulation>
    /** The shipments table, in insertion order. */
    var shipments: seq<Shipment>
    /** The events table, in insertion order; rows are only ever appended. */
    var events: seq<Event>

    /** The invariant every handler runs under: the simulation row exists, both
        primary keys hold, every event and the active shipment refer to a shipment,
        and the route index is a waypoint index. */
    ghost predicate Valid()
      reads this
    {
      && simulation.Some?
      && UniqueShipmentIds(shipments)
      && EventTableOk(shipments, events)
      && SimulationOk(simulation.value, shipments)
    }

    /** Opens the database file with the tables it already holds (all empty for a new file). */
    constructor (simulation0: Option<Simulation>, shipments0: seq<Shipment>, events0: seq<Event>)
      ensures simulation == simulation0 && shipments == shipments0 && events == events0
    {
      simulation := simulation0;
      shipments := shipments0;
      events := events0;
    }

    /** `initializeDatabase`: seeds the simulation row at the first waypoint, idle,
        only when the table has no row; an existing row is kept as it is. */
    method InitializeDatabase()
      modifies this
      ensures old(simulation).None? ==> simulation == Some(SeedSimulation())
      ensures old(simulation).Some? ==> simulation == old(simulation)
      ensures shipments == old(shipments) && events == old(events)
      ensures UniqueShipmentIds(shipments) && EventTableOk(shipments, events)
              && (old(simulation).Some? ==> SimulationOk(old(simulation).value, shipments))
              ==> Valid()
    {
      if simulation.None? {
        simulation := Some(Simulation(AUTHORIZED_ROUTE[0].lat, AUTHORIZED_ROUTE[0].lon, false, 0, None));
      }
    }

    /** `simulateGPSStep`: with no active shipment nothing changes. Otherwise the
        simulation row moves to the next waypoint plus jitter with its off-route flag,
        the active shipment (and no other) gets the matching status and loses 0.01 kg,
        and one `GPS_UPDATE` event is appended. `d` holds the `Math.random()` draws,
        `eventId` the fresh UUID, `now` the clock, `km` the haversine distance. */
    method SimulateGpsStep(d: StepDraws, eventId: string, now: nat, km: DistanceFn)
      requires Valid()
      requires ValidDraws(d)
      requires eventId != "" && eventId !in EventIds(events)
      modifies this
      ensures Valid()
      ensures old(simulation.value.activeShipmentId).None? ==>
        simulation == old(simulation) && shipments == old(shipments) && events == old(events)
      ensures old(simulation.value.activeShipmentId).Some? ==>
        var active := old(simulation.value.activeShipmentId.value);
        var sim := SteppedSimulation(old(simulation.value), d, km);
        && simulation == Some(sim)
        && shipments == UpdateWhere(old(shipments), active, Tick(sim.offRoute))
        && events == old(events) + [GpsEvent(eventId, active, sim, d, now)]
    {
      var sim := simulation.value;
      if sim.activeShipmentId.None? {
        return;
      }
      var active := sim.activeShipmentId.value;

      var nextIndex := (sim.indexPos + 1) % |AUTHORIZED_ROUTE|;
      var targetPoint := AUTHORIZED_ROUTE[nextIndex];
      var jitterLat := (d.jitterLat - 0.5) * 0.002;
      var jitterLon := (d.jitterLon - 0.5) * 0.002;
      var newLat := targetPoint.lat + jitterLat;
      var newLon := targetPoint.lon + jitterLon;
      var distance := km(newLat, newLon, targetPoint.lat, targetPoint.lon);
      var isOffRoute := distance > OFF_ROUTE_THRESHOLD;

      var newSim := Simulation(newLat, newLon, isOffRoute, nextIndex, sim.activeShipmentId);
      assert newSim == SteppedSimulation(sim, d, km);
      var temperature := 20.0 + d.temperature * 10.0;
      var humidity := 40.0 + d.humidity * 20.0;
      var e := Event(eventId, active, GpsUpdate, Some(newLat), Some(newLon),
                     Some(temperature), Some(humidity), None, isOffRoute, now);
      assert e == GpsEvent(eventId, active, newSim, d, now);
      WritesKeepInvariant(sim, shipments, events, newSim, active, Tick(isOffRoute), e);

      // UPDATE simulation SET lat, lon, offRoute, indexPos
      simulation := Some(newSim);
      // UPDATE shipments SET status, currentWeight = currentWeight - 0.01 WHERE id = active
      shipments := UpdateWhere(shipments, active, Tick(isOffRoute));
      // INSERT INTO events (GPS_UPDATE)
      events := events + [e];
    }

    /** POST /shipments: 400 with nothing written when a required field is missing or
        the weight is not a finite positive number. Otherwise one 'Pending' row with
        current weight equal to initial weight is inserted; if the simulation is idle
        that row becomes the active shipment, 'In Transit', and the route index restarts
        at 0. An active shipment is never replaced. The reply is the stored row. */
    method CreateShipment(req: CreateRequest, shipmentId: string, now: nat) returns (reply: Reply<Shipment>)
      requires Valid()
      requires shipmentId != "" && shipmentId !in ShipmentIds(shipments)
      modifies this
      ensures Valid()
      ensures events == old(events)
      ensures ValidateCreate(req).BadRequest? ==>
        && reply == BadRequest(ValidateCreate(req).error)
        && simulation == old(simulation) && shipments == old(shipments)
      ensures ValidateCreate(req).Ok? ==>
        var row := NewShipment(req, shipmentId, ValidateCreate(req).value, now);
        if old(simulation.value.activeShipmentId).None? then
          && simulation == Some(old(simulation.value).(activeShipmentId := Some(shipmentId), indexPos := 0))
          && shipments == old(shipments) + [Apply(Claim, row)]
          && reply == Ok(Apply(Claim, row))
        else
          && simulation == old(simulation)
          && shipments == old(shipments) + [row]
          && reply == Ok(row)
    {
      var checked := ValidateCreate(req);
      if checked.BadRequest? {
        return BadRequest(checked.error);
      }
      var weight := checked.value;

      var row := Shipment(shipmentId, req.productId.value, req.origin.value, req.destination.value,
                          weight, weight, Pending, now);
      var stored := InsertShipment(row);
      reply := Ok(stored);
    }

    /** The writes of POST /shipments for a validated row with a new key: the insert,
        the claim of an idle simulation, and the read-back of the stored row. */
    method InsertShipment(row: Shipment) returns (stored: Shipment)
      requires Valid()
      requires row.id != "" && row.id !in ShipmentIds(shipments)
      modifies this
      ensures Valid()
      ensures events == old(events)
      ensures old(simulation.value.activeShipmentId).None? ==>
        && simulation == Some(old(simulation.value).(activeShipmentId := Some(row.id), indexPos := 0))
        && shipments == old(shipments) + [Apply(Claim, row)]
        && stored == Apply(Claim, row)
      ensures old(simulation.value.activeShipmentId).Some? ==>
        simulation == old(simulation) && shipments == old(shipments) + [row] && stored == row
    {
      ghost var rows := shipments;
      CreateKeepsInvariant(simulation.value, rows, events, row);
      // INSERT INTO shipments (..., 'Pending', createdAt)
      AppendShipment(row);
      if simulation.value.activeShipmentId.None? {
        ClaimShipment(row.id);
      }

      // SELECT * FROM shipments WHERE id = shipmentId
      stored := Lookup(shipments, row.id).value;
    }

    /** The insert of POST /shipments: a row with a new key is appended. */
    method AppendShipment(row: Shipment)
      requires Valid()
      requires row.id != "" && row.id !in ShipmentIds(shipments)
      modifies this
      ensures Valid()
      ensures simulation == old(simulation) && events == old(events)
      ensures shipments == old(shipments) + [row]
    {
      CreateKeepsInvariant(simulation.value, shipments, events, row);
      shipments := shipments + [row];
    }

    /** The claim of an idle simulation by a stored shipment: the simulation drives it
        from the first waypoint and the row becomes 'In Transit'. */
    method ClaimShipment(id: string)
      requires Valid() && simulation.value.activeShipmentId.None?
      requires id in ShipmentIds(shipments)
      modifies this
      ensures Valid()
      ensures events == old(events)
      ensures simulation == Some(old(simulation.value).(activeShipmentId := Some(id), indexPos := 0))
      ensures shipments == UpdateWhere(old(shipments), id, Claim)
    {
      UpdateWhereKeepsKeys(shipments, id, Claim);
      // UPDATE simulation SET activeShipmentId, indexPos = 0
      simulation := Some(simulation.value.(activeShipmentId := Some(id), indexPos := 0));
      // UPDATE shipments SET status = 'In Transit' WHERE id = shipmentId
      shipments := UpdateWhere(shipments, id, Claim);
    }

    /** POST /shipments/:id/scan: 404 for an unknown shipment, then 400 for a weight
        that is not finite, both with nothing written. Otherwise one `CHECKPOINT_SCAN`
        event, never off route, is appended, and the shipment's current weight is
        overwritten only when a weight was sent. The reply is the stored event. */
    method RecordCheckpointScan(id: string, req: ScanRequest, eventId: string, now: nat) returns (reply: Reply<Event>)
      requires Valid()
      requires eventId != "" && eventId !in EventIds(events)
      modifies this
      ensures Valid()
      ensures simulation == old(simulation)
      ensures id !in ShipmentIds(old(shipments)) ==>
        reply == NotFound(SHIPMENT_NOT_FOUND) && shipments == old(shipments) && events == old(events)
      ensures id in ShipmentIds(old(shipments)) && ValidateScanWeight(req.weight).BadRequest? ==>
        reply == BadRequest(WEIGHT_NOT_NUMBER) && shipments == old(shipments) && events == old(events)
      ensures id in ShipmentIds(old(shipments)) && ValidateScanWeight(req.weight).Ok? ==>
        var weight := ValidateScanWeight(req.weight).value;
        var e := ScanEvent(eventId, id, req, weight, now);
        && events == old(events) + [e]
        && reply == Ok(e)
        && shipments == (if weight.Some? then UpdateWhere(old(shipments), id, OverwriteWeight(weight.value))
                         else old(shipments))
    {
      var shipment := Lookup(shipments, id);
      if shipment.None? {
        return NotFound(SHIPMENT_NOT_FOUND);
      }
      var weightNum: Option<real> := None;
      if req.weight.Some? {
        if !req.weight.value.Finite? {
          return BadRequest(WEIGHT_NOT_NUMBER);
        }
        weightNum := Some(req.weight.value.value);
      }

      var e := Event(eventId, id, CheckpointScan, req.latitude, req.longitude,
                     req.temperature, req.humidity, weightNum, false, now);
      assert e == ScanEvent(eventId, id, req, weightNum, now);
      StoreScan(e, weightNum);
      reply := Ok(e);
    }

    /** The writes of a validated scan of a stored shipment: the event with a new key,
        then the weight overwrite when a weight was sent. */
    method StoreScan(e: Event, weight: Option<real>)
      requires Valid()
      requires e.id != "" && e.id !in EventIds(events) && e.shipmentId in ShipmentIds(shipments)
      modifies this
      ensures Valid()
      ensures simulation == old(simulation)
      ensures events == old(events) + [e]
      ensures shipments == (if weight.Some? then UpdateWhere(old(shipments), e.shipmentId, OverwriteWeight(weight.value))
                            else old(shipments))
    {
      // INSERT INTO events (CHECKPOINT_SCAN, offRoute = 0)
      AppendEventKeepsKeys(shipments, events, e);
      events := events + [e];

      // UPDATE shipments SET currentWeight = ? WHERE id = ?
      if weight.Some? {
        UpdateWhereKeepsKeys(shipments, e.shipmentId, OverwriteWeight(weight.value));
        shipments := UpdateWhere(shipments, e.shipmentId, OverwriteWeight(weight.value));
      }
    }
    /** GET /simulate: the simulation row as reported, with the flag as a boolean; its
        route index is a waypoint index and its active shipment, if any, is stored. */
    function Simulate(): (r: SimulationView)
      requires Valid()
      reads this
      ensures r.indexPos < |AUTHORIZED_ROUTE|
      ensures r.activeShipmentId.Some? ==> Lookup(shipments, r.activeShipmentId.value).Some?
      ensures r.lat == simulation.value.lat && r.lon == simulation.value.lon
      ensures r.offRoute == simulation.value.offRoute
      ensures r.indexPos == simulation.value.indexPos
      ensures r.activeShipmentId == simulation.value.activeShipmentId
    {
      var sim := simulation.value;
      SimulationView(sim.lat, sim.lon, sim.offRoute, sim.activeShipmentId, sim.indexPos)
    }

    /** POST /simulate/step: one GPS step, then the new row's position, flag and active
        shipment, which the step never changes, without the route index. */
    method StepOnRequest(d: StepDraws, eventId: string, now: nat, km: DistanceFn) returns (reply: StepReply)
      requires Valid()
      requires ValidDraws(d)
      requires eventId != "" && eventId !in EventIds(events)
      modifies this
      ensures Valid()
      ensures old(simulation.value.activeShipmentId).None? ==>
        simulation == old(simulation) && shipments == old(shipments) && events == old(events)
      ensures old(simulation.value.activeShipmentId).Some? ==>
        var active := old(simulation.value.activeShipmentId.value);
        var sim := SteppedSimulation(old(simulation.value), d, km);
        && simulation == Some(sim)
        && shipments == UpdateWhere(old(shipments), active, Tick(sim.offRoute))
        && events == old(events) + [GpsEvent(eventId, active, sim, d, now)]
      ensures reply.message == STEP_EXECUTED
      ensures reply.lat == simulation.value.lat && reply.lon == simulation.value.lon
      ensures reply.offRoute == simulation.value.offRoute
      ensures reply.activeShipmentId == simulation.value.activeShipmentId == old(simulation.value.activeShipmentId)
    {
      SimulateGpsStep(d, eventId, now, km);
      var sim := simulation.value;
      reply := StepReply(STEP_EXECUTED, sim.lat, sim.lon, sim.offRoute, sim.activeShipmentId);
    }
  }


  /** The message of a POST /simulate/step reply. */
  const STEP_EXECUTED: string := "Simulation step executed"

  /** The body of a POST /simulate/step reply. */
  datatype StepReply = StepReply(message: string, lat: real, lon: real, offRoute: bool,
                                 activeShipmentId: Option<string>)

  /** The body of a GET /simulate reply. */
  datatype SimulationView = SimulationView(lat: real, lon: real, offRoute: bool,
                                           activeShipmentId: Option<string>, indexPos: nat)

  /** A tick's or a scan's three writes keep the invariant: an update of an existing
      shipment, an event with a new key for it, a simulation row with a waypoint index
      and the same active shipment. */
  lemma WritesKeepInvariant(sim: Simulation, rows: seq<Shipment>, evs: seq<Event>, newSim: Simulation,
                            id: string, u: RowUpdate, e: Event)
    requires UniqueShipmentIds(rows) && EventTableOk(rows, evs) && SimulationOk(sim, rows)
    requires id in ShipmentIds(rows) && e.shipmentId == id && e.id !in EventIds(evs)
    requires newSim.indexPos < |AUTHORIZED_ROUTE| && newSim.activeShipmentId == sim.activeShipmentId
    ensures UniqueShipmentIds(UpdateWhere(rows, id, u))
    ensures EventTableOk(UpdateWhere(rows, id, u), evs + [e])
    ensures SimulationOk(newSim, UpdateWhere(rows, id, u))
  {
    UpdateWhereKeepsKeys(rows, id, u);
    AppendEventKeepsKeys(rows, evs, e);
  }

  /** The writes of POST /shipments keep the invariant: the appended row has a new key,
      claiming it changes that row alone, and the looked-up row is the stored one. */
  lemma CreateKeepsInvariant(sim: Simulation, rows: seq<Shipment>, evs: seq<Event>, row: Shipment)
    requires UniqueShipmentIds(rows) && EventTableOk(rows, evs) && SimulationOk(sim, rows)
    requires row.id !in ShipmentIds(rows)
    ensures UniqueShipmentIds(rows + [row]) && EventTableOk(rows + [row], evs) && SimulationOk(sim, rows + [row])
    ensures Lookup(rows + [row], row.id) == Some(row)
    ensures UpdateWhere(rows + [row], row.id, Claim) == rows + [Apply(Claim, row)]
    ensures UniqueShipmentIds(rows + [Apply(Claim, row)]) && EventTableOk(rows + [Apply(Claim, row)], evs)
    ensures SimulationOk(sim.(activeShipmentId := Some(row.id), indexPos := 0), rows + [Apply(Claim, row)])
    ensures Lookup(rows + [Apply(Claim, row)], row.id) == Some(Apply(Claim, row))
  {
    AppendKeepsKeys(rows, row);
    AppendKeepsKeys(rows, Apply(Claim, row));
    UpdateWhereAppended(rows, row, Claim);
    LookupAppended(rows, row);
    LookupAppended(rows, Apply(Claim, row));
  }

  /** Updating the freshly appended row by its new key changes only that row. */
  lemma UpdateWhereAppended(rows: seq<Shipment>, s: Shipment, u: RowUpdate)
    requires s.id !in ShipmentIds(rows)
    ensures UpdateWhere(rows + [s], s.id, u) == rows + [Apply(u, s)]
  {
    var r := UpdateWhere(rows + [s], s.id, u);
    forall k | 0 <= k < |rows| ensures r[k] == rows[k] {
      assert rows[k].id in ShipmentIds(rows);
    }
  }
}
