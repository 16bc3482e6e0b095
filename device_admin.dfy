/**
 * The privileged write gateway (supabase/functions/device-admin/index.ts): a
 * dispatcher over four tagged actions that writes to the `devices` table and,
 * for state updates, appends a best-effort audit event to `sensor_events`.
 * The order of checks is: preflight, body parse, environment, dispatch.
 */
module DeviceAdmin {
  import opened Wrappers
  import opened Types
  import opened Http
  import opened Supabase

  /** Every response of the gateway carries these headers, the preflight included. */
  const CorsHeaders: map<string, string> := map[
    "Access-Control-Allow-Origin" := "*",
    "Access-Control-Allow-Headers" := "authorization, x-client-info, apikey, content-type",
    "Content-Type" := "application/json"
  ]

  /** The request body, read as the `Action` union. Every field is what the
      parsed body holds under that key (None when the key is absent); the
      TypeScript cast checks nothing, so an unrecognised tag is its own case. */
  datatype Action =
    | UpdateDeviceState(id: Option<Json>, newState: Option<Json>, eventAction: Option<Json>)
    | CreateDevice(name: Option<Json>, deviceType: Option<Json>, locationId: Option<Json>,
                   state: Option<Json>, metadata: Option<Json>)
    | UpdateDevice(id: Option<Json>, name: Option<Json>, deviceType: Option<Json>, locationId: Option<Json>)
    | DeleteDevice(id: Option<Json>)
    | UnknownAction

  /** `switch (body.action)`: strict equality with one of the four tags picks
      that variant; anything else (another string, a non-string, no tag) is
      unknown. */
  function Decode(body: Json): (a: Action)
    ensures a.UpdateDeviceState? <==> Field(body, "action") == Some(JString("update_device_state"))
    ensures a.CreateDevice? <==> Field(body, "action") == Some(JString("create_device"))
    ensures a.UpdateDevice? <==> Field(body, "action") == Some(JString("update_device"))
    ensures a.DeleteDevice? <==> Field(body, "action") == Some(JString("delete_device"))
    ensures a.UpdateDeviceState? || a.UpdateDevice? || a.DeleteDevice? ==> a.id == Field(body, "id")
    ensures a.UpdateDeviceState? ==>
      a.newState == Field(body, "newState") && a.eventAction == Field(body, "eventAction")
    ensures a.CreateDevice? || a.UpdateDevice? ==>
      a.name == Field(body, "name") && a.deviceType == Field(body, "type") &&
      a.locationId == Field(body, "location_id")
    ensures a.CreateDevice? ==> a.state == Field(body, "state") && a.metadata == Field(body, "metadata")
  {
    match Field(body, "action")
    case Some(JString(tag)) =>
      if tag == "update_device_state" then
        UpdateDeviceState(Field(body, "id"), Field(body, "newState"), Field(body, "eventAction"))
      else if tag == "create_device" then
        CreateDevice(Field(body, "name"), Field(body, "type"), Field(body, "location_id"),
                     Field(body, "state"), Field(body, "metadata"))
      else if tag == "update_device" then
        UpdateDevice(Field(body, "id"), Field(body, "name"), Field(body, "type"), Field(body, "location_id"))
      else if tag == "delete_device" then
        DeleteDevice(Field(body, "id"))
      else UnknownAction
    case _ => UnknownAction
  }

  /** `Deno.env.get("SUPABASE_URL")` and `Deno.env.get("SUPABASE_SERVICE_ROLE_KEY")`. */
  datatype Env = Env(supabaseUrl: Option<string>, serviceRoleKey: Option<string>)

  /** Both variables are set and non-empty. */
  predicate Configured(env: Env) {
    Present(env.supabaseUrl) && Present(env.serviceRoleKey)
  }

  /** The failures the store reports for the two writes a request can make:
      the primary write to `devices`, and the audit insert into `sensor_events`. */
  datatype Faults = Faults(primary: Option<string>, audit: Option<string>)

  /** The empty preflight reply. */
  const Preflight: Response := Response(DefaultStatus, CorsHeaders, None)

  /** `{ ok: true }` at the default status. */
  const Done: Response := Response(DefaultStatus, CorsHeaders, Some(JObject(map["ok" := JBool(true)])))

  /** `{ error: message }` at `status`. */
  function Failure(status: int, message: string): Response {
    Response(status, CorsHeaders, Some(JObject(map["error" := JString(message)])))
  }

  /** The audit event label: `eventAction ?? "device_action"`. */
  function EventType(eventAction: Option<Json>): Json {
    OrElse(eventAction, JString("device_action"))
  }

  /** The row `create_device` inserts. */
  function NewRow(a: Action, now: string): (r: DeviceRow)
    requires a.CreateDevice? && a.name.Some? && a.deviceType.Some? && a.locationId.Some?
    ensures r.name == a.name.value && r.deviceType == a.deviceType.value && r.locationId == a.locationId.value
    ensures !Nullish(a.state) ==> Some(r.state) == a.state
    ensures Nullish(a.state) ==> r.state == EmptyObject
    ensures !Nullish(a.metadata) ==> Some(r.metadata) == a.metadata
    ensures Nullish(a.metadata) ==> r.metadata == EmptyObject
    ensures r.lastSeen == Some(now)
  {
    DeviceRow(a.name.value, a.deviceType.value, a.locationId.value,
              OrElse(a.state, EmptyObject), OrElse(a.metadata, EmptyObject), Some(now))
  }

  /** The request reaches the `switch`: not a preflight, a body that parsed to a
      value other than `null` (reading `.action` of `null` throws), and a
      configured environment. */
  predicate Dispatches(req: Request, env: Env) {
    req.verb != "OPTIONS" && req.body.Parsed? && Configured(env) && req.body.value != JNull
  }

  /** The handler. `now` is `new Date().toISOString()`. */
  method Serve(db: Database, req: Request, env: Env, faults: Faults, now: string, freshId: string)
    returns (resp: Response)
    requires freshId !in db.devices
    modifies db
    // Preflight: no parsing, no environment check, no writes.
    ensures req.verb == "OPTIONS" ==> resp == Preflight && unchanged(db)
    // A body that does not parse is rejected before the environment is looked at.
    ensures req.verb != "OPTIONS" && req.body.Malformed? ==>
      resp == Failure(400, "Invalid request") && unchanged(db)
    // Missing configuration fails closed before any dispatch, whatever the tag.
    ensures req.verb != "OPTIONS" && req.body.Parsed? && !Configured(env) ==>
      resp == Failure(500, "Missing Supabase env") && unchanged(db)
    ensures req.verb != "OPTIONS" && req.body == Parsed(JNull) && Configured(env) ==>
      resp == Failure(400, "Invalid request") && unchanged(db)
    // Unknown tags.
    ensures Dispatches(req, env) && Decode(req.body.value).UnknownAction? ==>
      resp == Failure(400, "Unknown action") && unchanged(db)
    // update_device_state
    ensures Dispatches(req, env) && Decode(req.body.value).UpdateDeviceState? ==>
      var a := Decode(req.body.value);
      if !Truthy(a.id) then
        resp == Failure(400, "Missing id") && unchanged(db)
      else
        var state := OrElse(a.newState, EmptyObject);
        var event := Event(a.id.value, EventType(a.eventAction), state);
        if faults.primary.Some? then
          resp == Failure(400, faults.primary.value) &&
          db.calls == old(db.calls) + [SetState(a.id.value, state, now)] &&
          db.devices == old(db.devices) && db.events == old(db.events)
        else
          // the audit insert's outcome never reaches the caller
          resp == Done &&
          db.calls == old(db.calls) + [SetState(a.id.value, state, now), AddEvent(event)] &&
          db.devices == WithState(old(db.devices), a.id.value, state, now) &&
          db.events == old(db.events) + (if faults.audit.None? then [event] else [])
    // create_device
    ensures Dispatches(req, env) && Decode(req.body.value).CreateDevice? ==>
      var a := Decode(req.body.value);
      if !Truthy(a.name) || !Truthy(a.deviceType) || !Truthy(a.locationId) then
        resp == Failure(400, "Missing required fields") && unchanged(db)
      else
        db.calls == old(db.calls) + [AddDevice(NewRow(a, now))] && db.events == old(db.events) &&
        if faults.primary.Some? then
          resp == Failure(400, faults.primary.value) && db.devices == old(db.devices)
        else
          resp == Done && db.devices == old(db.devices)[freshId := NewRow(a, now)]
    // update_device
    ensures Dispatches(req, env) && Decode(req.body.value).UpdateDevice? ==>
      var a := Decode(req.body.value);
      if !Truthy(a.id) || !Truthy(a.name) || !Truthy(a.deviceType) || !Truthy(a.locationId) then
        resp == Failure(400, "Missing fields") && unchanged(db)
      else
        db.calls == old(db.calls) + [SetInfo(a.id.value, a.name.value, a.deviceType.value, a.locationId.value)] &&
        db.events == old(db.events) &&
        if faults.primary.Some? then
          resp == Failure(400, faults.primary.value) && db.devices == old(db.devices)
        else
          resp == Done &&
          db.devices == WithInfo(old(db.devices), a.id.value, a.name.value, a.deviceType.value, a.locationId.value)
    // delete_device
    ensures Dispatches(req, env) && Decode(req.body.value).DeleteDevice? ==>
      var a := Decode(req.body.value);
      if !Truthy(a.id) then
        resp == Failure(400, "Missing id") && unchanged(db)
      else
        db.calls == old(db.calls) + [RemoveDevice(a.id.value)] && db.events == old(db.events) &&
        if faults.primary.Some? then
          resp == Failure(400, faults.primary.value) && db.devices == old(db.devices)
        else
          resp == Done && db.devices == Without(old(db.devices), a.id.value)
  {
    if req.verb == "OPTIONS" {
      return Preflight;
    }
    if req.body.Malformed? {
      return Failure(400, "Invalid request");
    }
    var body := req.body.value;
    if !Configured(env) {
      return Failure(500, "Missing Supabase env");
    }
    if body == JNull {
      return Failure(400, "Invalid request");
    }
    var a := Decode(body);
    match a {
      case UpdateDeviceState(id, newState, eventAction) =>
        if !Truthy(id) {
          return Failure(400, "Missing id");
        }
        var uerr := db.UpdateState(id.value, OrElse(newState, EmptyObject), now, faults.primary);
        if uerr.Some? {
          return Failure(400, uerr.value);
        }
        var ierr := db.InsertEvent(Event(id.value, EventType(eventAction), OrElse(newState, EmptyObject)), faults.audit);
        // `ierr` is only logged: the state change already succeeded.
        return Done;
      case CreateDevice(name, deviceType, locationId, _, _) =>
        if !Truthy(name) || !Truthy(deviceType) || !Truthy(locationId) {
          return Failure(400, "Missing required fields");
        }
        var error := db.InsertDevice(NewRow(a, now), freshId, faults.primary);
        if error.Some? {
          return Failure(400, error.value);
        }
        return Done;
      case UpdateDevice(id, name, deviceType, locationId) =>
        if !Truthy(id) || !Truthy(name) || !Truthy(deviceType) || !Truthy(locationId) {
          return Failure(400, "Missing fields");
        }
        var error := db.UpdateInfo(id.value, name.value, deviceType.value, locationId.value, faults.primary);
        if error.Some? {
          return Failure(400, error.value);
        }
        return Done;
      case DeleteDevice(id) =>
        if !Truthy(id) {
          return Failure(400, "Missing id");
        }
        var error := db.DeleteDevice(id.value, faults.primary);
        if error.Some? {
          return Failure(400, error.value);
        }
        return Done;
      case UnknownAction =>
        return Failure(400, "Unknown action");
    }
  }
}
