/**
 * The Supabase services the core talks to, as fallible collaborators: the
 * `devices` table, the `sensor_events` log and the edge-function invoker.
 * Every call takes the failure the service would report (`Option<string>`,
 * the error's message) as a parameter, and every call is appended to a trace,
 * so that "no write was attempted" and "the writes happened in this order"
 * can be stated.
 */
module Supabase {
  import opened Wrappers
  import opened Types
  import opened Http

  /** A row of `devices` as written by the core (the values are those sent;
      schema checks such as the enum on `type` are the store's, and surface as
      its failures). */
  datatype DeviceRow = DeviceRow(
    name: Json,
    deviceType: Json,
    locationId: Json,
    state: Json,
    metadata: Json,
    lastSeen: Option<string>)

  /** A row of `sensor_events`. */
  datatype Event = Event(deviceId: Json, eventType: Json, value: Json)

  /** One request to the table service, successful or not. */
  datatype Call =
    | SetState(id: Json, state: Json, lastSeen: string)       // update({ state, last_seen }).eq("id", id)
    | SetInfo(id: Json, name: Json, deviceType: Json, locationId: Json) // update({ name, type, location_id }).eq("id", id)
    | AddDevice(row: DeviceRow)                              // from("devices").insert(row)
    | RemoveDevice(id: Json)                                 // delete().eq("id", id)
    | AddEvent(event: Event)                                 // from("sensor_events").insert(event)

  /** The row with key `k` is the one `.eq("id", id)` selects: the key column is
      a uuid, so only a string equal to the key matches. */
  predicate Selects(id: Json, k: string) {
    id == JString(k)
  }

  /** The table after `update({ state, last_seen: now }).eq("id", id)` succeeds. */
  function WithState(devices: map<string, DeviceRow>, id: Json, state: Json, now: string): (r: map<string, DeviceRow>)
    ensures r.Keys == devices.Keys
    ensures forall k :: k in devices && !Selects(id, k) ==> r[k] == devices[k]
    ensures forall k :: k in devices && Selects(id, k) ==>
      r[k].state == state && r[k].lastSeen == Some(now) &&
      r[k].name == devices[k].name && r[k].deviceType == devices[k].deviceType &&
      r[k].locationId == devices[k].locationId && r[k].metadata == devices[k].metadata
  {
    if id.JString? && id.s in devices then devices[id.s := devices[id.s].(state := state, lastSeen := Some(now))]
    else devices
  }

  /** The table after `update({ name, type, location_id }).eq("id", id)` succeeds. */
  function WithInfo(devices: map<string, DeviceRow>, id: Json, name: Json, deviceType: Json, locationId: Json): (r: map<string, DeviceRow>)
    ensures r.Keys == devices.Keys
    ensures forall k :: k in devices && !Selects(id, k) ==> r[k] == devices[k]
    ensures forall k :: k in devices && Selects(id, k) ==>
      r[k].name == name && r[k].deviceType == deviceType && r[k].locationId == locationId &&
      r[k].state == devices[k].state && r[k].metadata == devices[k].metadata &&
      r[k].lastSeen == devices[k].lastSeen
  {
    if id.JString? && id.s in devices
    then devices[id.s := devices[id.s].(name := name, deviceType := deviceType, locationId := locationId)]
    else devices
  }

  /** The table after `delete().eq("id", id)` succeeds. */
  function Without(devices: map<string, DeviceRow>, id: Json): (r: map<string, DeviceRow>)
    ensures forall k :: k in r <==> k in devices && !Selects(id, k)
    ensures forall k :: k in r ==> r[k] == devices[k]
  {
    if id.JString? then devices - {id.s} else devices
  }

  /** The `devices` table and the `sensor_events` log behind the data service. */
  class Database {
    var devices: map<string, DeviceRow>
    var events: seq<Event>
    var calls: seq<Call>

    method UpdateState(id: Json, state: Json, now: string, fault: Option<string>) returns (error: Option<string>)
      modifies this
      ensures calls == old(calls) + [SetState(id, state, now)]
      ensures error == fault
      ensures devices == if fault.None? then WithState(old(devices), id, state, now) else old(devices)
      ensures events == old(events)
    {
      calls := calls + [SetState(id, state, now)];
      if fault.None? {
        devices := WithState(devices, id, state, now);
      }
      error := fault;
    }

    method UpdateInfo(id: Json, name: Json, deviceType: Json, locationId: Json, fault: Option<string>) returns (error: Option<string>)
      modifies this
      ensures calls == old(calls) + [SetInfo(id, name, deviceType, locationId)]
      ensures error == fault
      ensures devices == if fault.None? then WithInfo(old(devices), id, name, deviceType, locationId) else old(devices)
      ensures events == old(events)
    {
      calls := calls + [SetInfo(id, name, deviceType, locationId)];
      if fault.None? {
        devices := WithInfo(devices, id, name, deviceType, locationId);
      }
      error := fault;
    }

    /** `freshId` is the primary key the store assigns; it never reuses one. */
    method InsertDevice(row: DeviceRow, freshId: string, fault: Option<string>) returns (error: Option<string>)
      requires freshId !in devices
      modifies this
      ensures calls == old(calls) + [AddDevice(row)]
      ensures error == fault
      ensures devices == if fault.None? then old(devices)[freshId := row] else old(devices)
      ensures events == old(events)
    {
      calls := calls + [AddDevice(row)];
      if fault.None? {
        devices := devices[freshId := row];
      }
      error := fault;
    }

    method DeleteDevice(id: Json, fault: Option<string>) returns (error: Option<string>)
      modifies this
      ensures calls == old(calls) + [RemoveDevice(id)]
      ensures error == fault
      ensures devices == if fault.None? then Without(old(devices), id) else old(devices)
      ensures events == old(events)
    {
      calls := calls + [RemoveDevice(id)];
      if fault.None? {
        devices := Without(devices, id);
      }
      error := fault;
    }

    method InsertEvent(event: Event, fault: Option<string>) returns (error: Option<string>)
      modifies this
      ensures calls == old(calls) + [AddEvent(event)]
      ensures error == fault
      ensures events == if fault.None? then old(events) + [event] else old(events)
      ensures devices == old(devices)
    {
      calls := calls + [AddEvent(event)];
      if fault.None? {
        events := events + [event];
      }
      error := fault;
    }
  }

  /** The name under which the relay is deployed. */
  const RelayFunction: string := "relay-webhook"

  /** What `supabase.functions.invoke` resolves to: the parsed reply body
      (`data`), or an error whose message is given. */
  datatype Invoked = Data(data: Json) | FnError(message: string)

  datatype Invocation = Invocation(name: string, body: Json)

  /** The message of the error `invoke` reports for a non-2xx reply. */
  const NonTwoXx: string := "Edge Function returned a non-2xx status code"

  /** How `invoke` turns the function's HTTP reply into its result: a 2xx
      reply's body becomes `data` (an empty body reads as `null`), any other
      status becomes an error, whatever the body says. */
  function Delivered(r: Response): (v: Invoked)
    ensures v.Data? <==> 200 <= r.status <= 299
    ensures v.Data? && r.body.Some? ==> v.data == r.body.value
    ensures v.FnError? ==> v.message == NonTwoXx
  {
    if 200 <= r.status <= 299 then Data(r.body.GetOr(JNull)) else FnError(NonTwoXx)
  }

  /** The edge-function invoker, recording every invocation. */
  class Functions {
    var invocations: seq<Invocation>

    method Invoke(name: string, body: Json, reply: Invoked) returns (r: Invoked)
      modifies this
      ensures invocations == old(invocations) + [Invocation(name, body)]
      ensures r == reply
    {
      invocations := invocations + [Invocation(name, body)];
      r := reply;
    }
  }

  /** The single `app_settings` row the pages read (`select("id,webhook_url")`). */
  datatype AppSettings = AppSettings(id: string, webhookUrl: Option<string>)

  /** `settings?.webhook_url` is truthy. */
  predicate HasWebhook(settings: Option<AppSettings>) {
    settings.Some? && Present(settings.value.webhookUrl)
  }
}
