/**
 * The device mutation of the devices page (src/pages/Devices.tsx): the
 * optimistic cache update and its rollback (pure transformations of the
 * cached device list), and `mutationFn`, which persists the new state, logs
 * an event and relays the action, failing on the rules below.
 */
module DevicesPage {
  import opened Wrappers
  import opened Types
  import opened Supabase
  import RelayWebhook

  /** A device as the page's cache holds it (the `Device` interface). */
  datatype Device = Device(
    id: string,
    name: string,
    deviceType: DeviceType,
    locationId: string,
    state: Json,
    metadata: Json,
    lastSeen: Option<string>)

  /** The variables of one mutation: `{ id, newState, action }`. */
  datatype Vars = Vars(id: string, newState: Json, action: string)

  /** `list.map((d) => (d.id === id ? { ...d, state: newState } : d))`. */
  function Optimistic(list: seq<Device>, id: string, newState: Json): (r: seq<Device>)
    ensures |r| == |list|
    ensures forall i :: 0 <= i < |list| && list[i].id == id ==> r[i] == list[i].(state := newState)
    ensures forall i :: 0 <= i < |list| && list[i].id != id ==> r[i] == list[i]
  {
    if list == [] then []
    else [if list[0].id == id then list[0].(state := newState) else list[0]] + Optimistic(list[1..], id, newState)
  }

  /** A second optimistic update of the same device overwrites the first. */
  lemma OptimisticLastWins(list: seq<Device>, id: string, first: Json, second: Json)
    ensures Optimistic(Optimistic(list, id, first), id, second) == Optimistic(list, id, second)
  {

  }

  /** Optimistic updates of two different devices commute. */
  lemma OptimisticCommutes(list: seq<Device>, a: string, sa: Json, b: string, sb: Json)
    requires a != b
    ensures Optimistic(Optimistic(list, a, sa), b, sb) == Optimistic(Optimistic(list, b, sb), a, sa)
  {

  }

  /** The snapshot `onMutate` returns as its context. */
  datatype Snapshot = Snapshot(previous: seq<Device>)

  /** `onMutate`: the new cache and the context. */
  datatype Mutated = Mutated(cache: seq<Device>, context: Snapshot)

  /** `onMutate(vars)` on the cached list (`undefined` when nothing is cached
      yet): the snapshot is `getQueryData() || []`, the new cache the optimistic
      map over `old || []`. */
  function OnMutate(cache: Option<seq<Device>>, vars: Vars): (m: Mutated)
    ensures m.context.previous == cache.GetOr([])
    ensures |m.cache| == |m.context.previous|
    ensures forall i :: 0 <= i < |m.cache| ==>
      m.cache[i] == if m.context.previous[i].id == vars.id
                    then m.context.previous[i].(state := vars.newState)
                    else m.context.previous[i]
  {
    var previous := cache.GetOr([]);
    Mutated(Optimistic(previous, vars.id, vars.newState), Snapshot(previous))
  }

  /** `onError`: restore `ctx.previous` when there is a context (an array, so
      always truthy), otherwise leave the cache alone. */
  function OnError(cache: Option<seq<Device>>, context: Option<Snapshot>): (r: Option<seq<Device>>)
    ensures context.Some? ==> r == Some(context.value.previous)
    ensures context.None? ==> r == cache
  {
    if context.Some? then Some(context.value.previous) else cache
  }

  /** Rolling back after a failed mutation restores exactly the list that was
      cached before it (or `[]` if nothing was), whatever the cache holds by
      then. */
  lemma RollbackRestoresSnapshot(cache: Option<seq<Device>>, vars: Vars, current: Option<seq<Device>>)
    ensures OnError(current, Some(OnMutate(cache, vars).context)) == Some(cache.GetOr([]))
  {
  }

  /** The event logged for a device action. */
  function ActionEvent(vars: Vars): Event {
    Event(JString(vars.id), JString(vars.action), vars.newState)
  }

  /** The body sent to the relay: `{ url, payload: { type: "device_action",
      device_id, action, state } }` (no `background`, so the relay answers
      synchronously). */
  function RelayBody(url: string, vars: Vars): (body: Json)
    ensures body.JObject? && body.fields.Keys == {"url", "payload"}
    ensures Field(body, "url") == Some(JString(url))
    ensures Field(body, "background").None?
    ensures Field(body, "payload").Some?
    ensures var p := Field(body, "payload").value;
      Field(p, "type") == Some(JString("device_action")) && Field(p, "device_id") == Some(JString(vars.id)) &&
      Field(p, "action") == Some(JString(vars.action)) && Field(p, "state") == Some(vars.newState)
    ensures var p := Field(body, "payload").value;
      p.JObject? && p.fields.Keys == {"type", "device_id", "action", "state"}
  {
    JObject(map[
      "url" := JString(url),
      "payload" := JObject(map[
        "type" := JString("device_action"),
        "device_id" := JString(vars.id),
        "action" := JString(vars.action),
        "state" := vars.newState])])
  }

  /** The failure rule after the relay call: an invocation error fails with its
      message (or "Webhook failed" when it has none); a reply fails exactly when
      its `ok` is the boolean `false`, so a reply without `ok`, or with a falsy
      non-boolean `ok`, is a success. */
  function WebhookFailure(reply: Invoked): (r: Option<string>)
    ensures reply.FnError? ==> r == Some(if reply.message != "" then reply.message else "Webhook failed")
    ensures reply.Data? ==> (r.Some? <==> Field(reply.data, "ok") == Some(JBool(false)))
    ensures reply.Data? && r.Some? ==> r.value == "Webhook failed"
  {
    match reply
    case FnError(message) => Some(if message != "" then message else "Webhook failed")
    case Data(data) =>
      if Truthy(Some(data)) && Field(data, "ok") == Some(JBool(false)) then Some("Webhook failed") else None
  }

  /** When the relay answers in synchronous mode, the device action fails
      exactly when the downstream did not answer 2xx: any downstream reply
      reaches the page as `data` (the relay answers it at 200) carrying the
      downstream's `ok`, while a transport failure arrives as the relay's 500,
      which `invoke` reports as an error. */
  lemma SyncRelayVerdict(d: RelayWebhook.Downstream)
    ensures var v := Delivered(RelayWebhook.Relayed(d));
      d.Reply? ==> v == Data(RelayWebhook.Relayed(d).body.value)
    ensures var v := Delivered(RelayWebhook.Relayed(d));
      WebhookFailure(v).Some? <==> d.TransportError? || !d.Ok()
    ensures var v := Delivered(RelayWebhook.Relayed(d));
      d.TransportError? ==> v.FnError? && WebhookFailure(v) == Some(NonTwoXx)
    ensures var v := Delivered(RelayWebhook.Relayed(d));
      d.Reply? && !d.Ok() ==> WebhookFailure(v) == Some("Webhook failed")
  {
  }

  /** How a mutation settles: resolved, or rejected with the thrown error. */
  datatype Outcome = Resolved | Rejected(error: string)

  /** `mutationFn`. `settings` is the cached `app_settings` row, `now` the
      timestamp, the faults those of the update and of the event insert, and
      `reply` what invoking the relay yields. */
  method MutationFn(db: Database, fns: Functions, settings: Option<AppSettings>, vars: Vars, now: string,
                    updateFault: Option<string>, insertFault: Option<string>, reply: Invoked)
    returns (outcome: Outcome)
    modifies db, fns
    // A failed update throws before the event insert and the relay call.
    ensures updateFault.Some? ==>
      outcome == Rejected(updateFault.value) &&
      db.calls == old(db.calls) + [SetState(JString(vars.id), vars.newState, now)] &&
      db.devices == old(db.devices) && db.events == old(db.events) &&
      fns.invocations == old(fns.invocations)
    // After a successful update exactly one event insert follows; its error is ignored.
    ensures updateFault.None? ==>
      db.calls == old(db.calls) + [SetState(JString(vars.id), vars.newState, now), AddEvent(ActionEvent(vars))] &&
      db.devices == WithState(old(db.devices), JString(vars.id), vars.newState, now) &&
      db.events == old(db.events) + (if insertFault.None? then [ActionEvent(vars)] else [])
    // The relay is called only when a webhook URL is configured.
    ensures updateFault.None? && !HasWebhook(settings) ==>
      outcome == Resolved && fns.invocations == old(fns.invocations)
    ensures updateFault.None? && HasWebhook(settings) ==>
      fns.invocations == old(fns.invocations) +
        [Invocation(RelayFunction, RelayBody(settings.value.webhookUrl.value, vars))] &&
      outcome == match WebhookFailure(reply) case Some(e) => Rejected(e) case None => Resolved
  {
    var error := db.UpdateState(JString(vars.id), vars.newState, now, updateFault);
    if error.Some? {
      return Rejected(error.value);
    }
    var _ := db.InsertEvent(ActionEvent(vars), insertFault);
    if HasWebhook(settings) {
      var r := fns.Invoke(RelayFunction, RelayBody(settings.value.webhookUrl.value, vars), reply);
      var failure := WebhookFailure(r);
      if failure.Some? {
        return Rejected(failure.value);
      }
    }
    return Resolved;
  }
}
