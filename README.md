# Device mutation and relay rules of a home-automation control panel

This project models, in Dafny, the parts of the lumina-gate dashboard that
decide which writes happen, in what order, under what validation, and what
response comes back:

- the **admin gateway** edge function: a dispatcher over four tagged device
  actions, with a best-effort audit event after a state update;
- the **webhook relay** edge function: URL validation, the choice between a
  synchronous POST and a fire-and-forget background POST, and one response
  envelope for every downstream outcome;
- the **device mutation** of the devices page: the optimistic cache update,
  its rollback, and the persist → log → relay sequence with its failure rule;
- **scene activation** and the scene forms' enable rules;
- the **device card's control transitions**: which controls each device type
  offers, and the state each control commits.

The store (Supabase's table service and function invoker) and the network are
fallible collaborators. Each store call takes the failure it would report as
an `Option<string>` parameter. Each call is recorded in a trace (`calls`,
`invocations`, `posts`). So "no write was attempted", "at most one POST" and
"these writes in this order" are stated about the traces, next to the table
and log contents.

Files, one module each: `wrappers.dfy` (Option), `types.dfy` (the `Json` and
`DeviceType` types of the schema, plus JavaScript truthiness, `??` and property
reads), `http.dfy` (requests and responses), `supabase.dfy` (the `Database`
class with the `devices` table, the `sensor_events` log and the call trace; the
`Functions` invoker), `device_admin.dfy`, `relay_webhook.dfy`,
`devices_page.dfy`, `scenes_page.dfy`, `device_card.dfy`.

Modelling choices worth knowing:

- Request fields are `Option<Json>`: None means the key is absent. "Missing"
  follows JavaScript falsiness, so `""`, `0`, `false` and `null` all count as
  missing, while `??` replaces only `null` and absence. For example, an
  `eventAction` of `""` is logged as `""`.
- `.eq("id", v)` selects the row whose key equals `v` as a string. The key
  column is a uuid, so no other JSON value matches.
- A JSON body of `null` behaves differently in the two functions. In the
  gateway it gets past the parse and the environment check, but reading
  `body.action` then throws, giving 400 "Invalid request". The relay reads
  `body?.url` instead, so `null` gives 400 "Missing url".
- In background mode the relay acknowledges with 202 Accepted (section 15.3.3
  of RFC 9110), even when the runtime offers no `EdgeRuntime`. In that case
  the optional call short-circuits and no POST is sent at all.

Points where the code does something a reader might not expect, and the model does the same:

- `update_device` answers "Missing fields", not "Missing required fields".
- The audit event's `value` is `newState ?? {}`, not `newState`.
- The relay posts `payload ?? {}`.
- A body that fails to parse in the relay gets the same 500 `{ok:false, error}`
  envelope as a transport failure.
- `update_device` overwrites only `name`, `type` and `location_id`; `id` is the
  filter.

## Model

| member | source | states |
|---|---|---|
| `DeviceAdmin.Decode` | supabase/functions/device-admin/index.ts:10-14 | the action tag strictly equal to one of the four strings selects exactly that variant; any other tag, a non-string tag or no tag is unknown; each variant carries the body's fields under the keys the handler reads |
| `DeviceAdmin.Serve` | supabase/functions/device-admin/index.ts:16-110 | OPTIONS gives the empty CORS reply with no writes. An unparseable body gives 400 "Invalid request" before the env check. A missing URL or key gives 500 "Missing Supabase env" whatever the tag, with no writes. A `null` body gives 400 "Invalid request". An unknown tag gives 400 "Unknown action" with no writes. Per action: a falsy required field gives a 400 with no store call. Otherwise exactly one primary call, whose error is returned as 400 with the table unchanged. `update_device_state` sets `state := newState ?? {}` and refreshes `last_seen`, then makes exactly one event insert (`eventAction ?? "device_action"`, `newState ?? {}`); the insert's failure leaves `{ok:true}` and the state change. `create_device` inserts one row with `state`/`metadata` defaulting to `{}`. `update_device` uses `WithInfo`. `delete_device` uses `Without` |
| `DeviceAdmin.NewRow` | supabase/functions/device-admin/index.ts:62-69 | the inserted row carries `name`, `type` and `location_id` as sent, `state` and `metadata` as sent unless absent or null (then `{}`), and `last_seen` the current time |
| `Supabase.WithState` | supabase/functions/device-admin/index.ts:38-41 | the selected row gets the new `state` and `last_seen`; its other columns, every other row and the key set are unchanged |
| `Supabase.WithInfo` | supabase/functions/device-admin/index.ts:81-84 | the selected row gets the new `name`/`type`/`location_id`; its `state`, `metadata` and `last_seen`, every other row and the key set are unchanged |
| `Supabase.Without` | supabase/functions/device-admin/index.ts:96 | exactly the selected row is removed; every remaining row is unchanged |
| `Supabase.Database.UpdateState` | supabase/functions/device-admin/index.ts:38-41 | one `SetState` call is recorded; the reported error is the store's; on success the table becomes `WithState`, on failure it is unchanged; the log never changes |
| `Supabase.Database.UpdateInfo` | supabase/functions/device-admin/index.ts:81-84 | one `SetInfo` call is recorded; on success the table becomes `WithInfo`, otherwise it is unchanged |
| `Supabase.Database.InsertDevice` | supabase/functions/device-admin/index.ts:62-69 | one `AddDevice` call is recorded; on success exactly the new row is added under the store's fresh key |
| `Supabase.Database.DeleteDevice` | supabase/functions/device-admin/index.ts:96 | one `RemoveDevice` call is recorded; on success the table becomes `Without` |
| `Supabase.Database.InsertEvent` | supabase/functions/device-admin/index.ts:46-50 | one `AddEvent` call is recorded; on success the event is appended to the log; the table never changes |
| `Supabase.Functions.Invoke` | src/pages/Devices.tsx:43-48 | the invocation is recorded, and the invoker's reply is returned |
| `Supabase.Delivered` | src/pages/Devices.tsx:43-48 | `invoke` yields a 2xx reply's body as `data`, and any other status as an error with the non-2xx message, whatever the body holds |
| `RelayWebhook.PostFor` | supabase/functions/relay-webhook/index.ts:32-36 | the POST goes to `url` with method POST and `Content-Type: application/json`; its body is `payload`, or `{}` when `payload` is absent or null |
| `RelayWebhook.Caught` | supabase/functions/relay-webhook/index.ts:67-72 | a caught failure answers 500 with `ok: false` and `error` holding the failure's text, and no `status` or `accepted` field |
| `RelayWebhook.Background` | supabase/functions/relay-webhook/index.ts:27 | background mode is chosen by a truthy flag: a missing, `null` or `false` flag gives the synchronous mode, and `true` or even the string "false" gives the background |
| `RelayWebhook.Relayed` | supabase/functions/relay-webhook/index.ts:50-66 | any downstream reply, error statuses included, is answered at 200 with exactly the downstream's `ok` (true iff its status is 200 to 299), `status` and `statusText` and the body's raw text; a transport failure becomes the caught 500 envelope |
| `RelayWebhook.Network.Fetch` | supabase/functions/relay-webhook/index.ts:50-54 | the POST is appended to the trace, and the downstream's outcome is returned |
| `RelayWebhook.Serve` | supabase/functions/relay-webhook/index.ts:14-73 | at most one POST per invocation, appended after earlier ones (no retry). OPTIONS gives the CORS-only empty reply with no POST. An unparseable body gives the 500 envelope with no POST. A falsy `url` gives 400 "Missing url" with no POST. A truthy `background` gives 202 `{ok:true, accepted:true}` whatever the downstream does, and posts only when `EdgeRuntime` exists. Otherwise exactly one POST is made and answered with `Relayed` of its outcome |
| `DeviceCard.InitialLocal` | src/components/devices/DeviceCard.tsx:28 | the local state starts as the device's state when that is truthy, else `{}` |
| `DeviceCard.Override` | src/components/devices/DeviceCard.tsx:67 | the record override yields an object whose keys are the old keys plus `key`: `key` holds the new value, and every other key reads as before |
| `DeviceCard.CommitState` | src/components/devices/DeviceCard.tsx:40-43 | the local state becomes exactly `newState`, and `onChange` receives the same `newState`; the label defaults to "update_state" |
| `DeviceCard.PowerShown` | src/components/devices/DeviceCard.tsx:66 | the switch shows off when `power` is absent or null, and a boolean `power` as itself |
| `DeviceCard.Controls` | src/components/devices/DeviceCard.tsx:61-149 | a power switch is rendered exactly for light, fan, ac and geyser; a sensor renders no control at all, and no type renders a control twice |
| `DeviceCard.OnGesture` | src/components/devices/DeviceCard.tsx:61-149 | a gesture commits iff its control is among the rows rendered for the type (light: power and brightness; fan: power and speed; ac: power and temperature; curtain: open/close; geyser: power); a sensor never commits; a commit sets the local state to the state it sends |
| `DeviceCard.PowerOverridesOnlyPower` | src/components/devices/DeviceCard.tsx:65-68 | for light, fan, ac and geyser, the switch commits with label "update_state" a state in which `power` is the new value and every other key is as before; the local state equals the committed state |
| `DeviceCard.CurtainButtons` | src/components/devices/DeviceCard.tsx:128-133 | Open commits `position: "open"` with action "open", and Close commits `position: "closed"` with action "close" |
| `DeviceCard.SettingsOverrideOnlyTheirKey` | src/components/devices/DeviceCard.tsx:72-122 | the light's slider overrides only `brightness`, the fan's slider only `speed` and the ac's number field only `temperature`, each with the moved value and the label "update_state"; every other key reads as before |
| `DeviceCard.NumberShown` | src/components/devices/DeviceCard.tsx:73 | a slider or number field shows its default when the key is absent or null, and the stored number otherwise |
| `DeviceCard.DisplayDefaults` | src/components/devices/DeviceCard.tsx:66-121 | whenever the four keys are absent, even with other keys present (such as `position`), power shows off, and brightness, speed and temperature show 50, 1 and 24 |
| `DeviceCard.LightShowsWhatWasSet` | src/components/devices/DeviceCard.tsx:61-82 | any brightness the slider (0 to 100, step 1) can emit is shown after the commit, with the power switch unchanged; a switch flip is shown, with the brightness unchanged |
| `DeviceCard.FanShowsWhatWasSet` | src/components/devices/DeviceCard.tsx:84-105 | any speed the slider (0 to 3, step 1) can emit is shown after the commit, with the power switch unchanged |
| `DevicesPage.Optimistic` | src/pages/Devices.tsx:57 | the list keeps its length and order; exactly the entries with the mutated id get the new `state`, with every other field unchanged; every other entry is unchanged |
| `DevicesPage.OptimisticLastWins` | src/pages/Devices.tsx:57 | two optimistic updates of the same device equal the second alone |
| `DevicesPage.OptimisticCommutes` | src/pages/Devices.tsx:57 | optimistic updates of two different devices commute |
| `DevicesPage.OnMutate` | src/pages/Devices.tsx:54-59 | the context's snapshot is the list cached before (or `[]`), and the new cache is that snapshot with the optimistic update applied |
| `DevicesPage.OnError` | src/pages/Devices.tsx:60-63 | with a mutation context the cache is set to its snapshot; without one the cache is left as it is |
| `DevicesPage.RollbackRestoresSnapshot` | src/pages/Devices.tsx:56-62 | after `onMutate`, `onError` restores exactly the pre-mutation snapshot, whatever the cache holds by then |
| `DevicesPage.RelayBody` | src/pages/Devices.tsx:43-48 | the relay is asked, without `background`, to POST exactly `{type: "device_action", device_id, action, state}` (no other key) to the configured URL; the body holds only `url` and `payload` |
| `DevicesPage.WebhookFailure` | src/pages/Devices.tsx:49-51 | an invocation error fails with its message, or "Webhook failed" when the message is empty; a reply fails iff its `ok` is the boolean `false`, so a reply without `ok` succeeds |
| `DevicesPage.SyncRelayVerdict` | src/pages/Devices.tsx:43-51 | through the relay's synchronous envelope and `invoke`, a device action fails iff the downstream's status is outside 200 to 299 or the transfer failed. A downstream reply reaches the page as `data`, since the relay answers it at 200, and a non-2xx one fails with "Webhook failed". A transfer failure arrives as the relay's 500, which `invoke` reports as an error, so it fails with the non-2xx message |
| `DevicesPage.MutationFn` | src/pages/Devices.tsx:30-53 | a failed update rejects with its error before any event insert or relay call. Otherwise exactly one event insert (`event_type = action`, `value = newState`) follows, and its error is ignored. The relay is invoked only when `webhook_url` is truthy. The mutation rejects iff the failure rule says so, and with no webhook it resolves |
| `ScenesPage.ActionsOf` | src/pages/Scenes.tsx:73 | the loop runs over the fetched list, and over nothing when `actions` is missing or null |
| `ScenesPage.SceneCalls` | src/pages/Scenes.tsx:73-76 | the loop makes two store calls per action |
| `ScenesPage.Applied` | src/pages/Scenes.tsx:73-74 | the scene's updates never add or remove a device |
| `ScenesPage.AppliedEvents` | src/pages/Scenes.tsx:75 | the loop logs at most one event per action, and each one is a `scene_applied` event |
| `ScenesPage.SceneRelayBody` | src/pages/Scenes.tsx:78-85 | the relay is asked, without `background`, to POST `{type: "scene_activation", scene_id, actions}` with no other key (the body holds only `url` and `payload`), with `actions` dropped iff the field is missing, `null` when it is null, and otherwise holding the scene's actions entry by entry, each as fetched |
| `ScenesPage.ActionJson` | src/pages/Scenes.tsx:82 | an action travels with exactly its `id`, `device_id`, `desired_state` and embedded `device`, unchanged |
| `ScenesPage.ApplyActions` | src/pages/Scenes.tsx:73-76 | the loop's store calls are exactly `SceneCalls` of the actions, whatever the stores report; the table becomes `Applied` and the log gains `AppliedEvents`, both skipping the failed writes |
| `ScenesPage.ActivateScene` | src/pages/Scenes.tsx:71-86 | the store calls are exactly `SceneCalls` of the actions, whatever the stores report. The table becomes `Applied` and the log gains `AppliedEvents`, both with the failed writes skipped. The relay is invoked once with the scene body iff `webhook_url` is truthy, and its reply is ignored |
| `ScenesPage.SceneCallsInOrder` | src/pages/Scenes.tsx:73-76 | n actions give n updates and n event inserts, with call 2i updating action i's device to its desired state and call 2i+1 logging its `scene_applied` event |
| `ScenesPage.OneEventPerAction` | src/pages/Scenes.tsx:75 | with no failed inserts, the log gains exactly one `scene_applied` event per action, in list order, carrying the desired state |
| `ScenesPage.NoActionsNoWrites` | src/pages/Scenes.tsx:73 | a scene with missing or empty actions makes no store call, changes no device and logs no event |
| `ScenesPage.UntargetedUnchanged` | src/pages/Scenes.tsx:73-74 | a device that no action targets keeps its row, whichever writes fail |
| `ScenesPage.LastActionWins` | src/pages/Scenes.tsx:73-74 | when several actions target one device and the writes succeed, its final state is the last such action's desired state |
| `ScenesPage.CreateClick` | src/pages/Scenes.tsx:145 | Create acts only when both `name` and `location_id` are non-empty, and it submits the form itself |
| `ScenesPage.AfterCreate` | src/pages/Scenes.tsx:50-53 | a successful create closes the dialog and resets the form to `{name: ""}`, which disables Create again; a failed one leaves the dialog as it was |
| `ScenesPage.SaveEdit` | src/pages/Scenes.tsx:211 | Save acts iff an edited scene with non-empty `name` and `location_id` exists; its patch holds exactly `name` and `location_id`, filtered by the scene's id |
| `ScenesPage.SaveAction` | src/pages/Scenes.tsx:235-243 | Save is disabled iff no device is chosen; it saves iff a device is chosen and the JSON parses, and then exactly `{scene_id, device_id, desired_state}` with the chosen device and the parsed value; unparseable JSON saves nothing |

## Left out

- I/O and runtime: `fetch`, the Supabase client, `Deno.env`, `req.json()`, `JSON.parse` and `JSON.stringify` are replaced by their outcomes, given as parameters. A body is the value handed to `JSON.stringify`, not its bytes.
- Time: `new Date().toISOString()` is the `now` parameter.
- ScenesPage.ActivateScene: one `now` stands for every iteration's clock reading, though the loop reads the clock once per action. So `SceneCalls` and `Applied` give every action the same `last_seen`, and the model cannot tell the stamps of different actions apart.
- Logging: the `console.log` and `console.error` lines have no effect in the model.
- Concurrency: background scheduling through `EdgeRuntime.waitUntil` is only "POST recorded or skipped, response independent of the outcome". There is no timeout and no limit on deliveries in flight, in the model as in the code.
- HTTP transport: CORS mechanics are left out. Headers are a map of the fixed values.
- JSON numbers are exact rationals. Float rounding, `NaN` and `Number()` of strings, arrays or objects are not modelled; `NumberShown` gives None for these.
- Spreading a string or an array local state (`{...s}` copies index keys) is modelled as spreading nothing. Only objects, `null`, booleans and numbers spread faithfully.
- Store schema checks are not modelled as such: the `device_type` enum, foreign keys and NOT NULL surface as store failures. The `DeviceRow` columns hold the values sent. The key of a new device is the `freshId` parameter, which is required to be unused, as the store's generated uuid is.
- Store calls never throw. The client returns `{ error }`, which matches the code's use.
- `Supabase.Delivered` covers the status rule of supabase-js's `{ data, error }` mapping. Its body parsing by content type and the invoker's own transport failures are not modelled. `MutationFn` takes the resulting `Invoked` as a parameter.
- react-query machinery (`cancelQueries`, `invalidateQueries`, `onSettled`, `onSuccess` toasts) is library behaviour. Only the cache transformation and the rollback are modelled.
- UI: dialogs, toasts, rendering and `useState` are represented only as the form values passed in and out.
- Other mutations are left out: the inserts and deletes behind `addAction`, `deleteScene` and `deleteAction`, and the `scenes` table itself. They are single store calls with no logic. `SaveAction` and `SaveEdit` stop at the payload they submit.
- Whole files left out: the realtime subscription (useRealtime.ts), the Events, Locations, Settings and Index pages, and the header. types.ts gives only the `Json` and `DeviceType` types.
- `DevicesPage.Device` omits the optional embedded `location`, which nothing here reads.
