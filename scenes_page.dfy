/**
 * The scenes page (src/pages/Scenes.tsx): activating a scene applies its
 * actions in list order, each a device state write followed by one
 * `scene_applied` event, and then relays the activation; the store's errors
 * are not inspected anywhere in the loop. Also the enable rules of the scene
 * forms and of the add-action form.
 */
module ScenesPage {
  import opened Wrappers
  import opened Types
  import opened Supabase

  /** A row of `scene_actions` as fetched with its scene (`device` is the
      embedded `devices(name)` row, passed on verbatim to the relay). */
  datatype SceneAction = SceneAction(id: string, deviceId: string, desiredState: Json, device: Json)

  /** The `actions` field of a fetched scene: missing, `null`, or a list. */
  datatype ActionList = Missing | Null | Listed(rows: seq<SceneAction>)

  datatype Scene = Scene(id: string, name: string, locationId: Option<string>, actions: ActionList)

  /** `scene.actions || []` (an array is truthy even when empty). */
  function ActionsOf(scene: Scene): (r: seq<SceneAction>)
    ensures scene.actions.Listed? ==> r == scene.actions.rows
    ensures !scene.actions.Listed? ==> r == []
  {
    if scene.actions.Listed? then scene.actions.rows else []
  }

  /** The failure of the `i`-th write of a kind; none beyond the list given. */
  function FaultAt(faults: seq<Option<string>>, i: nat): Option<string> {
    if i < |faults| then faults[i] else None
  }

  function AppliedEvent(act: SceneAction): Event {
    Event(JString(act.deviceId), JString("scene_applied"), act.desiredState)
  }

  /** The store requests the loop makes for `acts`, in order: for each action
      the state update, then the event insert. */
  function SceneCalls(acts: seq<SceneAction>, now: string): (r: seq<Call>)
    ensures |r| == 2 * |acts|
  {
    if acts == [] then []
    else
      var last := acts[|acts| - 1];
      SceneCalls(acts[..|acts| - 1], now) +
        [SetState(JString(last.deviceId), last.desiredState, now), AddEvent(AppliedEvent(last))]
  }

  /** The table after the loop's updates, given which of them fail. */
  function Applied(devices: map<string, DeviceRow>, acts: seq<SceneAction>, faults: seq<Option<string>>, now: string)
    : (r: map<string, DeviceRow>)
    ensures r.Keys == devices.Keys
  {
    if acts == [] then devices
    else
      var before := Applied(devices, acts[..|acts| - 1], faults, now);
      var last := acts[|acts| - 1];
      if FaultAt(faults, |acts| - 1).None? then WithState(before, JString(last.deviceId), last.desiredState, now)
      else before
  }

  /** The events the loop appends, given which inserts fail: at most one per
      action, each a `scene_applied` event. */
  function AppliedEvents(acts: seq<SceneAction>, faults: seq<Option<string>>): (r: seq<Event>)
    ensures |r| <= |acts|
    ensures forall j :: 0 <= j < |r| ==> r[j].eventType == JString("scene_applied")
  {
    if acts == [] then []
    else
      AppliedEvents(acts[..|acts| - 1], faults) +
        (if FaultAt(faults, |acts| - 1).None? then [AppliedEvent(acts[|acts| - 1])] else [])
  }

  /** The relay body: `{ url, payload: { type: "scene_activation", scene_id,
      actions } }`. Serialisation drops a missing `actions` and keeps a `null`
      one; a list travels entry by entry as fetched. */
  function SceneRelayBody(url: string, scene: Scene): (body: Json)
    ensures body.JObject? && body.fields.Keys == {"url", "payload"}
    ensures Field(body, "url") == Some(JString(url))
    ensures Field(body, "background").None?
    ensures Field(body, "payload").Some?
    ensures var p := Field(body, "payload").value;
      Field(p, "type") == Some(JString("scene_activation")) && Field(p, "scene_id") == Some(JString(scene.id))
    ensures var p := Field(body, "payload").value;
      p.JObject? && p.fields.Keys == {"type", "scene_id"} + (if scene.actions.Missing? then {} else {"actions"})
    ensures var p := Field(body, "payload").value;
      (Field(p, "actions").None? <==> scene.actions.Missing?) &&
      (scene.actions.Null? ==> Field(p, "actions") == Some(JNull))
    ensures var p := Field(body, "payload").value;
      scene.actions.Listed? ==>
        Field(p, "actions").Some? && Field(p, "actions").value.JArray? &&
        |Field(p, "actions").value.items| == |scene.actions.rows| &&
        forall i :: 0 <= i < |scene.actions.rows| ==>
          Field(p, "actions").value.items[i] == ActionJson(scene.actions.rows[i])
  {
    var payload := map["type" := JString("scene_activation"), "scene_id" := JString(scene.id)];
    JObject(map[
      "url" := JString(url),
      "payload" := JObject(
        match scene.actions
        case Listed(acts) => payload["actions" := JArray(seq(|acts|, i requires 0 <= i < |acts| => ActionJson(acts[i])))]
        case Null => payload["actions" := JNull]
        case Missing => payload)])
  }

  /** A fetched action as it is serialised: its own columns and the embedded
      device, unchanged. */
  function ActionJson(act: SceneAction): (r: Json)
    ensures r.JObject? && r.fields.Keys == {"id", "device_id", "desired_state", "device"}
    ensures Field(r, "id") == Some(JString(act.id))
    ensures Field(r, "device_id") == Some(JString(act.deviceId))
    ensures Field(r, "desired_state") == Some(act.desiredState)
    ensures Field(r, "device") == Some(act.device)
  {
    JObject(map[
      "id" := JString(act.id),
      "device_id" := JString(act.deviceId),
      "desired_state" := act.desiredState,
      "device" := act.device])
  }

  /** The loop of `activateScene`: for each action in order, the state update
      and then the event insert, every one attempted whatever the earlier ones
      returned. */
  method ApplyActions(db: Database, acts: seq<SceneAction>, now: string,
                      updateFaults: seq<Option<string>>, insertFaults: seq<Option<string>>)
    modifies db
    ensures db.calls == old(db.calls) + SceneCalls(acts, now)
    ensures db.devices == Applied(old(db.devices), acts, updateFaults, now)
    ensures db.events == old(db.events) + AppliedEvents(acts, insertFaults)
  {
    ghost var calls0, devices0, events0 := db.calls, db.devices, db.events;
    var i := 0;
    while i < |acts|
      invariant 0 <= i <= |acts|
      invariant db.calls == calls0 + SceneCalls(acts[..i], now)
      invariant db.devices == Applied(devices0, acts[..i], updateFaults, now)
      invariant db.events == events0 + AppliedEvents(acts[..i], insertFaults)
    {
      var act := acts[i];
      ghost var done := acts[..i + 1];
      assert done[..i] == acts[..i] && done[i] == act;
      var _ := db.UpdateState(JString(act.deviceId), act.desiredState, now, FaultAt(updateFaults, i));
      var _ := db.InsertEvent(AppliedEvent(act), FaultAt(insertFaults, i));
      assert SceneCalls(done, now) ==
        SceneCalls(acts[..i], now) + [SetState(JString(act.deviceId), act.desiredState, now), AddEvent(AppliedEvent(act))];
      assert AppliedEvents(done, insertFaults) ==
        AppliedEvents(acts[..i], insertFaults) + (if FaultAt(insertFaults, i).None? then [AppliedEvent(act)] else []);
      i := i + 1;
    }
    assert acts[..|acts|] == acts;
  }

  /** `activateScene`'s `mutationFn`. Every write is attempted, whatever the
      earlier ones returned; the relay's reply is not looked at, so the
      activation always resolves. */
  method ActivateScene(db: Database, fns: Functions, settings: Option<AppSettings>, scene: Scene, now: string,
                       updateFaults: seq<Option<string>>, insertFaults: seq<Option<string>>, reply: Invoked)
    modifies db, fns
    ensures db.calls == old(db.calls) + SceneCalls(ActionsOf(scene), now)
    ensures db.devices == Applied(old(db.devices), ActionsOf(scene), updateFaults, now)
    ensures db.events == old(db.events) + AppliedEvents(ActionsOf(scene), insertFaults)
    ensures fns.invocations == old(fns.invocations) +
      (if HasWebhook(settings) then [Invocation(RelayFunction, SceneRelayBody(settings.value.webhookUrl.value, scene))]
       else [])
  {
    ApplyActions(db, ActionsOf(scene), now, updateFaults, insertFaults);
    if HasWebhook(settings) {
      var _ := fns.Invoke(RelayFunction, SceneRelayBody(settings.value.webhookUrl.value, scene), reply);
    }
  }

  /** n actions make n updates and n event inserts, alternating, in list order. */
  lemma {:induction false} SceneCallsInOrder(acts: seq<SceneAction>, now: string, i: nat)
    requires i < |acts|
    ensures |SceneCalls(acts, now)| == 2 * |acts|
    ensures SceneCalls(acts, now)[2 * i] == SetState(JString(acts[i].deviceId), acts[i].desiredState, now)
    ensures SceneCalls(acts, now)[2 * i + 1] == AddEvent(AppliedEvent(acts[i]))
  {
    var n := |acts|;
    if i < n - 1 {
      SceneCallsInOrder(acts[..n - 1], now, i);
      assert acts[..n - 1][i] == acts[i];
    }
  }

  /** With no failed inserts, the log gains exactly one `scene_applied` event per
      action, in list order, carrying that action's desired state. */
  lemma {:induction false} OneEventPerAction(acts: seq<SceneAction>)
    ensures |AppliedEvents(acts, [])| == |acts|
    ensures forall i :: 0 <= i < |acts| ==> AppliedEvents(acts, [])[i] == AppliedEvent(acts[i])
  {
    if acts != [] {
      var n := |acts|;
      OneEventPerAction(acts[..n - 1]);
      forall i | 0 <= i < n - 1 ensures AppliedEvents(acts, [])[i] == AppliedEvent(acts[i]) {
        assert acts[..n - 1][i] == acts[i];
      }
    }
  }

  /** A scene without actions writes nothing and logs nothing. */
  lemma NoActionsNoWrites(devices: map<string, DeviceRow>, scene: Scene, uf: seq<Option<string>>,
                          ef: seq<Option<string>>, now: string)
    requires !scene.actions.Listed? || scene.actions.rows == []
    ensures SceneCalls(ActionsOf(scene), now) == []
    ensures Applied(devices, ActionsOf(scene), uf, now) == devices
    ensures AppliedEvents(ActionsOf(scene), ef) == []
  {
  }

  /** A device no action targets keeps its row, whichever writes fail. */
  lemma {:induction false} UntargetedUnchanged(devices: map<string, DeviceRow>, acts: seq<SceneAction>,
                                               faults: seq<Option<string>>, now: string, k: string)
    requires k in devices
    requires forall j :: 0 <= j < |acts| ==> acts[j].deviceId != k
    ensures Applied(devices, acts, faults, now)[k] == devices[k]
  {
    if acts != [] {
      UntargetedUnchanged(devices, acts[..|acts| - 1], faults, now, k);
    }
  }

  /** When several actions target one device and the writes succeed, the device
      ends in the last such action's desired state. */
  lemma {:induction false} LastActionWins(devices: map<string, DeviceRow>, acts: seq<SceneAction>, now: string,
                                          k: string, i: nat)
    requires k in devices
    requires i < |acts| && acts[i].deviceId == k
    requires forall j :: i < j < |acts| ==> acts[j].deviceId != k
    ensures Applied(devices, acts, [], now)[k].state == acts[i].desiredState
  {
    var n := |acts|;
    if i == n - 1 {
      assert Selects(JString(acts[i].deviceId), k);
    } else {
      LastActionWins(devices, acts[..n - 1], now, k, i);
      assert acts[n - 1].deviceId != k;
    }
  }

  /** The create dialog's form state. */
  datatype NewSceneForm = NewSceneForm(name: string, locationId: Option<string>)

  const BlankForm: NewSceneForm := NewSceneForm("", None)

  /** Create is enabled: `!(!newScene.name || !newScene.location_id)`. */
  predicate CanCreate(form: NewSceneForm) {
    form.name != "" && Present(form.locationId)
  }

  /** Pressing Create: the disabled button does nothing; otherwise the form
      itself is the payload inserted into `scenes`. */
  function CreateClick(form: NewSceneForm): (r: Option<NewSceneForm>)
    ensures r.Some? <==> CanCreate(form)
    ensures r.Some? ==> r.value == form
  {
    if CanCreate(form) then Some(form) else None
  }

  /** The create dialog: whether it is open, and its form. */
  datatype CreateDialog = CreateDialog(open: bool, form: NewSceneForm)

  /** After the insert settles: success closes the dialog and resets the form to
      `{ name: "" }`; a failure leaves both as they were. */
  function AfterCreate(dialog: CreateDialog, insertError: Option<string>): (r: CreateDialog)
    ensures insertError.None? ==> !r.open && r.form == BlankForm && !CanCreate(r.form)
    ensures insertError.Some? ==> r == dialog
  {
    if insertError.None? then CreateDialog(false, BlankForm) else dialog
  }

  /** The edit dialog's copy of the scene (`editScene`, null until Edit is pressed). */
  datatype EditScene = EditScene(id: string, name: string, locationId: Option<string>, actions: ActionList)

  /** Save is enabled: `!(!editScene?.name || !editScene?.location_id)`. */
  predicate CanSave(edit: Option<EditScene>) {
    edit.Some? && edit.value.name != "" && Present(edit.value.locationId)
  }

  /** Save writes `update({ name, location_id }).eq("id", id)`: the patch holds
      those two columns and nothing else of the edited scene. */
  datatype SceneUpdate = SceneUpdate(id: string, patch: map<string, Json>)

  function SaveEdit(edit: Option<EditScene>): (r: Option<SceneUpdate>)
    ensures r.Some? <==> CanSave(edit)
    ensures r.Some? ==>
      r.value.id == edit.value.id && r.value.patch.Keys == {"name", "location_id"} &&
      r.value.patch["name"] == JString(edit.value.name) &&
      r.value.patch["location_id"] == JString(edit.value.locationId.value)
  {
    if CanSave(edit) then
      Some(SceneUpdate(edit.value.id, map["name" := JString(edit.value.name),
                                          "location_id" := JString(edit.value.locationId.value)]))
    else None
  }

  /** The add-action form's Save click. */
  datatype SaveClick = Disabled | InvalidJson | Save(sceneId: string, deviceId: string, desiredState: Json)

  /** The add-action form's Save is enabled: `!deviceId` is false. */
  predicate CanAddAction(deviceId: Option<string>) {
    Present(deviceId)
  }

  /** `parsed` is `JSON.parse(json)` of the textarea (None when it throws). */
  function SaveAction(sceneId: string, deviceId: Option<string>, parsed: Option<Json>): (r: SaveClick)
    ensures r.Disabled? <==> !CanAddAction(deviceId)
    ensures r.Save? <==> CanAddAction(deviceId) && parsed.Some?
    ensures r.Save? ==> r.sceneId == sceneId && Some(r.deviceId) == deviceId && Some(r.desiredState) == parsed
  {
    if !CanAddAction(deviceId) then Disabled
    else if parsed.None? then InvalidJson
    else Save(sceneId, deviceId.value, parsed.value)
  }
}
