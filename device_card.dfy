/**
 * The per-device control card (src/components/devices/DeviceCard.tsx): which
 * controls each device type offers, and how each control turns the card's
 * local state into the new state it commits, by overriding one key of the
 * local state object.
 */
module DeviceCard {
  import opened Wrappers
  import opened Types

  /** The local state a card starts from: `device.state || {}`. */
  function InitialLocal(state: Json): (r: Json)
    ensures Truthy(Some(state)) ==> r == state
    ensures !Truthy(Some(state)) ==> r == EmptyObject
  {
    if Truthy(Some(state)) then state else EmptyObject
  }

  /** The own keys `{ ...v }` copies: an object's fields, nothing for `null`,
      booleans and numbers (strings and arrays: see README, Left out). */
  function Spread(v: Json): map<string, Json> {
    if v.JObject? then v.fields else map[]
  }

  /** `{ ...local, [key]: value }`: `key` holds `value`, every other key reads as
      it did in `local`. */
  function Override(local: Json, key: string, value: Json): (r: Json)
    ensures r.JObject? && r.fields.Keys == Spread(local).Keys + {key}
    ensures Field(r, key) == Some(value)
    ensures forall k :: k != key ==> Field(r, k) == Field(local, k)
  {
    JObject(Spread(local)[key := value])
  }

  /** What `commit(newState, action = "update_state")` does: the local state
      becomes `newState`, and `onChange` receives the same `newState` with the
      action label. */
  datatype Commit = Commit(local: Json, newState: Json, action: string)

  function CommitState(newState: Json, action: Option<string>): (c: Commit)
    ensures c.local == c.newState == newState
    ensures c.action == action.GetOr("update_state")
  {
    Commit(newState, newState, match action case Some(a) => a case None => "update_state")
  }

  /** The controls of a card. */
  datatype Control = Power | Brightness | Speed | Temperature | OpenButton | CloseButton

  /** The control rows rendered for each device type, top to bottom. */
  function Controls(t: DeviceType): (r: seq<Control>)
    ensures Power in r <==> t in {Light, Fan, Ac, Geyser}
    ensures r == [] <==> t == Sensor
    ensures forall i, j :: 0 <= i < j < |r| ==> r[i] != r[j]
  {
    match t
    case Light => [Power, Brightness]
    case Fan => [Power, Speed]
    case Ac => [Power, Temperature]
    case Curtain => [OpenButton, CloseButton]
    case Geyser => [Power]
    case Sensor => []
  }

  /** A user gesture on one control: the switch's new position, the slider's
      value, the number typed (`Number(e.target.value)`), a button press. */
  datatype Gesture =
    | Switch(on: bool)
    | SlideBrightness(level: int)
    | SlideSpeed(level: int)
    | TypeTemperature(degrees: real)
    | PressOpen
    | PressClose

  function ControlOf(g: Gesture): Control {
    match g
    case Switch(_) => Power
    case SlideBrightness(_) => Brightness
    case SlideSpeed(_) => Speed
    case TypeTemperature(_) => Temperature
    case PressOpen => OpenButton
    case PressClose => CloseButton
  }

  /** The handlers of the rows for type `t`: the commit a gesture causes, or
      None when `t` renders no such control. A gesture commits exactly when its
      control is one of the rows rendered for the type, so a sensor card never
      commits; a commit sets the card's local state to what it sends. */
  function OnGesture(t: DeviceType, local: Json, g: Gesture): (r: Option<Commit>)
    ensures r.Some? <==> ControlOf(g) in Controls(t)
    ensures t == Sensor ==> r.None?
    ensures r.Some? ==> r.value.local == r.value.newState
  {
    match (t, g)
    case (Light, Switch(v)) => Some(CommitState(Override(local, "power", JBool(v)), None))
    case (Light, SlideBrightness(v)) => Some(CommitState(Override(local, "brightness", JNumber(v as real)), None))
    case (Fan, Switch(v)) => Some(CommitState(Override(local, "power", JBool(v)), None))
    case (Fan, SlideSpeed(v)) => Some(CommitState(Override(local, "speed", JNumber(v as real)), None))
    case (Ac, Switch(v)) => Some(CommitState(Override(local, "power", JBool(v)), None))
    case (Ac, TypeTemperature(v)) => Some(CommitState(Override(local, "temperature", JNumber(v)), None))
    case (Curtain, PressOpen) => Some(CommitState(Override(local, "position", JString("open")), Some("open")))
    case (Curtain, PressClose) => Some(CommitState(Override(local, "position", JString("closed")), Some("close")))
    case (Geyser, Switch(v)) => Some(CommitState(Override(local, "power", JBool(v)), None))
    case _ => None
  }

  /** Every device type with a power switch: flipping it overrides `power` only,
      with the default label. */
  lemma PowerOverridesOnlyPower(t: DeviceType, local: Json, on: bool)
    requires t in {Light, Fan, Ac, Geyser}
    ensures OnGesture(t, local, Switch(on)).Some?
    ensures var c := OnGesture(t, local, Switch(on)).value;
      c.local == c.newState && c.action == "update_state" &&
      Field(c.newState, "power") == Some(JBool(on)) &&
      forall k :: k != "power" ==> Field(c.newState, k) == Field(local, k)
  {
  }

  /** The curtain's two buttons set `position` and label the action. */
  lemma CurtainButtons(local: Json)
    ensures OnGesture(Curtain, local, PressOpen) ==
      Some(Commit(Override(local, "position", JString("open")), Override(local, "position", JString("open")), "open"))
    ensures OnGesture(Curtain, local, PressClose) ==
      Some(Commit(Override(local, "position", JString("closed")), Override(local, "position", JString("closed")), "close"))
  {
  }

  /** Each setting control overrides its own key only, with the default label:
      the light's slider `brightness`, the fan's slider `speed`, the air
      conditioner's number field `temperature`. */
  lemma SettingsOverrideOnlyTheirKey(local: Json, level: int, degrees: real)
    ensures var c := OnGesture(Light, local, SlideBrightness(level)).value;
      c.action == "update_state" && Field(c.newState, "brightness") == Some(JNumber(level as real)) &&
      forall k :: k != "brightness" ==> Field(c.newState, k) == Field(local, k)
    ensures var c := OnGesture(Fan, local, SlideSpeed(level)).value;
      c.action == "update_state" && Field(c.newState, "speed") == Some(JNumber(level as real)) &&
      forall k :: k != "speed" ==> Field(c.newState, k) == Field(local, k)
    ensures var c := OnGesture(Ac, local, TypeTemperature(degrees)).value;
      c.action == "update_state" && Field(c.newState, "temperature") == Some(JNumber(degrees)) &&
      forall k :: k != "temperature" ==> Field(c.newState, k) == Field(local, k)
  {
  }

  /** A slider's bounds and step. */
  datatype Slider = Slider(min: int, max: int, step: nat)

  const BrightnessSlider: Slider := Slider(0, 100, 1)
  const SpeedSlider: Slider := Slider(0, 3, 1)

  /** The values a slider can report. */
  predicate Emits(s: Slider, v: int) {
    s.min <= v <= s.max && s.step > 0 && (v - s.min) % s.step == 0
  }

  /** What the switch shows: `!!localState.power`, so a missing or `null`
      `power` shows off and a boolean shows itself. */
  function PowerShown(local: Json): (r: bool)
    ensures Nullish(Field(local, "power")) ==> !r
    ensures forall b :: Field(local, "power") == Some(JBool(b)) ==> r == b
  {
    Truthy(Field(local, "power"))
  }

  /** What a slider or number field shows: `Number(localState[key] ?? default)`.
      `Number` of a string, array or object is not modelled (None). */
  function NumberShown(local: Json, key: string, default: real): (r: Option<real>)
    ensures Nullish(Field(local, key)) ==> r == Some(default)
    ensures Field(local, key).Some? && Field(local, key).value.JNumber? ==> r == Some(Field(local, key).value.n)
  {
    match OrElse(Field(local, key), JNumber(default))
    case JNumber(n) => Some(n)
    case JBool(b) => Some(if b then 1.0 else 0.0)
    case _ => None
  }

  function BrightnessShown(local: Json): Option<real> { NumberShown(local, "brightness", 50.0) }
  function SpeedShown(local: Json): Option<real> { NumberShown(local, "speed", 1.0) }
  function TemperatureShown(local: Json): Option<real> { NumberShown(local, "temperature", 24.0) }

  /** A card whose local state lacks these keys (a fresh card, or one where only
      other keys were set) shows power off, brightness 50, speed 1 and
      temperature 24. */
  lemma DisplayDefaults(local: Json)
    requires "power" !in Spread(local) && "brightness" !in Spread(local)
    requires "speed" !in Spread(local) && "temperature" !in Spread(local)
    ensures !PowerShown(local)
    ensures BrightnessShown(local) == Some(50.0) && SpeedShown(local) == Some(1.0)
    ensures TemperatureShown(local) == Some(24.0)
  {
  }

  /** What the user sets is what the card shows next, and the other readings
      stay as they were: for a light, a slider move within the slider's range
      shows that brightness and leaves the switch alone; a switch flip shows
      the new position and leaves the brightness alone. */
  lemma LightShowsWhatWasSet(local: Json, level: int, on: bool)
    requires Emits(BrightnessSlider, level)
    ensures var c := OnGesture(Light, local, SlideBrightness(level)).value;
      BrightnessShown(c.local) == Some(level as real) &&
      PowerShown(c.local) == PowerShown(local)
    ensures var c := OnGesture(Light, local, Switch(on)).value;
      PowerShown(c.local) == on && BrightnessShown(c.local) == BrightnessShown(local)
  {
  }

  /** The same for a fan and its speed slider (0 to 3). */
  lemma FanShowsWhatWasSet(local: Json, level: int)
    requires Emits(SpeedSlider, level)
    ensures var c := OnGesture(Fan, local, SlideSpeed(level)).value;
      SpeedShown(c.local) == Some(level as real) &&
      PowerShown(c.local) == PowerShown(local)
  {
  }
}
