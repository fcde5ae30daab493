/**
  Smart-home control: a device table loaded from configuration, dispatch of a
  control action by the device's protocol, the light and thermostat
  conveniences, device discovery, and the keyword parser for spoken home
  commands.

  The HTTP POST and the MQTT publish are not modelled; whether the one send a
  call performs is delivered successfully is the parameter `delivered`
  (HTTP status 200 with no request error, or an MQTT publish without error).
  Every operation is a pure function of the device table, so no stored
  status is ever changed.
 */
module HomeControl {
  import opened Wrappers
  import opened Text

  /** The fields of one device entry that the code reads; each may be missing. */
  datatype DeviceInfo = DeviceInfo(
    name: Option<string>,
    kind: Option<string>,      // the JSON key "type"
    status: Option<string>,
    protocol: Option<string>)

  /** The `devices` dictionary: ids in insertion order and the entry of each id. */
  datatype Devices = Devices(ids: seq<string>, info: map<string, DeviceInfo>)

  /** What every Python dictionary satisfies: distinct keys, and exactly the listed ones. */
  ghost predicate Valid(d: Devices) {
    && (forall i, j :: 0 <= i < j < |d.ids| ==> d.ids[i] != d.ids[j])
    && d.info.Keys == set id | id in d.ids
  }

  datatype Protocol = Http | Mqtt

  /** The `params` of a control request. */
  datatype Params =
    | NoParams                          // `None`, sent as `{}`
    | Brightness(level: int)            // {'brightness': level}
    | Temperature(degrees: real)        // {'temperature': degrees}
    | Fields(fields: map<string, string>) // any other dictionary, as given to the REST endpoint

  /** One send to a device: the protocol used and the payload's action and params. */
  datatype Request = Request(protocol: Protocol, deviceId: string, action: string, params: Params)

  /** The boolean a control call returns, and the send it performed, if any. */
  datatype Control = Control(ok: bool, sent: Option<Request>)

  function ProtocolOf(info: DeviceInfo): Option<Protocol> {
    match info.protocol
    case Some(p) => if p == "http" then Some(Http) else if p == "mqtt" then Some(Mqtt) else None
    case None => None
  }

  /** A device is known and speaks one of the two supported protocols. */
  predicate Reachable(d: Devices, id: string) {
    id in d.info && d.info[id].protocol in {Some("http"), Some("mqtt")}
  }

  /**
    `control_device`: an unknown id or an unsupported protocol fails without
    any send; otherwise exactly one send is made over the device's protocol
    and the call succeeds exactly when it is delivered.
   */
  function ControlDevice(d: Devices, id: string, action: string, params: Params, delivered: bool): (c: Control)
    ensures id !in d.info ==> c == Control(false, None)
    ensures c.sent.Some? <==> Reachable(d, id)
    ensures c.sent.Some? ==>
      && c.sent.value.deviceId == id && c.sent.value.action == action && c.sent.value.params == params
      && (c.sent.value.protocol == Http <==> d.info[id].protocol == Some("http"))
    ensures c.ok <==> c.sent.Some? && delivered
  {
    if id !in d.info then Control(false, None)
    else match ProtocolOf(d.info[id])
      case Some(p) => Control(delivered, Some(Request(p, id, action, params)))
      case None => Control(false, None)
  }

  /** `get_device_status`: the stored status, `None` for an unknown device or a missing field. */
  function GetDeviceStatus(d: Devices, id: string): (s: Option<string>)
    ensures s.Some? ==> id in d.info && d.info[id].status == s
    ensures id in d.info ==> s == d.info[id].status
  {
    if id in d.info then d.info[id].status else None
  }

  /** `toggle_light`: sends "off" to a light stored as "on", and "on" in every other case. */
  function ToggleLight(d: Devices, id: string, delivered: bool): (c: Control)
    ensures c.sent.Some? <==> Reachable(d, id)
    ensures c.ok <==> c.sent.Some? && delivered
    ensures c.sent.Some? ==> c.sent.value.deviceId == id && c.sent.value.params == NoParams
    ensures c.sent.Some? ==>
      (c.sent.value.action == "off" <==> id in d.info && d.info[id].status == Some("on"))
    ensures c.sent.Some? ==> c.sent.value.action in {"on", "off"}
  {
    var action := if GetDeviceStatus(d, id) == Some("on") then "off" else "on";
    ControlDevice(d, id, action, NoParams, delivered)
  }

  /** `set_brightness`: a level outside 0..100 is refused before any control call. */
  function SetBrightness(d: Devices, id: string, level: int, delivered: bool): (c: Control)
    ensures !(0 <= level <= 100) ==> c == Control(false, None)
    ensures 0 <= level <= 100 ==> c == ControlDevice(d, id, "set", Brightness(level), delivered)
  {
    if !(0 <= level <= 100) then Control(false, None)
    else ControlDevice(d, id, "set", Brightness(level), delivered)
  }

  /** `set_temperature`: any temperature is passed on, with no range check. */
  function SetTemperature(d: Devices, id: string, degrees: real, delivered: bool): (c: Control)
    ensures c.sent.Some? <==> Reachable(d, id)
    ensures c.sent.Some? ==>
      && c.sent.value.deviceId == id && c.sent.value.action == "set"
      && c.sent.value.params == Temperature(degrees)
    ensures c.ok <==> c.sent.Some? && delivered
  {
    ControlDevice(d, id, "set", Temperature(degrees), delivered)
  }

  /**
    Toggling a reachable light makes exactly one send, over the device's own
    protocol, of the opposite of its stored status; it succeeds exactly when
    that send is delivered.
   */
  lemma ToggleLightSendsOpposite(d: Devices, id: string, delivered: bool)
    requires Reachable(d, id)
    ensures var c := ToggleLight(d, id, delivered);
      && c.sent.Some?
      && c.sent.value.protocol == (if d.info[id].protocol == Some("http") then Http else Mqtt)
      && c.sent.value.action == (if d.info[id].status == Some("on") then "off" else "on")
      && c.ok == delivered
  {
  }

  /**
    Unlike brightness, a temperature has no range check: any value, however
    large or negative, reaches a reachable thermostat, and the result is the
    same as that of `control_device` with the same arguments.
   */
  lemma TemperatureIsNotRangeChecked(d: Devices, id: string, degrees: real, delivered: bool)
    requires Reachable(d, id)
    ensures var c := SetTemperature(d, id, degrees, delivered);
      && c.sent.Some? && c.sent.value.params == Temperature(degrees)
      && c.ok == delivered
      && c == ControlDevice(d, id, "set", Temperature(degrees), delivered)
  {
  }

  /** One entry of the `discover_devices` list. */
  datatype DeviceRecord = DeviceRecord(id: string, name: string, kind: string, status: string)

  function Describe(id: string, info: DeviceInfo): DeviceRecord {
    DeviceRecord(id, info.name.GetOr(id), info.kind.GetOr("unknown"), info.status.GetOr("offline"))
  }

  /**
    `discover_devices`: one record per configured device, in configuration
    order, with the name defaulting to the id, the type to "unknown" and the
    status to "offline".
   */
  function DiscoverDevices(d: Devices): (r: seq<DeviceRecord>)
    requires Valid(d)
    ensures |r| == |d.ids|
    ensures forall i :: 0 <= i < |r| ==> r[i].id == d.ids[i]
    ensures forall i :: 0 <= i < |r| ==>
      var info := d.info[d.ids[i]];
      && (r[i].name == if info.name.Some? then info.name.value else d.ids[i])
      && (r[i].kind == if info.kind.Some? then info.kind.value else "unknown")
      && (r[i].status == if info.status.Some? then info.status.value else "offline")
  {
    seq(|d.ids|, i requires 0 <= i < |d.ids| => Describe(d.ids[i], d.info[d.ids[i]]))
  }

  /** Every configured device is discovered exactly once. */
  lemma DiscoveryCoversDevices(d: Devices)
    requires Valid(d)
    ensures var r := DiscoverDevices(d);
      forall id :: id in d.info <==> exists i :: 0 <= i < |r| && r[i].id == id
  {
    var r := DiscoverDevices(d);
    forall id | id in d.info
      ensures exists i :: 0 <= i < |r| && r[i].id == id
    {
      var i :| 0 <= i < |d.ids| && d.ids[i] == id;
      assert r[i].id == id;
    }
  }

  // ---------------------------------------------------------------------------
  // `handle_home_command`

  datatype Room = Bedroom | LivingRoom

  function LightOf(room: Room): string {
    match room
    case Bedroom => "bedroom_light"
    case LivingRoom => "living_room_light"
  }

  const Thermostat := "thermostat_main"

  /** What a spoken home command asks for, after keyword matching. */
  datatype Intent =
    | TurnOn(room: Option<Room>)
    | TurnOff(room: Option<Room>)
    | SetLevel(level: nat)
    | SetDegrees(degrees: Option<nat>)
    | Unrecognised

  function RoomOf(lower: string): Option<Room> {
    if Contains(lower, "bedroom") then Some(Bedroom)
    else if Contains(lower, "living room") || Contains(lower, "livingroom") then Some(LivingRoom)
    else None
  }

  predicate AsksForLight(lower: string, verb: string) {
    Contains(lower, verb) && Contains(lower, "light")
  }

  predicate AsksForBrightness(lower: string) {
    Contains(lower, "set brightness") || (Contains(lower, "dim") && Contains(lower, "light"))
  }

  predicate AsksForTemperature(lower: string) {
    Contains(lower, "set temperature") || Contains(lower, "thermostat")
  }

  /** The brightness branch's choice of level, including its numeric fallback. */
  function BrightnessLevel(command: string, lower: string): nat {
    if Contains(lower, "low") || Contains(lower, "dim") then 30
    else if Contains(lower, "medium") then 60
    else if Contains(lower, "high") || Contains(lower, "bright") then 100
    else FirstNumber(command).GetOr(50)
  }

  /**
    The keyword matching of `handle_home_command`, on the lower-cased text,
    in its fixed branch order: turn on a light, turn off a light, brightness,
    temperature, and otherwise nothing recognised.
   */
  function ParseHomeCommand(command: string): (intent: Intent)
    ensures var lower := Lower(command);
      && (intent.TurnOn? <==> AsksForLight(lower, "turn on"))
      && (intent.TurnOff? <==> !AsksForLight(lower, "turn on") && AsksForLight(lower, "turn off"))
      && (intent.SetLevel? <==>
            !AsksForLight(lower, "turn on") && !AsksForLight(lower, "turn off") && AsksForBrightness(lower))
      && (intent.SetDegrees? <==>
            !AsksForLight(lower, "turn on") && !AsksForLight(lower, "turn off")
            && !AsksForBrightness(lower) && AsksForTemperature(lower))
    ensures intent.TurnOn? || intent.TurnOff? ==> intent.room == RoomOf(Lower(command))
    ensures intent.SetDegrees? ==> intent.degrees == FirstNumber(command)
  {
    var lower := Lower(command);
    if AsksForLight(lower, "turn on") then TurnOn(RoomOf(lower))
    else if AsksForLight(lower, "turn off") then TurnOff(RoomOf(lower))
    else if AsksForBrightness(lower) then SetLevel(BrightnessLevel(command, lower))
    else if AsksForTemperature(lower) then SetDegrees(FirstNumber(command))
    else Unrecognised
  }

  /**
    The brightness branch always chooses 30, 60 or 100: it is entered only on
    "set brightness", which contains "bright", or on "dim", so the numeric
    fallback is never reached. The level is 30 for "low" or "dim", 60 for
    "medium", and 100 otherwise.
   */
  lemma BrightnessIsAPreset(command: string)
    ensures var intent := ParseHomeCommand(command);
      intent.SetLevel? ==> intent.level in {30, 60, 100}
    ensures var intent := ParseHomeCommand(command); var lower := Lower(command);
      intent.SetLevel? ==>
        intent.level == if Contains(lower, "low") || Contains(lower, "dim") then 30
                        else if Contains(lower, "medium") then 60
                        else 100
  {
    var lower := Lower(command);
    if AsksForBrightness(lower) && Contains(lower, "set brightness") {
      assert OccursAt("set brightness", "bright", 4);
      ContainsTransitive(lower, "set brightness", "bright");
    }
  }

  /** The reply and the send made by one home command. */
  datatype Handled = Handled(reply: string, sent: Option<Request>)

  function RoomName(room: Room): string {
    match room
    case Bedroom => "Bedroom"
    case LivingRoom => "Living room"
  }

  function RoomNameLower(room: Room): string {
    match room
    case Bedroom => "bedroom"
    case LivingRoom => "living room"
  }

  /** `f"{float(n)}"` for an integer-valued float: the digits followed by ".0". */
  function FloatString(n: nat): string {
    NatToString(n) + ".0"
  }

  /** Carries out a parsed home command against the device table. */
  function Execute(intent: Intent, d: Devices, delivered: bool): Handled {
    match intent
    case TurnOn(None) => Handled("Which light would you like me to turn on?", None)
    case TurnOff(None) => Handled("Which light would you like me to turn off?", None)
    case TurnOn(Some(room)) =>
      var c := ToggleLight(d, LightOf(room), delivered);
      Handled(if c.ok then RoomName(room) + " light turned on."
              else "Failed to control " + RoomNameLower(room) + " light.", c.sent)
    case TurnOff(Some(room)) =>
      var c := ToggleLight(d, LightOf(room), delivered);
      Handled(if c.ok then RoomName(room) + " light turned off."
              else "Failed to control " + RoomNameLower(room) + " light.", c.sent)
    case SetLevel(level) =>
      var c := SetBrightness(d, LightOf(Bedroom), level, delivered);
      Handled(if c.ok then "Brightness set to " + NatToString(level) + "%." else "Failed to set brightness.", c.sent)
    case SetDegrees(None) => Handled("What temperature would you like to set?", None)
    case SetDegrees(Some(n)) =>
      var c := SetTemperature(d, Thermostat, n as real, delivered);
      Handled(if c.ok then "Temperature set to " + FloatString(n) + "\U{B0}F." else "Failed to set temperature.",
              c.sent)
    case Unrecognised => Handled("I'm not sure how to handle that home automation command.", None)
  }

  /**
    `handle_home_command`: a command naming no light, a temperature command
    without a number, and an unrecognised command send nothing. Otherwise the
    send is the one the light, brightness or thermostat control makes, and the
    reply reports success exactly when a send was made and delivered.
   */
  function HandleHomeCommand(command: string, d: Devices, delivered: bool): (h: Handled)
    ensures var intent := ParseHomeCommand(command);
      intent in {TurnOn(None), TurnOff(None), SetDegrees(None), Unrecognised} ==> h.sent.None?
    ensures var intent := ParseHomeCommand(command);
      (intent.TurnOn? || intent.TurnOff?) && intent.room.Some? ==>
        var room := intent.room.value;
        && h.sent == ToggleLight(d, LightOf(room), delivered).sent
        && (h.sent.Some? && delivered ==>
              h.reply == RoomName(room) + (if intent.TurnOn? then " light turned on." else " light turned off."))
        && (!(h.sent.Some? && delivered) ==> h.reply == "Failed to control " + RoomNameLower(room) + " light.")
    ensures var intent := ParseHomeCommand(command);
      intent.SetLevel? ==>
        && h.sent == SetBrightness(d, LightOf(Bedroom), intent.level, delivered).sent
        && (h.sent.Some? && delivered ==> h.reply == "Brightness set to " + NatToString(intent.level) + "%.")
        && (!(h.sent.Some? && delivered) ==> h.reply == "Failed to set brightness.")
    ensures var intent := ParseHomeCommand(command);
      intent.SetDegrees? && intent.degrees.Some? ==>
        var n := intent.degrees.value;
        && h.sent == SetTemperature(d, Thermostat, n as real, delivered).sent
        && (h.sent.Some? && delivered ==> h.reply == "Temperature set to " + FloatString(n) + "\U{B0}F.")
        && (!(h.sent.Some? && delivered) ==> h.reply == "Failed to set temperature.")
  {
    Execute(ParseHomeCommand(command), d, delivered)
  }

  /** Every send a home command makes goes to one of the three fixed devices. */
  lemma HomeCommandTargets(command: string, d: Devices, delivered: bool)
    ensures var h := HandleHomeCommand(command, d, delivered);
      h.sent.Some? ==> h.sent.value.deviceId in {"bedroom_light", "living_room_light", "thermostat_main"}
  {
  }

  /** A temperature command without digits asks back and sends nothing. */
  lemma TemperatureWithoutDigitsAsks(command: string, d: Devices, delivered: bool)
    requires ParseHomeCommand(command).SetDegrees?
    requires forall k :: 0 <= k < |command| ==> !IsDigit(command[k])
    ensures HandleHomeCommand(command, d, delivered) == Handled("What temperature would you like to set?", None)
  {
  }

  /** A temperature command sends the first number of the command to the main thermostat. */
  lemma TemperatureUsesFirstNumber(command: string, d: Devices, delivered: bool, n: nat)
    requires ParseHomeCommand(command).SetDegrees?
    requires FirstNumber(command) == Some(n)
    ensures var h := HandleHomeCommand(command, d, delivered);
      h.sent.Some? ==> h.sent.value == Request(h.sent.value.protocol, Thermostat, "set", Temperature(n as real))
  {
  }

  /**
    "Turn on" toggles: when the stored status of the bedroom light is "on",
    a "turn on the bedroom light" command sends "off" and, if delivered,
    still replies that the light was turned on.
   */
  lemma TurnOnToggles(command: string, d: Devices, delivered: bool)
    requires ParseHomeCommand(command) == TurnOn(Some(Bedroom))
    requires "bedroom_light" in d.info && d.info["bedroom_light"].status == Some("on")
    requires d.info["bedroom_light"].protocol == Some("http")
    ensures var h := HandleHomeCommand(command, d, delivered);
      && h.sent == Some(Request(Http, "bedroom_light", "off", NoParams))
      && (delivered ==> h.reply == "Bedroom light turned on.")
  {
  }
}
