/** The decision rules of the Xiaomi Mi Home app object (app.js): the
    "between" condition cards, the gateway developer-key generator, the MAC
    normalisation of the pairing helper, the favourite-radio, volume and LED
    action cards, and the settings listener. Calls to a device are recorded
    as `Rpc` values; whether the device (after its one retry) answers a call
    is the parameter `accepts`. */
module MiioApp {
  import opened JsRuntime

  // ---------------------------------------------------------------------------
  // Device calls and flow-card outcomes
  // ---------------------------------------------------------------------------

  datatype Arg = Number(n: JsNumber) | Text(s: string)

  /** Parameters of a call: a positional list, or the `{id, type, url}`
      object of `play_specify_fm`. */
  datatype Params = Args(args: seq<Arg>) | Station(id: JsNumber, kind: int, url: string)

  datatype Rpc = Rpc(name: string, params: Params)

  /** A card resolves with `true` or with the device's reply to a call. */
  datatype FlowValue = True | Reply(name: string)

  /** Why a card rejects: a call failed, or the setting it reads is absent
      (so that `.split` is applied to `undefined`). */
  datatype FlowError = CallFailed(name: string) | SettingMissing(key: string)

  /** The calls a card handler issued, in order, and how it settled. */
  datatype Handled = Handled(sent: seq<Rpc>, outcome: Settled<FlowValue, FlowError>)

  /** Issues the calls of `plan` one after the other, awaiting each; the first
      call the device does not accept ends the run. Returns the calls issued
      and whether all of them succeeded. */
  function RunCalls(plan: seq<Rpc>, accepts: Rpc -> bool): (r: (seq<Rpc>, bool))
    ensures r.0 <= plan
    ensures r.1 <==> forall i :: 0 <= i < |plan| ==> accepts(plan[i])
    ensures r.1 ==> r.0 == plan
    ensures !r.1 ==> r.0 != [] && !accepts(r.0[|r.0| - 1])
    ensures forall i :: 0 <= i < |r.0| - 1 ==> accepts(r.0[i])
  {
    if plan == [] then ([], true)
    else if !accepts(plan[0]) then ([plan[0]], false)
    else
      var rest := RunCalls(plan[1..], accepts);
      var sent := [plan[0]] + rest.0;
      assert forall i :: 1 <= i < |sent| ==> sent[i] == rest.0[i - 1];
      assert forall i :: 1 <= i < |plan| ==> plan[i] == plan[1..][i - 1];
      (sent, rest.1)
  }

  /** A two-call plan: the second call is issued only when the first succeeds. */
  lemma RunTwoCalls(plan: seq<Rpc>, accepts: Rpc -> bool)
    requires |plan| == 2
    ensures RunCalls(plan, accepts) ==
      if !accepts(plan[0]) then ([plan[0]], false)
      else if !accepts(plan[1]) then (plan, false)
      else (plan, true)
  {
    assert plan == [plan[0]] + [plan[1]];
    if accepts(plan[0]) {
      assert plan[1..] == [plan[1]];
      assert RunCalls([plan[1]], accepts).0 == [plan[1]];
    }
  }

  /** `return await device.miio.call(...)` inside a try whose catch rejects. */
  function AwaitCall(c: Rpc, accepts: Rpc -> bool): (h: Handled)
    ensures h.sent == [c]
    ensures h.outcome.Resolved? <==> accepts(c)
    ensures h.outcome.Resolved? ==> h.outcome.value == Reply(c.name)
    ensures h.outcome.Rejected? ==> h.outcome.error == CallFailed(c.name)
  {
    if accepts(c) then Handled([c], Resolved(Reply(c.name)))
    else Handled([c], Rejected(CallFailed(c.name)))
  }

  /** `parseInt(args.volume * 100)`: the slider position as a whole percent. */
  function Percent(volume: real): (p: int)
    ensures 0.0 <= volume <= 1.0 ==> 0 <= p <= 100
  {
    TruncateToInt(volume * 100.0)
  }

  // ---------------------------------------------------------------------------
  // measure_humidity_between / measure_temperature_between
  // ---------------------------------------------------------------------------

  datatype Measure = Humidity | Temperature

  /** The capability values a sensor reports. */
  datatype Sensor = Sensor(humidity: real, temperature: real)

  function Reading(device: Sensor, m: Measure): real
  {
    match m
    case Humidity => device.humidity
    case Temperature => device.temperature
  }

  /** The two card arguments, smaller first. */
  function OrderedBounds(value1: real, value2: real): (b: (real, real))
    ensures b.0 <= b.1
    ensures multiset{b.0, b.1} == multiset{value1, value2}
  {
    if value1 < value2 then (value1, value2) else (value2, value1)
  }

  /** The condition card: false without a device, otherwise whether the
      reading lies between the two arguments, both ends included, whichever
      of the two is the larger. */
  function BetweenCondition(device: Option<Sensor>, m: Measure, value1: real, value2: real): (r: bool)
    ensures device.None? ==> !r
    ensures device.Some? ==>
      (r <==> (value1 <= Reading(device.value, m) <= value2 || value2 <= Reading(device.value, m) <= value1))
  {
    match device
    case None => false
    case Some(d) =>
      var (lo, hi) := OrderedBounds(value1, value2);
      lo <= Reading(d, m) && Reading(d, m) <= hi
  }

  /** Exchanging the two arguments never changes the answer. */
  lemma BetweenSymmetric(device: Option<Sensor>, m: Measure, value1: real, value2: real)
    ensures BetweenCondition(device, m, value1, value2) == BetweenCondition(device, m, value2, value1)
  {
  }

  // ---------------------------------------------------------------------------
  // generateKey
  // ---------------------------------------------------------------------------

  const KeyLength: nat := 16
  const HexChars: string := "0123456789ABCDEF"

  /** `Math.floor(draw * chars.length)` for a draw of `Math.random()`. */
  function KeyIndex(draw: real): (i: nat)
    requires 0.0 <= draw < 1.0
    ensures i < |HexChars|
  {
    (draw * 16.0).Floor
  }

  predicate ValidDraws(draws: seq<real>)
  {
    forall i :: 0 <= i < |draws| ==> 0.0 <= draws[i] < 1.0
  }

  /** A developer key: 16 upper-case hexadecimal digits. */
  predicate IsDeveloperKey(key: string)
  {
    |key| == KeyLength && forall i :: 0 <= i < |key| ==> key[i] in HexChars
  }

  /** The key the random draws select, one character per draw. */
  function KeyOf(draws: seq<real>): (key: string)
    requires ValidDraws(draws)
    ensures |key| == |draws|
    ensures forall i :: 0 <= i < |draws| ==> key[i] == HexChars[KeyIndex(draws[i])]
  {
    if draws == [] then []
    else KeyOf(draws[..|draws| - 1]) + [HexChars[KeyIndex(draws[|draws| - 1])]]
  }

  /** `generateKey`, with `Math.random()` replaced by the given draws. */
  method GenerateKey(draws: seq<real>) returns (key: string)
    requires |draws| == KeyLength && ValidDraws(draws)
    ensures key == KeyOf(draws)
    ensures IsDeveloperKey(key)
  {
    key := "";
    for i := 0 to KeyLength
      invariant key == KeyOf(draws[..i])
    {
      var idx := KeyIndex(draws[i]);
      assert draws[..i + 1][..i] == draws[..i];
      key := key + [HexChars[idx]];
    }
    assert draws[..KeyLength] == draws;
  }

  /** Every developer key is the outcome of some draws: the generator can
      produce any of the 16^16 keys. */
  lemma EveryKeyIsGenerated(key: string)
    requires IsDeveloperKey(key)
    ensures exists draws :: |draws| == KeyLength && ValidDraws(draws) && KeyOf(draws) == key
  {
    var draws := seq(KeyLength, i requires 0 <= i < KeyLength => IndexOf(HexChars, key[i]) as real / 16.0);
    assert ValidDraws(draws);
    forall i | 0 <= i < KeyLength ensures KeyOf(draws)[i] == key[i] {
      assert KeyIndex(draws[i]) == IndexOf(HexChars, key[i]);
    }
  }

  // ---------------------------------------------------------------------------
  // generate: the MAC returned by the pairing helper
  // ---------------------------------------------------------------------------

  /** `info.mac.replace(/\:/g, "").toLowerCase()`. */
  function NormaliseMac(mac: string): (r: string)
    ensures |r| <= |mac|
    ensures ':' !in r
    ensures forall i :: 0 <= i < |r| ==> !('A' <= r[i] <= 'Z')
  {
    var kept := Filter(mac, c => c != ':');
    var r := ToLowerAscii(kept);
    assert forall i :: 0 <= i < |r| ==> r[i] != ':' by {
      forall i | 0 <= i < |r| ensures r[i] != ':' { assert kept[i] != ':'; }
    }
    r
  }

  /** The normalisation works character by character and keeps order ... */
  lemma NormaliseMacConcat(a: string, b: string)
    ensures NormaliseMac(a + b) == NormaliseMac(a) + NormaliseMac(b)
  {
    FilterConcat(a, b, c => c != ':');
  }

  /** ... dropping each colon and lower-casing every other character. */
  lemma NormaliseMacChar(c: char)
    ensures NormaliseMac([c]) == if c == ':' then [] else [LowerAscii(c)]
  {
    assert [c][1..] == [];
  }

  /** A MAC already normalised is left as it is. */
  lemma {:induction false} NormaliseMacIdempotent(mac: string)
    ensures NormaliseMac(NormaliseMac(mac)) == NormaliseMac(mac)
  {
    var r := NormaliseMac(mac);
    FilterKeepsAll(r, c => c != ':');
    forall i | 0 <= i < |r| ensures LowerAscii(r[i]) == r[i] { }
  }

  // ---------------------------------------------------------------------------
  // gateway_play_radio
  // ---------------------------------------------------------------------------

  /** The settings key of favourite number `favouriteID`. */
  function FavouriteKey(favouriteID: string): string
  {
    "favorite" + favouriteID + "ID"
  }

  /** A favourite station: its (possibly NaN) id and its URL. */
  datatype Favourite = Favourite(id: JsNumber, url: string)

  /** `"id,url"`: present exactly when the setting holds a comma; id and URL
      are the first two fields with all white space removed. */
  function ParseFavourite(setting: string): (f: Option<Favourite>)
    ensures f.Some? <==> ',' in setting
    ensures f.Some? ==> forall i :: 0 <= i < |f.value.url| ==> !IsJsWhitespace(f.value.url[i])
  {
    var fields := Split(setting, ',');
    SplitCount(setting, ',');
    if |fields| >= 2 then Some(FavouriteOf(fields[0], fields[1])) else None
  }

  /** The favourite an id field and a URL field describe, white space removed. */
  function FavouriteOf(idField: string, urlField: string): (f: Favourite)
    ensures forall i :: 0 <= i < |f.url| ==> !IsJsWhitespace(f.url[i])
    ensures forall c :: c in urlField && !IsJsWhitespace(c) ==> c in f.url
    ensures f.id.NaN? <==> ParseInt(StripWhitespace(idField)).None?
  {
    Favourite(NumberOfParsed(ParseInt(StripWhitespace(idField))), StripWhitespace(urlField))
  }

  /** An id field holding the decimal text of `n` gives the id `n`. */
  lemma FavouriteIdOfText(n: int, urlField: string)
    ensures FavouriteOf(IntToString(n), urlField).id == Num(n as real)
  {
    var t := IntToString(n);
    var d := if t[0] == '-' then t[1..] else t;
    forall i | 0 <= i < |t|
      ensures !IsJsWhitespace(t[i])
    {
      if t[0] == '-' && i > 0 {
        assert t[i] == d[i - 1];
      }
    }
    FilterKeepsAll(t, c => !IsJsWhitespace(c));
    ParseIntToString(n);
  }

  /** The id comes from the first field and the URL from the second; any
      further fields (whatever follows a second comma) are ignored. */
  lemma ParseFavouriteFields(idField: string, urlField: string, rest: string)
    requires ',' !in idField && ',' !in urlField
    requires rest == [] || rest[0] == ','
    ensures ParseFavourite(idField + [','] + urlField + rest) == Some(FavouriteOf(idField, urlField))
  {
    var setting := idField + [','] + urlField + rest;
    assert setting == idField + [','] + (urlField + rest);
    SplitCons(idField, urlField + rest, ',');
    LeadingField(urlField, rest, ',');
    assert Split(setting, ',')[1] == urlField;
  }

  /** The two calls that play a favourite station at a volume: tune to the
      station, then the same call the volume card makes for the radio. */
  function RadioPlan(f: Favourite, volume: real): (plan: seq<Rpc>)
    ensures |plan| == 2
    ensures plan[0].name == "play_specify_fm" && plan[0].params == Station(f.id, 0, f.url)
    ensures Some(plan[1]) == VolumeCall("radio", volume)
  {
    [Rpc("play_specify_fm", Station(f.id, 0, f.url)),
     Rpc("volume_ctrl_fm", Args([Text(IntToString(Percent(volume)))]))]
  }

  /** The `gateway_play_radio` card. */
  method PlayRadio(settings: map<string, string>, favouriteID: string, volume: real, accepts: Rpc -> bool)
    returns (sent: seq<Rpc>, outcome: Settled<FlowValue, FlowError>)
    ensures FavouriteKey(favouriteID) !in settings ==>
      sent == [] && outcome == Rejected(SettingMissing(FavouriteKey(favouriteID)))
    ensures FavouriteKey(favouriteID) in settings ==>
      match ParseFavourite(settings[FavouriteKey(favouriteID)])
      case None => sent == [] && outcome == Resolved(True)
      case Some(f) =>
        var run := RunCalls(RadioPlan(f, volume), accepts);
        && sent == run.0
        && outcome == if run.1 then Resolved(True) else Rejected(CallFailed(sent[|sent| - 1].name))
  {
    var key := FavouriteKey(favouriteID);
    if key !in settings {
      return [], Rejected(SettingMissing(key));
    }
    match ParseFavourite(settings[key])
    case Some(f) =>
      sent, outcome := PlayStation(f, volume, accepts);
    case None =>
      sent, outcome := [], Resolved(True);
  }

  /** The two awaited calls of `gateway_play_radio`: tune to the station, then
      set the volume; a failed call rejects the card with its error. */
  method PlayStation(f: Favourite, volume: real, accepts: Rpc -> bool)
    returns (sent: seq<Rpc>, outcome: Settled<FlowValue, FlowError>)
    ensures var run := RunCalls(RadioPlan(f, volume), accepts);
      && sent == run.0
      && outcome == if run.1 then Resolved(True) else Rejected(CallFailed(sent[|sent| - 1].name))
  {
    RunTwoCalls(RadioPlan(f, volume), accepts);
    var percent := Percent(volume);
    var play := Rpc("play_specify_fm", Station(f.id, 0, f.url));
    sent := [play];
    if !accepts(play) {
      return sent, Rejected(CallFailed(play.name));
    }
    var level := Rpc("volume_ctrl_fm", Args([Text(IntToString(percent))]));
    sent := sent + [level];
    if !accepts(level) {
      return sent, Rejected(CallFailed(level.name));
    }
    outcome := Resolved(True);
  }

  // ---------------------------------------------------------------------------
  // gateway_set_volume
  // ---------------------------------------------------------------------------

  const VolumeTargets: set<string> := {"alarm", "doorbell", "prompt", "radio"}

  /** The number a volume argument carries, as the gateway reads it. */
  function ArgNumber(a: Arg): JsNumber
  {
    match a
    case Number(n) => n
    case Text(s) => NumberOfParsed(ParseInt(s))
  }

  /** The call the volume card makes for `target`, if any. */
  function VolumeCall(target: string, volume: real): (c: Option<Rpc>)
    ensures c.Some? <==> target in VolumeTargets
    ensures c.Some? ==> (c.value.name == "set_alarming_volume" <==> target == "alarm")
    ensures c.Some? ==> (c.value.name == "set_doorbell_volume" <==> target == "doorbell")
    ensures c.Some? ==> (c.value.name == "set_gateway_volume" <==> target == "prompt")
    ensures c.Some? ==> (c.value.name == "volume_ctrl_fm" <==> target == "radio")
    ensures c.Some? ==>
      && c.value.params.Args? && |c.value.params.args| == 1
      && (c.value.params.args[0].Text? <==> target == "radio")
      && (c.value.params.args[0].Text? ==> DecimalText(c.value.params.args[0].s))
      && ArgNumber(c.value.params.args[0]) == Num(Percent(volume) as real)
  {
    var percent := Percent(volume);
    var asNumber := Args([Number(Num(percent as real))]);
    if target == "alarm" then Some(Rpc("set_alarming_volume", asNumber))
    else if target == "doorbell" then Some(Rpc("set_doorbell_volume", asNumber))
    else if target == "prompt" then Some(Rpc("set_gateway_volume", asNumber))
    else if target == "radio" then
      ParseIntToString(percent);
      Some(Rpc("volume_ctrl_fm", Args([Text(IntToString(percent))])))
    else None
  }

  /** The `gateway_set_volume` card: at most one call; an unknown target
      sends nothing and resolves `true`. */
  function SetVolume(target: string, volume: real, accepts: Rpc -> bool): (h: Handled)
    ensures |h.sent| <= 1
    ensures h.sent == [] <==> target !in VolumeTargets
    ensures h.sent == [] ==> h.outcome == Resolved(True)
    ensures h.sent != [] ==>
      && Some(h.sent[0]) == VolumeCall(target, volume)
      && h.outcome == if accepts(h.sent[0]) then Resolved(Reply(h.sent[0].name))
                      else Rejected(CallFailed(h.sent[0].name))
  {
    match VolumeCall(target, volume)
    case None => Handled([], Resolved(True))
    case Some(c) => AwaitCall(c, accepts)
  }

  // ---------------------------------------------------------------------------
  // ledAirpurifierHumidifier
  // ---------------------------------------------------------------------------

  /** The LED call: devices with an `airpurifier_mode` capability switch the
      LED off for brightness "3" and on otherwise; the others get the
      brightness as a number. */
  function LedCall(hasPurifierMode: bool, brightness: string): (c: Rpc)
    ensures c.name == "set_led" <==> hasPurifierMode
    ensures c.name == "set_led_b" <==> !hasPurifierMode
    ensures hasPurifierMode ==>
      (c.params == Args([Text("off")]) <==> brightness == "3")
      && (c.params == Args([Text("on")]) <==> brightness != "3")
    ensures !hasPurifierMode ==> c.params == Args([Number(StringToNumber(brightness))])
  {
    if hasPurifierMode then Rpc("set_led", Args([Text(if brightness == "3" then "off" else "on")]))
    else Rpc("set_led_b", Args([Number(StringToNumber(brightness))]))
  }

  /** A brightness level written as decimal text reaches the device as that
      number. */
  lemma LedLevelSent(level: int)
    ensures LedCall(false, IntToString(level)) == Rpc("set_led_b", Args([Number(Num(level as real))]))
  {
    NumberOfIntToString(level);
  }

  /** The `ledAirpurifierHumidifier` card. */
  function SetLed(hasPurifierMode: bool, brightness: string, accepts: Rpc -> bool): (h: Handled)
    ensures h.sent == [LedCall(hasPurifierMode, brightness)]
    ensures h.outcome == if accepts(h.sent[0]) then Resolved(Reply(h.sent[0].name))
                         else Rejected(CallFailed(h.sent[0].name))
  {
    AwaitCall(LedCall(hasPurifierMode, brightness), accepts)
  }

  // ---------------------------------------------------------------------------
  // onSettingsChanged
  // ---------------------------------------------------------------------------

  const GatewaysListKey: string := "gatewaysList"

  /** `mihub.updateGateways(value)`, with the value of the setting (absent
      after an `unset`). */
  datatype HubCall = UpdateGateways(config: Option<string>)

  /** The settings listener: only a change of `gatewaysList` reaches the hub,
      and it passes the setting's current value. */
  function OnSettingsChanged(key: string, settings: map<string, string>): (call: Option<HubCall>)
    ensures call.Some? <==> key == GatewaysListKey
    ensures call.Some? && GatewaysListKey in settings ==> call.value.config == Some(settings[GatewaysListKey])
    ensures call.Some? && GatewaysListKey !in settings ==> call.value.config == None
  {
    if key == GatewaysListKey then
      Some(UpdateGateways(if GatewaysListKey in settings then Some(settings[GatewaysListKey]) else None))
    else None
  }
}
