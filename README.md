# Xiaomi Mi Home app: verified model of the curtain driver and the app's decision rules

This project models two parts of the Homey app for Xiaomi/Aqara devices:

- **The Aqara curtain (AQ2) sub-device driver.** This is the `AqaraCurtainAq2` module, from `drivers/aqara-curtain-aq2/device.js`.
  - Three capability listeners turn a requested `onoff`, `dim` or `windowcoverings_state` value into a write addressed to the gateway hub by the curtain's `sid`.
  - `onEventFromGateway` reconciles a pushed `curtain_level` into `onoff` and `dim`, and marks the device available.
  - A one-slot debounce timer (`curtainTernaryTimeout`) settles `windowcoverings_state` back to `idle` 3000 ms after the last report.
  - The device object is the class `Curtain`. The report handler and the wait are specified by pure functions on a `CurtainState` value: `ApplyEvent` (through `ApplyLevel`) for a report and `Advance` for time passing. The listeners are specified by the payload functions `OnOffPayload`, `DimPayload` and `CoveringPayload` and by the fields they set. Every method keeps the invariant that a pending deadline lies ahead of the clock. Lemmas state what the debounce guarantees over any run of reports and waits.
  - The hub is a recorder: the field `writes` holds every write the curtain sent. Whether the hub accepted a write is a parameter.
- **The app object's decision rules.** This is the `MiioApp` module, from `app.js`:
  - the humidity and temperature "between" condition cards;
  - the gateway developer-key generator;
  - the MAC normalisation of the pairing helper;
  - the favourite-radio, volume and LED action cards;
  - the settings listener.

  Device calls are recorded as `Rpc` values. Whether the device answers a call, after its one retry, is a parameter `accepts`.
- **The JavaScript primitives both parts rely on.** This is the `JsRuntime` module. It covers `parseInt`, `Number(string)`, integer `toString`, `split` with one separator character (with `join` as its proof partner, used only in lemmas), `replace(/class/g, "")`, `toLowerCase`, `Math.round`, and the truncation `parseInt` applies to a number. Each is stated by round-trip or characterising lemmas, or by a contract that characterises it.

Two behaviours of `onEventFromGateway` are easy to miss, and the model keeps both:
- `dim` is rewritten whenever the reported `curtain_level` attribute is truthy. This includes text that does not parse, which makes `dim` NaN. A level sent as the number 0 is falsy, so it switches `onoff` off but leaves `dim` as it was. A fractional number is truncated by `parseInt`, so 55.5 sets `dim` to 0.55.
- A negative level leaves `onoff` unchanged.

## Model

| member | source | states |
|---|---|---|
| `MiioApp.OrderedBounds` | app.js:362-369 | the two card arguments come back smaller first, as the same multiset of values |
| `MiioApp.BetweenCondition` | app.js:359-391 | false without a device; otherwise true exactly when the reading lies between the two arguments, both ends included, in either order |
| `MiioApp.BetweenSymmetric` | app.js:363-369 | swapping `value1` and `value2` never changes the condition |
| `MiioApp.KeyIndex` | app.js:503 | `Math.floor(random * 16)` is a valid index into the 16 hexadecimal characters for every draw in [0,1) |
| `MiioApp.KeyOf` | app.js:500-505 | the key has one character per draw, character i being the hex digit draw i selects |
| `MiioApp.GenerateKey` | app.js:499-507 | the loop builds exactly the key the 16 draws select, and it is 16 upper-case hexadecimal digits |
| `MiioApp.EveryKeyIsGenerated` | app.js:499-507 | every 16-digit upper-case hex key is produced by some sequence of draws |
| `MiioApp.NormaliseMac` | app.js:491 | the returned MAC has no colon and no upper-case letter and is no longer than `info.mac` |
| `MiioApp.NormaliseMacConcat` | app.js:491 | the normalisation works piecewise: normalising a concatenation concatenates the normalised parts, so order is kept |
| `MiioApp.NormaliseMacChar` | app.js:491 | a colon is dropped and every other character is lower-cased |
| `MiioApp.NormaliseMacIdempotent` | app.js:491 | normalising a normalised MAC changes nothing |
| `MiioApp.ParseFavourite` | app.js:399-408 | a favourite is found exactly when the setting contains a comma; its URL has no white space |
| `MiioApp.ParseFavouriteFields` | app.js:400-408 | the id is parsed from the first field and the URL is the second field, both with white space removed; anything after a second comma is ignored |
| `MiioApp.FavouriteOf` | app.js:403-408 | the URL keeps every non-white-space character of its field and has no white space; the id is NaN exactly when its field, white space removed, does not parse |
| `MiioApp.FavouriteIdOfText` | app.js:403-405 | an id field holding the decimal text of n gives the id n |
| `MiioApp.RadioPlan` | app.js:410-411 | two calls: `play_specify_fm` with the favourite's id, type 0 and URL, then exactly the call the volume card sends for the radio target |
| `MiioApp.RunCalls` | app.js:410-411 | awaited calls are issued in order up to and including the first failure; the run succeeds exactly when every call is accepted |
| `MiioApp.PlayRadio` | app.js:394-418 | a missing favourite setting rejects with nothing sent; a setting without a comma sends nothing and resolves true; otherwise the calls are those of `PlayStation` for the parsed favourite: the card resolves true when both succeed and otherwise rejects with the failed call's error |
| `MiioApp.PlayStation` | app.js:410-417 | `play_specify_fm` and then `volume_ctrl_fm` are issued as `RunCalls` issues the two-call plan; the card resolves true when both are accepted and otherwise rejects naming the last call sent, the one that failed |
| `MiioApp.RunTwoCalls` | app.js:410-411 | of two awaited calls, the second is sent only when the first succeeds, and the run succeeds only when both do |
| `MiioApp.Percent` | app.js:444 | `parseInt(volume * 100)` lies in 0..100 for a volume in [0,1] |
| `MiioApp.AwaitCall` | app.js:447 | a single awaited call is sent once; the card resolves with its reply exactly when the device accepts it, and rejects otherwise |
| `MiioApp.VolumeCall` | app.js:444-454 | alarm, doorbell, prompt and radio each map to exactly one method, and no other target maps to anything; only radio sends the volume as text, and that text is in the form `toString` gives an integer; the value the gateway reads is the whole percent |
| `MiioApp.SetVolume` | app.js:441-459 | at most one call is made; an unknown target sends nothing and resolves true; otherwise the card resolves with the device's reply to that call when it is accepted and rejects with the call's error when it fails |
| `MiioApp.LedCall` | app.js:271-275 | with `airpurifier_mode`, `set_led` is sent with "off" exactly for brightness "3" and "on" otherwise; without it, `set_led_b` is sent with `Number(brightness)` |
| `MiioApp.LedLevelSent` | app.js:274 | a brightness written as decimal text reaches the device as that number |
| `MiioApp.SetLed` | app.js:268-279 | exactly the LED call is sent; the card resolves with the device's reply when it is accepted and rejects with the call's error when it fails |
| `MiioApp.OnSettingsChanged` | app.js:474-482 | the hub is updated exactly when the key is `gatewaysList`, with that setting's current value or none after an unset |
| `JsRuntime.Split` | app.js:400 | `split` yields at least one field |
| `JsRuntime.SplitCount` | app.js:400-402 | there is exactly one field when the separator is absent, so a second field exists exactly when the text holds a comma |
| `JsRuntime.SplitFieldsFree` | app.js:400 | no field of a split contains the separator |
| `JsRuntime.SplitCons` | app.js:400 | a separator-free field followed by the separator is split off as the first field, and the rest is split as before |
| `JsRuntime.JoinSplit` | app.js:400 | joining the fields of a split gives back the string |
| `JsRuntime.SplitJoin` | app.js:400 | splitting a join of separator-free fields gives back the fields |
| `JsRuntime.StripWhitespace` | app.js:404 | the result has no `\s` character and keeps every other character of the input |
| `JsRuntime.FilterConcat` | app.js:407 | character removal works piecewise over concatenation |
| `JsRuntime.ToLowerAscii` | app.js:491 | the result has the input's length and each character is the lower-case form of the input's character at that position |
| `JsRuntime.IntToString` | drivers/aqara-curtain-aq2/device.js:21 | `toString` of an integer is an optional minus sign, present exactly for negative numbers, then decimal digits with no leading zero |
| `JsRuntime.ToStringOfDecimalText` | drivers/aqara-curtain-aq2/device.js:21 | every text of that form is what `toString` writes for the integer `parseInt` reads from it, so the form and the value fix the text |
| `JsRuntime.ParseIntToString` | drivers/aqara-curtain-aq2/device.js:21 | `parseInt` reads back exactly the integer `toString` wrote |
| `JsRuntime.ParseInt` | drivers/aqara-curtain-aq2/device.js:52-56 | blank text is NaN, and a negative result needs a minus sign as the first non-white-space character |
| `JsRuntime.ParseIntSkipsWhitespace` | drivers/aqara-curtain-aq2/device.js:52 | a leading white-space character does not change what `parseInt` reads |
| `JsRuntime.ParseIntIgnoresTail` | drivers/aqara-curtain-aq2/device.js:52 | the text of an integer followed by nothing, or by text starting with neither a digit nor `x`/`X`, reads as that integer |
| `JsRuntime.ParseIntNaN` | drivers/aqara-curtain-aq2/device.js:52 | text whose first character is neither white space, a sign nor a digit reads as NaN |
| `JsRuntime.StringToNumber` | app.js:274 | blank text reads as 0; with `NumberOfIntToString`, decimal integer text reads as its integer |
| `JsRuntime.NumberOfIntToString` | app.js:274 | `Number` reads back exactly the integer `toString` wrote |
| `JsRuntime.RoundHalfUp` | drivers/aqara-curtain-aq2/device.js:20 | `Math.round` is within one half of its argument |
| `JsRuntime.TruncateToInt` | app.js:398 | `parseInt` of a number keeps its integer part, truncating toward zero |
| `AqaraCurtainAq2.StatusOf` | drivers/aqara-curtain-aq2/device.js:30 | up, idle and down map one to one onto open, stop and close |
| `AqaraCurtainAq2.OnOffPayload` | drivers/aqara-curtain-aq2/device.js:11-12 | on sends `curtain_status` open and off sends close |
| `AqaraCurtainAq2.DimLevel` | drivers/aqara-curtain-aq2/device.js:20 | the rounded percent is within one half of value*100, and lies in 0..100 for a value in [0,1] |
| `AqaraCurtainAq2.DimPayload` | drivers/aqara-curtain-aq2/device.js:20-21 | `curtain_level` is text in the form `toString` gives an integer, and it parses back to the rounded percent; by `ToStringOfDecimalText` it is exactly `level.toString()` |
| `AqaraCurtainAq2.CoveringPayload` | drivers/aqara-curtain-aq2/device.js:29-40 | sends the status of the requested direction, mirrored when `reverted`; idle sends stop |
| `AqaraCurtainAq2.WireText` | drivers/aqara-curtain-aq2/device.js:11-30 | on sends "open" and off sends "close"; up, idle and down send "open", "stop" and "close" |
| `AqaraCurtainAq2.CoveringAgreesWithOnOff` | drivers/aqara-curtain-aq2/device.js:30-39 | not reverted, up opens and down closes; reverted, up closes and down opens; idle stops either way |
| `AqaraCurtainAq2.RevertedIsMirrored` | drivers/aqara-curtain-aq2/device.js:31-36 | the reverted setting is the same as mirroring the requested direction |
| `AqaraCurtainAq2.RawParseInt` | drivers/aqara-curtain-aq2/device.js:52 | text is read by `parseInt`; a level reported as a number always parses, to its integer part (truncated toward zero), so a whole number parses to itself |
| `AqaraCurtainAq2.ReportedLevel` | drivers/aqara-curtain-aq2/device.js:52-56 | an absent `curtain_level` reads as NaN, a numeric one always parses, and a text one reads as `parseInt` of the text |
| `AqaraCurtainAq2.LevelFraction` | drivers/aqara-curtain-aq2/device.js:56 | `level / 100`, NaN staying NaN |
| `AqaraCurtainAq2.WritesDim` | drivers/aqara-curtain-aq2/device.js:56 | `dim` is written exactly when the attribute is present and is neither the empty string nor the number 0 |
| `AqaraCurtainAq2.EventOnOff` | drivers/aqara-curtain-aq2/device.js:52-53 | a parsed level above 0 gives `true` and a level of 0 gives `false`. An unparseable (NaN) or negative level keeps the previous value |
| `AqaraCurtainAq2.ApplyLevel` | drivers/aqara-curtain-aq2/device.js:49-60 | once the level is read, a report makes the device available, sets `onoff` by `EventOnOff`, sets `dim` to level/100 only when asked to, replaces the pending timer by one due 3000 ms later, and leaves `windowcoverings_state` and the clock alone |
| `AqaraCurtainAq2.ApplyEvent` | drivers/aqara-curtain-aq2/device.js:47-60 | a report makes the device available. A level above 0 turns `onoff` on, level 0 turns it off, and an absent, unparseable or negative level leaves it unchanged. `dim` is written only when the attribute is truthy. The pending timer is replaced by one due 3000 ms later, and `windowcoverings_state` is untouched |
| `AqaraCurtainAq2.Advance` | drivers/aqara-curtain-aq2/device.js:58-60 | time passing changes `windowcoverings_state` only when the pending timer falls due; it then becomes idle and the slot empties; the deadline never lies in the past |
| `AqaraCurtainAq2.QuietPeriod` | drivers/aqara-curtain-aq2/device.js:57-60 | over any quiet period the timer fires exactly when the elapsed time reaches its deadline, however the time is cut into steps |
| `AqaraCurtainAq2.IdleAfterQuietPeriod` | drivers/aqara-curtain-aq2/device.js:57-60 | after a report, the state is idle once 3000 ms pass with no further report, and is unchanged before that |
| `AqaraCurtainAq2.NewReportRestartsWindow` | drivers/aqara-curtain-aq2/device.js:57-58 | a report within the window cancels the earlier timer; the state settles 3000 ms after the later report |
| `AqaraCurtainAq2.LevelRoundTrip` | drivers/aqara-curtain-aq2/device.js:52-56 | a reported level L in 0..100 sets `dim` to L/100 and `onoff` to L > 0, and requesting that `dim` sends L back |
| `AqaraCurtainAq2.NumericZeroLevel` | drivers/aqara-curtain-aq2/device.js:53-56 | a level reported as the number 0 switches `onoff` off and leaves `dim` unchanged |
| `AqaraCurtainAq2.FractionalLevel` | drivers/aqara-curtain-aq2/device.js:52-56 | a level reported as the number 55.5 switches `onoff` on and sets `dim` to 0.55 |
| `AqaraCurtainAq2.Curtain.Send` | drivers/aqara-curtain-aq2/device.js:13-16 | the write is recorded; a failed write is logged and the listener still resolves; the invariant is kept |
| `AqaraCurtainAq2.Curtain.OnOffListener` | drivers/aqara-curtain-aq2/device.js:9-17 | the `onoff` write is recorded, the listener resolves, and a failure is logged; the invariant is kept |
| `AqaraCurtainAq2.Curtain.DimListener` | drivers/aqara-curtain-aq2/device.js:18-26 | the `curtain_level` write is recorded, the listener resolves, and a failure is logged; the invariant is kept |
| `AqaraCurtainAq2.Curtain.CoveringListener` | drivers/aqara-curtain-aq2/device.js:27-44 | the `curtain_status` write for the direction and the `reverted` setting is recorded, the listener resolves, and a failure is logged; the invariant is kept |
| `AqaraCurtainAq2.Curtain.OnEventFromGateway` | drivers/aqara-curtain-aq2/device.js:47-65 | the object's new state is `ApplyEvent` of its old state; the invariant that a pending deadline lies in the future is kept |
| `AqaraCurtainAq2.Curtain.ApplyReport` | drivers/aqara-curtain-aq2/device.js:49-60 | the field updates after the level is parsed leave the object in `ApplyLevel` of its old state, and keep the invariant |
| `AqaraCurtainAq2.Curtain.Wait` | drivers/aqara-curtain-aq2/device.js:57-60 | the object's new state is `Advance` of its old state; the invariant is kept |

## Left out

- The pass-through flow cards are not modelled. They forward their arguments to library methods whose code is not part of this model. This covers vacuum, fan, purifier, humidifier, eyecare, the right-switch cards, `gateway_custom_radio`, `gateway_play_effect` and `remote_send_ir_code`.
- Device discovery on a platform timer is not modelled; it is network I/O.
- Connecting to a device (`miio.device`, `device.call("miIO.info")` and the key-install call in `generate`, and `testConnection`) is network I/O. Only the MAC transform applied to a given `info.mac` is modelled. The `{status, mac, password}` record around it is not.
- The internals of the gateway hub (`sendWrite`, `updateGateways`, `gateways`) are not part of this model. The hub is a recorder of `(sid, payload)` writes, and whether each write is accepted is a parameter.
- The sub-device base class (`../subdevice_device.js`) is not part of this model. `updateCapabilityValue`, `getAvailable` and `setAvailable` are plain field updates that always succeed. So the case where a failed capability update skips re-arming the timer inside `onEventFromGateway` is not modelled.
- The model assumes `updateCapabilityValue` writes its value every time, with no "only if changed" guard. Its code lives in that base class, so this is an assumption, not a fact checked against the code.
- AqaraCurtainAq2.ApplyEvent: `onEventFromGateway` is modelled as one atomic step with no suspension points, with the whole report applied at the same instant. In the code, up to two of the three awaited `updateCapabilityValue` calls (device.js:52-56; a level cannot be both above 0 and equal to 0) come before the timer is cleared and re-armed (device.js:57-58). So the model does not capture three things. The timer is armed when those awaits finish, not when the report arrives. The old timer can fire during the awaits. Two reports can interleave, so that `dim` comes from one report while `onoff` and the timer come from the other.
- The platform storing a capability value once its listener resolves is modelled as an assignment in each listener method.
- Zone and room parsing (`JSON.parse`) is left out, because it is delegated to a foreign JSON parser.
- `Math.random` is replaced by a given sequence of draws in [0,1).
- Floating point is not modelled: numbers are exact reals, with `Math.round` as floor(x + 0.5) and `parseInt` of a number as truncation toward zero.
- JsRuntime.TruncateToInt: exact for numbers whose decimal text has no exponent. `parseInt(1e-7)` reads "1e-7" and gives 1, which this model does not capture.
- AqaraCurtainAq2.RawParseInt: a numeric level is truncated as `JsRuntime.TruncateToInt` describes, so a number whose text uses an exponent is not read as JavaScript reads it. Boolean, `null` and object values of the attribute are not modelled.
- JsRuntime.StringToNumber: models only optionally signed decimal integers, with surrounding white space allowed and blank text read as 0. Fractional, exponent, hexadecimal and `Infinity` forms come out as NaN here.
- JsRuntime.ToLowerAscii: lower-cases only A–Z; JavaScript's full Unicode case mapping is not modelled.
- MiioApp.BetweenCondition: readings are reals. An unset capability (`null`, compared as 0) and NaN readings are not modelled.
- MiioApp.SetVolume: the card rejects with the error object where the others reject with its message; the model does not distinguish the two.
- The `{retries: 1}` option is folded into `accepts`, which says whether the call succeeds after its retry.
- Timers are an abstract slot with explicit firing. The real timers are not modelled, nor is the pairing of `homey.clearTimeout` with the global `setTimeout`. The clock is an integer count of milliseconds.
- AqaraCurtainAq2.CoveringPayload: `windowcoverings_state` is an enumeration of up, idle and down. A value outside it (`states[value]` undefined, sending an empty payload) is not modelled.
- No polling, reconnect or hourly-refresh logic is part of these files, so none is modelled.
