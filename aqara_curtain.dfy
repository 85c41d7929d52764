/** The Aqara curtain (AQ2) sub-device of a Xiaomi gateway
    (drivers/aqara-curtain-aq2/device.js): three capability listeners that
    turn a requested capability value into a write to the gateway, and the
    handler for the reports the gateway pushes, which reconciles the curtain
    level into `onoff` and `dim` and settles `windowcoverings_state` back to
    idle 3000 ms after the last report.

    The gateway hub is a recorder of the writes addressed to it; the timer is
    one slot holding at most one pending deadline, and time advances by an
    explicit step during which a due timer fires. */
module AqaraCurtainAq2 {
  import opened JsRuntime

  // ---------------------------------------------------------------------------
  // Commands: capability value -> gateway write
  // ---------------------------------------------------------------------------

  /** The values of the `windowcoverings_state` capability. */
  datatype Covering = Up | Idle | Down

  /** The values of `curtain_status` on the wire. */
  datatype Status = Open | Close | Stop
  {
    function Wire(): string
    {
      match this
      case Open => "open"
      case Close => "close"
      case Stop => "stop"
    }
  }

  /** The payload of a gateway write. */
  datatype Payload = CurtainStatus(status: Status) | CurtainLevel(level: string)

  /** One `sendWrite(sid, payload)` addressed to the hub. */
  datatype Write = Write(sid: string, payload: Payload)

  /** The listener's table `{ up: "open", idle: "stop", down: "close" }`. */
  function StatusOf(c: Covering): (s: Status)
    ensures s == Open <==> c == Up
    ensures s == Stop <==> c == Idle
    ensures s == Close <==> c == Down
  {
    match c
    case Up => Open
    case Idle => Stop
    case Down => Close
  }

  /** The opposite direction; idle stays idle. */
  function Mirror(c: Covering): (m: Covering)
    ensures m == Idle <==> c == Idle
    ensures m != c <==> c != Idle
  {
    match c
    case Up => Down
    case Idle => Idle
    case Down => Up
  }

  /** The `onoff` listener: on opens the curtain, off closes it. */
  function OnOffPayload(value: bool): (p: Payload)
    ensures p.CurtainStatus?
    ensures p.status == Open <==> value
    ensures p.status == Close <==> !value
  {
    CurtainStatus(if value then Open else Close)
  }

  /** `Math.round(value * 100)`: the requested position as a whole percent. */
  function DimLevel(value: real): (level: int)
    ensures 0.0 <= value <= 1.0 ==> 0 <= level <= 100
    ensures value * 100.0 - 0.5 < level as real <= value * 100.0 + 0.5
  {
    RoundHalfUp(value * 100.0)
  }

  /** The `dim` listener: `curtain_level` is the decimal text of the rounded
      percent, which the gateway reads back as that number. */
  function DimPayload(value: real): (p: Payload)
    ensures p.CurtainLevel?
    ensures DecimalText(p.level)
    ensures ParseInt(p.level) == Some(DimLevel(value))
  {
    ParseIntToString(DimLevel(value));
    CurtainLevel(IntToString(DimLevel(value)))
  }

  /** The `windowcoverings_state` listener: up and down are exchanged when the
      `reverted` setting is on; idle stops the motor either way. */
  function CoveringPayload(value: Covering, reverted: bool): (p: Payload)
    ensures p == CurtainStatus(StatusOf(if reverted then Mirror(value) else value))
  {
    if value == Up then CurtainStatus(StatusOf(if reverted then Down else Up))
    else if value == Down then CurtainStatus(StatusOf(if reverted then Up else Down))
    else CurtainStatus(StatusOf(value))
  }

  /** The direction commands agree with the `onoff` listener: "up" opens and
      "down" closes, the other way round when reverted; "idle" always stops. */
  lemma CoveringAgreesWithOnOff(reverted: bool)
    ensures CoveringPayload(Up, reverted) == OnOffPayload(!reverted)
    ensures CoveringPayload(Down, reverted) == OnOffPayload(reverted)
    ensures CoveringPayload(Idle, reverted) == CurtainStatus(Stop)
  {
  }

  /** The text each listener puts in `curtain_status`: on is "open", off is
      "close", and up, idle and down are "open", "stop" and "close". */
  lemma WireText(value: bool)
    ensures OnOffPayload(value).status.Wire() == if value then "open" else "close"
    ensures StatusOf(Up).Wire() == "open"
    ensures StatusOf(Idle).Wire() == "stop"
    ensures StatusOf(Down).Wire() == "close"
  {
  }

  /** Turning `reverted` on is the same as mirroring the requested direction. */
  lemma RevertedIsMirrored(value: Covering)
    ensures CoveringPayload(value, true) == CoveringPayload(Mirror(value), false)
  {
  }

  // ---------------------------------------------------------------------------
  // Reports from the gateway: the specification of the device state
  // ---------------------------------------------------------------------------

  const LevelKey: string := "curtain_level"

  /** Delay of the idle timer, in milliseconds. */
  const IdleDelayMs: nat := 3000

  /** A raw attribute value of a report. */
  datatype RawValue = RawString(s: string) | RawNumber(n: real)

  /** JavaScript truthiness: the empty string and 0 are false. */
  predicate Truthy(v: RawValue)
  {
    match v
    case RawString(s) => s != ""
    case RawNumber(n) => n != 0.0
  }

  /** `parseInt(v)`, which first converts a number to its text and so keeps
      its integer part: a number always parses, and a whole number parses to
      itself. */
  function RawParseInt(v: RawValue): (r: Option<int>)
    ensures v.RawString? ==> r == ParseInt(v.s)
    ensures v.RawNumber? ==> r.Some?
    ensures v.RawNumber? && 0.0 <= v.n ==> r.value as real <= v.n < r.value as real + 1.0
    ensures v.RawNumber? && v.n < 0.0 ==> r.value as real - 1.0 < v.n <= r.value as real
    ensures v.RawNumber? && v.n == v.n.Floor as real ==> r == Some(v.n.Floor)
  {
    match v
    case RawString(s) => ParseInt(s)
    case RawNumber(n) => Some(TruncateToInt(n))
  }

  /** `parseInt(data.curtain_level)`; NaN (None) when the attribute is
      absent or not a number. */
  function ReportedLevel(data: map<string, RawValue>): (r: Option<int>)
    ensures LevelKey !in data ==> r.None?
    ensures LevelKey in data && data[LevelKey].RawNumber? ==> r.Some?
    ensures LevelKey in data && data[LevelKey].RawString? ==> r == ParseInt(data[LevelKey].s)
  {
    if LevelKey in data then RawParseInt(data[LevelKey]) else None
  }

  /** `level / 100`, NaN staying NaN. */
  function LevelFraction(level: Option<int>): (x: JsNumber)
    ensures level.Some? ==> x == Num(level.value as real / 100.0)
    ensures level.None? ==> x == NaN
  {
    match level
    case None => NaN
    case Some(l) => Num(l as real / 100.0)
  }

  /** What the driver holds of one curtain: availability, the `onoff`, `dim`
      and `windowcoverings_state` capability values, the clock (ms) and the
      deadline of the pending idle timer, if any. */
  datatype CurtainState = CurtainState(
    available: bool,
    onoff: bool,
    dim: JsNumber,
    covering: Covering,
    now: int,
    idleDeadline: Option<int>)

  /** How a report sets `onoff`: a positive level switches it on and level 0
      switches it off; an absent, unparseable or negative level leaves it. */
  function EventOnOff(onoff: bool, level: Option<int>): (r: bool)
    ensures level.Some? && level.value > 0 ==> r
    ensures level == Some(0) ==> !r
    ensures level.None? || level.value < 0 ==> r == onoff
  {
    if level.Some? && level.value > 0 then true
    else if level == Some(0) then false
    else onoff
  }

  /** Whether a report rewrites `dim`: the attribute is present and truthy. */
  function WritesDim(data: map<string, RawValue>): (b: bool)
    ensures LevelKey !in data ==> !b
    ensures LevelKey in data ==>
      (b <==> data[LevelKey] != RawString("") && data[LevelKey] != RawNumber(0.0))
  {
    LevelKey in data && Truthy(data[LevelKey])
  }

  /** The effect of a report once its level has been read: the device becomes
      available, `onoff` follows the level, `dim` takes `level / 100` when
      `writesDim` holds, and the pending idle timer is replaced by one due
      3000 ms from now; `windowcoverings_state` is not touched. */
  function ApplyLevel(s: CurtainState, level: Option<int>, writesDim: bool): (t: CurtainState)
    ensures t.available
    ensures t.idleDeadline == Some(s.now + IdleDelayMs) && TimerAhead(t)
    ensures t.covering == s.covering && t.now == s.now
    ensures t.onoff == EventOnOff(s.onoff, level)
    ensures t.dim == if writesDim then LevelFraction(level) else s.dim
  {
    s.(available := true, onoff := EventOnOff(s.onoff, level),
       dim := if writesDim then LevelFraction(level) else s.dim,
       idleDeadline := Some(s.now + IdleDelayMs))
  }

  /** `onEventFromGateway`: the report's `curtain_level` is read once with
      `parseInt`, and `dim` is rewritten only when the attribute is truthy. */
  function ApplyEvent(s: CurtainState, data: map<string, RawValue>): (t: CurtainState)
    ensures t.available
    ensures t.idleDeadline == Some(s.now + IdleDelayMs) && TimerAhead(t)
    ensures t.covering == s.covering && t.now == s.now
    ensures t.onoff == EventOnOff(s.onoff, ReportedLevel(data))
    ensures WritesDim(data) ==> t.dim == LevelFraction(ReportedLevel(data))
    ensures !WritesDim(data) ==> t.dim == s.dim
  {
    ApplyLevel(s, ReportedLevel(data), WritesDim(data))
  }

  /** A pending idle timer is due strictly after the current time: a timer
      that falls due fires at once. */
  predicate TimerAhead(s: CurtainState)
  {
    s.idleDeadline.Some? ==> s.now < s.idleDeadline.value
  }

  /** Whether the pending idle timer falls due within the next `dt` ms. */
  predicate Fires(s: CurtainState, dt: nat)
  {
    s.idleDeadline.Some? && s.idleDeadline.value <= s.now + dt
  }

  /** Time advances by `dt` ms; a timer falling due meanwhile sets
      `windowcoverings_state` to idle and leaves the slot empty. */
  function Advance(s: CurtainState, dt: nat): (t: CurtainState)
    ensures t.now == s.now + dt
    ensures t.available == s.available && t.onoff == s.onoff && t.dim == s.dim
    ensures Fires(s, dt) ==> t.covering == Idle && t.idleDeadline.None?
    ensures !Fires(s, dt) ==> t.covering == s.covering && t.idleDeadline == s.idleDeadline
    ensures TimerAhead(s) ==> TimerAhead(t)
  {
    if Fires(s, dt) then s.(now := s.now + dt, covering := Idle, idleDeadline := None)
    else s.(now := s.now + dt)
  }

  function Sum(waits: seq<nat>): nat
  {
    if waits == [] then 0 else waits[0] + Sum(waits[1..])
  }

  /** Several steps of time with no report in between. */
  function AdvanceAll(s: CurtainState, waits: seq<nat>): CurtainState
    decreases |waits|
  {
    if waits == [] then s else AdvanceAll(Advance(s, waits[0]), waits[1..])
  }

  /** Over any quiet period the idle timer fires exactly when the time that
      has passed reaches its deadline, however that time is cut into steps;
      nothing else changes. */
  lemma {:induction false} QuietPeriod(s: CurtainState, waits: seq<nat>)
    requires TimerAhead(s)
    ensures AdvanceAll(s, waits) ==
      if Fires(s, Sum(waits)) then s.(now := s.now + Sum(waits), covering := Idle, idleDeadline := None)
      else s.(now := s.now + Sum(waits))
    decreases |waits|
  {
    if waits != [] {
      var t := Advance(s, waits[0]);
      var total := Sum(waits);
      assert total == waits[0] + Sum(waits[1..]);
      QuietPeriod(t, waits[1..]);
      if Fires(s, waits[0]) {
        assert !Fires(t, Sum(waits[1..]));
        assert Fires(s, total);
      } else {
        assert Fires(t, Sum(waits[1..])) == Fires(s, total);
      }
    }
  }

  /** After a report, `windowcoverings_state` is idle once 3000 ms have passed
      without another report, and not before (unless it was idle already). */
  lemma IdleAfterQuietPeriod(s: CurtainState, data: map<string, RawValue>, waits: seq<nat>)
    ensures AdvanceAll(ApplyEvent(s, data), waits).covering ==
      if Sum(waits) >= IdleDelayMs then Idle else s.covering
    ensures AdvanceAll(ApplyEvent(s, data), waits).idleDeadline.None? <==> Sum(waits) >= IdleDelayMs
  {
    QuietPeriod(ApplyEvent(s, data), waits);
  }

  /** A report that arrives within the window restarts it: the first timer
      never fires, and the state settles 3000 ms after the second report. */
  lemma NewReportRestartsWindow(s: CurtainState, first: map<string, RawValue>, gap: seq<nat>,
                                second: map<string, RawValue>, waits: seq<nat>)
    requires Sum(gap) < IdleDelayMs
    ensures AdvanceAll(ApplyEvent(AdvanceAll(ApplyEvent(s, first), gap), second), waits).covering ==
      if Sum(waits) >= IdleDelayMs then Idle else s.covering
  {
    var mid := AdvanceAll(ApplyEvent(s, first), gap);
    IdleAfterQuietPeriod(s, first, gap);
    IdleAfterQuietPeriod(mid, second, waits);
  }

  /** A reported level L in 0..100, written as decimal text, sets `dim` to
      L/100 and `onoff` to L > 0, and asking for that `dim` sends L back. */
  lemma LevelRoundTrip(s: CurtainState, level: int)
    requires 0 <= level <= 100
    ensures var t := ApplyEvent(s, map[LevelKey := RawString(IntToString(level))]);
      && t.dim == Num(level as real / 100.0)
      && t.onoff == (level > 0)
      && DimPayload(t.dim.value) == CurtainLevel(IntToString(level))
  {
    ParseIntToString(level);
    var x := level as real / 100.0;
    assert x * 100.0 == level as real;
    assert DimLevel(x) == level;
  }

  /** A level reported as the number 0 (not as text) is falsy: `onoff` goes
      off but `dim` keeps its value. */
  lemma NumericZeroLevel(s: CurtainState)
    ensures ApplyEvent(s, map[LevelKey := RawNumber(0.0)]).onoff == false
    ensures ApplyEvent(s, map[LevelKey := RawNumber(0.0)]).dim == s.dim
  {
  }

  /** A level reported as the number 55.5 reads as 55 but, being truthy,
      switches `onoff` on and sets `dim` to 0.55. */
  lemma FractionalLevel(s: CurtainState)
    ensures ApplyEvent(s, map[LevelKey := RawNumber(55.5)]).onoff
    ensures ApplyEvent(s, map[LevelKey := RawNumber(55.5)]).dim == Num(0.55)
  {
    assert TruncateToInt(55.5) == 55;
  }

  // ---------------------------------------------------------------------------
  // The device object
  // ---------------------------------------------------------------------------

  /** What a gateway write settles to. */
  datatype WriteReply = Acked | WriteFailed(reason: string)

  /** What a listener resolves with: the gateway's acknowledgement, or
      `undefined` once a failure has been logged. */
  datatype ListenerValue = GatewayAck | Undefined

  class Curtain {
    /** The sub-device id the gateway knows the curtain by. */
    const sid: string
    /** The `reverted` device setting. */
    var reverted: bool
    var available: bool
    var onoff: bool
    var dim: JsNumber
    var covering: Covering
    /** Current time in ms. */
    var now: int
    /** `curtainTernaryTimeout`: the deadline of the pending idle timer. */
    var idleDeadline: Option<int>
    /** The writes sent to the hub, in order. */
    var writes: seq<Write>
    /** What `this.error` logged, in order. */
    var errors: seq<string>

    function State(): CurtainState
      reads this
    {
      CurtainState(available, onoff, dim, covering, now, idleDeadline)
    }

    /** The object invariant: a pending idle timer lies in the future. */
    ghost predicate Valid()
      reads this
    {
      TimerAhead(State())
    }

    constructor (sid: string, reverted: bool, available: bool, onoff: bool, dim: JsNumber,
                 covering: Covering, now: int)
      ensures this.sid == sid && this.reverted == reverted
      ensures State() == CurtainState(available, onoff, dim, covering, now, None)
      ensures writes == [] && errors == []
      ensures Valid()
    {
      this.sid := sid;
      this.reverted := reverted;
      this.available := available;
      this.onoff := onoff;
      this.dim := dim;
      this.covering := covering;
      this.now := now;
      idleDeadline := None;
      writes := [];
      errors := [];
    }

    /** `return await mihub.sendWrite(sid, payload)` inside a try whose catch
        logs the error: the listener always resolves. */
    method Send(payload: Payload, reply: WriteReply) returns (r: Settled<ListenerValue, string>)
      requires Valid()
      modifies this`writes, this`errors
      ensures writes == old(writes) + [Write(sid, payload)]
      ensures r == Resolved(if reply.Acked? then GatewayAck else Undefined)
      ensures errors == if reply.WriteFailed? then old(errors) + [reply.reason] else old(errors)
      ensures Valid()
    {
      writes := writes + [Write(sid, payload)];
      match reply
      case Acked =>
        r := Resolved(GatewayAck);
      case WriteFailed(reason) =>
        errors := errors + [reason];
        r := Resolved(Undefined);
    }

    /** The `onoff` listener; the platform stores the value once it resolves. */
    method OnOffListener(value: bool, reply: WriteReply) returns (r: Settled<ListenerValue, string>)
      requires Valid()
      modifies this`writes, this`errors, this`onoff
      ensures writes == old(writes) + [Write(sid, OnOffPayload(value))]
      ensures r.Resolved? && (r.value == GatewayAck <==> reply.Acked?)
      ensures errors == if reply.WriteFailed? then old(errors) + [reply.reason] else old(errors)
      ensures onoff == value
      ensures Valid()
    {
      r := Send(OnOffPayload(value), reply);
      onoff := value;
    }

    /** The `dim` listener; the platform stores the value once it resolves. */
    method DimListener(value: real, reply: WriteReply) returns (r: Settled<ListenerValue, string>)
      requires Valid()
      modifies this`writes, this`errors, this`dim
      ensures writes == old(writes) + [Write(sid, DimPayload(value))]
      ensures r.Resolved? && (r.value == GatewayAck <==> reply.Acked?)
      ensures errors == if reply.WriteFailed? then old(errors) + [reply.reason] else old(errors)
      ensures dim == Num(value)
      ensures Valid()
    {
      r := Send(DimPayload(value), reply);
      dim := Num(value);
    }

    /** The `windowcoverings_state` listener; the platform stores the value
        once it resolves. */
    method CoveringListener(value: Covering, reply: WriteReply) returns (r: Settled<ListenerValue, string>)
      requires Valid()
      modifies this`writes, this`errors, this`covering
      ensures writes == old(writes) + [Write(sid, CoveringPayload(value, reverted))]
      ensures r.Resolved? && (r.value == GatewayAck <==> reply.Acked?)
      ensures errors == if reply.WriteFailed? then old(errors) + [reply.reason] else old(errors)
      ensures covering == value
      ensures Valid()
    {
      var payload;
      if value == Up {
        payload := CurtainStatus(StatusOf(if reverted then Down else Up));
      } else if value == Down {
        payload := CurtainStatus(StatusOf(if reverted then Up else Down));
      } else {
        payload := CurtainStatus(StatusOf(value));
      }
      r := Send(payload, reply);
      covering := value;
    }

    /** `onEventFromGateway`. */
    method OnEventFromGateway(data: map<string, RawValue>)
      requires Valid()
      modifies this`available, this`onoff, this`dim, this`idleDeadline
      ensures State() == ApplyEvent(old(State()), data)
      ensures Valid()
    {
      var level := ReportedLevel(data);
      ApplyReport(level, LevelKey in data && Truthy(data[LevelKey]));
    }

    /** The body of `onEventFromGateway` once the level has been parsed:
        availability, `onoff`, `dim`, then the idle timer is cleared and armed
        again. */
    method ApplyReport(level: Option<int>, writesDim: bool)
      requires Valid()
      modifies this`available, this`onoff, this`dim, this`idleDeadline
      ensures State() == ApplyLevel(old(State()), level, writesDim)
      ensures Valid()
    {
      if !available {
        available := true;
      }
      if level.Some? && level.value > 0 {
        onoff := true;
      }
      if level == Some(0) {
        onoff := false;
      }
      if writesDim {
        dim := LevelFraction(level);
      }
      idleDeadline := None;
      idleDeadline := Some(now + IdleDelayMs);
    }

    /** `dt` ms pass; the idle timer fires if it falls due meanwhile. */
    method Wait(dt: nat)
      requires Valid()
      modifies this`now, this`covering, this`idleDeadline
      ensures State() == Advance(old(State()), dt)
      ensures Valid()
    {
      if idleDeadline.Some? && idleDeadline.value <= now + dt {
        covering := Idle;
        idleDeadline := None;
      }
      now := now + dt;
    }
  }
}
