/**
 * The `DynaudioDevice` controller as a state record and pure transitions.
 * Each operation takes the outcome of its socket exchange as a parameter;
 * a Python exception becomes `Raised`, carrying the fields written before it.
 */
module Device {
  import opened Wrappers
  import opened HexText
  import opened FrameCodec
  import opened Sources
  import opened Payloads

  /** Upper bound `__init__` puts on the configured maximum volume step. */
  const MaxVolumeCap: nat := 31

  /** Upper bound `__init__` puts on the configured zone. */
  const ZoneCap: nat := 3

  /** Consecutive non-refusal transport failures after which power is presumed off. */
  const FailsBeforeOff: nat := 3

  /** The states `state` reports (Home Assistant's `STATE_ON` and `STATE_OFF`). */
  const StateOn: string := "on"
  const StateOff: string := "off"

  /**
   * The controller's fields. Host and port only feed the socket, and the name
   * only feeds the refusal warning and the `name` property; none is modelled.
   */
  datatype Device = Device(
    maxVolume: nat,
    greedy: bool,
    zone: nat,
    power: bool,
    volume: real,
    muted: bool,
    source: string,
    fails: nat,
    failsBeforeOff: nat)

  /**
   * The first socket error the run raises: `ConnectionRefusedError`, any other
   * `OSError` (a timeout included), or none. Either error may come from
   * `connect`. It may come from `send`/`recv` only when the payload frames.
   * A payload that cannot be framed raises `ValueError` right after
   * `connect`, so for it `Success` means only that the connection opened, and
   * the received bytes are unused.
   */
  datatype Outcome = Refused | OtherError | Success(received: seq<byte>)

  /** What `socket_command` returns: `False`, or the bytes read. */
  datatype Reply = Failed | Received(data: seq<byte>)

  /** The Python exceptions the controller lets escape. */
  datatype Fault = ValueError | IndexError | KeyError | ZeroDivisionError

  /** A call that returned a value, or raised after writing some fields. */
  datatype Run<T> = Returned(dev: Device, value: T) | Raised(dev: Device, fault: Fault)

  /** The fields every reachable controller keeps in range. */
  predicate Valid(d: Device) {
    && d.maxVolume <= MaxVolumeCap
    && d.failsBeforeOff == FailsBeforeOff
    && 0.0 <= d.volume <= 1.0
    && (d.fails >= d.failsBeforeOff ==> !d.power)
  }

  function Min(a: nat, b: nat): nat {
    if b < a then b else a
  }

  /** `__init__`: clamps the volume step count and the zone, starts off and unmuted. */
  function Init(maxVolume: nat, greedy: bool, standardZone: nat): (d: Device)
    ensures d.maxVolume <= MaxVolumeCap && d.maxVolume <= maxVolume
    ensures d.maxVolume == maxVolume || d.maxVolume == MaxVolumeCap
    ensures d.zone <= ZoneCap && d.zone <= standardZone
    ensures d.zone == standardZone || d.zone == ZoneCap
    ensures d.greedy == greedy
    ensures !d.power && d.volume == 0.0 && !d.muted && d.source == ""
    ensures d.fails == 0 && d.failsBeforeOff == 3
    ensures Valid(d)
  {
    Device(
      maxVolume := Min(maxVolume, MaxVolumeCap),
      greedy := greedy,
      zone := Min(standardZone, ZoneCap),
      power := false,
      volume := 0.0,
      muted := false,
      source := "",
      fails := 0,
      failsBeforeOff := FailsBeforeOff)
  }

  /**
   * `socket_command(payload)` with the socket's behaviour given as `o`. The
   * frame is built after the connection opens, so a payload that does not
   * frame raises only when the exchange would otherwise succeed.
   */
  function SocketCommand(d: Device, payload: string, o: Outcome): (r: Run<Reply>)
    ensures o.Refused? ==> r == Returned(d, Failed)
    ensures o.OtherError? ==> r.Returned? && r.value == Failed && r.dev.fails == d.fails + 1
    ensures o.OtherError? ==> (r.dev.power <==> d.power && d.fails + 1 < d.failsBeforeOff)
    ensures o.OtherError? ==> r.dev.(fails := d.fails, power := d.power) == d
    ensures o.Success? ==> (r.Raised? <==> Frame(payload).None?)
    ensures o.Success? && r.Raised? ==> r == Raised(d, ValueError)
    ensures o.Success? && r.Returned? ==> r == Returned(d.(fails := 0), Received(o.received))
    ensures Valid(d) ==> Valid(r.dev)
  {
    match o
    case Refused => Returned(d, Failed)
    case OtherError =>
      var fails := d.fails + 1;
      Returned(d.(fails := fails, power := if fails >= d.failsBeforeOff then false else d.power), Failed)
    case Success(received) =>
      if Frame(payload).None? then Raised(d, ValueError)
      else Returned(d.(fails := 0), Received(received))
  }

  /** `min(raw / max_volume, 1)`, as an exact quotient. */
  function Level(raw: nat, maxVolume: nat): (v: real)
    requires maxVolume > 0
    ensures 0.0 <= v <= 1.0
    ensures raw <= maxVolume ==> v * maxVolume as real == raw as real
    ensures raw >= maxVolume ==> v == 1.0
  {
    if raw >= maxVolume then 1.0 else raw as real / maxVolume as real
  }

  /**
   * The feedback decode of `update`, in the source's order: volume from
   * byte 7, source from byte 8, muted from byte 10, then power from byte 6
   * and zone from byte 9.
   */
  function Feedback(d: Device, b: seq<byte>): (r: Run<bool>)
    ensures |b| <= 7 ==> r == Raised(d, IndexError)
    ensures |b| > 7 && d.maxVolume == 0 ==> r == Raised(d, ZeroDivisionError)
    ensures |b| > 7 && d.maxVolume > 0 ==> r.dev.volume == Level(b[7], d.maxVolume)
    ensures |b| == 8 && d.maxVolume > 0 ==> r == Raised(d.(volume := Level(b[7], d.maxVolume)), IndexError)
    ensures |b| > 8 && d.maxVolume > 0 && NameOf(b[8]).None? ==>
              r == Raised(d.(volume := Level(b[7], d.maxVolume)), KeyError)
    ensures |b| > 8 && d.maxVolume > 0 && NameOf(b[8]).Some? ==> r.dev.source == NumberToName[b[8]]
    ensures 9 <= |b| <= 10 && d.maxVolume > 0 && NameOf(b[8]).Some? ==>
              r == Raised(d.(volume := Level(b[7], d.maxVolume), source := NumberToName[b[8]]), IndexError)
    ensures r.Returned? <==> |b| >= 11 && d.maxVolume > 0 && 1 <= b[8] <= 7
    ensures r.Returned? ==>
              && r.value
              && r.dev.muted == (b[10] != 0)
              && r.dev.power == (b[6] != 0)
              && r.dev.zone == b[9]
              && r.dev.(volume := d.volume, source := d.source, muted := d.muted, power := d.power, zone := d.zone) == d
    ensures Valid(d) && d.fails == 0 ==> Valid(r.dev)
  {
    if |b| <= 7 then Raised(d, IndexError)
    else if d.maxVolume == 0 then Raised(d, ZeroDivisionError)
    else
      var d1 := d.(volume := Level(b[7], d.maxVolume));
      if |b| <= 8 then Raised(d1, IndexError)
      else
        match NameOf(b[8])
        case None => Raised(d1, KeyError)
        case Some(name) =>
          var d2 := d1.(source := name);
          if |b| <= 10 then Raised(d2, IndexError)
          else Returned(d2.(muted := b[10] != 0, power := b[6] != 0, zone := b[9]), true)
  }

  /**
   * `update`: sends the mute probe for the zone's unused channel and decodes
   * any reply. A failed or empty exchange leaves the fields as the failure
   * policy left them; it returns `True` whenever it returns.
   */
  function Update(d: Device, o: Outcome): (r: Run<bool>)
    ensures r.Returned? ==> r.value
    ensures o.Refused? ==> r == Returned(d, true)
    ensures o.OtherError? ==> r == Returned(SocketCommand(d, PollPayload(d.zone), o).dev, true)
    ensures o.Success? ==> r.dev.fails == 0
    ensures o.Success? && |o.received| == 0 ==> r == Returned(d.(fails := 0), true)
    ensures o.Success? && |o.received| > 0 ==> r == Feedback(d.(fails := 0), o.received)
    ensures r.Raised? ==> o.Success? && |o.received| > 0
    ensures Valid(d) ==> Valid(r.dev)
  {
    PollFrames(d.zone);
    match SocketCommand(d, PollPayload(d.zone), o)
    case Raised(d1, f) => Raised(d1, f)
    case Returned(d1, Failed) => Returned(d1, true)
    case Returned(d1, Received(b)) =>
      if |b| == 0 then Returned(d1, true) else Feedback(d1, b)
  }

  /** `turn_off`; with greedy state on, power is cleared whatever the exchange did. */
  function TurnOff(d: Device, o: Outcome): (r: Run<()>)
    ensures r.Raised? <==> o.Success? && Frame(TurnOffPayload(d.zone)).None?
    ensures r.Raised? ==> r == Raised(d, ValueError)
    ensures r.Returned? && d.greedy ==> !r.dev.power
    ensures r.Returned? && !d.greedy ==> r.dev == SocketCommand(d, TurnOffPayload(d.zone), o).dev
    ensures r.dev.fails == SocketCommand(d, TurnOffPayload(d.zone), o).dev.fails
    ensures r.dev.(power := d.power, fails := d.fails) == d
    ensures Valid(d) ==> Valid(r.dev)
  {
    match SocketCommand(d, TurnOffPayload(d.zone), o)
    case Raised(d1, f) => Raised(d1, f)
    case Returned(d1, _) => Returned(if d.greedy then d1.(power := false) else d1, ())
  }

  /** `turn_on`: only the failure policy touches the fields; power waits for feedback. */
  function TurnOn(d: Device, o: Outcome): (r: Run<()>)
    ensures r.Raised? <==> o.Success? && Frame(TurnOnPayload(d.zone)).None?
    ensures r.Raised? ==> r == Raised(d, ValueError)
    ensures r.dev == SocketCommand(d, TurnOnPayload(d.zone), o).dev
    ensures r.dev.power ==> d.power
    ensures Valid(d) ==> Valid(r.dev)
  {
    match SocketCommand(d, TurnOnPayload(d.zone), o)
    case Raised(d1, f) => Raised(d1, f)
    case Returned(d1, _) => Returned(d1, ())
  }

  /**
   * `set_volume_level` with the step `round(volume * max_volume)` already
   * taken; the local volume is left for feedback to set.
   */
  function SetVolumeLevel(d: Device, step: nat, o: Outcome): (r: Run<()>)
    ensures r.Raised? <==> o.Success? && Frame(VolumePayload(step, d.zone)).None?
    ensures r.Raised? ==> r == Raised(d, ValueError)
    ensures r.dev == SocketCommand(d, VolumePayload(step, d.zone), o).dev
    ensures r.dev.volume == d.volume
    ensures Valid(d) ==> Valid(r.dev)
  {
    match SocketCommand(d, VolumePayload(step, d.zone), o)
    case Raised(d1, f) => Raised(d1, f)
    case Returned(d1, _) => Returned(d1, ())
  }

  /** `mute_volume`: sends the mute toggle and, with greedy state on, flips `muted`; `mute` is ignored. */
  function MuteVolume(d: Device, mute: bool, o: Outcome): (r: Run<()>)
    ensures r.Raised? <==> o.Success? && Frame(MutePayload(d.zone)).None?
    ensures r.Raised? ==> r == Raised(d, ValueError)
    ensures r.Returned? && d.greedy ==> r.dev.muted == !d.muted
    ensures !d.greedy ==> r.dev == SocketCommand(d, MutePayload(d.zone), o).dev
    ensures r.dev.(muted := d.muted) == SocketCommand(d, MutePayload(d.zone), o).dev
    ensures r.dev.(muted := d.muted, power := d.power, fails := d.fails) == d
    ensures Valid(d) ==> Valid(r.dev)
  {
    match SocketCommand(d, MutePayload(d.zone), o)
    case Raised(d1, f) => Raised(d1, f)
    case Returned(d1, _) => Returned(if d.greedy then d1.(muted := !d1.muted) else d1, ())
  }

  /**
   * `select_source`: sends the source code and, with greedy state on, stores
   * `name`. An unknown name cannot frame, so it raises when the connection
   * opens, and is stored as-is when it does not.
   */
  function SelectSource(d: Device, name: string, o: Outcome): (r: Run<()>)
    ensures r.Raised? <==> o.Success? && Frame(SourcePayload(name, d.zone)).None?
    ensures r.Raised? ==> r == Raised(d, ValueError)
    ensures r.Returned? && d.greedy ==> r.dev.source == name
    ensures !d.greedy ==> r.dev == SocketCommand(d, SourcePayload(name, d.zone), o).dev
    ensures r.dev.(source := d.source) == SocketCommand(d, SourcePayload(name, d.zone), o).dev
    ensures r.dev.(source := d.source, power := d.power, fails := d.fails) == d
    ensures Valid(d) ==> Valid(r.dev)
  {
    match SocketCommand(d, SourcePayload(name, d.zone), o)
    case Raised(d1, f) => Raised(d1, f)
    case Returned(d1, _) => Returned(if d.greedy then d1.(source := name) else d1, ())
  }

  /** `state`. */
  function State(d: Device): (s: string)
    ensures s == StateOn || s == StateOff
    ensures s == StateOn <==> d.power
  {
    if d.power then StateOn else StateOff
  }

  /** `media_title`: the source while on, "Off" otherwise. */
  function MediaTitle(d: Device): (t: string)
    ensures d.power ==> t == d.source
    ensures !d.power ==> t == "Off"
  {
    if d.power then d.source else "Off"
  }

  /** The frames of the five commands for a one-digit zone, a step that fits and a known source. */
  lemma CommandFrames(d: Device, step: nat, name: string)
    requires Valid(d) && d.zone <= 9 && step <= d.maxVolume && name in SourceNames
    ensures Frame(TurnOffPayload(d.zone)).Some? && Frame(TurnOnPayload(d.zone)).Some?
    ensures Frame(VolumePayload(step, d.zone)).Some? && Frame(MutePayload(d.zone)).Some?
    ensures Frame(SourcePayload(name, d.zone)).Some?
  {
    TurnOffFrame(d.zone);
    TurnOnFrame(d.zone);
    VolumeFrame(step, d.zone);
    MuteFrame(d.zone);
    SourceFrame(name, d.zone);
  }

  /**
   * With a one-digit zone (every zone `__init__` allows), a volume step within
   * the configured maximum and a known source, no command raises, whatever
   * the socket does.
   */
  lemma CommandsReturn(d: Device, step: nat, name: string, mute: bool, o: Outcome)
    requires Valid(d) && d.zone <= 9 && step <= d.maxVolume && name in SourceNames
    ensures TurnOff(d, o).Returned? && TurnOn(d, o).Returned?
    ensures SetVolumeLevel(d, step, o).Returned? && MuteVolume(d, mute, o).Returned?
    ensures SelectSource(d, name, o).Returned?
  {
    CommandFrames(d, step, name);
  }

  /**
   * A two-digit zone, which a feedback byte 9 of 10..99 installs, makes every
   * command raise `ValueError` once the connection opens, leaving the fields as they were.
   */
  lemma WideZoneCommandsRaise(d: Device, step: nat, name: string, mute: bool, received: seq<byte>)
    requires 10 <= d.zone <= 99
    ensures TurnOff(d, Success(received)) == Raised(d, ValueError)
    ensures TurnOn(d, Success(received)) == Raised(d, ValueError)
    ensures SetVolumeLevel(d, step, Success(received)) == Raised(d, ValueError)
    ensures MuteVolume(d, mute, Success(received)) == Raised(d, ValueError)
    ensures SelectSource(d, name, Success(received)) == Raised(d, ValueError)
  {
    WideZoneFramesFail(d.zone, step, name);
  }

  /**
   * `select_source` with a name outside the table raises `ValueError` when
   * the connection opens; when it does not, a greedy controller stores the
   * unknown name.
   */
  lemma UnknownSourceOutcome(d: Device, name: string, o: Outcome)
    requires name !in SourceNames
    ensures o.Success? ==> SelectSource(d, name, o) == Raised(d, ValueError)
    ensures !o.Success? && d.greedy ==> SelectSource(d, name, o).Returned? && SelectSource(d, name, o).dev.source == name
  {
    UnknownSourceFrameFails(name, d.zone);
  }

  /** With greedy state on, two mute toggles that both return restore `muted`, whatever their arguments. */
  lemma MuteTwiceRestores(d: Device, m1: bool, m2: bool, o1: Outcome, o2: Outcome)
    requires d.greedy
    requires MuteVolume(d, m1, o1).Returned?
    requires MuteVolume(MuteVolume(d, m1, o1).dev, m2, o2).Returned?
    ensures MuteVolume(MuteVolume(d, m1, o1).dev, m2, o2).dev.muted == d.muted
  {
  }

  /**
   * Feedback whose byte 7 echoes a volume step within the configured maximum
   * sets the level to exactly `step / max_volume`, so the step
   * `set_volume_level` sends (the seventh byte of its frame, see
   * `VolumeStepByte`) comes back unchanged.
   */
  lemma VolumeRoundTrip(d: Device, step: nat, b: seq<byte>)
    requires Valid(d) && 0 < d.maxVolume && step <= d.maxVolume
    requires |b| >= 11 && b[7] == step && 1 <= b[8] <= 7
    ensures Feedback(d, b).Returned?
    ensures Feedback(d, b).dev.volume * d.maxVolume as real == step as real
  {
  }

  /** `update` never raises while building its probe: its only faults come from decoding the reply. */
  lemma UpdateFaults(d: Device, o: Outcome)
    ensures Update(d, o).Raised? ==> Update(d, o).fault in {IndexError, KeyError, ZeroDivisionError}
    ensures Update(d, o).Raised? && Update(d, o).fault == ZeroDivisionError ==> d.maxVolume == 0
    ensures Update(d, o).Raised? && Update(d, o).fault == KeyError ==> NameOf(o.received[8]).None?
    ensures Valid(d) && 0 < d.maxVolume && o.Success? && (|o.received| == 0 || (|o.received| >= 11 && 1 <= o.received[8] <= 7))
            ==> Update(d, o).Returned?
  {
  }
}
