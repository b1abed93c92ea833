/**
 * Sequences of calls on one controller: each call is a command or a poll
 * together with what its socket exchange did. A raised exception ends the
 * call, not the controller, so the next call starts from the fields the
 * failed one left behind.
 */
module Session {
  import opened FrameCodec
  import opened Payloads
  import opened Device

  /** The calls Home Assistant makes on the controller. */
  datatype Command = PowerOn | PowerOff | Volume(step: nat) | Mute(flag: bool) | Source(name: string) | Poll

  /** One call and the outcome of its socket exchange. */
  datatype Call = Call(command: Command, outcome: Outcome)

  /** The fields after one call, whether it returned or raised. */
  function Apply(d: Device, c: Command, o: Outcome): (r: Device)
    ensures Valid(d) ==> Valid(r)
    ensures r.maxVolume == d.maxVolume && r.greedy == d.greedy && r.failsBeforeOff == d.failsBeforeOff
  {
    match c
    case PowerOn => TurnOn(d, o).dev
    case PowerOff => TurnOff(d, o).dev
    case Volume(step) => SetVolumeLevel(d, step, o).dev
    case Mute(flag) => MuteVolume(d, flag, o).dev
    case Source(name) => SelectSource(d, name, o).dev
    case Poll => Update(d, o).dev
  }

  /** The fields after a sequence of calls, in order. */
  function Replay(d: Device, calls: seq<Call>): (r: Device)
    ensures Valid(d) ==> Valid(r)
    decreases |calls|
  {
    if |calls| == 0 then d
    else Replay(Apply(d, calls[0].command, calls[0].outcome), calls[1..])
  }

  /** How many of the calls met a socket error other than a refused connection. */
  function Errors(calls: seq<Call>): nat
    decreases |calls|
  {
    if |calls| == 0 then 0
    else (if calls[0].outcome.OtherError? then 1 else 0) + Errors(calls[1..])
  }

  /** No call got a reply. */
  predicate NoReply(calls: seq<Call>) {
    forall i | 0 <= i < |calls| :: !calls[i].outcome.Success?
  }

  /**
   * A call without a reply adds one to the failure counter for a socket
   * error, leaves it for a refusal, and never turns power on.
   */
  lemma ApplyWithoutReply(d: Device, c: Command, o: Outcome)
    requires !o.Success?
    ensures Apply(d, c, o).fails == d.fails + (if o.OtherError? then 1 else 0)
    ensures Apply(d, c, o).power ==> d.power
  {
  }

  /**
   * Over calls without a reply the failure counter grows by the number of
   * socket errors, and power can only stay on, never come on.
   */
  lemma {:induction false} FailuresAccumulate(d: Device, calls: seq<Call>)
    requires NoReply(calls)
    ensures Replay(d, calls).fails == d.fails + Errors(calls)
    ensures Replay(d, calls).power ==> d.power
    decreases |calls|
  {
    if |calls| > 0 {
      var d1 := Apply(d, calls[0].command, calls[0].outcome);
      ApplyWithoutReply(d, calls[0].command, calls[0].outcome);
      assert NoReply(calls[1..]) by {
        forall i | 0 <= i < |calls[1..]| ensures !calls[1..][i].outcome.Success? {
          assert calls[1..][i] == calls[i + 1];
        }
      }
      FailuresAccumulate(d1, calls[1..]);
    }
  }

  /**
   * Three socket errors (counting those before) with no reply in between
   * leave the controller reporting "off", whatever else was called.
   */
  lemma ThresholdForcesOff(d: Device, calls: seq<Call>)
    requires Valid(d) && NoReply(calls) && d.fails + Errors(calls) >= FailsBeforeOff
    ensures !Replay(d, calls).power
    ensures State(Replay(d, calls)) == StateOff && MediaTitle(Replay(d, calls)) == "Off"
  {
    FailuresAccumulate(d, calls);
  }

  /** The payload each call sends. */
  function PayloadOf(d: Device, c: Command): string {
    match c
    case PowerOn => TurnOnPayload(d.zone)
    case PowerOff => TurnOffPayload(d.zone)
    case Volume(step) => VolumePayload(step, d.zone)
    case Mute(_) => MutePayload(d.zone)
    case Source(name) => SourcePayload(name, d.zone)
    case Poll => PollPayload(d.zone)
  }

  /**
   * A reply resets the failure counter when the call's payload frames; when
   * it does not, the call raises before the reset and changes nothing.
   */
  lemma ReplyResets(d: Device, c: Command, received: seq<HexText.byte>)
    ensures Frame(PayloadOf(d, c)).Some? ==> Apply(d, c, Success(received)).fails == 0
    ensures Frame(PayloadOf(d, c)).None? ==> Apply(d, c, Success(received)) == d
  {
    match c
    case Poll => PollFrames(d.zone);
    case _ =>
  }

  /** Without greedy state, a refused connection leaves every field as it was. */
  lemma RefusalKeepsState(d: Device, c: Command)
    requires !d.greedy
    ensures Apply(d, c, Refused) == d
  {
  }
}
