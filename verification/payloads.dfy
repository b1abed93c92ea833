/**
 * The five-token payload templates the controller sends, each rendered from
 * the zone, a volume step or a source code (dynaudio/media_player.py), and
 * the frames they produce.
 */
module Payloads {
  import opened Wrappers
  import opened HexText
  import opened Tokens
  import opened FrameCodec
  import opened Sources

  /** The probe `update` sends when the zone is 1 ("mute_green"). */
  const MuteGreen: string := "2F A0 12 00 72"

  /** The probe `update` sends for every other zone ("mute_red"). */
  const MuteRed: string := "2F A0 12 00 71"

  /**
   * A payload is its five tokens joined by single spaces; because no token
   * holds a space, the framing code's `split(" ")` gets them back.
   */
  function Payload(ts: seq<string>): (p: string)
    requires |ts| == 5 && NoSpaces(ts)
    ensures Split(p) == ts
  {
    SplitJoin(ts);
    Join(ts)
  }

  lemma DecimalNoSpace(n: nat)
    ensures ' ' !in Decimal(n)
  {
    var d := Decimal(n);
    assert forall i | 0 <= i < |d| :: IsDecimalDigit(d[i]);
  }

  lemma HexNoSpace(t: string)
    requires AllHexDigits(t)
    ensures ' ' !in t
  {
    assert forall i | 0 <= i < |t| :: IsHexDigit(t[i]);
  }

  /** `turn_off`: the text `2F A0 02 01 F<zone>`. */
  function TurnOffPayload(zone: nat): (p: string)
    ensures Split(p) == ["2F", "A0", "02", "01", "F" + Decimal(zone)]
  {
    DecimalNoSpace(zone);
    Payload(["2F", "A0", "02", "01", "F" + Decimal(zone)])
  }

  /** `turn_on`: the text `2F A0 01 00 F<zone>`. */
  function TurnOnPayload(zone: nat): (p: string)
    ensures Split(p) == ["2F", "A0", "01", "00", "F" + Decimal(zone)]
  {
    DecimalNoSpace(zone);
    Payload(["2F", "A0", "01", "00", "F" + Decimal(zone)])
  }

  /** The volume token: the step in lower-case hex, zero-filled to two characters. */
  function VolumeField(step: nat): (t: string)
    ensures IsHexToken(t) && HexValue(t) == step
    ensures step < 256 ==> IsByteToken(t)
  {
    ZFillHexValue(LowerHex(step), 2);
    ZFill(LowerHex(step), 2)
  }

  /** `set_volume_level`: the text `2F A0 13 <step> 5<zone>`, the step already rounded. */
  function VolumePayload(step: nat, zone: nat): (p: string)
    ensures Split(p) == ["2F", "A0", "13", VolumeField(step), "5" + Decimal(zone)]
  {
    HexNoSpace(VolumeField(step));
    DecimalNoSpace(zone);
    Payload(["2F", "A0", "13", VolumeField(step), "5" + Decimal(zone)])
  }

  /** `mute_volume`: the text `2F A0 12 01 3<zone>`. */
  function MutePayload(zone: nat): (p: string)
    ensures Split(p) == ["2F", "A0", "12", "01", "3" + Decimal(zone)]
  {
    DecimalNoSpace(zone);
    Payload(["2F", "A0", "12", "01", "3" + Decimal(zone)])
  }

  /**
   * The source token: `str(table.get(name)).zfill(2)`, which is "0" and the
   * code for a known name and the text "None" otherwise.
   */
  function SourceField(name: string): (t: string)
    ensures name in SourceNames ==> IsByteToken(t) && HexValue(t) == NameToNumber[name]
    ensures name in SourceNames ==> t == ['0'] + Decimal(NameToNumber[name])
    ensures name !in SourceNames ==> t == "None" && !IsHexToken(t)
    ensures ' ' !in t
  {
    match CodeOf(name)
    case Some(c) =>
      DecimalAsHex(c);
      HexNoSpace(ZFill(Decimal(c), 2));
      ZFill(Decimal(c), 2)
    case None =>
      assert !IsHexDigit("None"[0]);
      ZFill("None", 2)
  }

  /** `select_source`: the text `2F A0 15 <code> 5<zone>`. */
  function SourcePayload(name: string, zone: nat): (p: string)
    ensures Split(p) == ["2F", "A0", "15", SourceField(name), "5" + Decimal(zone)]
  {
    DecimalNoSpace(zone);
    Payload(["2F", "A0", "15", SourceField(name), "5" + Decimal(zone)])
  }

  /** The channel byte `update` probes: `72` for zone 1, `71` for every other zone. */
  function PollChannel(zone: nat): (t: string)
    ensures t == "72" <==> zone == 1
    ensures t == "71" <==> zone != 1
  {
    if zone == 1 then "72" else "71"
  }

  /** The poll probe: `MuteGreen` for zone 1, `MuteRed` for every other zone. */
  function PollPayload(zone: nat): (p: string)
    ensures Split(p) == ["2F", "A0", "12", "00", PollChannel(zone)]
  {
    Payload(["2F", "A0", "12", "00", PollChannel(zone)])
  }

  /** Five pieces joined by single spaces, written left to right. */
  lemma JoinFive(ts: seq<string>)
    requires |ts| == 5
    ensures Join(ts) == ts[0] + " " + ts[1] + " " + ts[2] + " " + ts[3] + " " + ts[4]
  {
    assert ts[1..][1..][1..][1..] == [ts[4]];
    assert Join(ts[1..][1..][1..]) == ts[3] + " " + ts[4];
    assert Join(ts[1..][1..]) == ts[2] + " " + (ts[3] + " " + ts[4]);
    assert Join(ts[1..]) == ts[1] + " " + (ts[2] + " " + (ts[3] + " " + ts[4]));
  }

  /** Four fixed tokens and a last one: the text is the fixed prefix followed by the last token. */
  lemma FixedHead(ts: seq<string>, head: string)
    requires |ts| == 5 && NoSpaces(ts)
    requires head == ts[0] + " " + ts[1] + " " + ts[2] + " " + ts[3] + " "
    ensures Payload(ts) == head + ts[4]
  {
    JoinFive(ts);
  }

  /** `turn_off` sends `2F A0 02 01 F` followed by the zone in decimal. */
  lemma TurnOffText(zone: nat)
    ensures TurnOffPayload(zone) == "2F A0 02 01 " + ("F" + Decimal(zone))
  {
    DecimalNoSpace(zone);
    FixedHead(["2F", "A0", "02", "01", "F" + Decimal(zone)], "2F A0 02 01 ");
  }

  /** `turn_on` sends `2F A0 01 00 F` followed by the zone in decimal. */
  lemma TurnOnText(zone: nat)
    ensures TurnOnPayload(zone) == "2F A0 01 00 " + ("F" + Decimal(zone))
  {
    DecimalNoSpace(zone);
    FixedHead(["2F", "A0", "01", "00", "F" + Decimal(zone)], "2F A0 01 00 ");
  }

  /** `mute_volume` sends `2F A0 12 01 3` followed by the zone in decimal. */
  lemma MuteText(zone: nat)
    ensures MutePayload(zone) == "2F A0 12 01 " + ("3" + Decimal(zone))
  {
    DecimalNoSpace(zone);
    FixedHead(["2F", "A0", "12", "01", "3" + Decimal(zone)], "2F A0 12 01 ");
  }

  /** `update` sends `mute_green` for zone 1 and `mute_red` otherwise. */
  lemma PollText(zone: nat)
    ensures zone == 1 ==> PollPayload(zone) == MuteGreen
    ensures zone != 1 ==> PollPayload(zone) == MuteRed
  {
    FixedHead(["2F", "A0", "12", "00", PollChannel(zone)], "2F A0 12 00 ");
    if zone == 1 {
      assert MuteGreen == "2F A0 12 00 " + "72";
    } else {
      assert MuteRed == "2F A0 12 00 " + "71";
    }
  }

  /** A hex digit followed by a one-digit zone is one byte token. */
  lemma ZoneToken(prefix: char, zone: nat)
    requires IsHexDigit(prefix) && zone <= 9
    ensures IsByteToken([prefix] + Decimal(zone))
    ensures HexValue([prefix] + Decimal(zone)) == DigitValue(prefix) * 16 + zone
  {
    var t := [prefix] + Decimal(zone);
    assert t == [prefix, DigitChar(zone)];
    assert t[..1] == [prefix] && t[..1][..0] == [];
    assert HexValue(t[..1]) == DigitValue(prefix);
  }

  /** A zone of two digits makes the last token three characters long. */
  lemma WideZoneToken(prefix: char, zone: nat)
    requires IsHexDigit(prefix) && 10 <= zone <= 99
    ensures NoWhitespace([prefix] + Decimal(zone)) && |[prefix] + Decimal(zone)| == 3
  {
    var d := Decimal(zone);
    assert forall i | 0 <= i < |d| :: IsDecimalDigit(d[i]);
  }

  lemma SumOfFive(vs: seq<nat>)
    requires |vs| == 5
    ensures Sum(vs) == vs[0] + vs[1] + vs[2] + vs[3] + vs[4]
  {
    assert vs[1..][1..][1..][1..][1..] == [];
    assert Sum(vs[1..][1..][1..][1..]) == vs[4];
    assert Sum(vs[1..][1..][1..]) == vs[3] + vs[4];
    assert Sum(vs[1..][1..]) == vs[2] + vs[3] + vs[4];
    assert Sum(vs[1..]) == vs[1] + vs[2] + vs[3] + vs[4];
  }

  /**
   * A five-byte-token payload frames as `FF 55 05`, the five bytes and the
   * checksum, when that checksum is at least 16.
   */
  lemma FiveTokenFrame(p: string, vs: seq<nat>)
    requires FiveByteTokens(Split(p), vs)
    requires ChecksumValue(vs) >= 16
    ensures ParseAll(Split(p)) == Some(vs)
    ensures Frame(p) == Some([0xFF, 0x55, 0x05] + vs + [ChecksumValue(vs)])
  {
    FiveValues(Split(p), vs);
    WireFrame(p);
  }

  /** Five byte tokens parse to their five values. */
  lemma FiveValues(ts: seq<string>, vs: seq<nat>)
    requires FiveByteTokens(ts, vs)
    ensures forall i | 0 <= i < |ts| :: IsByteToken(ts[i])
    ensures ParseAll(ts) == Some(vs)
  {
    forall i | 0 <= i < |ts| ensures IsByteToken(ts[i]) && HexValue(ts[i]) == vs[i] {
      assert HexByte(ts[i], vs[i]);
    }
    ParseBytes(ts, vs);
  }

  /** Five tokens, each one byte token spelling the matching value. */
  predicate FiveByteTokens(ts: seq<string>, vs: seq<nat>) {
    |ts| == 5 && |vs| == 5 && forall i | 0 <= i < 5 :: HexByte(ts[i], vs[i])
  }

  predicate HexByte(t: string, v: nat) {
    IsByteToken(t) && HexValue(t) == v
  }

  /** The fixed tokens of the templates and their byte values. */
  lemma HexLiterals()
    ensures HexByte("2F", 0x2F) && HexByte("A0", 0xA0)
    ensures HexByte("00", 0x00) && HexByte("01", 0x01) && HexByte("02", 0x02)
    ensures HexByte("12", 0x12) && HexByte("13", 0x13) && HexByte("15", 0x15)
    ensures HexByte("71", 0x71) && HexByte("72", 0x72)
  {
  }

  /** The checksum of a five-value payload, from its closed form. */
  lemma ChecksumOfFive(vs: seq<nat>, c: int)
    requires |vs| == 5 && 0 <= c < 256
    requires (vs[0] + vs[1] + vs[2] + vs[3] + vs[4] + 5 + c) % 256 == 0
    ensures ChecksumValue(vs) == c
  {
    SumOfFive(vs);
  }

  /**
   * A zone template `2F A0 <t2> <t3> <prefix><zone>` with a one-digit zone
   * frames as `FF 55 05`, its five bytes and the checksum `c`, when `c` is at
   * least 16.
   */
  lemma ZoneFrame(p: string, t2: string, t3: string, v2: nat, v3: nat, prefix: char, hi: nat, zone: nat, c: nat)
    requires Split(p) == ["2F", "A0", t2, t3, [prefix] + Decimal(zone)]
    requires HexByte(t2, v2) && HexByte(t3, v3) && IsHexDigit(prefix) && DigitValue(prefix) == hi && zone <= 9
    requires 16 <= c < 256 && (0x2F + 0xA0 + v2 + v3 + hi * 16 + zone + 5 + c) % 256 == 0
    ensures Frame(p) == Some([0xFF, 0x55, 0x05, 0x2F, 0xA0, v2, v3, hi * 16 + zone, c])
  {
    var vs := ZoneBytes(t2, t3, v2, v3, prefix, hi, zone);
    ChecksumOfFive(vs, c);
    FiveTokenFrame(p, vs);
    Spell(vs, c);
  }

  /** The five tokens of a zone template and their byte values. */
  lemma ZoneBytes(t2: string, t3: string, v2: nat, v3: nat, prefix: char, hi: nat, zone: nat) returns (vs: seq<nat>)
    requires HexByte(t2, v2) && HexByte(t3, v3) && IsHexDigit(prefix) && DigitValue(prefix) == hi && zone <= 9
    ensures vs == [0x2F, 0xA0, v2, v3, hi * 16 + zone]
    ensures FiveByteTokens(["2F", "A0", t2, t3, [prefix] + Decimal(zone)], vs)
  {
    HexLiterals();
    ZoneToken(prefix, zone);
    vs := [0x2F, 0xA0, v2, v3, hi * 16 + zone];
  }

  lemma Spell(vs: seq<nat>, c: nat)
    requires |vs| == 5
    ensures [0xFF, 0x55, 0x05] + vs + [c] == [0xFF, 0x55, 0x05, vs[0], vs[1], vs[2], vs[3], vs[4], c]
  {
  }

  lemma TurnOffFrame(zone: nat)
    requires zone <= 9
    ensures Frame(TurnOffPayload(zone)) == Some([0xFF, 0x55, 0x05, 0x2F, 0xA0, 0x02, 0x01, 0xF0 + zone, 57 - zone])
  {
    HexLiterals();
    ZoneFrame(TurnOffPayload(zone), "02", "01", 0x02, 0x01, 'F', 15, zone, 57 - zone);
  }

  lemma TurnOnFrame(zone: nat)
    requires zone <= 9
    ensures Frame(TurnOnPayload(zone)) == Some([0xFF, 0x55, 0x05, 0x2F, 0xA0, 0x01, 0x00, 0xF0 + zone, 59 - zone])
  {
    HexLiterals();
    ZoneFrame(TurnOnPayload(zone), "01", "00", 0x01, 0x00, 'F', 15, zone, 59 - zone);
  }

  lemma VolumeFrame(step: nat, zone: nat)
    requires zone <= 9 && step + zone <= 185
    ensures Frame(VolumePayload(step, zone)) == Some([0xFF, 0x55, 0x05, 0x2F, 0xA0, 0x13, step, 0x50 + zone, 201 - step - zone])
  {
    HexLiterals();
    ZoneFrame(VolumePayload(step, zone), "13", VolumeField(step), 0x13, step, '5', 5, zone, 201 - step - zone);
  }

  /** The frame of `set_volume_level` carries the step as its seventh byte. */
  lemma VolumeStepByte(step: nat, zone: nat)
    requires zone <= 9 && step + zone <= 185
    ensures Frame(VolumePayload(step, zone)).Some?
    ensures var f := Frame(VolumePayload(step, zone)).value; |f| == 9 && f[6] == step
  {
    VolumeFrame(step, zone);
  }

  lemma MuteFrame(zone: nat)
    requires zone <= 9
    ensures Frame(MutePayload(zone)) == Some([0xFF, 0x55, 0x05, 0x2F, 0xA0, 0x12, 0x01, 0x30 + zone, 233 - zone])
  {
    HexLiterals();
    ZoneFrame(MutePayload(zone), "12", "01", 0x12, 0x01, '3', 3, zone, 233 - zone);
  }

  lemma SourceFrame(name: string, zone: nat)
    requires zone <= 9 && name in SourceNames
    ensures var c := NameToNumber[name];
            Frame(SourcePayload(name, zone)) == Some([0xFF, 0x55, 0x05, 0x2F, 0xA0, 0x15, c, 0x50 + zone, 199 - c - zone])
  {
    var c := SourceCode(name);
    HexLiterals();
    ZoneFrame(SourcePayload(name, zone), "15", SourceField(name), 0x15, c, '5', 5, zone, 199 - c - zone);
  }

  /** The code of a known source and its two-digit token. */
  lemma SourceCode(name: string) returns (c: nat)
    requires name in SourceNames
    ensures c == NameToNumber[name] && 1 <= c <= 7 && HexByte(SourceField(name), c)
  {
    var r := CodeOf(name);
    c := NameToNumber[name];
  }

  lemma PollFrame(zone: nat)
    ensures zone == 1 ==> Frame(PollPayload(zone)) == Some([0xFF, 0x55, 0x05, 0x2F, 0xA0, 0x12, 0x00, 0x72, 0xA8])
    ensures zone != 1 ==> Frame(PollPayload(zone)) == Some([0xFF, 0x55, 0x05, 0x2F, 0xA0, 0x12, 0x00, 0x71, 0xA9])
    ensures zone == 1 ==> CalculateChecksum(PollPayload(zone)) == Some("a8")
    ensures zone != 1 ==> CalculateChecksum(PollPayload(zone)) == Some("a9")
  {
    if zone == 1 {
      GreenProbe(PollPayload(zone));
    } else {
      RedProbe(PollPayload(zone));
    }
  }

  /** The zone 1 probe `2F A0 12 00 72`, whatever text spells it. */
  lemma GreenProbe(p: string)
    requires Split(p) == ["2F", "A0", "12", "00", "72"]
    ensures Frame(p) == Some([0xFF, 0x55, 0x05, 0x2F, 0xA0, 0x12, 0x00, 0x72, 0xA8])
    ensures CalculateChecksum(p) == Some("a8")
  {
    ChecksumTexts();
    HexLiterals();
    ProbeFrame(p, "72", 0x72, 0xA8);
  }

  /** The probe `2F A0 12 00 71` of every other zone. */
  lemma RedProbe(p: string)
    requires Split(p) == ["2F", "A0", "12", "00", "71"]
    ensures Frame(p) == Some([0xFF, 0x55, 0x05, 0x2F, 0xA0, 0x12, 0x00, 0x71, 0xA9])
    ensures CalculateChecksum(p) == Some("a9")
  {
    ChecksumTexts();
    HexLiterals();
    ProbeFrame(p, "71", 0x71, 0xA9);
  }

  /** Both poll probes frame, so `update` never raises while building its command. */
  lemma PollFrames(zone: nat)
    ensures Frame(PollPayload(zone)).Some?
  {
    PollFrame(zone);
  }

  lemma ChecksumTexts()
    ensures LowerHex(0xA8) == "a8" && LowerHex(0xA9) == "a9"
  {
    assert LowerHex(10) == [HexChar(10)];
    assert HexChar(10) == 'a' && HexChar(8) == '8' && HexChar(9) == '9';
  }

  /** A probe `2F A0 12 00 <last>` frames with the checksum that closes its sum. */
  lemma ProbeFrame(p: string, last: string, v: nat, c: nat)
    requires Split(p) == ["2F", "A0", "12", "00", last] && HexByte(last, v)
    requires 16 <= c < 256 && (0x2F + 0xA0 + 0x12 + v + 5 + c) % 256 == 0
    ensures CalculateChecksum(p) == Some(LowerHex(c))
    ensures Frame(p) == Some([0xFF, 0x55, 0x05, 0x2F, 0xA0, 0x12, 0x00, v, c])
  {
    var vs := ProbeBytes(last, v);
    ChecksumOfFive(vs, c);
    FiveTokenFrame(p, vs);
    Spell(vs, c);
  }

  lemma ProbeBytes(last: string, v: nat) returns (vs: seq<nat>)
    requires HexByte(last, v)
    ensures vs == [0x2F, 0xA0, 0x12, 0x00, v]
    ensures FiveByteTokens(["2F", "A0", "12", "00", last], vs)
  {
    HexLiterals();
    vs := [0x2F, 0xA0, 0x12, 0x00, v];
  }

  /** Turning zone 1 off sends `2F A0 02 01 F1`. */
  lemma TurnOffScenario()
    ensures TurnOffPayload(1) == "2F A0 02 01 F1"
  {
    TurnOffText(1);
    assert Decimal(1) == "1";
  }

  /** Selecting Optical on zone 2 sends `2F A0 15 03 52`. */
  lemma SourceScenario()
    ensures SourcePayload("Optical", 2) == "2F A0 15 03 52"
  {
    var ts := ["2F", "A0", "15", SourceField("Optical"), "5" + Decimal(2)];
    assert Decimal(2) == "2";
    assert SourceField("Optical") == "03";
    DecimalNoSpace(2);
    FixedHead(ts, "2F A0 15 03 ");
    assert ts[4] == "52";
  }

  /**
   * A zone of two digits (feedback byte 9 can set one) makes the last token
   * three characters long, so every zone template fails to frame.
   */
  lemma WideZoneFramesFail(zone: nat, step: nat, name: string)
    requires 10 <= zone <= 99
    ensures Frame(TurnOffPayload(zone)).None? && Frame(TurnOnPayload(zone)).None?
    ensures Frame(VolumePayload(step, zone)).None? && Frame(MutePayload(zone)).None?
    ensures Frame(SourcePayload(name, zone)).None?
  {
    WideZoneToken('F', zone);
    WideZoneToken('5', zone);
    WideZoneToken('3', zone);
    FrameRejectsOddToken(TurnOffPayload(zone), 4);
    FrameRejectsOddToken(TurnOnPayload(zone), 4);
    FrameRejectsOddToken(VolumePayload(step, zone), 4);
    FrameRejectsOddToken(MutePayload(zone), 4);
    FrameRejectsOddToken(SourcePayload(name, zone), 4);
  }

  /** An unknown source renders the token "None", which `int(tok, 16)` rejects. */
  lemma UnknownSourceFrameFails(name: string, zone: nat)
    requires name !in SourceNames
    ensures CalculateChecksum(SourcePayload(name, zone)).None?
    ensures Frame(SourcePayload(name, zone)).None?
  {
    assert !IsHexToken(Split(SourcePayload(name, zone))[3]);
  }
}
