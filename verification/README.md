# Dynaudio Connect controller, modelled in Dafny

This project models `DynaudioDevice`, the Home Assistant controller for
Dynaudio Connect amplifiers (`dynaudio/media_player.py`). The model has five
parts.

- **Command framing.** `calculate_checksum` and `construct_command` turn a
  space-separated hex payload into the text `FF 55 <count> <payload>
  <checksum>`. `bytes.fromhex` then turns that text into the bytes put on the
  socket.
- **Payload templates.** `turn_off`, `turn_on`, `set_volume_level`,
  `mute_volume`, `select_source` and the poll in `update` each render one
  five-token payload. The inputs are the zone, the volume step or the source
  code.
- **Source tables.** The name-to-number and number-to-name dictionaries, and
  `source_list`.
- **Controller state.** The fields change through three paths:
  - the failure policy of `socket_command`;
  - the feedback decode of `update`;
  - the greedy local writes of the commands.
- **Sessions.** A sequence of calls, each with its own socket outcome.

Python's text operations are modelled character by character:
`str.split(" ")`, `" ".join`, `hex(n)[2:]`, `str(n)`, `str.zfill`,
`int(tok, 16)` and `bytes.fromhex`. A Python exception that escapes a call
becomes `Raised(device, fault)`. The device it carries holds the fields
written before the exception. The socket exchange is an input,
`Outcome = Refused | OtherError | Success(bytes)`. It records the first
socket error the run actually raises:

- `Refused` is `ConnectionRefusedError`;
- `OtherError` is any other `OSError`, including a timeout;
- `Success` means no socket error was raised.

Either error may come from `connect`. It may come from `send` or `recv` only
when the payload frames. A payload that cannot be framed raises `ValueError`
right after `connect` succeeds, before `send` and `recv` run. For such a
payload, `Success` therefore means only that the connection opened, and its
bytes are unused. A device that accepts the connection but never replies is
`Success` here, not `OtherError`. A framing failure thus shows up only with
a `Success` outcome, and the failure counter is then not reset.

Modules, in dependency order:

| Module | File | Contents |
|---|---|---|
| `Wrappers` | `wrappers.dfy` | `Option` |
| `HexText` | `hex_text.dfy` | Digits, `hex()`, `str()`, `zfill` |
| `Tokens` | `tokens.dfy` | Split and join on single spaces |
| `FrameCodec` | `frame_codec.dfy` | Checksum, command text, `bytes.fromhex`, the frame |
| `Sources` | `sources.dfy` | The two source tables |
| `Payloads` | `payloads.dfy` | The templates and their frames |
| `Device` | `device.dfy` | The controller record and its operations |
| `Session` | `session.dfy` | Sequences of calls |

## Model

| member | source | states |
|---|---|---|
| `HexText.LowerHex` | dynaudio/media_player.py:88 | `hex(n)[2:]` is a lower-case hex token whose value is `n`. It has one digit exactly when `n < 16` and two exactly when `16 <= n < 256`. |
| `HexText.Decimal` | dynaudio/media_player.py:93 | `str(n)` is a run of decimal digits whose value is `n`, with no leading zero. It is one character exactly below 10 and at most two exactly below 100. |
| `HexText.ZFill` | dynaudio/media_player.py:93 | `zfill(w)` pads on the left with zeros to length `w` (after a sign, if any). A text already `w` long comes back unchanged. |
| `HexText.ZFillHexValue` | dynaudio/media_player.py:200 | Zero-filling a hex token keeps the value `int(tok, 16)` reads from it. |
| `HexText.DecimalAsHex` | dynaudio/media_player.py:93 | The zero-filled count `n < 100` is one byte token. Read as hex, its value is `16*(n/10) + n%10`, which equals `n` only below 10. |
| `Tokens.Split` | dynaudio/media_player.py:82 | `split(" ")` yields one more piece than the text has spaces. |
| `Tokens.SplitPieces` | dynaudio/media_player.py:82 | No piece of a split holds a space. |
| `Tokens.SplitAppend` | dynaudio/media_player.py:95 | Splitting `a + " " + b` yields the pieces of `a` followed by the pieces of `b`. |
| `Tokens.SplitJoin` | dynaudio/media_player.py:82 | Joining space-free pieces and splitting again gives the pieces back. |
| `Tokens.JoinSplit` | dynaudio/media_player.py:82 | Splitting any text and joining the pieces gives the text back. |
| `Tokens.JoinAppend` | dynaudio/media_player.py:95 | Joining two non-empty runs of pieces puts exactly one space between them. |
| `FrameCodec.CeilDiv255` | dynaudio/media_player.py:86 | `math.ceil(total / 255)` is the least `x` with `total <= 255*x`. |
| `FrameCodec.ChecksumValue` | dynaudio/media_player.py:86-88 | `(x*255 - sum - (n - x)) & 255` is below 256 and equals `(-(sum + n)) mod 256` whatever `x` is. So `sum + n + checksum` is a multiple of 256. |
| `FrameCodec.ParseAll` | dynaudio/media_player.py:84-85 | `int(tok, 16)` over all tokens succeeds exactly when every token is a hex token. On success it yields one value per token, each that token's value. |
| `FrameCodec.ParseBytes` | dynaudio/media_player.py:84-85 | Tokens that each spell one byte parse to exactly those bytes. |
| `FrameCodec.CalculateChecksum` | dynaudio/media_player.py:80-88 | Fails exactly when some token is not hex. Otherwise it returns a lower-case hex token, as `hex()` prints, that closes the sum to a multiple of 256. The token has one digit exactly when the value is below 16. |
| `FrameCodec.ConstructCommand` | dynaudio/media_player.py:90-95 | Fails exactly when the checksum fails. Otherwise the command's tokens are `FF`, `55`, the zero-filled count, the payload tokens verbatim and the checksum: `n + 4` tokens. |
| `FrameCodec.FromHex` | dynaudio/media_player.py:103 | `bytes.fromhex` yields at most one byte per two characters of its text. |
| `FrameCodec.FromHexReads` | dynaudio/media_player.py:103 | When `bytes.fromhex` succeeds, the whitespace is skipped and the other characters form an even-length run of hex digits. The bytes are those digits read in pairs, high digit first. So a lone digit or any other character makes it raise `ValueError`. |
| `FrameCodec.Frame` | dynaudio/media_player.py:103 | The wire bytes `bytes.fromhex(construct_command(payload))`, or `None` where either step raises `ValueError`. A frame exists only when the checksum succeeds and the payload alone decodes. It always starts `FF 55`. |
| `FrameCodec.FromHexSpace` | dynaudio/media_player.py:103 | `bytes.fromhex` of `a + " " + b` is the decoding of `a` followed by that of `b`. It fails if either fails. |
| `FrameCodec.FromHexToken` | dynaudio/media_player.py:103 | A token without whitespace decodes exactly when it is an even-length run of hex digits. A two-digit token decodes to its value. |
| `FrameCodec.FromHexJoin` | dynaudio/media_player.py:103 | Byte tokens joined by spaces decode to the values `int(tok, 16)` gives them. |
| `FrameCodec.FromHexJoinFails` | dynaudio/media_player.py:103 | One undecodable token makes the decoding of the whole joined text fail. |
| `FrameCodec.FrameDecomposes` | dynaudio/media_player.py:95 | The frame bytes are, in order: `FF 55`, the decoded count, the decoded payload and the decoded checksum. |
| `FrameCodec.WireFrame` | dynaudio/media_player.py:90-103 | A payload of fewer than 100 byte tokens frames exactly when its checksum is at least 16. It is then `FF 55`, the count byte, the payload bytes and the checksum byte. |
| `FrameCodec.FrameRejectsOddToken` | dynaudio/media_player.py:103 | A payload token of odd length makes `bytes.fromhex` raise. |
| `Sources.CodeOf` | dynaudio/media_player.py:214 | `dict.get(name)` finds a code exactly for the seven names. The code is in 1..7 and the reverse table maps it back to the name. |
| `Sources.NameOf` | dynaudio/media_player.py:133 | Subscripting the number table succeeds exactly for codes 1..7. The name found maps back to the code. |
| `Sources.SourceList` | dynaudio/media_player.py:174-176 | `source_list` holds seven distinct names: exactly the keys of the name table, in insertion order, so position `i` holds the name with code `i + 1`. |
| `Sources.TablesInverse` | dynaudio/media_player.py:74-77 | The two tables are inverse bijections between the seven names and the codes 1..7. |
| `Payloads.TurnOffPayload` | dynaudio/media_player.py:188 | The `turn_off` payload splits into `2F A0 02 01 F<zone>`. |
| `Payloads.TurnOnPayload` | dynaudio/media_player.py:194 | The `turn_on` payload splits into `2F A0 01 00 F<zone>`. |
| `Payloads.VolumeField` | dynaudio/media_player.py:200 | The volume token is a hex token whose value is the step. It is one byte token for every step below 256. |
| `Payloads.VolumePayload` | dynaudio/media_player.py:198-201 | The `set_volume_level` payload splits into `2F A0 13 <step> 5<zone>`. |
| `Payloads.MutePayload` | dynaudio/media_player.py:205 | The `mute_volume` payload splits into `2F A0 12 01 3<zone>`. |
| `Payloads.SourceField` | dynaudio/media_player.py:214 | A known name renders as `0` followed by its code, a byte token worth the code. An unknown name renders as `None`, which is not hex. |
| `Payloads.SourcePayload` | dynaudio/media_player.py:212-215 | The `select_source` payload splits into `2F A0 15 <code> 5<zone>`. |
| `Payloads.PollChannel` | dynaudio/media_player.py:124-127 | The probe's last token is `72` exactly for zone 1 and `71` exactly for every other zone. |
| `Payloads.PollPayload` | dynaudio/media_player.py:122-127 | The poll payload splits into `2F A0 12 00` and the channel token. |
| `Payloads.TurnOffText` | dynaudio/media_player.py:188 | As text, the `turn_off` payload is `2F A0 02 01 F` followed by the zone in decimal. |
| `Payloads.TurnOnText` | dynaudio/media_player.py:194 | As text, the `turn_on` payload is `2F A0 01 00 F` followed by the zone in decimal. |
| `Payloads.MuteText` | dynaudio/media_player.py:205 | As text, the `mute_volume` payload is `2F A0 12 01 3` followed by the zone in decimal. |
| `Payloads.PollText` | dynaudio/media_player.py:122-127 | The poll sends `mute_green` for zone 1 and `mute_red` otherwise. |
| `Payloads.TurnOffScenario` | dynaudio/media_player.py:188 | Turning zone 1 off sends `2F A0 02 01 F1`. |
| `Payloads.SourceScenario` | dynaudio/media_player.py:212-215 | Selecting `Optical` on zone 2 sends `2F A0 15 03 52`. |
| `Payloads.TurnOffFrame` | dynaudio/media_player.py:188 | For zones 0..9, `turn_off` puts `FF 55 05 2F A0 02 01 F<z>` and checksum `57 - z` on the wire. |
| `Payloads.TurnOnFrame` | dynaudio/media_player.py:194 | For zones 0..9, `turn_on` puts `FF 55 05 2F A0 01 00 F<z>` and checksum `59 - z` on the wire. |
| `Payloads.VolumeFrame` | dynaudio/media_player.py:198-201 | For zones 0..9 and `step + zone <= 185` (every reachable step, 0..31, qualifies), `set_volume_level` puts `FF 55 05 2F A0 13`, the step, `5<z>` and checksum `201 - step - z` on the wire. |
| `Payloads.VolumeStepByte` | dynaudio/media_player.py:198-201 | For zones 0..9 and `step + zone <= 185`, the seventh byte of the volume frame is the step. |
| `Payloads.MuteFrame` | dynaudio/media_player.py:205 | For zones 0..9, `mute_volume` puts `FF 55 05 2F A0 12 01 3<z>` and checksum `233 - z` on the wire. |
| `Payloads.SourceFrame` | dynaudio/media_player.py:212-215 | For zones 0..9 and a known source with code `c`, `select_source` puts `FF 55 05 2F A0 15`, `c`, `5<z>` and checksum `199 - c - z` on the wire. |
| `Payloads.PollFrame` | dynaudio/media_player.py:122-128 | The probes `…72` and `…71` get checksums `a8` and `a9` and frame as `FF 55 05 2F A0 12 00 72 A8` and `… 71 A9`. |
| `Payloads.PollFrames` | dynaudio/media_player.py:122-128 | Every zone's probe frames, so `update` never raises while building its command. |
| `Payloads.WideZoneFramesFail` | dynaudio/media_player.py:137 | A two-digit zone, which feedback byte 9 can install, gives a three-character last token. Then no zone template frames. |
| `Payloads.UnknownSourceFrameFails` | dynaudio/media_player.py:212-215 | For an unknown source, both the checksum and the frame fail on the token `None`. |
| `Device.Init` | dynaudio/media_player.py:65-73 | The maximum volume is clamped to at most 31 and the zone to at most 3. The controller starts off, at volume 0, unmuted, with no source, no failures and a threshold of 3. |
| `Device.SocketCommand` | dynaudio/media_player.py:97-116 | A refusal changes nothing and returns `False`. Any other error counts one failure and forces power off at the threshold. A reply resets the counter and is returned. A payload that does not frame raises `ValueError` with nothing changed. Validity is kept. |
| `Device.Level` | dynaudio/media_player.py:132 | `min(raw / max_volume, 1)` lies in [0, 1]. Times `max_volume` it gives back `raw` whenever `raw <= max_volume`. |
| `Device.Feedback` | dynaudio/media_player.py:132-137 | The decode returns exactly when the reply has at least 11 bytes, `max_volume > 0` and byte 8 is 1..7. It then sets volume, source, muted, power and zone from bytes 7, 8, 10, 6 and 9 and nothing else. Otherwise it raises `IndexError`, `ZeroDivisionError` or `KeyError` after the fields the source writes first. |
| `Device.Update` | dynaudio/media_player.py:118-138 | `update` returns `True` whenever it returns. A refusal or error leaves only the failure policy's changes. An empty reply only resets the counter. A non-empty reply is decoded. It raises only on a non-empty reply. |
| `Device.TurnOff` | dynaudio/media_player.py:186-190 | Raises exactly when the exchange succeeds and the payload does not frame. The failure counter is exactly the failure policy's, with greedy state too. With greedy state, power is off after every outcome that returns. Only power and the counter change. |
| `Device.TurnOn` | dynaudio/media_player.py:192-194 | Only the failure policy touches the fields, so power never comes on here. A raise is `ValueError` with nothing changed. |
| `Device.SetVolumeLevel` | dynaudio/media_player.py:196-201 | Only the failure policy touches the fields. The local volume waits for feedback. A raise is `ValueError` with nothing changed. |
| `Device.MuteVolume` | dynaudio/media_player.py:203-208 | Every field but `muted` is exactly what the failure policy leaves, with greedy state too. With greedy state, `muted` flips whatever the argument, but only when the call returns. Without it, only the failure policy acts. |
| `Device.SelectSource` | dynaudio/media_player.py:210-218 | Every field but the source is exactly what the failure policy leaves, with greedy state too. With greedy state, the source becomes the requested name when the call returns. Without it, only the failure policy acts. |
| `Device.State` | dynaudio/media_player.py:146-151 | `state` is `on` exactly when power is set, and `off` otherwise. |
| `Device.MediaTitle` | dynaudio/media_player.py:179-184 | The title is the source while on, and `Off` otherwise. |
| `Device.CommandsReturn` | dynaudio/media_player.py:186-218 | With a one-digit zone, a step within the maximum and a known source, no command raises, whatever the socket does. |
| `Device.WideZoneCommandsRaise` | dynaudio/media_player.py:137 | With a two-digit zone, every command raises `ValueError` once connected and leaves the fields as they were. |
| `Device.UnknownSourceOutcome` | dynaudio/media_player.py:210-218 | Selecting an unknown source raises `ValueError` once connected. When the connection fails, a greedy controller stores the unknown name. |
| `Device.MuteTwiceRestores` | dynaudio/media_player.py:203-208 | With greedy state, two mute calls that return restore `muted`, whatever their arguments. |
| `Device.VolumeRoundTrip` | dynaudio/media_player.py:132 | Feedback whose byte 7 echoes a step within the maximum sets a level that gives back the step when multiplied by `max_volume`. |
| `Device.UpdateFaults` | dynaudio/media_player.py:128-137 | `update` never raises `ValueError`. `ZeroDivisionError` needs `max_volume == 0` and `KeyError` needs an unknown byte 8. A full, well-formed reply always returns. |
| `Session.Apply` | dynaudio/media_player.py:186-218 | Every call keeps the controller valid and never changes the maximum volume, the greedy flag or the threshold. |
| `Session.Replay` | dynaudio/media_player.py:97-116 | Any sequence of calls keeps the controller valid. |
| `Session.ApplyWithoutReply` | dynaudio/media_player.py:107-114 | A call without a reply adds one failure for a socket error and none for a refusal, and never turns power on. |
| `Session.FailuresAccumulate` | dynaudio/media_player.py:107-114 | Over calls without a reply, the counter grows by the number of socket errors and power never comes on. |
| `Session.ThresholdForcesOff` | dynaudio/media_player.py:110-113 | Three socket errors, counting earlier ones, with no reply in between leave the controller reporting `off` and titled `Off`. |
| `Session.ReplyResets` | dynaudio/media_player.py:103-115 | With a reply, a call whose payload frames resets the counter. A call whose payload does not frame raises before the reset and changes nothing. |
| `Session.RefusalKeepsState` | dynaudio/media_player.py:107-109 | Without greedy state, a refused connection leaves every field as it was. |

## Error behaviour of the code

- **Unknown source code in feedback.** With at least 9 bytes and a non-zero
  `max_volume`, a byte 8 outside 1..7 makes `update` raise `KeyError`. By then
  it has already written the new volume, but not the source
  (`Device.Feedback`).
- **Short feedback.** What a reply of 1 to 10 bytes does depends on its
  length (`Device.Feedback`):
  - 1 to 7 bytes raise `IndexError` with nothing written;
  - `max_volume == 0` raises `ZeroDivisionError` first for 8 to 10 bytes,
    before anything is written;
  - 8 bytes write the volume, then raise `IndexError`;
  - 9 or 10 bytes write the volume, then raise `KeyError` when byte 8 is
    outside 1..7. Otherwise they write the source too, then raise
    `IndexError`.
- **Unknown source name.** `select_source` renders the token `None`, and
  `int(tok, 16)` raises `ValueError` once the connection is open. When the
  connection fails instead, a greedy controller stores the unknown name
  (`Device.UnknownSourceOutcome`).
- **Two-digit zone from feedback.** Every command then raises `ValueError`
  once connected (`Device.WideZoneCommandsRaise`).

## Left out

- FrameCodec.CeilDiv255: the exact integer ceiling replaces
  `math.ceil(total / 255)`, which divides in floating point. The two can
  differ for sums near 2^52 and above, and Python raises `OverflowError`
  past about 2^1024. Payload sums here stay far below both, and
  `ChecksumValue` does not depend on the ceiling.
- The socket itself: connecting, sending, the 2-second timeout, the
  1024-byte read and closing. Only the exchange's outcome is an input.
- Home Assistant glue. Left out: `PLATFORM_SCHEMA`, `setup_platform` (which
  only calls `update` and registers the entity), `name`,
  `supported_features` and logging.
- The getters `volume_level`, `is_volume_muted` and `source`. Each returns a
  field of the record unchanged.
- Host, port and name. Host and port only feed the socket. The name only
  feeds logging and the `name` property.
- Floating point. The stored volume is an exact real. `set_volume_level`
  takes the already rounded step `round(volume * max_volume)` as its
  argument, so Python's float rounding is not modelled.
- `int(tok, 16)` is modelled for plain runs of hex digits. Python also
  accepts a `0x` prefix, a sign, underscores and surrounding whitespace,
  which no payload of this controller contains. A non-digit token such as
  `None` is rejected, as in Python.
- Negative configuration values. The schema's `positive_int` admits none, so
  the maximum volume and the zone are natural numbers. Zero is kept:
  `max_volume == 0` makes the decode raise `ZeroDivisionError`.
- Zones of three digits (100..255), which feedback byte 9 can install, are
  not analysed. The last token is then four characters long and decodes to
  two bytes under a count of `05`.
- Device.VolumeRoundTrip: stated on the feedback decode. `Device.Update`'s
  contract equates a non-empty poll reply with that decode, and
  `Payloads.VolumeStepByte` shows that the step is the byte the volume frame
  carries. The quantization bound on a float level `v` is not modelled,
  because the step is taken as already rounded.
- Tokens.Split: its contract gives only the number of pieces. That no piece
  holds a space is the separate lemma `Tokens.SplitPieces`.
