/**
 * The command frame: `calculate_checksum`, `construct_command` and the
 * `bytes.fromhex` conversion that turns the framed text into the bytes sent
 * on the socket (dynaudio/media_player.py).
 */
module FrameCodec {
  import opened Wrappers
  import opened HexText
  import opened Tokens

  function Sum(vs: seq<nat>): nat
    decreases |vs|
  {
    if |vs| == 0 then 0 else vs[0] + Sum(vs[1..])
  }

  /** `math.ceil(total / 255)`, as exact integer ceiling division. */
  function CeilDiv255(total: nat): (x: nat)
    ensures total <= x * 255 < total + 255
  {
    (total + 254) / 255
  }

  /**
   * The checksum arithmetic of `calculate_checksum` over the token values:
   * `x*255 - sum - (n - x)` with `x = ceil(sum/255)`, masked with `& 255`
   * (on Python's unbounded two's-complement integers that is the
   * non-negative remainder mod 256, which is Dafny's `%`). Because
   * `x*255 + x = 256*x`, the ceiling term drops out.
   */
  function ChecksumValue(vs: seq<nat>): (c: nat)
    ensures c < 256
    ensures c == (-(Sum(vs) + |vs|)) % 256
    ensures (Sum(vs) + |vs| + c) % 256 == 0
  {
    var total := Sum(vs);
    var x := CeilDiv255(total);
    var y := -(total + |vs|);
    assert x * 255 - total - (|vs| - x) == 256 * x + y;
    ModShift(x, y);
    (x * 255 - total - (|vs| - x)) % 256
  }

  lemma ModShift(x: int, y: int)
    ensures (256 * x + y) % 256 == y % 256
  {
  }

  /** `int(tok, 16)` over every token; `None` where Python raises `ValueError`. */
  function ParseAll(ts: seq<string>): (r: Option<seq<nat>>)
    ensures r.Some? <==> forall i | 0 <= i < |ts| :: IsHexToken(ts[i])
    ensures r.Some? ==>
              && |r.value| == |ts|
              && forall i | 0 <= i < |ts| :: IsHexToken(ts[i]) && r.value[i] == HexValue(ts[i])
    decreases |ts|
  {
    if |ts| == 0 then Some([])
    else if !IsHexToken(ts[0]) then None
    else
      match ParseAll(ts[1..])
      case None => None
      case Some(rest) => Some([HexValue(ts[0])] + rest)
  }

  /** Tokens that each read as one byte parse to exactly those bytes. */
  lemma {:induction false} ParseBytes(ts: seq<string>, vs: seq<nat>)
    requires |ts| == |vs|
    requires forall i | 0 <= i < |ts| :: IsByteToken(ts[i]) && HexValue(ts[i]) == vs[i]
    ensures ParseAll(ts) == Some(vs)
    decreases |ts|
  {
    if |ts| > 0 {
      assert forall i | 0 <= i < |ts[1..]| :: ts[1..][i] == ts[i + 1] && vs[1..][i] == vs[i + 1];
      ParseBytes(ts[1..], vs[1..]);
      assert vs == [vs[0]] + vs[1..];
    }
  }

  /**
   * `calculate_checksum(payload)`: the lower-case, unpadded hex text of the
   * checksum; `None` where a token is not hex and `int()` raises.
   */
  function CalculateChecksum(payload: string): (r: Option<string>)
    ensures r.Some? <==> ParseAll(Split(payload)).Some?
    ensures r.Some? ==>
              var vs := ParseAll(Split(payload)).value;
              && IsHexToken(r.value)
              && HexValue(r.value) < 256
              && (Sum(vs) + |vs| + HexValue(r.value)) % 256 == 0
              && (|r.value| == 1 <==> HexValue(r.value) < 16)
              && (|r.value| == 2 <==> HexValue(r.value) >= 16)
    ensures r.Some? ==> forall i | 0 <= i < |r.value| :: !('A' <= r.value[i] <= 'F')
  {
    match ParseAll(Split(payload))
    case None => None
    case Some(vs) => Some(LowerHex(ChecksumValue(vs)))
  }

  /** The byte the length field decodes to: the count `n < 100` written in decimal and read as hex. */
  function CountByte(n: nat): nat {
    16 * (n / 10) + n % 10
  }

  /** The length field: the token count as decimal text, zero-filled to two characters. */
  function SizeField(payload: string): string {
    ZFill(Decimal(|Split(payload)|), 2)
  }

  /** `construct_command(payload)`: `FF 55 <count> <payload> <checksum>`. */
  function ConstructCommand(payload: string): (r: Option<string>)
    ensures r.Some? <==> CalculateChecksum(payload).Some?
    ensures r.Some? ==>
              Split(r.value) == ["FF", "55", SizeField(payload)] + Split(payload) + [CalculateChecksum(payload).value]
    ensures r.Some? ==> |Split(r.value)| == |Split(payload)| + 4
  {
    match CalculateChecksum(payload)
    case None => None
    case Some(cs) =>
      var cmd := "FF 55" + " " + SizeField(payload) + " " + payload + " " + cs;
      CommandShape(payload, cs);
      Some(cmd)
  }

  lemma CommandShape(payload: string, cs: string)
    requires AllHexDigits(cs)
    ensures Split("FF 55" + " " + SizeField(payload) + " " + payload + " " + cs)
            == ["FF", "55", SizeField(payload)] + Split(payload) + [cs]
  {
    var size := SizeField(payload);
    SizeFieldDigits(payload);
    assert ' ' !in cs by { assert forall i | 0 <= i < |cs| :: IsHexDigit(cs[i]); }
    SplitNoSpace(size);
    SplitNoSpace(cs);
    PrefixSplit();
    var a := "FF 55" + " " + size;
    SplitAppend("FF 55", size);
    assert Split(a) == ["FF", "55", size];
    var b := a + " " + payload;
    SplitAppend(a, payload);
    assert Split(b) == ["FF", "55", size] + Split(payload);
    SplitAppend(b, cs);
  }

  lemma PrefixSplit()
    ensures Split("FF 55") == ["FF", "55"]
  {
    SplitNoSpace("FF");
    SplitNoSpace("55");
    SplitAppend("FF", "55");
    assert "FF 55" == "FF" + " " + "55";
  }

  lemma SizeFieldDigits(payload: string)
    ensures IsHexToken(SizeField(payload)) && ' ' !in SizeField(payload)
  {
    var d := Decimal(|Split(payload)|);
    DecimalDigitsAreHex(d);
    ZFillHexValue(d, 2);
    var size := SizeField(payload);
    assert forall i | 0 <= i < |size| :: IsHexDigit(size[i]);
  }

  /** The whitespace `bytes.fromhex` skips between byte pairs: ASCII space, \t, \n, \v, \f, \r. */
  predicate IsSpace(c: char) {
    c == ' ' || c == '\t' || c == '\n' || c == '\r' || c as int == 11 || c as int == 12
  }

  predicate NoWhitespace(t: string) {
    forall i | 0 <= i < |t| :: !IsSpace(t[i])
  }

  /** The characters of `s` that are not whitespace, in order. */
  function Dense(s: string): string
    decreases |s|
  {
    if |s| == 0 then [] else (if IsSpace(s[0]) then [] else [s[0]]) + Dense(s[1..])
  }

  /** The byte two hex digits spell, high digit first; 0 for anything else. */
  function PairByte(a: char, b: char): byte {
    if IsHexDigit(a) && IsHexDigit(b) then DigitValue(a) * 16 + DigitValue(b) else 0
  }

  /** A run of hex digits read two at a time (a last odd digit is dropped). */
  function Pairs(t: string): seq<byte>
    decreases |t|
  {
    if |t| < 2 then [] else [PairByte(t[0], t[1])] + Pairs(t[2..])
  }

  /** Two leading digits come first among the non-whitespace characters. */
  lemma DenseTwo(s: string)
    requires |s| >= 2 && IsHexDigit(s[0]) && IsHexDigit(s[1])
    ensures Dense(s) == [s[0], s[1]] + Dense(s[2..])
  {
    assert s[1..][1..] == s[2..];
  }

  /** Reading two more digits in front of an even hex run. */
  lemma PairsCons(a: char, b: char, t: string)
    ensures Pairs([a, b] + t) == [PairByte(a, b)] + Pairs(t)
  {
    var u := [a, b] + t;
    assert u[0] == a && u[1] == b && u[2..] == t;
  }

  lemma HexCons(a: char, b: char, t: string)
    requires IsHexDigit(a) && IsHexDigit(b) && AllHexDigits(t)
    ensures AllHexDigits([a, b] + t)
  {
    var u := [a, b] + t;
    forall i | 0 <= i < |u| ensures IsHexDigit(u[i]) {
      if i >= 2 { assert u[i] == t[i - 2]; }
    }
  }

  /**
   * `bytes.fromhex(s)`: skips whitespace and reads two hex digits per byte;
   * `None` where Python raises `ValueError` (a lone digit or any other
   * character). A byte's two digits may not be split by whitespace.
   */
  function FromHex(s: string): (r: Option<seq<byte>>)
    ensures r.Some? ==> 2 * |r.value| <= |s|
    decreases |s|
  {
    if |s| == 0 then Some([])
    else if IsSpace(s[0]) then FromHex(s[1..])
    else if |s| >= 2 && IsHexDigit(s[0]) && IsHexDigit(s[1]) then
      match FromHex(s[2..])
      case None => None
      case Some(rest) => Some([DigitValue(s[0]) * 16 + DigitValue(s[1])] + rest)
    else None
  }

  /**
   * What a successful `bytes.fromhex` read: the characters other than
   * whitespace form an even run of hex digits, and the bytes are those
   * digits taken in pairs. So a lone digit or any other character raises.
   */
  lemma {:induction false} FromHexReads(s: string)
    ensures FromHex(s).Some? ==> ReadsPairs(s, FromHex(s).value)
    decreases |s|
  {
    if |s| == 0 {
    } else if IsSpace(s[0]) {
      FromHexReads(s[1..]);
      ReadsAfterSpace(s);
    } else if |s| >= 2 && IsHexDigit(s[0]) && IsHexDigit(s[1]) && FromHex(s[2..]).Some? {
      FromHexReads(s[2..]);
      ReadsAfterPair(s);
    }
  }

  /** The non-whitespace characters of `s` are an even hex run whose pairs are `bs`. */
  predicate ReadsPairs(s: string, bs: seq<byte>) {
    |Dense(s)| % 2 == 0 && AllHexDigits(Dense(s)) && bs == Pairs(Dense(s))
  }

  lemma ReadsAfterSpace(s: string)
    requires |s| > 0 && IsSpace(s[0])
    requires FromHex(s[1..]).Some? ==> ReadsPairs(s[1..], FromHex(s[1..]).value)
    ensures FromHex(s).Some? ==> ReadsPairs(s, FromHex(s).value)
  {
    assert FromHex(s) == FromHex(s[1..]);
    assert Dense(s) == Dense(s[1..]);
  }

  lemma ReadsAfterPair(s: string)
    requires |s| >= 2 && IsHexDigit(s[0]) && IsHexDigit(s[1]) && FromHex(s[2..]).Some?
    requires ReadsPairs(s[2..], FromHex(s[2..]).value)
    ensures FromHex(s).Some? && ReadsPairs(s, FromHex(s).value)
  {
    var rest := FromHex(s[2..]).value;
    assert FromHex(s) == Some([PairByte(s[0], s[1])] + rest);
    DensePair(s);
  }

  /** Two leading hex digits add one byte in front of the pairs of the rest. */
  lemma DensePair(s: string)
    requires |s| >= 2 && IsHexDigit(s[0]) && IsHexDigit(s[1])
    requires |Dense(s[2..])| % 2 == 0 && AllHexDigits(Dense(s[2..]))
    ensures |Dense(s)| % 2 == 0 && AllHexDigits(Dense(s))
    ensures Pairs(Dense(s)) == [PairByte(s[0], s[1])] + Pairs(Dense(s[2..]))
  {
    DenseEven(s);
    DenseHex(s);
    PairsStep(s);
  }

  lemma DenseEven(s: string)
    requires |s| >= 2 && IsHexDigit(s[0]) && IsHexDigit(s[1])
    requires |Dense(s[2..])| % 2 == 0
    ensures |Dense(s)| % 2 == 0
  {
    DenseTwo(s);
  }

  lemma DenseHex(s: string)
    requires |s| >= 2 && IsHexDigit(s[0]) && IsHexDigit(s[1])
    requires AllHexDigits(Dense(s[2..]))
    ensures AllHexDigits(Dense(s))
  {
    DenseTwo(s);
    HexCons(s[0], s[1], Dense(s[2..]));
  }

  lemma PairsStep(s: string)
    requires |s| >= 2 && IsHexDigit(s[0]) && IsHexDigit(s[1])
    ensures Pairs(Dense(s)) == [PairByte(s[0], s[1])] + Pairs(Dense(s[2..]))
  {
    DenseTwo(s);
    PairsCons(s[0], s[1], Dense(s[2..]));
  }

  function Concat(a: Option<seq<byte>>, b: Option<seq<byte>>): Option<seq<byte>> {
    if a.Some? && b.Some? then Some(a.value + b.value) else None
  }

  /** Decoding distributes over a separating space. */
  lemma {:induction false} FromHexSpace(a: string, b: string)
    ensures FromHex(a + " " + b) == Concat(FromHex(a), FromHex(b))
    decreases |a|
  {
    var s := a + " " + b;
    if |a| == 0 {
      assert s[0] == ' ' && s[1..] == b;
      assert FromHex(s) == FromHex(b);
      if FromHex(b).Some? {
        assert [] + FromHex(b).value == FromHex(b).value;
      }
    } else if IsSpace(a[0]) {
      assert s[0] == a[0] && s[1..] == a[1..] + " " + b;
      FromHexSpace(a[1..], b);
    } else if |a| >= 2 && IsHexDigit(a[0]) && IsHexDigit(a[1]) {
      FromHexSpace(a[2..], b);
      PairSpace(a, b);
    } else if |a| == 1 {
      assert s[0] == a[0] && s[1] == ' ';
    } else {
      assert s[0] == a[0] && s[1] == a[1];
    }
  }

  /** One step of `FromHexSpace`: a leading hex pair is decoded the same with or without the suffix. */
  lemma PairSpace(a: string, b: string)
    requires |a| >= 2 && IsHexDigit(a[0]) && IsHexDigit(a[1])
    requires FromHex(a[2..] + " " + b) == Concat(FromHex(a[2..]), FromHex(b))
    ensures FromHex(a + " " + b) == Concat(FromHex(a), FromHex(b))
  {
    var s := a + " " + b;
    DropPair(a, b);
    HeadPair(s);
    HeadPair(a);
    var v: byte := DigitValue(a[0]) * 16 + DigitValue(a[1]);
    if FromHex(a[2..]).Some? && FromHex(b).Some? {
      var ra, rb := FromHex(a[2..]).value, FromHex(b).value;
      Associative([v], ra, rb);
    }
  }

  lemma Associative(x: seq<byte>, y: seq<byte>, z: seq<byte>)
    ensures x + (y + z) == (x + y) + z
  {
  }

  /** A leading hex pair is one byte in front of the rest's decoding. */
  lemma HeadPair(s: string)
    requires |s| >= 2 && IsHexDigit(s[0]) && IsHexDigit(s[1])
    ensures FromHex(s) == Concat(Some([DigitValue(s[0]) * 16 + DigitValue(s[1])]), FromHex(s[2..]))
  {
    assert !IsSpace(s[0]);
  }

  lemma DropPair(a: string, b: string)
    requires |a| >= 2
    ensures var s := a + " " + b; s[0] == a[0] && s[1] == a[1] && s[2..] == a[2..] + " " + b
  {
  }

  /** A whitespace-free token decodes exactly when it is an even run of hex digits. */
  lemma {:induction false} FromHexToken(t: string)
    requires NoWhitespace(t)
    ensures FromHex(t).Some? <==> |t| % 2 == 0 && AllHexDigits(t)
    ensures IsByteToken(t) ==> FromHex(t) == Some([HexValue(t)])
    decreases |t|
  {
    if |t| >= 2 {
      assert NoWhitespace(t[2..]) by {
        forall i | 0 <= i < |t[2..]| ensures !IsSpace(t[2..][i]) { assert t[2..][i] == t[i + 2]; }
      }
      FromHexToken(t[2..]);
      if IsHexDigit(t[0]) && IsHexDigit(t[1]) && AllHexDigits(t[2..]) {
        assert AllHexDigits(t) by {
          forall i | 0 <= i < |t| ensures IsHexDigit(t[i]) {
            if i >= 2 { assert t[i] == t[2..][i - 2]; }
          }
        }
      }
      if AllHexDigits(t) {
        assert AllHexDigits(t[2..]) by {
          forall i | 0 <= i < |t[2..]| ensures IsHexDigit(t[2..][i]) { assert t[2..][i] == t[i + 2]; }
        }
      }
      if IsByteToken(t) {
        assert t[..1] == [t[0]] && t[..1][..0] == [];
        assert HexValue(t[..1]) == DigitValue(t[0]);
        assert HexValue(t) == DigitValue(t[0]) * 16 + DigitValue(t[1]);
        assert t[2..] == [];
        assert FromHex(t[2..]) == Some([]);
        var v: byte := DigitValue(t[0]) * 16 + DigitValue(t[1]);
        var e: seq<byte> := [];
        assert FromHex(t) == Some([v] + e);
        assert [v] + e == [v];
      }
    } else if |t| == 1 {
      assert !IsSpace(t[0]);
    }
  }

  /** A token that fails to decode makes the whole joined text fail. */
  lemma {:induction false} FromHexJoinFails(ts: seq<string>, i: nat)
    requires i < |ts| && FromHex(ts[i]).None?
    ensures FromHex(Join(ts)).None?
    decreases |ts|
  {
    if |ts| > 1 {
      FromHexSpace(ts[0], Join(ts[1..]));
      if i > 0 {
        assert ts[1..][i - 1] == ts[i];
        FromHexJoinFails(ts[1..], i - 1);
      }
    }
  }

  /** Byte tokens joined by spaces decode to their values. */
  lemma {:induction false} FromHexJoin(ts: seq<string>)
    requires |ts| > 0 && forall i | 0 <= i < |ts| :: IsByteToken(ts[i])
    ensures ParseAll(ts).Some? && FromHex(Join(ts)) == Some(ParseAll(ts).value)
    decreases |ts|
  {
    assert IsByteToken(ts[0]);
    assert NoWhitespace(ts[0]) by {
      forall j | 0 <= j < |ts[0]| ensures !IsSpace(ts[0][j]) { assert IsHexDigit(ts[0][j]); }
    }
    FromHexToken(ts[0]);
    if |ts| > 1 {
      assert forall i | 0 <= i < |ts[1..]| :: ts[1..][i] == ts[i + 1];
      FromHexJoin(ts[1..]);
      FromHexSpace(ts[0], Join(ts[1..]));
    }
  }

  /**
   * The bytes the socket would carry for `payload`: `bytes.fromhex(construct_command(payload))`,
   * `None` where either step raises `ValueError`.
   */
  function Frame(payload: string): (r: Option<seq<byte>>)
    ensures r.Some? ==> CalculateChecksum(payload).Some? && FromHex(payload).Some?
    ensures r.Some? ==> |r.value| >= 2 && r.value[..2] == [0xFF, 0x55]
  {
    match ConstructCommand(payload)
    case None => None
    case Some(cmd) =>
      CommandDecomposes(payload);
      FromHex(cmd)
  }

  /** Only the length field and the payload are decoded here; the checksum is added by the callers. */
  lemma FrameDecomposes(payload: string)
    requires ConstructCommand(payload).Some?
    ensures var cs := CalculateChecksum(payload).value;
            Frame(payload) == Concat(Concat(Concat(Some([0xFF, 0x55]), FromHex(SizeField(payload))), FromHex(payload)), FromHex(cs))
  {
    CommandDecomposes(payload);
  }

  /** The command text decodes part by part: prefix, count, payload, checksum. */
  lemma CommandDecomposes(payload: string)
    requires ConstructCommand(payload).Some?
    ensures var cs := CalculateChecksum(payload).value;
            FromHex(ConstructCommand(payload).value)
            == Concat(Concat(Concat(Some([0xFF, 0x55]), FromHex(SizeField(payload))), FromHex(payload)), FromHex(cs))
  {
    var cs := CalculateChecksum(payload).value;
    var size := SizeField(payload);
    var a := "FF 55" + " " + size;
    var b := a + " " + payload;
    assert ConstructCommand(payload).value == b + " " + cs;
    FromHexSpace(b, cs);
    FromHexSpace(a, payload);
    FromHexSpace("FF 55", size);
    PrefixFromHex();
  }

  lemma PrefixFromHex()
    ensures FromHex("FF 55") == Some([0xFF, 0x55])
  {
    FromHexSpace("FF", "55");
    assert "FF 55" == "FF" + " " + "55";
    var e: seq<byte> := [];
    assert FromHex("FF") == Some([0xFF]) by {
      assert "FF"[2..] == "";
      assert FromHex("FF") == Some([0xFF] + e);
      assert [0xFF] + e == [0xFF];
    }
    assert FromHex("55") == Some([0x55]) by {
      assert "55"[2..] == "";
      assert FromHex("55") == Some([0x55] + e);
      assert [0x55] + e == [0x55];
    }
    var ff: seq<byte> := [0xFF];
    var fv: seq<byte> := [0x55];
    assert ff + fv == [0xFF, 0x55];
  }

  /**
   * A payload of byte tokens (fewer than 100) frames as
   * `FF 55 <count> <payload bytes> <checksum>` exactly when its checksum is at
   * least 16; below that `hex()` gives one digit and `bytes.fromhex` raises.
   * The count is written in decimal and read as hex, so it equals the token
   * count only below 10.
   */
  lemma WireFrame(payload: string)
    requires |Split(payload)| < 100
    requires forall i | 0 <= i < |Split(payload)| :: IsByteToken(Split(payload)[i])
    ensures ParseAll(Split(payload)).Some?
    ensures var vs := ParseAll(Split(payload)).value;
            var n := |Split(payload)|;
            var cs := ChecksumValue(vs);
            && (Frame(payload).Some? <==> cs >= 16)
            && (cs >= 16 ==> Frame(payload).value == [0xFF, 0x55, CountByte(n)] + vs + [cs])
  {
    var b, vs, c := FrameParts(payload);
    FrameFromParts(payload, b, vs, c);
  }

  /** What each part of the frame of a byte-token payload decodes to. */
  lemma FrameParts(payload: string) returns (b: byte, vs: seq<nat>, c: byte)
    requires |Split(payload)| < 100
    requires forall i | 0 <= i < |Split(payload)| :: IsByteToken(Split(payload)[i])
    ensures ParseAll(Split(payload)) == Some(vs) && c == ChecksumValue(vs)
    ensures b == CountByte(|Split(payload)|)
    ensures CalculateChecksum(payload) == Some(LowerHex(c))
    ensures FromHex(SizeField(payload)) == Some([b]) && FromHex(payload) == Some(vs)
    ensures FromHex(LowerHex(c)).Some? <==> c >= 16
    ensures c >= 16 ==> FromHex(LowerHex(c)) == Some([c])
  {
    PayloadBytes(payload);
    b := SizeFieldByte(payload);
    ChecksumBytes(payload);
    vs := ParseAll(Split(payload)).value;
    c := ChecksumValue(vs);
  }

  /** The frame, from what each of its four parts decodes to. */
  lemma FrameFromParts(payload: string, b: byte, vs: seq<nat>, c: byte)
    requires CalculateChecksum(payload) == Some(LowerHex(c))
    requires FromHex(SizeField(payload)) == Some([b]) && FromHex(payload) == Some(vs)
    requires FromHex(LowerHex(c)).Some? <==> c >= 16
    requires c >= 16 ==> FromHex(LowerHex(c)) == Some([c])
    ensures Frame(payload).Some? <==> c >= 16
    ensures c >= 16 ==> Frame(payload).value == [0xFF, 0x55, b] + vs + [c]
  {
    FrameDecomposes(payload);
    AssembleFrame(FromHex(SizeField(payload)), FromHex(payload), FromHex(LowerHex(c)), b, vs, c);
  }

  /** The four decoded parts of a frame put together. */
  lemma AssembleFrame(size: Option<seq<byte>>, body: Option<seq<byte>>, tail: Option<seq<byte>>, s: byte, vs: seq<nat>, c: byte)
    requires size == Some([s]) && body == Some(vs)
    requires tail.Some? <==> c >= 16
    requires c >= 16 ==> tail == Some([c])
    ensures var f := Concat(Concat(Concat(Some([0xFF, 0x55]), size), body), tail);
            && (f.Some? <==> c >= 16)
            && (c >= 16 ==> f.value == [0xFF, 0x55, s] + vs + [c])
  {
    var ff: seq<byte> := [0xFF, 0x55];
    var sz: seq<byte> := [s];
    assert ff + sz == [0xFF, 0x55, s];
  }

  /** The payload's own bytes: one per byte token. */
  lemma PayloadBytes(payload: string)
    requires forall i | 0 <= i < |Split(payload)| :: IsByteToken(Split(payload)[i])
    ensures ParseAll(Split(payload)).Some?
    ensures FromHex(payload) == Some(ParseAll(Split(payload)).value)
  {
    FromHexJoin(Split(payload));
    JoinSplit(payload);
  }

  /** The length field decodes to one byte: the decimal digits of the count read as hex. */
  lemma SizeFieldByte(payload: string) returns (b: byte)
    requires |Split(payload)| < 100
    ensures b == CountByte(|Split(payload)|)
    ensures FromHex(SizeField(payload)) == Some([b])
  {
    DecimalAsHex(|Split(payload)|);
    FromHexToken(SizeField(payload));
    b := 16 * (|Split(payload)| / 10) + |Split(payload)| % 10;
  }

  /** The checksum text decodes to its byte exactly when it has two digits. */
  lemma ChecksumBytes(payload: string)
    requires ParseAll(Split(payload)).Some?
    ensures var cs := ChecksumValue(ParseAll(Split(payload)).value);
            && CalculateChecksum(payload) == Some(LowerHex(cs))
            && (FromHex(LowerHex(cs)).Some? <==> cs >= 16)
            && (cs >= 16 ==> FromHex(LowerHex(cs)) == Some([cs]))
  {
    var cs := LowerHex(ChecksumValue(ParseAll(Split(payload)).value));
    assert NoWhitespace(cs) by {
      forall j | 0 <= j < |cs| ensures !IsSpace(cs[j]) { assert IsHexDigit(cs[j]); }
    }
    FromHexToken(cs);
  }

  /** An odd-length token without whitespace in the payload makes framing raise. */
  lemma FrameRejectsOddToken(payload: string, i: nat)
    requires i < |Split(payload)|
    requires NoWhitespace(Split(payload)[i]) && |Split(payload)[i]| % 2 == 1
    ensures Frame(payload).None?
  {
    var ts := Split(payload);
    if ConstructCommand(payload).Some? {
      FromHexToken(ts[i]);
      FromHexJoinFails(ts, i);
      JoinSplit(payload);
      FrameDecomposes(payload);
    }
  }
}
