/**
 * The URL- and filename-safe base64 alphabet of section 5 of RFC 4648, as
 * Python's `base64.urlsafe_b64encode` and `base64.urlsafe_b64decode` apply it.
 *
 * Encoding emits four characters per three bytes and pads the last group
 * with '='. Decoding maps '-' and '_' to '+' and '/' and then runs CPython's
 * non-strict `binascii.a2b_base64`. That decoder skips every character outside
 * the alphabet, stops at the padding that completes a group, and rejects input
 * that ends part-way through a group.
 */
module Base64Url {
  import opened Wrappers

  type Byte = x: int | 0 <= x < 256
  type Sextet = x: int | 0 <= x < 64

  /** The character for a six-bit value in the URL-safe alphabet. */
  function SextetChar(v: Sextet): char {
    if v < 26 then ('A' as int + v) as char
    else if v < 52 then ('a' as int + (v - 26)) as char
    else if v < 62 then ('0' as int + (v - 52)) as char
    else if v == 62 then '-'
    else '_'
  }

  /** The decoder's table: both the standard and the URL-safe characters for 62 and 63. */
  function SextetOf(c: char): Option<Sextet> {
    if 'A' <= c <= 'Z' then Some(c as int - 'A' as int)
    else if 'a' <= c <= 'z' then Some(c as int - 'a' as int + 26)
    else if '0' <= c <= '9' then Some(c as int - '0' as int + 52)
    else if c == '+' || c == '-' then Some(62)
    else if c == '/' || c == '_' then Some(63)
    else None
  }

  lemma SextetRoundTrip(v: Sextet)
    ensures SextetOf(SextetChar(v)) == Some(v)
  {
  }

  /** `urlsafe_b64encode(data).decode()`. */
  function Encode(data: seq<Byte>): (r: string)
    ensures |r| == 4 * ((|data| + 2) / 3)
    decreases |data|
  {
    if |data| == 0 then ""
    else if |data| == 1 then
      [SextetChar(data[0] / 4), SextetChar((data[0] % 4) * 16), '=', '=']
    else if |data| == 2 then
      [SextetChar(data[0] / 4), SextetChar((data[0] % 4) * 16 + data[1] / 16), SextetChar((data[1] % 16) * 4), '=']
    else
      Group(data[0], data[1], data[2]) + Encode(data[3..])
  }

  function Group(a: Byte, b: Byte, c: Byte): string {
    [SextetChar(a / 4), SextetChar((a % 4) * 16 + b / 16), SextetChar((b % 16) * 4 + c / 64), SextetChar(c % 64)]
  }

  /**
   * The decoder's state: the position in the current group of four, the bits
   * carried from the previous character, the '=' seen since the last data
   * character, and the bytes produced so far.
   */
  datatype DecodeState = DecodeState(quadPos: nat, left: nat, pads: nat, out: seq<Byte>)

  /** One data character fed to the decoder. */
  function Feed(st: DecodeState, v: Sextet): DecodeState
    requires st.quadPos < 4 && st.left < 64
  {
    if st.quadPos == 0 then DecodeState(1, v, 0, st.out)
    else if st.quadPos == 1 then DecodeState(2, v % 16, 0, st.out + [Trunc(st.left * 4 + v / 16)])
    else if st.quadPos == 2 then DecodeState(3, v % 4, 0, st.out + [Trunc(st.left * 16 + v / 4)])
    else DecodeState(0, 0, 0, st.out + [Trunc(st.left * 64 + v)])
  }

  /** The C decoder writes into an `unsigned char`. */
  function Trunc(x: nat): Byte { x % 256 }

  predicate WellFormed(st: DecodeState) {
    st.quadPos < 4 && st.left < 64
  }

  /** `a2b_base64(s, strict_mode=False)` from state `st`; `None` where it raises `binascii.Error`. */
  function Run(s: string, st: DecodeState): Option<seq<Byte>>
    requires WellFormed(st)
    decreases |s|
  {
    if s == [] then
      if st.quadPos == 0 then Some(st.out) else None
    else if s[0] == '=' then
      if st.quadPos >= 2 && st.quadPos + st.pads + 1 >= 4 then Some(st.out)
      else Run(s[1..], st.(pads := st.pads + 1))
    else
      match SextetOf(s[0])
      case None => Run(s[1..], st)
      case Some(v) => Run(s[1..], Feed(st, v))
  }

  /** `urlsafe_b64decode(s.encode())`. Non-ASCII characters encode to bytes the decoder skips. */
  function Decode(s: string): Option<seq<Byte>> {
    Run(s, DecodeState(0, 0, 0, []))
  }

  /** A data character feeds its value to the decoder. */
  lemma RunData(c: char, rest: string, st: DecodeState)
    requires WellFormed(st) && SextetOf(c).Some?
    ensures Run([c] + rest, st) == Run(rest, Feed(st, SextetOf(c).value))
  {
    assert ([c] + rest)[1..] == rest;
  }

  /** A '=' that completes a group ends the decode. */
  lemma RunFinalPad(rest: string, st: DecodeState)
    requires WellFormed(st) && st.quadPos >= 2 && st.quadPos + st.pads + 1 >= 4
    ensures Run("=" + rest, st) == Some(st.out)
  {
  }

  /** A '=' that does not yet complete a group is counted and skipped. */
  lemma RunPendingPad(rest: string, st: DecodeState)
    requires WellFormed(st) && !(st.quadPos >= 2 && st.quadPos + st.pads + 1 >= 4)
    ensures Run("=" + rest, st) == Run(rest, st.(pads := st.pads + 1))
  {
    PadStep("=" + rest, st);
  }

  /** One step of the decoder on a '=' that does not complete a group. */
  lemma PadStep(s: string, st: DecodeState)
    requires WellFormed(st) && s != [] && s[0] == '=' && !(st.quadPos >= 2 && st.quadPos + st.pads + 1 >= 4)
    ensures Run(s, st) == Run(s[1..], st.(pads := st.pads + 1))
  {
  }

  /** The three decoder steps that rebuild two bytes split over three sextets. */
  lemma Feed2(a: Byte, b: Byte, out: seq<Byte>)
    ensures var s1 := Feed(DecodeState(0, 0, 0, out), a / 4);
      var s2 := Feed(s1, (a % 4) * 16 + b / 16);
      s2 == DecodeState(2, b / 16, 0, out + [a])
  {
    var v: Sextet := (a % 4) * 16 + b / 16;
    assert v / 16 == a % 4 && v % 16 == b / 16;
  }

  /** The third sextet of a group completes its second byte. */
  lemma Feed3(b: Byte, c: Byte, out: seq<Byte>)
    ensures Feed(DecodeState(2, b / 16, 0, out), (b % 16) * 4 + c / 64) == DecodeState(3, c / 64, 0, out + [b])
  {
    var v: Sextet := (b % 16) * 4 + c / 64;
    assert v / 4 == b % 16 && v % 4 == c / 64;
  }

  /** The fourth sextet of a group completes its third byte and starts a new group. */
  lemma Feed4(c: Byte, out: seq<Byte>)
    ensures Feed(DecodeState(3, c / 64, 0, out), c % 64) == DecodeState(0, 0, 0, out + [c])
  {
  }

  /** Decoding one encoded group appends its three bytes and returns to the start of a group. */
  lemma GroupDecodes(a: Byte, b: Byte, c: Byte, rest: string, out: seq<Byte>)
    ensures Run(Group(a, b, c) + rest, DecodeState(0, 0, 0, out)) == Run(rest, DecodeState(0, 0, 0, out + [a, b, c]))
  {
    var v1: Sextet, v2: Sextet, v3: Sextet, v4: Sextet := a / 4, (a % 4) * 16 + b / 16, (b % 16) * 4 + c / 64, c % 64;
    var g := Group(a, b, c);
    SextetRoundTrip(v1);
    SextetRoundTrip(v2);
    SextetRoundTrip(v3);
    SextetRoundTrip(v4);
    assert g + rest == [g[0]] + ([g[1]] + ([g[2]] + ([g[3]] + rest)));
    var s0 := DecodeState(0, 0, 0, out);
    Feed2(a, b, out);
    var s2 := DecodeState(2, b / 16, 0, out + [a]);
    Feed3(b, c, out + [a]);
    var s3 := DecodeState(3, c / 64, 0, out + [a] + [b]);
    Feed4(c, out + [a] + [b]);
    assert out + [a] + [b] + [c] == out + [a, b, c];
    RunData(g[0], [g[1]] + ([g[2]] + ([g[3]] + rest)), s0);
    RunData(g[1], [g[2]] + ([g[3]] + rest), Feed(s0, v1));
    RunData(g[2], [g[3]] + rest, s2);
    RunData(g[3], rest, s3);
  }

  /** The last group of a one-byte tail: two characters and "==". */
  lemma OneByteTailDecodes(a: Byte, out: seq<Byte>)
    ensures Run(Encode([a]), DecodeState(0, 0, 0, out)) == Some(out + [a])
  {
    var v1: Sextet, v2: Sextet := a / 4, (a % 4) * 16;
    SextetRoundTrip(v1);
    SextetRoundTrip(v2);
    var e := Encode([a]);
    assert e == [e[0]] + ([e[1]] + ("=" + "="));
    var s1 := DecodeState(1, v1, 0, out);
    var s2 := DecodeState(2, 0, 0, out + [a]);
    assert Feed(s1, v2) == s2;
    RunData(e[0], [e[1]] + ("=" + "="), DecodeState(0, 0, 0, out));
    RunData(e[1], "=" + "=", s1);
    RunPendingPad("=", s2);
    RunFinalPad("", s2.(pads := 1));
  }

  /** The last group of a two-byte tail: three characters and "=". */
  lemma TwoByteTailDecodes(a: Byte, b: Byte, out: seq<Byte>)
    ensures Run(Encode([a, b]), DecodeState(0, 0, 0, out)) == Some(out + [a, b])
  {
    var v1: Sextet, v2: Sextet, v3: Sextet := a / 4, (a % 4) * 16 + b / 16, (b % 16) * 4;
    SextetRoundTrip(v1);
    SextetRoundTrip(v2);
    SextetRoundTrip(v3);
    var c1, c2, c3 := SextetChar(v1), SextetChar(v2), SextetChar(v3);
    TwoByteTailChars(a, b);
    Feed2(a, b, out);
    Feed3Tail(b, out + [a]);
    var s0 := DecodeState(0, 0, 0, out);
    var s2 := DecodeState(2, b / 16, 0, out + [a]);
    var s3 := DecodeState(3, 0, 0, out + [a] + [b]);
    RunData(c1, [c2] + ([c3] + "="), s0);
    RunData(c2, [c3] + "=", Feed(s0, v1));
    RunData(c3, "=", s2);
    RunFinalPad("", s3);
    assert out + [a] + [b] == out + [a, b];
  }

  lemma TwoByteTailChars(a: Byte, b: Byte)
    ensures Encode([a, b]) == [SextetChar(a / 4)] + ([SextetChar((a % 4) * 16 + b / 16)] + ([SextetChar((b % 16) * 4)] + "="))
  {
  }

  /** The third sextet of a two-byte tail completes its second byte. */
  lemma Feed3Tail(b: Byte, out: seq<Byte>)
    ensures Feed(DecodeState(2, b / 16, 0, out), (b % 16) * 4) == DecodeState(3, 0, 0, out + [b])
  {
    var v: Sextet := (b % 16) * 4;
    assert v / 4 == b % 16 && v % 4 == 0;
  }

  lemma {:induction false} EncodeDecodes(data: seq<Byte>, out: seq<Byte>)
    ensures Run(Encode(data), DecodeState(0, 0, 0, out)) == Some(out + data)
    decreases |data|
  {
    if |data| == 0 {
      assert out + data == out;
    } else if |data| == 1 {
      assert data == [data[0]];
      OneByteTailDecodes(data[0], out);
    } else if |data| == 2 {
      assert data == [data[0], data[1]];
      TwoByteTailDecodes(data[0], data[1], out);
    } else if |data| >= 3 {
      var a, b, c, rest := data[0], data[1], data[2], data[3..];
      assert data == [a, b, c] + rest;
      assert Encode(data) == Group(a, b, c) + Encode(rest);
      GroupDecodes(a, b, c, Encode(rest), out);
      EncodeDecodes(rest, out + [a, b, c]);
      assert out + [a, b, c] + rest == out + data;
    }
  }

  /** `urlsafe_b64decode(urlsafe_b64encode(b)) == b`. */
  lemma RoundTrip(data: seq<Byte>)
    ensures Decode(Encode(data)) == Some(data)
  {
    EncodeDecodes(data, []);
    assert [] + data == data;
  }

  /** The encoder emits only URL-safe characters and '='. */
  lemma {:induction false} EncodeAlphabet(data: seq<Byte>)
    ensures forall i :: 0 <= i < |Encode(data)| ==> Encode(data)[i] == '=' || SextetOf(Encode(data)[i]).Some?
    decreases |data|
  {
    if |data| >= 3 {
      EncodeAlphabet(data[3..]);
      var a, b, c := data[0], data[1], data[2];
      SextetRoundTrip(a / 4);
      SextetRoundTrip((a % 4) * 16 + b / 16);
      SextetRoundTrip((b % 16) * 4 + c / 64);
      SextetRoundTrip(c % 64);
    } else if |data| == 2 {
      SextetRoundTrip(data[0] / 4);
      SextetRoundTrip((data[0] % 4) * 16 + data[1] / 16);
      SextetRoundTrip((data[1] % 16) * 4);
    } else if |data| == 1 {
      SextetRoundTrip(data[0] / 4);
      SextetRoundTrip((data[0] % 4) * 16);
    }
  }

  /** A single data character is an invalid length: it cannot be one more than a multiple of four. */
  lemma LoneCharacterRejected(c: char)
    requires SextetOf(c).Some?
    ensures Decode([c]).None?
  {
    RunData(c, "", DecodeState(0, 0, 0, []));
    assert [c] + "" == [c];
  }

  /** Input that stops part-way through a group without padding raises "Incorrect padding". */
  lemma MissingPaddingRejected()
    ensures Decode("QQ").None? && Decode("QUI").None?
    ensures Decode("QQ==") == Some([65]) && Decode("QUI=") == Some([65, 66])
  {
    RoundTrip([65]);
    RoundTrip([65, 66]);
    assert Encode([65]) == "QQ==" && Encode([65, 66]) == "QUI=";
    var s0 := DecodeState(0, 0, 0, []);
    RunData('Q', "Q", s0);
    RunData('Q', "", Feed(s0, 16));
    RunData('Q', "UI", s0);
    RunData('U', "I", Feed(s0, 16));
    RunData('I', "", Feed(Feed(s0, 16), 20));
  }
}
