/**
 The pure parts of the colour browser's display: the two-character binary
 rendering of a channel (uint2str), the label written into the text buffer,
 a decoder that reads the channel values back out of a label, the fill colour
 and its ARGB byte, and the selection-box frame chosen by the channel index.
 */
module Display {

  /** The C type uint8_t. */
  type UInt8 = x: int | 0 <= x < 0x100

  /** CHANNEL_MAX: the largest value of a two-bit colour channel. */
  const ChannelMax: UInt8 := 3

  /** ALPHA: the fill colour is always fully opaque. */
  const Alpha: UInt8 := ChannelMax

  /** Channel indices R, G and B. */
  const Red: UInt8 := 0
  const Green: UInt8 := 1
  const Blue: UInt8 := 2

  /** Size in bytes of the static text buffer, terminator included. */
  const TextBufferSize: nat := 11

  /** The fixed start of every label: "0b" and the two alpha bits. */
  const LabelPrefix: string := "0b11"

  datatype Option<T> = None | Some(value: T)

  // ---------------------------------------------------------------------------
  // Binary digits: the reference definition the renderings are proved against

  predicate IsBitChar(ch: char) {
    ch == '0' || ch == '1'
  }

  function BitValue(ch: char): nat {
    if ch == '1' then 1 else 0
  }

  /** The number a string of binary digits denotes, most significant digit first. */
  function BinaryValue(digits: seq<char>): nat
    decreases |digits|
  {
    if digits == [] then 0
    else BinaryValue(digits[..|digits| - 1]) * 2 + BitValue(digits[|digits| - 1])
  }

  /** Appending one digit doubles the value and adds the digit. */
  lemma BinaryValueAppend1(high: seq<char>, digit: char)
    ensures BinaryValue(high + [digit]) == BinaryValue(high) * 2 + BitValue(digit)
  {
    assert (high + [digit])[..|high|] == high;
  }

  /** Appending two digits multiplies by four and adds the value of the pair. */
  lemma BinaryValueAppend2(high: seq<char>, low: seq<char>)
    requires |low| == 2
    ensures BinaryValue(high + low) == BinaryValue(high) * 4 + BinaryValue(low)
  {
    assert high + low == high + [low[0]] + [low[1]];
    BinaryValueAppend1(high + [low[0]], low[1]);
    BinaryValueAppend1(high, low[0]);
    assert low == [] + [low[0]] + [low[1]];
    BinaryValueAppend1([] + [low[0]], low[1]);
    BinaryValueAppend1([], low[0]);
  }

  // ---------------------------------------------------------------------------
  // uint2str

  /** The text shown for one channel: its two-bit binary, or "XX" when the value does not fit. */
  function Uint2Str(value: UInt8): (text: string)
    ensures |text| == 2
    ensures value <= ChannelMax ==> IsBitChar(text[0]) && IsBitChar(text[1])
    ensures value > ChannelMax ==> text == "XX"
  {
    match value
    case 0 => "00"
    case 1 => "01"
    case 2 => "10"
    case 3 => "11"
    case _ => "XX"
  }

  /** For 0..3 the rendering is a two-digit binary numeral denoting the value. */
  lemma Uint2StrIsBinary(value: UInt8)
    requires value <= ChannelMax
    ensures IsBitChar(Uint2Str(value)[0]) && IsBitChar(Uint2Str(value)[1])
    ensures BinaryValue(Uint2Str(value)) == value
  {
    var text := Uint2Str(value);
    assert BinaryValue(text) == 2 * BitValue(text[0]) + BitValue(text[1]) by {
      assert text == [] + [text[0]] + [text[1]];
      BinaryValueAppend1([] + [text[0]], text[1]);
      BinaryValueAppend1([], text[0]);
    }
  }

  /** Reads a channel value back from its two-character rendering; None for anything else. */
  function ParseChannel(text: string): (value: Option<UInt8>)
    ensures value.Some? ==> value.value <= ChannelMax
  {
    if |text| == 2 && IsBitChar(text[0]) && IsBitChar(text[1]) then
      Some((if text[0] == '1' then 2 else 0) + (if text[1] == '1' then 1 else 0))
    else
      None
  }

  /** ParseChannel undoes Uint2Str exactly on 0..3, and rejects the "XX" of every other value. */
  lemma Uint2StrRoundTrip(value: UInt8)
    ensures ParseChannel(Uint2Str(value)) == if value <= ChannelMax then Some(value) else None
  {
  }

  /** Conversely, every text ParseChannel accepts is the rendering of the value it returns. */
  lemma ParseChannelSound(text: string)
    requires ParseChannel(text).Some?
    ensures Uint2Str(ParseChannel(text).value) == text
  {
    assert text == [text[0], text[1]];
  }

  /** Two in-range channel values with the same rendering are equal. */
  lemma Uint2StrInjective(v: UInt8, w: UInt8)
    requires v <= ChannelMax && w <= ChannelMax
    requires Uint2Str(v) == Uint2Str(w)
    ensures v == w
  {
    Uint2StrRoundTrip(v);
    Uint2StrRoundTrip(w);
  }

  // ---------------------------------------------------------------------------
  // The label "0b11RRGGBB" and the buffer it is formatted into

  /** The label formatted by update_display: the prefix and the rendering of each channel. */
  function Label(r: UInt8, g: UInt8, b: UInt8): (text: string)
    ensures |text| == 10
    ensures text[..|LabelPrefix|] == LabelPrefix
  {
    LabelPrefix + Uint2Str(r) + Uint2Str(g) + Uint2Str(b)
  }

  /** The label holds no terminator, so the C string shown is the whole label. */
  lemma LabelHasNoTerminator(r: UInt8, g: UInt8, b: UInt8)
    ensures forall i :: 0 <= i < |Label(r, g, b)| ==> Label(r, g, b)[i] != '\0'
  {
    var text := Label(r, g, b);
    assert text == LabelPrefix + Uint2Str(r) + Uint2Str(g) + Uint2Str(b);
    forall i | 0 <= i < |text| ensures text[i] != '\0' {
      if i >= 4 {
        var k := (i - 4) / 2;
        var v := if k == 0 then r else if k == 1 then g else b;
        assert text[i] == Uint2Str(v)[(i - 4) % 2];
      }
    }
  }

  /**
   What a bounded formatting call leaves in a buffer of `size` bytes: at most
   `size - 1` characters of the text, then the terminator.
   */
  function Terminated(text: string, size: nat): (bytes: seq<char>)
    requires size > 0
    ensures |bytes| <= size
    ensures |text| < size ==> bytes == text + ['\0']
    ensures |text| >= size ==> |bytes| == size && bytes[..size - 1] == text[..size - 1] && bytes[size - 1] == '\0'
  {
    if |text| < size then text + ['\0'] else text[..size - 1] + ['\0']
  }

  /** The label is never truncated: it and its terminator fill the 11-byte buffer exactly. */
  lemma LabelFitsBuffer(r: UInt8, g: UInt8, b: UInt8)
    ensures Terminated(Label(r, g, b), TextBufferSize) == Label(r, g, b) + ['\0']
    ensures |Terminated(Label(r, g, b), TextBufferSize)| == TextBufferSize
  {
  }

  /** Reads the three channel values back out of a label; None for text that is not one. */
  function DecodeLabel(text: string): (channels: Option<(UInt8, UInt8, UInt8)>)
    ensures channels.Some? ==>
      channels.value.0 <= ChannelMax && channels.value.1 <= ChannelMax && channels.value.2 <= ChannelMax
  {
    if |text| != 10 || text[..4] != LabelPrefix then None
    else
      match (ParseChannel(text[4..6]), ParseChannel(text[6..8]), ParseChannel(text[8..10]))
      case (Some(r), Some(g), Some(b)) => Some((r, g, b))
      case _ => None
  }

  /** The channel values can be decoded from the label whenever all three are in 0..3. */
  lemma LabelRoundTrip(r: UInt8, g: UInt8, b: UInt8)
    requires r <= ChannelMax && g <= ChannelMax && b <= ChannelMax
    ensures DecodeLabel(Label(r, g, b)) == Some((r, g, b))
  {
    var text := Label(r, g, b);
    assert text[4..6] == Uint2Str(r) && text[6..8] == Uint2Str(g) && text[8..10] == Uint2Str(b);
    Uint2StrRoundTrip(r);
    Uint2StrRoundTrip(g);
    Uint2StrRoundTrip(b);
  }

  /** A label with an out-of-range channel shows "XX" there and does not decode. */
  lemma LabelOutOfRange(r: UInt8, g: UInt8, b: UInt8)
    requires r > ChannelMax || g > ChannelMax || b > ChannelMax
    ensures DecodeLabel(Label(r, g, b)) == None
  {
    var text := Label(r, g, b);
    assert text[4..6] == Uint2Str(r) && text[6..8] == Uint2Str(g) && text[8..10] == Uint2Str(b);
  }

  /** Every text the decoder accepts is exactly the label of the values it returns. */
  lemma DecodeLabelSound(text: string)
    requires DecodeLabel(text).Some?
    ensures var (r, g, b) := DecodeLabel(text).value; text == Label(r, g, b)
  {
    var (r, g, b) := DecodeLabel(text).value;
    ParseChannelSound(text[4..6]);
    ParseChannelSound(text[6..8]);
    ParseChannelSound(text[8..10]);
    assert text == text[..4] + text[4..6] + text[6..8] + text[8..10];
  }

  /** Distinct in-range colours have distinct labels. */
  lemma LabelInjective(r: UInt8, g: UInt8, b: UInt8, r': UInt8, g': UInt8, b': UInt8)
    requires r <= ChannelMax && g <= ChannelMax && b <= ChannelMax
    requires r' <= ChannelMax && g' <= ChannelMax && b' <= ChannelMax
    requires Label(r, g, b) == Label(r', g', b')
    ensures r == r' && g == g' && b == b'
  {
    LabelRoundTrip(r, g, b);
    LabelRoundTrip(r', g', b');
  }

  // ---------------------------------------------------------------------------
  // The fill colour

  /** GColor8: four two-bit fields. */
  datatype GColor8 = GColor8(a: UInt8, r: UInt8, g: UInt8, b: UInt8)

  predicate IsColor(c: GColor8) {
    c.a <= ChannelMax && c.r <= ChannelMax && c.g <= ChannelMax && c.b <= ChannelMax
  }

  /**
   The colour as one ARGB byte, alpha in the top two bits and blue in the
   bottom two. This layout is assumed for GColor8, not derived here.
   */
  function Argb(c: GColor8): (byte: nat)
    requires IsColor(c)
    ensures byte < 0x100
  {
    ((c.a * 4 + c.r) * 4 + c.g) * 4 + c.b
  }

  /** Splits an ARGB byte into its four two-bit fields. */
  function FromArgb(byte: UInt8): (c: GColor8)
    ensures IsColor(c)
  {
    GColor8(byte / 64, byte / 16 % 4, byte / 4 % 4, byte % 4)
  }

  lemma ArgbRoundTrip(c: GColor8)
    requires IsColor(c)
    ensures FromArgb(Argb(c)) == c
  {
    var byte := Argb(c);
    assert byte / 4 == (c.a * 4 + c.r) * 4 + c.g && byte % 4 == c.b;
    assert byte / 16 == c.a * 4 + c.r by {
      assert byte / 16 == (byte / 4) / 4;
    }
    assert byte / 64 == c.a by {
      assert byte / 64 == (byte / 16) / 4;
    }
  }

  lemma FromArgbRoundTrip(byte: UInt8)
    ensures Argb(FromArgb(byte)) == byte
  {
    var c := FromArgb(byte);
    assert byte / 4 == (byte / 16) * 4 + c.g;
    assert byte / 16 == (byte / 64) * 4 + c.r;
  }

  /**
   The label spells out the opaque fill colour's ARGB byte: after "0b" come
   eight binary digits, and they denote the byte a, r, g, b, most significant first.
   */
  lemma LabelIsArgbBinary(c: GColor8)
    requires IsColor(c) && c.a == Alpha
    ensures Label(c.r, c.g, c.b)[..2] == "0b"
    ensures forall i :: 2 <= i < 10 ==> IsBitChar(Label(c.r, c.g, c.b)[i])
    ensures BinaryValue(Label(c.r, c.g, c.b)[2..]) == Argb(c)
  {
    var a, r, g, b := Uint2Str(c.a), Uint2Str(c.r), Uint2Str(c.g), Uint2Str(c.b);
    Uint2StrIsBinary(c.a);
    Uint2StrIsBinary(c.r);
    Uint2StrIsBinary(c.g);
    Uint2StrIsBinary(c.b);
    var text := Label(c.r, c.g, c.b);
    assert text == "0b" + a + r + g + b;
    assert text[2..] == a + r + g + b;
    forall i | 2 <= i < 10
      ensures IsBitChar(text[i])
    {
      if i < 4 { assert text[i] == a[i - 2]; }
      else if i < 6 { assert text[i] == r[i - 4]; }
      else if i < 8 { assert text[i] == g[i - 6]; }
      else { assert text[i] == b[i - 8]; }
    }
    BinaryValueAppend2(a, r);
    BinaryValueAppend2(a + r, g);
    BinaryValueAppend2(a + r + g, b);
  }

  // ---------------------------------------------------------------------------
  // The selection box

  datatype GRect = GRect(x: int, y: int, w: int, h: int)

  /**
   The frame of the selection box for a channel index: an 18x4 bar at y = 20,
   one bar per channel left to right. None for an index that is not a channel,
   in which case the box keeps its previous frame.
   */
  function SelectionFrame(channelIndex: UInt8): (frame: Option<GRect>)
    ensures frame.Some? <==> channelIndex <= Blue
    ensures frame.Some? ==> frame.value == GRect(62 + 18 * channelIndex, 20, 18, 4)
  {
    match channelIndex
    case 0 => Some(GRect(62, 20, 18, 4))
    case 1 => Some(GRect(80, 20, 18, 4))
    case 2 => Some(GRect(98, 20, 18, 4))
    case _ => None
  }

  /** The three bars sit side by side: each ends where the next begins, so no two overlap. */
  lemma SelectionFramesAbut(i: UInt8)
    requires i < Blue
    ensures SelectionFrame(i).value.x + SelectionFrame(i).value.w == SelectionFrame(i + 1).value.x
  {
  }
}
