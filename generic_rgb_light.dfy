/** The older GenericRGB command set (the `GenericRGBLight` trait): four
    byte encoders and the two lookup tables behind `pulsating`. The trait
    has no state, so every encoder is a function of its arguments. */
module GenericRgbLight {
  import opened Base

  datatype AnimationSpeedSetting =
    Speed1 | Speed2 | Speed3 | Speed4 | Speed5 | Speed6 | Speed7 | Speed8 | Speed9

  datatype PulsatingColor = Red | Green | Blue

  /** The position of a setting in its declaration, Speed1 = 1 .. Speed9 = 9. */
  function Rank(s: AnimationSpeedSetting): (n: nat)
    ensures 1 <= n <= 9
  {
    match s
    case Speed1 => 1 case Speed2 => 2 case Speed3 => 3
    case Speed4 => 4 case Speed5 => 5 case Speed6 => 6
    case Speed7 => 7 case Speed8 => 8 case Speed9 => 9
  }

  /** `animation_speed`: the speed byte of a hardware pulsating effect. */
  function AnimationSpeed(setting: AnimationSpeedSetting): (code: Byte)
    ensures 0x01 <= code <= 0x1F
  {
    match setting
    case Speed1 => 0x1F
    case Speed2 => 0x1B
    case Speed3 => 0x1A
    case Speed4 => 0x17
    case Speed5 => 0x13
    case Speed6 => 0x10
    case Speed7 => 0x0C
    case Speed8 => 0x05
    case Speed9 => 0x01
  }

  /** The inverse of the speed table: which setting, if any, a speed byte encodes. */
  function SpeedSettingOf(code: Byte): (s: Option<AnimationSpeedSetting>)
    ensures s.Some? ==> AnimationSpeed(s.value) == code
  {
    if code == 0x1F then Some(Speed1)
    else if code == 0x1B then Some(Speed2)
    else if code == 0x1A then Some(Speed3)
    else if code == 0x17 then Some(Speed4)
    else if code == 0x13 then Some(Speed5)
    else if code == 0x10 then Some(Speed6)
    else if code == 0x0C then Some(Speed7)
    else if code == 0x05 then Some(Speed8)
    else if code == 0x01 then Some(Speed9)
    else None
  }

  /** A later setting is a faster one: its byte is strictly smaller. */
  lemma AnimationSpeedStrictlyDecreasing(a: AnimationSpeedSetting, b: AnimationSpeedSetting)
    ensures Rank(a) < Rank(b) <==> AnimationSpeed(a) > AnimationSpeed(b)
  {
  }

  /** Decoding a speed byte gives back the setting it was encoded from. */
  lemma SpeedSettingRoundTrip(s: AnimationSpeedSetting)
    ensures SpeedSettingOf(AnimationSpeed(s)) == Some(s)
  {
  }

  /** `pulsating_color`: the colour byte of a hardware pulsating effect. */
  function PulsatingColorCode(color: PulsatingColor): (code: Byte)
    ensures 0x26 <= code <= 0x28
  {
    match color
    case Red => 0x26
    case Green => 0x27
    case Blue => 0x28
  }

  /** The inverse of the colour table. */
  function PulsatingColorOf(code: Byte): (c: Option<PulsatingColor>)
    ensures c.Some? ==> PulsatingColorCode(c.value) == code
  {
    if code == 0x26 then Some(Red)
    else if code == 0x27 then Some(Green)
    else if code == 0x28 then Some(Blue)
    else None
  }

  lemma PulsatingColorRoundTrip(c: PulsatingColor)
    ensures PulsatingColorOf(PulsatingColorCode(c)) == Some(c)
  {
  }

  /** `encode_color`: the seven-byte colour frame. */
  function EncodeColor(red: Byte, green: Byte, blue: Byte): (frame: seq<Byte>)
    ensures |frame| == 7
  {
    [0x56, red, green, blue, 0x00, 0xF0, 0xAA]
  }

  /** Reads a colour frame back: the triple it carries, or None when the
      buffer does not have the colour frame's length, header and trailer. */
  function DecodeColor(frame: seq<Byte>): Option<(Byte, Byte, Byte)>
  {
    if |frame| == 7 && frame[0] == 0x56 && frame[4..] == [0x00, 0xF0, 0xAA]
    then Some((frame[1], frame[2], frame[3]))
    else None
  }

  /** Every colour frame decodes to the triple it was built from ... */
  lemma ColorRoundTrip(red: Byte, green: Byte, blue: Byte)
    ensures DecodeColor(EncodeColor(red, green, blue)) == Some((red, green, blue))
  {
  }

  /** ... and every buffer that decodes is the colour frame of its triple. */
  lemma DecodeColorSound(frame: seq<Byte>)
    requires DecodeColor(frame).Some?
    ensures var (r, g, b) := DecodeColor(frame).value; EncodeColor(r, g, b) == frame
  {
  }

  /** Distinct colours give distinct frames. */
  lemma EncodeColorInjective(r1: Byte, g1: Byte, b1: Byte, r2: Byte, g2: Byte, b2: Byte)
    ensures EncodeColor(r1, g1, b1) == EncodeColor(r2, g2, b2) ==> r1 == r2 && g1 == g2 && b1 == b2
  {
    if EncodeColor(r1, g1, b1) == EncodeColor(r2, g2, b2) {
      ColorRoundTrip(r1, g1, b1);
      ColorRoundTrip(r2, g2, b2);
    }
  }

  /** `turn_off`: black sent as a colour frame (not the 0xCC 0x24 0x33
      power frame, which the source leaves commented out). */
  function TurnOff(): (frame: seq<Byte>)
    ensures |frame| == 7 && DecodeColor(frame) == Some((0, 0, 0))
  {
    EncodeColor(0, 0, 0)
  }

  /** `turn_on`: the three-byte power-on frame. */
  function TurnOn(): (frame: seq<Byte>)
    ensures |frame| == 3 && DecodeColor(frame).None?
  {
    [0xCC, 0x23, 0x33]
  }

  lemma TurnOffFrame()
    ensures TurnOff() == [0x56, 0x00, 0x00, 0x00, 0x00, 0xF0, 0xAA]
    ensures DecodeColor(TurnOff()) == Some((0, 0, 0))
    ensures TurnOff() != [0xCC, 0x24, 0x33]
  {
  }

  lemma TurnOnDiffersFromTurnOff()
    ensures TurnOn() == [0xCC, 0x23, 0x33]
    ensures |TurnOn()| == 3 && |TurnOff()| == 7
    ensures DecodeColor(TurnOn()).None?
  {
  }

  /** `pulsating`: header 0xBB, colour byte, speed byte, trailer 0x44. */
  function Pulsating(color: PulsatingColor, speed: AnimationSpeedSetting): (frame: seq<Byte>)
    ensures |frame| == 4
  {
    [0xBB, PulsatingColorCode(color), AnimationSpeed(speed), 0x44]
  }

  /** Reads a pulsating frame back into its colour and speed. */
  function DecodePulsating(frame: seq<Byte>): Option<(PulsatingColor, AnimationSpeedSetting)>
  {
    if |frame| == 4 && frame[0] == 0xBB && frame[3] == 0x44
       && PulsatingColorOf(frame[1]).Some? && SpeedSettingOf(frame[2]).Some?
    then Some((PulsatingColorOf(frame[1]).value, SpeedSettingOf(frame[2]).value))
    else None
  }

  lemma PulsatingRoundTrip(color: PulsatingColor, speed: AnimationSpeedSetting)
    ensures DecodePulsating(Pulsating(color, speed)) == Some((color, speed))
  {
    PulsatingColorRoundTrip(color);
    SpeedSettingRoundTrip(speed);
  }

  lemma DecodePulsatingSound(frame: seq<Byte>)
    requires DecodePulsating(frame).Some?
    ensures var (c, s) := DecodePulsating(frame).value; Pulsating(c, s) == frame
  {
  }

  /** Distinct (colour, speed) pairs give distinct frames. */
  lemma PulsatingInjective(c1: PulsatingColor, s1: AnimationSpeedSetting,
                           c2: PulsatingColor, s2: AnimationSpeedSetting)
    ensures Pulsating(c1, s1) == Pulsating(c2, s2) ==> c1 == c2 && s1 == s2
  {
    PulsatingRoundTrip(c1, s1);
    PulsatingRoundTrip(c2, s2);
  }
}
