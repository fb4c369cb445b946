/** The older software animation (src/animation.rs): the speed table and
    the breathing driver over a light of the older `Light + RGB` traits.
    The driver awaits `set_brightness` on the light and then sleeps; the
    light is represented by the calls it has received. */
module Animation {
  import opened Base
  import opened Breath

  datatype AnimationSpeed = Slowest | Slower | Slow | Normal | Fast | Faster | Fastest

  /** The position of a speed in its declaration, Slowest = 0 .. Fastest = 6. */
  function Rank(s: AnimationSpeed): (n: nat)
    ensures n <= 6
  {
    match s
    case Slowest => 0 case Slower => 1 case Slow => 2 case Normal => 3
    case Fast => 4 case Faster => 5 case Fastest => 6
  }

  /** `animation_speed`: the step interval in milliseconds. */
  function AnimationSpeedMs(speed: AnimationSpeed): (ms: nat)
    ensures 5 <= ms <= 600
  {
    match speed
    case Fastest => 5
    case Faster => 20
    case Fast => 50
    case Normal => 200
    case Slow => 300
    case Slower => 400
    case Slowest => 600
  }

  /** A faster speed has a strictly shorter interval, and only a faster one. */
  lemma AnimationSpeedMonotonic(a: AnimationSpeed, b: AnimationSpeed)
    ensures Rank(a) < Rank(b) <==> AnimationSpeedMs(a) > AnimationSpeedMs(b)
  {
  }

  /** One `set_brightness(red, green, blue, level)` call, level in percent. */
  datatype BrightnessCall = BrightnessCall(red: Byte, green: Byte, blue: Byte, level: Percent)

  /** A light of the older traits; what `set_brightness` does to the
      peripheral is not part of this layer, so the light records the calls. */
  class LegacyLight {
    var calls: seq<BrightnessCall>

    constructor ()
      ensures calls == []
    {
      calls := [];
    }

    method SetBrightness(red: Byte, green: Byte, blue: Byte, level: Percent)
      modifies this
      ensures calls == old(calls) + [BrightnessCall(red, green, blue, level)]
    {
      calls := calls + [BrightnessCall(red, green, blue, level)];
    }
  }

  /** What `_breathing` asks of the light at level p. */
  function Call(red: Byte, green: Byte, blue: Byte): Percent -> BrightnessCall
  {
    (p: Percent) => BrightnessCall(red, green, blue, p)
  }

  /** `_breathing`: `set_brightness(red, green, blue, i / 100)` awaited and
      then one sleep of `interval`, for i = 0..100 and then 100..0. The
      light receives exactly the requests of the trace, in order. */
  method BreathingPass(light: LegacyLight, red: Byte, green: Byte, blue: Byte, interval: nat)
    returns (trace: seq<Step<BrightnessCall>>)
    modifies light
    ensures trace == Pass(Call(red, green, blue), interval)
    ensures light.calls == old(light.calls) + Requests(trace)
  {
    ghost var before := light.calls;
    trace := [];
    for i := 0 to 101
      invariant trace == Prefix(Call(red, green, blue), interval, i)
      invariant light.calls == before + Requests(trace)
    {
      light.SetBrightness(red, green, blue, i);
      StepAppended(trace, BrightnessCall(red, green, blue, i), interval);
      trace := trace + [Step.Request(BrightnessCall(red, green, blue, i)), Sleep(interval)];
    }
    for i := 101 downto 0
      invariant trace == Prefix(Call(red, green, blue), interval, 202 - i)
      invariant light.calls == before + Requests(trace)
    {
      light.SetBrightness(red, green, blue, i);
      StepAppended(trace, BrightnessCall(red, green, blue, i), interval);
      trace := trace + [Step.Request(BrightnessCall(red, green, blue, i)), Sleep(interval)];
    }
  }

  /** `breathing` with `FiniteCount(count)`: `_breathing` run max(count, 0)
      times at the interval of `speed`. */
  method BreathingFinite(light: LegacyLight, red: Byte, green: Byte, blue: Byte, count: I32, speed: AnimationSpeed)
    returns (trace: seq<Step<BrightnessCall>>)
    modifies light
    ensures trace == Repeated(Pass(Call(red, green, blue), AnimationSpeedMs(speed)), Passes(count))
    ensures light.calls == old(light.calls) + Requests(trace)
  {
    ghost var one := Pass(Call(red, green, blue), AnimationSpeedMs(speed));
    trace := [];
    var i: I32 := 0;
    while i < count
      invariant 0 <= i <= Passes(count)
      invariant trace == Repeated(one, i)
      invariant light.calls == old(light.calls) + Requests(trace)
    {
      NextPass(one, i as nat, light.calls, old(light.calls));
      var pass := BreathingPass(light, red, green, blue, AnimationSpeedMs(speed));
      trace := trace + pass;
      i := i + 1;
    }
    assert i as nat == Passes(count);
  }

  /** Every call of a pass passes the same red, green and blue, at the
      levels 0..100 then 100..0. */
  lemma PassCallsSameColor(red: Byte, green: Byte, blue: Byte, interval: nat)
    ensures |Requests(Pass(Call(red, green, blue), interval))| == 202
    ensures forall k :: 0 <= k < 202 ==>
              Requests(Pass(Call(red, green, blue), interval))[k] == BrightnessCall(red, green, blue, LevelAt(k))
  {
    PassShape(Call(red, green, blue), interval);
  }

  /** `FiniteCount(n)` makes 202 max(n, 0) calls. */
  lemma BreathingCalls(red: Byte, green: Byte, blue: Byte, count: I32, speed: AnimationSpeed)
    ensures |Requests(Repeated(Pass(Call(red, green, blue), AnimationSpeedMs(speed)), Passes(count)))|
              == 202 * Passes(count)
  {
    RepeatedPasses(Call(red, green, blue), AnimationSpeedMs(speed), Passes(count));
  }
}
