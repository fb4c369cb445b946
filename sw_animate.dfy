/** The newer software animation (src/capability/sw_animate.rs): the
    speed table, the breathing driver, and `SWAnimate::set`. The driver
    only asks the protocol for brightness buffers; it holds no device and
    never pushes them, so its trace is all it does. */
module SwAnimate {
  import opened Base
  import opened Errors
  import opened Devices
  import opened ColorCapability
  import opened BrightnessCapability
  import opened Breath

  datatype SWAnimationRepeat = FiniteCount(count: I32) | InfiniteCount

  datatype SWAnimationSpeed = Slowest | Slower | Slow | Normal | Fast | Faster | Fastest

  datatype SWAnimateOption = Breathing(color: ColorOption, repeat: SWAnimationRepeat, speed: SWAnimationSpeed)

  /** The position of a speed in its declaration, Slowest = 0 .. Fastest = 6. */
  function Rank(s: SWAnimationSpeed): (n: nat)
    ensures n <= 6
  {
    match s
    case Slowest => 0 case Slower => 1 case Slow => 2 case Normal => 3
    case Fast => 4 case Faster => 5 case Fastest => 6
  }

  /** `sw_animation_speed`: the step interval in milliseconds. */
  function SwAnimationSpeed(speed: SWAnimationSpeed): (ms: nat)
    ensures 5 <= ms <= 600
  {
    match speed
    case Fastest => 5
    case Faster => 20
    case Fast => 50
    case Normal => 200
    case Slow => 300
    case Slower => 400
    case Slowest => 600
  }

  /** Which speed, if any, has a given interval. */
  function SpeedOfInterval(ms: nat): (s: Option<SWAnimationSpeed>)
    ensures s.Some? ==> SwAnimationSpeed(s.value) == ms
  {
    if ms == 5 then Some(Fastest)
    else if ms == 20 then Some(Faster)
    else if ms == 50 then Some(Fast)
    else if ms == 200 then Some(Normal)
    else if ms == 300 then Some(Slow)
    else if ms == 400 then Some(Slower)
    else if ms == 600 then Some(Slowest)
    else None
  }

  /** A faster speed has a strictly shorter interval, and only a faster one. */
  lemma SwAnimationSpeedMonotonic(a: SWAnimationSpeed, b: SWAnimationSpeed)
    ensures Rank(a) < Rank(b) <==> SwAnimationSpeed(a) > SwAnimationSpeed(b)
  {
  }

  lemma SwAnimationSpeedRoundTrip(s: SWAnimationSpeed)
    ensures SpeedOfInterval(SwAnimationSpeed(s)) == Some(s)
  {
  }

  /** `SWAnimate::set`: pushes `protocol.sw_animate(option)` once. */
  method Set(device: Device, swAnimate: SWAnimateOption -> seq<Byte>, option: SWAnimateOption, link: Link)
    returns (r: Result<(), BluetoothError>)
    modifies device`events
    ensures device.Pushed(swAnimate(option), link, r)
  {
    r := device.Push(swAnimate(option), link);
  }

  /** What `_breathing` asks the protocol to encode at level p. */
  function Request(color: ColorOption): Percent -> BrightnessOption
  {
    (p: Percent) => LevelWithColor(p, color)
  }

  /** `_breathing`: asks for `protocol.brightness(LevelWithColor(i, color))`
      for i = 0..100 and then 100..0, sleeping `interval` after each; each
      buffer is computed and dropped. */
  method BreathingPass(brightness: BrightnessOption -> seq<Byte>, color: ColorOption, interval: nat)
    returns (trace: seq<Step<BrightnessOption>>)
    ensures trace == Pass(Request(color), interval)
  {
    trace := [];
    for i := 0 to 101
      invariant trace == Prefix(Request(color), interval, i)
    {
      var _ := brightness(LevelWithColor(i, color));
      trace := trace + [Step.Request(LevelWithColor(i, color)), Sleep(interval)];
    }
    for i := 101 downto 0
      invariant trace == Prefix(Request(color), interval, 202 - i)
    {
      var _ := brightness(LevelWithColor(i, color));
      trace := trace + [Step.Request(LevelWithColor(i, color)), Sleep(interval)];
    }
  }

  /** `breathing` with `FiniteCount(count)`: `_breathing` run `count` times
      at the interval of `speed`. */
  method BreathingFinite(brightness: BrightnessOption -> seq<Byte>, color: ColorOption, count: I32, speed: SWAnimationSpeed)
    returns (trace: seq<Step<BrightnessOption>>)
    ensures trace == Repeated(Pass(Request(color), SwAnimationSpeed(speed)), Passes(count))
  {
    ghost var one := Pass(Request(color), SwAnimationSpeed(speed));
    trace := [];
    var i: I32 := 0;
    while i < count
      invariant 0 <= i <= Passes(count)
      invariant trace == Repeated(one, i)
    {
      assert Repeated(one, i as nat + 1) == Repeated(one, i as nat) + one;
      var pass := BreathingPass(brightness, color, SwAnimationSpeed(speed));
      trace := trace + pass;
      i := i + 1;
    }
    assert i as nat == Passes(count);
  }

  /** Every request of a pass encodes the pass's colour, at a level in
      [0, 100], and the levels climb 0..100 and fall 100..0. */
  lemma PassRequestsSameColor(color: ColorOption, interval: nat)
    ensures |Requests(Pass(Request(color), interval))| == 202
    ensures forall k :: 0 <= k < 202 ==>
              Requests(Pass(Request(color), interval))[k] == LevelWithColor(LevelAt(k), color)
  {
    PassShape(Request(color), interval);
  }

  /** `FiniteCount(n)` issues 202 max(n, 0) brightness requests and sleeps
      202 max(n, 0) intervals of its speed. */
  lemma BreathingCounts(color: ColorOption, count: I32, speed: SWAnimationSpeed)
    ensures |Requests(Repeated(Pass(Request(color), SwAnimationSpeed(speed)), Passes(count)))|
              == 202 * Passes(count)
    ensures TotalSleep(Repeated(Pass(Request(color), SwAnimationSpeed(speed)), Passes(count)))
              == 202 * Passes(count) * SwAnimationSpeed(speed)
  {
    RepeatedPasses(Request(color), SwAnimationSpeed(speed), Passes(count));
  }

  /** The example drivers' `FiniteCount(2)` at `Fastest`: 404 requests,
      2020 ms of sleep. */
  lemma TwoFastestBreaths(color: ColorOption, count: I32, speed: SWAnimationSpeed)
    requires count == 2 && speed == Fastest
    ensures |Requests(Repeated(Pass(Request(color), SwAnimationSpeed(speed)), Passes(count)))| == 404
    ensures TotalSleep(Repeated(Pass(Request(color), SwAnimationSpeed(speed)), Passes(count))) == 2020
  {
    var n, interval := Passes(count), SwAnimationSpeed(speed);
    RepeatedPasses(Request(color), interval, n);
    assert 202 * n * interval == 2020;
  }


}
