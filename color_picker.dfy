/**
 * The window colour: which colour a (green, total) pair of counts gets, and
 * the light/dark pulse that flips at every tick and is reset to light when
 * the colour changes.
 */
module Colors {
  import opened Values

  datatype Color = Green | Red | Orange | Gray

  /**
   * The colour `set_result` chooses: orange when either count is complex
   * (a runner raised), red when exactly one test is not green, gray when
   * more are, and green otherwise.
   */
  function Classify(green: Complex, total: Complex): Color {
    if green.im != 0 || total.im != 0 then Orange
    else if green.re == total.re - 1 then Red
    else if green.re < total.re - 1 then Gray
    else Green
  }

  /** For real counts the colour says how many tests are not green: none, one, or two or more. */
  lemma ClassifyByFailing(green: Complex, total: Complex)
    ensures Classify(green, total) == Orange <==> green.im != 0 || total.im != 0
    ensures green.im == 0 && total.im == 0 ==>
      var failing := total.re - green.re;
      (Classify(green, total) == Green <==> failing <= 0)
      && (Classify(green, total) == Red <==> failing == 1)
      && (Classify(green, total) == Gray <==> failing >= 2)
  {
  }

  lemma ClassifyExamples()
    ensures Classify(Real(4), Real(5)) == Red
    ensures Classify(Real(3), Real(5)) == Gray
    ensures Classify(Real(5), Real(5)) == Green
    ensures Classify(Real(0), Real(0)) == Green
    ensures Classify(Real(0), ErrorMarker) == Orange
  {
  }

  /** The colour and the lightness of the picker. */
  datatype PickerState = PickerState(color: Color, light: bool)

  /** A new picker is light green. */
  const Initial: PickerState := PickerState(Green, true)

  /** `set_result`: the new colour, and light again if the colour changed. */
  function AfterSetResult(s: PickerState, green: Complex, total: Complex): (t: PickerState)
    ensures t.color == Classify(green, total)
    ensures t.light == (t.color != s.color || s.light)
  {
    var c := Classify(green, total);
    PickerState(c, if c != s.color then true else s.light)
  }

  /** `pulse`. */
  function AfterPulse(s: PickerState): (t: PickerState)
    ensures t.color == s.color && t.light == !s.light
  {
    s.(light := !s.light)
  }

  /** One tick of the window: `set_result`, `pick`, then `pulse`; gives the new state and what was picked. */
  function Tick(s: PickerState, green: Complex, total: Complex): (PickerState, PickerState) {
    var t := AfterSetResult(s, green, total);
    (AfterPulse(t), t)
  }

  /** What the window shows at each of a run of ticks, starting from `s`. */
  function Shown(s: PickerState, counts: seq<(Complex, Complex)>): (shown: seq<PickerState>)
    ensures |shown| == |counts|
    decreases counts
  {
    if counts == [] then []
    else
      var (next, picked) := Tick(s, counts[0].0, counts[0].1);
      [picked] + Shown(next, counts[1..])
  }

  /** A tick whose colour differs from the current one shows the new colour, light. */
  lemma ColorChangeShowsLight(s: PickerState, green: Complex, total: Complex)
    requires Classify(green, total) != s.color
    ensures Tick(s, green, total).1 == PickerState(Classify(green, total), true)
  {
  }

  /**
   * While the colour stays the same the lightness alternates, tick after
   * tick, starting from the lightness the picker had.
   */
  lemma {:induction false} StableColorAlternates(s: PickerState, counts: seq<(Complex, Complex)>)
    requires forall i :: 0 <= i < |counts| ==> Classify(counts[i].0, counts[i].1) == s.color
    ensures forall i :: 0 <= i < |counts| ==>
      Shown(s, counts)[i] == PickerState(s.color, if i % 2 == 0 then s.light else !s.light)
    decreases counts
  {
    if counts != [] {
      var next := AfterPulse(s);
      StableColorAlternates(next, counts[1..]);
      forall i | 1 <= i < |counts|
        ensures Shown(s, counts)[i] == PickerState(s.color, if i % 2 == 0 then s.light else !s.light)
      {
        assert Shown(s, counts)[i] == Shown(next, counts[1..])[i - 1];
      }
    }
  }

  /** Hence two consecutive ticks under a stable colour never show the same lightness. */
  lemma StableColorNeverRepeatsLightness(s: PickerState, counts: seq<(Complex, Complex)>, i: nat)
    requires forall k :: 0 <= k < |counts| ==> Classify(counts[k].0, counts[k].1) == s.color
    requires i + 1 < |counts|
    ensures Shown(s, counts)[i + 1].light == !Shown(s, counts)[i].light
  {
    StableColorAlternates(s, counts);
  }

  /** `translate_colure`: the colour table, as `#rgb`. */
  function Rgb(light: bool, color: Color): string {
    "#" + match (light, color)
      case (true, Green) => "0f0"
      case (false, Green) => "0c0"
      case (true, Red) => "f00"
      case (false, Red) => "c00"
      case (true, Orange) => "fc0"
      case (false, Orange) => "ca0"
      case (true, Gray) => "999"
      case (false, Gray) => "555"
  }

  /** Every (lightness, colour) pair has its own `#rgb` string, so the pulse is visible in every colour. */
  lemma RgbIsOneToOne(l1: bool, c1: Color, l2: bool, c2: Color)
    requires Rgb(l1, c1) == Rgb(l2, c2)
    ensures l1 == l2 && c1 == c2
  {
    assert Rgb(l1, c1)[1..] == Rgb(l2, c2)[1..];
  }

  /** `ColorPicker`: the colour of the window and whether it is in its light phase. */
  class ColorPicker {
    var color: Color
    var light: bool

    function State(): PickerState
      reads this
    {
      PickerState(color, light)
    }

    constructor ()
      ensures State() == Initial
    {
      color := Green;
      light := true;
    }

    /** `pick`. */
    method Pick() returns (isLight: bool, c: Color)
      ensures isLight == light && c == color
    {
      return light, color;
    }

    /** `pulse`. */
    method Pulse()
      modifies this
      ensures State() == AfterPulse(old(State()))
    {
      light := !light;
    }

    /** `reset_pulse`. */
    method ResetPulse()
      modifies this
      ensures light && color == old(color)
    {
      light := true;
    }

    /** `set_result`. */
    method SetResult(green: Complex, total: Complex)
      modifies this
      ensures State() == AfterSetResult(old(State()), green, total)
    {
      var oldColor := color;
      color := Green;
      if green.im != 0 || total.im != 0 {
        color := Orange;
      } else if green.re == total.re - 1 {
        color := Red;
      } else if green.re < total.re - 1 {
        color := Gray;
      }
      if color != oldColor {
        ResetPulse();
      }
    }

    /**
     * The colour part of the window's `update`: `set_result`, `pick`,
     * `translate_colure`, `pulse`; gives the `#rgb` the window is painted.
     */
    method Update(green: Complex, total: Complex) returns (rgb: string)
      modifies this
      ensures State() == Tick(old(State()), green, total).0
      ensures rgb == Rgb(Tick(old(State()), green, total).1.light, Tick(old(State()), green, total).1.color)
    {
      SetResult(green, total);
      var isLight, c := Pick();
      rgb := Rgb(isLight, c);
      Pulse();
    }
  }
}
