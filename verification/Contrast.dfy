/**
 * Readable colours for the chat widget: contrast ratios as in success criterion
 * 1.4.3 of WCAG 2.1, over the reals and for an arbitrary channel curve.
 */
module Contrast {
  import opened Options
  import opened Text

  datatype Rgb = Rgb(r: int, g: int, b: int)

  const INK := "#0F1419"
  const PAPER := "#FBFAF7"
  const BLACK := "#000000"
  const WHITE := "#FFFFFF"
  const AA_TEXT: real := 4.5
  const STEPS: nat := 200

  // ----- Hexadecimal colours -----

  predicate Channel(c: int) { 0 <= c <= 255 }

  predicate Valid(c: Rgb) { Channel(c.r) && Channel(c.g) && Channel(c.b) }

  function HexValue(c: char): (r: Option<int>)
    ensures r.Some? ==> 0 <= r.value <= 15
  {
    if '0' <= c <= '9' then Some(c as int - '0' as int)
    else if 'a' <= c <= 'f' then Some(c as int - 'a' as int + 10)
    else if 'A' <= c <= 'F' then Some(c as int - 'A' as int + 10)
    else None
  }

  function HexChar(n: int): (c: char)
    requires 0 <= n <= 15
    ensures HexValue(c) == Some(n) && !IsSpace(c) && c != '#'
  {
    if n <= 9 then ('0' as int + n) as char else ('A' as int + n - 10) as char
  }

  function PairValue(hi: char, lo: char): (r: Option<int>)
    ensures r.Some? ==> Channel(r.value)
  {
    if HexValue(hi).Some? && HexValue(lo).Some? then Some(HexValue(hi).value * 16 + HexValue(lo).value) else None
  }

  function Six(s: string): (r: Option<Rgb>)
    requires |s| == 6
    ensures r.Some? ==> Valid(r.value)
  {
    var r, g, b := PairValue(s[0], s[1]), PairValue(s[2], s[3]), PairValue(s[4], s[5]);
    if r.Some? && g.Some? && b.Some? then Some(Rgb(r.value, g.value, b.value)) else None
  }

  /** A colour without the white space around it and a leading hash sign. */
  function Bare(hex: string): string {
    var t := Trim(hex);
    if t != "" && t[0] == '#' then t[1..] else t
  }

  function ParseBare(raw: string): (r: Option<Rgb>)
    ensures r.Some? ==> Valid(r.value)
  {
    if |raw| == 3 || |raw| == 4 then Six([raw[0], raw[0], raw[1], raw[1], raw[2], raw[2]])
    else if |raw| == 6 || |raw| == 8 then Six(raw[..6])
    else None
  }

  function ParseHex(hex: string): (r: Option<Rgb>)
    ensures r.Some? ==> Valid(r.value)
  {
    ParseBare(Bare(hex))
  }

  function Clamp(c: int): int { if c < 0 then 0 else if c > 255 then 255 else c }

  /** Printing brings any number into the range of a channel, and keeps those in it. */
  lemma Clamped(c: int)
    ensures Channel(Clamp(c)) && (Channel(c) ==> Clamp(c) == c) && (c < 0 ==> Clamp(c) == 0) && (c > 255 ==> Clamp(c) == 255)
  {
  }

  function Pair(c: int): string {
    [HexChar(Clamp(c) / 16), HexChar(Clamp(c) % 16)]
  }

  function ToHex(c: Rgb): string {
    "#" + Pair(c.r) + Pair(c.g) + Pair(c.b)
  }

  /** Printing and reading a colour gives it back. */
  lemma HexRoundTrip(c: Rgb)
    requires Valid(c)
    ensures ParseHex(ToHex(c)) == Some(c)
  {
    var s := ToHex(c);
    assert |s| == 7 && s[0] == '#' && s[1..] == Pair(c.r) + Pair(c.g) + Pair(c.b);
    TrimOfTrimmed(s);
    assert s[1..][..6] == s[1..];
  }

  predicate IsHex(s: string) {
    forall k :: 0 <= k < |s| ==> HexValue(s[k]).Some?
  }

  lemma HexNotSpace(c: char)
    ensures HexValue(c).Some? ==> !IsSpace(c) && c != '#'
    ensures !IsSpace('#')
  {
  }

  /** White space around a colour and a leading hash sign do not matter. */
  lemma HexBare(pad: string, s: string, after: string)
    requires s != "" && IsHex(s) && AllSpace(pad) && AllSpace(after)
    ensures Bare(pad + "#" + s + after) == s && Bare(pad + s + after) == s
  {
    hide HexValue, IsSpace, AllSpace, Trim;
    HexNotSpace(s[0]);
    HexNotSpace(s[|s| - 1]);
    TrimPadded(pad, s, after);
    TrimPadded(pad, "#" + s, after);
    assert pad + ("#" + s) + after == pad + "#" + s + after && ("#" + s)[1..] == s;
  }

  /** Hexadecimal digits make a colour exactly in the lengths 3, 4, 6 and 8. Three
      digits are doubled; a fourth, or a seventh and eighth, is ignored. */
  lemma HexForms(s: string)
    requires IsHex(s)
    ensures ParseBare(s).Some? <==> |s| in {3, 4, 6, 8}
    ensures |s| == 3 ==> ParseBare(s) == ParseBare([s[0], s[0], s[1], s[1], s[2], s[2]])
    ensures |s| == 4 ==> ParseBare(s) == ParseBare(s[..3])
    ensures |s| == 8 ==> ParseBare(s) == ParseBare(s[..6])
  {
    if |s| == 3 {
      var six := [s[0], s[0], s[1], s[1], s[2], s[2]];
      assert six[..6] == six;
    } else if |s| == 8 {
      assert s[..6][..6] == s[..6];
    }
  }

  /** Anything but hexadecimal digits makes no colour. */
  lemma HexOnly(s: string)
    requires |s| in {3, 6} && !IsHex(s)
    ensures ParseBare(s).None?
  {
    var k :| 0 <= k < |s| && HexValue(s[k]).None?;
    hide HexValue;
    assert |s| == 6 ==> s[..6] == s;
  }

  /** A printed colour may be written in small letters, capitals or both. */
  lemma HexAnyCase(c: Rgb, s: string)
    requires Valid(c) && Spells(s, Lower(ToHex(c)))
    ensures ParseHex(s) == Some(c)
  {
    hide ParseBare, Lower, Trim;
    var p := ToHex(c);
    PrintedForm(c);
    forall k | 0 <= k < |s| ensures HexValue(s[k]) == HexValue(p[k]) && (s[k] == '#' <==> p[k] == '#') {
      HexCase(s[k], p[k]);
    }
    HexRoundTrip(c);
    var a, b := p[1..], s[1..];
    assert p == "" + "#" + a + "" && s == "" + "#" + b + "";
    assert forall k :: 0 <= k < 6 ==> b[k] == s[k + 1] && a[k] == p[k + 1];
    hide HexValue;
    HexBare("", a, "");
    HexBare("", b, "");
    SameValues(a, b);
  }

  lemma PrintedForm(c: Rgb)
    ensures var p := ToHex(c); |p| == 7 && p[0] == '#' && IsHex(p[1..])
  {
  }

  lemma HexCase(s: char, p: char)
    requires s == LowerChar(p) || s == UpperChar(LowerChar(p))
    ensures HexValue(s) == HexValue(p) && (s == '#' <==> p == '#')
  {
  }

  lemma SameValues(a: string, b: string)
    requires |a| == |b| == 6 && forall k :: 0 <= k < 6 ==> HexValue(a[k]) == HexValue(b[k])
    ensures ParseBare(a) == ParseBare(b)
  {
    hide HexValue;
    assert a[..6] == a && b[..6] == b;
  }

  lemma BlackIs()
    ensures ParseHex(BLACK) == Some(Rgb(0, 0, 0))
  {
    assert ToHex(Rgb(0, 0, 0)) == BLACK by { assert Pair(0) == "00"; }
    HexRoundTrip(Rgb(0, 0, 0));
  }

  lemma WhiteIs()
    ensures ParseHex(WHITE) == Some(Rgb(255, 255, 255))
  {
    assert ToHex(Rgb(255, 255, 255)) == WHITE by { assert Pair(255) == "FF"; }
    HexRoundTrip(Rgb(255, 255, 255));
  }

  lemma InkIs()
    ensures ParseHex(INK) == Some(Rgb(15, 20, 25))
  {
    assert ToHex(Rgb(15, 20, 25)) == INK by {
      assert Pair(15) == "0F" && Pair(20) == "14" && Pair(25) == "19";
    }
    HexRoundTrip(Rgb(15, 20, 25));
  }

  lemma PaperIs()
    ensures ParseHex(PAPER) == Some(Rgb(251, 250, 247))
  {
    assert ToHex(Rgb(251, 250, 247)) == PAPER by {
      assert Pair(251) == "FB" && Pair(250) == "FA" && Pair(247) == "F7";
    }
    HexRoundTrip(Rgb(251, 250, 247));
  }

  // ----- Luminance and contrast -----

  /** From a channel value to its linear light. */
  type Curve = int -> real

  ghost predicate IsCurve(curve: Curve) {
    && curve(0) == 0.0 && curve(255) == 1.0
    && forall c :: Channel(c) ==> 0.0 <= curve(c) <= 1.0
  }

  function Luminance(c: Rgb, curve: Curve): real {
    0.2126 * curve(c.r) + 0.7152 * curve(c.g) + 0.0722 * curve(c.b)
  }

  lemma LuminanceBounds(c: Rgb, curve: Curve)
    requires IsCurve(curve) && Valid(c)
    ensures 0.0 <= Luminance(c, curve) <= 1.0
  {
  }

  function Ratio(a: real, b: real): real
    requires a >= 0.0 && b >= 0.0
  {
    if a > b then (a + 0.05) / (b + 0.05) else (b + 0.05) / (a + 0.05)
  }

  /** Contrast is the quotient of the lighter and the darker light, each with a
      twentieth more; so it does not depend on which colour is in front, and is 21
      between black and white. */
  lemma RatioLaws(a: real, b: real)
    requires 0.0 <= a && 0.0 <= b
    ensures Ratio(a, b) == Ratio(b, a) && Ratio(1.0, 0.0) == 21.0
    ensures a >= b ==> Ratio(a, b) * (b + 0.05) == a + 0.05
  {
  }

  /** How much red, green and blue count. */
  lemma Primaries(curve: Curve)
    requires IsCurve(curve)
    ensures Luminance(Rgb(255, 0, 0), curve) == 0.2126
    ensures Luminance(Rgb(0, 255, 0), curve) == 0.7152
    ensures Luminance(Rgb(0, 0, 255), curve) == 0.0722
  {
  }

  /** The best contrast any colour has on a background: that of black or white. */
  function Best(bg: real): real
    requires 0.0 <= bg <= 1.0
  {
    if Ratio(bg, 0.0) >= Ratio(bg, 1.0) then Ratio(bg, 0.0) else Ratio(bg, 1.0)
  }

  lemma DivideLarger(x: real, y: real, d: real)
    requires d > 0.0 && x <= y
    ensures x / d <= y / d
  {
    assert y / d - x / d == (y - x) / d;
  }

  lemma DivideByLarger(x: real, c: real, d: real)
    requires x >= 0.0 && 0.0 < c <= d
    ensures x / d <= x / c
  {
    assert x / c * c == x;
    assert x / c * d >= x;
    DivideLarger(x, x / c * d, d);
  }

  lemma BestIsBest(bg: real, other: real)
    requires 0.0 <= bg <= 1.0 && 0.0 <= other <= 1.0
    ensures Ratio(bg, other) <= Best(bg)
  {
    if bg > other {
      DivideByLarger(bg + 0.05, 0.05, other + 0.05);
    } else {
      DivideLarger(other + 0.05, 1.05, bg + 0.05);
    }
  }

  /** On every background black or white reaches the ratio demanded for text. */
  lemma BestReachesText(bg: real)
    requires 0.0 <= bg <= 1.0
    ensures Best(bg) >= AA_TEXT
  {
    if bg >= 0.175 {
      DivideLarger(0.225, bg + 0.05, 0.05);
      assert 0.225 / 0.05 == 4.5;
    } else {
      DivideByLarger(1.05, bg + 0.05, 0.225);
      assert 1.05 / 0.225 >= 4.5;
    }
  }

  /** The contrast of a colour on a background luminance. */
  ghost predicate Reaches(hex: string, bg: real, target: real, curve: Curve)
    requires IsCurve(curve) && 0.0 <= bg
  {
    && ParseHex(hex).Some?
    && 0.0 <= Luminance(ParseHex(hex).value, curve)
    && Ratio(bg, Luminance(ParseHex(hex).value, curve)) >= target
  }

  /** The text colour chosen for a background always reaches the text ratio. */
  function ReadableOn(background: string, curve: Curve): (r: string)
    requires IsCurve(curve)
    ensures ParseHex(background).Some? ==>
      && 0.0 <= Luminance(ParseHex(background).value, curve)
      && Reaches(r, Luminance(ParseHex(background).value, curve), AA_TEXT, curve)
    ensures ParseHex(background).None? ==> r == PAPER
  {
    if ParseHex(background).None? then PAPER
    else
      InkIs();
      PaperIs();
      LuminanceBounds(ParseHex(background).value, curve);
      LuminanceBounds(ParseHex(INK).value, curve);
      LuminanceBounds(ParseHex(PAPER).value, curve);
      var bg := Luminance(ParseHex(background).value, curve);
      var onInk := Ratio(bg, Luminance(ParseHex(INK).value, curve));
      var onPaper := Ratio(bg, Luminance(ParseHex(PAPER).value, curve));
      if onInk >= AA_TEXT || onPaper >= AA_TEXT then
        if onInk > onPaper then INK else PAPER
      else
        ExtremesReach(bg, AA_TEXT, curve);
        BestReachesText(bg);
        if Ratio(bg, 0.0) >= Ratio(bg, 1.0) then BLACK else WHITE
  }

  function OnHex(bg: real, hex: string, curve: Curve): real
    requires IsCurve(curve) && 0.0 <= bg && ParseHex(hex).Some?
  {
    LuminanceBounds(ParseHex(hex).value, curve);
    Ratio(bg, Luminance(ParseHex(hex).value, curve))
  }

  /** If ink or paper reaches the text ratio the better of the two is chosen, paper
      on a tie; otherwise black or white, whichever has the best contrast of all. */
  lemma ReadableChoice(background: string, curve: Curve)
    requires IsCurve(curve) && ParseHex(background).Some?
    ensures ParseHex(INK).Some? && ParseHex(PAPER).Some? && 0.0 <= Luminance(ParseHex(background).value, curve) <= 1.0
    ensures var r, bg := ReadableOn(background, curve), Luminance(ParseHex(background).value, curve);
      var onInk, onPaper := OnHex(bg, INK, curve), OnHex(bg, PAPER, curve);
      if onInk >= AA_TEXT || onPaper >= AA_TEXT then r == if onInk > onPaper then INK else PAPER
      else r in {BLACK, WHITE} && ParseHex(r).Some? && OnHex(bg, r, curve) == Best(bg)
  {
    hide ParseHex, Ratio;
    InkIs();
    PaperIs();
    BlackIs();
    WhiteIs();
    LuminanceBounds(ParseHex(background).value, curve);
  }

  /** On white the choice is ink, for every curve that keeps ink dark enough. */
  lemma WhiteGetsInk(curve: Curve)
    requires IsCurve(curve)
    requires Luminance(Rgb(15, 20, 25), curve) <= 0.18 < Luminance(Rgb(251, 250, 247), curve)
    ensures ReadableOn(WHITE, curve) == INK
  {
    InkIs();
    PaperIs();
    WhiteIs();
    ReadableChoice(WHITE, curve);
    hide ParseHex;
    DarkOnWhite(Luminance(Rgb(15, 20, 25), curve), Luminance(Rgb(251, 250, 247), curve));
  }

  lemma DarkOnWhite(dark: real, light: real)
    requires 0.0 <= dark <= 0.18 < light <= 1.0
    ensures Ratio(1.0, dark) >= AA_TEXT && Ratio(1.0, dark) > Ratio(1.0, light)
  {
    DivideByLarger(1.05, dark + 0.05, 0.23);
    assert 1.05 / 0.23 >= 4.5;
    DivideByLarger(1.05, 0.23, light + 0.05);
    assert 1.05 / (dark + 0.05) * (dark + 0.05) == 1.05;
    assert 1.05 / (light + 0.05) * (light + 0.05) == 1.05;
  }

  function Extreme(bg: real): string
    requires 0.0 <= bg
  {
    if Ratio(bg, 0.0) >= Ratio(bg, 1.0) then BLACK else WHITE
  }

  lemma ExtremesReach(bg: real, target: real, curve: Curve)
    requires IsCurve(curve) && 0.0 <= bg <= 1.0
    ensures Reaches(Extreme(bg), bg, target, curve) <==> target <= Best(bg)
  {
    BlackIs();
    WhiteIs();
    assert Luminance(Rgb(0, 0, 0), curve) == 0.0 && Luminance(Rgb(255, 255, 255), curve) == 1.0;
  }

  // ----- The search -----

  /** `Math.round` */
  function Round(x: real): int { (x + 0.5).Floor }

  /** How far `step` of 200 steps lead. */
  function Share(step: nat): real {
    step as real / STEPS as real
  }

  function Portion(d: real, f: real): real {
    d * f
  }

  /** A channel moved `step` of 200 steps towards an extreme. */
  function MovedChannel(c: int, toward: int, step: nat): int {
    Round(c as real + Portion((toward - c) as real, Share(step)))
  }

  function Moved(c: Rgb, toward: int, step: nat): Rgb {
    Rgb(MovedChannel(c.r, toward, step), MovedChannel(c.g, toward, step), MovedChannel(c.b, toward, step))
  }

  lemma MovedChannelInRange(c: int, toward: int, step: nat)
    requires Channel(c) && Channel(toward) && step <= STEPS
    ensures Channel(MovedChannel(c, toward, step))
    ensures step == STEPS ==> MovedChannel(c, toward, step) == toward
  {
    hide Round, Channel, Portion, Share;
    var d := (toward - c) as real;
    ShareWithin(step);
    PortionWithin(d, Share(step));
    MovedBy(c, toward, Portion(d, Share(step)));
  }

  /** There are 200 steps. */
  lemma Halfway()
    ensures Share(100) == 0.5 && STEPS == 200
  {
  }

  lemma ShareWithin(step: nat)
    requires step <= STEPS
    ensures 0.0 <= Share(step) <= 1.0 && (step == STEPS ==> Share(step) == 1.0)
  {
  }

  lemma MovedBy(c: int, toward: int, e: real)
    requires Channel(c) && Channel(toward)
    requires if toward >= c then 0.0 <= e <= (toward - c) as real else (toward - c) as real <= e <= 0.0
    ensures Channel(Round(c as real + e))
    ensures e == (toward - c) as real ==> Round(c as real + e) == toward
  {
  }

  lemma Product(a: real, b: real)
    requires 0.0 <= a && 0.0 <= b
    ensures 0.0 <= a * b
  {
  }

  lemma Expanded(d: real, f: real)
    ensures d * (1.0 - f) == d - d * f && (-d) * f == -(d * f) && (-d) * (1.0 - f) == d * f - d
  {
  }

  /** A portion of a distance stays between nothing and the whole of it. */
  lemma PortionWithin(d: real, f: real)
    requires 0.0 <= f <= 1.0
    ensures var e := Portion(d, f); if d >= 0.0 then 0.0 <= e <= d else d <= e <= 0.0
    ensures f == 1.0 ==> Portion(d, f) == d
  {
    Expanded(d, f);
    if d >= 0.0 {
      Product(d, f);
      Product(d, 1.0 - f);
    } else {
      Product(-d, f);
      Product(-d, 1.0 - f);
    }
  }

  lemma MovedInRange(c: Rgb, toward: int, step: nat)
    requires Valid(c) && Channel(toward) && step <= STEPS
    ensures Valid(Moved(c, toward, step))
    ensures step == STEPS ==> Moved(c, toward, step) == Rgb(toward, toward, toward)
  {
    MovedChannelInRange(c.r, toward, step);
    MovedChannelInRange(c.g, toward, step);
    MovedChannelInRange(c.b, toward, step);
  }

  /** The colour `step` steps on the way reaches the target. */
  ghost predicate StepReaches(fg: Rgb, toward: int, step: nat, bg: real, target: real, curve: Curve)
    requires 0.0 <= bg
  {
    var l := Luminance(Moved(fg, toward, step), curve);
    0.0 <= l && Ratio(bg, l) >= target
  }

  /** The last step arrives at black or white, the best there is. */
  lemma LastStep(fg: Rgb, toward: int, bg: real, target: real, curve: Curve)
    requires IsCurve(curve) && Valid(fg) && 0.0 <= bg <= 1.0
    requires toward == if Ratio(bg, 0.0) >= Ratio(bg, 1.0) then 0 else 255
    ensures StepReaches(fg, toward, STEPS, bg, target, curve) <==> target <= Best(bg)
  {
    MovedInRange(fg, toward, STEPS);
  }

  /** A step that reaches the target prints as a colour that does. */
  lemma StepPrints(fg: Rgb, toward: int, step: nat, bg: real, target: real, curve: Curve)
    requires IsCurve(curve) && Valid(fg) && Channel(toward) && step <= STEPS && 0.0 <= bg <= 1.0
    requires StepReaches(fg, toward, step, bg, target, curve)
    ensures Reaches(ToHex(Moved(fg, toward, step)), bg, target, curve) && target <= Best(bg)
  {
    MovedInRange(fg, toward, step);
    var moved := Moved(fg, toward, step);
    LuminanceBounds(moved, curve);
    HexRoundTrip(moved);
    BestIsBest(bg, Luminance(moved, curve));
  }

  /** The first of the steps that reaches the target, or 0 if none does. */
  method FirstStep(fg: Rgb, toward: int, bg: real, target: real, curve: Curve) returns (first: nat)
    requires IsCurve(curve) && Valid(fg) && Channel(toward) && 0.0 <= bg <= 1.0
    ensures first <= STEPS
    ensures first > 0 ==> StepReaches(fg, toward, first, bg, target, curve)
    ensures forall s: nat :: 1 <= s <= STEPS && (first == 0 || s < first) ==> !StepReaches(fg, toward, s, bg, target, curve)
  {
    for step := 1 to STEPS + 1
      invariant forall s: nat :: 1 <= s < step ==> !StepReaches(fg, toward, s, bg, target, curve)
    {
      var reached := TryStep(fg, toward, step, bg, target, curve);
      if reached { return step; }
    }
    first := 0;
  }

  method TryStep(fg: Rgb, toward: int, step: nat, bg: real, target: real, curve: Curve) returns (reached: bool)
    requires IsCurve(curve) && Valid(fg) && Channel(toward) && step <= STEPS && 0.0 <= bg <= 1.0
    ensures reached <==> StepReaches(fg, toward, step, bg, target, curve)
  {
    var moved := Moved(fg, toward, step);
    MovedInRange(fg, toward, step);
    LuminanceBounds(moved, curve);
    reached := Ratio(bg, Luminance(moved, curve)) >= target;
  }

  /** `r` is the first colour from `fg` towards the better extreme that reaches the target. */
  ghost predicate FirstOnTheWay(r: string, fg: Rgb, bg: real, target: real, curve: Curve)
    requires 0.0 <= bg
  {
    exists step: nat ::
      && 1 <= step <= STEPS && r == ToHex(Moved(fg, Toward(bg), step))
      && StepReaches(fg, Toward(bg), step, bg, target, curve)
      && forall s: nat :: 1 <= s < step ==> !StepReaches(fg, Toward(bg), s, bg, target, curve)
  }

  function Toward(bg: real): int
    requires 0.0 <= bg
  {
    if Ratio(bg, 0.0) >= Ratio(bg, 1.0) then 0 else 255
  }

  /** What the search promises on a background of luminance `bg`. */
  ghost predicate IsFloor(r: string, color: string, bg: real, target: real, curve: Curve)
    requires IsCurve(curve) && 0.0 <= bg <= 1.0 && ParseHex(color).Some?
  {
    && (Reaches(r, bg, target, curve) <==> target <= Best(bg))
    && (Reaches(color, bg, target, curve) ==> r == color)
    && (!Reaches(color, bg, target, curve) && target <= Best(bg) ==>
          FirstOnTheWay(r, ParseHex(color).value, bg, target, curve))
  }

  /**
   * The colour itself if it reaches the target on the background, else the first
   * one on the way to black or white that does. The result reaches every target
   * that some colour reaches, in particular every target up to 4.5; input that
   * is not a colour is returned as it is.
   */
  method ContrastFloor(color: string, on: string, target: real, curve: Curve) returns (r: string)
    requires IsCurve(curve)
    ensures ParseHex(color).None? || ParseHex(on).None? ==> r == color
    ensures ParseHex(color).Some? && ParseHex(on).Some? ==>
      var bg := Luminance(ParseHex(on).value, curve);
      && 0.0 <= bg <= 1.0 && IsFloor(r, color, bg, target, curve)
      && (target <= AA_TEXT ==> Reaches(r, bg, target, curve))
  {
    if ParseHex(color).None? || ParseHex(on).None? { return color; }
    var fg, bgRgb := ParseHex(color).value, ParseHex(on).value;
    LuminanceBounds(fg, curve);
    LuminanceBounds(bgRgb, curve);
    var bg := Luminance(bgRgb, curve);
    BestReachesText(bg);
    r := FloorOn(color, fg, bg, target, curve);
  }

  method FloorOn(color: string, fg: Rgb, bg: real, target: real, curve: Curve) returns (r: string)
    requires IsCurve(curve) && 0.0 <= bg <= 1.0 && ParseHex(color) == Some(fg) && 0.0 <= Luminance(fg, curve) <= 1.0
    ensures IsFloor(r, color, bg, target, curve)
  {
    BestIsBest(bg, Luminance(fg, curve));
    if Ratio(bg, Luminance(fg, curve)) >= target { return color; }
    var toward := Toward(bg);
    var step := FirstStep(fg, toward, bg, target, curve);
    if step > 0 {
      StepPrints(fg, toward, step, bg, target, curve);
      return ToHex(Moved(fg, toward, step));
    }
    LastStep(fg, toward, bg, target, curve);
    ExtremesReach(bg, target, curve);
    r := if toward == 0 then BLACK else WHITE;
  }
}
