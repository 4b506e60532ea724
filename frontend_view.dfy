/** `render(exclude)` of frontend/public/index.js: how the bet state reaches
    the twelve display fields, including the slider-fill correction.  Number
    formatting (`toFixed`, `toString`) is kept symbolic in the cell kinds. */
module View {
  import opened Odds
  import opened Widget

  /** What a display field holds. */
  datatype Cell =
    | Blank                 // the empty string
    | ZeroWidthSpace        // "​"
    | Num(x: real)          // a number written as such (`value = n`, `toString()`)
    | Fixed2(x: real)       // `x.toFixed(2)`
    | Width(percent: real)  // a CSS width of `percent`%
    | Text(s: string)

  /** The display surface: stake input, the UNDER/OVER label, the slider
      (bounds, value, fill), the threshold label, the win-chance, payout and
      profit inputs, and the two hidden form fields. */
  datatype Display = Display(
    betAmount: Cell,
    rollUoText: Cell,
    sliderMin: Cell, sliderMax: Cell, sliderValue: Cell, sliderFill: Cell,
    rollThresholdText: Cell,
    winChance: Cell, payout: Cell, profit: Cell,
    isUnder: Cell, threshold: Cell)

  /** The slider's linear position: (1, 98.02) onto (0, 100). */
  function SliderPercent(threshold: real): real
  {
    (threshold - 1.0) / 97.02 * 100.0
  }

  /** The fill width, corrected so that it stays hidden behind the thumb. */
  function SliderFill(threshold: real): real
  {
    var p := SliderPercent(threshold);
    if p > 60.0 then p - 1.0
    else if p > 3.0 && p < 6.0 then p + 1.0
    else if p <= 3.0 then p + 2.0
    else p
  }

  /** A falsy number (0) displays as the empty string. */
  function NumberOrBlank(x: real): Cell
  {
    if x == 0.0 then Blank else Num(x)
  }

  /** The payout field.  A zero win chance divides by zero: JavaScript gives
      Infinity, which `toFixed` writes as "Infinity". */
  function PayoutCell(s: BetState): Cell
  {
    var wc := StateWinChance(s);
    if wc == 0.0 then Text("Infinity") else Fixed2(Payout(wc))
  }

  /** The profit field.  With an infinite payout the profit is Infinity,
      -Infinity or, for a zero stake, NaN, which is falsy like 0. */
  function ProfitCell(s: BetState): Cell
  {
    var wc := StateWinChance(s);
    if wc == 0.0 then
      if s.betAmount > 0.0 then Text("Infinity")
      else if s.betAmount < 0.0 then Text("-Infinity")
      else Blank
    else NumberOrBlank(Profit(s.betAmount, wc))
  }

  /** Everything a valid state shows when nothing is excluded. */
  function Shown(s: BetState): Display
  {
    Display(
      NumberOrBlank(s.betAmount),
      Text(if s.isUnder then "UNDER" else "OVER"),
      Num(if s.isUnder then UNDER_MIN else OVER_MIN),
      Num(if s.isUnder then UNDER_MAX else OVER_MAX),
      Num(s.rollThreshold),
      Width(SliderFill(s.rollThreshold)),
      Fixed2(s.rollThreshold),
      Fixed2(StateWinChance(s)),
      PayoutCell(s),
      ProfitCell(s),
      Text(if s.isUnder then "true" else "false"),
      Num(s.rollThreshold))
  }

  /** What `render(exclude)` leaves on a display that showed `before`.  While
      invalid it blanks the threshold label, payout and profit and empties the
      slider, touching nothing else; when valid it writes every field except
      the group `exclude` names. */
  function Rendered(before: Display, s: BetState, exclude: string): Display
  {
    if s.invalid then
      before.(rollThresholdText := ZeroWidthSpace, payout := Blank, profit := Blank,
              sliderValue := before.sliderMin, sliderFill := Width(0.0))
    else
      var full := Shown(s);
      var slider := exclude != "betSlider";
      Display(
        if exclude != "betAmount" then full.betAmount else before.betAmount,
        if slider then full.rollUoText else before.rollUoText,
        if slider then full.sliderMin else before.sliderMin,
        if slider then full.sliderMax else before.sliderMax,
        if slider then full.sliderValue else before.sliderValue,
        if slider then full.sliderFill else before.sliderFill,
        if exclude != "rollThreshold" then full.rollThresholdText else before.rollThresholdText,
        if exclude != "winChance" then full.winChance else before.winChance,
        if exclude != "payout" then full.payout else before.payout,
        if exclude != "profit" then full.profit else before.profit,
        if exclude != "isUnder" then full.isUnder else before.isUnder,
        if exclude != "threshold" then full.threshold else before.threshold)
  }

  /** While invalid, render changes exactly the threshold label, payout,
      profit and the slider's value and fill; whatever was excluded. */
  lemma RenderInvalid(before: Display, s: BetState, exclude: string)
    requires s.invalid
    ensures var d := Rendered(before, s, exclude);
      && d.rollThresholdText == ZeroWidthSpace && d.payout == Blank && d.profit == Blank
      && d.sliderValue == before.sliderMin && d.sliderFill == Width(0.0)
      && d.betAmount == before.betAmount && d.winChance == before.winChance
      && d.isUnder == before.isUnder && d.threshold == before.threshold
      && d.rollUoText == before.rollUoText
      && d.sliderMin == before.sliderMin && d.sliderMax == before.sliderMax
  {
  }

  /** A full render of a valid state depends on the state alone. */
  lemma RenderFullForgetsPast(before1: Display, before2: Display, s: BetState)
    requires !s.invalid
    ensures Rendered(before1, s, "") == Rendered(before2, s, "") == Shown(s)
  {
  }

  /** When valid, the win-chance input, as typed, is left alone and every
      other field shows the state. */
  lemma RenderKeepsTypedWinChance(before: Display, s: BetState)
    requires !s.invalid
    ensures Rendered(before, s, "winChance") == Shown(s).(winChance := before.winChance)
  {
  }

  /** When valid, excluding the stake leaves only the stake input alone. */
  lemma RenderKeepsTypedBetAmount(before: Display, s: BetState)
    requires !s.invalid
    ensures Rendered(before, s, "betAmount") == Shown(s).(betAmount := before.betAmount)
  {
  }

  /** Rendering the same state twice changes nothing the second time. */
  lemma RenderIdempotent(before: Display, s: BetState, exclude: string)
    ensures Rendered(Rendered(before, s, exclude), s, exclude) == Rendered(before, s, exclude)
  {
  }

  /** The excluded field catches up with the state at the next full render. */
  lemma RenderCatchesUp(before: Display, s: BetState, exclude: string)
    requires !s.invalid
    ensures Rendered(Rendered(before, s, exclude), s, "") == Shown(s)
  {
  }

  /** The profit field is blank exactly when the profit is zero (or, with a
      zero win chance, when the stake is zero). */
  lemma ProfitBlankWhenZero(s: BetState)
    ensures StateWinChance(s) != 0.0 ==>
              (ProfitCell(s) == Blank <==> Profit(s.betAmount, StateWinChance(s)) == 0.0)
    ensures StateWinChance(s) == 0.0 ==> (ProfitCell(s) == Blank <==> s.betAmount == 0.0)
  {
  }

  /** The stake input is blank exactly when the stake is zero. */
  lemma BetAmountBlankWhenZero(s: BetState)
    ensures Shown(s).betAmount == Blank <==> s.betAmount == 0.0
    ensures s.betAmount != 0.0 ==> Shown(s).betAmount == Num(s.betAmount)
  {
  }

  /** The page as first rendered: stake 10, UNDER 49.50 shows payout 2.00 and
      profit 10. */
  lemma DefaultDisplay()
    ensures Shown(BetState(10.0, true, 49.5, false)).payout == Fixed2(2.0)
    ensures Shown(BetState(10.0, true, 49.5, false)).profit == Num(10.0)
  {
    DefaultOdds();
  }

  /** The lowest threshold fills 2% of the slider. */
  lemma SliderFillAtMinimum()
    ensures SliderFill(UNDER_MIN) == 2.0
  {
  }

  /** For every threshold either mode offers, the fill stays within [2, 100). */
  lemma SliderFillBounds(threshold: real)
    requires UNDER_MIN <= threshold <= OVER_MAX
    ensures 2.0 <= SliderFill(threshold) < 100.0
  {
    var p := SliderPercent(threshold);
    assert p >= 0.0;
    assert p * 97.02 == (threshold - 1.0) * 100.0;
    assert p < 101.0;
  }

  /** The middle band is open at 6: a base of exactly 6 is left as it is,
      while a base of 5.5 becomes 6.5, so the fill is not monotone. */
  lemma SliderBandStrictAtSix()
    ensures SliderPercent(6.8212) == 6.0 && SliderFill(6.8212) == 6.0
    ensures SliderPercent(6.3361) == 5.5 && SliderFill(6.3361) == 6.5
    ensures 6.3361 < 6.8212 && SliderFill(6.3361) > SliderFill(6.8212)
  {
  }

  /** The page's display surface, updated one field at a time by `Render`. */
  class Page {
    var shown: Display

    constructor (initial: Display)
      ensures shown == initial
    {
      shown := initial;
    }

    /** `render(exclude)`, reading the widget's live state. */
    method Render(config: BetConfig, exclude: string)
      modifies this
      ensures shown == Rendered(old(shown), config.State(), exclude)
    {
      var s := config.State();
      if s.invalid {
        shown := shown.(rollThresholdText := ZeroWidthSpace);
        shown := shown.(payout := Blank);
        shown := shown.(profit := Blank);
        shown := shown.(sliderValue := shown.sliderMin);
        shown := shown.(sliderFill := Width(0.0));
        return;
      }
      if exclude != "betAmount" {
        if s.betAmount == 0.0 {
          shown := shown.(betAmount := Blank);
        } else {
          shown := shown.(betAmount := Num(s.betAmount));
        }
      }
      if exclude != "betSlider" {
        shown := shown.(rollUoText := Text(if s.isUnder then "UNDER" else "OVER"));
        if s.isUnder {
          shown := shown.(sliderMin := Num(UNDER_MIN), sliderMax := Num(UNDER_MAX));
        } else {
          shown := shown.(sliderMin := Num(OVER_MIN), sliderMax := Num(OVER_MAX));
        }
        shown := shown.(sliderValue := Num(s.rollThreshold));
        var percentage := (s.rollThreshold - 1.0) / 97.02 * 100.0;
        if percentage > 60.0 {
          percentage := percentage - 1.0;
        } else if percentage > 3.0 && percentage < 6.0 {
          percentage := percentage + 1.0;
        } else if percentage <= 3.0 {
          percentage := percentage + 2.0;
        }
        assert percentage == SliderFill(s.rollThreshold);
        shown := shown.(sliderFill := Width(percentage));
      }
      if exclude != "rollThreshold" {
        shown := shown.(rollThresholdText := Fixed2(s.rollThreshold));
      }
      if exclude != "winChance" {
        shown := shown.(winChance := Fixed2(StateWinChance(s)));
      }
      if exclude != "payout" {
        shown := shown.(payout := PayoutCell(s));
      }
      if exclude != "profit" {
        shown := shown.(profit := ProfitCell(s));
      }
      if exclude != "isUnder" {
        shown := shown.(isUnder := Text(if s.isUnder then "true" else "false"));
      }
      if exclude != "threshold" {
        shown := shown.(threshold := Num(s.rollThreshold));
      }
    }
  }
}
