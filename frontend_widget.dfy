/** The bet-configuration state machine of frontend/public/index.js: the
    `state` record, its five `actions`, and the properties they keep. */
module Widget {
  import opened Odds
  import opened Results

  /** The authoritative fields: stake, roll mode, threshold and the invalid flag. */
  datatype BetState = BetState(betAmount: real, isUnder: bool, rollThreshold: real, invalid: bool)

  /** `parseFloat(field) || fallback`: `None` is NaN; NaN and 0 are both falsy. */
  function ParsedOr(field: Option<real>, fallback: real): real
  {
    if field.Some? && field.value != 0.0 then field.value else fallback
  }

  /** The state the page starts from, given the parsed stake and threshold
      fields.  The mode is always UNDER: `parseFloat` of "true" or "false" is
      NaN, so `|| true` decides. */
  function Initial(betAmountField: Option<real>, thresholdField: Option<real>): (s: BetState)
    ensures s.isUnder && !s.invalid
    ensures thresholdField.None? || thresholdField == Some(0.0) ==> s.rollThreshold == 49.5
    ensures thresholdField.Some? && thresholdField.value != 0.0 ==> s.rollThreshold == thresholdField.value
    ensures betAmountField.Some? ==> s.betAmount == betAmountField.value
    ensures betAmountField.None? ==> s.betAmount == 0.0
    ensures s.rollThreshold != 0.0
  {
    BetState(ParsedOr(betAmountField, 0.0), true, ParsedOr(thresholdField, 49.5), false)
  }

  function StateWinChance(s: BetState): real
  {
    WinChance(s.isUnder, s.rollThreshold)
  }

  /** The threshold range the slider offers in a mode. */
  predicate InModeRange(isUnder: bool, threshold: real)
  {
    if isUnder then UNDER_MIN <= threshold <= UNDER_MAX else OVER_MIN <= threshold <= OVER_MAX
  }

  /** After a bet the page is served again with the posted threshold in its
      hidden field, while `isUnder` is always UNDER on load.  An OVER threshold
      above UNDER_MAX therefore comes back as a valid UNDER state outside the
      UNDER range, whose win chance is the threshold itself instead of its
      complement. */
  lemma ReloadAfterOverBet(betAmountField: Option<real>, overThreshold: real)
    requires OVER_MIN <= overThreshold <= OVER_MAX && overThreshold > UNDER_MAX
    ensures var s := Initial(betAmountField, Some(overThreshold));
      && s.isUnder && !s.invalid && s.rollThreshold == overThreshold
      && !InModeRange(true, s.rollThreshold)
      && StateWinChance(s) != WinChance(false, overThreshold)
  {
  }

  /** `actions.toggle`: while valid, flips the mode and moves the threshold to
      the complementary side of the roll space. */
  function Toggled(s: BetState): (r: BetState)
    ensures s.invalid ==> r == s
    ensures !s.invalid ==> !r.invalid && r.isUnder == !s.isUnder && r.betAmount == s.betAmount
    ensures !s.invalid ==> Cents(r.rollThreshold)
    ensures !s.invalid ==> -0.005 < r.rollThreshold - (ROLL_SPACE_MAX - s.rollThreshold) <= 0.005
  {
    if s.invalid then s
    else s.(isUnder := !s.isUnder, rollThreshold := Round2(ROLL_SPACE_MAX - s.rollThreshold))
  }

  /** `actions.setRollThreshold`. */
  function WithRollThreshold(s: BetState, threshold: real): (r: BetState)
    ensures !r.invalid && r.rollThreshold == threshold
    ensures r.isUnder == s.isUnder && r.betAmount == s.betAmount
  {
    s.(rollThreshold := threshold, invalid := false)
  }

  /** `actions.setWinChance`: below the mode's minimum the state only becomes
      invalid; otherwise the threshold follows the win chance and the state is
      valid again.  No upper bound is checked. */
  function WithWinChance(s: BetState, winChance: real): (r: BetState)
    ensures r.isUnder == s.isUnder && r.betAmount == s.betAmount
    ensures s.isUnder && winChance < UNDER_MIN ==> r == s.(invalid := true)
    ensures !s.isUnder && winChance < OVER_MIN ==> r == s.(invalid := true)
    ensures s.isUnder && winChance >= UNDER_MIN ==> !r.invalid && StateWinChance(r) == winChance
    ensures !s.isUnder && winChance >= OVER_MIN ==>
              && !r.invalid && Cents(r.rollThreshold)
              && -0.005 <= StateWinChance(r) - winChance < 0.005
  {
    if s.isUnder then
      if winChance < UNDER_MIN then s.(invalid := true)
      else s.(rollThreshold := winChance, invalid := false)
    else
      if winChance < OVER_MIN then s.(invalid := true)
      else s.(rollThreshold := Round2(ROLL_SPACE_MAX - winChance), invalid := false)
  }

  /** `actions.setBetAmount`. */
  function WithBetAmount(s: BetState, betAmount: real): (r: BetState)
    ensures r.betAmount == betAmount
    ensures r.isUnder == s.isUnder && r.rollThreshold == s.rollThreshold && r.invalid == s.invalid
  {
    s.(betAmount := betAmount)
  }

  /** The threshold `recover` restores in a mode: 49.50 rolling under, and its
      toggle image 50.49 rolling over. */
  function RecoveryThreshold(isUnder: bool): real
  {
    if isUnder then 49.5 else 50.49
  }

  /** `actions.recover`: a no-op while valid; otherwise the mode's default
      threshold, valid again. */
  function Recovered(s: BetState): (r: BetState)
    ensures !s.invalid ==> r == s
    ensures s.invalid ==> !r.invalid && r.rollThreshold == RecoveryThreshold(s.isUnder)
                          && r.isUnder == s.isUnder && r.betAmount == s.betAmount
  {
    if !s.invalid then s else s.(rollThreshold := RecoveryThreshold(s.isUnder), invalid := false)
  }

  /** Toggling twice restores a valid state whose threshold is a whole number
      of hundredths. */
  lemma ToggleTwice(s: BetState)
    requires !s.invalid && Cents(s.rollThreshold)
    ensures Toggled(Toggled(s)) == s
  {
    var t := s.rollThreshold;
    ComplementOfCents(t);
    var once := Toggled(s);
    assert once == s.(isUnder := !s.isUnder, rollThreshold := ROLL_SPACE_MAX - t);
    assert ROLL_SPACE_MAX - once.rollThreshold == t;
    Round2OfCents(t);
  }

  /** A threshold off the hundredths grid is not restored: the UNDER branch of
      `setWinChance` stores 1.005 as typed, and two toggles give 1.00. */
  lemma ToggleTwiceRounds()
    ensures Toggled(Toggled(WithWinChance(BetState(0.0, true, 49.5, false), 1.005))).rollThreshold == 1.0
  {
    var s := WithWinChance(BetState(0.0, true, 49.5, false), 1.005);
    assert s.rollThreshold == 1.005;
    assert (ROLL_SPACE_MAX - 1.005) * 100.0 + 0.5 == 9899.0;
    assert Round2(ROLL_SPACE_MAX - 1.005) == 98.99;
    assert (ROLL_SPACE_MAX - 98.99) * 100.0 + 0.5 == 100.5;
  }

  /** On the hundredths grid, toggling keeps the win chance, and so the payout
      and profit, unchanged. */
  lemma ToggleKeepsWinChance(s: BetState)
    requires !s.invalid && Cents(s.rollThreshold)
    ensures StateWinChance(Toggled(s)) == StateWinChance(s)
  {
    ComplementOfCents(s.rollThreshold);
  }

  /** Toggling maps the UNDER range [1.00, 98.02] exactly onto the OVER range
      [1.97, 98.99], in both directions. */
  lemma ToggleMapsRanges(s: BetState)
    requires !s.invalid && Cents(s.rollThreshold)
    ensures InModeRange(Toggled(s).isUnder, Toggled(s).rollThreshold) <==> InModeRange(s.isUnder, s.rollThreshold)
  {
    ComplementOfCents(s.rollThreshold);
  }

  /** Win chance has no upper bound: in UNDER mode 150 is accepted as a
      threshold, and the state is valid although outside the slider's range. */
  lemma WinChanceUnbounded()
    ensures !WithWinChance(BetState(0.0, true, 49.5, false), 150.0).invalid
    ensures !InModeRange(true, WithWinChance(BetState(0.0, true, 49.5, false), 150.0).rollThreshold)
  {
  }

  /** In OVER mode the check compares a win chance with `OVER_MIN`, which
      bounds thresholds: 1.97 is accepted (threshold 98.02) and 1.96 refused,
      so a win chance of 1.00 is refused although its threshold, 98.99, lies in
      the OVER slider's range. */
  lemma OverCheckUsesThresholdBound(s: BetState)
    requires !s.isUnder
    ensures WithWinChance(s, 1.96).invalid
    ensures !WithWinChance(s, 1.97).invalid && WithWinChance(s, 1.97).rollThreshold == 98.02
    ensures WithWinChance(s, 1.0).invalid && InModeRange(false, ROLL_SPACE_MAX - 1.0)
  {
    assert (ROLL_SPACE_MAX - 1.97) * 100.0 + 0.5 == 9802.5;
  }

  /** The two branches of `setWinChance` round differently: UNDER stores the
      chance as typed, OVER stores a rounded threshold. */
  lemma WinChanceRoundingDiffers(s: BetState)
    requires !s.invalid
    ensures !Cents(WithWinChance(s.(isUnder := true), 1.005).rollThreshold)
    ensures Cents(WithWinChance(s.(isUnder := false), 1.975).rollThreshold)
  {
    assert (1.005 * 100.0).Floor == 100;
  }

  /** Typing 0.5 as the win chance makes the state invalid in either mode, and
      `recover` then restores 49.50 (UNDER) or 50.49 (OVER). */
  lemma InvalidThenRecover(s: BetState)
    ensures WithWinChance(s, 0.5).invalid
    ensures Recovered(WithWinChance(s, 0.5)) == s.(rollThreshold := RecoveryThreshold(s.isUnder), invalid := false)
  {
  }

  /** The OVER recovery threshold is the toggle image of the UNDER one, and the
      two have the same win chance. */
  lemma RecoveryThresholdsCorrespond()
    ensures Round2(ROLL_SPACE_MAX - RecoveryThreshold(true)) == RecoveryThreshold(false)
    ensures WinChance(false, RecoveryThreshold(false)) == WinChance(true, RecoveryThreshold(true)) == 49.5
  {
    assert (ROLL_SPACE_MAX - 49.5) * 100.0 + 0.5 == 5049.5;
  }

  /** The widget's live state; each action changes it in place. */
  class BetConfig {
    var betAmount: real
    var isUnder: bool
    var rollThreshold: real
    var invalid: bool

    function State(): BetState
      reads this
    {
      BetState(betAmount, isUnder, rollThreshold, invalid)
    }

    constructor (betAmountField: Option<real>, thresholdField: Option<real>)
      ensures State() == Initial(betAmountField, thresholdField)
    {
      betAmount := ParsedOr(betAmountField, 0.0);
      isUnder := true;
      rollThreshold := ParsedOr(thresholdField, 49.5);
      invalid := false;
    }

    method Toggle()
      modifies this
      ensures State() == Toggled(old(State()))
    {
      if invalid {
        return;
      }
      isUnder := !isUnder;
      rollThreshold := Round2(ROLL_SPACE_MAX - rollThreshold);
    }

    method SetRollThreshold(threshold: real)
      modifies this
      ensures State() == WithRollThreshold(old(State()), threshold)
    {
      rollThreshold := threshold;
      invalid := false;
    }

    method SetWinChance(winChance: real)
      modifies this
      ensures State() == WithWinChance(old(State()), winChance)
    {
      if isUnder {
        if winChance < UNDER_MIN {
          invalid := true;
          return;
        }
        rollThreshold := winChance;
        invalid := false;
      } else {
        if winChance < OVER_MIN {
          invalid := true;
          return;
        }
        rollThreshold := Round2(ROLL_SPACE_MAX - winChance);
        invalid := false;
      }
    }

    method SetBetAmount(amount: real)
      modifies this
      ensures State() == WithBetAmount(old(State()), amount)
    {
      betAmount := amount;
    }

    method Recover()
      modifies this
      ensures State() == Recovered(old(State()))
    {
      if !invalid {
        return;
      }
      rollThreshold := if isUnder then 49.5 else 50.49;
      invalid := false;
    }
  }
}
