/** How the page's preview relates to the backend's settlement.  A threshold
    of `k` hundredths is `k` in backend/main.go and `k / 100` on the page; a
    wager of `w` cents is a stake of `w / 100`. */
module Agreement {
  import opened Binary
  import opened Arith
  import opened Odds
  import opened Widget
  import Backend
  import ClientSeed

  /** Real division of integers rounds down to integer division. */
  lemma RealDivFloor(a: nat, b: nat)
    requires b > 0
    ensures ((a as real) / (b as real)).Floor == a / b
  {
    var q, r := a / b, a % b;
    assert a == b * q + r;
    assert (a as real) == (b as real) * (q as real) + (r as real);
    assert (a as real) / (b as real) == (q as real) + (r as real) / (b as real);
    assert 0.0 <= (r as real) / (b as real) < 1.0;
  }

  lemma FloorShift(y: real, n: int)
    ensures (y - n as real).Floor == y.Floor - n
  {
  }

  /** The page's profit for a win chance of `m` hundredths and a stake of `w`
      cents, as an integer number of cents. */
  lemma PreviewProfit(w: nat, m: nat)
    requires m > 0
    ensures Profit((w as real) / 100.0, (m as real) / 100.0) == (((9900 * w) / m - w) as real) / 100.0
  {
    var W, M := w as real, m as real;
    var wc := M / 100.0;
    assert 1.0 / (wc / 100.0) == 10000.0 / M;
    assert Payout(wc) == 9900.0 / M;
    var x := (W / 100.0) * (Payout(wc) - 1.0);
    assert x * 100.0 == ((9900 * w) as real) / M - W;
    RealDivFloor(9900 * w, m);
    FloorShift(((9900 * w) as real) / M, w);
    assert (x * 100.0).Floor == (9900 * w) / m - w;
    assert Profit(W / 100.0, wc) == Floor2(x);
  }

  /** The backend's winning delta, as a quotient of cents. */
  lemma SettlementDelta(w: nat, rollUnder: bool, k: int)
    requires Backend.ThresholdInRange(rollUnder, k)
    ensures Backend.UnderAmount(rollUnder, k) > 0
    ensures Backend.Delta(w, rollUnder, k, true) == (9900 * w) / Backend.UnderAmount(rollUnder, k) - w
  {
    var u := Backend.UnderAmount(rollUnder, k);
    assert w * 10000 * (100 - Backend.HOUSE_EDGE_PCT) == (9900 * w) * 100;
    DivCancel(9900 * w, u, 100);
  }

  /** Rolling under, the profit the page previews is exactly what a win
      settles to. */
  lemma UnderPreviewIsSettlement(w: nat, k: int)
    requires Backend.ThresholdInRange(true, k)
    ensures Profit((w as real) / 100.0, WinChance(true, (k as real) / 100.0))
            == (Backend.Delta(w, true, k, true) as real) / 100.0
  {
    SettlementDelta(w, true, k);
    PreviewProfit(w, k);
  }

  /** Rolling over, the page's win chance is the true number of winning rolls,
      while the backend pays on the base `10000 - k`, one roll more; so the
      preview never shows less than a win settles to. */
  lemma OverPreviewAtLeastSettlement(w: nat, k: int)
    requires Backend.ThresholdInRange(false, k)
    ensures WinChance(false, (k as real) / 100.0) * 100.0 == Backend.CountWins(false, k, Backend.ROLLS) as real
    ensures Backend.UnderAmount(false, k) == Backend.CountWins(false, k, Backend.ROLLS) + 1
    ensures (Backend.Delta(w, false, k, true) as real) / 100.0
            <= Profit((w as real) / 100.0, WinChance(false, (k as real) / 100.0))
  {
    Backend.WinningRolls(false, k);
    var m := 9999 - k;
    assert WinChance(false, (k as real) / 100.0) == (m as real) / 100.0;
    PreviewProfit(w, m);
    SettlementDelta(w, false, k);
    DivAntitone(9900 * w, m, 10000 - k);
  }

  /** The difference is visible: rolling over 98.99 with a stake of 1.00, the
      page shows a profit of 98.00 while a win settles to 97.01. */
  lemma OverPreviewOverstates()
    ensures Profit(1.0, WinChance(false, 98.99)) == 98.0
    ensures Backend.Delta(100, false, 9899, true) == 9701
  {
    PreviewProfit(100, 100);
    assert WinChance(false, 98.99) == 1.0;
    SettlementDelta(100, false, 9899);
  }

  /** The page's slider ranges are the backend's, except that rolling under
      the backend also accepts 0.01 to 0.99. */
  lemma RangesAgree(isUnder: bool, k: int)
    ensures InModeRange(isUnder, (k as real) / 100.0)
            <==> Backend.ThresholdInRange(isUnder, k) && (isUnder ==> k >= 100)
  {
  }

  /** The lowest UNDER threshold: the backend settles a bet on 0.01, which the
      page refuses as a win chance. */
  lemma MinimumUnderDiffers(s: BetState)
    requires s.isUnder
    ensures Backend.CheckThreshold(true, 1).Ok?
    ensures WithWinChance(s, 0.01).invalid
  {
  }

  /** The client seed the page generates, sent as the character codes of its
      digits, is a byte string that passes the backend's length check. */
  lemma GeneratedSeedAccepted(random: seq<byte>)
    requires |random| == ClientSeed.CLIENT_SEED_BYTES
    ensures var h := ClientSeed.HexLowFirst(random);
      && (forall i :: 0 <= i < |h| ==> h[i] as int < 256)
      && Backend.CheckClientSeed(seq(|h|, i requires 0 <= i < |h| && h[i] as int < 256 => h[i] as int as byte)).Ok?
  {
    ClientSeed.SeedLength(random);
    ClientSeed.HexAlphabet(random);
  }
}
