# ivy-dice in Dafny

ivy-dice is a provably-fair dice game. A roll is one of 0.00 to 99.99, and the
player bets that it lands under a threshold (UNDER mode) or over it (OVER
mode). The backend accepts thresholds 0.01 to 98.02 rolling under and 1.97 to
98.99 rolling over. The page's slider offers 1.00 to 98.02 and 1.97 to 98.99. The backend derives the roll from SHA-256 of its server seed and
the player's client seed.

This project models three parts of the system and proves properties of each:

- **The page's bet widget** (`frontend/public/index.js`):
  - the `state` record and its five actions;
  - the odds it previews: win chance, payout and profit;
  - `render`, including the slider-fill correction;
  - the client-seed hex encoder.
- **The backend's bet settlement** (`backend/main.go`):
  - the threshold, wager and client-seed checks;
  - `Roll`, the win test, the house-edged payout and the clamped balance;
  - the deposit and withdrawal amount checks;
  - the list-count normalisation;
  - the compare-and-swap of a user row (`backend/db.go`).
- **The byte-level helpers** (`backend/util.go`):
  - the cents-to-raw scaling;
  - the 32-byte deposit/withdrawal identifier;
  - the fixed-length key decoders;
  - the 96-byte withdrawal message;
  - the checks `VerifyMessage` makes.

The files are:

| file | module | contents |
|---|---|---|
| `results.dfy` | `Results` | `Option` and `Result` |
| `binary.dfy` | `Binary` | Go's `uint16`/`uint64`/`int64`, `int64(x)` wrap-around, little-endian `Uint64`/`PutUint64` |
| `arith.dfy` | `Arith` | facts about integer division with a variable divisor |
| `backend_util.dfy` | `BackendUtil` | `backend/util.go` |
| `backend_main.dfy` | `Backend` | `backend/main.go`, plus the compare-and-swap of `backend/db.go` |
| `frontend_odds.dfy` | `Odds` | `round2`, `floor2` and `computed` |
| `frontend_widget.dfy` | `Widget` | `state` and `actions`; the live state is the class `BetConfig` |
| `frontend_view.dfy` | `View` | `render`; the page's display is the class `Page` |
| `frontend_seed.dfy` | `ClientSeed` | the client-seed loop |
| `agreement.dfy` | `Agreement` | how the page's preview relates to the backend's settlement |

Numbers follow each side's own representation:

- **Backend.** Amounts are integer cents and thresholds integer hundredths.
  Go's fixed-width wrap-around is written out where it can happen:
  - the `uint64` product in `CentsToRaw`;
  - the `int64` conversions in `onBet`.
- **Page.** Numbers are exact `real`s:
  - `Math.round`/`Math.floor` become `.Floor`;
  - `toFixed` and `toString` stay symbolic in the display cells.

Thresholds on the page are reals, not integer hundredths, because the UNDER
branch of `setWinChance` stores whatever was typed. A threshold off the
hundredths grid is therefore reachable, and toggling rounds it (`Widget.ToggleTwiceRounds`).

The imperative parts of the source are imperative here:

- `BetConfig`'s methods update its fields in place.
- `Page.Render` updates the display one field at a time, with the same early return.
- `ClientSeedHex`, `PutUint64` (on an `array`) and `GenerateID` are loops or in-place writes.
- `OnBet`, `OnDeposit`, `OnWithdraw` and `VerifyMessage` are chains of early returns.

Each is proved against a pure function that states the new state or the
result. The lemmas are about those functions.

Two details of the page's code the lemmas pin down:

- At a win chance of 49.50 the payout is exactly `(100/49.5)·0.99 = 2`, and a stake of 10 shows a profit of 10.00 (`Odds.DefaultOdds`, `View.DefaultDisplay`).
- The middle slider band is `3 < p < 6`, open at 6 (`View.SliderBandStrictAtSix`).

Two differences between page and backend are real, and the model shows them:

- **Minimum UNDER threshold.** The backend accepts 0.01 to 0.99 rolling under; the page refuses those as win chances (`Agreement.MinimumUnderDiffers`, `Agreement.RangesAgree`).
- **OVER payout base.** Rolling over, the page previews on the true number of winning rolls, `9999 − k`. The backend pays on `10000 − k`, so the preview can show more than a win pays (`Agreement.OverPreviewAtLeastSettlement`, `Agreement.OverPreviewOverstates`). Rolling under, the two agree exactly (`Agreement.UnderPreviewIsSettlement`).

## Model

| member | source | states |
|---|---|---|
| Binary.ToI64 | backend/main.go:188-194 | `int64(x)` is `x` whenever `x` fits, and otherwise differs from it by a multiple of 2^64 |
| Binary.Uint64 | backend/main.go:50 | the value read from eight bytes is the number whose little-endian encoding they are |
| Binary.PutUint64 | backend/util.go:145 | the eight little-endian bytes of `v` land in `a[off..off+8]` and every other element is unchanged |
| Binary.LeValueOfBytes | backend/util.go:145 | decoding the little-endian encoding of a value returns that value |
| Binary.LeBytesOfValue | backend/main.go:50 | encoding the value of a byte string gives the byte string back |
| BackendUtil.CentsToRaw | backend/util.go:131-136 | the result is cents × 10^7 exactly when the amount is at most 1844674407370 cents; otherwise it is that product wrapped modulo 2^64 |
| BackendUtil.GenerateID | backend/util.go:139-147 | the identifier has 32 bytes: the 24 random bytes, then `amountRaw` as a little-endian uint64 that decodes back to `amountRaw` |
| BackendUtil.DecodeFixed | backend/util.go:150-161 | succeeds iff decoding succeeded with exactly `n` bytes, returns them verbatim, and names the failure otherwise |
| BackendUtil.DecodeHex32 | backend/util.go:150-161 | succeeds iff the hex decodes to exactly 32 bytes; the result is those bytes |
| BackendUtil.MustDecodeBase58PublicKey | backend/util.go:20-31 | succeeds (does not panic) iff the base58 decodes to exactly 32 bytes; the key is those bytes |
| BackendUtil.MustDecodeHexPrivateKey | backend/util.go:33-44 | succeeds (does not panic) iff the hex decodes to exactly 64 bytes; the key is those bytes |
| BackendUtil.WithdrawalMessage | backend/util.go:47-54 | the signed message is 96 bytes: game address, user key and withdrawal id, in that order |
| BackendUtil.VerifyMessage | backend/util.go:69-120 | accepts iff both keys decode to 32 bytes, the game is the configured one, `from ≤ now ≤ to`, the signature has 64 bytes and verifies; returns the user key; reports the format, key-length, wrong-game, expiry and signature-length errors |
| Backend.CheckThreshold | backend/main.go:131-145 | accepts exactly [1, 9802] rolling under and [197, 9899] rolling over, with the error for each side of each bound |
| Backend.CheckWager | backend/main.go:155-161 | accepts iff the wager is at most the balance and at most 300000.00; the balance error is reported first |
| Backend.CheckClientSeed | backend/main.go:162-165 | accepts iff the client seed has 6 to 32 bytes, reporting its length otherwise |
| Backend.RollInput | backend/main.go:43-47 | the hashed bytes are the server seed followed by the client seed |
| Backend.Roll | backend/main.go:48-57 | the roll is below 10000; the definition of the roll of a digest, whose value `Backend.RollOfPrefix` gives |
| Backend.RollOfPrefix | backend/main.go:50-57 | a digest beginning with the encoding of `n` rolls `n mod 10000`, whatever its other 24 bytes |
| Backend.NewBalance | backend/main.go:193-197 | the stored balance is never negative and fits in an int64 |
| Backend.OnBet | backend/main.go:129-236 | the three checks reject in order with their errors; a bet settles iff they pass and the server seed decodes to 32 bytes; the roll is `Roll` of the SHA-256 of the decoded server seed followed by the client seed; the result carries that roll, the win test, the delta and the old server seed; the new row has the fresh seed and the clamped balance |
| Backend.Wins | backend/main.go:176-182 | the definition of a winning roll (strictly below or strictly above the threshold); `Backend.CountWinsIs` and `Backend.WinningRolls` count the rolls it accepts |
| Backend.UnderAmount | backend/main.go:176-182 | the definition of the payout base, `t` under and `10000 − t` over; `Backend.WinningRolls` compares it with the number of winning rolls |
| Backend.Delta | backend/main.go:183-191 | the definition of a bet's balance change; `Backend.WinDeltaBounds`, `Backend.ReturnAtMost99Percent` and `Agreement.SettlementDelta` carry its properties |
| Backend.CountWinsIs | backend/main.go:176-182 | rolling under `t` wins on exactly the rolls below `t`; rolling over `t` wins on exactly the rolls above it |
| Backend.WinningRolls | backend/main.go:176-182 | out of 10000 rolls, `t` win under `t` (the payout base) and `9999 − t` win over `t`, one fewer than the payout base `10000 − t` |
| Backend.WinDeltaBounds | backend/main.go:183-188 | for every threshold that passes the range check, a win's delta lies between 0 and 9899 × wager |
| Backend.ReturnAtMost99Percent | backend/main.go:183-191 | summed over all 10000 rolls, what winning bets pay back is at most 99% of the stakes |
| Backend.BalanceAfterBet | backend/main.go:190-197 | with a wager within the balance and a balance at least 9899 maximum bets (2969700000 cents) below 2^63, the clamp never fires: a loss leaves exactly balance − wager and a win balance + delta |
| Backend.BalanceWrapsAtInt64 | backend/main.go:194-197 | on a balance of 2^63 + 5 cents, `int64(balance)` wraps, so a lost 5-cent bet stores a balance of 0 |
| Backend.OnDeposit | backend/main.go:256-263 | refuses only amount 0; the identifier is 24 random bytes followed by `CentsToRaw(amount)` |
| Backend.DepositIdWraps | backend/main.go:262 | depositing 1844674407371 cents records that amount, yet its identifier carries only 448384 raw units |
| Backend.DepositIdUnderstates | backend/util.go:134-136 | every amount above 1844674407370 cents is understated by its identifier |
| Backend.OnDepositChecked | backend/main.go:256-263 | refuses 0 and amounts whose raw value does not fit in a uint64; otherwise the identifier carries exactly amount × 10^7 |
| Backend.OnWithdraw | backend/main.go:304-325 | succeeds iff 0 < amount ≤ balance; the new row keeps the id and server seed and holds balance − amount; the identifier carries the raw amount; the signed message is game + user + id |
| Backend.CompareExchange | backend/db.go:167-186 | the swap happens iff the ids agree and the stored row is exactly the expected one; only that row changes, to the desired one |
| Backend.CompareExchangeOnce | backend/db.go:167-186 | once a row has been swapped to a different value, swapping from the same expected row again fails |
| Backend.ListCount | backend/main.go:429-431 | the count used is always in [1, 100]; it equals the requested one iff that was in range, and is 20 otherwise |
| Odds.Round2 | frontend/public/index.js:15-17 | the result is a whole number of hundredths within half a hundredth of `x` |
| Odds.Floor2 | frontend/public/index.js:19-21 | the result is a whole number of hundredths, at most `x` and less than a hundredth below it |
| Odds.WinChance | frontend/public/index.js:50-51 | the definition of the win chance: the threshold rolling under, its complement 99.99 − t rolling over; `Widget.ToggleKeepsWinChance` and `Agreement.OverPreviewAtLeastSettlement` carry its properties |
| Odds.Payout | frontend/public/index.js:52 | the definition of the payout; `Odds.FairOdds` and `Odds.PayoutAtLeastOne` carry its properties |
| Odds.Profit | frontend/public/index.js:53 | the definition of the profit; `Odds.ProfitBounds`, `Odds.ProfitMonotone` and `Agreement.PreviewProfit` carry its properties |
| Odds.Round2OfCents | frontend/public/index.js:15-17 | rounding leaves a whole number of hundredths unchanged |
| Odds.ComplementOfCents | frontend/public/index.js:61 | the complement 99.99 − t of a hundredths threshold is again one, so `round2` leaves it alone |
| Odds.Floor2Monotone | frontend/public/index.js:19-21 | truncation to hundredths is monotone |
| Odds.FairOdds | frontend/public/index.js:49-52 | payout × win chance / 100 is exactly 0.99 |
| Odds.ProfitBounds | frontend/public/index.js:53 | the profit is a whole number of hundredths, at most stake × (payout − 1) and within 0.01 of it |
| Odds.PayoutAtLeastOne | frontend/public/index.js:52 | the payout is at least 1 exactly when the win chance is at most 99 |
| Odds.ProfitMonotone | frontend/public/index.js:53 | with a win chance up to 99, a larger stake never shows a smaller profit |
| Odds.DefaultOdds | frontend/public/index.js:46-53 | at win chance 49.50 the payout is exactly 2, and a stake of 10 shows a profit of exactly 10 |
| Widget.Initial | frontend/public/index.js:43-48 | the page starts valid and in UNDER mode; a parsed non-zero threshold is kept, and a missing or zero one becomes 49.50; a parsed stake is kept, and a missing one becomes 0 |
| Widget.ReloadAfterOverBet | frontend/public/index2.php:192-201 | after an OVER bet above 98.02 the page reloads as a valid UNDER state with that threshold, outside the UNDER range and with a different win chance |
| Widget.BetConfig.constructor | frontend/public/index.js:43-48 | the live state starts as `Initial` of the parsed fields |
| Widget.Toggled | frontend/public/index.js:56-62 | a no-op while invalid; otherwise flips the mode, keeps the stake, and sets the threshold to 99.99 − t rounded to the nearest hundredth, so the win chance moves by at most half a hundredth |
| Widget.BetConfig.Toggle | frontend/public/index.js:56-62 | the new state is `Toggled` of the old one |
| Widget.ToggleTwice | frontend/public/index.js:56-62 | toggling twice restores any valid state whose threshold is a whole number of hundredths |
| Widget.ToggleTwiceRounds | frontend/public/index.js:56-73 | a threshold of 1.005, which setWinChance stores unrounded, comes back from two toggles as 1.00 |
| Widget.ToggleKeepsWinChance | frontend/public/index.js:50-62 | on the hundredths grid toggling keeps the win chance, and so the payout and profit |
| Widget.ToggleMapsRanges | frontend/public/index.js:56-62 | toggling maps the UNDER range [1.00, 98.02] exactly onto the OVER range [1.97, 98.99], in both directions |
| Widget.WithRollThreshold | frontend/public/index.js:63-66 | the threshold is the one given, the state is valid, and the mode and stake are unchanged |
| Widget.BetConfig.SetRollThreshold | frontend/public/index.js:63-66 | the new state is `WithRollThreshold` of the old one |
| Widget.WithWinChance | frontend/public/index.js:67-83 | below the mode's minimum only `invalid` is set; otherwise the state is valid and its win chance is the requested one, exactly rolling under and within half a hundredth rolling over |
| Widget.BetConfig.SetWinChance | frontend/public/index.js:67-83 | the new state is `WithWinChance` of the old one |
| Widget.WinChanceUnbounded | frontend/public/index.js:67-74 | a win chance of 150 is accepted rolling under, giving a valid state outside the slider's range |
| Widget.OverCheckUsesThresholdBound | frontend/public/index.js:76-80 | rolling over, 1.96 is refused and 1.97 accepted (threshold 98.02), so win chance 1.00 is refused although threshold 98.99 is in range |
| Widget.WinChanceRoundingDiffers | frontend/public/index.js:73-80 | the UNDER branch can store a threshold off the hundredths grid; the OVER branch always stores one on it |
| Widget.WithBetAmount | frontend/public/index.js:84-86 | only the stake changes |
| Widget.BetConfig.SetBetAmount | frontend/public/index.js:84-86 | the new state is `WithBetAmount` of the old one |
| Widget.Recovered | frontend/public/index.js:87-93 | a no-op while valid; when invalid, the mode's default threshold and a valid state, with mode and stake unchanged |
| Widget.BetConfig.Recover | frontend/public/index.js:87-93 | the new state is `Recovered` of the old one |
| Widget.InvalidThenRecover | frontend/public/index.js:67-93 | typing a win chance of 0.5 invalidates the state in either mode, and recover then restores 49.50 or 50.49 |
| Widget.RecoveryThresholdsCorrespond | frontend/public/index.js:87-93 | 50.49 is the toggle image of 49.50, and both have win chance 49.50 |
| View.SliderFill | frontend/public/index.js:124-133 | the definition of the slider fill; `View.SliderFillAtMinimum`, `View.SliderFillBounds` and `View.SliderBandStrictAtSix` carry its properties |
| View.PayoutCell | frontend/public/index.js:141-143 | the definition of the payout field, with `Infinity` for a zero win chance; `View.DefaultDisplay` gives its default |
| View.ProfitCell | frontend/public/index.js:144-151 | the definition of the profit field; `View.ProfitBlankWhenZero` says when it is blank |
| View.Shown | frontend/public/index.js:105-157 | the definition of what a valid state shows in every field; `View.RenderFullForgetsPast` and `View.RenderCatchesUp` show it is what a full render produces |
| View.Rendered | frontend/public/index.js:95-158 | the definition of the display after `render(exclude)`; `View.Page.Render` is proved to produce it, and `View.RenderInvalid`, `View.RenderIdempotent` and the other render lemmas carry its properties |
| View.RenderInvalid | frontend/public/index.js:96-104 | while invalid, render blanks the threshold label, payout and profit, moves the slider to its minimum with zero fill, and leaves the other fields alone |
| View.RenderFullForgetsPast | frontend/public/index.js:105-157 | a full render of a valid state depends on the state alone |
| View.RenderKeepsTypedWinChance | frontend/public/index.js:138-140 | rendering after a win-chance input leaves that input alone and writes every other field |
| View.RenderKeepsTypedBetAmount | frontend/public/index.js:105-111 | rendering after a stake input leaves that input alone and writes every other field |
| View.RenderIdempotent | frontend/public/index.js:95-158 | rendering the same state twice changes nothing the second time |
| View.RenderCatchesUp | frontend/public/index.js:95-158 | after any render, the next full render shows the state in every field |
| View.ProfitBlankWhenZero | frontend/public/index.js:144-150 | the profit field is blank exactly when the profit is zero |
| View.BetAmountBlankWhenZero | frontend/public/index.js:105-111 | the stake input is blank exactly when the stake is zero, and shows the stake otherwise |
| View.DefaultDisplay | frontend/public/index.js:142-150 | stake 10 rolling under 49.50 shows payout 2.00 and profit 10 |
| View.SliderFillAtMinimum | frontend/public/index.js:124-133 | threshold 1.00 fills 2% |
| View.SliderFillBounds | frontend/public/index.js:124-133 | every threshold either mode offers gives a fill in [2, 100) |
| View.SliderBandStrictAtSix | frontend/public/index.js:126-132 | a base of exactly 6 is left unchanged while 5.5 becomes 6.5, so the fill is not monotone |
| View.Page.Render | frontend/public/index.js:95-158 | the display after `render(exclude)` is `Rendered` of the display before, the live state and `exclude` |
| ClientSeed.HexDigit | frontend/public/index.js:261-272 | a nibble becomes a lowercase hex digit, from code 48 for 0-9 and from code 97 for 10-15 |
| ClientSeed.ClientSeedHex | frontend/public/index.js:257-274 | the loop's output is `HexLowFirst` of the bytes |
| ClientSeed.HexLength | frontend/public/index.js:257-274 | two characters per byte |
| ClientSeed.HexLayout | frontend/public/index.js:260 | byte i gives character 2i from its low nibble and 2i+1 from its high nibble |
| ClientSeed.HexAlphabet | frontend/public/index.js:262-272 | every character is in [0-9a-f] |
| ClientSeed.HexRoundTrip | frontend/public/index.js:257-274 | reading the digits back, low nibble first, recovers the random bytes |
| ClientSeed.SeedLength | frontend/public/index.js:255-275 | 16 random bytes give 32 characters |
| Agreement.PreviewProfit | frontend/public/index.js:50-53 | for a stake of w cents and a win chance of m hundredths, the profit is ⌊9900·w / m⌋ − w cents |
| Agreement.SettlementDelta | backend/main.go:183-188 | a win's delta is ⌊9900·w / base⌋ − w |
| Agreement.UnderPreviewIsSettlement | backend/main.go:176-188 | rolling under, the profit the page shows is exactly what a win settles to |
| Agreement.OverPreviewAtLeastSettlement | backend/main.go:179-188 | rolling over, the page's win chance is the true number of winning rolls, the backend's base is one more, and the preview never shows less than a win settles to |
| Agreement.OverPreviewOverstates | backend/main.go:181 | rolling over 98.99 with a stake of 1.00, the page shows 98.00 while a win settles to 97.01 |
| Agreement.RangesAgree | backend/main.go:33-37 | the page's slider ranges are the backend's ranges, except that rolling under the backend also accepts 1 to 99 hundredths |
| Agreement.MinimumUnderDiffers | backend/main.go:34 | the backend accepts threshold 0.01 rolling under, which the page refuses as a win chance |
| Agreement.GeneratedSeedAccepted | backend/main.go:162-165 | every character code of the page's client seed fits in a byte, and the 32 bytes those codes form pass the backend's length check |

## Left out

- SHA-256, ed25519, `crypto/rand`, base58, the `hex` library, `strconv.ParseUint`, the authentication regular expression and the clock are not part of this model. Their outputs (digest, random bytes, decoded bytes, match groups, time, signature verdict) are parameters.
- `VerifyMessageB58` only base58-encodes the result of `VerifyMessage`. It is not modelled, and neither is the user lookup in the database.
- BackendUtil.VerifyMessage: a hex signature that decodes to more than 64 bytes makes Go's `hex.Decode` panic (the buffer holds 64). The model reports `SignatureLength` for it instead.
- BackendUtil.VerifyMessage: the signature is checked by an abstract predicate over key and signature. The message text it covers is implicit.
- The SQL queries of `backend/db.go`, the bet record written after settlement, the deposit and withdrawal records, and the withdrawal rollback through `UserCredit` are not modelled. The row update `UserCompareExchange` is modelled as a compare-and-swap on a map.
- Backend.OnBet: the compare-and-swap that installs the new row is the separate `Backend.CompareExchange`. A failed swap's error return is not part of `OnBet`.
- Backend.OnWithdraw: the withdrawal URL and the signature itself are not modelled. The message to be signed is.
- HTTP, JSON, request dispatch, the deposit URL, the deposit-status flow with the aggregator, and the PHP pages are not modelled: they are transport and templating.
- The list-count checks in `onDepositList` and `onWithdrawList` (backend/main.go:442-444, 455-457) are the same statement as in `onBetList`, and `Backend.ListCount` models all three. The list queries are not modelled.
- Backend.ListCount: Go's `int` is taken to be 64 bits wide.
- Backend.BalanceAfterBet: the exact-balance promise holds only for balances at least 9899 maximum bets below 2^63. Above 2^63 cents, `int64(user.BalanceCents)` in `onBet` wraps to a negative number and the clamp stores 0 (`Backend.BalanceWrapsAtInt64`). The model keeps this wrap in `Backend.NewBalance` as the code has it. A balance that large takes more than 92 233 720 billion dollars of deposits.
- Backend.OnBet: the hex decoding of the stored server seed is a parameter, and SHA-256 is a function parameter that only promises 32-byte digests.
- JavaScript doubles are not modelled: payout, profit and slider percentage are exact reals, so the model does not show floating-point error. This is where exact arithmetic gives payout 2 and profit 10.00 at 49.50.
- `toFixed` and `toString` are not modelled as strings: the display cells record which formatting applies (`Fixed2`, `Num`, `Width`).
- A zero win chance makes JavaScript assign `Infinity` (and `-Infinity` or NaN for the profit). The cells record the value assigned, not what the browser displays: the payout field is a number input, which a browser empties when given "Infinity", while the profit field is a text input. NaN appears only as the blank profit that `!p` produces.
- Event wiring is not modelled: the handlers that pair an action with a render, the window click listener, and `parseFloat(...) || 0` on input. The model states the renders those handlers perform as lemmas. The browser's clamping of a range input's value to its bounds, the account dropdown, the `postMessage` login and the cookie logout are not modelled either.
- Widget.Initial: the parsed stake and threshold fields are parameters (`None` for NaN). `isUnder` always comes out true, as `parseFloat` of "true" or "false" is NaN.
- The page does not send the threshold and wager to the backend itself (the PHP pages do), so the correspondence between `k / 100` on the page and `k` hundredths in the backend is assumed in `Agreement`, not derived.

## Findings

| source | as written | input that shows it | evidently intended | confidence | as-written member | corrected member |
|---|---|---|---|---|---|---|
| backend/util.go:134-136 | `CentsToRaw` multiplies in uint64, and `onDeposit` checks only for amount 0, so a large deposit's identifier carries the product modulo 2^64 | a deposit of 1844674407371 cents: the record holds that amount, the identifier asks for 448384 raw units | refuse amounts above 1844674407370 cents, so the identifier always carries amount × 10^7 | not executed | Backend.OnDeposit, Backend.DepositIdWraps | Backend.OnDepositChecked |
