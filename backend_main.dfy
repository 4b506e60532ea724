/** The validation and settlement rules of backend/main.go, with the database
    user as a value.  Authentication (`VerifyMessage`, modelled in
    BackendUtil), SHA-256, the random server seed, hex/base58 encoding and the
    SQL queries are not part of this model: their results are parameters. */
module Backend {
  import opened Binary
  import opened Results
  import BackendUtil
  import opened Arith

  const CLIENT_SEED_MIN_LENGTH: nat := 6
  const CLIENT_SEED_MAX_LENGTH: nat := 32
  const HOUSE_EDGE_PCT: nat := 1
  const UNDER_MIN: nat := 1
  const UNDER_MAX: nat := 9802
  const OVER_MIN: nat := 197
  const OVER_MAX: nat := 9899
  const MAX_BET_CENTS: nat := 300000_00

  /** The number of equally likely roll outcomes, 0 to 9999 hundredths. */
  const ROLLS: nat := 10000

  datatype User = User(id: string, serverSeed: string, balanceCents: u64)

  datatype BetParams = BetParams(wagerCents: u64, rollUnder: bool, threshold: u16, clientSeed: seq<byte>)

  datatype BetResult = BetResult(won: bool, deltaCents: i64, serverSeed: string, result: u16)

  /** A settled bet: what is returned, and the user row the compare-and-swap installs. */
  datatype Settled = Settled(result: BetResult, updated: User)

  datatype BetError =
    | UnderTooLow(got: nat) | UnderTooHigh(got: nat)
    | OverTooLow(got: nat) | OverTooHigh(got: nat)
    | InsufficientBalance(balance: nat, wager: nat)
    | AboveMaxBet(wager: nat)
    | ClientSeedLength(got: nat)
    | ServerSeedUndecodable

  /** The range a threshold must lie in for its mode. */
  predicate ThresholdInRange(rollUnder: bool, threshold: int)
  {
    if rollUnder then UNDER_MIN <= threshold <= UNDER_MAX else OVER_MIN <= threshold <= OVER_MAX
  }

  /** Step (1) of `onBet`. */
  function CheckThreshold(rollUnder: bool, threshold: u16): (r: Result<(), BetError>)
    ensures r.Ok? <==> ThresholdInRange(rollUnder, threshold)
    ensures rollUnder && threshold < UNDER_MIN ==> r == Err(UnderTooLow(threshold))
    ensures rollUnder && threshold > UNDER_MAX ==> r == Err(UnderTooHigh(threshold))
    ensures !rollUnder && threshold < OVER_MIN ==> r == Err(OverTooLow(threshold))
    ensures !rollUnder && threshold > OVER_MAX ==> r == Err(OverTooHigh(threshold))
  {
    if rollUnder then
      if threshold < UNDER_MIN then Err(UnderTooLow(threshold))
      else if threshold > UNDER_MAX then Err(UnderTooHigh(threshold))
      else Ok(())
    else
      if threshold < OVER_MIN then Err(OverTooLow(threshold))
      else if threshold > OVER_MAX then Err(OverTooHigh(threshold))
      else Ok(())
  }

  /** Step (3): a wager may not exceed the balance, nor the maximum bet. */
  function CheckWager(wagerCents: u64, balanceCents: u64): (r: Result<(), BetError>)
    ensures r.Ok? <==> wagerCents <= balanceCents && wagerCents <= MAX_BET_CENTS
    ensures wagerCents > balanceCents ==> r == Err(InsufficientBalance(balanceCents, wagerCents))
    ensures wagerCents <= balanceCents && wagerCents > MAX_BET_CENTS ==> r == Err(AboveMaxBet(wagerCents))
  {
    if wagerCents > balanceCents then Err(InsufficientBalance(balanceCents, wagerCents))
    else if wagerCents > MAX_BET_CENTS then Err(AboveMaxBet(wagerCents))
    else Ok(())
  }

  /** Step (4): the client seed is 6 to 32 bytes long. */
  function CheckClientSeed(clientSeed: seq<byte>): (r: Result<(), BetError>)
    ensures r.Ok? <==> CLIENT_SEED_MIN_LENGTH <= |clientSeed| <= CLIENT_SEED_MAX_LENGTH
    ensures r.Err? ==> r.error == ClientSeedLength(|clientSeed|)
  {
    if |clientSeed| < CLIENT_SEED_MIN_LENGTH || |clientSeed| > CLIENT_SEED_MAX_LENGTH then
      Err(ClientSeedLength(|clientSeed|))
    else Ok(())
  }

  /** The bytes `Roll` hashes: the server seed followed by the client seed. */
  function RollInput(serverSeed: seq<byte>, clientSeed: seq<byte>): (s: seq<byte>)
    ensures |s| == |serverSeed| + |clientSeed|
    ensures s[..|serverSeed|] == serverSeed && s[|serverSeed|..] == clientSeed
  {
    serverSeed + clientSeed
  }

  /** `Roll`, given the SHA-256 digest of `RollInput`: the little-endian uint64
      of the first eight digest bytes, reduced modulo 10000. */
  function Roll(digest: seq<byte>): (r: u16)
    requires |digest| == 32
    ensures r < ROLLS
  {
    Uint64(digest[..8]) % ROLLS
  }

  /** Every value of the first eight bytes is reduced exactly: the roll of a
      digest that begins with the encoding of `n` is `n mod 10000`, whatever the
      other 24 bytes are. */
  lemma RollOfPrefix(n: u64, rest: seq<byte>)
    requires |rest| == 24
    ensures Pow256(8) == TWO_64
    ensures Roll(LeBytes(n, 8) + rest) == n % ROLLS
  {
    Pow256Eight();
    var d := LeBytes(n, 8) + rest;
    assert d[..8] == LeBytes(n, 8);
    LeValueOfBytes(n, 8);
  }

  /** Whether a roll wins: strictly below the threshold when rolling under,
      strictly above it when rolling over. */
  predicate Wins(rollUnder: bool, threshold: int, roll: int)
  {
    if rollUnder then roll < threshold else roll > threshold
  }

  /** The share of the roll space the payout is computed against. */
  function UnderAmount(rollUnder: bool, threshold: int): int
  {
    if rollUnder then threshold else ROLLS - threshold
  }

  /** The balance change of a bet: on a win the house-edged payout minus the
      stake, on a loss minus the stake. */
  function Delta(wagerCents: nat, rollUnder: bool, threshold: int, won: bool): int
    requires UnderAmount(rollUnder, threshold) > 0
  {
    if won then
      (wagerCents * 10000 * (100 - HOUSE_EDGE_PCT)) / (UnderAmount(rollUnder, threshold) * 100) - wagerCents
    else -(wagerCents as int)
  }

  /** The stored balance: `int64(balance) + delta`, clamped at zero. */
  function NewBalance(balanceCents: u64, deltaCents: i64): (r: nat)
    ensures r < TWO_63
  {
    var b := ToI64(ToI64(balanceCents) + deltaCents);
    if b < 0 then 0 else b
  }

  /** A checked bet: the threshold, wager and client seed are in range. */
  predicate BetAcceptable(p: BetParams, user: User)
  {
    && ThresholdInRange(p.rollUnder, p.threshold)
    && p.wagerCents <= user.balanceCents && p.wagerCents <= MAX_BET_CENTS
    && CLIENT_SEED_MIN_LENGTH <= |p.clientSeed| <= CLIENT_SEED_MAX_LENGTH
  }

  /** `onBet` from the threshold check to the construction of the updated user.
      `user` is the authenticated user's row, `serverSeed` the hex decoding of
      its server seed (`None` when decoding fails), `sha256` the hash function,
      whose digests are 32 bytes, and `newSeedHex` the hex of the fresh server
      seed that replaces it. */
  method OnBet(p: BetParams, user: User, serverSeed: Option<seq<byte>>,
               sha256: seq<byte> -> seq<byte>, newSeedHex: string)
    returns (r: Result<Settled, BetError>)
    requires forall x :: |sha256(x)| == 32
    ensures CheckThreshold(p.rollUnder, p.threshold).Err? ==> r == Err(CheckThreshold(p.rollUnder, p.threshold).error)
    ensures CheckThreshold(p.rollUnder, p.threshold).Ok? && CheckWager(p.wagerCents, user.balanceCents).Err?
            ==> r == Err(CheckWager(p.wagerCents, user.balanceCents).error)
    ensures CheckThreshold(p.rollUnder, p.threshold).Ok? && CheckWager(p.wagerCents, user.balanceCents).Ok?
            && CheckClientSeed(p.clientSeed).Err?
            ==> r == Err(CheckClientSeed(p.clientSeed).error)
    ensures r.Ok? <==> BetAcceptable(p, user) && serverSeed.Some? && |serverSeed.value| == 32
    ensures r.Ok? ==> r.value.result.result == Roll(sha256(RollInput(serverSeed.value, p.clientSeed)))
    ensures r.Ok? ==> r.value.result.serverSeed == user.serverSeed
    ensures r.Ok? ==> r.value.result.won == Wins(p.rollUnder, p.threshold, r.value.result.result)
    ensures r.Ok? ==> r.value.result.deltaCents == Delta(p.wagerCents, p.rollUnder, p.threshold, r.value.result.won)
    ensures r.Ok? ==> r.value.updated == User(user.id, newSeedHex, NewBalance(user.balanceCents, r.value.result.deltaCents))
  {
    // (1) validate threshold
    if p.rollUnder {
      if p.threshold < UNDER_MIN {
        return Err(UnderTooLow(p.threshold));
      }
      if p.threshold > UNDER_MAX {
        return Err(UnderTooHigh(p.threshold));
      }
    } else {
      if p.threshold < OVER_MIN {
        return Err(OverTooLow(p.threshold));
      }
      if p.threshold > OVER_MAX {
        return Err(OverTooHigh(p.threshold));
      }
    }
    // (3) validate wager
    if p.wagerCents > user.balanceCents {
      return Err(InsufficientBalance(user.balanceCents, p.wagerCents));
    }
    if p.wagerCents > MAX_BET_CENTS {
      return Err(AboveMaxBet(p.wagerCents));
    }
    // (4) validate client seed
    if |p.clientSeed| < CLIENT_SEED_MIN_LENGTH || |p.clientSeed| > CLIENT_SEED_MAX_LENGTH {
      return Err(ClientSeedLength(|p.clientSeed|));
    }
    // (5) the server seed must decode to 32 bytes
    if serverSeed.None? || |serverSeed.value| != 32 {
      return Err(ServerSeedUndecodable);
    }
    // (6) roll
    var roll := Roll(sha256(RollInput(serverSeed.value, p.clientSeed)));
    // (7) compute delta; no uint64 product below can wrap, since the wager is bounded
    var won: bool;
    var underAmountCents: u64;
    if p.rollUnder {
      won := roll < p.threshold;
      underAmountCents := p.threshold;
    } else {
      won := roll > p.threshold;
      underAmountCents := 10000 - p.threshold;
    }
    var deltaCents: i64;
    if won {
      assert p.wagerCents * 10000 * (100 - HOUSE_EDGE_PCT) == p.wagerCents * 990000;
      var numerator: u64 := p.wagerCents * 10000 * (100 - HOUSE_EDGE_PCT);
      var denominator: u64 := underAmountCents * 100;
      DivAtMost(numerator, denominator);
      var payout: u64 := numerator / denominator;
      deltaCents := ToI64(payout) - ToI64(p.wagerCents);
      assert denominator == UnderAmount(p.rollUnder, p.threshold) * 100;
      assert deltaCents == Delta(p.wagerCents, p.rollUnder, p.threshold, won);
    } else {
      deltaCents := -ToI64(p.wagerCents);
      assert deltaCents == Delta(p.wagerCents, p.rollUnder, p.threshold, won);
    }
    assert won == Wins(p.rollUnder, p.threshold, roll);
    assert deltaCents == Delta(p.wagerCents, p.rollUnder, p.threshold, won);
    // keep the balance from going negative
    var newBalance: i64 := ToI64(ToI64(user.balanceCents) + deltaCents);
    if newBalance < 0 {
      newBalance := 0;
    }
    // (8) the row the compare-and-swap installs
    var updatedUser := User(user.id, newSeedHex, newBalance);
    return Ok(Settled(BetResult(won, deltaCents, user.serverSeed, roll), updatedUser));
  }

  /** Counting the winning rolls among 0..n-1. */
  function CountWins(rollUnder: bool, threshold: int, n: nat): nat
  {
    if n == 0 then 0
    else CountWins(rollUnder, threshold, n - 1) + (if Wins(rollUnder, threshold, n - 1) then 1 else 0)
  }

  /** Rolling under `t` wins on the rolls 0..t-1; rolling over `t` wins on t+1..n-1. */
  lemma {:induction false} CountWinsIs(rollUnder: bool, threshold: nat, n: nat)
    ensures rollUnder ==> CountWins(rollUnder, threshold, n) == if n < threshold then n else threshold
    ensures !rollUnder ==> CountWins(rollUnder, threshold, n) == if n <= threshold then 0 else n - threshold - 1
  {
    if n > 0 {
      CountWinsIs(rollUnder, threshold, n - 1);
    }
  }

  /** Out of the 10000 equally likely rolls, exactly `t` win under `t` and
      `9999 - t` win over `t`; the settlement nevertheless divides by `10000 - t`
      when rolling over, one hundredth of win chance more than the true one. */
  lemma WinningRolls(rollUnder: bool, threshold: nat)
    requires ThresholdInRange(rollUnder, threshold)
    ensures rollUnder ==> CountWins(rollUnder, threshold, ROLLS) == UnderAmount(rollUnder, threshold)
    ensures !rollUnder ==> CountWins(rollUnder, threshold, ROLLS) == UnderAmount(rollUnder, threshold) - 1
  {
    CountWinsIs(rollUnder, threshold, ROLLS);
  }

  /** For every threshold that passes the range check a winning bet never
      loses money, and a win pays at most 99 times the stake as profit. */
  lemma WinDeltaBounds(wagerCents: nat, rollUnder: bool, threshold: nat)
    requires ThresholdInRange(rollUnder, threshold)
    ensures 0 <= Delta(wagerCents, rollUnder, threshold, true) <= 9899 * wagerCents
  {
    var u := UnderAmount(rollUnder, threshold);
    assert 1 <= u <= 9803;
    DivCancel(wagerCents * 9900, u, 100);
    assert wagerCents * 10000 * (100 - HOUSE_EDGE_PCT) == wagerCents * 9900 * 100;
    var q := (wagerCents * 9900) / u;
    DivAtLeast(wagerCents * 9900, u, wagerCents);
    DivAtMost(wagerCents * 9900, u);
  }

  /** House edge: summed over all 10000 equally likely rolls, the amount paid
      back (stake plus delta on each winning roll) is at most 99% of the stakes
      of 10000 such bets. */
  lemma ReturnAtMost99Percent(wagerCents: nat, rollUnder: bool, threshold: nat)
    requires ThresholdInRange(rollUnder, threshold)
    ensures 100 * (CountWins(rollUnder, threshold, ROLLS) * (wagerCents + Delta(wagerCents, rollUnder, threshold, true)))
            <= (100 - HOUSE_EDGE_PCT) * (ROLLS * wagerCents)
  {
    var u := UnderAmount(rollUnder, threshold);
    WinningRolls(rollUnder, threshold);
    var k := CountWins(rollUnder, threshold, ROLLS);
    assert 0 <= k <= u;
    var a := wagerCents * 9900;
    assert wagerCents * 10000 * (100 - HOUSE_EDGE_PCT) == a * 100;
    DivCancel(a, u, 100);
    var q := a / u;
    assert wagerCents + Delta(wagerCents, rollUnder, threshold, true) == q;
    MulQuotientAtMost(a, u, k);
    assert k * (wagerCents + Delta(wagerCents, rollUnder, threshold, true)) == k * q;
    assert (100 - HOUSE_EDGE_PCT) * (ROLLS * wagerCents) == 100 * a;
  }

  /** The clamp at zero keeps every stored balance non-negative. Given the
      wager check and a balance at least 9899 maximum bets below 2^63, so that
      neither `int64(balance)` nor the sum wraps, the clamp never fires: a loss
      leaves exactly `balance - wager` and a win `balance + delta`. */
  lemma BalanceAfterBet(balanceCents: u64, wagerCents: u64, rollUnder: bool, threshold: nat, won: bool)
    requires ThresholdInRange(rollUnder, threshold)
    requires wagerCents <= balanceCents && wagerCents <= MAX_BET_CENTS
    requires balanceCents + 9899 * MAX_BET_CENTS < TWO_63
    ensures -TWO_63 <= Delta(wagerCents, rollUnder, threshold, won) < TWO_63
    ensures NewBalance(balanceCents, Delta(wagerCents, rollUnder, threshold, won))
            == balanceCents + Delta(wagerCents, rollUnder, threshold, won)
    ensures !won ==> NewBalance(balanceCents, Delta(wagerCents, rollUnder, threshold, won)) == balanceCents - wagerCents
  {
    if won {
      WinDeltaBounds(wagerCents, rollUnder, threshold);
    }
  }

  /** Above 2^63 cents `int64(balance)` wraps to a negative number: a lost
      5-cent bet on a balance of 2^63 + 5 cents is stored as 0. */
  lemma BalanceWrapsAtInt64()
    ensures Delta(5, true, 1, false) == -5
    ensures NewBalance(TWO_63 + 5, Delta(5, true, 1, false)) == 0
  {
  }

  datatype FundsError = ZeroAmount | InsufficientFunds(balance: nat, amount: nat) | AmountTooLarge(amount: nat)

  /** What `onDeposit` records: the identifier and the amount credited when the deposit completes. */
  datatype DepositPlan = DepositPlan(id: seq<byte>, amountCents: u64)

  /** `onDeposit` after authentication: a zero amount is refused, otherwise an
      identifier carrying `CentsToRaw(amount)` is generated from 24 random bytes. */
  method OnDeposit(amountCents: u64, random: seq<byte>) returns (r: Result<DepositPlan, FundsError>)
    requires |random| == 24
    ensures r.Ok? <==> amountCents > 0
    ensures r.Err? ==> r.error == ZeroAmount
    ensures r.Ok? ==> |r.value.id| == 32 && r.value.id[..24] == random && r.value.amountCents == amountCents
    ensures r.Ok? ==> Uint64(r.value.id[24..]) == BackendUtil.CentsToRaw(amountCents)
  {
    if amountCents == 0 {
      return Err(ZeroAmount);
    }
    var id := BackendUtil.GenerateID(random, BackendUtil.CentsToRaw(amountCents));
    return Ok(DepositPlan(id, amountCents));
  }

  /** The amount the deposit identifier asks to be paid falls short of the
      amount credited as soon as the product wraps: 1844674407371 cents is
      recorded, yet the identifier carries 448384 raw units. */
  lemma DepositIdWraps()
    ensures BackendUtil.CentsToRaw(1844674407371) == 448384
    ensures 448384 < 1844674407371 * BackendUtil.RAW_PER_CENT
  {
  }

  /** Every amount above MAX_EXACT_CENTS is understated by the identifier. */
  lemma DepositIdUnderstates(amountCents: u64)
    requires amountCents > BackendUtil.MAX_EXACT_CENTS
    ensures BackendUtil.CentsToRaw(amountCents) < amountCents * BackendUtil.RAW_PER_CENT
  {
  }

  /** `onDeposit` with the evidently intended bound: amounts whose raw value does
      not fit in a uint64 are refused, so the identifier always carries the exact
      raw amount of what will be credited. */
  method OnDepositChecked(amountCents: u64, random: seq<byte>) returns (r: Result<DepositPlan, FundsError>)
    requires |random| == 24
    ensures r.Ok? <==> 0 < amountCents <= BackendUtil.MAX_EXACT_CENTS
    ensures amountCents > BackendUtil.MAX_EXACT_CENTS ==> r == Err(AmountTooLarge(amountCents))
    ensures r.Ok? ==> |r.value.id| == 32 && r.value.id[..24] == random && r.value.amountCents == amountCents
    ensures r.Ok? ==> Uint64(r.value.id[24..]) == r.value.amountCents * BackendUtil.RAW_PER_CENT
  {
    if amountCents == 0 {
      return Err(ZeroAmount);
    }
    if amountCents > BackendUtil.MAX_EXACT_CENTS {
      return Err(AmountTooLarge(amountCents));
    }
    var id := BackendUtil.GenerateID(random, BackendUtil.CentsToRaw(amountCents));
    return Ok(DepositPlan(id, amountCents));
  }

  /** What `onWithdraw` prepares: the identifier, the message the withdraw
      authority signs, and the user row the compare-and-swap installs. */
  datatype WithdrawPlan = WithdrawPlan(id: seq<byte>, message: seq<byte>, updated: User)

  /** `onWithdraw` after authentication (`userKey`, the verified 32-byte key, and
      `user`, its row): zero and over-balance amounts are refused; otherwise the
      balance drops by the amount and the server seed is kept. */
  method OnWithdraw(game: seq<byte>, userKey: seq<byte>, user: User, amountCents: u64, random: seq<byte>)
    returns (r: Result<WithdrawPlan, FundsError>)
    requires |game| == 32 && |userKey| == 32 && |random| == 24
    ensures r.Ok? <==> 0 < amountCents <= user.balanceCents
    ensures amountCents == 0 ==> r == Err(ZeroAmount)
    ensures 0 < amountCents && amountCents > user.balanceCents ==> r == Err(InsufficientFunds(user.balanceCents, amountCents))
    ensures r.Ok? ==> r.value.updated == User(user.id, user.serverSeed, user.balanceCents - amountCents)
    ensures r.Ok? ==> |r.value.id| == 32 && r.value.id[..24] == random
                      && Uint64(r.value.id[24..]) == BackendUtil.CentsToRaw(amountCents)
    ensures r.Ok? ==> r.value.message == game + userKey + r.value.id
  {
    if amountCents == 0 {
      return Err(ZeroAmount);
    }
    if amountCents > user.balanceCents {
      return Err(InsufficientFunds(user.balanceCents, amountCents));
    }
    var id := BackendUtil.GenerateID(random, BackendUtil.CentsToRaw(amountCents));
    var message := BackendUtil.WithdrawalMessage(game, userKey, id);
    assert message == message[..32] + message[32..64] + message[64..];
    var updatedUser := User(user.id, user.serverSeed, user.balanceCents - amountCents);
    return Ok(WithdrawPlan(id, message, updatedUser));
  }

  /** `UserCompareExchange` on a table keyed by user id: the update happens only
      when the ids agree and the stored row is exactly the expected one, and
      then only that row changes. */
  function CompareExchange(table: map<string, User>, expected: User, desired: User): (r: Option<map<string, User>>)
    ensures r.Some? <==> expected.id == desired.id && expected.id in table && table[expected.id] == expected
    ensures r.Some? ==> r.value.Keys == table.Keys && r.value[expected.id] == desired
    ensures r.Some? ==> forall id :: id in table && id != expected.id ==> r.value[id] == table[id]
  {
    if expected.id != desired.id then None
    else if expected.id in table && table[expected.id] == expected then Some(table[expected.id := desired])
    else None
  }

  /** After one successful swap, a second swap from the same expected row fails
      unless it installed that very row: a settled bet's old row cannot be reused. */
  lemma CompareExchangeOnce(table: map<string, User>, expected: User, desired: User)
    requires CompareExchange(table, expected, desired).Some?
    requires desired != expected
    ensures CompareExchange(CompareExchange(table, expected, desired).value, expected, desired).None?
  {
  }

  const DEFAULT_LIST_COUNT: nat := 20
  const MAX_LIST_COUNT: nat := 100

  /** The count normalisation shared by `onBetList`, `onDepositList` and
      `onWithdrawList`: an out-of-range count becomes 20. */
  function ListCount(count: i64): (c: i64)
    ensures 1 <= c <= MAX_LIST_COUNT
    ensures c == count <==> 1 <= count <= MAX_LIST_COUNT
    ensures !(1 <= count <= MAX_LIST_COUNT) ==> c == DEFAULT_LIST_COUNT
  {
    if count <= 0 || count > MAX_LIST_COUNT then DEFAULT_LIST_COUNT else count
  }
}
