/** The stake controller's arithmetic: the clamp applied to every stake
    edit and the predicate that decides which adjust buttons are disabled. */
module Stake {
  import opened Types

  const MIN_BET: int := 1
  /** The literal upper bound the clamp applies on top of the balance. */
  const HARD_CAP: int := 100000

  function Min(a: int, b: int): int { if a <= b then a else b }
  function Max(a: int, b: int): int { if a <= b then b else a }
  function MinReal(a: real, b: real): real { if a <= b then a else b }

  /** `parseInt(x, 10) || 0`: NaN (and 0) become 0. */
  function ParseOrZero(parsed: Option<int>): (n: int)
    ensures (n == 0) <==> (parsed.None? || parsed == Some(0))
    ensures n != 0 ==> parsed == Some(n)
  {
    match parsed
    case None => 0
    case Some(v) => v
  }

  /** `parseInt` applied to a number keeps its integer part (truncation
      toward zero). */
  function TruncateReal(x: real): (n: int)
    ensures x >= 0.0 ==> n as real <= x < n as real + 1.0
    ensures x < 0.0 ==> n as real - 1.0 < x <= n as real
  {
    if x >= 0.0 then x.Floor else -((-x).Floor)
  }

  /** The largest stake the clamp allows: floor(min(balance, HARD_CAP)). */
  function MaxPossibleBet(balance: real): (m: int)
    ensures m <= HARD_CAP
    ensures m as real <= balance
    ensures balance >= 1.0 ==> m >= MIN_BET
    ensures balance >= 0.0 ==> m as real <= MinReal(balance, HARD_CAP as real) < m as real + 1.0
  {
    MinReal(balance, HARD_CAP as real).Floor
  }

  /** handleBetChange's arithmetic: a non-numeric stake counts as 0; with a
      positive balance the stake is raised to MIN_BET and then lowered to
      MaxPossibleBet (so a balance below 1 yields 0), otherwise it is
      pinned to MIN_BET. */
  function Clamp(amount: Option<int>, balance: real): (r: int)
    ensures balance <= 0.0 ==> r == MIN_BET
    ensures balance >= 1.0 ==> MIN_BET <= r <= MaxPossibleBet(balance)
    ensures 0.0 < balance < 1.0 ==> r == 0
    ensures balance > 0.0 ==> r as real <= balance
  {
    var n := ParseOrZero(amount);
    if balance > 0.0 then Min(Max(MIN_BET, n), MaxPossibleBet(balance)) else MIN_BET
  }

  /** A stake already inside the allowed range is kept as it is. */
  lemma ClampKeepsAllowed(n: int, balance: real)
    requires balance > 0.0 && MIN_BET <= n <= MaxPossibleBet(balance)
    ensures Clamp(Some(n), balance) == n
  {
  }

  /** Stakes outside the range saturate at its ends. */
  lemma ClampSaturates(n: int, balance: real)
    requires balance >= 1.0
    ensures n < MIN_BET ==> Clamp(Some(n), balance) == MIN_BET
    ensures n > MaxPossibleBet(balance) ==> Clamp(Some(n), balance) == MaxPossibleBet(balance)
  {
  }

  /** Non-numeric input is treated as 0 before clamping. */
  lemma ClampNonNumericIsZero(balance: real)
    ensures Clamp(None, balance) == Clamp(Some(0), balance)
  {
  }

  /** Clamping is idempotent for every balance, including a balance in
      (0, 1) where the clamp yields 0. */
  lemma ClampIdempotent(amount: Option<int>, balance: real)
    ensures Clamp(Some(Clamp(amount, balance)), balance) == Clamp(amount, balance)
  {
  }

  /** The four adjust flags (true = disabled). */
  datatype AdjustFlags = AdjustFlags(minus: bool, toMin: bool, plus: bool, toMax: bool)

  /** updateBetButtonsState's predicate over (current stake, balance). It
      bounds by floor(balance) and does not apply HARD_CAP. */
  function AdjustButtons(current: int, balance: real): (f: AdjustFlags)
    ensures f.toMin ==> f.minus
    ensures balance < MIN_BET as real ==> f.plus && f.toMax
    ensures current < balance.Floor && balance >= MIN_BET as real ==> !f.plus
  {
    var top := balance.Floor;
    AdjustFlags(current <= MIN_BET,
                current == MIN_BET,
                current >= top || top < MIN_BET,
                current == top || balance < MIN_BET as real)
  }

  /** For a balance between 1 and HARD_CAP and a stake that went through the
      clamp, each adjust button is disabled exactly when pressing it would
      leave the stake unchanged. */
  lemma ButtonsDisabledIffIneffective(amount: Option<int>, balance: real)
    requires 1.0 <= balance <= HARD_CAP as real
    ensures var cur := Clamp(amount, balance);
            var f := AdjustButtons(cur, balance);
            && (f.minus <==> Clamp(Some(cur - 1), balance) == cur)
            && (f.toMin <==> Clamp(Some(MIN_BET), balance) == cur)
            && (f.plus <==> Clamp(Some(cur + 1), balance) == cur)
            && (f.toMax <==> Clamp(Some(TruncateReal(balance)), balance) == cur)
  {
  }

  /** Above HARD_CAP the button predicate and the clamp disagree: at the cap
      the plus button stays enabled although pressing it changes nothing. */
  lemma PlusEnabledAtCap(balance: real)
    requires balance >= (HARD_CAP + 1) as real
    ensures !AdjustButtons(HARD_CAP, balance).plus
    ensures Clamp(Some(HARD_CAP + 1), balance) == HARD_CAP
  {
  }

  /** The outcome of initiateBet's stake validation. */
  datatype StakeCheck = TooLow | Insufficient | Accepted(bet: int)

  /** initiateBet's validation: NaN or below MIN_BET is too low; above the
      balance (not the cap) is insufficient. */
  function CheckStake(parsed: Option<int>, balance: real): (c: StakeCheck)
    ensures c.Accepted? ==> parsed == Some(c.bet) && MIN_BET <= c.bet && c.bet as real <= balance
    ensures c.Insufficient? ==> parsed.Some? && parsed.value as real > balance
    ensures c.TooLow? <==> parsed.None? || parsed.value < MIN_BET
  {
    if parsed.None? || parsed.value < MIN_BET then TooLow
    else if parsed.value as real > balance then Insufficient
    else Accepted(parsed.value)
  }

  /** A stake is accepted exactly when it is a number in [MIN_BET, balance]. */
  lemma CheckStakeAccepts(parsed: Option<int>, balance: real)
    ensures (CheckStake(parsed, balance).Accepted?
             <==> parsed.Some? && MIN_BET <= parsed.value && parsed.value as real <= balance)
    ensures CheckStake(parsed, balance).Accepted? ==> CheckStake(parsed, balance).bet == parsed.value
  {
  }

  /** The stake initiateBet writes back after a rejected stake. */
  function Correction(c: StakeCheck, balance: real): (k: int)
    requires !c.Accepted?
    ensures balance <= 0.0 ==> k == MIN_BET
    ensures balance >= 1.0 ==> MIN_BET <= k <= MaxPossibleBet(balance)
    ensures c.Insufficient? && balance > 0.0 ==> k == MaxPossibleBet(balance)
  {
    if c.TooLow? then Clamp(Some(MIN_BET), balance) else Clamp(Some(TruncateReal(balance)), balance)
  }

  /** With a balance of at least 1, the stake written back after a rejection
      passes validation, so an immediate retry is accepted; an insufficient
      stake is corrected to floor(min(balance, HARD_CAP)). */
  lemma CorrectionIsAccepted(parsed: Option<int>, balance: real)
    requires balance >= 1.0 && !CheckStake(parsed, balance).Accepted?
    ensures CheckStake(Some(Correction(CheckStake(parsed, balance), balance)), balance).Accepted?
    ensures CheckStake(parsed, balance).Insufficient? ==>
              Correction(CheckStake(parsed, balance), balance) == MaxPossibleBet(balance)
  {
  }
}
