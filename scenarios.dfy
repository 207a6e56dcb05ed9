/** Complete runs through the session: a win, an insufficient-balance
    refusal, a server rejection and a plus-then-minus stake adjustment. */
module Scenarios {
  import opened Types
  import opened Stake
  import opened Game

  /** Balance 100, stake 50 on heads, settled as a win at 145.5: the
      countdown fires on its fourth tick, the balance becomes exactly
      new_balance, the notice reports 0.91 x 50 and the history starts with
      heads. */
  method WinScenario() returns (balance: real, notice: Notice, history: seq<Side>,
                                requests: seq<BetRequest>, afterThreeTicks: Wager)
    ensures balance == 145.5 && notice == WinNotice(45.5) && history == [Heads]
    ensures requests == [BetRequest(Some("7"), 50, Heads)]
    ensures afterThreeTicks.CountingDown? && afterThreeTicks.count == 0
  {
    var g := PlaceBet();
    g.SettlementOk(Settlement(Win, Heads, 145.5));
    g.CountdownTick();
    g.CountdownTick();
    g.CountdownTick();
    afterThreeTicks := g.wager;
    g.CountdownTick();
    assert g.wager == Revealing(Settlement(Win, Heads, 145.5), 50);
    g.AnimationElapsed();
    balance, notice, history, requests := g.balance, g.notice, g.history, g.requests;
  }

  /** Balance 100 after start-up, 50 typed, heads clicked. */
  method PlaceBet() returns (g: Session)
    ensures fresh(g) && g.Valid()
    ensures g.wager == AwaitingSettlement(50, Heads) && g.history == []
    ensures g.requests == [BetRequest(Some("7"), 50, Heads)]
  {
    g := new Session.Load(EmptyField, ALL_DISABLED);
    g.InitializeGame(Some(7), BalanceBody(None, 100.0));
    assert (100.0).Floor == 100;
    g.InputStake(FieldText(Some(50)));
    assert g.stake == FieldText(Some(50));
    g.InitiateBet(Heads);
  }

  /** In a ready game with a balance from 1 to 100000, pressing plus and then
      minus on a clamped stake below the upper bound leaves the stake field
      as it was: plus enables minus, and minus takes the stake back. */
  method PlusThenMinusScenario(g: Session, amount: Option<int>)
    requires g.Valid() && g.gameReady && !g.disabled.plus
    requires 1.0 <= g.balance <= HARD_CAP as real
    requires Clamp(amount, g.balance) < MaxPossibleBet(g.balance)
    requires g.stake == FieldText(Some(Clamp(amount, g.balance)))
    modifies g`stake, g`disabled
    ensures g.Valid() && g.stake == old(g.stake)
    ensures !g.disabled.plus
  {
    var cur := Clamp(amount, g.balance);
    g.PressPlus();
    assert g.stake == FieldText(Some(cur + 1));
    g.PressMinus();
    PlusThenMinus(amount, g.balance);
  }

  /** Balance 10 with 20 in the stake field: the bet is refused as
      insufficient, the stake is corrected to 10 and nothing is submitted. */
  method InsufficientScenario() returns (stake: StakeField, notice: Notice, flipping: bool,
                                          requests: seq<BetRequest>)
    ensures stake == FieldText(Some(10)) && notice == InsufficientNotice
    ensures !flipping && requests == []
  {
    var g := new Session.Load(FieldText(Some(20)), ALL_DISABLED);
    g.InitializeGame(Some(7), BalanceBody(None, 10.0));
    assert (10.0).Floor == 10;
    g.InitiateBet(Heads);
    stake, notice, flipping, requests := g.stake, g.notice, g.isFlipping, g.requests;
  }

  /** A submission the authority rejects with an error message: that message
      is shown, the flight flag is cleared, the stake field is usable again
      and the balance is unchanged; a second click while the first wager was
      awaited submitted nothing. */
  method RejectedScenario() returns (notice: Notice, flipping: bool, inputDisabled: bool,
                                      balance: real, requests: seq<BetRequest>)
    ensures notice == ErrorNotice("insufficient funds")
    ensures !flipping && !inputDisabled && balance == 100.0
    ensures |requests| == 1
  {
    var g := new Session.Load(FieldText(Some(50)), ALL_DISABLED);
    g.InitializeGame(None, BalanceBody(None, 100.0));
    g.InitiateBet(Tails);
    g.InitiateBet(Heads);
    g.SettlementFailed(HttpError(Some("insufficient funds")));
    notice, flipping, inputDisabled, balance, requests :=
      g.notice, g.isFlipping, g.disabled.input, g.balance, g.requests;
  }
}
