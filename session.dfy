/** The wager state machine: the page's shared `state` record, the wager
    controls, and one method per handler or timer / network continuation. */
module Game {
  import opened Types
  import opened Stake
  import History
  import Countdown
  import Identity

  /** The stake input's text, seen through parseInt: empty, or some text and
      what parseInt(text, 10) makes of it (None for NaN). */
  datatype StakeField = EmptyField | FieldText(parsed: Option<int>)

  function ParseField(f: StakeField): Option<int> {
    match f
    case EmptyField => None
    case FieldText(p) => p
  }

  /** The stake as updateBetButtonsState reads it. */
  function CurrentStake(f: StakeField): int {
    ParseOrZero(ParseField(f))
  }

  /** The `disabled` flags of the seven wager controls (true = disabled). */
  datatype Controls = Controls(heads: bool, tails: bool, input: bool,
                               minus: bool, toMin: bool, plus: bool, toMax: bool)

  const ALL_DISABLED: Controls := Controls(true, true, true, true, true, true, true)

  predicate AllDisabled(c: Controls) {
    c == ALL_DISABLED
  }

  /** The controls with the four adjust flags replaced. */
  function WithAdjust(c: Controls, f: AdjustFlags): Controls {
    c.(minus := f.minus, toMin := f.toMin, plus := f.plus, toMax := f.toMax)
  }

  /** The controls of an active game: everything enabled except the adjust
      buttons the button predicate disables. */
  function ActiveControls(stake: StakeField, balance: real): Controls {
    WithAdjust(Controls(false, false, false, false, false, false, false),
               AdjustButtons(CurrentStake(stake), balance))
  }

  /** The caption under the coin. */
  datatype ResultText = NoText | GetReady | Flipping | ResultWas(side: Side)

  /** The last toast shown (a later toast replaces an earlier one). */
  datatype Notice =
    | NoNotice
    | MinBetNotice
    | InsufficientNotice
    | ErrorNotice(message: string)
    | WinNotice(profit: real)
    | LossNotice(stake: int)
    | LoadFailedNotice

  /** The pending continuation of the wager in flight, if any: the awaited
      bet reply, the running countdown interval, or the animation timeout. */
  datatype Wager =
    | NoWager
    | AwaitingSettlement(bet: int, choice: Side)
    | CountingDown(count: int, settlement: Settlement, bet: int)
    | Revealing(settlement: Settlement, bet: int)

  predicate WagerWellFormed(w: Wager) {
    match w
    case NoWager => true
    case AwaitingSettlement(bet, _) => bet >= MIN_BET
    case CountingDown(count, _, bet) => 0 <= count <= Countdown.COUNTDOWN_START && bet >= MIN_BET
    case Revealing(_, bet) => bet >= MIN_BET
  }

  /** The profit a win notice reports: 0.91 times the stake, unrounded. */
  function Profit(bet: int): (r: real)
    ensures bet >= MIN_BET ==> 0.0 < r < bet as real
    ensures 0.0 <= bet as real ==> r <= bet as real
  {
    bet as real * 91.0 / 100.0
  }

  class Session {
    // the `state` record
    var balance: real
    var history: seq<Side>
    var isFlipping: bool
    var gameReady: bool
    // USER_ID
    var userId: Option<string>
    // what the page shows
    var stake: StakeField
    var disabled: Controls
    var resultText: ResultText
    var notice: Notice
    var walletError: bool
    // pending continuations and the requests issued
    var wager: Wager
    var pendingClears: nat
    var requests: seq<BetRequest>

    /** The invariant every handler keeps. */
    ghost predicate Valid()
      reads this
    {
      && (isFlipping <==> !wager.NoWager?)
      && (isFlipping ==> AllDisabled(disabled))
      && |history| <= History.MAX_HISTORY
      && (!gameReady ==> balance == 0.0 && !isFlipping && requests == [])
      && (gameReady ==> userId.Some?)
      && WagerWellFormed(wager)
      && (!wager.NoWager? ==> |requests| > 0 && requests[|requests| - 1].betAmount == wager.bet)
      && (wager.AwaitingSettlement? ==> requests[|requests| - 1].choice == wager.choice)
      && (forall i :: 0 <= i < |requests| ==> requests[i].betAmount >= MIN_BET && requests[i].userId.Some?)
    }

    /** Page load: the initial `state` record, with the stake field and the
        control flags as the markup leaves them. */
    constructor Load(initialStake: StakeField, initialControls: Controls)
      ensures Valid()
      ensures balance == 0.0 && history == [] && !isFlipping && !gameReady && userId == None
      ensures stake == initialStake && disabled == initialControls
      ensures resultText == NoText && notice == NoNotice && !walletError
      ensures wager == NoWager && pendingClears == 0 && requests == []
    {
      balance, history, isFlipping, gameReady := 0.0, [], false, false;
      userId := None;
      stake, disabled := initialStake, initialControls;
      resultText, notice, walletError := NoText, NoNotice, false;
      wager, pendingClears, requests := NoWager, 0, [];
    }

    /** updateBetButtonsState: nothing before the game is ready, otherwise
        the four adjust flags from the button predicate. */
    method UpdateBetButtonsState()
      modifies this`disabled
      ensures gameReady ==> disabled == WithAdjust(old(disabled), AdjustButtons(CurrentStake(stake), balance))
      ensures !gameReady ==> disabled == old(disabled)
    {
      if !gameReady {
        return;
      }
      var currentBet := CurrentStake(stake);
      var maxPossibleBet := balance.Floor;
      disabled := disabled.(minus := currentBet <= MIN_BET);
      disabled := disabled.(toMin := currentBet == MIN_BET);
      disabled := disabled.(plus := currentBet >= maxPossibleBet || maxPossibleBet < MIN_BET);
      disabled := disabled.(toMax := currentBet == maxPossibleBet || balance < MIN_BET as real);
    }

    /** setControls: every control is disabled exactly when not
        (enabled and gameReady); an active game then refreshes the adjust
        buttons. */
    method SetControls(enabled: bool)
      modifies this`disabled
      ensures AllDisabled(disabled) <==> !(enabled && gameReady)
      ensures disabled == if enabled && gameReady then ActiveControls(stake, balance) else ALL_DISABLED
    {
      var isGameActive := enabled && gameReady;
      disabled := Controls(!isGameActive, !isGameActive, !isGameActive,
                           !isGameActive, !isGameActive, !isGameActive, !isGameActive);
      if isGameActive {
        UpdateBetButtonsState();
      }
    }

    /** handleBetChange: write the clamped stake into the field, then refresh
        the adjust buttons. */
    method HandleBetChange(amount: Option<int>)
      modifies this`stake, this`disabled
      ensures stake == FieldText(Some(Clamp(amount, balance)))
      ensures gameReady ==> disabled == WithAdjust(old(disabled), AdjustButtons(Clamp(amount, balance), balance))
      ensures !gameReady ==> disabled == old(disabled)
    {
      var maxPossibleBet := MaxPossibleBet(balance);
      var newAmount := ParseOrZero(amount);
      if balance > 0.0 {
        newAmount := Max(MIN_BET, newAmount);
        newAmount := Min(newAmount, maxPossibleBet);
      } else {
        newAmount := MIN_BET;
      }
      stake := FieldText(Some(newAmount));
      UpdateBetButtonsState();
    }

    /** updateHistory. */
    method UpdateHistory(side: Side)
      modifies this`history
      ensures history == History.Push(old(history), side)
    {
      history := [side] + history;
      if |history| > History.MAX_HISTORY {
        history := history[..|history| - 1];
      }
    }

    /** updateUI: the wallet shows the balance again and the adjust buttons
        are refreshed. */
    method UpdateUi()
      modifies this`walletError, this`disabled
      ensures !walletError
      ensures gameReady ==> disabled == WithAdjust(old(disabled), AdjustButtons(CurrentStake(stake), balance))
      ensures !gameReady ==> disabled == old(disabled)
    {
      walletError := false;
      UpdateBetButtonsState();
    }

    /** initializeGame, with the balance reply it awaits: a no-op once the
        game is ready; otherwise resolve the user id, and become ready with
        the fetched balance exactly when the reply carries no truthy error. */
    method InitializeGame(telegramId: Option<int>, reply: BalanceReply)
      requires Valid()
      modifies this`userId, this`balance, this`gameReady, this`walletError, this`disabled, this`notice
      ensures Valid()
      ensures old(gameReady) ==> unchanged(this)
      ensures !old(gameReady) ==>
                && userId == Some(Identity.GetUserId(telegramId))
                && history == old(history) && stake == old(stake) && requests == old(requests)
                && wager == old(wager) && !isFlipping && resultText == old(resultText)
                && pendingClears == old(pendingClears)
      ensures !old(gameReady) && BalanceLoaded(reply) ==>
                && gameReady && balance == reply.walletBalance && !walletError
                && notice == old(notice) && disabled == ActiveControls(stake, balance)
      ensures !old(gameReady) && !BalanceLoaded(reply) ==>
                && !gameReady && balance == old(balance) && walletError
                && notice == LoadFailedNotice && AllDisabled(disabled)
    {
      if gameReady {
        return;
      }
      userId := Some(Identity.GetUserId(telegramId));
      if BalanceLoaded(reply) {
        balance := reply.walletBalance;
        gameReady := true;
        UpdateUi();
        SetControls(true);
      } else {
        walletError := true;
        notice := LoadFailedNotice;
        SetControls(false);
      }
    }

    /** initiateBet up to the awaited fetch: a no-op while a wager is in
        flight; a rejected stake is corrected and reported without any
        request; an accepted stake locks the controls and submits exactly
        one request. */
    method InitiateBet(choice: Side)
      requires Valid()
      modifies this`isFlipping, this`disabled, this`resultText, this`requests, this`wager, this`notice, this`stake
      ensures Valid()
      ensures old(isFlipping) ==> unchanged(this)
      ensures !old(isFlipping) ==>
                && balance == old(balance) && history == old(history) && gameReady == old(gameReady)
                && userId == old(userId) && walletError == old(walletError) && pendingClears == old(pendingClears)
      ensures !old(isFlipping) && !CheckStake(ParseField(old(stake)), old(balance)).Accepted? ==>
                && var c := CheckStake(ParseField(old(stake)), old(balance));
                && !isFlipping && wager == NoWager && requests == old(requests) && resultText == old(resultText)
                && stake == FieldText(Some(Correction(c, balance)))
                && notice == (if c.TooLow? then MinBetNotice else InsufficientNotice)
                && (gameReady ==> disabled == WithAdjust(old(disabled), AdjustButtons(Correction(c, balance), balance)))
                && (!gameReady ==> disabled == old(disabled))
      ensures !old(isFlipping) && CheckStake(ParseField(old(stake)), old(balance)).Accepted? ==>
                && var bet := ParseField(old(stake)).value;
                && isFlipping && AllDisabled(disabled) && resultText == GetReady
                && wager == AwaitingSettlement(bet, choice)
                && requests == old(requests) + [BetRequest(userId, bet, choice)]
                && stake == old(stake) && notice == old(notice)
    {
      if isFlipping {
        return;
      }
      var parsed := ParseField(stake);
      if parsed.None? || parsed.value < MIN_BET {
        notice := MinBetNotice;
        HandleBetChange(Some(MIN_BET));
        return;
      }
      var betAmount := parsed.value;
      if betAmount as real > balance {
        notice := InsufficientNotice;
        HandleBetChange(Some(TruncateReal(balance)));
        return;
      }
      isFlipping := true;
      SetControls(false);
      resultText := GetReady;
      requests := requests + [BetRequest(userId, betAmount, choice)];
      wager := AwaitingSettlement(betAmount, choice);
    }

    /** A 2xx reply to the submitted wager: the countdown starts from 3,
        holding the settlement unapplied. Ignored when no reply is awaited. */
    method SettlementOk(s: Settlement)
      requires Valid()
      modifies this`wager
      ensures Valid()
      ensures old(wager).AwaitingSettlement? ==>
                wager == CountingDown(Countdown.COUNTDOWN_START, s, old(wager).bet)
      ensures !old(wager).AwaitingSettlement? ==> wager == old(wager)
    {
      if wager.AwaitingSettlement? {
        wager := CountingDown(Countdown.COUNTDOWN_START, s, wager.bet);
      }
    }

    /** A failed submission: show its message, clear the flight flag, unlock
        the controls and blank the caption; balance and history untouched.
        Ignored when no reply is awaited. */
    method SettlementFailed(f: BetFailure)
      requires Valid()
      modifies this`notice, this`isFlipping, this`disabled, this`resultText, this`wager
      ensures Valid()
      ensures !old(wager).AwaitingSettlement? ==> unchanged(this)
      ensures old(wager).AwaitingSettlement? ==>
                && !isFlipping && wager == NoWager
                && notice == ErrorNotice(BetFailureMessage(f))
                && disabled == ActiveControls(stake, balance) && resultText == NoText
                && balance == old(balance) && history == old(history) && stake == old(stake)
                && requests == old(requests) && gameReady == old(gameReady) && userId == old(userId)
                && walletError == old(walletError) && pendingClears == old(pendingClears)
    {
      if !wager.AwaitingSettlement? {
        return;
      }
      notice := ErrorNotice(BetFailureMessage(f));
      isFlipping := false;
      SetControls(true);
      resultText := NoText;
      wager := NoWager;
    }

    /** One period of the countdown interval; when it clears, the reveal
        callback starts the flip animation. Ignored when no countdown runs. */
    method CountdownTick()
      requires Valid()
      modifies this`wager, this`resultText
      ensures Valid()
      ensures !old(wager).CountingDown? ==> wager == old(wager) && resultText == old(resultText)
      ensures old(wager).CountingDown? ==>
                var t := Countdown.Tick(old(wager).count);
                if t.next.Cleared? then
                  wager == Revealing(old(wager).settlement, old(wager).bet) && resultText == Flipping
                else
                  wager == old(wager).(count := t.next.count) && resultText == old(resultText)
    {
      if !wager.CountingDown? {
        return;
      }
      var t := Countdown.Tick(wager.count);
      match t.next
      case Cleared =>
        wager := Revealing(wager.settlement, wager.bet);
        resultText := Flipping;
      case Running(next) =>
        wager := wager.(count := next);
    }

    /** The end of the flip animation: apply the held settlement (balance
        becomes new_balance, the winning side enters the history), report
        the outcome, clear the flight flag, unlock the controls and schedule
        the caption clear. Ignored when no animation runs. */
    method AnimationElapsed()
      requires Valid()
      modifies this`balance, this`notice, this`history, this`walletError, this`disabled
      modifies this`isFlipping, this`resultText, this`pendingClears, this`wager
      ensures Valid()
      ensures !old(wager).Revealing? ==> unchanged(this)
      ensures old(wager).Revealing? ==>
                var s := old(wager).settlement;
                && balance == s.newBalance
                && history == History.Push(old(history), s.winningSide)
                && notice == (if s.result == Win then WinNotice(Profit(old(wager).bet)) else LossNotice(old(wager).bet))
                && !isFlipping && wager == NoWager
                && disabled == ActiveControls(stake, balance) && !walletError
                && resultText == ResultWas(s.winningSide)
                && pendingClears == old(pendingClears) + 1
                && gameReady
    {
      if !wager.Revealing? {
        return;
      }
      RevealResult(wager.settlement, wager.bet);
      wager := NoWager;
    }

    /** The animation timeout's body. */
    method RevealResult(s: Settlement, bet: int)
      requires gameReady
      modifies this`balance, this`notice, this`history, this`walletError, this`disabled
      modifies this`isFlipping, this`resultText, this`pendingClears
      ensures balance == s.newBalance
      ensures history == History.Push(old(history), s.winningSide)
      ensures notice == (if s.result == Win then WinNotice(Profit(bet)) else LossNotice(bet))
      ensures !isFlipping && disabled == ActiveControls(stake, balance) && !walletError
      ensures resultText == ResultWas(s.winningSide)
      ensures pendingClears == old(pendingClears) + 1
    {
      balance := s.newBalance;
      notice := if s.result == Win then WinNotice(Profit(bet)) else LossNotice(bet);
      UpdateHistory(s.winningSide);
      UpdateUi();
      isFlipping := false;
      SetControls(true);
      resultText := ResultWas(s.winningSide);
      pendingClears := pendingClears + 1;
    }

    /** The delayed caption clear: blanks the caption only if no new wager
        has started. Ignored when none is pending. */
    method ClearTimeout()
      requires Valid()
      modifies this`pendingClears, this`resultText
      ensures Valid()
      ensures old(pendingClears) == 0 ==> pendingClears == 0 && resultText == old(resultText)
      ensures old(pendingClears) > 0 ==>
                && pendingClears == old(pendingClears) - 1
                && resultText == (if isFlipping then old(resultText) else NoText)
    {
      if pendingClears == 0 {
        return;
      }
      pendingClears := pendingClears - 1;
      if !isFlipping {
        resultText := NoText;
      }
    }

    // The listeners. The browser delivers an event only to an enabled control.

    /** A click on the heads or tails button. */
    method ClickChoice(choice: Side)
      requires Valid()
      modifies this`isFlipping, this`disabled, this`resultText, this`requests, this`wager, this`notice, this`stake
      ensures Valid()
      ensures (if choice == Heads then old(disabled).heads else old(disabled).tails) ==> unchanged(this)
    {
      var off := if choice == Heads then disabled.heads else disabled.tails;
      if !off {
        InitiateBet(choice);
      }
    }

    /** Typing into the stake field: the typed text is clamped at once. */
    method InputStake(typed: StakeField)
      requires Valid()
      modifies this`stake, this`disabled
      ensures Valid()
      ensures old(disabled).input ==> stake == old(stake) && disabled == old(disabled)
      ensures !old(disabled).input ==> stake == FieldText(Some(Clamp(ParseField(typed), balance)))
      ensures !old(disabled).input && gameReady ==>
                disabled == WithAdjust(old(disabled), AdjustButtons(Clamp(ParseField(typed), balance), balance))
      ensures !old(disabled).input && !gameReady ==> disabled == old(disabled)
    {
      if disabled.input {
        return;
      }
      stake := typed;
      HandleBetChange(ParseField(typed));
    }

    /** Leaving the stake field: an empty field or a stake below MIN_BET is
        reset through the clamp; NaN text is left alone. */
    method BlurStake()
      requires Valid()
      modifies this`stake, this`disabled
      ensures Valid()
      ensures var reset := !old(disabled).input
                           && (old(stake) == EmptyField
                               || (ParseField(old(stake)).Some? && ParseField(old(stake)).value < MIN_BET));
              && (reset ==> stake == FieldText(Some(Clamp(Some(MIN_BET), balance))))
              && (reset && gameReady ==>
                    disabled == WithAdjust(old(disabled), AdjustButtons(Clamp(Some(MIN_BET), balance), balance)))
              && (reset && !gameReady ==> disabled == old(disabled))
              && (!reset ==> stake == old(stake) && disabled == old(disabled))
    {
      if disabled.input {
        return;
      }
      var p := ParseField(stake);
      if stake == EmptyField || (p.Some? && p.value < MIN_BET) {
        HandleBetChange(Some(MIN_BET));
      }
    }

    /** The minus button: clamp(stake - 1), where NaN stays NaN. */
    method PressMinus()
      requires Valid()
      modifies this`stake, this`disabled
      ensures Valid()
      ensures old(disabled).minus ==> stake == old(stake) && disabled == old(disabled)
      ensures !old(disabled).minus ==>
                stake == FieldText(Some(Clamp(Shift(ParseField(old(stake)), -1), balance)))
      ensures !old(disabled).minus && gameReady ==>
                disabled == WithAdjust(old(disabled), AdjustButtons(Clamp(Shift(ParseField(old(stake)), -1), balance), balance))
      ensures !old(disabled).minus && !gameReady ==> disabled == old(disabled)
    {
      if disabled.minus {
        return;
      }
      HandleBetChange(Shift(ParseField(stake), -1));
    }

    /** The plus button: clamp(stake + 1), where NaN stays NaN. */
    method PressPlus()
      requires Valid()
      modifies this`stake, this`disabled
      ensures Valid()
      ensures old(disabled).plus ==> stake == old(stake) && disabled == old(disabled)
      ensures !old(disabled).plus ==>
                stake == FieldText(Some(Clamp(Shift(ParseField(old(stake)), 1), balance)))
      ensures !old(disabled).plus && gameReady ==>
                disabled == WithAdjust(old(disabled), AdjustButtons(Clamp(Shift(ParseField(old(stake)), 1), balance), balance))
      ensures !old(disabled).plus && !gameReady ==> disabled == old(disabled)
    {
      if disabled.plus {
        return;
      }
      HandleBetChange(Shift(ParseField(stake), 1));
    }

    /** The min button: clamp(MIN_BET). */
    method PressMin()
      requires Valid()
      modifies this`stake, this`disabled
      ensures Valid()
      ensures old(disabled).toMin ==> stake == old(stake) && disabled == old(disabled)
      ensures !old(disabled).toMin ==> stake == FieldText(Some(Clamp(Some(MIN_BET), balance)))
      ensures !old(disabled).toMin && gameReady ==>
                disabled == WithAdjust(old(disabled), AdjustButtons(Clamp(Some(MIN_BET), balance), balance))
      ensures !old(disabled).toMin && !gameReady ==> disabled == old(disabled)
    {
      if disabled.toMin {
        return;
      }
      HandleBetChange(Some(MIN_BET));
    }

    /** The max button: clamp(parseInt(balance)). */
    method PressMax()
      requires Valid()
      modifies this`stake, this`disabled
      ensures Valid()
      ensures old(disabled).toMax ==> stake == old(stake) && disabled == old(disabled)
      ensures !old(disabled).toMax ==> stake == FieldText(Some(Clamp(Some(TruncateReal(balance)), balance)))
      ensures !old(disabled).toMax && gameReady ==>
                disabled == WithAdjust(old(disabled), AdjustButtons(Clamp(Some(TruncateReal(balance)), balance), balance))
      ensures !old(disabled).toMax && !gameReady ==> disabled == old(disabled)
    {
      if disabled.toMax {
        return;
      }
      HandleBetChange(Some(TruncateReal(balance)));
    }
  }

  /** `parseInt(v) + d`, with NaN absorbing. */
  function Shift(p: Option<int>, d: int): (r: Option<int>)
    ensures r.Some? <==> p.Some?
    ensures r.Some? ==> r.value == p.value + d
  {
    match p
    case None => None
    case Some(v) => Some(v + d)
  }

  /** Minus undoes plus on the parsed stake, NaN included; only the clamp
      around them can make the round trip lose information. */
  lemma ShiftCancels(p: Option<int>, d: int)
    ensures Shift(Shift(p, d), -d) == p
  {
  }

  /** For a balance from 1 to HARD_CAP, plus then minus returns a clamped
      stake below the upper bound to itself. */
  lemma PlusThenMinus(amount: Option<int>, balance: real)
    requires 1.0 <= balance <= HARD_CAP as real
    requires Clamp(amount, balance) < MaxPossibleBet(balance)
    ensures var cur := Clamp(amount, balance);
            Clamp(Shift(Some(Clamp(Shift(Some(cur), 1), balance)), -1), balance) == cur
  {
  }
}
