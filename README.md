# Coin-flip wager client — a Dafny model

This project models the wager state machine of a single-player coin-flip
client that runs in a Telegram web app. The user stakes an amount and picks
heads or tails. The backend settles the wager and returns the new balance.
The client then runs a fixed countdown and a flip animation, and only after
that applies the authoritative result to its local state.

What is modelled:

- **Stake controller** (`stake.dfy`, module `Stake`). The clamp that
  `handleBetChange` applies to every stake edit. The button predicate of
  `updateBetButtonsState`. The stake validation at the start of
  `initiateBet`.
- **History** (`history.dfy`, module `History`). The most-recent-first
  outcome list, bounded to 20 entries.
- **Countdown** (`countdown.dfy`, module `Countdown`). One run of the
  interval callback in `showCountdown`, and what a whole run shows and fires.
- **Identity** (`identity.dfy`, module `Identity`). `getUserId` as a total
  function from the host's optional numeric id to a string, with the
  fallback literal.
- **Session** (`session.dfy`, module `Game`). The page's `state` record
  `{balance, history, isFlipping, gameReady}`, plus `USER_ID`, the stake
  field, the seven control flags, the result caption, the last toast and
  the pending continuations. It is a class, with one method per handler and
  per timer or network continuation. `Valid()` is the invariant that every
  event keeps:
  - `isFlipping` holds exactly while a wager is pending;
  - while it holds, every control is disabled;
  - the history has at most 20 entries;
  - before the game is ready the balance is 0, nothing is in flight and
    nothing has been submitted;
  - every submitted request has a stake of at least 1 and a user id;
  - the stake of the wager in flight is the stake of the last request
    submitted, and while the wager awaits settlement its side is that
    request's side as well.
- **Scenarios** (`scenarios.dfy`). Three complete wagers — a win, an
  insufficient-balance refusal and a server rejection — and a plus-then-minus
  stake adjustment, run through the machine, with their outcomes proved as
  postconditions.

Timers and network replies become explicit event methods:

| source | event method |
|---|---|
| the bet reply | `SettlementOk` / `SettlementFailed` |
| each 1-second countdown period | `CountdownTick` |
| the 3000 ms animation timeout | `AnimationElapsed` |
| the 2500 ms caption clear | `ClearTimeout` |

An event that arrives when nothing is waiting for it changes nothing. A
click, input or blur event is delivered only to an enabled control, as the
browser does. Page load is the constructor `Load` followed by
`InitializeGame`. `InitializeGame` takes its balance reply as a parameter,
so the whole start-up runs as one atomic step. This is sound because the
only thing that runs before the response arrives is the `USER_ID`
assignment, and user events before the game is ready do not read it.

Behaviour of the code (1.js) that a reader might expect to be otherwise,
and which the model follows:

- The countdown shows 3, 2, 1, 0 and fires on the fourth tick, not after
  three (1.js:48-60; `Countdown.FromStart`).
- A balance strictly between 0 and 1 clamps any stake to 0, below the
  minimum bet (1.js:171-175; `Stake.Clamp`).
- After an "insufficient balance" rejection with a positive balance, the
  stake is corrected to floor(min(balance, 100000)), not to the balance
  itself; with a balance of 0 or below it is corrected to 1
  (1.js:76, 170-178; `Stake.Correction`, `Stake.CorrectionIsAccepted`).
- The button predicate bounds the stake by floor(balance) with no 100000
  cap. Above the cap, the plus button stays enabled even though pressing it
  changes nothing (1.js:186-189; `Stake.PlusEnabledAtCap`).
- Both calls fail when fetch rejects or the body is not JSON (1.js:86-91,
  225-230). Among parsed replies, the bet submission fails only on a non-2xx
  status (1.js:92), while the balance load fails only on a truthy `error`
  field and never looks at the status (1.js:231).
- `initiateBet` never checks `gameReady`. Stakes are still gated before
  start-up, because the balance is 0 until start-up succeeds, and the model
  proves this as part of `Valid()`.

## Model

| member | source | states |
|---|---|---|
| `Types.BetFailureMessage` | 1.js:92 | A non-2xx reply shows its `error` field when that is truthy, otherwise "API request failed", so its message is never empty. A fetch or parse failure shows the exception's message. |
| `Types.BalanceLoaded` | 1.js:231 | Start-up fails on an unreachable server or a body with a non-empty `error`; a body whose `error` is absent or empty counts as a success. |
| `Stake.ParseOrZero` | 1.js:172 | `\|\| 0` collapses exactly NaN and 0 to 0; every other result is the parsed number itself. |
| `Stake.TruncateReal` | 1.js:266 | Passing the balance through parseInt truncates toward zero: the result is within 1 of the balance on the side of zero. |
| `Stake.MaxPossibleBet` | 1.js:171 | The clamp's upper bound is floor(min(balance, 100000)) for every non-negative balance: the largest integer not above both the balance and 100000. It is at least 1 once the balance is at least 1. |
| `Stake.Clamp` | 1.js:170-178 | With a balance of at least 1, the stake lies in [1, floor(min(balance, 100000))]. With a balance of at most 0, it is exactly 1. With a balance in (0, 1), it is 0. With a positive balance, it never exceeds the balance. |
| `Stake.ClampKeepsAllowed` | 1.js:173-175 | A stake already inside the allowed range is left unchanged. |
| `Stake.ClampSaturates` | 1.js:174-175 | With a balance of at least 1, a stake below 1 becomes 1 and a stake above the bound becomes the bound. |
| `Stake.ClampNonNumericIsZero` | 1.js:172 | Non-numeric input is clamped exactly as 0 is. |
| `Stake.ClampIdempotent` | 1.js:170-179 | For every balance, including one in (0, 1), clamping a clamped stake returns it unchanged. |
| `Stake.AdjustButtons` | 1.js:186-190 | Min disabled implies minus disabled; with a balance below 1, plus and max are both disabled; with a balance of at least 1, plus is enabled for any stake below floor(balance). |
| `Stake.ButtonsDisabledIffIneffective` | 1.js:183-191 | For a balance from 1 to 100000 and a clamped stake, each of minus, min, plus and max is disabled exactly when pressing it would leave the stake unchanged. |
| `Stake.PlusEnabledAtCap` | 1.js:186-189 | For every balance above 100000, at stake 100000 the plus button is enabled although the clamp sends stake + 1 back to 100000. |
| `Stake.CheckStake` | 1.js:68-77 | An accepted stake is the parsed number, at least 1 and at most the balance; an insufficient one is a number above the balance; too low means NaN or below 1. |
| `Stake.Correction` | 1.js:71-76 | The stake written back after a rejection is 1 for a balance of 0 or below, lies in [1, floor(min(balance, 100000))] for a balance of at least 1, and after "insufficient" is exactly that upper bound for any positive balance. |
| `Stake.CheckStakeAccepts` | 1.js:68-78 | `initiateBet` accepts a stake exactly when it is a number with 1 <= stake <= balance, and it bets that number. |
| `Stake.CorrectionIsAccepted` | 1.js:69-77 | With a balance of at least 1, the stake written back after a rejection passes validation. After "insufficient balance" that stake is floor(min(balance, 100000)). |
| `History.Push` | 1.js:199-201 | The new side comes first. The result is a prefix of the side prepended to the old history. A history of at most 20 entries stays within 20. |
| `History.PushKeepsNewest` | 1.js:199-201 | On a history of at most 20 entries, one push keeps the 20 newest entries of the prepended sequence. |
| `History.PushAllKeepsMostRecent` | 1.js:199-201 | For any number of outcomes pushed in turn, the history holds the 20 most recent, most recent first. |
| `History.TwentyFiveOutcomes` | 1.js:199-201 | After 25 outcomes on an empty history, exactly 20 remain: the newest 20 in reverse order of arrival, the last outcome first. |
| `Countdown.Tick` | 1.js:50-59 | Each interval period shows the current count. The interval clears and fires the callback exactly when the shown count is 0 or below. Otherwise it keeps running with count - 1 >= 0. |
| `Countdown.Run` | 1.js:49-61 | Over any number of interval periods, at most one digit is shown per period and the callback fires at most once; a cleared interval does nothing. |
| `Countdown.RunFrom` | 1.js:47-61 | From count c >= 0, the interval shows c, c-1, ..., 0, fires the callback exactly once on tick c + 1, and has no effect after that. |
| `Countdown.FromStart` | 1.js:48-60 | Started at 3, the countdown shows 3, 2, 1, 0, fires once on the fourth tick, and never fires again. |
| `Identity.IntToString` | 1.js:37 | The string form of an id is never empty. |
| `Identity.IntToStringInjective` | 1.js:37 | Distinct ids have distinct string forms. |
| `Identity.GetUserId` | 1.js:32-44 | The result is never empty. A present, non-zero host id gives its string form. A missing chain, or a zero id (falsy), gives "demo_user_local_test". |
| `Identity.HostIdIsNotFallback` | 1.js:35-43 | A real host id never resolves to the fallback identifier. |
| `Identity.DistinctHostIds` | 1.js:35-37 | Distinct host ids resolve to distinct user ids. |
| `Game.Shift` | 1.js:263-264 | The stake the minus and plus handlers pass on is numeric exactly when the field's stake is, and then differs from it by the shift. |
| `Game.ShiftCancels` | 1.js:263-264 | Shifting by d and then by -d returns the parsed stake, NaN included. |
| `Game.PlusThenMinus` | 1.js:263-264 | For a balance from 1 to 100000, pressing plus then minus on a clamped stake below the upper bound returns it. |
| `Game.Profit` | 1.js:130 | The win profit for a stake of at least 1 is positive and below the stake. |
| `Game.Session.Load` | 1.js:20-30 | The initial state: balance 0, empty history, not flipping, not ready, no user id, no request; the invariant holds. |
| `Game.Session.UpdateBetButtonsState` | 1.js:183-191 | Before the game is ready it changes nothing. Otherwise it sets exactly the four adjust flags, from the button predicate on the current stake and balance. |
| `Game.Session.SetControls` | 1.js:158-168 | Every control is disabled exactly when not (enabled and gameReady). In an active game, heads, tails and the input are enabled and the adjust flags come from the button predicate. |
| `Game.Session.HandleBetChange` | 1.js:170-181 | The stake field holds the clamped value, and the adjust buttons are refreshed for it. |
| `Game.Session.UpdateHistory` | 1.js:199-203 | The history becomes `History.Push` of the old history and the side. |
| `Game.Session.UpdateUi` | 1.js:151-156 | The wallet stops showing the error, and the adjust buttons are refreshed. |
| `Game.Session.InitializeGame` | 1.js:216-243 | Once the game is ready it is a no-op. Otherwise the user id is resolved. The game becomes ready, with exactly the fetched balance and active controls, when the reply has no truthy error. If it has one, the balance is untouched, the wallet shows the error, the load-failure notice appears and every control is disabled. |
| `Game.Session.InitiateBet` | 1.js:65-106 | While a wager is in flight it changes nothing. A stake that is NaN, below 1 or above the balance is rewritten by the clamp, with the matching notice; no request is issued and the balance, history and flight flag are unchanged. An accepted stake sets the flight flag, disables every control, shows "Get Ready" and appends exactly one request with that stake and choice before anything else happens. |
| `Game.Session.SettlementOk` | 1.js:91-97 | Only a successful reply to an awaited wager starts the countdown, at 3, holding the settlement unapplied. |
| `Game.Session.SettlementFailed` | 1.js:92-105 | A failed reply shows its message, clears the flight flag, re-enables the controls and blanks the caption. Balance, history and requests are untouched. |
| `Game.Session.CountdownTick` | 1.js:49-60 | A countdown period advances the held countdown as `Countdown.Tick` does. When the countdown clears, the flip animation starts with the same settlement and stake. |
| `Game.Session.AnimationElapsed` | 1.js:119-147 | At the end of the animation the balance becomes exactly the held new_balance, with no local stake arithmetic. The winning side is pushed into the history. The notice reports 0.91 x stake on a win, or the stake on a loss. The flight flag ends false, the controls are re-enabled, the caption names the side and one caption clear is scheduled. |
| `Game.Session.RevealResult` | 1.js:119-141 | The animation timeout's body: the same updates as `AnimationElapsed`, for a given settlement and stake. |
| `Game.Session.ClearTimeout` | 1.js:143-145 | A pending caption clear blanks the caption only when no wager is in flight. |
| `Game.Session.ClickChoice` | 1.js:254-255 | A click on a disabled choice button changes nothing. |
| `Game.Session.InputStake` | 1.js:256 | Typed text is replaced at once by its clamped value, and in a ready game the adjust buttons are refreshed for that value. |
| `Game.Session.BlurStake` | 1.js:257-261 | Leaving an empty field, or one holding a stake below 1, resets it to the clamp of 1 and, in a ready game, refreshes the adjust buttons. Non-numeric non-empty text is left alone. |
| `Game.Session.PressMinus` | 1.js:263 | The stake becomes the clamp of stake - 1, and in a ready game the adjust buttons are refreshed for it; a disabled button changes nothing. |
| `Game.Session.PressPlus` | 1.js:264 | The stake becomes the clamp of stake + 1, and in a ready game the adjust buttons are refreshed for it; a disabled button changes nothing. |
| `Game.Session.PressMin` | 1.js:265 | The stake becomes the clamp of 1, and in a ready game the adjust buttons are refreshed for it; a disabled button changes nothing. |
| `Game.Session.PressMax` | 1.js:266 | The stake becomes the clamp of the balance's integer part, and in a ready game the adjust buttons are refreshed for it; a disabled button changes nothing. |
| `Scenarios.WinScenario` | 1.js:65-147 | Balance 100, stake 50 on heads, settled as a win at 145.5. Three ticks leave the countdown at 0 without revealing. After the fourth tick and the animation, the balance is 145.5, the notice reports 45.5, the history is [heads] and exactly one request was made. |
| `Scenarios.InsufficientScenario` | 1.js:74-77 | Balance 10 with 20 in the field: the stake is corrected to 10 with the insufficient-balance notice, and nothing is submitted. |
| `Scenarios.RejectedScenario` | 1.js:65-105 | A second click while the first wager is awaited submits nothing. A rejection with error "insufficient funds" shows that message, clears the flight flag, re-enables the stake field and leaves the balance at 100. |
| `Scenarios.PlusThenMinusScenario` | 1.js:263-264 | In a ready game with a balance from 1 to 100000 and a clamped stake below the upper bound, pressing plus and then minus leaves the stake field as it was and the plus button enabled. |

## Left out

- Rendering: element lookup, `textContent`/`innerHTML` writes, CSS classes, animation strings, reflow and `renderHistory`. The caption, the wallet's error state and the last toast are kept as abstract values.
- Network and parsing: `fetch`, JSON encoding and decoding. Replies arrive as event parameters, already decoded.
- A 2xx bet reply whose body lacks the settlement fields is not modelled. The code would start the countdown, then store `undefined` as the balance and throw in the reveal. The model's `SettlementOk` always carries a settlement.
- A balance reply without `wallet_balance` (the code would store `undefined`) is not modelled. Numbers are exact: the balance is a `real` and stakes are unbounded integers, not IEEE doubles.
- Timing: the 1000 ms, 3000 ms, 2500 ms and 2800 ms delays are not modelled. Only the order of the discrete events is.
- Rounding: `toFixed(2)` formatting. The win notice carries the unrounded profit 91 x stake / 100.
- The Telegram bridge's `ready()` call and `isTelegram`, toast hiding, and console logging: side effects with no bearing on the state.
- `MAX_BET` is assigned in `updateUI` but never read, so it is not modelled.
- The "Could not identify user" branch of `initializeGame` is not modelled: `GetUserId` never returns an empty string, so that branch cannot run.
- Two start-ups running at once are not modelled: `initializeGame` is called once at load, and `InitializeGame` runs atomically.
- Exponent notation in number-to-string conversion is not modelled. `TruncateReal` assumes a balance below 1e21 and not below 1e-6; `IntToString` assumes an id below 1e21.
- The stake field's raw text is seen only through parseInt: empty, or text with its parsed value.
- Game.Session.ClickChoice: the postcondition states only the disabled case. When the button is enabled, the click is exactly `InitiateBet`, whose own contract states the effect.
- Game.Session.CountdownTick: the digit shown on each tick is not kept in the session state. `Countdown.Run` and `Countdown.FromStart` state what a run shows.
