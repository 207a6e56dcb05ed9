/** Values exchanged between the wager client and its collaborators:
    the two outcome tags, the settlement authority's reply to a wager,
    and the balance reply read at start-up. */
module Types {

  datatype Option<T> = None | Some(value: T)

  /** The two outcomes a user can stake on ('heads' | 'tails'). */
  datatype Side = Heads | Tails

  /** The `result` field of a settled wager ('win' | 'loss'). */
  datatype Outcome = Win | Loss

  /** The body of a 2xx reply to POST /api/bet. `newBalance` is the
      authoritative balance after settlement. */
  datatype Settlement = Settlement(result: Outcome, winningSide: Side, newBalance: real)

  /** Why a wager submission failed: a non-2xx reply whose body may carry
      an `error` field, or a rejected fetch / unparsable body whose
      exception message is given. */
  datatype BetFailure = HttpError(error: Option<string>) | Transport(message: string)

  /** The reply to POST /api/get-balance: a parsed body (its HTTP status is
      never looked at) or a fetch / JSON failure. */
  datatype BalanceReply = BalanceBody(error: Option<string>, walletBalance: real) | BalanceUnreachable(message: string)

  /** One submission to POST /api/bet, as the client sends it. */
  datatype BetRequest = BetRequest(userId: Option<string>, betAmount: int, choice: Side)

  /** JavaScript truthiness of an optional string field: absent and "" are falsy. */
  predicate Truthy(s: Option<string>) {
    s.Some? && s.value != ""
  }

  const GENERIC_BET_ERROR: string := "API request failed"

  /** The message shown when a wager submission fails: the reply's `error`
      field when truthy, else a generic text; for a transport failure the
      exception's own message. */
  function BetFailureMessage(f: BetFailure): (m: string)
    ensures f.HttpError? && Truthy(f.error) ==> m == f.error.value
    ensures f.HttpError? && !Truthy(f.error) ==> m == GENERIC_BET_ERROR
    ensures f.HttpError? ==> m != ""
    ensures f.Transport? ==> m == f.message
  {
    match f
    case HttpError(e) => if Truthy(e) then e.value else GENERIC_BET_ERROR
    case Transport(msg) => msg
  }

  /** The start-up balance load succeeds exactly when a body arrived and
      it carries no truthy `error` field. */
  predicate BalanceLoaded(r: BalanceReply): (ok: bool)
    ensures r.BalanceUnreachable? ==> !ok
    ensures r.BalanceBody? && (r.error.None? || r.error == Some("")) ==> ok
    ensures r.BalanceBody? && r.error.Some? && r.error.value != "" ==> !ok
  {
    r.BalanceBody? && !Truthy(r.error)
  }
}
