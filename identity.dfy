/** Identity resolution from the Telegram host context. */
module Identity {
  import opened Types

  const FALLBACK_USER_ID: string := "demo_user_local_test"

  predicate IsDigit(ch: char) { '0' <= ch <= '9' }

  function DigitChar(d: nat): (ch: char)
    requires d < 10
    ensures IsDigit(ch) && ch as int - '0' as int == d
  {
    (48 + d) as char
  }

  /** The decimal digits of n, most significant first. */
  function Digits(n: nat): (s: string)
    ensures |s| >= 1
    ensures forall i :: 0 <= i < |s| ==> IsDigit(s[i])
    decreases n
  {
    if n < 10 then [DigitChar(n)] else Digits(n / 10) + [DigitChar(n % 10)]
  }

  /** The number a string of decimal digits denotes. */
  function DigitsValue(s: string): nat
    requires forall i :: 0 <= i < |s| ==> IsDigit(s[i])
    decreases |s|
  {
    if s == [] then 0
    else
      assert IsDigit(s[|s| - 1]);
      DigitsValue(s[..|s| - 1]) * 10 + (s[|s| - 1] as int - '0' as int)
  }

  lemma {:induction false} DigitsRoundTrip(n: nat)
    ensures DigitsValue(Digits(n)) == n
    decreases n
  {
    if n >= 10 {
      var s := Digits(n);
      assert s[..|s| - 1] == Digits(n / 10);
      DigitsRoundTrip(n / 10);
    }
  }

  /** Number.prototype.toString for an integer id. */
  function IntToString(n: int): (s: string)
    ensures |s| >= 1
  {
    if n < 0 then "-" + Digits(-n) else Digits(n)
  }

  /** Distinct ids have distinct string forms. */
  lemma IntToStringInjective(a: int, b: int)
    requires IntToString(a) == IntToString(b)
    ensures a == b
  {
    if a < 0 && b < 0 {
      assert Digits(-a) == IntToString(a)[1..];
      DigitsRoundTrip(-a);
      DigitsRoundTrip(-b);
    } else if a >= 0 && b >= 0 {
      DigitsRoundTrip(a);
      DigitsRoundTrip(b);
    } else {
      assert IntToString(a)[0] == IntToString(b)[0];
      assert IsDigit(Digits(if a < 0 then b else a)[0]);
    }
  }

  /** getUserId: the host-provided numeric id as a string when the context
      chain is present and the id is truthy (a 0 id is not), otherwise the
      fallback literal. `telegramId` is None whenever any link of the chain
      is missing or reading it throws. */
  function GetUserId(telegramId: Option<int>): (r: string)
    ensures r != ""
    ensures telegramId.Some? && telegramId.value != 0 ==> r == IntToString(telegramId.value)
    ensures telegramId.None? || telegramId.value == 0 ==> r == FALLBACK_USER_ID
  {
    match telegramId
    case Some(id) => if id != 0 then IntToString(id) else FALLBACK_USER_ID
    case None => FALLBACK_USER_ID
  }

  /** A real host id never collides with the fallback identifier. */
  lemma HostIdIsNotFallback(id: int)
    requires id != 0
    ensures GetUserId(Some(id)) != FALLBACK_USER_ID
  {
    var s := GetUserId(Some(id));
    assert id >= 0 ==> IsDigit(Digits(id)[0]);
    assert s[0] == '-' || IsDigit(s[0]);
    assert FALLBACK_USER_ID[0] == 'd';
  }

  /** Distinct host ids resolve to distinct user ids. */
  lemma DistinctHostIds(a: int, b: int)
    requires a != 0 && b != 0 && a != b
    ensures GetUserId(Some(a)) != GetUserId(Some(b))
  {
    if GetUserId(Some(a)) == GetUserId(Some(b)) {
      IntToStringInjective(a, b);
    }
  }
}
