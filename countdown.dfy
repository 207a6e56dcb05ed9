/** The reveal countdown: an interval that shows the counter, decrements it,
    and once it has dropped below zero clears itself and fires the reveal
    callback. */
module Countdown {

  const COUNTDOWN_START: int := 3

  /** The interval while it runs (holding the counter), or once cleared. */
  datatype Interval = Running(count: int) | Cleared

  /** What one interval callback shows and what it leaves behind; the
      callback fires exactly when the interval is cleared. */
  datatype TickStep = TickStep(shown: int, next: Interval)

  /** One interval callback on counter `count`. */
  function Tick(count: int): (t: TickStep)
    ensures t.shown == count
    ensures t.next.Cleared? <==> count <= 0
    ensures t.next.Running? ==> t.next.count == count - 1 && t.next.count >= 0
  {
    TickStep(count, if count - 1 < 0 then Cleared else Running(count - 1))
  }

  /** The values shown and the number of callback invocations over `ticks`
      interval periods. */
  datatype Trace = Trace(shown: seq<int>, fired: nat)

  function Run(iv: Interval, ticks: nat): (tr: Trace)
    ensures |tr.shown| <= ticks
    ensures tr.fired <= 1
    ensures iv.Cleared? ==> tr == Trace([], 0)
    decreases ticks
  {
    if ticks == 0 then Trace([], 0)
    else match iv
      case Cleared => Trace([], 0)
      case Running(c) =>
        var t := Tick(c);
        var rest := Run(t.next, ticks - 1);
        Trace([t.shown] + rest.shown, (if t.next.Cleared? then 1 else 0) + rest.fired)
  }

  /** [from, from - 1, ..., from - k + 1]. */
  function Descending(from: int, k: nat): (s: seq<int>)
    ensures |s| == k
    ensures forall i :: 0 <= i < k ==> s[i] == from - i
    decreases k
  {
    if k == 0 then [] else [from] + Descending(from - 1, k - 1)
  }

  /** From counter c >= 0 the interval shows c, c-1, ..., 0, fires the
      callback exactly once, on tick c+1, and does nothing afterwards. */
  lemma {:induction false} RunFrom(c: nat, ticks: nat)
    ensures Run(Running(c), ticks)
              == Trace(Descending(c, if ticks <= c then ticks else c + 1), if ticks > c then 1 else 0)
    decreases ticks
  {
    if ticks > 0 {
      if c == 0 {
        assert Run(Cleared, ticks - 1) == Trace([], 0);
      } else {
        RunFrom(c - 1, ticks - 1);
      }
    }
  }

  /** Started at 3, the countdown shows 3, 2, 1, 0 and fires on the fourth
      tick, once; no tick has an effect after that. */
  lemma FromStart(ticks: nat)
    ensures Run(Running(COUNTDOWN_START), ticks)
              == Trace([3, 2, 1, 0][..if ticks <= 4 then ticks else 4], if ticks >= 4 then 1 else 0)
  {
    RunFrom(3, ticks);
    var k := if ticks <= 4 then ticks else 4;
    assert Descending(3, k) == [3, 2, 1, 0][..k];
  }
}
