/** The outcome history: most recent first, bounded to MAX_HISTORY entries. */
module History {
  import opened Types

  const MAX_HISTORY: nat := 20

  /** updateHistory: prepend the new side, then drop the last entry once the
      length exceeds MAX_HISTORY. */
  function Push(h: seq<Side>, side: Side): (r: seq<Side>)
    ensures |h| <= MAX_HISTORY ==> |r| <= MAX_HISTORY
    ensures |r| >= 1 && r[0] == side
    ensures |r| <= |h| + 1 && r == ([side] + h)[..|r|]
  {
    var u := [side] + h;
    if |u| > MAX_HISTORY then u[..|u| - 1] else u
  }

  /** The first MAX_HISTORY entries of a most-recent-first sequence. */
  function Newest(s: seq<Side>): (r: seq<Side>)
    ensures |r| == if |s| <= MAX_HISTORY then |s| else MAX_HISTORY
    ensures r == s[..|r|]
  {
    if |s| <= MAX_HISTORY then s else s[..MAX_HISTORY]
  }

  function Reversed(s: seq<Side>): (r: seq<Side>)
    ensures |r| == |s|
  {
    if s == [] then [] else Reversed(s[1..]) + [s[0]]
  }

  /** Outcomes pushed one after another, oldest first. */
  function PushAll(h: seq<Side>, sides: seq<Side>): seq<Side>
    decreases |sides|
  {
    if sides == [] then h else PushAll(Push(h, sides[0]), sides[1..])
  }

  /** On a history within the bound, one push keeps the newest MAX_HISTORY
      entries of the prepended sequence. */
  lemma PushKeepsNewest(h: seq<Side>, side: Side)
    requires |h| <= MAX_HISTORY
    ensures Push(h, side) == Newest([side] + h)
  {
  }

  /** Truncating the tail first does not change the newest entries. */
  lemma NewestAbsorbs(a: seq<Side>, b: seq<Side>)
    ensures Newest(a + Newest(b)) == Newest(a + b)
  {
  }

  /** Pushing any number of outcomes onto a bounded history leaves the
      MAX_HISTORY most recent outcomes, most recent first. */
  lemma {:induction false} PushAllKeepsMostRecent(h: seq<Side>, sides: seq<Side>)
    requires |h| <= MAX_HISTORY
    ensures PushAll(h, sides) == Newest(Reversed(sides) + h)
    decreases |sides|
  {
    if sides != [] {
      var s, t := sides[0], sides[1..];
      PushKeepsNewest(h, s);
      PushAllKeepsMostRecent(Push(h, s), t);
      NewestAbsorbs(Reversed(t), [s] + h);
      assert Reversed(t) + ([s] + h) == Reversed(sides) + h;
    }
  }

  /** 25 outcomes pushed onto an empty history leave exactly the 20 most
      recent, most recent first. */
  lemma TwentyFiveOutcomes(sides: seq<Side>)
    requires |sides| == 25
    ensures |PushAll([], sides)| == MAX_HISTORY
    ensures PushAll([], sides) == Reversed(sides)[..MAX_HISTORY]
    ensures PushAll([], sides)[0] == sides[24]
  {
    PushAllKeepsMostRecent([], sides);
    assert Reversed(sides) + [] == Reversed(sides);
    ReversedAt(sides, 0);
  }

  lemma {:induction false} ReversedAt(s: seq<Side>, k: nat)
    requires k < |s|
    ensures Reversed(s)[k] == s[|s| - 1 - k]
  {
    if k < |s| - 1 {
      ReversedAt(s[1..], k);
    }
  }
}
