/** Runs of the typing animation: what a sequence of ticks does, how long it
    takes, and the phrase cycle it settles into. */
module TypingCycle {
  import opened TypingEffect

  /** A state reached after some ticks, with the total delay waited so far. */
  datatype Timed = Timed(state: State, elapsed: int)

  /** `n` ticks from `s`; None if some tick on the way fires no branch. */
  function Run(phrases: PhraseList, s: State, n: nat): (r: Option<Timed>)
    requires PhraseInRange(phrases, s)
    ensures r.Some? ==> PhraseInRange(phrases, r.value.state)
    ensures r.Some? ==> DELETE_DELAY * n <= r.value.elapsed <= HOLD_FULL_DELAY * n
    ensures Inv(phrases, s) ==> r.Some? && Inv(phrases, r.value.state)
    decreases n
  {
    if n == 0 then Some(Timed(s, 0))
    else
      match Step(phrases, s)
      case None => None
      case Some(t) =>
        match Run(phrases, t.next, n - 1)
        case None => None
        case Some(rest) => Some(Timed(rest.state, t.delay + rest.elapsed))
  }

  /** Running `a + b` ticks is running `a` ticks and then `b` more. */
  lemma {:induction false} RunAdditive(phrases: PhraseList, s: State, a: nat, b: nat)
    requires Inv(phrases, s)
    ensures var x := Run(phrases, s, a).value;
            var y := Run(phrases, x.state, b).value;
            Run(phrases, s, a + b) == Some(Timed(y.state, x.elapsed + y.elapsed))
    decreases a
  {
    if a > 0 {
      var t := Step(phrases, s).value;
      RunAdditive(phrases, t.next, a - 1, b);
      var x := Run(phrases, t.next, a - 1).value;
      var z := Run(phrases, t.next, a - 1 + b).value;
      assert Run(phrases, s, a) == Some(Timed(x.state, t.delay + x.elapsed));
      assert Run(phrases, s, a + b) == Some(Timed(z.state, t.delay + z.elapsed));
    }
  }

  /** A single tick from a valid state is the transition Step takes. */
  lemma RunOne(phrases: PhraseList, s: State)
    requires Inv(phrases, s)
    ensures var t := Step(phrases, s).value;
            Run(phrases, s, 1) == Some(Timed(t.next, t.delay))
  {
  }

  /** The number of ticks in one phrase cycle: type, hold, delete, advance. */
  function CycleLength(phrases: PhraseList, i: int): nat
    requires 0 <= i < |phrases|
  {
    2 * |phrases[i]| + 2
  }

  /** The delay waited over one phrase cycle: each character is typed and
      deleted once, plus the hold at full length and the hold at empty. */
  function CycleTime(phrases: PhraseList, i: int): int
    requires 0 <= i < |phrases|
  {
    (TYPE_DELAY + DELETE_DELAY) * |phrases[i]| + HOLD_FULL_DELAY + HOLD_EMPTY_DELAY
  }

  /** The `k`-th state of the cycle of phrase `i`, with the delay waited to
      reach it from `Start(i)`: typed up to `k` characters, then deleting from
      the full phrase down, then the start of the next phrase. */
  function CycleState(phrases: PhraseList, i: int, k: nat): Timed
    requires 0 <= i < |phrases|
    requires k <= 2 * |phrases[i]| + 2
  {
    var len := |phrases[i]|;
    if k <= len then
      Timed(State(i, k, false), TYPE_DELAY * k)
    else if k <= 2 * len + 1 then
      Timed(State(i, 2 * len + 1 - k, true),
            TYPE_DELAY * len + HOLD_FULL_DELAY + DELETE_DELAY * (k - len - 1))
    else
      Timed(Start(NextIndex(phrases, i)), CycleTime(phrases, i))
  }

  /** One tick moves the cycle from its `k`-th state to its `k + 1`-th. */
  lemma CycleStep(phrases: PhraseList, i: int, k: nat)
    requires 0 <= i < |phrases|
    requires k < 2 * |phrases[i]| + 2
    ensures Inv(phrases, CycleState(phrases, i, k).state)
    ensures var t := Step(phrases, CycleState(phrases, i, k).state).value;
            t.next == CycleState(phrases, i, k + 1).state &&
            CycleState(phrases, i, k).elapsed + t.delay == CycleState(phrases, i, k + 1).elapsed
  {
  }

  /** After `k` ticks from the start of phrase `i`, the animator is in the
      cycle's `k`-th state. */
  lemma {:induction false} CycleAt(phrases: PhraseList, i: int, k: nat)
    requires 0 <= i < |phrases|
    requires k <= 2 * |phrases[i]| + 2
    ensures Run(phrases, Start(i), k) == Some(CycleState(phrases, i, k))
  {
    if k > 0 {
      CycleAt(phrases, i, k - 1);
      var prev := CycleState(phrases, i, k - 1);
      CycleStep(phrases, i, k - 1);
      RunAdditive(phrases, Start(i), k - 1, 1);
      RunOne(phrases, prev.state);
    }
  }

  /** Along the cycle of phrase `i`, every state shows the prefix of phrase
      `i` of the length typed so far, and none before the last is the start
      of a phrase. */
  lemma CycleDisplays(phrases: PhraseList, i: int, k: nat)
    requires 0 <= i < |phrases|
    requires k < 2 * |phrases[i]| + 2
    ensures var s := Run(phrases, Start(i), k).value.state;
            s.phraseIdx == i && Displayed(phrases, s) == phrases[i][..s.charIdx] &&
            (k > 0 ==> s.charIdx > 0 || s.deleting)
  {
    CycleAt(phrases, i, k);
  }

  /** From the start of phrase `i`, `2 * |phrases[i]| + 2` ticks reach the
      start of the next phrase, after waiting 150 ms per character plus the
      two holds. */
  lemma PhraseCycle(phrases: PhraseList, i: int)
    requires 0 <= i < |phrases|
    ensures Run(phrases, Start(i), CycleLength(phrases, i)) ==
      Some(Timed(Start(NextIndex(phrases, i)), CycleTime(phrases, i)))
  {
    CycleAt(phrases, i, CycleLength(phrases, i));
  }

  /** Ticks needed to go through the first `j` phrases. */
  function PrefixLength(phrases: PhraseList, j: nat): nat
    requires j <= |phrases|
  {
    if j == 0 then 0 else PrefixLength(phrases, j - 1) + CycleLength(phrases, j - 1)
  }

  /** Delay waited while going through the first `j` phrases. */
  function PrefixTime(phrases: PhraseList, j: nat): int
    requires j <= |phrases|
  {
    if j == 0 then 0 else PrefixTime(phrases, j - 1) + CycleTime(phrases, j - 1)
  }

  /** Going through the first `j` phrases from the initial state leads to the
      start of phrase `j`. */
  lemma {:induction false} Rotation(phrases: PhraseList, j: nat)
    requires j < |phrases|
    ensures Run(phrases, INITIAL, PrefixLength(phrases, j)) ==
      Some(Timed(Start(j), PrefixTime(phrases, j)))
  {
    if j > 0 {
      Rotation(phrases, j - 1);
      RunAdditive(phrases, INITIAL, PrefixLength(phrases, j - 1), CycleLength(phrases, j - 1));
      PhraseCycle(phrases, j - 1);
    }
  }

  /** Going through every phrase once brings the animation back to its
      initial state: the animation is periodic. */
  lemma Period(phrases: PhraseList)
    ensures Run(phrases, INITIAL, PrefixLength(phrases, |phrases|)) ==
      Some(Timed(INITIAL, PrefixTime(phrases, |phrases|)))
  {
    var last := |phrases| - 1;
    Rotation(phrases, last);
    RunAdditive(phrases, INITIAL, PrefixLength(phrases, last), CycleLength(phrases, last));
    PhraseCycle(phrases, last);
  }

  /** With the portfolio's phrases the period is 270 ticks and 36.7 seconds. */
  lemma FullPeriod()
    ensures Run(PHRASES, INITIAL, 270) == Some(Timed(INITIAL, 36700))
  {
    Period(PHRASES);
    assert |PHRASES[0]| == 23 && |PHRASES[1]| == 18 && |PHRASES[2]| == 19 && |PHRASES[3]| == 11;
    assert |PHRASES[4]| == 13 && |PHRASES[5]| == 21 && |PHRASES[6]| == 23;
    assert PrefixLength(PHRASES, 7) == 270;
    assert PrefixTime(PHRASES, 7) == 36700;
  }
}
