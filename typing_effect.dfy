/** The typing animation of the portfolio's hero line.

    The React component keeps three state cells (the index of the current
    phrase, the number of characters of it that are shown, and whether it is
    deleting) and, after each change, arms one timer whose callback performs
    exactly one of four transitions. Here the timer is reduced to the delay
    it would have been armed with, which each transition returns as a label.
 */
module TypingEffect {

  datatype Option<T> = None | Some(value: T)

  /** A phrase list: the animation indexes it modulo its length, so it is never empty. */
  type PhraseList = p: seq<string> | |p| > 0 witness [""]

  /** The fixed phrase list the hero line cycles through. */
  const PHRASES: PhraseList := [
    "product design engineer",
    "hobbyist artist <3",
    "mechanical engineer",
    "plush maker",
    "lobster lover",
    "makerspace enthusiast",
    "professional napper zzz"
  ]

  /** Delays, in milliseconds, that each transition waits before firing. */
  const TYPE_DELAY := 100
  const HOLD_FULL_DELAY := 2000
  const DELETE_DELAY := 50
  const HOLD_EMPTY_DELAY := 500

  /** The three state cells of the component. */
  datatype State = State(phraseIdx: int, charIdx: int, deleting: bool)

  /** The four transitions, named after what they do. */
  datatype Branch = Type | StartDeleting | Delete | NextPhrase

  /** One fired transition: which branch, the state it produces, and the delay
      of the timer that fired it. */
  datatype Transition = Transition(branch: Branch, next: State, delay: int)

  /** The state the component starts in. */
  const INITIAL := State(0, 0, false)

  /** The state at which phrase `i` begins to be typed. */
  function Start(i: int): State { State(i, 0, false) }

  /** The phrase index can be used to look up a phrase. */
  predicate PhraseInRange(phrases: PhraseList, s: State) { 0 <= s.phraseIdx < |phrases| }

  /** The animator's invariant: a valid phrase, and a character count within it. */
  predicate Inv(phrases: PhraseList, s: State) {
    PhraseInRange(phrases, s) && 0 <= s.charIdx <= |phrases[s.phraseIdx]|
  }

  /** The condition under which each branch of the effect fires. */
  predicate Guard(phrases: PhraseList, b: Branch, s: State)
    requires PhraseInRange(phrases, s)
  {
    var len := |phrases[s.phraseIdx]|;
    match b
    case Type => !s.deleting && s.charIdx < len
    case StartDeleting => !s.deleting && s.charIdx == len
    case Delete => s.deleting && s.charIdx > 0
    case NextPhrase => s.deleting && s.charIdx == 0
  }

  /** The delay each branch's timer is armed with. */
  function Delay(b: Branch): (d: int)
    ensures d > 0
    ensures d == TYPE_DELAY || d == HOLD_FULL_DELAY || d == DELETE_DELAY || d == HOLD_EMPTY_DELAY
  {
    match b
    case Type => TYPE_DELAY
    case StartDeleting => HOLD_FULL_DELAY
    case Delete => DELETE_DELAY
    case NextPhrase => HOLD_EMPTY_DELAY
  }

  /** The phrase index after the current one, wrapping around the list. */
  function NextIndex(phrases: PhraseList, i: int): (j: int)
    requires 0 <= i < |phrases|
    ensures 0 <= j < |phrases|
    ensures i + 1 < |phrases| ==> j == i + 1
    ensures i + 1 == |phrases| ==> j == 0
  {
    (i + 1) % |phrases|
  }

  /** One tick of the effect: the first branch whose condition holds, or None
      when no branch does (the effect then arms no timer and the animation
      stops). The phrase must exist, since the effect reads its length. */
  function Step(phrases: PhraseList, s: State): (r: Option<Transition>)
    requires PhraseInRange(phrases, s)
    ensures r.None? <==> (if s.deleting then s.charIdx < 0 else s.charIdx > |phrases[s.phraseIdx]|)
    ensures r.Some? ==> Guard(phrases, r.value.branch, s) && r.value.delay == Delay(r.value.branch)
    ensures r.Some? ==> PhraseInRange(phrases, r.value.next)
    ensures r.Some? ==> -1 <= r.value.next.charIdx - s.charIdx <= 1
    ensures Inv(phrases, s) ==> r.Some? && Inv(phrases, r.value.next)
  {
    var len := |phrases[s.phraseIdx]|;
    if !s.deleting && s.charIdx < len then
      Some(Transition(Type, s.(charIdx := s.charIdx + 1), TYPE_DELAY))
    else if !s.deleting && s.charIdx == len then
      Some(Transition(StartDeleting, s.(deleting := true), HOLD_FULL_DELAY))
    else if s.deleting && s.charIdx > 0 then
      Some(Transition(Delete, s.(charIdx := s.charIdx - 1), DELETE_DELAY))
    else if s.deleting && s.charIdx == 0 then
      Some(Transition(NextPhrase, State(NextIndex(phrases, s.phraseIdx), s.charIdx, false), HOLD_EMPTY_DELAY))
    else
      None
  }

  /** The branches are mutually exclusive: in any state at most one fires. */
  lemma GuardsExclusive(phrases: PhraseList, s: State, b1: Branch, b2: Branch)
    requires PhraseInRange(phrases, s)
    requires Guard(phrases, b1, s) && Guard(phrases, b2, s)
    ensures b1 == b2
  {
  }

  /** Under the invariant exactly one branch fires, and it is the one Step takes. */
  lemma ExactlyOneBranch(phrases: PhraseList, s: State, b: Branch)
    requires Inv(phrases, s)
    ensures Guard(phrases, b, s) <==> Step(phrases, s).Some? && Step(phrases, s).value.branch == b
  {
  }

  /** `String.prototype.slice(0, end)`: a negative end counts back from the end
      of the string, and the end is clamped to the string. */
  function SliceTo(str: string, end: int): (r: string)
    ensures r <= str
    ensures 0 <= end <= |str| ==> |r| == end
    ensures end >= |str| ==> r == str
    ensures end < 0 ==> |r| == if |str| + end < 0 then 0 else |str| + end
  {
    if end < 0 then
      (if |str| + end < 0 then [] else str[..|str| + end])
    else if end <= |str| then str[..end]
    else str
  }

  /** The text the component displays: the shown prefix of the current phrase. */
  function Displayed(phrases: PhraseList, s: State): (r: string)
    requires PhraseInRange(phrases, s)
    ensures r <= phrases[s.phraseIdx]
    ensures Inv(phrases, s) ==> r == phrases[s.phraseIdx][..s.charIdx] && |r| == s.charIdx
  {
    SliceTo(phrases[s.phraseIdx], s.charIdx)
  }

  /** The mutable animator: the three state cells, updated one tick at a time. */
  class Animator {
    var phraseIdx: int
    var charIdx: int
    var deleting: bool

    function Current(): State
      reads this
    {
      State(phraseIdx, charIdx, deleting)
    }

    predicate Valid()
      reads this
    {
      Inv(PHRASES, Current())
    }

    constructor ()
      ensures Valid()
      ensures Current() == INITIAL
    {
      phraseIdx, charIdx, deleting := 0, 0, false;
    }

    /** The text currently displayed. */
    function Text(): (r: string)
      reads this
      requires Valid()
      ensures r == PHRASES[phraseIdx][..charIdx]
    {
      Displayed(PHRASES, Current())
    }

    /** Fire the pending timer: perform the one enabled branch and return the
        delay the timer was armed with. */
    method Tick() returns (delay: int)
      requires Valid()
      modifies this
      ensures Valid()
      ensures var t := Step(PHRASES, old(Current())).value; t.next == Current() && t.delay == delay
      ensures !old(deleting) && old(charIdx) < |PHRASES[old(phraseIdx)]| ==>
        charIdx == old(charIdx) + 1 && phraseIdx == old(phraseIdx) && !deleting && delay == TYPE_DELAY
      ensures !old(deleting) && old(charIdx) == |PHRASES[old(phraseIdx)]| ==>
        charIdx == old(charIdx) && phraseIdx == old(phraseIdx) && deleting && delay == HOLD_FULL_DELAY
      ensures old(deleting) && old(charIdx) > 0 ==>
        charIdx == old(charIdx) - 1 && phraseIdx == old(phraseIdx) && deleting && delay == DELETE_DELAY
      ensures old(deleting) && old(charIdx) == 0 ==>
        charIdx == 0 && phraseIdx == NextIndex(PHRASES, old(phraseIdx)) && !deleting && delay == HOLD_EMPTY_DELAY
    {
      var len := |PHRASES[phraseIdx]|;
      if !deleting && charIdx < len {
        charIdx := charIdx + 1;
        delay := TYPE_DELAY;
      } else if !deleting && charIdx == len {
        deleting := true;
        delay := HOLD_FULL_DELAY;
      } else if deleting && charIdx > 0 {
        charIdx := charIdx - 1;
        delay := DELETE_DELAY;
      } else if deleting && charIdx == 0 {
        deleting := false;
        phraseIdx := (phraseIdx + 1) % |PHRASES|;
        delay := HOLD_EMPTY_DELAY;
      } else {
        assert false;
      }
    }
  }
}
