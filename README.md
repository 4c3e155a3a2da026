# Typing animation of the portfolio hero line

The portfolio's landing page greets the visitor with "Hello! I'm Grace, a …".
A typing animation finishes the sentence. It types one phrase of a fixed list
character by character, holds it, deletes it character by character, holds the
empty line, and moves on to the next phrase. After the last phrase it wraps
around to the first.

The React component `TypingEffect` keeps three state cells:

- `phraseIdx`: which phrase is current;
- `charIdx`: how many of its characters are shown;
- `deleting`: whether the phrase is being erased.

After every change, an effect arms one timer. The timer's callback performs one
of four transitions: type, start deleting, delete, or go to the next phrase.
This project models that state machine with the timers taken out. Each
transition returns the delay its timer would have waited, as an integer label.

- `typing_effect.dfy`, module `TypingEffect`, holds the model:
  - the phrase list;
  - the state and its invariant;
  - the transition function `Step`;
  - the displayed text;
  - the class `Animator`, whose three fields are the three state cells and
    whose `Tick` method performs one transition in place.
- `cycle.dfy`, module `TypingCycle`, runs the machine for `n` ticks, adding
  up the delays. It proves that each phrase goes through one full cycle, and
  that all phrases together bring the animation back to its start.

Every function and lemma takes the phrase list as a parameter. Its type,
`PhraseList`, only admits non-empty lists. `Animator` and `FullPeriod` use the
component's own seven phrases, `PHRASES`. The other lemmas hold for every
non-empty list.

The code has no "holding" mode; the hold at full length is just the 2000 ms
wait of the step that sets `deleting`. The hold at empty is the 500 ms wait of
the step that moves to the next phrase. The model follows the code: three
state cells, no mode.

## Model

| member | source | states |
|---|---|---|
| `TypingEffect.Step` | src/App.jsx:27-43 | Exactly one transition fires, namely the branch whose guard holds, with that branch's delay. No transition fires exactly when a deleting state has `charIdx < 0` or a typing state has `charIdx` past the phrase's end. The phrase index stays in range. `charIdx` moves by at most one. The invariant `0 <= charIdx <= len` is preserved, and under it some transition always fires. |
| `TypingEffect.NextIndex` | src/App.jsx:39 | `(i + 1) % PHRASES.length` stays a valid index. It is `i + 1` before the last phrase and wraps to 0 after it. |
| `TypingEffect.Delay` | src/App.jsx:31-40 | Each branch's timer is one of the four delays: 100, 2000, 50 or 500 ms. Each delay is positive. |
| `TypingEffect.GuardsExclusive` | src/App.jsx:30-36 | The four branch conditions exclude each other, so at most one branch can fire in any state. |
| `TypingEffect.ExactlyOneBranch` | src/App.jsx:30-41 | Under the invariant, a branch's condition holds if and only if it is the branch `Step` takes. So exactly one branch is enabled. |
| `TypingEffect.SliceTo` | src/App.jsx:46 | `slice(0, end)` returns a prefix of the string. Its length is `end` when `end` is in range. It is the whole string when `end` is past the end. A negative `end` counts back from the end, clamped at 0. |
| `TypingEffect.Displayed` | src/App.jsx:46 | The shown text is always a prefix of the current phrase. Under the invariant it is exactly the first `charIdx` characters. |
| `TypingEffect.Animator.constructor` | src/App.jsx:23-25 | The animator starts at phrase 0 with no characters shown and not deleting, and that state satisfies the invariant. |
| `TypingEffect.Animator.Text` | src/App.jsx:46 | The rendered text is the first `charIdx` characters of the current phrase. |
| `TypingEffect.Animator.Tick` | src/App.jsx:27-43 | One timer firing keeps the invariant and moves to `Step`'s next state, returning its delay. Typing adds exactly one character after 100 ms. At full length, `deleting` is set after 2000 ms. Deleting removes exactly one character after 50 ms. At zero, `deleting` is cleared and the phrase advances modulo the list length after 500 ms. Each branch leaves every other cell unchanged. |
| `TypingCycle.Run` | src/App.jsx:27-43 | Running `n` ticks from a valid state always succeeds and ends in a valid state. The delay waited is between 50·n and 2000·n ms. |
| `TypingCycle.RunAdditive` | src/App.jsx:27-43 | `a + b` ticks give the same result as `a` ticks followed by `b` ticks. The waits add up. |
| `TypingCycle.RunOne` | src/App.jsx:27-43 | One tick of `Run` is exactly the transition `Step` takes. |
| `TypingCycle.CycleStep` | src/App.jsx:30-40 | Each state of a phrase's cycle satisfies the invariant, and one tick moves it to the next state of the cycle. |
| `TypingCycle.CycleAt` | src/App.jsx:30-40 | After `k` ticks from the start of phrase `i`: for `k <= len`, `k` characters are typed; up to `2·len + 1`, the phrase is being deleted from full length down; at `2·len + 2`, phrase `i + 1` starts. Each of these comes with the exact elapsed delay. |
| `TypingCycle.CycleDisplays` | src/App.jsx:30-46 | At every intermediate state of a phrase's cycle, the phrase index is unchanged and the shown text is the first `charIdx` characters of that phrase. No state before the last is the start of a phrase. |
| `TypingCycle.PhraseCycle` | src/App.jsx:30-40 | From `(i, 0, false)`, `2·len + 2` ticks reach `((i + 1) mod N, 0, false)`. The wait is `150·len + 2500` ms. |
| `TypingCycle.Rotation` | src/App.jsx:23-40 | From the initial state, going through the first `j` phrases' cycles reaches the start of phrase `j`. |
| `TypingCycle.Period` | src/App.jsx:23-40 | Going through every phrase's cycle once returns the animation to its initial state, so it is periodic. |
| `TypingCycle.FullPeriod` | src/App.jsx:3-40 | With the seven phrases of the page, the period is 270 ticks and 36 700 ms. |

## Left out

- Scheduling with `setTimeout` and `clearTimeout`, and the effect's cleanup (src/App.jsx:29-42): the timer is host plumbing. Its delay is kept as an integer label on each transition, and each tick stands for one timer firing.
- React's state hooks and re-rendering (src/App.jsx:23-27, 43): these are replaced by the three fields of `Animator`. The component sets `deleting` and `phraseIdx` in one callback, and React applies both before the next render. `Tick` models that as one atomic update.
- The cursor span and all JSX markup (src/App.jsx:45-47): these are presentation only.
- `Card`, the project list and the card grid (src/App.jsx:13-20, 50-59, 89): these are presentation with no logic.
- `scrollDown` (src/App.jsx:62): this is a browser API call.
- String lengths: JavaScript counts UTF-16 code units, and the model counts `char`s. The two agree on the page's phrases, which are plain ASCII.
- Project detail pages and their content-block renderer: their source is not part of this model.
